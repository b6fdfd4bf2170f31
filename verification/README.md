# tilt2mqtt in Dafny

A model of the pure logic of `tilt2mqtt.py`, the bridge that scans Bluetooth
advertisements of Tilt hydrometers, turns each into a temperature and
specific-gravity reading, calibrates it per colour and hands it to a
callback. The Bluetooth scan, the MQTT and Brewfather sinks, clocks and
random ids are stripped away; what remains is modelled as pure functions
over immutable data, with the two loops of the source also written as
imperative methods.

- `wrappers.dfy`: `Option` (Python's `None` or a value) and `Result`.
- `sequences.dfy`: `NoRepeats`, the one "no element twice" predicate that
  unique uuids, unique colours and the registry's labels are all stated with.
- `line_calibration.dfy`: `lineCalibration`, the line through two reference
  points, over exact reals.
- `registry.dfy`: `TiltMonitor.TILTS`, the eight beacon UUIDs and their colours.
- `dedup.dfy`: `Beacon` (uuid, major, minor) and `TiltMonitor.distinct`.
- `calibration.dfy`: `to_celsius` (including `round(..., 2)`), `calibrate_SG`
  and `calibrate_Tc`.
- `monitor.dfy`: one pass of the `while True` loop of `TiltMonitor.run` as
  the function `ScanCycle` and the method `RunCycle`; the callback is
  modelled by the sequence of readings it would receive.

Four behaviours of the code are worth stating plainly. A colour without a
temperature curve gets `None`, not the uncalibrated value. A calibration
line whose two points share an x-coordinate is accepted when built and
fails with Python's division error only when evaluated. The purple gravity
curve has slope exactly 1, so it is the identity. And `major` is handed to
`to_celsius` as whole degrees Fahrenheit, as it stands.

`round(x, 2)` is modelled on exact reals as rounding to the nearest
hundredth, ties to even. For the integer `major` values a beacon sends,
`(major - 32) / 1.8 * 100` has a fractional part that is a multiple of 1/9,
never one half, so neither the tie rule nor float error changes the result
there.

## Model

| member | source | states |
|---|---|---|
| LineCalibration.Slope | tilt2mqtt.py:50-52 | the slope times the run between the points is the rise |
| LineCalibration.Intercept | tilt2mqtt.py:54-56 | the intercept puts the first reference point on the line |
| LineCalibration.Y | tilt2mqtt.py:58-59 | with x1 != x2 the line passes through both reference points and has point-slope form around the first |
| LineCalibration.Evaluate | tilt2mqtt.py:50-59 | evaluating fails with the division error exactly when x1 == x2; otherwise the value lies on the line through both reference points, in point-slope form around the first |
| LineCalibration.LineUnique | tilt2mqtt.py:42-59 | any slope and intercept through both points are the computed `a` and `b`: the line is the unique one through them |
| LineCalibration.LineSymmetric | tilt2mqtt.py:44-48 | swapping the two reference points gives the same line |
| LineCalibration.IncreasingLine | tilt2mqtt.py:50-59 | a line rising between its reference points is strictly increasing |
| Registry.Tilts | tilt2mqtt.py:64-73 | the map literal copies the eight UUID/colour pairs entry for entry; the lemmas below state its size, its colour set and that no colour repeats |
| Registry.RegistrySize | tilt2mqtt.py:64-73 | the registry has exactly eight entries |
| Registry.RegistryColours | tilt2mqtt.py:64-73 | the registry's labels are exactly red, green, black, purple, orange, blue, yellow and pink |
| Registry.ColoursSize | tilt2mqtt.py:64-73 | the eight colours are pairwise different |
| Registry.LabelsInjective | tilt2mqtt.py:64-73 | two registered UUIDs share a colour only if they are the same UUID |
| Dedup.Distinct | tilt2mqtt.py:82-89 | the output never holds two records with one uuid, holds every uuid of the input, and is no longer than the input |
| Dedup.DistinctKeepsFirst | tilt2mqtt.py:83-89 | each output record is the first record of its uuid in the input, and the output is ordered by first appearance |
| Dedup.DistinctIsSubsequence | tilt2mqtt.py:84-89 | the output is the input with some records deleted |
| Dedup.DistinctCharacterized | tilt2mqtt.py:82-89 | any sequence listing the first record of every input uuid in order of first appearance equals the output |
| Dedup.DistinctOfUnique | tilt2mqtt.py:82-89 | an input without repeated uuids comes out unchanged |
| Dedup.DistinctIdempotent | tilt2mqtt.py:82-89 | deduplicating twice equals deduplicating once |
| Dedup.DistinctExample | tilt2mqtt.py:82-89 | for any records whose uuids follow the pattern A, B, A, C, B, the result is the first A, the first B and C, in that order |
| Dedup.DistinctDropsRepeat | tilt2mqtt.py:85-88 | when a uuid recurs at positions i < j, the output's record for it is the uuid's first record, found at or before position i |
| Dedup.DistinctDropsRepeatTriple | tilt2mqtt.py:85-88 | the three-record batch [b1, foreign, b2], with b2 repeating b1's uuid, comes out as [b1, foreign] |
| Dedup.DistinctBeacons | tilt2mqtt.py:82-89 | the loop with its `seen` set computes the same list as the functional definition, with unique and complete uuids |
| Calibration.FahrenheitToCelsius | tilt2mqtt.py:91-92 | nine times the Celsius value is five times the Fahrenheit value less 32 |
| Calibration.CelsiusRoundTrip | tilt2mqtt.py:91-92 | converting back to Fahrenheit recovers the input |
| Calibration.FixedPoints | tilt2mqtt.py:91-92 | 32 F is 0 C and 212 F is 100 C |
| Calibration.FahrenheitToCelsiusIncreasing | tilt2mqtt.py:91-92 | the exact conversion is strictly increasing |
| Calibration.Round2 | tilt2mqtt.py:92 | the rounded value is a whole number of hundredths within 0.005 of the input, a value already in hundredths is unchanged, and a halfway value goes to the even hundredth |
| Calibration.Round2Ties | tilt2mqtt.py:92 | the exact halfway values 0.125 and 0.375 round to the even hundredths 0.12 and 0.38 |
| Calibration.Round2Monotone | tilt2mqtt.py:92 | rounding never reverses the order of two values |
| Calibration.Round2Separates | tilt2mqtt.py:92 | values more than 0.01 apart stay strictly ordered after rounding |
| Calibration.ToCelsius | tilt2mqtt.py:91-92 | the result is in hundredths and within 0.005 of the exact conversion |
| Calibration.ToCelsiusMonotone | tilt2mqtt.py:91-92 | the rounded conversion is non-decreasing, and strictly increasing for inputs at least 0.02 F apart |
| Calibration.ToCelsiusFixedPoints | tilt2mqtt.py:91-92 | rounding keeps 32 F at 0 C and 212 F at 100 C |
| Calibration.CalibrateSG | tilt2mqtt.py:94-107 | a value exactly for orange and purple; orange is the line of slope 74/72 through (1000, 1000), purple is the identity |
| Calibration.CalibrateTc | tilt2mqtt.py:109-122 | a value exactly for orange and purple; orange subtracts 0.3, purple's line through (20.8, 20) and (21.8, 21) subtracts 0.8 |
| Calibration.OrangeGravityReferencePoints | tilt2mqtt.py:100-102 | the orange gravity curve keeps 1000 and corrects 1072 to 1074 |
| Calibration.CalibrationsIncreasing | tilt2mqtt.py:94-122 | for a calibrated colour both calibrations are strictly increasing |
| Calibration.OrangeTemperatureScenario | tilt2mqtt.py:116-117 | 65 F reads 18.33 C and, over exact reals, calibrates to 18.03 C on an orange Tilt |
| Calibration.PurpleGravityScenario | tilt2mqtt.py:103-107 | gravity 998 calibrates to exactly 998 on a purple Tilt |
| Monitor.MakeReading | tilt2mqtt.py:149-155 | a reading carries the registry colour, the raw minor as `sg`, the temperature `to_celsius(major)`, a whole number of hundredths within 0.005 of the exact conversion, and the colour's calibrations of exactly those values |
| Monitor.Readings | tilt2mqtt.py:145-159 | a reading is built for a beacon exactly when its uuid is registered; there are none exactly when no beacon is registered; distinct uuids give distinct colours |
| Monitor.ReadingsInOrder | tilt2mqtt.py:145-159 | the k-th reading is built from the k-th registered beacon, so readings keep the beacons' order |
| Monitor.ScanCycle | tilt2mqtt.py:138-160 | a cycle has no more readings than the batch has advertisements, and warns exactly when no advertisement in the batch is registered |
| Monitor.CycleInOrder | tilt2mqtt.py:143-159 | of two readings, the earlier one is built from a first advertisement that comes earlier in the batch |
| Monitor.CycleSound | tilt2mqtt.py:143-155 | every reading of a cycle is built from the first advertisement of a registered uuid in the batch |
| Monitor.CycleComplete | tilt2mqtt.py:143-155 | the first advertisement of every registered uuid in the batch yields a reading |
| Monitor.CycleShape | tilt2mqtt.py:138-160 | a cycle reports each colour at most once, at most eight readings, and warns exactly when no uuid of the batch is registered |
| Monitor.RunCycle | tilt2mqtt.py:138-160 | the imperative loop yields the cycle's readings, and `tilt_found` is set exactly when some advertisement is registered |
| Monitor.OrangeCycleScenario | tilt2mqtt.py:138-160 | an orange Tilt seen twice beside a foreign beacon yields one reading, from the first advertisement, and no warning |

## Left out

- Bluetooth device open, scan setup, `parse_events` and the exit on failure (tilt2mqtt.py:125-141): hardware I/O through libraries not part of this model; the batch is an input sequence.
- The callback `tiltCallback` and `BFproxy` (tilt2mqtt.py:163-186): MQTT publish and the Brewfather HTTP post are network clients. Its division of `sg_cal` by 1000 fails for colours whose `sg_cal` is `None`; this dispatch path is not modelled.
- Timestamps, `uuid4` measurement and message ids and `time.sleep` (tilt2mqtt.py:151, 156, 161, 177-178): clock and randomness; a `Reading` carries neither time nor id.
- Configuration and logging (tilt2mqtt.py:18-36): plumbing; the warning of line 160 is the `warn` flag of a cycle.
- The endless repetition of the loop: one pass is modelled; passes share no state.
- Calibration.ToCelsius: rounds the exact real quotient, not the IEEE-754 double Python computes, because float arithmetic is not modelled.
- Calibration.CalibrateTc: results are exact reals. For purple the result is exactly `t - 0.8`, where doubles give an intercept of -0.8000000000000007. For orange, 18.33 - 0.3 is exactly 18.03 here, where doubles give 18.029999999999998.
- Calibration.CalibrateSG: exact reals, not doubles.
- LineCalibration.Y: exact reals, not doubles.
