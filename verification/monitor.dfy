/**
  One pass of the `while True` loop of `TiltMonitor.run`: deduplicate the
  scanned batch, keep the beacons the registry knows, and build one reading
  for each; warn when there is none. The callback is modelled by the
  sequence of readings it would receive, in order.
 */
module Monitor {
  import opened Wrappers
  import opened Registry
  import opened Dedup
  import opened Calibration
  import opened Sequences

  /**
    The `data` dictionary handed to the callback, without its timestamp and
    measurement id.
   */
  datatype Reading = Reading(
    tilt: string,
    temperature: real,
    temperatureCal: Option<real>,
    sg: int,
    sgCal: Option<real>)

  /** The outcome of one cycle: the callback's readings and whether the warning is logged. */
  datatype Cycle = Cycle(readings: seq<Reading>, warn: bool)

  /**
    The reading built for a registered beacon: the colour from the
    registry, the rounded Celsius temperature of `major`, the raw gravity
    `minor`, and each calibrated by the colour's table.
   */
  function MakeReading(b: Beacon): (r: Reading)
    requires b.uuid in Tilts
    ensures r.tilt == Tilts[b.uuid] && r.tilt in Colours
    ensures r.sg == b.minor
    ensures r.temperature == ToCelsius(b.major as real)
    ensures IsCents(r.temperature)
    ensures -0.005 <= r.temperature - FahrenheitToCelsius(b.major as real) <= 0.005
    ensures r.temperatureCal == CalibrateTc(r.temperature, r.tilt)
    ensures r.sgCal == CalibrateSG(b.minor as real, r.tilt)
    ensures r.temperatureCal.Some? <==> r.sgCal.Some?
  {
    RegistryColours();
    var tilt := Tilts[b.uuid];
    Reading(tilt, ToCelsius(b.major as real), CalibrateTc(ToCelsius(b.major as real), tilt), b.minor,
            CalibrateSG(b.minor as real, tilt))
  }

  /** No two readings carry the same colour. */
  predicate UniqueTilts(rs: seq<Reading>) {
    NoRepeats(TiltsOf(rs))
  }

  /** The colours of a sequence of readings, position by position. */
  function TiltsOf(rs: seq<Reading>): seq<string> {
    seq(|rs|, k requires 0 <= k < |rs| => rs[k].tilt)
  }

  /**
    The `for beacon in beacons` loop: a reading for each beacon whose uuid
    is registered, in the beacons' order. Only registered beacons yield
    readings, all of them do, and beacons with distinct uuids yield
    readings with distinct colours.
   */
  function Readings(bs: seq<Beacon>): (rs: seq<Reading>)
    ensures |rs| <= |bs|
    ensures forall r :: r in rs <==> exists b :: b in bs && b.uuid in Tilts && r == MakeReading(b)
    ensures rs == [] <==> forall b :: b in bs ==> b.uuid !in Tilts
    ensures UniqueUuids(bs) ==> UniqueTilts(rs)
    decreases |bs|
  {
    if |bs| == 0 then []
    else
      var p, b := bs[..|bs| - 1], bs[|bs| - 1];
      assert bs == p + [b];
      var rs := Readings(p);
      UniqueUuidsSnoc(p, b);
      if b.uuid in Tilts then
        ReadingsSnocUnique(p, b, rs);
        rs + [MakeReading(b)]
      else
        rs
  }

  /** Appending a reading keeps colours distinct exactly when its colour is new. */
  lemma UniqueTiltsSnoc(rs: seq<Reading>, r: Reading)
    ensures UniqueTilts(rs + [r]) <==> UniqueTilts(rs) && forall k :: 0 <= k < |rs| ==> rs[k].tilt != r.tilt
  {
    assert TiltsOf(rs + [r]) == TiltsOf(rs) + [r.tilt];
    NoRepeatsSnoc(TiltsOf(rs), r.tilt);
    if r.tilt in TiltsOf(rs) {
      var k :| 0 <= k < |rs| && TiltsOf(rs)[k] == r.tilt;
      assert rs[k].tilt == r.tilt;
    } else {
      forall k | 0 <= k < |rs| ensures rs[k].tilt != r.tilt {
        assert TiltsOf(rs)[k] in TiltsOf(rs);
      }
    }
  }

  /** Appending the reading of a beacon with a new uuid keeps colours distinct. */
  lemma ReadingsSnocUnique(p: seq<Beacon>, b: Beacon, rs: seq<Reading>)
    requires b.uuid in Tilts
    requires forall r :: r in rs ==> exists c :: c in p && c.uuid in Tilts && r == MakeReading(c)
    requires UniqueUuids(p + [b]) ==> UniqueTilts(rs)
    ensures UniqueUuids(p + [b]) ==> UniqueTilts(rs + [MakeReading(b)])
  {
    if UniqueUuids(p + [b]) {
      UniqueUuidsSnoc(p, b);
      forall k | 0 <= k < |rs| ensures rs[k].tilt != MakeReading(b).tilt {
        assert rs[k] in rs;
        var c :| c in p && c.uuid in Tilts && rs[k] == MakeReading(c);
        assert c.uuid in UuidsOf(p);
        LabelsInjective(c.uuid, b.uuid);
      }
      UniqueTiltsSnoc(rs, MakeReading(b));
    }
  }

  /** One cycle: readings for the deduplicated, registered beacons; warn if none. */
  function ScanCycle(batch: seq<Beacon>): (c: Cycle)
    ensures |c.readings| <= |batch|
    ensures c.warn <==> forall b :: b in batch ==> b.uuid !in Tilts
  {
    SameUuidsSameRegistered(batch, Distinct(batch));
    var rs := Readings(Distinct(batch));
    Cycle(rs, rs == [])
  }

  /** Two batches with the same uuids either both hold a registered beacon or neither does. */
  lemma SameUuidsSameRegistered(s: seq<Beacon>, t: seq<Beacon>)
    requires UuidsOf(s) == UuidsOf(t)
    ensures (forall b :: b in s ==> b.uuid !in Tilts) <==> (forall b :: b in t ==> b.uuid !in Tilts)
  {
    forall b | b in s && b.uuid in Tilts ensures exists c :: c in t && c.uuid in Tilts {
      assert b.uuid in UuidsOf(t);
    }
    forall b | b in t && b.uuid in Tilts ensures exists c :: c in s && c.uuid in Tilts {
      assert b.uuid in UuidsOf(s);
    }
  }

  /** The positions in `bs` of the registered beacons, in order. */
  function Sources(bs: seq<Beacon>): (ps: seq<nat>)
    ensures forall k :: 0 <= k < |ps| ==> ps[k] < |bs|
    decreases |bs|
  {
    if |bs| == 0 then []
    else
      var ps := Sources(bs[..|bs| - 1]);
      if bs[|bs| - 1].uuid in Tilts then ps + [|bs| - 1] else ps
  }

  /**
    `rs` is the reading of the beacons of `bs` at the strictly increasing
    positions `ps`, each of them registered.
   */
  ghost predicate Aligned(bs: seq<Beacon>, ps: seq<nat>, rs: seq<Reading>) {
    && |ps| == |rs|
    && (forall k :: 0 <= k < |ps| ==>
          ps[k] < |bs| && bs[ps[k]].uuid in Tilts && rs[k] == MakeReading(bs[ps[k]]))
    && (forall k, k' :: 0 <= k < k' < |ps| ==> ps[k] < ps[k'])
  }

  /**
    The readings come in the beacons' order: the k-th reading is built from
    the k-th registered beacon.
   */
  lemma {:induction false} ReadingsInOrder(bs: seq<Beacon>)
    ensures Aligned(bs, Sources(bs), Readings(bs))
    decreases |bs|
  {
    if |bs| > 0 {
      var p, b := bs[..|bs| - 1], bs[|bs| - 1];
      ReadingsInOrder(p);
      assert bs == p + [b];
      AlignedSnoc(p, b, Sources(p), Readings(p));
    }
  }

  /** Appending a beacon keeps readings aligned with their positions. */
  lemma AlignedSnoc(p: seq<Beacon>, b: Beacon, ps: seq<nat>, rs: seq<Reading>)
    requires Aligned(p, ps, rs)
    ensures b.uuid in Tilts ==> Aligned(p + [b], ps + [|p|], rs + [MakeReading(b)])
    ensures b.uuid !in Tilts ==> Aligned(p + [b], ps, rs)
  {
    assert forall j :: 0 <= j < |p| ==> (p + [b])[j] == p[j];
  }

  /**
    Readings reach the callback in the order their beacons first appear in
    the batch.
   */
  lemma CycleInOrder(batch: seq<Beacon>, k: int, k': int)
    requires 0 <= k < k' < |ScanCycle(batch).readings|
    ensures exists i, i' ::
              && 0 <= i < i' < |batch| && IsFirst(batch, i) && IsFirst(batch, i')
              && batch[i].uuid in Tilts && batch[i'].uuid in Tilts
              && ScanCycle(batch).readings[k] == MakeReading(batch[i])
              && ScanCycle(batch).readings[k'] == MakeReading(batch[i'])
  {
    var d := Distinct(batch);
    ReadingsInOrder(d);
    DistinctKeepsFirst(batch);
    var j, j' := Sources(d)[k], Sources(d)[k'];
    var i, i' := FirstIndex(batch, d[j].uuid), FirstIndex(batch, d[j'].uuid);
    assert i < i';
  }

  /**
    Every reading of a cycle comes from the first advertisement of a
    registered uuid in the batch.
   */
  lemma CycleSound(batch: seq<Beacon>, k: int)
    requires 0 <= k < |ScanCycle(batch).readings|
    ensures exists i :: IsFirst(batch, i) && batch[i].uuid in Tilts
                        && ScanCycle(batch).readings[k] == MakeReading(batch[i])
  {
    var r := ScanCycle(batch).readings[k];
    assert r in ScanCycle(batch).readings;
    var d := Distinct(batch);
    var b :| b in d && b.uuid in Tilts && r == MakeReading(b);
    var j :| 0 <= j < |d| && d[j] == b;
    DistinctKeepsFirst(batch);
    var i := FirstIndex(batch, b.uuid);
    assert batch[i] == b;
  }

  /**
    Every registered uuid in the batch yields a reading, built from its
    first advertisement.
   */
  lemma CycleComplete(batch: seq<Beacon>, i: int)
    requires IsFirst(batch, i) && batch[i].uuid in Tilts
    ensures MakeReading(batch[i]) in ScanCycle(batch).readings
  {
    var d := Distinct(batch);
    var u := batch[i].uuid;
    assert batch[i] in batch;
    assert u in UuidsOf(d);
    var b :| b in d && b.uuid == u;
    var k :| 0 <= k < |d| && d[k] == b;
    DistinctKeepsFirst(batch);
    assert FirstIndex(batch, u) == i;
  }

  /**
    A cycle reports each colour at most once, hence at most eight readings,
    and warns exactly when no advertisement in the batch is registered.
   */
  lemma CycleShape(batch: seq<Beacon>)
    ensures UniqueTilts(ScanCycle(batch).readings)
    ensures |ScanCycle(batch).readings| <= |Tilts|
    ensures ScanCycle(batch).warn <==> UuidsOf(batch) !! Tilts.Keys
  {
    var rs := ScanCycle(batch).readings;
    var tilts := TiltsOf(rs);
    CardOfNoRepeats(tilts);
    assert (set x | x in tilts) <= Colours by {
      forall x | x in tilts ensures x in Colours {
        var k :| 0 <= k < |tilts| && tilts[k] == x;
        assert rs[k] in rs;
      }
    }
    RegistryColours();
    RegistrySize();
    ColoursSize();
    assert |set x | x in tilts| <= |Colours| by {
      SubsetCard((set x | x in tilts), Colours);
    }
  }

  /** A subset is no larger than its superset. */
  lemma SubsetCard<T>(a: set<T>, b: set<T>)
    requires a <= b
    ensures |a| <= |b|
  {
    assert b == a + (b - a);
  }

  /**
    The loop body of `run` for one batch: `distinct`, then one pass that
    builds the readings and raises `tilt_found` on the first registered
    beacon.
   */
  method RunCycle(batch: seq<Beacon>) returns (readings: seq<Reading>, tiltFound: bool)
    ensures Cycle(readings, !tiltFound) == ScanCycle(batch)
    ensures tiltFound <==> exists b :: b in batch && b.uuid in Tilts
  {
    var beacons := DistinctBeacons(batch);
    tiltFound := false;
    readings := [];
    for i := 0 to |beacons|
      invariant readings == Readings(beacons[..i])
      invariant tiltFound <==> readings != []
    {
      var beacon := beacons[i];
      assert beacons[..i + 1] == beacons[..i] + [beacon];
      if beacon.uuid in Tilts {
        tiltFound := true;
        readings := readings + [MakeReading(beacon)];
      }
    }
    assert beacons[..|beacons|] == beacons;
    CycleShape(batch);
  }

  /**
    A batch holding an orange Tilt twice (65 F / 1010, then 70 F / 1020)
    and a foreign beacon yields one reading, from the first orange
    advertisement, and no warning.
   */
  lemma OrangeCycleScenario(foreign: Beacon)
    requires foreign.uuid !in Tilts
    ensures
      var orange := "a495bb50c5b14b44b5121370f02d74de";
      ScanCycle([Beacon(orange, 65, 1010), foreign, Beacon(orange, 70, 1020)])
      == Cycle([Reading("orange", 18.33, Some(18.03), 1010, Some(1000.0 + 10.0 * 37.0 / 36.0))], false)
  {
    var orange := "a495bb50c5b14b44b5121370f02d74de";
    var b1, b2 := Beacon(orange, 65, 1010), Beacon(orange, 70, 1020);
    calc {
      Readings(Distinct([b1, foreign, b2]));
    ==  { DistinctDropsRepeatTriple(b1, foreign, b2); }
      Readings([b1, foreign]);
    ==  { ScenarioReadings(b1, foreign); }
      [MakeReading(b1)];
    ==  { ScenarioReading(); }
      [Reading("orange", 18.33, Some(18.03), 1010, Some(1000.0 + 10.0 * 37.0 / 36.0))];
    }
  }

  /** A known beacon followed by a foreign one yields the known one's reading only. */
  lemma ScenarioReadings(b1: Beacon, foreign: Beacon)
    requires b1.uuid in Tilts && foreign.uuid !in Tilts
    ensures Readings([b1, foreign]) == [MakeReading(b1)]
  {
    assert [b1, foreign][..1] == [b1];
    assert [b1][..0] == [];
  }

  /** The orange Tilt at 65 °F and gravity 1010 reads 18.33 °C, calibrated to 18.03. */
  lemma ScenarioReading()
    ensures MakeReading(Beacon("a495bb50c5b14b44b5121370f02d74de", 65, 1010))
      == Reading("orange", 18.33, Some(18.03), 1010, Some(1000.0 + 10.0 * 37.0 / 36.0))
  {
    OrangeTemperatureScenario();
  }
}
