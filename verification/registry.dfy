/**
  The device registry `TiltMonitor.TILTS`: the eight Tilt hydrometer beacon
  UUIDs, as 32 lower-case hex digits, and the colour each one reports as.
 */
module Registry {
  import opened Sequences

  /** UUID to colour. */
  const Tilts: map<string, string> := map[
    "a495bb10c5b14b44b5121370f02d74de" := "red",
    "a495bb20c5b14b44b5121370f02d74de" := "green",
    "a495bb30c5b14b44b5121370f02d74de" := "black",
    "a495bb40c5b14b44b5121370f02d74de" := "purple",
    "a495bb50c5b14b44b5121370f02d74de" := "orange",
    "a495bb60c5b14b44b5121370f02d74de" := "blue",
    "a495bb70c5b14b44b5121370f02d74de" := "yellow",
    "a495bb80c5b14b44b5121370f02d74de" := "pink"
  ]

  /** The colour labels a registered device can report as. */
  const Colours: set<string> := {"red", "green", "black", "purple", "orange", "blue", "yellow", "pink"}

  /**
    The registry has eight entries: its UUIDs differ in the seventh hex
    digit, 1 for red up to 8 for pink.
   */
  lemma RegistrySize()
    ensures |Tilts| == 8
  {
    var keys := [
      "a495bb10c5b14b44b5121370f02d74de",
      "a495bb20c5b14b44b5121370f02d74de",
      "a495bb30c5b14b44b5121370f02d74de",
      "a495bb40c5b14b44b5121370f02d74de",
      "a495bb50c5b14b44b5121370f02d74de",
      "a495bb60c5b14b44b5121370f02d74de",
      "a495bb70c5b14b44b5121370f02d74de",
      "a495bb80c5b14b44b5121370f02d74de"];
    assert forall i :: 0 <= i < 8 ==> |keys[i]| == 32 && keys[i][6] == ('1' as int + i) as char;
    CardOfNoRepeats(keys);
    assert Tilts.Keys == set x | x in keys;
  }

  /** The registry's labels are exactly the colours. */
  lemma RegistryColours()
    ensures Tilts.Values == Colours
  {
    assert "a495bb10c5b14b44b5121370f02d74de" in Tilts;
    assert "a495bb20c5b14b44b5121370f02d74de" in Tilts;
    assert "a495bb30c5b14b44b5121370f02d74de" in Tilts;
    assert "a495bb40c5b14b44b5121370f02d74de" in Tilts;
    assert "a495bb50c5b14b44b5121370f02d74de" in Tilts;
    assert "a495bb60c5b14b44b5121370f02d74de" in Tilts;
    assert "a495bb70c5b14b44b5121370f02d74de" in Tilts;
    assert "a495bb80c5b14b44b5121370f02d74de" in Tilts;
  }

  /** The eight colours are all different. */
  lemma ColoursSize()
    ensures |Colours| == 8
  {
    var cs := ["red", "green", "black", "purple", "orange", "blue", "yellow", "pink"];
    assert cs[0][0] == 'r' && cs[1][0] == 'g' && cs[2][0] == 'b' && cs[2][1] == 'l' && cs[2][2] == 'a';
    assert cs[3][0] == 'p' && cs[3][1] == 'u' && cs[4][0] == 'o' && cs[5][2] == 'u';
    assert cs[6][0] == 'y' && cs[7][1] == 'i';
    CardOfNoRepeats(cs);
    assert Colours == set x | x in cs;
  }

  /** No two beacons share a colour, so a colour names one device. */
  lemma LabelsInjective(u: string, v: string)
    requires u in Tilts && v in Tilts
    ensures Tilts[u] == Tilts[v] <==> u == v
  {
  }
}
