/**
  Beacon deduplication, `TiltMonitor.distinct`: of the advertisements one
  scan returns, keep the first one seen for every uuid, in the order the
  uuids first appear.
 */
module Dedup {
  import opened Sequences

  /** One raw advertisement as the scan reports it: uuid, major, minor. */
  datatype Beacon = Beacon(uuid: string, major: int, minor: int)

  /** The uuids occurring in a batch. */
  function UuidsOf(s: seq<Beacon>): set<string> {
    set b | b in s :: b.uuid
  }

  /** The uuids of a batch, position by position. */
  function Uuids(s: seq<Beacon>): seq<string> {
    seq(|s|, k requires 0 <= k < |s| => s[k].uuid)
  }

  /** No uuid occurs twice. */
  predicate UniqueUuids(s: seq<Beacon>) {
    NoRepeats(Uuids(s))
  }

  /** Appending a record keeps uuids unique exactly when its uuid is new. */
  lemma UniqueUuidsSnoc(p: seq<Beacon>, b: Beacon)
    ensures UniqueUuids(p + [b]) <==> UniqueUuids(p) && b.uuid !in UuidsOf(p)
  {
    assert Uuids(p + [b]) == Uuids(p) + [b.uuid];
    NoRepeatsSnoc(Uuids(p), b.uuid);
    if b.uuid in Uuids(p) {
      var i :| 0 <= i < |p| && Uuids(p)[i] == b.uuid;
      assert p[i] in p;
    }
    if b.uuid in UuidsOf(p) {
      var c :| c in p && c.uuid == b.uuid;
      var i :| 0 <= i < |p| && p[i] == c;
      assert Uuids(p)[i] == b.uuid;
    }
  }

  /** Position `i` holds the first record seen for its uuid. */
  predicate IsFirst(s: seq<Beacon>, i: int) {
    0 <= i < |s| && forall j :: 0 <= j < i ==> s[j].uuid != s[i].uuid
  }

  /** The position where uuid `u` first appears in `s`. */
  function FirstIndex(s: seq<Beacon>, u: string): (i: nat)
    requires u in UuidsOf(s)
    ensures i < |s| && s[i].uuid == u && IsFirst(s, i)
  {
    if s[0].uuid == u then 0
    else
      assert u in UuidsOf(s[1..]) by {
        var b :| b in s && b.uuid == u;
        assert b in s[1..];
      }
      1 + FirstIndex(s[1..], u)
  }

  /** Appending a record leaves the first positions of earlier uuids alone. */
  lemma FirstIndexExtend(p: seq<Beacon>, b: Beacon, u: string)
    requires u in UuidsOf(p)
    ensures u in UuidsOf(p + [b]) && FirstIndex(p + [b], u) == FirstIndex(p, u)
  {
    var s := p + [b];
    var i := FirstIndex(p, u);
    assert s[i] == p[i];
    assert u in UuidsOf(s);
  }

  /** Appending a record with a new uuid makes that record its first one. */
  lemma FirstIndexNew(p: seq<Beacon>, b: Beacon)
    requires b.uuid !in UuidsOf(p)
    ensures b.uuid in UuidsOf(p + [b]) && FirstIndex(p + [b], b.uuid) == |p|
  {
    var s := p + [b];
    assert s[|p|] == b;
  }

  /** Appending one record adds exactly its uuid. */
  lemma UuidsOfSnoc(p: seq<Beacon>, b: Beacon)
    ensures UuidsOf(p + [b]) == UuidsOf(p) + {b.uuid}
  {
    var s := p + [b];
    forall x | x in s ensures x in p || x == b {
      var i :| 0 <= i < |s| && s[i] == x;
      if i < |p| { assert p[i] == x; }
    }
  }

  /**
    `distinct`: walk the batch, keeping a record exactly when its uuid was
    not seen before. It never keeps two records for one uuid, loses no uuid
    and never lengthens the batch.
   */
  function Distinct(s: seq<Beacon>): (r: seq<Beacon>)
    ensures |r| <= |s|
    ensures UniqueUuids(r)
    ensures UuidsOf(r) == UuidsOf(s)
    decreases |s|
  {
    if |s| == 0 then []
    else
      var p, b := s[..|s| - 1], s[|s| - 1];
      assert s == p + [b];
      UuidsOfSnoc(p, b);
      if b.uuid in UuidsOf(p) then Distinct(p)
      else
        var d := Distinct(p);
        UuidsOfSnoc(d, b);
        UniqueUuidsSnoc(d, b);
        d + [b]
  }

  /**
    Each record of `r` is the first record of its uuid in `s`, and the
    records of `r` appear in the order their uuids first appear in `s`.
   */
  ghost predicate FirstOccurrencesInOrder(r: seq<Beacon>, s: seq<Beacon>) {
    && (forall k :: 0 <= k < |r| ==> r[k].uuid in UuidsOf(s) && r[k] == s[FirstIndex(s, r[k].uuid)])
    && (forall k, k' :: 0 <= k < k' < |r| ==> FirstIndex(s, r[k].uuid) < FirstIndex(s, r[k'].uuid))
  }

  /** `r` can be obtained from `s` by deleting records. */
  ghost predicate IsSubsequence(r: seq<Beacon>, s: seq<Beacon>) {
    exists pos: seq<nat> :: IsEmbedding(pos, r, s)
  }

  /** `pos` lists strictly increasing positions of `s` that spell out `r`. */
  ghost predicate IsEmbedding(pos: seq<nat>, r: seq<Beacon>, s: seq<Beacon>) {
    && |pos| == |r|
    && (forall k :: 0 <= k < |pos| ==> pos[k] < |s| && s[pos[k]] == r[k])
    && (forall k, k' :: 0 <= k < k' < |pos| ==> pos[k] < pos[k'])
  }

  /** `distinct` keeps the first record of every uuid, ordered by first appearance. */
  lemma {:induction false} DistinctKeepsFirst(s: seq<Beacon>)
    ensures FirstOccurrencesInOrder(Distinct(s), s)
  {
    if |s| > 0 {
      var p, b := s[..|s| - 1], s[|s| - 1];
      assert s == p + [b];
      DistinctKeepsFirst(p);
      DistinctSnoc(p, b);
      OrderExtend(Distinct(p), p, b);
      if b.uuid !in UuidsOf(p) {
        OrderAppendNew(Distinct(p), p, b);
      }
    }
  }

  /** Appending a record to the batch keeps the ordering property of `r`. */
  lemma OrderExtend(r: seq<Beacon>, p: seq<Beacon>, b: Beacon)
    requires FirstOccurrencesInOrder(r, p)
    ensures FirstOccurrencesInOrder(r, p + [b])
  {
    forall k | 0 <= k < |r|
      ensures r[k].uuid in UuidsOf(p + [b]) && FirstIndex(p + [b], r[k].uuid) == FirstIndex(p, r[k].uuid)
      ensures (p + [b])[FirstIndex(p, r[k].uuid)] == p[FirstIndex(p, r[k].uuid)]
    {
      FirstIndexExtend(p, b, r[k].uuid);
    }
  }

  /** Appending a record with a new uuid to both keeps the ordering property. */
  lemma OrderAppendNew(r: seq<Beacon>, p: seq<Beacon>, b: Beacon)
    requires FirstOccurrencesInOrder(r, p)
    requires b.uuid !in UuidsOf(p)
    ensures FirstOccurrencesInOrder(r + [b], p + [b])
  {
    var s, r' := p + [b], r + [b];
    OrderExtend(r, p, b);
    FirstIndexNew(p, b);
    forall k | 0 <= k < |r| ensures r'[k] == r[k] && FirstIndex(s, r'[k].uuid) < |p| {
    }
    assert r'[|r|] == b == s[|p|];
  }

  /** The output of `distinct` is a subsequence of its input. */
  lemma DistinctIsSubsequence(s: seq<Beacon>)
    ensures IsSubsequence(Distinct(s), s)
  {
    var r := Distinct(s);
    DistinctKeepsFirst(s);
    var pos := seq(|r|, k requires 0 <= k < |r| => FirstIndex(s, r[k].uuid));
    assert IsEmbedding(pos, r, s);
  }

  /** Unfolding `distinct` once: the last record is kept iff its uuid is new. */
  lemma DistinctSnoc(p: seq<Beacon>, b: Beacon)
    ensures Distinct(p + [b]) == if b.uuid in UuidsOf(p) then Distinct(p) else Distinct(p) + [b]
  {
    assert (p + [b])[..|p|] == p;
  }

  /** The ordering property survives dropping a final record no uuid of `r` needs. */
  lemma OrderRestrict(p: seq<Beacon>, b: Beacon, r: seq<Beacon>)
    requires FirstOccurrencesInOrder(r, p + [b])
    requires forall k :: 0 <= k < |r| ==> r[k].uuid in UuidsOf(p)
    ensures FirstOccurrencesInOrder(r, p)
  {
    forall k | 0 <= k < |r|
      ensures FirstIndex(p + [b], r[k].uuid) == FirstIndex(p, r[k].uuid)
      ensures (p + [b])[FirstIndex(p, r[k].uuid)] == p[FirstIndex(p, r[k].uuid)]
    {
      FirstIndexExtend(p, b, r[k].uuid);
    }
  }

  /**
    Independent characterisation: `distinct` returns the ONLY sequence that
    covers every uuid of the batch with its first record, in order of first
    appearance.
   */
  lemma {:induction false} DistinctCharacterized(s: seq<Beacon>, r: seq<Beacon>)
    requires FirstOccurrencesInOrder(r, s)
    requires UuidsOf(r) == UuidsOf(s)
    ensures r == Distinct(s)
  {
    if |s| > 0 {
      var p, b := s[..|s| - 1], s[|s| - 1];
      assert s == p + [b];
      UuidsOfSnoc(p, b);
      DistinctSnoc(p, b);
      if b.uuid in UuidsOf(p) {
        RepeatedLast(p, b, r);
        DistinctCharacterized(p, r);
      } else {
        NewLast(p, b, r);
        DistinctCharacterized(p, r[..|r| - 1]);
      }
    } else {
      HeadUuid(r);
    }
  }

  /** The uuid of a batch's first record is among its uuids. */
  lemma HeadUuid(r: seq<Beacon>)
    ensures |r| > 0 ==> r[0].uuid in UuidsOf(r)
  {
    if |r| > 0 {
      assert r[0] in r;
    }
  }

  /** Step of `DistinctCharacterized` when the batch's last uuid occurred before. */
  lemma RepeatedLast(p: seq<Beacon>, b: Beacon, r: seq<Beacon>)
    requires FirstOccurrencesInOrder(r, p + [b])
    requires UuidsOf(r) == UuidsOf(p) + {b.uuid}
    requires b.uuid in UuidsOf(p)
    ensures FirstOccurrencesInOrder(r, p) && UuidsOf(r) == UuidsOf(p)
  {
    forall k | 0 <= k < |r| ensures r[k].uuid in UuidsOf(p) {
      assert r[k] in r;
    }
    OrderRestrict(p, b, r);
  }

  /** Step of `DistinctCharacterized` when the batch's last uuid is new. */
  lemma NewLast(p: seq<Beacon>, b: Beacon, r: seq<Beacon>)
    requires FirstOccurrencesInOrder(r, p + [b])
    requires UuidsOf(r) == UuidsOf(p) + {b.uuid}
    requires b.uuid !in UuidsOf(p)
    ensures |r| > 0 && r == r[..|r| - 1] + [b]
    ensures FirstOccurrencesInOrder(r[..|r| - 1], p) && UuidsOf(r[..|r| - 1]) == UuidsOf(p)
  {
    FirstIndexNew(p, b);
    var k := LastHoldsNew(p, b, r);
    PrefixAvoidsNew(p, b, r);
    PrefixInOrder(p, b, r);
    PrefixUuids(p, b, r);
  }

  /**
    When the last record of `r` is the new uuid's and the rest hold old
    uuids, the rest covers exactly the uuids of the shorter batch.
   */
  lemma PrefixUuids(p: seq<Beacon>, b: Beacon, r: seq<Beacon>)
    requires |r| > 0 && r[|r| - 1] == b
    requires forall j :: 0 <= j < |r| - 1 ==> r[j].uuid in UuidsOf(p)
    requires UuidsOf(r) == UuidsOf(p) + {b.uuid}
    requires b.uuid !in UuidsOf(p)
    ensures UuidsOf(r[..|r| - 1]) == UuidsOf(p)
  {
    var r' := r[..|r| - 1];
    assert r == r' + [b];
    UuidsWithin(r', UuidsOf(p));
    UuidsOfSnoc(r', b);
    SetCancel(UuidsOf(r'), UuidsOf(p), b.uuid);
  }

  /** A batch whose every uuid lies in `u` has its uuid set inside `u`. */
  lemma UuidsWithin(r: seq<Beacon>, u: set<string>)
    requires forall j :: 0 <= j < |r| ==> r[j].uuid in u
    ensures UuidsOf(r) <= u
  {
    forall x | x in r ensures x.uuid in u {
      var j :| 0 <= j < |r| && r[j] == x;
    }
  }

  /** Adding one element outside `b` to both sides of `a <= b` cancels. */
  lemma SetCancel<T>(a: set<T>, b: set<T>, x: T)
    requires a <= b && x !in b && a + {x} == b + {x}
    ensures a == b
  {
    assert forall y :: y in b ==> y in a + {x};
  }

  /** Before the new uuid's record, `r` only holds uuids of the shorter batch. */
  lemma PrefixAvoidsNew(p: seq<Beacon>, b: Beacon, r: seq<Beacon>)
    requires FirstOccurrencesInOrder(r, p + [b])
    requires UuidsOf(r) == UuidsOf(p) + {b.uuid}
    requires |r| > 0 && r[|r| - 1] == b
    requires b.uuid in UuidsOf(p + [b]) && FirstIndex(p + [b], b.uuid) == |p|
    ensures forall j :: 0 <= j < |r| - 1 ==> r[j].uuid in UuidsOf(p)
  {
    forall j | 0 <= j < |r| - 1 ensures r[j].uuid in UuidsOf(p) {
      assert FirstIndex(p + [b], r[j].uuid) < FirstIndex(p + [b], r[|r| - 1].uuid);
      assert r[j] in r;
    }
  }

  /** The record of the new uuid sits at the end of `r`. */
  lemma LastHoldsNew(p: seq<Beacon>, b: Beacon, r: seq<Beacon>) returns (k: nat)
    requires FirstOccurrencesInOrder(r, p + [b])
    requires b.uuid in UuidsOf(r)
    requires b.uuid in UuidsOf(p + [b]) && FirstIndex(p + [b], b.uuid) == |p|
    ensures k == |r| - 1 && r[k] == b
  {
    var x :| x in r && x.uuid == b.uuid;
    k :| k < |r| && r[k] == x;
    var s := p + [b];
    var fk, fl := FirstIndex(s, r[k].uuid), FirstIndex(s, r[|r| - 1].uuid);
    assert r[k] == s[|p|];
  }

  /** Dropping the last element of `r` and of the batch keeps the ordering property. */
  lemma PrefixInOrder(p: seq<Beacon>, b: Beacon, r: seq<Beacon>)
    requires |r| > 0 && FirstOccurrencesInOrder(r, p + [b])
    requires forall j :: 0 <= j < |r| - 1 ==> r[j].uuid in UuidsOf(p)
    ensures FirstOccurrencesInOrder(r[..|r| - 1], p)
  {
    var r' := r[..|r| - 1];
    OrderPrefix(r, p + [b]);
    OrderRestrict(p, b, r');
  }

  /** Dropping the last element keeps the ordering property. */
  lemma OrderPrefix(r: seq<Beacon>, s: seq<Beacon>)
    requires |r| > 0 && FirstOccurrencesInOrder(r, s)
    ensures FirstOccurrencesInOrder(r[..|r| - 1], s)
  {
  }

  /** A batch without repeated uuids passes through `distinct` unchanged. */
  lemma {:induction false} DistinctOfUnique(s: seq<Beacon>)
    requires UniqueUuids(s)
    ensures Distinct(s) == s
  {
    if |s| > 0 {
      var p, b := s[..|s| - 1], s[|s| - 1];
      assert s == p + [b];
      UniqueUuidsSnoc(p, b);
      DistinctOfUnique(p);
      DistinctSnoc(p, b);
    }
  }

  /** Deduplicating twice is the same as deduplicating once. */
  lemma DistinctIdempotent(s: seq<Beacon>)
    ensures Distinct(Distinct(s)) == Distinct(s)
  {
    DistinctOfUnique(Distinct(s));
  }

  /**
    The batch A, B, A, C, B comes out as A, B, C, where A and B are the
    first advertisements seen for them.
   */
  lemma DistinctExample(a1: Beacon, b1: Beacon, a2: Beacon, c: Beacon, b2: Beacon)
    requires a1.uuid == a2.uuid
    requires b1.uuid == b2.uuid
    requires a1.uuid != b1.uuid
    requires a1.uuid != c.uuid
    requires b1.uuid != c.uuid
    ensures Distinct([a1, b1, a2, c, b2]) == [a1, b1, c]
  {
    var s3 := [a1, b1, a2];
    var s4 := s3 + [c];
    var s5 := s4 + [b2];
    DistinctDropsRepeatTriple(a1, b1, a2);
    DistinctKeep(s3, c);
    DistinctSkip(s4, b2, b1);
    assert s5 == [a1, b1, a2, c, b2];
  }

  /**
    A record repeating an earlier uuid is dropped: the output's record for
    that uuid comes from a position no later than the earlier one.
   */
  lemma DistinctDropsRepeat(s: seq<Beacon>, i: int, j: int)
    requires 0 <= i < j < |s| && s[i].uuid == s[j].uuid
    ensures s[j].uuid in UuidsOf(s)
    ensures FirstIndex(s, s[j].uuid) <= i
    ensures forall k :: 0 <= k < |Distinct(s)| && Distinct(s)[k].uuid == s[j].uuid ==>
                        Distinct(s)[k] == s[FirstIndex(s, s[j].uuid)]
  {
    assert s[j] in s;
    DistinctKeepsFirst(s);
  }

  /** The three-record case: a repeat of the first uuid after a different one is dropped. */
  lemma DistinctDropsRepeatTriple(b1: Beacon, foreign: Beacon, b2: Beacon)
    requires b1.uuid == b2.uuid
    requires b1.uuid != foreign.uuid
    ensures Distinct([b1, foreign, b2]) == [b1, foreign]
  {
    var s2 := [b1, foreign];
    assert UniqueUuids(s2);
    DistinctOfUnique(s2);
    DistinctSkip(s2, b2, b1);
    assert s2 + [b2] == [b1, foreign, b2];
  }

  /** A record whose uuid has not been seen is kept. */
  lemma DistinctKeep(p: seq<Beacon>, b: Beacon)
    requires forall x :: x in p ==> x.uuid != b.uuid
    ensures Distinct(p + [b]) == Distinct(p) + [b]
  {
    DistinctSnoc(p, b);
  }

  /** A record whose uuid was seen in `x` is dropped. */
  lemma DistinctSkip(p: seq<Beacon>, b: Beacon, x: Beacon)
    requires x in p && x.uuid == b.uuid
    ensures Distinct(p + [b]) == Distinct(p)
  {
    DistinctSnoc(p, b);
  }

  /**
    The imperative `distinct`: a `seen` set of uuids and the `unique` list,
    one pass over the batch.
   */
  method DistinctBeacons(objects: seq<Beacon>) returns (unique: seq<Beacon>)
    ensures unique == Distinct(objects)
    ensures UniqueUuids(unique) && UuidsOf(unique) == UuidsOf(objects)
  {
    var seen: set<string> := {};
    unique := [];
    for i := 0 to |objects|
      invariant unique == Distinct(objects[..i])
      invariant seen == UuidsOf(objects[..i])
    {
      var obj := objects[i];
      assert objects[..i + 1] == objects[..i] + [obj];
      UuidsOfSnoc(objects[..i], obj);
      if obj.uuid !in seen {
        unique := unique + [obj];
        seen := seen + {obj.uuid};
      }
    }
    assert objects[..|objects|] == objects;
  }
}
