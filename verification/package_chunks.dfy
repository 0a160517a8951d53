/**
 * Content-defined ranges of a release package: where they are cut, and that packages with a
 * common end are cut alike there.
 */
module PackageChunks {
  import opened Bytes
  import opened Search

  const MIN_CHUNK: nat := 64 * 1024
  const MAX_CHUNK: nat := 1024 * 1024
  const BOUNDARY: seq<byte> := [0xb7, 0x3a]

  /** Where the range from `offset` ends: after the first boundary far enough on, or as far on as a range goes. */
  function CutAfter(data: seq<byte>, offset: nat): (end: nat)
    requires offset < |data|
    ensures offset < end <= |data|
  {
    var limit := if offset + MAX_CHUNK < |data| then offset + MAX_CHUNK else |data|;
    match Find(data[..limit], BOUNDARY, offset + MIN_CHUNK)
    case Some(marker) => marker + |BOUNDARY|
    case None => limit
  }

  /** The ranges from `offset` on: where each starts and ends. */
  function Ranges(data: seq<byte>, offset: nat): seq<(nat, nat)>
    requires offset <= |data|
    decreases |data| - offset
  {
    if offset == |data| then [] else [(offset, CutAfter(data, offset))] + Ranges(data, CutAfter(data, offset))
  }

  method Boundaries(data: seq<byte>) returns (ranges: seq<(nat, nat)>)
    ensures ranges == Ranges(data, 0)
  {
    ranges := [];
    var offset := 0;
    while offset < |data|
      invariant offset <= |data|
      invariant ranges + Ranges(data, offset) == Ranges(data, 0)
    {
      var end := CutAfter(data, offset);
      assert ranges + [(offset, end)] + Ranges(data, end) == ranges + Ranges(data, offset);
      ranges := ranges + [(offset, end)];
      offset := end;
    }
    assert ranges + [] == ranges;
  }

  // ----- The ranges are the data, in pieces that are not too small and not too large -----

  lemma CutSize(data: seq<byte>, offset: nat)
    requires offset < |data|
    ensures CutAfter(data, offset) - offset <= MAX_CHUNK
    ensures CutAfter(data, offset) < |data| ==> CutAfter(data, offset) - offset >= MIN_CHUNK + 2
  {
  }

  ghost predicate Consecutive(ranges: seq<(nat, nat)>, from: nat, to: nat) {
    if ranges == [] then from == to
    else ranges[0].0 == from && from < ranges[0].1 && Consecutive(ranges[1..], ranges[0].1, to)
  }

  function Slices(data: seq<byte>, ranges: seq<(nat, nat)>): seq<seq<byte>>
    requires forall i :: 0 <= i < |ranges| ==> ranges[i].0 <= ranges[i].1 <= |data|
  {
    seq(|ranges|, i requires 0 <= i < |ranges| => data[ranges[i].0..ranges[i].1])
  }

  lemma SlicesFirst(data: seq<byte>, ranges: seq<(nat, nat)>)
    requires ranges != [] && forall i :: 0 <= i < |ranges| ==> ranges[i].0 <= ranges[i].1 <= |data|
    ensures Flatten(Slices(data, ranges)) == data[ranges[0].0..ranges[0].1] + Flatten(Slices(data, ranges[1..]))
  {
    assert Slices(data, ranges)[1..] == Slices(data, ranges[1..]);
  }

  /** They follow one another, cover the data, and each but the last has at least its least size. */
  lemma {:induction false} Partition(data: seq<byte>, offset: nat)
    requires offset <= |data|
    ensures var ranges := Ranges(data, offset);
            && Consecutive(ranges, offset, |data|)
            && (forall i :: 0 <= i < |ranges| ==> offset <= ranges[i].0 < ranges[i].1 <= |data|)
            && (forall i :: 0 <= i < |ranges| ==> ranges[i].1 - ranges[i].0 <= MAX_CHUNK)
            && (forall i :: 0 <= i < |ranges| - 1 ==> ranges[i].1 - ranges[i].0 >= MIN_CHUNK + 2)
            && Flatten(Slices(data, ranges)) == data[offset..]
    decreases |data| - offset
  {
    hide CutAfter;
    if offset < |data| {
      hide Flatten, Slices;
      var end := CutAfter(data, offset);
      CutSize(data, offset);
      Partition(data, end);
      var ranges := Ranges(data, offset);
      assert ranges[1..] == Ranges(data, end);
      SlicesFirst(data, ranges);
      assert data[offset..end] + data[end..] == data[offset..];
    }
  }

  // ----- Ranges resynchronise -----

  function Shifted(ranges: seq<(nat, nat)>, far: nat): seq<(nat, nat)> {
    seq(|ranges|, i requires 0 <= i < |ranges| => (ranges[i].0 + far, ranges[i].1 + far))
  }

  lemma MatchShift(p: seq<byte>, s: seq<byte>, pat: seq<byte>, i: nat)
    ensures MatchAt(p + s, pat, |p| + i) == MatchAt(s, pat, i)
  {
    if i + |pat| <= |s| {
      assert (p + s)[|p| + i..|p| + i + |pat|] == s[i..i + |pat|];
    }
  }

  lemma {:induction false} FindShift(p: seq<byte>, s: seq<byte>, pat: seq<byte>, from: nat)
    ensures Find(p + s, pat, |p| + from) == match Find(s, pat, from) { case Some(i) => Some(|p| + i) case None => None }
    decreases |s| - from
  {
    MatchShift(p, s, pat, from);
    hide MatchAt;
    if from + |pat| <= |s| && !MatchAt(s, pat, from) {
      FindShift(p, s, pat, from + 1);
    }
  }

  /** A cut depends on what comes after the one before it, and on nothing else. */
  lemma CutShift(p: seq<byte>, s: seq<byte>, offset: nat)
    requires offset < |s|
    ensures CutAfter(p + s, |p| + offset) == |p| + CutAfter(s, offset)
  {
    hide Find;
    var limit := if offset + MAX_CHUNK < |s| then offset + MAX_CHUNK else |s|;
    assert (p + s)[..|p| + limit] == p + s[..limit];
    FindShift(p, s[..limit], BOUNDARY, offset + MIN_CHUNK);
  }

  lemma {:induction false} RangesShift(p: seq<byte>, s: seq<byte>, offset: nat)
    requires offset <= |s|
    ensures Ranges(p + s, |p| + offset) == Shifted(Ranges(s, offset), |p|)
    decreases |s| - offset
  {
    hide CutAfter;
    if offset < |s| {
      CutShift(p, s, offset);
      RangesShift(p, s, CutAfter(s, offset));
      var head := (offset, CutAfter(s, offset));
      assert Shifted([head] + Ranges(s, head.1), |p|)
            == [(head.0 + |p|, head.1 + |p|)] + Shifted(Ranges(s, head.1), |p|);
    }
  }

  /** Whether one of the ranges from `offset` on ends at `t`. */
  ghost predicate CutsAt(data: seq<byte>, offset: nat, t: nat)
    requires offset <= |data|
    decreases |data| - offset
  {
    offset < |data| && (CutAfter(data, offset) == t || CutsAt(data, CutAfter(data, offset), t))
  }

  /** From a cut on, the ranges are those that start at the cut. */
  lemma {:induction false} AfterCut(data: seq<byte>, offset: nat, t: nat) returns (k: nat)
    requires offset <= |data| && CutsAt(data, offset, t)
    ensures t <= |data| && k < |Ranges(data, offset)| && Ranges(data, offset)[k].1 == t
    ensures Ranges(data, offset)[k + 1..] == Ranges(data, t)
    decreases |data| - offset
  {
    hide CutAfter;
    var end := CutAfter(data, offset);
    if end == t {
      k := 0;
    } else {
      var j := AfterCut(data, end, t);
      k := j + 1;
      assert Ranges(data, offset)[1..] == Ranges(data, end);
      assert Ranges(data, offset)[k + 1..] == Ranges(data, end)[j + 1..];
    }
  }

  /** Packages with a common end that share one cut there share all the later ones. */
  lemma Resynchronise(p: seq<byte>, q: seq<byte>, s: seq<byte>, t: nat) returns (j: nat, k: nat)
    requires t <= |s| && CutsAt(p + s, 0, |p| + t) && CutsAt(q + s, 0, |q| + t)
    ensures j < |Ranges(p + s, 0)| && Ranges(p + s, 0)[j].1 == |p| + t
    ensures k < |Ranges(q + s, 0)| && Ranges(q + s, 0)[k].1 == |q| + t
    ensures Ranges(p + s, 0)[j + 1..] == Shifted(Ranges(s, t), |p|)
    ensures Ranges(q + s, 0)[k + 1..] == Shifted(Ranges(s, t), |q|)
  {
    hide Ranges, CutsAt, Shifted;
    j := AfterCut(p + s, 0, |p| + t);
    k := AfterCut(q + s, 0, |q| + t);
    RangesShift(p, s, t);
    RangesShift(q, s, t);
  }

  /** Two boundaries with none between them, not too close together and not too far apart. */
  ghost predicate Anchor(data: seq<byte>, m1: nat, m2: nat) {
    && MatchAt(data, BOUNDARY, m1) && MatchAt(data, BOUNDARY, m2)
    && m1 + MIN_CHUNK + 2 <= m2 <= m1 + MAX_CHUNK - MIN_CHUNK - 1
    && forall i :: m1 < i < m2 ==> !MatchAt(data, BOUNDARY, i)
  }

  lemma AnchorFits(data: seq<byte>, m1: nat, m2: nat)
    requires Anchor(data, m1, m2)
    ensures m2 + 2 <= |data|
  {
  }

  /** The first boundary from far enough on is the one a range is cut at. */
  lemma CutAtBoundary(data: seq<byte>, offset: nat, m: nat)
    requires MatchAt(data, BOUNDARY, m) && offset + MIN_CHUNK <= m && m + 2 <= offset + MAX_CHUNK
    requires forall i :: offset + MIN_CHUNK <= i < m ==> !MatchAt(data, BOUNDARY, i)
    ensures offset < |data| && CutAfter(data, offset) == m + 2
  {
    var limit := if offset + MAX_CHUNK < |data| then offset + MAX_CHUNK else |data|;
    forall i | offset + MIN_CHUNK <= i <= m ensures MatchAt(data[..limit], BOUNDARY, i) == MatchAt(data, BOUNDARY, i) {
      MatchExtend(data[..limit], data, BOUNDARY, i);
    }
    FindIs(data[..limit], BOUNDARY, offset + MIN_CHUNK, m);
  }

  /** A range that goes past a boundary started too close to it. */
  lemma PastBoundary(data: seq<byte>, offset: nat, m: nat)
    requires MatchAt(data, BOUNDARY, m) && offset <= m && CutAfter(data, offset) > m + 2
    ensures m < offset + MIN_CHUNK
  {
    var limit := if offset + MAX_CHUNK < |data| then offset + MAX_CHUNK else |data|;
    FindFirst(data[..limit], BOUNDARY, offset + MIN_CHUNK);
    if offset + MIN_CHUNK <= m {
      MatchExtend(data[..limit], data, BOUNDARY, m);
    }
  }

  /** Wherever the ranges before it are cut, one ends right after an anchor. */
  lemma {:induction false} AnchorIsCut(data: seq<byte>, offset: nat, m1: nat, m2: nat)
    requires Anchor(data, m1, m2) && offset <= m1 + 1
    ensures offset <= |data| && CutsAt(data, offset, m2 + 2)
    decreases m1 + 1 - offset
  {
    hide CutAfter;
    var end := CutAfter(data, offset);
    if end <= m1 + 1 {
      AnchorIsCut(data, end, m1, m2);
    } else if end == m1 + 2 {
      CutAtBoundary(data, end, m2);
    } else {
      if offset <= m1 {
        PastBoundary(data, offset, m1);
      }
      CutAtBoundary(data, offset, m2);
    }
  }

  /** Whatever stands before a common end with an anchor, the ranges after the anchor are the same. */
  lemma AnchorResynchronises(p: seq<byte>, s: seq<byte>, m1: nat, m2: nat) returns (k: nat)
    requires Anchor(s, m1, m2)
    ensures m2 + 2 <= |s| && k < |Ranges(p + s, 0)|
    ensures Ranges(p + s, 0)[k].1 == |p| + m2 + 2
    ensures Ranges(p + s, 0)[k + 1..] == Shifted(Ranges(s, m2 + 2), |p|)
  {
    hide Ranges, CutsAt, Shifted, MatchAt;
    AnchorFits(s, m1, m2);
    MatchShift(p, s, BOUNDARY, m1);
    MatchShift(p, s, BOUNDARY, m2);
    forall i | |p| + m1 < i < |p| + m2 ensures !MatchAt(p + s, BOUNDARY, i) {
      MatchShift(p, s, BOUNDARY, i - |p|);
    }
    AnchorIsCut(p + s, 0, |p| + m1, |p| + m2);
    k := AfterCut(p + s, 0, |p| + m2 + 2);
    RangesShift(p, s, m2 + 2);
  }
}
