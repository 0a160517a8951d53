/** Bytes, optional and failing results, and the joining of pieces. */
module Bytes {

  type byte = x: int | 0 <= x < 256

  datatype Option<+T> = None | Some(value: T)

  datatype Result<+T, +E> = Ok(value: T) | Err(error: E)

  /** The pieces of a stream, put back together. */
  function Flatten<T>(parts: seq<seq<T>>): seq<T> {
    if parts == [] then [] else parts[0] + Flatten(parts[1..])
  }

  lemma ConsAppend<T>(a: seq<T>, b: seq<T>)
    requires a != []
    ensures (a + b)[0] == a[0] && (a + b)[1..] == a[1..] + b
  {
  }

  lemma Associates<T>(x: seq<T>, y: seq<T>, z: seq<T>)
    ensures x + (y + z) == x + y + z
  {
  }

  /** What stands behind `front` is found as far behind it. */
  lemma Behind<T>(front: seq<T>, back: seq<T>, i: nat, j: nat)
    requires i <= j <= |back|
    ensures (front + back)[|front| + i..|front| + j] == back[i..j]
    ensures (front + back)[|front| + i..] == back[i..]
  {
  }

  lemma ThreeParts<T>(a: seq<T>, b: seq<T>, c: seq<T>)
    ensures (a + b + c)[..|a|] == a && (a + b + c)[|a|..|a| + |b|] == b && (a + b + c)[|a| + |b|..] == c
  {
  }

  lemma {:induction false} FlattenAppend<T>(parts: seq<seq<T>>, more: seq<seq<T>>)
    ensures Flatten(parts + more) == Flatten(parts) + Flatten(more)
  {
    if parts == [] {
      assert parts + more == more;
    } else {
      var rest := parts[1..];
      FlattenAppend(rest, more);
      ConsAppend(parts, more);
      Associates(parts[0], Flatten(rest), Flatten(more));
    }
  }

  lemma FlattenSnoc<T>(parts: seq<seq<T>>, last: seq<T>)
    ensures Flatten(parts + [last]) == Flatten(parts) + last
  {
    FlattenAppend(parts, [last]);
    assert Flatten([last]) == last;
  }
}

/** The first place a pattern stands in a sequence: `windows(n).position(..)`, and Python's `find`. */
module Search {
  import opened Bytes

  predicate MatchAt<T(==)>(s: seq<T>, pat: seq<T>, i: int) {
    0 <= i <= i + |pat| <= |s| && s[i..i + |pat|] == pat
  }

  function Find<T(==)>(s: seq<T>, pat: seq<T>, from: nat): (r: Option<nat>)
    ensures r.Some? ==> from <= r.value && MatchAt(s, pat, r.value)
    decreases |s| - from
  {
    if |s| < from + |pat| then None
    else if MatchAt(s, pat, from) then Some(from)
    else Find(s, pat, from + 1)
  }

  /** How many places the search from `from` looks at. */
  function Visits<T(==)>(s: seq<T>, pat: seq<T>, from: nat): nat {
    match Find(s, pat, from)
    case Some(i) => i - from + 1
    case None => if from + |pat| <= |s| then |s| - |pat| - from + 1 else 0
  }

  /** It is the first match, and there is none when none is found. */
  lemma {:induction false} FindFirst<T>(s: seq<T>, pat: seq<T>, from: nat)
    ensures match Find(s, pat, from)
            case Some(first) => forall i :: from <= i < first ==> !MatchAt(s, pat, i)
            case None => forall i :: from <= i ==> !MatchAt(s, pat, i)
    decreases |s| - from
  {
    if from + |pat| <= |s| && !MatchAt(s, pat, from) {
      FindFirst(s, pat, from + 1);
    }
  }

  lemma FindIs<T>(s: seq<T>, pat: seq<T>, from: nat, i: nat)
    requires from <= i && MatchAt(s, pat, i)
    requires forall j :: from <= j < i ==> !MatchAt(s, pat, j)
    ensures Find(s, pat, from) == Some(i)
  {
    FindFirst(s, pat, from);
  }

  lemma MatchExtend<T>(s: seq<T>, t: seq<T>, pat: seq<T>, i: int)
    requires s <= t && i + |pat| <= |s|
    ensures MatchAt(s, pat, i) == MatchAt(t, pat, i)
  {
    if 0 <= i {
      assert s[i..i + |pat|] == t[i..i + |pat|];
    }
  }

  /** A match found early stays the first one when more comes. */
  lemma FindExtend<T>(s: seq<T>, t: seq<T>, pat: seq<T>, from: nat)
    requires s <= t && Find(s, pat, from).Some?
    ensures Find(t, pat, from) == Find(s, pat, from)
  {
    var i := Find(s, pat, from).value;
    FindFirst(s, pat, from);
    forall j | from <= j <= i ensures MatchAt(t, pat, j) == MatchAt(s, pat, j) {
      MatchExtend(s, t, pat, j);
    }
    FindIs(t, pat, from, i);
  }

  /** A match needs no more than the elements up to its own end. */
  lemma FindShrink<T>(s: seq<T>, cut: nat, pat: seq<T>, from: nat)
    requires Find(s, pat, from).Some? && Find(s, pat, from).value + |pat| <= cut <= |s|
    ensures Find(s[..cut], pat, from) == Find(s, pat, from)
  {
    var i := Find(s, pat, from).value;
    FindFirst(s, pat, from);
    forall j | from <= j <= i ensures MatchAt(s[..cut], pat, j) == MatchAt(s, pat, j) {
      MatchExtend(s[..cut], s, pat, j);
    }
    FindIs(s[..cut], pat, from, i);
  }

  /** A search may start past places known not to match. */
  lemma FindResume<T>(s: seq<T>, pat: seq<T>, from: nat, later: nat)
    requires from <= later
    requires forall i :: from <= i < later ==> !MatchAt(s, pat, i)
    ensures Find(s, pat, later) == Find(s, pat, from)
  {
    FindFirst(s, pat, later);
    FindFirst(s, pat, from);
    match Find(s, pat, later)
    case Some(i) => FindIs(s, pat, from, i);
    case None =>
  }
}
