/** The gateways remembered from run to run: the most recent ones, each once. */
module LastConnection {
  import opened Bytes

  const RECENT_CAP: nat := 8

  datatype LastConnection = LastConnection(peer: string, profile: string, carrier: string, recent: seq<string>)

  datatype Save = Save(peer: string, profile: string, carrier: string)

  /** Whether what was saved for `before` is carried over to `carrier`. */
  predicate Carried(before: string, carrier: string) {
    before == "" || before == carrier
  }

  /** What a save makes of what was stored. */
  method SaveConnection(previous: Option<LastConnection>, save: Save) returns (stored: LastConnection)
    ensures stored == Stored(previous, save)
  {
    var carriedOver := if previous.Some? && Carried(previous.value.carrier, save.carrier) then previous.value.recent
      else [];
    var recent := [save.peer];
    for i := 0 to |carriedOver|
      invariant recent == Added([save.peer], save.peer, carriedOver[..i])
    {
      assert carriedOver[..i + 1][..i] == carriedOver[..i];
      if carriedOver[i] != save.peer && |recent| < RECENT_CAP {
        recent := recent + [carriedOver[i]];
      }
    }
    assert carriedOver[..|carriedOver|] == carriedOver;
    stored := LastConnection(save.peer, save.profile, save.carrier, recent);
  }

  /** `recent` with the entries of `list` that are not `peer`, while there is room. */
  function Added(recent: seq<string>, peer: string, list: seq<string>): seq<string> {
    if list == [] then recent
    else
      var before := Added(recent, peer, list[..|list| - 1]);
      if list[|list| - 1] != peer && |before| < RECENT_CAP then before + [list[|list| - 1]] else before
  }

  function Stored(previous: Option<LastConnection>, save: Save): LastConnection {
    var carriedOver := if previous.Some? && Carried(previous.value.carrier, save.carrier) then previous.value.recent
      else [];
    LastConnection(save.peer, save.profile, save.carrier, Added([save.peer], save.peer, carriedOver))
  }

  /** What is stored after `saves`, the oldest first, when nothing was before. */
  function After(saves: seq<Save>): Option<LastConnection> {
    if saves == [] then None else Some(Stored(After(saves[..|saves| - 1]), saves[|saves| - 1]))
  }

  // ----- What it means -----

  /** `list` without `x`. */
  function Without(list: seq<string>, x: string): (r: seq<string>)
    ensures |r| <= |list|
  {
    if list == [] then [] else if list[0] == x then Without(list[1..], x) else [list[0]] + Without(list[1..], x)
  }

  /** The first of each in `list`. */
  function Distinct(list: seq<string>): seq<string>
    decreases |list|
  {
    if list == [] then [] else [list[0]] + Without(Distinct(list[1..]), list[0])
  }

  function Take(list: seq<string>, n: nat): seq<string> {
    if |list| <= n then list else list[..n]
  }

  /** The peers saved since the carrier last changed, the newest first. */
  function Since(saves: seq<Save>): seq<string> {
    if saves == [] then []
    else
      var last := saves[|saves| - 1];
      var before := saves[..|saves| - 1];
      [last.peer] + if before != [] && Carried(before[|before| - 1].carrier, last.carrier) then Since(before) else []
  }

  lemma WithoutFirst(list: seq<string>, x: string)
    requires list != []
    ensures Without(list, x) == if list[0] == x then Without(list[1..], x) else [list[0]] + Without(list[1..], x)
  {
  }

  lemma {:induction false} WithoutAppend(a: seq<string>, b: seq<string>, x: string)
    ensures Without(a + b, x) == Without(a, x) + Without(b, x)
  {
    if a == [] {
      assert a + b == b;
    } else {
      WithoutAppend(a[1..], b, x);
      ConsAppend(a, b);
      WithoutFirst(a, x);
      WithoutFirst(a + b, x);
      hide Without;
      Associates([a[0]], Without(a[1..], x), Without(b, x));
    }
  }

  lemma WithoutSnoc(list: seq<string>, x: string, last: string)
    ensures Without(list + [last], x) == Without(list, x) + if last == x then [] else [last]
  {
    WithoutAppend(list, [last], x);
    WithoutFirst([last], x);
  }

  /** Adding to a list is taking as many as there is room for. */
  lemma {:induction false} AddedIs(peer: string, list: seq<string>)
    ensures Added([peer], peer, list) == Take([peer] + Without(list, peer), RECENT_CAP)
    decreases |list|
  {
    if list != [] {
      var before, last := list[..|list| - 1], list[|list| - 1];
      AddedIs(peer, before);
      WithoutSnoc(before, peer, last);
      assert list == before + [last];
      var all := [peer] + Without(before, peer);
      if last != peer {
        assert [peer] + Without(list, peer) == all + [last];
      }
    }
  }

  predicate NoRepeats(list: seq<string>) {
    list == [] || (list[0] !in list[1..] && NoRepeats(list[1..]))
  }

  lemma {:induction false} WithoutHas(list: seq<string>, x: string, y: string)
    ensures y in Without(list, x) <==> y in list && y != x
  {
    if list != [] {
      WithoutHas(list[1..], x, y);
    }
  }

  lemma {:induction false} WithoutAbsent(list: seq<string>, x: string)
    requires x !in list
    ensures Without(list, x) == list
  {
    if list != [] {
      WithoutAbsent(list[1..], x);
    }
  }

  lemma {:induction false} WithoutIs(list: seq<string>, x: string)
    requires NoRepeats(list)
    ensures NoRepeats(Without(list, x)) && |Without(list, x)| >= |list| - 1
  {
    if list != [] {
      WithoutIs(list[1..], x);
      if list[0] == x {
        WithoutAbsent(list[1..], x);
      } else {
        WithoutHas(list[1..], x, list[0]);
        assert Without(list, x)[1..] == Without(list[1..], x);
      }
    }
  }

  lemma {:induction false} DistinctNoRepeats(list: seq<string>)
    ensures NoRepeats(Distinct(list))
  {
    if list != [] {
      DistinctNoRepeats(list[1..]);
      var rest := Distinct(list[1..]);
      WithoutIs(rest, list[0]);
      WithoutHas(rest, list[0], list[0]);
      assert Distinct(list)[1..] == Without(rest, list[0]);
    }
  }

  lemma {:induction false} NoRepeatsPrefix(list: seq<string>, n: nat)
    requires NoRepeats(list) && n <= |list|
    ensures NoRepeats(list[..n])
  {
    if n > 0 {
      NoRepeatsPrefix(list[1..], n - 1);
      assert list[..n][1..] == list[1..][..n - 1];
    }
  }

  lemma TakeFront(front: seq<string>, back: seq<string>, n: nat)
    requires |front| >= n
    ensures Take(front + back, n) == Take(front, n)
  {
  }

  /** Eight of a list are enough to have eight of it without one entry, behind that entry. */
  lemma TakeWithout(list: seq<string>, x: string)
    requires NoRepeats(list)
    ensures Take([x] + Without(Take(list, RECENT_CAP), x), RECENT_CAP) == Take([x] + Without(list, x), RECENT_CAP)
  {
    hide Without, NoRepeats;
    if |list| > RECENT_CAP {
      var head, tail := list[..RECENT_CAP], list[RECENT_CAP..];
      assert list == head + tail;
      WithoutAppend(head, tail, x);
      NoRepeatsPrefix(list, RECENT_CAP);
      WithoutIs(head, x);
      Associates([x], Without(head, x), Without(tail, x));
      TakeFront([x] + Without(head, x), Without(tail, x), RECENT_CAP);
    }
  }

  /**
   * After any saves, the gateways remembered are the first eight distinct peers saved since the
   * carrier last changed, the newest first, though only the shortened list is kept between saves.
   */
  lemma {:induction false} RecentAreDistinct(saves: seq<Save>)
    requires saves != []
    ensures After(saves).value.recent == Take(Distinct(Since(saves)), RECENT_CAP)
    ensures After(saves).value.carrier == saves[|saves| - 1].carrier
    ensures After(saves).value.peer == saves[|saves| - 1].peer
  {
    hide Added, Distinct, Take, Without;
    var last, before := saves[|saves| - 1], saves[..|saves| - 1];
    if before != [] {
      RecentAreDistinct(before);
    }
    if before != [] && Carried(before[|before| - 1].carrier, last.carrier) {
      CarriedOver(last.peer, Since(before));
    } else {
      Alone(last.peer);
    }
  }

  lemma CarriedOver(peer: string, since: seq<string>)
    ensures Added([peer], peer, Take(Distinct(since), RECENT_CAP)) == Take(Distinct([peer] + since), RECENT_CAP)
  {
    var list := Distinct(since);
    AddedIs(peer, Take(list, RECENT_CAP));
    DistinctNoRepeats(since);
    TakeWithout(list, peer);
    assert ([peer] + since)[1..] == since;
  }

  lemma Alone(peer: string)
    ensures Added([peer], peer, []) == Take(Distinct([peer] + []), RECENT_CAP)
  {
    assert ([peer] + [])[1..] == [] && [peer] + [] == [peer];
  }
}
