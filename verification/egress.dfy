/** Connecting to a name: the order its addresses are tried in, and the race between them (RFC 8305). */
module Egress {
  import opened Bytes

  datatype Address = V4(host: nat) | V6(host: nat)

  // ----- The order -----

  /** The addresses of one family, in their order. */
  function OfFamily(addresses: seq<Address>, v4: bool): seq<Address> {
    if addresses == [] then []
    else (if addresses[0].V4? == v4 then [addresses[0]] else []) + OfFamily(addresses[1..], v4)
  }

  /** Which address comes at place `i` when the families take turns, and the longer goes on alone. */
  function PlaceOf(lead: seq<Address>, other: seq<Address>, i: nat): Address
    requires i < |lead| + |other|
  {
    var m := if |lead| < |other| then |lead| else |other|;
    if i < 2 * m then (if i % 2 == 0 then lead[i / 2] else other[i / 2])
    else if |lead| > m then lead[i - m] else other[i - m]
  }

  ghost predicate Alternates(order: seq<Address>, lead: seq<Address>, other: seq<Address>) {
    |order| == |lead| + |other| && forall i :: 0 <= i < |order| ==> order[i] == PlaceOf(lead, other, i)
  }

  function ByTurns(lead: seq<Address>, other: seq<Address>): seq<Address>
    decreases |lead| + |other|
  {
    if lead == [] then other
    else if other == [] then lead
    else [lead[0], other[0]] + ByTurns(lead[1..], other[1..])
  }

  lemma {:induction false} ByTurnsAlternates(lead: seq<Address>, other: seq<Address>)
    ensures Alternates(ByTurns(lead, other), lead, other)
    decreases |lead| + |other|
  {
    var order := ByTurns(lead, other);
    if lead != [] && other != [] {
      var rest := ByTurns(lead[1..], other[1..]);
      ByTurnsAlternates(lead[1..], other[1..]);
      forall i | 2 <= i < |order| ensures order[i] == PlaceOf(lead, other, i) {
        assert order[i] == rest[i - 2];
        PlaceShifts(lead, other, i);
      }
    }
  }

  lemma PlaceShifts(lead: seq<Address>, other: seq<Address>, i: nat)
    requires lead != [] && other != [] && 2 <= i < |lead| + |other|
    ensures PlaceOf(lead[1..], other[1..], i - 2) == PlaceOf(lead, other, i)
  {
  }

  method Interleaved(addresses: seq<Address>) returns (order: seq<Address>)
    ensures addresses == [] ==> order == []
    ensures addresses != [] ==>
              Alternates(order, OfFamily(addresses, addresses[0].V4?), OfFamily(addresses, !addresses[0].V4?))
    ensures multiset(order) == multiset(addresses)
    ensures forall v4 :: OfFamily(order, v4) == OfFamily(addresses, v4)
  {
    if addresses == [] {
      return addresses;
    }
    hide OfFamily, ByTurns, Alternates;
    var lead, other := OfFamily(addresses, addresses[0].V4?), OfFamily(addresses, !addresses[0].V4?);
    ByTurnsAlternates(lead, other);
    Kept(addresses, addresses[0].V4?);
    order := [];
    ghost var all := ByTurns(lead, other);
    while lead != [] || other != []
      invariant order + ByTurns(lead, other) == all
      decreases |lead| + |other|
    {
      OneTurn(order, lead, other);
      order := order + Head(lead);
      lead := Tail(lead);
      order := order + Head(other);
      other := Tail(other);
    }
    NoTurns();
    assert order + [] == order;
  }

  /** What `pop_front` takes, and what it leaves. */
  function Head(queue: seq<Address>): seq<Address> {
    if queue == [] then [] else [queue[0]]
  }

  function Tail(queue: seq<Address>): seq<Address> {
    if queue == [] then [] else queue[1..]
  }

  lemma NoTurns()
    ensures ByTurns([], []) == []
  {
  }

  lemma TurnsFrom(lead: seq<Address>, other: seq<Address>)
    ensures ByTurns(lead, other) == Head(lead) + Head(other) + ByTurns(Tail(lead), Tail(other))
  {
    if lead == [] {
      assert other == Head(other) + Tail(other);
    } else if other == [] {
      assert lead == Head(lead) + Tail(lead);
    } else {
      assert Head(lead) + Head(other) == [lead[0], other[0]];
    }
  }

  lemma OneTurn(order: seq<Address>, lead: seq<Address>, other: seq<Address>)
    ensures order + Head(lead) + Head(other) + ByTurns(Tail(lead), Tail(other)) == order + ByTurns(lead, other)
  {
    TurnsFrom(lead, other);
    hide ByTurns, Head, Tail;
    Associates(order, Head(lead), Head(other));
    Associates(order, Head(lead) + Head(other), ByTurns(Tail(lead), Tail(other)));
  }

  /** The order of the families taken by turns has the addresses it was given, each family in its order. */
  lemma Kept(addresses: seq<Address>, v4: bool)
    ensures var order := ByTurns(OfFamily(addresses, v4), OfFamily(addresses, !v4));
            multiset(order) == multiset(addresses) && forall f :: OfFamily(order, f) == OfFamily(addresses, f)
  {
    hide OfFamily, ByTurns;
    var lead, other := OfFamily(addresses, v4), OfFamily(addresses, !v4);
    FamiliesAll(addresses, v4);
    TurnsAll(lead, other);
    PureFamily(addresses, v4);
    PureFamily(addresses, !v4);
    TurnsFamily(lead, other, v4);
    forall f ensures OfFamily(ByTurns(lead, other), f) == OfFamily(addresses, f) {
      assert f == v4 || f == !v4;
    }
  }

  lemma {:induction false} FamiliesAll(addresses: seq<Address>, v4: bool)
    ensures multiset(OfFamily(addresses, v4)) + multiset(OfFamily(addresses, !v4)) == multiset(addresses)
  {
    if addresses != [] {
      FamiliesAll(addresses[1..], v4);
      assert addresses == [addresses[0]] + addresses[1..];
    }
  }

  lemma {:induction false} TurnsAll(lead: seq<Address>, other: seq<Address>)
    ensures multiset(ByTurns(lead, other)) == multiset(lead) + multiset(other)
    decreases |lead| + |other|
  {
    if lead != [] && other != [] {
      TurnsAll(lead[1..], other[1..]);
      assert lead == [lead[0]] + lead[1..] && other == [other[0]] + other[1..];
    }
  }

  ghost predicate Pure(addresses: seq<Address>, v4: bool) {
    forall i :: 0 <= i < |addresses| ==> addresses[i].V4? == v4
  }

  lemma {:induction false} PureFamily(addresses: seq<Address>, v4: bool)
    ensures Pure(OfFamily(addresses, v4), v4)
  {
    if addresses != [] {
      PureFamily(addresses[1..], v4);
    }
  }

  lemma {:induction false} PureIs(addresses: seq<Address>, v4: bool)
    requires Pure(addresses, v4)
    ensures OfFamily(addresses, v4) == addresses && OfFamily(addresses, !v4) == []
  {
    if addresses != [] {
      PureIs(addresses[1..], v4);
      assert addresses == [addresses[0]] + addresses[1..];
    }
  }

  lemma {:induction false} TurnsFamily(lead: seq<Address>, other: seq<Address>, v4: bool)
    requires Pure(lead, v4) && Pure(other, !v4)
    ensures OfFamily(ByTurns(lead, other), v4) == lead && OfFamily(ByTurns(lead, other), !v4) == other
    decreases |lead| + |other|
  {
    hide OfFamily;
    if lead == [] {
      PureIs(other, !v4);
    } else if other == [] {
      PureIs(lead, v4);
    } else {
      var rest := ByTurns(lead[1..], other[1..]);
      TurnsFamily(lead[1..], other[1..], v4);
      FamilyOfTwo(lead[0], other[0], rest, v4);
      FamilyOfTwo(lead[0], other[0], rest, !v4);
      assert lead == [lead[0]] + lead[1..] && other == [other[0]] + other[1..];
    }
  }

  lemma FamilyOfTwo(a: Address, b: Address, rest: seq<Address>, v4: bool)
    ensures OfFamily([a, b] + rest, v4) ==
              (if a.V4? == v4 then [a] else []) + ((if b.V4? == v4 then [b] else []) + OfFamily(rest, v4))
  {
    var s := [a, b] + rest;
    assert s[1..] == [b] + rest && ([b] + rest)[1..] == rest;
  }

  // ----- The race -----

  datatype Result = Connected | Refused(error: string)

  /** What the race waits for: an attempt that ends, or the delay. */
  datatype RaceEvent = Done(i: nat, result: Result) | Delay

  /** An attempt that failed: which, and how. */
  datatype Failure = Failure(i: nat, error: string)

  function Failed(failures: seq<Failure>): set<nat> {
    if failures == [] then {} else Failed(failures[..|failures| - 1]) + {failures[|failures| - 1].i}
  }

  lemma FailedGrows(failures: seq<Failure>, f: Failure)
    ensures Failed(failures + [f]) == Failed(failures) + {f.i}
  {
    assert (failures + [f])[..|failures|] == failures;
  }

  /** The numbers below `n`. */
  function Below(n: nat): set<nat> {
    if n == 0 then {} else Below(n - 1) + {n - 1}
  }

  lemma {:induction false} BelowIs(n: nat)
    ensures |Below(n)| == n && forall i :: i in Below(n) <==> 0 <= i < n
  {
    if n > 0 {
      BelowIs(n - 1);
    }
  }

  lemma BelowNext(n: nat)
    ensures Below(n + 1) == Below(n) + {n}
  {
  }

  function LastError(failures: seq<Failure>): Option<string> {
    if failures == [] then None else Some(failures[|failures| - 1].error)
  }

  /** Where the race stands: how many attempts were started, which are in flight, and which failed. */
  datatype Stand = Stand(started: nat, inFlight: set<nat>, failures: seq<Failure>)

  /** The attempts started are those in flight and those that failed, each once. */
  ghost predicate Sound(s: Stand) {
    && s.inFlight !! Failed(s.failures)
    && s.inFlight + Failed(s.failures) == Below(s.started)
    && |s.failures| == |Failed(s.failures)|
  }

  /** The next of the attempts that wait is started, if any. */
  function StartNext(s: Stand, addresses: nat): Stand {
    if s.started < addresses then s.(started := s.started + 1, inFlight := s.inFlight + {s.started}) else s
  }

  function WithFailure(s: Stand, f: Failure): Stand {
    s.(inFlight := s.inFlight - {f.i}, failures := s.failures + [f])
  }

  lemma StartIsSound(s: Stand, addresses: nat)
    requires Sound(s) && s.started <= addresses
    ensures Sound(StartNext(s, addresses)) && StartNext(s, addresses).started <= addresses
    ensures s.started < addresses ==> StartNext(s, addresses).inFlight != {}
    ensures s.inFlight != {} ==> StartNext(s, addresses).inFlight != {}
  {
    BelowIs(s.started);
    BelowNext(s.started);
    hide Failed, Below;
    assert s.started !in s.inFlight + Failed(s.failures);
    assert s.started in s.inFlight + {s.started};
    assert s.inFlight + {s.started} + Failed(s.failures) == s.inFlight + Failed(s.failures) + {s.started};
  }

  lemma FailureIsSound(s: Stand, f: Failure)
    requires Sound(s) && f.i in s.inFlight
    ensures Sound(WithFailure(s, f)) && WithFailure(s, f).started == s.started
  {
    FailedGrows(s.failures, f);
    assert s.inFlight - {f.i} + (Failed(s.failures) + {f.i}) == s.inFlight + Failed(s.failures);
  }

  lemma StartSound()
    ensures Sound(Stand(0, {}, []))
  {
  }

  lemma AllFailed(s: Stand)
    requires Sound(s) && s.inFlight == {}
    ensures Failed(s.failures) == Below(s.started) && |s.failures| == s.started
  {
    BelowIs(s.started);
    assert {} + Failed(s.failures) == Failed(s.failures);
  }

  lemma InFlight(s: Stand, i: nat)
    requires Sound(s) && i in s.inFlight
    ensures i < s.started && i !in Failed(s.failures)
  {
    BelowIs(s.started);
    assert i in Below(s.started);
  }

  datatype Outcome = Racing | Won(i: nat) | Lost(error: Option<string>)

  /** While the race waits one attempt is in flight, as long as there is one to start. */
  function Awaiting(s: Stand, addresses: nat): Stand {
    if s.inFlight == {} then StartNext(s, addresses) else s
  }

  /** What an event makes of the race: both a failure and the delay start one more attempt. */
  function Step(s: Stand, event: RaceEvent, addresses: nat): Stand {
    match event
    case Delay => StartNext(s, addresses)
    case Done(i, Connected) => s
    case Done(i, Refused(error)) =>
      if i in s.inFlight then StartNext(WithFailure(s, Failure(i, error)), addresses) else s
  }

  /** Where the race stands after the first `k` events. */
  function After(addresses: nat, schedule: seq<RaceEvent>, k: nat): Stand
    requires k <= |schedule|
  {
    if k == 0 then Stand(0, {}, [])
    else Step(Awaiting(After(addresses, schedule, k - 1), addresses), schedule[k - 1], addresses)
  }

  /** Every address has failed. */
  predicate IsLost(s: Stand, addresses: nat) {
    s.inFlight == {} && s.started == addresses
  }

  /** An attempt in flight has connected. */
  predicate Wins(s: Stand, event: RaceEvent) {
    event.Done? && event.result.Connected? && event.i in s.inFlight
  }

  /** Event `k` neither ends the race nor finds it ended. */
  predicate GoesOn(addresses: nat, schedule: seq<RaceEvent>, k: nat)
    requires k < |schedule|
  {
    var s := After(addresses, schedule, k);
    !IsLost(s, addresses) && !Wins(Awaiting(s, addresses), schedule[k])
  }

  /**
   * The attempts are started in the order of the addresses, each once, so that those started are the
   * first `stand.started` addresses; while the race waits one is in flight; the first to connect
   * wins; it is lost only once no address is left and all have failed, and says the latest error.
   */
  method Race(addresses: seq<Address>, schedule: seq<RaceEvent>) returns (outcome: Outcome, stand: Stand, used: nat)
    ensures Sound(stand) && stand.started <= |addresses| && used <= |schedule|
    ensures forall k :: 0 <= k < used && k < |schedule| ==>
              GoesOn(|addresses|, schedule, k) || (outcome.Won? && k == used - 1)
    ensures outcome.Racing? ==>
              stand.inFlight != {} && used == |schedule|
              && stand == Awaiting(After(|addresses|, schedule, used), |addresses|)
    ensures outcome.Lost? ==>
              && stand == After(|addresses|, schedule, used)
              && stand.started == |addresses| == |stand.failures| && Failed(stand.failures) == Below(|addresses|)
              && outcome.error == LastError(stand.failures)
    ensures outcome.Won? ==>
              && used > 0 && schedule[used - 1] == Done(outcome.i, Connected)
              && stand == Awaiting(After(|addresses|, schedule, used - 1), |addresses|)
              && outcome.i in stand.inFlight && outcome.i < stand.started
  {
    hide Failed, Below, Sound, WithFailure, StartNext, Step;
    stand, used := Stand(0, {}, []), 0;
    StartSound();
    while true
      invariant Sound(stand) && stand.started <= |addresses| && used <= |schedule|
      invariant stand == After(|addresses|, schedule, used)
      invariant forall k :: 0 <= k < used ==> GoesOn(|addresses|, schedule, k)
      decreases |schedule| - used
    {
      if stand.inFlight == {} {
        if stand.started == |addresses| {
          AllFailed(stand);
          return Lost(LastError(stand.failures)), stand, used;
        }
        StartIsSound(stand, |addresses|);
        stand := StartNext(stand, |addresses|);
      }
      if used == |schedule| {
        return Racing, stand, used;
      }
      var event := schedule[used];
      used := used + 1;
      StepIs(stand, event, |addresses|);
      match event
      case Delay =>
        StartIsSound(stand, |addresses|);
        stand := StartNext(stand, |addresses|);
      case Done(i, result) =>
        if i in stand.inFlight {
          if result.Connected? {
            InFlight(stand, i);
            return Won(i), stand, used;
          }
          FailureIsSound(stand, Failure(i, result.error));
          stand := WithFailure(stand, Failure(i, result.error));
          StartIsSound(stand, |addresses|);
          stand := StartNext(stand, |addresses|);
        }
    }
  }

  lemma StepIs(s: Stand, event: RaceEvent, addresses: nat)
    ensures event.Delay? ==> Step(s, event, addresses) == StartNext(s, addresses)
    ensures event.Done? && event.result.Refused? && event.i in s.inFlight ==>
              Step(s, event, addresses) == StartNext(WithFailure(s, Failure(event.i, event.result.error)), addresses)
    ensures event.Done? && !(event.result.Refused? && event.i in s.inFlight) ==> Step(s, event, addresses) == s
  {
    hide StartNext, WithFailure;
  }
}
