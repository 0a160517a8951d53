/**
 * Calls to the WARP API: the ways a call may go, how an attempt that fails is followed by another,
 * and how the way the API answered goes first in the next call.
 */
module ApiCall {
  import opened Bytes

  const API_ATTEMPTS: nat := 5
  const API_HOST := "api.devices.cloudflare.com"
  const API_FALLBACK_HOST := "api.cloudflareclient.com"

  /** The addresses of the edge a call may go to by itself. */
  function FrontEdge(k: nat): string
    requires k < 2
  {
    ["104.24.4.6", "104.18.0.6"][k]
  }

  datatype ApiRoute = ApiRoute(host: string, sni: string, address: string, port: nat, front: bool)

  // ----- The ways -----

  function RouteBy(name: string, sni: string, address: Option<(string, nat)>): ApiRoute {
    match address
    case None => ApiRoute(name, sni, sni, 443, false)
    case Some((to, port)) => ApiRoute(name, sni, to, port, false)
  }

  function FrontRoute(name: string, edge: string): ApiRoute {
    ApiRoute(name, name, edge, 443, true)
  }

  /** Every way a call may go; the earlier ones are tried first. `answered` is the name that last worked. */
  function RoutesOf(host: Option<string>, sni: Option<string>, address: Option<(string, nat)>,
        answered: Option<string>): (routes: seq<ApiRoute>)
    ensures routes != [] && (host.None? && sni.None? ==> |routes| >= 2)
  {
    if host.Some? || sni.Some? then
      var name := if host.Some? then host.value else API_HOST;
      [RouteBy(name, if sni.Some? then sni.value else name, address)]
    else DefaultRoutes(FirstName(answered), OtherName(FirstName(answered)), address)
  }

  /** The name that goes first: the one the API answered last, or its own. */
  function FirstName(answered: Option<string>): string {
    if answered == Some(API_FALLBACK_HOST) then API_FALLBACK_HOST else API_HOST
  }

  function OtherName(name: string): string {
    if name == API_FALLBACK_HOST then API_HOST else API_FALLBACK_HOST
  }

  /** Both names and then, unless an address is given, the front edges, by the name that goes first. */
  function DefaultRoutes(first: string, second: string, address: Option<(string, nat)>): (routes: seq<ApiRoute>)
    ensures |routes| >= 2
  {
    [RouteBy(first, first, address), RouteBy(second, second, address)]
    + if address.None? then [FrontRoute(first, FrontEdge(0)), FrontRoute(first, FrontEdge(1))] else []
  }

  /** The ways with the edge that answered last, if it is one of them, turned to the front. */
  function Rotated(routes: seq<ApiRoute>, edge: Option<string>, at: nat): seq<ApiRoute>
    requires at <= |routes|
    decreases |routes| - at
  {
    if edge.None? || at == |routes| then routes
    else if routes[at].front && routes[at].address == edge.value then routes[at..] + routes[..at]
    else Rotated(routes, edge, at + 1)
  }

  /** What a run remembers of the API's answers. */
  datatype Memory = Memory(host: Option<string>, edge: Option<string>)

  datatype Options = Options(host: Option<string>, sni: Option<string>, address: Option<(string, nat)>)

  function RoutesFor(o: Options, m: Memory): seq<ApiRoute> {
    Rotated(RoutesOf(o.host, o.sni, o.address, m.host), m.edge, 0)
  }

  // ----- Answers -----

  /** What an attempt gets: nothing, a status that is none of HTTP's, or an answer. */
  datatype Answer =
    | NoAnswer
    | BadStatus(code: nat)
    | Status(status: nat, envelope: bool, decodes: bool)

  predicate Success(status: nat) { 200 <= status < 300 }

  predicate WorthRetrying(status: nat) { status == 429 || status == 408 || 500 <= status < 600 }

  predicate RefusesIdentity(status: nat) { status == 401 || status == 404 || status == 410 }

  /** Whether an answer is the API's own word: any success is, and so is whatever has its envelope. */
  predicate FromApi(a: Answer) {
    a.Status? && (Success(a.status) || a.envelope)
  }

  /** Whether the way is of no use to this call: someone else answered there, and will answer the same. */
  predicate TurnsAway(a: Answer) {
    a.BadStatus? || (a.Status? && !FromApi(a) && !WorthRetrying(a.status))
  }

  datatype Outcome = Account | Undecodable | IdentityRefused | Failed

  datatype Attempt = Attempt(way: nat, answer: Answer)

  // ----- The next way -----

  /** The way `step` after `way`, round the `n` ways. */
  function Round(way: nat, step: nat, n: nat): (next: nat)
    requires n > 0
    ensures next < n
  {
    (way + step) % n
  }

  /** From `step` ways further on, the first that is still open; `way` itself when there is none. */
  function NextFrom(way: nat, turnedAway: seq<bool>, step: nat): (next: nat)
    requires way < |turnedAway| && 1 <= step <= |turnedAway| + 1
    ensures next < |turnedAway|
    decreases |turnedAway| + 1 - step
  {
    if step > |turnedAway| then way
    else if !turnedAway[Round(way, step, |turnedAway|)] then Round(way, step, |turnedAway|)
    else NextFrom(way, turnedAway, step + 1)
  }

  function NextWay(way: nat, turnedAway: seq<bool>): (next: nat)
    requires way < |turnedAway|
    ensures next < |turnedAway|
  {
    NextFrom(way, turnedAway, 1)
  }

  lemma {:induction false} NextFromIs(way: nat, turnedAway: seq<bool>, step: nat) returns (k: nat)
    requires way < |turnedAway| && 1 <= step <= |turnedAway| + 1
    ensures step <= k <= |turnedAway| + 1
    ensures forall s :: step <= s < k ==> turnedAway[Round(way, s, |turnedAway|)]
    ensures k <= |turnedAway| ==>
              NextFrom(way, turnedAway, step) == Round(way, k, |turnedAway|) && !turnedAway[Round(way, k, |turnedAway|)]
    decreases |turnedAway| + 1 - step
  {
    if step <= |turnedAway| && turnedAway[Round(way, step, |turnedAway|)] {
      k := NextFromIs(way, turnedAway, step + 1);
    } else {
      k := step;
    }
  }

  /** The way `w` comes up within one round. */
  lemma RoundReaches(way: nat, w: nat, n: nat) returns (s: nat)
    requires way < n && w < n
    ensures 1 <= s <= n && Round(way, s, n) == w
  {
    if w > way {
      s := w - way;
    } else {
      s := w + n - way;
      assert way + s == w + n;
      ModAdds(w, n);
    }
  }

  lemma ModAdds(w: nat, n: nat)
    requires w < n
    ensures (w + n) % n == w && w % n == w
  {
  }

  /** With an open way there, the next is the nearest open one, going round from `way`. */
  lemma NextWayIsOpen(way: nat, turnedAway: seq<bool>, open: nat) returns (k: nat)
    requires way < |turnedAway| && open < |turnedAway| && !turnedAway[open]
    ensures 1 <= k <= |turnedAway| && NextWay(way, turnedAway) == Round(way, k, |turnedAway|)
    ensures !turnedAway[NextWay(way, turnedAway)]
    ensures forall s :: 1 <= s < k ==> turnedAway[Round(way, s, |turnedAway|)]
  {
    k := NextFromIs(way, turnedAway, 1);
    var s := RoundReaches(way, open, |turnedAway|);
  }

  // ----- One call -----

  /** Whether `way` has turned the call away in one of `attempts`. */
  ghost predicate TurnedBy(attempts: seq<Attempt>, way: nat) {
    exists i :: 0 <= i < |attempts| && attempts[i].way == way && TurnsAway(attempts[i].answer)
  }

  /** What an attempt that did not succeed leaves to be said in the end. */
  function ErrorOf(a: Answer, ways: nat): Outcome {
    if a.Status? && RefusesIdentity(a.status) && (FromApi(a) || ways == 1 || a.status != 404) then IdentityRefused
    else Failed
  }

  function SettledOutcome(a: Answer, ways: nat): Outcome {
    if a.Status? && Success(a.status) then (if a.decodes then Account else Undecodable) else ErrorOf(a, ways)
  }

  predicate AnyOpen(turnedAway: seq<bool>) {
    exists i :: 0 <= i < |turnedAway| && !turnedAway[i]
  }

  /** Which ways have turned the call away in `attempts`. */
  ghost function TurnedIn(attempts: seq<Attempt>, ways: nat): seq<bool> {
    seq(ways, w requires 0 <= w => TurnedBy(attempts, w))
  }

  /** Whether an attempt that got `a` is followed by one another way. */
  predicate Moves(a: Answer, ways: nat) {
    a.NoAnswer? || (ways > 1 && !FromApi(a))
  }

  /** The way of the attempt after `attempts`. */
  ghost function WayAfter(attempts: seq<Attempt>, ways: nat): nat
    requires attempts != [] && attempts[|attempts| - 1].way < ways
  {
    var last := attempts[|attempts| - 1];
    if Moves(last.answer, ways) then NextWay(last.way, TurnedIn(attempts, ways)) else last.way
  }

  /** Whether a call ends with `attempts`, before they run out. */
  ghost predicate EndsEarly(attempts: seq<Attempt>, ways: nat)
    requires attempts != []
  {
    var last := attempts[|attempts| - 1].answer;
    || (last.Status? && (FromApi(last) || ways == 1) && !WorthRetrying(last.status))
    || (ways == 1 && last.BadStatus?)
    || (ways > 1 && forall w :: 0 <= w < ways ==> TurnedBy(attempts, w))
  }

  /**
   * What happened in a call that may go `ways` ways: no attempt goes one that turned the call away,
   * the first goes the first, each other one where the one before it sends it, and each but the
   * last leaves something to be tried.
   */
  ghost predicate Orderly(attempts: seq<Attempt>, ways: nat) {
    && (forall i :: 0 <= i < |attempts| ==> attempts[i].way < ways && !TurnedBy(attempts[..i], attempts[i].way))
    && (attempts != [] ==> attempts[0].way == 0)
    && (forall i :: 0 < i < |attempts| ==>
              attempts[i].way == WayAfter(attempts[..i], ways) && !EndsEarly(attempts[..i], ways))
  }

  /** Which ways have turned the call away. */
  ghost predicate Marks(turnedAway: seq<bool>, attempts: seq<Attempt>) {
    forall w :: 0 <= w < |turnedAway| ==> (turnedAway[w] <==> TurnedBy(attempts, w))
  }

  lemma TurnedByGrows(attempts: seq<Attempt>, a: Attempt, w: nat)
    ensures TurnedBy(attempts + [a], w) <==> TurnedBy(attempts, w) || (a.way == w && TurnsAway(a.answer))
  {
    hide TurnsAway;
    var more := attempts + [a];
    if TurnedBy(attempts, w) {
      var i :| 0 <= i < |attempts| && attempts[i].way == w && TurnsAway(attempts[i].answer);
      assert more[i].way == w && TurnsAway(more[i].answer);
    }
    if a.way == w && TurnsAway(a.answer) {
      assert more[|attempts|].way == w && TurnsAway(more[|attempts|].answer);
    }
    if TurnedBy(more, w) {
      var i :| 0 <= i < |more| && more[i].way == w && TurnsAway(more[i].answer);
      if i < |attempts| {
        assert attempts[i].way == w && TurnsAway(attempts[i].answer);
      }
    }
  }

  lemma OrderlyGrows(attempts: seq<Attempt>, a: Attempt, ways: nat)
    requires Orderly(attempts, ways) && a.way < ways && !TurnedBy(attempts, a.way)
    requires if attempts == [] then a.way == 0 else a.way == WayAfter(attempts, ways) && !EndsEarly(attempts, ways)
    ensures Orderly(attempts + [a], ways)
  {
    hide TurnedBy, WayAfter, EndsEarly;
    var more := attempts + [a];
    forall i | 0 <= i < |more|
      ensures more[..i] == attempts[..i] && more[i].way < ways && !TurnedBy(more[..i], more[i].way)
    {
      assert more[..i] == attempts[..i];
      if i == |attempts| {
        assert attempts[..i] == attempts;
      }
    }
    forall i | 0 < i < |more| ensures more[i].way == WayAfter(more[..i], ways) && !EndsEarly(more[..i], ways) {
      if i == |attempts| {
        assert attempts[..i] == attempts;
      }
    }
  }

  /** Whether the call ends with `a`, by the ways that have turned it away now. */
  predicate EndsNow(a: Answer, turnedAway: seq<bool>) {
    || (a.Status? && (FromApi(a) || |turnedAway| == 1) && !WorthRetrying(a.status))
    || (|turnedAway| == 1 && a.BadStatus?)
    || (|turnedAway| > 1 && !AnyOpen(turnedAway))
  }

  lemma MarksTell(turnedAway: seq<bool>, attempts: seq<Attempt>)
    requires attempts != [] && attempts[|attempts| - 1].way < |turnedAway|
    requires |turnedAway| > 1 ==> Marks(turnedAway, attempts)
    ensures var last := attempts[|attempts| - 1];
            && (EndsEarly(attempts, |turnedAway|) <==> EndsNow(last.answer, turnedAway))
            && WayAfter(attempts, |turnedAway|) ==
                 if Moves(last.answer, |turnedAway|) then NextWay(last.way, turnedAway) else last.way
  {
    hide TurnedBy, FromApi, WorthRetrying, NextWay;
    if |turnedAway| > 1 {
      assert TurnedIn(attempts, |turnedAway|) == turnedAway;
    }
  }

  lemma MarksGrow(turnedAway: seq<bool>, attempts: seq<Attempt>, a: Attempt)
    requires Marks(turnedAway, attempts) && a.way < |turnedAway|
    ensures Marks(if TurnsAway(a.answer) then turnedAway[a.way := true] else turnedAway, attempts + [a])
  {
    hide TurnedBy, TurnsAway;
    forall w: nat
      ensures TurnedBy(attempts + [a], w) <==> TurnedBy(attempts, w) || (a.way == w && TurnsAway(a.answer))
    {
      TurnedByGrows(attempts, a, w);
    }
  }

  /** What is remembered after the attempts: the way of the last answer of the API itself. */
  function Remembered(m: Memory, routes: seq<ApiRoute>, attempts: seq<Attempt>): Memory
    requires forall i :: 0 <= i < |attempts| ==> attempts[i].way < |routes|
  {
    if attempts == [] then m
    else
      var last := attempts[|attempts| - 1];
      if FromApi(last.answer) then MemoryOf(routes[last.way]) else Remembered(m, routes, attempts[..|attempts| - 1])
  }

  lemma NothingNew(m: Memory, routes: seq<ApiRoute>)
    ensures Remembered(m, routes, []) == m
  {
  }

  lemma RememberedGrows(m: Memory, routes: seq<ApiRoute>, attempts: seq<Attempt>, a: Attempt)
    requires a.way < |routes| && forall i :: 0 <= i < |attempts| ==> attempts[i].way < |routes|
    ensures Remembered(m, routes, attempts + [a]) ==
              if FromApi(a.answer) then MemoryOf(routes[a.way]) else Remembered(m, routes, attempts)
  {
    assert (attempts + [a])[..|attempts|] == attempts;
  }

  function MemoryOf(route: ApiRoute): Memory {
    Memory(Some(route.host), if route.front then Some(route.address) else None)
  }

  /** All that holds of a call: the attempts made, the outcome, and what is remembered. */
  ghost predicate CallIs(routes: seq<ApiRoute>, answers: seq<Answer>, attempts: seq<Attempt>, outcome: Outcome) {
    && 1 <= |attempts| <= |answers|
    && Orderly(attempts, |routes|)
    && (forall i :: 0 <= i < |attempts| ==> attempts[i].answer == answers[i])
    && outcome == SettledOutcome(attempts[|attempts| - 1].answer, |routes|)
    && (|attempts| < |answers| ==> EndsEarly(attempts, |routes|))
  }

  /** Whether a way would be looked up outside the socket mark. */
  predicate Blocked(marked: bool, isIp: string -> bool, routes: seq<ApiRoute>) {
    marked && exists i :: 0 <= i < |routes| && !isIp(routes[i].address)
  }

  class ApiRun {
    /** Whether sockets carry a mark and no proxy looks names up, so that no name may be looked up. */
    const marked: bool
    const isIp: string -> bool
    var memory: Memory

    constructor (marked: bool, isIp: string -> bool)
      ensures memory == Memory(None, None) && this.marked == marked && this.isIp == isIp
    {
      this.marked, this.isIp := marked, isIp;
      memory := Memory(None, None);
    }

    /** The way the API answered by goes first from now on. */
    method Remember(route: ApiRoute)
      modifies this
      ensures memory == MemoryOf(route)
    {
      memory := Memory(Some(route.host), if route.front then Some(route.address) else None);
    }

    /** A call by `routes`, of which each attempt gets the next of `answers`. */
    method CallBy(routes: seq<ApiRoute>, answers: seq<Answer>) returns (outcome: Outcome, attempts: seq<Attempt>)
      requires |answers| == API_ATTEMPTS
      modifies this
      ensures routes == [] || Blocked(marked, isIp, routes) ==> outcome == Failed && attempts == []
      ensures routes != [] && !Blocked(marked, isIp, routes) ==> CallIs(routes, answers, attempts, outcome)
      ensures forall i :: 0 <= i < |attempts| ==> attempts[i].way < |routes|
      ensures |routes| > 1 ==> memory == Remembered(old(memory), routes, attempts)
      ensures |routes| <= 1 ==> memory == old(memory)
    {
      hide TurnedBy, Orderly, EndsEarly, WayAfter, Marks, FromApi, NextWay;
      hide SettledOutcome, Moves, TurnsAway, EndsNow, Blocked, MemoryOf, Remembered;
      outcome, attempts := Failed, [];
      NothingNew(memory, routes);
      if Blocked(marked, isIp, routes) {
        return;
      }
      if routes == [] {
        return;
      }
      var way: nat := 0;
      var turnedAway := seq(|routes|, _ => false);
      NoneTurned(turnedAway);
      for attempt := 0 to API_ATTEMPTS
        invariant |attempts| == attempt && |turnedAway| == |routes| && way < |routes| && !turnedAway[way]
        invariant Orderly(attempts, |routes|) && Marks(turnedAway, attempts)
        invariant forall i :: 0 <= i < attempt ==> attempts[i].way < |routes| && attempts[i].answer == answers[i]
        invariant if attempt == 0 then way == 0
                  else way == WayAfter(attempts, |routes|) && !EndsEarly(attempts, |routes|)
        invariant attempt > 0 ==> outcome == SettledOutcome(answers[attempt - 1], |routes|)
        invariant memory == if |routes| > 1 then Remembered(old(memory), routes, attempts) else old(memory)
      {
        var answer := answers[attempt];
        MarkIs(turnedAway, attempts, way);
        OrderlyGrows(attempts, Attempt(way, answer), |routes|);
        MarksGrow(turnedAway, attempts, Attempt(way, answer));
        RememberedGrows(old(memory), routes, attempts, Attempt(way, answer));
        attempts := attempts + [Attempt(way, answer)];
        outcome := SettledOutcome(answer, |routes|);
        if |routes| > 1 && FromApi(answer) {
          Remember(routes[way]);
        }
        var goOn;
        goOn, way, turnedAway := Follow(answer, way, turnedAway);
        MarksTell(turnedAway, attempts);
        if !goOn {
          return;
        }
      }
    }

    /** What follows the answer an attempt got: whether there is another, and which way. */
    method Follow(answer: Answer, way: nat, turnedAway: seq<bool>) returns (goOn: bool, next: nat, turned: seq<bool>)
      requires way < |turnedAway| && !turnedAway[way]
      ensures turned == (if |turnedAway| > 1 && TurnsAway(answer) then turnedAway[way := true] else turnedAway)
      ensures goOn && |turned| == 1 ==> !TurnsAway(answer)
      ensures goOn == !EndsNow(answer, turned) && next < |turned|
      ensures goOn ==> !turned[next] && next == if Moves(answer, |turned|) then NextWay(way, turned) else way
    {
      hide NextWay;
      goOn, next, turned := true, way, turnedAway;
      match answer
      case NoAnswer =>
        next := OpenAfter(way, turned);
      case BadStatus(_) =>
        if |turned| > 1 {
          turned := turned[way := true];
          if AnyOpen(turned) {
            next := OpenAfter(way, turned);
            return;
          }
        }
        goOn := false;
      case Status(status, _, _) =>
        if Success(status) {
          goOn := false;
          return;
        }
        if |turned| > 1 && !FromApi(answer) {
          if !WorthRetrying(status) {
            turned := turned[way := true];
            if !AnyOpen(turned) {
              goOn := false;
              return;
            }
          }
          next := OpenAfter(way, turned);
        } else if !WorthRetrying(status) {
          goOn := false;
        }
    }

    /** The next way, when one is open. */
    method OpenAfter(way: nat, turnedAway: seq<bool>) returns (next: nat)
      requires way < |turnedAway| && AnyOpen(turnedAway)
      ensures next == NextWay(way, turnedAway) && !turnedAway[next]
    {
      ghost var open :| 0 <= open < |turnedAway| && !turnedAway[open];
      ghost var k := NextWayIsOpen(way, turnedAway, open);
      next := NextWay(way, turnedAway);
    }

    /** A call by the ways of the options and of this run. */
    method Call(o: Options, answers: seq<Answer>) returns (outcome: Outcome, attempts: seq<Attempt>)
      requires |answers| == API_ATTEMPTS
      modifies this
      ensures !Blocked(marked, isIp, RoutesFor(o, old(memory))) ==>
                CallIs(RoutesFor(o, old(memory)), answers, attempts, outcome)
      ensures forall i :: 0 <= i < |attempts| ==> attempts[i].way < |RoutesFor(o, old(memory))|
      ensures |RoutesFor(o, old(memory))| > 1 ==> memory == Remembered(old(memory), RoutesFor(o, old(memory)), attempts)
    {
      RoutesSome(o, memory);
      outcome, attempts := CallBy(RoutesFor(o, memory), answers);
    }
  }

  lemma MarkIs(turnedAway: seq<bool>, attempts: seq<Attempt>, w: nat)
    requires Marks(turnedAway, attempts) && w < |turnedAway|
    ensures turnedAway[w] <==> TurnedBy(attempts, w)
  {
    hide TurnedBy;
  }

  lemma NoneTurned(turnedAway: seq<bool>)
    requires forall i :: 0 <= i < |turnedAway| ==> !turnedAway[i]
    ensures Marks(turnedAway, []) && Orderly([], |turnedAway|)
  {
  }

  lemma RoutesSome(o: Options, m: Memory)
    ensures |RoutesFor(o, m)| == |RoutesOf(o.host, o.sni, o.address, m.host)|
  {
    RotatedLength(RoutesOf(o.host, o.sni, o.address, m.host), m.edge, 0);
  }

  lemma {:induction false} RotatedLength(routes: seq<ApiRoute>, edge: Option<string>, at: nat)
    requires at <= |routes|
    ensures |Rotated(routes, edge, at)| == |routes| && multiset(Rotated(routes, edge, at)) == multiset(routes)
    decreases |routes| - at
  {
    if edge.Some? && at < |routes| && !(routes[at].front && routes[at].address == edge.value) {
      RotatedLength(routes, edge, at + 1);
    } else {
      assert routes == routes[..at] + routes[at..];
    }
  }

  // ----- What a call may come to -----

  /** A way that has turned the call away is not tried again: it has done so once. */
  lemma TurnedAwayOnce(attempts: seq<Attempt>, ways: nat, i: nat, j: nat)
    requires Orderly(attempts, ways) && i < j < |attempts| && attempts[i].way == attempts[j].way
    ensures !TurnsAway(attempts[i].answer)
  {
    assert attempts[..j][i] == attempts[i];
  }

  /** A success is the last attempt: none that another follows is one. */
  lemma SuccessIsLast(attempts: seq<Attempt>, ways: nat, i: nat)
    requires Orderly(attempts, ways) && i + 1 < |attempts|
    ensures !(attempts[i].answer.Status? && Success(attempts[i].answer.status))
  {
    hide TurnedBy;
    var part := attempts[..i + 1];
    assert !EndsEarly(part, ways) && part[|part| - 1] == attempts[i];
  }

  /** A way that is of no use to a call showed it with exactly one answer, which was not the API's. */
  lemma EachTurnedOnce(attempts: seq<Attempt>, ways: nat, w: nat) returns (i: nat)
    requires Orderly(attempts, ways) && w < ways && TurnedBy(attempts, w)
    ensures i < |attempts| && attempts[i].way == w && !FromApi(attempts[i].answer)
    ensures attempts[i].answer.BadStatus? || (attempts[i].answer.Status? && !WorthRetrying(attempts[i].answer.status))
    ensures forall j :: 0 <= j < |attempts| && attempts[j].way == w && TurnsAway(attempts[j].answer) ==> j == i
  {
    i :| 0 <= i < |attempts| && attempts[i].way == w && TurnsAway(attempts[i].answer);
    forall j | 0 <= j < |attempts| && attempts[j].way == w && TurnsAway(attempts[j].answer) ensures j == i {
      if j < i {
        TurnedAwayOnce(attempts, ways, j, i);
      } else if i < j {
        TurnedAwayOnce(attempts, ways, i, j);
      }
    }
  }

  /**
   * An identity counts as refused only on the word of the API, or of whoever answers by the only
   * way, or by a 401 or a 410.
   */
  lemma WhenIdentityRefused(routes: seq<ApiRoute>, answers: seq<Answer>, attempts: seq<Attempt>, outcome: Outcome)
    requires CallIs(routes, answers, attempts, outcome)
    ensures var last := attempts[|attempts| - 1].answer;
            outcome == IdentityRefused <==>
              && last.Status?
              && (last.status == 401 || last.status == 410 || (last.status == 404 && (FromApi(last) || |routes| == 1)))
  {
  }

  // ----- Calls one after another -----

  /** A name that has been first or second goes first once the API has answered by it. */
  lemma NameGoesFirst(m: Memory)
    ensures FirstName(Some(FirstName(m.host))) == FirstName(m.host)
    ensures FirstName(Some(OtherName(FirstName(m.host)))) == OtherName(FirstName(m.host))
  {
  }

  lemma RotatedFirst(routes: seq<ApiRoute>, r: ApiRoute, at: nat, k: nat)
    requires at <= k < |routes| && routes[k] == r && r.front
    requires forall i :: at <= i < k ==> !(routes[i].front && routes[i].address == r.address)
    ensures FirstIs(Rotated(routes, Some(r.address), at), r)
    decreases k - at
  {
    if at < k {
      RotatedFirst(routes, r, at + 1, k);
    }
  }

  lemma EdgesDiffer()
    ensures FrontEdge(0) != FrontEdge(1)
  {
    assert FrontEdge(0)[4] != FrontEdge(1)[4];
  }

  /** A default way, and which one it is. */
  lemma DefaultWay(first: string, second: string, address: Option<(string, nat)>, edge: Option<string>, r: ApiRoute)
    requires r in Rotated(DefaultRoutes(first, second, address), edge, 0)
    ensures || r == RouteBy(first, first, address) || r == RouteBy(second, second, address)
            || (address.None? && (r == FrontRoute(first, FrontEdge(0)) || r == FrontRoute(first, FrontEdge(1))))
  {
    hide FrontEdge, Rotated, RouteBy;
    var routes := DefaultRoutes(first, second, address);
    RotatedLength(routes, edge, 0);
    assert r in multiset(Rotated(routes, edge, 0));
    assert r in multiset(routes);
    assert r in routes;
  }

  lemma FrontGoesFirst(first: string, second: string, k: nat)
    requires k < 2
    ensures FirstIs(Rotated(DefaultRoutes(first, second, None), Some(FrontEdge(k)), 0), FrontRoute(first, FrontEdge(k)))
  {
    hide FrontEdge, Rotated;
    EdgesDiffer();
    RotatedFirst(DefaultRoutes(first, second, None), FrontRoute(first, FrontEdge(k)), 0, 2 + k);
  }

  /** With the default names, the way the API answered by goes first in the next call. */
  lemma AnsweredGoesFirst(address: Option<(string, nat)>, m: Memory, r: ApiRoute)
    requires r in RoutesFor(Options(None, None, address), m)
    ensures FirstIs(RoutesFor(Options(None, None, address), MemoryOf(r)), r)
  {
    hide FirstName, OtherName, FrontEdge;
    var first := FirstName(m.host);
    var second := OtherName(first);
    NameGoesFirst(m);
    DefaultWay(first, second, address, m.edge, r);
    if r.front {
      FrontGoesFirst(first, second, if r.address == FrontEdge(0) then 0 else 1);
    }
  }

  /** A route without the name the front edges carry. */
  function Unnamed(r: ApiRoute): ApiRoute {
    if r.front then r.(host := "", sni := "") else r
  }

  function AllUnnamed(routes: seq<ApiRoute>): seq<ApiRoute> {
    seq(|routes|, i requires 0 <= i < |routes| => Unnamed(routes[i]))
  }

  lemma {:induction false} RotatedUnnamed(routes: seq<ApiRoute>, edge: Option<string>, at: nat)
    requires at <= |routes|
    ensures multiset(AllUnnamed(Rotated(routes, edge, at))) == multiset(AllUnnamed(routes))
    decreases |routes| - at
  {
    if edge.Some? && at < |routes| {
      if routes[at].front && routes[at].address == edge.value {
        assert AllUnnamed(routes[at..] + routes[..at]) == AllUnnamed(routes)[at..] + AllUnnamed(routes)[..at];
        assert AllUnnamed(routes) == AllUnnamed(routes)[..at] + AllUnnamed(routes)[at..];
      } else {
        RotatedUnnamed(routes, edge, at + 1);
      }
    }
  }

  lemma NamesSwap(a: string, b: string, address: Option<(string, nat)>)
    ensures multiset(AllUnnamed(DefaultRoutes(a, b, address))) == multiset(AllUnnamed(DefaultRoutes(b, a, address)))
  {
    hide FrontEdge, RouteBy;
    var one, two := AllUnnamed(DefaultRoutes(a, b, address)), AllUnnamed(DefaultRoutes(b, a, address));
    FirstTwoSwap(one, two);
  }

  lemma FirstTwoSwap(s: seq<ApiRoute>, t: seq<ApiRoute>)
    requires |s| == |t| >= 2 && t[0] == s[1] && t[1] == s[0] && forall i :: 2 <= i < |s| ==> t[i] == s[i]
    ensures multiset(s) == multiset(t)
  {
    assert s == [s[0], s[1]] + s[2..] && t == [s[1], s[0]] + s[2..];
  }

  /** Whatever a run remembers, the ways are the same but for their order and the name at the front edges. */
  lemma MemoryReorders(o: Options, m: Memory)
    ensures multiset(AllUnnamed(RoutesFor(o, m))) == multiset(AllUnnamed(RoutesFor(o, Memory(None, None))))
  {
    hide FirstName, OtherName, DefaultRoutes, AllUnnamed, Rotated;
    RotatedUnnamed(RoutesOf(o.host, o.sni, o.address, m.host), m.edge, 0);
    RotatedUnnamed(RoutesOf(o.host, o.sni, o.address, None), None, 0);
    var first, plain := FirstName(m.host), FirstName(None);
    NamesAre(m.host);
    NamesSwap(plain, OtherName(plain), o.address);
  }

  lemma NamesAre(answered: Option<string>)
    ensures || FirstName(answered) == FirstName(None)
            || (FirstName(answered) == OtherName(FirstName(None)) && OtherName(FirstName(answered)) == FirstName(None))
  {
  }

  /** The way the API answered last in a run of calls, by the default names and to the same address. */
  ghost function LastAnswered(routes: seq<ApiRoute>, attempts: seq<Attempt>, before: Option<ApiRoute>): Option<ApiRoute>
    requires forall i :: 0 <= i < |attempts| ==> attempts[i].way < |routes|
  {
    if attempts == [] then before
    else
      var last := attempts[|attempts| - 1];
      if FromApi(last.answer) then Some(routes[last.way]) else LastAnswered(routes, attempts[..|attempts| - 1], before)
  }

  lemma {:induction false} RememberedIs(m: Memory, routes: seq<ApiRoute>, attempts: seq<Attempt>,
        before: Option<ApiRoute>)
    requires forall i :: 0 <= i < |attempts| ==> attempts[i].way < |routes|
    requires m == if before.Some? then MemoryOf(before.value) else Memory(None, None)
    ensures var after := LastAnswered(routes, attempts, before);
            && Remembered(m, routes, attempts) == (if after.Some? then MemoryOf(after.value) else Memory(None, None))
            && (after == before || (after.Some? && after.value in routes))
  {
    if attempts != [] && !FromApi(attempts[|attempts| - 1].answer) {
      RememberedIs(m, routes, attempts[..|attempts| - 1], before);
    }
  }

  /** A call that was made: its ways, its attempts and its outcome. */
  datatype Made = Made(routes: seq<ApiRoute>, attempts: seq<Attempt>, outcome: Outcome)

  ghost predicate InRange(m: Made) {
    forall i :: 0 <= i < |m.attempts| ==> m.attempts[i].way < |m.routes|
  }

  /** The way by which the API answered last in the calls so far. */
  ghost function AnsweredBy(calls: seq<Made>): Option<ApiRoute>
    requires forall k :: 0 <= k < |calls| ==> InRange(calls[k])
  {
    if calls == [] then None
    else
      assert InRange(calls[|calls| - 1]);
      LastAnswered(calls[|calls| - 1].routes, calls[|calls| - 1].attempts, AnsweredBy(calls[..|calls| - 1]))
  }

  ghost predicate FirstFollows(calls: seq<Made>, k: nat)
    requires k < |calls| && forall i :: 0 <= i < |calls| ==> InRange(calls[i])
  {
    AnsweredBy(calls[..k]).Some? ==> FirstIs(calls[k].routes, AnsweredBy(calls[..k]).value)
  }

  /** Over any calls by the default names, the way the API answered last is the first of the next call. */
  method Session(address: Option<(string, nat)>, marked: bool, isIp: string -> bool,
        calls: seq<seq<Answer>>) returns (made: seq<Made>)
    requires forall i :: 0 <= i < |calls| ==> |calls[i]| == API_ATTEMPTS
    ensures |made| == |calls| && forall k :: 0 <= k < |made| ==> InRange(made[k])
    ensures forall k :: 0 <= k < |made| && !Blocked(marked, isIp, made[k].routes) ==>
              CallIs(made[k].routes, calls[k], made[k].attempts, made[k].outcome)
    ensures forall k :: 0 <= k < |made| ==> FirstFollows(made, k)
  {
    hide RoutesFor, CallIs, Remembered, LastAnswered, Blocked, FirstIs;
    var o := Options(None, None, address);
    var run := new ApiRun(marked, isIp);
    made := [];
    ghost var answered: Option<ApiRoute> := None;
    for k := 0 to |calls|
      invariant fresh(run) && run.marked == marked && run.isIp == isIp
      invariant |made| == k && (forall i :: 0 <= i < k ==> InRange(made[i])) && answered == AnsweredBy(made)
      invariant forall i :: 0 <= i < k && !Blocked(marked, isIp, made[i].routes) ==>
                  CallIs(made[i].routes, calls[i], made[i].attempts, made[i].outcome)
      invariant forall i :: 0 <= i < k ==> FirstFollows(made, i)
      invariant run.memory == if answered.Some? then MemoryOf(answered.value) else Memory(None, None)
      invariant answered.Some? ==> FirstIs(RoutesFor(o, run.memory), answered.value)
    {
      ghost var before := run.memory;
      var routes := RoutesFor(o, run.memory);
      var outcome, attempts := run.Call(o, calls[k]);
      DefaultWays(address, before);
      RememberedIs(before, routes, attempts, answered);
      ghost var after := LastAnswered(routes, attempts, answered);
      if after != answered {
        AnsweredGoesFirst(address, before, after.value);
      }
      FollowsGrows(made, Made(routes, attempts, outcome));
      made := made + [Made(routes, attempts, outcome)];
      answered := after;
    }
  }

  lemma FollowsGrows(made: seq<Made>, m: Made)
    requires (forall i :: 0 <= i < |made| ==> InRange(made[i])) && InRange(m)
    requires forall i :: 0 <= i < |made| ==> FirstFollows(made, i)
    requires AnsweredBy(made).Some? ==> FirstIs(m.routes, AnsweredBy(made).value)
    ensures forall i :: 0 <= i < |made + [m]| ==> FirstFollows(made + [m], i)
    ensures AnsweredBy(made + [m]) == LastAnswered(m.routes, m.attempts, AnsweredBy(made))
  {
    hide LastAnswered, InRange, FirstIs;
    var more := made + [m];
    assert more[..|made|] == made;
    forall i | 0 <= i < |more| ensures FirstFollows(more, i) {
      if i < |made| {
        assert more[..i] == made[..i] && more[i] == made[i] && FirstFollows(made, i);
      }
    }
  }

  predicate FirstIs(routes: seq<ApiRoute>, r: ApiRoute) {
    routes != [] && routes[0] == r
  }

  lemma DefaultWays(address: Option<(string, nat)>, m: Memory)
    ensures |RoutesFor(Options(None, None, address), m)| > 1
  {
    RoutesSome(Options(None, None, address), m);
  }
}
