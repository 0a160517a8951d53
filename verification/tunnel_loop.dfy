/** The event loop of the HTTP/2 tunnel: when it is ready, and how it is kept alive. */
module TunnelLoop {
  import opened Bytes
  import opened Carrier

  /** How many body chunks with a packet in them prove the data plane. */
  const DATA_PROBE_REQUIRED_SUCCESSES: nat := 2

  datatype TunnelEvent =
    /** A chunk of the body, and the packets that came out of the parser with it. */
    | Chunk(bytes: seq<byte>, packets: seq<seq<byte>>)
    /** Readiness is signalled. */
    | Ready
    /** A probe is offered to the send task. */
    | Probed
    | Ping
    | Pong

  datatype Ending =
    | ValidationTimeout
    | KeepaliveTimeout
    | PingFailed
    | CloseAsked
    | SenderEnded(ok: bool)
    | BodyFailed
    | BodyEnded

  datatype Body = Data(bytes: seq<byte>) | Failed | End

  /** What the loop finds ready. */
  datatype Wake =
    | KeepaliveTick(sent: bool)
    | PongReady(ok: bool)
    | ProbeTick
    | PongTimer
    | Control(close: bool)
    | SenderDone(ok: bool)
    | BodyReady(body: Body)

  /** How what is ready ends the tunnel, if it does. */
  function EndingOf(w: Wake): Option<Ending> {
    match w
    case PongReady(ok) => if ok then None else Some(PingFailed)
    case Control(close) => if close then Some(CloseAsked) else None
    case SenderDone(ok) => Some(SenderEnded(ok))
    case BodyReady(Failed) => Some(BodyFailed)
    case BodyReady(End) => Some(BodyEnded)
    case _ => None
  }

  /**
   * What a chunk of the body sets off, `packets` having come out of the parser with it: until the
   * tunnel is ready, one with a packet counts, and the last one needed makes it so.
   */
  function ChunkEvents(bytes: seq<byte>, packets: seq<seq<byte>>, ready: bool, successes: nat): seq<TunnelEvent> {
    [Chunk(bytes, packets)]
    + if packets == [] || ready then []
      else if successes + 1 >= DATA_PROBE_REQUIRED_SUCCESSES then [Ready]
      else [Probed]
  }

  function EventsOf(w: Wake, packets: seq<seq<byte>>, ready: bool, successes: nat): seq<TunnelEvent> {
    match w
    case KeepaliveTick(sent) => if sent then [Ping] else []
    case PongReady(ok) => if ok then [Pong] else []
    case ProbeTick => [Probed]
    case BodyReady(Data(bytes)) => ChunkEvents(bytes, packets, ready, successes)
    case _ => []
  }

  // ----- What the chunks of a log put through the parser -----

  /** What the parser holds after the chunks of `log`, and how many packets they had. */
  function Parsed(log: seq<TunnelEvent>, queue: nat -> Queue): (seq<byte>, nat) {
    if log == [] then ([], 0)
    else
      var (buf, n) := Parsed(log[..|log| - 1], queue);
      match log[|log| - 1]
      case Chunk(bytes, _) => var (packets, rest) := Drained(Held(buf, bytes), queue, n); (rest, n + |packets|)
      case _ => (buf, n)
  }

  /** The packets of a chunk are those that draining the parser gives, with what the chunks before it left there. */
  ghost predicate Told(before: seq<TunnelEvent>, e: TunnelEvent, queue: nat -> Queue) {
    e.Chunk? ==> var (buf, n) := Parsed(before, queue); e.packets == Drained(Held(buf, e.bytes), queue, n).0
  }

  ghost predicate AllTold(log: seq<TunnelEvent>, queue: nat -> Queue) {
    forall i :: 0 <= i < |log| ==> Told(log[..i], log[i], queue)
  }

  lemma AllToldGrows(log: seq<TunnelEvent>, e: TunnelEvent, queue: nat -> Queue)
    requires AllTold(log, queue) && Told(log, e, queue)
    ensures AllTold(log + [e], queue)
  {
    hide Told;
    var more := log + [e];
    forall i | 0 <= i < |more| ensures Told(more[..i], more[i], queue) {
      assert more[..i] == log[..i];
      if i == |log| {
        assert log[..i] == log;
      }
    }
  }

  lemma ParsedGrows(log: seq<TunnelEvent>, e: TunnelEvent, queue: nat -> Queue)
    ensures var (buf, n) := Parsed(log, queue);
            Parsed(log + [e], queue) == match e
                                        case Chunk(bytes, _) =>
                                          var (packets, rest) := Drained(Held(buf, bytes), queue, n);
                                          (rest, n + |packets|)
                                        case _ => (buf, n)
  {
    hide Drained;
    assert (log + [e])[..|log|] == log;
  }

  /** The chunks of the body, in the order they came. */
  function ChunksOf(log: seq<TunnelEvent>): seq<seq<byte>> {
    if log == [] then []
    else
      var last := log[|log| - 1];
      ChunksOf(log[..|log| - 1]) + if last.Chunk? then [last.bytes] else []
  }

  /** The packets that came out of the parser. */
  function PacketsOf(log: seq<TunnelEvent>): seq<seq<byte>> {
    if log == [] then []
    else
      var last := log[|log| - 1];
      PacketsOf(log[..|log| - 1]) + if last.Chunk? then last.packets else []
  }

  /** The packets of a log are those of its chunks, pushed and drained one after another. */
  lemma {:induction false} PacketsAreFed(log: seq<TunnelEvent>, queue: nat -> Queue)
    requires AllTold(log, queue)
    ensures Fed([], ChunksOf(log), queue, 0) == (PacketsOf(log), Parsed(log, queue).0)
    ensures Parsed(log, queue).1 == |PacketsOf(log)|
  {
    hide Drained, Fed;
    if log == [] {
      NothingFed(queue);
    } else {
      var before, last := log[..|log| - 1], log[|log| - 1];
      assert AllTold(before, queue) by { AllToldBefore(log, queue); }
      PacketsAreFed(before, queue);
      assert Told(log[..|log| - 1], last, queue);
      if last.Chunk? {
        FedSnoc([], ChunksOf(before), last.bytes, queue, 0);
      } else {
        assert ChunksOf(before) + [] == ChunksOf(before) && PacketsOf(before) + [] == PacketsOf(before);
      }
    }
  }

  lemma AllToldBefore(log: seq<TunnelEvent>, queue: nat -> Queue)
    requires log != [] && AllTold(log, queue)
    ensures AllTold(log[..|log| - 1], queue)
  {
    hide Told;
    var before := log[..|log| - 1];
    forall i | 0 <= i < |before| ensures Told(before[..i], before[i], queue) {
      assert before[..i] == log[..i] && before[i] == log[i];
    }
  }

  // ----- What may follow what -----

  datatype Mark = CarriedMark | EmptyMark | ReadyMark | ProbeMark | PingMark | PongMark

  function MarkOf(e: TunnelEvent): Mark {
    match e
    case Chunk(_, packets) => if packets == [] then EmptyMark else CarriedMark
    case Ready => ReadyMark
    case Probed => ProbeMark
    case Ping => PingMark
    case Pong => PongMark
  }

  function Count(log: seq<TunnelEvent>, m: Mark): nat {
    if log == [] then 0 else Count(log[..|log| - 1], m) + if MarkOf(log[|log| - 1]) == m then 1 else 0
  }

  lemma CountGrows(log: seq<TunnelEvent>, last: TunnelEvent)
    ensures forall m :: Count(log + [last], m) == Count(log, m) + if MarkOf(last) == m then 1 else 0
  {
    assert (log + [last])[..|log|] == log;
  }

  /** Whether `e` may come after `before`. */
  ghost predicate InOrder(before: seq<TunnelEvent>, e: TunnelEvent, dataCheck: bool) {
    match e
    case Ready =>
      && Count(before, ReadyMark) == 0
      && (dataCheck ==> Count(before, CarriedMark) == DATA_PROBE_REQUIRED_SUCCESSES)
    case Ping => Count(before, ReadyMark) == 1 && Count(before, PingMark) == Count(before, PongMark)
    case Pong => Count(before, PingMark) == Count(before, PongMark) + 1
    case Probed => dataCheck && Count(before, ReadyMark) == 0
    case Chunk(_, _) => true
  }

  /**
   * Readiness comes once and, with the data check on, after two chunks that carried a packet; a
   * ping comes only after it and with none outstanding, a pong only for one that is.
   */
  ghost predicate Orderly(log: seq<TunnelEvent>, dataCheck: bool) {
    forall i :: 0 <= i < |log| ==> InOrder(log[..i], log[i], dataCheck)
  }

  lemma OrderlyGrows(log: seq<TunnelEvent>, e: TunnelEvent, dataCheck: bool)
    requires Orderly(log, dataCheck) && InOrder(log, e, dataCheck)
    ensures Orderly(log + [e], dataCheck)
  {
    var log' := log + [e];
    forall i | 0 <= i < |log'| ensures InOrder(log'[..i], log'[i], dataCheck) {
      assert log'[..i] == log[..i];
      if i < |log| {
        assert InOrder(log[..i], log[i], dataCheck);
      } else {
        assert log[..i] == log;
      }
    }
  }

  class Tunnel {
    const dataCheck: bool
    const keepaliveTimeout: nat
    /** What the queue to the app does with each packet. */
    const queue: nat -> Queue
    const capsules: CapsuleParser
    /** How many packets have been given to that queue. */
    var handed: nat
    var readyTx: bool
    var readyFired: bool
    var validateSuccesses: nat
    var validateDeadline: Option<nat>
    var awaitingPong: bool
    var pongDeadline: Option<nat>
    var ended: Option<Ending>

    ghost var log: seq<TunnelEvent>

    ghost predicate Valid()
      reads this, capsules
    {
      && AllTold(log, queue) && Parsed(log, queue) == (capsules.buf, handed)
      && Orderly(log, dataCheck)
      && Count(log, ReadyMark) == (if readyFired then 1 else 0)
      && (readyTx ==> !readyFired)
      && (!dataCheck ==> readyFired)
      && (!readyFired ==> Count(log, CarriedMark) == validateSuccesses < DATA_PROBE_REQUIRED_SUCCESSES)
      && (validateDeadline.Some? <==> !readyFired)
      && (awaitingPong <==> pongDeadline.Some?)
      && (awaitingPong ==> readyFired)
      && Count(log, PingMark) == Count(log, PongMark) + (if awaitingPong then 1 else 0)
    }

    /** The tunnel is up: the data plane is probed first, or it is ready at once. */
    constructor (dataCheck: bool, now: nat, validationTimeout: nat, keepaliveTimeout: nat, queue: nat -> Queue)
      ensures Valid() && ended.None? && fresh(capsules)
      ensures this.dataCheck == dataCheck && this.keepaliveTimeout == keepaliveTimeout && this.queue == queue
      ensures log == [if dataCheck then Probed else Ready]
      ensures validateDeadline == if dataCheck then Some(now + validationTimeout) else None
    {
      this.dataCheck, this.keepaliveTimeout, this.queue := dataCheck, keepaliveTimeout, queue;
      capsules := new CapsuleParser();
      handed := 0;
      readyTx, readyFired, validateSuccesses := dataCheck, !dataCheck, 0;
      validateDeadline := if dataCheck then Some(now + validationTimeout) else None;
      awaitingPong, pongDeadline, ended := false, None, None;
      log := [];
      new;
      Note(if dataCheck then Probed else Ready);
    }

    ghost method Note(e: TunnelEvent)
      requires Orderly(log, dataCheck) && InOrder(log, e, dataCheck) && AllTold(log, queue) && Told(log, e, queue)
      modifies this`log
      ensures Orderly(log, dataCheck) && AllTold(log, queue) && log == old(log) + [e]
      ensures forall m :: Count(log, m) == Count(old(log), m) + if MarkOf(e) == m then 1 else 0
      ensures !e.Chunk? ==> Parsed(log, queue) == Parsed(old(log), queue)
    {
      hide Drained;
      AllToldGrows(log, e, queue);
      ParsedGrows(log, e, queue);
      OrderlyGrows(log, e, dataCheck);
      CountGrows(log, e);
      log := log + [e];
    }

    /** What the loop waits for depends on whether it is ready and whether a pong is due. */
    predicate Enabled(w: Wake)
      reads this
    {
      match w
      case KeepaliveTick(_) => readyFired && !awaitingPong
      case PongReady(_) => awaitingPong
      case ProbeTick => dataCheck && !readyFired
      case PongTimer => pongDeadline.Some?
      case _ => true
    }

    /** The packets that come out of the parser with what is ready. */
    function Coming(w: Wake): seq<seq<byte>>
      reads this, capsules
    {
      if w.BodyReady? && w.body.Data? then Drained(Held(capsules.buf, w.body.bytes), queue, handed).0 else []
    }

    /** The deadline that has passed, if one has. */
    function Expired(now: nat): Option<Ending>
      reads this
    {
      if validateDeadline.Some? && now >= validateDeadline.value then Some(ValidationTimeout)
      else if pongDeadline.Some? && now >= pongDeadline.value then Some(KeepaliveTimeout)
      else None
    }

    /**
     * One turn: a deadline that has passed ends the tunnel; otherwise one thing that is ready is
     * handled, at `later`. The deadline of a ping is set with it and goes with its pong.
     */
    method Turn(now: nat, w: Wake, later: nat)
      requires Valid() && ended.None? && Enabled(w)
      modifies this, capsules
      ensures Valid()
      ensures old(Expired(now)).Some? ==>
                ended == old(Expired(now)) && log == old(log) && pongDeadline == old(pongDeadline)
      ensures old(Expired(now)).None? ==>
                && ended == EndingOf(w)
                && log == old(log) + EventsOf(w, old(Coming(w)), old(readyFired), old(validateSuccesses))
                && pongDeadline == match w
                                   case KeepaliveTick(true) => Some(later + keepaliveTimeout)
                                   case PongReady(true) => None
                                   case _ => old(pongDeadline)
      ensures readyFired == (old(readyFired) || Ready in log[|old(log)|..])
    {
      hide Orderly, Count, AllTold, Parsed, Drained;
      if validateDeadline.Some? && now >= validateDeadline.value {
        ended := Some(ValidationTimeout);
        return;
      }
      if pongDeadline.Some? && now >= pongDeadline.value {
        ended := Some(KeepaliveTimeout);
        return;
      }
      match w
      case KeepaliveTick(sent) =>
        if sent {
          Note(Ping);
          awaitingPong, pongDeadline := true, Some(later + keepaliveTimeout);
        }
      case PongReady(ok) =>
        if ok {
          Note(Pong);
          awaitingPong, pongDeadline := false, None;
        } else {
          ended := Some(PingFailed);
        }
      case ProbeTick =>
        Note(Probed);
      case PongTimer =>
      case Control(close) =>
        if close {
          ended := Some(CloseAsked);
        }
      case SenderDone(ok) =>
        ended := Some(SenderEnded(ok));
      case BodyReady(Failed) =>
        ended := Some(BodyFailed);
      case BodyReady(End) =>
        ended := Some(BodyEnded);
      case BodyReady(Data(bytes)) =>
        TakeChunk(bytes);
    }

    /** A chunk of the body goes through the parser; one with a packet counts until the tunnel is ready. */
    method TakeChunk(bytes: seq<byte>)
      requires Valid() && ended.None?
      modifies this, capsules
      ensures Valid() && ended.None?
      ensures log == old(log) +
              ChunkEvents(bytes, old(Coming(BodyReady(Data(bytes)))), old(readyFired), old(validateSuccesses))
      ensures awaitingPong == old(awaitingPong) && pongDeadline == old(pongDeadline)
      ensures readyFired == (old(readyFired) || Ready in log[|old(log)|..])
    {
      hide Orderly, Count, AllTold, Parsed, Drained, Held, Coming;
      var carried := ParseChunk(bytes);
      if carried && !readyFired {
        Confirm();
      }
    }

    /** One more chunk out of which a packet came, before the tunnel is ready. */
    method Confirm()
      requires Orderly(log, dataCheck) && AllTold(log, queue) && dataCheck && !readyFired && !awaitingPong
      requires Count(log, ReadyMark) == 0 && Count(log, CarriedMark) == validateSuccesses + 1
      requires validateSuccesses < DATA_PROBE_REQUIRED_SUCCESSES
      modifies this`log, this`validateSuccesses, this`readyFired, this`validateDeadline, this`readyTx
      ensures Orderly(log, dataCheck) && AllTold(log, queue) && Parsed(log, queue) == Parsed(old(log), queue)
      ensures validateSuccesses == old(validateSuccesses) + 1
      ensures readyFired == (validateSuccesses >= DATA_PROBE_REQUIRED_SUCCESSES)
      ensures log == old(log) + [if readyFired then Ready else Probed]
      ensures Count(log, ReadyMark) == (if readyFired then 1 else 0) && Count(log, CarriedMark) == validateSuccesses
      ensures Count(log, PingMark) == Count(old(log), PingMark) && Count(log, PongMark) == Count(old(log), PongMark)
      ensures if readyFired then validateDeadline.None? && !readyTx
              else validateDeadline == old(validateDeadline) && readyTx == old(readyTx)
    {
      hide Orderly, Count, AllTold, Parsed, Drained;
      validateSuccesses := validateSuccesses + 1;
      if validateSuccesses >= DATA_PROBE_REQUIRED_SUCCESSES {
        Note(Ready);
        readyFired, validateDeadline, readyTx := true, None, false;
      } else {
        Note(Probed);
      }
    }

    /** The chunk is pushed and drained; says whether a packet came out. */
    method ParseChunk(bytes: seq<byte>) returns (carried: bool)
      requires Valid()
      modifies this`log, this`handed, capsules
      ensures AllTold(log, queue) && Parsed(log, queue) == (capsules.buf, handed) && Orderly(log, dataCheck)
      ensures log == old(log) + [Chunk(bytes, old(Coming(BodyReady(Data(bytes)))))]
      ensures carried == (old(Coming(BodyReady(Data(bytes)))) != [])
      ensures forall m ::
                Count(log, m) == Count(old(log), m) + if m == (if carried then CarriedMark else EmptyMark) then 1 else 0
    {
      hide Orderly, Count, AllTold, Parsed, Drained;
      capsules.Push(bytes);
      var packets, passedOn;
      carried, packets, passedOn := DrainCapsules(capsules, queue, handed);
      ParsedGrows(log, Chunk(bytes, packets), queue);
      Note(Chunk(bytes, packets));
      handed := handed + |packets|;
    }
  }

  /** What the environment does in a turn, at times it chooses. */
  datatype Step = Step(now: nat, wake: Wake, later: nat)

  /**
   * Every run of the loop is orderly, whatever becomes ready and when, and what came out of the
   * parser is what its chunks put in.
   */
  method Run(dataCheck: bool, steps: seq<Step>, start: nat, validationTimeout: nat, keepaliveTimeout: nat,
        queue: nat -> Queue)
    returns (t: Tunnel)
    ensures fresh(t) && t.Valid() && t.dataCheck == dataCheck && t.queue == queue
    ensures Orderly(t.log, dataCheck) && AllTold(t.log, queue)
    ensures Fed([], ChunksOf(t.log), queue, 0) == (PacketsOf(t.log), t.capsules.buf)
    ensures t.pongDeadline.Some? <==> Count(t.log, PingMark) == Count(t.log, PongMark) + 1
    ensures Count(t.log, ReadyMark) <= 1
    ensures Count(t.log, PongMark) <= Count(t.log, PingMark) <= Count(t.log, PongMark) + 1
  {
    hide Orderly, Count, AllTold, Parsed, Fed;
    t := new Tunnel(dataCheck, start, validationTimeout, keepaliveTimeout, queue);
    for i := 0 to |steps|
      invariant fresh(t) && fresh(t.capsules) && t.Valid() && t.dataCheck == dataCheck && t.queue == queue
    {
      if t.ended.None? && t.Enabled(steps[i].wake) {
        t.Turn(steps[i].now, steps[i].wake, steps[i].later);
      }
    }
    PacketsAreFed(t.log, queue);
  }

  // ----- What an orderly run says -----

  lemma {:induction false} CountAtLeast(log: seq<TunnelEvent>, i: nat, m: Mark)
    requires i < |log| && MarkOf(log[i]) == m
    ensures Count(log, m) >= 1
  {
    var last := |log| - 1;
    if i < last {
      CountAtLeast(log[..last], i, m);
    }
  }

  lemma {:induction false} CountFinds(log: seq<TunnelEvent>, m: Mark) returns (i: nat)
    requires Count(log, m) >= 1
    ensures i < |log| && MarkOf(log[i]) == m
  {
    var last := |log| - 1;
    if MarkOf(log[last]) == m {
      i := last;
    } else {
      i := CountFinds(log[..last], m);
    }
  }

  /** Readiness is signalled once at most. */
  lemma ReadyOnce(log: seq<TunnelEvent>, dataCheck: bool, i: nat, j: nat)
    requires Orderly(log, dataCheck) && i < j < |log|
    ensures !(log[i] == Ready && log[j] == Ready)
  {
    if log[i] == Ready && log[j] == Ready {
      assert InOrder(log[..j], log[j], dataCheck);
      CountAtLeast(log[..j], i, ReadyMark);
    }
  }

  /** Whether a packet came out of the parser with event `i`, a chunk, after the chunks before it. */
  ghost predicate Carried(log: seq<TunnelEvent>, i: nat, queue: nat -> Queue)
    requires i < |log|
  {
    && log[i].Chunk? && log[i].packets != []
    && (forall k :: 0 <= k < |log[i].packets| ==> Capsules.LooksLikeIp(log[i].packets[k]))
    && var (buf, n) := Parsed(log[..i], queue);
    log[i].packets == Drained(Held(buf, log[i].bytes), queue, n).0
  }

  /** With the data check, readiness comes after two chunks out of each of which came a packet. */
  lemma ReadyFollowsProof(log: seq<TunnelEvent>, ready: nat, queue: nat -> Queue) returns (first: nat, second: nat)
    requires Orderly(log, true) && AllTold(log, queue) && ready < |log| && log[ready] == Ready
    ensures first < second < ready && Carried(log, first, queue) && Carried(log, second, queue)
  {
    hide Drained, Count, Parsed;
    assert InOrder(log[..ready], log[ready], true);
    first, second := TwoFound(log[..ready], CarriedMark);
    CarriedIs(log, first, queue);
    CarriedIs(log, second, queue);
  }

  lemma CarriedIs(log: seq<TunnelEvent>, i: nat, queue: nat -> Queue)
    requires AllTold(log, queue) && i < |log| && MarkOf(log[i]) == CarriedMark
    ensures Carried(log, i, queue)
  {
    hide Drained, Parsed;
    var (buf, n) := Parsed(log[..i], queue);
    assert Told(log[..i], log[i], queue);
    DrainedAreIp(Held(buf, log[i].bytes), queue, n);
  }

  /** Before every ping there was readiness, and with the data check its two chunks. */
  lemma PingsFollowProof(log: seq<TunnelEvent>, i: nat, queue: nat -> Queue)
    returns (ready: nat, first: nat, second: nat)
    requires Orderly(log, true) && AllTold(log, queue) && i < |log| && log[i] == Ping
    ensures first < second < ready < i && log[ready] == Ready
    ensures Carried(log, first, queue) && Carried(log, second, queue)
  {
    hide Carried, AllTold;
    assert InOrder(log[..i], log[i], true);
    ready := CountFinds(log[..i], ReadyMark);
    first, second := ReadyFollowsProof(log, ready, queue);
  }

  lemma {:induction false} TwoFound(log: seq<TunnelEvent>, m: Mark) returns (i: nat, j: nat)
    requires Count(log, m) >= 2
    ensures i < j < |log| && MarkOf(log[i]) == m && MarkOf(log[j]) == m
  {
    var last := |log| - 1;
    if MarkOf(log[last]) == m {
      j := last;
      i := CountFinds(log[..last], m);
    } else {
      i, j := TwoFound(log[..last], m);
    }
  }
}
