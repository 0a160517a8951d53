/**
 * The userspace TCP/UDP connection table: commands, payload of the apps, and the service of the
 * sockets, which are an environment that may answer each call in any way smoltcp can.
 */
module NetStack {
  import opened Bytes
  import opened NetLog
  import opened NetQueue

  type Handle = nat

  datatype Kind = TcpSocket | UdpSocket

  /** The states of a TCP socket. */
  datatype Phase =
    | Closed | Listen | SynSent | SynReceived | Established | FinWait1
    | FinWait2 | CloseWait | Closing | LastAck | TimeWait

  datatype TcpState = TcpState(
    handle: Handle,
    /** The command still to be answered. */
    connectResp: Option<Request>,
    connectDeadline: nat,
    pending: seq<byte>,
    established: bool,
    halfClosed: bool,
    orphanedAt: Option<nat>,
    aborted: bool)

  /** A command; whether the socket takes the connection or the port is for smoltcp to say. */
  datatype Cmd = OpenTcp(connects: bool) | OpenUdp(binds: bool) | SetAddrs

  /** What an app is given at a time: a chunk of a stream, or a datagram and the address it comes from. */
  datatype Piece = Piece(from: Option<Addr>, data: seq<byte>)

  /** One turn of the loop that gives an app what its socket received. */
  datatype Offer = QueueFull | AppGone | NothingReceived | Chunk(piece: Piece)

  /** What the socket of a connection, and the app behind it, answer while it is serviced. */
  datatype TcpView = TcpView(
    phase: Phase,
    abandoned: bool,
    canSend: bool,
    accepts: nat,
    offers: seq<Offer>,
    canRecv: bool,
    phaseAfter: Phase)

  const MAX_RECV_CHUNKS: nat := 128

  // ----- What holds in every state -----

  /** The socket set holds the handles of the two tables, each once, and no other. */
  ghost predicate Owned(sockets: map<Handle, Kind>, owner: map<Handle, Id>, tcp: map<Id, TcpState>,
        udp: map<Id, Handle>) {
    && sockets.Keys == owner.Keys
    && (forall h :: h in owner ==>
          match sockets[h]
          case TcpSocket => owner[h] in tcp && tcp[owner[h]].handle == h
          case UdpSocket => owner[h] in udp && udp[owner[h]] == h)
    && (forall id :: id in tcp ==>
          var h := tcp[id].handle; h in owner && owner[h] == id && sockets[h] == TcpSocket)
    && (forall id :: id in udp ==>
          var h := udp[id]; h in owner && owner[h] == id && sockets[h] == UdpSocket)
  }

  /** Ids go up and are never used again. */
  ghost predicate Numbered(tcp: map<Id, TcpState>, udp: map<Id, Handle>, deferred: seq<DataIn>, nextId: Id,
        log: seq<Event>) {
    && tcp.Keys !! udp.Keys
    && (forall id :: id in tcp || id in udp ==> id < nextId)
    && (forall i :: 0 <= i < |deferred| ==> deferred[i].id < nextId)
    && (forall i :: 0 <= i < |log| ==> log[i].Answered? || log[i].id < nextId)
    && FreshIds(log, nextId)
  }

  ghost predicate IsWaiting(tcp: map<Id, TcpState>, r: Request) {
    exists id :: id in tcp && tcp[id].connectResp == Some(r)
  }

  /** Each command is answered once: not while its connection waits, and then for good. */
  ghost predicate AnsweredOnce(tcp: map<Id, TcpState>, nextRequest: Request, log: seq<Event>) {
    && (forall id :: id in tcp ==> (tcp[id].connectResp.Some? <==> !tcp[id].established))
    && (forall id :: id in tcp && tcp[id].aborted ==> tcp[id].established)
    && (forall id :: id in tcp && tcp[id].connectResp.Some? ==> tcp[id].connectResp.value < nextRequest)
    && (forall i, j :: i in tcp && j in tcp && i != j && tcp[i].connectResp.Some? ==>
              tcp[i].connectResp != tcp[j].connectResp)
    && (forall r: Request :: Answers(log, r) == if r < nextRequest && !IsWaiting(tcp, r) then 1 else 0)
  }

  function DeferredFor(deferred: seq<DataIn>, id: Id): seq<byte> {
    if deferred != [] && deferred[0].Tcp? && deferred[0].id == id then deferred[0].data else []
  }

  /** The payload taken for a connection is what its socket has, then what waits for it, in order. */
  ghost predicate Conserved(tcp: map<Id, TcpState>, deferred: seq<DataIn>, cap: nat, log: seq<Event>) {
    && |deferred| <= 1
    && (deferred != [] ==> deferred[0].Tcp?)
    && (forall id :: id in tcp ==> |tcp[id].pending| <= cap)
    && (forall id :: id in tcp ==>
          TakenBytes(log, id) == HandedBytes(log, id) + tcp[id].pending + DeferredFor(deferred, id))
  }

  /** A half-closed connection has all that was sent before its half-close in its socket or pending. */
  ghost predicate FinsInOrder(tcp: map<Id, TcpState>, log: seq<Event>) {
    && FinsLast(log)
    && (forall id :: id in tcp && tcp[id].halfClosed ==> HalfClose(id) in log)
    && (forall id :: id in tcp ==> MarksIn(log, id, HandedBytes(log, id) + tcp[id].pending))
  }

  lemma NothingYet(log: seq<Event>, id: Id)
    requires forall i :: 0 <= i < |log| ==> log[i].Answered? || log[i].id != id
    ensures TakenBytes(log, id) == [] && HandedBytes(log, id) == []
  {
  }

  // ----- What a change to the table keeps -----

  lemma OwnedAdd(sockets: map<Handle, Kind>, owner: map<Handle, Id>, tcp: map<Id, TcpState>,
        udp: map<Id, Handle>, h: Handle, id: Id)
    requires Owned(sockets, owner, tcp, udp) && h !in sockets && id !in tcp && id !in udp
    ensures forall st: TcpState :: st.handle == h ==> Owned(sockets[h := TcpSocket], owner[h := id], tcp[id := st], udp)
    ensures Owned(sockets[h := UdpSocket], owner[h := id], tcp, udp[id := h])
  {
  }

  lemma OwnedDrop(sockets: map<Handle, Kind>, owner: map<Handle, Id>, tcp: map<Id, TcpState>,
        udp: map<Id, Handle>, id: Id)
    requires Owned(sockets, owner, tcp, udp)
    ensures id in tcp ==> Owned(sockets - {tcp[id].handle}, owner - {tcp[id].handle}, tcp - {id}, udp)
    ensures id in udp ==> Owned(sockets - {udp[id]}, owner - {udp[id]}, tcp, udp - {id})
  {
  }

  lemma AnswersUnder(tcp: map<Id, TcpState>, nextRequest: Request, log: seq<Event>, r: Request)
    requires AnsweredOnce(tcp, nextRequest, log)
    ensures IsWaiting(tcp, r) ==> r < nextRequest
  {
  }

  /** A new command waits with its connection. */
  lemma AnswersOpen(tcp: map<Id, TcpState>, nextRequest: Request, log: seq<Event>, id: Id, st: TcpState)
    requires AnsweredOnce(tcp, nextRequest, log) && id !in tcp
    requires st.connectResp == Some(nextRequest) && !st.established && !st.aborted
    ensures AnsweredOnce(tcp[id := st], nextRequest + 1, log + [Opened(id)])
  {
    var tcp' := tcp[id := st];
    LogGrows(log, Opened(id));
    assert tcp'[id].connectResp == Some(nextRequest);
    forall r: Request ensures IsWaiting(tcp', r) <==> r == nextRequest || IsWaiting(tcp, r) {
      if r == nextRequest {
        assert IsWaiting(tcp', r);
      } else if IsWaiting(tcp, r) {
        var k :| k in tcp && tcp[k].connectResp == Some(r);
        assert k in tcp' && tcp'[k].connectResp == Some(r);
      }
    }
    AnswersUnder(tcp, nextRequest, log, nextRequest);
  }

  /** A command that fails is answered at once. */
  lemma AnswersFail(tcp: map<Id, TcpState>, nextRequest: Request, log: seq<Event>)
    requires AnsweredOnce(tcp, nextRequest, log)
    ensures AnsweredOnce(tcp, nextRequest + 1, log + [Answered(nextRequest, false)])
  {
    LogGrows(log, Answered(nextRequest, false));
    AnswersUnder(tcp, nextRequest, log, nextRequest);
  }

  /** The connection stops waiting, by being established or by leaving the table, as its command is answered. */
  lemma AnswersReply(tcp: map<Id, TcpState>, tcp': map<Id, TcpState>, nextRequest: Request, log: seq<Event>,
        id: Id, ok: bool)
    requires AnsweredOnce(tcp, nextRequest, log) && id in tcp && tcp[id].connectResp.Some?
    requires tcp' == tcp - {id}
             || (id in tcp' && tcp' == tcp[id := tcp'[id]] && tcp'[id].connectResp.None? && tcp'[id].established)
    ensures AnsweredOnce(tcp', nextRequest, log + [Answered(tcp[id].connectResp.value, ok)])
  {
    var answered := tcp[id].connectResp.value;
    LogGrows(log, Answered(answered, ok));
    assert IsWaiting(tcp, answered);
    forall r: Request ensures IsWaiting(tcp', r) <==> r != answered && IsWaiting(tcp, r) {
      if r != answered && IsWaiting(tcp, r) {
        var k :| k in tcp && tcp[k].connectResp == Some(r);
        assert k in tcp' && tcp'[k].connectResp == Some(r);
      }
      if IsWaiting(tcp', r) {
        var k :| k in tcp' && tcp'[k].connectResp == Some(r);
        assert k != id && k in tcp && tcp[k].connectResp == Some(r);
      }
    }
  }

  lemma AnswersQuiet(tcp: map<Id, TcpState>, nextRequest: Request, log: seq<Event>, e: Event)
    requires AnsweredOnce(tcp, nextRequest, log) && !e.Answered?
    ensures AnsweredOnce(tcp, nextRequest, log + [e])
  {
    LogGrows(log, e);
  }

  /** Nothing else has to do with the answers. */
  lemma AnswersKeep(tcp: map<Id, TcpState>, tcp': map<Id, TcpState>, nextRequest: Request, log: seq<Event>,
        log': seq<Event>, id: Id)
    requires AnsweredOnce(tcp, nextRequest, log) && id in tcp
    requires || (tcp' == tcp - {id} && tcp[id].established)
             || (id in tcp' && tcp' == tcp[id := tcp'[id]] && tcp'[id].connectResp == tcp[id].connectResp
                 && tcp'[id].established == tcp[id].established
                 && (tcp'[id].aborted ==> tcp'[id].established))
    requires log' == log || (|log'| == |log| + 1 && log' == log + [log'[|log|]] && !log'[|log|].Answered?)
    ensures AnsweredOnce(tcp', nextRequest, log')
  {
    if log' != log {
      LogGrows(log, log'[|log|]);
    }
    forall r: Request ensures IsWaiting(tcp', r) <==> IsWaiting(tcp, r) {
      if IsWaiting(tcp, r) {
        var k :| k in tcp && tcp[k].connectResp == Some(r);
        assert k in tcp' && tcp'[k].connectResp == Some(r);
      }
      if IsWaiting(tcp', r) {
        var k :| k in tcp' && tcp'[k].connectResp == Some(r);
        assert k in tcp && tcp[k].connectResp == Some(r);
      }
    }
  }

  /** An event of one connection: what it takes, hands over and leaves waiting adds up. */
  lemma ConservedStep(tcp: map<Id, TcpState>, st: TcpState, deferred: seq<DataIn>, deferred': seq<DataIn>,
        cap: nat, log: seq<Event>, e: Event)
    requires Conserved(tcp, deferred, cap, log) && !e.Answered? && e.id in tcp
    requires |deferred'| <= 1 && (deferred' != [] ==> deferred'[0].Tcp?) && |st.pending| <= cap
    requires forall k :: k != e.id ==> DeferredFor(deferred', k) == DeferredFor(deferred, k)
    requires TakenBytes(log, e.id) + TakenIn(e, e.id)
          == HandedBytes(log, e.id) + HandedIn(e, e.id) + st.pending + DeferredFor(deferred', e.id)
    ensures Conserved(tcp[e.id := st], deferred', cap, log + [e])
  {
    hide TakenBytes, HandedBytes, DeferredFor;
    LogGrows(log, e);
    forall id | id in tcp && id != e.id
      ensures TakenBytes(log + [e], id) == HandedBytes(log + [e], id) + tcp[id].pending + DeferredFor(deferred', id)
    {
      assert TakenBytes(log, id) == HandedBytes(log, id) + tcp[id].pending + DeferredFor(deferred, id);
    }
  }

  /** An event that moves no payload. */
  lemma ConservedQuiet(tcp: map<Id, TcpState>, deferred: seq<DataIn>, cap: nat, log: seq<Event>, e: Event)
    requires Conserved(tcp, deferred, cap, log) && (e.Answered? || e.Opened? || e.Datagram?)
    ensures Conserved(tcp, deferred, cap, log + [e])
  {
    hide TakenBytes, HandedBytes, DeferredFor;
    LogGrows(log, e);
  }

  lemma FinsStep(tcp: map<Id, TcpState>, st: TcpState, log: seq<Event>, e: Event)
    requires FinsInOrder(tcp, log) && !e.Answered? && e.id in tcp
    requires HandedBytes(log, e.id) + tcp[e.id].pending <= HandedBytes(log, e.id) + HandedIn(e, e.id) + st.pending
    requires e.FinAsked? ==> tcp[e.id].halfClosed && tcp[e.id].pending == []
    requires e.HalfClose? ==> TakenBytes(log, e.id) <= HandedBytes(log, e.id) + tcp[e.id].pending
    requires st.halfClosed ==> tcp[e.id].halfClosed || e.HalfClose?
    ensures FinsInOrder(tcp[e.id := st], log + [e])
  {
    hide TakenBytes, HandedBytes, MarksIn, FinsLast;
    var tcp' := tcp[e.id := st];
    LogGrows(log, e);
    if e.FinAsked? {
      assert HandedBytes(log, e.id) + [] == HandedBytes(log, e.id);
    }
    FinsLastGrows(log, e);
    forall id | id in tcp' ensures MarksIn(log + [e], id, HandedBytes(log + [e], id) + tcp'[id].pending) {
      MarksGrow(log, e, id, HandedBytes(log, id) + tcp[id].pending, HandedBytes(log + [e], id) + tcp'[id].pending);
    }
    forall id | id in tcp' && tcp'[id].halfClosed ensures HalfClose(id) in log + [e] {
      assert HalfClose(id) in log || (log + [e])[|log|] == HalfClose(id);
    }
  }

  lemma FinsQuiet(tcp: map<Id, TcpState>, log: seq<Event>, e: Event)
    requires FinsInOrder(tcp, log) && (e.Answered? || e.Opened? || e.Datagram?)
    ensures FinsInOrder(tcp, log + [e])
  {
    hide TakenBytes, HandedBytes, MarksIn, FinsLast;
    LogGrows(log, e);
    FinsLastGrows(log, e);
    forall id | id in tcp ensures MarksIn(log + [e], id, HandedBytes(log + [e], id) + tcp[id].pending) {
      var out := HandedBytes(log, id) + tcp[id].pending;
      assert HandedBytes(log, id) + [] == HandedBytes(log, id);
      MarksGrow(log, e, id, out, out);
    }
  }

  /** Connections may leave the table, and be established. */
  lemma FewerKept(tcp: map<Id, TcpState>, tcp': map<Id, TcpState>, deferred: seq<DataIn>, cap: nat, log: seq<Event>)
    requires Conserved(tcp, deferred, cap, log) && FinsInOrder(tcp, log)
    requires forall id :: id in tcp' ==>
              id in tcp && tcp'[id].pending == tcp[id].pending && tcp'[id].halfClosed == tcp[id].halfClosed
    ensures Conserved(tcp', deferred, cap, log) && FinsInOrder(tcp', log)
  {
  }

  /** A connection that has just been opened. */
  lemma OpenKeep(tcp: map<Id, TcpState>, udp: map<Id, Handle>, deferred: seq<DataIn>, nextId: Id, cap: nat,
        log: seq<Event>, st: TcpState)
    requires Numbered(tcp, udp, deferred, nextId, log) && Conserved(tcp, deferred, cap, log) && FinsInOrder(tcp, log)
    requires st.pending == [] && !st.halfClosed
    ensures Conserved(tcp[nextId := st], deferred, cap, log + [Opened(nextId)])
    ensures FinsInOrder(tcp[nextId := st], log + [Opened(nextId)])
  {
    hide TakenBytes, HandedBytes, FinsLast;
    var e := Opened(nextId);
    ConservedQuiet(tcp, deferred, cap, log, e);
    FinsQuiet(tcp, log, e);
    NothingYet(log, nextId);
    LogGrows(log, e);
    assert MarksIn(log + [e], nextId, []);
  }

  lemma NumberedFewer(tcp: map<Id, TcpState>, udp: map<Id, Handle>, deferred: seq<DataIn>, nextId: Id,
        log: seq<Event>, id: Id)
    requires Numbered(tcp, udp, deferred, nextId, log)
    ensures Numbered(tcp - {id}, udp, deferred, nextId, log)
  {
  }

  lemma NextIdFree(tcp: map<Id, TcpState>, udp: map<Id, Handle>, deferred: seq<DataIn>, nextId: Id, log: seq<Event>)
    requires Numbered(tcp, udp, deferred, nextId, log)
    ensures nextId !in tcp && nextId !in udp
  {
  }

  lemma NumberedOpenTcp(tcp: map<Id, TcpState>, udp: map<Id, Handle>, deferred: seq<DataIn>, nextId: Id,
        log: seq<Event>, st: TcpState)
    requires Numbered(tcp, udp, deferred, nextId, log)
    ensures Numbered(tcp[nextId := st], udp, deferred, nextId + 1, log + [Opened(nextId)])
  {
  }

  lemma NumberedOpenUdp(tcp: map<Id, TcpState>, udp: map<Id, Handle>, deferred: seq<DataIn>, nextId: Id,
        log: seq<Event>, h: Handle)
    requires Numbered(tcp, udp, deferred, nextId, log)
    ensures Numbered(tcp, udp[nextId := h], deferred, nextId + 1, log + [Opened(nextId)])
  {
  }

  lemma TableUpdate(sockets: map<Handle, Kind>, owner: map<Handle, Id>, tcp: map<Id, TcpState>,
        udp: map<Id, Handle>, id: Id, st: TcpState)
    requires Owned(sockets, owner, tcp, udp) && id in tcp && st.handle == tcp[id].handle
    ensures Owned(sockets, owner, tcp[id := st], udp)
  {
  }

  lemma NumberedUpdate(tcp: map<Id, TcpState>, udp: map<Id, Handle>, deferred: seq<DataIn>,
        deferred': seq<DataIn>, nextId: Id, log: seq<Event>, id: Id, st: TcpState)
    requires Numbered(tcp, udp, deferred, nextId, log) && id in tcp
    requires forall i :: 0 <= i < |deferred'| ==> deferred'[i].id == id || deferred'[i] in deferred
    ensures Numbered(tcp[id := st], udp, deferred', nextId, log) && id < nextId
  {
  }

  lemma StillWaiting(tcp: map<Id, TcpState>, nextRequest: Request, log: seq<Event>, id: Id)
    requires AnsweredOnce(tcp, nextRequest, log) && id in tcp
    ensures tcp[id].connectResp.Some? <==> !tcp[id].established
    ensures tcp[id].aborted ==> tcp[id].established
  {
  }

  /** There is a number a finite set does not hold. */
  lemma FreeExists(s: set<nat>)
    ensures exists h: nat :: h !in s
  {
    var top := Above(s);
    assert top !in s;
  }

  lemma {:induction false} Above(s: set<nat>) returns (top: nat)
    ensures forall h :: h in s ==> h < top
  {
    if s == {} {
      top := 0;
    } else {
      var h :| h in s;
      var rest := Above(s - {h});
      top := if h < rest then rest else h + 1;
      assert s == (s - {h}) + {h};
    }
  }

  lemma NumberedStep(tcp: map<Id, TcpState>, udp: map<Id, Handle>, deferred: seq<DataIn>, nextId: Id,
        log: seq<Event>, e: Event)
    requires Numbered(tcp, udp, deferred, nextId, log)
    requires e.Answered? || (!e.Opened? && e.id < nextId) || e == Opened(nextId)
    ensures Numbered(tcp, udp, deferred, if e.Opened? then nextId + 1 else nextId, log + [e])
  {
  }

  // ----- What the service of one connection comes to -----

  /** The connection after its service, if it is still in the table, and what happened to it. */
  datatype Served = Served(st: Option<TcpState>, events: seq<Event>)

  /** How the loop that feeds the app ends. */
  datatype Feeding = Stopped | WasFull | WasGone

  /**
   * The chunks an app gets out of `offers`, no more than `room`, and how that ends; `empty` is whether
   * an empty one is given too, as a datagram is.
   */
  function Fed(offers: seq<Offer>, room: nat, empty: bool): (seq<Piece>, Feeding)
    decreases room
  {
    if offers == [] || room == 0 then ([], Stopped)
    else match offers[0]
      case QueueFull => ([], WasFull)
      case AppGone => ([], WasGone)
      case NothingReceived => ([], Stopped)
      case Chunk(piece) =>
        if piece.data == [] && !empty then ([], Stopped)
        else var (more, end) := Fed(offers[1..], room - 1, empty); ([piece] + more, end)
  }

  /** More chunks, after those that were delivered. */
  function Onto(delivered: seq<Piece>, fed: (seq<Piece>, Feeding)): (seq<Piece>, Feeding) {
    (delivered + fed.0, fed.1)
  }

  lemma OntoNothing(delivered: seq<Piece>, fed: (seq<Piece>, Feeding))
    ensures Onto([], fed) == fed
    ensures Onto(delivered, ([], fed.1)) == (delivered, fed.1)
  {
    assert [] + fed.0 == fed.0 && delivered + [] == delivered;
  }

  lemma FedOver(offers: seq<Offer>, room: nat, empty: bool)
    requires offers == [] || room == 0
    ensures Fed(offers, room, empty) == ([], Stopped)
  {
  }

  lemma FedNext(offers: seq<Offer>, delivered: seq<Piece>, room: nat, empty: bool)
    requires |delivered| < |offers| && room > 0
    ensures var here := Onto(delivered, Fed(offers[|delivered|..], room, empty));
            match offers[|delivered|]
            case QueueFull => here == (delivered, WasFull)
            case AppGone => here == (delivered, WasGone)
            case NothingReceived => here == (delivered, Stopped)
            case Chunk(piece) =>
              here == if piece.data == [] && !empty then (delivered, Stopped)
                      else Onto(delivered + [piece], Fed(offers[|delivered| + 1..], room - 1, empty))
  {
    var rest := offers[|delivered|..];
    assert rest[0] == offers[|delivered|] && rest[1..] == offers[|delivered| + 1..];
    assert delivered + [] == delivered;
    var more := Fed(rest[1..], room - 1, empty).0;
    if rest[0].Chunk? {
      assert delivered + ([rest[0].piece] + more) == delivered + [rest[0].piece] + more;
    }
  }

  /** How feeding the app of a UDP socket ends. */
  predicate Ends(offers: seq<Offer>, end: Feeding) {
    Fed(offers, MAX_RECV_CHUNKS, true).1 == end
  }

  function Reply(st: TcpState, ok: bool): seq<Event> {
    if st.connectResp.Some? then [Answered(st.connectResp.value, ok)] else []
  }

  /** A connection that is not established: it is connected, refused, or waits. */
  function Connecting(st: TcpState, v: TcpView, now: nat): Served {
    if v.phase.Established? || v.phase.CloseWait? then
      Served(Some(st.(established := true, connectResp := None)), Reply(st, true))
    else if v.phase.Closed? || v.phase.TimeWait? || v.abandoned || now >= st.connectDeadline then
      Served(None, Reply(st, false))
    else Served(Some(st), [])
  }

  /** How much of the pending payload the socket accepts. */
  function Accepted(v: TcpView, pending: seq<byte>): (n: nat)
    ensures n <= |pending|
  {
    if !v.canSend then 0 else if v.accepts < |pending| then v.accepts else |pending|
  }

  /** The socket takes what it accepts of the pending payload; once there is none, a half-close asks for a FIN. */
  function Sending(id: Id, st: TcpState, v: TcpView): Served {
    var n := Accepted(v, st.pending);
    Served(Some(st.(pending := st.pending[n..])),
           (if n > 0 then [Handed(id, st.pending[..n])] else [])
           + (if st.halfClosed && st.pending[n..] == [] then [FinAsked(id)] else []))
  }

  /** The app behind an established connection, and what its socket does after that. */
  function Receiving(id: Id, st: TcpState, v: TcpView, now: nat, linger: nat): Served {
    var gone := Fed(v.offers, MAX_RECV_CHUNKS, false).1 == WasGone;
    var since := if st.orphanedAt.Some? then st.orphanedAt.value else now;
    if gone && (v.canRecv || now - since >= linger) then
      Served(Some(st.(orphanedAt := Some(since), aborted := true)), [Orphaned(id, true)])
    else
      Served(if v.phaseAfter.Closed? || v.phaseAfter.TimeWait? then None else
             Some(if gone then st.(orphanedAt := Some(since)) else st),
             (if gone then [Orphaned(id, false)] else []) + (if v.phaseAfter.CloseWait? then [CloseAsked(id)] else []))
  }

  function Serving(id: Id, st: TcpState, v: TcpView, now: nat, linger: nat): Served {
    if st.aborted then Served(None, [])
    else
      var c := if st.established then Served(Some(st), []) else Connecting(st, v, now);
      if c.st.None? || !c.st.value.established then c
      else
        var s := Sending(id, c.st.value, v);
        var r := Receiving(id, s.st.value, v, now, linger);
        Served(r.st, c.events + (s.events + r.events))
  }

  /** Whether the service of a connection comes to its app. */
  predicate Talks(st: TcpState, v: TcpView) {
    !st.aborted && (st.established || v.phase.Established? || v.phase.CloseWait?)
  }

  /** Whether it leaves the queue of the app full. */
  predicate Backs(st: TcpState, v: TcpView) {
    Talks(st, v) && IsFull(v)
  }

  /** A connection as a command opens it. */
  predicate IsNew(st: TcpState, r: Request, deadline: nat) {
    st == TcpState(st.handle, Some(r), deadline, [], false, false, None, false)
  }

  /** The connections of a table as messages of the app queue may leave them. */
  predicate Queued(st: TcpState, now: TcpState) {
    now == st.(pending := now.pending, halfClosed := now.halfClosed)
  }

  ghost predicate AllQueued(tcp: map<Id, TcpState>, now: map<Id, TcpState>) {
    now.Keys == tcp.Keys && forall id :: id in tcp ==> Queued(tcp[id], now[id])
  }

  /** What the app of a connection is given in one service of it. */
  function Gives(st: TcpState, v: TcpView): seq<Piece> {
    if Talks(st, v) then Fed(v.offers, MAX_RECV_CHUNKS, false).0 else []
  }

  /** And the app of a UDP socket. */
  function Datagrams(offers: seq<Offer>): seq<Piece> {
    Fed(offers, MAX_RECV_CHUNKS, true).0
  }

  /** The service of a connection, part by part, and what each leaves of the table. */
  lemma ServingIs(tcp: map<Id, TcpState>, log: seq<Event>, id: Id, v: TcpView, now: nat, linger: nat)
    requires id in tcp
    ensures var st := tcp[id];
            var all := Serving(id, st, v, now, linger);
            && After(tcp, id, Served(None, [])) == tcp - {id} && After(tcp, id, Served(Some(st), [])) == tcp
            && log + [] == log
            && (st.aborted ==> all == Served(None, []) && !Talks(st, v))
            && (!st.aborted && !st.established ==>
                  var c := Connecting(st, v, now);
                  && Left(After(tcp, id, c), id, c.st)
                  && (c.st.None? || !c.st.value.established ==> all == c && !Talks(st, v))
                  && (c.st.Some? && c.st.value.established ==>
                        && ServedRest(After(tcp, id, c), tcp, log, id, c, v, now, linger, all)
                        && Talks(st, v)))
            && (!st.aborted && st.established ==>
                  ServedRest(tcp, tcp, log, id, Served(Some(st), []), v, now, linger, all) && Talks(st, v))
  {
    hide Fed, Accepted, Receiving;
    var st := tcp[id];
    var c := if st.established then Served(Some(st), []) else Connecting(st, v, now);
    if !st.aborted && c.st.Some? && c.st.value.established {
      var s := Sending(id, c.st.value, v);
      var r := Receiving(id, s.st.value, v, now, linger);
      Associates(log, c.events, s.events + r.events);
      Associates(log + c.events, s.events, r.events);
    }
  }

  predicate IsFull(v: TcpView) {
    Fed(v.offers, MAX_RECV_CHUNKS, false).1 == WasFull
  }

  /** From `tcp1`, left by `c` of `tcp`, sending and receiving leave what the whole service leaves of `tcp`. */
  ghost predicate ServedRest(tcp1: map<Id, TcpState>, tcp: map<Id, TcpState>, log: seq<Event>, id: Id, c: Served,
        v: TcpView, now: nat, linger: nat, all: Served) {
    && c.st.Some?
    && var s := Sending(id, c.st.value, v);
    && s.st.Some?
    && var r := Receiving(id, s.st.value, v, now, linger);
    && var tcp2 := After(tcp1, id, s);
    && id in tcp2 && tcp2[id] == s.st.value && tcp2[id].established == c.st.value.established
    && After(tcp2, id, r) == After(tcp, id, all)
    && log + c.events + s.events + r.events == log + all.events
  }

  /** None of it has to do with the app queue. */
  lemma ServingTakesNothing(id: Id, st: TcpState, v: TcpView, now: nat, linger: nat)
    ensures Apart(Serving(id, st, v, now, linger).events)
  {
    hide Apart, Connecting, Sending, Receiving;
    ApartParts([], []);
    ConnectingApart(st, v, now);
    var c := if st.established then Served(Some(st), []) else Connecting(st, v, now);
    if !st.aborted && c.st.Some? && c.st.value.established {
      SendingApart(id, c.st.value, v);
      var s := Sending(id, c.st.value, v);
      ReceivingApart(id, s.st.value, v, now, linger);
      var r := Receiving(id, s.st.value, v, now, linger);
      ApartParts(s.events, r.events);
      ApartParts(c.events, s.events + r.events);
    }
  }

  lemma ApartParts(a: seq<Event>, b: seq<Event>)
    ensures Apart([]) && (Apart(a) && Apart(b) ==> Apart(a + b))
  {
  }

  lemma ConnectingApart(st: TcpState, v: TcpView, now: nat)
    ensures Apart(Connecting(st, v, now).events)
  {
  }

  lemma SendingApart(id: Id, st: TcpState, v: TcpView)
    ensures Sending(id, st, v).st.Some? && Apart(Sending(id, st, v).events)
  {
    hide Accepted;
  }

  lemma ReceivingApart(id: Id, st: TcpState, v: TcpView, now: nat, linger: nat)
    ensures Apart(Receiving(id, st, v, now, linger).events)
  {
    hide Fed;
  }

  /** The table once connection `id` has been serviced. */
  function After(tcp: map<Id, TcpState>, id: Id, served: Served): map<Id, TcpState> {
    if served.st.Some? then tcp[id := served.st.value] else tcp - {id}
  }

  /** Where a connection that was serviced is left. */
  predicate Left(tcp: map<Id, TcpState>, id: Id, st: Option<TcpState>) {
    if st.Some? then id in tcp && tcp[id] == st.value else id !in tcp
  }

  lemma AfterOne(tcp: map<Id, TcpState>, id: Id, served: Served)
    requires id in tcp
    ensures Left(After(tcp, id, served), id, served.st) && After(tcp, id, served).Keys <= tcp.Keys
    ensures forall k :: k != id ==> (k in After(tcp, id, served) <==> k in tcp)
    ensures forall k :: k != id && k in tcp ==> After(tcp, id, served)[k] == tcp[k]
  {
  }

  /** Nothing has been taken for the connection that is opened next. */
  lemma NewIsEmpty(tcp: map<Id, TcpState>, udp: map<Id, Handle>, deferred: seq<DataIn>, nextId: Id, log: seq<Event>)
    requires Numbered(tcp, udp, deferred, nextId, log)
    ensures TakenBytes(log + [Opened(nextId)], nextId) == []
    ensures forall e: Event :: !e.Taken? && !e.HalfClose? ==> ApartFrom(log, log + [e])
    ensures ApartFrom(log, log)
  {
    NothingYet(log, nextId);
    LogGrows(log, Opened(nextId));
    hide ApartFrom;
    ApartNone(log);
    forall e: Event | !e.Taken? && !e.HalfClose? ensures ApartFrom(log, log + [e]) {
      ApartMore(log, log, [e]);
    }
  }

  /** The channels the apps receive by. */
  class Apps {
    var given: map<Id, seq<Piece>>

    constructor ()
      ensures given == map[]
    {
      given := map[];
    }

    method Give(id: Id, piece: Piece)
      modifies this
      ensures GaveTo(old(given), given, id, [piece])
    {
      given := given[id := Got(given, id) + [piece]];
    }
  }

  /** What an app has been given, in order. */
  function Got(given: map<Id, seq<Piece>>, id: Id): seq<Piece> {
    if id in given then given[id] else []
  }

  /** The app of `id`, and no other, was given `pieces`. */
  ghost predicate GaveTo(was: map<Id, seq<Piece>>, now: map<Id, seq<Piece>>, id: Id, pieces: seq<Piece>) {
    forall k :: Got(now, k) == if k == id then Got(was, k) + pieces else Got(was, k)
  }

  /** Each app was given what `pieces` says. */
  ghost predicate GaveAll(was: map<Id, seq<Piece>>, now: map<Id, seq<Piece>>, pieces: Id -> seq<Piece>) {
    forall k :: Got(now, k) == Got(was, k) + pieces(k)
  }

  lemma GaveNothing(given: map<Id, seq<Piece>>, id: Id)
    ensures GaveTo(given, given, id, [])
  {
  }

  /** What the apps of the connections are given, once all but those in `left` have been serviced. */
  ghost function TcpGives(tcp: map<Id, TcpState>, left: set<Id>, view: Id -> TcpView): Id -> seq<Piece> {
    id => if id in tcp && id !in left then Gives(tcp[id], view(id)) else []
  }

  ghost function UdpGives(ids: set<Id>, view: Id -> seq<Offer>): Id -> seq<Piece> {
    id => if id in ids then Datagrams(view(id)) else []
  }

  lemma NoneServed(given: map<Id, seq<Piece>>, tcp: map<Id, TcpState>, view: Id -> TcpView)
    ensures GaveAll(given, given, TcpGives(tcp, tcp.Keys, view))
  {
    hide Gives;
  }

  lemma OneServed(was: map<Id, seq<Piece>>, mid: map<Id, seq<Piece>>, now: map<Id, seq<Piece>>,
        tcp: map<Id, TcpState>, left: set<Id>, view: Id -> TcpView, id: Id)
    requires GaveAll(was, mid, TcpGives(tcp, left, view)) && id in left && id in tcp
    requires GaveTo(mid, now, id, Gives(tcp[id], view(id)))
    ensures GaveAll(was, now, TcpGives(tcp, left - {id}, view))
  {
    hide Gives, Got;
    forall k ensures Got(now, k) == Got(was, k) + TcpGives(tcp, left - {id}, view)(k) {
      assert Got(mid, k) == Got(was, k) + TcpGives(tcp, left, view)(k);
      assert Got(was, k) + [] == Got(was, k);
    }
  }

  lemma NoneFed(given: map<Id, seq<Piece>>, view: Id -> seq<Offer>)
    ensures GaveAll(given, given, UdpGives({}, view))
  {
    hide Datagrams;
  }

  lemma OneFed(was: map<Id, seq<Piece>>, mid: map<Id, seq<Piece>>, now: map<Id, seq<Piece>>, ids: set<Id>,
        view: Id -> seq<Offer>, id: Id)
    requires GaveAll(was, mid, UdpGives(ids, view)) && id !in ids
    requires GaveTo(mid, now, id, Datagrams(view(id)))
    ensures GaveAll(was, now, UdpGives(ids + {id}, view))
  {
    hide Datagrams, Got;
    forall k ensures Got(now, k) == Got(was, k) + UdpGives(ids + {id}, view)(k) {
      assert Got(mid, k) == Got(was, k) + UdpGives(ids, view)(k);
      assert Got(was, k) + [] == Got(was, k);
    }
  }

  lemma GaveMore(was: map<Id, seq<Piece>>, mid: map<Id, seq<Piece>>, now: map<Id, seq<Piece>>, id: Id,
        pieces: seq<Piece>, piece: Piece)
    requires GaveTo(was, mid, id, pieces) && GaveTo(mid, now, id, [piece])
    ensures GaveTo(was, now, id, pieces + [piece])
  {
    Associates(Got(was, id), pieces, [piece]);
  }

  class Stack {
    const apps: Apps
    var sockets: map<Handle, Kind>
    var tcp: map<Id, TcpState>
    var udp: map<Id, Handle>
    var nextId: Id
    var deferred: seq<DataIn>
    /** The most payload that waits for a socket. */
    const maxPending: nat
    const connectLimit: nat
    const orphanLinger: nat

    /** The command that comes next, by its place among them. */
    var nextRequest: Request

    ghost var owner: map<Handle, Id>
    ghost var log: seq<Event>

    ghost predicate Valid()
      reads this
    {
      && Owned(sockets, owner, tcp, udp)
      && Numbered(tcp, udp, deferred, nextId, log)
      && AnsweredOnce(tcp, nextRequest, log)
      && Conserved(tcp, deferred, maxPending, log)
      && FinsInOrder(tcp, log)
    }

    constructor (maxPending: nat, connectLimit: nat, orphanLinger: nat)
      ensures Valid() && tcp == map[] && udp == map[] && log == [] && nextRequest == 0
      ensures this.maxPending == maxPending && this.connectLimit == connectLimit && this.orphanLinger == orphanLinger
      ensures fresh(apps) && apps.given == map[]
    {
      apps := new Apps();
      this.maxPending, this.connectLimit, this.orphanLinger := maxPending, connectLimit, orphanLinger;
      sockets, tcp, udp, nextId, deferred := map[], map[], map[], 1, [];
      owner, nextRequest, log := map[], 0, [];
    }

    // ----- One change at a time -----

    /** A handle the socket set does not use. */
    method FreeHandle() returns (h: Handle)
      ensures h !in sockets
    {
      FreeExists(sockets.Keys);
      h :| h !in sockets.Keys;
    }

    /** A connection and its socket leave their tables; its command has been answered. */
    method Drop(id: Id)
      requires Valid() && id in tcp && tcp[id].established
      modifies this
      ensures Valid() && tcp == old(tcp) - {id} && Kept(old(udp), old(nextId), old(deferred), old(nextRequest))
      ensures log == old(log)
    {
      hide Owned, AnsweredOnce, Conserved, FinsInOrder;
      OwnedDrop(sockets, owner, tcp, udp, id);
      AnswersKeep(tcp, tcp - {id}, nextRequest, log, log, id);
      FewerKept(tcp, tcp - {id}, deferred, maxPending, log);
      Unsocket(id);
    }

    /** The socket of a connection is removed; the set holds it. */
    method Unsocket(id: Id)
      requires id in tcp && Owned(sockets, owner, tcp, udp)
      modifies this`sockets, this`owner, this`tcp
      ensures sockets == old(sockets) - {old(tcp)[id].handle} && owner == old(owner) - {old(tcp)[id].handle}
      ensures tcp == old(tcp) - {id}
    {
      var h := tcp[id].handle;
      assert h in sockets;
      sockets, owner, tcp := sockets - {h}, owner - {h}, tcp - {id};
    }

    /** What an operation on the TCP table leaves alone. */
    ghost predicate Kept(udp: map<Id, Handle>, nextId: Id, deferred: seq<DataIn>, nextRequest: Request)
      reads this
    {
      this.udp == udp && this.nextId == nextId && this.deferred == deferred && this.nextRequest == nextRequest
    }

    /** The command of a connection that waits is refused, and the connection goes. */
    method Refuse(id: Id)
      requires Valid() && id in tcp && !tcp[id].established
      modifies this
      ensures Valid() && tcp == old(tcp) - {id} && Kept(old(udp), old(nextId), old(deferred), old(nextRequest))
      ensures log == old(log) + [Answered(old(tcp)[id].connectResp.value, false)]
    {
      hide Owned, AnsweredOnce, Conserved, FinsInOrder, Numbered;
      StillWaiting(tcp, nextRequest, log, id);
      ghost var e := Answered(tcp[id].connectResp.value, false);
      OwnedDrop(sockets, owner, tcp, udp, id);
      AnswersReply(tcp, tcp - {id}, nextRequest, log, id, false);
      FewerKept(tcp, tcp - {id}, deferred, maxPending, log);
      ConservedQuiet(tcp - {id}, deferred, maxPending, log, e);
      FinsQuiet(tcp - {id}, log, e);
      NumberedFewer(tcp, udp, deferred, nextId, log, id);
      NumberedStep(tcp - {id}, udp, deferred, nextId, log, e);
      Unsocket(id);
      log := log + [e];
    }

    /** The connection is established, and its command is answered with it. */
    method Connected(id: Id)
      requires Valid() && id in tcp && !tcp[id].established
      modifies this
      ensures Valid() && id in tcp && Kept(old(udp), old(nextId), old(deferred), old(nextRequest))
      ensures tcp == old(tcp)[id := old(tcp)[id].(established := true, connectResp := None)]
      ensures log == old(log) + [Answered(old(tcp)[id].connectResp.value, true)]
    {
      hide Owned, AnsweredOnce, Conserved, FinsInOrder, Numbered;
      StillWaiting(tcp, nextRequest, log, id);
      ghost var e := Answered(tcp[id].connectResp.value, true);
      var tcp' := tcp[id := tcp[id].(established := true, connectResp := None)];
      TableUpdate(sockets, owner, tcp, udp, id, tcp'[id]);
      NumberedUpdate(tcp, udp, deferred, deferred, nextId, log, id, tcp'[id]);
      AnswersReply(tcp, tcp', nextRequest, log, id, true);
      FewerKept(tcp, tcp', deferred, maxPending, log);
      ConservedQuiet(tcp', deferred, maxPending, log, e);
      FinsQuiet(tcp', log, e);
      NumberedStep(tcp', udp, deferred, nextId, log, e);
      tcp := tcp';
      log := log + [e];
    }

    /** What an event of a connection has to add up to. */
    ghost predicate Adds(st: TcpState, deferred': seq<DataIn>, e: Event)
      requires !e.Answered? && !e.Opened? && e.id in tcp
      reads this
    {
      var was := tcp[e.id];
      && st.handle == was.handle && st.connectResp == was.connectResp && st.established == was.established
      && (st.aborted ==> st.established)
      && |deferred'| <= 1 && (deferred' != [] ==> deferred'[0].Tcp?)
      && (deferred' == deferred || (deferred' != [] ==> deferred'[0].id == e.id))
      && |st.pending| <= maxPending
      && (forall k :: k != e.id ==> DeferredFor(deferred', k) == DeferredFor(deferred, k))
      && was.pending + DeferredFor(deferred, e.id) + TakenIn(e, e.id)
         == HandedIn(e, e.id) + st.pending + DeferredFor(deferred', e.id)
      && was.pending <= HandedIn(e, e.id) + st.pending
      && (e.FinAsked? ==> was.halfClosed && was.pending == [])
      && (e.HalfClose? ==> DeferredFor(deferred, e.id) == [])
      && (st.halfClosed ==> was.halfClosed || e.HalfClose?)
    }

    /** An event of one connection that is in the table. */
    method Happens(id: Id, st: TcpState, deferred': seq<DataIn>, ghost e: Event)
      requires Valid() && !e.Answered? && !e.Opened? && e.id == id && id in tcp && Adds(st, deferred', e)
      modifies this
      ensures Valid() && udp == old(udp) && nextId == old(nextId) && deferred == deferred'
      ensures nextRequest == old(nextRequest)
      ensures tcp == old(tcp)[id := st] && log == old(log) + [e]
    {
      hide Owned, AnsweredOnce, Conserved, FinsInOrder, Numbered, DeferredFor;
      var tcp' := tcp[id := st];
      AddsUp(st, deferred', e);
      TableUpdate(sockets, owner, tcp, udp, id, st);
      NumberedUpdate(tcp, udp, deferred, deferred', nextId, log, id, st);
      AnswersKeep(tcp, tcp', nextRequest, log, log + [e], id);
      ConservedStep(tcp, st, deferred, deferred', maxPending, log, e);
      FinsStep(tcp, st, log, e);
      NumberedStep(tcp', udp, deferred', nextId, log, e);
      tcp, deferred := tcp', deferred';
      log := log + [e];
    }

    lemma AddsUp(st: TcpState, deferred': seq<DataIn>, e: Event)
      requires Conserved(tcp, deferred, maxPending, log) && !e.Answered? && !e.Opened? && e.id in tcp
      requires Adds(st, deferred', e)
      ensures TakenBytes(log, e.id) + TakenIn(e, e.id)
           == HandedBytes(log, e.id) + HandedIn(e, e.id) + st.pending + DeferredFor(deferred', e.id)
      ensures HandedBytes(log, e.id) + tcp[e.id].pending <= HandedBytes(log, e.id) + HandedIn(e, e.id) + st.pending
      ensures e.HalfClose? ==> TakenBytes(log, e.id) <= HandedBytes(log, e.id) + tcp[e.id].pending
    {
      hide TakenBytes, HandedBytes, DeferredFor, TakenIn, HandedIn;
      var handed, held := HandedBytes(log, e.id), DeferredFor(deferred, e.id);
      SumsAgree(handed, tcp[e.id].pending, held, TakenIn(e, e.id), HandedIn(e, e.id), st.pending,
                DeferredFor(deferred', e.id));
      assert held == [] ==> handed + tcp[e.id].pending + held == handed + tcp[e.id].pending;
    }

    // ----- Commands -----

    method HandleCmd(cmd: Cmd, now: nat)
      requires Valid()
      modifies this
      ensures Valid() && deferred == old(deferred) && old(log) <= log && nextId >= old(nextId)
      ensures cmd.OpenTcp? ==> nextRequest == old(nextRequest) + 1
      ensures cmd == OpenTcp(true) ==>
                && old(nextId) !in old(tcp) && nextId == old(nextId) + 1 && old(nextId) in tcp
                && tcp == old(tcp)[old(nextId) := tcp[old(nextId)]]
                && IsNew(tcp[old(nextId)], old(nextRequest), now + connectLimit)
                && tcp[old(nextId)].handle !in old(sockets)
                && udp == old(udp) && log == old(log) + [Opened(old(nextId))]
      ensures cmd == OpenTcp(false) ==>
                tcp == old(tcp) && udp == old(udp) && log == old(log) + [Answered(old(nextRequest), false)]
      ensures cmd.OpenUdp? ==> tcp == old(tcp) && nextRequest == old(nextRequest)
      ensures cmd == OpenUdp(true) ==>
                old(nextId) in udp && udp == old(udp)[old(nextId) := udp[old(nextId)]]
                && log == old(log) + [Opened(old(nextId))]
      ensures cmd == OpenUdp(false) || cmd == SetAddrs ==> tcp == old(tcp) && udp == old(udp) && log == old(log)
    {
      match cmd
      case OpenTcp(connects) =>
        if connects {
          OpenConn(now);
        } else {
          FailConn();
        }
      case OpenUdp(binds) =>
        if binds {
          OpenSocket();
        }
      case SetAddrs =>
    }

    method OpenConn(now: nat)
      requires Valid()
      modifies this
      ensures Valid() && deferred == old(deferred) && udp == old(udp)
      ensures nextId == old(nextId) + 1 && nextRequest == old(nextRequest) + 1 && old(nextId) !in old(tcp)
      ensures old(nextId) in tcp && tcp == old(tcp)[old(nextId) := tcp[old(nextId)]]
      ensures log == old(log) + [Opened(old(nextId))]
      ensures IsNew(tcp[old(nextId)], old(nextRequest), now + connectLimit) && tcp[old(nextId)].handle !in old(sockets)
    {
      hide Owned, AnsweredOnce, Conserved, FinsInOrder, Numbered;
      var h := FreeHandle();
      NextIdFree(tcp, udp, deferred, nextId, log);
      var st := TcpState(h, Some(nextRequest), now + connectLimit, [], false, false, None, false);
      OwnedAdd(sockets, owner, tcp, udp, h, nextId);
      AnswersOpen(tcp, nextRequest, log, nextId, st);
      OpenKeep(tcp, udp, deferred, nextId, maxPending, log, st);
      NumberedOpenTcp(tcp, udp, deferred, nextId, log, st);
      sockets, tcp := sockets[h := TcpSocket], tcp[nextId := st];
      owner, nextRequest, log := owner[h := nextId], nextRequest + 1, log + [Opened(nextId)];
      nextId := nextId + 1;
    }

    /** The socket did not take the connection: the command is answered at once. */
    method FailConn()
      requires Valid()
      modifies this
      ensures Valid() && tcp == old(tcp) && udp == old(udp) && deferred == old(deferred) && nextId == old(nextId)
      ensures nextRequest == old(nextRequest) + 1 && log == old(log) + [Answered(old(nextRequest), false)]
    {
      hide Owned, AnsweredOnce, Conserved, FinsInOrder, Numbered;
      ghost var e := Answered(nextRequest, false);
      AnswersFail(tcp, nextRequest, log);
      ConservedQuiet(tcp, deferred, maxPending, log, e);
      FinsQuiet(tcp, log, e);
      NumberedStep(tcp, udp, deferred, nextId, log, e);
      log := log + [e];
      nextRequest := nextRequest + 1;
    }

    /** A UDP socket, answered with at once. */
    method OpenSocket()
      requires Valid()
      modifies this
      ensures Valid() && tcp == old(tcp) && deferred == old(deferred) && nextRequest == old(nextRequest)
      ensures nextId == old(nextId) + 1 && old(nextId) in udp && udp == old(udp)[old(nextId) := udp[old(nextId)]]
      ensures log == old(log) + [Opened(old(nextId))]
    {
      hide Owned, AnsweredOnce, Conserved, FinsInOrder, Numbered;
      var h := FreeHandle();
      ghost var e := Opened(nextId);
      NextIdFree(tcp, udp, deferred, nextId, log);
      OwnedAdd(sockets, owner, tcp, udp, h, nextId);
      AnswersQuiet(tcp, nextRequest, log, e);
      ConservedQuiet(tcp, deferred, maxPending, log, e);
      FinsQuiet(tcp, log, e);
      NumberedOpenUdp(tcp, udp, deferred, nextId, log, h);
      sockets, udp := sockets[h := UdpSocket], udp[nextId := h];
      owner, log := owner[h := nextId], log + [e];
      nextId := nextId + 1;
    }

    /** A UDP socket leaves its tables. */
    method DropUdp(id: Id)
      requires Valid() && id in udp
      modifies this
      ensures Valid() && udp == old(udp) - {id} && tcp == old(tcp) && log == old(log)
      ensures deferred == old(deferred) && nextId == old(nextId) && nextRequest == old(nextRequest)
    {
      hide AnsweredOnce, Conserved, FinsInOrder;
      var h := udp[id];
      assert h in sockets;
      OwnedDrop(sockets, owner, tcp, udp, id);
      sockets, udp := sockets - {h}, udp - {id};
      owner := owner - {h};
    }

    // ----- What the apps send -----

    /** The most of `data` that still fits with what is pending. */
    function Fits(pending: seq<byte>, data: seq<byte>): (n: nat)
      ensures n <= |data|
    {
      if |pending| >= maxPending then 0
      else if |data| <= maxPending - |pending| then |data| else maxPending - |pending|
    }

    /** Payload that is left over, and has to be tried again before anything else is taken. */
    function LeftOver(id: Id, pending: seq<byte>, data: seq<byte>): Option<DataIn> {
      if |pending| >= maxPending || Fits(pending, data) < |data| then Some(Tcp(id, data[Fits(pending, data)..]))
      else None
    }

    /**
     * One message of the app queue, or the one left over of it: `back` when some of it has to be
     * tried again, which is then the one that is deferred.
     */
    method TryHandleData(d: DataIn) returns (back: Option<DataIn>)
      requires Valid() && (deferred == [] || deferred == [d])
      modifies this
      ensures Valid() && nextId == old(nextId) && nextRequest == old(nextRequest)
      ensures deferred == if back.Some? then [back.value] else []
      ensures d.Tcp? && d.id in old(tcp) ==>
                var was := old(tcp)[d.id];
                && back == LeftOver(d.id, was.pending, d.data)
                && tcp == old(tcp)[d.id := was.(pending := was.pending + d.data[..Fits(was.pending, d.data)])]
                && log == old(log) + [if old(deferred) == [] then Taken(d.id, d.data) else Retried(d.id)]
      ensures d.TcpClose? && d.id in old(tcp) ==>
                back.None? && tcp == old(tcp)[d.id := old(tcp)[d.id].(halfClosed := true)]
                && log == old(log) + [HalfClose(d.id)]
      ensures d.UdpClose? ==> back.None? && tcp == old(tcp) && udp == old(udp) - {d.id} && log == old(log)
      ensures !d.UdpClose? ==> udp == old(udp)
      ensures d.Udp? ==>
                && back.None? && tcp == old(tcp)
                && log == old(log) + if d.id in udp then [Datagram(d.id, d.dst, d.data)] else []
      ensures (d.Tcp? || d.TcpClose?) && d.id !in old(tcp) ==> back.None? && tcp == old(tcp) && log == old(log)
    {
      hide Owned, AnsweredOnce, Conserved, FinsInOrder, Numbered;
      back := None;
      match d
      case Tcp(id, data) =>
        if id in tcp {
          back := AddPending(id, data);
        } else {
          Forget();
        }
      case TcpClose(id) =>
        NotDeferred();
        if id in tcp {
          CloseHalf(id);
        }
      case Udp(id, dst, data) =>
        NotDeferred();
        if id in udp {
          SendDatagram(id, dst, data);
        }
      case UdpClose(id) =>
        NotDeferred();
        if id in udp {
          DropUdp(id);
        }
    }

    /** A datagram goes to the socket of its id, with the address it is for. */
    method SendDatagram(id: Id, dst: Addr, data: seq<byte>)
      requires Valid() && id in udp
      modifies this`log
      ensures Valid() && log == old(log) + [Datagram(id, dst, data)]
    {
      hide Owned, AnsweredOnce, Conserved, FinsInOrder, Numbered;
      UdpSocketFound(id);
      ghost var e := Datagram(id, dst, data);
      UdpNumbered(tcp, udp, deferred, nextId, log, id);
      NumberedStep(tcp, udp, deferred, nextId, log, e);
      AnswersQuiet(tcp, nextRequest, log, e);
      ConservedQuiet(tcp, deferred, maxPending, log, e);
      FinsQuiet(tcp, log, e);
      log := log + [e];
    }

    /** The socket a UDP message goes to is in the set, and is a UDP one. */
    lemma UdpSocketFound(id: Id)
      requires Owned(sockets, owner, tcp, udp) && id in udp
      ensures udp[id] in sockets && sockets[udp[id]] == UdpSocket
    {
    }

    /** And so is the socket of a connection. */
    lemma TcpSocketFound(id: Id)
      requires Owned(sockets, owner, tcp, udp) && id in tcp
      ensures tcp[id].handle in sockets && sockets[tcp[id].handle] == TcpSocket
    {
    }

    lemma NotDeferred()
      requires Conserved(tcp, deferred, maxPending, log)
      ensures deferred == [] || deferred[0].Tcp?
      ensures |deferred| <= 1
    {
    }

    /** What was left over for a connection that is gone goes too. */
    method Forget()
      requires Valid() && (deferred == [] || (deferred[0].Tcp? && deferred[0].id !in tcp))
      modifies this`deferred
      ensures Valid() && deferred == []
    {
      hide Owned, AnsweredOnce, FinsInOrder;
      ghost var was := deferred;
      deferred := [];
      forall id | id in tcp ensures DeferredFor(was, id) == DeferredFor([], id) {
      }
    }

    method AddPending(id: Id, data: seq<byte>) returns (back: Option<DataIn>)
      requires Valid() && id in tcp && (deferred == [] || deferred == [Tcp(id, data)])
      modifies this
      ensures Valid() && udp == old(udp) && nextId == old(nextId) && nextRequest == old(nextRequest)
      ensures back == LeftOver(id, old(tcp)[id].pending, data)
      ensures deferred == if back.Some? then [back.value] else []
      ensures tcp == old(tcp)[id := old(tcp)[id].(pending :=
                old(tcp)[id].pending + data[..Fits(old(tcp)[id].pending, data)])]
      ensures log == old(log) + [if old(deferred) == [] then Taken(id, data) else Retried(id)]
    {
      hide Owned, AnsweredOnce, FinsInOrder, Numbered, TakenBytes, HandedBytes;
      StillWaiting(tcp, nextRequest, log, id);
      var st := tcp[id];
      var n := Fits(st.pending, data);
      ghost var e := if deferred == [] then Taken(id, data) else Retried(id);
      back := LeftOver(id, st.pending, data);
      var deferred' := if back.Some? then [back.value] else [];
      assert data[n..] == DeferredFor(deferred', id);
      SplitAdds(st.pending, data, n, DeferredFor(deferred, id), TakenIn(e, id));
      Happens(id, st.(pending := st.pending + data[..n]), deferred', e);
    }

    method CloseHalf(id: Id)
      requires Valid() && id in tcp && deferred == []
      modifies this
      ensures Valid() && Kept(old(udp), old(nextId), [], old(nextRequest))
      ensures tcp == old(tcp)[id := old(tcp)[id].(halfClosed := true)] && log == old(log) + [HalfClose(id)]
    {
      hide Owned, AnsweredOnce, FinsInOrder, Numbered, TakenBytes, HandedBytes;
      StillWaiting(tcp, nextRequest, log, id);
      Happens(id, tcp[id].(halfClosed := true), [], HalfClose(id));
    }

    // ----- Service of the sockets -----

    /** Connection `id` has been serviced, and nothing but it was touched. */
    ghost predicate Serviced(id: Id, served: Served, tcp0: map<Id, TcpState>, log0: seq<Event>)
      reads this
    {
      tcp == After(tcp0, id, served) && log == log0 + served.events
    }

    /** The app gets what its socket received, up to so many chunks. */
    method Deliver(id: Id, offers: seq<Offer>, empty: bool) returns (full: bool, gone: bool)
      modifies apps
      ensures Fed(offers, MAX_RECV_CHUNKS, empty).1 == if full then WasFull else if gone then WasGone else Stopped
      ensures !(full && gone)
      ensures GaveTo(old(apps.given), apps.given, id, Fed(offers, MAX_RECV_CHUNKS, empty).0)
    {
      hide Fed, GaveTo;
      full, gone := false, false;
      var delivered := 0;
      ghost var given: seq<Piece> := [];
      assert offers[0..] == offers;
      GaveNothing(apps.given, id);
      OntoNothing([], Fed(offers, MAX_RECV_CHUNKS, empty));
      while delivered < MAX_RECV_CHUNKS && delivered < |offers|
        invariant |given| == delivered <= MAX_RECV_CHUNKS && delivered <= |offers| && !full && !gone
        invariant Fed(offers, MAX_RECV_CHUNKS, empty) ==
                  Onto(given, Fed(offers[delivered..], MAX_RECV_CHUNKS - delivered, empty))
        invariant GaveTo(old(apps.given), apps.given, id, given)
        decreases MAX_RECV_CHUNKS - delivered
      {
        FedNext(offers, given, MAX_RECV_CHUNKS - delivered, empty);
        match offers[delivered]
        case QueueFull =>
          return true, false;
        case AppGone =>
          return false, true;
        case NothingReceived =>
          return;
        case Chunk(piece) =>
          if piece.data == [] && !empty {
            return;
          }
          ghost var mid := apps.given;
          apps.Give(id, piece);
          GaveMore(old(apps.given), mid, apps.given, id, given, piece);
          given, delivered := given + [piece], delivered + 1;
      }
      FedOver(offers[delivered..], MAX_RECV_CHUNKS - delivered, empty);
      OntoNothing(given, ([], Stopped));
    }

    /** A connection that is not established: it waits, or its command is answered. */
    method ServiceConnect(id: Id, v: TcpView, now: nat)
      requires Valid() && id in tcp && !tcp[id].established
      modifies this
      ensures Valid() && Serviced(id, Connecting(old(tcp)[id], v, now), old(tcp), old(log))
      ensures Kept(old(udp), old(nextId), old(deferred), old(nextRequest))
    {
      hide Owned, AnsweredOnce, Conserved, FinsInOrder, Numbered;
      StillWaiting(tcp, nextRequest, log, id);
      if v.phase.Established? || v.phase.CloseWait? {
        Connected(id);
      } else if v.phase.Closed? || v.phase.TimeWait? || v.abandoned || now >= tcp[id].connectDeadline {
        Refuse(id);
      }
    }

    /**
     * The socket takes as much of the pending payload as it accepts; once there is none, a
     * half-close asks for a FIN.
     */
    method ServiceSend(id: Id, v: TcpView)
      requires Valid() && id in tcp && tcp[id].established
      modifies this
      ensures Valid() && Serviced(id, Sending(id, old(tcp)[id], v), old(tcp), old(log))
      ensures Kept(old(udp), old(nextId), old(deferred), old(nextRequest))
    {
      hide Owned, AnsweredOnce, Conserved, FinsInOrder, Numbered;
      var n := Accepted(v, tcp[id].pending);
      if n > 0 {
        Hand(id, n);
      }
      if tcp[id].halfClosed && tcp[id].pending == [] {
        StillWaiting(tcp, nextRequest, log, id);
        Plain(id, tcp[id], FinAsked(id));
      }
    }

    method Hand(id: Id, n: nat)
      requires Valid() && id in tcp && n <= |tcp[id].pending|
      modifies this
      ensures Valid() && Kept(old(udp), old(nextId), old(deferred), old(nextRequest))
      ensures tcp == old(tcp)[id := old(tcp)[id].(pending := old(tcp)[id].pending[n..])]
      ensures log == old(log) + [Handed(id, old(tcp)[id].pending[..n])]
    {
      hide Owned, AnsweredOnce, FinsInOrder, Numbered, TakenBytes, HandedBytes, DeferredFor;
      StillWaiting(tcp, nextRequest, log, id);
      var st := tcp[id];
      assert st.pending == st.pending[..n] + st.pending[n..];
      Happens(id, st.(pending := st.pending[n..]), deferred, Handed(id, st.pending[..n]));
    }

    /** An event of a connection that moves no payload. */
    method Plain(id: Id, st: TcpState, ghost e: Event)
      requires Valid() && id in tcp && (e == FinAsked(id) || e == CloseAsked(id) || (e.Orphaned? && e.id == id))
      requires st == tcp[id].(orphanedAt := st.orphanedAt, aborted := st.aborted) && (st.aborted ==> st.established)
      requires e.FinAsked? ==> st.halfClosed && st.pending == []
      modifies this
      ensures Valid() && Kept(old(udp), old(nextId), old(deferred), old(nextRequest))
      ensures tcp == old(tcp)[id := st] && log == old(log) + [e]
    {
      hide Owned, AnsweredOnce, FinsInOrder, Numbered, TakenBytes, HandedBytes, DeferredFor;
      Happens(id, st, deferred, e);
    }

    /** The app behind an established connection, and what its socket does after that. */
    method ServiceReceive(id: Id, v: TcpView, now: nat) returns (full: bool)
      requires Valid() && id in tcp && tcp[id].established
      modifies this, apps
      ensures Valid() && Serviced(id, Receiving(id, old(tcp)[id], v, now, orphanLinger), old(tcp), old(log))
      ensures Kept(old(udp), old(nextId), old(deferred), old(nextRequest))
      ensures full == IsFull(v)
      ensures GaveTo(old(apps.given), apps.given, id, Fed(v.offers, MAX_RECV_CHUNKS, false).0)
    {
      hide Owned, AnsweredOnce, Conserved, FinsInOrder, Numbered, Fed, GaveTo;
      var gone;
      full, gone := Deliver(id, v.offers, false);
      if gone {
        var st := tcp[id];
        var since := if st.orphanedAt.Some? then st.orphanedAt.value else now;
        if v.canRecv || now - since >= orphanLinger {
          Plain(id, st.(orphanedAt := Some(since), aborted := true), Orphaned(id, true));
          return;
        }
        Plain(id, st.(orphanedAt := Some(since)), Orphaned(id, false));
      }
      if v.phaseAfter.CloseWait? {
        Plain(id, tcp[id], CloseAsked(id));
      }
      if v.phaseAfter.Closed? || v.phaseAfter.TimeWait? {
        Drop(id);
      }
    }

    /** One connection of the table. */
    method ServiceConn(id: Id, v: TcpView, now: nat) returns (full: bool)
      requires Valid() && id in tcp
      modifies this, apps
      ensures Valid() && Serviced(id, Serving(id, old(tcp)[id], v, now, orphanLinger), old(tcp), old(log))
      ensures Kept(old(udp), old(nextId), old(deferred), old(nextRequest))
      ensures full == Backs(old(tcp)[id], v)
      ensures GaveTo(old(apps.given), apps.given, id, Gives(old(tcp)[id], v))
    {
      hide Owned, AnsweredOnce, Conserved, FinsInOrder, Numbered, Fed, Connecting, Sending, Receiving, After, GaveTo,
        Talks, IsFull;
      full := false;
      GaveNothing(apps.given, id);
      ServingIs(tcp, log, id, v, now, orphanLinger);
      TcpSocketFound(id);
      StillWaiting(tcp, nextRequest, log, id);
      if tcp[id].aborted {
        Drop(id);
        return;
      }
      if !tcp[id].established {
        ServiceConnect(id, v, now);
      }
      if id in tcp && tcp[id].established {
        ServiceSend(id, v);
        full := ServiceReceive(id, v, now);
      }
    }

    /** Each connection the table had when the pass began is serviced once, in any order, and none for another. */
    method ServiceTcp(view: Id -> TcpView, now: nat) returns (busy: bool)
      requires Valid()
      modifies this, apps
      ensures Valid() && tcp.Keys <= old(tcp).Keys && old(log) <= log
      ensures Kept(old(udp), old(nextId), old(deferred), old(nextRequest))
      ensures forall id :: id in old(tcp) ==> Left(tcp, id, Serving(id, old(tcp)[id], view(id), now, orphanLinger).st)
      ensures ApartFrom(old(log), log)
      ensures busy <==> exists id :: id in old(tcp) && Backs(old(tcp)[id], view(id))
      ensures GaveAll(old(apps.given), apps.given, TcpGives(old(tcp), {}, view))
    {
      hide Owned, AnsweredOnce, Conserved, FinsInOrder, Numbered, Serving, After, ApartFrom, Apart, Backs, GaveTo,
        Gives, GaveAll, TcpGives;
      busy := false;
      ApartNone(log);
      var ids := tcp.Keys;
      NoneServed(apps.given, tcp, view);
      while ids != {}
        invariant Valid() && ids <= tcp.Keys <= old(tcp).Keys && old(log) <= log
        invariant Kept(old(udp), old(nextId), old(deferred), old(nextRequest))
        invariant forall id :: id in ids ==> tcp[id] == old(tcp)[id]
        invariant forall id :: id in old(tcp) && id !in ids ==>
                  Left(tcp, id, Serving(id, old(tcp)[id], view(id), now, orphanLinger).st)
        invariant ApartFrom(old(log), log)
        invariant busy <==> exists id :: id in old(tcp) && id !in ids && Backs(old(tcp)[id], view(id))
        invariant GaveAll(old(apps.given), apps.given, TcpGives(old(tcp), ids, view))
        decreases ids
      {
        var id :| id in ids;
        ghost var was, mid := ids, apps.given;
        ids := ids - {id};
        ghost var served := Serving(id, tcp[id], view(id), now, orphanLinger);
        ServingTakesNothing(id, tcp[id], view(id), now, orphanLinger);
        ApartMore(old(log), log, served.events);
        AfterOne(tcp, id, served);
        var full := ServiceConn(id, view(id), now);
        OneServed(old(apps.given), mid, apps.given, old(tcp), was, view, id);
        busy := busy || full;
      }
    }

    /** The datagrams of each UDP socket go to its app; the sockets whose app is gone go, and no others. */
    method ServiceUdp(view: Id -> seq<Offer>) returns (busy: bool)
      requires Valid()
      modifies this, apps
      ensures Valid() && tcp == old(tcp) && log == old(log) && deferred == old(deferred)
      ensures nextId == old(nextId) && nextRequest == old(nextRequest)
      ensures forall id :: id in udp <==> id in old(udp) && !Ends(view(id), WasGone)
      ensures forall id :: id in udp ==> udp[id] == old(udp)[id]
      ensures busy <==> exists id :: id in old(udp) && Ends(view(id), WasFull)
      ensures GaveAll(old(apps.given), apps.given, UdpGives(old(udp).Keys, view))
    {
      hide Owned, AnsweredOnce, Conserved, FinsInOrder, Numbered, Fed, GaveTo, GaveAll, UdpGives;
      busy := false;
      var ids := udp.Keys;
      NoneFed(apps.given, view);
      assert udp.Keys - ids == {};
      while ids != {}
        invariant Valid() && ids <= udp.Keys <= old(udp).Keys && tcp == old(tcp) && log == old(log)
        invariant deferred == old(deferred) && nextId == old(nextId) && nextRequest == old(nextRequest)
        invariant forall id :: id in udp <==> id in old(udp) && (id in ids || !Ends(view(id), WasGone))
        invariant forall id :: id in udp ==> udp[id] == old(udp)[id]
        invariant busy <==> exists id :: id in old(udp) && id !in ids && Ends(view(id), WasFull)
        invariant GaveAll(old(apps.given), apps.given, UdpGives(old(udp).Keys - ids, view))
        decreases ids
      {
        var id :| id in ids;
        ghost var done, mid := old(udp).Keys - ids, apps.given;
        ids := ids - {id};
        assert old(udp).Keys - ids == done + {id};
        UdpSocketFound(id);
        var full, gone := Deliver(id, view(id), true);
        OneFed(old(apps.given), mid, apps.given, done, view, id);
        busy := busy || full;
        if gone {
          DropUdp(id);
        }
      }
      assert old(udp).Keys - ids == old(udp).Keys;
    }

    /** What was left over is tried again, before anything new is taken. */
    method DrainDeferred()
      requires Valid()
      modifies this
      ensures Valid() && old(log) <= log && nextId == old(nextId) && nextRequest == old(nextRequest)
      ensures AllQueued(old(tcp), tcp)
      ensures udp == old(udp)
      ensures old(deferred) == [] ==> tcp == old(tcp) && log == old(log) && deferred == []
      ensures old(deferred) != [] && old(deferred)[0].id in old(tcp) ==>
                var (id, data) := (old(deferred)[0].id, DeferredFor(old(deferred), old(deferred)[0].id));
                var was := old(tcp)[id];
                && tcp == old(tcp)[id := was.(pending := was.pending + data[..Fits(was.pending, data)])]
                && deferred == if LeftOver(id, was.pending, data).Some? then [LeftOver(id, was.pending, data).value]
                               else []
      ensures ApartFrom(old(log), log)
    {
      hide Owned, AnsweredOnce, Conserved, FinsInOrder, Numbered, ApartFrom;
      NotDeferred();
      ApartNone(log);
      if deferred != [] {
        assert deferred == [deferred[0]];
        ApartMore(log, log, [Retried(deferred[0].id)]);
        var back := TryHandleData(deferred[0]);
      }
    }

    /**
     * The messages of the app queue, in order, until one is left over, which none passes: `taken`
     * of them have left the queue.
     */
    method TakeData(queue: seq<DataIn>) returns (taken: nat)
      requires Valid() && deferred == []
      modifies this
      ensures Valid() && old(log) <= log && nextId == old(nextId) && nextRequest == old(nextRequest)
      ensures taken <= |queue| && (taken < |queue| ==> deferred != []) && AllQueued(old(tcp), tcp)
      ensures udp.Keys <= old(udp).Keys
      ensures TookFrom(tcp.Keys, old(log), log, queue[..taken])
    {
      hide Owned, AnsweredOnce, Conserved, FinsInOrder, Numbered, TookFrom, EventsFrom;
      taken := 0;
      TookNothing(tcp.Keys, log);
      assert queue[..0] == [];
      while taken < |queue| && deferred == []
        invariant Valid() && taken <= |queue| && old(log) <= log && nextId == old(nextId)
        invariant nextRequest == old(nextRequest)
        invariant AllQueued(old(tcp), tcp) && udp.Keys <= old(udp).Keys
        invariant TookFrom(tcp.Keys, old(log), log, queue[..taken])
      {
        TookOneMore(tcp.Keys, udp.Keys, old(log), log, queue, taken);
        ghost var was := tcp;
        TakeOne(queue[taken]);
        QueuedOn(old(tcp), was, tcp);
        taken := taken + 1;
      }
    }

    /** One message of the app queue. */
    method TakeOne(d: DataIn)
      requires Valid() && deferred == []
      modifies this
      ensures Valid() && nextId == old(nextId) && nextRequest == old(nextRequest)
      ensures AllQueued(old(tcp), tcp) && udp.Keys <= old(udp).Keys
      ensures log == old(log) + EventsFrom(d, tcp.Keys, old(udp).Keys)
    {
      hide Owned, AnsweredOnce, Conserved, FinsInOrder, Numbered, Fits, LeftOver;
      var back := TryHandleData(d);
    }

    /** The sockets are serviced, and what was left over is tried again; `soon` is whether that has to go on soon. */
    method ServiceAll(t: Turn) returns (soon: bool)
      requires Valid()
      modifies this, apps
      ensures Valid() && nextId == old(nextId) && old(log) <= log && ApartFrom(old(log), log)
      ensures soon <==>
                || deferred != []
                || (exists id :: id in old(tcp) && Backs(old(tcp)[id], t.view(id)))
                || (exists id :: id in old(udp) && Ends(t.datagrams(id), WasFull))
      ensures ServedAll(Tables(old(tcp), old(udp)), t, Tables(tcp, udp), orphanLinger)
      ensures forall id ::
                Got(apps.given, id) == Got(old(apps.given), id) + TurnGives(Tables(old(tcp), old(udp)), t, id)
    {
      hide Owned, AnsweredOnce, Conserved, FinsInOrder, Numbered, Serving, ApartFrom, GaveAll, TcpGives, UdpGives,
        TurnGives, Ends, Got, AllQueued, ServedAll, Backs;
      var busy := ServiceTcp(t.view, t.now);
      ghost var mid := apps.given;
      var udpBusy := ServiceUdp(t.datagrams);
      BothGave(old(apps.given), mid, apps.given, Tables(old(tcp), old(udp)), t);
      ghost var served, tcp1 := log, tcp;
      DrainDeferred();
      ApartTwice(old(log), served, log);
      ServedThen(Tables(old(tcp), old(udp)), t, orphanLinger, tcp1, Tables(tcp, udp));
      soon := busy || udpBusy || deferred != [];
    }

    /** What comes first is done: a command, what is in the app queue, or nothing here. */
    method Wake(t: Turn, queue: seq<DataIn>) returns (taken: nat)
      requires Valid()
      modifies this
      ensures Valid() && old(nextId) <= nextId && Wakes(t, Tables(old(tcp), old(udp)), Tables(tcp, udp), old(nextId))
      ensures taken <= |queue| && (taken > 0 ==> t.wake.QueueReady?)
      ensures t.wake.QueueReady? && taken < |queue| ==> deferred != []
      ensures old(log) <= log && TookFrom(old(tcp).Keys, old(log), log, queue[..taken])
      ensures forall id :: id in tcp && id !in old(tcp) ==> id == old(nextId) && TakenBytes(log, id) == [] && taken == 0
    {
      hide Owned, AnsweredOnce, Conserved, FinsInOrder, Numbered, TakenBytes, TookFrom, ApartFrom;
      taken := 0;
      assert queue[..0] == [];
      TookNothing(tcp.Keys, log);
      QueuedSame(tcp);
      match t.wake {
      case Command(cmd) =>
        NewIsEmpty(tcp, udp, deferred, nextId, log);
        HandleCmd(cmd, t.now);
        ApartIsNothing(old(tcp).Keys, old(log), log);
      case QueueReady =>
        if deferred == [] {
          taken := TakeData(queue);
        }
      case Other =>
      }
    }

    /** One turn of the loop. */
    method Turn(t: Turn, queue: seq<DataIn>) returns (taken: nat)
      requires Valid()
      modifies this, apps
      ensures Valid() && old(log) <= log && old(nextId) <= nextId
      ensures taken <= |queue| && (taken > 0 ==> t.wake.QueueReady?)
      ensures t.wake.QueueReady? && taken < |queue| ==> deferred != []
      ensures TookFrom(tcp.Keys * old(tcp).Keys, old(log), log, queue[..taken])
      ensures forall id :: id in tcp && id !in old(tcp) ==> id >= old(nextId) && TakenBytes(log, id) == [] && taken == 0
      ensures Steps(Tables(old(tcp), old(udp)), t, Tables(tcp, udp), orphanLinger)
      ensures forall id ::
                Got(apps.given, id) == Got(old(apps.given), id) + TurnGives(Tables(old(tcp), old(udp)), t, id)
    {
      hide Owned, AnsweredOnce, Conserved, FinsInOrder, Numbered, TakenBytes, TookFrom, ApartFrom, TurnGives, Steps,
        Got, ServedAll, Wakes;
      NewAreNumbered(tcp, udp, deferred, nextId, log);
      var _ := ServiceAll(t);
      ghost var mid, now := Tables(tcp, udp), log;
      taken := Wake(t, queue);
      StepsOn(Tables(old(tcp), old(udp)), t, orphanLinger, mid, Tables(tcp, udp), old(nextId));
      TookLater(mid.tcp.Keys, old(log), now, log, queue[..taken]);
    }
  }

  /** What a turn waits for: a command, payload of the apps, or a packet or the clock. */
  datatype Wake = Command(cmd: Cmd) | QueueReady | Other

  /** What the environment does in a turn: what the apps send, how the sockets answer, and what comes first. */
  datatype Turn = Turn(arrivals: seq<DataIn>, view: Id -> TcpView, datagrams: Id -> seq<Offer>, now: nat, wake: Wake)

  /** The tables a turn begins with. */
  datatype Tables = Tables(tcp: map<Id, TcpState>, udp: map<Id, Handle>)

  /** What the app of `id` is given in a turn. */
  function TurnGives(b: Tables, t: Turn, id: Id): seq<Piece> {
    (if id in b.tcp then Gives(b.tcp[id], t.view(id)) else [])
    + (if id in b.udp then Datagrams(t.datagrams(id)) else [])
  }

  /** And in all turns, the tables of each being those in `tables`. */
  function GivenBy(turns: seq<Turn>, tables: seq<Tables>, id: Id): seq<Piece>
    requires |turns| <= |tables|
  {
    if turns == [] then []
    else
      var n := |turns| - 1;
      GivenBy(turns[..n], tables[..n], id) + TurnGives(tables[n], turns[n], id)
  }

  lemma BothGave(was: map<Id, seq<Piece>>, mid: map<Id, seq<Piece>>, now: map<Id, seq<Piece>>, b: Tables, t: Turn)
    requires GaveAll(was, mid, TcpGives(b.tcp, {}, t.view)) && GaveAll(mid, now, UdpGives(b.udp.Keys, t.datagrams))
    ensures forall id :: Got(now, id) == Got(was, id) + TurnGives(b, t, id)
  {
    hide Got, Gives, Datagrams;
    forall id ensures Got(now, id) == Got(was, id) + TurnGives(b, t, id) {
      var tcp, udp := TcpGives(b.tcp, {}, t.view)(id), UdpGives(b.udp.Keys, t.datagrams)(id);
      assert Got(mid, id) == Got(was, id) + tcp && Got(now, id) == Got(mid, id) + udp;
      Associates(Got(was, id), tcp, udp);
    }
  }

  lemma GivenGrows(turns: seq<Turn>, i: nat, tables: seq<Tables>, last: Tables, id: Id)
    requires i < |turns| && |tables| == i + 1
    ensures GivenBy(turns[..i + 1], tables + [last], id)
         == GivenBy(turns[..i], tables, id) + TurnGives(tables[i], turns[i], id)
  {
    hide TurnGives;
    assert turns[..i + 1][..i] == turns[..i] && (tables + [last])[..i] == tables[..i];
    GivenFirst(turns[..i], tables, id);
  }

  /** Only the tables of the turns matter. */
  lemma GivenFirst(turns: seq<Turn>, tables: seq<Tables>, id: Id)
    requires |turns| <= |tables|
    ensures GivenBy(turns, tables[..|turns|], id) == GivenBy(turns, tables, id)
  {
    hide TurnGives;
    if turns != [] {
      var n := |turns| - 1;
      assert tables[..|turns|][..n] == tables[..n];
    }
  }

  /** A connection that was serviced, and perhaps got more of what its app sends. */
  predicate Stays(tcp: map<Id, TcpState>, id: Id, st: Option<TcpState>) {
    if st.Some? then id in tcp && Queued(st.value, tcp[id]) else id !in tcp
  }

  /** What a turn leaves of the tables: who goes goes by its service or its app, who comes comes by a command. */
  ghost predicate Steps(b: Tables, t: Turn, next: Tables, linger: nat) {
    && (forall id :: id in b.tcp ==> Stays(next.tcp, id, Serving(id, b.tcp[id], t.view(id), t.now, linger).st))
    && (forall id :: id in next.tcp && id !in b.tcp ==> t.wake == Command(OpenTcp(true)) && !next.tcp[id].established)
    && (forall id :: id in next.udp ==>
          if id in b.udp then !Ends(t.datagrams(id), WasGone) else t.wake == Command(OpenUdp(true)))
    && (forall id :: id in b.udp && !Ends(t.datagrams(id), WasGone) && !t.wake.QueueReady? ==> id in next.udp)
  }

  /** The tables of each turn, from empty ones on, and what the apps have been given of what their sockets gave. */
  ghost predicate Traced(turns: seq<Turn>, tables: seq<Tables>, given: map<Id, seq<Piece>>, linger: nat) {
    && |tables| == |turns| + 1 && tables[0] == Tables(map[], map[])
    && (forall i :: 0 <= i < |turns| ==> Steps(tables[i], turns[i], tables[i + 1], linger))
    && (forall id :: Got(given, id) == GivenBy(turns, tables, id))
  }

  lemma TracedNone(linger: nat)
    ensures Traced([], [Tables(map[], map[])], map[], linger)
  {
  }

  lemma TracedStep(turns: seq<Turn>, i: nat, tables: seq<Tables>, given: map<Id, seq<Piece>>,
        given': map<Id, seq<Piece>>, next: Tables, linger: nat)
    requires i < |turns| && Traced(turns[..i], tables, given, linger) && Steps(tables[i], turns[i], next, linger)
    requires forall id :: Got(given', id) == Got(given, id) + TurnGives(tables[i], turns[i], id)
    ensures Traced(turns[..i + 1], tables + [next], given', linger)
  {
    hide Steps, Got, GivenBy, TurnGives;
    var these, tables' := turns[..i + 1], tables + [next];
    forall j | 0 <= j < |these| ensures Steps(tables'[j], these[j], tables'[j + 1], linger) {
      assert j < i ==> Steps(tables[j], turns[..i][j], tables[j + 1], linger);
    }
    forall id ensures Got(given', id) == GivenBy(these, tables', id) {
      GivenGrows(turns, i, tables, next, id);
    }
  }

  /** What the thing that was waited for leaves of the tables; `n` is the next id. */
  ghost predicate Wakes(t: Turn, b: Tables, next: Tables, n: Id) {
    match t.wake
    case Command(cmd) =>
      && (if cmd == OpenTcp(true) then n in next.tcp && !next.tcp[n].established && next.tcp == b.tcp[n := next.tcp[n]]
          else next.tcp == b.tcp)
      && (if cmd == OpenUdp(true) then n in next.udp && next.udp == b.udp[n := next.udp[n]] else next.udp == b.udp)
    case QueueReady => AllQueued(b.tcp, next.tcp) && next.udp.Keys <= b.udp.Keys
    case Other => next == b
  }

  lemma QueuedSame(tcp: map<Id, TcpState>)
    ensures AllQueued(tcp, tcp)
  {
  }

  lemma QueuedOn(tcp0: map<Id, TcpState>, tcp1: map<Id, TcpState>, tcp2: map<Id, TcpState>)
    requires AllQueued(tcp0, tcp1) && AllQueued(tcp1, tcp2)
    ensures AllQueued(tcp0, tcp2)
  {
    forall id | id in tcp0 ensures Queued(tcp0[id], tcp2[id]) {
      assert Queued(tcp0[id], tcp1[id]) && Queued(tcp1[id], tcp2[id]);
    }
  }

  /** What the service of all sockets leaves of the tables. */
  ghost predicate ServedAll(b: Tables, t: Turn, next: Tables, linger: nat) {
    && (forall id :: id in b.tcp ==> Stays(next.tcp, id, Serving(id, b.tcp[id], t.view(id), t.now, linger).st))
    && next.tcp.Keys <= b.tcp.Keys
    && (forall id :: id in next.udp <==> id in b.udp && !Ends(t.datagrams(id), WasGone))
  }

  lemma ServedThen(b: Tables, t: Turn, linger: nat, served: map<Id, TcpState>, next: Tables)
    requires forall id :: id in b.tcp ==> Left(served, id, Serving(id, b.tcp[id], t.view(id), t.now, linger).st)
    requires served.Keys <= b.tcp.Keys && AllQueued(served, next.tcp)
    requires forall id :: id in next.udp <==> id in b.udp && !Ends(t.datagrams(id), WasGone)
    ensures ServedAll(b, t, next, linger)
  {
    hide Serving, Ends;
  }

  lemma StepsOn(b: Tables, t: Turn, linger: nat, mid: Tables, next: Tables, n: Id)
    requires ServedAll(b, t, mid, linger) && Wakes(t, mid, next, n) && n !in b.tcp && n !in b.udp
    ensures Steps(b, t, next, linger)
    ensures mid.tcp.Keys <= b.tcp.Keys && next.tcp.Keys * b.tcp.Keys == mid.tcp.Keys
  {
    hide Serving, Ends;
    forall id | id in b.tcp ensures Stays(next.tcp, id, Serving(id, b.tcp[id], t.view(id), t.now, linger).st) {
      assert Stays(mid.tcp, id, Serving(id, b.tcp[id], t.view(id), t.now, linger).st);
      assert id in mid.tcp && t.wake.QueueReady? ==> Queued(mid.tcp[id], next.tcp[id]);
    }
  }

  /** All that the apps send. */
  function Sent(turns: seq<Turn>): seq<DataIn> {
    if turns == [] then [] else Sent(turns[..|turns| - 1]) + turns[|turns| - 1].arrivals
  }

  /**
   * Every run keeps the table sound: whatever the apps send, the sockets answer, and the order of
   * things. What has left the app queue for a connection since it was opened is what its socket
   * has, then what is pending, then what is deferred; and each FIN of the half-close path follows a
   * half-close that left the queue, and all that left it before that. Each app has been given what
   * its socket gave, turn by turn and in order.
   */
  method Run(turns: seq<Turn>, maxPending: nat, connectLimit: nat, orphanLinger: nat)
    returns (s: Stack, ghost left: seq<DataIn>, ghost since: map<Id, nat>, ghost tables: seq<Tables>)
    ensures fresh(s) && s.Valid() && s.maxPending == maxPending
    ensures left <= Sent(turns)
    ensures s.sockets.Keys == (set id | id in s.tcp :: s.tcp[id].handle) + (set id | id in s.udp :: s.udp[id])
    ensures forall id :: id in s.tcp ==>
              && id in since && since[id] <= |left| && |s.tcp[id].pending| <= maxPending
              && Payload(left[since[id]..], id)
                 == HandedBytes(s.log, id) + s.tcp[id].pending + DeferredFor(s.deferred, id)
    ensures FinsPlaced(s.log, left, since)
    ensures forall r: Request :: Answers(s.log, r) == if r < s.nextRequest && !IsWaiting(s.tcp, r) then 1 else 0
    ensures Traced(turns, tables, s.apps.given, orphanLinger) && tables[|turns|] == Tables(s.tcp, s.udp)
  {
    hide Owned, AnsweredOnce, Conserved, FinsInOrder, Numbered, TakenBytes, Payload, Followed, TookFrom, ClosesPlaced,
      Steps, Got, TurnGives, Traced, HandedBytes, DeferredFor, Answers, FinsPlaced, IsWaiting;
    s := new Stack(maxPending, connectLimit, orphanLinger);
    FollowedNone(s.log);
    ClosesNone([], map[]);
    assert s.tcp.Keys == {};
    var queue: seq<DataIn> := [];
    left, since, tables := [], map[], [Tables(s.tcp, s.udp)];
    TracedNone(orphanLinger);
    assert turns[..0] == [];
    for i := 0 to |turns|
      invariant fresh(s) && fresh(s.apps) && s.Valid() && s.maxPending == maxPending && s.orphanLinger == orphanLinger
      invariant |tables| == i + 1 && tables[i] == Tables(s.tcp, s.udp)
      invariant Traced(turns[..i], tables, s.apps.given, orphanLinger)
      invariant left + queue == Sent(turns[..i])
      invariant Followed(s.tcp.Keys, s.log, left, since) && ClosesPlaced(s.log, left, since)
      invariant forall id :: id in since ==> id < s.nextId
    {
      queue := queue + turns[i].arrivals;
      assert turns[..i + 1][..i] == turns[..i] && left + queue == Sent(turns[..i + 1]);
      ghost var before, log, given := s.tcp.Keys, s.log, s.apps.given;
      var taken := s.Turn(turns[i], queue);
      NewAreNumbered(s.tcp, s.udp, s.deferred, s.nextId, s.log);
      FollowedStep(before, s.tcp.Keys, log, s.log, left, queue[..taken], since);
      ClosesStep(before, s.tcp.Keys, log, s.log, left, queue[..taken], since);
      since := Since(before, s.tcp.Keys, since, |left|);
      left := left + queue[..taken];
      queue := queue[taken..];
      TracedStep(turns, i, tables, given, s.apps.given, Tables(s.tcp, s.udp), orphanLinger);
      tables := tables + [Tables(s.tcp, s.udp)];
    }
    assert turns[..|turns|] == turns;
    OwnedHandles(s.sockets, s.owner, s.tcp, s.udp);
    AllPlaced(s.tcp, s.deferred, maxPending, s.log, left, since);
    Settled(s.tcp, s.nextRequest, s.log);
    FinsArePlaced(s.log, left, since);
  }

  lemma UdpNumbered(tcp: map<Id, TcpState>, udp: map<Id, Handle>, deferred: seq<DataIn>, nextId: Id,
        log: seq<Event>, id: Id)
    requires Numbered(tcp, udp, deferred, nextId, log) && id in udp
    ensures id < nextId
  {
  }

  lemma NewAreNumbered(tcp: map<Id, TcpState>, udp: map<Id, Handle>, deferred: seq<DataIn>, nextId: Id, log: seq<Event>)
    requires Numbered(tcp, udp, deferred, nextId, log)
    ensures forall id :: id in tcp ==> id < nextId
    ensures forall id :: id in udp ==> id < nextId
  {
  }

  lemma AllPlaced(tcp: map<Id, TcpState>, deferred: seq<DataIn>, cap: nat, log: seq<Event>, left: seq<DataIn>,
        since: map<Id, nat>)
    requires Conserved(tcp, deferred, cap, log) && Followed(tcp.Keys, log, left, since)
    ensures forall id :: id in tcp ==>
              && id in since && since[id] <= |left| && |tcp[id].pending| <= cap
              && Payload(left[since[id]..], id) == HandedBytes(log, id) + tcp[id].pending + DeferredFor(deferred, id)
  {
    hide TakenBytes, HandedBytes, Payload, DeferredFor;
  }

  lemma Settled(tcp: map<Id, TcpState>, nextRequest: Request, log: seq<Event>)
    requires AnsweredOnce(tcp, nextRequest, log) && FinsInOrder(tcp, log)
    ensures FinsLast(log)
    ensures forall r: Request :: Answers(log, r) == if r < nextRequest && !IsWaiting(tcp, r) then 1 else 0
  {
    hide FinsLast, MarksIn;
  }

  lemma OwnedHandles(sockets: map<Handle, Kind>, owner: map<Handle, Id>, tcp: map<Id, TcpState>, udp: map<Id, Handle>)
    requires Owned(sockets, owner, tcp, udp)
    ensures sockets.Keys == (set id | id in tcp :: tcp[id].handle) + (set id | id in udp :: udp[id])
  {
    forall h | h in sockets ensures h in (set id | id in tcp :: tcp[id].handle) + (set id | id in udp :: udp[id]) {
      var id := owner[h];
      if sockets[h].TcpSocket? {
        assert id in tcp && tcp[id].handle == h;
      } else {
        assert id in udp && udp[id] == h;
      }
    }
  }

  lemma SumsAgree(handed: seq<byte>, was: seq<byte>, held: seq<byte>, taken: seq<byte>, out: seq<byte>,
        pending: seq<byte>, held': seq<byte>)
    requires was + held + taken == out + pending + held' && was <= out + pending
    ensures handed + was + held + taken == handed + out + pending + held'
    ensures handed + was <= handed + out + pending
  {
    Associates(handed, was + held, taken);
    Associates(handed, was, held);
    Associates(handed, out + pending, held');
    Associates(handed, out, pending);
    assert out + pending == was + (out + pending)[|was|..];
    Associates(handed, was, (out + pending)[|was|..]);
  }

  lemma SplitAdds(pending: seq<byte>, data: seq<byte>, n: nat, held: seq<byte>, taken: seq<byte>)
    requires n <= |data| && ((held == [] && taken == data) || (held == data && taken == []))
    ensures pending + held + taken == [] + (pending + data[..n]) + data[n..]
    ensures pending <= [] + (pending + data[..n])
  {
    assert pending + held + taken == pending + data;
  }

  // ----- Ports -----

  const FIRST_PORT: nat := 49152
  const LAST_PORT: nat := 65000
  const PORTS: nat := 15849

  predicate PortInRange(port: nat) {
    FIRST_PORT <= port <= LAST_PORT
  }

  /** The port after `port`. */
  function NextPort(port: nat): nat {
    if port >= LAST_PORT then FIRST_PORT else port + 1
  }

  /** The port given out `n` times after `port`. */
  function PortAfter(port: nat, n: nat): nat {
    if n == 0 then port else NextPort(PortAfter(port, n - 1))
  }

  lemma {:induction false} PortIs(port: nat, n: nat)
    requires PortInRange(port)
    ensures PortAfter(port, n) == FIRST_PORT + (port - FIRST_PORT + n) % (PORTS)
  {
    if n > 0 {
      PortIs(port, n - 1);
    }
  }

  lemma ModDiffers(a: nat, d: nat)
    requires 0 < d <= PORTS
    ensures a % PORTS == (a + d) % PORTS <==> d == PORTS
  {
  }

  /** A port comes back only once all the others have been given out, and then it does. */
  lemma PortsDiffer(port: nat, i: nat, j: nat)
    requires PortInRange(port) && i < j
    ensures PortInRange(PortAfter(port, i))
    ensures j - i < PORTS ==> PortAfter(port, i) != PortAfter(port, j)
    ensures j - i == PORTS ==> PortAfter(port, i) == PortAfter(port, j)
  {
    hide PortAfter;
    PortIs(port, i);
    PortIs(port, j);
    if j - i <= PORTS {
      ModDiffers(port - FIRST_PORT + i, j - i);
    }
  }
}
