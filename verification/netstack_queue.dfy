/** The queue the apps of the userspace stack send by, and what can be said of it when its messages have left it. */
module NetQueue {
  import opened Bytes
  import opened NetLog

  datatype DataIn =
    | Tcp(id: Id, data: seq<byte>)
    | TcpClose(id: Id)
    | Udp(id: Id, dst: Addr, data: seq<byte>)
    | UdpClose(id: Id)

  // ----- The payload of messages -----

  /** The payload messages of the app queue carry for a connection. */
  function Payload(queue: seq<DataIn>, id: Id): seq<byte> {
    if queue == [] then [] else Payload(queue[..|queue| - 1], id) + PayloadIn(queue[|queue| - 1], id)
  }

  function PayloadIn(d: DataIn, id: Id): seq<byte> {
    if d.Tcp? && d.id == id then d.data else []
  }

  lemma PayloadGrows(queue: seq<DataIn>, n: nat, id: Id)
    requires n < |queue|
    ensures Payload(queue[..n + 1], id) == Payload(queue[..n], id) + PayloadIn(queue[n], id)
  {
    assert queue[..n + 1][..n] == queue[..n];
  }

  lemma {:induction false} PayloadAppend(queue: seq<DataIn>, more: seq<DataIn>, id: Id)
    ensures Payload(queue + more, id) == Payload(queue, id) + Payload(more, id)
    decreases |more|
  {
    if more == [] {
      assert queue + more == queue;
    } else {
      hide PayloadIn;
      var less, last := more[..|more| - 1], more[|more| - 1];
      var all := queue + more;
      PayloadAppend(queue, less, id);
      assert all[..|all| - 1] == queue + less && all[|all| - 1] == last;
      Associates(Payload(queue, id), Payload(less, id), PayloadIn(last, id));
    }
  }

  // ----- Events that have nothing to do with the queue -----

  ghost predicate Apart(events: seq<Event>) {
    forall i :: 0 <= i < |events| ==> !events[i].Taken? && !events[i].HalfClose?
  }

  /** What happened from `log0` to `log` is apart from the queue. */
  ghost predicate ApartFrom(log0: seq<Event>, log: seq<Event>) {
    && log0 <= log && (forall j :: |log0| <= j < |log| ==> !log[j].HalfClose?)
    && forall id :: TakenBytes(log, id) == TakenBytes(log0, id)
  }

  lemma ApartNone(log: seq<Event>)
    ensures ApartFrom(log, log)
  {
  }

  lemma ApartMore(log0: seq<Event>, log: seq<Event>, more: seq<Event>)
    requires ApartFrom(log0, log) && Apart(more)
    ensures ApartFrom(log0, log + more)
  {
    hide TakenBytes;
    TakenSame(log, more);
    forall j | |log0| <= j < |log + more| ensures !(log + more)[j].HalfClose? {
      if j < |log| {
        assert (log + more)[j] == log[j];
      } else {
        assert (log + more)[j] == more[j - |log|];
      }
    }
  }

  lemma ApartTwice(log0: seq<Event>, log1: seq<Event>, log: seq<Event>)
    requires ApartFrom(log0, log1) && ApartFrom(log1, log)
    ensures ApartFrom(log0, log)
  {
    hide TakenBytes;
    forall j | |log0| <= j < |log| ensures !log[j].HalfClose? {
      if j < |log1| {
        assert log[j] == log1[j];
      }
    }
  }

  // ----- Messages that leave the queue -----

  /** What happens as a message leaves the queue for the connections `ids` and the UDP sockets `udp`. */
  function EventsFrom(d: DataIn, ids: set<Id>, udp: set<Id>): seq<Event> {
    match d
    case Tcp(id, data) => if id in ids then [Taken(id, data)] else []
    case TcpClose(id) => if id in ids then [HalfClose(id)] else []
    case Udp(id, dst, data) => if id in udp then [Datagram(id, dst, data)] else []
    case UdpClose(_) => []
  }

  /** Event `j`, a half-close, is message `q` of `queue`, and the payload of the messages before it had been taken. */
  ghost predicate ClosedBy(log0: seq<Event>, log: seq<Event>, j: nat, queue: seq<DataIn>, q: nat)
    requires j < |log| && log[j].HalfClose?
  {
    var id := log[j].id;
    q < |queue| && queue[q] == TcpClose(id)
    && TakenBytes(log[..j], id) == TakenBytes(log0, id) + Payload(queue[..q], id)
  }

  ghost predicate Closed(ids: set<Id>, log0: seq<Event>, log: seq<Event>, j: nat, queue: seq<DataIn>)
    requires j < |log| && log[j].HalfClose?
  {
    log[j].id in ids && exists q: nat :: ClosedBy(log0, log, j, queue, q)
  }

  /** From `log0` to `log` the messages of `queue` left it: what was taken and what was closed is theirs. */
  ghost predicate TookFrom(ids: set<Id>, log0: seq<Event>, log: seq<Event>, queue: seq<DataIn>) {
    && log0 <= log
    && (forall id :: id in ids ==> TakenBytes(log, id) == TakenBytes(log0, id) + Payload(queue, id))
    && (forall j :: |log0| <= j < |log| && log[j].HalfClose? ==> Closed(ids, log0, log, j, queue))
  }

  lemma TookNothing(ids: set<Id>, log: seq<Event>)
    ensures TookFrom(ids, log, log, [])
  {
    hide TakenBytes;
  }

  lemma ApartIsNothing(ids: set<Id>, log0: seq<Event>, log: seq<Event>)
    requires ApartFrom(log0, log)
    ensures TookFrom(ids, log0, log, [])
  {
    hide TakenBytes;
  }

  /** What is apart from the queue may come before. */
  lemma TookLater(ids: set<Id>, log0: seq<Event>, log1: seq<Event>, log: seq<Event>, queue: seq<DataIn>)
    requires ApartFrom(log0, log1) && TookFrom(ids, log1, log, queue)
    ensures TookFrom(ids, log0, log, queue)
  {
    hide TakenBytes, Payload;
    forall j | |log1| <= j < |log| && log[j].HalfClose? ensures Closed(ids, log0, log, j, queue) {
      assert Closed(ids, log1, log, j, queue);
      var q: nat :| ClosedBy(log1, log, j, queue, q);
      assert ClosedBy(log0, log, j, queue, q);
    }
    forall j | |log0| <= j < |log1| ensures !log[j].HalfClose? {
      assert log[j] == log1[j];
    }
  }

  lemma TookOneMore(ids: set<Id>, udp: set<Id>, log0: seq<Event>, log: seq<Event>, queue: seq<DataIn>, n: nat)
    requires n < |queue| && TookFrom(ids, log0, log, queue[..n])
    ensures TookFrom(ids, log0, log + EventsFrom(queue[n], ids, udp), queue[..n + 1])
  {
    hide TakenBytes, Payload, PayloadIn;
    var events := EventsFrom(queue[n], ids, udp);
    var log' := log + events;
    assert events == [] ==> log' == log;
    forall id | id in ids ensures TakenBytes(log', id) == TakenBytes(log0, id) + Payload(queue[..n + 1], id) {
      TakenWith(log, queue[n], ids, udp, id);
      PayloadGrows(queue, n, id);
      Associates(TakenBytes(log0, id), Payload(queue[..n], id), PayloadIn(queue[n], id));
    }
    forall j | |log0| <= j < |log'| && log'[j].HalfClose? ensures Closed(ids, log0, log', j, queue[..n + 1]) {
      if j < |log| {
        assert log'[j] == log[j] && log'[..j] == log[..j];
        assert Closed(ids, log0, log, j, queue[..n]);
        var q: nat :| ClosedBy(log0, log, j, queue[..n], q);
        assert queue[..n + 1][..q] == queue[..n][..q];
        assert ClosedBy(log0, log', j, queue[..n + 1], q);
      } else {
        assert log'[..j] == log && queue[..n + 1][..n] == queue[..n];
        assert ClosedBy(log0, log', j, queue[..n + 1], n);
      }
    }
  }

  lemma TakenWith(log: seq<Event>, d: DataIn, ids: set<Id>, udp: set<Id>, id: Id)
    requires id in ids
    ensures TakenBytes(log + EventsFrom(d, ids, udp), id) == TakenBytes(log, id) + PayloadIn(d, id)
  {
    var events := EventsFrom(d, ids, udp);
    if events == [] {
      assert log + events == log;
    } else {
      LogGrows(log, events[0]);
      assert events == [events[0]];
    }
  }

  // ----- From when each connection was opened -----

  /**
   * What was taken for a connection is the payload for it among the messages that left the queue
   * since it was opened.
   */
  ghost predicate Followed(ids: set<Id>, log: seq<Event>, left: seq<DataIn>, since: map<Id, nat>) {
    forall id :: id in ids ==>
      id in since && since[id] <= |left| && TakenBytes(log, id) == Payload(left[since[id]..], id)
  }

  /** When each connection was opened, by how many messages had left the queue. */
  ghost function Since(before: set<Id>, after: set<Id>, since: map<Id, nat>, now: nat): map<Id, nat> {
    since + map id | id in after && id !in before :: now
  }

  lemma FollowedNone(log: seq<Event>)
    ensures Followed({}, log, [], map[])
  {
  }

  lemma FollowedOne(log0: seq<Event>, taken: seq<byte>, left: seq<DataIn>, more: seq<DataIn>, start: nat, id: Id)
    requires start <= |left| && TakenBytes(log0, id) == Payload(left[start..], id)
    requires taken == TakenBytes(log0, id) + Payload(more, id)
    ensures taken == Payload((left + more)[start..], id)
  {
    hide TakenBytes, Payload;
    assert (left + more)[start..] == left[start..] + more;
    PayloadAppend(left[start..], more, id);
  }

  lemma FollowedStep(before: set<Id>, after: set<Id>, log0: seq<Event>, log: seq<Event>, left: seq<DataIn>,
        more: seq<DataIn>, since: map<Id, nat>)
    requires Followed(before, log0, left, since) && TookFrom(after * before, log0, log, more)
    requires forall id :: id in after && id !in before ==> TakenBytes(log, id) == [] && more == []
    ensures Followed(after, log, left + more, Since(before, after, since, |left|))
  {
    hide TakenBytes, Closed;
    var starts := Since(before, after, since, |left|);
    forall id | id in after
      ensures id in starts && starts[id] <= |left + more|
      ensures TakenBytes(log, id) == Payload((left + more)[starts[id]..], id)
    {
      if id in before {
        FollowedOne(log0, TakenBytes(log, id), left, more, starts[id], id);
      } else {
        assert (left + more)[starts[id]..] == [];
      }
    }
  }

  /** Message `q` is the half-close of event `j`, and what was taken by then is the payload before it. */
  ghost predicate PlacedAt(log: seq<Event>, j: nat, left: seq<DataIn>, start: nat, q: nat)
    requires j < |log| && log[j].HalfClose?
  {
    var id := log[j].id;
    start <= q < |left| && left[q] == TcpClose(id) && TakenBytes(log[..j], id) == Payload(left[start..q], id)
  }

  ghost predicate Placed(log: seq<Event>, j: nat, left: seq<DataIn>, since: map<Id, nat>)
    requires j < |log| && log[j].HalfClose?
  {
    log[j].id in since && exists q: nat :: PlacedAt(log, j, left, since[log[j].id], q)
  }

  /** Each half-close is a message that has left the queue since its connection was opened. */
  ghost predicate ClosesPlaced(log: seq<Event>, left: seq<DataIn>, since: map<Id, nat>) {
    forall j :: 0 <= j < |log| && log[j].HalfClose? ==> Placed(log, j, left, since)
  }

  lemma ClosesNone(left: seq<DataIn>, since: map<Id, nat>)
    ensures ClosesPlaced([], left, since)
  {
  }

  lemma PlacedStays(log0: seq<Event>, log: seq<Event>, j: nat, left: seq<DataIn>, more: seq<DataIn>,
        since: map<Id, nat>, since': map<Id, nat>)
    requires log0 <= log && j < |log0| && log0[j].HalfClose? && Placed(log0, j, left, since)
    requires forall id :: id in since ==> id in since' && since'[id] == since[id]
    ensures Placed(log, j, left + more, since')
  {
    hide TakenBytes, Payload;
    var start := since[log0[j].id];
    var q: nat :| PlacedAt(log0, j, left, start, q);
    assert log[j] == log0[j] && log[..j] == log0[..j] && (left + more)[start..q] == left[start..q];
    assert PlacedAt(log, j, left + more, start, q);
  }

  lemma PlacedNow(ids: set<Id>, log0: seq<Event>, log: seq<Event>, j: nat, left: seq<DataIn>, more: seq<DataIn>,
        since: map<Id, nat>)
    requires Followed(ids, log0, left, since) && j < |log| && log[j].HalfClose? && Closed(ids, log0, log, j, more)
    ensures Placed(log, j, left + more, since)
  {
    hide TakenBytes, Payload;
    var id := log[j].id;
    var start := since[id];
    var q: nat :| ClosedBy(log0, log, j, more, q);
    FollowedOne(log0, TakenBytes(log[..j], id), left, more[..q], start, id);
    assert (left + more)[start..|left| + q] == (left + more[..q])[start..];
    assert PlacedAt(log, j, left + more, start, |left| + q);
  }

  lemma ClosesStep(before: set<Id>, after: set<Id>, log0: seq<Event>, log: seq<Event>, left: seq<DataIn>,
        more: seq<DataIn>, since: map<Id, nat>)
    requires ClosesPlaced(log0, left, since) && Followed(before, log0, left, since)
    requires TookFrom(after * before, log0, log, more)
    requires forall id :: id in after && id !in before ==> id !in since
    ensures ClosesPlaced(log, left + more, Since(before, after, since, |left|))
  {
    hide TakenBytes, Payload, Placed, Closed;
    var since' := Since(before, after, since, |left|);
    forall j | 0 <= j < |log| && log[j].HalfClose? ensures Placed(log, j, left + more, since') {
      if j < |log0| {
        assert log[j] == log0[j];
        PlacedStays(log0, log, j, left, more, since, since');
      } else {
        assert Closed(after * before, log0, log, j, more);
        PlacedNow(after * before, log0, log, j, left, more, since);
        PlacedIn(log, j, left + more, since, since');
      }
    }
  }

  lemma PlacedIn(log: seq<Event>, j: nat, left: seq<DataIn>, since: map<Id, nat>, since': map<Id, nat>)
    requires j < |log| && log[j].HalfClose? && Placed(log, j, left, since)
    requires forall id :: id in since ==> id in since' && since'[id] == since[id]
    ensures Placed(log, j, left, since')
  {
    hide PlacedAt;
  }

  // ----- FINs -----

  /**
   * Message `q` half-closes the connection of the FIN at event `i`, and its socket had the payload
   * before it by then.
   */
  ghost predicate FlushedTo(log: seq<Event>, i: nat, left: seq<DataIn>, start: nat, q: nat)
    requires i < |log| && log[i].FinAsked?
  {
    var id := log[i].id;
    start <= q < |left| && left[q] == TcpClose(id) && Payload(left[start..q], id) <= HandedBytes(log[..i], id)
  }

  /**
   * Each FIN of the half-close path follows a half-close that left the queue, and all the payload
   * that left it before.
   */
  ghost predicate FinsPlaced(log: seq<Event>, left: seq<DataIn>, since: map<Id, nat>) {
    forall i :: 0 <= i < |log| && log[i].FinAsked? ==>
      log[i].id in since && exists q: nat :: FlushedTo(log, i, left, since[log[i].id], q)
  }

  lemma FinsArePlaced(log: seq<Event>, left: seq<DataIn>, since: map<Id, nat>)
    requires FinsLast(log) && ClosesPlaced(log, left, since)
    ensures FinsPlaced(log, left, since)
  {
    hide TakenBytes, HandedBytes, Payload;
    forall i | 0 <= i < |log| && log[i].FinAsked?
      ensures log[i].id in since && exists q: nat :: FlushedTo(log, i, left, since[log[i].id], q)
    {
      var id := log[i].id;
      var j :| 0 <= j < i && log[j] == HalfClose(id);
      assert Placed(log, j, left, since);
      var q: nat :| PlacedAt(log, j, left, since[id], q);
      assert FlushedTo(log, i, left, since[id], q);
    }
  }
}
