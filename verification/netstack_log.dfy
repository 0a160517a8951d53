/** What happens to the connections of the userspace stack, in order, and what can be read off it. */
module NetLog {
  import opened Bytes

  type Id = nat
  /** An OpenTcp command, by its place among them. */
  type Request = nat

  datatype Addr = Addr(ip: seq<byte>, port: nat)

  datatype Event =
    | Opened(id: Id)
    | Answered(request: Request, ok: bool)
    /** Payload of the app for a connection in the table, as it leaves the app queue. */
    | Taken(id: Id, data: seq<byte>)
    | HalfClose(id: Id)
    /** Payload the socket of the connection accepted. */
    | Handed(id: Id, data: seq<byte>)
    /** The half-close path asked the socket for a FIN. */
    | FinAsked(id: Id)
    /** Another path did: the app is gone, or the other side closed. */
    | CloseAsked(id: Id)
    /** Payload that did not fit at first was tried again. */
    | Retried(id: Id)
    /** A datagram of the app went to its UDP socket. */
    | Datagram(id: Id, dst: Addr, data: seq<byte>)
    /** The app stopped receiving; its socket is aborted, or lingers. */
    | Orphaned(id: Id, aborted: bool)

  function TakenIn(e: Event, id: Id): seq<byte> {
    if e.Taken? && e.id == id then e.data else []
  }

  function HandedIn(e: Event, id: Id): seq<byte> {
    if e.Handed? && e.id == id then e.data else []
  }

  function TakenBytes(log: seq<Event>, id: Id): seq<byte> {
    if log == [] then [] else TakenBytes(log[..|log| - 1], id) + TakenIn(log[|log| - 1], id)
  }

  function HandedBytes(log: seq<Event>, id: Id): seq<byte> {
    if log == [] then [] else HandedBytes(log[..|log| - 1], id) + HandedIn(log[|log| - 1], id)
  }

  /** How many answers a command has had. */
  function Answers(log: seq<Event>, request: Request): nat {
    if log == [] then 0
    else Answers(log[..|log| - 1], request) + AnswerIn(log[|log| - 1], request)
  }

  function AnswerIn(e: Event, request: Request): nat {
    if e.Answered? && e.request == request then 1 else 0
  }

  lemma LogGrows(log: seq<Event>, e: Event)
    ensures forall id :: TakenBytes(log + [e], id) == TakenBytes(log, id) + TakenIn(e, id)
    ensures forall id :: HandedBytes(log + [e], id) == HandedBytes(log, id) + HandedIn(e, id)
    ensures forall r :: Answers(log + [e], r) == Answers(log, r) + AnswerIn(e, r)
  {
    assert (log + [e])[..|log|] == log;
  }

  lemma {:induction false} TakenSame(log: seq<Event>, more: seq<Event>)
    requires forall i :: 0 <= i < |more| ==> !more[i].Taken?
    ensures forall id :: TakenBytes(log + more, id) == TakenBytes(log, id)
    decreases |more|
  {
    if more == [] {
      assert log + more == log;
    } else {
      var last := more[|more| - 1];
      TakenSame(log, more[..|more| - 1]);
      LogGrows(log + more[..|more| - 1], last);
      assert log + more == log + more[..|more| - 1] + [last];
    }
  }

  /** The ids of the connections opened go up, and stay under `next`. */
  ghost predicate FreshIds(log: seq<Event>, next: Id) {
    && (forall i :: 0 <= i < |log| && log[i].Opened? ==> log[i].id < next)
    && (forall i, j :: 0 <= i < j < |log| && log[i].Opened? && log[j].Opened? ==> log[i].id < log[j].id)
  }

  /** A FIN follows a half-close of its connection. */
  ghost predicate HalfClosedBefore(log: seq<Event>, i: nat, id: Id)
    requires i <= |log|
  {
    exists j :: 0 <= j < i && log[j] == HalfClose(id)
  }

  /** By event `i` the socket had all that the app sent before each half-close up to then. */
  ghost predicate FlushedBefore(log: seq<Event>, i: nat, id: Id)
    requires i <= |log|
  {
    forall j :: 0 <= j < i && log[j] == HalfClose(id) ==> TakenBytes(log[..j], id) <= HandedBytes(log[..i], id)
  }

  /** Every FIN of the half-close path comes after a half-close, and after all that was sent before it. */
  ghost predicate FinsLast(log: seq<Event>) {
    forall i :: 0 <= i < |log| && log[i].FinAsked? ==>
          HalfClosedBefore(log, i, log[i].id) && FlushedBefore(log, i, log[i].id)
  }

  /** All that was sent before a half-close of the connection is in `out`. */
  ghost predicate MarksIn(log: seq<Event>, id: Id, out: seq<byte>) {
    forall j :: 0 <= j < |log| && log[j] == HalfClose(id) ==> TakenBytes(log[..j], id) <= out
  }

  lemma FinsLastGrows(log: seq<Event>, e: Event)
    requires FinsLast(log)
    requires e.FinAsked? ==> HalfClose(e.id) in log && MarksIn(log, e.id, HandedBytes(log, e.id))
    ensures FinsLast(log + [e])
  {
    var log' := log + [e];
    forall i | 0 <= i < |log'| && log'[i].FinAsked?
      ensures HalfClosedBefore(log', i, log'[i].id) && FlushedBefore(log', i, log'[i].id)
    {
      var id := log'[i].id;
      assert log'[..i] == log[..i];
      if i < |log| {
        assert HalfClosedBefore(log, i, id) && FlushedBefore(log, i, id);
        var j :| 0 <= j < i && log[j] == HalfClose(id);
        assert log'[j] == HalfClose(id);
      } else {
        assert log[..i] == log;
        var j :| 0 <= j < |log| && log[j] == HalfClose(id);
        assert log'[j] == HalfClose(id);
      }
      forall j | 0 <= j < i && log'[j] == HalfClose(id)
        ensures TakenBytes(log'[..j], id) <= HandedBytes(log'[..i], id)
      {
        assert log'[..j] == log[..j] && log[j] == HalfClose(id);
      }
    }
  }

  lemma MarksGrow(log: seq<Event>, e: Event, id: Id, out: seq<byte>, out': seq<byte>)
    requires MarksIn(log, id, out) && out <= out'
    requires e == HalfClose(id) ==> TakenBytes(log, id) <= out'
    ensures MarksIn(log + [e], id, out')
  {
    var log' := log + [e];
    forall j | 0 <= j < |log'| && log'[j] == HalfClose(id) ensures TakenBytes(log'[..j], id) <= out' {
      assert log'[..j] == log[..j];
      if j < |log| {
        assert log[j] == HalfClose(id);
      } else {
        assert log[..j] == log;
      }
    }
  }
}
