/**
 * The HTTP/2 carrier of a MASQUE tunnel: packets are gathered into batches of capsules, sent as a
 * stream of bytes, and taken off it again on the other side however it was cut up.
 */
module Carrier {
  import opened Bytes
  import opened Varint
  import opened Capsules
  import opened CapsuleLists

  /** A packet, as long as a capsule can be. */
  type IpPacket = p: seq<byte> | |p| < VARINT_END

  /** How much a single write may carry before no more is gathered. */
  const H2_SEND_BATCH_BYTES: nat := 32 * 1024

  /** The largest DATA frame the edge may send. */
  const H2_MAX_FRAME_SIZE: nat := 64 * 1024

  // ----- Sending -----

  function CapsuleOf(p: IpPacket): seq<byte> {
    Encode(Frame(DATAGRAM, p))
  }

  /** The packets as a stream of capsules. */
  function Stream(packets: seq<IpPacket>): seq<byte> {
    if packets == [] then [] else CapsuleOf(packets[0]) + Stream(packets[1..])
  }

  lemma {:induction false} StreamAppend(a: seq<IpPacket>, b: seq<IpPacket>)
    ensures Stream(a + b) == Stream(a) + Stream(b)
  {
    hide Encode;
    if a == [] {
      assert a + b == b;
    } else {
      StreamAppend(a[1..], b);
      ConsAppend(a, b);
      Associates(CapsuleOf(a[0]), Stream(a[1..]), Stream(b));
    }
  }

  lemma StreamSnoc(a: seq<IpPacket>, p: IpPacket)
    ensures Stream(a + [p]) == Stream(a) + CapsuleOf(p)
  {
    hide Encode;
    StreamAppend(a, [p]);
    assert Stream([p]) == CapsuleOf(p) + Stream([]);
  }

  /** A write ends in a whole capsule, and is under the batch size before it. */
  predicate BatchEnds(batch: seq<byte>, last: IpPacket) {
    var n := |CapsuleOf(last)|;
    n <= |batch| < H2_SEND_BATCH_BYTES + n && batch[|batch| - n..] == CapsuleOf(last)
  }

  /** One batch: the first packet queued, and those behind it until enough is gathered or none is left. */
  method Gather(queue: seq<IpPacket>) returns (batch: seq<byte>, taken: nat)
    requires queue != []
    ensures 1 <= taken <= |queue| && batch == Stream(queue[..taken])
    ensures BatchEnds(batch, queue[taken - 1])
    ensures taken < |queue| ==> |batch| >= H2_SEND_BATCH_BYTES
  {
    hide Encode;
    batch := AppendCapsule([], DATAGRAM, queue[0]);
    taken := 1;
    StreamSnoc([], queue[0]);
    assert queue[..1] == [] + [queue[0]];
    while taken < |queue| && |batch| < H2_SEND_BATCH_BYTES
      invariant 1 <= taken <= |queue| && batch == Stream(queue[..taken])
      invariant BatchEnds(batch, queue[taken - 1])
    {
      StreamSnoc(queue[..taken], queue[taken]);
      assert queue[..taken + 1] == queue[..taken] + [queue[taken]];
      batch := AppendCapsule(batch, DATAGRAM, queue[taken]);
      taken := taken + 1;
    }
  }

  /** What the send task finds to do: a probe, or packets that have come onto its queue. */
  datatype SendTurn = Probe(packet: IpPacket) | Queued(arrivals: seq<IpPacket>)

  /** A packet that was sent, and whether it was a probe. */
  datatype Sent = Sent(packet: IpPacket, probe: bool)

  /** The packets of the queue, in the order they came. */
  function Arrived(turns: seq<SendTurn>): seq<IpPacket> {
    if turns == [] then []
    else
      var last := turns[|turns| - 1];
      Arrived(turns[..|turns| - 1]) + if last.Queued? then last.arrivals else []
  }

  /** What was sent of the queue. */
  function FromQueue(sent: seq<Sent>): seq<IpPacket> {
    if sent == [] then []
    else if sent[0].probe then FromQueue(sent[1..]) else [sent[0].packet] + FromQueue(sent[1..])
  }

  lemma FromQueueFirst(sent: seq<Sent>)
    requires sent != []
    ensures FromQueue(sent) == if sent[0].probe then FromQueue(sent[1..]) else [sent[0].packet] + FromQueue(sent[1..])
  {
  }

  lemma {:induction false} FromQueueAppend(a: seq<Sent>, b: seq<Sent>)
    ensures FromQueue(a + b) == FromQueue(a) + FromQueue(b)
  {
    if a == [] {
      assert a + b == b;
    } else {
      FromQueueAppend(a[1..], b);
      ConsAppend(a, b);
      FromQueueFirst(a);
      FromQueueFirst(a + b);
      hide FromQueue;
      Associates([a[0].packet], FromQueue(a[1..]), FromQueue(b));
    }
  }

  function AllSent(packets: seq<IpPacket>): seq<Sent> {
    seq(|packets|, i requires 0 <= i < |packets| => Sent(packets[i], false))
  }

  lemma {:induction false} AllFromQueue(packets: seq<IpPacket>)
    ensures FromQueue(AllSent(packets)) == packets && PacketsOf(AllSent(packets)) == packets
  {
    if packets != [] {
      AllFromQueue(packets[1..]);
      assert AllSent(packets)[1..] == AllSent(packets[1..]);
    }
  }

  function PacketsOf(sent: seq<Sent>): seq<IpPacket> {
    seq(|sent|, i requires 0 <= i < |sent| => sent[i].packet)
  }

  /**
   * The send task: what the writes carry is what was sent, in order, as whole capsules, each write
   * under the batch size but for its last capsule; and the packets of the queue are sent in the
   * order they came, none lost or repeated.
   */
  method PumpOutbound(turns: seq<SendTurn>)
    returns (writes: seq<seq<byte>>, sent: seq<Sent>, queue: seq<IpPacket>, ghost lasts: seq<IpPacket>)
    ensures Flatten(writes) == Stream(PacketsOf(sent))
    ensures FromQueue(sent) + queue == Arrived(turns)
    ensures |lasts| == |writes| && forall i :: 0 <= i < |writes| ==> BatchEnds(writes[i], lasts[i])
  {
    hide Stream, FromQueue, Flatten, Encode, BatchEnds;
    writes, sent, queue, lasts := [], [], [], [];
    StartEmpty();
    for i := 0 to |turns|
      invariant Flatten(writes) == Stream(PacketsOf(sent))
      invariant FromQueue(sent) + queue == Arrived(turns[..i])
      invariant |lasts| == |writes| && forall k :: 0 <= k < |writes| ==> BatchEnds(writes[k], lasts[k])
    {
      assert turns[..i + 1][..i] == turns[..i];
      match turns[i]
      case Probe(p) =>
        var framed := AppendCapsule([], DATAGRAM, p);
        ProbeSent(writes, sent, framed, p);
        OneCapsule(framed, p);
        writes, sent, lasts := writes + [framed], sent + [Sent(p, true)], lasts + [p];
      case Queued(arrivals) =>
        assert FromQueue(sent) + (queue + arrivals) == FromQueue(sent) + queue + arrivals;
        queue := queue + arrivals;
        if queue != [] {
          var batch, taken := Gather(queue);
          BatchSent(writes, sent, batch, queue, taken);
          writes, sent, lasts := writes + [batch], sent + AllSent(queue[..taken]), lasts + [queue[taken - 1]];
          queue := queue[taken..];
        }
    }
    assert turns[..|turns|] == turns;
  }

  lemma OneCapsule(framed: seq<byte>, p: IpPacket)
    requires framed == [] + CapsuleOf(p)
    ensures BatchEnds(framed, p)
  {
  }

  lemma StartEmpty()
    ensures Flatten<byte>([]) == Stream(PacketsOf([])) && FromQueue([]) + [] == Arrived([])
  {
  }

  lemma ProbeSent(writes: seq<seq<byte>>, sent: seq<Sent>, framed: seq<byte>, p: IpPacket)
    requires Flatten(writes) == Stream(PacketsOf(sent)) && framed == [] + CapsuleOf(p)
    ensures Flatten(writes + [framed]) == Stream(PacketsOf(sent + [Sent(p, true)]))
    ensures FromQueue(sent + [Sent(p, true)]) == FromQueue(sent)
  {
    hide Encode;
    FlattenSnoc(writes, framed);
    StreamSnoc(PacketsOf(sent), p);
    assert PacketsOf(sent + [Sent(p, true)]) == PacketsOf(sent) + [p];
    FromQueueAppend(sent, [Sent(p, true)]);
    assert FromQueue([Sent(p, true)]) == FromQueue([]);
  }

  lemma BatchSent(writes: seq<seq<byte>>, sent: seq<Sent>, batch: seq<byte>, queue: seq<IpPacket>, taken: nat)
    requires Flatten(writes) == Stream(PacketsOf(sent)) && taken <= |queue| && batch == Stream(queue[..taken])
    ensures Flatten(writes + [batch]) == Stream(PacketsOf(sent + AllSent(queue[..taken])))
    ensures FromQueue(sent + AllSent(queue[..taken])) + queue[taken..] == FromQueue(sent) + queue
  {
    hide Encode, Stream, Flatten, FromQueue;
    var more := AllSent(queue[..taken]);
    FlattenSnoc(writes, batch);
    AllFromQueue(queue[..taken]);
    StreamAppend(PacketsOf(sent), queue[..taken]);
    assert PacketsOf(sent + more) == PacketsOf(sent) + PacketsOf(more);
    FromQueueAppend(sent, more);
    assert queue == queue[..taken] + queue[taken..];
  }

  // ----- Receiving -----

  datatype Capsule =
    | AddressAssign(list: seq<AssignedAddress>)
    | AddressRequest
    | DatagramCapsule(payload: seq<byte>)
    | Advertisement(routes: seq<RouteAdvertisement>)
    | Unknown(kind: nat, payload: seq<byte>)

  function Interpreted(f: Frame): Result<Capsule, ListError> {
    if f.kind == ADDRESS_ASSIGN then
      match Assigned(f.value) { case Ok(list) => Ok(AddressAssign(list)) case Err(e) => Err(e) }
    else if f.kind == ADDRESS_REQUEST then Ok(AddressRequest)
    else if f.kind == ROUTE_ADVERTISEMENT then
      match Routes(f.value) { case Ok(list) => Ok(Advertisement(list)) case Err(e) => Err(e) }
    else if f.kind == DATAGRAM then Ok(DatagramCapsule(f.value))
    else Ok(Unknown(f.kind, f.value))
  }

  class CapsuleParser {
    var buf: seq<byte>

    constructor ()
      ensures buf == []
    {
      buf := [];
    }

    /** More of the stream; past what a parser holds, all of it is dropped. */
    method Push(data: seq<byte>)
      modifies this
      ensures buf == Held(old(buf), data)
    {
      if |buf| + |data| > MAX_CAPSULE_BUF {
        buf := [];
      } else {
        buf := buf + data;
      }
    }

    /** The next capsule that has come, taken off the stream even when its value is malformed. */
    method Next() returns (r: Result<Option<Capsule>, ListError>)
      modifies this
      ensures match FirstFrame(old(buf))
              case None => r == Ok(None) && buf == old(buf)
              case Some((f, n)) =>
                && buf == old(buf)[n..]
                && r == match Interpreted(f) { case Ok(c) => Ok(Some(c)) case Err(e) => Err(e) }
    {
      var first := FirstFrame(buf);
      if first.None? {
        return Ok(None);
      }
      var (f, n) := first.value;
      buf := buf[n..];
      if f.kind == ADDRESS_ASSIGN {
        var list := ParseAddressAssign(f.value);
        return match list { case Ok(l) => Ok(Some(AddressAssign(l))) case Err(e) => Err(e) };
      } else if f.kind == ADDRESS_REQUEST {
        return Ok(Some(AddressRequest));
      } else if f.kind == ROUTE_ADVERTISEMENT {
        var list := ParseRouteAdvertisement(f.value);
        return match list { case Ok(l) => Ok(Some(Advertisement(l))) case Err(e) => Err(e) };
      } else if f.kind == DATAGRAM {
        return Ok(Some(DatagramCapsule(f.value)));
      } else {
        return Ok(Some(Unknown(f.kind, f.value)));
      }
    }
  }

  function Held(buf: seq<byte>, data: seq<byte>): seq<byte> {
    if |buf| + |data| > MAX_CAPSULE_BUF then [] else buf + data
  }

  // ----- Taking the packets off the stream -----

  /** What the queue to the app does with a packet. */
  datatype Queue = Taken | Full | Closed

  /** The packet of a capsule, if it carries one. */
  function PacketIn(f: Frame): Option<seq<byte>> {
    if f.kind == DATAGRAM then StripContext(f.value) else None
  }

  function After(packets: seq<seq<byte>>, r: (seq<seq<byte>>, seq<byte>)): (seq<seq<byte>>, seq<byte>) {
    (packets + r.0, r.1)
  }

  lemma AfterOne(packets: seq<seq<byte>>, p: seq<byte>, r: (seq<seq<byte>>, seq<byte>))
    ensures After(packets, After([p], r)) == After(packets + [p], r)
  {
    assert packets + ([p] + r.0) == packets + [p] + r.0;
  }

  lemma AfterLast(packets: seq<seq<byte>>, rest: seq<byte>)
    ensures After(packets, ([], rest)) == (packets, rest)
  {
    assert packets + [] == packets;
  }

  lemma AfterClosed(packets: seq<seq<byte>>, p: seq<byte>, rest: seq<byte>)
    ensures After(packets, ([p], rest)) == (packets + [p], rest)
  {
  }

  lemma AfterNone(r: (seq<seq<byte>>, seq<byte>))
    ensures After([], r) == r
  {
    assert [] + r.0 == r.0;
  }

  /** The packets given to the app queue, of which `n` went before, and what is left of the stream. */
  function Drained(s: seq<byte>, queue: nat -> Queue, n: nat): (r: (seq<seq<byte>>, seq<byte>))
    decreases |s|
  {
    match FirstFrame(s)
    case None => ([], s)
    case Some((f, used)) =>
      if Interpreted(f).Err? then ([], s[used..])
      else match PacketIn(f)
        case None => Drained(s[used..], queue, n)
        case Some(p) =>
          if queue(n).Closed? then ([p], s[used..])
          else After([p], Drained(s[used..], queue, n + 1))
  }

  /** The addresses the edge assigned in the capsules that are taken off. */
  function Assignments(s: seq<byte>, queue: nat -> Queue, n: nat): seq<AssignedAddress>
    decreases |s|
  {
    match FirstFrame(s)
    case None => []
    case Some((f, used)) =>
      match Interpreted(f)
      case Err(_) => []
      case Ok(capsule) =>
        match PacketIn(f)
        case None => AddressesIn(capsule) + Assignments(s[used..], queue, n)
        case Some(p) => if queue(n).Closed? then [] else Assignments(s[used..], queue, n + 1)
  }

  function AddressesIn(c: Capsule): seq<AssignedAddress> {
    if c.AddressAssign? then c.list else []
  }

  /** What taking off one capsule comes to. */
  lemma DrainStep(s: seq<byte>, queue: nat -> Queue, n: nat)
    ensures match FirstFrame(s)
            case None => Drained(s, queue, n) == ([], s) && Assignments(s, queue, n) == []
            case Some((f, used)) =>
              var rest := s[used..];
              match Interpreted(f)
              case Err(_) => Drained(s, queue, n) == ([], rest) && Assignments(s, queue, n) == []
              case Ok(DatagramCapsule(payload)) =>
                (match StripContext(payload)
                 case None =>
                   Drained(s, queue, n) == Drained(rest, queue, n)
                   && Assignments(s, queue, n) == Assignments(rest, queue, n)
                 case Some(p) =>
                   if queue(n).Closed? then Drained(s, queue, n) == ([p], rest) && Assignments(s, queue, n) == []
                   else && Drained(s, queue, n) == After([p], Drained(rest, queue, n + 1))
                        && Assignments(s, queue, n) == Assignments(rest, queue, n + 1))
              case Ok(c) =>
                && Drained(s, queue, n) == Drained(rest, queue, n)
                && Assignments(s, queue, n) == AddressesIn(c) + Assignments(rest, queue, n)
  {
    hide FirstFrame, StripContext, Assigned, Routes, After;
    if FirstFrame(s).Some? {
      var rest := s[FirstFrame(s).value.1..];
      assert [] + Assignments(rest, queue, n) == Assignments(rest, queue, n);
    }
  }

  /**
   * Takes off every capsule that has come: the packets go to the app queue and the addresses are
   * passed on, each in order, and it says whether there was a packet.
   */
  method DrainCapsules(parser: CapsuleParser, queue: nat -> Queue, n: nat)
    returns (delivered: bool, packets: seq<seq<byte>>, passedOn: seq<AssignedAddress>)
    modifies parser
    ensures (packets, parser.buf) == Drained(old(parser.buf), queue, n)
    ensures passedOn == Assignments(old(parser.buf), queue, n)
    ensures delivered <==> packets != []
  {
    hide FirstFrame, StripContext, Interpreted, After, Drained, Assignments;
    packets, passedOn := [], [];
    AfterNone(Drained(parser.buf, queue, n));
    Associates<AssignedAddress>([], [], Assignments(parser.buf, queue, n));
    while true
      invariant Drained(old(parser.buf), queue, n) == After(packets, Drained(parser.buf, queue, n + |packets|))
      invariant Assignments(old(parser.buf), queue, n) == passedOn + Assignments(parser.buf, queue, n + |packets|)
      decreases |parser.buf|
    {
      DrainStep(parser.buf, queue, n + |packets|);
      var capsule := parser.Next();
      match capsule
      case Err(e) =>
        AfterLast(packets, parser.buf);
        return packets != [], packets, passedOn;
      case Ok(None) =>
        AfterLast(packets, parser.buf);
        return packets != [], packets, passedOn;
      case Ok(Some(DatagramCapsule(payload))) =>
        var packet := StripContext(payload);
        if packet.Some? {
          var closed := queue(n + |packets|).Closed?;
          AfterOne(packets, packet.value, Drained(parser.buf, queue, n + |packets| + 1));
          AfterClosed(packets, packet.value, parser.buf);
          packets := packets + [packet.value];
          if closed {
            return true, packets, passedOn;
          }
        }
      case Ok(Some(AddressAssign(list))) =>
        Associates(passedOn, list, Assignments(parser.buf, queue, n + |packets|));
        passedOn := passedOn + list;
      case Ok(Some(_)) =>
        Associates(passedOn, [], Assignments(parser.buf, queue, n + |packets|));
    }
  }

  /** Every address passed on has the length of its IP version. */
  lemma {:induction false} AssignmentsFit(s: seq<byte>, queue: nat -> Queue, n: nat)
    ensures forall i :: 0 <= i < |Assignments(s, queue, n)| ==>
              var a := Assignments(s, queue, n)[i]; AddressLen(a.version) == Some(|a.address|)
    decreases |s|
  {
    hide FirstFrame, PacketIn, Assigned, Routes;
    if FirstFrame(s).Some? {
      var (f, used) := FirstFrame(s).value;
      AssignmentsFit(s[used..], queue, n);
      AssignmentsFit(s[used..], queue, n + 1);
      if f.kind == ADDRESS_ASSIGN && Assigned(f.value).Ok? {
        var widths := AssignedWas(f.value);
      }
    }
  }

  // ----- What is sent is what arrives -----

  ghost predicate NeverClosed(queue: nat -> Queue) {
    forall n: nat :: !queue(n).Closed?
  }

  /** The packets of capsules, in order. */
  function PacketsIn(frames: seq<Frame>): seq<seq<byte>> {
    if frames == [] then []
    else (if PacketIn(frames[0]).Some? then [PacketIn(frames[0]).value] else []) + PacketsIn(frames[1..])
  }

  lemma {:induction false} PacketsInAppend(a: seq<Frame>, b: seq<Frame>)
    ensures PacketsIn(a + b) == PacketsIn(a) + PacketsIn(b)
  {
    hide PacketIn;
    if a == [] {
      assert a + b == b;
    } else {
      PacketsInAppend(a[1..], b);
      ConsAppend(a, b);
      Associates(if PacketIn(a[0]).Some? then [PacketIn(a[0]).value] else [], PacketsIn(a[1..]), PacketsIn(b));
    }
  }

  ghost predicate AllRead(frames: seq<Frame>) {
    forall i :: 0 <= i < |frames| ==> Interpreted(frames[i]).Ok?
  }

  lemma {:induction false} DrainedIs(s: seq<byte>, queue: nat -> Queue, n: nat)
    requires NeverClosed(queue) && AllRead(Frames(s).0)
    ensures Drained(s, queue, n) == (PacketsIn(Frames(s).0), Frames(s).1)
    decreases |s|
  {
    hide FirstFrame, PacketIn, Interpreted;
    if FirstFrame(s).Some? {
      var (f, used) := FirstFrame(s).value;
      var (rest, left) := Frames(s[used..]);
      assert Frames(s).0 == [f] + rest && ([f] + rest)[1..] == rest;
      assert Interpreted(Frames(s).0[0]).Ok?;
      assert AllRead(rest) by {
        forall i | 0 <= i < |rest| ensures Interpreted(rest[i]).Ok? {
          assert Interpreted(Frames(s).0[i + 1]).Ok?;
        }
      }
      DrainedIs(s[used..], queue, n);
      DrainedIs(s[used..], queue, n + 1);
      assert [] + PacketsIn(rest) == PacketsIn(rest);
    }
  }

  /** The pieces of a stream, each pushed and drained: the packets, and what is held in the end. */
  function Fed(buf: seq<byte>, pieces: seq<seq<byte>>, queue: nat -> Queue, n: nat): (seq<seq<byte>>, seq<byte>)
    decreases |pieces|
  {
    if pieces == [] then ([], buf)
    else
      var (ps, rest) := Drained(Held(buf, pieces[0]), queue, n);
      After(ps, Fed(rest, pieces[1..], queue, n + |ps|))
  }

  /** One more piece goes through the parser as the ones before left it. */
  lemma {:induction false} FedSnoc(buf: seq<byte>, pieces: seq<seq<byte>>, piece: seq<byte>,
        queue: nat -> Queue, n: nat)
    ensures var (ps, rest) := Fed(buf, pieces, queue, n);
            Fed(buf, pieces + [piece], queue, n) == After(ps, Drained(Held(rest, piece), queue, n + |ps|))
    decreases |pieces|
  {
    hide Drained;
    var all := pieces + [piece];
    if pieces == [] {
      var one: seq<seq<byte>> := [piece];
      assert all == one && one[1..] == [];
      var d := Drained(Held(buf, piece), queue, n);
      AfterLast(d.0, d.1);
      AfterNone(d);
    } else {
      ConsAppend(pieces, [piece]);
      var (ps, rest) := Drained(Held(buf, pieces[0]), queue, n);
      FedSnoc(rest, pieces[1..], piece, queue, n + |ps|);
      var (more, left) := Fed(rest, pieces[1..], queue, n + |ps|);
      Associates(ps, more, Drained(Held(left, piece), queue, n + |ps| + |more|).0);
    }
  }

  /** What comes out of the parser looks like IP packets. */
  lemma {:induction false} DrainedAreIp(s: seq<byte>, queue: nat -> Queue, n: nat)
    ensures forall i :: 0 <= i < |Drained(s, queue, n).0| ==> LooksLikeIp(Drained(s, queue, n).0[i])
    decreases |s|
  {
    hide FirstFrame, Interpreted, GetVarint;
    if FirstFrame(s).Some? {
      var (f, used) := FirstFrame(s).value;
      DrainedAreIp(s[used..], queue, n);
      DrainedAreIp(s[used..], queue, n + 1);
    }
  }

  method Feed(pieces: seq<seq<byte>>, queue: nat -> Queue) returns (packets: seq<seq<byte>>, ghost held: seq<byte>)
    ensures packets == Fed([], pieces, queue, 0).0
    ensures held == Fed([], pieces, queue, 0).1
  {
    hide Drained, Held, Fed;
    var parser := new CapsuleParser();
    packets := [];
    assert pieces[..0] == [];
    NothingFed(queue);
    for i := 0 to |pieces|
      invariant fresh(parser)
      invariant Fed([], pieces[..i], queue, 0) == (packets, parser.buf)
    {
      FedSnoc([], pieces[..i], pieces[i], queue, 0);
      assert pieces[..i + 1] == pieces[..i] + [pieces[i]];
      parser.Push(pieces[i]);
      var delivered, more, _ := DrainCapsules(parser, queue, |packets|);
      packets := packets + more;
    }
    assert pieces[..|pieces|] == pieces;
    held := parser.buf;
  }

  lemma NothingFed(queue: nat -> Queue)
    ensures Fed([], [], queue, 0) == ([], [])
  {
  }

  /** No push goes past what the parser holds. */
  predicate UnderCap(buf: seq<byte>, pieces: seq<seq<byte>>)
    decreases |pieces|
  {
    pieces == [] || (|buf| + |pieces[0]| <= MAX_CAPSULE_BUF && UnderCap(Frames(buf + pieces[0]).1, pieces[1..]))
  }

  /** However a stream is cut up, its packets come off it in order, as long as the parser holds it. */
  lemma {:induction false} FedIs(buf: seq<byte>, pieces: seq<seq<byte>>, queue: nat -> Queue, n: nat)
    requires NeverClosed(queue) && UnderCap(buf, pieces) && Frames(buf) == ([], buf)
    requires AllRead(Frames(buf + Flatten(pieces)).0)
    ensures var (frames, rest) := Frames(buf + Flatten(pieces));
            Fed(buf, pieces, queue, n) == (PacketsIn(frames), rest)
    decreases |pieces|
  {
    hide Frames, Drained, PacketsIn, AllRead;
    if pieces == [] {
      assert buf + Flatten(pieces) == buf;
      NoPackets();
    } else {
      var held := buf + pieces[0];
      var more := Flatten(pieces[1..]);
      assert buf + Flatten(pieces) == held + more;
      var (frames, rest) := Frames(held);
      FramesSplit(held, more);
      AllReadParts(frames, Frames(rest + more).0);
      DrainedIs(held, queue, n);
      FramesOfRest(held);
      FedIs(rest, pieces[1..], queue, n + |PacketsIn(frames)|);
      PacketsInAppend(frames, Frames(rest + more).0);
    }
  }

  lemma NoPackets()
    ensures PacketsIn([]) == []
  {
  }

  lemma AllReadParts(a: seq<Frame>, b: seq<Frame>)
    requires AllRead(a + b)
    ensures AllRead(a) && AllRead(b)
  {
    forall i | 0 <= i < |a| ensures Interpreted(a[i]).Ok? {
      assert Interpreted((a + b)[i]).Ok?;
    }
    forall i | 0 <= i < |b| ensures Interpreted(b[i]).Ok? {
      assert Interpreted((a + b)[i + |a|]).Ok?;
    }
  }

  /** What is left of a stream holds no whole capsule. */
  lemma {:induction false} FramesOfRest(s: seq<byte>)
    ensures Frames(Frames(s).1) == ([], Frames(s).1)
    decreases |s|
  {
    hide FirstFrame;
    if FirstFrame(s).Some? {
      FramesOfRest(s[FirstFrame(s).value.1..]);
    }
  }

  function FramesOf(packets: seq<IpPacket>): seq<Frame> {
    seq(|packets|, i requires 0 <= i < |packets| => Frame(DATAGRAM, packets[i]))
  }

  lemma {:induction false} StreamFrames(packets: seq<IpPacket>)
    ensures Frames(Stream(packets)) == (FramesOf(packets), [])
  {
    hide FirstFrame, CapsuleOf;
    if packets == [] {
      NoFrame();
    } else {
      var first, rest := CapsuleOf(packets[0]), Stream(packets[1..]);
      FirstIs(packets[0], rest);
      StreamFrames(packets[1..]);
      assert (first + rest)[|first|..] == rest;
      assert FramesOf(packets) == [Frame(DATAGRAM, packets[0])] + FramesOf(packets[1..]);
    }
  }

  lemma {:induction false} PacketsInStream(packets: seq<IpPacket>)
    requires forall i :: 0 <= i < |packets| ==> WellFormedIp(packets[i])
    ensures PacketsIn(FramesOf(packets)) == packets && AllRead(FramesOf(packets))
  {
    hide StripContext;
    if packets != [] {
      WellFormedComesBack(packets[0]);
      PacketsInStream(packets[1..]);
      assert FramesOf(packets)[1..] == FramesOf(packets[1..]);
      assert [packets[0]] + packets[1..] == packets;
    }
  }

  /**
   * Well-formed packets, in whatever batches they were written and in whatever pieces the bytes
   * arrive, come out in order, none lost, changed or repeated, and nothing is left over.
   */
  lemma PacketsArrive(packets: seq<IpPacket>, pieces: seq<seq<byte>>, queue: nat -> Queue)
    requires forall i :: 0 <= i < |packets| ==> WellFormedIp(packets[i])
    requires Flatten(pieces) == Stream(packets) && UnderCap([], pieces) && NeverClosed(queue)
    ensures Fed([], pieces, queue, 0) == (packets, [])
  {
    hide Fed, UnderCap, PacketsIn, AllRead, Stream, FramesOf;
    assert [] + Flatten(pieces) == Flatten(pieces);
    StreamFrames(packets);
    PacketsInStream(packets);
    assert Frames([]) == ([], []);
    FedIs([], pieces, queue, 0);
  }

  // ----- And not when it does not -----

  /** How long a capsule with a packet of `n` bytes is at least. */
  function CapsuleSize(n: nat): nat {
    1 + VarintLen(n) + n
  }

  /** What the capsules of `packets` take at least. */
  function Weight(packets: seq<seq<byte>>): nat {
    if packets == [] then 0 else CapsuleSize(|packets[0]|) + Weight(packets[1..])
  }

  lemma {:induction false} WeightAppend(a: seq<seq<byte>>, b: seq<seq<byte>>)
    ensures Weight(a + b) == Weight(a) + Weight(b)
  {
    if a == [] {
      assert a + b == b;
    } else {
      WeightAppend(a[1..], b);
      ConsAppend(a, b);
    }
  }

  lemma StreamSize(packets: seq<IpPacket>)
    ensures |Stream(packets)| == Weight(packets)
  {
    hide VarintBytes;
    if packets != [] {
      StreamSize(packets[1..]);
    }
  }

  /** A capsule is no shorter than the one its packet would be sent in. */
  lemma FrameWeight(s: seq<byte>)
    requires FirstFrame(s).Some? && PacketIn(FirstFrame(s).value.0).Some?
    ensures CapsuleSize(|PacketIn(FirstFrame(s).value.0).value|) <= FirstFrame(s).value.1
  {
    var (f, used) := FirstFrame(s).value;
    var (_, a) := GetVarint(s).value;
    var (size, b) := GetVarint(s[a..]).value;
    VarintWrites(s[a..]);
    hide GetVarint, LooksLikeIp;
    assert used == a + b + size && |PacketIn(f).value| <= size == |f.value|;
    LenFits(size, b);
    LenGrows(|PacketIn(f).value|, size);
  }

  lemma LenFits(v: nat, n: nat)
    requires Width(n) && v < 64 * Rest(n)
    ensures VarintLen(v) <= n
  {
  }

  lemma LenGrows(v: nat, w: nat)
    requires v <= w
    ensures VarintLen(v) <= VarintLen(w)
  {
  }

  lemma {:induction false} DrainedWeight(s: seq<byte>, queue: nat -> Queue, n: nat)
    ensures var (ps, rest) := Drained(s, queue, n); Weight(ps) + |rest| <= |s|
    decreases |s|
  {
    hide FirstFrame, PacketIn, Interpreted, CapsuleSize;
    if FirstFrame(s).Some? {
      var (f, used) := FirstFrame(s).value;
      if Interpreted(f).Ok? {
        DrainedWeight(s[used..], queue, n);
        DrainedWeight(s[used..], queue, n + 1);
        if PacketIn(f).Some? {
          FrameWeight(s);
          var p := PacketIn(f).value;
          WeightAppend([p], Drained(s[used..], queue, n + 1).0);
          assert Weight([p]) == CapsuleSize(|p|);
        }
      }
    }
  }

  /** Nothing comes out of the parser that did not go in. */
  lemma {:induction false} FedWeight(buf: seq<byte>, pieces: seq<seq<byte>>, queue: nat -> Queue, n: nat)
    ensures var (ps, rest) := Fed(buf, pieces, queue, n); Weight(ps) + |rest| <= |buf| + |Flatten(pieces)|
    decreases |pieces|
  {
    hide Drained, Weight;
    if pieces == [] {
      assert Weight([]) == 0 by { NoWeight(); }
    } else {
      var held := Held(buf, pieces[0]);
      var (ps, rest) := Drained(held, queue, n);
      DrainedWeight(held, queue, n);
      FedWeight(rest, pieces[1..], queue, n + |ps|);
      WeightAppend(ps, Fed(rest, pieces[1..], queue, n + |ps|).0);
    }
  }

  lemma NoWeight()
    ensures Weight([]) == 0
  {
  }

  /** A push that is too much loses what it drops for good. */
  lemma {:induction false} FedLess(buf: seq<byte>, pieces: seq<seq<byte>>, queue: nat -> Queue, n: nat)
    requires NeverClosed(queue) && !UnderCap(buf, pieces)
    requires AllRead(Frames(buf + Flatten(pieces)).0)
    ensures var (ps, rest) := Fed(buf, pieces, queue, n); Weight(ps) + |rest| < |buf| + |Flatten(pieces)|
    decreases |pieces|
  {
    hide Frames, Drained, Weight, AllRead, NeverClosed, PacketsIn;
    var held := Held(buf, pieces[0]);
    var (ps, left) := Drained(held, queue, n);
    DrainedWeight(held, queue, n);
    var more := Flatten(pieces[1..]);
    if |buf| + |pieces[0]| > MAX_CAPSULE_BUF {
      FedWeight(left, pieces[1..], queue, n + |ps|);
    } else {
      assert buf + Flatten(pieces) == held + more;
      FramesSplit(held, more);
      AllReadParts(Frames(held).0, Frames(Frames(held).1 + more).0);
      DrainedIs(held, queue, n);
      FedLess(left, pieces[1..], queue, n + |ps|);
    }
    WeightAppend(ps, Fed(left, pieces[1..], queue, n + |ps|).0);
  }

  /**
   * Exactly when packets arrive: well-formed ones come out as they went in if and only if no push
   * of a piece is more than the parser has room for.
   */
  lemma ArriveExactly(packets: seq<IpPacket>, pieces: seq<seq<byte>>, queue: nat -> Queue)
    requires forall i :: 0 <= i < |packets| ==> WellFormedIp(packets[i])
    requires Flatten(pieces) == Stream(packets) && NeverClosed(queue)
    ensures Fed([], pieces, queue, 0) == (packets, []) <==> UnderCap([], pieces)
  {
    hide Fed, UnderCap, PacketsIn, AllRead, Stream, FramesOf, Weight, WellFormedIp;
    if UnderCap([], pieces) {
      PacketsArrive(packets, pieces, queue);
    } else {
      assert [] + Flatten(pieces) == Flatten(pieces);
      StreamFrames(packets);
      PacketsInStream(packets);
      FedLess([], pieces, queue, 0);
      StreamSize(packets);
    }
  }

  /** A full-sized packet: an IPv4 header of five words and what it carries. */
  function FullPacket(): IpPacket {
    [0x45] + seq(1279, _ => 0)
  }

  function Burst(n: nat): seq<IpPacket> {
    seq(n, _ => FullPacket())
  }

  lemma {:induction false} BurstSize(n: nat)
    ensures |Stream(Burst(n))| == 1283 * n
  {
    StreamSize(Burst(n));
    if n > 0 {
      BurstSize(n - 1);
      StreamSize(Burst(n - 1));
      assert Burst(n)[1..] == Burst(n - 1);
    }
  }

  /**
   * 210 packets in one piece are more than the parser holds, and none of them arrives; in two
   * halves all of them do.
   */
  lemma LostAtOnce(queue: nat -> Queue)
    requires NeverClosed(queue)
    ensures var packets := Burst(210);
            && (forall i :: 0 <= i < |packets| ==> WellFormedIp(packets[i]))
            && Fed([], [Stream(packets)], queue, 0) == ([], [])
            && Fed([], [Stream(Burst(105))] + [Stream(Burst(105))], queue, 0) == (packets, [])
  {
    hide Stream, Drained, Frames, Fed, UnderCap;
    var packets, half := Burst(210), Stream(Burst(105));
    BurstSize(210);
    BurstSize(105);
    TooMuch(Stream(packets), queue);
    assert packets == Burst(105) + Burst(105);
    StreamAppend(Burst(105), Burst(105));
    FlattenOnce(half);
    FlattenSnoc([half], half);
    StreamFrames(Burst(105));
    TwoFit(half);
    PacketsArrive(packets, [half] + [half], queue);
  }

  /** A piece that is too much for an empty parser is lost with all that is in it. */
  lemma TooMuch(s: seq<byte>, queue: nat -> Queue)
    requires |s| > MAX_CAPSULE_BUF
    ensures Fed([], [s], queue, 0) == ([], [])
  {
    hide Drained;
    var one: seq<seq<byte>> := [s];
    assert one[1..] == [] && Held([], s) == [];
    NothingDrained(queue, 0);
    AfterNone(([], []));
  }

  lemma FlattenOnce(s: seq<byte>)
    ensures Flatten([s]) == s
  {
    var one: seq<seq<byte>> := [s];
    assert one[1..] == [];
  }

  /** Pieces that are whole capsules leave nothing behind for the next. */
  lemma TwoFit(s: seq<byte>)
    requires |s| <= MAX_CAPSULE_BUF && Frames(s).1 == []
    ensures UnderCap([], [s] + [s])
  {
    hide Frames;
    var one: seq<seq<byte>> := [s];
    var two := one + one;
    assert [] + s == s && two[1..] == one && one[1..] == [];
    assert UnderCap([], one);
  }

  lemma NothingDrained(queue: nat -> Queue, n: nat)
    ensures Drained([], queue, n) == ([], [])
  {
    NoFrame();
  }

  // ----- One packet -----

  lemma {:induction false} EachWeighs(packets: seq<seq<byte>>, i: nat)
    requires i < |packets|
    ensures CapsuleSize(|packets[i]|) <= Weight(packets)
  {
    hide CapsuleSize;
    if i > 0 {
      EachWeighs(packets[1..], i - 1);
    }
  }

  /** The parser could hold the capsule of each. */
  ghost predicate AllHeld(packets: seq<seq<byte>>) {
    forall i :: 0 <= i < |packets| ==> CapsuleSize(|packets[i]|) <= MAX_CAPSULE_BUF
  }

  lemma HeldTogether(a: seq<seq<byte>>, b: seq<seq<byte>>)
    requires Weight(a) <= MAX_CAPSULE_BUF && AllHeld(b)
    ensures AllHeld(a + b)
  {
    hide Weight, CapsuleSize;
    forall i | 0 <= i < |a + b| ensures CapsuleSize(|(a + b)[i]|) <= MAX_CAPSULE_BUF {
      if i < |a| {
        EachWeighs(a, i);
      }
    }
  }

  /** However bytes are cut up, no packet comes out whose capsule is longer than the parser holds. */
  lemma {:induction false} NoneTooLong(buf: seq<byte>, pieces: seq<seq<byte>>, queue: nat -> Queue, n: nat)
    ensures AllHeld(Fed(buf, pieces, queue, n).0)
    decreases |pieces|
  {
    hide Drained, Weight, CapsuleSize;
    if pieces != [] {
      hide AllHeld;
      var held := Held(buf, pieces[0]);
      var (ps, rest) := Drained(held, queue, n);
      DrainedWeight(held, queue, n);
      NoneTooLong(rest, pieces[1..], queue, n + |ps|);
      HeldTogether(ps, Fed(rest, pieces[1..], queue, n + |ps|).0);
    }
  }

  lemma {:induction false} RestNoLonger(s: seq<byte>)
    ensures |Frames(s).1| <= |s|
    decreases |s|
  {
    hide FirstFrame;
    if FirstFrame(s).Some? {
      RestNoLonger(s[FirstFrame(s).value.1..]);
    }
  }

  /** No push is too much of what the parser could hold as a whole. */
  lemma {:induction false} HeldWhole(buf: seq<byte>, pieces: seq<seq<byte>>)
    requires |buf| + |Flatten(pieces)| <= MAX_CAPSULE_BUF
    ensures UnderCap(buf, pieces)
    decreases |pieces|
  {
    hide Frames;
    if pieces != [] {
      RestNoLonger(buf + pieces[0]);
      HeldWhole(Frames(buf + pieces[0]).1, pieces[1..]);
    }
  }

  /** Exactly which packets can arrive: in any cut, those whose capsule the parser holds. */
  lemma OneArrives(p: IpPacket, pieces: seq<seq<byte>>, queue: nat -> Queue)
    requires WellFormedIp(p) && Flatten(pieces) == CapsuleOf(p) && NeverClosed(queue)
    ensures Fed([], pieces, queue, 0) == ([p], []) <==> |CapsuleOf(p)| <= MAX_CAPSULE_BUF
  {
    OneStream(p);
    hide Fed, UnderCap, CapsuleOf, Stream, WellFormedIp, CapsuleSize;
    NoneTooLong([], pieces, queue, 0);
    if Fed([], pieces, queue, 0) == ([p], []) {
      assert CapsuleSize(|Fed([], pieces, queue, 0).0[0]|) <= MAX_CAPSULE_BUF;
    }
    if |CapsuleOf(p)| <= MAX_CAPSULE_BUF {
      HeldWhole([], pieces);
      PacketsArrive([p], pieces, queue);
    }
  }

  lemma OneStream(p: IpPacket)
    ensures Stream([p]) == CapsuleOf(p) && |CapsuleOf(p)| == CapsuleSize(|p|)
  {
    hide VarintBytes;
    var one: seq<IpPacket> := [p];
    assert one[1..] == [];
  }

  /** An IPv6 packet of 262,144 bytes. */
  function Jumbo(): IpPacket {
    [0x60] + seq(262143, _ => 0)
  }

  /** It is lost in every cut. */
  lemma JumboLost(pieces: seq<seq<byte>>, queue: nat -> Queue)
    requires Flatten(pieces) == Stream([Jumbo()]) && NeverClosed(queue)
    ensures WellFormedIp(Jumbo()) && Fed([], pieces, queue, 0) != ([Jumbo()], [])
  {
    hide Fed, Stream, CapsuleOf;
    OneStream(Jumbo());
    OneArrives(Jumbo(), pieces, queue);
  }

  // ----- When the parser holds it -----

  lemma ShortOfCapsule(p: IpPacket, cut: nat)
    requires cut < |CapsuleOf(p)|
    ensures FirstFrame(CapsuleOf(p)[..cut]).None?
  {
    hide FirstFrame, Encode;
    var whole := CapsuleOf(p);
    assert whole + [] == whole;
    FrameReads(Frame(DATAGRAM, p), []);
    if FirstFrame(whole[..cut]).Some? {
      FrameExtend(whole[..cut], whole);
    }
  }

  /** What is left of part of a stream is shorter than its longest capsule. */
  lemma {:induction false} RestIsShort(packets: seq<IpPacket>, cut: nat, most: nat)
    requires cut <= |Stream(packets)| && forall i :: 0 <= i < |packets| ==> |CapsuleOf(packets[i])| <= most
    ensures |Frames(Stream(packets)[..cut]).1| <= most
  {
    hide FirstFrame, CapsuleOf;
    var part := Stream(packets)[..cut];
    if packets == [] {
      assert part == [];
      NoFrame();
    } else {
      var first := CapsuleOf(packets[0]);
      if cut < |first| {
        assert part == first[..cut];
        ShortOfCapsule(packets[0], cut);
        assert |first| <= most;
      } else {
        var rest := Stream(packets[1..])[..cut - |first|];
        assert part == first + rest && (first + rest)[|first|..] == rest;
        FirstIs(packets[0], rest);
        RestIsShort(packets[1..], cut - |first|, most);
      }
    }
  }

  lemma NoFrame()
    ensures FirstFrame([]).None?
  {
  }

  lemma FirstIs(p: IpPacket, rest: seq<byte>)
    ensures FirstFrame(CapsuleOf(p) + rest) == Some((Frame(DATAGRAM, p), |CapsuleOf(p)|))
  {
    FrameReads(Frame(DATAGRAM, p), rest);
  }

  lemma {:induction false} UnderCapFrom(packets: seq<IpPacket>, x: seq<byte>, pieces: seq<seq<byte>>)
    requires x + Flatten(pieces) == Stream(packets)
    requires forall i :: 0 <= i < |packets| ==> |CapsuleOf(packets[i])| <= MAX_CAPSULE_BUF - H2_MAX_FRAME_SIZE
    requires forall i :: 0 <= i < |pieces| ==> |pieces[i]| <= H2_MAX_FRAME_SIZE
    ensures UnderCap(Frames(x).1, pieces)
    decreases |pieces|
  {
    hide Frames, CapsuleOf, Stream;
    if pieces != [] {
      var y := pieces[0];
      assert x + y + Flatten(pieces[1..]) == x + Flatten(pieces);
      assert Stream(packets)[..|x|] == x;
      RestIsShort(packets, |x|, MAX_CAPSULE_BUF - H2_MAX_FRAME_SIZE);
      FramesSplit(x, y);
      UnderCapFrom(packets, x + y, pieces[1..]);
    }
  }

  /**
   * With chunks no longer than the frames the edge may send, and capsules that leave room for one,
   * the parser never drops anything: such packets arrive however they are cut up.
   */
  lemma FramesArrive(packets: seq<IpPacket>, pieces: seq<seq<byte>>, queue: nat -> Queue)
    requires forall i :: 0 <= i < |packets| ==>
              WellFormedIp(packets[i]) && |CapsuleOf(packets[i])| <= MAX_CAPSULE_BUF - H2_MAX_FRAME_SIZE
    requires forall i :: 0 <= i < |pieces| ==> |pieces[i]| <= H2_MAX_FRAME_SIZE
    requires Flatten(pieces) == Stream(packets) && NeverClosed(queue)
    ensures Fed([], pieces, queue, 0) == (packets, [])
  {
    hide Fed, UnderCap, CapsuleOf, Stream, WellFormedIp;
    assert [] + Flatten(pieces) == Flatten(pieces);
    UnderCapFrom(packets, [], pieces);
    assert Frames([]).1 == [] by { NoFrame(); }
    PacketsArrive(packets, pieces, queue);
  }

  /** And no packet an IP header can give the length of is too long for that. */
  lemma OrdinaryArrive(packets: seq<IpPacket>, pieces: seq<seq<byte>>, queue: nat -> Queue)
    requires forall i :: 0 <= i < |packets| ==> WellFormedIp(packets[i]) && |packets[i]| <= 65535
    requires forall i :: 0 <= i < |pieces| ==> |pieces[i]| <= H2_MAX_FRAME_SIZE
    requires Flatten(pieces) == Stream(packets) && NeverClosed(queue)
    ensures Fed([], pieces, queue, 0) == (packets, [])
  {
    hide Fed, Stream, CapsuleOf, WellFormedIp, NeverClosed;
    forall i | 0 <= i < |packets| ensures |CapsuleOf(packets[i])| <= MAX_CAPSULE_BUF - H2_MAX_FRAME_SIZE {
      OneStream(packets[i]);
    }
    FramesArrive(packets, pieces, queue);
  }
}
