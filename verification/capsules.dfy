/**
 * The capsules of a MASQUE tunnel (section 3.2 of RFC 9297 and section 4.7 of RFC 9484) and the
 * datagrams in them: how they are written, and how they are read from a stream in any pieces.
 */
module Capsules {
  import opened Bytes
  import opened Varint

  const ADDRESS_ASSIGN: nat := 1
  const ADDRESS_REQUEST: nat := 2
  const ROUTE_ADVERTISEMENT: nat := 3
  const DATAGRAM: nat := 0
  const CONTEXT_ID: nat := 0

  /** The most a parser holds. */
  const MAX_CAPSULE_BUF: nat := 256 * 1024

  const VARINT_END: nat := 0x4000_0000_0000_0000

  // ----- One capsule -----

  /** A capsule as it is on the wire. */
  datatype Frame = Frame(kind: nat, value: seq<byte>)

  predicate Writable(f: Frame) {
    f.kind < VARINT_END && |f.value| < VARINT_END
  }

  function Encode(f: Frame): (s: seq<byte>)
    requires Writable(f)
    ensures |s| >= 2
  {
    PutVarint(f.kind) + PutVarint(|f.value|) + f.value
  }

  /** `append_capsule`: the capsule goes onto the end of what is there. */
  method AppendCapsule(out: seq<byte>, kind: nat, value: seq<byte>) returns (longer: seq<byte>)
    requires Writable(Frame(kind, value))
    ensures longer == out + Encode(Frame(kind, value))
    ensures |longer| == |out| + VarintLen(kind) + VarintLen(|value|) + |value|
  {
    longer := out;
    longer := longer + PutVarint(kind);
    longer := longer + PutVarint(|value|);
    longer := longer + value;
  }

  /** The capsule `s` starts with, and how many bytes it takes; none when `s` ends before it does. */
  function FirstFrame(s: seq<byte>): (r: Option<(Frame, nat)>)
    ensures r.Some? ==> 2 <= r.value.1 <= |s|
  {
    match GetVarint(s)
    case None => None
    case Some((kind, a)) =>
      match GetVarint(s[a..])
      case None => None
      case Some((size, b)) =>
        if |s| - a - b < size then None else Some((Frame(kind, s[a + b..a + b + size]), a + b + size))
  }

  /** A capsule reads back as written, whatever follows it. */
  lemma FrameReads(f: Frame, rest: seq<byte>)
    requires Writable(f)
    ensures FirstFrame(Encode(f) + rest) == Some((f, |Encode(f)|))
  {
    hide VarintBytes, GetVarint;
    var a, b := VarintLen(f.kind), VarintLen(|f.value|);
    var kind, size := VarintBytes(f.kind, a), VarintBytes(|f.value|, b);
    FrameParts(kind, size, f.value, rest);
    VarintReads(f.kind, a, size + (f.value + rest));
    VarintReads(|f.value|, b, f.value + rest);
  }

  lemma FrameParts(kind: seq<byte>, size: seq<byte>, value: seq<byte>, rest: seq<byte>)
    ensures var s := kind + size + value + rest;
            && s == kind + (size + (value + rest)) && s[|kind|..] == size + (value + rest)
            && s[|kind| + |size|..|kind| + |size| + |value|] == value
  {
    Associates(kind + size, value, rest);
    Associates(kind, size, value + rest);
    Behind(kind + size, value + rest, 0, |value|);
  }

  /** More bytes change nothing of a capsule that has come. */
  lemma FrameExtend(s: seq<byte>, more: seq<byte>)
    requires s <= more && FirstFrame(s).Some?
    ensures FirstFrame(more) == FirstFrame(s)
  {
    hide GetVarint;
    var (kind, a) := GetVarint(s).value;
    var (size, b) := GetVarint(s[a..]).value;
    VarintExtend(s, more);
    VarintExtend(s[a..], more[a..]);
    assert s[a + b..a + b + size] == more[a + b..a + b + size];
  }

  /** What is left once every capsule that has come is taken off. */
  function Frames(s: seq<byte>): (r: (seq<Frame>, seq<byte>))
    decreases |s|
  {
    match FirstFrame(s)
    case None => ([], s)
    case Some((f, n)) => var (fs, rest) := Frames(s[n..]); ([f] + fs, rest)
  }

  /** Capsules come off a stream the same however it is cut up. */
  lemma {:induction false} FramesSplit(s: seq<byte>, more: seq<byte>)
    ensures var (fs, rest) := Frames(s);
            Frames(s + more) == (fs + Frames(rest + more).0, Frames(rest + more).1)
    decreases |s|
  {
    hide FirstFrame;
    match FirstFrame(s)
    case None =>
      assert [] + Frames(s + more).0 == Frames(s + more).0;
    case Some((f, n)) =>
      FrameExtend(s, s + more);
      assert (s + more)[n..] == s[n..] + more;
      FramesSplit(s[n..], more);
      var (fs, rest) := Frames(s[n..]);
      assert [f] + (fs + Frames(rest + more).0) == [f] + fs + Frames(rest + more).0;
  }

  // ----- IP datagrams -----

  predicate LooksLikeIp(data: seq<byte>) {
    data != [] && (data[0] / 16 == 4 || data[0] / 16 == 6) && |data| >= 20
  }

  /** The packet of a datagram, behind a context ID or bare. */
  function StripContext(payload: seq<byte>): Option<seq<byte>> {
    if payload == [] then None
    else match GetVarint(payload)
      case Some((ctx, n)) =>
        if ctx == CONTEXT_ID && LooksLikeIp(payload[n..]) then Some(payload[n..]) else Bare(payload)
      case None => Bare(payload)
  }

  function Bare(payload: seq<byte>): Option<seq<byte>> {
    if LooksLikeIp(payload) then Some(payload) else None
  }

  /** An IPv4 packet has a header of at least five words. */
  predicate WellFormedIp(p: seq<byte>) {
    LooksLikeIp(p) && (p[0] / 16 == 4 ==> p[0] % 16 >= 5)
  }

  /**
   * A bare packet comes back as it is exactly when it looks like one, and does not start with the
   * bytes of a context ID of its own before something that looks like a packet too.
   */
  lemma BareComesBack(p: seq<byte>)
    ensures StripContext(p) == Some(p) <==> LooksLikeIp(p) && !(p[0] == 0x40 && p[1] == 0 && LooksLikeIp(p[2..]))
  {
    if LooksLikeIp(p) {
      assert FromBigEndian(p[1..2]) == p[1] by { assert p[1..2][..0] == []; }
      assert GetVarint(p) == Some(((p[0] % 64) * 256 + p[1] as int, 2));
    }
  }

  lemma WellFormedComesBack(p: seq<byte>)
    requires WellFormedIp(p)
    ensures StripContext(p) == Some(p)
  {
    BareComesBack(p);
  }

  /** The one kind of packet that does not: it is taken for a context ID and a shorter packet. */
  lemma TakenForContext()
    ensures var inner := [0x45] + seq(19, _ => 0);
            LooksLikeIp([0x40, 0] + inner) && StripContext([0x40, 0] + inner) != Some([0x40, 0] + inner)
  {
    var inner: seq<byte> := [0x45] + seq(19, _ => 0);
    assert ([0x40, 0] + inner)[2..] == inner;
    BareComesBack([0x40, 0] + inner);
  }

  /** Behind a context ID, any packet comes back. */
  lemma FramedComesBack(p: seq<byte>, n: nat)
    requires LooksLikeIp(p) && Width(n)
    ensures StripContext(VarintBytes(CONTEXT_ID, n) + p) == Some(p)
  {
    VarintReads(CONTEXT_ID, n, p);
    assert (VarintBytes(CONTEXT_ID, n) + p)[n..] == p;
  }

  // ----- HTTP/3 datagrams -----

  function EncodeIpDatagram(stream: nat, packet: seq<byte>): seq<byte>
    requires stream / 4 < VARINT_END
  {
    PutVarint(stream / 4) + PutVarint(CONTEXT_ID) + packet
  }

  datatype Datagram = TooShort | NotOurs | Packet(data: seq<byte>)

  function DecodeIpDatagram(datagram: seq<byte>, stream: nat): Datagram {
    match GetVarint(datagram)
    case None => TooShort
    case Some((quarter, a)) =>
      if quarter != stream / 4 then NotOurs
      else match GetVarint(datagram[a..])
        case None => TooShort
        case Some((ctx, b)) => if ctx != CONTEXT_ID then NotOurs else Packet(datagram[a + b..])
  }

  /** A datagram goes to its own stream, with its packet as it was, and to no other request stream. */
  lemma IpDatagramReads(stream: nat, other: nat, packet: seq<byte>)
    requires stream / 4 < VARINT_END
    ensures DecodeIpDatagram(EncodeIpDatagram(stream, packet), stream) == Packet(packet)
    ensures other / 4 != stream / 4 ==> DecodeIpDatagram(EncodeIpDatagram(stream, packet), other) == NotOurs
  {
    var s := EncodeIpDatagram(stream, packet);
    var a := VarintLen(stream / 4);
    assert s == VarintBytes(stream / 4, a) + (PutVarint(CONTEXT_ID) + packet);
    VarintReads(stream / 4, a, PutVarint(CONTEXT_ID) + packet);
    assert s[a..] == VarintBytes(CONTEXT_ID, 1) + packet;
    VarintReads(CONTEXT_ID, 1, packet);
  }
}
