/**
 * Answers as a server writes them: interim answers, a head, and a body by its length or in chunks.
 * They read back as written, and turn whole on their last byte and not before.
 */
module HttpWhole {
  import opened Bytes
  import opened Search
  import opened HttpChunked
  import opened HttpEncoding
  import opened HttpAnswer
  import opened HttpSplit

  datatype WireBody =
    | Counted(bytes: seq<byte>)
    | InChunks(chunks: seq<Chunk>, zeros: nat, ext: seq<byte>, trailer: seq<seq<byte>>)

  datatype Message = Message(interims: seq<seq<byte>>, text: seq<byte>, body: WireBody)

  function BodyBytes(b: WireBody): seq<byte> {
    match b
    case Counted(bytes) => bytes
    case InChunks(chunks, zeros, ext, trailer) => Encode(chunks, zeros, ext, trailer)
  }

  function Content(b: WireBody): seq<byte> {
    match b
    case Counted(bytes) => bytes
    case InChunks(chunks, _, _, _) => Join(chunks)
  }

  function EncodeHeads(interims: seq<seq<byte>>, text: seq<byte>): seq<byte> {
    if interims == [] then text + HEAD_END else interims[0] + HEAD_END + EncodeHeads(interims[1..], text)
  }

  function Wire(m: Message): seq<byte> {
    EncodeHeads(m.interims, m.text) + BodyBytes(m.body)
  }

  /** The end of a head is the first there is. */
  predicate HeadText(text: seq<byte>) {
    Find(text + HEAD_END, HEAD_END, 0) == Some(|text|)
  }

  predicate InterimText(read: HeadReader, text: seq<byte>) {
    HeadText(text) && read(text).Some? && Interim(read(text).value.0)
  }

  /** The head says how its body ends. */
  ghost predicate Honest(read: HeadReader, m: Message) {
    && (forall i :: 0 <= i < |m.interims| ==> InterimText(read, m.interims[i]))
    && HeadText(m.text) && read(m.text).Some? && !Interim(read(m.text).value.0)
    && match m.body
       case Counted(bytes) => FramingOf(read(m.text).value.0, read(m.text).value.1) == Ok(Length(|bytes|))
       case InChunks(chunks, zeros, ext, trailer) =>
         && FramingOf(read(m.text).value.0, read(m.text).value.1) == Ok(Chunked)
         && Sendable(chunks, zeros, ext, trailer)
  }

  /** What stands at `start` of `raw` is looked at there. */
  lemma MatchThere(raw: seq<byte>, start: nat, s: seq<byte>, rest: seq<byte>, i: nat)
    requires start <= |raw| && raw[start..] == s + rest && i + 4 <= |s|
    ensures MatchAt(raw, HEAD_END, start + i) == MatchAt(s, HEAD_END, i)
  {
    assert start + |s| <= |raw|;
    assert raw[start + i..start + i + 4] == raw[start..][i..i + 4] == s[i..i + 4];
  }

  lemma PartsThere(raw: seq<byte>, start: nat, a: seq<byte>, b: seq<byte>, rest: seq<byte>)
    requires start <= |raw| && raw[start..] == a + b + rest
    ensures start + |a| + |b| <= |raw| && raw[start..start + |a|] == a && raw[start + |a| + |b|..] == rest
  {
    ThreeParts(a, b, rest);
    var there := raw[start..];
    assert |there| == |a| + |b| + |rest|;
    assert raw[start..start + |a|] == there[..|a|] && raw[start + |a| + |b|..] == there[|a| + |b|..];
  }

  lemma HeadTextAt(raw: seq<byte>, start: nat, text: seq<byte>, rest: seq<byte>)
    requires start <= |raw| && raw[start..] == text + HEAD_END + rest && HeadText(text)
    ensures start + |text| + 4 <= |raw|
    ensures Find(raw, HEAD_END, start) == Some(start + |text|)
    ensures raw[start..start + |text|] == text && raw[start + |text| + 4..] == rest
  {
    hide Find, MatchAt;
    var s := text + HEAD_END;
    PartsThere(raw, start, text, HEAD_END, rest);
    FindFirst(s, HEAD_END, 0);
    forall i | start <= i <= start + |text| ensures MatchAt(raw, HEAD_END, i) == MatchAt(s, HEAD_END, i - start) {
      MatchThere(raw, start, s, rest, i - start);
    }
    FindIs(raw, HEAD_END, start, start + |text|);
  }

  lemma {:induction false} HeadsRead(read: HeadReader, raw: seq<byte>, start: nat, interims: seq<seq<byte>>,
        text: seq<byte>, body: seq<byte>)
    requires start <= |raw| && raw[start..] == EncodeHeads(interims, text) + body
    requires forall i :: 0 <= i < |interims| ==> InterimText(read, interims[i])
    requires HeadText(text) && HeadAt(read, text, 0).Found?
    ensures |body| <= |raw| && raw[|raw| - |body|..] == body
    ensures ReadHead(read, raw, start) == HeadAt(read, text, |raw| - |body|)
    decreases |interims|
  {
    hide FramingOf, HeadText, Find;
    if interims == [] {
      HeadTextAt(raw, start, text, body);
    } else {
      assert InterimText(read, interims[0]);
      var rest := EncodeHeads(interims[1..], text) + body;
      assert raw[start..] == interims[0] + HEAD_END + rest by {
        assert interims[0] + HEAD_END + EncodeHeads(interims[1..], text) + body == interims[0] + HEAD_END + rest;
      }
      HeadTextAt(raw, start, interims[0], rest);
      HeadsRead(read, raw, start + |interims[0]| + 4, interims[1..], text, body);
    }
  }

  /** What `cut` bytes of a message say of its head. */
  lemma MessageHead(read: HeadReader, m: Message, cut: nat) returns (head: Head)
    requires Honest(read, m) && cut <= |Wire(m)|
    ensures head.status == read(m.text).value.0 && head.fields == read(m.text).value.1
    ensures head.ending == match m.body case Counted(bytes) => Length(|bytes|) case InChunks(_, _, _, _) => Chunked
    ensures head.bodyStart <= |Wire(m)| && Wire(m)[head.bodyStart..] == BodyBytes(m.body)
    ensures ReadHead(read, Wire(m), 0) == Found(head)
    ensures var h := ReadHead(read, Wire(m)[..cut], 0); h == Found(head) || h.NoHead?
    ensures cut < head.bodyStart ==> ReadHead(read, Wire(m)[..cut], 0).NoHead?
  {
    hide FramingOf;
    var raw := Wire(m);
    assert raw[0..] == raw;
    HeadsRead(read, raw, 0, m.interims, m.text, BodyBytes(m.body));
    head := ReadHead(read, raw, 0).head;
    HeadExtend(read, raw[..cut], raw, 0);
  }

  /** Whole on the last byte, and not before; nothing on the way is refused. */
  lemma WholeOnLastByte(read: HeadReader, m: Message, cut: nat)
    requires Honest(read, m) && cut <= |Wire(m)| <= MAX_BODY
    ensures WholeIf(read, Wire(m)[..cut], cut == |Wire(m)|, read(m.text).value.0, read(m.text).value.1, Content(m.body))
  {
    hide ReadHead, FramingOf, Honest, Pushed, WholeIf;
    var raw := Wire(m);
    var part := raw[..cut];
    var head := MessageHead(read, m, cut);
    if ReadHead(read, part, 0) == Found(head) {
      var seen := cut - head.bodyStart;
      assert part[head.bodyStart..] == BodyBytes(m.body)[..seen];
      match m.body
      case Counted(bytes) =>
        CountedPart(read, part, head, bytes, seen);
      case InChunks(chunks, zeros, ext, trailer) =>
        HonestChunks(read, m);
        ChunkedPart(read, part, head, chunks, zeros, ext, trailer, seen);
    } else {
      assert cut == |raw| ==> part == raw;
      HeadlessPart(read, part, head.status, head.fields, Content(m.body));
    }
  }

  /** `part` is taken, and is whole exactly when `whole` says so, and then gives this answer. */
  ghost predicate WholeIf(read: HeadReader, part: seq<byte>, whole: bool, status: nat, fields: seq<Field>,
        content: seq<byte>) {
    var p := Pushed(read, EMPTY, part);
    && p.Ok? && p.value.1 == whole && Sound(p.value.0)
    && (whole ==> Finished(p.value.0) == Ok((status, fields, content)))
  }

  lemma HeadlessPart(read: HeadReader, part: seq<byte>, status: nat, fields: seq<Field>, content: seq<byte>)
    requires |part| <= MAX_BODY && ReadHead(read, part, 0).NoHead?
    ensures WholeIf(read, part, false, status, fields, content)
  {
    hide ReadHead, OnBody, Finished, Opened;
    assert [] + part == part;
  }

  lemma CountedPart(read: HeadReader, part: seq<byte>, head: Head, bytes: seq<byte>, seen: nat)
    requires |part| <= MAX_BODY && ReadHead(read, part, 0) == Found(head) && head.ending == Length(|bytes|)
    requires seen <= |bytes| && part[head.bodyStart..] == bytes[..seen]
    ensures WholeIf(read, part, seen == |bytes|, head.status, head.fields, bytes)
  {
    hide ReadHead, Dechunked;
    assert [] + part == part;
    if seen == |bytes| {
      assert bytes[..seen] == bytes;
    }
  }

  lemma ChunkedPart(read: HeadReader, part: seq<byte>, head: Head, chunks: seq<Chunk>, zeros: nat, ext: seq<byte>,
        trailer: seq<seq<byte>>, seen: nat)
    requires |part| <= MAX_BODY && ReadHead(read, part, 0) == Found(head) && head.ending.Chunked?
    requires Sendable(chunks, zeros, ext, trailer) && |Encode(chunks, zeros, ext, trailer)| <= MAX_BODY
    requires seen <= |Encode(chunks, zeros, ext, trailer)|
    requires part[head.bodyStart..] == Encode(chunks, zeros, ext, trailer)[..seen]
    ensures WholeIf(read, part, seen == |Encode(chunks, zeros, ext, trailer)|, head.status, head.fields, Join(chunks))
  {
    hide ReadHead, Dechunked, Encode, Sendable, ShortLines;
    assert [] + part == part;
    RoundTrip(chunks, zeros, ext, trailer, seen);
  }

  lemma HonestChunks(read: HeadReader, m: Message)
    requires Honest(read, m) && m.body.InChunks?
    ensures Sendable(m.body.chunks, m.body.zeros, m.body.ext, m.body.trailer)
  {
  }

  lemma MessageLinesShort(read: HeadReader, m: Message)
    requires Honest(read, m) && |Wire(m)| <= MAX_BODY
    ensures AllLinesShort(read, Wire(m))
  {
    hide ReadHead, Honest, Sendable;
    var raw := Wire(m);
    var head := MessageHead(read, m, 0);
    if m.body.InChunks? {
      HonestChunks(read, m);
      RoundTrip(m.body.chunks, m.body.zeros, m.body.ext, m.body.trailer, 0);
    }
  }

  /** However the network cuts a message up, it reads back as its status, its fields and its content. */
  lemma MessageRoundTrip(read: HeadReader, m: Message, pieces: seq<seq<byte>>)
    requires Honest(read, m) && |Wire(m)| <= MAX_BODY && Flatten(pieces) == Wire(m)
    ensures Received(read, EMPTY, pieces) == Ok((read(m.text).value.0, read(m.text).value.1, Content(m.body)))
  {
    hide Honest, AllLinesShort, Pushed, Finished, Wire;
    var raw := Wire(m);
    MessageLinesShort(read, m);
    SplitOrRefused(read, pieces);
    WholeOnLastByte(read, m, |raw|);
    assert raw[..|raw|] == raw;
    AtOnceIs(read, raw);
  }

  /** The body is read the way the head says it ends. */
  predicate Framed(a: Answer) {
    Sound(a) && (a.body.Counting? <==> a.head.None? || !a.head.value.ending.Chunked?)
  }

  /**
   * With a length or in chunks, an answer is good after a push exactly when that push said it was
   * whole; one that ends with the connection is always good and never whole.
   */
  lemma GoodExactlyWhenWhole(read: HeadReader, a: Answer, bytes: seq<byte>)
    requires Framed(a) && Pushed(read, a, bytes).Ok?
    ensures Framed(EMPTY)
    ensures var (next, whole) := Pushed(read, a, bytes).value;
            && Framed(next)
            && (Finished(next).Ok? <==> whole || (next.head.Some? && next.head.value.ending.Close?))
            && (next.head.Some? && next.head.value.ending.Close? ==> !whole)
  {
    PushedSound(read, a, bytes);
  }

  /** An answer that is not whole yet, in any run. */
  ghost predicate Unfinished(a: Answer) {
    Framed(a) && (Finished(a).Ok? <==> a.head.Some? && a.head.value.ending.Close?)
  }

  /** What the last push of a run comes to: an error, or the answer and whether it is whole. */
  function LastPush(read: HeadReader, a: Answer, pieces: seq<seq<byte>>): Result<(Answer, bool), Error>
    requires Sound(a)
    decreases |pieces|
  {
    if pieces == [] then Ok((a, false))
    else
      PushedSound(read, a, pieces[0]);
      match Pushed(read, a, pieces[0])
      case Ok((next, false)) => LastPush(read, next, pieces[1..])
      case last => last
  }

  /**
   * Over every run: the answer is good exactly when nothing was refused and the last push said it
   * was whole, or it is one that ends with the connection, which no push calls whole.
   */
  lemma {:induction false} GoodRun(read: HeadReader, a: Answer, pieces: seq<seq<byte>>)
    requires Unfinished(a)
    ensures Unfinished(EMPTY)
    ensures match LastPush(read, a, pieces)
            case Err(e) => Received(read, a, pieces) == Err(e)
            case Ok((last, whole)) =>
              && Framed(last) && Received(read, a, pieces) == Finished(last)
              && var byClose := last.head.Some? && last.head.value.ending.Close?;
              !(whole && byClose) && (Received(read, a, pieces).Ok? <==> whole || byClose)
    decreases |pieces|
  {
    hide Pushed, Finished;
    assert Unfinished(EMPTY) by { EmptyUnfinished(); }
    if pieces == [] {
      hide Framed;
    } else if Pushed(read, a, pieces[0]).Ok? {
      GoodExactlyWhenWhole(read, a, pieces[0]);
      var (next, whole) := Pushed(read, a, pieces[0]).value;
      if !whole {
        GoodRun(read, next, pieces[1..]);
      }
    }
  }

  lemma EmptyUnfinished()
    ensures Unfinished(EMPTY)
  {
  }
}
