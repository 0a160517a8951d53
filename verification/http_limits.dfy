/** The limits of an HTTP/1.1 answer: a line that is too long for some cuts, and an answer that is too large. */
module HttpLimits {
  import opened Bytes
  import opened Search
  import opened Text
  import opened HttpChunked
  import opened HttpEncoding
  import opened HttpAnswer
  import opened HttpSplit
  import opened HttpWhole

  // ----- A long line -----

  /** A body of one chunk. */
  function OneChunk(c: Chunk): seq<byte> {
    EncodeChunk(c) + Encode([], 1, [], [])
  }

  /** It reads back however long its size line is, once all of it is there. */
  lemma OneChunkReads(c: Chunk)
    requires Formed(c) && |OneChunk(c)| <= USIZE_MAX
    ensures Dechunked(OneChunk(c), START) == Complete(|OneChunk(c)|, c.data)
    ensures |LineOf(c)| >= MAX_LINE ==> !ShortLines(OneChunk(c), START)
  {
    var b, last := OneChunk(c), Encode([], 1, [], []);
    hide Dechunked, ShortLines, LongLine, SizeLine, Encode, LineOf;
    assert b[0..] == EncodeChunk(c) + last;
    var next := ChunkReads(b, START, c, last);
    LastIsSendable();
    LastReads(b, next, 1, [], []);
    assert [] + c.data == c.data;
    if LongLine(b, START) {
      LongIsNotShort(b);
    }
  }

  lemma LastIsSendable()
    ensures Sendable([], 1, [], [])
  {
    HexIsPlain(0);
    assert SizeText(1, 0) == "0";
  }

  lemma LongIsNotShort(b: seq<byte>)
    requires LongLine(b, START)
    ensures !ShortLines(b, START)
  {
  }

  /** An answer of one chunk whose size line is long reads well at once and is refused in two pieces. */
  lemma LongLineInTwo(read: HeadReader, text: seq<byte>, c: Chunk) returns (pieces: seq<seq<byte>>)
    requires HeadText(text) && HeadAt(read, text, 0).Found? && HeadAt(read, text, 0).head.ending.Chunked?
    requires Formed(c) && |LineOf(c)| >= MAX_LINE && |text + HEAD_END + OneChunk(c)| <= MAX_BODY
    ensures Flatten(pieces) == text + HEAD_END + OneChunk(c)
    ensures AtOnce(read, Flatten(pieces)) == Ok((read(text).value.0, read(text).value.1, c.data))
    ensures Received(read, EMPTY, pieces) == Err(TOO_LONG)
  {
    hide Dechunked, ShortLines, OneChunk, LineOf, HeadText, FramingOf, ReadHead, Received, AtOnce;
    var body := OneChunk(c);
    var raw := text + HEAD_END + body;
    OneChunkReads(c);
    BodyBehind(read, text, body);
    ReadsAtOnce(read, raw, ReadHead(read, raw, 0).head, c.data);
    pieces := RefusedCut(read, raw);
  }

  lemma BodyBehind(read: HeadReader, text: seq<byte>, body: seq<byte>)
    requires HeadText(text) && HeadAt(read, text, 0).Found?
    ensures var raw := text + HEAD_END + body;
            && ReadHead(read, raw, 0).Found?
            && var head := ReadHead(read, raw, 0).head;
            && head.bodyStart <= |raw| && raw[head.bodyStart..] == body
            && head.ending == HeadAt(read, text, 0).head.ending
            && (head.status, head.fields) == read(text).value
  {
    hide HeadText, FramingOf, ReadHead;
    var raw := text + HEAD_END + body;
    assert raw[0..] == EncodeHeads([], text) + body;
    HeadsRead(read, raw, 0, [], text, body);
  }

  lemma ReadsAtOnce(read: HeadReader, raw: seq<byte>, head: Head, content: seq<byte>)
    requires |raw| <= MAX_BODY && ReadHead(read, raw, 0) == Found(head) && head.ending.Chunked?
    requires var body := raw[head.bodyStart..]; Dechunked(body, START) == Complete(|body|, content)
    ensures AtOnce(read, raw) == Ok((head.status, head.fields, content))
  {
    hide ReadHead, Dechunked, AtOnce;
    assert [] + raw == raw;
    AtOnceIs(read, raw);
  }

  /** A chunk of one byte behind an extension as long as a line may be. */
  function LongChunk(): Chunk {
    Chunk([120], 0, [59] + seq(MAX_LINE, _ => 97))
  }

  const STATUS_LINE: seq<byte> := Ascii("HTTP/1.1 200 OK")
  const CODING: seq<byte> := Ascii("Transfer-Encoding: chunked")
  const HEAD_TEXT: seq<byte> := STATUS_LINE + CRLF + CODING

  /** One such answer, for every reader that finds in its head what is written there. */
  lemma LongLineExample(read: HeadReader) returns (pieces: seq<seq<byte>>)
    requires read(HEAD_TEXT) == Some((200, [("Transfer-Encoding", "chunked")]))
    ensures Flatten(pieces) == HEAD_TEXT + HEAD_END + OneChunk(LongChunk())
    ensures AtOnce(read, Flatten(pieces)) == Ok((200, [("Transfer-Encoding", "chunked")], [120]))
    ensures Received(read, EMPTY, pieces) == Err(TOO_LONG)
  {
    TwoLines(STATUS_LINE, CODING);
    ChunkedHead(read, HEAD_TEXT);
    LongIsFormed();
    hide Encode, Ascii;
    pieces := LongLineInTwo(read, HEAD_TEXT, LongChunk());
  }

  /** Two lines of a head, the second one not empty, are no more than a head. */
  lemma TwoLines(first: seq<byte>, second: seq<byte>)
    requires 13 !in first && 13 !in second && second != [] && second[0] != 10
    ensures HeadText(first + CRLF + second)
  {
    var text := first + CRLF + second;
    var s := text + HEAD_END;
    assert s[|text|..|text| + 4] == HEAD_END;
    assert s[|first|] == 13 && s[|first| + 1] == 10 && s[|first| + 2] == second[0];
    forall i | 0 <= i < |text| ensures !MatchAt(s, HEAD_END, i) {
      if i == |first| {
        assert s[i..i + 4][2] == s[i + 2];
      } else {
        assert s[i] == text[i] && (i + 4 <= |s| ==> s[i..i + 4][0] == s[i]);
      }
    }
    FindIs(s, HEAD_END, 0, |text|);
  }

  /** The name of the field is not compared as it is written. */
  lemma ChunkedHead(read: HeadReader, text: seq<byte>)
    requires read(text) == Some((200, [("Transfer-Encoding", "chunked")]))
    ensures HeadAt(read, text, 0) == Found(Head(200, [("Transfer-Encoding", "chunked")], 0, Chunked))
  {
    assert AsciiLower("Transfer-Encoding") == "transfer-encoding";
    assert AsciiLower("chunked") == "chunked";
    assert MatchAt("chunked", "chunked", 0);
  }

  lemma LongIsFormed()
    ensures Formed(LongChunk()) && |LineOf(LongChunk())| >= MAX_LINE
    ensures |HEAD_TEXT + HEAD_END + OneChunk(LongChunk())| <= MAX_BODY
  {
    var letters := seq(MAX_LINE, _ => 'a');
    var ext := LongChunk().ext;
    assert ext == Ascii(";" + letters) + [];
    FromUtf8AfterAscii(";" + letters, []);
    PlainIsOneLine(ext);
    hide FromUtf8, OneLine, Ascii;
    ChunkLength(LongChunk());
    assert SizeText(0, 1) == "1" by { OneIs(); }
    LastLength();
  }

  lemma OneIs()
    ensures SizeText(0, 1) == "1"
  {
    assert HexOf(1) == HexOf(0) + "1";
  }

  lemma PlainIsOneLine(s: seq<byte>)
    requires 13 !in s
    ensures OneLine(s)
  {
    forall i ensures !MatchAt(s, CRLF, i) {
      if 0 <= i && i + 2 <= |s| {
        assert s[i..i + 2][0] == s[i];
      }
    }
  }

  lemma ChunkLength(c: Chunk)
    ensures |EncodeChunk(c)| == |SizeText(c.zeros, |c.data|)| + |c.ext| + |c.data| + 4
    ensures |LineOf(c)| == |SizeText(c.zeros, |c.data|)| + |c.ext|
  {
  }

  lemma LastLength()
    ensures |Encode([], 1, [], [])| == 5
  {
    assert SizeText(1, 0) == "0";
  }

  // ----- An answer that is too large -----

  /**
   * What an answer gives that goes past the limit with the piece after the bytes `x`: nothing,
   * unless `x` decides it.
   */
  function Limited(read: HeadReader, x: seq<byte>): Result<Response, Error> {
    match Pushed(read, EMPTY, x)
    case Ok((_, false)) => Err(TooLarge)
    case _ => AtOnce(read, x)
  }

  ghost predicate LimitedOrRefused(read: HeadReader, x: seq<byte>, r: Result<Response, Error>) {
    r == Limited(read, x) || (r == Err(TOO_LONG) && !AllLinesShort(read, x))
  }

  lemma {:induction false} OverLimitFrom(read: HeadReader, x: seq<byte>, a: Answer, before: seq<seq<byte>>,
        p: seq<byte>, after: seq<seq<byte>>)
    requires Pushed(read, EMPTY, x) == Ok((a, false)) && Sound(a)
    requires |x + Flatten(before)| <= MAX_BODY < |x + Flatten(before)| + |p|
    ensures LimitedOrRefused(read, x + Flatten(before), Received(read, a, before + ([p] + after)))
    decreases |before|
  {
    hide Finished, AllLinesShort, AtOnce;
    PushedSound(read, EMPTY, x);
    assert a.raw == x;
    var pieces := before + ([p] + after);
    if before == [] {
      assert pieces == [p] + after && x + Flatten(before) == x;
    } else {
      hide Pushed;
      var y, rest := before[0], Flatten(before[1..]);
      assert x + Flatten(before) == (x + y) + rest;
      ConsAppend(before, [p] + after);
      PushExtend(read, x, y);
      PushedSound(read, a, y);
      PushExtend(read, x + y, rest);
      AtOnceIs(read, (x + y) + rest);
      if Pushed(read, a, y).Ok? && !Pushed(read, a, y).value.1 {
        OverLimitFrom(read, x + y, Pushed(read, a, y).value.0, before[1..], p, after);
      }
    }
  }

  lemma {:induction false} FirstOver(pieces: seq<seq<byte>>, room: nat) returns (k: nat)
    requires |Flatten(pieces)| > room
    ensures k < |pieces| && |Flatten(pieces[..k])| <= room < |Flatten(pieces[..k])| + |pieces[k]|
    decreases |pieces|
  {
    if |pieces[0]| > room {
      k := 0;
    } else {
      var j := FirstOver(pieces[1..], room - |pieces[0]|);
      k := j + 1;
      assert pieces[..k][1..] == pieces[1..][..j] && pieces[..k][0] == pieces[0];
    }
  }

  /**
   * An answer past the limit, in any cuts: it is too large, unless what came before the piece that
   * goes past the limit is already whole or refused, and then it is what that gives at once; or a
   * cut inside a long line of that part is refused.
   */
  lemma OverLimit(read: HeadReader, pieces: seq<seq<byte>>) returns (k: nat)
    requires |Flatten(pieces)| > MAX_BODY
    ensures k < |pieces| && |Flatten(pieces[..k])| <= MAX_BODY < |Flatten(pieces[..k])| + |pieces[k]|
    ensures LimitedOrRefused(read, Flatten(pieces[..k]), Received(read, EMPTY, pieces))
  {
    hide LimitedOrRefused;
    k := FirstOver(pieces, MAX_BODY);
    assert pieces == pieces[..k] + ([pieces[k]] + pieces[k + 1..]);
    assert [] + Flatten(pieces[..k]) == Flatten(pieces[..k]);
    NothingPushed(read);
    OverLimitFrom(read, [], EMPTY, pieces[..k], pieces[k], pieces[k + 1..]);
  }

  lemma NothingPushed(read: HeadReader)
    ensures Pushed(read, EMPTY, []) == Ok((EMPTY, false)) && Sound(EMPTY)
  {
  }
}
