/** What an HTTP/1.1 answer reads as does not depend on how the network cut it up. */
module HttpSplit {
  import opened Bytes
  import opened Search
  import opened HttpChunked
  import opened HttpAnswer

  const TOO_LONG: Error := BadBody(LineTooLong)

  /** Whether each line that the chunked body of `raw` ends, if it has one, is shorter than `MAX_LINE`. */
  predicate AllLinesShort(read: HeadReader, raw: seq<byte>) {
    match ReadHead(read, raw, 0)
    case Found(head) => head.ending.Chunked? ==> ShortLines(raw[head.bodyStart..], START)
    case _ => true
  }

  /**
   * Whether the chunked body of `raw`, if it has one, comes to a line without an end that is longer
   * than a line may be.
   */
  predicate EndsInLongLine(read: HeadReader, raw: seq<byte>) {
    match ReadHead(read, raw, 0)
    case Found(head) => head.ending.Chunked? && Endless(raw[head.bodyStart..], START)
    case _ => false
  }

  /** What one read of everything gives. */
  function AtOnce(read: HeadReader, raw: seq<byte>): Result<Response, Error> {
    Received(read, EMPTY, [raw])
  }

  /** That is when one read of everything is refused for a line too long. */
  lemma RefusedAtOnce(read: HeadReader, raw: seq<byte>)
    requires |raw| <= MAX_BODY
    ensures AtOnce(read, raw) == Err(TOO_LONG) <==> EndsInLongLine(read, raw)
  {
    hide Dechunked, Endless, ReadHead;
    assert [] + raw == raw;
    HeadError(read, raw, 0);
    if ReadHead(read, raw, 0).Found? {
      EndlessExactly(raw[ReadHead(read, raw, 0).head.bodyStart..], START);
    }
    AtOnceIs(read, raw);
  }

  /** A head is never refused for a line of the body. */
  lemma {:induction false} HeadError(read: HeadReader, raw: seq<byte>, start: nat)
    requires start <= |raw|
    ensures ReadHead(read, raw, start) != BadHead(TOO_LONG)
    decreases |raw| - start
  {
    hide Find;
    if Find(raw, HEAD_END, start).Some? {
      HeadError(read, raw, Find(raw, HEAD_END, start).value + 4);
    }
  }

  lemma AtOnceIs(read: HeadReader, raw: seq<byte>)
    ensures match Pushed(read, EMPTY, raw)
            case Err(e) => AtOnce(read, raw) == Err(e)
            case Ok((a, _)) => Sound(a) && AtOnce(read, raw) == Finished(a)
  {
    hide Pushed, Finished;
    PushedSound(read, EMPTY, raw);
    var one: seq<seq<byte>> := [raw];
    assert one[1..] == [];
    if Pushed(read, EMPTY, raw).Ok? {
      var (a, whole) := Pushed(read, EMPTY, raw).value;
      assert Received(read, a, one[1..]) == Finished(a);
    }
  }

  lemma {:induction false} HeadExtend(read: HeadReader, raw: seq<byte>, more: seq<byte>, start: nat)
    requires start <= |raw| && raw <= more
    ensures match ReadHead(read, raw, start)
            case NoHead(s) => ReadHead(read, more, start) == ReadHead(read, more, s)
            case h => ReadHead(read, more, start) == h
    decreases |raw| - start
  {
    hide HeadAt, Find;
    if Find(raw, HEAD_END, start).Some? {
      var end := Find(raw, HEAD_END, start).value;
      FindExtend(raw, more, HEAD_END, start);
      assert raw[start..end] == more[start..end];
      HeadExtend(read, raw, more, end + 4);
    }
  }

  /** What is said of the bytes `x` when `y` follows them. */
  ghost predicate Agrees(read: HeadReader, x: seq<byte>, y: seq<byte>) {
    match Pushed(read, EMPTY, x)
    case Ok((a, false)) => Sound(a) && Pushed(read, a, y) == Pushed(read, EMPTY, x + y)
    case Ok((a, true)) =>
      && Pushed(read, EMPTY, x + y).Ok? && Pushed(read, EMPTY, x + y).value.1
      && Sound(a) && Sound(Pushed(read, EMPTY, x + y).value.0)
      && Finished(Pushed(read, EMPTY, x + y).value.0) == Finished(a)
    case Err(e) => Pushed(read, EMPTY, x + y) == Err(e) || (e == TOO_LONG && !AllLinesShort(read, x + y))
  }

  lemma PushExtend(read: HeadReader, x: seq<byte>, y: seq<byte>)
    requires |x + y| <= MAX_BODY
    ensures Agrees(read, x, y)
  {
    assert [] + x == x && [] + (x + y) == x + y;
    HeadExtend(read, x, x + y, 0);
    match ReadHead(read, x, 0)
    case NoHead(start) =>
    case BadHead(e) =>
    case Found(head) =>
      if head.ending.Chunked? {
        ChunkedExtend(read, x, y, head);
      } else {
        CountedExtend(read, x, y, head);
      }
  }

  lemma CountedExtend(read: HeadReader, x: seq<byte>, y: seq<byte>, head: Head)
    requires |x + y| <= MAX_BODY && head.bodyStart <= |x| && !head.ending.Chunked?
    requires ReadHead(read, x, 0) == Found(head) && ReadHead(read, x + y, 0) == Found(head)
    requires [] + x == x && [] + (x + y) == x + y
    ensures Agrees(read, x, y)
  {
    hide ReadHead;
    var body := x[head.bodyStart..];
    assert (x + y)[head.bodyStart..] == body + y;
    if head.ending.Length? && |body| >= head.ending.length {
      assert (body + y)[..head.ending.length] == body[..head.ending.length];
    }
  }

  lemma ChunkedExtend(read: HeadReader, x: seq<byte>, y: seq<byte>, head: Head)
    requires |x + y| <= MAX_BODY && head.bodyStart <= |x| && head.ending.Chunked?
    requires ReadHead(read, x, 0) == Found(head) && ReadHead(read, x + y, 0) == Found(head)
    requires [] + x == x && [] + (x + y) == x + y
    ensures Agrees(read, x, y)
  {
    hide ReadHead, Dechunked, ShortLines;
    var body := x[head.bodyStart..];
    var more := (x + y)[head.bodyStart..];
    assert more == body + y;
    if Dechunked(body, START) == Malformed(LineTooLong) {
      LineTooLongExtend(body, more, START);
    } else {
      DechunkedExtend(body, more, START);
    }
  }

  /** From the answer that `x` left unfinished, the rest reads as everything at once, or is refused for a long line. */
  lemma {:induction false} ReceivedFrom(read: HeadReader, x: seq<byte>, a: Answer, pieces: seq<seq<byte>>)
    requires Pushed(read, EMPTY, x) == Ok((a, false)) && Sound(a)
    requires |x + Flatten(pieces)| <= MAX_BODY
    ensures var raw := x + Flatten(pieces);
            var r := Received(read, a, pieces);
            r == AtOnce(read, raw) || (r == Err(TOO_LONG) && !AllLinesShort(read, raw))
    decreases |pieces|
  {
    hide Pushed, Finished, AllLinesShort;
    if pieces == [] {
      assert x + Flatten(pieces) == x;
      assert [x][1..] == [];
    } else {
      var y := pieces[0];
      var rest := Flatten(pieces[1..]);
      assert x + Flatten(pieces) == (x + y) + rest;
      PushExtend(read, x, y);
      PushedSound(read, a, y);
      PushExtend(read, x + y, rest);
      if Pushed(read, a, y).Ok? && !Pushed(read, a, y).value.1 {
        ReceivedFrom(read, x + y, Pushed(read, a, y).value.0, pieces[1..]);
      }
    }
  }

  lemma SplitOrRefused(read: HeadReader, pieces: seq<seq<byte>>)
    requires |Flatten(pieces)| <= MAX_BODY
    ensures var r := Received(read, EMPTY, pieces);
            || r == AtOnce(read, Flatten(pieces))
            || (r == Err(TOO_LONG) && !AllLinesShort(read, Flatten(pieces)))
  {
    assert [] + Flatten(pieces) == Flatten(pieces);
    ReceivedFrom(read, [], EMPTY, pieces);
  }

  /**
   * Every way of cutting an answer that is not too large reads as the answer at once exactly when
   * no line of its chunked body that comes to an end is `MAX_LINE` long or longer, or when the
   * body comes to a line that does not end and is longer than that, which is refused at once too.
   */
  lemma SplitIndependence(read: HeadReader, raw: seq<byte>)
    requires |raw| <= MAX_BODY
    ensures (forall pieces: seq<seq<byte>> :: Flatten(pieces) == raw ==>
                Received(read, EMPTY, pieces) == AtOnce(read, raw))
       <==> (AllLinesShort(read, raw) || EndsInLongLine(read, raw))
  {
    hide AtOnce, AllLinesShort, Received, EndsInLongLine;
    RefusedAtOnce(read, raw);
    forall pieces: seq<seq<byte>> | Flatten(pieces) == raw
      ensures || Received(read, EMPTY, pieces) == AtOnce(read, raw)
              || (Received(read, EMPTY, pieces) == Err(TOO_LONG) && !AllLinesShort(read, raw))
    {
      SplitOrRefused(read, pieces);
    }
    if !AllLinesShort(read, raw) {
      var pieces := RefusedCut(read, raw);
      assert Flatten(pieces) == raw;
    }
  }

  /** With a long line, the cut inside that line is refused. */
  lemma RefusedCut(read: HeadReader, raw: seq<byte>) returns (pieces: seq<seq<byte>>)
    requires |raw| <= MAX_BODY && !AllLinesShort(read, raw)
    ensures Flatten(pieces) == raw && Received(read, EMPTY, pieces) == Err(TOO_LONG)
  {
    hide Dechunked, ShortLines, ReadHead, Finished;
    var head := ReadHead(read, raw, 0).head;
    var body := raw[head.bodyStart..];
    var cut := LongLineRefused(body, START);
    var k := head.bodyStart + cut;
    pieces := [raw[..k], raw[k..]];
    FlattenTwo(raw[..k], raw[k..]);
    HeadShrink(read, raw, k, 0);
    assert [] + raw[..k] == raw[..k];
    assert raw[..k][head.bodyStart..] == body[..cut];
    assert Pushed(read, EMPTY, raw[..k]) == Err(TOO_LONG);
  }

  lemma FlattenTwo<T>(x: seq<T>, y: seq<T>)
    ensures Flatten([x, y]) == x + y
  {
    assert [x, y][1..] == [y] && [y][1..] == [];
    assert Flatten([y]) == y;
  }

  /** A head needs no more than the bytes up to its own end. */
  lemma {:induction false} HeadShrink(read: HeadReader, raw: seq<byte>, cut: nat, start: nat)
    requires start <= |raw| && ReadHead(read, raw, start).Found?
    requires ReadHead(read, raw, start).head.bodyStart <= cut <= |raw|
    ensures start <= cut && ReadHead(read, raw[..cut], start) == ReadHead(read, raw, start)
    decreases |raw| - start
  {
    hide HeadAt, Find;
    var part := raw[..cut];
    var end := Find(raw, HEAD_END, start).value;
    assert end + 4 <= cut;
    FindShrink(raw, cut, HEAD_END, start);
    assert part[start..end] == raw[start..end];
    if HeadAt(read, raw[start..end], end + 4).NoHead? {
      HeadShrink(read, raw, cut, end + 4);
    }
  }
}
