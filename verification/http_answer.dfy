/**
 * An HTTP/1.1 answer, read while it arrives: interim answers are passed over, and the head says how
 * the body ends (section 6.3 of RFC 9112).
 *
 * `Pushed` says what one more piece of the answer means; the class `Http1Answer` does it in place,
 * with a search cursor, and is proved to do the same. The rest is about `Pushed`.
 */
module HttpAnswer {
  import opened Bytes
  import opened Search
  import opened Text
  import opened HttpChunked

  const HEAD_END: seq<byte> := [13, 10, 13, 10]

  /** An answer with more bytes than this is refused. */
  const MAX_BODY: nat := 512 * 1024

  type Field = (string, string)

  datatype Error =
    | TooLarge
    | BadStatusLine
    | BadContentLength(value: string)
    | BadBody(e: ChunkError)
    | EmptyAnswer
    | TruncatedHead
    | EndedEarly(got: nat, length: nat)
    | EndedBeforeLastChunk

  /** How the text of a head is read: its status and its fields, or nothing for a bad status line. */
  type HeadReader = seq<byte> -> Option<(nat, seq<Field>)>

  // ----- Framing -----

  datatype Ending = Length(length: nat) | Chunked | Close

  /** The value of the first field called `name`, in any case. */
  function FieldValue(fields: seq<Field>, name: string): Option<string> {
    if fields == [] then None
    else if AsciiLower(fields[0].0) == AsciiLower(name) then Some(fields[0].1)
    else FieldValue(fields[1..], name)
  }

  function FramingOf(status: nat, fields: seq<Field>): Result<Ending, Error> {
    if status == 204 || status == 304 then Ok(Length(0))
    else
      var encoding := FieldValue(fields, "transfer-encoding");
      if encoding.Some? && Find(AsciiLower(encoding.value), "chunked", 0).Some? then Ok(Chunked)
      else match FieldValue(fields, "content-length")
        case None => Ok(Close)
        case Some(value) =>
          match ParseUsize(value, 10)
          case Some(length) => Ok(Length(length))
          case None => Err(BadContentLength(value))
  }

  predicate Interim(status: nat) {
    100 <= status < 200 && status != 101
  }

  // ----- What the bytes so far mean -----

  datatype Head = Head(status: nat, fields: seq<Field>, bodyStart: nat, ending: Ending)

  datatype HeadSearch = NoHead(start: nat) | Found(head: Head) | BadHead(e: Error)

  /** The head of the answer, past the interim answers from `start` on. */
  function ReadHead(read: HeadReader, raw: seq<byte>, start: nat): (h: HeadSearch)
    requires start <= |raw|
    ensures h.NoHead? ==> start <= h.start <= |raw| && Find(raw, HEAD_END, h.start).None?
    ensures h.Found? ==> start <= h.head.bodyStart <= |raw|
    decreases |raw| - start
  {
    match Find(raw, HEAD_END, start)
    case None => NoHead(start)
    case Some(end) =>
      match HeadAt(read, raw[start..end], end + 4)
      case NoHead(next) => ReadHead(read, raw, end + 4)
      case found => found
  }

  lemma ReadHeadStep(read: HeadReader, raw: seq<byte>, start: nat)
    requires start <= |raw|
    ensures match Find(raw, HEAD_END, start)
            case None => ReadHead(read, raw, start) == NoHead(start)
            case Some(end) =>
              match HeadAt(read, raw[start..end], end + 4)
              case NoHead(next) => ReadHead(read, raw, start) == ReadHead(read, raw, end + 4)
              case found => ReadHead(read, raw, start) == found
  {
    hide HeadAt, Find;
  }

  /** What the text of one head says: `NoHead` past an interim answer. */
  function HeadAt(read: HeadReader, text: seq<byte>, next: nat): (h: HeadSearch)
    ensures h.NoHead? ==> h.start == next
    ensures h.Found? ==> h.head.bodyStart == next
  {
    match read(text)
    case None => BadHead(BadStatusLine)
    case Some((status, fields)) =>
      if Interim(status) then NoHead(next)
      else match FramingOf(status, fields)
        case Ok(ending) => Found(Head(status, fields, next, ending))
        case Err(e) => BadHead(e)
  }

  /** How much of a body has been read. */
  datatype Progress = Counting | Dechunking(r: Reading) | Dechunked'(at: nat, joined: seq<byte>)

  /**
   * What is known of an answer: `start` is the first byte of the head that is looked for, or of the
   * body once it is found.
   */
  datatype Answer = Answer(raw: seq<byte>, start: nat, head: Option<Head>, body: Progress)

  const EMPTY := Answer([], 0, None, Counting)

  predicate Sound(a: Answer) {
    && a.start <= |a.raw|
    && (a.head.Some? ==> a.head.value.bodyStart <= |a.raw|)
    && (a.body.Dechunking? ==> a.head.Some? && a.body.r.at <= |a.raw| - a.head.value.bodyStart)
  }

  /** The answer after one more piece of it, and whether it is whole. */
  function Pushed(read: HeadReader, a: Answer, bytes: seq<byte>): Result<(Answer, bool), Error>
    requires Sound(a)
  {
    var raw := a.raw + bytes;
    if |raw| > MAX_BODY then Err(TooLarge)
    else if a.head.Some? then OnBody(a.(raw := raw))
    else match ReadHead(read, raw, a.start)
      case NoHead(start) => Ok((a.(raw := raw, start := start), false))
      case BadHead(e) => Err(e)
      case Found(head) => OnBody(Opened(raw, head))
  }

  /** The answer whose head has just come. */
  function Opened(raw: seq<byte>, head: Head): (a: Answer)
    requires head.bodyStart <= |raw|
    ensures Sound(a)
  {
    Answer(raw, head.bodyStart, Some(head), if head.ending.Chunked? then Dechunking(START) else Counting)
  }

  /** What has come past the head. */
  function BodyOf(a: Answer): seq<byte>
    requires Sound(a) && a.head.Some?
  {
    a.raw[a.head.value.bodyStart..]
  }

  function OnBody(a: Answer): Result<(Answer, bool), Error>
    requires Sound(a) && a.head.Some?
  {
    match a.body
    case Counting => Ok((a, a.head.value.ending.Length? && |BodyOf(a)| >= a.head.value.ending.length))
    case Dechunked'(_, _) => Ok((a, true))
    case Dechunking(r) =>
      match Dechunked(BodyOf(a), r)
      case More(r') => Ok((a.(body := Dechunking(r')), false))
      case Complete(at, joined) => Ok((a.(body := Dechunked'(at, joined)), true))
      case Malformed(e) => Err(BadBody(e))
  }

  type Response = (nat, seq<Field>, seq<byte>)

  /** What the end of the connection makes of an answer. */
  function Finished(a: Answer): Result<Response, Error>
    requires Sound(a)
  {
    if a.head.None? then Err(if a.raw == [] then EmptyAnswer else TruncatedHead)
    else
      var head := a.head.value;
      match (a.body, head.ending)
      case (Dechunked'(_, joined), _) => Ok((head.status, head.fields, joined))
      case (Dechunking(_), _) => Err(EndedBeforeLastChunk)
      case (Counting, Length(length)) =>
        if |BodyOf(a)| < length then Err(EndedEarly(|BodyOf(a)|, length))
        else Ok((head.status, head.fields, BodyOf(a)[..length]))
      case (Counting, _) => Ok((head.status, head.fields, BodyOf(a)))
  }

  lemma PushedSound(read: HeadReader, a: Answer, bytes: seq<byte>)
    requires Sound(a)
    ensures var p := Pushed(read, a, bytes);
            p.Ok? ==> Sound(p.value.0) && p.value.0.raw == a.raw + bytes
  {
  }

  /** The pieces of an answer, read until one makes it whole, and then the end of the connection. */
  function Received(read: HeadReader, a: Answer, pieces: seq<seq<byte>>): Result<Response, Error>
    requires Sound(a)
    decreases |pieces|
  {
    if pieces == [] then Finished(a)
    else
      PushedSound(read, a, pieces[0]);
      match Pushed(read, a, pieces[0])
      case Err(e) => Err(e)
      case Ok((a', whole)) => if whole then Finished(a') else Received(read, a', pieces[1..])
  }

  // ----- In place -----

  datatype Framing = ByLength(length: nat) | ByChunks(dechunker: Dechunker) | ByClose

  datatype Http1Head = Http1Head(status: nat, fields: seq<Field>, bodyStart: nat, framing: Framing)

  class Http1Answer {
    const read: HeadReader
    var raw: seq<byte>
    /** The first byte that is not part of an interim answer. */
    var headStart: nat
    /** Up to here no head ends, but for one that reaches past it. */
    var searched: nat
    var head: Option<Http1Head>

    /** How many places the searches for the end of a head have looked at. */
    ghost var looked: nat

    ghost function Dechunkers(): set<Dechunker>
      reads this
    {
      if head.Some? && head.value.framing.ByChunks? then {head.value.framing.dechunker} else {}
    }

    ghost predicate Valid()
      reads this, Dechunkers()
    {
      if head.None? then SearchValid() else BodyValid()
    }

    /** What the dechunker has seen is the start of the body. */
    ghost predicate BodyValid()
      reads this, Dechunkers()
    {
      && head.Some? && looked <= head.value.bodyStart <= |raw|
      && (head.value.framing.ByChunks? ==>
            var d := head.value.framing.dechunker;
            d.Valid() && d.CaughtUp() && d.body <= raw[head.value.bodyStart..])
    }

    ghost predicate SearchValid()
      reads this
    {
      && headStart <= searched <= |raw|
      && looked <= searched
      && Searched(raw, headStart, searched)
    }

    ghost function State(): Answer
      reads this, Dechunkers()
    {
      if head.None? then Answer(raw, headStart, None, Counting)
      else
        var h := head.value;
        match h.framing
        case ByLength(n) => Answer(raw, h.bodyStart, Some(Head(h.status, h.fields, h.bodyStart, Length(n))), Counting)
        case ByClose => Answer(raw, h.bodyStart, Some(Head(h.status, h.fields, h.bodyStart, Close)), Counting)
        case ByChunks(d) =>
          Answer(raw, h.bodyStart, Some(Head(h.status, h.fields, h.bodyStart, Chunked)),
                 if d.done then Dechunked'(d.at, d.joined) else Dechunking(d.State()))
    }

    /** The places all the searches have looked at. */
    ghost function Looked(): nat
      reads this, Dechunkers()
    {
      looked + if Dechunkers() == {} then 0 else head.value.framing.dechunker.looked
    }

    constructor (read: HeadReader)
      ensures Valid() && this.read == read && State() == EMPTY && Dechunkers() == {} && Looked() == 0
    {
      this.read := read;
      raw, headStart, searched, head, looked := [], 0, 0, None, 0;
    }

    /** One more piece of the answer; the result is whether nothing of it is missing now. */
    method Push(bytes: seq<byte>) returns (r: Result<bool, Error>)
      requires Valid()
      modifies this, Dechunkers()
      ensures match Pushed(read, old(State()), bytes)
              case Err(e) => r == Err(e)
              case Ok((a, whole)) => r == Ok(whole) && Valid() && State() == a
      ensures raw == old(raw) + bytes && Looked() <= |raw|
      ensures fresh(Dechunkers() - old(Dechunkers()))
    {
      hide ReadHead, OnBody, Opened, Searched, Dechunked;
      KeepSearched(raw, raw + bytes, headStart, searched);
      raw := raw + bytes;
      if |raw| > MAX_BODY {
        return Err(TooLarge);
      }
      if head.None? {
        var stop := SeekHead();
        if stop.Some? {
          return stop.value;
        }
      }
      r := AdvanceBody();
    }

    /** Looks for the blank line behind a head, without looking again at what was searched. */
    method SeekHeadEnd() returns (found: Option<nat>)
      requires SearchValid()
      modifies this`looked
      ensures found == Find(raw, HEAD_END, headStart)
      ensures found.Some? ==> looked <= found.value + 4 <= |raw|
      ensures found.None? ==> looked <= |raw| && Searched(raw, headStart, |raw|)
    {
      var back := if searched < 3 then 0 else searched - 3;
      var from := if back > headStart then back else headStart;
      FindResume(raw, HEAD_END, headStart, from);
      FindFirst(raw, HEAD_END, headStart);
      found := Find(raw, HEAD_END, from);
      looked := looked + Visits(raw, HEAD_END, from);
    }

    /** The head, past any interim answers; the answer this push ends with, if it has not come. */
    method SeekHead() returns (stop: Option<Result<bool, Error>>)
      requires head.None? && SearchValid()
      modifies this
      ensures raw == old(raw) && looked <= |raw|
      ensures match ReadHead(read, raw, old(headStart))
              case NoHead(start) => stop == Some(Ok(false)) && head.None? && headStart == start && SearchValid()
              case BadHead(e) => stop == Some(Err(e)) && head.None?
              case Found(h) => stop.None? && HeadIs(h)
      ensures fresh(Dechunkers())
    {
      hide HeadAt, Searched, Opened, ReadHead, Find;
      while true
        invariant raw == old(raw) && head.None? && SearchValid()
        invariant ReadHead(read, raw, headStart) == ReadHead(read, raw, old(headStart))
        decreases |raw| - headStart
      {
        ReadHeadStep(read, raw, headStart);
        var found := SeekHeadEnd();
        if found.None? {
          searched := |raw|;
          return Some(Ok(false));
        }
        stop := TakeHead(found.value);
        if stop.Some? || head.Some? {
          return;
        }
      }
    }

    /** One whole head, which ends at `end`: an interim answer is passed over. */
    method TakeHead(end: nat) returns (stop: Option<Result<bool, Error>>)
      requires head.None? && headStart <= end && looked <= end + 4 <= |raw|
      modifies this
      ensures raw == old(raw) && looked == old(looked)
      ensures match HeadAt(read, raw[old(headStart)..end], end + 4)
              case NoHead(next) => stop.None? && head.None? && headStart == next && SearchValid()
              case BadHead(e) => stop == Some(Err(e)) && head.None?
              case Found(h) => stop.None? && HeadIs(h)
      ensures fresh(Dechunkers())
    {
      match read(raw[headStart..end])
      case None =>
        stop := Some(Err(BadStatusLine));
      case Some((status, fields)) =>
        if Interim(status) {
          headStart := end + 4;
          searched := headStart;
          stop := None;
        } else {
          stop := OpenBody(status, fields, end + 4);
        }
    }

    method OpenBody(status: nat, fields: seq<Field>, bodyStart: nat) returns (stop: Option<Result<bool, Error>>)
      requires head.None? && looked <= bodyStart <= |raw|
      modifies this`head
      ensures match FramingOf(status, fields)
              case Err(e) => stop == Some(Err(e)) && head.None?
              case Ok(ending) => stop.None? && HeadIs(Head(status, fields, bodyStart, ending))
      ensures fresh(Dechunkers())
    {
      var ending := FramingOf(status, fields);
      match ending {
      case Err(e) =>
        return Some(Err(e));
      case Ok(Length(n)) =>
        head := Some(Http1Head(status, fields, bodyStart, ByLength(n)));
      case Ok(Close) =>
        head := Some(Http1Head(status, fields, bodyStart, ByClose));
      case Ok(Chunked) =>
        var dechunker := new Dechunker();
        head := Some(Http1Head(status, fields, bodyStart, ByChunks(dechunker)));
      }
      stop := None;
    }

    /** The head has just come, and nothing past it has been read. */
    ghost predicate HeadIs(h: Head)
      reads this, Dechunkers()
    {
      BodyValid() && h.bodyStart <= |raw| && State() == Opened(raw, h)
    }

    method AdvanceBody() returns (r: Result<bool, Error>)
      requires BodyValid()
      modifies Dechunkers()
      ensures match OnBody(old(State()))
              case Err(e) => r == Err(e)
              case Ok((a, whole)) => r == Ok(whole) && Valid() && State() == a
      ensures Looked() <= |raw|
    {
      var body := raw[head.value.bodyStart..];
      match head.value.framing
      case ByLength(n) =>
        r := Ok(|body| >= n);
      case ByClose =>
        r := Ok(false);
      case ByChunks(dechunker) =>
        var went := dechunker.Advance(body);
        r := match went case Ok(whole) => Ok(whole) case Err(e) => Err(BadBody(e));
    }

    /** What the caller gets when no more bytes come. */
    method Finish() returns (r: Result<Response, Error>)
      requires Valid()
      ensures r == Finished(State())
    {
      if head.None? {
        return Err(if raw == [] then EmptyAnswer else TruncatedHead);
      }
      var h := head.value;
      var body := raw[h.bodyStart..];
      match h.framing
      case ByLength(n) =>
        if |body| < n {
          return Err(EndedEarly(|body|, n));
        }
        return Ok((h.status, h.fields, body[..n]));
      case ByClose =>
        return Ok((h.status, h.fields, body));
      case ByChunks(dechunker) =>
        var joined := dechunker.Finish();
        return if joined.Some? then Ok((h.status, h.fields, joined.value)) else Err(EndedBeforeLastChunk);
    }
  }

  /** No head ends between `start` and `searched`. */
  ghost predicate Searched(raw: seq<byte>, start: nat, searched: nat) {
    forall i :: start <= i && i + 3 < searched ==> !MatchAt(raw, HEAD_END, i)
  }

  lemma KeepSearched(raw: seq<byte>, more: seq<byte>, start: nat, searched: nat)
    requires raw <= more
    ensures searched <= |raw| && Searched(raw, start, searched) ==> Searched(more, start, searched)
  {
    if searched <= |raw| && Searched(raw, start, searched) {
      forall i | start <= i && i + 3 < searched ensures !MatchAt(more, HEAD_END, i) {
        MatchExtend(raw, more, HEAD_END, i);
      }
    }
  }

  /**
   * The reads of a connection: each goes to the answer until one makes it whole, and then the
   * answer is finished. All the searches together look at no more places than there are bytes.
   */
  method Receive(read: HeadReader, pieces: seq<seq<byte>>) returns (r: Result<Response, Error>, ghost looked: nat)
    ensures r == Received(read, EMPTY, pieces)
    ensures looked <= |Flatten(pieces)|
  {
    hide Pushed, Finished;
    var answer := new Http1Answer(read);
    looked := 0;
    for i := 0 to |pieces|
      invariant answer.Valid() && answer.read == read && fresh(answer) && fresh(answer.Dechunkers())
      invariant Received(read, EMPTY, pieces) == Received(read, answer.State(), pieces[i..])
      invariant |Flatten(pieces)| == |answer.raw| + |Flatten(pieces[i..])| && looked <= |answer.raw|
    {
      assert pieces[i..][0] == pieces[i] && pieces[i..][1..] == pieces[i + 1..];
      PushedSound(read, answer.State(), pieces[i]);
      var whole := answer.Push(pieces[i]);
      looked := answer.Looked();
      match whole
      case Err(e) =>
        return Err(e), looked;
      case Ok(done) =>
        if done {
          r := answer.Finish();
          return;
        }
    }
    r := answer.Finish();
  }
}
