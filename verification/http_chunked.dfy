/**
 * The chunked body of an HTTP/1.1 answer (section 7.1 of RFC 9112), read as it comes in.
 *
 * `Step` and `Dechunked` say what a body means with no search cursor at all; the class
 * `Dechunker` reads it piece by piece with the cursor, and is proved to mean the same.
 */
module HttpChunked {
  import opened Bytes
  import opened Search
  import opened Text

  const CRLF: seq<byte> := [13, 10]

  /** With more bytes than this after the last line end, a line is given up on. */
  const MAX_LINE: nat := 8 * 1024

  datatype ChunkError = ChunkTooLarge | NoLineEnd | LineTooLong | BadChunkSize

  /** The size a chunk-size line gives: hexadecimal before any extension. */
  function ChunkSize(line: seq<byte>): Option<nat> {
    match FromUtf8(line)
    case None => None
    case Some(text) => ParseUsize(Trim(Before(text, ';')), 16)
  }

  /** What has been read of a chunked body: up to `at`, with what comes there, and the data so far. */
  datatype Reading = Reading(at: nat, data: Option<nat>, trailer: bool, joined: seq<byte>)

  const START := Reading(0, None, false, [])

  /** One piece of the body: more of it has to come, one piece was read, the end, or no chunked body. */
  datatype Piece = Wait | Next(r: Reading) | End(at: nat, joined: seq<byte>) | Bad(e: ChunkError)

  function Step(body: seq<byte>, r: Reading): (p: Piece)
    requires r.at <= |body|
    ensures p.Next? ==> r.at < p.r.at <= |body|
    ensures p.End? ==> r.at < p.at <= |body|
  {
    if r.data.Some? then StepData(body, r, r.at + r.data.value + 2)
    else match Find(body, CRLF, r.at)
      case None => if |body| - r.at > MAX_LINE then Bad(LineTooLong) else Wait
      case Some(end) => StepLine(r, body[r.at..end])
  }

  /** A chunk's data, then CRLF, up to `end`. */
  function StepData(body: seq<byte>, r: Reading, end: nat): Piece
    requires r.at + 2 <= end
  {
    if end > USIZE_MAX then Bad(ChunkTooLarge)
    else if |body| < end then Wait
    else if body[end - 2..end] != CRLF then Bad(NoLineEnd)
    else Next(Reading(end, None, r.trailer, r.joined + body[r.at..end - 2]))
  }

  /** A whole line: a field of the trailer, or a chunk size. */
  function StepLine(r: Reading, line: seq<byte>): Piece {
    var next := r.at + |line| + 2;
    if r.trailer then
      if line == [] then End(next, r.joined) else Next(r.(at := next))
    else match ChunkSize(line)
      case None => Bad(BadChunkSize)
      case Some(size) =>
        if size == 0 then Next(r.(at := next, trailer := true)) else Next(r.(at := next, data := Some(size)))
  }

  datatype Outcome = More(r: Reading) | Complete(at: nat, joined: seq<byte>) | Malformed(e: ChunkError)

  /** All that `body` says from `r` on. */
  function Dechunked(body: seq<byte>, r: Reading): (o: Outcome)
    requires r.at <= |body|
    ensures o.More? ==> r.at <= o.r.at <= |body| && Step(body, o.r).Wait?
    ensures o.Complete? ==> o.at <= |body|
    decreases |body| - r.at
  {
    match Step(body, r)
    case Wait => More(r)
    case Next(r') => Dechunked(body, r')
    case End(at, joined) => Complete(at, joined)
    case Bad(e) => Malformed(e)
  }

  /** Whether every line that `body` ends from `r` on is shorter than `MAX_LINE`. */
  predicate ShortLines(body: seq<byte>, r: Reading)
    requires r.at <= |body|
    decreases |body| - r.at
  {
    && !LongLine(body, r)
    && match Step(body, r) { case Next(r') => ShortLines(body, r') case _ => true }
  }

  predicate LongLine(body: seq<byte>, r: Reading) {
    && r.data.None?
    && Find(body, CRLF, r.at).Some?
    && Find(body, CRLF, r.at).value - r.at >= MAX_LINE
  }

  /** Whether reading from `r` on comes to a line without an end that is longer than a line may be. */
  predicate Endless(body: seq<byte>, r: Reading)
    requires r.at <= |body|
    decreases |body| - r.at
  {
    || EndlessLine(body, r)
    || match Step(body, r) { case Next(r') => Endless(body, r') case _ => false }
  }

  predicate EndlessLine(body: seq<byte>, r: Reading) {
    r.data.None? && Find(body, CRLF, r.at).None? && |body| - r.at > MAX_LINE
  }

  /** That is when a body is refused for a line too long. */
  lemma {:induction false} EndlessExactly(body: seq<byte>, r: Reading)
    requires r.at <= |body|
    ensures Dechunked(body, r) == Malformed(LineTooLong) <==> Endless(body, r)
    decreases |body| - r.at
  {
    hide Find, ChunkSize;
    if Step(body, r).Next? {
      EndlessExactly(body, Step(body, r).r);
    }
  }

  // ----- The outcome does not depend on how much has come -----

  lemma StepExtend(body: seq<byte>, more: seq<byte>, r: Reading)
    requires r.at <= |body| && body <= more
    requires !Step(body, r).Wait? && Step(body, r) != Bad(LineTooLong)
    ensures Step(more, r) == Step(body, r)
  {
    hide Find, ChunkSize;
    if r.data.None? {
      var end := Find(body, CRLF, r.at).value;
      FindExtend(body, more, CRLF, r.at);
      assert body[r.at..end] == more[r.at..end];
    } else {
      var end := r.at + r.data.value + 2;
      if end <= USIZE_MAX {
        assert body[end - 2..end] == more[end - 2..end];
        assert body[r.at..end - 2] == more[r.at..end - 2];
      }
    }
  }

  /** Nothing is decided early: reading some and then all is reading all at once. */
  lemma {:induction false} DechunkedExtend(body: seq<byte>, more: seq<byte>, r: Reading)
    requires r.at <= |body| && body <= more
    requires Dechunked(body, r) != Malformed(LineTooLong)
    ensures match Dechunked(body, r)
            case More(r') => Dechunked(more, r) == Dechunked(more, r')
            case o => Dechunked(more, r) == o
    decreases |body| - r.at
  {
    if !Step(body, r).Wait? {
      StepExtend(body, more, r);
      if Step(body, r).Next? {
        DechunkedExtend(body, more, Step(body, r).r);
      }
    }
  }

  /** A line is refused early only when it is refused in the end, or when it is a long one. */
  lemma {:induction false} LineTooLongExtend(body: seq<byte>, more: seq<byte>, r: Reading)
    requires r.at <= |body| && body <= more
    requires Dechunked(body, r) == Malformed(LineTooLong)
    ensures Dechunked(more, r) == Malformed(LineTooLong) || !ShortLines(more, r)
    decreases |body| - r.at
  {
    if Step(body, r).Next? {
      StepExtend(body, more, r);
      LineTooLongExtend(body, more, Step(body, r).r);
    } else if Find(more, CRLF, r.at).Some? {
      var end := Find(more, CRLF, r.at).value;
      FindFirst(body, CRLF, r.at);
      if end + 2 <= |body| {
        MatchExtend(body, more, CRLF, end);
      }
    }
  }

  /** A body with a long line is refused by a reader that stops inside that line. */
  lemma {:induction false} LongLineRefused(body: seq<byte>, r: Reading) returns (cut: nat)
    requires r.at <= |body| && !ShortLines(body, r)
    ensures r.at <= cut <= |body| && Dechunked(body[..cut], r) == Malformed(LineTooLong)
    decreases |body| - r.at
  {
    if LongLine(body, r) {
      cut := r.at + MAX_LINE + 1;
      var part := body[..cut];
      FindFirst(body, CRLF, r.at);
      FindFirst(part, CRLF, r.at);
      forall i | r.at <= i ensures !MatchAt(part, CRLF, i) {
        if i + 2 <= |part| {
          MatchExtend(part, body, CRLF, i);
        }
      }
    } else {
      var r' := Step(body, r).r;
      cut := LongLineRefused(body, r');
      StepShrink(body, cut, r);
    }
  }

  /** One piece needs no more than the bytes up to its own end. */
  lemma StepShrink(body: seq<byte>, cut: nat, r: Reading)
    requires r.at <= |body| && Step(body, r).Next? && Step(body, r).r.at <= cut <= |body|
    ensures Step(body[..cut], r) == Step(body, r)
  {
    hide Find, ChunkSize;
    var part := body[..cut];
    if r.data.None? {
      var end := Find(body, CRLF, r.at).value;
      FindShrink(body, cut, CRLF, r.at);
      assert part[r.at..end] == body[r.at..end];
    } else {
      var end := r.at + r.data.value + 2;
      assert part[end - 2..end] == body[end - 2..end];
      assert part[r.at..end - 2] == body[r.at..end - 2];
    }
  }

  // ----- The reader -----

  class Dechunker {
    /** All before this has been read. */
    var at: nat
    /** From `at` up to here no line ends, but for one that reaches past it. */
    var searched: nat
    var data: Option<nat>
    var trailer: bool
    var done: bool
    var joined: seq<byte>

    /** The body given so far. */
    ghost var body: seq<byte>
    /** How many places the searches have looked at. */
    ghost var looked: nat

    ghost predicate Valid()
      reads this
    {
      && at <= searched <= |body|
      && looked <= searched
      && Unbroken(body, at, searched)
      && (data.Some? ==> searched == at)
    }

    ghost function State(): Reading
      reads this
    {
      Reading(at, data, trailer, joined)
    }

    /** What has been read is what the whole body given so far says. */
    ghost predicate CaughtUp()
      reads this
    {
      Dechunked(body, START) == if done then Complete(at, joined) else More(State())
    }

    constructor ()
      ensures Valid() && CaughtUp() && !done && State() == START && body == [] && looked == 0
    {
      at, searched, data, trailer, done, joined := 0, 0, None, false, false, [];
      body, looked := [], 0;
    }

    /**
     * `whole` is what was given before and more behind it. The outcome is the one `Dechunked` finds
     * in all of it, and over all calls the searches look at no more places than there are bytes.
     */
    method Advance(whole: seq<byte>) returns (r: Result<bool, ChunkError>)
      requires Valid() && CaughtUp() && body <= whole
      modifies this
      ensures body == whole && looked <= |whole|
      ensures r.Ok? ==> Valid() && CaughtUp() && r.value == done
      ensures r.Err? ==> Dechunked(whole, START) == Malformed(r.error)
      ensures old(done) ==> r == Ok(true) && State() == old(State())
      ensures !old(done) ==>
                match Dechunked(whole, old(State()))
                case More(s) => r == Ok(false) && State() == s
                case Complete(end, all) => r == Ok(true) && at == end && joined == all
                case Malformed(e) => r == Err(e)
    {
      UnbrokenExtend(body, whole, at, searched);
      DechunkedExtend(body, whole, START);
      hide Step;
      body := whole;
      while !done
        invariant body == whole && Valid()
        invariant old(done) ==> done && State() == old(State())
        invariant !old(done) ==>
                    Dechunked(whole, old(State())) == if done then Complete(at, joined) else Dechunked(whole, State())
        decreases !done, |whole| - at
      {
        var stop := None;
        if data.Some? {
          stop := ReadData(whole);
        } else {
          stop := ReadLine(whole);
        }
        if stop.Some? {
          return stop.value;
        }
      }
      return Ok(true);
    }

    /** Whether reading one piece from `before` did what `Step` says, and `stop` is the answer it ends with, if any. */
    ghost predicate Stepped(before: Reading, stop: Option<Result<bool, ChunkError>>)
      requires before.at <= |body|
      reads this
    {
      match Step(body, before)
      case Wait => stop == Some(Ok(false)) && !done && Valid() && State() == before
      case Next(s) => stop == None && !done && Valid() && State() == s
      case End(end, all) => stop == None && done && Valid() && at == end && joined == all
      case Bad(e) => stop == Some(Err(e)) && looked <= |body|
    }

    /** A chunk's data, then CRLF. */
    method ReadData(whole: seq<byte>) returns (stop: Option<Result<bool, ChunkError>>)
      requires Valid() && body == whole && !done && data.Some?
      modifies this
      ensures body == whole && Stepped(old(State()), stop)
    {
      var end := at + data.value + 2;
      if end > USIZE_MAX {
        return Some(Err(ChunkTooLarge));
      }
      if |whole| < end {
        return Some(Ok(false));
      }
      if whole[end - 2..end] != CRLF {
        return Some(Err(NoLineEnd));
      }
      joined := joined + whole[at..end - 2];
      at, searched, data := end, end, None;
      return None;
    }

    /** Looks for the CRLF behind a line, without looking again at what was searched. */
    method SeekLineEnd(whole: seq<byte>) returns (found: Option<nat>)
      requires Valid() && body == whole
      modifies this`looked
      ensures found == Find(whole, CRLF, at)
      ensures found.Some? ==> looked <= found.value + 2 <= |whole|
      ensures found.None? ==> looked <= |whole| && Unbroken(whole, at, |whole|)
    {
      // From one byte back, as a CR may have come last, but not before the line.
      var from := if searched > at then searched - 1 else at;
      FindResume(whole, CRLF, at, from);
      FindFirst(whole, CRLF, at);
      found := Find(whole, CRLF, from);
      looked := looked + Visits(whole, CRLF, from);
    }

    /** Reads one line, which the trailer and the chunk sizes are made of. */
    method ReadLine(whole: seq<byte>) returns (stop: Option<Result<bool, ChunkError>>)
      requires Valid() && body == whole && !done && data.None?
      modifies this
      ensures body == whole && Stepped(old(State()), stop)
    {
      var found := SeekLineEnd(whole);
      if found.None? {
        if |whole| - at > MAX_LINE {
          return Some(Err(LineTooLong));
        }
        searched := |whole|;
        return Some(Ok(false));
      }
      var line := whole[at..found.value];
      at := found.value + 2;
      searched := at;
      if trailer {
        done := line == [];
        return None;
      }
      var size := ChunkSize(line);
      if size.None? {
        return Some(Err(BadChunkSize));
      }
      if size.value == 0 {
        trailer := true;
      } else {
        data := size;
      }
      return None;
    }

    /** The data of the whole body given, once its end is in it; nothing before that. */
    method Finish() returns (r: Option<seq<byte>>)
      requires Valid() && CaughtUp()
      ensures r == match Dechunked(body, START) { case Complete(_, all) => Some(all) case _ => None }
    {
      r := if done then Some(joined) else None;
    }
  }

  /** No line ends between `at` and `searched`. */
  ghost predicate Unbroken(body: seq<byte>, at: nat, searched: nat) {
    forall i :: at <= i && i + 1 < searched ==> !MatchAt(body, CRLF, i)
  }

  lemma UnbrokenExtend(body: seq<byte>, more: seq<byte>, at: nat, searched: nat)
    requires body <= more && searched <= |body| && Unbroken(body, at, searched)
    ensures Unbroken(more, at, searched)
  {
    forall i | at <= i && i + 1 < searched ensures !MatchAt(more, CRLF, i) {
      MatchExtend(body, more, CRLF, i);
    }
  }
}
