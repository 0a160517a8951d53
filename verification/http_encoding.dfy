/** The chunked encoding as a server writes it (section 7.1 of RFC 9112), and that reading undoes it. */
module HttpEncoding {
  import opened Bytes
  import opened Search
  import opened Text
  import opened HttpChunked

  /** A chunk: its data, the leading zeros of its size, and its extensions. */
  datatype Chunk = Chunk(data: seq<byte>, zeros: nat, ext: seq<byte>)

  /** A line has no line end of its own. */
  ghost predicate OneLine(s: seq<byte>) {
    forall i :: !MatchAt(s, CRLF, i)
  }

  ghost predicate Extension(ext: seq<byte>) {
    && (ext == [] || ext[0] == 59)
    && FromUtf8(ext).Some?
    && OneLine(ext)
  }

  function SizeText(zeros: nat, size: nat): (s: string)
    ensures IsAscii(s)
  {
    HexIsPlain(size);
    assert forall i :: 0 <= i < |HexOf(size)| ==> HexOf(size)[i] in HexOf(size);
    Zeros(zeros) + HexOf(size)
  }

  function SizeLine(zeros: nat, size: nat, ext: seq<byte>): seq<byte> {
    Ascii(SizeText(zeros, size)) + ext
  }

  ghost predicate Formed(c: Chunk) {
    c.data != [] && Extension(c.ext)
  }

  function LineOf(c: Chunk): seq<byte> {
    SizeLine(c.zeros, |c.data|, c.ext)
  }

  ghost predicate Writable(c: Chunk) {
    Formed(c) && |LineOf(c)| < MAX_LINE
  }

  function EncodeChunk(c: Chunk): seq<byte> {
    LineOf(c) + CRLF + (c.data + CRLF)
  }

  function EncodeTrailer(fields: seq<seq<byte>>): seq<byte> {
    if fields == [] then CRLF else fields[0] + CRLF + EncodeTrailer(fields[1..])
  }

  /** The chunks, the last chunk, of size zero, and the trailer. */
  function Encode(chunks: seq<Chunk>, zeros: nat, ext: seq<byte>, fields: seq<seq<byte>>): seq<byte> {
    if chunks == [] then SizeLine(zeros, 0, ext) + CRLF + EncodeTrailer(fields)
    else EncodeChunk(chunks[0]) + Encode(chunks[1..], zeros, ext, fields)
  }

  function Join(chunks: seq<Chunk>): seq<byte> {
    if chunks == [] then [] else chunks[0].data + Join(chunks[1..])
  }

  ghost predicate Sendable(chunks: seq<Chunk>, zeros: nat, ext: seq<byte>, fields: seq<seq<byte>>) {
    && (forall i :: 0 <= i < |chunks| ==> Writable(chunks[i]))
    && zeros > 0 && Extension(ext) && |SizeLine(zeros, 0, ext)| < MAX_LINE
    && (forall i :: 0 <= i < |fields| ==> fields[i] != [] && OneLine(fields[i]) && |fields[i]| < MAX_LINE)
  }

  // ----- Lines -----

  lemma TrimNothing(s: string)
    requires s != "" && !Whitespace(s[0]) && !Whitespace(s[|s| - 1])
    ensures Trim(s) == s
  {
  }

  lemma SizeTextReads(zeros: nat, size: nat)
    requires size <= USIZE_MAX && zeros + size > 0
    ensures ParseUsize(Trim(SizeText(zeros, size)), 16) == Some(size)
    ensures ';' !in SizeText(zeros, size)
  {
    var s := SizeText(zeros, size);
    DigitsOfHex(zeros, size);
    HexIsPlain(size);
    forall i | 0 <= i < |s| ensures Digit(s[i]).Some? && !Whitespace(s[i]) {
      assert s[i] == '0' || s[i] in HexOf(size);
    }
    TrimNothing(s);
  }

  /** A size line gives back its size, whatever its leading zeros and extensions. */
  lemma ChunkSizeReads(zeros: nat, size: nat, ext: seq<byte>)
    requires size <= USIZE_MAX && zeros + size > 0 && Extension(ext)
    ensures ChunkSize(SizeLine(zeros, size, ext)) == Some(size)
  {
    var s := SizeText(zeros, size);
    var e := FromUtf8(ext).value;
    SizeTextReads(zeros, size);
    FromUtf8AfterAscii(s, ext);
    if ext == [] {
      assert s + e == s;
      BeforeMark(s, ';', "");
    } else {
      assert e[0] == ';';
      assert s + e == s + [';'] + e[1..];
      BeforeMark(s, ';', e[1..]);
    }
  }

  /** What has no CR of its own puts no line end before a line. */
  lemma OneLineBehind(front: seq<byte>, line: seq<byte>)
    requires 13 !in front && OneLine(line)
    ensures OneLine(front + line)
  {
    hide MatchAt;
    forall i ensures !MatchAt(front + line, CRLF, i) {
      MatchBytes(front + line, i);
      MatchBytes(line, i - |front|);
      assert !MatchAt(line, CRLF, i - |front|);
    }
  }

  /** A line end is two bytes. */
  lemma MatchBytes(s: seq<byte>, i: int)
    ensures MatchAt(s, CRLF, i) <==> 0 <= i && i + 2 <= |s| && s[i] == 13 && s[i + 1] == 10
  {
    if 0 <= i && i + 2 <= |s| {
      assert s[i..i + 2][0] == s[i] && s[i..i + 2][1] == s[i + 1];
    }
  }

  lemma SizeLineIsOneLine(zeros: nat, size: nat, ext: seq<byte>)
    requires OneLine(ext)
    ensures OneLine(SizeLine(zeros, size, ext))
  {
    hide OneLine;
    var s := SizeText(zeros, size);
    HexIsPlain(size);
    forall i | 0 <= i < |s| ensures s[i] as int != 13 {
      assert s[i] == '0' || s[i] in HexOf(size);
    }
    assert 13 !in Ascii(s);
    OneLineBehind(Ascii(s), ext);
  }

  /** The line at `at` ends where it should, and what follows it follows. */
  lemma LineAt(b: seq<byte>, at: nat, line: seq<byte>, rest: seq<byte>)
    requires at <= |b| && b[at..] == line + CRLF + rest && OneLine(line)
    ensures at + |line| + 2 <= |b|
    ensures Find(b, CRLF, at) == Some(at + |line|)
    ensures b[at..at + |line|] == line && b[at + |line| + 2..] == rest
  {
    hide MatchAt;
    var end := at + |line|;
    Within(b, at, line, CRLF, rest);
    forall i | at <= i < end ensures !MatchAt(b, CRLF, i) {
      assert !MatchAt(line, CRLF, i - at);
      MatchBytes(line, i - at);
      MatchBytes(b, i);
    }
    MatchBytes(b, end);
    FindIs(b, CRLF, at, end);
  }

  /** Three parts from `at` on, part by part and byte by byte. */
  lemma Within(b: seq<byte>, at: nat, x: seq<byte>, y: seq<byte>, z: seq<byte>)
    requires at <= |b| && b[at..] == x + y + z
    ensures |b| == at + |x| + |y| + |z|
    ensures b[at..at + |x|] == x && b[at + |x| + |y|..] == z
    ensures forall i :: at <= i < at + |x| ==> b[i] == x[i - at]
    ensures forall i :: at + |x| <= i < at + |x| + |y| ==> b[i] == y[i - at - |x|]
  {
    var s := x + y + z;
    forall i | at <= i < |b| ensures b[i] == s[i - at] {
      assert b[at..][i - at] == b[i];
    }
  }

  // ----- Round trip -----

  lemma {:induction false} TrailerReads(b: seq<byte>, r: Reading, fields: seq<seq<byte>>)
    requires r.at <= |b| && b[r.at..] == EncodeTrailer(fields) && r.data.None? && r.trailer
    requires forall i :: 0 <= i < |fields| ==> fields[i] != [] && OneLine(fields[i]) && |fields[i]| < MAX_LINE
    ensures Dechunked(b, r) == Complete(|b|, r.joined) && ShortLines(b, r)
    decreases |fields|
  {
    hide ChunkSize, Find;
    if fields == [] {
      assert CRLF == [] + CRLF + [];
      LineAt(b, r.at, [], []);
    } else {
      LineAt(b, r.at, fields[0], EncodeTrailer(fields[1..]));
      assert Step(b, r) == Next(r.(at := r.at + |fields[0]| + 2)) && !LongLine(b, r);
      TrailerReads(b, r.(at := r.at + |fields[0]| + 2), fields[1..]);
    }
  }

  /** A size line is read as its size, and is a long one when it is long. */
  lemma SizeLineReads(b: seq<byte>, r: Reading, zeros: nat, size: nat, ext: seq<byte>, rest: seq<byte>)
    requires r.at <= |b| && b[r.at..] == SizeLine(zeros, size, ext) + CRLF + rest
    requires r.data.None? && !r.trailer && size <= USIZE_MAX && zeros + size > 0 && Extension(ext)
    ensures var next := r.at + |SizeLine(zeros, size, ext)| + 2;
            && next <= |b| && b[next..] == rest
            && Step(b, r) == Next(if size == 0 then r.(at := next, trailer := true)
                              else r.(at := next, data := Some(size)))
    ensures LongLine(b, r) <==> |SizeLine(zeros, size, ext)| >= MAX_LINE
  {
    ChunkSizeReads(zeros, size, ext);
    SizeLineIsOneLine(zeros, size, ext);
    hide ChunkSize, Find, SizeLine, OneLine, FromUtf8;
    LineAt(b, r.at, SizeLine(zeros, size, ext), rest);
  }

  lemma LastReads(b: seq<byte>, r: Reading, zeros: nat, ext: seq<byte>, fields: seq<seq<byte>>)
    requires r.at <= |b| && b[r.at..] == Encode([], zeros, ext, fields)
    requires r.data.None? && !r.trailer && Sendable([], zeros, ext, fields)
    ensures Dechunked(b, r) == Complete(|b|, r.joined) && ShortLines(b, r)
  {
    hide SizeLine, OneLine, EncodeTrailer, Extension, Step, LongLine, Dechunked, ShortLines;
    SizeLineReads(b, r, zeros, 0, ext, EncodeTrailer(fields));
    var next := r.(at := r.at + |SizeLine(zeros, 0, ext)| + 2, trailer := true);
    TrailerReads(b, next, fields);
    OneOn(b, r, next);
  }

  /** Reading goes on from where a piece leaves it. */
  lemma OneOn(b: seq<byte>, r: Reading, next: Reading)
    requires r.at <= |b| && next.at <= |b| && Step(b, r) == Next(next)
    ensures Dechunked(b, r) == Dechunked(b, next) && (ShortLines(b, r) <==> !LongLine(b, r) && ShortLines(b, next))
  {
    hide Step, LongLine;
  }

  /** One chunk: its size line, then its data. */
  lemma ChunkReads(b: seq<byte>, r: Reading, c: Chunk, rest: seq<byte>) returns (next: Reading)
    requires r.at <= |b| <= USIZE_MAX && b[r.at..] == EncodeChunk(c) + rest
    requires r.data.None? && !r.trailer && Formed(c)
    ensures r.at < next.at <= |b| && next == Reading(next.at, None, false, r.joined + c.data)
    ensures b[next.at..] == rest
    ensures Dechunked(b, r) == Dechunked(b, next)
    ensures if |LineOf(c)| < MAX_LINE then ShortLines(b, next) ==> ShortLines(b, r) else LongLine(b, r)
  {
    hide SizeLine, Extension, Step, LongLine;
    var after := c.data + CRLF + rest;
    assert EncodeChunk(c) + rest == LineOf(c) + CRLF + after;
    SizeLineReads(b, r, c.zeros, |c.data|, c.ext, after);
    var sized := r.(at := r.at + |LineOf(c)| + 2, data := Some(|c.data|));
    next := DataReads(b, sized, c.data, rest);
    assert ShortLines(b, next) ==> ShortLines(b, sized) by { NoLineInData(b, sized); }
  }

  lemma NoLineInData(b: seq<byte>, r: Reading)
    requires r.data.Some?
    ensures !LongLine(b, r)
  {
  }

  lemma DataReads(b: seq<byte>, r: Reading, data: seq<byte>, rest: seq<byte>) returns (next: Reading)
    requires r.at <= |b| <= USIZE_MAX && b[r.at..] == data + CRLF + rest
    requires r.data == Some(|data|)
    ensures r.at < next.at <= |b| && next == Reading(next.at, None, r.trailer, r.joined + data)
    ensures b[next.at..] == rest
    ensures Step(b, r) == Next(next)
  {
    var end := r.at + |data| + 2;
    var s := data + CRLF + rest;
    assert forall k :: 0 <= k < |s| ==> b[r.at + k] == s[k];
    assert b[end - 2..end] == CRLF;
    assert b[r.at..end - 2] == data;
    next := Reading(end, None, r.trailer, r.joined + data);
    assert b[end..] == rest;
  }

  lemma {:induction false} ChunksRead(b: seq<byte>, r: Reading, chunks: seq<Chunk>, zeros: nat, ext: seq<byte>,
        fields: seq<seq<byte>>)
    requires r.at <= |b| <= USIZE_MAX && b[r.at..] == Encode(chunks, zeros, ext, fields)
    requires r.data.None? && !r.trailer && Sendable(chunks, zeros, ext, fields)
    ensures Dechunked(b, r) == Complete(|b|, r.joined + Join(chunks)) && ShortLines(b, r)
    decreases |chunks|
  {
    if chunks == [] {
      hide Dechunked, ShortLines, Sendable;
      LastReads(b, r, zeros, ext, fields);
      assert r.joined + [] == r.joined;
    } else {
      hide Dechunked, ShortLines, LineOf, Formed, EncodeChunk, LongLine, OneLine;
      var rest := chunks[1..];
      assert Sendable(rest, zeros, ext, fields);
      assert Writable(chunks[0]);
      var next := ChunkReads(b, r, chunks[0], Encode(rest, zeros, ext, fields));
      ChunksRead(b, next, rest, zeros, ext, fields);
      Associates(r.joined, chunks[0].data, Join(rest));
    }
  }

  /**
   * For any body, any cut into chunks, any extensions and trailer fields: the whole encoding reads
   * as the body and ends on its last byte, and no part of it ends before or is refused.
   */
  lemma RoundTrip(chunks: seq<Chunk>, zeros: nat, ext: seq<byte>, fields: seq<seq<byte>>, cut: nat)
    requires Sendable(chunks, zeros, ext, fields)
    requires cut <= |Encode(chunks, zeros, ext, fields)| <= USIZE_MAX
    ensures var all := Encode(chunks, zeros, ext, fields);
            && ShortLines(all, START)
            && if cut == |all| then Dechunked(all[..cut], START) == Complete(cut, Join(chunks))
               else Dechunked(all[..cut], START).More?
  {
    hide Encode, Sendable, ShortLines, Dechunked, Join;
    var all := Encode(chunks, zeros, ext, fields);
    assert all[0..] == all;
    ChunksRead(all, START, chunks, zeros, ext, fields);
    assert [] + Join(chunks) == Join(chunks);
    if cut == |all| {
      assert all[..cut] == all;
    } else if Dechunked(all[..cut], START) == Malformed(LineTooLong) {
      LineTooLongExtend(all[..cut], all, START);
    } else {
      DechunkedExtend(all[..cut], all, START);
    }
  }
}
