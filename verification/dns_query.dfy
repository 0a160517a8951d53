/** DNS questions, and which replies answer one (section 4.1 of RFC 1035). */
module DnsQuery {
  import opened Bytes
  import opened Varint

  const DOT: byte := 46

  /** `split('.')`. */
  function Split(s: seq<byte>): (parts: seq<seq<byte>>)
    ensures parts != []
  {
    if s == [] then [[]]
    else
      var rest := Split(s[1..]);
      if s[0] == DOT then [[]] + rest else [[s[0]] + rest[0]] + rest[1..]
  }

  function NonEmpty(parts: seq<seq<byte>>): seq<seq<byte>> {
    if parts == [] then []
    else (if parts[0] == [] then [] else [parts[0]]) + NonEmpty(parts[1..])
  }

  function Labels(name: seq<byte>): seq<seq<byte>> {
    NonEmpty(Split(name))
  }

  predicate LabelByte(b: byte) {
    48 <= b <= 57 || 65 <= b <= 90 || 97 <= b <= 122 || b == 45 || b == 95
  }

  predicate ValidLabel(piece: seq<byte>) {
    1 <= |piece| <= 63 && forall i :: 0 <= i < |piece| ==> LabelByte(piece[i])
  }

  predicate ValidLabels(labels: seq<seq<byte>>) {
    forall i :: 0 <= i < |labels| ==> ValidLabel(labels[i])
  }

  /** Without its trailing dot. */
  function Stripped(name: seq<byte>): seq<byte> {
    if name != [] && name[|name| - 1] == DOT then name[..|name| - 1] else name
  }

  predicate ValidDomain(name: seq<byte>) {
    1 <= |Stripped(name)| <= 253 && ValidLabels(Split(Stripped(name)))
  }

  /** Labels as they go out, each behind its length in one byte. */
  function Wire(labels: seq<seq<byte>>): seq<byte> {
    if labels == [] then [] else [|labels[0]| % 256] + labels[0] + Wire(labels[1..])
  }

  function NameOnWire(name: seq<byte>): seq<byte> {
    Wire(Labels(name)) + [0]
  }

  function Header(id: nat): seq<byte> {
    BigEndian(id, 2) + [1, 0] + [0, 1] + [0, 0, 0, 0, 0, 0]
  }

  /** A query for `name`: the header, the name, the type and the class IN. */
  method BuildQuery(name: seq<byte>, qtype: nat, id: nat) returns (q: seq<byte>)
    requires qtype < 0x1_0000 && id < 0x1_0000
    ensures q == Header(id) + NameOnWire(name) + BigEndian(qtype, 2) + [0, 1]
  {
    hide BigEndian, Split;
    q := Header(id);
    var parts := Split(name);
    for i := 0 to |parts|
      invariant q + Wire(NonEmpty(parts[i..])) == Header(id) + Wire(NonEmpty(parts))
    {
      var piece := parts[i];
      WireNext(parts, i);
      assert (q + [|piece| % 256] + piece) + Wire(NonEmpty(parts[i + 1..]))
            == q + ([|piece| % 256] + piece + Wire(NonEmpty(parts[i + 1..])));
      if piece != [] {
        q := q + [|piece| % 256];
        q := q + piece;
      }
    }
    assert parts[|parts|..] == [] && q == Header(id) + Wire(NonEmpty(parts));
    q := q + [0];
    assert q == Header(id) + NameOnWire(name);
    q := q + BigEndian(qtype, 2);
    q := q + [0, 1];
  }

  lemma WireNext(parts: seq<seq<byte>>, i: nat)
    requires i < |parts|
    ensures NonEmpty(parts[i..]) == (if parts[i] == [] then [] else [parts[i]]) + NonEmpty(parts[i + 1..])
    ensures parts[i] == [] ==> Wire(NonEmpty(parts[i..])) == Wire(NonEmpty(parts[i + 1..]))
    ensures parts[i] != [] ==>
              Wire(NonEmpty(parts[i..])) == [|parts[i]| % 256] + parts[i] + Wire(NonEmpty(parts[i + 1..]))
  {
    var here := parts[i..];
    assert here[0] == parts[i] && here[1..] == parts[i + 1..];
    if parts[i] != [] {
      assert NonEmpty(here)[1..] == NonEmpty(parts[i + 1..]);
    } else {
      assert NonEmpty(here) == NonEmpty(parts[i + 1..]);
    }
  }

  function LowerByte(b: byte): int {
    if 65 <= b <= 90 then b + 32 else b
  }

  /** `eq_ignore_ascii_case`. */
  predicate SameLetters(a: seq<byte>, b: seq<byte>) {
    |a| == |b| && forall i :: 0 <= i < |a| ==> LowerByte(a[i]) == LowerByte(b[i])
  }

  function Word(buf: seq<byte>, at: nat): nat
    requires at + 2 <= |buf|
  {
    buf[at] as int * 256 + buf[at + 1] as int
  }

  predicate LabelAt(msg: seq<byte>, pos: nat, piece: seq<byte>) {
    pos < |msg| && msg[pos] as int == |piece| && pos + 1 + |piece| <= |msg|
    && SameLetters(msg[pos + 1..pos + 1 + |piece|], piece)
  }

  /** Where the labels end that stand at `pos`, if they are these. */
  function LabelsEnd(msg: seq<byte>, pos: nat, labels: seq<seq<byte>>): Option<nat>
    decreases |labels|
  {
    if labels == [] then Some(pos)
    else if LabelAt(msg, pos, labels[0]) then LabelsEnd(msg, pos + 1 + |labels[0]|, labels[1..])
    else None
  }

  predicate HeaderFits(msg: seq<byte>, id: nat) {
    |msg| >= 12 && Word(msg, 0) == id && msg[2] >= 0x80 && Word(msg, 4) == 1
  }

  predicate Matches(msg: seq<byte>, id: nat, name: seq<byte>, qtype: nat) {
    && HeaderFits(msg, id)
    && LabelsEnd(msg, 12, Labels(name)).Some?
    && var end := LabelsEnd(msg, 12, Labels(name)).value;
    end + 5 <= |msg| && msg[end] == 0 && Word(msg, end + 1) == qtype
  }

  lemma LabelsNext(msg: seq<byte>, pos: nat, parts: seq<seq<byte>>, i: nat)
    requires i < |parts|
    ensures LabelsEnd(msg, pos, NonEmpty(parts[i..]))
         == if parts[i] == [] then LabelsEnd(msg, pos, NonEmpty(parts[i + 1..]))
            else if LabelAt(msg, pos, parts[i]) then LabelsEnd(msg, pos + 1 + |parts[i]|, NonEmpty(parts[i + 1..]))
            else None
  {
    hide LabelAt;
    WireNext(parts, i);
    if parts[i] != [] {
      assert NonEmpty(parts[i..])[1..] == NonEmpty(parts[i + 1..]);
    } else {
      assert NonEmpty(parts[i..]) == NonEmpty(parts[i + 1..]);
    }
  }

  method ResponseMatches(msg: seq<byte>, id: nat, name: seq<byte>, qtype: nat) returns (r: bool)
    ensures r == Matches(msg, id, name, qtype)
  {
    hide Split, LabelsEnd, SameLetters;
    if |msg| < 12 {
      return false;
    }
    if Word(msg, 0) != id {
      return false;
    }
    if msg[2] < 0x80 {
      return false;
    }
    if Word(msg, 4) != 1 {
      return false;
    }
    var pos := 12;
    var parts := Split(name);
    for i := 0 to |parts|
      invariant LabelsEnd(msg, 12, Labels(name)) == LabelsEnd(msg, pos, NonEmpty(parts[i..]))
    {
      var piece := parts[i];
      LabelsNext(msg, pos, parts, i);
      if piece == [] {
        continue;
      }
      if pos >= |msg| || msg[pos] as int != |piece| {
        return false;
      }
      pos := pos + 1;
      var end := pos + |piece|;
      if end > |msg| {
        return false;
      }
      if !SameLetters(msg[pos..end], piece) {
        return false;
      }
      pos := end;
    }
    LabelsOver(msg, pos, parts);
    if pos >= |msg| || msg[pos] != 0 {
      return false;
    }
    pos := pos + 1;
    if pos + 4 > |msg| {
      return false;
    }
    return Word(msg, pos) == qtype;
  }

  lemma LabelsOver(msg: seq<byte>, pos: nat, parts: seq<seq<byte>>)
    ensures LabelsEnd(msg, pos, NonEmpty(parts[|parts|..])) == Some(pos)
  {
    assert parts[|parts|..] == [];
  }

  // A name's labels, with and without its trailing dot.

  lemma {:induction false} SplitDot(s: seq<byte>)
    ensures Split(s + [DOT]) == Split(s) + [[]]
  {
    if s == [] {
      assert Split([DOT]) == [[]] + Split([DOT][1..]);
    } else {
      SplitDot(s[1..]);
      assert (s + [DOT])[1..] == s[1..] + [DOT];
    }
  }

  lemma {:induction false} NonEmptyAll(parts: seq<seq<byte>>)
    requires ValidLabels(parts)
    ensures NonEmpty(parts) == parts && NonEmpty(parts + [[]]) == parts
  {
    var tail: seq<seq<byte>> := [[]];
    if parts == [] {
      assert parts + tail == tail && NonEmpty(tail) == [] + NonEmpty(tail[1..]);
    } else {
      NonEmptyAll(parts[1..]);
      assert (parts + tail)[1..] == parts[1..] + tail;
    }
  }

  /** A valid name's labels are its parts between dots, whether or not it ends in one. */
  lemma LabelsOfDomain(name: seq<byte>)
    requires ValidDomain(name)
    ensures Labels(name) == Split(Stripped(name)) && ValidLabels(Labels(name))
  {
    hide Split, ValidLabels;
    var s := Stripped(name);
    NonEmptyAll(Split(s));
    if s != name {
      SplitDot(s);
      assert name == s + [DOT];
    }
  }

  // The exact condition for a match.

  /** Length bytes have no letter case, so labels match exactly where their bytes do up to case. */
  lemma {:induction false} LabelsEndIs(msg: seq<byte>, pos: nat, labels: seq<seq<byte>>)
    requires ValidLabels(labels) && pos <= |msg|
    ensures LabelsEnd(msg, pos, labels).Some?
            <==> pos + |Wire(labels)| <= |msg| && SameLetters(msg[pos..pos + |Wire(labels)|], Wire(labels))
    ensures LabelsEnd(msg, pos, labels).Some? ==> LabelsEnd(msg, pos, labels).value == pos + |Wire(labels)|
    decreases |labels|
  {
    hide SameLetters, LabelByte;
    if labels == [] {
      NothingMore(msg, pos);
    } else {
      LabelOnWire(msg, pos, labels[0], Wire(labels[1..]));
      if LabelAt(msg, pos, labels[0]) {
        LabelsEndIs(msg, pos + 1 + |labels[0]|, labels[1..]);
      }
    }
  }

  lemma NothingMore(msg: seq<byte>, pos: nat)
    requires pos <= |msg|
    ensures SameLetters(msg[pos..pos + |Wire([])|], Wire([]))
  {
  }

  lemma Stretch(msg: seq<byte>, pos: nat, k: nat, end: nat)
    requires pos + 1 + k <= end <= |msg|
    ensures msg[pos..end] == [msg[pos]] + (msg[pos + 1..pos + 1 + k] + msg[pos + 1 + k..end])
  {
  }

  lemma LabelOnWire(msg: seq<byte>, pos: nat, piece: seq<byte>, rest: seq<byte>)
    requires ValidLabel(piece)
    ensures var bytes := [|piece| % 256] + piece + rest;
            pos + |bytes| <= |msg| ==>
              (SameLetters(msg[pos..pos + |bytes|], bytes)
               <==> LabelAt(msg, pos, piece) && SameLetters(msg[pos + 1 + |piece|..pos + |bytes|], rest))
  {
    hide LabelByte, LowerByte, SameLetters;
    var size, k := [|piece| % 256], |piece|;
    var bytes := size + piece + rest;
    var end := pos + |bytes|;
    if end <= |msg| {
      Associates(size, piece, rest);
      Stretch(msg, pos, k, end);
      SameTwo([msg[pos]], size, msg[pos + 1..pos + 1 + k] + msg[pos + 1 + k..end], piece + rest);
      SameTwo(msg[pos + 1..pos + 1 + k], piece, msg[pos + 1 + k..end], rest);
      SameOne(msg[pos], k);
    }
  }

  lemma SameOne(b: byte, n: nat)
    requires n <= 63
    ensures SameLetters([b], [n % 256]) <==> b == n
  {
    assert SameLetters([b], [n % 256]) ==> LowerByte([b][0]) == LowerByte([n % 256][0]);
  }

  lemma SameTwo(a: seq<byte>, b: seq<byte>, c: seq<byte>, d: seq<byte>)
    requires |a| == |b|
    ensures SameLetters(a + c, b + d) <==> SameLetters(a, b) && SameLetters(c, d)
  {
    if SameLetters(a + c, b + d) {
      forall i | 0 <= i < |a| ensures LowerByte(a[i]) == LowerByte(b[i]) {
        assert (a + c)[i] == a[i] && (b + d)[i] == b[i];
      }
      forall i | 0 <= i < |c| ensures LowerByte(c[i]) == LowerByte(d[i]) {
        assert (a + c)[|a| + i] == c[i] && (b + d)[|a| + i] == d[i];
      }
    }
  }

  /** The name of the question, up to letter case. */
  predicate NameFits(msg: seq<byte>, name: seq<byte>) {
    var n := |NameOnWire(name)|;
    12 + n <= |msg| && SameLetters(msg[12..12 + n], NameOnWire(name))
  }

  /**
   * A reply is taken exactly when its header agrees, it asks one question, for this name up to
   * letter case and for this type, and two bytes more have come: those of the class, whatever they are.
   */
  lemma MatchesExactly(msg: seq<byte>, id: nat, name: seq<byte>, qtype: nat)
    requires ValidDomain(name)
    ensures Matches(msg, id, name, qtype)
            <==> HeaderFits(msg, id) && NameFits(msg, name)
                 && 16 + |NameOnWire(name)| <= |msg| && Word(msg, 12 + |NameOnWire(name)|) == qtype
  {
    hide Labels, ValidDomain, ValidLabels, LabelsEnd, SameLetters, Wire;
    LabelsOfDomain(name);
    if |msg| >= 12 {
      LabelsEndIs(msg, 12, Labels(name));
    }
    var n := |Wire(Labels(name))|;
    if 12 + n + 1 <= |msg| {
      assert msg[12..12 + n + 1] == msg[12..12 + n] + [msg[12 + n]];
      SameTwo(msg[12..12 + n], Wire(Labels(name)), [msg[12 + n]], [0]);
      SameOne(msg[12 + n], 0);
    }
  }

  lemma TwoAndTwo(msg: seq<byte>, n: nat, first: seq<byte>, last: seq<byte>)
    requires n + 4 <= |msg| && |first| == |last| == 2
    ensures msg[n..n + 4] == first + last <==> msg[n..n + 2] == first && msg[n + 2..n + 4] == last
  {
    var four := msg[n..n + 4];
    assert four == msg[n..n + 2] + msg[n + 2..n + 4];
    assert four[..2] == msg[n..n + 2] && four[2..] == msg[n + 2..n + 4];
    assert (first + last)[..2] == first && (first + last)[2..] == last;
  }

  /** What the class would have to be for the question to be the one that was written. */
  lemma WholeQuestion(msg: seq<byte>, id: nat, name: seq<byte>, qtype: nat)
    requires ValidDomain(name) && qtype < 0x1_0000
    ensures var n := 12 + |NameOnWire(name)|;
            HeaderFits(msg, id) && NameFits(msg, name) && n + 4 <= |msg|
            && msg[n..n + 4] == BigEndian(qtype, 2) + [0, 1]
            <==> Matches(msg, id, name, qtype) && n + 4 <= |msg| && msg[n + 2..n + 4] == [0, 1]
  {
    hide Matches, ValidDomain, HeaderFits, NameFits, BigEndian, NameOnWire, Word;
    MatchesExactly(msg, id, name, qtype);
    var n := 12 + |NameOnWire(name)|;
    if n + 4 <= |msg| {
      TwoAndTwo(msg, n, BigEndian(qtype, 2), [0, 1]);
      WordIs(msg, n, qtype);
    }
  }

  lemma WordIs(buf: seq<byte>, at: nat, v: nat)
    requires at + 2 <= |buf| && v < 0x1_0000
    ensures buf[at..at + 2] == BigEndian(v, 2) <==> Word(buf, at) == v
  {
    assert BigEndian(v, 2) == BigEndian(v / 256, 1) + [v % 256];
    assert BigEndian(v / 256, 1) == BigEndian(v / 256 / 256, 0) + [v / 256 % 256];
    assert BigEndian(v, 2) == [v / 256, v % 256];
  }

  /** A reply that gives the question back is taken, whatever class it says the question was of. */
  lemma EchoMatches(id: nat, flags: seq<byte>, counts: seq<byte>, name: seq<byte>, qtype: nat,
        qclass: seq<byte>, rest: seq<byte>)
    requires ValidDomain(name) && id < 0x1_0000 && qtype < 0x1_0000
    requires |flags| == 2 && flags[0] >= 0x80 && |counts| == 6 && |qclass| == 2
    ensures Matches(BigEndian(id, 2) + flags + [0, 1] + counts + NameOnWire(name) + BigEndian(qtype, 2) + qclass + rest,
                    id, name, qtype)
  {
    hide Matches, ValidDomain, BigEndian, NameOnWire, Word, LowerByte;
    var head := BigEndian(id, 2) + flags + [0, 1] + counts;
    var msg := head + NameOnWire(name) + BigEndian(qtype, 2) + qclass + rest;
    var n := |NameOnWire(name)|;
    assert msg[0..2] == BigEndian(id, 2) && msg[2] == flags[0] && msg[4..6] == [0, 1];
    assert msg[12..12 + n] == NameOnWire(name);
    assert msg[12 + n..12 + n + 2] == BigEndian(qtype, 2);
    WordIs(msg, 0, id);
    WordIs(msg, 4, 1);
    assert BigEndian(1, 2) == [0, 1] by {
      WordIs([0, 1], 0, 1);
      assert Word([0, 1], 0) == 1 by { OneIs(); }
      assert [0, 1][0..2] == [0, 1];
    }
    WordIs(msg, 12 + n, qtype);
    MatchesExactly(msg, id, name, qtype);
  }

  lemma OneIs()
    ensures Word([0, 1], 0) == 1
  {
  }

  // One question is about one name.

  /** The parts with dots between them. */
  function Joined(parts: seq<seq<byte>>): seq<byte>
    requires parts != []
  {
    if |parts| == 1 then parts[0] else parts[0] + [DOT] + Joined(parts[1..])
  }

  lemma {:induction false} JoinedSplit(s: seq<byte>)
    ensures Joined(Split(s)) == s
  {
    if s != [] {
      var rest := Split(s[1..]);
      JoinedSplit(s[1..]);
      if s[0] == DOT {
        assert ([[]] + rest)[1..] == rest;
        assert [] + [DOT] + Joined(rest) == s;
      } else {
        var parts := [[s[0]] + rest[0]] + rest[1..];
        assert parts[1..] == rest[1..];
        if |rest| > 1 {
          assert [s[0]] + rest[0] + [DOT] + Joined(rest[1..]) == [s[0]] + (rest[0] + [DOT] + Joined(rest[1..]));
        }
      }
    }
  }

  predicate SameLabels(a: seq<seq<byte>>, b: seq<seq<byte>>) {
    |a| == |b| && forall i :: 0 <= i < |a| ==> SameLetters(a[i], b[i])
  }

  lemma {:induction false} SameJoined(a: seq<seq<byte>>, b: seq<seq<byte>>)
    requires a != [] && SameLabels(a, b)
    ensures SameLetters(Joined(a), Joined(b))
  {
    assert SameLetters(a[0], b[0]) && |a[0]| == |b[0]|;
    hide SameLetters;
    if |a| > 1 {
      SameJoined(a[1..], b[1..]);
      SameTwo(a[0], b[0], [DOT], [DOT]);
      SameItself([DOT]);
      SameTwo(a[0] + [DOT], b[0] + [DOT], Joined(a[1..]), Joined(b[1..]));
    }
  }

  lemma SameItself(a: seq<byte>)
    ensures SameLetters(a, a)
  {
  }

  lemma {:induction false} SameStretch(msg: seq<byte>, pos: nat, a: seq<seq<byte>>, b: seq<seq<byte>>)
    requires ValidLabels(a) && ValidLabels(b)
    requires LabelsEnd(msg, pos, a).Some? && LabelsEnd(msg, pos, b).Some?
    requires var end := LabelsEnd(msg, pos, a).value; end < |msg| && msg[end] == 0
    requires var end := LabelsEnd(msg, pos, b).value; end < |msg| && msg[end] == 0
    ensures SameLabels(a, b)
    decreases |a|
  {
    hide LabelByte;
    if a != [] && b != [] {
      assert |a[0]| == |b[0]| && SameLetters(a[0], b[0]);
      hide SameLetters;
      SameStretch(msg, pos + 1 + |a[0]|, a[1..], b[1..]);
      assert a == [a[0]] + a[1..] && b == [b[0]] + b[1..];
    }
  }

  /** A reply is never taken for two names that differ by more than letter case and a trailing dot. */
  lemma OneName(msg: seq<byte>, id: nat, qtype: nat, name: seq<byte>, other: seq<byte>)
    requires ValidDomain(name) && ValidDomain(other)
    requires Matches(msg, id, name, qtype) && Matches(msg, id, other, qtype)
    ensures SameLetters(Stripped(name), Stripped(other))
  {
    LabelsOfDomain(name);
    LabelsOfDomain(other);
    hide Labels, ValidDomain, ValidLabels, LabelsEnd, SameLetters, SameLabels, Split, Word, Stripped;
    SameStretch(msg, 12, Labels(name), Labels(other));
    SameJoined(Labels(name), Labels(other));
    JoinedSplit(Stripped(name));
    JoinedSplit(Stripped(other));
  }
}
