/** The ech parameter of the first HTTPS record of a DNS reply (section 4.1 of RFC 1035, section 2.2 of RFC 9460). */
module DnsAnswer {
  import opened Bytes
  import opened Varint
  import opened DnsQuery

  const RR_HTTPS := 65

  const SVCPARAM_ECH := 5

  // What the code reads out of any bytes at all.

  /** Where the name at `pos` ends: behind its root label or, compressed, its offset. */
  function NameEnd(buf: seq<byte>, pos: nat): Option<nat>
    decreases |buf| - pos
  {
    if pos >= |buf| then None
    else if buf[pos] >= 0xC0 then Some(pos + 2)
    else if buf[pos] == 0 then Some(pos + 1)
    else NameEnd(buf, pos + 1 + buf[pos])
  }

  method SkipName(buf: seq<byte>, from: nat) returns (r: Option<nat>)
    ensures r == NameEnd(buf, from)
  {
    var pos := from;
    while pos < |buf|
      invariant NameEnd(buf, from) == NameEnd(buf, pos)
    {
      var n: int := buf[pos];
      if n >= 0xC0 {
        return Some(pos + 2);
      }
      if n == 0 {
        return Some(pos + 1);
      }
      pos := pos + 1 + n;
    }
    return None;
  }

  function EchFrom(msg: seq<byte>, p: nat, end: nat): Option<seq<byte>>
    requires end <= |msg|
    decreases end - p
  {
    if p + 4 > end then None
    else
      var n := Word(msg, p + 2);
      if p + 4 + n > end then None
      else if Word(msg, p) == SVCPARAM_ECH then Some(msg[p + 4..p + 4 + n])
      else EchFrom(msg, p + 4 + n, end)
  }

  function EchIn(msg: seq<byte>, start: nat, n: nat): Option<seq<byte>>
    requires start + n <= |msg|
  {
    if n < 2 then None
    else match NameEnd(msg, start + 2)
      case None => None
      case Some(p) => EchFrom(msg, p, start + n)
  }

  method ParseSvcParamsEch(msg: seq<byte>, start: nat, n: nat) returns (r: Option<seq<byte>>)
    requires start + n <= |msg|
    ensures r == EchIn(msg, start, n)
  {
    hide NameEnd, Word;
    var end := start + n;
    if start + 2 > end {
      return None;
    }
    var name := SkipName(msg, start + 2);
    if name.None? {
      return None;
    }
    var p := name.value;
    while p + 4 <= end
      invariant EchFrom(msg, name.value, end) == EchFrom(msg, p, end)
    {
      var key := Word(msg, p);
      var len := Word(msg, p + 2);
      p := p + 4;
      if p + len > end {
        return None;
      }
      if key == SVCPARAM_ECH {
        return Some(msg[p..p + len]);
      }
      p := p + len;
    }
    return None;
  }

  /** Where `n` questions from `pos` on end. */
  function QuestionsEnd(msg: seq<byte>, pos: nat, n: nat): Option<nat>
    decreases n
  {
    if n == 0 then Some(pos)
    else match NameEnd(msg, pos)
      case None => None
      case Some(p) => QuestionsEnd(msg, p + 4, n - 1)
  }

  function AnswersEch(msg: seq<byte>, pos: nat, n: nat): Option<seq<byte>>
    decreases n
  {
    if n == 0 then None
    else match NameEnd(msg, pos)
      case None => None
      case Some(p) =>
        if p + 10 > |msg| || p + 10 + Word(msg, p + 8) > |msg| then None
        else
          var size := Word(msg, p + 8);
          var found := if Word(msg, p) == RR_HTTPS then EchIn(msg, p + 10, size) else None;
          if found.Some? then found else AnswersEch(msg, p + 10 + size, n - 1)
  }

  function HttpsEch(msg: seq<byte>): Option<seq<byte>> {
    if |msg| < 12 then None
    else match QuestionsEnd(msg, 12, Word(msg, 4))
      case None => None
      case Some(pos) => AnswersEch(msg, pos, Word(msg, 6))
  }

  method SkipQuestions(msg: seq<byte>, from: nat, n: nat) returns (r: Option<nat>)
    ensures r == QuestionsEnd(msg, from, n)
  {
    hide NameEnd;
    var pos := from;
    for i := 0 to n
      invariant QuestionsEnd(msg, from, n) == QuestionsEnd(msg, pos, n - i)
    {
      var name := SkipName(msg, pos);
      if name.None? {
        return None;
      }
      pos := name.value + 4;
    }
    return Some(pos);
  }

  method ParseHttpsEch(msg: seq<byte>) returns (r: Option<seq<byte>>)
    ensures r == HttpsEch(msg)
  {
    hide NameEnd, EchIn, QuestionsEnd;
    if |msg| < 12 {
      return None;
    }
    var qd := Word(msg, 4);
    var an := Word(msg, 6);
    var start := SkipQuestions(msg, 12, qd);
    if start.None? {
      return None;
    }
    var pos: nat := start.value;
    for i := 0 to an
      invariant HttpsEch(msg) == AnswersEch(msg, pos, an - i)
    {
      var name := SkipName(msg, pos);
      if name.None? {
        return None;
      }
      pos := name.value;
      if pos + 10 > |msg| {
        return None;
      }
      var rtype := Word(msg, pos);
      var size := Word(msg, pos + 8);
      pos := pos + 10;
      if pos + size > |msg| {
        return None;
      }
      if rtype == RR_HTTPS {
        var ech := ParseSvcParamsEch(msg, pos, size);
        if ech.Some? {
          return ech;
        }
      }
      pos := pos + size;
    }
    return None;
  }

  // What a server writes.

  /** A name ends at the root or goes on at an offset, `jump`. */
  datatype Name = Name(labels: seq<seq<byte>>, jump: Option<nat>)

  predicate NameFine(name: Name) {
    (forall i :: 0 <= i < |name.labels| ==> 1 <= |name.labels[i]| <= 63)
    && (name.jump.Some? ==> name.jump.value < 0x4000)
  }

  function NameEnding(name: Name): seq<byte>
    requires NameFine(name)
  {
    match name.jump
    case None => [0]
    case Some(p) => [0xC0 + p / 256, p % 256]
  }

  function EncodeName(name: Name): seq<byte>
    requires NameFine(name)
  {
    Wire(name.labels) + NameEnding(name)
  }

  datatype SvcParam = SvcParam(key: nat, value: seq<byte>)

  predicate ParamFine(param: SvcParam) {
    param.key < 0x1_0000 && |param.value| < 0x1_0000
  }

  function EncodeParam(param: SvcParam): seq<byte> {
    BigEndian(param.key, 2) + BigEndian(|param.value|, 2) + param.value
  }

  function EncodeParams(params: seq<SvcParam>): seq<byte> {
    if params == [] then [] else EncodeParam(params[0]) + EncodeParams(params[1..])
  }

  datatype Rdata = Https(priority: nat, target: Name, params: seq<SvcParam>) | Other(kind: nat, bytes: seq<byte>)

  predicate RdataFine(data: Rdata) {
    match data
    case Https(priority, target, params) => NameFine(target) && forall i :: 0 <= i < |params| ==> ParamFine(params[i])
    case Other(kind, bytes) => kind < 0x1_0000 && kind != RR_HTTPS
  }

  function EncodeRdata(data: Rdata): seq<byte>
    requires RdataFine(data)
  {
    match data
    case Https(priority, target, params) => BigEndian(priority, 2) + EncodeName(target) + EncodeParams(params)
    case Other(_, bytes) => bytes
  }

  function KindOf(data: Rdata): nat {
    if data.Https? then RR_HTTPS else data.kind
  }

  /** `fixed` is the class and the time to live. */
  datatype Record = Record(owner: Name, fixed: seq<byte>, data: Rdata)

  predicate RecordFine(record: Record) {
    NameFine(record.owner) && |record.fixed| == 6 && RdataFine(record.data) && |EncodeRdata(record.data)| < 0x1_0000
  }

  function EncodeRecord(record: Record): seq<byte>
    requires RecordFine(record)
  {
    var data := EncodeRdata(record.data);
    EncodeName(record.owner) + (BigEndian(KindOf(record.data), 2) + record.fixed + BigEndian(|data|, 2) + data)
  }

  predicate RecordsFine(records: seq<Record>) {
    forall i :: 0 <= i < |records| ==> RecordFine(records[i])
  }

  function EncodeRecords(records: seq<Record>): seq<byte>
    requires RecordsFine(records)
  {
    if records == [] then [] else EncodeRecord(records[0]) + EncodeRecords(records[1..])
  }

  /** `kind` is the type and the class. */
  datatype Question = Question(name: Name, kind: seq<byte>)

  predicate QuestionsFine(questions: seq<Question>) {
    forall i :: 0 <= i < |questions| ==> NameFine(questions[i].name) && |questions[i].kind| == 4
  }

  function EncodeQuestions(questions: seq<Question>): seq<byte>
    requires QuestionsFine(questions)
  {
    if questions == [] then [] else EncodeName(questions[0].name) + questions[0].kind + EncodeQuestions(questions[1..])
  }

  /** `opening` is the id and the flags, `counts` those of the sections that follow in `rest`. */
  datatype Reply = Reply(
    opening: seq<byte>,
    questions: seq<Question>,
    answers: seq<Record>,
    counts: seq<byte>,
    rest: seq<byte>)

  predicate ReplyFine(reply: Reply) {
    && |reply.opening| == 4 && |reply.counts| == 4
    && QuestionsFine(reply.questions) && RecordsFine(reply.answers)
    && |reply.questions| < 0x1_0000 && |reply.answers| < 0x1_0000
  }

  function EncodeReply(reply: Reply): seq<byte>
    requires ReplyFine(reply)
  {
    reply.opening + BigEndian(|reply.questions|, 2) + BigEndian(|reply.answers|, 2) + reply.counts
    + (EncodeQuestions(reply.questions) + (EncodeRecords(reply.answers) + reply.rest))
  }

  // What a reader should find in it.

  function EchOf(params: seq<SvcParam>): Option<seq<byte>> {
    if params == [] then None
    else if params[0].key == SVCPARAM_ECH then Some(params[0].value)
    else EchOf(params[1..])
  }

  function EchOfRecord(record: Record): Option<seq<byte>> {
    if record.data.Https? then EchOf(record.data.params) else None
  }

  /** The value of the first HTTPS record that has one. */
  function FirstEch(records: seq<Record>): Option<seq<byte>> {
    if records == [] then None
    else if EchOfRecord(records[0]).Some? then EchOfRecord(records[0])
    else FirstEch(records[1..])
  }

  // That it does.

  lemma Tail(buf: seq<byte>, at: nat, first: seq<byte>, rest: seq<byte>)
    requires at <= |buf| && buf[at..] == first + rest
    ensures at + |first| <= |buf| && buf[at..at + |first|] == first && buf[at + |first|..] == rest
  {
    assert |buf| - at == |first| + |rest|;
    assert buf[at..][..|first|] == first && buf[at..][|first|..] == rest;
  }

  lemma WordReads(buf: seq<byte>, at: nat, v: nat, rest: seq<byte>)
    requires at <= |buf| && v < 0x1_0000 && buf[at..] == BigEndian(v, 2) + rest
    ensures at + 2 <= |buf| && Word(buf, at) == v && buf[at + 2..] == rest
  {
    hide BigEndian, Word;
    Tail(buf, at, BigEndian(v, 2), rest);
    WordIs(buf, at, v);
  }

  lemma EndingSkipped(buf: seq<byte>, at: nat, name: Name, rest: seq<byte>)
    requires NameFine(name) && at <= |buf| && buf[at..] == NameEnding(name) + rest
    ensures NameEnd(buf, at) == Some(at + |NameEnding(name)|)
  {
    Tail(buf, at, NameEnding(name), rest);
    assert buf[at] == buf[at..][0];
  }

  lemma LabelSkipped(buf: seq<byte>, at: nat, one: seq<byte>, rest: seq<byte>)
    requires 1 <= |one| <= 63 && at <= |buf| && buf[at..] == [|one| % 256] + one + rest
    ensures NameEnd(buf, at) == NameEnd(buf, at + 1 + |one|)
    ensures at + 1 + |one| <= |buf| && buf[at + 1 + |one|..] == rest
  {
    Tail(buf, at, [|one| % 256] + one, rest);
    assert buf[at] == buf[at..][0] == |one|;
  }

  lemma NameParts(name: Name)
    requires NameFine(name)
    ensures name.labels == [] ==> EncodeName(name) == NameEnding(name)
    ensures name.labels != [] ==> var one, less := name.labels[0], name.(labels := name.labels[1..]);
                                  NameFine(less) && 1 <= |one| <= 63
                                  && EncodeName(name) == [|one| % 256] + one + EncodeName(less)
  {
  }

  lemma {:induction false} NameSkipped(buf: seq<byte>, at: nat, name: Name, rest: seq<byte>)
    requires NameFine(name) && at <= |buf| && buf[at..] == EncodeName(name) + rest
    ensures NameEnd(buf, at) == Some(at + |EncodeName(name)|)
    ensures at + |EncodeName(name)| <= |buf| && buf[at + |EncodeName(name)|..] == rest
    decreases |name.labels|
  {
    hide NameEnding, EncodeName, NameEnd, NameFine;
    NameParts(name);
    Tail(buf, at, EncodeName(name), rest);
    if name.labels == [] {
      EndingSkipped(buf, at, name, rest);
    } else {
      var one, less := name.labels[0], name.(labels := name.labels[1..]);
      assert buf[at..] == [|one| % 256] + one + (EncodeName(less) + rest);
      LabelSkipped(buf, at, one, EncodeName(less) + rest);
      NameSkipped(buf, at + 1 + |one|, less, rest);
    }
  }

  lemma {:induction false} ParamsRead(buf: seq<byte>, at: nat, params: seq<SvcParam>, end: nat, rest: seq<byte>)
    requires forall i :: 0 <= i < |params| ==> ParamFine(params[i])
    requires at <= |buf| && buf[at..] == EncodeParams(params) + rest && end == at + |EncodeParams(params)| <= |buf|
    ensures EchFrom(buf, at, end) == EchOf(params)
    decreases |params|
  {
    hide BigEndian, Word;
    if params != [] {
      var param, more := params[0], EncodeParams(params[1..]);
      assert ParamFine(param);
      var size := |param.value|;
      assert buf[at..] == BigEndian(param.key, 2) + (BigEndian(size, 2) + (param.value + (more + rest)));
      WordReads(buf, at, param.key, BigEndian(size, 2) + (param.value + (more + rest)));
      WordReads(buf, at + 2, size, param.value + (more + rest));
      Tail(buf, at + 4, param.value, more + rest);
      if param.key != SVCPARAM_ECH {
        ParamsRead(buf, at + 4 + size, params[1..], end, rest);
      }
    }
  }

  lemma HttpsParts(data: Rdata, rest: seq<byte>)
    requires RdataFine(data) && data.Https?
    ensures var name, params := EncodeName(data.target), EncodeParams(data.params);
            && EncodeRdata(data) + rest == BigEndian(data.priority, 2) + (name + (params + rest))
            && |EncodeRdata(data)| == 2 + |name| + |params|
  {
    hide BigEndian, EncodeName, EncodeParams, NameFine, ParamFine;
  }

  lemma HttpsRead(buf: seq<byte>, at: nat, data: Rdata, rest: seq<byte>)
    requires RdataFine(data) && data.Https?
    requires at <= |buf| && buf[at..] == EncodeRdata(data) + rest
    ensures at + |EncodeRdata(data)| <= |buf| && EchIn(buf, at, |EncodeRdata(data)|) == EchOf(data.params)
  {
    hide BigEndian, NameEnd, EncodeName, EncodeParams, EncodeRdata, EchFrom, EchOf, NameFine, ParamFine;
    HttpsParts(data, rest);
    var name, params := EncodeName(data.target), EncodeParams(data.params);
    Tail(buf, at, EncodeRdata(data), rest);
    Tail(buf, at, BigEndian(data.priority, 2), name + (params + rest));
    NameSkipped(buf, at + 2, data.target, params + rest);
    ParamsRead(buf, at + 2 + |name|, data.params, at + |EncodeRdata(data)|, rest);
  }

  /** What `AnswersEch` does with one record. */
  lemma RecordRead(buf: seq<byte>, at: nat, record: Record, n: nat, rest: seq<byte>)
    requires RecordFine(record) && n > 0 && at <= |buf| && buf[at..] == EncodeRecord(record) + rest
    ensures at + |EncodeRecord(record)| <= |buf| && buf[at + |EncodeRecord(record)|..] == rest
    ensures AnswersEch(buf, at, n)
         == if EchOfRecord(record).Some? then EchOfRecord(record)
            else AnswersEch(buf, at + |EncodeRecord(record)|, n - 1)
  {
    hide BigEndian, Word, NameEnd, EncodeName, EncodeRdata, EchIn, EchOf;
    var name, data := EncodeName(record.owner), EncodeRdata(record.data);
    var kind := KindOf(record.data);
    assert kind < 0x1_0000 && (kind == RR_HTTPS <==> record.data.Https?);
    var tail := record.fixed + (BigEndian(|data|, 2) + (data + rest));
    assert buf[at..] == name + (BigEndian(kind, 2) + tail);
    NameSkipped(buf, at, record.owner, BigEndian(kind, 2) + tail);
    var p := at + |name|;
    WordReads(buf, p, kind, tail);
    Tail(buf, p + 2, record.fixed, BigEndian(|data|, 2) + (data + rest));
    WordReads(buf, p + 8, |data|, data + rest);
    Tail(buf, p + 10, data, rest);
    if record.data.Https? {
      HttpsRead(buf, p + 10, record.data, rest);
    }
  }

  lemma RecordsParts(records: seq<Record>, rest: seq<byte>)
    requires RecordsFine(records) && records != []
    ensures RecordFine(records[0]) && RecordsFine(records[1..])
    ensures EncodeRecords(records) + rest == EncodeRecord(records[0]) + (EncodeRecords(records[1..]) + rest)
  {
    hide EncodeRecord, RecordFine;
  }

  lemma NoAnswers(buf: seq<byte>, at: nat)
    ensures AnswersEch(buf, at, 0).None?
  {
  }

  lemma {:induction false} AnswersRead(buf: seq<byte>, at: nat, records: seq<Record>, rest: seq<byte>)
    requires RecordsFine(records) && at <= |buf| && buf[at..] == EncodeRecords(records) + rest
    ensures AnswersEch(buf, at, |records|) == FirstEch(records)
    decreases |records|
  {
    hide EncodeRecord, EncodeRecords, RecordFine, RecordsFine, EchOfRecord, AnswersEch;
    if records == [] {
      NoAnswers(buf, at);
    } else {
      RecordsParts(records, rest);
      RecordRead(buf, at, records[0], |records|, EncodeRecords(records[1..]) + rest);
      AnswersRead(buf, at + |EncodeRecord(records[0])|, records[1..], rest);
    }
  }

  lemma {:induction false} QuestionsRead(buf: seq<byte>, at: nat, questions: seq<Question>, rest: seq<byte>)
    requires QuestionsFine(questions) && at <= |buf| && buf[at..] == EncodeQuestions(questions) + rest
    ensures QuestionsEnd(buf, at, |questions|) == Some(at + |EncodeQuestions(questions)|)
    decreases |questions|
  {
    hide EncodeName, NameEnd, NameFine;
    if questions != [] {
      var name, kind, more := EncodeName(questions[0].name), questions[0].kind, EncodeQuestions(questions[1..]);
      assert buf[at..] == name + (kind + (more + rest));
      NameSkipped(buf, at, questions[0].name, kind + (more + rest));
      Tail(buf, at + |name|, kind, more + rest);
      QuestionsRead(buf, at + |name| + 4, questions[1..], rest);
    }
  }

  /** On every reply as a server writes it, with names compressed or not, the reader finds the first ech value. */
  lemma FirstEchIsFound(reply: Reply)
    requires ReplyFine(reply)
    ensures HttpsEch(EncodeReply(reply)) == FirstEch(reply.answers)
  {
    hide BigEndian, Word, EncodeQuestions, EncodeRecords;
    hide QuestionsEnd, AnswersEch, FirstEch, QuestionsFine, RecordsFine;
    var msg := EncodeReply(reply);
    var qd, an := BigEndian(|reply.questions|, 2), BigEndian(|reply.answers|, 2);
    var questions, answers := EncodeQuestions(reply.questions), EncodeRecords(reply.answers) + reply.rest;
    assert msg[0..] == reply.opening + (qd + (an + (reply.counts + (questions + answers))));
    Tail(msg, 0, reply.opening, qd + (an + (reply.counts + (questions + answers))));
    WordReads(msg, 4, |reply.questions|, an + (reply.counts + (questions + answers)));
    WordReads(msg, 6, |reply.answers|, reply.counts + (questions + answers));
    Tail(msg, 8, reply.counts, questions + answers);
    QuestionsRead(msg, 12, reply.questions, answers);
    Tail(msg, 12, questions, answers);
    AnswersRead(msg, 12 + |questions|, reply.answers, reply.rest);
  }

  /** The list the handshake offers: an empty value is no list. */
  function AnswerEch(msg: seq<byte>): Result<seq<byte>, ()> {
    match HttpsEch(msg)
    case Some(ech) => if ech != [] then Ok(ech) else Err(())
    case None => Err(())
  }

  lemma AnswerExactly(reply: Reply, ech: seq<byte>)
    requires ReplyFine(reply)
    ensures AnswerEch(EncodeReply(reply)) == Ok(ech) <==> FirstEch(reply.answers) == Some(ech) && ech != []
  {
    hide HttpsEch, FirstEch, EncodeReply, ReplyFine;
    FirstEchIsFound(reply);
  }
}
