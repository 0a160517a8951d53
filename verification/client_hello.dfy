/** The server name in a TLS ClientHello (section 4.1.2 of RFC 8446, section 3 of RFC 6066). */
module ClientHello {
  import opened Bytes
  import opened Varint

  // ----- Finding it -----

  /** The `n` bytes at `at`, as a number; nothing past the end. */
  function Field(buf: seq<byte>, at: nat, n: nat): Option<nat> {
    if at + n <= |buf| then Some(FromBigEndian(buf[at..at + n])) else None
  }

  /** The name of a server-name extension whose value starts at `body`. */
  function HostAt(buf: seq<byte>, body: nat): Option<(nat, nat)> {
    var entry := body + 2;
    if Field(buf, entry, 1) != Some(0) then None
    else match Field(buf, entry + 1, 2)
      case None => None
      case Some(size) => if size == 0 || entry + 3 + size > |buf| then None else Some((entry + 3, entry + 3 + size))
  }

  /** The name of the first server-name extension from `at` on. */
  function HostFrom(buf: seq<byte>, at: nat, end: nat): Option<(nat, nat)>
    decreases |buf| - at
  {
    if at + 4 > end then None
    else match (Field(buf, at, 2), Field(buf, at + 2, 2))
      case (Some(kind), Some(size)) => if kind == 0 then HostAt(buf, at + 4) else HostFrom(buf, at + 4 + size, end)
      case _ => None
  }

  /** Past a value behind its length in `n` bytes. */
  function Past(buf: seq<byte>, at: nat, n: nat): Option<nat> {
    match Field(buf, at, n)
    case None => None
    case Some(size) => Some(at + n + size)
  }

  /** Where the name is in a ClientHello: past the session ID, the cipher suites and the compression methods. */
  function HostRange(buf: seq<byte>): Option<(nat, nat)> {
    if |buf| <= 5 || buf[0] != 0x16 || buf[5] != 1 then None
    else match Past(buf, 43, 1)
      case None => None
      case Some(suites) =>
        match Past(buf, suites, 2)
        case None => None
        case Some(compression) =>
          match Past(buf, compression, 1)
          case None => None
          case Some(extensions) =>
            match Past(buf, extensions, 2)
            case None => None
            case Some(end) => HostFrom(buf, extensions + 2, end)
  }

  method SniHostRange(buf: seq<byte>) returns (r: Option<(nat, nat)>)
    ensures r == HostRange(buf)
    ensures r.Some? ==> 0 < r.value.0 < r.value.1 <= |buf|
  {
    hide Field, HostAt;
    HostRangeFits(buf);
    if |buf| <= 5 || buf[0] != 0x16 || buf[5] != 1 {
      return None;
    }
    var at: nat := 43;
    var size := Field(buf, at, 1);
    if size.None? {
      return None;
    }
    at := at + 1 + size.value;
    size := Field(buf, at, 2);
    if size.None? {
      return None;
    }
    at := at + 2 + size.value;
    size := Field(buf, at, 1);
    if size.None? {
      return None;
    }
    at := at + 1 + size.value;
    size := Field(buf, at, 2);
    if size.None? {
      return None;
    }
    var end := at + 2 + size.value;
    at := at + 2;
    while at + 4 <= end
      invariant HostRange(buf) == HostFrom(buf, at, end)
      decreases end - at
    {
      var kind := Field(buf, at, 2);
      size := Field(buf, at + 2, 2);
      if kind.None? || size.None? {
        return None;
      }
      if kind.value == 0 {
        return HostAt(buf, at + 4);
      }
      at := at + 4 + size.value;
    }
    return None;
  }

  lemma {:induction false} HostFromFits(buf: seq<byte>, at: nat, end: nat)
    ensures HostFrom(buf, at, end).Some? ==> var (a, b) := HostFrom(buf, at, end).value; at < a < b <= |buf|
    decreases |buf| - at
  {
    hide FromBigEndian;
    if at + 4 <= end && Field(buf, at, 2).Some? && Field(buf, at + 2, 2).Some? {
      HostFromFits(buf, at + 4 + Field(buf, at + 2, 2).value, end);
    }
  }

  lemma HostRangeFits(buf: seq<byte>)
    ensures HostRange(buf).Some? ==> var (a, b) := HostRange(buf).value; 0 < a < b <= |buf|
  {
    hide HostFrom, Field;
    if HostRange(buf).Some? {
      var extensions := Past(buf, Past(buf, Past(buf, 43, 1).value, 2).value, 1).value;
      HostFromFits(buf, extensions + 2, Past(buf, extensions, 2).value);
    }
  }

  // ----- Writing it -----

  datatype Extension = Extension(kind: nat, body: seq<byte>)

  predicate Encodable(e: Extension) {
    e.kind < 0x1_0000 && |e.body| < 0x1_0000
  }

  function EncodeExtension(e: Extension): seq<byte> {
    BigEndian(e.kind, 2) + BigEndian(|e.body|, 2) + e.body
  }

  function EncodeExtensions(list: seq<Extension>): seq<byte> {
    if list == [] then [] else EncodeExtension(list[0]) + EncodeExtensions(list[1..])
  }

  datatype Hello = Hello(
    version: seq<byte>,
    random: seq<byte>,
    session: seq<byte>,
    suites: seq<byte>,
    compression: seq<byte>,
    extensions: seq<Extension>)

  ghost predicate WellFormed(h: Hello) {
    && |h.version| == 2 && |h.random| == 32
    && |h.session| < 0x100 && |h.suites| < 0x1_0000 && |h.compression| < 0x100
    && (forall i :: 0 <= i < |h.extensions| ==> Encodable(h.extensions[i]))
    && |EncodeExtensions(h.extensions)| < 0x1_0000
  }

  function Vector(value: seq<byte>, n: nat): seq<byte> {
    BigEndian(|value|, n) + value
  }

  /** What follows the fixed part of a hello. */
  function Fields(h: Hello): seq<byte> {
    Vector(h.session, 1) + (Vector(h.suites, 2) +
        (Vector(h.compression, 1) + Vector(EncodeExtensions(h.extensions), 2)))
  }

  /** A record with the hello in it. */
  function Record(h: Hello, legacy: seq<byte>): seq<byte>
    requires |legacy| == 2
  {
    var body := h.version + h.random + Fields(h);
    var handshake := [1] + BigEndian(|body|, 3) + body;
    [0x16] + legacy + BigEndian(|handshake|, 2) + handshake
  }

  /** The value of a server-name extension: a list that starts with a host name. */
  function ServerName(host: seq<byte>, others: seq<byte>): seq<byte> {
    BigEndian(3 + |host| + |others|, 2) + ([0] + BigEndian(|host|, 2) + host + others)
  }

  // ----- It is found -----

  lemma FieldReads(buf: seq<byte>, at: nat, v: nat, n: nat, rest: seq<byte>)
    requires at <= |buf| && buf[at..] == BigEndian(v, n) + rest && v < Pow256(n)
    ensures Field(buf, at, n) == Some(v) && at + n <= |buf| && buf[at + n..] == rest
  {
    BigEndianReads(v, n);
    var s := BigEndian(v, n) + rest;
    assert buf[at..at + n] == s[..n] == BigEndian(v, n);
    assert buf[at + n..] == s[n..] == rest;
  }

  lemma PastReads(buf: seq<byte>, at: nat, value: seq<byte>, n: nat, rest: seq<byte>)
    requires at <= |buf| && buf[at..] == Vector(value, n) + rest && |value| < Pow256(n)
    ensures Past(buf, at, n) == Some(at + n + |value|) && at + n + |value| <= |buf| && buf[at + n + |value|..] == rest
  {
    assert Vector(value, n) + rest == BigEndian(|value|, n) + (value + rest);
    FieldReads(buf, at, |value|, n, value + rest);
    assert buf[at + n..][|value|..] == rest;
  }

  lemma Powers()
    ensures Pow256(1) == 0x100 && Pow256(2) == 0x1_0000
  {
    assert Pow256(2) == 256 * Pow256(1) && Pow256(1) == 256 * Pow256(0);
  }

  /** An extension that is not a server name is passed over. */
  lemma OtherPassed(buf: seq<byte>, at: nat, end: nat, e: Extension, rest: seq<byte>)
    requires at <= |buf| && buf[at..] == EncodeExtension(e) + rest && Encodable(e) && e.kind != 0
    requires at + 4 + |e.body| <= end
    ensures at + 4 + |e.body| <= |buf| && buf[at + 4 + |e.body|..] == rest
    ensures HostFrom(buf, at, end) == HostFrom(buf, at + 4 + |e.body|, end)
  {
    Powers();
    hide BigEndian, FromBigEndian, Pow256;
    var after := BigEndian(|e.body|, 2) + (e.body + rest);
    assert EncodeExtension(e) + rest == BigEndian(e.kind, 2) + after;
    FieldReads(buf, at, e.kind, 2, after);
    FieldReads(buf, at + 2, |e.body|, 2, e.body + rest);
    assert buf[at + 4..][|e.body|..] == rest;
  }

  /** A server-name extension gives its host. */
  lemma NameFound(buf: seq<byte>, at: nat, end: nat, host: seq<byte>, others: seq<byte>, rest: seq<byte>)
    requires |ServerName(host, others)| < 0x1_0000 && host != []
    requires at <= |buf| && buf[at..] == EncodeExtension(Extension(0, ServerName(host, others))) + rest
    requires at + 4 + |ServerName(host, others)| <= end
    ensures HostFrom(buf, at, end) == Some((at + 9, at + 9 + |host|))
    ensures at + 9 + |host| <= |buf| && buf[at + 9..at + 9 + |host|] == host
  {
    Powers();
    hide BigEndian, FromBigEndian, Pow256;
    var name := ServerName(host, others);
    var after := BigEndian(|name|, 2) + (name + rest);
    assert EncodeExtension(Extension(0, name)) + rest == BigEndian(0, 2) + after;
    FieldReads(buf, at, 0, 2, after);
    FieldReads(buf, at + 2, |name|, 2, name + rest);
    HostReads(buf, at + 4, host, others, rest);
  }

  lemma HostReads(buf: seq<byte>, body: nat, host: seq<byte>, others: seq<byte>, rest: seq<byte>)
    requires |host| < 0x1_0000 && host != []
    requires body <= |buf| && buf[body..] == ServerName(host, others) + rest
    ensures HostAt(buf, body) == Some((body + 5, body + 5 + |host|))
    ensures body + 5 + |host| <= |buf| && buf[body + 5..body + 5 + |host|] == host
  {
    Powers();
    var tail := host + others + rest;
    var s := ServerName(host, others) + rest;
    assert s[2..] == [0] + (BigEndian(|host|, 2) + tail);
    assert buf[body + 2..] == s[2..];
    assert BigEndian(0, 1) == [0];
    FieldReads(buf, body + 2, 0, 1, BigEndian(|host|, 2) + tail);
    FieldReads(buf, body + 3, |host|, 2, tail);
    assert buf[body + 5..][..|host|] == host;
  }

  lemma {:induction false} OthersPassed(buf: seq<byte>, at: nat, end: nat, list: seq<Extension>, rest: seq<byte>)
    requires at <= |buf| && buf[at..] == EncodeExtensions(list) + rest && at + |EncodeExtensions(list)| <= end
    requires forall i :: 0 <= i < |list| ==> Encodable(list[i]) && list[i].kind != 0
    ensures at + |EncodeExtensions(list)| <= |buf| && buf[at + |EncodeExtensions(list)|..] == rest
    ensures HostFrom(buf, at, end) == HostFrom(buf, at + |EncodeExtensions(list)|, end)
    decreases |list|
  {
    hide HostFrom, EncodeExtension, Encodable;
    if list == [] {
      assert EncodeExtensions(list) + rest == rest;
    } else {
      var first := EncodeExtension(list[0]);
      var more := EncodeExtensions(list[1..]) + rest;
      assert EncodeExtensions(list) + rest == first + more;
      ExtensionSize(list[0]);
      OtherPassed(buf, at, end, list[0], more);
      OthersPassed(buf, at + |first|, end, list[1..], rest);
    }
  }

  lemma ExtensionSize(e: Extension)
    ensures |EncodeExtension(e)| == 4 + |e.body|
  {
  }

  /** The extensions of a hello are where the locator looks for them, in a record that anything may follow. */
  lemma FieldsFound(h: Hello, legacy: seq<byte>, rest: seq<byte>) returns (at: nat)
    requires WellFormed(h) && |legacy| == 2
    ensures var buf := Record(h, legacy) + rest;
            var size := |EncodeExtensions(h.extensions)|;
            && at + size <= |buf| && buf[at..] == EncodeExtensions(h.extensions) + rest
            && HostRange(buf) == HostFrom(buf, at, at + size)
  {
    hide Record, Fields, HostFrom, Pow256, Vector, EncodeExtensions, Field, Past;
    Powers();
    var buf := Record(h, legacy) + rest;
    var list := EncodeExtensions(h.extensions);
    RecordIs(h, legacy, rest);
    var d := Vector(list, 2) + rest;
    var c := Vector(h.compression, 1) + d;
    var b := Vector(h.suites, 2) + c;
    assert buf[43..] == Vector(h.session, 1) + b;
    PastReads(buf, 43, h.session, 1, b);
    var suites := 44 + |h.session|;
    PastReads(buf, suites, h.suites, 2, c);
    var compression := suites + 2 + |h.suites|;
    PastReads(buf, compression, h.compression, 1, d);
    var extensions := compression + 1 + |h.compression|;
    PastReads(buf, extensions, list, 2, rest);
    at := extensions + 2;
    VectorTail(buf, extensions, list, rest);
  }

  lemma VectorTail(buf: seq<byte>, at: nat, value: seq<byte>, rest: seq<byte>)
    requires at <= |buf| && buf[at..] == Vector(value, 2) + rest
    ensures at + 2 + |value| <= |buf| && buf[at + 2..] == value + rest
  {
    assert buf[at..][2..] == value + rest;
  }

  /** What stands behind the first two of five parts. */
  lemma HeadersIs(a: seq<byte>, b: seq<byte>, handshake: seq<byte>, rest: seq<byte>)
    requires |a| == 3 && |b| == 2
    ensures (a + b + handshake + rest)[5..] == handshake + rest && |a + b + handshake + rest| == 5 + |handshake + rest|
    ensures (a + b + handshake + rest)[0] == a[0]
  {
    Associates(a + b, handshake, rest);
    Behind(a + b, handshake + rest, 0, 0);
  }

  lemma RecordIs(h: Hello, legacy: seq<byte>, rest: seq<byte>)
    requires WellFormed(h) && |legacy| == 2
    ensures var buf := Record(h, legacy) + rest;
            |buf| > 43 && buf[0] == 0x16 && buf[5] == 1 && buf[43..] == Fields(h) + rest
    ensures Fields(h) + rest == Vector(h.session, 1)
              + (Vector(h.suites, 2) + (Vector(h.compression, 1) + (Vector(EncodeExtensions(h.extensions), 2) + rest)))
  {
    FieldsParts(h, rest);
    hide BigEndian, EncodeExtensions, Fields;
    var body := h.version + h.random + Fields(h);
    var handshake := [1] + BigEndian(|body|, 3) + body;
    var buf := Record(h, legacy) + rest;
    HeadersIs([0x16] + legacy, BigEndian(|handshake|, 2), handshake, rest);
    Associates([1] + BigEndian(|body|, 3), body, rest);
    Behind([1] + BigEndian(|body|, 3), body + rest, 0, 0);
    Associates(h.version + h.random, Fields(h), rest);
    Behind(h.version + h.random, Fields(h) + rest, 0, 0);
    assert buf[5..][4..] == body + rest && buf[5..][4..][34..] == Fields(h) + rest;
    assert buf[5] == buf[5..][0];
  }

  lemma FieldsParts(h: Hello, rest: seq<byte>)
    ensures Fields(h) + rest == Vector(h.session, 1)
              + (Vector(h.suites, 2) + (Vector(h.compression, 1) + (Vector(EncodeExtensions(h.extensions), 2) + rest)))
    ensures |Fields(h)| > 0
  {
    hide EncodeExtensions, BigEndian;
    var a, b, c := Vector(h.session, 1), Vector(h.suites, 2), Vector(h.compression, 1);
    var d := Vector(EncodeExtensions(h.extensions), 2);
    hide Vector;
    Associates(a, b + (c + d), rest);
    Associates(b, c + d, rest);
    Associates(c, d, rest);
    assert |a| > 0 by { VectorSome(h.session, 1); }
  }

  lemma VectorSome(value: seq<byte>, n: nat)
    ensures |Vector(value, n)| == n + |value|
  {
  }

  /**
   * For any hello in a record, the locator gives exactly the host of its first server-name
   * extension, whatever other extensions stand before it and whatever follows the record.
   */
  lemma HostIsFound(h: Hello, legacy: seq<byte>, rest: seq<byte>, before: seq<Extension>, host: seq<byte>,
        others: seq<byte>, after: seq<Extension>)
    requires WellFormed(h) && |legacy| == 2 && host != []
    requires h.extensions == before + [Extension(0, ServerName(host, others))] + after
    requires forall i :: 0 <= i < |before| ==> before[i].kind != 0
    ensures var buf := Record(h, legacy) + rest;
            && HostRange(buf).Some?
            && var (a, b) := HostRange(buf).value; a < b <= |buf| && buf[a..b] == host
  {
    hide Record, HostFrom, HostRange, EncodeExtensions, WellFormed, ServerName;
    var at := FieldsFound(h, legacy, rest);
    var buf := Record(h, legacy) + rest;
    var name := Extension(0, ServerName(host, others));
    AllEncodable(h, before, name, after);
    var first := EncodeExtensions(before);
    var more := EncodeExtension(name) + (EncodeExtensions(after) + rest);
    EncodeAround(before, name, after, rest);
    OthersPassed(buf, at, at + |EncodeExtensions(h.extensions)|, before, more);
    NameSize(host, others);
    NameFound(buf, at + |first|, at + |EncodeExtensions(h.extensions)|, host, others, EncodeExtensions(after) + rest);
  }

  lemma NameSize(host: seq<byte>, others: seq<byte>)
    ensures |ServerName(host, others)| == 5 + |host| + |others|
  {
  }

  lemma AllEncodable(h: Hello, before: seq<Extension>, name: Extension, after: seq<Extension>)
    requires WellFormed(h) && h.extensions == before + [name] + after
    ensures Encodable(name) && forall i :: 0 <= i < |before| ==> Encodable(before[i])
  {
    assert h.extensions[|before|] == name;
    forall i | 0 <= i < |before| ensures Encodable(before[i]) {
      assert before[i] == h.extensions[i];
    }
  }

  lemma EncodeAround(before: seq<Extension>, name: Extension, after: seq<Extension>, rest: seq<byte>)
    ensures EncodeExtensions(before + [name] + after) + rest
         == EncodeExtensions(before) + (EncodeExtension(name) + (EncodeExtensions(after) + rest))
    ensures |EncodeExtensions(before + [name] + after)| ==
              |EncodeExtensions(before)| + 4 + |name.body| + |EncodeExtensions(after)|
  {
    hide EncodeExtension;
    ExtensionSize(name);
    EncodeOne(name);
    hide EncodeExtensions;
    EncodeAppend(before + [name], after);
    EncodeAppend(before, [name]);
  }

  lemma EncodeOne(e: Extension)
    ensures EncodeExtensions([e]) == EncodeExtension(e)
  {
    hide EncodeExtension;
    assert [e][1..] == [] && EncodeExtension(e) + [] == EncodeExtension(e);
  }

  /** Without a server-name extension nothing is found. */
  lemma NothingToFind(h: Hello, legacy: seq<byte>, rest: seq<byte>)
    requires WellFormed(h) && |legacy| == 2 && forall i :: 0 <= i < |h.extensions| ==> h.extensions[i].kind != 0
    ensures HostRange(Record(h, legacy) + rest).None?
  {
    hide Record, HostRange, EncodeExtensions;
    var at := FieldsFound(h, legacy, rest);
    OthersPassed(Record(h, legacy) + rest, at, at + |EncodeExtensions(h.extensions)|, h.extensions, rest);
  }

  lemma {:induction false} EncodeAppend(a: seq<Extension>, b: seq<Extension>)
    ensures EncodeExtensions(a + b) == EncodeExtensions(a) + EncodeExtensions(b)
  {
    hide EncodeExtension;
    if a == [] {
      assert a + b == b;
    } else {
      EncodeAppend(a[1..], b);
      ConsAppend(a, b);
      Associates(EncodeExtension(a[0]), EncodeExtensions(a[1..]), EncodeExtensions(b));
    }
  }
}
