/** Text as Rust reads it from bytes: UTF-8, trimming, and numbers. */
module Text {
  import opened Bytes

  predicate Continuation(b: byte) { 0x80 <= b < 0xC0 }

  function LowBits(b: byte): int { b as int - 0x80 }

  predicate Scalar(v: int) { 0 <= v < 0xD800 || 0xE000 <= v < 0x110000 }

  /** How many bytes a character takes in its one form. */
  function Utf8Len(v: int): nat {
    if v < 0x80 then 1 else if v < 0x800 then 2 else if v < 0x10000 then 3 else 4
  }

  /**
   * The character `s` starts with and how many bytes it takes, as `str::from_utf8` accepts it:
   * no overlong form, no surrogate, nothing past U+10FFFF (table 3-7 of the Unicode Standard).
   */
  function FirstChar(s: seq<byte>): (r: Option<(int, nat)>)
    requires s != []
    ensures r.Some? ==> 1 <= r.value.1 <= |s| && Scalar(r.value.0)
    ensures r.Some? ==> r.value.1 == Utf8Len(r.value.0)
  {
    var b := s[0] as int;
    if b < 0x80 then Some((b, 1))
    else if 0xC2 <= b < 0xE0 && 2 <= |s| && Continuation(s[1]) then
      Some(((b - 0xC0) * 64 + LowBits(s[1]), 2))
    else if 0xE0 <= b < 0xF0 && 3 <= |s| && Continuation(s[1]) && Continuation(s[2]) then
      var v := (b - 0xE0) * 4096 + LowBits(s[1]) * 64 + LowBits(s[2]);
      if 0x800 <= v && Scalar(v) then Some((v, 3)) else None
    else if 0xF0 <= b < 0xF5 && 4 <= |s| && Continuation(s[1]) && Continuation(s[2]) && Continuation(s[3]) then
      var v := (b - 0xF0) * 262144 + LowBits(s[1]) * 4096 + LowBits(s[2]) * 64 + LowBits(s[3]);
      if 0x10000 <= v && Scalar(v) then Some((v, 4)) else None
    else None
  }

  /** `str::from_utf8`. */
  function FromUtf8(s: seq<byte>): Option<string> {
    if s == [] then Some("")
    else match FirstChar(s)
      case None => None
      case Some((v, n)) =>
        match FromUtf8(s[n..])
        case None => None
        case Some(rest) => Some([v as char] + rest)
  }

  /** The bytes of ASCII text. */
  function Ascii(text: string): seq<byte>
    requires IsAscii(text)
  {
    seq(|text|, i requires 0 <= i < |text| => text[i] as int as byte)
  }

  predicate IsAscii(text: string) {
    forall i :: 0 <= i < |text| ==> text[i] as int < 0x80
  }

  lemma {:induction false} FromUtf8AfterAscii(text: string, rest: seq<byte>)
    requires IsAscii(text)
    requires FromUtf8(rest).Some?
    ensures FromUtf8(Ascii(text) + rest) == Some(text + FromUtf8(rest).value)
  {
    if text == "" {
      assert Ascii(text) + rest == rest;
      assert text + FromUtf8(rest).value == FromUtf8(rest).value;
    } else {
      var s := Ascii(text) + rest;
      assert s[1..] == Ascii(text[1..]) + rest;
      FromUtf8AfterAscii(text[1..], rest);
      assert [s[0] as char] + (text[1..] + FromUtf8(rest).value) == text + FromUtf8(rest).value;
    }
  }

  /** The characters `str::trim` removes: White_Space of the Unicode Standard. */
  predicate Whitespace(c: char) {
    var v := c as int;
    || 0x09 <= v <= 0x0D || v == 0x20 || v == 0x85 || v == 0xA0 || v == 0x1680
    || 0x2000 <= v <= 0x200A || v == 0x2028 || v == 0x2029 || v == 0x202F || v == 0x205F || v == 0x3000
  }

  function Trim(s: string): string
    decreases |s|
  {
    if s == "" then ""
    else if Whitespace(s[0]) then Trim(s[1..])
    else if Whitespace(s[|s| - 1]) then Trim(s[..|s| - 1])
    else s
  }

  /** What stands before the first `mark`: `split(mark).next()`. */
  function Before(s: string, mark: char): string {
    if s == "" || s[0] == mark then "" else [s[0]] + Before(s[1..], mark)
  }

  lemma {:induction false} BeforeMark(s: string, mark: char, rest: string)
    requires mark !in s
    ensures Before(s, mark) == s
    ensures Before(s + [mark] + rest, mark) == s
  {
    if s != "" {
      BeforeMark(s[1..], mark, rest);
      assert (s + [mark] + rest)[1..] == s[1..] + [mark] + rest;
    }
  }

  const USIZE_MAX: int := 0xFFFF_FFFF_FFFF_FFFF

  function Digit(c: char): Option<nat> {
    if '0' <= c <= '9' then Some(c as int - '0' as int)
    else if 'a' <= c <= 'f' then Some(c as int - 'a' as int + 10)
    else if 'A' <= c <= 'F' then Some(c as int - 'A' as int + 10)
    else None
  }

  function Digits(s: string, radix: nat): Option<nat> {
    if s == "" then Some(0)
    else match (Digits(s[..|s| - 1], radix), Digit(s[|s| - 1]))
      case (Some(high), Some(low)) => if low < radix then Some(high * radix + low) else None
      case _ => None
  }

  /** `usize::from_str_radix`: at least one digit, after a '+' or not, and no overflow. */
  function ParseUsize(s: string, radix: nat): Option<nat> {
    var digits := if s != "" && s[0] == '+' then s[1..] else s;
    if digits == "" then None
    else match Digits(digits, radix)
      case Some(n) => if n <= USIZE_MAX then Some(n) else None
      case None => None
  }

  function Lower(c: char): char {
    if 'A' <= c <= 'Z' then (c as int + 32) as char else c
  }

  /** `to_ascii_lowercase`. */
  function AsciiLower(s: string): string {
    seq(|s|, i requires 0 <= i < |s| => Lower(s[i]))
  }

  /** `n` in lower-case hexadecimal, without leading zeros; nothing for zero. */
  function HexOf(n: nat): string {
    if n == 0 then "" else HexOf(n / 16) + [HexDigit(n % 16)]
  }

  function HexDigit(d: nat): char
    requires d < 16
  {
    if d < 10 then ('0' as int + d) as char else ('a' as int + d - 10) as char
  }

  function Zeros(n: nat): string {
    seq(n, _ => '0')
  }

  lemma {:induction false} DigitsOfHex(zeros: nat, n: nat)
    ensures Digits(Zeros(zeros) + HexOf(n), 16) == Some(n)
    decreases zeros + n
  {
    var s := Zeros(zeros) + HexOf(n);
    if n > 0 {
      DigitsOfHex(zeros, n / 16);
      assert s[..|s| - 1] == Zeros(zeros) + HexOf(n / 16);
    } else if zeros > 0 {
      DigitsOfHex(zeros - 1, 0);
      assert s[..|s| - 1] == Zeros(zeros - 1) + HexOf(0);
    }
  }

  lemma {:induction false} HexIsPlain(n: nat)
    ensures forall c :: c in HexOf(n) ==> Digit(c).Some? && c as int < 0x80 && !Whitespace(c)
  {
    if n > 0 {
      HexIsPlain(n / 16);
    }
  }
}
