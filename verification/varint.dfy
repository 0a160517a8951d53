/** Numbers in network byte order, and variable-length integers (section 16 of RFC 9000). */
module Varint {
  import opened Bytes

  function Pow256(n: nat): (p: nat)
    ensures p > 0
  {
    if n == 0 then 1 else 256 * Pow256(n - 1)
  }

  /** `v` in `n` bytes, the most significant first. */
  function BigEndian(v: nat, n: nat): (s: seq<byte>)
    ensures |s| == n
  {
    if n == 0 then [] else BigEndian(v / 256, n - 1) + [v % 256]
  }

  function FromBigEndian(s: seq<byte>): nat {
    if s == [] then 0 else FromBigEndian(s[..|s| - 1]) * 256 + s[|s| - 1]
  }

  lemma {:induction false} BigEndianReads(v: nat, n: nat)
    requires v < Pow256(n)
    ensures FromBigEndian(BigEndian(v, n)) == v
  {
    if n > 0 {
      BigEndianReads(v / 256, n - 1);
      assert BigEndian(v, n)[..n - 1] == BigEndian(v / 256, n - 1);
    }
  }

  lemma {:induction false} BigEndianWrites(s: seq<byte>)
    ensures FromBigEndian(s) < Pow256(|s|) && BigEndian(FromBigEndian(s), |s|) == s
  {
    if s != [] {
      BigEndianWrites(s[..|s| - 1]);
    }
  }

  /** The lengths a variable-length integer may have. */
  predicate Width(n: nat) {
    n == 1 || n == 2 || n == 4 || n == 8
  }

  /** What the bytes after the first can hold. */
  function Rest(n: nat): nat
    requires Width(n)
  {
    if n == 1 then 1 else if n == 2 then 0x100 else if n == 4 then 0x100_0000 else 0x100_0000_0000_0000
  }

  lemma RestIs(n: nat)
    requires Width(n)
    ensures Rest(n) == Pow256(n - 1)
  {
    assert Pow256(1) == 256 && Pow256(2) == 65536 && Pow256(3) == 0x100_0000;
    assert Pow256(4) == 256 * Pow256(3) && Pow256(5) == 256 * Pow256(4);
    assert Pow256(6) == 256 * Pow256(5) && Pow256(7) == 256 * Pow256(6);
  }

  /** The two bits of the first byte that give the length. */
  function Tag(n: nat): (t: nat)
    requires Width(n)
    ensures t < 4
  {
    if n == 1 then 0 else if n == 2 then 1 else if n == 4 then 2 else 3
  }

  function WidthOf(first: byte): (n: nat)
    ensures Width(n)
  {
    if first < 0x40 then 1 else if first < 0x80 then 2 else if first < 0xC0 then 4 else 8
  }

  /** `v` as a variable-length integer of `n` bytes. */
  function VarintBytes(v: nat, n: nat): (s: seq<byte>)
    requires Width(n) && v < 64 * Rest(n)
    ensures |s| == n
  {
    Parts(v, n);
    [(Tag(n) * 64 + v / Rest(n)) as byte] + BigEndian(v % Rest(n), n - 1)
  }

  /** How many bytes `v` takes at least. */
  function VarintLen(v: nat): (n: nat)
    ensures Width(n)
    ensures v < 0x4000_0000_0000_0000 ==> v < 64 * Rest(n)
  {
    if v < 64 then 1 else if v < 16384 then 2 else if v < 1_073_741_824 then 4 else 8
  }

  function PutVarint(v: nat): seq<byte>
    requires v < 0x4000_0000_0000_0000
  {
    VarintBytes(v, VarintLen(v))
  }

  /** The integer `s` starts with and its length; none when `s` ends before it does. */
  function GetVarint(s: seq<byte>): (r: Option<(nat, nat)>)
    ensures r.Some? ==> Width(r.value.1) && r.value.1 <= |s|
  {
    if s == [] then None
    else
      var n := WidthOf(s[0]);
      if |s| < n then None else Some(((s[0] % 64) * Rest(n) + FromBigEndian(s[1..n]), n))
  }

  lemma VarintReads(v: nat, n: nat, rest: seq<byte>)
    requires Width(n) && v < 64 * Rest(n)
    ensures GetVarint(VarintBytes(v, n) + rest) == Some((v, n))
  {
    var s := VarintBytes(v, n) + rest;
    var high, low := v / Rest(n), v % Rest(n);
    Parts(v, n);
    RestIs(n);
    BigEndianReads(low, n - 1);
    hide Rest, BigEndian, FromBigEndian;
    assert s[0] == Tag(n) * 64 + high && WidthOf(s[0]) == n && s[0] % 64 == high;
    assert s[1..n] == BigEndian(low, n - 1);
  }

  lemma VarintWrites(s: seq<byte>)
    requires GetVarint(s).Some?
    ensures var (v, n) := GetVarint(s).value; v < 64 * Rest(n) && s[..n] == VarintBytes(v, n)
  {
    hide Rest, BigEndian, FromBigEndian;
    var (v, n) := GetVarint(s).value;
    RestIs(n);
    BigEndianWrites(s[1..n]);
    var low := FromBigEndian(s[1..n]);
    var high := s[0] as int % 64;
    assert v == high * Rest(n) + low && low < Rest(n);
    Whole(high, low, n, v);
    assert s[..n] == [s[0]] + s[1..n];
  }

  lemma Parts(v: nat, n: nat)
    requires Width(n) && v < 64 * Rest(n)
    ensures v / Rest(n) < 64 && v % Rest(n) < Rest(n) && v == (v / Rest(n)) * Rest(n) + v % Rest(n)
  {
    if n == 1 {
    } else if n == 2 {
    } else if n == 4 {
    } else {
    }
  }

  lemma Whole(high: nat, low: nat, n: nat, v: nat)
    requires Width(n) && high < 64 && low < Rest(n) && v == high * Rest(n) + low
    ensures v < 64 * Rest(n) && v / Rest(n) == high && v % Rest(n) == low
  {
    if n == 1 {
    } else if n == 2 {
    } else if n == 4 {
    } else {
    }
  }

  /** More bytes change nothing of an integer that has come. */
  lemma VarintExtend(s: seq<byte>, more: seq<byte>)
    requires s <= more && GetVarint(s).Some?
    ensures GetVarint(more) == GetVarint(s)
  {
    var n := WidthOf(s[0]);
    assert s[1..n] == more[1..n];
  }
}
