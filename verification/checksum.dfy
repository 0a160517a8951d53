/** The checksum of an IPv4 header (section 3.1 of RFC 791). */
module Checksum {
  import opened Bytes

  function Word(high: byte, low: byte): nat {
    high * 256 + low
  }

  /** The 16-bit words of `h`, added up; a last byte alone is the high half of one. */
  function WordSum(h: seq<byte>): nat {
    if h == [] then 0
    else if |h| == 1 then Word(h[0], 0)
    else Word(h[0], h[1]) + WordSum(h[2..])
  }

  /** The carries of a sum, added back in until there are none. */
  function Folded(sum: nat): (r: nat)
    ensures r < 0x1_0000
  {
    if sum < 0x1_0000 then sum else Folded(sum % 0x1_0000 + sum / 0x1_0000)
  }

  function ChecksumOf(h: seq<byte>): nat {
    0xFFFF - Folded(WordSum(h))
  }

  /** The sum that is folded is in a 32-bit number, for any header a length of up to 17 bits allows. */
  lemma {:induction false} SumFits(h: seq<byte>)
    ensures WordSum(h) <= 0xFFFF * ((|h| + 1) / 2)
    ensures |h| <= 0x2_0000 ==> WordSum(h) < 0x1_0000_0000
  {
    if |h| >= 2 {
      SumFits(h[2..]);
    }
  }

  method Ipv4HeaderChecksum(header: seq<byte>) returns (checksum: nat)
    ensures checksum == ChecksumOf(header) < 0x1_0000
  {
    var sum: nat := 0;
    var i := 0;
    assert header[0..] == header;
    while i + 1 < |header|
      invariant i <= |header|
      invariant sum + WordSum(header[i..]) == WordSum(header)
    {
      assert header[i..][2..] == header[i + 2..];
      sum := sum + Word(header[i], header[i + 1]);
      i := i + 2;
    }
    if i < |header| {
      sum := sum + Word(header[i], 0);
    }
    while sum >= 0x1_0000
      invariant Folded(sum) == Folded(WordSum(header))
    {
      sum := sum % 0x1_0000 + sum / 0x1_0000;
    }
    checksum := 0xFFFF - sum;
  }

  /** Folding is arithmetic modulo 65535, in which only zero itself is written as zero. */
  lemma {:induction false} FoldedIs(sum: nat)
    ensures Folded(sum) == if sum == 0 then 0 else (sum - 1) % 0xFFFF + 1
  {
    if sum >= 0x1_0000 {
      var high, low := sum / 0x1_0000, sum % 0x1_0000;
      FoldedIs(low + high);
      assert sum - 1 == (low + high - 1) + 0xFFFF * high;
      ModMultiple(low + high - 1, high);
    }
  }

  lemma {:induction false} ModMultiple(x: nat, k: nat)
    ensures (x + 0xFFFF * k) % 0xFFFF == x % 0xFFFF
  {
    if k > 0 {
      ModMultiple(x, k - 1);
    }
  }

  /** `h` with the word at `at` in place of its own. */
  function Stored(h: seq<byte>, at: nat, word: nat): seq<byte>
    requires at + 2 <= |h| && word < 0x1_0000
  {
    h[at := word / 256][at + 1 := word % 256]
  }

  lemma {:induction false} StoredSum(h: seq<byte>, at: nat, word: nat)
    requires at % 2 == 0 && at + 2 <= |h| && h[at] == h[at + 1] == 0 && word < 0x1_0000
    ensures WordSum(Stored(h, at, word)) == WordSum(h) + word
  {
    var s := Stored(h, at, word);
    if at == 0 {
      assert s[2..] == h[2..];
    } else {
      assert s[2..] == Stored(h[2..], at - 2, word);
      StoredSum(h[2..], at - 2, word);
    }
  }

  /**
   * A header whose checksum field is zero, with its checksum stored there, adds up to all ones:
   * what a receiver checks. So does one with another word there only when that word is the
   * checksum's other form, as all ones and zero are the same number to it.
   */
  lemma ChecksumChecks(h: seq<byte>, at: nat, word: nat)
    requires at % 2 == 0 && at + 2 <= |h| && h[at] == h[at + 1] == 0 && word < 0x1_0000
    ensures Folded(WordSum(Stored(h, at, ChecksumOf(h)))) == 0xFFFF
    ensures Folded(WordSum(Stored(h, at, word))) == 0xFFFF <==>
              word == ChecksumOf(h) || (WordSum(h) > 0 && word % 0xFFFF == ChecksumOf(h) % 0xFFFF)
  {
    hide WordSum, Folded, Stored;
    StoredSum(h, at, ChecksumOf(h));
    StoredSum(h, at, word);
    Complement(WordSum(h));
    Complements(WordSum(h), word);
  }

  lemma Complement(sum: nat)
    ensures Folded(sum + (0xFFFF - Folded(sum))) == 0xFFFF
  {
    hide Folded;
    FoldedIs(sum);
    FoldedIs(sum + (0xFFFF - Folded(sum)));
  }

  lemma Complements(sum: nat, word: nat)
    requires word < 0x1_0000
    ensures Folded(sum + word) == 0xFFFF <==>
              word == 0xFFFF - Folded(sum) || (sum > 0 && word % 0xFFFF == (0xFFFF - Folded(sum)) % 0xFFFF)
  {
    hide Folded;
    FoldedIs(sum);
    FoldedIs(sum + word);
  }
}
