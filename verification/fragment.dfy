/** A stream that writes a ClientHello in pieces: what goes out is what was given, in order. */
module Fragment {
  import opened Bytes
  import opened ClientHello

  datatype FragmentConfig = FragmentConfig(
    enabled: bool,
    sizeMin: nat,
    sizeMax: nat,
    delayMin: nat,
    delayMax: nat,
    sniSplit: bool)

  function Min(a: nat, b: nat): nat { if a < b then a else b }

  function Max(a: nat, b: nat): nat { if a < b then b else a }

  /** How long the next piece is, `pick` being the random choice where there is one. */
  function PickChunkLen(cfg: FragmentConfig, remaining: nat, pick: nat): (n: nat)
    ensures n <= remaining && (remaining > 0 ==> n > 0)
    ensures n <= Max(cfg.sizeMax, 1)
    ensures n < remaining ==> n >= Min(Max(cfg.sizeMin, 1), Max(cfg.sizeMax, 1))
  {
    var hi := Min(Max(cfg.sizeMax, 1), remaining);
    var lo := Min(Max(cfg.sizeMin, 1), hi);
    if lo >= hi then hi else lo + pick % (hi - lo + 1)
  }

  /** How long to wait before the next piece. */
  function PickDelay(cfg: FragmentConfig, pick: nat): (d: nat)
    ensures cfg.delayMin <= cfg.delayMax ==> cfg.delayMin <= d <= cfg.delayMax
  {
    if cfg.delayMax == 0 then 0
    else if cfg.delayMax <= cfg.delayMin then cfg.delayMin
    else cfg.delayMin + pick % (cfg.delayMax - cfg.delayMin + 1)
  }

  /** The middle of the server name, when there is one. */
  function SplitPoint(buf: seq<byte>): Option<nat> {
    match HostRange(buf)
    case None => None
    case Some((a, b)) => HostRangeFits(buf); Some(a + (b - a) / 2)
  }

  /** It is past the start of what is written and before its end, so it is always a piece that can be written. */
  lemma SplitIsLegal(buf: seq<byte>)
    requires HostRange(buf).Some?
    ensures var (a, b) := HostRange(buf).value; a <= SplitPoint(buf).value < b
    ensures 0 < SplitPoint(buf).value < |buf|
  {
    hide HostRange;
    HostRangeFits(buf);
  }

  /**
   * The cut leaves the first half of `host` at the end of the one piece and the rest of it at the
   * start of the next.
   */
  predicate CutsInHalf(buf: seq<byte>, host: seq<byte>) {
    var half := |host| / 2;
    && SplitPoint(buf).Some?
    && var split := SplitPoint(buf).value;
    half <= split <= |buf| && buf[split - half..split] == host[..half] && host[half..] <= buf[split..]
  }

  lemma RangeIsCut(buf: seq<byte>, host: seq<byte>)
    requires HostRange(buf).Some?
    requires var (a, b) := HostRange(buf).value; a < b <= |buf| && buf[a..b] == host
    ensures CutsInHalf(buf, host)
  {
    hide HostRange;
    var (a, b) := HostRange(buf).value;
    var half := |host| / 2;
    assert buf[a..a + half] == buf[a..b][..half];
    assert host[half..] == buf[a + half..][..b - a - half];
  }

  lemma NameIsCut(h: Hello, legacy: seq<byte>, rest: seq<byte>, before: seq<Extension>, host: seq<byte>,
        others: seq<byte>, after: seq<Extension>)
    requires WellFormed(h) && |legacy| == 2 && host != []
    requires h.extensions == before + [Extension(0, ServerName(host, others))] + after
    requires forall i :: 0 <= i < |before| ==> before[i].kind != 0
    ensures CutsInHalf(Record(h, legacy) + rest, host)
  {
    hide HostRange, Record, WellFormed, SplitPoint, CutsInHalf, ServerName;
    HostIsFound(h, legacy, rest, before, host, others, after);
    RangeIsCut(Record(h, legacy) + rest, host);
  }

  /** What the stream underneath says to a write. */
  datatype Poll = Pending | Failed | Ready(n: nat)

  /**
   * What the environment does around a write: an answer read before it, whether the delay is over,
   * the random choices, and the stream's answer.
   */
  datatype Env = Env(readFirst: bool, delayOver: bool, pick: nat, wait: nat, answer: Poll)

  /** The stream takes something and no delay is left. */
  predicate Progress(env: Env) {
    env.delayOver && env.answer.Ready? && env.answer.n > 0
  }

  lemma Further(s: seq<byte>, i: nat, n: nat)
    requires i + n <= |s|
    ensures s[..i] + s[i..][..n] == s[..i + n]
  {
  }

  class FragmentingStream {
    const cfg: FragmentConfig
    var fragmenting: bool
    var firstWrite: bool
    var delayed: bool
    /** What the stream underneath has taken. */
    var wire: seq<byte>

    constructor (cfg: FragmentConfig)
      ensures this.cfg == cfg && fragmenting == cfg.enabled && firstWrite && !delayed && wire == []
    {
      this.cfg, fragmenting, firstWrite, delayed, wire := cfg, cfg.enabled, true, false, [];
    }

    /** Reading ends the pieces. */
    method PollRead()
      modifies this`fragmenting
      ensures !fragmenting
    {
      fragmenting := false;
    }

    /** The stream underneath takes up to all of a piece. */
    method InnerWrite(piece: seq<byte>, answer: Poll) returns (r: Poll)
      modifies this`wire
      ensures r == if answer.Ready? then Ready(Min(answer.n, |piece|)) else answer
      ensures wire == old(wire) + if r.Ready? then piece[..r.n] else []
    {
      if answer.Ready? {
        var n := Min(answer.n, |piece|);
        wire := wire + piece[..n];
        return Ready(n);
      }
      return answer;
    }

    /** How much of `buf` is offered while the hello goes in pieces. */
    function PieceLen(buf: seq<byte>, pick: nat): (n: nat)
      requires buf != []
      reads this
      ensures 0 < n <= |buf|
      ensures !(firstWrite && cfg.sniSplit) ==> n <= Max(cfg.sizeMax, 1)
    {
      var split := if firstWrite && cfg.sniSplit then SplitPoint(buf) else None;
      if split.Some? && 0 < split.value < |buf| then split.value else PickChunkLen(cfg, |buf|, pick)
    }

    /** How much of `buf` is offered to the stream underneath; none while a delay runs. */
    function Offered(buf: seq<byte>, env: Env): (n: Option<nat>)
      reads this
      ensures n.Some? ==> n.value <= |buf| && (buf != [] ==> n.value > 0)
    {
      if buf == [] || !fragmenting then Some(|buf|)
      else if delayed && !env.delayOver then None
      else Some(PieceLen(buf, env.pick))
    }

    /**
     * What is taken of `buf` is its start, onto the end of what was taken before: all the stream
     * underneath would take of the piece offered, and nothing while a delay runs.
     */
    method PollWrite(buf: seq<byte>, env: Env) returns (r: Poll)
      modifies this`firstWrite, this`delayed, this`wire
      ensures r == match old(Offered(buf, env))
                   case None => Pending
                   case Some(n) => if env.answer.Ready? then Ready(Min(env.answer.n, n)) else env.answer
      ensures wire == old(wire) + if r.Ready? then buf[..r.n] else []
      ensures firstWrite == (old(firstWrite) && !(fragmenting && r.Ready? && r.n > 0))
      ensures fragmenting && r.Ready? && r.n > 0 ==> delayed == (PickDelay(cfg, env.wait) != 0)
      ensures !fragmenting ==> delayed == old(delayed)
    {
      hide SplitPoint, PickChunkLen;
      if buf == [] || !fragmenting {
        r := InnerWrite(buf, env.answer);
        return;
      }
      if delayed {
        if !env.delayOver {
          return Pending;
        }
        delayed := false;
      }
      var n := PieceLen(buf, env.pick);
      r := InnerWrite(buf[..n], env.answer);
      if r.Ready? {
        assert buf[..n][..r.n] == buf[..r.n];
        if r.n > 0 {
          firstWrite := false;
          if PickDelay(cfg, env.wait) != 0 {
            delayed := true;
          }
        }
      }
    }

    /**
     * A caller that writes all of `buf`, going on after each write with what was not taken,
     * with answers read in between: what has gone out is the start of `buf`, and all of it
     * after as many writes that took something as it has bytes.
     */
    method WriteAll(buf: seq<byte>, envs: seq<Env>) returns (written: nat)
      modifies this
      ensures written <= |buf| && wire == old(wire) + buf[..written]
      ensures written == |buf| ==> wire == old(wire) + buf
      ensures |buf| <= |envs| && (forall i :: 0 <= i < |envs| ==> Progress(envs[i])) ==> written == |buf|
    {
      hide PieceLen, PickDelay;
      written := 0;
      for i := 0 to |envs|
        invariant written <= |buf| && wire == old(wire) + buf[..written]
        invariant (forall j :: 0 <= j < |envs| ==> Progress(envs[j])) ==> i <= written
      {
        if written == |buf| {
          break;
        }
        if envs[i].readFirst {
          PollRead();
        }
        assert buf[written..] != [];
        var r := PollWrite(buf[written..], envs[i]);
        if r.Ready? {
          Further(buf, written, r.n);
          assert old(wire) + buf[..written] + buf[written..][..r.n] == old(wire) + buf[..written + r.n];
          written := written + r.n;
        } else if r.Failed? {
          break;
        }
      }
      assert written == |buf| ==> buf[..written] == buf;
    }
  }
}
