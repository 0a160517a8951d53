/**
 * Differential updates: the manifest of a package, how the router checks one, and the plan by
 * which it rebuilds a new package from an old one and from ranges of the new one it downloads.
 */
module Delta {
  import opened Bytes
  import opened PackageChunks

  const MAX_PACKAGE: nat := 128 * 1024 * 1024
  const MAX_ENTRIES: nat := 2048
  const MIN_REUSED: nat := 65536
  const MAX_OPERATIONS: nat := 128

  type Hash = seq<byte> -> string

  datatype Entry = Entry(offset: nat, size: nat, hash: string)

  datatype Manifest = Manifest(size: nat, chunks: seq<Entry>)

  // ----- The manifest -----

  function EntryOf(data: seq<byte>, hash: Hash, range: (nat, nat)): Entry
    requires range.0 <= range.1 <= |data|
  {
    Entry(range.0, range.1 - range.0, hash(data[range.0..range.1]))
  }

  function Entries(data: seq<byte>, hash: Hash, ranges: seq<(nat, nat)>): seq<Entry>
    requires forall i :: 0 <= i < |ranges| ==> ranges[i].0 <= ranges[i].1 <= |data|
  {
    seq(|ranges|, i requires 0 <= i < |ranges| => EntryOf(data, hash, ranges[i]))
  }

  function ManifestOf(data: seq<byte>, hash: Hash): Manifest {
    Partition(data, 0);
    Manifest(|data|, Entries(data, hash, Ranges(data, 0)))
  }

  lemma RangesFit(data: seq<byte>)
    ensures forall i :: 0 <= i < |Ranges(data, 0)| ==> Ranges(data, 0)[i].0 <= Ranges(data, 0)[i].1 <= |data|
  {
    Partition(data, 0);
  }

  /** The manifest of a package; none of an empty or too large one. */
  method Index(data: seq<byte>, hash: Hash) returns (m: Option<Manifest>)
    ensures m == if data == [] || |data| > MAX_PACKAGE then None else Some(ManifestOf(data, hash))
  {
    if data == [] || |data| > MAX_PACKAGE {
      return None;
    }
    hide Ranges, Flatten, Consecutive;
    var ranges := Boundaries(data);
    RangesFit(data);
    var chunks: seq<Entry> := [];
    for i := 0 to |ranges|
      invariant |chunks| == i && forall k :: 0 <= k < i ==> chunks[k] == EntryOf(data, hash, ranges[k])
    {
      chunks := chunks + [EntryOf(data, hash, ranges[i])];
    }
    assert chunks == Entries(data, hash, ranges);
    return Some(Manifest(|data|, chunks));
  }

  // ----- What the router takes -----

  /** The chunks start at `end`, follow one another without a gap, and end at `size`. */
  predicate Follow(chunks: seq<Entry>, end: nat, size: nat) {
    if chunks == [] then end == size
    else chunks[0].offset == end && 1 <= chunks[0].size <= MAX_CHUNK && Follow(chunks[1..], end + chunks[0].size, size)
  }

  predicate Accepted(m: Manifest) {
    && 1 <= m.size <= MAX_PACKAGE
    && 1 <= |m.chunks| <= MAX_ENTRIES
    && Follow(m.chunks, 0, m.size)
  }

  method Check(m: Manifest) returns (ok: bool)
    ensures ok == Accepted(m)
  {
    if m.size < 1 || m.size > MAX_PACKAGE || m.chunks == [] || |m.chunks| > MAX_ENTRIES {
      return false;
    }
    var end: nat := 0;
    for i := 0 to |m.chunks|
      invariant Follow(m.chunks, 0, m.size) == Follow(m.chunks[i..], end, m.size)
    {
      var c := m.chunks[i];
      assert m.chunks[i..][0] == c && m.chunks[i..][1..] == m.chunks[i + 1..];
      if c.offset != end || c.size < 1 || c.size > MAX_CHUNK {
        return false;
      }
      end := end + c.size;
    }
    return end == m.size;
  }

  lemma {:induction false} FewRanges(data: seq<byte>, offset: nat)
    requires offset < |data|
    ensures Ranges(data, offset) != []
    ensures (|Ranges(data, offset)| - 1) * (MIN_CHUNK + 2) < |data| - offset
    decreases |data| - offset
  {
    hide CutAfter;
    var end := CutAfter(data, offset);
    CutSize(data, offset);
    if end < |data| {
      FewRanges(data, end);
    }
  }

  lemma {:induction false} EntriesFollow(data: seq<byte>, hash: Hash, offset: nat)
    requires offset <= |data|
    requires forall i :: 0 <= i < |Ranges(data, offset)| ==>
              Ranges(data, offset)[i].0 <= Ranges(data, offset)[i].1 <= |data|
    ensures Follow(Entries(data, hash, Ranges(data, offset)), offset, |data|)
    decreases |data| - offset
  {
    hide CutAfter;
    if offset < |data| {
      var end := CutAfter(data, offset);
      var ranges := Ranges(data, offset);
      CutSize(data, offset);
      assert ranges[1..] == Ranges(data, end);
      Partition(data, end);
      EntriesFollow(data, hash, end);
      assert Entries(data, hash, ranges)[1..] == Entries(data, hash, Ranges(data, end));
    }
  }

  /** The router takes every manifest that is written, up to the largest package there may be. */
  lemma WrittenIsAccepted(data: seq<byte>, hash: Hash)
    requires 1 <= |data| <= MAX_PACKAGE
    ensures Accepted(ManifestOf(data, hash))
  {
    Partition(data, 0);
    FewRanges(data, 0);
    EntriesFollow(data, hash, 0);
  }

  // ----- The plan -----

  /** Bytes of the package on the router, or of the new one. */
  datatype Op = Op(local: bool, offset: nat, size: nat)

  /** The last chunk with each hash. */
  function ByHash(chunks: seq<Entry>): map<string, Entry> {
    if chunks == [] then map[]
    else ByHash(chunks[..|chunks| - 1])[chunks[|chunks| - 1].hash := chunks[|chunks| - 1]]
  }

  function OpFor(prior: map<string, Entry>, c: Entry): Op {
    if c.hash in prior && prior[c.hash].size == c.size then Op(true, prior[c.hash].offset, c.size)
    else Op(false, c.offset, c.size)
  }

  /** One more operation, joined to the last when it goes on where that one ends. */
  function Joined(ops: seq<Op>, op: Op): seq<Op> {
    if ops != [] && ops[|ops| - 1].local == op.local && ops[|ops| - 1].offset + ops[|ops| - 1].size == op.offset then
      ops[..|ops| - 1] + [ops[|ops| - 1].(size := ops[|ops| - 1].size + op.size)]
    else ops + [op]
  }

  function Operations(prior: map<string, Entry>, chunks: seq<Entry>): seq<Op> {
    if chunks == [] then []
    else Joined(Operations(prior, chunks[..|chunks| - 1]), OpFor(prior, chunks[|chunks| - 1]))
  }

  function SizeIf(op: Op, local: bool): nat {
    if op.local == local then op.size else 0
  }

  /** The bytes of the operations on one side. */
  function Total(ops: seq<Op>, local: bool): nat {
    if ops == [] then 0 else Total(ops[..|ops| - 1], local) + SizeIf(ops[|ops| - 1], local)
  }

  method Plan(target: Manifest, previous: Manifest) returns (plan: Option<seq<Op>>)
    requires Accepted(target)
    ensures var ops := Operations(ByHash(previous.chunks), target.chunks);
            plan == if Accepted(previous) && Total(ops, true) >= MIN_REUSED && Total(ops, true) * 4 >= target.size
                       && |ops| <= MAX_OPERATIONS then Some(ops) else None
  {
    var ok := Check(previous);
    if !ok {
      return None;
    }
    var prior: map<string, Entry> := map[];
    for i := 0 to |previous.chunks|
      invariant prior == ByHash(previous.chunks[..i])
    {
      assert previous.chunks[..i + 1][..i] == previous.chunks[..i];
      prior := prior[previous.chunks[i].hash := previous.chunks[i]];
    }
    assert previous.chunks[..|previous.chunks|] == previous.chunks;
    var operations: seq<Op> := [];
    var reused := 0;
    for i := 0 to |target.chunks|
      invariant operations == Operations(prior, target.chunks[..i])
      invariant reused == Total(operations, true)
    {
      var op := OpFor(prior, target.chunks[i]);
      assert target.chunks[..i + 1][..i] == target.chunks[..i];
      if op.local {
        reused := reused + op.size;
      }
      JoinedTotal(operations, op, true);
      operations := Joined(operations, op);
    }
    assert target.chunks[..|target.chunks|] == target.chunks;
    if reused < MIN_REUSED || reused * 4 < target.size || |operations| > MAX_OPERATIONS {
      return None;
    }
    return Some(operations);
  }

  lemma TotalSnoc(ops: seq<Op>, op: Op, local: bool)
    ensures Total(ops + [op], local) == Total(ops, local) + SizeIf(op, local)
  {
    assert (ops + [op])[..|ops|] == ops;
  }

  lemma JoinedTotal(ops: seq<Op>, op: Op, local: bool)
    ensures Total(Joined(ops, op), local) == Total(ops, local) + SizeIf(op, local)
  {
    hide Total;
    TotalSnoc(ops, op, local);
    if ops != [] {
      var first, last := ops[..|ops| - 1], ops[|ops| - 1];
      assert ops == first + [last];
      TotalSnoc(first, last, local);
      TotalSnoc(first, last.(size := last.size + op.size), local);
    }
  }

  // ----- The plan rebuilds the package -----

  predicate InBounds(op: Op, before: seq<byte>, after: seq<byte>) {
    op.offset + op.size <= if op.local then |before| else |after|
  }

  /** The bytes an operation stands for. */
  function OpBytes(op: Op, before: seq<byte>, after: seq<byte>): seq<byte>
    requires InBounds(op, before, after)
  {
    if op.local then before[op.offset..op.offset + op.size] else after[op.offset..op.offset + op.size]
  }

  ghost predicate AllInBounds(ops: seq<Op>, before: seq<byte>, after: seq<byte>) {
    forall i :: 0 <= i < |ops| ==> InBounds(ops[i], before, after)
  }

  /** The package the operations put together. */
  ghost function Rebuilt(ops: seq<Op>, before: seq<byte>, after: seq<byte>): seq<byte>
    requires AllInBounds(ops, before, after)
  {
    if ops == [] then []
    else Rebuilt(ops[..|ops| - 1], before, after) + OpBytes(ops[|ops| - 1], before, after)
  }

  lemma RebuiltSnoc(ops: seq<Op>, op: Op, before: seq<byte>, after: seq<byte>)
    requires AllInBounds(ops, before, after) && InBounds(op, before, after)
    ensures AllInBounds(ops + [op], before, after)
    ensures Rebuilt(ops + [op], before, after) == Rebuilt(ops, before, after) + OpBytes(op, before, after)
  {
    assert (ops + [op])[..|ops|] == ops;
  }

  /** Two operations that follow one another are one. */
  lemma BytesJoin(op: Op, more: nat, before: seq<byte>, after: seq<byte>)
    requires InBounds(op.(size := op.size + more), before, after)
    ensures InBounds(op, before, after) && InBounds(Op(op.local, op.offset + op.size, more), before, after)
    ensures OpBytes(op.(size := op.size + more), before, after)
         == OpBytes(op, before, after) + OpBytes(Op(op.local, op.offset + op.size, more), before, after)
  {
  }

  lemma JoinedRebuilt(ops: seq<Op>, op: Op, before: seq<byte>, after: seq<byte>)
    requires AllInBounds(ops, before, after) && InBounds(op, before, after)
    ensures AllInBounds(Joined(ops, op), before, after)
    ensures Rebuilt(Joined(ops, op), before, after) == Rebuilt(ops, before, after) + OpBytes(op, before, after)
  {
    hide Rebuilt, OpBytes;
    RebuiltSnoc(ops, op, before, after);
    if Joined(ops, op) != ops + [op] {
      var first, last := ops[..|ops| - 1], ops[|ops| - 1];
      assert ops == first + [last];
      BytesJoin(last, op.size, before, after);
      RebuiltSnoc(first, last, before, after);
      RebuiltSnoc(first, last.(size := last.size + op.size), before, after);
      Associates(Rebuilt(first, before, after), OpBytes(last, before, after), OpBytes(op, before, after));
    }
  }

  /** Chunks with the same hash are the same. */
  ghost predicate CollisionFree(before: seq<byte>, after: seq<byte>, hash: Hash) {
    forall i, j :: 0 <= i < |Chunks(before)| && 0 <= j < |Chunks(after)|
          && hash(Chunks(before)[i]) == hash(Chunks(after)[j])
      ==> Chunks(before)[i] == Chunks(after)[j]
  }

  /** The chunks of a package. */
  function Chunks(data: seq<byte>): seq<seq<byte>> {
    Partition(data, 0);
    Slices(data, Ranges(data, 0))
  }

  lemma {:induction false} ByHashIs(chunks: seq<Entry>, h: string) returns (i: nat)
    requires h in ByHash(chunks)
    ensures i < |chunks| && ByHash(chunks)[h] == chunks[i] && chunks[i].hash == h
  {
    var last := |chunks| - 1;
    if chunks[last].hash == h {
      i := last;
    } else {
      i := ByHashIs(chunks[..last], h);
    }
  }

  lemma {:induction false} ByHashHas(chunks: seq<Entry>, i: nat)
    requires i < |chunks|
    ensures chunks[i].hash in ByHash(chunks)
  {
    var last := |chunks| - 1;
    if i < last {
      ByHashHas(chunks[..last], i);
    }
  }

  /** The entry of a chunk is about that chunk. */
  lemma EntryIs(data: seq<byte>, hash: Hash, i: nat)
    requires i < |ManifestOf(data, hash).chunks|
    ensures |ManifestOf(data, hash).chunks| == |Chunks(data)|
    ensures var c := ManifestOf(data, hash).chunks[i];
            c.offset + c.size <= |data| && data[c.offset..c.offset + c.size] == Chunks(data)[i]
            && c.hash == hash(Chunks(data)[i])
  {
    Partition(data, 0);
  }

  /** The operation for a chunk of the new package gives that chunk. */
  lemma OpIsChunk(before: seq<byte>, after: seq<byte>, hash: Hash, i: nat)
    requires CollisionFree(before, after, hash) && i < |ManifestOf(after, hash).chunks|
    ensures var op := OpFor(ByHash(ManifestOf(before, hash).chunks), ManifestOf(after, hash).chunks[i]);
            && i < |Chunks(after)| && InBounds(op, before, after) && OpBytes(op, before, after) == Chunks(after)[i]
  {
    hide ManifestOf, Chunks;
    var c := ManifestOf(after, hash).chunks[i];
    var entries := ManifestOf(before, hash).chunks;
    EntryIs(after, hash, i);
    if c.hash in ByHash(entries) {
      var j := ByHashIs(entries, c.hash);
      EntryIs(before, hash, j);
    }
  }

  lemma OperationsSnoc(prior: map<string, Entry>, chunks: seq<Entry>, k: nat)
    requires 0 < k <= |chunks|
    ensures Operations(prior, chunks[..k]) == Joined(Operations(prior, chunks[..k - 1]), OpFor(prior, chunks[k - 1]))
  {
    assert chunks[..k][..k - 1] == chunks[..k - 1];
  }

  /** The operation for each chunk gives the part it should. */
  ghost predicate Matches(prior: map<string, Entry>, chunks: seq<Entry>, parts: seq<seq<byte>>,
        before: seq<byte>, after: seq<byte>) {
    && |parts| == |chunks|
    && forall i :: 0 <= i < |chunks| ==>
         InBounds(OpFor(prior, chunks[i]), before, after) && OpBytes(OpFor(prior, chunks[i]), before, after) == parts[i]
  }

  lemma {:induction false} PrefixRebuilt(prior: map<string, Entry>, chunks: seq<Entry>, parts: seq<seq<byte>>,
        before: seq<byte>, after: seq<byte>, k: nat)
    requires Matches(prior, chunks, parts, before, after) && k <= |chunks|
    ensures AllInBounds(Operations(prior, chunks[..k]), before, after)
    ensures Rebuilt(Operations(prior, chunks[..k]), before, after) == Flatten(parts[..k])
  {
    hide OpFor, InBounds, OpBytes, Joined;
    if k == 0 {
      assert chunks[..0] == [] && parts[..0] == [];
    } else {
      hide Flatten, Rebuilt, Operations, AllInBounds;
      PrefixRebuilt(prior, chunks, parts, before, after, k - 1);
      OperationsSnoc(prior, chunks, k);
      JoinedRebuilt(Operations(prior, chunks[..k - 1]), OpFor(prior, chunks[k - 1]), before, after);
      assert parts[..k] == parts[..k - 1] + [parts[k - 1]];
      FlattenSnoc(parts[..k - 1], parts[k - 1]);
    }
  }

  /** From the old package and the ranges it names, a plan puts together the new one exactly. */
  lemma PlanRebuilds(before: seq<byte>, after: seq<byte>, hash: Hash)
    requires CollisionFree(before, after, hash)
    ensures var ops := Operations(ByHash(ManifestOf(before, hash).chunks), ManifestOf(after, hash).chunks);
            AllInBounds(ops, before, after) && Rebuilt(ops, before, after) == after
  {
    hide CollisionFree, Operations, Rebuilt, ByHash, OpFor, InBounds, OpBytes, Ranges;
    var prior := ByHash(ManifestOf(before, hash).chunks);
    var chunks := ManifestOf(after, hash).chunks;
    var parts := Chunks(after);
    Partition(after, 0);
    forall i | 0 <= i < |chunks|
      ensures InBounds(OpFor(prior, chunks[i]), before, after)
                && OpBytes(OpFor(prior, chunks[i]), before, after) == parts[i]
    {
      OpIsChunk(before, after, hash, i);
    }
    PrefixRebuilt(prior, chunks, parts, before, after, |chunks|);
    assert chunks[..|chunks|] == chunks && parts[..|chunks|] == parts;
    assert after[0..] == after;
  }

  // ----- And downloads no more than what stands before the common end -----

  lemma ChunkFound(before: seq<byte>, after: seq<byte>, hash: Hash, i: nat, j: nat)
    requires CollisionFree(before, after, hash) && i < |ManifestOf(before, hash).chunks|
    requires j < |ManifestOf(after, hash).chunks|
    requires i < |Chunks(before)| && j < |Chunks(after)| && Chunks(before)[i] == Chunks(after)[j]
    ensures OpFor(ByHash(ManifestOf(before, hash).chunks), ManifestOf(after, hash).chunks[j]).local
  {
    hide ManifestOf, Chunks;
    var entries := ManifestOf(before, hash).chunks;
    var c := ManifestOf(after, hash).chunks[j];
    EntryIs(before, hash, i);
    EntryIs(after, hash, j);
    ByHashHas(entries, i);
    var k := ByHashIs(entries, c.hash);
    EntryIs(before, hash, k);
    assert Chunks(before)[k] == Chunks(after)[j];
  }

  lemma {:induction false} RemoteUpTo(prior: map<string, Entry>, chunks: seq<Entry>, cut: nat, n: nat)
    requires cut <= n <= |chunks|
    requires forall i :: cut <= i < |chunks| ==> OpFor(prior, chunks[i]).local
    ensures Total(Operations(prior, chunks[..n]), false) <= Sizes(chunks[..cut])
    decreases n
  {
    if n > 0 {
      var op := OpFor(prior, chunks[n - 1]);
      assert chunks[..n][..n - 1] == chunks[..n - 1];
      JoinedTotal(Operations(prior, chunks[..n - 1]), op, false);
      if n > cut {
        RemoteUpTo(prior, chunks, cut, n - 1);
      } else {
        RemoteAll(prior, chunks[..n]);
      }
    }
  }

  lemma {:induction false} RemoteAll(prior: map<string, Entry>, chunks: seq<Entry>)
    ensures Total(Operations(prior, chunks), false) <= Sizes(chunks)
  {
    if chunks != [] {
      var last := |chunks| - 1;
      RemoteAll(prior, chunks[..last]);
      JoinedTotal(Operations(prior, chunks[..last]), OpFor(prior, chunks[last]), false);
    }
  }

  function Sizes(chunks: seq<Entry>): nat {
    if chunks == [] then 0 else Sizes(chunks[..|chunks| - 1]) + chunks[|chunks| - 1].size
  }

  lemma {:induction false} SizesUpTo(data: seq<byte>, hash: Hash, offset: nat, n: nat)
    requires offset <= |data| && n < |Ranges(data, offset)|
    requires forall i :: 0 <= i < |Ranges(data, offset)| ==>
              Ranges(data, offset)[i].0 <= Ranges(data, offset)[i].1 <= |data|
    ensures offset + Sizes(Entries(data, hash, Ranges(data, offset))[..n + 1]) == Ranges(data, offset)[n].1
    decreases n
  {
    Partition(data, offset);
    var ranges := Ranges(data, offset);
    var entries := Entries(data, hash, ranges);
    assert entries[..n + 1][..n] == entries[..n];
    if n == 0 {
      assert entries[..0] == [];
    } else {
      SizesUpTo(data, hash, offset, n - 1);
      ConsecutiveAt(ranges, offset, |data|, n);
    }
  }

  lemma {:induction false} ConsecutiveAt(ranges: seq<(nat, nat)>, from: nat, to: nat, i: nat)
    requires Consecutive(ranges, from, to) && 0 < i < |ranges|
    ensures ranges[i].0 == ranges[i - 1].1
  {
    if i > 1 {
      ConsecutiveAt(ranges[1..], ranges[0].1, to, i - 1);
    }
  }

  lemma ChunkCount(p: seq<byte>, s: seq<byte>, t: nat, j: nat, hash: Hash)
    requires t <= |s| && j <= |Ranges(p + s, 0)| && Ranges(p + s, 0)[j..] == Shifted(Ranges(s, t), |p|)
    ensures |ManifestOf(p + s, hash).chunks| == |Chunks(p + s)| == |Ranges(p + s, 0)| == j + |Ranges(s, t)|
  {
  }

  /** The chunks past a shared cut are those of the common end. */
  lemma ChunkPast(p: seq<byte>, s: seq<byte>, t: nat, j: nat, i: nat)
    requires t <= |s| && j <= |Ranges(p + s, 0)| && Ranges(p + s, 0)[j..] == Shifted(Ranges(s, t), |p|)
    requires j <= i < |Chunks(p + s)| == j + |Ranges(s, t)|
    ensures Ranges(s, t)[i - j].0 <= Ranges(s, t)[i - j].1 <= |s|
    ensures Chunks(p + s)[i] == s[Ranges(s, t)[i - j].0..Ranges(s, t)[i - j].1]
  {
    hide Ranges, Flatten, Consecutive;
    Partition(s, t);
    Partition(p + s, 0);
    var r := Ranges(s, t)[i - j];
    assert Ranges(p + s, 0)[j..][i - j] == (r.0 + |p|, r.1 + |p|);
    assert (p + s)[r.0 + |p|..r.1 + |p|] == s[r.0..r.1];
  }

  /**
   * A new package that ends as an old one did, with an anchor in the common end, is downloaded up
   * to the anchor at most: every chunk past it comes from the old package.
   */
  lemma DownloadBound(p: seq<byte>, q: seq<byte>, s: seq<byte>, m1: nat, m2: nat, hash: Hash)
    requires Anchor(s, m1, m2) && CollisionFree(p + s, q + s, hash)
    ensures Total(Operations(ByHash(ManifestOf(p + s, hash).chunks), ManifestOf(q + s, hash).chunks), false)
            <= |q| + m2 + 2
  {
    hide Ranges, Anchor, Operations, Total, ByHash, CollisionFree, Shifted, Chunks;
    var before, after := p + s, q + s;
    var jp := AnchorResynchronises(p, s, m1, m2);
    var jq := AnchorResynchronises(q, s, m1, m2);
    ChunkCount(p, s, m2 + 2, jp + 1, hash);
    ChunkCount(q, s, m2 + 2, jq + 1, hash);
    Partition(after, 0);
    var prior := ByHash(ManifestOf(before, hash).chunks);
    var chunks := ManifestOf(after, hash).chunks;
    forall i | jq + 1 <= i < |chunks| ensures OpFor(prior, chunks[i]).local {
      ChunkPast(q, s, m2 + 2, jq + 1, i);
      ChunkPast(p, s, m2 + 2, jp + 1, i - jq + jp);
      ChunkFound(before, after, hash, i - jq + jp, i);
    }
    SizesUpTo(after, hash, 0, jq);
    RemoteUpTo(prior, chunks, jq + 1, |chunks|);
    assert chunks[..|chunks|] == chunks;
  }
}
