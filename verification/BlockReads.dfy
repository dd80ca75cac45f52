/** Reading byte ranges of a file stored as blocks, and the loops that stream it. */
module BlockReads {
  import opened Wrappers
  import opened Entries
  import opened TreeData

  datatype ReadError = BlockMissing | BlockOutOfRange(block: nat)

  const MAX_INT64: int := 0x7fff_ffff_ffff_ffff
  const MAX_MAKE: int := 0x8000_0000_0000  // no buffer is longer than a user's part of the address space
  const DEFAULT_BLOCK_SIZE: nat := 4096
  const DEFAULT_CHUNK: nat := 256 * 1024

  // ---------------------------------------------------------------- what a file holds

  /** The bytes of the first k blocks. */
  function Joined(store: BlockStore, blocks: seq<BlockId>, k: nat): Bytes
    requires k <= |blocks| && forall b :: b in blocks ==> b in store
  {
    if k == 0 then [] else Joined(store, blocks, k - 1) + store[blocks[k - 1]]
  }

  predicate HasBlocks(store: BlockStore, n: FileNode) {
    forall b :: b in n.blocks ==> b in store
  }

  /** Where block k starts. */
  function Start(store: BlockStore, n: FileNode, k: nat): nat
    requires k <= |n.blocks| && HasBlocks(store, n)
  {
    |Joined(store, n.blocks, k)|
  }

  function Content(store: BlockStore, n: FileNode): Bytes
    requires HasBlocks(store, n)
  {
    Joined(store, n.blocks, |n.blocks|)
  }

  function EffectiveBlockSize(blockSize: int): nat {
    if blockSize <= 0 then DEFAULT_BLOCK_SIZE else blockSize
  }

  /** A committed file: `full` holds its blocks, its size is their total, and its layout is
      either one fixed block size (the last block may be shorter) or recorded offsets. */
  ghost predicate WellFormed(full: BlockStore, blockSize: int, n: FileNode) {
    && !n.isDir
    && HasBlocks(full, n)
    && n.size == |Content(full, n)| <= MAX_INT64
    && match n.offsets
       case Some(offsets) =>
         && |offsets| == |n.blocks|
         && (forall k :: 0 <= k < |offsets| ==> offsets[k] == Start(full, n, k))
       case None => FixedLayout(full, n, EffectiveBlockSize(blockSize))
  }

  /** Each block starts where the block size puts it, or at the end of the file. */
  ghost predicate FixedLayout(full: BlockStore, n: FileNode, bs: nat)
    requires HasBlocks(full, n)
  {
    forall k :: 0 <= k <= |n.blocks| ==> StartsFixed(full, n, bs, k)
  }

  predicate StartsFixed(full: BlockStore, n: FileNode, bs: nat, k: nat)
    requires HasBlocks(full, n) && k <= |n.blocks|
  {
    Start(full, n, k) == Least(k * bs, |Content(full, n)|)
  }

  function Least(a: int, b: int): int {
    if a < b then a else b
  }

  /** A symlink or an empty file lists no blocks, whatever size is recorded for it. */
  predicate NoBlocks(n: FileNode) {
    n.blocks == [] && n.offsets.None?
  }

  /** The store at hand may have lost blocks, but what it has is what was committed. */
  predicate PartOf(store: BlockStore, full: BlockStore) {
    forall id :: id in store ==> id in full && full[id] == store[id]
  }

  /** Block k reaches past `off` and starts before `end`. */
  predicate Overlaps(full: BlockStore, n: FileNode, off: int, end: int, k: int)
    requires HasBlocks(full, n)
  {
    0 <= k < |n.blocks| && off < Start(full, n, k + 1) && Start(full, n, k) < end
  }

  /** Every block overlapping [off, end) is at hand, as far as the first `upto` blocks go. */
  ghost predicate Fetched(store: BlockStore, full: BlockStore, n: FileNode, off: int, end: int, upto: nat)
    requires HasBlocks(full, n)
  {
    forall k :: k < upto && Overlaps(full, n, off, end, k) ==> n.blocks[k] in store
  }

  ghost predicate Available(store: BlockStore, full: BlockStore, n: FileNode, off: int, end: int)
    requires HasBlocks(full, n)
  {
    Fetched(store, full, n, off, end, |n.blocks|)
  }

  /** The bytes a read of `length` at `off` is meant to return. */
  function Slice(c: Bytes, off: int, length: int): Bytes {
    if off < 0 || off >= |c| || length <= 0 then []
    else if off + length > |c| then c[off..]
    else c[off..off + length]
  }

  /** Consecutive pieces of the content join. */
  lemma AdjacentSlicesJoin(c: Bytes, off: nat, first: nat, second: nat)
    ensures Slice(c, off, first) + Slice(c, off + first, second) == Slice(c, off, first + second)
  {
    if off + first < |c| && 0 < first && 0 < second {
      var end := if off + first + second > |c| then |c| else off + first + second;
      assert c[off..off + first] + c[off + first..end] == c[off..end];
    }
  }

  lemma {:induction false} JoinedGrows(store: BlockStore, blocks: seq<BlockId>, i: nat, k: nat)
    requires i <= k <= |blocks| && forall b :: b in blocks ==> b in store
    ensures Joined(store, blocks, i) <= Joined(store, blocks, k)
  {
    if i < k {
      JoinedGrows(store, blocks, i, k - 1);
    }
  }

  /** Block k is the piece of the content between its start and the next one. */
  lemma BlockIsSlice(store: BlockStore, n: FileNode, k: nat)
    requires k < |n.blocks| && HasBlocks(store, n)
    ensures Start(store, n, k + 1) == Start(store, n, k) + |store[n.blocks[k]]| <= |Content(store, n)|
    ensures store[n.blocks[k]] == Content(store, n)[Start(store, n, k)..Start(store, n, k + 1)]
  {
    JoinedGrows(store, n.blocks, k + 1, |n.blocks|);
    var c, j := Content(store, n), Joined(store, n.blocks, k + 1);
    assert j == Joined(store, n.blocks, k) + store[n.blocks[k]];
    assert c[Start(store, n, k)..|j|] == j[Start(store, n, k)..];
  }

  lemma StartsAscend(store: BlockStore, n: FileNode, i: nat, k: nat)
    requires i <= k <= |n.blocks| && HasBlocks(store, n)
    ensures Start(store, n, i) <= Start(store, n, k)
  {
    JoinedGrows(store, n.blocks, i, k);
  }

  // ---------------------------------------------------------------- the store

  /** The blocks of several stores; the first store that has a block answers for it. */
  function MultiStore(stores: seq<BlockStore>): BlockStore {
    if stores == [] then map[] else stores[|stores| - 1] + MultiStore(stores[..|stores| - 1])
  }

  /** The stack's blocks are what every one of its stores holds. */
  lemma {:induction false} MultiStoreAgrees(stores: seq<BlockStore>, full: BlockStore)
    requires forall s :: s in stores ==> PartOf(s, full)
    ensures PartOf(MultiStore(stores), full)
    ensures forall s, id :: s in stores && id in s ==> id in MultiStore(stores)
  {
    if stores != [] {
      var last := |stores| - 1;
      assert stores == stores[..last] + [stores[last]];
      assert stores[last] in stores;
      assert forall s :: s in stores[..last] ==> s in stores;
      MultiStoreAgrees(stores[..last], full);
    }
  }

  lemma {:induction false} FirstAnswers(stores: seq<BlockStore>, id: BlockId, i: nat)
    requires i < |stores| && id in stores[i] && forall j :: 0 <= j < i ==> id !in stores[j]
    ensures id in MultiStore(stores) && MultiStore(stores)[id] == stores[i][id]
  {
    var last := |stores| - 1;
    if i < last {
      FirstAnswers(stores[..last], id, i);
    } else {
      NoneAnswers(stores[..last], id);
    }
  }

  lemma {:induction false} NoneAnswers(stores: seq<BlockStore>, id: BlockId)
    requires forall j :: 0 <= j < |stores| ==> id !in stores[j]
    ensures id !in MultiStore(stores)
  {
    if stores != [] { NoneAnswers(stores[..|stores| - 1], id); }
  }

  /** Asks one store after the other; the last error is reported when none has the block. */
  method MultiGet(stores: seq<BlockStore>, id: BlockId) returns (r: Result<Bytes, ReadError>)
    ensures r == if id in MultiStore(stores) then Ok(MultiStore(stores)[id]) else Err(BlockMissing)
  {
    for i := 0 to |stores|
      invariant forall j :: 0 <= j < i ==> id !in stores[j]
    {
      if id in stores[i] {
        FirstAnswers(stores, id, i);
        return Ok(stores[i][id]);
      }
    }
    NoneAnswers(stores, id);
    r := Err(BlockMissing);
  }

  // ---------------------------------------------------------------- reading a range

  function CutFrom(blkStart: nat, off: nat): nat {
    if off > blkStart then off - blkStart else 0
  }

  function CutTo(data: Bytes, blkStart: nat, end: nat): (to: nat)
    requires blkStart < end
    ensures to <= |data|
  {
    if blkStart + |data| > end then end - blkStart else |data|
  }

  /** The part of one block that overlaps [off, end), as both layouts cut it. */
  method CutBlock(data: Bytes, bi: nat, blkStart: nat, off: nat, end: nat) returns (r: Result<Bytes, ReadError>)
    requires blkStart < end
    ensures var from, to := CutFrom(blkStart, off), CutTo(data, blkStart, end);
            if from > to then r == Err(BlockOutOfRange(bi)) else r == Ok(data[from..to])
  {
    var from := 0;
    if off > blkStart {
      from := off - blkStart;
    }
    var to := |data|;
    if blkStart + to > end {
      to := end - blkStart;
    }
    if from < 0 || to > |data| || from > to {
      return Err(BlockOutOfRange(bi));
    }
    r := Ok(data[from..to]);
  }

  /** Everything of [off, end) that lies before block bi. */
  ghost function ReadSoFar(store: BlockStore, n: FileNode, off: nat, end: nat, bi: nat): Bytes
    requires HasBlocks(store, n) && bi <= |n.blocks|
    requires off <= end <= |Content(store, n)|
  {
    var upto := if Start(store, n, bi) < end then Start(store, n, bi) else end;
    if off <= upto then Content(store, n)[off..upto] else []
  }

  lemma SliceOfSlice(c: Bytes, a: nat, b: nat, from: nat, to: nat)
    requires a <= b <= |c| && from <= to <= b - a
    ensures c[a..b][from..to] == c[a + from..a + to]
  {
    var l, r := c[a..b][from..to], c[a + from..a + to];
    forall i | 0 <= i < to - from
      ensures l[i] == r[i]
    {
      assert l[i] == c[a..b][from + i] == c[a + from + i];
    }
  }

  lemma SlicesJoin(c: Bytes, a: nat, b: nat, d: nat)
    requires a <= b <= d <= |c|
    ensures c[a..b] + c[b..d] == c[a..d]
  {
  }

  lemma CutAfter(c: Bytes, a: nat, b: nat, off: nat, upto: nat)
    requires off <= a <= upto <= b <= |c|
    ensures c[off..a] + c[a..b][0..upto - a] == c[off..upto]
  {
    SliceOfSlice(c, a, b, 0, upto - a);
    SlicesJoin(c, off, a, upto);
  }

  lemma CutWithin(c: Bytes, a: nat, b: nat, off: nat, upto: nat)
    requires a <= off <= upto <= b <= |c|
    ensures [] + c[a..b][off - a..upto - a] == c[off..upto]
  {
    SliceOfSlice(c, a, b, off - a, upto - a);
    assert [] + c[off..upto] == c[off..upto];
  }

  /** The same on plain bytes: a block [a, b) of c, cut to [off, end), continues c[off..a]. */
  lemma CutOfSlice(c: Bytes, a: nat, b: nat, off: nat, end: nat)
    requires a <= b <= |c| && off < end <= |c| && a < end && off <= b
    ensures var data := c[a..b];
            var from, to := CutFrom(a, off), CutTo(data, a, end);
            && from <= to
            && (if off <= a then c[off..a] else []) + data[from..to] == c[off..if b < end then b else end]
  {
    var upto := if b < end then b else end;
    if off <= a {
      CutAfter(c, a, b, off, upto);
    } else {
      CutWithin(c, a, b, off, upto);
    }
  }

  /** Appending the cut of block bi extends what has been read by exactly that block. */
  lemma CutExtends(store: BlockStore, n: FileNode, off: nat, end: nat, bi: nat)
    requires HasBlocks(store, n) && bi < |n.blocks|
    requires off < end <= |Content(store, n)| && Start(store, n, bi) < end
    requires off <= Start(store, n, bi + 1)
    ensures var data, blkStart := store[n.blocks[bi]], Start(store, n, bi);
            var from, to := CutFrom(blkStart, off), CutTo(data, blkStart, end);
            && from <= to
            && ReadSoFar(store, n, off, end, bi) + data[from..to] == ReadSoFar(store, n, off, end, bi + 1)
  {
    BlockIsSlice(store, n, bi);
    CutOfSlice(Content(store, n), Start(store, n, bi), Start(store, n, bi + 1), off, end);
  }

  /** The first index whose offset exceeds `off`, as the library's binary search finds it. */
  method SearchAfter(offsets: seq<nat>, off: nat) returns (i: nat)
    requires forall j, k :: 0 <= j < k < |offsets| ==> offsets[j] <= offsets[k]
    ensures i <= |offsets|
    ensures forall j :: 0 <= j < i ==> offsets[j] <= off
    ensures forall j :: i <= j < |offsets| ==> offsets[j] > off
  {
    var hi := |offsets|;
    i := 0;
    while i < hi
      invariant 0 <= i <= hi <= |offsets|
      invariant forall j :: 0 <= j < i ==> offsets[j] <= off
      invariant forall j :: hi <= j < |offsets| ==> offsets[j] > off
    {
      var h := (i + hi) / 2;
      if !(offsets[h] > off) {
        i := h + 1;
      } else {
        hi := h;
      }
    }
  }

  /** Both layouts share this loop: read block after block from the one containing `off`. */
  ghost predicate LandsOn(store: BlockStore, n: FileNode, off: nat, bi: nat)
    requires HasBlocks(store, n)
  {
    bi < |n.blocks| && Start(store, n, bi) <= off < Start(store, n, bi + 1)
  }

  /** In the variable layout, the last block starting at or before `off` contains it. */
  lemma VariableLanding(full: BlockStore, blockSize: int, n: FileNode, off: nat, i: nat)
    requires WellFormed(full, blockSize, n) && n.offsets.Some? && off < n.size && i <= |n.blocks|
    requires forall j :: 0 <= j < i ==> n.offsets.value[j] <= off
    requires forall j :: i <= j < |n.blocks| ==> n.offsets.value[j] > off
    ensures 0 < i && LandsOn(full, n, off, i - 1)
  {
    assert Start(full, n, 0) == 0;
    if i < |n.blocks| {
      assert n.offsets.value[i] == Start(full, n, i);
    }
    if i > 0 {
      assert n.offsets.value[i - 1] == Start(full, n, i - 1);
    }
  }

  lemma OffsetsAscend(full: BlockStore, blockSize: int, n: FileNode)
    requires WellFormed(full, blockSize, n) && n.offsets.Some?
    ensures forall j, k :: 0 <= j < k < |n.offsets.value| ==> n.offsets.value[j] <= n.offsets.value[k]
  {
    forall j, k | 0 <= j < k < |n.offsets.value|
      ensures n.offsets.value[j] <= n.offsets.value[k]
    {
      StartsAscend(full, n, j, k);
    }
  }

  /** No block before the one containing `off` reaches past it. */
  lemma NothingSkipped(store: BlockStore, full: BlockStore, n: FileNode, off: nat, end: nat, bi: nat)
    requires HasBlocks(full, n) && LandsOn(full, n, off, bi)
    ensures Fetched(store, full, n, off, end, bi)
  {
    forall k | 0 <= k < bi
      ensures !Overlaps(full, n, off, end, k)
    {
      StartsAscend(full, n, k + 1, bi);
    }
  }

  /** No block from the first one starting at or after `end` is needed. */
  lemma NothingMissed(store: BlockStore, full: BlockStore, n: FileNode, off: nat, end: nat, bi: nat)
    requires HasBlocks(full, n) && bi <= |n.blocks| && Fetched(store, full, n, off, end, bi)
    requires bi == |n.blocks| || Start(full, n, bi) >= end
    ensures Available(store, full, n, off, end)
  {
    forall k | k < |n.blocks| && Overlaps(full, n, off, end, k)
      ensures n.blocks[k] in store
    {
      if bi <= k { StartsAscend(full, n, bi, k); }
    }
  }

  /** The state of either loop: what is read, and that the next block reaches past `off`. */
  ghost predicate Reading(store: BlockStore, full: BlockStore, n: FileNode, off: nat, end: nat, bi: nat, out: Bytes)
    requires HasBlocks(full, n) && bi <= |n.blocks| && off <= end <= |Content(full, n)|
  {
    && out == ReadSoFar(full, n, off, end, bi)
    && (bi < |n.blocks| ==> off < Start(full, n, bi + 1))
    && Fetched(store, full, n, off, end, bi)
  }

  lemma ReadBegins(store: BlockStore, full: BlockStore, n: FileNode, off: nat, end: nat, bi: nat)
    requires HasBlocks(full, n) && off < end <= |Content(full, n)| && LandsOn(full, n, off, bi)
    ensures Reading(store, full, n, off, end, bi, [])
  {
    NothingSkipped(store, full, n, off, end, bi);
  }

  lemma ReadStep(store: BlockStore, full: BlockStore, n: FileNode, off: nat, end: nat, bi: nat, out: Bytes)
    requires HasBlocks(full, n) && PartOf(store, full)
    requires off < end <= |Content(full, n)| && bi < |n.blocks| && n.blocks[bi] in store
    requires Reading(store, full, n, off, end, bi, out) && Start(full, n, bi) < end
    ensures var data, blkStart := store[n.blocks[bi]], Start(full, n, bi);
            var from, to := CutFrom(blkStart, off), CutTo(data, blkStart, end);
            && from <= to
            && Reading(store, full, n, off, end, bi + 1, out + data[from..to])
  {
    CutExtends(full, n, off, end, bi);
    if bi + 1 < |n.blocks| { StartsAscend(full, n, bi + 1, bi + 2); }
  }

  /** Once the next block starts at or after `end`, or there is none, the range is complete. */
  lemma ReadDone(store: BlockStore, full: BlockStore, blockSize: int, n: FileNode, off: nat, end: nat, bi: nat,
                 out: Bytes)
    requires WellFormed(full, blockSize, n) && off < end <= n.size && bi <= |n.blocks|
    requires Reading(store, full, n, off, end, bi, out)
    requires bi == |n.blocks| || Start(full, n, bi) >= end
    ensures out == Content(full, n)[off..end] && Available(store, full, n, off, end)
  {
    NothingMissed(store, full, n, off, end, bi);
  }

  /** One turn of either loop: fetches the next block and cuts what is wanted of it. */
  method ReadBlock(t: FsTree, n: FileNode, off: nat, end: nat, bi: nat, blkStart: nat, ghost full: BlockStore,
                   ghost out: Bytes)
    returns (r: Result<Bytes, ReadError>)
    requires HasBlocks(full, n) && PartOf(t.store, full) && off < end <= |Content(full, n)|
    requires bi < |n.blocks| && blkStart == Start(full, n, bi) < end && Reading(t.store, full, n, off, end, bi, out)
    ensures n.blocks[bi] in t.store ==> r.Ok? && Reading(t.store, full, n, off, end, bi + 1, out + r.value)
    ensures n.blocks[bi] !in t.store ==> r == Err(BlockMissing) && !Available(t.store, full, n, off, end)
  {
    if n.blocks[bi] !in t.store {
      assert Overlaps(full, n, off, end, bi);
      return Err(BlockMissing);
    }
    ReadStep(t.store, full, n, off, end, bi, out);
    var data := t.store[n.blocks[bi]];
    r := CutBlock(data, bi, blkStart, off, end);
  }

  /** 64-bit addition and subtraction, which wrap. */
  function AddInt64(a: int, b: int): int {
    if a + b > MAX_INT64 then a + b - 0x1_0000_0000_0000_0000 else a + b
  }

  function SubInt64(a: int, b: int): int {
    if a - b < -MAX_INT64 - 1 then a - b + 0x1_0000_0000_0000_0000 else a - b
  }

  /** A buffer for [off, end) can be allocated. Where the end has wrapped, the subtraction wraps back;
      a buffer too long panics. */
  predicate BufferFits(off: int, end: int) {
    0 <= SubInt64(end, off) <= MAX_MAKE
  }

  /** The state of the variable-size loop. An end that has wrapped lies before every block. */
  ghost predicate ReadingVariable(store: BlockStore, full: BlockStore, n: FileNode, off: nat, end: int, bi: nat,
                                  out: Bytes)
  {
    && bi <= |n.blocks| && HasBlocks(full, n)
    && if end < 0 then out == []
       else off <= end <= |Content(full, n)| && Reading(store, full, n, off, end, bi, out)
  }

  lemma VariableBegins(store: BlockStore, full: BlockStore, n: FileNode, off: nat, end: int, bi: nat)
    requires HasBlocks(full, n) && LandsOn(full, n, off, bi) && (end < 0 || off < end <= |Content(full, n)|)
    ensures ReadingVariable(store, full, n, off, end, bi, [])
  {
    if end >= 0 { ReadBegins(store, full, n, off, end, bi); }
  }

  lemma VariableDone(store: BlockStore, full: BlockStore, blockSize: int, n: FileNode, off: nat, end: int, bi: nat,
                     out: Bytes)
    requires WellFormed(full, blockSize, n) && n.offsets.Some? && (end < 0 || off < end <= n.size)
    requires ReadingVariable(store, full, n, off, end, bi, out)
    requires bi == |n.blocks| || n.offsets.value[bi] >= end
    ensures if end < 0 then out == []
            else out == Content(full, n)[off..end] && Available(store, full, n, off, end)
  {
    if end >= 0 {
      if bi < |n.blocks| { OffsetIsStart(full, blockSize, n, bi); }
      ReadDone(store, full, blockSize, n, off, end, bi, out);
    }
  }

  lemma OffsetIsStart(full: BlockStore, blockSize: int, n: FileNode, k: nat)
    requires WellFormed(full, blockSize, n) && n.offsets.Some? && k < |n.blocks|
    ensures k < |n.offsets.value| && n.offsets.value[k] == Start(full, n, k)
  {
  }

  /** The block the read starts with. */
  method FirstBlock(n: FileNode, off: nat, ghost full: BlockStore, ghost blockSize: int) returns (bi: nat)
    requires WellFormed(full, blockSize, n) && n.offsets.Some? && off < n.size
    ensures LandsOn(full, n, off, bi)
  {
    OffsetsAscend(full, blockSize, n);
    var i := SearchAfter(n.offsets.value, off);
    VariableLanding(full, blockSize, n, off, i);
    bi := if i - 1 < 0 then 0 else i - 1;
  }

  /** The variable-size branch of `readAt`. */
  method ReadAtVariable(t: FsTree, n: FileNode, off: nat, end: int, ghost full: BlockStore)
    returns (r: Result<Bytes, ReadError>)
    requires WellFormed(full, t.blockSize, n) && n.offsets.Some? && off < n.size && (end < 0 || off < end <= n.size)
    requires PartOf(t.store, full) && BufferFits(off, end)
    ensures end < 0 ==> r == Ok([])
    ensures end >= 0 ==>
              r == if Available(t.store, full, n, off, end) then Ok(Content(full, n)[off..end]) else Err(BlockMissing)
  {
    var offsets := n.offsets.value;
    var bi := FirstBlock(n, off, full, t.blockSize);
    VariableBegins(t.store, full, n, off, end, bi);
    var out: Bytes := [];
    while bi < |n.blocks|
      invariant ReadingVariable(t.store, full, n, off, end, bi, out)
    {
      var blkStart := offsets[bi];
      if blkStart >= end {
        break;
      }
      OffsetIsStart(full, t.blockSize, n, bi);
      var piece := ReadBlock(t, n, off, end, bi, blkStart, full, out);
      if piece.Err? {
        return piece;
      }
      out := out + piece.value;
      bi := bi + 1;
    }
    VariableDone(t.store, full, t.blockSize, n, off, end, bi, out);
    r := Ok(out);
  }

  lemma TimesGrows(a: nat, b: nat, c: nat)
    requires a <= b
    ensures a * c <= b * c
  {
    assert b * c == a * c + (b - a) * c;
  }

  lemma DivisionLands(off: nat, bs: nat)
    requires bs > 0
    ensures off / bs * bs <= off < (off / bs + 1) * bs
  {
  }

  /** In the fixed layout, division by the block size finds the block containing `off`. */
  lemma FixedLanding(full: BlockStore, n: FileNode, bs: nat, off: nat)
    requires HasBlocks(full, n) && FixedLayout(full, n, bs) && bs > 0 && off < |Content(full, n)|
    ensures LandsOn(full, n, off, off / bs)
  {
    var bi := off / bs;
    DivisionLands(off, bs);
    assert StartsFixed(full, n, bs, |n.blocks|);
    if bi >= |n.blocks| {
      TimesGrows(|n.blocks|, bi, bs);
    } else {
      assert StartsFixed(full, n, bs, bi) && StartsFixed(full, n, bs, bi + 1);
    }
  }

  /** The blocks from the bi-th on, cut to [off, end), each taken to start where the block size puts it. */
  function FixedRead(store: BlockStore, n: FileNode, bs: nat, off: nat, end: int, bi: nat): Result<Bytes, ReadError>
    decreases |n.blocks| - bi
  {
    if bi >= |n.blocks| || bi * bs >= end then Ok([])
    else if n.blocks[bi] !in store then Err(BlockMissing)
    else
      var data := store[n.blocks[bi]];
      var from, to := CutFrom(bi * bs, off), CutTo(data, bi * bs, end);
      if from > to then Err(BlockOutOfRange(bi))
      else Prepended(data[from..to], FixedRead(store, n, bs, off, end, bi + 1))
  }

  function Prepended(out: Bytes, r: Result<Bytes, ReadError>): Result<Bytes, ReadError> {
    match r
    case Ok(rest) => Ok(out + rest)
    case Err(e) => Err(e)
  }

  lemma PrependNothing(r: Result<Bytes, ReadError>)
    ensures Prepended([], r) == r
  {
    if r.Ok? { assert [] + r.value == r.value; }
  }

  lemma PrependTwice(a: Bytes, b: Bytes, r: Result<Bytes, ReadError>)
    ensures Prepended(a, Prepended(b, r)) == Prepended(a + b, r)
  {
    if r.Ok? { assert a + (b + r.value) == (a + b) + r.value; }
  }

  /** What is read so far and what is still to read make up the whole. */
  ghost predicate FixedSoFar(store: BlockStore, n: FileNode, bs: nat, off: nat, end: int, bi: nat, out: Bytes,
                             whole: Result<Bytes, ReadError>)
  {
    whole == Prepended(out, FixedRead(store, n, bs, off, end, bi))
  }

  lemma FixedStops(store: BlockStore, n: FileNode, bs: nat, off: nat, end: int, bi: nat, out: Bytes,
                   whole: Result<Bytes, ReadError>)
    requires FixedSoFar(store, n, bs, off, end, bi, out, whole) && (bi >= |n.blocks| || bi * bs >= end)
    ensures whole == Ok(out)
  {
    assert out + [] == out;
  }

  lemma FixedGoes(store: BlockStore, n: FileNode, bs: nat, off: nat, end: int, bi: nat, out: Bytes,
                  whole: Result<Bytes, ReadError>, blkStart: nat)
    requires FixedSoFar(store, n, bs, off, end, bi, out, whole) && bi < |n.blocks| && blkStart == bi * bs < end
    ensures n.blocks[bi] !in store ==> whole == Err(BlockMissing)
    ensures n.blocks[bi] in store ==>
              var data := store[n.blocks[bi]];
              var from, to := CutFrom(blkStart, off), CutTo(data, blkStart, end);
              if from > to then whole == Err(BlockOutOfRange(bi))
              else FixedSoFar(store, n, bs, off, end, bi + 1, out + data[from..to], whole)
  {
    if n.blocks[bi] in store {
      var data := store[n.blocks[bi]];
      var from, to := CutFrom(blkStart, off), CutTo(data, blkStart, end);
      if from <= to { PrependTwice(out, data[from..to], FixedRead(store, n, bs, off, end, bi + 1)); }
    }
  }

  /** The fixed-size branch of `readAt`, whatever sizes the blocks have. */
  method ReadAtFixed(t: FsTree, n: FileNode, off: nat, end: int) returns (r: Result<Bytes, ReadError>)
    requires n.offsets.None? && off < n.size && BufferFits(off, end)
    ensures var bs := EffectiveBlockSize(t.blockSize); r == FixedRead(t.store, n, bs, off, end, off / bs)
  {
    var bs := t.blockSize;
    if bs <= 0 {
      bs := DEFAULT_BLOCK_SIZE;
    }
    var out: Bytes := [];
    var bi := off / bs;
    ghost var whole := FixedRead(t.store, n, bs, off, end, bi);
    PrependNothing(whole);
    while true
      invariant FixedSoFar(t.store, n, bs, off, end, bi, out, whole)
      decreases |n.blocks| - bi
    {
      if bi >= |n.blocks| {
        FixedStops(t.store, n, bs, off, end, bi, out, whole);
        break;
      }
      var blkStart := bi * bs;
      if blkStart >= end {
        FixedStops(t.store, n, bs, off, end, bi, out, whole);
        break;
      }
      FixedGoes(t.store, n, bs, off, end, bi, out, whole, blkStart);
      if n.blocks[bi] !in t.store {
        return Err(BlockMissing);
      }
      var data := t.store[n.blocks[bi]];
      var piece := CutBlock(data, bi, blkStart, off, end);
      if piece.Err? {
        return piece;
      }
      out := out + piece.value;
      bi := bi + 1;
    }
    r := Ok(out);
  }

  /** Where the layout fits, the whole is the slice. */
  lemma {:induction false} FixedReadGoesOn(store: BlockStore, full: BlockStore, blockSize: int, n: FileNode, off: nat,
                                           end: nat, bi: nat, out: Bytes, whole: Result<Bytes, ReadError>)
    requires WellFormed(full, blockSize, n) && n.offsets.None? && off < end <= n.size && PartOf(store, full)
    requires bi <= |n.blocks| && Reading(store, full, n, off, end, bi, out)
    requires FixedSoFar(store, n, EffectiveBlockSize(blockSize), off, end, bi, out, whole)
    ensures whole == if Available(store, full, n, off, end) then Ok(Content(full, n)[off..end]) else Err(BlockMissing)
    decreases |n.blocks| - bi
  {
    var bs := EffectiveBlockSize(blockSize);
    var blkStart := bi * bs;
    assert StartsFixed(full, n, bs, bi);
    if bi == |n.blocks| || blkStart >= end {
      FixedStops(store, n, bs, off, end, bi, out, whole);
      ReadDone(store, full, blockSize, n, off, end, bi, out);
    } else {
      FixedGoes(store, n, bs, off, end, bi, out, whole, blkStart);
      if n.blocks[bi] in store {
        var data := store[n.blocks[bi]];
        ReadStep(store, full, n, off, end, bi, out);
        FixedReadGoesOn(store, full, blockSize, n, off, end, bi + 1,
                        out + data[CutFrom(blkStart, off)..CutTo(data, blkStart, end)], whole);
      } else {
        assert Overlaps(full, n, off, end, bi);
      }
    }
  }

  lemma FixedReadIsSlice(store: BlockStore, full: BlockStore, blockSize: int, n: FileNode, off: nat, end: nat)
    requires WellFormed(full, blockSize, n) && n.offsets.None? && off < end <= n.size && PartOf(store, full)
    ensures var bs := EffectiveBlockSize(blockSize);
            FixedRead(store, n, bs, off, end, off / bs) ==
            if Available(store, full, n, off, end) then Ok(Content(full, n)[off..end]) else Err(BlockMissing)
  {
    var bs := EffectiveBlockSize(blockSize);
    var whole := FixedRead(store, n, bs, off, end, off / bs);
    FixedLanding(full, n, bs, off);
    ReadBegins(store, full, n, off, end, off / bs);
    PrependNothing(whole);
    FixedReadGoesOn(store, full, blockSize, n, off, end, off / bs, [], whole);
  }

  // ---------------------------------------------------------------- blocks of another size

  /** A read that stops before block k returns no more than the blocks before it hold. */
  lemma {:induction false} FixedReadIsShort(full: BlockStore, n: FileNode, bs: nat, off: nat, end: int, bi: nat, k: nat)
    requires HasBlocks(full, n) && bi <= k <= |n.blocks| && (k == |n.blocks| || k * bs >= end)
    ensures var r := FixedRead(full, n, bs, off, end, bi);
            r.Ok? ==> |r.value| <= Start(full, n, k) - Start(full, n, bi)
    decreases k - bi
  {
    StartsAscend(full, n, bi, k);
    if bi < k && bi * bs < end {
      FixedReadIsShort(full, n, bs, off, end, bi + 1, k);
    }
  }

  lemma QuotientOfProduct(k: nat, bs: nat)
    requires bs > 0
    ensures k * bs / bs == k && 0 / bs == 0
  {
    var q := k * bs / bs;
    DivisionLands(k * bs, bs);
    if q + 1 <= k { TimesGrows(q + 1, k, bs); }
    if k + 1 <= q { TimesGrows(k + 1, q, bs); }
  }

  /** Every read of a file in fixed-size blocks is right, all its blocks being at hand, if and only if
      each block starts where the block size puts it, or at the end of the file. */
  lemma FixedReadsExactly(full: BlockStore, n: FileNode, blockSize: int)
    requires !n.isDir && n.offsets.None? && HasBlocks(full, n) && n.size == |Content(full, n)| <= MAX_INT64
    ensures var bs := EffectiveBlockSize(blockSize);
            (forall off: nat, end: nat | off < end <= n.size ::
               FixedRead(full, n, bs, off, end, off / bs) == Ok(Content(full, n)[off..end]))
            <==> FixedLayout(full, n, bs)
  {
    var bs := EffectiveBlockSize(blockSize);
    if FixedLayout(full, n, bs) {
      forall off: nat, end: nat | off < end <= n.size
        ensures FixedRead(full, n, bs, off, end, off / bs) == Ok(Content(full, n)[off..end])
      {
        FixedReadIsSlice(full, full, blockSize, n, off, end);
      }
    } else {
      var k :| 0 <= k <= |n.blocks| && !StartsFixed(full, n, bs, k);
      StartsAscend(full, n, k, |n.blocks|);
      QuotientOfProduct(k, bs);
      if Start(full, n, k) > k * bs {
        FixedReadIsShort(full, n, bs, k * bs, n.size, k, |n.blocks|);
        assert FixedRead(full, n, bs, k * bs, n.size, k) != Ok(Content(full, n)[k * bs..n.size]);
      } else {
        FixedReadIsShort(full, n, bs, 0, Least(k * bs, n.size), 0, k);
        assert FixedRead(full, n, bs, 0, Least(k * bs, n.size), 0) != Ok(Content(full, n)[..Least(k * bs, n.size)]);
      }
    }
  }

  ghost predicate Readable(store: BlockStore, full: BlockStore, n: FileNode, off: int, length: int)
    requires HasBlocks(full, n)
  {
    off < 0 || length <= 0 || off >= |Content(full, n)| || off + length > MAX_INT64 ||
    Available(store, full, n, off, if off + length > |Content(full, n)| then |Content(full, n)| else off + length)
  }

  /** The buffer a read allocates, which takes what the range has of the file, is not too long. */
  predicate Allocatable(n: FileNode, off: int, length: int) {
    || n.isDir || off < 0 || off >= n.size || length <= 0
    || (var end := AddInt64(off, length);
        BufferFits(off, Least(end, n.size)))
  }

  lemma ShortIsAllocatable(n: FileNode, off: int, length: int)
    requires off <= MAX_INT64 && length <= MAX_MAKE
    ensures Allocatable(n, off, length)
  {
  }

  /** What reading [off, off + length) of a node gives: nothing for a directory, for a node without
      blocks, outside the file, and where the end of the range is no 64-bit number; else the bytes
      up to the end of the file, or the store's error. */
  ghost function ReadResult(store: BlockStore, full: BlockStore, n: FileNode, off: int, length: int):
    Result<Bytes, ReadError>
    requires n.isDir || NoBlocks(n) || HasBlocks(full, n)
    requires Allocatable(n, off, length)
  {
    if n.isDir || NoBlocks(n) || off + length > MAX_INT64 then Ok([])
    else if Readable(store, full, n, off, length) then Ok(Slice(Content(full, n), off, length))
    else Err(BlockMissing)
  }

  /** The read behind every file access. Its sum is computed in 64 bits, as the source does. */
  method ReadAt(t: FsTree, n: FileNode, off: int, length: int, ghost full: BlockStore)
    returns (r: Result<Bytes, ReadError>)
    requires n.isDir || n.offsets.None? || WellFormed(full, t.blockSize, n)
    requires PartOf(t.store, full)
    requires off <= MAX_INT64 && length <= MAX_INT64  // the ranges of int64 and int
    requires Allocatable(n, off, length)
    ensures n.isDir || NoBlocks(n) || WellFormed(full, t.blockSize, n) ==>
              r == ReadResult(t.store, full, n, off, length)
    ensures !n.isDir && n.offsets.None? ==> r == FixedResult(t.store, n, t.blockSize, off, length)
  {
    if n.isDir || off < 0 || off >= n.size || length <= 0 {
      return Ok([]);
    }
    var end := AddInt64(off, length);
    if end > n.size {
      end := n.size;
    }
    if n.offsets.Some? {
      ResultOfRange(t.store, full, n, off, length, end);
      r := ReadAtVariable(t, n, off, end, full);
      return;
    }
    if NoBlocks(n) || WellFormed(full, t.blockSize, n) {
      FixedResultIsRead(t.store, full, t.blockSize, n, off, length);
    }
    r := ReadAtFixed(t, n, off, end);
  }

  /** The result in terms of the end of the range as it is computed. */
  lemma ResultOfRange(store: BlockStore, full: BlockStore, n: FileNode, off: nat, length: nat, end: int)
    requires !n.isDir && !NoBlocks(n) && HasBlocks(full, n) && n.size == |Content(full, n)| <= MAX_INT64
    requires off < n.size && 0 < length <= MAX_INT64 && Allocatable(n, off, length)
    requires end == Least(AddInt64(off, length), n.size)
    ensures end < 0 ==> ReadResult(store, full, n, off, length) == Ok([])
    ensures end >= 0 ==>
              off < end && ReadResult(store, full, n, off, length) ==
              if Available(store, full, n, off, end) then Ok(Content(full, n)[off..end]) else Err(BlockMissing)
  {
    if end >= 0 {
      assert off + length <= MAX_INT64 && end == Least(off + length, n.size);
      assert Slice(Content(full, n), off, length) == Content(full, n)[off..end];
    }
  }

  lemma FixedResultIsRead(store: BlockStore, full: BlockStore, blockSize: int, n: FileNode, off: int, length: int)
    requires !n.isDir && n.offsets.None? && (NoBlocks(n) || WellFormed(full, blockSize, n)) && PartOf(store, full)
    requires off <= MAX_INT64 && length <= MAX_INT64 && Allocatable(n, off, length)
    ensures FixedResult(store, n, blockSize, off, length) == ReadResult(store, full, n, off, length)
  {
    if off >= 0 && off < n.size && length > 0 && !NoBlocks(n) {
      var end, bs := Least(AddInt64(off, length), n.size), EffectiveBlockSize(blockSize);
      ResultOfRange(store, full, n, off, length, end);
      if end >= 0 {
        FixedReadIsSlice(store, full, blockSize, n, off, end);
      } else {
        TimesGrows(0, off / bs, bs);
      }
    }
  }

  /** What reading [off, off + length) of a file in fixed-size blocks gives, whatever sizes they have. */
  function FixedResult(store: BlockStore, n: FileNode, blockSize: int, off: int, length: int):
    Result<Bytes, ReadError>
  {
    if off < 0 || off >= n.size || length <= 0 then Ok([])
    else
      var end, bs := AddInt64(off, length), EffectiveBlockSize(blockSize);
      FixedRead(store, n, bs, off, Least(end, n.size), off / bs)
  }

  /** A missing empty block stands where one range ends and the next begins: only a read that spans
      both fetches it. */
  ghost predicate MissesEmptyAt(store: BlockStore, full: BlockStore, n: FileNode, at: nat)
    requires HasBlocks(full, n)
  {
    exists k {:trigger Start(full, n, k)} ::
      0 <= k < |n.blocks| && Start(full, n, k) == at && full[n.blocks[k]] == [] && n.blocks[k] !in store
  }

  /** Adjacent reads concatenate to what one longer read returns. When both succeed, the longer one
      fails exactly when both ask for something, the second begins inside the file, and an empty block
      is missing right between them. */
  lemma AdjacentReadsJoin(store: BlockStore, full: BlockStore, n: FileNode, off: nat, first: nat, second: nat)
    requires n.isDir || NoBlocks(n) || HasBlocks(full, n)
    requires off + first + second <= MAX_INT64 && Allocatable(n, off, first + second)
    requires ReadResult(store, full, n, off, first).Ok? && ReadResult(store, full, n, off + first, second).Ok?
    ensures var longer := ReadResult(store, full, n, off, first + second);
            && (longer.Ok? ==> longer.value == ReadResult(store, full, n, off, first).value +
                                               ReadResult(store, full, n, off + first, second).value)
            && (longer.Err? <==> !n.isDir && !NoBlocks(n) && first > 0 && second > 0
                                 && off + first < |Content(full, n)| && MissesEmptyAt(store, full, n, off + first))
  {
    if !n.isDir && !NoBlocks(n) {
      AdjacentSlicesJoin(Content(full, n), off, first, second);
      LongerReadable(store, full, n, off, first, second);
    }
  }

  /** A block that overlaps the longer range overlaps one of its two parts, or is empty and lies
      right between them. */
  lemma LongerReadable(store: BlockStore, full: BlockStore, n: FileNode, off: nat, first: nat, second: nat)
    requires HasBlocks(full, n) && off + first + second <= MAX_INT64
    requires Readable(store, full, n, off, first) && Readable(store, full, n, off + first, second)
    ensures !Readable(store, full, n, off, first + second) <==>
            first > 0 && second > 0 && off + first < |Content(full, n)| && MissesEmptyAt(store, full, n, off + first)
  {
    var size, mid := |Content(full, n)|, off + first;
    var end := if mid + second > size then size else mid + second;
    if first > 0 && second > 0 && mid < size {
      forall k | 0 <= k < |n.blocks|
        ensures Overlaps(full, n, off, end, k) && n.blocks[k] !in store <==>
                Start(full, n, k) == mid && full[n.blocks[k]] == [] && n.blocks[k] !in store
      {
        BlockIsSlice(full, n, k);
        assert Overlaps(full, n, off, mid, k) ==> n.blocks[k] in store;
        assert Overlaps(full, n, mid, end, k) ==> n.blocks[k] in store;
      }
    }
  }
}
