/** The loops that walk a whole file through `readAt`: streaming it in chunks, and comparing
    it with a file of the upper directory. */
module Streaming {
  import opened Wrappers
  import opened Entries
  import opened TreeData
  import opened BlockReads

  datatype Chunk = Chunk(data: Bytes, offset: nat)

  const COMPARE_CHUNK: nat := 0x10_0000
  const MAX_INT32: int := 0x7fff_ffff

  datatype CompareError = LowerUnreadable | UpperTooShort

  /** What the receiver of the chunks has when it appends them in order. */
  function Received(chunks: seq<Chunk>): Bytes {
    if chunks == [] then [] else Received(chunks[..|chunks| - 1]) + chunks[|chunks| - 1].data
  }

  /** Each chunk starts where the previous ones end, is not empty, and respects the limit. */
  ghost predicate Contiguous(chunks: seq<Chunk>, limit: nat) {
    forall i :: 0 <= i < |chunks| ==>
      && chunks[i].offset == |Received(chunks[..i])|
      && 0 < |chunks[i].data| <= limit
  }

  /** Only the last chunk may be shorter than the limit. */
  ghost predicate FullChunks(chunks: seq<Chunk>, limit: nat) {
    forall i :: 0 <= i < |chunks| - 1 ==> |chunks[i].data| == limit
  }

  function ChunkLimit(requested: int): nat {
    if requested <= 0 then DEFAULT_CHUNK else requested
  }

  lemma ReceivedOneMore(chunks: seq<Chunk>, c: Chunk, limit: nat)
    requires Contiguous(chunks, limit) && c.offset == |Received(chunks)| && 0 < |c.data| <= limit
    ensures Received(chunks + [c]) == Received(chunks) + c.data
    ensures Contiguous(chunks + [c], limit)
  {
    var more := chunks + [c];
    assert more[..|chunks|] == chunks;
    forall i | 0 <= i < |more|
      ensures more[i].offset == |Received(more[..i])| && 0 < |more[i].data| <= limit
    {
      assert more[..i] == chunks[..i];
    }
  }

  lemma UnreadableIsMissing(store: BlockStore, full: BlockStore, n: FileNode, off: nat, length: nat)
    requires HasBlocks(full, n) && !Readable(store, full, n, off, length)
    ensures exists b :: b in n.blocks && b !in store
  {
    var end := if off + length > |Content(full, n)| then |Content(full, n)| else off + length;
    var k :| k < |n.blocks| && Overlaps(full, n, off, end, k) && n.blocks[k] !in store;
    assert n.blocks[k] in n.blocks;
  }

  /** A read inside a committed file returns that piece of it, or meets a missing block. A file
      that lists no blocks has nothing to return. */
  method ReadInside(t: FsTree, n: FileNode, off: nat, want: nat, ghost full: BlockStore, ghost c: Bytes)
    returns (r: Result<Bytes, ReadError>)
    requires !n.isDir && (NoBlocks(n) || (WellFormed(full, t.blockSize, n) && c == Content(full, n)))
    requires NoBlocks(n) ==> c == []
    requires PartOf(t.store, full) && 0 < want <= MAX_MAKE && off + want <= n.size <= MAX_INT64
    ensures NoBlocks(n) ==> r == Ok([])
    ensures !NoBlocks(n) && r.Ok? ==> off + want <= |c| && r.value == c[off..off + want]
    ensures r.Err? ==> !NoBlocks(n) && off < |c| && exists b :: b in n.blocks && b !in t.store
  {
    ShortIsAllocatable(n, off, want);
    r := ReadAt(t, n, off, want, full);
    if r.Err? {
      UnreadableIsMissing(t.store, full, n, off, want);
    }
  }

  /** What has been sent so far is the first `off` bytes. */
  ghost predicate Sent(c: Bytes, chunks: seq<Chunk>, off: nat, limit: nat) {
    && off <= |c| && Received(chunks) == c[..off] && Contiguous(chunks, limit) && FullChunks(chunks, limit)
    && (off < |c| && chunks != [] ==> |chunks[|chunks| - 1].data| == limit)
  }

  lemma FullOneMore(chunks: seq<Chunk>, c: Chunk, limit: nat)
    requires FullChunks(chunks, limit) && (chunks != [] ==> |chunks[|chunks| - 1].data| == limit)
    ensures FullChunks(chunks + [c], limit)
  {
  }

  lemma PrefixOneMore(c: Bytes, off: nat, want: nat)
    requires off + want <= |c|
    ensures c[..off] + c[off..off + want] == c[..off + want]
  {
  }

  /** A chunk read at the end of what was sent extends it by exactly that chunk. */
  lemma SentOneMore(c: Bytes, chunks: seq<Chunk>, off: nat, want: nat, limit: nat)
    requires Sent(c, chunks, off, limit) && 0 < want <= limit && off + want <= |c|
    requires want == limit || off + want == |c|
    ensures Sent(c, chunks + [Chunk(c[off..off + want], off)], off + want, limit)
  {
    var chunk := Chunk(c[off..off + want], off);
    ReceivedOneMore(chunks, chunk, limit);
    FullOneMore(chunks, chunk, limit);
    PrefixOneMore(c, off, want);
  }

  /** The streaming loop, for a positive chunk size. */
  method SendChunks(t: FsTree, n: FileNode, chunkSize: nat, ghost full: BlockStore, ghost c: Bytes)
    returns (chunks: seq<Chunk>, off: nat, ok: bool)
    requires !n.isDir && (NoBlocks(n) || (WellFormed(full, t.blockSize, n) && c == Content(full, n)))
    requires NoBlocks(n) ==> c == []
    requires PartOf(t.store, full) && n.size <= MAX_INT64 && 0 < chunkSize <= MAX_INT32
    ensures Sent(c, chunks, off, chunkSize)
    ensures NoBlocks(n) ==> ok && chunks == []
    ensures !NoBlocks(n) && ok ==> off >= n.size
    ensures !ok ==> off < |c| && exists b :: b in n.blocks && b !in t.store
  {
    chunks := [];
    off := 0;
    while off < n.size
      invariant NoBlocks(n) ==> chunks == []
      invariant Sent(c, chunks, off, chunkSize)
      decreases n.size - off
    {
      var want := chunkSize;
      var remaining := n.size - off;
      if want > remaining {
        want := remaining;
      }
      var data := ReadInside(t, n, off, want, full, c);
      if data.Err? {
        return chunks, off, false;
      }
      if |data.value| == 0 {
        break;
      }
      SentOneMore(c, chunks, off, want, chunkSize);
      chunks := chunks + [Chunk(data.value, off)];
      off := off + |data.value|;
    }
    ok := true;
  }

  /** Sends a committed file in chunks of at most the requested size. Every byte arrives
      exactly once and in order, or the stream stops at the first unreadable block. */
  method SendFile(t: FsTree, n: FileNode, requested: int, ghost full: BlockStore)
    returns (chunks: seq<Chunk>, ok: bool)
    requires !n.isDir && (NoBlocks(n) || WellFormed(full, t.blockSize, n))
    requires PartOf(t.store, full) && n.size <= MAX_INT64 && requested <= MAX_INT32  // the ranges of int64 and int32
    ensures Contiguous(chunks, ChunkLimit(requested)) && FullChunks(chunks, ChunkLimit(requested))
    ensures NoBlocks(n) ==> ok && chunks == []
    ensures !NoBlocks(n) && ok ==> Received(chunks) == Content(full, n)
    ensures !NoBlocks(n) && !ok ==> Received(chunks) < Content(full, n) && exists b :: b in n.blocks && b !in t.store
  {
    var chunkSize := requested;
    if chunkSize <= 0 {
      chunkSize := DEFAULT_CHUNK;
    }
    ghost var c := if NoBlocks(n) then [] else Content(full, n);
    var off;
    chunks, off, ok := SendChunks(t, n, chunkSize, full, c);
  }

  /** Agreeing on one more chunk is agreeing on a longer prefix; differing on it settles the question. */
  lemma ComparedOneMore(c: Bytes, upper: Bytes, off: nat, want: nat)
    requires 0 < want && off + want <= |c| && off + want <= |upper| && c[..off] == upper[..off]
    ensures c[off..off + want] == upper[off..off + want] ==> c[..off + want] == upper[..off + want]
    ensures c[off..off + want] != upper[off..off + want] ==> !(c <= upper)
  {
    assert c[..off + want] == c[..off] + c[off..off + want];
    assert upper[..off + want] == upper[..off] + upper[off..off + want];
    assert c <= upper ==> c[off..off + want] == upper[off..off + want];
  }

  /** Compares a lower file with the bytes of an upper file, chunk by chunk. */
  method SameContent(t: FsTree, n: FileNode, upper: Bytes, ghost full: BlockStore)
    returns (r: Result<bool, CompareError>)
    requires WellFormed(full, t.blockSize, n) && PartOf(t.store, full)
    ensures r.Ok? ==> r.value == (Content(full, n) <= upper)
    ensures r.Err? ==> |upper| < n.size || exists b :: b in n.blocks && b !in t.store
  {
    ghost var c := Content(full, n);
    var off := 0;
    while off < n.size
      invariant 0 <= off <= n.size && off <= |upper|
      invariant c[..off] == upper[..off]
    {
      var want := COMPARE_CHUNK;
      var remaining := n.size - off;
      if remaining < COMPARE_CHUNK {
        want := remaining;
      }
      var lower := ReadInside(t, n, off, want, full, c);
      if lower.Err? {
        return Err(LowerUnreadable);
      }
      if |lower.value| == 0 {
        return Ok(false);
      }
      if |upper| - off < |lower.value| {
        return Err(UpperTooShort);
      }
      ComparedOneMore(c, upper, off, want);
      if lower.value != upper[off..off + |lower.value|] {
        return Ok(false);
      }
      off := off + |lower.value|;
    }
    assert c == c[..off];
    r := Ok(true);
  }
}
