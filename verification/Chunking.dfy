/** Fixed-size chunking: the plain split, the TypeScript chunker that carries bytes over from
    one read to the next, and the Go chunker that fills a reused buffer. */
module Chunking {
  import opened Basics

  type Hash = string

  const DEFAULT_BLOCK_SIZE: nat := 4 * 1024 * 1024

  /** The numbers are those of the JSON document, so they may be negative. */
  datatype BlockInfo = BlockInfo(index: int, size: int, sha: Hash)
  datatype FileManifest = FileManifest(name: string, size: int, sha: Hash, blockSize: int, blocks: seq<BlockInfo>)

  function Split(data: Bytes, size: nat): seq<Bytes>
    requires size > 0
  {
    if data == [] then []
    else if |data| <= size then [data]
    else [data[..size]] + Split(data[size..], size)
  }

  function Infos(sha: Bytes -> Hash, chunks: seq<Bytes>): seq<BlockInfo> {
    seq(|chunks|, i requires 0 <= i < |chunks| => BlockInfo(i, |chunks[i]|, sha(chunks[i])))
  }

  function EffectiveSize(blockSize: int): nat {
    if blockSize <= 0 then DEFAULT_BLOCK_SIZE else blockSize
  }

  /** The manifest of `data`, independent of how the file is read. */
  function ManifestOf(sha: Bytes -> Hash, name: string, data: Bytes, blockSize: int): FileManifest {
    var size := EffectiveSize(blockSize);
    FileManifest(name, |data|, sha(data), size, Infos(sha, Split(data, size)))
  }

  // ----- what the split is -----

  function Min(a: nat, b: nat): nat {
    if a < b then a else b
  }

  lemma {:induction false} SplitFlattens(data: Bytes, size: nat)
    requires size > 0
    ensures Flatten(Split(data, size)) == data
  {
    if |data| > size {
      SplitFlattens(data[size..], size);
      assert data == data[..size] + data[size..];
    } else if data != [] {
      assert Flatten([data]) == data + Flatten<byte>([]);
    }
  }

  /** Chunk i is the i-th window of the file; the windows tile it, none is empty, and only the
      last can be short. */
  lemma SplitAt(data: Bytes, size: nat, i: nat)
    requires size > 0
    ensures i < |Split(data, size)| <==> i * size < |data|
    ensures i * size < |data| ==>
              && Split(data, size)[i] == data[i * size..Min(i * size + size, |data|)]
              && (i + 1 < |Split(data, size)| ==> |Split(data, size)[i]| == size)
  {
    SplitWindow(data, size, i, i * size);
  }

  lemma {:induction false} SplitWindow(data: Bytes, size: nat, i: nat, off: nat)
    requires size > 0 && off == i * size
    ensures i < |Split(data, size)| <==> off < |data|
    ensures off < |data| ==>
              && Split(data, size)[i] == data[off..Min(off + size, |data|)]
              && (i + 1 < |Split(data, size)| ==> |Split(data, size)[i]| == size)
    decreases i
  {
    if i == 0 {
      assert off == 0;
      assert data[..|data|] == data;
      SplitNonEmpty(data, size);
      if |data| > size { SplitNonEmpty(data[size..], size); }
    } else {
      PreviousOffset(i, size);
      if |data| > size {
        SplitWindow(data[size..], size, i - 1, off - size);
        WindowOfDrop(data, size, off);
      }
    }
  }

  lemma PreviousOffset(i: nat, size: nat)
    requires i > 0
    ensures i * size == (i - 1) * size + size
  {}

  lemma WindowOfDrop(data: Bytes, size: nat, off: nat)
    requires size <= off && size < |data|
    ensures off < |data| ==> data[size..][off - size..Min(off, |data| - size)] == data[off..Min(off + size, |data|)]
  {
    if off < |data| {
      var inner, outer := data[size..][off - size..Min(off, |data| - size)], data[off..Min(off + size, |data|)];
      assert |inner| == |outer|;
      assert forall k | 0 <= k < |inner| :: inner[k] == outer[k];
    }
  }

  lemma SplitNonEmpty(data: Bytes, size: nat)
    requires size > 0
    ensures data != [] ==> Split(data, size) != []
  {}

  lemma {:induction false} ChunksNonEmpty(data: Bytes, size: nat)
    requires size > 0
    ensures forall i | 0 <= i < |Split(data, size)| :: 0 < |Split(data, size)[i]| <= size
  {
    if |data| > size { ChunksNonEmpty(data[size..], size); }
  }

  /** The number of blocks is |data| divided by the block size, rounded up. */
  lemma SplitCount(data: Bytes, size: nat)
    requires size > 0
    ensures (|Split(data, size)| - 1) * size < |data| <= |Split(data, size)| * size
            || (data == [] && Split(data, size) == [])
  {
    if data != [] {
      var n := |Split(data, size)|;
      SplitNonEmpty(data, size);
      SplitAt(data, size, n - 1);
      SplitAt(data, size, n);
    }
  }

  /** Full chunks in front split off unchanged: why re-slicing with a carry is sound. */
  lemma {:induction false} SplitFullPrefix(chunks: seq<Bytes>, rest: Bytes, size: nat)
    requires size > 0 && forall i | 0 <= i < |chunks| :: |chunks[i]| == size
    ensures Split(Flatten(chunks) + rest, size) == chunks + Split(rest, size)
  {
    if chunks == [] {
      assert Flatten(chunks) + rest == rest;
    } else {
      SplitFullPrefix(chunks[1..], rest, size);
      var data := Flatten(chunks) + rest;
      assert data == chunks[0] + (Flatten(chunks[1..]) + rest);
      assert data[..size] == chunks[0] && data[size..] == Flatten(chunks[1..]) + rest;
      if |data| <= size {
        assert data[size..] == [] && data == chunks[0];
      }
      assert chunks == [chunks[0]] + chunks[1..];
    }
  }

  /** Two block sizes chunk a file alike exactly when they are equal or the file fits in one
      block of either. */
  lemma SplitDeterminesSize(data: Bytes, a: nat, b: nat)
    requires a > 0 && b > 0
    ensures Split(data, a) == Split(data, b) <==> a == b || |data| <= Min(a, b)
  {
    if Split(data, a) == Split(data, b) && |data| > Min(a, b) {
      SplitAt(data, a, 0);
      SplitAt(data, b, 0);
      assert |Split(data, a)[0]| == Min(a, |data|) && |Split(data, b)[0]| == Min(b, |data|);
    }
  }

  /** `blocks` describes `data` in windows of `size` bytes: each window's index, length and hash. */
  ghost predicate Covers(sha: Bytes -> Hash, blocks: seq<BlockInfo>, data: Bytes, size: nat) {
    && (forall i: nat :: i < |blocks| <==> i * size < |data|)
    && forall i: nat | i < |blocks| ::
         blocks[i] == var window := data[i * size..Min(i * size + size, |data|)]; BlockInfo(i, |window|, sha(window))
  }

  /** What a manifest says of its file: every byte is in the file hash, and in its block's. */
  lemma ManifestCovers(sha: Bytes -> Hash, name: string, data: Bytes, blockSize: int)
    ensures var m := ManifestOf(sha, name, data, blockSize);
            && m.name == name && m.size == |data| && m.sha == sha(data)
            && m.blockSize == (if blockSize <= 0 then 4_194_304 else blockSize)
            && Covers(sha, m.blocks, data, m.blockSize)
  {
    var m := ManifestOf(sha, name, data, blockSize);
    forall i: nat ensures i < |m.blocks| <==> i * m.blockSize < |data| {
      SplitAt(data, m.blockSize, i);
    }
    forall i: nat | i < |m.blocks|
      ensures m.blocks[i] == var window := data[i * m.blockSize..Min(i * m.blockSize + m.blockSize, |data|)];
                             BlockInfo(i, |window|, sha(window))
    {
      SplitAt(data, m.blockSize, i);
    }
  }

  // ----- the TypeScript chunker -----

  /** buildManifest: `pieces` are the data events of the read stream, cut anywhere; the size
      field comes from stat, not from the bytes read. */
  method BuildManifest(sha: Bytes -> Hash, pieces: seq<Bytes>, statSize: nat, name: string, requested: int)
      returns (m: FileManifest)
    ensures m == ManifestOf(sha, name, Flatten(pieces), requested).(size := statSize)
    ensures m.name == name && m.size == statSize && m.sha == sha(Flatten(pieces))
    ensures m.blockSize == if requested <= 0 then 4_194_304 else requested
    ensures Covers(sha, m.blocks, Flatten(pieces), m.blockSize)
  {
    var blockSize := requested;
    if blockSize <= 0 {
      blockSize := DEFAULT_BLOCK_SIZE;
    }
    ghost var chunks: seq<Bytes> := [];
    var hashed: Bytes := [];
    var blocks: seq<BlockInfo> := [];
    var carry: Bytes := [];
    var k := 0;
    while k < |pieces|
      invariant k <= |pieces|
      invariant |carry| < blockSize
      invariant Carried(sha, chunks, blocks, hashed, blockSize) && hashed + carry == Flatten(pieces[..k])
    {
      var piece := pieces[k];
      FlattenSnoc(pieces[..k], piece);
      assert pieces[..k + 1] == pieces[..k] + [piece];
      carry := if carry == [] then piece else carry + piece;
      while |carry| >= blockSize
        invariant Carried(sha, chunks, blocks, hashed, blockSize) && hashed + carry == Flatten(pieces[..k + 1])
        decreases |carry|
      {
        var chunk := carry[..blockSize];
        Emit(sha, chunks, blocks, hashed, blockSize, chunk);
        hashed, blocks, chunks := hashed + chunk, blocks + [BlockInfo(|blocks|, |chunk|, sha(chunk))], chunks + [chunk];
        carry := carry[blockSize..];
      }
      k := k + 1;
    }
    assert pieces[..k] == pieces;
    LastBlock(sha, chunks, blocks, hashed, blockSize, carry);
    if |carry| > 0 {
      hashed, blocks := hashed + carry, blocks + [BlockInfo(|blocks|, |carry|, sha(carry))];
    }
    assert hashed == Flatten(pieces);
    ManifestCovers(sha, name, hashed, requested);
    m := FileManifest(name, statSize, sha(hashed), blockSize, blocks);
  }

  /** Only full blocks have been emitted, and the running hash has seen exactly those. */
  ghost predicate Carried(sha: Bytes -> Hash, chunks: seq<Bytes>, blocks: seq<BlockInfo>, hashed: Bytes, size: nat) {
    && (forall i | 0 <= i < |chunks| :: |chunks[i]| == size)
    && hashed == Flatten(chunks)
    && blocks == Infos(sha, chunks)
  }

  lemma InfosSnoc(sha: Bytes -> Hash, chunks: seq<Bytes>, chunk: Bytes)
    ensures Infos(sha, chunks + [chunk]) == Infos(sha, chunks) + [BlockInfo(|chunks|, |chunk|, sha(chunk))]
  {}

  lemma Emit(sha: Bytes -> Hash, chunks: seq<Bytes>, blocks: seq<BlockInfo>, hashed: Bytes, size: nat, chunk: Bytes)
    requires Carried(sha, chunks, blocks, hashed, size) && |chunk| == size
    ensures Carried(sha, chunks + [chunk], blocks + [BlockInfo(|blocks|, |chunk|, sha(chunk))], hashed + chunk, size)
  {
    FlattenSnoc(chunks, chunk);
    InfosSnoc(sha, chunks, chunk);
  }

  /** What is left when the input ends, if anything, is the last block. */
  lemma LastBlock(sha: Bytes -> Hash, chunks: seq<Bytes>, blocks: seq<BlockInfo>, hashed: Bytes, size: nat, tail: Bytes)
    requires Carried(sha, chunks, blocks, hashed, size) && |tail| < size
    ensures Infos(sha, Split(hashed + tail, size)) ==
            if tail == [] then blocks else blocks + [BlockInfo(|blocks|, |tail|, sha(tail))]
  {
    SplitFullPrefix(chunks, tail, size);
    if tail == [] {
      assert chunks + Split(tail, size) == chunks;
    } else {
      assert Split(tail, size) == [tail];
      InfosSnoc(sha, chunks, tail);
    }
  }

  // ----- the Go chunker -----

  /** An open file: each read(2) returns at most one piece. */
  class Reader {
    var pieces: seq<Bytes>

    ghost function Rest(): Bytes
      reads this
    {
      Flatten(pieces)
    }

    constructor (pieces: seq<Bytes>)
      ensures this.pieces == pieces
    {
      this.pieces := pieces;
    }

    method Read(limit: nat) returns (chunk: Bytes, eof: bool)
      modifies this
      ensures |chunk| <= limit && old(Rest()) == chunk + Rest()
      ensures eof <==> old(pieces) == []
      ensures eof ==> pieces == []
      ensures |pieces| < old(|pieces|) || eof || (pieces == old(pieces)[0 := pieces[0]] && |chunk| == limit)
    {
      if pieces == [] {
        return [], true;
      }
      eof := false;
      ghost var was := pieces;
      if |pieces[0]| <= limit {
        chunk, pieces := pieces[0], pieces[1..];
      } else {
        chunk, pieces := pieces[0][..limit], [pieces[0][limit..]] + pieces[1..];
        assert was[0] == chunk + pieces[0];
        assert pieces[1..] == was[1..];
        assert pieces == was[0 := pieces[0]];
      }
    }

    /** io.ReadFull: fills the buffer unless the file ends first. */
    method ReadFull(buf: array<byte>) returns (n: nat)
      modifies this, buf
      ensures n == Min(buf.Length, |old(Rest())|)
      ensures old(Rest()) == buf[..n] + Rest()
    {
      n := 0;
      var eof := false;
      while n < buf.Length && !eof
        invariant n <= buf.Length
        invariant old(Rest()) == buf[..n] + Rest()
        invariant eof ==> pieces == []
        decreases !eof, |pieces|, buf.Length - n
      {
        var chunk;
        chunk, eof := Read(buf.Length - n);
        forall i | 0 <= i < |chunk| {
          buf[n + i] := chunk[i];
        }
        assert buf[..n + |chunk|] == old(Rest())[..n] + chunk by {
          assert buf[..n] == old(Rest())[..n];
        }
        n := n + |chunk|;
      }
    }
  }

  class Chunker {
    const blockSize: nat

    constructor (requested: int)
      ensures blockSize == EffectiveSize(requested) == if requested <= 0 then 4_194_304 else requested
    {
      blockSize := if requested <= 0 then DEFAULT_BLOCK_SIZE else requested;
    }

    /** One buffer reused for every block, stopping at the first short read. */
    method Manifest(sha: Bytes -> Hash, f: Reader, statSize: nat, name: string) returns (m: FileManifest)
      requires blockSize > 0
      modifies f
      ensures m == ManifestOf(sha, name, old(f.Rest()), blockSize).(size := statSize)
      ensures m.name == name && m.size == statSize && m.sha == sha(old(f.Rest())) && m.blockSize == blockSize
      ensures Covers(sha, m.blocks, old(f.Rest()), blockSize)
    {
      var buf := new byte[blockSize](_ => 0);
      ghost var chunks: seq<Bytes> := [];
      var hashed: Bytes := [];
      var blocks: seq<BlockInfo> := [];
      ghost var data, rest := f.Rest(), f.Rest();
      var more := true;
      while more
        invariant fresh(buf) && buf.Length == blockSize && rest == f.Rest()
        invariant data == hashed + rest
        invariant more ==> Carried(sha, chunks, blocks, hashed, blockSize)
        invariant !more ==> rest == [] && blocks == Infos(sha, Split(data, blockSize))
        decreases more, |rest|
      {
        var n := f.ReadFull(buf);
        var chunk := buf[..n];
        assert hashed + rest == (hashed + chunk) + f.Rest();
        rest := f.Rest();
        if n < blockSize {
          LastBlock(sha, chunks, blocks, hashed, blockSize, chunk);
          assert rest == [] && data == hashed + chunk;
          more := false;      // io.EOF or io.ErrUnexpectedEOF
        } else {
          Emit(sha, chunks, blocks, hashed, blockSize, chunk);
        }
        if n > 0 {
          hashed, blocks, chunks := hashed + chunk, blocks + [BlockInfo(|blocks|, n, sha(chunk))], chunks + [chunk];
        }
      }
      assert hashed == data;
      ManifestCovers(sha, name, data, blockSize);
      m := FileManifest(name, statSize, sha(hashed), blockSize, blocks);
    }
  }
}
