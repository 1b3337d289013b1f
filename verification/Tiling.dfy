/** The chunker and the two file operations of the transfer engine. */
module Tiling {
  import opened Basics

  const MIN_CHUNK_SIZE: nat := 512 * 1024
  const MAX_CHUNK_SIZE: nat := 64 * 1024 * 1024

  /** `Chunker::new` clamps the requested size. */
  function Clamp(requested: nat): (size: nat)
    ensures MIN_CHUNK_SIZE <= size <= MAX_CHUNK_SIZE
  {
    if requested < MIN_CHUNK_SIZE then MIN_CHUNK_SIZE
    else if requested > MAX_CHUNK_SIZE then MAX_CHUNK_SIZE
    else requested
  }

  /** `create_metadata` announces a chunk size that it only raises to the minimum. */
  function Announced(requested: nat): nat {
    Max(requested, MIN_CHUNK_SIZE)
  }

  function TotalChunks(size: nat, cs: nat): nat
    requires cs > 0
  {
    if size == 0 then 1 else (size + cs - 1) / cs
  }

  function Offset(cs: nat, i: nat): nat {
    i * cs
  }

  function ChunkLength(size: nat, cs: nat, i: nat): nat {
    Min(Max(size - Offset(cs, i), 0), cs)
  }

  /** End of chunk i inside a file of the given size. */
  function ChunkEnd(size: nat, cs: nat, i: nat): nat {
    Min(Offset(cs, i) + cs, size)
  }

  /** `prepare_chunk`: seek and read exactly the chunk. */
  function Chunk(src: Bytes, cs: nat, i: nat): (data: Bytes)
    ensures |data| == ChunkLength(|src|, cs, i)
  {
    var lo := Min(Offset(cs, i), |src|);
    src[lo..lo + ChunkLength(|src|, cs, i)]
  }

  function Zeros(n: nat): (z: Bytes)
    ensures |z| == n
  {
    seq(n, _ => 0)
  }

  function WrittenByte(file: Bytes, off: nat, data: Bytes, k: nat): Byte {
    if off <= k < off + |data| then data[k - off] else if k < |file| then file[k] else 0
  }

  /** Seek and write on a file opened without truncation: a gap reads as zeros, and an empty write
      leaves the file as it was. */
  function WriteAt(file: Bytes, off: nat, data: Bytes): (r: Bytes)
    ensures |r| == if data == [] then |file| else Max(|file|, off + |data|)
    ensures forall k :: 0 <= k < |r| ==> r[k] == WrittenByte(file, off, data, k)
  {
    if data == [] then file
    else
      var padded := if |file| < off then file + Zeros(off - |file|) else file;
      padded[..off] + data + if off + |data| < |file| then file[off + |data|..] else []
  }

  /** A write changes the bytes it covers and no others; the bytes of a gap it leaves are zeros. */
  lemma WriteAtBytes(file: Bytes, off: nat, data: Bytes, k: nat)
    ensures var r := WriteAt(file, off, data);
            && (off <= k < off + |data| ==> k < |r| && r[k] == data[k - off])
            && (k < |file| && !(off <= k < off + |data|) ==> k < |r| && r[k] == file[k])
            && (|file| <= k < off && data != [] ==> k < |r| && r[k] == 0)
            && (k >= |file| && k >= off + |data| ==> k >= |r|)
  {
    var r := WriteAt(file, off, data);
    if k < |r| { assert r[k] == WrittenByte(file, off, data, k); }
  }

  function ProcessReceivedChunk(file: Bytes, i: nat, cs: nat, data: Bytes): Bytes {
    WriteAt(file, Offset(cs, i), data)
  }

  // ---- arithmetic of tiles ----

  lemma MulAtLeast(k: int, d: nat)
    requires k >= 1
    ensures k * d >= d
  {
    assert k * d == d + (k - 1) * d;
  }

  lemma DivModUnique(a: nat, d: nat, q: int, r: nat)
    requires r < d && a == q * d + r
    ensures a / d == q && a % d == r
  {
    var q', r' := a / d, a % d;
    assert a == q' * d + r';
    assert (q - q') * d == q * d - q' * d == r' - r;
    if q > q' {
      MulAtLeast(q - q', d);
    } else if q < q' {
      MulAtLeast(q' - q, d);
    } else {
      assert r == r';
    }
  }

  lemma NextOffset(cs: nat, i: nat)
    ensures Offset(cs, i + 1) == Offset(cs, i) + cs
  {
  }

  lemma {:induction false} OffsetMono(cs: nat, i: nat, j: nat)
    requires i <= j
    ensures Offset(cs, i) <= Offset(cs, j)
    ensures i < j ==> Offset(cs, i) + cs <= Offset(cs, j)
    decreases j - i
  {
    if i < j {
      NextOffset(cs, i);
      OffsetMono(cs, i + 1, j);
    }
  }

  lemma TotalChunksSpec(size: nat, cs: nat)
    requires cs > 0
    ensures var n := TotalChunks(size, cs);
            n >= 1 && Offset(cs, n - 1) <= size <= Offset(cs, n)
            && (size > 0 ==> Offset(cs, n - 1) < size)
  {
    if size > 0 {
      var n := (size + cs - 1) / cs;
      assert size + cs - 1 == n * cs + (size + cs - 1) % cs;
      assert n * cs >= size > 0;
      assert (n - 1) * cs == n * cs - cs;
    }
  }

  /** Every chunk of the file starts inside it, so no offset computed for an index below the total
      leaves the u64 range of the file size. */
  lemma OffsetInFile(size: nat, cs: nat, i: nat)
    requires cs > 0 && i < TotalChunks(size, cs)
    ensures Offset(cs, i) <= size
    ensures size > 0 ==> Offset(cs, i) < size && ChunkLength(size, cs, i) > 0
    ensures Offset(cs, i) + ChunkLength(size, cs, i) == ChunkEnd(size, cs, i)
  {
    TotalChunksSpec(size, cs);
    OffsetMono(cs, i, TotalChunks(size, cs) - 1);
  }

  lemma LastChunkEnds(size: nat, cs: nat)
    requires cs > 0
    ensures TotalChunks(size, cs) >= 1
    ensures ChunkEnd(size, cs, TotalChunks(size, cs) - 1) == size
  {
    TotalChunksSpec(size, cs);
    var last := TotalChunks(size, cs) - 1;
    assert (last + 1) * cs == last * cs + cs;
  }

  function LengthsSum(size: nat, cs: nat, k: nat): nat {
    if k == 0 then 0 else LengthsSum(size, cs, k - 1) + ChunkLength(size, cs, k - 1)
  }

  /** One more chunk extends the covered bytes by its length. */
  lemma CoverGrows(size: nat, cs: nat, k: nat)
    requires cs > 0 && Offset(cs, k) <= size
    ensures Min(Offset(cs, k), size) + ChunkLength(size, cs, k) == Min(Offset(cs, k + 1), size)
  {
    NextOffset(cs, k);
  }

  lemma {:induction false} LengthsCover(size: nat, cs: nat, k: nat)
    requires cs > 0 && forall i: nat :: i < k ==> Offset(cs, i) <= size
    ensures LengthsSum(size, cs, k) == Min(Offset(cs, k), size)
  {
    if k > 0 {
      LengthsCover(size, cs, k - 1);
      CoverGrows(size, cs, k - 1);
    } else {
      assert Offset(cs, 0) == 0;
    }
  }

  /** The chunks before k cover exactly the bytes before chunk k; all of them cover the file. */
  lemma LengthsTile(size: nat, cs: nat, k: nat)
    requires cs > 0 && k <= TotalChunks(size, cs)
    ensures LengthsSum(size, cs, k) == Min(Offset(cs, k), size)
    ensures k == TotalChunks(size, cs) ==> LengthsSum(size, cs, k) == size
  {
    TotalChunksSpec(size, cs);
    forall i: nat | i < k ensures Offset(cs, i) <= size { OffsetInFile(size, cs, i); }
    LengthsCover(size, cs, k);
  }

  /** Byte k belongs to chunk k / cs. */
  lemma ByteInChunk(size: nat, cs: nat, k: nat)
    requires cs > 0 && k < size
    ensures k / cs < TotalChunks(size, cs)
    ensures Offset(cs, k / cs) <= k < ChunkEnd(size, cs, k / cs)
  {
    var i := k / cs;
    assert k == i * cs + k % cs;
    TotalChunksSpec(size, cs);
    if i >= TotalChunks(size, cs) {
      OffsetMono(cs, TotalChunks(size, cs), i);
    }
  }

  // ---- chunks written to a file ----

  /** The file agrees with the source on chunk i. */
  ghost predicate HasTile(file: Bytes, src: Bytes, cs: nat, i: nat) {
    && ChunkEnd(|src|, cs, i) <= |file|
    && forall k :: Offset(cs, i) <= k < ChunkEnd(|src|, cs, i) ==> file[k] == src[k]
  }

  /** Writing a prepared chunk establishes its tile and disturbs no other one. */
  lemma WriteTile(file: Bytes, src: Bytes, cs: nat, i: nat)
    requires cs > 0 && i < TotalChunks(|src|, cs)
    ensures var r := ProcessReceivedChunk(file, i, cs, Chunk(src, cs, i));
            && HasTile(r, src, cs, i)
            && |r| == Max(|file|, ChunkEnd(|src|, cs, i))
            && (forall j: nat :: HasTile(file, src, cs, j) ==> HasTile(r, src, cs, j))
  {
    OffsetInFile(|src|, cs, i);
    var r := ProcessReceivedChunk(file, i, cs, Chunk(src, cs, i));
    forall j: nat | HasTile(file, src, cs, j) ensures HasTile(r, src, cs, j) {
      if j < i { OffsetMono(cs, j, i); }
      if i < j { OffsetMono(cs, i, j); }
    }
  }

  /** Writing part of a chunk disturbs no earlier one. */
  lemma WriteTorn(file: Bytes, src: Bytes, cs: nat, i: nat, n: nat)
    requires cs > 0 && i < TotalChunks(|src|, cs) && n <= |Chunk(src, cs, i)|
    ensures var r := WriteAt(file, Offset(cs, i), Chunk(src, cs, i)[..n]);
            && |file| <= |r| <= Max(|file|, |src|)
            && (forall j: nat :: j < i && HasTile(file, src, cs, j) ==> HasTile(r, src, cs, j))
  {
    OffsetInFile(|src|, cs, i);
    var r := WriteAt(file, Offset(cs, i), Chunk(src, cs, i)[..n]);
    forall j: nat | j < i && HasTile(file, src, cs, j) ensures HasTile(r, src, cs, j) {
      OffsetMono(cs, j, i);
    }
  }

  /** A file of the source's length that agrees on every chunk is the source. */
  lemma AllTiles(file: Bytes, src: Bytes, cs: nat)
    requires cs > 0 && |file| == |src|
    requires forall i: nat :: i < TotalChunks(|src|, cs) ==> HasTile(file, src, cs, i)
    ensures file == src
  {
    forall k | 0 <= k < |src| ensures file[k] == src[k] {
      ByteInChunk(|src|, cs, k);
      assert HasTile(file, src, cs, k / cs);
    }
  }

  /** `process_received_chunk` applied for each index of a list. */
  function WriteChunks(file: Bytes, src: Bytes, cs: nat, order: seq<nat>): Bytes {
    if order == [] then file
    else
      var last := order[|order| - 1];
      ProcessReceivedChunk(WriteChunks(file, src, cs, order[..|order| - 1]), last, cs, Chunk(src, cs, last))
  }

  ghost predicate Below(order: seq<nat>, n: nat) {
    forall k :: 0 <= k < |order| ==> order[k] < n
  }

  lemma {:induction false} WriteChunksTiles(file: Bytes, src: Bytes, cs: nat, order: seq<nat>)
    requires cs > 0 && Below(order, TotalChunks(|src|, cs))
    ensures var r := WriteChunks(file, src, cs, order);
            && (forall k :: 0 <= k < |order| ==> HasTile(r, src, cs, order[k]))
            && |file| <= |r| <= Max(|file|, |src|)
  {
    if order != [] {
      var n := |order| - 1;
      WriteChunksTiles(file, src, cs, order[..n]);
      WriteTile(WriteChunks(file, src, cs, order[..n]), src, cs, order[n]);
      var r := WriteChunks(file, src, cs, order);
      forall k | 0 <= k < |order| ensures HasTile(r, src, cs, order[k]) {
        if k < n { assert order[..n][k] == order[k]; }
      }
    }
  }

  /** Chunks written in any order, with any repeats, so long as each index occurs, reproduce the
      source exactly when the destination was not longer than it to begin with: the engine never
      truncates. */
  lemma AnyOrder(file: Bytes, src: Bytes, cs: nat, order: seq<nat>)
    requires cs > 0 && Below(order, TotalChunks(|src|, cs))
    requires forall i: nat :: i < TotalChunks(|src|, cs) ==> i in order
    ensures WriteChunks(file, src, cs, order) == src <==> |file| <= |src|
  {
    WriteChunksTiles(file, src, cs, order);
    var r := WriteChunks(file, src, cs, order);
    if |file| <= |src| {
      OrderCovers(r, src, cs, order, TotalChunks(|src|, cs));
      CoveredFile(r, src, cs);
    }
  }

  lemma OrderCovers(file: Bytes, src: Bytes, cs: nat, order: seq<nat>, n: nat)
    requires forall k :: 0 <= k < |order| ==> HasTile(file, src, cs, order[k])
    requires forall i: nat :: i < n ==> i in order
    ensures Covered(file, src, cs, n)
  {
    forall i: nat | i < n ensures HasTile(file, src, cs, i) {
      assert i in order;
    }
  }

  /** The chunks below n are the source's. */
  ghost predicate Covered(file: Bytes, src: Bytes, cs: nat, n: nat) {
    forall i: nat :: i < n ==> HasTile(file, src, cs, i)
  }

  /** A file no longer than the source that agrees on every chunk is the source. */
  lemma CoveredFile(file: Bytes, src: Bytes, cs: nat)
    requires cs > 0 && |file| <= |src| && Covered(file, src, cs, TotalChunks(|src|, cs))
    ensures file == src
  {
    LastChunkEnds(|src|, cs);
    assert HasTile(file, src, cs, TotalChunks(|src|, cs) - 1);
    AllTiles(file, src, cs);
  }

  /** Sender and receiver place a chunk at the same offset exactly when the announced size survives
      the chunker's clamp; from chunk 1 on a larger request puts them apart. */
  lemma OffsetsAgree(requested: nat, i: nat)
    ensures Offset(Clamp(Announced(requested)), i) == Offset(Announced(requested), i)
            <==> i == 0 || requested <= MAX_CHUNK_SIZE
  {
    if i > 0 && requested > MAX_CHUNK_SIZE {
      assert i * requested == i * MAX_CHUNK_SIZE + i * (requested - MAX_CHUNK_SIZE);
      assert i * (requested - MAX_CHUNK_SIZE) > 0;
    }
  }

  /** Consecutive chunks extend a prefix of the source. */
  lemma ChunkExtendsPrefix(src: Bytes, cs: nat, i: nat)
    requires cs > 0 && i < TotalChunks(|src|, cs)
    ensures src[..Min(Offset(cs, i), |src|)] + Chunk(src, cs, i) == src[..Min(Offset(cs, i + 1), |src|)]
  {
    OffsetInFile(|src|, cs, i);
    assert (i + 1) * cs == i * cs + cs;
  }
}
