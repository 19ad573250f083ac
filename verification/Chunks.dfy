/** Cutting a stored package into chunks: the slices that `APKStorageDatabase.save_file` inserts row
    by row, and the reads by which `APKStorageFilesystem` serves a file. */
module Chunks {

  const CHUNK_MAX_SIZE: nat := 1024 * 1024 * 8

  /** The chunks of some data: as many as possible full, then what is left. */
  function ChunksOf<T>(data: seq<T>, size: nat): (chunks: seq<seq<T>>)
    requires size > 0
  {
    if |data| <= size then (if data == [] then [] else [data])
    else [data[..size]] + ChunksOf(data[size..], size)
  }

  function Joined<T>(chunks: seq<seq<T>>): seq<T> {
    if chunks == [] then [] else chunks[0] + Joined(chunks[1..])
  }

  /** The chunks give the data back. */
  lemma {:induction false} ChunksJoin<T>(data: seq<T>, size: nat)
    requires size > 0
    ensures Joined(ChunksOf(data, size)) == data
  {
    var chunks := ChunksOf(data, size);
    if |data| > size {
      ChunksJoin(data[size..], size);
      assert chunks[1..] == ChunksOf(data[size..], size);
      assert data == data[..size] + data[size..];
    } else if data != [] {
      assert chunks[1..] == [];
    }
  }

  /** No chunk is empty, and every chunk but the last is full. */
  predicate WellCut<T>(chunks: seq<seq<T>>, size: nat) {
    && (forall i :: 0 <= i < |chunks| ==> 0 < |chunks[i]| <= size)
    && (forall i :: 0 <= i < |chunks| - 1 ==> |chunks[i]| == size)
  }

  lemma {:induction false} ChunksFull<T>(data: seq<T>, size: nat)
    requires size > 0
    ensures WellCut(ChunksOf(data, size), size)
  {
    if |data| > size {
      ChunksFull(data[size..], size);
      var chunks, rest := ChunksOf(data, size), ChunksOf(data[size..], size);
      assert chunks == [data[..size]] + rest;
      assert forall i :: 0 < i < |chunks| ==> chunks[i] == rest[i - 1];
    }
  }

  /** Data that follows full chunks is cut where they end. */
  lemma {:induction false} ChunksAfterFull<T>(data: seq<T>, size: nat, n: nat)
    requires size > 0 && n * size < |data|
    ensures |ChunksOf(data, size)| > n
    ensures ChunksOf(data, size)[n] == data[n * size..][..Min(size, |data| - n * size)]
    ensures |ChunksOf(data, size)| == n + 1 <==> |data| <= n * size + size
    decreases n
  {
    var chunks := ChunksOf(data, size);
    if n > 0 {
      var rest := data[size..];
      assert n * size == (n - 1) * size + size && (n - 1) * size >= 0;
      ChunksAfterFull(rest, size, n - 1);
      assert chunks == [data[..size]] + ChunksOf(rest, size);
      assert rest[(n - 1) * size..] == data[n * size..];
    } else if |data| > size {
      assert |ChunksOf(data[size..], size)| > 0;
    }
  }

  function Min(a: int, b: int): int { if a < b then a else b }

  /** A slice `data[lo:hi]` of Python, which stops at the end of the data. */
  function Slice<T>(data: seq<T>, lo: nat, hi: nat): seq<T>
    requires lo <= hi
  {
    data[Min(lo, |data|)..Min(hi, |data|)]
  }

  /** The number of slices: `(len(data) + chunk_size - 1) // chunk_size`. */
  function ChunkCount(length: nat, size: nat): nat
    requires size > 0
  {
    (length + size - 1) / size
  }

  lemma ChunkCountBounds(length: nat, size: nat)
    requires size > 0
    ensures var n := ChunkCount(length, size);
            length <= n * size < length + size && (n == 0 <==> length == 0)
  {
    var total := length + size - 1;
    assert total == total / size * size + total % size;
  }

  /** The number of chunks is the number of slices the database cuts. */
  lemma ChunksCounted<T>(data: seq<T>, size: nat)
    requires size > 0
    ensures |ChunksOf(data, size)| == ChunkCount(|data|, size)
  {
    var n := ChunkCount(|data|, size);
    ChunkCountBounds(|data|, size);
    if data != [] {
      assert (n - 1) * size == n * size - size;
      ChunksAfterFull(data, size, n - 1);
    }
  }

  /** The rows the chunk loop of the database storage inserts. */
  method InsertChunks<T>(data: seq<T>, size: nat) returns (rows: seq<seq<T>>)
    requires size > 0
    ensures rows == ChunksOf(data, size)
  {
    rows := [];
    var n := ChunkCount(|data|, size);
    ChunkCountBounds(|data|, size);
    ChunksCounted(data, size);
    for i := 0 to n
      invariant rows == ChunksOf(data, size)[..i]
    {
      assert i * size < |data| by {
        assert (n - 1) * size == n * size - size;
        MulMonotone(i, n - 1, size);
      }
      assert (i + 1) * size == i * size + size;
      ChunksAfterFull(data, size, i);
      var row := Slice(data, i * size, (i + 1) * size);
      assert row == data[i * size..][..Min(size, |data| - i * size)];
      rows := rows + [row];
    }
  }

  lemma MulMonotone(a: int, b: int, c: nat)
    requires a <= b
    ensures a * c <= b * c
  {}

  /** `__read_file_gen`: read up to `size` bytes until there are none left. */
  method ReadChunks<T>(file: seq<T>, size: nat) returns (chunks: seq<seq<T>>)
    requires size > 0
    ensures chunks == ChunksOf(file, size)
  {
    chunks := [];
    var rest := file;
    while true
      invariant chunks + ChunksOf(rest, size) == ChunksOf(file, size)
      decreases |rest|
    {
      var data := rest[..Min(size, |rest|)];
      if data == [] { break; }
      if |rest| <= size {
        assert data == rest && rest[|data|..] == [];
      }
      assert ChunksOf(rest, size) == [data] + ChunksOf(rest[|data|..], size);
      rest := rest[|data|..];
      chunks := chunks + [data];
    }
  }
}
