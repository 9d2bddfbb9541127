/** The read loop `while chunk := f.read(size): yield chunk` over a byte buffer
    (an `io.BytesIO` or an open file), stated as functions on the buffer and
    the read cursor, with the properties the streams rely on. */
module Chunking {
  import opened Types

  /** The bytes at and after the cursor; a cursor past the end (a `seek`
      beyond the end of a file) leaves nothing to read. */
  function Tail(data: seq<byte>, cursor: nat): seq<byte>
  {
    if cursor <= |data| then data[cursor..] else []
  }

  /** How many bytes `read(size)` returns when `available` bytes remain: a
      negative size reads to the end, `read(0)` returns nothing, otherwise at
      most `size` bytes. */
  function ReadLength(available: nat, size: int): (n: nat)
    ensures n <= available
    ensures available > 0 && size != 0 ==> n > 0
    ensures size > 0 ==> n <= size && (n < size ==> n == available)
    ensures size < 0 ==> n == available
    ensures size == 0 ==> n == 0
  {
    if size < 0 || size > available then available else size
  }

  /** What one `read(size)` returns at the cursor. */
  function Read(data: seq<byte>, cursor: nat, size: int): (chunk: seq<byte>)
  {
    var rest := Tail(data, cursor);
    rest[..ReadLength(|rest|, size)]
  }

  /** The chunks the read loop yields from `data`, in order. */
  function Chunks(data: seq<byte>, size: int): seq<seq<byte>>
    decreases |data|
  {
    if |data| == 0 || size == 0 then []
    else
      var n := ReadLength(|data|, size);
      [data[..n]] + Chunks(data[n..], size)
  }

  /** The bytes of the chunks joined in order (what the consumer receives). */
  function Concat(chunks: seq<seq<byte>>): seq<byte>
  {
    if chunks == [] then [] else chunks[0] + Concat(chunks[1..])
  }

  /** One loop step: reading at the cursor peels the first chunk off the rest. */
  lemma ReadStep(data: seq<byte>, cursor: nat, size: int)
    requires Read(data, cursor, size) != []
    ensures var n := |Read(data, cursor, size)|;
      Chunks(Tail(data, cursor), size) == [Read(data, cursor, size)] + Chunks(Tail(data, cursor + n), size)
  {
    var rest := Tail(data, cursor);
    var n := |Read(data, cursor, size)|;
    assert rest[n..] == Tail(data, cursor + n);
  }

  /** An empty read means the loop has nothing left to yield. */
  lemma ReadEnd(data: seq<byte>, cursor: nat, size: int)
    requires Read(data, cursor, size) == []
    ensures Chunks(Tail(data, cursor), size) == []
  {
  }

  /** Joining the chunks gives back the buffer exactly, in order, for every
      size except 0 (for which the loop stops at once). */
  lemma {:induction false} ChunksReconstruct(data: seq<byte>, size: int)
    requires size != 0
    ensures Concat(Chunks(data, size)) == data
  {
    if |data| > 0 {
      var n := ReadLength(|data|, size);
      ChunksReconstruct(data[n..], size);
      assert data == data[..n] + data[n..];
    }
  }

  /** `read(0)` ends the loop before the first chunk. */
  lemma ZeroSizeYieldsNothing(data: seq<byte>)
    ensures Chunks(data, 0) == []
  {
  }

  /** A negative size reads the whole buffer as one chunk. */
  lemma NegativeSizeYieldsWhole(data: seq<byte>, size: int)
    requires size < 0
    ensures Chunks(data, size) == if data == [] then [] else [data]
  {
    if data != [] {
      assert data[..|data|] == data;
      assert Chunks(data[|data|..], size) == [];
    }
  }

  /** Every chunk is non-empty and at most `size` long. */
  lemma {:induction false} ChunksBounded(data: seq<byte>, size: int)
    requires size > 0
    ensures forall i :: 0 <= i < |Chunks(data, size)| ==> 0 < |Chunks(data, size)[i]| <= size
  {
    if |data| > 0 {
      var n := ReadLength(|data|, size);
      ChunksBounded(data[n..], size);
    }
  }

  /** Every chunk but the last is exactly `size` long. */
  lemma {:induction false} ChunksFull(data: seq<byte>, size: int)
    requires size > 0
    ensures forall i :: 0 <= i < |Chunks(data, size)| - 1 ==> |Chunks(data, size)[i]| == size
  {
    if |data| > 0 {
      var n := ReadLength(|data|, size);
      ChunksFull(data[n..], size);
      if n < size {
        assert data[n..] == [];
      }
    }
  }

  /** There are `ceil(|data| / size)` chunks: none for an empty buffer. */
  lemma {:induction false} ChunksCount(data: seq<byte>, size: int)
    requires size > 0
    ensures |Chunks(data, size)| == (|data| + size - 1) / size
  {
    if |data| > 0 {
      var n := ReadLength(|data|, size);
      ChunksCount(data[n..], size);
      if n == size {
        DivStep(|data| - 1, size);
      } else {
        DivOne(|data| + size - 1, size);
      }
    }
  }

  /** The last chunk holds `|data| mod size` bytes, or `size` when the size
      divides the length. */
  lemma {:induction false} LastChunk(data: seq<byte>, size: int)
    requires size > 0 && |data| > 0
    ensures var c := Chunks(data, size);
      |c| > 0 && |c[|c| - 1]| == if |data| % size == 0 then size else |data| % size
  {
    var n := ReadLength(|data|, size);
    if n == size && |data| > size {
      LastChunk(data[n..], size);
      DivStep(|data| - size, size);
    } else {
      assert data[n..] == [];
      if n < size {
        DivUnique(|data|, size, 0, |data|);
      } else {
        DivUnique(|data|, size, 1, 0);
      }
    }
  }

  /** Euclidean division is determined by its quotient-remainder decomposition. */
  lemma DivUnique(x: int, k: int, q: int, r: int)
    requires k > 0 && 0 <= r < k && x == q * k + r
    ensures x / k == q && x % k == r
  {
    var d := q - x / k;
    assert d * k == x % k - r;
  }

  lemma DivStep(x: int, k: int)
    requires k > 0 && x >= 0
    ensures (x + k) / k == x / k + 1 && (x + k) % k == x % k
  {
    DivUnique(x + k, k, x / k + 1, x % k);
  }

  lemma DivOne(x: int, k: int)
    requires k > 0 && k <= x < 2 * k
    ensures x / k == 1 && x % k == x - k
  {
    DivUnique(x, k, 1, x - k);
  }
}
