/** How the upload loop cuts a file into parts: repeated `file.read(CHUNKSIZE)`
    from a cursor until a read comes back empty. */
module Chunking {

  type Byte = bv8

  /** 10 MiB, the size of every video part but the last. */
  const CHUNKSIZE: nat := 10 * 1024 * 1024

  function Min(a: nat, b: nat): nat {
    if a <= b then a else b
  }

  /** Number of parts of `size` bytes needed for `total` bytes: ceil(total / size). */
  function CeilDiv(total: nat, size: nat): nat
    requires size > 0
  {
    (total + size - 1) / size
  }

  /** `file.read(size)` on a binary file whose cursor is at `pos`: the next
      `size` bytes, or all that remain when fewer are left. */
  function Read(data: seq<Byte>, pos: nat, size: nat): (chunk: seq<Byte>)
    requires pos <= |data|
    ensures chunk <= data[pos..]
    ensures |chunk| == Min(size, |data| - pos)
    ensures chunk == [] <==> size == 0 || pos == |data|
  {
    data[pos..pos + Min(size, |data| - pos)]
  }

  /** The pieces that successive reads of `size` bytes return, up to the first empty read. */
  function Chunks(data: seq<Byte>, size: nat): (pieces: seq<seq<Byte>>)
    requires size > 0
    ensures pieces == [] <==> data == []
    ensures forall i :: 0 <= i < |pieces| ==> 0 < |pieces[i]| <= size
    decreases |data|
  {
    var chunk := Read(data, 0, size);
    if chunk == [] then [] else [chunk] + Chunks(data[|chunk|..], size)
  }

  /** The pieces put back together, in order. */
  function Flatten(pieces: seq<seq<Byte>>): seq<Byte> {
    if pieces == [] then [] else pieces[0] + Flatten(pieces[1..])
  }

  /** Every piece is non-empty and at most `size` long, and every piece but the last is exactly `size` long. */
  predicate WellSized(pieces: seq<seq<Byte>>, size: nat) {
    && (forall i :: 0 <= i < |pieces| ==> 0 < |pieces[i]| <= size)
    && (forall i :: 0 <= i < |pieces| - 1 ==> |pieces[i]| == size)
  }

  /** Putting the pieces back together gives the file. */
  lemma {:induction false} FlattenChunks(data: seq<Byte>, size: nat)
    requires size > 0
    ensures Flatten(Chunks(data, size)) == data
    decreases |data|
  {
    var chunk := Read(data, 0, size);
    if chunk != [] {
      FlattenChunks(data[|chunk|..], size);
      assert [chunk] + Chunks(data[|chunk|..], size) == Chunks(data, size);
      assert data == chunk + data[|chunk|..];
    }
  }

  /** The pieces have the sizes successive reads produce. */
  lemma {:induction false} ChunksWellSized(data: seq<Byte>, size: nat)
    requires size > 0
    ensures WellSized(Chunks(data, size), size)
    decreases |data|
  {
    var chunk := Read(data, 0, size);
    if chunk != [] {
      var rest := data[|chunk|..];
      ChunksWellSized(rest, size);
      var pieces := Chunks(data, size);
      assert pieces == [chunk] + Chunks(rest, size);
      if |chunk| < size {
        assert rest == [];
      }
    }
  }

  lemma CeilDivOne(total: nat, size: nat)
    requires 0 < total <= size
    ensures CeilDiv(total, size) == 1
  {
    var x := total + size - 1;
    assert size <= x < 2 * size;
  }

  /** Integer division is determined by quotient and remainder. */
  lemma DivUnique(x: int, size: int, q: int, r: int)
    requires size > 0 && 0 <= r < size && x == q * size + r
    ensures x / size == q
  {
    var q', r' := x / size, x % size;
    assert x == q' * size + r';
    assert (q - q') * size == r' - r;
    if q > q' {
      MulAtLeast(q - q', size);
    } else if q < q' {
      MulAtLeast(q' - q, size);
    }
  }

  lemma {:induction false} MulAtLeast(k: nat, size: nat)
    requires k >= 1
    ensures k * size >= size
  {
    if k > 1 {
      MulAtLeast(k - 1, size);
      assert k * size == (k - 1) * size + size;
    }
  }

  lemma CeilDivStep(total: nat, size: nat)
    requires 0 < size < total
    ensures CeilDiv(total, size) == 1 + CeilDiv(total - size, size)
  {
    var y := total - 1;
    var q, r := y / size, y % size;
    assert y == q * size + r;
    assert y + size == (q + 1) * size + r;
    DivUnique(y + size, size, q + 1, r);
  }

  /** A file of S bytes is read in ceil(S / size) non-empty pieces; none when S = 0. */
  lemma {:induction false} ChunksCount(data: seq<Byte>, size: nat)
    requires size > 0
    ensures |Chunks(data, size)| == CeilDiv(|data|, size)
    decreases |data|
  {
    var chunk := Read(data, 0, size);
    if chunk == [] {
      assert |data| == 0;
    } else {
      ChunksCount(data[|chunk|..], size);
      if |data| <= size {
        CeilDivOne(|data|, size);
      } else {
        CeilDivStep(|data|, size);
      }
    }
  }

  /** Chunks is the only well-sized way of cutting `data` into pieces. */
  lemma {:induction false} ChunksUnique(data: seq<Byte>, size: nat, pieces: seq<seq<Byte>>)
    requires size > 0
    requires WellSized(pieces, size) && Flatten(pieces) == data
    ensures pieces == Chunks(data, size)
    decreases |pieces|
  {
    if pieces != [] {
      var rest := pieces[1..];
      assert data == pieces[0] + Flatten(rest);
      assert WellSized(rest, size);
      if rest == [] {
        assert data == pieces[0];
        assert Read(data, 0, size) == data;
      } else {
        assert |pieces[0]| == size;
        assert Read(data, 0, size) == pieces[0];
        assert data[size..] == Flatten(rest);
        ChunksUnique(data[size..], size, rest);
      }
    } else {
      assert data == [];
    }
  }
}
