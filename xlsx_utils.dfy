/**
 * `splitIntoChunks`: cut a list into consecutive slices of `chunkSize`
 * elements, the last one possibly shorter. The loop only ends when the
 * size is positive, so that is its precondition.
 */
module XlsxUtils {

  /** The concatenation of the chunks, in order. */
  function Flatten<T>(chunks: seq<seq<T>>): seq<T>
  {
    if chunks == [] then [] else chunks[0] + Flatten(chunks[1..])
  }

  /**
   * The chunks of `items`: a first slice of `size` elements, then the
   * chunks of the rest. There are none exactly when there are no items, and
   * each chunk has 1 to `size` elements.
   */
  function Chunks<T>(items: seq<T>, size: int): (c: seq<seq<T>>)
    requires size > 0
    ensures items == [] <==> c == []
    ensures forall j :: 0 <= j < |c| ==> 0 < |c[j]| <= size
    decreases |items|
  {
    if items == [] then []
    else if |items| <= size then [items]
    else
      var rest := Chunks(items[size..], size);
      assert forall j :: 1 <= j < |rest| + 1 ==> ([items[..size]] + rest)[j] == rest[j - 1];
      [items[..size]] + rest
  }

  /** Concatenating the chunks gives back the input exactly. */
  lemma {:induction false} FlattenChunks<T>(items: seq<T>, size: int)
    requires size > 0
    ensures Flatten(Chunks(items, size)) == items
    decreases |items|
  {
    if |items| > size {
      var c := Chunks(items, size);
      assert c[1..] == Chunks(items[size..], size);
      FlattenChunks(items[size..], size);
      assert items == items[..size] + items[size..];
    }
  }

  /** Every chunk but the last has exactly `size` elements. */
  lemma {:induction false} ChunkLengths<T>(items: seq<T>, size: int)
    requires size > 0
    ensures forall j :: 0 <= j < |Chunks(items, size)| - 1 ==> |Chunks(items, size)[j]| == size
    decreases |items|
  {
    if |items| > size {
      var c := Chunks(items, size);
      var rest := Chunks(items[size..], size);
      ChunkLengths(items[size..], size);
      assert c == [items[..size]] + rest && rest != [];
      forall j | 0 <= j < |c| - 1 ensures |c[j]| == size {
        if j > 0 {
          assert c[j] == rest[j - 1];
        }
      }
    } else if items != [] {
      assert Chunks(items, size) == [items];
    }
  }

  /** There are `ceil(n / size)` chunks. */
  lemma {:induction false} ChunkCount<T>(items: seq<T>, size: int)
    requires size > 0
    ensures |Chunks(items, size)| == (|items| + size - 1) / size
    decreases |items|
  {
    var n := |items|;
    if items == [] {
      SmallQuotient(size - 1, size);
    } else if n <= size {
      SmallQuotient(n - 1, size);
      DivShift(n - 1, size);
    } else {
      ChunkCount(items[size..], size);
      DivShift(n - 1, size);
    }
  }

  lemma {:induction false} SmallQuotient(x: int, size: int)
    requires 0 <= x < size
    ensures x / size == 0
  {
  }

  /** Adding the divisor to the dividend adds one to the quotient. */
  lemma {:induction false} DivShift(x: int, size: int)
    requires size > 0 && x >= 0
    ensures (x + size) / size == x / size + 1
  {
    var q, r := x / size, x % size;
    var q', r' := (x + size) / size, (x + size) % size;
    var d := q' - q - 1;
    assert d * size == r - r' by {
      assert x == q * size + r && x + size == q' * size + r';
      assert d * size == q' * size - q * size - size;
    }
  }

  /** `array.slice(i)`: empty once `i` is past the end. */
  function SliceFrom<T>(items: seq<T>, i: nat): (r: seq<T>)
    ensures |r| == if i <= |items| then |items| - i else 0
  {
    if i <= |items| then items[i..] else []
  }

  /** The chunks from position `i` on: one slice of `size`, then the chunks after it. */
  lemma {:induction false} ChunksFrom<T>(items: seq<T>, i: nat, size: int)
    requires size > 0 && i < |items|
    ensures Chunks(SliceFrom(items, i), size)
      == [items[i..if i + size <= |items| then i + size else |items|]] + Chunks(SliceFrom(items, i + size), size)
  {
    if i + size < |items| {
      assert items[i..][..size] == items[i..i + size] && items[i..][size..] == items[i + size..];
    } else {
      assert SliceFrom(items, i + size) == [] && Chunks<T>([], size) == [];
      assert SliceFrom(items, i) == items[i..] == items[i..|items|];
    }
  }

  /** `splitIntoChunks(array, chunkSize)` with its `for` loop over `i`. */
  method SplitIntoChunks<T>(items: seq<T>, chunkSize: int) returns (chunks: seq<seq<T>>)
    requires chunkSize > 0
    ensures chunks == Chunks(items, chunkSize)
    ensures Flatten(chunks) == items
    ensures |chunks| == (|items| + chunkSize - 1) / chunkSize
  {
    chunks := [];
    var i := 0;
    assert SliceFrom(items, 0) == items;
    while i < |items|
      invariant chunks + Chunks(SliceFrom(items, i), chunkSize) == Chunks(items, chunkSize)
      decreases |items| - i
    {
      var end := if i + chunkSize <= |items| then i + chunkSize else |items|;
      var chunk := items[i..end];
      ChunksFrom(items, i, chunkSize);
      chunks := chunks + [chunk];
      i := i + chunkSize;
    }
    assert SliceFrom(items, i) == [];
    FlattenChunks(items, chunkSize);
    ChunkCount(items, chunkSize);
  }
}
