/**
 * The worker's own `applyRules(row, rules)`: it builds a new row with the
 * same keys, trimming every string cell and copying every other cell. The
 * `rules` argument is accepted and ignored. The message handler maps it
 * over a chunk.
 */
module XlsxWorker {
  import opened Rows
  import opened Strings
  import opened Rules

  /** The row the worker produces: same keys and order, string cells trimmed. */
  function WorkerRow(row: Row): (r: Row)
    ensures r.keys == row.keys && r.cells.Keys == row.cells.Keys
    ensures forall k :: Get(r, k) == TrimTransform(Get(row, k))
    ensures Valid(row) ==> Valid(r)
  {
    Row(row.keys, map k | k in row.cells :: TrimTransform(row.cells[k]))
  }

  /**
   * `applyRules` in the worker: a `for…in` loop over the row's keys that
   * writes each (possibly trimmed) value into a fresh row.
   */
  method ApplyRules<R>(row: Row, rules: seq<R>) returns (newRow: Row)
    requires Valid(row)
    ensures newRow == WorkerRow(row)
  {
    newRow := Row([], map[]);
    for i := 0 to |row.keys|
      invariant newRow.keys == row.keys[..i]
      invariant newRow.cells == TrimmedCells(row, row.keys[..i])
    {
      var key := row.keys[i];
      var value := row.cells[key];
      if value.Str? {
        value := Str(Trim(value.s));
      }
      TrimmedCellsStep(row, i);
      newRow := Row(newRow.keys + [key], newRow.cells[key := value]);
    }
    assert row.keys[..|row.keys|] == row.keys;
  }

  /** The cells the loop has written once it has visited `keys`. */
  function TrimmedCells(row: Row, keys: seq<string>): map<string, Value>
  {
    map k | k in keys && k in row.cells :: TrimTransform(row.cells[k])
  }

  lemma {:induction false} TrimmedCellsStep(row: Row, i: nat)
    requires Valid(row) && i < |row.keys|
    ensures row.keys[..i + 1] == row.keys[..i] + [row.keys[i]]
    ensures TrimmedCells(row, row.keys[..i + 1])
      == TrimmedCells(row, row.keys[..i])[row.keys[i] := TrimTransform(row.cells[row.keys[i]])]
  {
    assert row.keys[..i + 1] == row.keys[..i] + [row.keys[i]];
  }

  /** The handler's `chunk.map(row => applyRules(row, rules))`. */
  function ProcessChunk<R>(chunk: seq<Row>, rules: seq<R>): (r: seq<Row>)
    ensures |r| == |chunk|
    ensures forall i :: 0 <= i < |chunk| ==> r[i] == WorkerRow(chunk[i])
  {
    seq(|chunk|, i requires 0 <= i < |chunk| => WorkerRow(chunk[i]))
  }

  /** Cleaning a row twice is cleaning it once. */
  lemma {:induction false} WorkerRowIdempotent(row: Row)
    ensures WorkerRow(WorkerRow(row)) == WorkerRow(row)
  {
    var once := WorkerRow(row);
    forall k | k in row.cells
      ensures TrimTransform(once.cells[k]) == once.cells[k]
    {
      TrimTransformIdempotent(row.cells[k]);
    }
  }

  /** So is processing a chunk twice. */
  lemma {:induction false} ProcessChunkIdempotent<R>(chunk: seq<Row>, rules: seq<R>)
    ensures ProcessChunk(ProcessChunk(chunk, rules), rules) == ProcessChunk(chunk, rules)
  {
    forall i | 0 <= i < |chunk| {
      WorkerRowIdempotent(chunk[i]);
    }
  }

  /** Processing a chunk commutes with concatenating chunks, so chunking does not matter. */
  lemma {:induction false} ProcessChunkAppend<R>(a: seq<Row>, b: seq<Row>, rules: seq<R>)
    ensures ProcessChunk(a + b, rules) == ProcessChunk(a, rules) + ProcessChunk(b, rules)
  {
  }
}
