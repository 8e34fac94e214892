/**
 * The rule application engine: `applyRulesToRows` (final mode) and
 * `applyRulesPreview` (preview mode with a per-column record of changes).
 *
 * Each mode is specified by a fold over the profile's columns and, inside
 * a column, over its resolved pipeline; both folds take the last element
 * off the end so that their prefixes are what the loops have done so far.
 * The two modes are not the same traversal:
 *   - final mode computes a column's value in a local and writes it back
 *     once the pipeline ends, so every rule of a column sees the row as it
 *     was before that column started (`RunFinal` passes one fixed row);
 *   - preview mode writes every change into the row at once, so later rules
 *     of the same column see it (`PreviewStep` reads the current row).
 * Values are compared with `!==`, which on this closed value type is `!=`.
 */
module ApplyRules {
  import opened Rows
  import opened Types
  import opened Resolution

  /** One `_changes` entry, `{old, new}` in the source. */
  datatype Change = Change(before: Value, after: Value)

  /** A preview row: the row's cells and its `_changes` map. */
  datatype PreviewRow = PreviewRow(cells: Row, changes: map<string, Change>)

  // ---------------------------------------------------------------------
  // Final mode
  // ---------------------------------------------------------------------

  /** No rule of the pipeline applies to the row. */
  ghost predicate NoneApplies(rules: seq<ResolvedRule>, row: Row)
  {
    forall i :: 0 <= i < |rules| ==> !Applies(rules[i].rule, row)
  }

  /**
   * The value a column pipeline computes when every rule sees `row`; a
   * pipeline none of whose rules applies leaves the value as it is.
   */
  function RunFinal(rules: seq<ResolvedRule>, value: Value, row: Row): (r: Value)
    ensures NoneApplies(rules, row) ==> r == value
    decreases |rules|
  {
    if rules == [] then value
    else
      var v := RunFinal(rules[..|rules| - 1], value, row);
      var rule := rules[|rules| - 1].rule;
      if Applies(rule, row) then rule.transform(v, row) else v
  }

  /** The keys the profile's columns name. */
  function ColumnKeys(columns: seq<Column>): (ks: set<string>)
    ensures forall i :: 0 <= i < |columns| ==> columns[i].key in ks
    ensures forall k :: k in ks ==> exists i :: 0 <= i < |columns| && columns[i].key == k
    decreases |columns|
  {
    if columns == [] then {} else ColumnKeys(columns[..|columns| - 1]) + {columns[|columns| - 1].key}
  }

  /** One column of final mode: run the pipeline, then write the cell once. */
  function FinalColumn(row: Row, column: Column, catalog: seq<Rule>): (r: Row)
    ensures Get(r, column.key) == RunFinal(Resolve(column.rules, catalog), Get(row, column.key), row)
    ensures forall k :: k != column.key ==> Get(r, k) == Get(row, k)
    ensures row.keys <= r.keys
    ensures r.cells.Keys == row.cells.Keys + {column.key}
  {
    Set(row, column.key, RunFinal(Resolve(column.rules, catalog), Get(row, column.key), row))
  }

  /**
   * Final mode on one row: the columns in profile order, each seeing the
   * cells earlier columns wrote. Only column cells change, every column key
   * ends up in the row, and the row's keys keep their order in front.
   */
  function FinalRow(row: Row, columns: seq<Column>, catalog: seq<Rule>): (r: Row)
    ensures forall k :: k !in ColumnKeys(columns) ==> Get(r, k) == Get(row, k)
    ensures r.cells.Keys == row.cells.Keys + ColumnKeys(columns)
    ensures row.keys <= r.keys
    decreases |columns|
  {
    if columns == [] then row
    else
      var prev := FinalRow(row, columns[..|columns| - 1], catalog);
      FinalColumn(prev, columns[|columns| - 1], catalog)
  }

  /** The fold over a column pipeline, one rule further. */
  lemma {:induction false} RunFinalStep(rules: seq<ResolvedRule>, k: nat, value: Value, row: Row)
    requires k < |rules|
    ensures RunFinal(rules[..k + 1], value, row)
      == var v := RunFinal(rules[..k], value, row);
         if Applies(rules[k].rule, row) then rules[k].rule.transform(v, row) else v
  {
    assert rules[..k + 1][..k] == rules[..k];
  }

  /** The fold over the columns, one column further. */
  lemma {:induction false} FinalRowStep(row: Row, columns: seq<Column>, c: nat, catalog: seq<Rule>)
    requires c < |columns|
    ensures FinalRow(row, columns[..c + 1], catalog) == FinalColumn(FinalRow(row, columns[..c], catalog), columns[c], catalog)
  {
    assert columns[..c + 1][..c] == columns[..c];
  }

  /** Final mode over `a + b` is final mode over `a`, then over `b`. */
  lemma {:induction false} FinalRowAppend(row: Row, a: seq<Column>, b: seq<Column>, catalog: seq<Rule>)
    ensures FinalRow(row, a + b, catalog) == FinalRow(FinalRow(row, a, catalog), b, catalog)
    decreases |b|
  {
    if b == [] {
      assert a + b == a;
    } else {
      assert (a + b)[..|a + b| - 1] == a + b[..|b| - 1];
      FinalRowAppend(row, a, b[..|b| - 1], catalog);
    }
  }

  /** `applyRulesToRows`: one corrected copy per row, in row order. */
  method ApplyRulesToRows(rows: seq<Row>, profile: Profile, allRules: seq<Rule>)
    returns (result: seq<Row>)
    ensures |result| == |rows|
    ensures forall i :: 0 <= i < |rows| ==> result[i] == FinalRow(rows[i], profile.columns, allRules)
  {
    result := [];
    for i := 0 to |rows|
      invariant |result| == i
      invariant forall j :: 0 <= j < i ==> result[j] == FinalRow(rows[j], profile.columns, allRules)
    {
      var newRow := CorrectRow(rows[i], profile, allRules);
      result := result + [newRow];
    }
  }

  /** The body of the `rows.map` callback of `applyRulesToRows`. */
  method CorrectRow(row: Row, profile: Profile, allRules: seq<Rule>) returns (newRow: Row)
    ensures newRow == FinalRow(row, profile.columns, allRules)
  {
    newRow := row;
    for c := 0 to |profile.columns|
      invariant newRow == FinalRow(row, profile.columns[..c], allRules)
    {
      var column := profile.columns[c];
      var columnRules := Resolve(column.rules, allRules);
      var value := Get(newRow, column.key);
      for k := 0 to |columnRules|
        invariant value == RunFinal(columnRules[..k], Get(newRow, column.key), newRow)
      {
        var rule := columnRules[k].rule;
        var shouldApply := match rule.condition case None => true case Some(cond) => cond(newRow);
        RunFinalStep(columnRules, k, Get(newRow, column.key), newRow);
        if !shouldApply { continue; }
        value := rule.transform(value, newRow);
      }
      assert columnRules[..|columnRules|] == columnRules;
      FinalRowStep(row, profile.columns, c, allRules);
      newRow := Set(newRow, column.key, value);
    }
    assert profile.columns[..|profile.columns|] == profile.columns;
  }

  // ---------------------------------------------------------------------
  // Preview mode
  // ---------------------------------------------------------------------

  /**
   * One rule of a preview pipeline on the column `key`. When it applies and
   * returns a value `!==` the cell, the cell is written at once and the
   * entry for `key` gets the new value as `after`; `before` stays what it was
   * unless it was null or undefined (`_changes[key]?.old ?? oldValue`).
   */
  function PreviewStep(p: PreviewRow, key: string, rule: Rule): (r: PreviewRow)
    ensures r != p <==> Applies(rule, p.cells) && rule.transform(Get(p.cells, key), p.cells) != Get(p.cells, key)
    ensures r != p ==> Get(r.cells, key) == rule.transform(Get(p.cells, key), p.cells)
    ensures r != p ==> key in r.changes && r.changes[key].after == Get(r.cells, key)
    ensures r != p ==>
      r.changes[key].before == Coalesce(if key in p.changes then p.changes[key].before else Undefined, Get(p.cells, key))
    ensures key in p.changes && !IsNullish(p.changes[key].before) ==> key in r.changes && r.changes[key].before == p.changes[key].before
    ensures forall k :: k != key ==> Get(r.cells, k) == Get(p.cells, k)
    ensures forall k :: k != key ==> (k in r.changes <==> k in p.changes)
    ensures forall k :: k != key && k in p.changes ==> r.changes[k] == p.changes[k]
  {
    if !Applies(rule, p.cells) then p
    else
      var oldValue := Get(p.cells, key);
      var newValue := rule.transform(oldValue, p.cells);
      if newValue == oldValue then p
      else
        var before := if key in p.changes then Coalesce(p.changes[key].before, oldValue) else oldValue;
        PreviewRow(Set(p.cells, key, newValue), p.changes[key := Change(before, newValue)])
  }

  /**
   * A preview pipeline on the column `key`. It touches only that column's
   * cell and that column's entry, and an entry once made stays.
   */
  function RunPreview(rules: seq<ResolvedRule>, p: PreviewRow, key: string): (r: PreviewRow)
    ensures forall k :: k != key ==> Get(r.cells, k) == Get(p.cells, k)
    ensures forall k :: k != key ==> (k in r.changes <==> k in p.changes)
    ensures forall k :: k != key && k in p.changes ==> r.changes[k] == p.changes[k]
    ensures key in p.changes ==> key in r.changes
    ensures p.cells.cells.Keys <= r.cells.cells.Keys
    ensures p.cells.keys <= r.cells.keys
    decreases |rules|
  {
    if rules == [] then p
    else
      var q := RunPreview(rules[..|rules| - 1], p, key);
      var r := PreviewStep(q, key, rules[|rules| - 1].rule);
      r
  }

  /**
   * One column of preview mode: its resolved pipeline on its own key. Other
   * keys keep their cells and their entries.
   */
  function PreviewColumn(p: PreviewRow, column: Column, catalog: seq<Rule>): (r: PreviewRow)
    ensures forall k :: k != column.key ==> Get(r.cells, k) == Get(p.cells, k)
    ensures forall k :: k != column.key ==> (k in r.changes <==> k in p.changes)
    ensures forall k :: k != column.key && k in p.changes ==> r.changes[k] == p.changes[k]
    ensures column.key in p.changes ==> column.key in r.changes
  {
    RunPreview(Resolve(column.rules, catalog), p, column.key)
  }

  /**
   * The preview columns in profile order, from the preview row `p`. Only
   * the cells and entries of column keys change, and an entry is made only
   * for a column key.
   */
  function PreviewColumns(p: PreviewRow, columns: seq<Column>, catalog: seq<Rule>): (r: PreviewRow)
    ensures forall k :: k !in ColumnKeys(columns) ==> Get(r.cells, k) == Get(p.cells, k)
    ensures forall k :: k !in ColumnKeys(columns) ==> (k in r.changes <==> k in p.changes)
    ensures forall k :: k !in ColumnKeys(columns) && k in p.changes ==> r.changes[k] == p.changes[k]
    ensures r.changes.Keys <= p.changes.Keys + ColumnKeys(columns)
    ensures p.cells.keys <= r.cells.keys
    decreases |columns|
  {
    if columns == [] then p
    else
      var prev := PreviewColumns(p, columns[..|columns| - 1], catalog);
      PreviewColumn(prev, columns[|columns| - 1], catalog)
  }

  /**
   * Preview mode on one row: a copy with an empty `_changes`, then the
   * columns in profile order. Entries exist only for column keys, and cells
   * of other keys keep their values.
   */
  function PreviewRowOf(row: Row, columns: seq<Column>, catalog: seq<Rule>): (r: PreviewRow)
    ensures r.changes.Keys <= ColumnKeys(columns)
    ensures forall k :: k !in ColumnKeys(columns) ==> Get(r.cells, k) == Get(row, k)
    ensures row.keys <= r.cells.keys
  {
    PreviewColumns(PreviewRow(row, map[]), columns, catalog)
  }

  /** Preview mode over `a + b` is preview mode over `a`, then over `b`. */
  lemma {:induction false} PreviewColumnsAppend(p: PreviewRow, a: seq<Column>, b: seq<Column>, catalog: seq<Rule>)
    ensures PreviewColumns(p, a + b, catalog) == PreviewColumns(PreviewColumns(p, a, catalog), b, catalog)
    decreases |b|
  {
    if b == [] {
      assert a + b == a;
    } else {
      assert (a + b)[..|a + b| - 1] == a + b[..|b| - 1];
      PreviewColumnsAppend(p, a, b[..|b| - 1], catalog);
    }
  }

  lemma {:induction false} RunPreviewStep(rules: seq<ResolvedRule>, k: nat, p: PreviewRow, key: string)
    requires k < |rules|
    ensures RunPreview(rules[..k + 1], p, key) == PreviewStep(RunPreview(rules[..k], p, key), key, rules[k].rule)
  {
    assert rules[..k + 1][..k] == rules[..k];
  }

  lemma {:induction false} PreviewRowStep(row: Row, columns: seq<Column>, c: nat, catalog: seq<Rule>)
    requires c < |columns|
    ensures PreviewRowOf(row, columns[..c + 1], catalog) == PreviewColumn(PreviewRowOf(row, columns[..c], catalog), columns[c], catalog)
  {
    assert columns[..c + 1][..c] == columns[..c];
  }

  /** `applyRulesPreview`: one annotated copy per row, in row order. */
  method ApplyRulesPreview(rows: seq<Row>, profile: Profile, allRules: seq<Rule>)
    returns (result: seq<PreviewRow>)
    ensures |result| == |rows|
    ensures forall i :: 0 <= i < |rows| ==> result[i] == PreviewRowOf(rows[i], profile.columns, allRules)
  {
    result := [];
    for i := 0 to |rows|
      invariant |result| == i
      invariant forall j :: 0 <= j < i ==> result[j] == PreviewRowOf(rows[j], profile.columns, allRules)
    {
      var previewRow := PreviewOneRow(rows[i], profile, allRules);
      result := result + [previewRow];
    }
  }

  /** The body of the `rows.map` callback of `applyRulesPreview`. */
  method PreviewOneRow(row: Row, profile: Profile, allRules: seq<Rule>) returns (previewRow: PreviewRow)
    ensures previewRow == PreviewRowOf(row, profile.columns, allRules)
  {
    previewRow := PreviewRow(row, map[]);
    for c := 0 to |profile.columns|
      invariant previewRow == PreviewRowOf(row, profile.columns[..c], allRules)
    {
      var column := profile.columns[c];
      var columnRules := Resolve(column.rules, allRules);
      ghost var start := previewRow;
      var value := Get(previewRow.cells, column.key);
      for k := 0 to |columnRules|
        invariant previewRow == RunPreview(columnRules[..k], start, column.key)
        invariant value == Get(previewRow.cells, column.key)
      {
        var rule := columnRules[k].rule;
        var shouldApply := match rule.condition case None => true case Some(cond) => cond(previewRow.cells);
        RunPreviewStep(columnRules, k, start, column.key);
        if !shouldApply { continue; }
        var oldValue := value;
        var newValue := rule.transform(oldValue, previewRow.cells);
        if newValue != oldValue {
          var before := if column.key in previewRow.changes
            then Coalesce(previewRow.changes[column.key].before, oldValue) else oldValue;
          previewRow := PreviewRow(Set(previewRow.cells, column.key, newValue),
                                   previewRow.changes[column.key := Change(before, newValue)]);
          value := newValue;
        }
      }
      assert columnRules[..|columnRules|] == columnRules;
      PreviewRowStep(row, profile.columns, c, allRules);
    }
    assert profile.columns[..|profile.columns|] == profile.columns;
  }
}
