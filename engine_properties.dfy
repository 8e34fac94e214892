/**
 * What the two engine modes guarantee, stated over the fold definitions
 * of the engine module: guards, empty and dangling bindings, the meaning
 * of a `_changes` entry, and what each column of final mode sees.
 */
module EngineProperties {
  import opened Wrappers
  import opened Rows
  import opened Types
  import opened Resolution
  import opened ApplyRules

  /**
   * A rule whose condition is absent always runs; one whose condition is
   * present and false leaves the value as it is.
   */
  lemma {:induction false} ConditionGuardsRule(rule: Rule, order: real, value: Value, row: Row)
    ensures rule.condition.None? ==>
      RunFinal([ResolvedRule(rule, order)], value, row) == rule.transform(value, row)
    ensures rule.condition.Some? && !rule.condition.value(row) ==>
      RunFinal([ResolvedRule(rule, order)], value, row) == value
  {
    assert [ResolvedRule(rule, order)][..0] == [];
  }

  /** When no rule of a preview pipeline applies, the preview row stays. */
  lemma {:induction false} NoRuleAppliesPreview(rules: seq<ResolvedRule>, p: PreviewRow, key: string)
    requires forall i :: 0 <= i < |rules| ==> !Applies(rules[i].rule, p.cells)
    ensures RunPreview(rules, p, key) == p
    decreases |rules|
  {
    if rules != [] {
      NoRuleAppliesPreview(rules[..|rules| - 1], p, key);
    }
  }

  /**
   * A column without bindings keeps its value in both modes and gets no
   * `_changes` entry; final mode still writes the cell, which adds the key
   * with `undefined` when the row lacked it.
   */
  lemma {:induction false} EmptyColumnNoEffect(row: Row, p: PreviewRow, column: Column, catalog: seq<Rule>)
    requires column.rules == []
    ensures PreviewColumn(p, column, catalog) == p
    ensures Get(FinalColumn(row, column, catalog), column.key) == Get(row, column.key)
    ensures column.key in row.cells ==> FinalColumn(row, column, catalog) == row
  {
    NoBindingsNoPipeline(catalog);
    if column.key in row.cells {
      SetSameValue(row, column.key);
    }
  }

  /** A binding to an id the catalog lacks changes neither mode. */
  lemma {:induction false} DanglingBindingNoEffect(row: Row, p: PreviewRow, key: string, typeName: Option<string>,
                                pre: seq<Binding>, b: Binding, post: seq<Binding>, catalog: seq<Rule>)
    requires forall j :: 0 <= j < |catalog| ==> catalog[j].id != b.ruleId
    ensures FinalColumn(row, Column(key, typeName, pre + [b] + post), catalog)
         == FinalColumn(row, Column(key, typeName, pre + post), catalog)
    ensures PreviewColumn(p, Column(key, typeName, pre + [b] + post), catalog)
         == PreviewColumn(p, Column(key, typeName, pre + post), catalog)
  {
    DanglingBindingIgnored(pre, b, post, catalog);
  }

  /** Whether rule `i` of a preview pipeline applied and returned a value `!==` the cell. */
  ghost predicate ChangedAt(rules: seq<ResolvedRule>, p: PreviewRow, key: string, i: nat)
    requires i < |rules|
  {
    var q := RunPreview(rules[..i], p, key);
    Applies(rules[i].rule, q.cells) && rules[i].rule.transform(Get(q.cells, key), q.cells) != Get(q.cells, key)
  }

  /**
   * On a column that has no entry yet, the pipeline makes an entry exactly
   * when some applied rule returned a value `!==` its input; the entry's
   * `after` is the cell's final value; and without an entry nothing changed.
   */
  lemma {:induction false} EntryIffSomeRuleChanged(rules: seq<ResolvedRule>, p: PreviewRow, key: string)
    requires key !in p.changes
    ensures var r := RunPreview(rules, p, key);
      && (key in r.changes <==> exists i :: 0 <= i < |rules| && ChangedAt(rules, p, key, i))
      && (key in r.changes ==> r.changes[key].after == Get(r.cells, key))
      && (key !in r.changes ==> r == p)
    decreases |rules|
  {
    if rules != [] {
      var init, n := rules[..|rules| - 1], |rules| - 1;
      EntryIffSomeRuleChanged(init, p, key);
      forall i | 0 <= i < |init| ensures ChangedAt(init, p, key, i) == ChangedAt(rules, p, key, i) {
        assert init[..i] == rules[..i];
      }
      var q := RunPreview(init, p, key);
      assert rules[..n] == init;
      var rule := rules[n].rule;
      assert ChangedAt(rules, p, key, n) <==>
        Applies(rule, q.cells) && rule.transform(Get(q.cells, key), q.cells) != Get(q.cells, key);
      if exists i :: 0 <= i < |rules| && ChangedAt(rules, p, key, i) {
        var i :| 0 <= i < |rules| && ChangedAt(rules, p, key, i);
        if i < n {
          assert ChangedAt(init, p, key, i);
        }
      }
    }
  }

  /**
   * When the cell held neither null nor undefined before the pipeline, the
   * entry's `before` is that pre-pipeline value however many rules changed it.
   */
  lemma {:induction false} BeforeIsPrePipelineValue(rules: seq<ResolvedRule>, p: PreviewRow, key: string)
    requires key !in p.changes && !IsNullish(Get(p.cells, key))
    ensures var r := RunPreview(rules, p, key);
      && (key in r.changes ==> r.changes[key].before == Get(p.cells, key))
      && (key !in r.changes ==> Get(r.cells, key) == Get(p.cells, key))
    decreases |rules|
  {
    if rules != [] {
      BeforeIsPrePipelineValue(rules[..|rules| - 1], p, key);
    }
  }

  /** With distinct keys, column `c`'s key is not among the keys before or after it. */
  lemma {:induction false} KeyOnlyAt(columns: seq<Column>, c: nat)
    requires c < |columns|
    requires forall i, j :: 0 <= i < j < |columns| ==> columns[i].key != columns[j].key
    ensures columns[c].key !in ColumnKeys(columns[..c])
    ensures columns[c].key !in ColumnKeys(columns[c + 1..])
    ensures columns == columns[..c + 1] + columns[c + 1..]
  {
    var before, after := columns[..c], columns[c + 1..];
    assert forall i :: 0 <= i < |before| ==> before[i] == columns[i];
    assert forall i :: 0 <= i < |after| ==> after[i] == columns[c + 1 + i];
  }

  /**
   * Preview mode on a profile whose column keys are distinct: column `c`
   * starts from the row's own cell; it has an entry iff some applied rule
   * of its pipeline changed the cell; `after` is the cell's final value;
   * `before` is the original cell unless that was null or undefined; and a
   * column without an entry keeps its original value.
   */
  lemma {:induction false} PreviewEntries(row: Row, columns: seq<Column>, catalog: seq<Rule>, c: nat)
    requires c < |columns|
    requires forall i, j :: 0 <= i < j < |columns| ==> columns[i].key != columns[j].key
    ensures var key, rules := columns[c].key, Resolve(columns[c].rules, catalog);
      var p, r := PreviewRowOf(row, columns[..c], catalog), PreviewRowOf(row, columns, catalog);
      && Get(p.cells, key) == Get(row, key)
      && (key in r.changes <==> exists i :: 0 <= i < |rules| && ChangedAt(rules, p, key, i))
      && (key in r.changes ==> r.changes[key].after == Get(r.cells, key))
      && (key in r.changes && !IsNullish(Get(row, key)) ==> r.changes[key].before == Get(row, key))
      && (key !in r.changes ==> Get(r.cells, key) == Get(row, key))
  {
    var key, rules := columns[c].key, Resolve(columns[c].rules, catalog);
    var after := columns[c + 1..];
    KeyOnlyAt(columns, c);
    var p := PreviewRowOf(row, columns[..c], catalog);
    PreviewRowStep(row, columns, c, catalog);
    PreviewColumnsAppend(PreviewRow(row, map[]), columns[..c + 1], after, catalog);
    EntryIffSomeRuleChanged(rules, p, key);
    if !IsNullish(Get(row, key)) {
      BeforeIsPrePipelineValue(rules, p, key);
    }
  }

  /**
   * Final mode on a profile whose column keys are distinct: column `c`'s
   * final value is its pipeline run from the row's original cell, with
   * every rule of the pipeline seeing the row as the earlier columns left
   * it, whose own cell is still the original one.
   */
  lemma {:induction false} FinalColumnSeesRowBeforeIt(row: Row, columns: seq<Column>, catalog: seq<Rule>, c: nat)
    requires c < |columns|
    requires forall i, j :: 0 <= i < j < |columns| ==> columns[i].key != columns[j].key
    ensures var key, seen := columns[c].key, FinalRow(row, columns[..c], catalog);
      && Get(seen, key) == Get(row, key)
      && Get(FinalRow(row, columns, catalog), key) == RunFinal(Resolve(columns[c].rules, catalog), Get(row, key), seen)
  {
    var after := columns[c + 1..];
    KeyOnlyAt(columns, c);
    FinalRowAppend(row, columns[..c + 1], after, catalog);
    FinalRowStep(row, columns, c, catalog);
  }

  /** Transforms that ignore their input, for the two examples below. */
  function SetToA(value: Value, row: Row): Value { Str("a") }
  function SetToX(value: Value, row: Row): Value { Str("x") }
  function SetToY(value: Value, row: Row): Value { Str("y") }

  /**
   * A `_changes` entry records that some rule changed the cell, not that the
   * final value differs from the first: "a" -> "x" -> "a" leaves the entry
   * `{old: "a", new: "a"}`.
   */
  lemma {:induction false} EntryDespiteNetNoChange()
    ensures var rules := [ResolvedRule(Rule(1, "", None, SetToX), 1.0), ResolvedRule(Rule(2, "", None, SetToA), 2.0)];
      var row := Row(["k"], map["k" := Str("a")]);
      var r := RunPreview(rules, PreviewRow(row, map[]), "k");
      && Get(r.cells, "k") == Get(row, "k")
      && "k" in r.changes && r.changes["k"] == Change(Str("a"), Str("a"))
  {
    var rules := [ResolvedRule(Rule(1, "", None, SetToX), 1.0), ResolvedRule(Rule(2, "", None, SetToA), 2.0)];
    var row := Row(["k"], map["k" := Str("a")]);
    var p := PreviewRow(row, map[]);
    assert rules[..1][..0] == [] && rules[..2][..1] == rules[..1] && rules[..2] == rules;
    assert RunPreview(rules[..1][..0], p, "k") == p;
    var q := RunPreview(rules[..1], p, "k");
    assert q == PreviewStep(RunPreview(rules[..1][..0], p, "k"), "k", rules[..1][0].rule);
    assert q.changes["k"] == Change(Str("a"), Str("x"));
  }

  /**
   * `old` is not kept when it was null: null -> "x" -> "y" records
   * `{old: "x", new: "y"}`, because `null ?? "x"` is `"x"`.
   */
  lemma {:induction false} NullBeforeNotKept()
    ensures var rules := [ResolvedRule(Rule(1, "", None, SetToX), 1.0), ResolvedRule(Rule(2, "", None, SetToY), 2.0)];
      var r := RunPreview(rules, PreviewRow(Row(["k"], map["k" := Null]), map[]), "k");
      "k" in r.changes && r.changes["k"] == Change(Str("x"), Str("y"))
  {
    var rules := [ResolvedRule(Rule(1, "", None, SetToX), 1.0), ResolvedRule(Rule(2, "", None, SetToY), 2.0)];
    var p := PreviewRow(Row(["k"], map["k" := Null]), map[]);
    assert rules[..1][..0] == [] && rules[..2][..1] == rules[..1] && rules[..2] == rules;
    assert RunPreview(rules[..1][..0], p, "k") == p;
    var q := RunPreview(rules[..1], p, "k");
    assert q == PreviewStep(RunPreview(rules[..1][..0], p, "k"), "k", rules[..1][0].rule);
    assert q.changes["k"] == Change(Null, Str("x"));
  }
}
