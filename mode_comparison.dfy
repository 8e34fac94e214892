/**
 * Final mode and preview mode differ only in what the rules of a column
 * see of that column's own cell: the cell before the pipeline (final) or
 * the cell as the pipeline has changed it so far (preview). When no rule
 * of any column looks at its own column's cell, the two modes produce the
 * same cells; the catalog's rule 3 looks at two cells, and binding it to
 * one of them after rule 4 makes the modes disagree.
 */
module ModeComparison {
  import opened Wrappers
  import opened Rows
  import opened Types
  import opened Strings
  import opened Resolution
  import opened ApplyRules
  import opened Rules

  /** The rule's condition and transform ignore the cell at `key`. */
  ghost predicate BlindTo(rule: Rule, key: string)
  {
    && (forall row: Row, v: Value :: Applies(rule, Set(row, key, v)) == Applies(rule, row))
    && (forall row: Row, v: Value, w: Value :: rule.transform(w, Set(row, key, v)) == rule.transform(w, row))
  }

  ghost predicate PipelineBlindTo(rules: seq<ResolvedRule>, key: string)
  {
    forall i :: 0 <= i < |rules| ==> BlindTo(rules[i].rule, key)
  }

  /**
   * On a blind pipeline the preview's cell follows the final-mode value
   * step by step, and the preview row differs from the start at most in
   * that cell.
   */
  lemma {:induction false} PipelinesAgree(rules: seq<ResolvedRule>, p: PreviewRow, key: string)
    requires PipelineBlindTo(rules, key)
    ensures var q := RunPreview(rules, p, key);
      && (q.cells == p.cells || q.cells == Set(p.cells, key, Get(q.cells, key)))
      && Get(q.cells, key) == RunFinal(rules, Get(p.cells, key), p.cells)
    decreases |rules|
  {
    if rules != [] {
      var init := rules[..|rules| - 1];
      var rule := rules[|rules| - 1].rule;
      assert PipelineBlindTo(init, key) by {
        assert forall i :: 0 <= i < |init| ==> init[i] == rules[i];
      }
      PipelinesAgree(init, p, key);
      var q := RunPreview(init, p, key);
      var cur := Get(q.cells, key);
      assert BlindTo(rule, key);
      if q.cells != p.cells {
        assert Applies(rule, q.cells) == Applies(rule, p.cells);
        assert rule.transform(cur, q.cells) == rule.transform(cur, p.cells);
        SetSet(p.cells, key, cur, rule.transform(cur, p.cells));
      }
    }
  }

  /** One blind column whose key the row has: preview cells = final row. */
  lemma {:induction false} ColumnsAgree(p: PreviewRow, column: Column, catalog: seq<Rule>)
    requires column.key in p.cells.cells
    requires PipelineBlindTo(Resolve(column.rules, catalog), column.key)
    ensures PreviewColumn(p, column, catalog).cells == FinalColumn(p.cells, column, catalog)
  {
    PipelinesAgree(Resolve(column.rules, catalog), p, column.key);
    if PreviewColumn(p, column, catalog).cells == p.cells {
      SetSameValue(p.cells, column.key);
    }
  }

  /**
   * When every column's key is in the row and no column's pipeline looks
   * at its own cell, preview mode computes the same cells as final mode.
   */
  lemma {:induction false} ModesAgree(row: Row, columns: seq<Column>, catalog: seq<Rule>)
    requires forall i :: 0 <= i < |columns| ==> columns[i].key in row.cells
    requires forall i :: 0 <= i < |columns| ==> PipelineBlindTo(Resolve(columns[i].rules, catalog), columns[i].key)
    ensures PreviewRowOf(row, columns, catalog).cells == FinalRow(row, columns, catalog)
    decreases |columns|
  {
    if columns != [] {
      var init, last := columns[..|columns| - 1], columns[|columns| - 1];
      assert forall i :: 0 <= i < |init| ==> init[i] == columns[i];
      ModesAgree(row, init, catalog);
      ColumnsAgree(PreviewRowOf(row, init, catalog), last, catalog);
    }
  }

  /**
   * Rules 1, 2 and 4 ignore the row; rule 3 reads only the yesterday and
   * 14-day columns.
   */
  lemma {:induction false} CatalogBlindness(ops: NumericOps, key: string)
    ensures forall i :: 0 <= i < |AllRules(ops)| && AllRules(ops)[i].id != 3 ==> BlindTo(AllRules(ops)[i], key)
    ensures key != YesterdayYield && key != AverageYield14Days ==>
      forall i :: 0 <= i < |AllRules(ops)| ==> BlindTo(AllRules(ops)[i], key)
  {
    var rules := AllRules(ops);
    assert BlindTo(rules[0], key) && BlindTo(rules[1], key) && BlindTo(rules[3], key);
    if key != YesterdayYield && key != AverageYield14Days {
      FillYesBlindTo(key);
    }
  }

  /** Rule 3 ignores every cell but the yesterday and 14-day ones. */
  lemma {:induction false} FillYesBlindTo(key: string)
    requires key != YesterdayYield && key != AverageYield14Days
    ensures BlindTo(Rule(3, "", Some(FillYesCondition), FillYesTransform), key)
  {
    forall row: Row, v: Value ensures FillYesCondition(Set(row, key, v)) == FillYesCondition(row) {
      assert Get(Set(row, key, v), YesterdayYield) == Get(row, YesterdayYield);
      assert Get(Set(row, key, v), AverageYield14Days) == Get(row, AverageYield14Days);
    }
  }

  /** The row and column of the example below. */
  function ExampleRow(): Row
  {
    Row([YesterdayYield, AverageYield14Days], map[YesterdayYield := Str(""), AverageYield14Days := Str("  ")])
  }

  function ExampleColumn(): Column
  {
    Column(AverageYield14Days, Some("string"), [Binding(4, 1.0), Binding(3, 2.0)])
  }

  lemma {:induction false} ExampleKeysDiffer()
    ensures AverageYield14Days != YesterdayYield
  {
    assert AverageYield14Days[0] != YesterdayYield[0];
  }

  /** With rule ids 1 to 4 in order, the example column runs rule 4, then rule 3. */
  lemma {:induction false} ExamplePipeline(catalog: seq<Rule>)
    requires |catalog| == 4 && forall i :: 0 <= i < 4 ==> catalog[i].id == i + 1
    ensures Resolve(ExampleColumn().rules, catalog) == [ResolvedRule(catalog[3], 1.0), ResolvedRule(catalog[2], 2.0)]
  {
    FindRuleAt(catalog, 3);
    FindRuleAt(catalog, 2);
    TwoBindingsRunInOrder(Binding(4, 1.0), Binding(3, 2.0), catalog, catalog[3], catalog[2]);
  }

  lemma {:induction false} ExampleFinal(ops: NumericOps)
    ensures var catalog := AllRules(ops);
      RunFinal([ResolvedRule(catalog[3], 1.0), ResolvedRule(catalog[2], 2.0)], Str("  "), ExampleRow()) == Str(Yes)
  {
    var catalog := AllRules(ops);
    var rules := [ResolvedRule(catalog[3], 1.0), ResolvedRule(catalog[2], 2.0)];
    ExampleKeysDiffer();
    assert rules[..1][..0] == [] && rules[..2][..1] == rules[..1] && rules[..2] == rules;
    assert FillYesCondition(ExampleRow());
  }

  lemma {:induction false} ExampleTrimmedRow()
    ensures Trim("  ") == ""
    ensures !FillYesCondition(Set(ExampleRow(), AverageYield14Days, Str("")))
  {
    assert TrimStart("  ") == TrimStart(" ") == "";
    ExampleKeysDiffer();
    assert Get(Set(ExampleRow(), AverageYield14Days, Str("")), AverageYield14Days) == Str("");
  }

  lemma {:induction false} ExampleFirstPreviewStep(ops: NumericOps)
    ensures var catalog := AllRules(ops);
      PreviewStep(PreviewRow(ExampleRow(), map[]), AverageYield14Days, catalog[3]).cells
        == Set(ExampleRow(), AverageYield14Days, Str(""))
  {
    var catalog := AllRules(ops);
    ExampleTrimmedRow();
    assert Get(ExampleRow(), AverageYield14Days) == Str("  ");
    assert catalog[3].transform(Str("  "), ExampleRow()) == Str("");
  }

  lemma {:induction false} ExamplePreview(ops: NumericOps)
    ensures var catalog := AllRules(ops);
      var rules := [ResolvedRule(catalog[3], 1.0), ResolvedRule(catalog[2], 2.0)];
      Get(RunPreview(rules, PreviewRow(ExampleRow(), map[]), AverageYield14Days).cells, AverageYield14Days) == Str("")
  {
    var catalog := AllRules(ops);
    var rules := [ResolvedRule(catalog[3], 1.0), ResolvedRule(catalog[2], 2.0)];
    assert rules[..1][..0] == [] && rules[..2][..1] == rules[..1] && rules[..2] == rules;
    var p := PreviewRow(ExampleRow(), map[]);
    assert RunPreview(rules[..1][..0], p, AverageYield14Days) == p;
    var q := RunPreview(rules[..1], p, AverageYield14Days);
    assert q == PreviewStep(p, AverageYield14Days, catalog[3]);
    ExampleFirstPreviewStep(ops);
    ExampleTrimmedRow();
    assert !Applies(catalog[2], q.cells);
  }

  /**
   * The 14-day column bound to rule 4 (trim) and then rule 3, on a row
   * whose yesterday cell is "" and whose 14-day cell is "  ". Final mode
   * gives "Да": rule 3 still sees the untrimmed, truthy "  ". Preview mode
   * gives "": rule 3 sees the trimmed "", which is falsy, and does not run.
   */
  lemma {:induction false} ModesDifferOnOwnColumn(ops: NumericOps)
    ensures Get(FinalRow(ExampleRow(), [ExampleColumn()], AllRules(ops)), AverageYield14Days) == Str(Yes)
    ensures Get(PreviewRowOf(ExampleRow(), [ExampleColumn()], AllRules(ops)).cells, AverageYield14Days) == Str("")
  {
    ExamplePipeline(AllRules(ops));
    ExampleFinal(ops);
    ExamplePreview(ops);
    assert [ExampleColumn()][..0] == [];
  }
}
