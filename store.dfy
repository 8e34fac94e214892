/**
 * The file-correction store: the active profile, the rows loaded from the
 * file, the preview rows and the processed rows. The profile operations
 * are functions over `Profile` values, each followed by the lemmas about
 * it; the store class holds the state and its methods overwrite it.
 * The reactive watch that recomputes the preview becomes the explicit
 * method `RecomputePreview`.
 */
module CorrectionStore {
  import opened Wrappers
  import opened Rows
  import opened Types
  import opened Resolution
  import opened ApplyRules
  import EngineProperties

  const AutoDescription := "Автогенерированный профиль по файлу"

  // ---------------------------------------------------------------------
  // Creating a profile from the loaded rows
  // ---------------------------------------------------------------------

  /** `name || fallback`: an absent or empty name gives way to the fallback. */
  function ProfileName(name: Option<string>, fallback: string): (r: string)
    ensures name.Some? && name.value != "" ==> r == name.value
    ensures name.None? || name.value == "" ==> r == fallback
  {
    if name.Some? && name.value != "" then name.value else fallback
  }

  /** `Object.keys(rows[0] || {})`: the first row's keys in order, none without rows. */
  function FirstRowKeys(rows: seq<Row>): (ks: seq<string>)
    ensures rows == [] ==> ks == []
    ensures rows != [] ==> ks == rows[0].keys
  {
    if rows == [] then [] else rows[0].keys
  }

  /**
   * `createProfileFromFile`: one string column without rules per key of the
   * first row, in key order; no rows give no columns. The generated name
   * `profile_<Date.now()>` is passed in as `fallbackName`.
   */
  function CreateFromRows(rows: seq<Row>, name: Option<string>, fallbackName: string): (p: Profile)
    ensures p.name == ProfileName(name, fallbackName) && p.description == Some(AutoDescription)
    ensures |p.columns| == |FirstRowKeys(rows)|
    ensures forall i :: 0 <= i < |p.columns| ==>
      p.columns[i].key == FirstRowKeys(rows)[i] && p.columns[i].typeName == Some("string") && p.columns[i].rules == []
    ensures rows == [] ==> p.columns == []
  {
    var keys := FirstRowKeys(rows);
    Profile(ProfileName(name, fallbackName), Some(AutoDescription),
            seq(|keys|, i requires 0 <= i < |keys| => Column(keys[i], Some("string"), [])))
  }

  /** `columns.some(c => c.rules?.length)`: some column binds a rule. */
  predicate HasRules(p: Profile): (h: bool)
    ensures !h <==> forall c :: c in p.columns ==> c.rules == []
  {
    exists i :: 0 <= i < |p.columns| && |p.columns[i].rules| > 0
  }

  /** No rule id is bound twice. */
  ghost predicate DistinctIds(rules: seq<Binding>)
  {
    forall i, j :: 0 <= i < j < |rules| ==> rules[i].ruleId != rules[j].ruleId
  }

  /** At most one binding per rule id in every column. */
  ghost predicate UniqueRuleIds(p: Profile)
  {
    forall c :: 0 <= c < |p.columns| ==> DistinctIds(p.columns[c].rules)
  }

  /** A fresh profile binds nothing, so the preview of it is empty. */
  lemma {:induction false} CreatedProfileHasNoRules(rows: seq<Row>, name: Option<string>, fallbackName: string)
    ensures !HasRules(CreateFromRows(rows, name, fallbackName))
    ensures UniqueRuleIds(CreateFromRows(rows, name, fallbackName))
  {
  }

  /** Final mode leaves a row unchanged under rule-less columns the row has. */
  lemma {:induction false} RuleFreeColumnsLeaveRow(row: Row, columns: seq<Column>, catalog: seq<Rule>)
    requires forall i :: 0 <= i < |columns| ==> columns[i].rules == [] && columns[i].key in row.cells
    ensures FinalRow(row, columns, catalog) == row
    decreases |columns|
  {
    if columns != [] {
      var init, last := columns[..|columns| - 1], columns[|columns| - 1];
      assert forall i :: 0 <= i < |init| ==> init[i] == columns[i];
      RuleFreeColumnsLeaveRow(row, init, catalog);
      EngineProperties.EmptyColumnNoEffect(row, PreviewRow(row, map[]), last, catalog);
    }
  }

  /** Applying a freshly created profile to a row with the first row's keys changes nothing. */
  lemma {:induction false} CreatedProfileLeavesRows(rows: seq<Row>, name: Option<string>, fallbackName: string,
                                 row: Row, catalog: seq<Rule>)
    requires forall k :: k in FirstRowKeys(rows) ==> k in row.cells
    ensures FinalRow(row, CreateFromRows(rows, name, fallbackName).columns, catalog) == row
  {
    var p := CreateFromRows(rows, name, fallbackName);
    assert forall i :: 0 <= i < |p.columns| ==> p.columns[i].key in FirstRowKeys(rows);
    RuleFreeColumnsLeaveRow(row, p.columns, catalog);
  }

  // ---------------------------------------------------------------------
  // Adding and removing a rule binding
  // ---------------------------------------------------------------------

  /** `columns.find(c => c.key === key)`, as an index. */
  function FindColumn(columns: seq<Column>, key: string): (r: Option<nat>)
    ensures r.Some? ==> r.value < |columns| && columns[r.value].key == key
    ensures r.Some? ==> forall j :: 0 <= j < r.value ==> columns[j].key != key
    ensures r.None? ==> forall j :: 0 <= j < |columns| ==> columns[j].key != key
  {
    if columns == [] then None
    else if columns[0].key == key then Some(0)
    else match FindColumn(columns[1..], key)
      case None => None
      case Some(i) => Some(i + 1)
  }

  /** `rules.some(r => r.ruleId === ruleId)`: some binding names the rule. */
  predicate HasBinding(rules: seq<Binding>, ruleId: int): (h: bool)
    ensures !h <==> forall i :: 0 <= i < |rules| ==> rules[i].ruleId != ruleId
  {
    exists i :: 0 <= i < |rules| && rules[i].ruleId == ruleId
  }

  /** `Math.max(...rules.map(r => r.order))` */
  function MaxOrder(rules: seq<Binding>): (m: real)
    requires |rules| > 0
    ensures forall i :: 0 <= i < |rules| ==> rules[i].order <= m
    ensures exists i :: 0 <= i < |rules| && rules[i].order == m
  {
    if |rules| == 1 then rules[0].order
    else
      var m := MaxOrder(rules[1..]);
      assert forall i :: 1 <= i < |rules| ==> rules[i] == rules[1..][i - 1];
      if rules[0].order >= m then rules[0].order else m
  }

  /** The order of an appended binding: one past the maximum, or 1. */
  function NextOrder(rules: seq<Binding>): (o: real)
    ensures forall i :: 0 <= i < |rules| ==> rules[i].order < o
    ensures rules == [] ==> o == 1.0
    ensures rules != [] ==> exists i :: 0 <= i < |rules| && rules[i].order == o - 1.0
    ensures forall i :: 0 <= i < |rules| ==> rules[i].order <= o - 1.0
  {
    if |rules| > 0 then MaxOrder(rules) + 1.0 else 1.0
  }

  /**
   * `addRuleToColumn` on a profile: nothing happens when no column has the
   * key or the first such column already binds the id; otherwise that
   * column gets the binding `{ruleId, order: NextOrder}` appended, and every
   * other part of the profile stays.
   */
  function AddRule(p: Profile, key: string, ruleId: int): (r: Profile)
    ensures FindColumn(p.columns, key).None? ==> r == p
    ensures FindColumn(p.columns, key).Some? && HasBinding(p.columns[FindColumn(p.columns, key).value].rules, ruleId) ==> r == p
    ensures FindColumn(p.columns, key).Some? && !HasBinding(p.columns[FindColumn(p.columns, key).value].rules, ruleId) ==>
      var c, prior := FindColumn(p.columns, key).value, p.columns[FindColumn(p.columns, key).value].rules;
      && r.name == p.name && r.description == p.description && |r.columns| == |p.columns|
      && (forall j :: 0 <= j < |p.columns| && j != c ==> r.columns[j] == p.columns[j])
      && r.columns[c].key == key && r.columns[c].typeName == p.columns[c].typeName
      && |r.columns[c].rules| == |prior| + 1 && r.columns[c].rules[..|prior|] == prior
      && r.columns[c].rules[|prior|] == Binding(ruleId, NextOrder(prior))
  {
    match FindColumn(p.columns, key)
    case None => p
    case Some(c) =>
      var column := p.columns[c];
      if HasBinding(column.rules, ruleId) then p
      else
        var added := column.(rules := column.rules + [Binding(ruleId, NextOrder(column.rules))]);
        assert added.rules[..|column.rules|] == column.rules;
        p.(columns := p.columns[c := added])
  }

  /** `rules.filter(r => r.ruleId !== ruleId)` */
  function WithoutRule(rules: seq<Binding>, ruleId: int): (r: seq<Binding>)
    ensures |r| <= |rules|
    ensures forall b :: b in r <==> b in rules && b.ruleId != ruleId
    ensures !HasBinding(rules, ruleId) ==> r == rules
  {
    if rules == [] then []
    else
      var keep := if rules[0].ruleId == ruleId then [] else [rules[0]];
      assert forall i :: 1 <= i < |rules| ==> rules[i] == rules[1..][i - 1];
      keep + WithoutRule(rules[1..], ruleId)
  }

  /** The filter keeps the relative order of what it keeps. */
  lemma {:induction false} WithoutRuleAppend(a: seq<Binding>, b: seq<Binding>, ruleId: int)
    ensures WithoutRule(a + b, ruleId) == WithoutRule(a, ruleId) + WithoutRule(b, ruleId)
    decreases |a|
  {
    if a == [] {
      assert a + b == b;
    } else {
      assert (a + b)[1..] == a[1..] + b;
      WithoutRuleAppend(a[1..], b, ruleId);
    }
  }

  /**
   * `removeRuleFromColumn` on a profile: the first column with the key loses
   * every binding with the id, the rest keep their orders (no renumbering);
   * nothing happens when no column has the key.
   */
  function RemoveRule(p: Profile, key: string, ruleId: int): (r: Profile)
    ensures FindColumn(p.columns, key).None? ==> r == p
    ensures FindColumn(p.columns, key).Some? ==>
      var c := FindColumn(p.columns, key).value;
      && r.name == p.name && r.description == p.description && |r.columns| == |p.columns|
      && (forall j :: 0 <= j < |p.columns| && j != c ==> r.columns[j] == p.columns[j])
      && r.columns[c].key == key && r.columns[c].typeName == p.columns[c].typeName
      && r.columns[c].rules == WithoutRule(p.columns[c].rules, ruleId)
      && !HasBinding(r.columns[c].rules, ruleId)
  {
    match FindColumn(p.columns, key)
    case None => p
    case Some(c) =>
      var column := p.columns[c];
      var removed := column.(rules := WithoutRule(column.rules, ruleId));
      p.(columns := p.columns[c := removed])
  }

  /** Adding an id the column already binds changes nothing: one binding per id. */
  lemma {:induction false} AddRuleTwice(p: Profile, key: string, ruleId: int)
    ensures AddRule(AddRule(p, key, ruleId), key, ruleId) == AddRule(p, key, ruleId)
  {
    var q := AddRule(p, key, ruleId);
    if FindColumn(p.columns, key).Some? {
      var c := FindColumn(p.columns, key).value;
      assert FindColumn(q.columns, key) == Some(c) by {
        assert forall j :: 0 <= j < c ==> q.columns[j].key != key;
      }
      var rules := q.columns[c].rules;
      if !HasBinding(p.columns[c].rules, ruleId) {
        assert rules[|rules| - 1].ruleId == ruleId;
      }
    }
  }

  /** Adding and removing keep the "one binding per id" invariant. */
  lemma {:induction false} AddRuleKeepsUnique(p: Profile, key: string, ruleId: int)
    requires UniqueRuleIds(p)
    ensures UniqueRuleIds(AddRule(p, key, ruleId))
  {
    var r := AddRule(p, key, ruleId);
    if FindColumn(p.columns, key).Some? {
      var c := FindColumn(p.columns, key).value;
      var prior := p.columns[c].rules;
      if !HasBinding(prior, ruleId) {
        forall i, j | 0 <= i < j < |r.columns[c].rules|
          ensures r.columns[c].rules[i].ruleId != r.columns[c].rules[j].ruleId
        {
          if j < |prior| {
            assert r.columns[c].rules[i] == prior[i] && r.columns[c].rules[j] == prior[j];
          } else {
            assert r.columns[c].rules[i] == prior[i];
          }
        }
      }
    }
  }

  lemma {:induction false} RemoveRuleKeepsUnique(p: Profile, key: string, ruleId: int)
    requires UniqueRuleIds(p)
    ensures UniqueRuleIds(RemoveRule(p, key, ruleId))
  {
    var r := RemoveRule(p, key, ruleId);
    if FindColumn(p.columns, key).Some? {
      var c := FindColumn(p.columns, key).value;
      WithoutRuleUnique(p.columns[c].rules, ruleId);
      forall d | 0 <= d < |r.columns| ensures DistinctIds(r.columns[d].rules) {
        if d != c {
          assert r.columns[d] == p.columns[d];
        } else {
          assert r.columns[c].rules == WithoutRule(p.columns[c].rules, ruleId);
        }
      }
    }
  }

  lemma {:induction false} WithoutRuleUnique(rules: seq<Binding>, ruleId: int)
    requires DistinctIds(rules)
    ensures DistinctIds(WithoutRule(rules, ruleId))
    decreases |rules|
  {
    if rules != [] {
      var rest := rules[1..];
      assert forall i :: 0 <= i < |rest| ==> rest[i] == rules[i + 1];
      WithoutRuleUnique(rest, ruleId);
      var tail := WithoutRule(rest, ruleId);
      if rules[0].ruleId != ruleId {
        forall b | b in tail ensures b.ruleId != rules[0].ruleId {
          var k :| 0 <= k < |rest| && rest[k] == b;
          assert rules[k + 1] == b;
        }
        ConsDistinct(rules[0], tail);
      }
    }
  }

  /** A binding whose id the distinct list lacks can go in front of it. */
  lemma {:induction false} ConsDistinct(x: Binding, t: seq<Binding>)
    requires DistinctIds(t)
    requires forall b :: b in t ==> b.ruleId != x.ruleId
    ensures DistinctIds([x] + t)
  {
    var s := [x] + t;
    forall i, j | 0 <= i < j < |s| ensures s[i].ruleId != s[j].ruleId {
      assert s[j] == t[j - 1];
      if i > 0 {
        assert s[i] == t[i - 1];
      }
    }
  }

  /** Removing a binding just added restores the profile. */
  lemma {:induction false} RemoveUndoesAdd(p: Profile, key: string, ruleId: int)
    requires FindColumn(p.columns, key).Some? ==> !HasBinding(p.columns[FindColumn(p.columns, key).value].rules, ruleId)
    ensures RemoveRule(AddRule(p, key, ruleId), key, ruleId) == p
  {
    var q := AddRule(p, key, ruleId);
    if FindColumn(p.columns, key).Some? {
      var c := FindColumn(p.columns, key).value;
      var prior := p.columns[c].rules;
      assert FindColumn(q.columns, key) == Some(c) by {
        assert forall j :: 0 <= j < c ==> q.columns[j].key != key;
      }
      assert q.columns[c].rules == prior + [Binding(ruleId, NextOrder(prior))];
      WithoutRuleAppend(prior, [Binding(ruleId, NextOrder(prior))], ruleId);
      assert WithoutRule([Binding(ruleId, NextOrder(prior))], ruleId) == [];
      var r := RemoveRule(q, key, ruleId);
      assert r.columns[c] == p.columns[c];
      assert r.columns == p.columns;
    }
  }

  /**
   * The binding `addRuleToColumn` appends runs last: the column's pipeline
   * is the old one followed by the added rule.
   */
  lemma {:induction false} AddedRuleRunsLast(p: Profile, key: string, ruleId: int, catalog: seq<Rule>, rule: Rule)
    requires FindColumn(p.columns, key).Some?
    requires !HasBinding(p.columns[FindColumn(p.columns, key).value].rules, ruleId)
    requires FindRule(catalog, ruleId) == Some(rule)
    ensures var c := FindColumn(p.columns, key).value;
      var prior := p.columns[c].rules;
      Resolve(AddRule(p, key, ruleId).columns[c].rules, catalog)
        == Resolve(prior, catalog) + [ResolvedRule(rule, NextOrder(prior))]
  {
    var c := FindColumn(p.columns, key).value;
    var prior := p.columns[c].rules;
    assert AddRule(p, key, ruleId).columns[c].rules == prior + [Binding(ruleId, NextOrder(prior))];
    AppendGreatestRunsLast(prior, Binding(ruleId, NextOrder(prior)), catalog, rule);
  }

  /** One successful add, seen from the column it targets. */
  lemma {:induction false} AddRuleAt(p: Profile, key: string, ruleId: int, c: nat)
    requires FindColumn(p.columns, key) == Some(c)
    requires !HasBinding(p.columns[c].rules, ruleId)
    ensures FindColumn(AddRule(p, key, ruleId).columns, key) == Some(c)
    ensures AddRule(p, key, ruleId).columns[c].rules
      == p.columns[c].rules + [Binding(ruleId, NextOrder(p.columns[c].rules))]
  {
    var q := AddRule(p, key, ruleId);
    assert forall j :: 0 <= j < c ==> q.columns[j].key != key;
  }

  /** The orders and duplicate checks the three adds below go through. */
  lemma {:induction false} ThreeBindings(a: int, b: int, c: int)
    requires a != b && b != c && a != c
    ensures NextOrder([]) == 1.0 && !HasBinding([], a)
    ensures NextOrder([Binding(a, 1.0)]) == 2.0 && !HasBinding([Binding(a, 1.0)], b)
    ensures NextOrder([Binding(a, 1.0), Binding(b, 2.0)]) == 3.0 && !HasBinding([Binding(a, 1.0), Binding(b, 2.0)], c)
  {
    assert MaxOrder([Binding(a, 1.0)]) == 1.0;
    assert MaxOrder([Binding(a, 1.0), Binding(b, 2.0)]) == 2.0;
  }

  /** Three adds of distinct ids to a rule-less column number them 1, 2, 3. */
  lemma {:induction false} ThreeAddsNumberedInOrder(p: Profile, key: string, a: int, b: int, c: int)
    requires FindColumn(p.columns, key).Some? && p.columns[FindColumn(p.columns, key).value].rules == []
    requires a != b && b != c && a != c
    ensures var i := FindColumn(p.columns, key).value;
      AddRule(AddRule(AddRule(p, key, a), key, b), key, c).columns[i].rules
        == [Binding(a, 1.0), Binding(b, 2.0), Binding(c, 3.0)]
  {
    var i := FindColumn(p.columns, key).value;
    ThreeBindings(a, b, c);
    AddRuleAt(p, key, a, i);
    var p1 := AddRule(p, key, a);
    assert p1.columns[i].rules == [Binding(a, 1.0)];
    AddRuleAt(p1, key, b, i);
    var p2 := AddRule(p1, key, b);
    assert p2.columns[i].rules == [Binding(a, 1.0), Binding(b, 2.0)];
    AddRuleAt(p2, key, c, i);
  }

  // ---------------------------------------------------------------------
  // The store
  // ---------------------------------------------------------------------

  /** The fields `profile`, `originalRows`, `previewRows`, `processedRows`, `availableRules`. */
  class FileCorrectionStore {
    var profile: Option<Profile>
    var originalRows: seq<Row>
    var previewRows: seq<PreviewRow>
    var processedRows: seq<Row>
    const availableRules: seq<Rule>

    constructor (allRules: seq<Rule>)
      ensures profile == None && originalRows == [] && previewRows == [] && processedRows == []
      ensures availableRules == allRules
    {
      profile := None;
      originalRows, previewRows, processedRows := [], [], [];
      availableRules := allRules;
    }

    /** `setProfile` */
    method SetProfile(newProfile: Profile)
      modifies this
      ensures profile == Some(newProfile)
      ensures originalRows == old(originalRows) && previewRows == old(previewRows) && processedRows == old(processedRows)
    {
      profile := Some(newProfile);
    }

    /** `createProfileFromFile` */
    method CreateProfileFromFile(rows: seq<Row>, name: Option<string>, fallbackName: string)
      modifies this
      ensures profile == Some(CreateFromRows(rows, name, fallbackName))
      ensures originalRows == old(originalRows) && previewRows == old(previewRows) && processedRows == old(processedRows)
    {
      var keys := FirstRowKeys(rows);
      var columns: seq<Column> := [];
      for i := 0 to |keys|
        invariant |columns| == i
        invariant forall j :: 0 <= j < i ==> columns[j] == Column(keys[j], Some("string"), [])
      {
        columns := columns + [Column(keys[i], Some("string"), [])];
      }
      assert columns == CreateFromRows(rows, name, fallbackName).columns;
      SetProfile(Profile(ProfileName(name, fallbackName), Some(AutoDescription), columns));
    }

    /** `setOriginalRows` */
    method SetOriginalRows(rows: seq<Row>)
      modifies this
      ensures originalRows == rows
      ensures profile == old(profile) && previewRows == old(previewRows) && processedRows == old(processedRows)
    {
      originalRows := rows;
    }

    /** `addRuleToColumn` */
    method AddRuleToColumn(columnKey: string, ruleId: int)
      modifies this
      ensures profile == if old(profile).None? then None else Some(AddRule(old(profile).value, columnKey, ruleId))
      ensures originalRows == old(originalRows) && previewRows == old(previewRows) && processedRows == old(processedRows)
    {
      if profile.None? { return; }
      var p := profile.value;
      var found := FindColumn(p.columns, columnKey);
      if found.None? { return; }
      var column := p.columns[found.value];
      if HasBinding(column.rules, ruleId) { return; }
      var order := NextOrder(column.rules);
      profile := Some(p.(columns := p.columns[found.value := column.(rules := column.rules + [Binding(ruleId, order)])]));
    }

    /** `removeRuleFromColumn` */
    method RemoveRuleFromColumn(columnKey: string, ruleId: int)
      modifies this
      ensures profile == if old(profile).None? then None else Some(RemoveRule(old(profile).value, columnKey, ruleId))
      ensures originalRows == old(originalRows) && previewRows == old(previewRows) && processedRows == old(processedRows)
    {
      if profile.None? { return; }
      var p := profile.value;
      var found := FindColumn(p.columns, columnKey);
      if found.None? { return; }
      var column := p.columns[found.value];
      profile := Some(p.(columns := p.columns[found.value := column.(rules := WithoutRule(column.rules, ruleId))]));
    }

    /**
     * `applyChanges`: without a profile nothing happens; otherwise the
     * processed rows are final mode over the original rows, and the preview
     * shows them with empty `_changes`.
     */
    method ApplyChanges()
      modifies this
      ensures profile == old(profile) && originalRows == old(originalRows)
      ensures old(profile).None? ==> previewRows == old(previewRows) && processedRows == old(processedRows)
      ensures old(profile).Some? ==>
        && |processedRows| == |originalRows|
        && (forall i :: 0 <= i < |originalRows| ==>
              processedRows[i] == FinalRow(originalRows[i], profile.value.columns, availableRules))
        && |previewRows| == |processedRows|
        && (forall i :: 0 <= i < |processedRows| ==> previewRows[i] == PreviewRow(processedRows[i], map[]))
    {
      if profile.None? { return; }
      processedRows := ApplyRulesToRows(originalRows, profile.value, availableRules);
      var preview: seq<PreviewRow> := [];
      for i := 0 to |processedRows|
        invariant |preview| == i
        invariant forall j :: 0 <= j < i ==> preview[j] == PreviewRow(processedRows[j], map[])
      {
        preview := preview + [PreviewRow(processedRows[i], map[])];
      }
      previewRows := preview;
    }

    /** `reset` */
    method Reset()
      modifies this
      ensures profile == None && originalRows == [] && previewRows == [] && processedRows == []
    {
      originalRows := [];
      previewRows := [];
      processedRows := [];
      profile := None;
    }

    /**
     * The watch on `originalRows` and `profile`: the preview is recomputed
     * when there are rows, a profile and some column with rules, and is
     * emptied otherwise.
     */
    method RecomputePreview()
      modifies this`previewRows
      ensures |originalRows| > 0 && profile.Some? && HasRules(profile.value) ==>
        && |previewRows| == |originalRows|
        && forall i :: 0 <= i < |originalRows| ==>
             previewRows[i] == PreviewRowOf(originalRows[i], profile.value.columns, availableRules)
      ensures !(|originalRows| > 0 && profile.Some? && HasRules(profile.value)) ==> previewRows == []
    {
      if |originalRows| > 0 && profile.Some? && HasRules(profile.value) {
        previewRows := ApplyRulesPreview(originalRows, profile.value, availableRules);
      } else {
        previewRows := [];
      }
    }
  }
}
