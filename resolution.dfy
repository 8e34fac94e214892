/**
 * The resolution step both engine modes share: each binding of a column
 * is looked up in the catalog by `ruleId`, bindings whose id the catalog
 * lacks are dropped, and the rest are stably sorted by `order`
 * (`Array.prototype.sort` is stable).
 */
module Resolution {
  import opened Wrappers
  import opened Types

  /** A catalog rule together with the `order` of the binding that named it. */
  datatype ResolvedRule = ResolvedRule(rule: Rule, order: real)

  /** Index of the first catalog rule with this id, or `|catalog|`. */
  function FirstIndex(catalog: seq<Rule>, id: int): (i: nat)
    ensures i <= |catalog|
    ensures i < |catalog| ==> catalog[i].id == id
    ensures forall j :: 0 <= j < i ==> catalog[j].id != id
  {
    if catalog == [] then 0
    else if catalog[0].id == id then 0
    else 1 + FirstIndex(catalog[1..], id)
  }

  /** `allRules.find(a => a.id === id)` */
  function FindRule(catalog: seq<Rule>, id: int): (r: Option<Rule>)
    ensures r.None? <==> forall j :: 0 <= j < |catalog| ==> catalog[j].id != id
    ensures r.Some? ==> r.value.id == id
  {
    var i := FirstIndex(catalog, id);
    if i < |catalog| then Some(catalog[i]) else None
  }

  /** A rule whose id no earlier rule has is the one `find` returns for that id. */
  lemma {:induction false} FindRuleAt(catalog: seq<Rule>, i: nat)
    requires i < |catalog|
    requires forall j :: 0 <= j < i ==> catalog[j].id != catalog[i].id
    ensures FindRule(catalog, catalog[i].id) == Some(catalog[i])
  {
    var k := FirstIndex(catalog, catalog[i].id);
    assert k <= i;
  }

  /** The orders a binding list uses. */
  function Orders(bindings: seq<Binding>): (os: set<real>)
    ensures forall j :: 0 <= j < |bindings| ==> bindings[j].order in os
  {
    set j | 0 <= j < |bindings| :: bindings[j].order
  }

  /** The `map` and `filter` of the resolution: dangling bindings vanish. */
  function Lookup(bindings: seq<Binding>, catalog: seq<Rule>): (r: seq<ResolvedRule>)
    ensures |r| <= |bindings|
    ensures forall i :: 0 <= i < |r| ==> r[i].order in Orders(bindings)
  {
    if bindings == [] then []
    else
      var init, last := bindings[..|bindings| - 1], bindings[|bindings| - 1];
      assert Orders(init) <= Orders(bindings) by {
        forall o | o in Orders(init) ensures o in Orders(bindings) {
          var j :| 0 <= j < |init| && init[j].order == o;
          assert bindings[j].order == o;
        }
      }
      Lookup(init, catalog) + LookupOne(last, catalog)
  }

  /**
   * One binding's `map` and `filter`: nothing when the catalog lacks its id,
   * otherwise a catalog rule with that id carrying the binding's order.
   */
  function LookupOne(b: Binding, catalog: seq<Rule>): (r: seq<ResolvedRule>)
    ensures |r| <= 1
    ensures r == [] <==> forall j :: 0 <= j < |catalog| ==> catalog[j].id != b.ruleId
    ensures r != [] ==> r[0].rule.id == b.ruleId && r[0].order == b.order && r[0].rule in catalog
  {
    match FindRule(catalog, b.ruleId)
    case None => []
    case Some(rule) => [ResolvedRule(rule, b.order)]
  }

  /** Looking up a concatenation looks up the parts. */
  lemma {:induction false} LookupAppend(a: seq<Binding>, b: seq<Binding>, catalog: seq<Rule>)
    ensures Lookup(a + b, catalog) == Lookup(a, catalog) + Lookup(b, catalog)
    decreases |b|
  {
    if b == [] {
      assert a + b == a;
    } else {
      var b', x := b[..|b| - 1], b[|b| - 1];
      assert (a + b)[..|a + b| - 1] == a + b';
      LookupAppend(a, b', catalog);
    }
  }

  ghost predicate SortedByOrder(s: seq<ResolvedRule>)
  {
    forall i, j :: 0 <= i < j < |s| ==> s[i].order <= s[j].order
  }

  /** The subsequence of the entries with the given order. */
  function WithOrder(s: seq<ResolvedRule>, o: real): seq<ResolvedRule>
  {
    if s == [] then []
    else WithOrder(s[..|s| - 1], o) + (if s[|s| - 1].order == o then [s[|s| - 1]] else [])
  }

  lemma {:induction false} WithOrderAppend(a: seq<ResolvedRule>, b: seq<ResolvedRule>, o: real)
    ensures WithOrder(a + b, o) == WithOrder(a, o) + WithOrder(b, o)
    decreases |b|
  {
    if b == [] {
      assert a + b == a;
    } else {
      assert (a + b)[..|a + b| - 1] == a + b[..|b| - 1];
      WithOrderAppend(a, b[..|b| - 1], o);
    }
  }

  lemma {:induction false} WithOrderNonEmpty(s: seq<ResolvedRule>, o: real)
    ensures WithOrder(s, o) != [] <==> exists i :: 0 <= i < |s| && s[i].order == o
    decreases |s|
  {
    if s != [] {
      WithOrderNonEmpty(s[..|s| - 1], o);
      assert forall i :: 0 <= i < |s| - 1 ==> s[..|s| - 1][i] == s[i];
    }
  }

  /**
   * Inserts `x` into a sorted sequence after every entry whose order is not
   * greater, so that among equal orders the later-listed entry comes last.
   */
  function Insert(s: seq<ResolvedRule>, x: ResolvedRule): (r: seq<ResolvedRule>)
    requires SortedByOrder(s)
    ensures |r| == |s| + 1 && SortedByOrder(r)
    ensures r[|r| - 1].order == x.order || (s != [] && r[|r| - 1].order == s[|s| - 1].order)
    ensures forall o :: WithOrder(r, o) == WithOrder(s + [x], o)
    decreases |s|
  {
    if s == [] || s[|s| - 1].order <= x.order then s + [x]
    else
      var init, last := s[..|s| - 1], s[|s| - 1];
      var r := Insert(init, x) + [last];
      assert r[..|r| - 1] == Insert(init, x);
      assert (s + [x])[..|s|] == s && s[..|s| - 1] == init;
      assert (init + [x])[..|init|] == init;
      r
  }

  /**
   * The stable sort by `order`: the result is sorted, and for every order
   * value it lists the entries with that order exactly as the input does.
   */
  function SortByOrder(s: seq<ResolvedRule>): (r: seq<ResolvedRule>)
    ensures |r| == |s| && SortedByOrder(r)
    ensures forall o :: WithOrder(r, o) == WithOrder(s, o)
    decreases |s|
  {
    if s == [] then []
    else
      var r := Insert(SortByOrder(s[..|s| - 1]), s[|s| - 1]);
      assert forall o :: WithOrder(SortByOrder(s[..|s| - 1]) + [s[|s| - 1]], o) == WithOrder(s, o) by {
        forall o ensures WithOrder(SortByOrder(s[..|s| - 1]) + [s[|s| - 1]], o) == WithOrder(s, o) {
          var p := SortByOrder(s[..|s| - 1]) + [s[|s| - 1]];
          assert p[..|p| - 1] == SortByOrder(s[..|s| - 1]);
        }
      }
      r
  }

  /**
   * The pipeline of one column: lookup, drop dangling ids, stable sort. It
   * runs in ascending order, and rules of equal order keep the order of
   * their bindings.
   */
  function Resolve(bindings: seq<Binding>, catalog: seq<Rule>): (r: seq<ResolvedRule>)
    ensures |r| == |Lookup(bindings, catalog)| && SortedByOrder(r)
    ensures forall o :: WithOrder(r, o) == WithOrder(Lookup(bindings, catalog), o)
  {
    SortByOrder(Lookup(bindings, catalog))
  }

  lemma {:induction false} LookupDangling(b: Binding, catalog: seq<Rule>)
    requires FindRule(catalog, b.ruleId).None?
    ensures Lookup([b], catalog) == []
  {
    assert [b][..0] == [];
  }

  lemma {:induction false} LookupSkipsDangling(pre: seq<Binding>, b: Binding, post: seq<Binding>, catalog: seq<Rule>)
    requires FindRule(catalog, b.ruleId).None?
    ensures Lookup(pre + [b] + post, catalog) == Lookup(pre + post, catalog)
  {
    LookupDangling(b, catalog);
    LookupAppend(pre + [b], post, catalog);
    LookupAppend(pre, [b], catalog);
    LookupAppend(pre, post, catalog);
  }

  /** A binding whose id the catalog lacks has no effect on the pipeline. */
  lemma {:induction false} DanglingBindingIgnored(pre: seq<Binding>, b: Binding, post: seq<Binding>, catalog: seq<Rule>)
    requires forall j :: 0 <= j < |catalog| ==> catalog[j].id != b.ruleId
    ensures Resolve(pre + [b] + post, catalog) == Resolve(pre + post, catalog)
  {
    LookupSkipsDangling(pre, b, post, catalog);
  }

  /** Nothing resolves from an empty binding list. */
  lemma {:induction false} NoBindingsNoPipeline(catalog: seq<Rule>)
    ensures Resolve([], catalog) == []
  {
  }

  /** Sorting a sequence extended by an entry of greater order puts it last. */
  lemma {:induction false} SortAppendGreatest(s: seq<ResolvedRule>, x: ResolvedRule)
    requires forall i :: 0 <= i < |s| ==> s[i].order < x.order
    ensures SortByOrder(s + [x]) == SortByOrder(s) + [x]
  {
    var t := s + [x];
    assert t[..|t| - 1] == s;
    var sorted := SortByOrder(s);
    if sorted != [] {
      var o := sorted[|sorted| - 1].order;
      WithOrderNonEmpty(sorted, o);
      WithOrderNonEmpty(s, o);
    }
  }

  /**
   * A binding that resolves and whose order exceeds every other order in the
   * column runs last: the pipeline is the old one followed by its rule.
   */
  lemma {:induction false} AppendGreatestRunsLast(bindings: seq<Binding>, b: Binding, catalog: seq<Rule>, rule: Rule)
    requires FindRule(catalog, b.ruleId) == Some(rule)
    requires forall j :: 0 <= j < |bindings| ==> bindings[j].order < b.order
    ensures Resolve(bindings + [b], catalog) == Resolve(bindings, catalog) + [ResolvedRule(rule, b.order)]
  {
    var t := bindings + [b];
    assert t[..|t| - 1] == bindings;
    assert Lookup(t, catalog) == Lookup(bindings, catalog) + [ResolvedRule(rule, b.order)];
    SortAppendGreatest(Lookup(bindings, catalog), ResolvedRule(rule, b.order));
  }

  /** Bindings listed in strictly increasing order run in list order: sorting changes nothing. */
  lemma {:induction false} IncreasingOrdersRunInListOrder(bindings: seq<Binding>, catalog: seq<Rule>)
    requires forall i, j :: 0 <= i < j < |bindings| ==> bindings[i].order < bindings[j].order
    ensures Resolve(bindings, catalog) == Lookup(bindings, catalog)
    decreases |bindings|
  {
    if bindings != [] {
      var init, last := bindings[..|bindings| - 1], bindings[|bindings| - 1];
      assert init + [last] == bindings;
      assert forall i :: 0 <= i < |init| ==> init[i] == bindings[i];
      IncreasingOrdersRunInListOrder(init, catalog);
      match FindRule(catalog, last.ruleId)
      case None =>
        DanglingBindingIgnored(init, last, [], catalog);
        assert init + [last] + [] == bindings && init + [] == init;
        LookupDangling(last, catalog);
        LookupAppend(init, [last], catalog);
      case Some(rule) =>
        AppendGreatestRunsLast(init, last, catalog, rule);
    }
  }

  /** Two found bindings in increasing order run in that order. */
  lemma {:induction false} TwoBindingsRunInOrder(b1: Binding, b2: Binding, catalog: seq<Rule>, r1: Rule, r2: Rule)
    requires FindRule(catalog, b1.ruleId) == Some(r1) && FindRule(catalog, b2.ruleId) == Some(r2)
    requires b1.order < b2.order
    ensures Resolve([b1, b2], catalog) == [ResolvedRule(r1, b1.order), ResolvedRule(r2, b2.order)]
  {
    var bindings := [b1, b2];
    assert bindings[..1] == [b1] && [b1][..0] == [];
    IncreasingOrdersRunInListOrder(bindings, catalog);
  }
}
