/** Fitting the items of a machine manifest into a token budget by shedding optional ones. */
module BudgetShedding {
  import opened Common
  import opened StringOrder

  datatype Item = Item(kind: string, source: string, priority: int, tokens: int, required: bool, prospective: bool)

  datatype Omission = Omission(kind: string, source: string, priority: int)

  datatype Fit = Fit(kept: seq<Item>, omissions: seq<Omission>, requiredTokens: int, optionalTokens: int)

  datatype BudgetError = OverBudget(requiredTokens: int, budget: int)

  predicate CountsAgainstBudget(item: Item) {
    !item.prospective
  }

  predicate Sheddable(item: Item) {
    !item.required && CountsAgainstBudget(item)
  }

  // ----- token totals -----

  function Weight(items: seq<Item>): int {
    if items == [] then 0
    else Weight(items[..|items| - 1]) + (if CountsAgainstBudget(items[|items| - 1]) then items[|items| - 1].tokens else 0)
  }

  function RequiredTokens(items: seq<Item>): int {
    if items == [] then 0
    else
      var item := items[|items| - 1];
      RequiredTokens(items[..|items| - 1]) + (if CountsAgainstBudget(item) && item.required then item.tokens else 0)
  }

  function OptionalTokens(items: seq<Item>): int {
    if items == [] then 0
    else
      var item := items[|items| - 1];
      OptionalTokens(items[..|items| - 1]) + (if CountsAgainstBudget(item) && !item.required then item.tokens else 0)
  }

  /** The items that are never shed: required ones, and prospective outputs, which carry write authority. */
  function Fixed(items: seq<Item>): seq<Item> {
    if items == [] then []
    else Fixed(items[..|items| - 1]) + (if Sheddable(items[|items| - 1]) then [] else [items[|items| - 1]])
  }

  lemma {:induction false} FixedMembers(items: seq<Item>, x: Item)
    ensures x in Fixed(items) <==> x in items && (x.required || x.prospective)
  {
    if items != [] {
      assert items == items[..|items| - 1] + [items[|items| - 1]];
      FixedMembers(items[..|items| - 1], x);
    }
  }

  lemma {:induction false} Append(a: seq<Item>, b: seq<Item>)
    ensures Weight(a + b) == Weight(a) + Weight(b)
    ensures RequiredTokens(a + b) == RequiredTokens(a) + RequiredTokens(b)
    ensures Fixed(a + b) == Fixed(a) + Fixed(b)
  {
    if b == [] {
      assert a + b == a;
    } else {
      var n := |b| - 1;
      Append(a, b[..n]);
      assert (a + b)[..|a + b| - 1] == a + b[..n];
    }
  }

  /** Every counted token is either required or optional; without optional items all are required. */
  lemma {:induction false} WeightSplits(items: seq<Item>)
    ensures Weight(items) == RequiredTokens(items) + OptionalTokens(items)
    ensures (forall j :: 0 <= j < |items| ==> !Sheddable(items[j])) ==> OptionalTokens(items) == 0
  {
    if items != [] {
      WeightSplits(items[..|items| - 1]);
    }
  }

  /** What removing one optional item changes. */
  lemma DropOne(items: seq<Item>, i: nat)
    requires i < |items| && Sheddable(items[i])
    ensures var rest := items[..i] + items[i + 1..];
            && Weight(rest) == Weight(items) - items[i].tokens
            && RequiredTokens(rest) == RequiredTokens(items) && Fixed(rest) == Fixed(items)
  {
    var a, x, b := items[..i], [items[i]], items[i + 1..];
    assert items == a + x + b;
    Append(a, x);
    Append(a + x, b);
    Append(a, b);
    assert x[..0] == [];
  }

  // ----- the order of shedding -----

  /** The first is less important than the second. */
  predicate LessImportant(a: Item, b: Item) {
    if a.priority != b.priority then a.priority > b.priority
    else if a.kind != b.kind then Less(b.kind, a.kind)
    else Less(b.source, a.source)
  }

  /** The higher number first, then the later kind, then the later source. */
  lemma LessImportantExactlyWhen(a: Item, b: Item)
    ensures LessImportant(a, b) <==>
            || a.priority > b.priority
            || (a.priority == b.priority && Less(b.kind, a.kind))
            || (a.priority == b.priority && a.kind == b.kind && Less(b.source, a.source))
  {
    LessTotal(a.kind, b.kind);
  }

  lemma LessImportantOrder(a: Item, b: Item)
    ensures !(LessImportant(a, b) && LessImportant(b, a))
  {
    LessTotal(a.kind, b.kind);
    LessTotal(a.source, b.source);
  }

  lemma LessImportantWeak(a: Item, b: Item, c: Item)
    requires LessImportant(a, b) && !LessImportant(c, b)
    ensures LessImportant(a, c)
  {
    LessTotal(b.kind, c.kind);
    LessTotal(b.source, c.source);
    LessTotal(a.kind, c.kind);
    if Less(b.kind, a.kind) && Less(c.kind, b.kind) {
      LessTransitive(c.kind, b.kind, a.kind);
    }
    if Less(b.source, a.source) && Less(c.source, b.source) {
      LessTransitive(c.source, b.source, a.source);
    }
  }

  /** Shedding order of two positions: less important first, then the earlier one. */
  predicate ShedsBefore(items: seq<Item>, i: nat, j: nat)
    requires i < |items| && j < |items|
  {
    LessImportant(items[i], items[j]) || (!LessImportant(items[j], items[i]) && i < j)
  }

  /** The position to shed next. */
  predicate IsLeast(items: seq<Item>, i: nat)
    requires i < |items|
  {
    Sheddable(items[i]) && forall j :: 0 <= j < |items| && j != i && Sheddable(items[j]) ==> ShedsBefore(items, i, j)
  }

  method LeastImportantOptional(items: seq<Item>) returns (best: int)
    ensures best == -1 || 0 <= best < |items|
    ensures best == -1 <==> forall j :: 0 <= j < |items| ==> !Sheddable(items[j])
    ensures best >= 0 ==> IsLeast(items, best)
  {
    best := -1;
    for i := 0 to |items|
      invariant best == -1 || 0 <= best < i
      invariant best == -1 <==> forall j :: 0 <= j < i ==> !Sheddable(items[j])
      invariant best >= 0 ==> IsLeast(items[..i], best)
    {
      var item := items[i];
      ghost var before := best;
      if Sheddable(item) {
        if best < 0 {
          best := i;
        } else {
          var b := items[best];
          if item.priority != b.priority {
            if item.priority > b.priority {
              best := i;
            }
          } else if item.kind != b.kind {
            if Less(b.kind, item.kind) {
              best := i;
            }
          } else if Less(b.source, item.source) {
            best := i;
          }
          LeastExtends(items, i, before, best);
        }
      }
      assert items[..i + 1] == items[..i] + [item];
    }
    assert items[..|items|] == items;
  }

  lemma LeastExtends(items: seq<Item>, i: nat, before: nat, after: nat)
    requires before < i < |items| && IsLeast(items[..i], before) && Sheddable(items[i])
    requires after == if LessImportant(items[i], items[before]) then i else before
    ensures IsLeast(items[..i + 1], after)
  {
    LessImportantOrder(items[i], items[before]);
    forall j | 0 <= j < i + 1 && j != after && Sheddable(items[j]) ensures ShedsBefore(items[..i + 1], after, j) {
      if j < i && j != before {
        assert ShedsBefore(items[..i], before, j);
        LessImportantOrder(items[before], items[j]);
        if after == i {
          LessImportantWeak(items[i], items[before], items[j]);
        }
      }
    }
  }

  // ----- which positions stay -----

  /** The positions below `n` that are not gone, in order. */
  function Stay(n: nat, gone: set<nat>): (r: seq<nat>)
    ensures forall i: nat :: i in r <==> i < n && i !in gone
    ensures Rising(r)
  {
    if n == 0 then []
    else
      var s := Stay(n - 1, gone);
      assert forall a :: 0 <= a < |s| ==> s[a] in s;
      if n - 1 in gone then s else s + [n - 1]
  }

  function Pick(items: seq<Item>, at: seq<nat>): (r: seq<Item>)
    requires forall k :: 0 <= k < |at| ==> at[k] < |items|
    ensures |r| == |at| && forall k :: 0 <= k < |at| ==> r[k] == items[at[k]]
  {
    seq(|at|, k requires 0 <= k < |at| => items[at[k]])
  }

  function Without(items: seq<Item>, gone: set<nat>): seq<Item> {
    var at := Stay(|items|, gone);
    assert forall k :: 0 <= k < |at| ==> at[k] in at;
    Pick(items, at)
  }

  lemma {:induction false} AscendingUnique(a: seq<nat>, b: seq<nat>)
    requires Rising(a) && Rising(b) && forall x :: x in a <==> x in b
    ensures a == b
  {
    assert a != [] ==> a[|a| - 1] in b;
    assert b != [] ==> b[|b| - 1] in a;
    if a != [] && b != [] {
      var m, n := |a| - 1, |b| - 1;
      assert a[m] == b[n];
      forall x ensures x in a[..m] <==> x in b[..n] {
        assert x in a[..m] ==> x in a && x != a[m];
        assert x in b[..n] ==> x in b && x != b[n];
        assert a == a[..m] + [a[m]] && b == b[..n] + [b[n]];
      }
      AscendingUnique(a[..m], b[..n]);
    }
  }

  lemma CutMember(at: seq<nat>, k: nat, x: nat)
    requires k < |at| && Rising(at)
    ensures x in at[..k] + at[k + 1..] <==> x in at && x != at[k]
  {
  }

  predicate Rising(at: seq<nat>) {
    forall a, b :: 0 <= a < b < |at| ==> at[a] < at[b]
  }

  lemma CutRises(at: seq<nat>, k: nat)
    requires Rising(at) && k < |at|
    ensures Rising(at[..k] + at[k + 1..])
  {
  }

  /** Cutting one position out of the list of those that stay. */
  lemma CutOne(n: nat, gone: set<nat>, k: nat)
    requires k < |Stay(n, gone)|
    ensures Stay(n, gone + {Stay(n, gone)[k]}) == Stay(n, gone)[..k] + Stay(n, gone)[k + 1..]
  {
    var at := Stay(n, gone);
    var x := at[k];
    CutRises(at, k);
    forall y: nat ensures y in at[..k] + at[k + 1..] <==> y in Stay(n, gone + {x}) {
      CutMember(at, k, y);
    }
    AscendingUnique(Stay(n, gone + {x}), at[..k] + at[k + 1..]);
  }

  function Gone(drops: seq<nat>): set<nat> {
    set i | i in drops
  }

  // ----- shedding -----

  /** What is left once these positions are shed is still too much. */
  predicate Over(items: seq<Item>, budget: int, shed: seq<nat>) {
    Weight(Without(items, Gone(shed))) > budget
  }

  /** Nothing is shed without a budget, and nothing once the rest fits. */
  predicate NoMoreThanNeeded(items: seq<Item>, budget: int, drops: seq<nat>) {
    (budget <= 0 ==> drops == []) && forall k :: 0 <= k < |drops| ==> Over(items, budget, drops[..k])
  }

  /** The positions are shed one after another, each the least important of those left, until the rest
      fits and no further. */
  ghost predicate ShedPlan(items: seq<Item>, budget: int, drops: seq<nat>) {
    && Sheds(items, drops) && NoMoreThanNeeded(items, budget, drops)
    && (budget > 0 ==> !Over(items, budget, drops))
  }

  ghost predicate Sheds(items: seq<Item>, drops: seq<nat>) {
    && (forall a :: 0 <= a < |drops| ==> drops[a] < |items| && Sheddable(items[drops[a]]))
    && (forall a :: 0 <= a < |drops| ==> First(items, drops, a))
  }

  /** A drop is ahead of every sheddable position not dropped before it. */
  ghost predicate First(items: seq<Item>, drops: seq<nat>, a: nat)
    requires a < |drops| && drops[a] < |items|
  {
    && drops[a] !in drops[..a]
    && forall j: nat :: j < |items| && Sheddable(items[j]) && j !in drops[..a] && j != drops[a] ==>
         ShedsBefore(items, drops[a], j)
  }

  function Described(items: seq<Item>, drops: seq<nat>): (r: seq<Omission>)
    requires forall a :: 0 <= a < |drops| ==> drops[a] < |items|
    ensures |r| == |drops|
  {
    seq(|drops|, a requires 0 <= a < |drops| =>
      Omission(items[drops[a]].kind, items[drops[a]].source, items[drops[a]].priority))
  }

  /** A plan that starts with a whole plan ends with it. */
  lemma StopsTogether(items: seq<Item>, budget: int, d: seq<nat>, e: seq<nat>)
    requires NoMoreThanNeeded(items, budget, e) && (budget > 0 ==> !Over(items, budget, d))
    requires |d| <= |e| && d == e[..|d|]
    ensures d == e
  {
    assert e[..|e|] == e;
  }

  /** The input decides which positions are shed, and in which order. */
  lemma {:induction false} ShedPlanIsUnique(items: seq<Item>, budget: int, d: seq<nat>, e: seq<nat>, k: nat)
    requires ShedPlan(items, budget, d) && ShedPlan(items, budget, e)
    requires k <= |d| && k <= |e| && d[..k] == e[..k]
    ensures d == e
    decreases |d| - k
  {
    assert d[..|d|] == d && e[..|e|] == e;
    if k == |d| {
      StopsTogether(items, budget, d, e);
    } else if k == |e| {
      StopsTogether(items, budget, e, d);
    } else {
      SameNext(items, d, e, k);
      OneFurther(d, e, k);
      ShedPlanIsUnique(items, budget, d, e, k + 1);
    }
  }

  lemma OneFurther(d: seq<nat>, e: seq<nat>, k: nat)
    requires k < |d| && k < |e| && d[..k] == e[..k] && d[k] == e[k]
    ensures d[..k + 1] == e[..k + 1]
  {
    assert d[..k + 1] == d[..k] + [d[k]] && e[..k + 1] == e[..k] + [e[k]];
  }

  lemma SameNext(items: seq<Item>, d: seq<nat>, e: seq<nat>, k: nat)
    requires Sheds(items, d) && Sheds(items, e) && k < |d| && k < |e| && d[..k] == e[..k]
    ensures d[k] == e[k]
  {
    assert First(items, d, k) && First(items, e, k);
    LessImportantOrder(items[d[k]], items[e[k]]);
  }

  lemma ShedsExtend(items: seq<Item>, drops: seq<nat>, i: nat)
    requires Sheds(items, drops) && i < |items| && Sheddable(items[i]) && i !in drops
    requires forall j: nat :: j < |items| && Sheddable(items[j]) && j !in drops && j != i ==> ShedsBefore(items, i, j)
    ensures Sheds(items, drops + [i])
  {
    var more := drops + [i];
    forall a | 0 <= a < |more| ensures more[a] < |items| && Sheddable(items[more[a]]) && First(items, more, a) {
      if a < |drops| {
        assert First(items, drops, a);
        assert more[..a] == drops[..a];
      } else {
        assert more[..a] == drops;
      }
    }
  }

  /** What one more drop leaves. */
  lemma WithoutOneMore(items: seq<Item>, drops: seq<nat>, idx: nat)
    requires idx < |Stay(|items|, Gone(drops))|
    ensures var kept := Without(items, Gone(drops)); var i := Stay(|items|, Gone(drops))[idx];
            && i < |items| && |kept| == |Stay(|items|, Gone(drops))| && items[i] == kept[idx]
            && Without(items, Gone(drops + [i])) == kept[..idx] + kept[idx + 1..]
  {
    var at := Stay(|items|, Gone(drops));
    assert at[idx] in at;
    assert Gone(drops + [at[idx]]) == Gone(drops) + {at[idx]};
    CutOne(|items|, Gone(drops), idx);
  }

  /** Shedding at the least important position of what is left. */
  lemma ShedNext(items: seq<Item>, drops: seq<nat>, idx: nat)
    requires Sheds(items, drops)
    requires idx < |Without(items, Gone(drops))| && IsLeast(Without(items, Gone(drops)), idx)
    ensures var i := Stay(|items|, Gone(drops))[idx]; i < |items| && Sheds(items, drops + [i])
  {
    WithoutOneMore(items, drops, idx);
    LeastIsFirst(items, drops, idx);
    ShedsExtend(items, drops, Stay(|items|, Gone(drops))[idx]);
  }

  lemma LeastIsFirst(items: seq<Item>, drops: seq<nat>, idx: nat)
    requires idx < |Without(items, Gone(drops))| && IsLeast(Without(items, Gone(drops)), idx)
    ensures var i := Stay(|items|, Gone(drops))[idx];
            && i < |items| && i !in drops
            && forall j: nat :: j < |items| && Sheddable(items[j]) && j !in drops && j != i ==> ShedsBefore(items, i, j)
  {
    var at := Stay(|items|, Gone(drops));
    var kept := Without(items, Gone(drops));
    var i := at[idx];
    assert i in at;
    forall j: nat | j < |items| && Sheddable(items[j]) && j !in drops && j != i ensures ShedsBefore(items, i, j) {
      assert j in at;
      var m :| 0 <= m < |at| && at[m] == j;
      assert kept[m] == items[j];
      assert ShedsBefore(kept, idx, m);
    }
  }

  method Totals(items: seq<Item>) returns (total: int, requiredTokens: int)
    ensures total == Weight(items) && requiredTokens == RequiredTokens(items)
  {
    total, requiredTokens := 0, 0;
    for i := 0 to |items|
      invariant total == Weight(items[..i]) && requiredTokens == RequiredTokens(items[..i])
    {
      var item := items[i];
      assert items[..i + 1][..i] == items[..i];
      if CountsAgainstBudget(item) {
        total := total + item.tokens;
        if item.required {
          requiredTokens := requiredTokens + item.tokens;
        }
      }
    }
    assert items[..|items|] == items;
  }

  method OptionalTotal(kept: seq<Item>) returns (optionalTokens: int)
    ensures optionalTokens == OptionalTokens(kept)
  {
    optionalTokens := 0;
    for i := 0 to |kept|
      invariant optionalTokens == OptionalTokens(kept[..i])
    {
      assert kept[..i + 1][..i] == kept[..i];
      if !kept[i].required && CountsAgainstBudget(kept[i]) {
        optionalTokens := optionalTokens + kept[i].tokens;
      }
    }
    assert kept[..|kept|] == kept;
  }

  /** What holds between two drops. */
  ghost predicate Shedding(items: seq<Item>, budget: int, drops: seq<nat>, kept: seq<Item>) {
    && Sheds(items, drops) && NoMoreThanNeeded(items, budget, drops) && kept == Without(items, Gone(drops))
    && RequiredTokens(kept) == RequiredTokens(items) && Fixed(kept) == Fixed(items)
  }

  lemma NeededOneMore(items: seq<Item>, budget: int, drops: seq<nat>, i: nat)
    requires budget > 0 && NoMoreThanNeeded(items, budget, drops) && Over(items, budget, drops)
    ensures NoMoreThanNeeded(items, budget, drops + [i])
  {
    var more := drops + [i];
    forall k | 0 <= k < |more| ensures Over(items, budget, more[..k]) {
      assert more[..k] == drops[..k];
      assert drops[..|drops|] == drops;
    }
  }

  lemma ShedStep(items: seq<Item>, budget: int, drops: seq<nat>, kept: seq<Item>, idx: nat)
    requires Shedding(items, budget, drops, kept) && 0 < budget < Weight(kept)
    requires idx < |kept| && IsLeast(kept, idx)
    ensures var i := Stay(|items|, Gone(drops))[idx]; var rest := kept[..idx] + kept[idx + 1..];
            && i < |items| && items[i] == kept[idx] && Shedding(items, budget, drops + [i], rest)
            && Weight(rest) == Weight(kept) - kept[idx].tokens
  {
    WithoutOneMore(items, drops, idx);
    ShedNext(items, drops, idx);
    DropOne(kept, idx);
    NeededOneMore(items, budget, drops, Stay(|items|, Gone(drops))[idx]);
  }

  lemma DescribeOne(items: seq<Item>, drops: seq<nat>, i: nat)
    requires Sheds(items, drops) && i < |items|
    ensures forall a :: 0 <= a < |drops| ==> drops[a] < |items|
    ensures Described(items, drops + [i]) ==
            Described(items, drops) + [Omission(items[i].kind, items[i].source, items[i].priority)]
  {
  }

  /** The shedding loop: ends because required items alone fit. */
  method ShedUntilFits(items: seq<Item>, budget: int) returns (kept: seq<Item>, omissions: seq<Omission>, ghost drops: seq<nat>)
    requires budget > 0 ==> RequiredTokens(items) <= budget
    ensures Shedding(items, budget, drops, kept) && (budget > 0 ==> Weight(kept) <= budget)
    ensures omissions == Described(items, drops)
  {
    var total, _ := Totals(items);
    kept, omissions, drops := items, [], [];
    NothingGone(items);
    while budget > 0 && total > budget
      invariant Shedding(items, budget, drops, kept) && total == Weight(kept)
      invariant omissions == Described(items, drops)
      decreases |kept|
    {
      var idx := LeastImportantOptional(kept);
      if idx < 0 {
        WeightSplits(kept);
        assert false;
        break;
      }
      var dropped := kept[idx];
      ghost var i := Stay(|items|, Gone(drops))[idx];
      ShedStep(items, budget, drops, kept, idx);
      DescribeOne(items, drops, i);
      total := total - dropped.tokens;
      omissions := omissions + [Omission(dropped.kind, dropped.source, dropped.priority)];
      drops := drops + [i];
      kept := kept[..idx] + kept[idx + 1..];
    }
  }

  /** Refuses exactly when the required items alone are over budget. Otherwise the rest of the items
      fits, what was shed is the one shedding plan of the input, and every required token, required
      item and prospective output is kept. */
  method EnforceMachineBudget(items: seq<Item>, budget: int)
    returns (r: Result<Fit, BudgetError>, ghost drops: seq<nat>)
    ensures r.Err? <==> budget > 0 && RequiredTokens(items) > budget
    ensures r.Err? ==> r.error == OverBudget(RequiredTokens(items), budget)
    ensures r.Ok? ==> ShedPlan(items, budget, drops)
    ensures r.Ok? ==> r.value.kept == Without(items, Gone(drops)) && r.value.omissions == Described(items, drops)
    ensures r.Ok? ==> r.value.requiredTokens == RequiredTokens(r.value.kept) == RequiredTokens(items)
    ensures r.Ok? ==> Weight(r.value.kept) == r.value.requiredTokens + r.value.optionalTokens
    ensures r.Ok? ==> Fixed(r.value.kept) == Fixed(items)
    ensures r.Ok? && budget > 0 ==> Weight(r.value.kept) <= budget
    ensures r.Ok? && (budget <= 0 || Weight(items) <= budget) ==> r.value.kept == items && r.value.omissions == []
  {
    var _, requiredTokens := Totals(items);
    drops := [];
    if budget > 0 && requiredTokens > budget {
      return Err(OverBudget(requiredTokens, budget)), drops;
    }
    var kept, omissions;
    kept, omissions, drops := ShedUntilFits(items, budget);
    var optionalTokens := OptionalTotal(kept);
    WeightSplits(kept);
    if budget <= 0 || Weight(items) <= budget {
      FittingIsUntouched(items, budget, drops);
    }
    return Ok(Fit(kept, omissions, requiredTokens, optionalTokens)), drops;
  }

  lemma {:induction false} AllStay(n: nat)
    ensures |Stay(n, {})| == n && forall i :: 0 <= i < n ==> Stay(n, {})[i] == i
  {
    if n > 0 {
      AllStay(n - 1);
    }
  }

  /** What fits as it is loses nothing. */
  lemma FittingIsUntouched(items: seq<Item>, budget: int, drops: seq<nat>)
    requires NoMoreThanNeeded(items, budget, drops) && (budget <= 0 || Weight(items) <= budget)
    ensures drops == [] && Without(items, Gone(drops)) == items
  {
    NothingGone(items);
    assert drops[..0] == [];
  }

  lemma NothingGone(items: seq<Item>)
    ensures Without(items, Gone([])) == items
  {
    assert Gone([]) == {};
    AllStay(|items|);
  }
}
