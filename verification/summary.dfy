/** The dashboard's derived figures: the financial summary, the per-category
    expense totals and the budget-health classification built on them. */
module Summary {
  import opened Optional
  import opened Seqs
  import opened Types

  function Amount(t: Transaction): real {
    t.amount
  }

  predicate IsIncome(t: Transaction) {
    t.kind == Income
  }

  predicate IsExpense(t: Transaction) {
    t.kind == Expense
  }

  /** What a transaction does to the balance: income adds, anything else
      subtracts. */
  function Signed(t: Transaction): real {
    if t.kind == Income then t.amount else -t.amount
  }

  /** The five categories counted as fixed (essential, recurring) spending. */
  const FixedCategories: seq<Category> := [Vivienda, Servicios, Diezmos, Transporte, Transferencias]

  predicate IsFixedExpense(t: Transaction) {
    t.kind == Expense && t.category in FixedCategories
  }

  predicate NonNegativeAmounts(ts: seq<Transaction>) {
    forall i :: 0 <= i < |ts| ==> ts[i].amount >= 0.0
  }

  datatype FinancialSummary = FinancialSummary(
    totalIncome: real,
    totalExpense: real,
    netSavings: real,
    fixedExpenses: real)

  function TotalIncome(ts: seq<Transaction>): real {
    SumOf(Filter(ts, IsIncome), Amount)
  }

  function TotalExpense(ts: seq<Transaction>): real {
    SumOf(Filter(ts, IsExpense), Amount)
  }

  function FixedExpenses(ts: seq<Transaction>): real {
    SumOf(Filter(ts, IsFixedExpense), Amount)
  }

  /** Income minus expense is the signed sum of the list. */
  lemma {:induction false} IncomeMinusExpense(ts: seq<Transaction>)
    ensures TotalIncome(ts) - TotalExpense(ts) == SumOf(ts, Signed)
    decreases |ts|
  {
    if ts != [] {
      IncomeMinusExpense(ts[1..]);
    }
  }

  /** With no negative amounts, fixed spending is part of all spending. */
  lemma {:induction false} FixedWithinExpense(ts: seq<Transaction>)
    ensures NonNegativeAmounts(ts) ==> 0.0 <= FixedExpenses(ts) <= TotalExpense(ts)
    decreases |ts|
  {
    if ts != [] {
      FixedWithinExpense(ts[1..]);
      assert NonNegativeAmounts(ts) ==> NonNegativeAmounts(ts[1..]);
    }
  }

  /** The summary card figures for the shown transactions. */
  function Summarize(ts: seq<Transaction>): (s: FinancialSummary)
    ensures s.netSavings == SumOf(ts, Signed)
    ensures s.totalIncome == TotalIncome(ts) && s.totalExpense == TotalExpense(ts)
    ensures s.fixedExpenses == FixedExpenses(ts)
    ensures NonNegativeAmounts(ts) ==> 0.0 <= s.fixedExpenses <= s.totalExpense
  {
    IncomeMinusExpense(ts);
    FixedWithinExpense(ts);
    var income := TotalIncome(ts);
    var expense := TotalExpense(ts);
    FinancialSummary(income, expense, income - expense, FixedExpenses(ts))
  }

  // ---- Per-category expense totals ----

  datatype CategoryTotal = CategoryTotal(category: Category, total: real)

  function CategoryOf(e: CategoryTotal): Category {
    e.category
  }

  function TotalOf(e: CategoryTotal): real {
    e.total
  }

  /** Sum of the amounts of the transactions of `es` in category `c`. */
  function CategorySum(es: seq<Transaction>, c: Category): real
    decreases |es|
  {
    if es == [] then 0.0
    else CategorySum(es[..|es| - 1], c) + (if es[|es| - 1].category == c then es[|es| - 1].amount else 0.0)
  }

  /** Position of category `c`'s entry in `acc`, or -1 when it has none. */
  function FindCategory(acc: seq<CategoryTotal>, c: Category): (k: int)
    ensures -1 <= k < |acc|
    ensures k == -1 ==> forall i :: 0 <= i < |acc| ==> acc[i].category != c
    ensures k >= 0 ==> acc[k].category == c && forall i :: 0 <= i < k ==> acc[i].category != c
    decreases |acc|
  {
    if acc == [] then -1
    else if acc[0].category == c then 0
    else
      var k := FindCategory(acc[1..], c);
      if k == -1 then -1 else k + 1
  }

  /** `acc[c] = (acc[c] || 0) + x` on a record whose keys keep insertion
      order: a new key goes last. */
  function AddTo(acc: seq<CategoryTotal>, c: Category, x: real): seq<CategoryTotal> {
    var k := FindCategory(acc, c);
    if k == -1 then acc + [CategoryTotal(c, x)]
    else acc[k := CategoryTotal(c, acc[k].total + x)]
  }

  /** Whether some entry of `r` is for category `c`. */
  predicate Lists(r: seq<CategoryTotal>, c: Category) {
    exists i :: 0 <= i < |r| && r[i].category == c
  }

  /** Whether some transaction of `es` is in category `c`. */
  predicate Occurs(es: seq<Transaction>, c: Category) {
    exists k :: 0 <= k < |es| && es[k].category == c
  }

  /** Entries of `r` come in the order their categories first occur in `es`:
      wherever an entry's category occurs, every earlier entry's category has
      already occurred. */
  predicate FirstSeenOrder(r: seq<CategoryTotal>, es: seq<Transaction>) {
    forall i, j, k :: 0 <= i < j < |r| && 0 <= k < |es| && es[k].category == r[j].category
      ==> Occurs(es[..k], r[i].category)
  }

  /** Groups `es` by category in first-seen order, summing the amounts:
      one entry per category that occurs, holding that category's sum. */
  function GroupTotals(es: seq<Transaction>): (r: seq<CategoryTotal>)
    ensures DistinctBy(r, CategoryOf)
    ensures FirstSeenOrder(r, es)
    ensures forall c :: Lists(r, c) <==> Occurs(es, c)
    ensures forall i :: 0 <= i < |r| ==> r[i].total == CategorySum(es, r[i].category)
    ensures SumOf(r, TotalOf) == SumOf(es, Amount)
    decreases |es|
  {
    if es == [] then []
    else
      var init := es[..|es| - 1];
      var t := es[|es| - 1];
      var acc := GroupTotals(init);
      var r := AddTo(acc, t.category, t.amount);
      assert es == init + [t];
      SumOfAppend(init, [t], Amount);
      GroupStep(init, t, acc, r);
      r
  }

  lemma OccursSnoc(init: seq<Transaction>, t: Transaction, c: Category)
    ensures Occurs(init + [t], c) <==> Occurs(init, c) || t.category == c
  {
    var es := init + [t];
    if Occurs(es, c) {
      var k :| 0 <= k < |es| && es[k].category == c;
      if k < |init| { assert init[k] == es[k]; }
    }
    if Occurs(init, c) {
      var k :| 0 <= k < |init| && init[k].category == c;
      assert es[k] == init[k];
    }
    if t.category == c { assert es[|init|] == t; }
  }

  lemma CategorySumSnoc(init: seq<Transaction>, t: Transaction, c: Category)
    ensures CategorySum(init + [t], c) == CategorySum(init, c) + (if t.category == c then t.amount else 0.0)
  {
    assert (init + [t])[..|init|] == init;
  }

  /** The expense sums of the five fixed categories, added up. */
  function FixedCategorySums(es: seq<Transaction>): real {
    CategorySum(es, Vivienda) + CategorySum(es, Servicios) + CategorySum(es, Diezmos)
      + CategorySum(es, Transporte) + CategorySum(es, Transferencias)
  }

  lemma FixedCategorySumsSnoc(es: seq<Transaction>, t: Transaction)
    ensures FixedCategorySums(es + [t])
         == FixedCategorySums(es) + (if t.category in FixedCategories then t.amount else 0.0)
  {
    CategorySumSnoc(es, t, Vivienda);
    CategorySumSnoc(es, t, Servicios);
    CategorySumSnoc(es, t, Diezmos);
    CategorySumSnoc(es, t, Transporte);
    CategorySumSnoc(es, t, Transferencias);
  }

  lemma FixedExpensesSnoc(init: seq<Transaction>, t: Transaction)
    ensures FixedExpenses(init + [t]) == FixedExpenses(init) + (if IsFixedExpense(t) then t.amount else 0.0)
    ensures Filter(init + [t], IsExpense) == Filter(init, IsExpense) + (if IsExpense(t) then [t] else [])
  {
    FilterAppend(init, [t], IsFixedExpense);
    FilterAppend(init, [t], IsExpense);
    SumOfAppend(Filter(init, IsFixedExpense), Filter([t], IsFixedExpense), Amount);
  }

  lemma FixedStep(init: seq<Transaction>, t: Transaction)
    requires FixedExpenses(init) == FixedCategorySums(Filter(init, IsExpense))
    ensures FixedExpenses(init + [t]) == FixedCategorySums(Filter(init + [t], IsExpense))
  {
    var es := Filter(init, IsExpense);
    FixedExpensesSnoc(init, t);
    if IsExpense(t) {
      FixedCategorySumsSnoc(es, t);
    } else {
      assert es + [] == es;
    }
  }

  /** The fixed subtotal is the sum of the expenses of the five fixed
      categories, taken one category at a time. */
  lemma {:induction false} FixedIsFiveCategories(ts: seq<Transaction>)
    ensures FixedExpenses(ts) == FixedCategorySums(Filter(ts, IsExpense))
    decreases |ts|
  {
    if ts != [] {
      var init := ts[..|ts| - 1];
      assert ts == init + [ts[|ts| - 1]];
      FixedIsFiveCategories(init);
      FixedStep(init, ts[|ts| - 1]);
    }
  }

  lemma GroupStep(init: seq<Transaction>, t: Transaction, acc: seq<CategoryTotal>, r: seq<CategoryTotal>)
    requires DistinctBy(acc, CategoryOf)
    requires FirstSeenOrder(acc, init)
    requires forall c :: Lists(acc, c) <==> Occurs(init, c)
    requires forall i :: 0 <= i < |acc| ==> acc[i].total == CategorySum(init, acc[i].category)
    requires r == AddTo(acc, t.category, t.amount)
    ensures DistinctBy(r, CategoryOf)
    ensures FirstSeenOrder(r, init + [t])
    ensures forall c :: Lists(r, c) <==> Occurs(init + [t], c)
    ensures forall i :: 0 <= i < |r| ==> r[i].total == CategorySum(init + [t], r[i].category)
    ensures SumOf(r, TotalOf) == SumOf(acc, TotalOf) + t.amount
  {
    forall c
      ensures Occurs(init + [t], c) <==> Occurs(init, c) || t.category == c
      ensures CategorySum(init + [t], c) == CategorySum(init, c) + (if t.category == c then t.amount else 0.0)
    {
      OccursSnoc(init, t, c);
      CategorySumSnoc(init, t, c);
    }
    var k := FindCategory(acc, t.category);
    if k == -1 {
      GroupAppend(init, t, acc, r);
    } else {
      GroupUpdate(init, t, acc, k, r);
    }
    OrderStep(init, t, acc, r);
  }

  lemma GroupAppend(init: seq<Transaction>, t: Transaction, acc: seq<CategoryTotal>, r: seq<CategoryTotal>)
    requires DistinctBy(acc, CategoryOf)
    requires forall c :: Lists(acc, c) <==> Occurs(init, c)
    requires forall i :: 0 <= i < |acc| ==> acc[i].total == CategorySum(init, acc[i].category)
    requires forall i :: 0 <= i < |acc| ==> acc[i].category != t.category
    requires forall c :: CategorySum(init + [t], c) == CategorySum(init, c) + (if t.category == c then t.amount else 0.0)
    requires r == acc + [CategoryTotal(t.category, t.amount)]
    ensures DistinctBy(r, CategoryOf)
    ensures forall c :: Lists(r, c) <==> Lists(acc, c) || t.category == c
    ensures forall i :: 0 <= i < |r| ==> r[i].total == CategorySum(init + [t], r[i].category)
    ensures SumOf(r, TotalOf) == SumOf(acc, TotalOf) + t.amount
  {
    SumOfAppend(acc, [CategoryTotal(t.category, t.amount)], TotalOf);
    assert !Occurs(init, t.category);
    NoneSumToZero(init, t.category);
    forall c ensures Lists(r, c) <==> Lists(acc, c) || t.category == c {
      if Lists(r, c) {
        var i :| 0 <= i < |r| && r[i].category == c;
        if i < |acc| { assert acc[i] == r[i]; }
      }
      if Lists(acc, c) {
        var i :| 0 <= i < |acc| && acc[i].category == c;
        assert r[i] == acc[i];
      }
      if t.category == c { assert r[|acc|].category == c; }
    }
  }

  lemma GroupUpdate(init: seq<Transaction>, t: Transaction, acc: seq<CategoryTotal>, k: int, r: seq<CategoryTotal>)
    requires DistinctBy(acc, CategoryOf)
    requires forall i :: 0 <= i < |acc| ==> acc[i].total == CategorySum(init, acc[i].category)
    requires 0 <= k < |acc| && acc[k].category == t.category
    requires forall c :: CategorySum(init + [t], c) == CategorySum(init, c) + (if t.category == c then t.amount else 0.0)
    requires r == acc[k := CategoryTotal(t.category, acc[k].total + t.amount)]
    ensures DistinctBy(r, CategoryOf)
    ensures forall c :: Lists(r, c) <==> Lists(acc, c)
    ensures forall i :: 0 <= i < |r| ==> r[i].total == CategorySum(init + [t], r[i].category)
    ensures SumOf(r, TotalOf) == SumOf(acc, TotalOf) + t.amount
  {
    var x := CategoryTotal(t.category, acc[k].total + t.amount);
    SumOfUpdate(acc, k, x, TotalOf);
    assert forall i :: 0 <= i < |r| ==> r[i].category == acc[i].category;
    forall c ensures Lists(r, c) <==> Lists(acc, c) {
      if Lists(r, c) {
        var i :| 0 <= i < |r| && r[i].category == c;
        if i != k { assert acc[i] == r[i]; }
      }
      if Lists(acc, c) {
        var i :| 0 <= i < |acc| && acc[i].category == c;
        if i != k { assert r[i] == acc[i]; } else { assert r[k].category == c; }
      }
    }
  }

  lemma OrderStep(init: seq<Transaction>, t: Transaction, acc: seq<CategoryTotal>, r: seq<CategoryTotal>)
    requires FirstSeenOrder(acc, init)
    requires forall c :: Lists(acc, c) <==> Occurs(init, c)
    requires |acc| <= |r|
    requires forall i :: 0 <= i < |acc| ==> r[i].category == acc[i].category
    requires |r| == |acc| || (|r| == |acc| + 1 && r[|acc|].category == t.category && !Occurs(init, t.category))
    ensures FirstSeenOrder(r, init + [t])
  {
    var es := init + [t];
    forall i, j, k | 0 <= i < j < |r| && 0 <= k < |es| && es[k].category == r[j].category
      ensures Occurs(es[..k], r[i].category)
    {
      assert Lists(acc, acc[i].category);
      if k < |init| {
        assert es[..k] == init[..k];
        assert es[k] == init[k];
      } else {
        assert es[..k] == init;
      }
    }
  }

  lemma {:induction false} NoneSumToZero(es: seq<Transaction>, c: Category)
    requires !Occurs(es, c)
    ensures CategorySum(es, c) == 0.0
    decreases |es|
  {
    if es != [] {
      var init := es[..|es| - 1];
      forall k | 0 <= k < |init| ensures init[k].category != c {
        assert init[k] == es[k];
      }
      NoneSumToZero(init, c);
    }
  }

  lemma {:induction false} SumOfUpdate<T>(s: seq<T>, k: int, x: T, f: T -> real)
    requires 0 <= k < |s|
    ensures SumOf(s[k := x], f) == SumOf(s, f) - f(s[k]) + f(x)
    decreases |s|
  {
    if k > 0 {
      assert s[k := x][1..] == s[1..][k - 1 := x];
      SumOfUpdate(s[1..], k - 1, x, f);
    }
  }

  /** The expense totals by category, in first-seen order. */
  function ExpenseTotals(ts: seq<Transaction>): seq<CategoryTotal> {
    GroupTotals(Filter(ts, IsExpense))
  }

  // ---- Budget health ----

  /** `keys.reduce((a, b) => totals[a] > totals[b] ? a : b)`: the first step
      compares the missing total of the empty seed and picks the first key;
      each later key wins unless the current one is strictly larger. */
  function TopIndex(r: seq<CategoryTotal>): (k: nat)
    requires |r| > 0
    ensures k < |r|
    ensures forall j :: 0 <= j < |r| ==> r[j].total <= r[k].total
    ensures forall j :: k < j < |r| ==> r[j].total < r[k].total
    decreases |r|
  {
    if |r| == 1 then 0
    else
      var k := TopIndex(r[..|r| - 1]);
      assert forall j :: 0 <= j < |r| - 1 ==> r[..|r| - 1][j] == r[j];
      if r[k].total > r[|r| - 1].total then k else |r| - 1
  }

  /** The category named in the budget notice: `None` is the empty string
      the reduce returns when there are no expense keys. */
  function TopCategory(r: seq<CategoryTotal>): Option<Category> {
    if r == [] then None else Some(r[TopIndex(r)].category)
  }

  datatype Health = Neutral | Danger | Warning | Healthy

  datatype BudgetStatus = BudgetStatus(status: Health, topCategory: Option<Category>)

  /** The budget-health banner for the shown transactions. */
  function Budget(ts: seq<Transaction>): (b: BudgetStatus)
    ensures b.status == Neutral <==> TotalIncome(ts) == 0.0
    ensures b.status == Danger <==> TotalIncome(ts) != 0.0 && TotalExpense(ts) > TotalIncome(ts)
    ensures b.status == Warning <==> TotalIncome(ts) != 0.0 && 0.9 * TotalIncome(ts) <= TotalExpense(ts) <= TotalIncome(ts)
    ensures b.status == Healthy <==> TotalIncome(ts) != 0.0 && TotalExpense(ts) <= TotalIncome(ts) && TotalExpense(ts) < 0.9 * TotalIncome(ts)
    ensures b.status == Neutral || b.status == Healthy ==> b.topCategory == None
  {
    var s := Summarize(ts);
    if s.totalIncome == 0.0 then BudgetStatus(Neutral, None)
    else
      var over := s.totalExpense > s.totalIncome;
      var near := s.totalExpense >= s.totalIncome * 0.9 && !over;
      var top := if over || near then TopCategory(ExpenseTotals(ts)) else None;
      if over then BudgetStatus(Danger, top)
      else if near then BudgetStatus(Warning, top)
      else BudgetStatus(Healthy, None)
  }

  /** In danger or warning the banner names the top of the expense totals. */
  lemma BudgetNamesTop(ts: seq<Transaction>)
    requires Budget(ts).status == Danger || Budget(ts).status == Warning
    ensures Budget(ts).topCategory == TopCategory(ExpenseTotals(ts))
  {
  }

  /** The top of the category totals of `es` has the largest sum; every
      category tied with it occurred before each occurrence of it. */
  lemma TopOfTotals(es: seq<Transaction>)
    ensures match TopCategory(GroupTotals(es))
      case None => es == []
      case Some(c) =>
        && Occurs(es, c)
        && (forall d :: Occurs(es, d) ==> CategorySum(es, d) <= CategorySum(es, c))
        && (forall d :: Occurs(es, d) && d != c && CategorySum(es, d) == CategorySum(es, c) ==>
              forall k :: 0 <= k < |es| && es[k].category == c ==> Occurs(es[..k], d))
  {
    var r := GroupTotals(es);
    if r == [] {
      assert es != [] ==> Occurs(es, es[0].category);
    } else {
      var k := TopIndex(r);
      var c := r[k].category;
      assert Lists(r, c);
      forall d | Occurs(es, d)
        ensures CategorySum(es, d) <= CategorySum(es, c)
        ensures d != c && CategorySum(es, d) == CategorySum(es, c) ==>
                  forall m :: 0 <= m < |es| && es[m].category == c ==> Occurs(es[..m], d)
      {
        assert Lists(r, d);
        var j :| 0 <= j < |r| && r[j].category == d;
        if d != c && CategorySum(es, d) == CategorySum(es, c) {
          assert j < k;
        }
      }
    }
  }

  /** In danger or warning the banner names an expense category with the
      largest total; among categories tied for it, the one whose key entered
      the totals last wins, so every tied category occurred before any
      occurrence of the named one. With no expenses it names nothing. */
  lemma TopCategoryIsLargest(ts: seq<Transaction>)
    requires Budget(ts).status == Danger || Budget(ts).status == Warning
    ensures var es := Filter(ts, IsExpense);
      match Budget(ts).topCategory
      case None => es == []
      case Some(c) =>
        && Occurs(es, c)
        && (forall d :: Occurs(es, d) ==> CategorySum(es, d) <= CategorySum(es, c))
        && (forall d :: Occurs(es, d) && d != c && CategorySum(es, d) == CategorySum(es, c) ==>
              forall k :: 0 <= k < |es| && es[k].category == c ==> Occurs(es[..k], d))
  {
    BudgetNamesTop(ts);
    TopOfTotals(Filter(ts, IsExpense));
  }

  /** With no negative amounts, danger and warning always name a category:
      income is positive there, so some expense exists. */
  lemma DangerNamesCategory(ts: seq<Transaction>)
    requires NonNegativeAmounts(ts)
    requires Budget(ts).status == Danger || Budget(ts).status == Warning
    ensures Budget(ts).topCategory.Some?
  {
    IncomeNonNegative(ts);
    TopCategoryIsLargest(ts);
    assert Filter(ts, IsExpense) == [] ==> TotalExpense(ts) == 0.0;
  }

  lemma {:induction false} IncomeNonNegative(ts: seq<Transaction>)
    requires NonNegativeAmounts(ts)
    ensures TotalIncome(ts) >= 0.0
    decreases |ts|
  {
    if ts != [] {
      IncomeNonNegative(ts[1..]);
    }
  }
}
