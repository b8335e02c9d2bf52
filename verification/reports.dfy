/**
 * The figures the reports show: month and year selections, income and
 * expense totals, spending per category sorted by amount, budget against
 * actual spending, the twelve-month trend table and the quick summary.
 * Each report is the data it prints, not the printed text.
 */
module Reports {
  import opened Wrappers
  import opened Dates
  import opened Transactions
  import opened Sums
  import opened Budgets

  // ---------------------------------------------------------------------
  // Selections
  // ---------------------------------------------------------------------

  /** `getTransactionsForMonth`: the transactions dated in `month`, in their original order. */
  function ForMonth(txs: seq<Transaction>, month: YearMonth): (r: seq<Transaction>)
    ensures |r| <= |txs|
    ensures forall k :: 0 <= k < |r| ==> MonthOf(r[k].date) == month
  {
    if txs == [] then []
    else
      var last := txs[|txs| - 1];
      ForMonth(txs[..|txs| - 1], month) + (if MonthOf(last.date) == month then [last] else [])
  }

  /** The month selection keeps exactly the transactions dated in the month. */
  lemma {:induction false} ForMonthMembers(txs: seq<Transaction>, month: YearMonth)
    ensures |ForMonth(txs, month)| <= |txs|
    ensures forall t :: t in ForMonth(txs, month) <==> t in txs && MonthOf(t.date) == month
  {
    if txs != [] {
      ForMonthMembers(txs[..|txs| - 1], month);
      assert txs == txs[..|txs| - 1] + [txs[|txs| - 1]];
    }
  }

  /** `getTransactionsForYear`: the transactions dated in `year`, in their original order. */
  function ForYear(txs: seq<Transaction>, year: int): (r: seq<Transaction>)
    ensures |r| <= |txs|
    ensures forall k :: 0 <= k < |r| ==> r[k].date.year == year
  {
    if txs == [] then []
    else
      var last := txs[|txs| - 1];
      ForYear(txs[..|txs| - 1], year) + (if last.date.year == year then [last] else [])
  }

  /** The year selection keeps exactly the transactions dated in the year. */
  lemma {:induction false} ForYearMembers(txs: seq<Transaction>, year: int)
    ensures |ForYear(txs, year)| <= |txs|
    ensures forall t :: t in ForYear(txs, year) <==> t in txs && t.date.year == year
  {
    if txs != [] {
      ForYearMembers(txs[..|txs| - 1], year);
      assert txs == txs[..|txs| - 1] + [txs[|txs| - 1]];
    }
  }

  /** Selecting a month from a concatenation selects from each part, keeping the order. */
  lemma {:induction false} ForMonthAppend(a: seq<Transaction>, b: seq<Transaction>, month: YearMonth)
    ensures ForMonth(a + b, month) == ForMonth(a, month) + ForMonth(b, month)
    decreases |b|
  {
    if b == [] {
      assert a + b == a;
    } else {
      var b' := b[..|b| - 1];
      assert (a + b)[..|a + b| - 1] == a + b';
      ForMonthAppend(a, b', month);
    }
  }

  /** A month of a year's selection is that month's selection: the month selection lies within the year's. */
  lemma {:induction false} MonthWithinYear(txs: seq<Transaction>, month: YearMonth)
    ensures ForMonth(ForYear(txs, month.year), month) == ForMonth(txs, month)
  {
    if txs != [] {
      var prefix := txs[..|txs| - 1];
      var last := txs[|txs| - 1];
      MonthWithinYear(prefix, month);
      ForMonthAppend(ForYear(prefix, month.year), if last.date.year == month.year then [last] else [], month);
    }
  }

  // ---------------------------------------------------------------------
  // Totals
  // ---------------------------------------------------------------------

  /** The sum of the amounts of the transactions whose type is exactly `kind`. */
  function TotalOfKind(txs: seq<Transaction>, kind: string): int {
    if txs == [] then 0
    else
      var last := txs[|txs| - 1];
      TotalOfKind(txs[..|txs| - 1], kind) + (if last.kind == kind then last.amount else 0)
  }

  /** The sum of the amounts of the transactions whose type is anything but `kind`. */
  function TotalNotOfKind(txs: seq<Transaction>, kind: string): int {
    if txs == [] then 0
    else
      var last := txs[|txs| - 1];
      TotalNotOfKind(txs[..|txs| - 1], kind) + (if last.kind != kind then last.amount else 0)
  }

  function TotalAmount(txs: seq<Transaction>): int {
    if txs == [] then 0 else TotalAmount(txs[..|txs| - 1]) + txs[|txs| - 1].amount
  }

  /** `calculateTotalIncome`. */
  function TotalIncome(txs: seq<Transaction>): (r: int)
    ensures r + TotalNotOfKind(txs, Income) == TotalAmount(txs)
  {
    KindsPartition(txs, Income);
    TotalOfKind(txs, Income)
  }

  /** `calculateTotalExpenses`. */
  function TotalExpenses(txs: seq<Transaction>): (r: int)
    ensures r + TotalNotOfKind(txs, Expense) == TotalAmount(txs)
  {
    KindsPartition(txs, Expense);
    TotalOfKind(txs, Expense)
  }

  /** The transactions of one type and those of every other type together make up the whole. */
  lemma {:induction false} KindsPartition(txs: seq<Transaction>, kind: string)
    ensures TotalOfKind(txs, kind) + TotalNotOfKind(txs, kind) == TotalAmount(txs)
  {
    if txs != [] {
      KindsPartition(txs[..|txs| - 1], kind);
    }
  }

  /** With only INCOME and EXPENSE types present, income and expenses make up the whole. */
  lemma {:induction false} IncomeAndExpensesPartition(txs: seq<Transaction>)
    requires forall t :: t in txs ==> t.kind == Income || t.kind == Expense
    ensures TotalIncome(txs) + TotalExpenses(txs) == TotalAmount(txs)
    ensures TotalNotOfKind(txs, Income) == TotalExpenses(txs)
  {
    if txs != [] {
      var prefix := txs[..|txs| - 1];
      assert forall t :: t in prefix ==> t in txs;
      IncomeAndExpensesPartition(prefix);
    }
  }

  /** A type's total over a year is the sum of its totals over the year's twelve months. */
  lemma YearIsSumOfMonths(txs: seq<Transaction>, year: int, kind: string)
    requires 1 <= year <= 9999
    ensures TotalOfKind(ForYear(txs, year), kind) == MonthsTotal(txs, year, kind, 12)
  {
    YearIsSumOfMonthsUpTo(txs, year, kind);
  }

  /** The sum of a type's totals over months 1 to `k` of `year`. */
  function MonthsTotal(txs: seq<Transaction>, year: int, kind: string, k: nat): int {
    if k == 0 then 0 else MonthsTotal(txs, year, kind, k - 1) + TotalOfKind(ForMonth(txs, YearMonth(year, k)), kind)
  }

  lemma {:induction false} MonthsTotalOfNothing(year: int, kind: string, k: nat)
    ensures MonthsTotal([], year, kind, k) == 0
  {
    if k > 0 {
      MonthsTotalOfNothing(year, kind, k - 1);
    }
  }

  lemma {:induction false} YearIsSumOfMonthsUpTo(txs: seq<Transaction>, year: int, kind: string)
    requires 1 <= year <= 9999
    ensures TotalOfKind(ForYear(txs, year), kind) == MonthsTotal(txs, year, kind, 12)
  {
    if txs == [] {
      MonthsTotalOfNothing(year, kind, 12);
    } else {
      var prefix := txs[..|txs| - 1];
      var last := txs[|txs| - 1];
      YearIsSumOfMonthsUpTo(prefix, year, kind);
      MonthsTotalStep(txs, year, kind, 12);
      var tail := if last.date.year == year then [last] else [];
      assert ForYear(txs, year) == ForYear(prefix, year) + tail;
      TotalOfKindAppend(ForYear(prefix, year), tail, kind);
      assert [last][..0] == [];
    }
  }

  /** Adding the last transaction moves the months' total by its amount exactly when it falls in one of them. */
  lemma {:induction false} MonthsTotalStep(txs: seq<Transaction>, year: int, kind: string, k: nat)
    requires txs != [] && k <= 12
    ensures var last := txs[|txs| - 1];
      MonthsTotal(txs, year, kind, k)
      == MonthsTotal(txs[..|txs| - 1], year, kind, k)
         + (if last.kind == kind && last.date.year == year && last.date.month <= k then last.amount else 0)
  {
    var last, prefix := txs[|txs| - 1], txs[..|txs| - 1];
    if k == 0 {
      assert last.date.month >= 1;
    } else {
      MonthsTotalStep(txs, year, kind, k - 1);
      KindInMonthStep(txs, YearMonth(year, k), kind);
      MonthShare(last, year, kind, k);
    }
  }

  /** The last transaction's share of months 1 to `k` is its share of 1 to `k - 1` plus its share of month `k`. */
  lemma MonthShare(last: Transaction, year: int, kind: string, k: nat)
    requires 1 <= k <= 12
    ensures var matches := last.kind == kind && last.date.year == year;
      (if matches && last.date.month <= k then last.amount else 0)
      == (if matches && last.date.month <= k - 1 then last.amount else 0)
         + (if MonthOf(last.date) == YearMonth(year, k) && last.kind == kind then last.amount else 0)
  {
  }

  /** Adding a last transaction moves its month's totals by its amount and leaves other months alone. */
  lemma KindInMonthStep(txs: seq<Transaction>, month: YearMonth, kind: string)
    requires txs != []
    ensures var last := txs[|txs| - 1];
      var prefix := txs[..|txs| - 1];
      && TotalOfKind(ForMonth(txs, month), kind)
         == TotalOfKind(ForMonth(prefix, month), kind) + (if MonthOf(last.date) == month && last.kind == kind then last.amount else 0)
      && TotalNotOfKind(ForMonth(txs, month), kind)
         == TotalNotOfKind(ForMonth(prefix, month), kind) + (if MonthOf(last.date) == month && last.kind != kind then last.amount else 0)
  {
    var last := txs[|txs| - 1];
    var selected := ForMonth(txs[..|txs| - 1], month);
    if MonthOf(last.date) == month {
      assert ForMonth(txs, month) == selected + [last];
      assert (selected + [last])[..|selected|] == selected;
    } else {
      assert ForMonth(txs, month) == selected;
    }
  }

  lemma {:induction false} TotalOfKindAppend(a: seq<Transaction>, b: seq<Transaction>, kind: string)
    ensures TotalOfKind(a + b, kind) == TotalOfKind(a, kind) + TotalOfKind(b, kind)
    decreases |b|
  {
    if b == [] {
      assert a + b == a;
    } else {
      var b' := b[..|b| - 1];
      assert (a + b)[..|a + b| - 1] == a + b';
      TotalOfKindAppend(a, b', kind);
    }
  }

  // ---------------------------------------------------------------------
  // Spending per category
  // ---------------------------------------------------------------------

  /** `getOrDefault(key, 0)`. */
  function Get<K>(m: map<K, int>, key: K): int {
    if key in m then m[key] else 0
  }

  /** The summed EXPENSE amounts of category `c` (exact match). */
  function SpentIn(txs: seq<Transaction>, c: string): int {
    if txs == [] then 0
    else
      var last := txs[|txs| - 1];
      SpentIn(txs[..|txs| - 1], c) + (if last.kind == Expense && last.category == c then last.amount else 0)
  }

  predicate HasExpenseIn(txs: seq<Transaction>, c: string) {
    exists t :: t in txs && t.kind == Expense && t.category == c
  }

  /**
   * The grouping of EXPENSE transactions by exact category with summed
   * amounts: one key per category that has an expense, holding its total.
   */
  function ExpensesByCategory(txs: seq<Transaction>): (r: map<string, int>)
    ensures forall c :: Get(r, c) == SpentIn(txs, c)
  {
    if txs == [] then map[]
    else
      var last := txs[|txs| - 1];
      var g := ExpensesByCategory(txs[..|txs| - 1]);
      if last.kind == Expense then g[last.category := Get(g, last.category) + last.amount] else g
  }

  /** The grouping has a key exactly for each category with an expense, holding its summed spending. */
  lemma {:induction false} ExpensesByCategoryGroups(txs: seq<Transaction>)
    ensures forall c :: c in ExpensesByCategory(txs) <==> HasExpenseIn(txs, c)
    ensures forall c :: Get(ExpensesByCategory(txs), c) == SpentIn(txs, c)
  {
    if txs != [] {
      var prefix := txs[..|txs| - 1];
      ExpensesByCategoryGroups(prefix);
      assert txs == prefix + [txs[|txs| - 1]];
      assert forall t :: t in txs <==> t in prefix || t == txs[|txs| - 1];
    }
  }

  /** The category sums add up to the total expenses of the same transactions. */
  lemma {:induction false} GroupsSumToTotal(txs: seq<Transaction>)
    ensures Total(ExpensesByCategory(txs)) == TotalExpenses(txs)
  {
    if txs != [] {
      var last := txs[|txs| - 1];
      var g := ExpensesByCategory(txs[..|txs| - 1]);
      GroupsSumToTotal(txs[..|txs| - 1]);
      assert TotalExpenses(txs) == TotalExpenses(txs[..|txs| - 1]) + (if last.kind == Expense then last.amount else 0);
      if last.kind == Expense {
        TotalAfterStore(g, last.category, Get(g, last.category) + last.amount);
      }
    }
  }

  /** The categories with expenses, in order of first appearance. */
  function FirstSeen(txs: seq<Transaction>): seq<string> {
    if txs == [] then []
    else
      var last := txs[|txs| - 1];
      var r := FirstSeen(txs[..|txs| - 1]);
      if last.kind == Expense && last.category !in r then r + [last.category] else r
  }

  /** First appearance lists each category with an expense exactly once. */
  lemma {:induction false} FirstSeenEnumerates(txs: seq<Transaction>)
    ensures forall i, j :: 0 <= i < j < |FirstSeen(txs)| ==> FirstSeen(txs)[i] != FirstSeen(txs)[j]
    ensures forall c :: c in FirstSeen(txs) <==> HasExpenseIn(txs, c)
  {
    if txs != [] {
      var prefix := txs[..|txs| - 1];
      FirstSeenEnumerates(prefix);
      assert txs == prefix + [txs[|txs| - 1]];
      assert forall t :: t in txs <==> t in prefix || t == txs[|txs| - 1];
    }
  }

  /** One line of the category breakdown. */
  datatype BreakdownRow = BreakdownRow(category: string, amount: int, percent: real)

  /** `part` as a percentage of `whole`, or 0 when `whole` is not positive. */
  function Percent(part: int, whole: int): (r: real)
    ensures whole <= 0 ==> r == 0.0
    ensures whole > 0 ==> r * whole as real == part as real * 100.0
  {
    if whole > 0 then part as real / whole as real * 100.0 else 0.0
  }

  /** One row per category of `order`, in that order. */
  function RowsFor(groups: map<string, int>, order: seq<string>, total: int): (rows: seq<BreakdownRow>)
    requires forall k :: 0 <= k < |order| ==> order[k] in groups
    ensures |rows| == |order|
    ensures forall k :: 0 <= k < |order| ==>
      rows[k] == BreakdownRow(order[k], groups[order[k]], Percent(groups[order[k]], total))
  {
    if order == [] then []
    else [BreakdownRow(order[0], groups[order[0]], Percent(groups[order[0]], total))] + RowsFor(groups, order[1..], total)
  }

  predicate Descending(rows: seq<BreakdownRow>) {
    forall i, j :: 0 <= i < j < |rows| ==> rows[i].amount >= rows[j].amount
  }

  /** Inserts `row` ahead of the first row whose amount is not larger. */
  function InsertDescending(row: BreakdownRow, rows: seq<BreakdownRow>): seq<BreakdownRow> {
    if rows == [] || rows[0].amount <= row.amount then [row] + rows
    else [rows[0]] + InsertDescending(row, rows[1..])
  }

  /** Inserting adds exactly the one row. */
  lemma {:induction false} InsertDescendingPermutes(row: BreakdownRow, rows: seq<BreakdownRow>)
    ensures multiset(InsertDescending(row, rows)) == multiset(rows) + multiset{row}
  {
    if rows != [] && rows[0].amount > row.amount {
      InsertDescendingPermutes(row, rows[1..]);
      assert rows == [rows[0]] + rows[1..];
    }
  }

  /** Inserting a row below a bound into rows below it keeps everything below it. */
  lemma {:induction false} InsertDescendingBounded(row: BreakdownRow, rows: seq<BreakdownRow>, bound: int)
    requires row.amount <= bound
    requires forall k :: 0 <= k < |rows| ==> rows[k].amount <= bound
    ensures forall k :: 0 <= k < |InsertDescending(row, rows)| ==> InsertDescending(row, rows)[k].amount <= bound
  {
    if rows != [] && rows[0].amount > row.amount {
      InsertDescendingBounded(row, rows[1..], bound);
    }
  }

  /** Inserting keeps the rows descending. */
  lemma {:induction false} InsertDescendingSorted(row: BreakdownRow, rows: seq<BreakdownRow>)
    requires Descending(rows)
    ensures Descending(InsertDescending(row, rows))
  {
    var r := InsertDescending(row, rows);
    if rows != [] && rows[0].amount > row.amount {
      var tail := InsertDescending(row, rows[1..]);
      InsertDescendingSorted(row, rows[1..]);
      InsertDescendingBounded(row, rows[1..], rows[0].amount);
      forall i, j | 0 <= i < j < |r| ensures r[i].amount >= r[j].amount {
        assert r[j] == tail[j - 1];
        if i > 0 {
          assert r[i] == tail[i - 1];
        }
      }
    } else {
      forall i, j | 0 <= i < j < |r| ensures r[i].amount >= r[j].amount {
        assert r[j] == rows[j - 1];
        if i > 0 {
          assert r[i] == rows[i - 1];
        } else if j > 1 {
          assert rows[0].amount >= rows[j - 1].amount;
        }
      }
    }
  }

  /** Insertion sort by amount, largest first; rows with equal amounts keep their order. */
  function SortDescending(rows: seq<BreakdownRow>): seq<BreakdownRow> {
    if rows == [] then [] else InsertDescending(rows[0], SortDescending(rows[1..]))
  }

  /** The sort yields a descending permutation of its input. */
  lemma {:induction false} SortDescendingSorted(rows: seq<BreakdownRow>)
    ensures Descending(SortDescending(rows))
    ensures multiset(SortDescending(rows)) == multiset(rows)
  {
    if rows != [] {
      SortDescendingSorted(rows[1..]);
      InsertDescendingSorted(rows[0], SortDescending(rows[1..]));
      InsertDescendingPermutes(rows[0], SortDescending(rows[1..]));
      assert rows == [rows[0]] + rows[1..];
    }
  }

  /** The breakdown rows before sorting: one per category, in first-seen order. */
  function UnsortedBreakdown(txs: seq<Transaction>): (rows: seq<BreakdownRow>)
    ensures |rows| == |FirstSeen(txs)|
    ensures forall row :: row in rows ==>
      && HasExpenseIn(txs, row.category)
      && row.amount == SpentIn(txs, row.category)
      && row.percent == Percent(row.amount, TotalExpenses(txs))
    ensures forall c :: HasExpenseIn(txs, c) ==> exists row :: row in rows && row.category == c
  {
    var groups := ExpensesByCategory(txs);
    var order := FirstSeen(txs);
    ExpensesByCategoryGroups(txs);
    FirstSeenEnumerates(txs);
    var rows := RowsFor(groups, order, TotalExpenses(txs));
    assert forall c :: HasExpenseIn(txs, c) ==> exists row :: row in rows && row.category == c by {
      forall c | HasExpenseIn(txs, c) ensures exists row :: row in rows && row.category == c {
        var k :| 0 <= k < |order| && order[k] == c;
        assert rows[k] in rows;
      }
    }
    rows
  }

  /** Sorting keeps the rows: the same number, and each row of one is a row of the other. */
  lemma SortKeepsRows(rows: seq<BreakdownRow>)
    ensures |SortDescending(rows)| == |rows|
    ensures forall row :: row in SortDescending(rows) <==> row in rows
  {
    var sorted := SortDescending(rows);
    SortDescendingSorted(rows);
    assert |multiset(sorted)| == |multiset(rows)|;
    forall row
      ensures row in sorted <==> row in rows
    {
      assert row in sorted <==> row in multiset(sorted);
      assert row in rows <==> row in multiset(rows);
    }
  }

  /**
   * `generateCategoryBreakdown`: one row per category with expenses, its
   * summed amount and its share of the total expenses, largest first.
   * Categories with equal sums keep the order of their first appearance.
   */
  function CategoryBreakdown(txs: seq<Transaction>): (rows: seq<BreakdownRow>)
    ensures Descending(rows)
    ensures |rows| == |FirstSeen(txs)|
    ensures forall row :: row in rows ==>
      && HasExpenseIn(txs, row.category)
      && row.amount == SpentIn(txs, row.category)
      && row.percent == Percent(row.amount, TotalExpenses(txs))
    ensures forall c :: HasExpenseIn(txs, c) ==> exists row :: row in rows && row.category == c
  {
    var unsorted := UnsortedBreakdown(txs);
    SortDescendingSorted(unsorted);
    SortKeepsRows(unsorted);
    SortDescending(unsorted)
  }

  /** The sum of the amounts of the rows. */
  function RowsTotal(rows: seq<BreakdownRow>): int {
    if rows == [] then 0 else rows[0].amount + RowsTotal(rows[1..])
  }

  lemma {:induction false} RowsTotalInsert(row: BreakdownRow, rows: seq<BreakdownRow>)
    requires Descending(rows)
    ensures RowsTotal(InsertDescending(row, rows)) == row.amount + RowsTotal(rows)
  {
    if rows != [] && rows[0].amount > row.amount {
      RowsTotalInsert(row, rows[1..]);
      assert ([rows[0]] + InsertDescending(row, rows[1..]))[1..] == InsertDescending(row, rows[1..]);
    } else {
      assert ([row] + rows)[1..] == rows;
    }
  }

  lemma {:induction false} RowsTotalSort(rows: seq<BreakdownRow>)
    ensures RowsTotal(SortDescending(rows)) == RowsTotal(rows)
  {
    if rows != [] {
      RowsTotalSort(rows[1..]);
      SortDescendingSorted(rows[1..]);
      RowsTotalInsert(rows[0], SortDescending(rows[1..]));
    }
  }

  lemma {:induction false} RowsTotalAlong(groups: map<string, int>, order: seq<string>, total: int)
    requires forall k :: 0 <= k < |order| ==> order[k] in groups
    ensures RowsTotal(RowsFor(groups, order, total)) == SumAlong(groups, order)
  {
    if order != [] {
      RowsTotalAlong(groups, order[1..], total);
    }
  }

  /** The breakdown rows add up to the total expenses: no expense is lost or counted twice. */
  lemma BreakdownSumsToExpenses(txs: seq<Transaction>)
    ensures RowsTotal(CategoryBreakdown(txs)) == TotalExpenses(txs)
  {
    var groups := ExpensesByCategory(txs);
    var order := FirstSeen(txs);
    ExpensesByCategoryGroups(txs);
    FirstSeenEnumerates(txs);
    RowsTotalSort(UnsortedBreakdown(txs));
    RowsTotalAlong(groups, order, TotalExpenses(txs));
    SumAlongIsSumOver(groups, order);
    assert (set c | c in order) == groups.Keys;
    GroupsSumToTotal(txs);
  }

  // ---------------------------------------------------------------------
  // Budget against actual spending
  // ---------------------------------------------------------------------

  /** One line of the budget comparison. */
  datatype ComparisonRow = ComparisonRow(budgeted: int, actual: int, remaining: int, percent: real)

  /**
   * `generateBudgetComparison`: nothing unless the budget is for `month`;
   * otherwise one row per budgeted category with the limit, the spending,
   * what remains (negative when overspent) and the share of the limit used.
   */
  function BudgetComparison(txs: seq<Transaction>, b: Budget, month: YearMonth): (r: Option<map<string, ComparisonRow>>)
    reads b
    ensures r.Some? <==> b.month == month
    ensures r.Some? ==> r.value.Keys == b.limits.Keys
    ensures r.Some? ==> forall c :: c in r.value ==>
      && r.value[c].budgeted == b.limits[c]
      && r.value[c].actual == SpentIn(txs, c)
      && r.value[c].remaining == r.value[c].budgeted - r.value[c].actual
      && r.value[c].percent == Percent(r.value[c].actual, r.value[c].budgeted)
  {
    if b.month != month then None
    else
      var actual := ExpensesByCategory(txs);
      ExpensesByCategoryGroups(txs);
      Some(map c | c in b.limits ::
        ComparisonRow(b.limits[c], Get(actual, c), b.limits[c] - Get(actual, c), Percent(Get(actual, c), b.limits[c])))
  }

  /**
   * A comparison row agrees with the budget's own queries: it shows a
   * negative remainder exactly when the category is over budget, the
   * budget's remainder is the row's clamped at 0, and the budget's usage
   * is the row's share capped at 100.
   */
  lemma ComparisonAgreesWithBudget(txs: seq<Transaction>, b: Budget, c: string)
    requires b.Valid() && c in b.limits
    ensures var rows := BudgetComparison(txs, b, b.month).value;
      && (rows[c].remaining < 0 <==> b.IsOverBudget(c, rows[c].actual))
      && b.RemainingBudget(c, rows[c].actual) == (if rows[c].remaining > 0 then rows[c].remaining else 0)
      && b.UsagePercentage(c, rows[c].actual) == (if rows[c].percent < 100.0 then rows[c].percent else 100.0)
  {
  }

  // ---------------------------------------------------------------------
  // Monthly trends
  // ---------------------------------------------------------------------

  /** One line of the trend table. */
  datatype TrendRow = TrendRow(month: YearMonth, income: int, expenses: int, savings: int)

  /** Income of `month`. */
  function IncomeIn(txs: seq<Transaction>, month: YearMonth): int {
    TotalOfKind(ForMonth(txs, month), Income)
  }

  /** What the trend table counts as expenses of `month`: every transaction that is not INCOME. */
  function OutgoingsIn(txs: seq<Transaction>, month: YearMonth): int {
    TotalNotOfKind(ForMonth(txs, month), Income)
  }

  /** The trend rows for months 1 to `k` of `year`: a month appears iff it has positive income or expenses. */
  function TrendRowsUpTo(txs: seq<Transaction>, year: int, k: nat): seq<TrendRow>
    requires k <= 12
  {
    if k == 0 then []
    else
      var month := YearMonth(year, k);
      var income := IncomeIn(txs, month);
      var expenses := OutgoingsIn(txs, month);
      var rows := TrendRowsUpTo(txs, year, k - 1);
      if income > 0 || expenses > 0 then rows + [TrendRow(month, income, expenses, income - expenses)] else rows
  }

  /** One more month of the trend table, its figures given as values. */
  lemma TrendRowsUpToStep(txs: seq<Transaction>, year: int, k: nat, income: int, outgoings: int)
    requires 1 <= k <= 12
    requires income == IncomeIn(txs, YearMonth(year, k)) && outgoings == OutgoingsIn(txs, YearMonth(year, k))
    ensures TrendRowsUpTo(txs, year, k) ==
      if income > 0 || outgoings > 0
      then TrendRowsUpTo(txs, year, k - 1) + [TrendRow(YearMonth(year, k), income, outgoings, income - outgoings)]
      else TrendRowsUpTo(txs, year, k - 1)
  {
  }

  /** `row` is a month of `year` up to `k` with positive income or outgoings, those two sums and their difference. */
  predicate TrendRowFits(txs: seq<Transaction>, year: int, k: nat, row: TrendRow) {
    && row.month.year == year && 1 <= row.month.month <= k
    && row.income == IncomeIn(txs, row.month)
    && row.expenses == OutgoingsIn(txs, row.month)
    && row.savings == row.income - row.expenses
    && (row.income > 0 || row.expenses > 0)
  }

  /** Every trend row carries its month's figures. */
  lemma {:induction false} TrendRowsFigures(txs: seq<Transaction>, year: int, k: nat)
    requires k <= 12
    ensures forall row :: row in TrendRowsUpTo(txs, year, k) ==> TrendRowFits(txs, year, k, row)
  {
    if k > 0 {
      TrendRowsFigures(txs, year, k - 1);
      var rows := TrendRowsUpTo(txs, year, k - 1);
      var month := YearMonth(year, k);
      var next := TrendRow(month, IncomeIn(txs, month), OutgoingsIn(txs, month), IncomeIn(txs, month) - OutgoingsIn(txs, month));
      assert TrendRowsUpTo(txs, year, k) == rows + [next] || TrendRowsUpTo(txs, year, k) == rows;
      forall row | row in rows ensures TrendRowFits(txs, year, k, row) {
        assert TrendRowFits(txs, year, k - 1, row);
      }
    }
  }

  /** The trend rows run through the months in increasing order. */
  lemma {:induction false} TrendRowsOrdered(txs: seq<Transaction>, year: int, k: nat)
    requires k <= 12
    ensures forall i, j :: 0 <= i < j < |TrendRowsUpTo(txs, year, k)| ==>
      TrendRowsUpTo(txs, year, k)[i].month.month < TrendRowsUpTo(txs, year, k)[j].month.month
  {
    if k > 0 {
      TrendRowsOrdered(txs, year, k - 1);
      TrendRowsFigures(txs, year, k - 1);
      var rows := TrendRowsUpTo(txs, year, k - 1);
      var extended := TrendRowsUpTo(txs, year, k);
      var month := YearMonth(year, k);
      if IncomeIn(txs, month) > 0 || OutgoingsIn(txs, month) > 0 {
        assert extended == rows + [TrendRow(month, IncomeIn(txs, month), OutgoingsIn(txs, month), IncomeIn(txs, month) - OutgoingsIn(txs, month))];
        forall i, j | 0 <= i < j < |extended| ensures extended[i].month.month < extended[j].month.month {
          assert extended[i] == rows[i];
          assert TrendRowFits(txs, year, k - 1, rows[i]);
          if j < |rows| {
            assert extended[j] == rows[j];
          }
        }
      }
    }
  }

  /** Every month of `year` up to `k` with positive income or outgoings has a row. */
  lemma {:induction false} TrendRowsComplete(txs: seq<Transaction>, year: int, k: nat)
    requires k <= 12
    ensures forall m :: 1 <= m <= k && (IncomeIn(txs, YearMonth(year, m)) > 0 || OutgoingsIn(txs, YearMonth(year, m)) > 0) ==>
      exists row :: row in TrendRowsUpTo(txs, year, k) && row.month == YearMonth(year, m)
  {
    if k > 0 {
      TrendRowsComplete(txs, year, k - 1);
      var rows := TrendRowsUpTo(txs, year, k - 1);
      var month := YearMonth(year, k);
      if IncomeIn(txs, month) > 0 || OutgoingsIn(txs, month) > 0 {
        var next := TrendRow(month, IncomeIn(txs, month), OutgoingsIn(txs, month), IncomeIn(txs, month) - OutgoingsIn(txs, month));
        assert TrendRowsUpTo(txs, year, k) == rows + [next];
        assert next in TrendRowsUpTo(txs, year, k);
        assert forall row :: row in rows ==> row in TrendRowsUpTo(txs, year, k);
      }
    }
  }

  /**
   * The trend table of `year`: one row per month with positive income or
   * outgoings, carrying that month's figures, in increasing month order.
   */
  function TrendRows(txs: seq<Transaction>, year: int): (r: seq<TrendRow>)
    ensures forall row :: row in r ==> TrendRowFits(txs, year, 12, row)
    ensures forall i, j :: 0 <= i < j < |r| ==> r[i].month.month < r[j].month.month
    ensures forall m :: 1 <= m <= 12 && (IncomeIn(txs, YearMonth(year, m)) > 0 || OutgoingsIn(txs, YearMonth(year, m)) > 0) ==>
      exists row :: row in r && row.month == YearMonth(year, m)
  {
    TrendRowsFigures(txs, year, 12);
    TrendRowsOrdered(txs, year, 12);
    TrendRowsComplete(txs, year, 12);
    TrendRowsUpTo(txs, year, 12)
  }

  /** Adding one transaction moves its month's income or outgoings by its amount and leaves other months alone. */
  lemma TrendStep(txs: seq<Transaction>, i: int, month: YearMonth)
    requires 0 <= i < |txs|
    ensures IncomeIn(txs[..i + 1], month)
      == IncomeIn(txs[..i], month) + (if MonthOf(txs[i].date) == month && txs[i].kind == Income then txs[i].amount else 0)
    ensures OutgoingsIn(txs[..i + 1], month)
      == OutgoingsIn(txs[..i], month) + (if MonthOf(txs[i].date) == month && txs[i].kind != Income then txs[i].amount else 0)
  {
    var prefix := txs[..i + 1];
    assert prefix[..|prefix| - 1] == txs[..i];
    KindInMonthStep(prefix, month, Income);
  }

  /** `income` and `outgoings` hold, per month, the sums over `txs` (0 where a month has no entry). */
  ghost predicate Tallies(income: map<YearMonth, int>, outgoings: map<YearMonth, int>, txs: seq<Transaction>) {
    forall m :: Get(income, m) == IncomeIn(txs, m) && Get(outgoings, m) == OutgoingsIn(txs, m)
  }

  /** Adding income transaction `i` to its month's income keeps the tallies exact. */
  lemma TallyIncomeStep(income: map<YearMonth, int>, outgoings: map<YearMonth, int>, txs: seq<Transaction>, i: int,
                        t: Transaction, month: YearMonth)
    requires 0 <= i < |txs| && t == txs[i] && month == MonthOf(t.date) && t.kind == Income
    requires Tallies(income, outgoings, txs[..i])
    ensures Tallies(income[month := Get(income, month) + t.amount], outgoings, txs[..i + 1])
  {
    var income' := income[month := Get(income, month) + t.amount];
    forall m ensures Get(income', m) == IncomeIn(txs[..i + 1], m) && Get(outgoings, m) == OutgoingsIn(txs[..i + 1], m) {
      TrendStep(txs, i, m);
    }
  }

  /** Adding any other transaction `i` to its month's outgoings keeps the tallies exact. */
  lemma TallyOutgoingStep(income: map<YearMonth, int>, outgoings: map<YearMonth, int>, txs: seq<Transaction>, i: int,
                          t: Transaction, month: YearMonth)
    requires 0 <= i < |txs| && t == txs[i] && month == MonthOf(t.date) && t.kind != Income
    requires Tallies(income, outgoings, txs[..i])
    ensures Tallies(income, outgoings[month := Get(outgoings, month) + t.amount], txs[..i + 1])
  {
    var outgoings' := outgoings[month := Get(outgoings, month) + t.amount];
    forall m ensures Get(income, m) == IncomeIn(txs[..i + 1], m) && Get(outgoings', m) == OutgoingsIn(txs[..i + 1], m) {
      TrendStep(txs, i, m);
    }
  }

  /**
   * `generateMonthlyTrends`: sums income and everything else per month in
   * one pass, then lists months 1 to 12 of `year` that have either.
   */
  method MonthlyTrends(txs: seq<Transaction>, year: int) returns (rows: seq<TrendRow>)
    ensures rows == TrendRows(txs, year)
  {
    var income, outgoings := TallyMonths(txs);
    rows := [];
    var m := 1;
    while m <= 12
      invariant 1 <= m <= 13
      invariant rows == TrendRowsUpTo(txs, year, m - 1)
    {
      var month := YearMonth(year, m);
      var monthIncome := Get(income, month);
      var monthOutgoings := Get(outgoings, month);
      TrendRowsUpToStep(txs, year, m, monthIncome, monthOutgoings);
      if monthIncome > 0 || monthOutgoings > 0 {
        rows := rows + [TrendRow(month, monthIncome, monthOutgoings, monthIncome - monthOutgoings)];
      }
      m := m + 1;
    }
  }

  /** The single pass of `generateMonthlyTrends`: income and everything else summed per month. */
  method TallyMonths(txs: seq<Transaction>) returns (income: map<YearMonth, int>, outgoings: map<YearMonth, int>)
    ensures forall m :: Get(income, m) == IncomeIn(txs, m) && Get(outgoings, m) == OutgoingsIn(txs, m)
  {
    income := map[];
    outgoings := map[];
    var i := 0;
    while i < |txs|
      invariant 0 <= i <= |txs|
      invariant Tallies(income, outgoings, txs[..i])
    {
      var t := txs[i];
      var month: YearMonth := MonthOf(t.date);
      if t.kind == Income {
        TallyIncomeStep(income, outgoings, txs, i, t, month);
        income := income[month := Get(income, month) + t.amount];
      } else {
        TallyOutgoingStep(income, outgoings, txs, i, t, month);
        outgoings := outgoings[month := Get(outgoings, month) + t.amount];
      }
      i := i + 1;
    }
    assert txs[..|txs|] == txs;
  }

  /** Selecting the year first, as the yearly report does, does not change the trend table. */
  lemma TrendsOfYearSelection(txs: seq<Transaction>, year: int)
    ensures TrendRows(ForYear(txs, year), year) == TrendRows(txs, year)
  {
    TrendsOfYearSelectionUpTo(txs, year, 12);
  }

  lemma {:induction false} TrendsOfYearSelectionUpTo(txs: seq<Transaction>, year: int, k: nat)
    requires k <= 12
    ensures TrendRowsUpTo(ForYear(txs, year), year, k) == TrendRowsUpTo(txs, year, k)
  {
    if k > 0 {
      var month := YearMonth(year, k);
      TrendsOfYearSelectionUpTo(txs, year, k - 1);
      MonthWithinYear(txs, month);
      var income, outgoings := IncomeIn(txs, month), OutgoingsIn(txs, month);
      TrendRowsUpToStep(txs, year, k, income, outgoings);
      TrendRowsUpToStep(ForYear(txs, year), year, k, income, outgoings);
    }
  }

  // ---------------------------------------------------------------------
  // Reports
  // ---------------------------------------------------------------------

  /** The figures of `generateMonthlyReport`. */
  datatype MonthlyReport = MonthlyReport(
    income: int,
    expenses: int,
    net: int,
    overspent: bool,
    breakdown: seq<BreakdownRow>,
    comparison: Option<map<string, ComparisonRow>>)

  /** `generateMonthlyReport`: totals, net, the overspending warning, breakdown and comparison of `month`. */
  function MonthlyReportOf(txs: seq<Transaction>, b: Budget, month: YearMonth): (r: MonthlyReport)
    reads b
    ensures r.income == TotalIncome(ForMonth(txs, month))
    ensures r.expenses == TotalExpenses(ForMonth(txs, month))
    ensures r.net == r.income - r.expenses
    ensures r.overspent <==> r.income < r.expenses
    ensures r.breakdown == CategoryBreakdown(ForMonth(txs, month))
    ensures RowsTotal(r.breakdown) == r.expenses
    ensures r.comparison == BudgetComparison(ForMonth(txs, month), b, month)
    ensures r.comparison.Some? <==> b.month == month
  {
    var selected := ForMonth(txs, month);
    var income := TotalIncome(selected);
    var expenses := TotalExpenses(selected);
    BreakdownSumsToExpenses(selected);
    MonthlyReport(income, expenses, income - expenses, income - expenses < 0,
                  CategoryBreakdown(selected), BudgetComparison(selected, b, month))
  }

  /** The figures of `generateYearlyReport`. */
  datatype YearlyReport = YearlyReport(
    income: int,
    expenses: int,
    net: int,
    savingsRate: Option<real>,
    trends: seq<TrendRow>,
    breakdown: seq<BreakdownRow>)

  /**
   * `generateYearlyReport`: totals and net of `year`, the savings rate
   * only when there is income, the trend table and the breakdown.
   */
  function YearlyReportOf(txs: seq<Transaction>, year: int): (r: YearlyReport)
    ensures r.income == TotalIncome(ForYear(txs, year))
    ensures r.expenses == TotalExpenses(ForYear(txs, year))
    ensures r.net == r.income - r.expenses
    ensures r.savingsRate.Some? <==> r.income > 0
    ensures r.savingsRate.Some? ==> r.savingsRate.value == Percent(r.net, r.income)
    ensures r.trends == TrendRows(txs, year)
    ensures r.breakdown == CategoryBreakdown(ForYear(txs, year))
    ensures RowsTotal(r.breakdown) == r.expenses
  {
    var selected := ForYear(txs, year);
    var income := TotalIncome(selected);
    var expenses := TotalExpenses(selected);
    var net := income - expenses;
    TrendsOfYearSelection(txs, year);
    BreakdownSumsToExpenses(selected);
    YearlyReport(income, expenses, net,
                 if income > 0 then Some(Percent(net, income)) else None,
                 TrendRows(selected, year), CategoryBreakdown(selected))
  }

  /** The figures of `generateQuickSummary`. */
  datatype Summary = Summary(income: int, expenses: int, balance: int, tip: bool)

  /** `generateQuickSummary` for `currentMonth`: the month's income, expenses and balance. */
  function QuickSummary(txs: seq<Transaction>, currentMonth: YearMonth): (r: Summary)
    ensures r.income == TotalIncome(ForMonth(txs, currentMonth))
    ensures r.expenses == TotalExpenses(ForMonth(txs, currentMonth))
    ensures r.balance == r.income - r.expenses
    ensures r.tip <==> r.balance < 0
  {
    var selected := ForMonth(txs, currentMonth);
    var income := TotalIncome(selected);
    var expenses := TotalExpenses(selected);
    Summary(income, expenses, income - expenses, income - expenses < 0)
  }

  /** The quick summary shows the same figures as the monthly report of the same month. */
  lemma SummaryMatchesMonthlyReport(txs: seq<Transaction>, b: Budget, month: YearMonth)
    ensures QuickSummary(txs, month).income == MonthlyReportOf(txs, b, month).income
    ensures QuickSummary(txs, month).expenses == MonthlyReportOf(txs, b, month).expenses
    ensures QuickSummary(txs, month).balance == MonthlyReportOf(txs, b, month).net
  {
  }

  /**
   * A food expense of 100.00 and a salary of 500.00 in January 2024 give
   * income 500.00, expenses 100.00, net 400.00 and a single breakdown row
   * for Food at 100%.
   */
  lemma JanuaryScenario(b: Budget)
    ensures var txs := [
        Transaction(1, Expense, 10000, "Food", "", Date(2024, 1, 5)),
        Transaction(2, Income, 50000, "Salary", "", Date(2024, 1, 1))];
      var r := MonthlyReportOf(txs, b, YearMonth(2024, 1));
      && r.income == 50000 && r.expenses == 10000 && r.net == 40000 && !r.overspent
      && r.breakdown == [BreakdownRow("Food", 10000, 100.0)]
  {
    var food := Transaction(1, Expense, 10000, "Food", "", Date(2024, 1, 5));
    var salary := Transaction(2, Income, 50000, "Salary", "", Date(2024, 1, 1));
    var txs := [food, salary];
    var january := YearMonth(2024, 1);
    assert txs[..1] == [food];
    assert [food][..0] == [];
    assert ForMonth([food], january) == [food];
    assert ForMonth(txs, january) == txs;
    assert TotalOfKind([], Expense) == 0;
    assert TotalOfKind([food], Expense) == 10000;
    assert TotalExpenses([food]) == 10000;
    assert TotalExpenses(txs) == 10000;
    assert Expense != Income by {
      assert |Expense| != |Income|;
    }
    assert TotalOfKind([food], Income) == 0;
    assert TotalIncome([food]) == 0;
    assert TotalIncome(txs) == 50000;
    assert FirstSeen([food]) == ["Food"];
    assert FirstSeen(txs) == ["Food"];
    assert ExpensesByCategory([food]) == map["Food" := 10000];
    assert ExpensesByCategory(txs) == map["Food" := 10000];
    var row := BreakdownRow("Food", 10000, Percent(10000, 10000));
    assert Percent(10000, 10000) == 100.0;
    assert RowsFor(map["Food" := 10000], ["Food"], 10000) == [row];
    assert SortDescending([row]) == [row] by {
      assert [row][1..] == [];
    }
  }
}
