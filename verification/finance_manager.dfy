/**
 * The ledger session: the transaction list, the savings goals, the
 * budget, the two id counters and the category registry, with the
 * commands that validate input and change them, the list views and the
 * statistics. Console prompts become parameters; the current date is
 * passed in.
 */
module Session {
  import opened Wrappers
  import opened Text
  import opened Dates
  import opened Ids
  import opened Transactions
  import opened Categories
  import Budgets
  import SavingsGoals
  import Reports
  import DataStore

  // ---------------------------------------------------------------------
  // Monthly spending
  // ---------------------------------------------------------------------

  /** `getMonthlySpending`: the EXPENSE amounts of exactly `category` dated in `month`. */
  function MonthlySpending(txs: seq<Transaction>, category: string, month: YearMonth): int {
    if txs == [] then 0
    else
      var last := txs[|txs| - 1];
      MonthlySpending(txs[..|txs| - 1], category, month)
        + (if last.kind == Expense && last.category == category && MonthOf(last.date) == month then last.amount else 0)
  }

  /** Appending a transaction adds its amount exactly when it is an expense of that category and month. */
  lemma MonthlySpendingAppend(txs: seq<Transaction>, t: Transaction, category: string, month: YearMonth)
    ensures MonthlySpending(txs + [t], category, month) == MonthlySpending(txs, category, month)
      + (if t.kind == Expense && t.category == category && MonthOf(t.date) == month then t.amount else 0)
  {
    assert (txs + [t])[..|txs|] == txs;
  }

  lemma SpentInAppend(txs: seq<Transaction>, t: Transaction, category: string)
    ensures Reports.SpentIn(txs + [t], category) == Reports.SpentIn(txs, category)
      + (if t.kind == Expense && t.category == category then t.amount else 0)
  {
    assert (txs + [t])[..|txs|] == txs;
  }

  /** The session's monthly spending is the report's spending of the category within the month's selection. */
  lemma {:induction false} MonthlySpendingIsSpentInMonth(txs: seq<Transaction>, category: string, month: YearMonth)
    ensures MonthlySpending(txs, category, month) == Reports.SpentIn(Reports.ForMonth(txs, month), category)
  {
    if txs != [] {
      var prefix, last := txs[..|txs| - 1], txs[|txs| - 1];
      MonthlySpendingIsSpentInMonth(prefix, category, month);
      if MonthOf(last.date) == month {
        SpentInAppend(Reports.ForMonth(prefix, month), last, category);
      } else {
        assert Reports.ForMonth(txs, month) == Reports.ForMonth(prefix, month);
      }
    }
  }

  // ---------------------------------------------------------------------
  // Command outcomes
  // ---------------------------------------------------------------------

  /** Why a command changed nothing. */
  datatype Rejection =
    | AmountNotPositive
    | NegativeAmount
    | InvalidCategory
    | InvalidDate
    | GoalNotFound

  /** The figures of the budget check after an expense is added. */
  datatype BudgetAlert = BudgetAlert(spent: int, remaining: int, nearLimit: bool, overBudget: bool)

  /** An added transaction and, for an expense of a budgeted category, the budget check. */
  datatype Added = Added(transaction: Transaction, alert: Option<BudgetAlert>)

  /** The category and amount stored by the set-budget command, with the month's spending so far. */
  datatype BudgetSet = BudgetSet(category: string, amount: int, spent: int, remaining: int)

  /** The share of a limit from which the near-limit warning is shown. */
  const NearLimitThreshold: real := 0.8

  /**
   * The check after an expense is added: for an expense of a category
   * with a positive limit, its month's spending (the new one included)
   * against the limit, with the 80% warning; nothing otherwise.
   */
  function BudgetCheck(b: Budgets.Budget, txs: seq<Transaction>, t: Transaction): (alert: Option<BudgetAlert>)
    reads b
    ensures alert.Some? <==> t.kind == Expense && b.HasBudget(t.category)
    ensures alert.Some? ==>
      && alert.value.spent == MonthlySpending(txs, t.category, MonthOf(t.date))
      && alert.value.remaining == b.GetBudget(t.category) - alert.value.spent
      && (alert.value.nearLimit <==> alert.value.spent as real >= NearLimitThreshold * b.GetBudget(t.category) as real)
      && (alert.value.overBudget <==> alert.value.spent > b.GetBudget(t.category))
    ensures alert.Some? && alert.value.overBudget ==> alert.value.nearLimit
  {
    if t.kind == Expense && b.HasBudget(t.category) then
      var spent := MonthlySpending(txs, t.category, MonthOf(t.date));
      var over := b.IsOverBudget(t.category, spent);
      var near := b.IsNearBudgetLimit(t.category, spent, NearLimitThreshold);
      assert over ==> near by {
        if over {
          Budgets.OverBudgetIsNear(b, t.category, spent, NearLimitThreshold);
        }
      }
      Some(BudgetAlert(spent, b.GetBudget(t.category) - spent, near, over))
    else None
  }

  /** The type chosen from the add menu: 1 is INCOME, anything else EXPENSE. */
  function KindOf(choice: int): (kind: string)
    ensures kind == Income <==> choice == 1
    ensures kind == Income || kind == Expense
  {
    if choice == 1 then Income else Expense
  }

  /** The date typed for a new transaction: today when it is blank or does not parse. */
  function DateOrToday(input: string, today: CalendarDate): (d: CalendarDate)
    ensures Trim(input) == [] ==> d == today
    ensures Trim(input) != [] && ParseDate(Trim(input)).Some? ==> d == ParseDate(Trim(input)).value
    ensures ParseDate(Trim(input)).None? ==> d == today
  {
    var trimmed := Trim(input);
    if trimmed == [] then today
    else match ParseDate(trimmed)
      case Some(d) => d
      case None => today
  }

  lemma UpperKinds()
    ensures ToUpper(Income) == Income && ToUpper(Expense) == Expense
  {
    assert ToUpper(Income) == "INCOME";
    assert ToUpper(Expense) == "EXPENSE";
  }

  // ---------------------------------------------------------------------
  // Goal lookup and removal
  // ---------------------------------------------------------------------

  /**
   * The `findFirst` of the goal lookup, from index `from` on: the first
   * goal with id `id`, or `None` when there is none.
   */
  function FindGoal(goals: seq<SavingsGoals.SavingsGoal>, id: int, from: nat): (r: Option<nat>)
    requires from <= |goals|
    reads set g | g in goals
    ensures r.Some? ==> from <= r.value < |goals| && goals[r.value].id == id
    ensures r.Some? ==> forall j :: from <= j < r.value ==> goals[j].id != id
    ensures r.None? ==> forall j :: from <= j < |goals| ==> goals[j].id != id
    decreases |goals| - from
  {
    if from == |goals| then None
    else if goals[from].id == id then Some(from)
    else FindGoal(goals, id, from + 1)
  }

  /** `removeIf(g -> g.getId() == id)`: the goals with any other id, in their order. */
  function RemoveWithId(goals: seq<SavingsGoals.SavingsGoal>, id: int): (r: seq<SavingsGoals.SavingsGoal>)
    reads set g | g in goals
    ensures |r| <= |goals|
    ensures forall k :: 0 <= k < |r| ==> r[k] in goals && r[k].id != id
    ensures forall k :: 0 <= k < |goals| && goals[k].id != id ==> goals[k] in r
  {
    if goals == [] then []
    else
      var last := goals[|goals| - 1];
      RemoveWithId(goals[..|goals| - 1], id) + (if last.id == id then [] else [last])
  }

  /** Removal shortens the list exactly when some goal has the id. */
  lemma {:induction false} RemoveWithIdShrinks(goals: seq<SavingsGoals.SavingsGoal>, id: int)
    ensures |RemoveWithId(goals, id)| < |goals| <==> exists k :: 0 <= k < |goals| && goals[k].id == id
  {
    if goals != [] {
      var n := |goals| - 1;
      var prefix := goals[..n];
      RemoveWithIdShrinks(prefix, id);
      if goals[n].id == id {
        assert |RemoveWithId(goals, id)| == |RemoveWithId(prefix, id)|;
      } else {
        assert |RemoveWithId(goals, id)| == |RemoveWithId(prefix, id)| + 1;
        if k :| 0 <= k < |goals| && goals[k].id == id {
          assert prefix[k].id == id;
        }
        if k :| 0 <= k < n && prefix[k].id == id {
          assert goals[k].id == id;
        }
      }
    }
  }

  /** Removal works piece by piece: it keeps the relative order of the goals it keeps. */
  lemma {:induction false} RemoveWithIdAppend(a: seq<SavingsGoals.SavingsGoal>, b: seq<SavingsGoals.SavingsGoal>, id: int)
    ensures RemoveWithId(a + b, id) == RemoveWithId(a, id) + RemoveWithId(b, id)
  {
    if b != [] {
      var n := |b| - 1;
      RemoveWithIdAppend(a, b[..n], id);
      assert (a + b)[..|a + b| - 1] == a + b[..n];
    } else {
      assert a + b == a;
    }
  }

  /** Removing from distinct goals leaves distinct goals. */
  lemma {:induction false} RemoveWithIdDistinct(goals: seq<SavingsGoals.SavingsGoal>, id: int)
    requires DataStore.Distinct(goals)
    ensures DataStore.Distinct(RemoveWithId(goals, id))
  {
    if goals != [] {
      var n := |goals| - 1;
      var prefix, last := goals[..n], goals[n];
      RemoveWithIdDistinct(prefix, id);
      var kept := RemoveWithId(prefix, id);
      if last.id != id {
        forall k | 0 <= k < |kept| ensures kept[k] != last {
          assert kept[k] in prefix;
        }
        DataStore.DistinctAppend(kept, last);
      }
    }
  }

  // ---------------------------------------------------------------------
  // Transaction views
  // ---------------------------------------------------------------------

  /** The transactions `keep` accepts, in their order. */
  function Where(txs: seq<Transaction>, keep: Transaction -> bool): (r: seq<Transaction>)
    ensures |r| <= |txs|
    ensures forall t :: t in r <==> t in txs && keep(t)
  {
    if txs == [] then []
    else (if keep(txs[0]) then [txs[0]] else []) + Where(txs[1..], keep)
  }

  /** The first transaction is kept or dropped, and the rest filtered. */
  lemma WhereCons(t: Transaction, rest: seq<Transaction>, keep: Transaction -> bool)
    ensures Where([t] + rest, keep) == (if keep(t) then [t] else []) + Where(rest, keep)
  {
    assert ([t] + rest)[0] == t && ([t] + rest)[1..] == rest;
  }

  lemma AppendAssociates<T>(x: seq<T>, y: seq<T>, z: seq<T>)
    ensures x + (y + z) == (x + y) + z
  {
  }

  lemma {:induction false} WhereAppend(a: seq<Transaction>, b: seq<Transaction>, keep: Transaction -> bool)
    ensures Where(a + b, keep) == Where(a, keep) + Where(b, keep)
  {
    if a != [] {
      var head := if keep(a[0]) then [a[0]] else [];
      calc {
        Where(a + b, keep);
      == { assert a + b == [a[0]] + (a[1..] + b); WhereCons(a[0], a[1..] + b, keep); }
        head + Where(a[1..] + b, keep);
      == { WhereAppend(a[1..], b, keep); }
        head + (Where(a[1..], keep) + Where(b, keep));
      == { AppendAssociates(head, Where(a[1..], keep), Where(b, keep)); }
        (head + Where(a[1..], keep)) + Where(b, keep);
      == { assert a == [a[0]] + a[1..]; WhereCons(a[0], a[1..], keep); }
        Where(a, keep) + Where(b, keep);
      }
    } else {
      assert a + b == b;
    }
  }

  function InMonth(month: YearMonth): Transaction -> bool {
    (t: Transaction) => MonthOf(t.date) == month
  }

  function OfKind(kind: string): Transaction -> bool {
    (t: Transaction) => t.kind == kind
  }

  function InCategoryIgnoringCase(category: string): Transaction -> bool {
    (t: Transaction) => EqualsIgnoreCase(t.category, category)
  }

  function OnDate(d: CalendarDate): Transaction -> bool {
    (t: Transaction) => t.date == d
  }

  /** The "this month" view selects what the monthly report selects. */
  lemma {:induction false} MonthViewIsMonthSelection(txs: seq<Transaction>, month: YearMonth)
    ensures Where(txs, InMonth(month)) == Reports.ForMonth(txs, month)
  {
    if txs != [] {
      var prefix, last := txs[..|txs| - 1], txs[|txs| - 1];
      MonthViewIsMonthSelection(prefix, month);
      assert txs == prefix + [last];
      WhereAppend(prefix, [last], InMonth(month));
      WhereCons(last, [], InMonth(month));
      assert [last] + [] == [last];
    }
  }

  /**
   * The rows of a view choice: 1 all, 2 this month, 3 exactly INCOME,
   * 4 exactly EXPENSE, 5 the category compared without regard to case;
   * no rows for any other choice.
   */
  function Selection(txs: seq<Transaction>, choice: int, currentMonth: YearMonth, category: string): (r: seq<Transaction>)
    ensures choice == 1 ==> r == txs
    ensures choice == 2 ==> r == Reports.ForMonth(txs, currentMonth)
    ensures choice == 3 ==> r == Where(txs, OfKind(Income))
    ensures choice == 3 ==> forall t :: t in r <==> t in txs && t.kind == Income
    ensures choice == 4 ==> r == Where(txs, OfKind(Expense))
    ensures choice == 4 ==> forall t :: t in r <==> t in txs && t.kind == Expense
    ensures choice == 5 ==> r == Where(txs, InCategoryIgnoringCase(category))
    ensures choice == 5 ==> forall t :: t in r <==> t in txs && EqualsIgnoreCase(t.category, category)
    ensures !(1 <= choice <= 5) ==> r == []
  {
    if choice == 1 then txs
    else if choice == 2 then MonthViewIsMonthSelection(txs, currentMonth); Where(txs, InMonth(currentMonth))
    else if choice == 3 then Where(txs, OfKind(Income))
    else if choice == 4 then Where(txs, OfKind(Expense))
    else if choice == 5 then Where(txs, InCategoryIgnoringCase(category))
    else []
  }

  /** Newest date first: each row's date is on or after the dates of the rows below it. */
  predicate NewestFirstOrder(rows: seq<Transaction>) {
    forall i, j :: 0 <= i < j < |rows| ==> OnOrBefore(rows[j].date, rows[i].date)
  }

  /** Inserts `x` before the first row that is not newer, so it stays ahead of rows with its date. */
  function InsertNewest(x: Transaction, rows: seq<Transaction>): seq<Transaction> {
    if rows == [] then [x]
    else if OnOrBefore(rows[0].date, x.date) then [x] + rows
    else [rows[0]] + InsertNewest(x, rows[1..])
  }

  /** The view's stable sort by date, newest first (`sort` with a reversed date comparator). */
  function NewestFirst(rows: seq<Transaction>): seq<Transaction> {
    if rows == [] then [] else InsertNewest(rows[0], NewestFirst(rows[1..]))
  }

  /** Every row is dated on or before `d`. */
  predicate NoneAfter(rows: seq<Transaction>, d: CalendarDate) {
    forall k :: 0 <= k < |rows| ==> OnOrBefore(rows[k].date, d)
  }

  /** A row dated no earlier than every sorted row can go in front of them. */
  lemma PrependNewest(x: Transaction, rows: seq<Transaction>)
    requires NewestFirstOrder(rows) && NoneAfter(rows, x.date)
    ensures NewestFirstOrder([x] + rows)
  {
    var r := [x] + rows;
    forall i, j | 0 <= i < j < |r| ensures OnOrBefore(r[j].date, r[i].date) {
      assert r[j] == rows[j - 1];
      if i > 0 {
        assert r[i] == rows[i - 1];
      }
    }
  }

  /** In sorted rows nothing is newer than the first. */
  lemma HeadIsNewest(rows: seq<Transaction>, d: CalendarDate)
    requires NewestFirstOrder(rows) && rows != [] && OnOrBefore(rows[0].date, d)
    ensures NoneAfter(rows, d)
  {
    forall k | 0 <= k < |rows| ensures OnOrBefore(rows[k].date, d) {
      OnOrBeforeIsTotalOrder(rows[k].date, rows[0].date, d);
    }
  }

  lemma {:induction false} InsertNewestSorted(x: Transaction, rows: seq<Transaction>)
    requires NewestFirstOrder(rows)
    ensures NewestFirstOrder(InsertNewest(x, rows))
    ensures multiset(InsertNewest(x, rows)) == multiset(rows) + multiset{x}
  {
    if rows == [] {
    } else if OnOrBefore(rows[0].date, x.date) {
      HeadIsNewest(rows, x.date);
      PrependNewest(x, rows);
    } else {
      var head, tail := rows[0], rows[1..];
      assert rows == [head] + tail;
      InsertNewestSorted(x, tail);
      var inserted := InsertNewest(x, tail);
      OnOrBeforeIsTotalOrder(x.date, head.date, x.date);
      forall k | 0 <= k < |inserted| ensures OnOrBefore(inserted[k].date, head.date) {
        assert inserted[k] in multiset(tail) + multiset{x};
        if inserted[k] != x {
          var j :| 0 <= j < |tail| && tail[j] == inserted[k];
          assert rows[j + 1] == inserted[k];
        }
      }
      PrependNewest(head, inserted);
    }
  }

  lemma {:induction false} NewestFirstSorted(rows: seq<Transaction>)
    ensures NewestFirstOrder(NewestFirst(rows))
    ensures multiset(NewestFirst(rows)) == multiset(rows)
  {
    if rows != [] {
      NewestFirstSorted(rows[1..]);
      InsertNewestSorted(rows[0], NewestFirst(rows[1..]));
      assert rows == [rows[0]] + rows[1..];
    }
  }

  /** Inserting keeps the rows of any one date in their order, with `x` at the front of its date. */
  lemma {:induction false} InsertNewestStable(x: Transaction, rows: seq<Transaction>, d: CalendarDate)
    ensures Where(InsertNewest(x, rows), OnDate(d)) == (if x.date == d then [x] else []) + Where(rows, OnDate(d))
  {
    if rows != [] && !OnOrBefore(rows[0].date, x.date) {
      InsertNewestStable(x, rows[1..], d);
      var r := InsertNewest(x, rows);
      assert r[1..] == InsertNewest(x, rows[1..]);
      assert rows[0].date != x.date;
    } else if rows == [] {
      assert [x][1..] == [];
    } else {
      assert ([x] + rows)[1..] == rows;
    }
  }

  /** The sort is stable: the transactions of each date keep their original order. */
  lemma {:induction false} NewestFirstStable(rows: seq<Transaction>, d: CalendarDate)
    ensures Where(NewestFirst(rows), OnDate(d)) == Where(rows, OnDate(d))
  {
    if rows != [] {
      NewestFirstStable(rows[1..], d);
      InsertNewestStable(rows[0], NewestFirst(rows[1..]), d);
    }
  }

  /** The rows `viewTransactionsMenu` displays: the selection, sorted newest first. */
  function ViewRows(txs: seq<Transaction>, choice: int, currentMonth: YearMonth, category: string): (rows: seq<Transaction>)
    ensures NewestFirstOrder(rows)
    ensures multiset(rows) == multiset(Selection(txs, choice, currentMonth, category))
  {
    var selected := Selection(txs, choice, currentMonth, category);
    NewestFirstSorted(selected);
    NewestFirst(selected)
  }

  /** The view's total before `Math.abs`: income counts positive, every other type negative. */
  function SignedTotal(rows: seq<Transaction>): int {
    if rows == [] then 0
    else
      var last := rows[|rows| - 1];
      SignedTotal(rows[..|rows| - 1]) + (if last.kind == Income then last.amount else -last.amount)
  }

  lemma {:induction false} SignedTotalAppend(a: seq<Transaction>, b: seq<Transaction>)
    ensures SignedTotal(a + b) == SignedTotal(a) + SignedTotal(b)
  {
    if b != [] {
      SignedTotalAppend(a, b[..|b| - 1]);
      assert (a + b)[..|a + b| - 1] == a + b[..|b| - 1];
    } else {
      assert a + b == a;
    }
  }

  /** The total is income minus everything else, as the trend table counts them. */
  lemma {:induction false} SignedTotalIsNet(rows: seq<Transaction>)
    ensures SignedTotal(rows) == Reports.TotalOfKind(rows, Income) - Reports.TotalNotOfKind(rows, Income)
  {
    if rows != [] {
      SignedTotalIsNet(rows[..|rows| - 1]);
    }
  }

  /** Sorting does not change the total. */
  lemma {:induction false} SignedTotalOfNewestFirst(rows: seq<Transaction>)
    ensures SignedTotal(NewestFirst(rows)) == SignedTotal(rows)
  {
    if rows != [] {
      SignedTotalOfNewestFirst(rows[1..]);
      SignedTotalOfInsert(rows[0], NewestFirst(rows[1..]));
      SignedTotalAppend([rows[0]], rows[1..]);
      assert rows == [rows[0]] + rows[1..];
    }
  }

  lemma {:induction false} SignedTotalOfInsert(x: Transaction, rows: seq<Transaction>)
    ensures SignedTotal(InsertNewest(x, rows)) == SignedTotal([x]) + SignedTotal(rows)
  {
    if rows == [] {
    } else if OnOrBefore(rows[0].date, x.date) {
      SignedTotalAppend([x], rows);
    } else {
      SignedTotalOfInsert(x, rows[1..]);
      SignedTotalAppend([rows[0]], InsertNewest(x, rows[1..]));
      SignedTotalAppend([rows[0]], rows[1..]);
      assert rows == [rows[0]] + rows[1..];
    }
  }

  // ---------------------------------------------------------------------
  // Statistics
  // ---------------------------------------------------------------------

  /** How many transactions have exactly type `kind`. */
  function CountOfKind(txs: seq<Transaction>, kind: string): nat {
    if txs == [] then 0
    else CountOfKind(txs[..|txs| - 1], kind) + (if txs[|txs| - 1].kind == kind then 1 else 0)
  }

  /** A type's count is the length of the view of that type, as `filter(...).count()` gives. */
  lemma {:induction false} CountOfKindIsViewLength(txs: seq<Transaction>, kind: string)
    ensures CountOfKind(txs, kind) == |Where(txs, OfKind(kind))|
  {
    if txs != [] {
      var prefix, last := txs[..|txs| - 1], txs[|txs| - 1];
      CountOfKindIsViewLength(prefix, kind);
      assert txs == prefix + [last];
      WhereAppend(prefix, [last], OfKind(kind));
      WhereCons(last, [], OfKind(kind));
      assert [last] + [] == [last];
    }
  }

  /** Income and expense counts never exceed the number of transactions; they fill it iff no other type occurs. */
  lemma {:induction false} CountsWithinTotal(txs: seq<Transaction>)
    ensures CountOfKind(txs, Income) + CountOfKind(txs, Expense) <= |txs|
    ensures CountOfKind(txs, Income) + CountOfKind(txs, Expense) == |txs|
      <==> forall k :: 0 <= k < |txs| ==> txs[k].kind == Income || txs[k].kind == Expense
  {
    if txs != [] {
      var n := |txs| - 1;
      CountsWithinTotal(txs[..n]);
      assert forall k :: 0 <= k < n ==> txs[..n][k] == txs[k];
    }
  }

  /** The earliest date of the list (`min` by date). */
  function Earliest(txs: seq<Transaction>): (d: CalendarDate)
    requires txs != []
    ensures exists t :: t in txs && t.date == d
    ensures forall t :: t in txs ==> OnOrBefore(d, t.date)
  {
    var last := txs[|txs| - 1];
    if |txs| == 1 then last.date
    else
      var rest := Earliest(txs[..|txs| - 1]);
      assert txs == txs[..|txs| - 1] + [last];
      if OnOrBefore(rest, last.date) then rest
      else
        OnOrBeforeIsTotalOrder(rest, last.date, last.date);
        assert forall t :: t in txs[..|txs| - 1] ==> OnOrBefore(last.date, t.date) by {
          forall t | t in txs[..|txs| - 1] ensures OnOrBefore(last.date, t.date) {
            OnOrBeforeIsTotalOrder(last.date, rest, t.date);
          }
        }
        last.date
  }

  /** The latest date of the list (`max` by date). */
  function Latest(txs: seq<Transaction>): (d: CalendarDate)
    requires txs != []
    ensures exists t :: t in txs && t.date == d
    ensures forall t :: t in txs ==> OnOrBefore(t.date, d)
  {
    var last := txs[|txs| - 1];
    if |txs| == 1 then last.date
    else
      var rest := Latest(txs[..|txs| - 1]);
      assert txs == txs[..|txs| - 1] + [last];
      if OnOrBefore(last.date, rest) then rest
      else
        OnOrBeforeIsTotalOrder(last.date, rest, last.date);
        assert forall t :: t in txs[..|txs| - 1] ==> OnOrBefore(t.date, last.date) by {
          forall t | t in txs[..|txs| - 1] ensures OnOrBefore(t.date, last.date) {
            OnOrBeforeIsTotalOrder(t.date, rest, last.date);
          }
        }
        last.date
  }

  /** The figures `showStatistics` prints. */
  datatype Statistics = Statistics(
    transactions: nat,
    incomeCount: nat,
    expenseCount: nat,
    goals: nat,
    budgetCategories: nat,
    earliest: CalendarDate,
    latest: CalendarDate)

  /**
   * `showStatistics`: nothing for an empty list; otherwise the counts by
   * exact type, the number of goals and of budget entries, and the range
   * of dates.
   */
  function StatisticsOf(txs: seq<Transaction>, goalCount: nat, budgetCategories: nat): (r: Option<Statistics>)
    ensures r.None? <==> txs == []
    ensures r.Some? ==>
      r.value.transactions == |txs| && r.value.goals == goalCount && r.value.budgetCategories == budgetCategories
    ensures r.Some? ==>
      r.value.incomeCount == CountOfKind(txs, Income) && r.value.expenseCount == CountOfKind(txs, Expense)
    ensures r.Some? ==> r.value.incomeCount + r.value.expenseCount <= r.value.transactions
    ensures r.Some? ==> (exists t :: t in txs && t.date == r.value.earliest) && (exists t :: t in txs && t.date == r.value.latest)
    ensures r.Some? ==> OnOrBefore(r.value.earliest, r.value.latest)
    ensures r.Some? ==> forall t :: t in txs ==> OnOrBefore(r.value.earliest, t.date) && OnOrBefore(t.date, r.value.latest)
  {
    if txs == [] then None
    else
      var earliest, latest := Earliest(txs), Latest(txs);
      CountsWithinTotal(txs);
      assert OnOrBefore(earliest, txs[0].date) && OnOrBefore(txs[0].date, latest);
      OnOrBeforeIsTotalOrder(earliest, txs[0].date, latest);
      Some(Statistics(|txs|, CountOfKind(txs, Income), CountOfKind(txs, Expense), goalCount, budgetCategories, earliest, latest))
  }

  // ---------------------------------------------------------------------
  // The session
  // ---------------------------------------------------------------------

  /** Which file stopped the load, and at which line. */
  datatype LoadFailure = TransactionLine(line: nat) | BudgetLine(line: nat) | GoalLine(line: nat)

  class FinanceSession {
    var transactions: seq<Transaction>
    var goals: seq<SavingsGoals.SavingsGoal>
    const budget: Budgets.Budget
    /** The static `nextId` of `Transaction`. */
    const transactionIds: IdCounter
    /** The static `nextId` of `SavingsGoal`. */
    const goalIds: IdCounter
    /** The static custom-category list of `Category`. */
    const categories: CategoryRegistry

    /**
     * The goals are distinct objects and each counter is ahead of every id
     * in use, so a new record never takes an id already present.
     */
    ghost predicate IdsAhead()
      reads this, transactionIds, goalIds, set g | g in goals
    {
      && transactionIds != goalIds
      && DataStore.Distinct(goals)
      && (forall t :: t in transactions ==> t.id < transactionIds.next)
      && (forall k :: 0 <= k < |goals| ==> goals[k].id < goalIds.next)
    }

    /** The budget and the registry keep their own invariants, and the ids stay ahead. */
    ghost predicate Valid()
      reads this, budget, transactionIds, goalIds, categories, set g | g in goals
    {
      budget.Valid() && categories.Valid() && IdsAhead()
    }

    constructor (transactions: seq<Transaction>, goals: seq<SavingsGoals.SavingsGoal>, budget: Budgets.Budget,
                 transactionIds: IdCounter, goalIds: IdCounter, categories: CategoryRegistry)
      requires budget.Valid() && categories.Valid() && transactionIds != goalIds && DataStore.Distinct(goals)
      requires forall t :: t in transactions ==> t.id < transactionIds.next
      requires forall k :: 0 <= k < |goals| ==> goals[k].id < goalIds.next
      ensures Valid()
      ensures this.transactions == transactions && this.goals == goals && this.budget == budget
      ensures this.transactionIds == transactionIds && this.goalIds == goalIds && this.categories == categories
    {
      this.transactions := transactions;
      this.goals := goals;
      this.budget := budget;
      this.transactionIds := transactionIds;
      this.goalIds := goalIds;
      this.categories := categories;
    }

    /**
     * The validation and append of `addTransactionMenu`: a non-positive
     * amount or a category number off the menu changes nothing; otherwise
     * one transaction with the next id is appended, dated today when the
     * date is blank or does not parse. For an expense of a category with a
     * positive limit, the month's spending (the new one included) is
     * checked against the limit.
     */
    method AddTransaction(choice: int, amount: int, categoryChoice: int, description: string,
                          dateInput: string, today: CalendarDate) returns (r: Result<Added, Rejection>)
      requires Valid()
      modifies this, transactionIds
      ensures Valid()
      ensures goals == old(goals)
      ensures amount <= 0 ==> r == Err(AmountNotPositive)
      ensures amount > 0 && categories.CategoryByIndex(KindOf(choice), categoryChoice).None? ==> r == Err(InvalidCategory)
      ensures r.Ok? <==> amount > 0 && categories.CategoryByIndex(KindOf(choice), categoryChoice).Some?
      ensures r.Err? ==> transactions == old(transactions) && transactionIds.next == old(transactionIds.next)
      ensures r.Ok? ==>
        && transactions == old(transactions) + [r.value.transaction]
        && r.value.transaction == Transaction(old(transactionIds.next), KindOf(choice), amount,
             categories.CategoryByIndex(KindOf(choice), categoryChoice).value, description, DateOrToday(dateInput, today))
        && transactionIds.next == old(transactionIds.next) + 1
      ensures r.Ok? ==> forall t :: t in old(transactions) ==> t.id != r.value.transaction.id
      ensures r.Ok? ==> r.value.alert == BudgetCheck(budget, transactions, r.value.transaction)
    {
      var kind := KindOf(choice);
      if amount <= 0 {
        return Err(AmountNotPositive);
      }
      var category := categories.CategoryByIndex(kind, categoryChoice);
      if category.None? {
        return Err(InvalidCategory);
      }
      var date := DateOrToday(dateInput, today);
      UpperKinds();
      var t := Create(transactionIds, kind, amount, category.value, description, date);
      transactions := transactions + [t];
      var alert := BudgetCheck(budget, transactions, t);
      return Ok(Added(t, alert));
    }

    /**
     * `setBudget`: a category number off the expense menu or a negative
     * amount changes nothing; otherwise the limit is stored and the
     * current month's spending on it is reported.
     */
    method SetBudget(categoryChoice: int, amount: int, currentMonth: CalendarMonth) returns (r: Result<BudgetSet, Rejection>)
      requires Valid()
      modifies budget
      ensures Valid()
      ensures budget.month == old(budget.month)
      ensures categories.CategoryByIndex(Expense, categoryChoice).None? ==> r == Err(InvalidCategory)
      ensures categories.CategoryByIndex(Expense, categoryChoice).Some? && amount < 0 ==> r == Err(NegativeAmount)
      ensures r.Err? ==> budget.limits == old(budget.limits)
      ensures r.Ok? <==> categories.CategoryByIndex(Expense, categoryChoice).Some? && amount >= 0
      ensures r.Ok? ==>
        && r.value.category == categories.CategoryByIndex(Expense, categoryChoice).value
        && r.value.category in ExpenseBuiltIns + categories.custom
        && budget.limits == old(budget.limits)[r.value.category := amount]
        && r.value.amount == amount
        && r.value.spent == MonthlySpending(transactions, r.value.category, currentMonth)
        && r.value.remaining == amount - r.value.spent
    {
      var category := categories.CategoryByIndex(Expense, categoryChoice);
      if category.None? {
        return Err(InvalidCategory);
      }
      if amount < 0 {
        return Err(NegativeAmount);
      }
      budget.SetBudget(category.value, amount);
      var spent := MonthlySpending(transactions, category.value, currentMonth);
      return Ok(BudgetSet(category.value, amount, spent, amount - spent));
    }

    /**
     * `createSavingsGoal`: a non-positive target or a date that does not
     * parse creates nothing; otherwise a goal with the next goal id is
     * appended. The result says whether the target date is already past.
     */
    method CreateSavingsGoal(name: string, target: int, dateInput: string, description: string, today: CalendarDate)
      returns (r: Result<bool, Rejection>)
      requires Valid()
      modifies this, goalIds
      ensures Valid()
      ensures transactions == old(transactions)
      ensures target <= 0 ==> r == Err(AmountNotPositive)
      ensures target > 0 && ParseDate(dateInput).None? ==> r == Err(InvalidDate)
      ensures r.Ok? <==> target > 0 && ParseDate(dateInput).Some?
      ensures r.Err? ==> goals == old(goals) && goalIds.next == old(goalIds.next)
      ensures r.Ok? ==>
        && |goals| == |old(goals)| + 1 && goals[..|old(goals)|] == old(goals)
        && fresh(goals[|old(goals)|])
        && goals[|old(goals)|].Record()
           == SavingsGoals.GoalRecord(old(goalIds.next), name, target, 0, today, ParseDate(dateInput).value, description)
        && goalIds.next == old(goalIds.next) + 1
        && (r.value <==> !OnOrBefore(today, ParseDate(dateInput).value))
    {
      if target <= 0 {
        return Err(AmountNotPositive);
      }
      var targetDate := ParseDate(dateInput);
      if targetDate.None? {
        return Err(InvalidDate);
      }
      var goal := new SavingsGoals.SavingsGoal(goalIds, name, target, targetDate.value, description, today);
      DataStore.DistinctAppend(goals, goal);
      goals := goals + [goal];
      return Ok(!OnOrBefore(today, targetDate.value));
    }

    /**
     * `updateGoalProgress`: finds the first goal with the id; an unknown
     * id or a non-positive amount changes nothing; otherwise the amount is
     * added to that goal alone. The result says whether it is now achieved.
     */
    method UpdateGoalProgress(goalId: int, amount: int) returns (r: Result<bool, Rejection>)
      requires Valid()
      modifies set g | g in goals
      ensures Valid()
      ensures FindGoal(goals, goalId, 0) == old(FindGoal(goals, goalId, 0))
      ensures old(FindGoal(goals, goalId, 0)).None? ==> r == Err(GoalNotFound)
      ensures old(FindGoal(goals, goalId, 0)).Some? && amount <= 0 ==> r == Err(AmountNotPositive)
      ensures r.Err? ==> forall k :: 0 <= k < |goals| ==> goals[k].Record() == old(goals[k].Record())
      ensures r.Ok? ==>
        var found := old(FindGoal(goals, goalId, 0)).value;
        && amount > 0
        && goals[found].Record() == old(goals[found].Record()).(current := old(goals[found].current) + amount)
        && (forall k :: 0 <= k < |goals| && k != found ==> goals[k].Record() == old(goals[k].Record()))
        && (r.value <==> goals[found].IsGoalAchieved())
    {
      var found := FindGoal(goals, goalId, 0);
      if found.None? {
        return Err(GoalNotFound);
      }
      if amount <= 0 {
        return Err(AmountNotPositive);
      }
      var goal := goals[found.value];
      goal.AddToSavings(amount);
      return Ok(goal.IsGoalAchieved());
    }

    /** `deleteGoal`: removes every goal with the id, keeping the others in order; true iff one was removed. */
    method DeleteGoal(goalId: int) returns (removed: bool)
      requires Valid()
      modifies this
      ensures Valid()
      ensures transactions == old(transactions)
      ensures goals == old(RemoveWithId(goals, goalId))
      ensures removed <==> exists k :: 0 <= k < |old(goals)| && old(goals[k].id) == goalId
    {
      var kept := RemoveWithId(goals, goalId);
      RemoveWithIdShrinks(goals, goalId);
      RemoveWithIdDistinct(goals, goalId);
      removed := |kept| < |goals|;
      goals := kept;
    }

    /** `addCustomCategory`: the trimmed name is registered unless it is blank; true iff it was not blank. */
    method AddCustomCategory(name: string) returns (accepted: bool)
      requires Valid()
      modifies categories
      ensures Valid()
      ensures accepted <==> Trim(name) != []
      ensures accepted ==> categories.custom == WithCustom(old(categories.custom), Trim(name))
      ensures !accepted ==> categories.custom == old(categories.custom)
    {
      var trimmed := Trim(name);
      if trimmed == [] {
        return false;
      }
      Register(trimmed);
      return true;
    }

    /** Hands a name to the registry; the rest of the session is untouched. */
    method Register(name: string)
      requires Valid()
      modifies categories
      ensures Valid()
      ensures categories.custom == WithCustom(old(categories.custom), name)
    {
      categories.AddCustomCategory(name);
    }

    /** `saveAllData`: the three files, the budget's lines in the map's iteration order. */
    method SaveAll() returns (transactionLines: seq<string>, budgetLines: seq<string>, goalLines: seq<string>,
                              ghost order: seq<string>)
      ensures transactionLines == DataStore.TransactionFile(transactions)
      ensures Budgets.Enumerates(order, budget.limits.Keys)
      ensures forall k :: 0 <= k < |order| ==> order[k] in budget.limits
      ensures budgetLines == [DataStore.BudgetHeader] + Budgets.EntryLines(budget.month, budget.limits, order)
      ensures goalLines == DataStore.GoalFile(DataStore.Records(goals))
    {
      transactionLines := DataStore.SaveTransactions(transactions);
      budgetLines, order := DataStore.SaveBudget(budget);
      goalLines := DataStore.SaveSavingsGoals(goals);
    }
  }

  /** The three files' contents as `loadAllData` leaves them. */
  datatype Snapshot = Snapshot(
    transactions: seq<Transaction>,
    budget: DataStore.BudgetState,
    goals: seq<SavingsGoals.GoalRecord>)

  /**
   * `loadAllData`: the transactions, then the budget, then the goals; the
   * first file with a line that raises stops the load.
   */
  function LoadedAll(transactionFile: Option<seq<string>>, budgetFile: Option<seq<string>>,
                     goalFile: Option<seq<string>>, month: CalendarMonth): Result<Snapshot, LoadFailure> {
    match DataStore.LoadedTransactions(transactionFile)
    case Err(n) => Err(TransactionLine(n))
    case Ok(transactions) =>
      match DataStore.LoadedBudget(budgetFile, month)
      case Err(n) => Err(BudgetLine(n))
      case Ok(budget) =>
        match DataStore.LoadedGoals(goalFile)
        case Err(n) => Err(GoalLine(n))
        case Ok(goals) => Ok(Snapshot(transactions, budget, goals))
  }

  /**
   * `loadAllData` into fresh objects: the transactions, then the budget,
   * then the goals, stopping at the first failure; each counter is moved
   * past the ids it has seen.
   */
  method LoadAll(transactionFile: Option<seq<string>>, budgetFile: Option<seq<string>>,
                 goalFile: Option<seq<string>>, today: CalendarDate, transactionIds: IdCounter, goalIds: IdCounter)
    returns (r: Result<(seq<Transaction>, Budgets.Budget, seq<SavingsGoals.SavingsGoal>), LoadFailure>)
    requires transactionIds != goalIds
    modifies transactionIds, goalIds
    ensures r.Ok? <==> LoadedAll(transactionFile, budgetFile, goalFile, MonthOf(today)).Ok?
    ensures r.Err? ==> r.error == LoadedAll(transactionFile, budgetFile, goalFile, MonthOf(today)).error
    ensures r.Ok? ==>
      var (transactions, budget, goals) := r.value;
      && fresh(budget) && budget.Valid() && DataStore.Distinct(goals)
      && Snapshot(transactions, DataStore.BudgetState(budget.month, budget.limits), DataStore.Records(goals))
         == LoadedAll(transactionFile, budgetFile, goalFile, MonthOf(today)).value
      && transactionIds.next == DataStore.RestoreAll(old(transactionIds.next), DataStore.TransactionIds(transactions))
      && goalIds.next == DataStore.RestoreAll(old(goalIds.next), DataStore.GoalIds(DataStore.Records(goals)))
  {
    var transactions := DataStore.LoadTransactions(transactionFile, transactionIds);
    if transactions.Err? {
      return Err(TransactionLine(transactions.error));
    }
    var budget := DataStore.LoadBudget(budgetFile, MonthOf(today));
    if budget.Err? {
      return Err(BudgetLine(budget.error));
    }
    var goals := DataStore.LoadSavingsGoals(goalFile, goalIds, today);
    if goals.Err? {
      return Err(GoalLine(goals.error));
    }
    return Ok((transactions.value, budget.value, goals.value));
  }

  /**
   * The constructor of the session with `loadAllData`: fresh counters at
   * 1 and an empty custom-category list, then the three files loaded.
   */
  method Open(transactionFile: Option<seq<string>>, budgetFile: Option<seq<string>>,
              goalFile: Option<seq<string>>, today: CalendarDate) returns (r: Result<FinanceSession, LoadFailure>)
    ensures r.Ok? <==> LoadedAll(transactionFile, budgetFile, goalFile, MonthOf(today)).Ok?
    ensures r.Err? ==> r.error == LoadedAll(transactionFile, budgetFile, goalFile, MonthOf(today)).error
    ensures r.Ok? ==>
      var s := r.value;
      && fresh(s) && s.Valid()
      && Snapshot(s.transactions, DataStore.BudgetState(s.budget.month, s.budget.limits), DataStore.Records(s.goals))
         == LoadedAll(transactionFile, budgetFile, goalFile, MonthOf(today)).value
      && s.categories.custom == []
      && s.transactionIds.next == DataStore.RestoreAll(1, DataStore.TransactionIds(s.transactions))
      && s.goalIds.next == DataStore.RestoreAll(1, DataStore.GoalIds(DataStore.Records(s.goals)))
  {
    var transactionIds := new IdCounter();
    var goalIds := new IdCounter();
    var loaded := LoadAll(transactionFile, budgetFile, goalFile, today, transactionIds, goalIds);
    if loaded.Err? {
      return Err(loaded.error);
    }
    var (transactions, budget, goals) := loaded.value;
    var session := Assemble(transactions, budget, goals, transactionIds, goalIds);
    return Ok(session);
  }

  /** The session over loaded contents, with an empty custom-category list. */
  method Assemble(transactions: seq<Transaction>, budget: Budgets.Budget, goals: seq<SavingsGoals.SavingsGoal>,
                  transactionIds: IdCounter, goalIds: IdCounter) returns (s: FinanceSession)
    requires budget.Valid() && DataStore.Distinct(goals) && transactionIds != goalIds
    requires transactionIds.next == DataStore.RestoreAll(1, DataStore.TransactionIds(transactions))
    requires goalIds.next == DataStore.RestoreAll(1, DataStore.GoalIds(DataStore.Records(goals)))
    ensures fresh(s) && s.Valid() && s.categories.custom == []
    ensures s.transactions == transactions && s.budget == budget && s.goals == goals
    ensures s.transactionIds == transactionIds && s.goalIds == goalIds
  {
    var categories := new CategoryRegistry();
    DataStore.CounterAheadOfLoaded(1, transactions);
    ghost var records := DataStore.Records(goals);
    assert forall k :: 0 <= k < |goals| ==> DataStore.GoalIds(records)[k] == goals[k].id;
    s := new FinanceSession(transactions, goals, budget, transactionIds, goalIds, categories);
  }
}
