/**
 * A monthly budget: a limit per category (in cents, never negative) and
 * the year-month it applies to, with the arithmetic the ledger asks of it
 * and the lines it writes for storage.
 */
module Budgets {
  import opened Text
  import opened Money
  import opened Dates
  import opened Sums

  /** One stored line: `month,category,amount`, the amount as `Double.toString` writes it. */
  function EntryLine(month: CalendarMonth, category: string, amount: int): string {
    FormatYearMonth(month) + "," + category + "," + FormatDouble(amount)
  }

  /** The stored lines for the categories of `order`, in that order. */
  function EntryLines(month: CalendarMonth, limits: map<string, int>, order: seq<string>): (lines: seq<string>)
    requires forall k :: 0 <= k < |order| ==> order[k] in limits
    ensures |lines| == |order|
    ensures forall k :: 0 <= k < |order| ==> lines[k] == EntryLine(month, order[k], limits[order[k]])
  {
    seq(|order|, k requires 0 <= k < |order| && order[k] in limits => EntryLine(month, order[k], limits[order[k]]))
  }

  /** One more category adds its line at the end. */
  lemma EntryLinesAppend(month: CalendarMonth, limits: map<string, int>, order: seq<string>, c: string)
    requires forall k :: 0 <= k < |order| ==> order[k] in limits
    requires c in limits
    ensures EntryLines(month, limits, order + [c]) == EntryLines(month, limits, order) + [EntryLine(month, c, limits[c])]
  {
    var (longer, shorter) := (EntryLines(month, limits, order + [c]), EntryLines(month, limits, order));
    forall k | 0 <= k < |order| ensures longer[k] == shorter[k] {
      assert (order + [c])[k] == order[k];
    }
    assert (order + [c])[|order|] == c;
    ExtendedByLast(longer, shorter, EntryLine(month, c, limits[c]));
  }

  /** A sequence one longer than another, agreeing with it and ending in `x`, is that sequence followed by `x`. */
  lemma ExtendedByLast<T>(longer: seq<T>, shorter: seq<T>, x: T)
    requires |longer| == |shorter| + 1 && longer[|shorter|] == x
    requires forall k :: 0 <= k < |shorter| ==> longer[k] == shorter[k]
    ensures longer == shorter + [x]
  {
  }

  /** `order` lists every key of `keys` exactly once: a possible iteration order of the map. */
  ghost predicate Enumerates(order: seq<string>, keys: set<string>) {
    && (forall i, j :: 0 <= i < j < |order| ==> order[i] != order[j])
    && (forall c :: c in keys <==> c in order)
  }

  /**
   * Part way through visiting `keys`: `order` holds the keys visited, each
   * once, and `rest` those still to visit.
   */
  ghost predicate Visiting(order: seq<string>, rest: set<string>, keys: set<string>) {
    && rest <= keys
    && (forall i, j :: 0 <= i < j < |order| ==> order[i] != order[j])
    && (forall c :: c in keys ==> c in order || c in rest)
    && (forall k :: 0 <= k < |order| ==> order[k] in keys && order[k] !in rest)
  }

  /** Moving one key from `rest` to the end of `order` keeps the visit consistent. */
  lemma VisitingStep(order: seq<string>, rest: set<string>, keys: set<string>, c: string)
    requires Visiting(order, rest, keys) && c in rest
    ensures Visiting(order + [c], rest - {c}, keys)
  {
  }

  /** A finished visit enumerates the keys. */
  lemma VisitingDone(order: seq<string>, keys: set<string>)
    requires Visiting(order, {}, keys)
    ensures Enumerates(order, keys)
  {
  }

  class Budget {
    /** Limit per category, in cents. */
    var limits: map<string, int>
    /** The month the limits apply to. */
    var month: CalendarMonth

    /** Every stored limit is non-negative: `setBudget` is the only writer and drops negatives. */
    ghost predicate Valid()
      reads this
    {
      forall c :: c in limits ==> limits[c] >= 0
    }

    /** An empty budget for `month` (the no-argument form passes the current month). */
    constructor (month: CalendarMonth)
      ensures this.month == month && limits == map[]
      ensures Valid()
    {
      this.month := month;
      limits := map[];
    }

    /** `setBudget`: stores the limit iff it is non-negative; other categories and the month stay. */
    method SetBudget(category: string, amount: int)
      requires Valid()
      modifies this
      ensures amount >= 0 ==> limits == old(limits)[category := amount]
      ensures amount < 0 ==> limits == old(limits)
      ensures month == old(month)
      ensures Valid()
      ensures forall c :: c != category ==> GetBudget(c) == old(GetBudget(c))
    {
      if amount >= 0 {
        limits := limits[category := amount];
      }
    }

    /** `setBudgetMonth`: replaces the month and keeps every entry. */
    method SetBudgetMonth(month: CalendarMonth)
      modifies this
      ensures this.month == month && limits == old(limits)
    {
      this.month := month;
    }

    /** `getBudget`: the stored limit, or 0 for a category without one. */
    function GetBudget(category: string): (r: int)
      reads this
      ensures category in limits ==> r == limits[category]
      ensures category !in limits ==> r == 0
      ensures Valid() ==> r >= 0
    {
      if category in limits then limits[category] else 0
    }

    /** `hasBudget`: a positive limit is stored for the category. */
    predicate HasBudget(category: string)
      reads this
      ensures HasBudget(category) <==> GetBudget(category) > 0
    {
      category in limits && limits[category] > 0
    }

    /** `getRemainingBudget`: what is left of the limit after `spent`, never below 0. */
    function RemainingBudget(category: string, spent: int): (r: int)
      reads this
      ensures r >= 0 && r >= GetBudget(category) - spent
      ensures r == 0 || r == GetBudget(category) - spent
    {
      var budget := GetBudget(category);
      if budget - spent > 0 then budget - spent else 0
    }

    /** `getBudgetUsagePercentage`: `spent` as a share of the limit, capped at 100; 0 without a limit. */
    function UsagePercentage(category: string, spent: int): (r: real)
      reads this
      ensures GetBudget(category) == 0 ==> r == 0.0
      ensures r <= 100.0 || GetBudget(category) == 0
      ensures GetBudget(category) != 0 && r < 100.0 ==> r * GetBudget(category) as real == spent as real * 100.0
      ensures GetBudget(category) != 0 && r == 100.0 ==> spent as real / GetBudget(category) as real * 100.0 >= 100.0
      ensures Valid() && spent >= 0 ==> 0.0 <= r <= 100.0
    {
      var budget := GetBudget(category);
      if budget == 0 then 0.0
      else
        var share := spent as real / budget as real * 100.0;
        if share < 100.0 then share else 100.0
    }

    /** `isOverBudget`: spending strictly above the limit (0 when none is stored). */
    predicate IsOverBudget(category: string, spent: int)
      reads this
      ensures IsOverBudget(category, spent) <==> spent > GetBudget(category)
    {
      spent > GetBudget(category)
    }

    /** `isNearBudgetLimit`: the share `spent / limit` has reached `threshold`; never without a limit. */
    predicate IsNearBudgetLimit(category: string, spent: int, threshold: real)
      reads this
      ensures GetBudget(category) == 0 ==> !IsNearBudgetLimit(category, spent, threshold)
      ensures GetBudget(category) > 0 ==>
        (IsNearBudgetLimit(category, spent, threshold) <==> spent as real >= threshold * GetBudget(category) as real)
    {
      var budget := GetBudget(category);
      budget != 0 && spent as real / budget as real >= threshold
    }

    /** `getTotalBudget`: the sum of every stored limit, visiting the entries in some order. */
    method TotalBudget() returns (total: int)
      requires Valid()
      ensures total == Total(limits)
      ensures total >= 0
    {
      var rest := limits.Keys;
      total := 0;
      while rest != {}
        invariant rest <= limits.Keys
        invariant total + SumOver(limits, rest) == Total(limits)
        decreases rest
      {
        var c :| c in rest;
        SumOverRemove(limits, rest, c);
        total := total + limits[c];
        rest := rest - {c};
      }
      SumOverNonNegative(limits, limits.Keys);
    }

    /**
     * `toCSVString`: one `month,category,amount` line per entry, every one
     * with the current month, in the map's iteration order, which the
     * ghost `order` names.
     */
    method ToCsvLines() returns (lines: seq<string>, ghost order: seq<string>)
      ensures Enumerates(order, limits.Keys)
      ensures forall k :: 0 <= k < |order| ==> order[k] in limits
      ensures lines == EntryLines(month, limits, order)
    {
      var rest := limits.Keys;
      lines := [];
      order := [];
      while rest != {}
        invariant Visiting(order, rest, limits.Keys)
        invariant lines == EntryLines(month, limits, order)
        decreases rest
      {
        var c :| c in rest;
        EntryLinesAppend(month, limits, order, c);
        VisitingStep(order, rest, limits.Keys, c);
        lines := lines + [EntryLine(month, c, limits[c])];
        order := order + [c];
        rest := rest - {c};
      }
      VisitingDone(order, limits.Keys);
    }
  }

  /**
   * With no entry for a category, any positive spending counts as over
   * budget, although `hasBudget` is false for it.
   */
  lemma OverBudgetWithoutEntry(b: Budget, category: string, spent: int)
    requires category !in b.limits && spent > 0
    ensures b.IsOverBudget(category, spent) && !b.HasBudget(category)
    ensures b.RemainingBudget(category, spent) == 0 && b.UsagePercentage(category, spent) == 0.0
  {
  }

  /** Over budget with a positive limit implies near the limit for any threshold up to 1. */
  lemma OverBudgetIsNear(b: Budget, category: string, spent: int, threshold: real)
    requires b.GetBudget(category) > 0 && b.IsOverBudget(category, spent) && threshold <= 1.0
    ensures b.IsNearBudgetLimit(category, spent, threshold)
  {
    var budget := b.GetBudget(category) as real;
    assert spent as real >= budget;
    assert threshold * budget <= budget;
  }

  /** Nothing remains exactly when spending reaches the limit; the cap of 100% is hit then too. */
  lemma NothingRemainsIffSpent(b: Budget, category: string, spent: int)
    requires b.GetBudget(category) > 0
    ensures b.RemainingBudget(category, spent) == 0 <==> spent >= b.GetBudget(category)
    ensures spent >= b.GetBudget(category) ==> b.UsagePercentage(category, spent) == 100.0
  {
    var budget := b.GetBudget(category);
    if spent >= budget {
      assert spent as real / budget as real >= 1.0;
    }
  }
}
