/**
 * The category lists: ten built-in expense names, six built-in income
 * names, and user-added expense names kept in a registry that only grows.
 */
module Categories {
  import opened Wrappers
  import opened Text

  const ExpenseBuiltIns: seq<string> := [
    "Food & Dining", "Transportation", "Shopping", "Entertainment", "Bills & Utilities",
    "Healthcare", "Education", "Travel", "Insurance", "Miscellaneous"]

  const IncomeBuiltIns: seq<string> := [
    "Salary", "Freelance", "Business", "Investments", "Gifts", "Other Income"]

  predicate NoDuplicates(s: seq<string>) {
    forall i, j :: 0 <= i < j < |s| ==> s[i] != s[j]
  }

  /** The custom list after trying to add `name`: appended only when it is new everywhere. */
  function WithCustom(custom: seq<string>, name: string): (r: seq<string>)
    ensures name in r || name in ExpenseBuiltIns || name in IncomeBuiltIns
    ensures r == custom || r == custom + [name]
    ensures r == custom + [name] <==> name !in custom && name !in ExpenseBuiltIns && name !in IncomeBuiltIns
  {
    if name !in custom && name !in ExpenseBuiltIns && name !in IncomeBuiltIns then custom + [name]
    else custom
  }

  /** The registry invariant: custom names are distinct and none is built in. */
  predicate WellFormed(custom: seq<string>) {
    && NoDuplicates(custom)
    && (forall k :: 0 <= k < |custom| ==> custom[k] !in ExpenseBuiltIns && custom[k] !in IncomeBuiltIns)
  }

  /** Adding keeps the registry well formed. */
  lemma WithCustomKeepsWellFormed(custom: seq<string>, name: string)
    requires WellFormed(custom)
    ensures WellFormed(WithCustom(custom, name))
  {
    var r := WithCustom(custom, name);
    if r != custom {
      forall i, j | 0 <= i < j < |r| ensures r[i] != r[j] {
        if j == |custom| {
          assert r[i] == custom[i] && r[j] == name;
        }
      }
    }
  }

  /** Adding the same name twice is the same as adding it once. */
  lemma WithCustomIdempotent(custom: seq<string>, name: string)
    ensures WithCustom(WithCustom(custom, name), name) == WithCustom(custom, name)
  {
  }

  class CategoryRegistry {
    /** User-added expense categories, in insertion order. */
    var custom: seq<string>

    ghost predicate Valid()
      reads this
    {
      WellFormed(custom)
    }

    constructor ()
      ensures custom == [] && Valid()
    {
      custom := [];
    }

    /** `getExpenseCategories`: the built-in expense names, then the custom ones. */
    function ExpenseCategories(): (r: seq<string>)
      reads this
      ensures |r| == |ExpenseBuiltIns| + |custom|
      ensures r[..|ExpenseBuiltIns|] == ExpenseBuiltIns && r[|ExpenseBuiltIns|..] == custom
    {
      ExpenseBuiltIns + custom
    }

    /** `getIncomeCategories`: the built-in income names only. */
    function IncomeCategories(): (r: seq<string>)
      ensures r == IncomeBuiltIns
    {
      IncomeBuiltIns
    }

    /** `addCustomCategory`: appends `name` unless it is already custom or built in (exact match). */
    method AddCustomCategory(name: string)
      requires Valid()
      modifies this
      ensures custom == WithCustom(old(custom), name)
      ensures Valid()
    {
      WithCustomKeepsWellFormed(custom, name);
      if name !in custom && name !in ExpenseBuiltIns && name !in IncomeBuiltIns {
        custom := custom + [name];
      }
    }

    /**
     * `isValidCategory`: membership in the expense or the income view, the
     * type compared without regard to case; false for any other type.
     */
    predicate IsValidCategory(category: string, kind: string)
      reads this
      ensures EqualsIgnoreCase(kind, "EXPENSE") ==>
        (IsValidCategory(category, kind) <==> category in ExpenseBuiltIns || category in custom)
      ensures !EqualsIgnoreCase(kind, "EXPENSE") && EqualsIgnoreCase(kind, "INCOME") ==>
        (IsValidCategory(category, kind) <==> category in IncomeBuiltIns)
      ensures !EqualsIgnoreCase(kind, "EXPENSE") && !EqualsIgnoreCase(kind, "INCOME") ==>
        !IsValidCategory(category, kind)
    {
      if EqualsIgnoreCase(kind, "EXPENSE") then category in ExpenseCategories()
      else if EqualsIgnoreCase(kind, "INCOME") then category in IncomeCategories()
      else false
    }

    /** The list a numbered menu shows: expense when the type is "EXPENSE" in any case, income otherwise. */
    function MenuFor(kind: string): seq<string>
      reads this
    {
      if EqualsIgnoreCase(kind, "EXPENSE") then ExpenseCategories() else IncomeCategories()
    }

    /** `getCategoryByIndex`: the `index`-th entry (1-based) of the menu, `None` (Java's `null`) out of range. */
    function CategoryByIndex(kind: string, index: int): (r: Option<string>)
      reads this
      ensures r.Some? <==> 1 <= index <= |MenuFor(kind)|
      ensures r.Some? ==> r.value == MenuFor(kind)[index - 1]
    {
      var menu := MenuFor(kind);
      if 1 <= index <= |menu| then Some(menu[index - 1]) else None
    }
  }

  /** The built-in names are distinct and the two built-in lists share none. */
  lemma BuiltInsWellFormed()
    ensures NoDuplicates(ExpenseBuiltIns) && NoDuplicates(IncomeBuiltIns)
    ensures forall c :: c in ExpenseBuiltIns ==> c !in IncomeBuiltIns
  {
  }

  /**
   * A category picked by number is valid for the type it was picked for:
   * the "EXPENSE" menu holds exactly the valid expense names, and for
   * "INCOME" the income menu holds the valid income names.
   */
  lemma PickedCategoryIsValid(reg: CategoryRegistry, kind: string, index: int)
    requires EqualsIgnoreCase(kind, "EXPENSE") || EqualsIgnoreCase(kind, "INCOME")
    requires reg.CategoryByIndex(kind, index).Some?
    ensures reg.IsValidCategory(reg.CategoryByIndex(kind, index).value, kind)
  {
    var menu := reg.MenuFor(kind);
    assert menu[index - 1] in menu;
  }

  /** The expense menu has 10 entries plus one per custom name; the income menu always has 6. */
  lemma MenuSizes(reg: CategoryRegistry)
    ensures |reg.MenuFor("EXPENSE")| == 10 + |reg.custom|
    ensures |reg.MenuFor("INCOME")| == 6
  {
  }
}
