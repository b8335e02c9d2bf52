/**
 * A savings goal: a target and a current amount (cents), a start and a
 * target date, the progress arithmetic, the "time remaining" phrase, and
 * the line codec that protects commas in the description by writing `;`.
 */
module SavingsGoals {
  import opened Wrappers
  import opened Text
  import opened Money
  import opened Dates
  import opened Ids

  /** The stored fields of a goal, as a value. */
  datatype GoalRecord = GoalRecord(
    id: int,
    name: string,
    target: int,
    current: int,
    start: CalendarDate,
    targetDate: CalendarDate,
    description: string)

  class SavingsGoal {
    var id: int
    var name: string
    var target: int
    var current: int
    var start: CalendarDate
    var targetDate: CalendarDate
    var description: string

    /** The goal's fields as a value. */
    function Record(): GoalRecord
      reads this
    {
      GoalRecord(id, name, target, current, start, targetDate, description)
    }

    /**
     * A new goal: the next id from the goal counter, nothing saved yet,
     * started `today`.
     */
    constructor (ids: IdCounter, name: string, target: int, targetDate: CalendarDate, description: string, today: CalendarDate)
      modifies ids
      ensures Record() == GoalRecord(old(ids.next), name, target, 0, today, targetDate, description)
      ensures ids.next == old(ids.next) + 1
    {
      var id := ids.Allocate();
      this.id := id;
      this.name := name;
      this.target := target;
      current := 0;
      start := today;
      this.targetDate := targetDate;
      this.description := description;
    }

    /** `addToSavings`: adds a positive amount; anything else changes nothing. */
    method AddToSavings(amount: int)
      modifies this
      ensures amount > 0 ==> current == old(current) + amount
      ensures amount <= 0 ==> current == old(current)
      ensures current >= old(current)
      ensures Record() == old(Record()).(current := current)
    {
      if amount > 0 {
        current := current + amount;
      }
    }

    /** `setCurrentAmount`: stores the amount, clamped at 0 from below. */
    method SetCurrentAmount(amount: int)
      modifies this
      ensures current >= 0 && current >= amount
      ensures current == 0 || current == amount
      ensures Record() == old(Record()).(current := current)
    {
      current := if amount > 0 then amount else 0;
    }

    /** `getRemainingAmount`: what is still missing, never below 0. */
    function RemainingAmount(): (r: int)
      reads this
      ensures r >= 0 && r >= target - current
      ensures r == 0 || r == target - current
    {
      if target - current > 0 then target - current else 0
    }

    /** `isGoalAchieved`: the saved amount has reached the target. */
    predicate IsGoalAchieved()
      reads this
      ensures IsGoalAchieved() <==> RemainingAmount() == 0
    {
      current >= target
    }

    /** `getProgressPercentage`: saved share of the target, capped at 100; 0 for a zero target. */
    function ProgressPercentage(): (r: real)
      reads this
      ensures target == 0 ==> r == 0.0
      ensures r <= 100.0
      ensures target != 0 && r < 100.0 ==> r * target as real == current as real * 100.0
      ensures target != 0 && r == 100.0 ==> current as real / target as real * 100.0 >= 100.0
      ensures current >= 0 && target > 0 ==> 0.0 <= r
    {
      if target == 0 then 0.0
      else
        var share := current as real / target as real * 100.0;
        if share < 100.0 then share else 100.0
    }

    /**
     * `getRequiredMonthlySavings` for `daysRemaining` days to the target
     * date: the whole remainder when the date is today or past, otherwise
     * the remainder spread over `daysRemaining / 30` months.
     */
    function RequiredMonthlySavings(daysRemaining: int): (r: real)
      reads this
      ensures daysRemaining <= 0 ==> r == RemainingAmount() as real
      ensures daysRemaining > 0 ==> r * daysRemaining as real == RemainingAmount() as real * 30.0
      ensures r >= 0.0
    {
      if daysRemaining <= 0 then RemainingAmount() as real
      else RemainingAmount() as real / (daysRemaining as real / 30.0)
    }

    /** `getRequiredWeeklySavings`: as the monthly figure, over `daysRemaining / 7` weeks. */
    function RequiredWeeklySavings(daysRemaining: int): (r: real)
      reads this
      ensures daysRemaining <= 0 ==> r == RemainingAmount() as real
      ensures daysRemaining > 0 ==> r * daysRemaining as real == RemainingAmount() as real * 7.0
      ensures r >= 0.0
    {
      if daysRemaining <= 0 then RemainingAmount() as real
      else RemainingAmount() as real / (daysRemaining as real / 7.0)
    }

    /** `toCSVString`: a goal without commas in its name reads back as the same field values. */
    function ToCsvString(): (r: string)
      reads this
      ensures Encodable(Record()) ==> ParseGoalLine(r) == Parsed(Record())
    {
      if Encodable(Record()) then
        RoundTrip(Record());
        EncodeGoal(Record())
      else EncodeGoal(Record())
    }
  }

  /** Once the deadline is a month or more away, each month asks for at most the remainder. */
  lemma MonthlyAtMostRemaining(g: SavingsGoal, daysRemaining: int)
    requires daysRemaining >= 30
    ensures g.RequiredMonthlySavings(daysRemaining) <= g.RemainingAmount() as real
  {
    var r := g.RequiredMonthlySavings(daysRemaining);
    var rem := g.RemainingAmount() as real;
    assert r * daysRemaining as real == rem * 30.0;
    assert rem * 30.0 <= rem * daysRemaining as real;
  }

  /** A month's saving is 30/7 times a week's saving whenever a deadline lies ahead. */
  lemma MonthlyIsThirtySeventhsOfWeekly(g: SavingsGoal, daysRemaining: int)
    requires daysRemaining > 0
    ensures g.RequiredMonthlySavings(daysRemaining) * 7.0 == g.RequiredWeeklySavings(daysRemaining) * 30.0
  {
    var m := g.RequiredMonthlySavings(daysRemaining);
    var w := g.RequiredWeeklySavings(daysRemaining);
    var d := daysRemaining as real;
    assert m * d * 7.0 == w * d * 30.0;
  }

  // ---------------------------------------------------------------------
  // Time remaining
  // ---------------------------------------------------------------------

  /** The bucket `getTimeRemainingText` puts a day count into. */
  datatype TimeLeft =
    | Passed
    | DueToday
    | Days(days: int)
    | Months(months: int)
    | Years(years: int, months: int)

  /**
   * Days before the deadline as the phrase counts them: whole 30-day
   * months under a year, otherwise whole 365-day years and the whole
   * 30-day months of what is left.
   */
  function TimeLeftOf(days: int): (r: TimeLeft)
    ensures r == Passed <==> days < 0
    ensures r == DueToday <==> days == 0
    ensures r.Days? <==> 1 <= days < 30
    ensures r.Days? ==> r.days == days
    ensures r.Months? <==> 30 <= days < 365
    ensures r.Months? ==> 1 <= r.months <= 12 && 30 * r.months <= days < 30 * r.months + 30
    ensures r.Years? <==> days >= 365
    ensures r.Years? ==> r.years >= 1 && 0 <= r.months <= 12
    ensures r.Years? ==> 365 * r.years <= days < 365 * r.years + 365
    ensures r.Years? ==> 365 * r.years + 30 * r.months <= days < 365 * r.years + 30 * r.months + 30
  {
    if days < 0 then Passed
    else if days == 0 then DueToday
    else if days < 30 then Days(days)
    else if days < 365 then Months(days / 30)
    else Years(days / 365, (days % 365) / 30)
  }

  /** `n` followed by the unit, which takes an "s" exactly when `n` is more than 1. */
  function Counted(n: int, unit: string): (r: string)
    ensures n > 1 ==> r == IntToString(n) + " " + unit + "s"
    ensures n <= 1 ==> r == IntToString(n) + " " + unit
  {
    IntToString(n) + " " + unit + (if n > 1 then "s" else "")
  }

  /**
   * The words for a bucket. The special "1 day" case agrees with the
   * plural rule, and a years phrase carries its months only when there
   * are some.
   */
  function Phrase(t: TimeLeft): (r: string)
    ensures t == Passed ==> r == "Goal deadline passed"
    ensures t == DueToday ==> r == "Goal deadline is today"
    ensures t.Days? && t.days >= 1 ==> r == Counted(t.days, "day") + " remaining"
    ensures t.Months? ==> r == Counted(t.months, "month") + " remaining"
    ensures t.Years? && t.months <= 0 ==> r == Counted(t.years, "year") + " remaining"
    ensures t.Years? && t.months > 0 ==> r == Counted(t.years, "year") + ", " + Counted(t.months, "month") + " remaining"
  {
    match t
    case Passed => "Goal deadline passed"
    case DueToday => "Goal deadline is today"
    case Days(n) => DaysPhrase(n)
    case Months(n) => Counted(n, "month") + " remaining"
    case Years(y, m) => YearsPhrase(y, m)
  }

  /** The days branch: its special case for one day reads as the plural rule gives it. */
  function DaysPhrase(n: int): (r: string)
    ensures n >= 1 ==> r == Counted(n, "day") + " remaining"
  {
    if n == 1 then
      assert IntToString(1) == "1";
      "1 day remaining"
    else IntToString(n) + " days remaining"
  }

  /** The years branch: the months follow the years, after a comma, only when there are some. */
  function YearsPhrase(y: int, m: int): (r: string)
    ensures m <= 0 ==> r == Counted(y, "year") + " remaining"
    ensures m > 0 ==> r == Counted(y, "year") + ", " + Counted(m, "month") + " remaining"
  {
    Counted(y, "year") + (if m > 0 then ", " + Counted(m, "month") else "") + " remaining"
  }

  /**
   * `getTimeRemainingText` for `days` days to the target date: whole
   * days under a month, whole 30-day months under a year, otherwise whole
   * 365-day years and, when at least 30 days are left over, their months.
   */
  function TimeRemainingText(days: int): (r: string)
    ensures days < 0 ==> r == "Goal deadline passed"
    ensures days == 0 ==> r == "Goal deadline is today"
    ensures 0 < days < 30 ==> r == Counted(days, "day") + " remaining"
    ensures 30 <= days < 365 ==> r == Counted(days / 30, "month") + " remaining"
    ensures days >= 365 && days % 365 < 30 ==> r == Counted(days / 365, "year") + " remaining"
    ensures days >= 365 && days % 365 >= 30 ==>
      r == Counted(days / 365, "year") + ", " + Counted(days % 365 / 30, "month") + " remaining"
  {
    Phrase(TimeLeftOf(days))
  }

  /** From 360 to 364 days the phrase reads "12 months", and a year and 360 days reads "1 year, 12 months". */
  lemma TwelveMonthPhrases()
    ensures TimeLeftOf(360) == Months(12) && TimeLeftOf(364) == Months(12)
    ensures TimeLeftOf(365 + 360) == Years(1, 12)
    ensures TimeLeftOf(365) == Years(1, 0)
  {
  }

  // ---------------------------------------------------------------------
  // Line codec
  // ---------------------------------------------------------------------

  /** The seven fields `toCSVString` writes; commas in the description become `;`. */
  function GoalFields(g: GoalRecord): seq<string> {
    [ IntToString(g.id), g.name, FormatCents(g.target), FormatCents(g.current),
      FormatDate(g.start), FormatDate(g.targetDate), Replace(g.description, ',', ';') ]
  }

  /**
   * `toCSVString`: `id,name,target,current,start,targetDate,description`.
   * Splitting the line gives back the fields, the empty trailing
   * description excepted.
   */
  function EncodeGoal(g: GoalRecord): (r: string)
    ensures Encodable(g) && g.description == "" ==> JavaSplit(r, ',') == GoalFields(g)[..6]
    ensures Encodable(g) && g.description != "" ==> JavaSplit(r, ',') == GoalFields(g)
  {
    if Encodable(g) then
      SplitGoalFields(g);
      Join(GoalFields(g), ',')
    else Join(GoalFields(g), ',')
  }

  /**
   * The decoding of split fields: `Skipped` (Java's `null`) under six
   * fields, `Malformed` when a number or date does not parse; the
   * description is the seventh field with `;` turned back into `,`, or ""
   * when there is no seventh field.
   */
  function DecodeGoalFields(parts: seq<string>): (r: LineResult<GoalRecord>)
    ensures r.Skipped? <==> |parts| < 6
    ensures r.Malformed? <==>
      |parts| >= 6 &&
      (ParseInt(parts[0]).None? || ParseAmount(parts[2]).None? || ParseAmount(parts[3]).None?
       || ParseDate(parts[4]).None? || ParseDate(parts[5]).None?)
    ensures r.Parsed? ==>
      && Some(r.value.id) == ParseInt(parts[0]) && r.value.name == parts[1]
      && Some(r.value.target) == ParseAmount(parts[2]) && Some(r.value.current) == ParseAmount(parts[3])
      && Some(r.value.start) == ParseDate(parts[4]) && Some(r.value.targetDate) == ParseDate(parts[5])
    ensures r.Parsed? ==> IsInt32(r.value.id) && ';' !in r.value.description
    ensures r.Parsed? && |parts| == 6 ==> r.value.description == ""
    ensures r.Parsed? && |parts| > 6 ==> r.value.description == Replace(parts[6], ';', ',')
  {
    if |parts| < 6 then Skipped
    else
      match (ParseInt(parts[0]), ParseAmount(parts[2]), ParseAmount(parts[3]), ParseDate(parts[4]), ParseDate(parts[5]))
      case (Some(id), Some(target), Some(current), Some(start), Some(targetDate)) =>
        var description := if |parts| > 6 then Replace(parts[6], ';', ',') else "";
        assert ';' !in description by {
          if |parts| > 6 {
            NoSemicolonAfterReplace(parts[6]);
          }
        }
        Parsed(GoalRecord(id, parts[1], target, current, start, targetDate, description))
      case _ => Malformed
  }

  lemma NoSemicolonAfterReplace(s: string)
    ensures ';' !in Replace(s, ';', ',')
  {
    var r := Replace(s, ';', ',');
    forall i | 0 <= i < |r| ensures r[i] != ';' {
    }
  }

  /** `fromCSVString` without its effect on the counter. */
  function ParseGoalLine(line: string): (r: LineResult<GoalRecord>)
    ensures r.Skipped? <==> |JavaSplit(line, ',')| < 6
    ensures r.Malformed? <==>
      |JavaSplit(line, ',')| >= 6 &&
      (ParseInt(JavaSplit(line, ',')[0]).None? || ParseAmount(JavaSplit(line, ',')[2]).None?
       || ParseAmount(JavaSplit(line, ',')[3]).None? || ParseDate(JavaSplit(line, ',')[4]).None?
       || ParseDate(JavaSplit(line, ',')[5]).None?)
    ensures r.Parsed? ==> IsInt32(r.value.id) && ';' !in r.value.description
  {
    DecodeGoalFields(JavaSplit(line, ','))
  }

  /**
   * `fromCSVString`: builds the goal through the constructor (which takes
   * an id from the counter and starts it `today`), then overwrites the id,
   * the saved amount and the start date, and pushes the counter past the id.
   */
  method FromCsvString(ids: IdCounter, line: string, today: CalendarDate) returns (r: LineResult<SavingsGoal>)
    modifies ids
    ensures r.Parsed? <==> ParseGoalLine(line).Parsed?
    ensures r.Skipped? <==> ParseGoalLine(line).Skipped?
    ensures r.Parsed? ==> fresh(r.value) && r.value.Record() == ParseGoalLine(line).value
    ensures r.Parsed? ==> ids.next == CounterAfterRestore(old(ids.next), r.value.id)
    ensures !r.Parsed? ==> ids.next == old(ids.next)
  {
    match ParseGoalLine(line)
    case Skipped => return Skipped;
    case Malformed => return Malformed;
    case Parsed(g) =>
      var goal := new SavingsGoal(ids, g.name, g.target, g.targetDate, g.description, today);
      goal.id := g.id;
      goal.current := g.current;
      goal.start := g.start;
      assert goal.Record() == g;
      ids.Restore(g.id);
      return Parsed(goal);
  }

  /** What a line can carry unchanged: an `int` id, no comma in the name, no `;` in the description. */
  predicate Encodable(g: GoalRecord) {
    IsInt32(g.id) && ',' !in g.name && ';' !in g.description
  }

  lemma NoCommaInGoalFields(g: GoalRecord)
    requires Encodable(g)
    ensures forall k :: 0 <= k < 6 ==> ',' !in GoalFields(g)[k] && (k != 1 ==> GoalFields(g)[k] != "")
    ensures ',' !in GoalFields(g)[6]
    ensures Replace(Replace(g.description, ',', ';'), ';', ',') == g.description
  {
    NoneInDigits(NatToString(Abs(g.id)), ',');
    NoneInDigits(NatToString(Abs(g.target) / 100), ',');
    NoneInDigits(Pad2(Abs(g.target) % 100), ',');
    NoneInDigits(NatToString(Abs(g.current) / 100), ',');
    NoneInDigits(Pad2(Abs(g.current) % 100), ',');
    NoneInDigits(Pad4(g.start.year), ',');
    NoneInDigits(Pad2(g.start.month), ',');
    NoneInDigits(Pad2(g.start.day), ',');
    NoneInDigits(Pad4(g.targetDate.year), ',');
    NoneInDigits(Pad2(g.targetDate.month), ',');
    NoneInDigits(Pad2(g.targetDate.day), ',');
    ReplaceBack(g.description, ',', ';');
  }

  /** The joined goal fields split into six when the description is empty, into all seven otherwise. */
  lemma SplitGoalFields(g: GoalRecord)
    requires Encodable(g)
    ensures g.description == "" ==> JavaSplit(Join(GoalFields(g), ','), ',') == GoalFields(g)[..6]
    ensures g.description != "" ==> JavaSplit(Join(GoalFields(g), ','), ',') == GoalFields(g)
  {
    var fs := GoalFields(g);
    NoCommaInGoalFields(g);
    JavaSplitOfJoin(fs, ',');
    if g.description == "" {
      assert fs[6] == "";
      assert fs[..6][5] != "";
      assert DropTrailingEmpty(fs) == DropTrailingEmpty(fs[..6]) == fs[..6];
    } else {
      assert fs[6] != "";
    }
  }

  lemma DecodeOfGoalFields(g: GoalRecord, parts: seq<string>)
    requires Encodable(g)
    requires parts == GoalFields(g)[..6] || parts == GoalFields(g)
    requires |parts| == 6 ==> g.description == ""
    ensures DecodeGoalFields(parts) == Parsed(g)
  {
    NoCommaInGoalFields(g);
    assert parts[0] == IntToString(g.id) && parts[2] == FormatCents(g.target) && parts[3] == FormatCents(g.current);
    assert parts[4] == FormatDate(g.start) && parts[5] == FormatDate(g.targetDate) && parts[1] == g.name;
    GoalFieldsParse(g, parts[0], parts[2], parts[3], parts[4], parts[5]);
  }

  /** Each written number and date parses back to the value it was written from. */
  lemma GoalFieldsParse(g: GoalRecord, id: string, target: string, current: string, start: string, targetDate: string)
    requires IsInt32(g.id) && id == IntToString(g.id)
    requires target == FormatCents(g.target) && current == FormatCents(g.current)
    requires start == FormatDate(g.start) && targetDate == FormatDate(g.targetDate)
    ensures ParseInt(id) == Some(g.id)
    ensures ParseAmount(target) == Some(g.target) && ParseAmount(current) == Some(g.current)
    ensures ParseDate(start) == Some(g.start) && ParseDate(targetDate) == Some(g.targetDate)
  {
    ParseIntOfToString(g.id);
    ParseOfFormatCents(g.target);
    ParseOfFormatCents(g.current);
    ParseOfFormatDate(g.start);
    ParseOfFormatDate(g.targetDate);
  }

  /**
   * Encoding then decoding restores every field. Commas in the
   * description travel as `;` and come back; an empty description leaves a
   * trailing empty field that splitting drops, and decodes to "" again.
   */
  lemma RoundTrip(g: GoalRecord)
    requires Encodable(g)
    ensures ParseGoalLine(EncodeGoal(g)) == Parsed(g)
  {
    if g.description == "" {
      DecodeOfGoalFields(g, GoalFields(g)[..6]);
    } else {
      DecodeOfGoalFields(g, GoalFields(g));
    }
  }

  /** A `;` typed into a description comes back as a `,`: the escape is not reversible for it. */
  lemma SemicolonComesBackAsComma(g: GoalRecord)
    requires Encodable(g.(description := "a"))
    requires g.description == "a;b"
    ensures ParseGoalLine(EncodeGoal(g)).Parsed?
    ensures ParseGoalLine(EncodeGoal(g)).value.description == "a,b"
  {
    var g' := g.(description := "a,b");
    assert Replace(g.description, ',', ';') == "a;b" == Replace(g'.description, ',', ';');
    assert GoalFields(g) == GoalFields(g');
    assert ';' !in g'.description;
    RoundTrip(g');
  }
}
