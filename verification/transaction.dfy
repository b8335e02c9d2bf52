/**
 * One income or expense record, its id allocation, its setters and its
 * comma-joined line codec `id,type,amount,category,description,yyyy-MM-dd`.
 */
module Transactions {
  import opened Wrappers
  import opened Text
  import opened Money
  import opened Dates
  import opened Ids

  const Income: string := "INCOME"
  const Expense: string := "EXPENSE"

  /**
   * One money movement. `kind` is the type tag the code compares with
   * "INCOME" and "EXPENSE"; `amount` is in cents.
   */
  datatype Transaction = Transaction(
    id: int,
    kind: string,
    amount: int,
    category: string,
    description: string,
    date: CalendarDate)

  /** The constructor: takes the next id from the counter and upper-cases the type. */
  method Create(ids: IdCounter, kind: string, amount: int, category: string, description: string, date: CalendarDate)
    returns (t: Transaction)
    modifies ids
    ensures t == Transaction(old(ids.next), ToUpper(kind), amount, category, description, date)
    ensures ids.next == old(ids.next) + 1
  {
    var id := ids.Allocate();
    t := Transaction(id, ToUpper(kind), amount, category, description, date);
  }

  // Setters: each replaces its own field; none touches the id or the type.

  function SetAmount(t: Transaction, amount: int): (r: Transaction)
    ensures r.amount == amount
    ensures r.id == t.id && r.kind == t.kind && r.category == t.category
    ensures r.description == t.description && r.date == t.date
  {
    t.(amount := amount)
  }

  function SetCategory(t: Transaction, category: string): (r: Transaction)
    ensures r.category == category
    ensures r.id == t.id && r.kind == t.kind && r.amount == t.amount
    ensures r.description == t.description && r.date == t.date
  {
    t.(category := category)
  }

  function SetDescription(t: Transaction, description: string): (r: Transaction)
    ensures r.description == description
    ensures r.id == t.id && r.kind == t.kind && r.amount == t.amount
    ensures r.category == t.category && r.date == t.date
  {
    t.(description := description)
  }

  function SetDate(t: Transaction, date: CalendarDate): (r: Transaction)
    ensures r.date == date
    ensures r.id == t.id && r.kind == t.kind && r.amount == t.amount
    ensures r.category == t.category && r.description == t.description
  {
    t.(date := date)
  }

  /** The six fields `toCSVString` writes, in order. */
  function CsvFields(t: Transaction): seq<string> {
    [IntToString(t.id), t.kind, FormatCents(t.amount), t.category, t.description, FormatDate(t.date)]
  }

  /**
   * `toCSVString`: the six fields joined with commas, nothing escaped. A
   * record without commas in its text splits back into exactly its six
   * fields, in order.
   */
  function ToCsvString(t: Transaction): (r: string)
    ensures Encodable(t) ==> JavaSplit(r, ',') == CsvFields(t)
  {
    if Encodable(t) then
      SplitEncodedFields(t, []);
      assert CsvFields(t) + [] == CsvFields(t);
      Join(CsvFields(t), ',')
    else Join(CsvFields(t), ',')
  }

  /**
   * `fromCSVString` without its effect on the counter: `Skipped` (Java's
   * `null`) when the line splits into fewer than six fields, `Malformed`
   * when the id, amount or date does not parse, otherwise the record with
   * its type upper-cased. Fields after the sixth are not read.
   */
  function ParseCsvLine(line: string): (r: LineResult<Transaction>)
    ensures r.Skipped? <==> |JavaSplit(line, ',')| < 6
    ensures r.Malformed? <==>
      |JavaSplit(line, ',')| >= 6 &&
      (ParseInt(JavaSplit(line, ',')[0]).None? || ParseAmount(JavaSplit(line, ',')[2]).None?
       || ParseDate(JavaSplit(line, ',')[5]).None?)
    ensures r.Parsed? ==> IsInt32(r.value.id) && ToUpper(r.value.kind) == r.value.kind
  {
    DecodeFields(JavaSplit(line, ','))
  }

  /** The decoding of the fields once the line is split. */
  function DecodeFields(parts: seq<string>): (r: LineResult<Transaction>)
    ensures r.Skipped? <==> |parts| < 6
    ensures r.Malformed? <==>
      |parts| >= 6 && (ParseInt(parts[0]).None? || ParseAmount(parts[2]).None? || ParseDate(parts[5]).None?)
    ensures r.Parsed? ==> IsInt32(r.value.id) && ToUpper(r.value.kind) == r.value.kind
    ensures r.Parsed? ==>
      && Some(r.value.id) == ParseInt(parts[0]) && r.value.kind == ToUpper(parts[1])
      && Some(r.value.amount) == ParseAmount(parts[2]) && r.value.category == parts[3]
      && r.value.description == parts[4] && Some(r.value.date) == ParseDate(parts[5])
  {
    if |parts| < 6 then Skipped
    else
      match (ParseInt(parts[0]), ParseAmount(parts[2]), ParseDate(parts[5]))
      case (Some(id), Some(amount), Some(date)) =>
        ToUpperIdempotent(parts[1]);
        Parsed(Transaction(id, ToUpper(parts[1]), amount, parts[3], parts[4], date))
      case _ => Malformed
  }

  /**
   * `fromCSVString`: decodes the line and, on success, leaves the counter
   * ahead of both its old value and the restored id.
   */
  method FromCsvString(ids: IdCounter, line: string) returns (r: LineResult<Transaction>)
    modifies ids
    ensures r == ParseCsvLine(line)
    ensures r.Parsed? ==> ids.next == CounterAfterRestore(old(ids.next), r.value.id)
    ensures !r.Parsed? ==> ids.next == old(ids.next)
  {
    var parts := JavaSplit(line, ',');
    if |parts| < 6 {
      return Skipped;
    }
    var id := ParseInt(parts[0]);
    var amount := ParseAmount(parts[2]);
    var date := ParseDate(parts[5]);
    if id.None? || amount.None? || date.None? {
      return Malformed;
    }
    var t := Create(ids, parts[1], amount.value, parts[3], parts[4], date.value);
    t := t.(id := id.value);
    ids.Restore(id.value);
    ToUpperIdempotent(parts[1]);
    return Parsed(t);
  }

  /** What a line can carry unchanged: an `int` id, an upper-case type, and no commas in the text fields. */
  predicate Encodable(t: Transaction) {
    && IsInt32(t.id)
    && ToUpper(t.kind) == t.kind
    && ',' !in t.kind && ',' !in t.category && ',' !in t.description
  }

  lemma NoCommaInNumbers(t: Transaction)
    ensures ',' !in IntToString(t.id)
    ensures ',' !in FormatCents(t.amount)
    ensures ',' !in FormatDate(t.date) && FormatDate(t.date) != ""
  {
    NoneInDigits(NatToString(Abs(t.id)), ',');
    NoneInDigits(NatToString(Abs(t.amount) / 100), ',');
    NoneInDigits(Pad2(Abs(t.amount) % 100), ',');
    NoneInDigits(Pad4(t.date.year), ',');
    NoneInDigits(Pad2(t.date.month), ',');
    NoneInDigits(Pad2(t.date.day), ',');
  }

  /**
   * However many comma-free fields follow the six, splitting gives back
   * the six first, in order (the date, being non-empty, is never dropped).
   */
  lemma SplitEncodedFields(t: Transaction, extra: seq<string>)
    requires Encodable(t)
    requires forall k :: 0 <= k < |extra| ==> ',' !in extra[k]
    ensures |JavaSplit(Join(CsvFields(t) + extra, ','), ',')| >= 6
    ensures JavaSplit(Join(CsvFields(t) + extra, ','), ',')[..6] == CsvFields(t)
    ensures extra == [] ==> JavaSplit(Join(CsvFields(t) + extra, ','), ',') == CsvFields(t)
  {
    var fs := CsvFields(t) + extra;
    NoCommaInNumbers(t);
    assert forall k :: 0 <= k < |fs| ==> ',' !in fs[k] by {
      forall k | 0 <= k < |fs| ensures ',' !in fs[k] {
        if k >= 6 {
          assert fs[k] == extra[k - 6];
        }
      }
    }
    JavaSplitOfJoin(fs, ',');
    var r := DropTrailingEmpty(fs);
    assert fs[5] != "";
    assert |r| >= 6;
    assert r[..6] == fs[..6] == CsvFields(t);
  }

  /**
   * Fields after the sixth are ignored: the record decodes the same with
   * any comma-free fields appended, and with none it decodes to itself.
   */
  lemma ParseIgnoresExtraFields(t: Transaction, extra: seq<string>)
    requires Encodable(t)
    requires forall k :: 0 <= k < |extra| ==> ',' !in extra[k]
    ensures ParseCsvLine(Join(CsvFields(t) + extra, ',')) == Parsed(t)
  {
    SplitEncodedFields(t, extra);
    DecodeOfFields(t, JavaSplit(Join(CsvFields(t) + extra, ','), ','));
  }

  lemma DecodeOfFields(t: Transaction, parts: seq<string>)
    requires Encodable(t)
    requires |parts| >= 6 && parts[..6] == CsvFields(t)
    ensures DecodeFields(parts) == Parsed(t)
  {
    assert parts[0] == IntToString(t.id) && parts[1] == t.kind && parts[2] == FormatCents(t.amount);
    assert parts[3] == t.category && parts[4] == t.description && parts[5] == FormatDate(t.date);
    ParseIntOfToString(t.id);
    ParseOfFormatCents(t.amount);
    ParseOfFormatDate(t.date);
  }

  /** Encoding then decoding restores every field, the id included. */
  lemma RoundTrip(t: Transaction)
    requires Encodable(t)
    ensures ParseCsvLine(ToCsvString(t)) == Parsed(t)
  {
    ParseIgnoresExtraFields(t, []);
    assert CsvFields(t) + [] == CsvFields(t);
  }

  /** A line with an empty description still decodes: the empty field is interior. */
  lemma EmptyDescriptionSurvives(t: Transaction)
    requires Encodable(t) && t.description == ""
    ensures ParseCsvLine(ToCsvString(t)) == Parsed(t)
  {
    RoundTrip(t);
  }
}
