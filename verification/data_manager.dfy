/**
 * The storage layer: the three files (transactions, budget, savings goals)
 * as sequences of lines. Each file starts with a header line that loading
 * discards unread; every later line is decoded on its own. A line with too
 * few fields is passed over, and a line whose number or date does not
 * parse raises an exception that nothing catches, so the whole load fails;
 * the model reports that as `Err(k)`, `k` being the index of the line in
 * the file (the header is line 0). A missing file is `None`.
 */
module DataStore {
  import opened Wrappers
  import opened Text
  import opened Money
  import opened Dates
  import opened Ids
  import opened Transactions
  import opened Budgets
  import SavingsGoals

  const TransactionHeader: string := "ID,Type,Amount,Category,Description,Date"
  const BudgetHeader: string := "Month,Category,Amount"
  const GoalHeader: string := "ID,Name,TargetAmount,CurrentAmount,StartDate,TargetDate,Description"

  // ---------------------------------------------------------------------
  // Reading a file line by line
  // ---------------------------------------------------------------------

  /** The line results of a file whose first line is a header: that line is skipped, every later one parsed. */
  function AfterHeader<T>(parse: string -> LineResult<T>, lines: seq<string>): (rs: seq<LineResult<T>>)
    ensures |rs| == |lines|
    ensures |lines| > 0 ==> rs[0] == Skipped
    ensures forall k :: 0 < k < |lines| ==> rs[k] == parse(lines[k])
  {
    seq(|lines|, k requires 0 <= k < |lines| => if k == 0 then Skipped else parse(lines[k]))
  }

  /**
   * The outcome of reading lines whose decodings are `rs`, in order: the
   * decoded values, or the index of the line whose decoding raised.
   */
  function Collect<T>(rs: seq<LineResult<T>>): Result<seq<T>, nat> {
    if rs == [] then Ok([])
    else
      match Collect(rs[..|rs| - 1])
      case Err(k) => Err(k)
      case Ok(vs) =>
        match rs[|rs| - 1]
        case Parsed(v) => Ok(vs + [v])
        case Skipped => Ok(vs)
        case Malformed => Err(|rs| - 1)
  }

  /** The decoded values of `rs` in order, read from the front. */
  function Values<T>(rs: seq<LineResult<T>>): seq<T> {
    if rs == [] then []
    else (if rs[0].Parsed? then [rs[0].value] else []) + Values(rs[1..])
  }

  lemma {:induction false} ValuesAppend<T>(rs: seq<LineResult<T>>, r: LineResult<T>)
    ensures Values(rs + [r]) == Values(rs) + (if r.Parsed? then [r.value] else [])
  {
    if rs != [] {
      assert (rs + [r])[1..] == rs[1..] + [r];
      ValuesAppend(rs[1..], r);
    }
  }

  /**
   * Reading succeeds exactly when no line raises; when one does, the
   * error names the first such line.
   */
  lemma {:induction false} CollectSucceedsIff<T>(rs: seq<LineResult<T>>)
    ensures Collect(rs).Ok? <==> forall k :: 0 <= k < |rs| ==> !rs[k].Malformed?
    ensures Collect(rs).Err? ==>
      && Collect(rs).error < |rs| && rs[Collect(rs).error].Malformed?
      && forall j :: 0 <= j < Collect(rs).error ==> !rs[j].Malformed?
  {
    if rs != [] {
      var prefix := rs[..|rs| - 1];
      CollectSucceedsIff(prefix);
      assert forall k :: 0 <= k < |prefix| ==> prefix[k] == rs[k];
    }
  }

  /** A successful read keeps exactly the decoded lines, in file order. */
  lemma {:induction false} CollectKeepsParsedInOrder<T>(rs: seq<LineResult<T>>)
    requires Collect(rs).Ok?
    ensures Collect(rs).value == Values(rs)
  {
    if rs != [] {
      var prefix := rs[..|rs| - 1];
      CollectKeepsParsedInOrder(prefix);
      ValuesAppend(prefix, rs[|rs| - 1]);
      assert prefix + [rs[|rs| - 1]] == rs;
    }
  }

  /** Once a line has raised, the lines after it are never read. */
  lemma {:induction false} CollectStopsAtError<T>(rs: seq<LineResult<T>>, n: nat)
    requires n <= |rs| && Collect(rs[..n]).Err?
    ensures Collect(rs) == Collect(rs[..n])
    decreases |rs| - n
  {
    if n < |rs| {
      assert rs[..n + 1][..n] == rs[..n];
      CollectStopsAtError(rs, n + 1);
    } else {
      assert rs[..n] == rs;
    }
  }

  /** Reading one more line of the file. */
  lemma CollectStep<T>(rs: seq<LineResult<T>>, i: nat)
    requires i < |rs|
    ensures Collect(rs[..i + 1]) ==
      match Collect(rs[..i])
      case Err(k) => Err(k)
      case Ok(vs) =>
        match rs[i]
        case Parsed(v) => Ok(vs + [v])
        case Skipped => Ok(vs)
        case Malformed => Err(i)
  {
    assert rs[..i + 1][..i] == rs[..i];
  }

  /** Reading a line that decodes appends its value. */
  lemma CollectParsed<T>(rs: seq<LineResult<T>>, i: nat, vs: seq<T>, v: T)
    requires i < |rs| && Collect(rs[..i]) == Ok(vs) && rs[i] == Parsed(v)
    ensures Collect(rs[..i + 1]) == Ok(vs + [v])
  {
    CollectStep(rs, i);
  }

  /** Reading a line that is passed over changes nothing. */
  lemma CollectSkipped<T>(rs: seq<LineResult<T>>, i: nat, vs: seq<T>)
    requires i < |rs| && Collect(rs[..i]) == Ok(vs) && rs[i] == Skipped
    ensures Collect(rs[..i + 1]) == Ok(vs)
  {
    CollectStep(rs, i);
  }

  /** Reading a line that raises ends the whole read with its index. */
  lemma CollectMalformed<T>(rs: seq<LineResult<T>>, i: nat, vs: seq<T>)
    requires i < |rs| && Collect(rs[..i]) == Ok(vs) && rs[i] == Malformed
    ensures Collect(rs) == Err(i)
  {
    CollectStep(rs, i);
    CollectStopsAtError(rs, i + 1);
  }

  /** A header followed by lines that all decode reads back as exactly their values. */
  lemma {:induction false} ValuesOfParsed<T>(rs: seq<LineResult<T>>, vs: seq<T>)
    requires |rs| == |vs| + 1 && rs[0] == Skipped
    requires forall k :: 0 <= k < |vs| ==> rs[k + 1] == Parsed(vs[k])
    ensures Collect(rs) == Ok(vs)
  {
    forall k | 0 <= k < |rs| ensures !rs[k].Malformed? {
      if k > 0 {
        assert rs[(k - 1) + 1] == Parsed(vs[k - 1]);
      }
    }
    CollectSucceedsIff(rs);
    CollectKeepsParsedInOrder(rs);
    assert forall k :: 0 <= k < |vs| ==> rs[1..][k] == rs[k + 1];
    ValuesOfAllParsed(rs[1..], vs);
    assert Values(rs) == Values(rs[1..]);
  }

  lemma {:induction false} ValuesOfAllParsed<T>(rs: seq<LineResult<T>>, vs: seq<T>)
    requires |rs| == |vs|
    requires forall k :: 0 <= k < |vs| ==> rs[k] == Parsed(vs[k])
    ensures Values(rs) == vs
  {
    if rs != [] {
      ValuesOfAllParsed(rs[1..], vs[1..]);
      assert vs == [vs[0]] + vs[1..];
    }
  }

  // ---------------------------------------------------------------------
  // The id counter after a load
  // ---------------------------------------------------------------------

  /** The counter after restoring each id of `ids` in turn. */
  function RestoreAll(next: int, ids: seq<int>): (r: int)
    ensures r >= next
    ensures forall k :: 0 <= k < |ids| ==> ids[k] < r
  {
    if ids == [] then next
    else CounterAfterRestore(RestoreAll(next, ids[..|ids| - 1]), ids[|ids| - 1])
  }

  /** Restoring one more id. */
  lemma RestoreAllStep(next: int, ids: seq<int>, id: int)
    ensures RestoreAll(next, ids + [id]) == CounterAfterRestore(RestoreAll(next, ids), id)
  {
    assert (ids + [id])[..|ids|] == ids;
  }

  function TransactionIds(txs: seq<Transaction>): (ids: seq<int>)
    ensures |ids| == |txs| && forall k :: 0 <= k < |txs| ==> ids[k] == txs[k].id
  {
    seq(|txs|, k requires 0 <= k < |txs| => txs[k].id)
  }

  /** Loading one more transaction moves the counter past its id as well. */
  lemma RestoreTransactionStep(next: int, txs: seq<Transaction>, t: Transaction)
    ensures RestoreAll(next, TransactionIds(txs + [t])) == CounterAfterRestore(RestoreAll(next, TransactionIds(txs)), t.id)
  {
    assert TransactionIds(txs + [t]) == TransactionIds(txs) + [t.id];
    RestoreAllStep(next, TransactionIds(txs), t.id);
  }

  /** After a load the counter is ahead of every loaded id, so new records never reuse one. */
  lemma CounterAheadOfLoaded(next: int, txs: seq<Transaction>)
    ensures forall t :: t in txs ==> t.id < RestoreAll(next, TransactionIds(txs))
    ensures RestoreAll(next, TransactionIds(txs)) >= next
  {
    var r := RestoreAll(next, TransactionIds(txs));
    forall t | t in txs ensures t.id < r {
      var k :| 0 <= k < |txs| && txs[k] == t;
      assert TransactionIds(txs)[k] == t.id;
    }
  }

  // ---------------------------------------------------------------------
  // Transactions
  // ---------------------------------------------------------------------

  /** The decoding of each line of a transaction file; the header is passed over. */
  function TransactionResults(lines: seq<string>): (rs: seq<LineResult<Transaction>>)
    ensures |rs| == |lines|
    ensures |lines| > 0 ==> rs[0] == Skipped
    ensures forall k :: 0 < k < |lines| ==> rs[k] == ParseCsvLine(lines[k])
  {
    AfterHeader(ParseCsvLine, lines)
  }

  /** What `loadTransactions` yields for a file: nothing when it is missing. */
  function LoadedTransactions(file: Option<seq<string>>): (r: Result<seq<Transaction>, nat>)
    ensures file.None? ==> r == Ok([])
    ensures file.Some? ==> (r.Ok? <==> forall k :: 0 < k < |file.value| ==> !ParseCsvLine(file.value[k]).Malformed?)
    ensures r.Err? ==> file.Some? && 0 < r.error < |file.value| && ParseCsvLine(file.value[r.error]).Malformed?
  {
    match file
    case None => Ok([])
    case Some(lines) =>
      CollectSucceedsIff(TransactionResults(lines));
      Collect(TransactionResults(lines))
  }

  /**
   * One line after the header, as the loading loop treats it: the
   * transaction `fromCSVString` decodes is appended and the counter moved
   * past its id; a line that raises stops the load.
   */
  method ReadTransactionLine(ids: IdCounter, line: string, ghost rs: seq<LineResult<Transaction>>, ghost i: nat,
                             transactions: seq<Transaction>, ghost start: int)
    returns (stop: bool, extended: seq<Transaction>)
    requires i < |rs| && rs[i] == ParseCsvLine(line) && Collect(rs[..i]) == Ok(transactions)
    requires ids.next == RestoreAll(start, TransactionIds(transactions))
    modifies ids
    ensures stop ==> Collect(rs) == Err(i)
    ensures !stop ==> Collect(rs[..i + 1]) == Ok(extended) && ids.next == RestoreAll(start, TransactionIds(extended))
  {
    var parsed := Transactions.FromCsvString(ids, line);
    match parsed
    case Malformed =>
      CollectMalformed(rs, i, transactions);
      return true, transactions;
    case Skipped =>
      CollectSkipped(rs, i, transactions);
      return false, transactions;
    case Parsed(t) =>
      CollectParsed(rs, i, transactions, t);
      RestoreTransactionStep(start, transactions, t);
      return false, transactions + [t];
  }

  /**
   * `loadTransactions`: skips the first line, decodes each later one
   * (which also moves the counter past its id) and keeps the decoded ones.
   */
  method LoadTransactions(file: Option<seq<string>>, ids: IdCounter) returns (r: Result<seq<Transaction>, nat>)
    modifies ids
    ensures r == LoadedTransactions(file)
    ensures r.Ok? ==> ids.next == RestoreAll(old(ids.next), TransactionIds(r.value))
  {
    if file.None? {
      return Ok([]);
    }
    var lines := file.value;
    ghost var rs := TransactionResults(lines);
    var transactions: seq<Transaction> := [];
    if lines == [] {
      return Ok(transactions);
    }
    // The first line is the header: skipped.
    CollectSkipped(rs, 0, transactions);
    for i := 1 to |lines|
      invariant Collect(rs[..i]) == Ok(transactions)
      invariant ids.next == RestoreAll(old(ids.next), TransactionIds(transactions))
    {
      var stop;
      stop, transactions := ReadTransactionLine(ids, lines[i], rs, i, transactions, old(ids.next));
      if stop {
        return Err(i);
      }
    }
    assert rs[..|lines|] == rs;
    return Ok(transactions);
  }

  /** A header line followed by `body`: line `k + 1` is `body[k]`. */
  lemma HeaderThen<T>(header: T, body: seq<T>)
    ensures |[header] + body| == |body| + 1 && ([header] + body)[0] == header
    ensures forall k :: 0 <= k < |body| ==> ([header] + body)[k + 1] == body[k]
  {
  }

  /** One stored line per transaction, in list order. */
  function TransactionLines(txs: seq<Transaction>): (lines: seq<string>)
    ensures |lines| == |txs| && forall k :: 0 <= k < |txs| ==> lines[k] == ToCsvString(txs[k])
  {
    MapSeq(ToCsvString, txs)
  }

  /** The file `saveTransactions` (and `exportTransactionsToCSV`) writes: the header, then one line per transaction. */
  function TransactionFile(txs: seq<Transaction>): (lines: seq<string>)
    ensures |lines| == |txs| + 1 && lines[0] == TransactionHeader
    ensures forall k :: 0 <= k < |txs| ==> lines[k + 1] == ToCsvString(txs[k])
  {
    HeaderThen(TransactionHeader, TransactionLines(txs));
    [TransactionHeader] + TransactionLines(txs)
  }

  /** `saveTransactions`: writes the header and then each transaction in list order. */
  method SaveTransactions(txs: seq<Transaction>) returns (lines: seq<string>)
    ensures lines == TransactionFile(txs)
  {
    var body := [];
    for i := 0 to |txs|
      invariant body == MapSeq(ToCsvString, txs[..i])
    {
      MapSeqStep(ToCsvString, txs, i);
      body := body + [ToCsvString(txs[i])];
    }
    assert txs[..|txs|] == txs;
    lines := [TransactionHeader] + body;
  }

  /** Saving then loading gives back the same transactions, in order, ids included. */
  lemma TransactionsRoundTrip(txs: seq<Transaction>)
    requires forall k :: 0 <= k < |txs| ==> Encodable(txs[k])
    ensures LoadedTransactions(Some(TransactionFile(txs))) == Ok(txs)
  {
    var rs := TransactionResults(TransactionFile(txs));
    forall k | 0 <= k < |txs| ensures rs[k + 1] == Parsed(txs[k]) {
      RoundTrip(txs[k]);
    }
    ValuesOfParsed(rs, txs);
  }

  /** Joining with a field that holds the separator reads the same as joining its two halves. */
  lemma {:induction false} JoinOfSplitField(fs: seq<string>, k: nat, a: string, b: string, sep: char)
    requires k < |fs| && fs[k] == a + [sep] + b
    ensures Join(fs, sep) == Join(fs[..k] + [a, b] + fs[k + 1..], sep)
  {
    var gs := fs[..k] + [a, b] + fs[k + 1..];
    if k == 0 {
      assert gs == [a, b] + fs[1..];
      assert gs[1..] == [b] + fs[1..];
      if |fs| > 1 {
        assert Join(fs, sep) == a + [sep] + b + [sep] + Join(fs[1..], sep);
      }
    } else {
      JoinOfSplitField(fs[1..], k - 1, a, b, sep);
      assert gs[0] == fs[0];
      assert gs[1..] == fs[1..][..k - 1] + [a, b] + fs[1..][k - 1 + 1..];
    }
  }

  lemma ExampleAmount()
    ensures FormatCents(1250) == "12.50"
  {
    assert NatToString(12) == "12";
    assert Pad2(50) == "50";
  }

  lemma ExampleDate()
    ensures FormatDate(Date(2024, 3, 9)) == "2024-03-09"
  {
    assert Pad2(20) == "20" && Pad2(24) == "24";
    assert Pad4(2024) == "2024";
    assert Pad2(3) == "03" && Pad2(9) == "09";
  }

  /** An expense whose description holds a comma. */
  const CommaExample: Transaction := Transaction(1, Expense, 1250, "Food & Dining", "lunch, coffee", Date(2024, 3, 9))

  /** The fields its stored line splits into: the description's halves apart. */
  const CommaExampleFields: seq<string> := ["1", "EXPENSE", "12.50", "Food & Dining", "lunch", " coffee", "2024-03-09"]

  lemma CommaExampleFieldsCommaFree()
    ensures forall k :: 0 <= k < |CommaExampleFields| ==> ',' !in CommaExampleFields[k]
  {
    forall k | 0 <= k < |CommaExampleFields| ensures ',' !in CommaExampleFields[k] {
      if k == 3 {
        assert CommaExampleFields[3] == "Food & Dining";
      }
    }
  }

  /** The six fields it is written as. */
  const CommaExampleRow: seq<string> := ["1", "EXPENSE", "12.50", "Food & Dining", "lunch, coffee", "2024-03-09"]

  lemma CommaExampleWritten()
    ensures CsvFields(CommaExample) == CommaExampleRow
  {
    ExampleAmount();
    ExampleDate();
    assert IntToString(1) == "1";
  }

  /** The description is the two halves around a comma; splitting it there gives the seven fields. */
  lemma CommaExampleRowHalves()
    ensures CommaExampleRow[4] == "lunch" + [','] + " coffee"
    ensures CommaExampleRow[..4] + ["lunch", " coffee"] + CommaExampleRow[5..] == CommaExampleFields
  {
    assert CommaExampleRow[..4] == ["1", "EXPENSE", "12.50", "Food & Dining"];
    assert CommaExampleRow[5..] == ["2024-03-09"];
  }

  /** Its stored line is the seven fields joined with commas. */
  lemma CommaExampleJoins()
    ensures ToCsvString(CommaExample) == Join(CommaExampleFields, ',')
  {
    CommaExampleWritten();
    CommaExampleRowHalves();
    JoinOfSplitField(CommaExampleRow, 4, "lunch", " coffee", ',');
  }

  /** So splitting it yields seven fields. */
  lemma CommaExampleSplits()
    ensures JavaSplit(ToCsvString(CommaExample), ',') == CommaExampleFields
  {
    CommaExampleJoins();
    CommaExampleFieldsCommaFree();
    JavaSplitOfJoin(CommaExampleFields, ',');
  }

  /** The sixth field is then " coffee", which is no date, so the line raises. */
  lemma CommaExampleMalformed()
    ensures ParseCsvLine(ToCsvString(CommaExample)) == Malformed
  {
    CommaExampleSplits();
    assert ParseDate(" coffee").None?;
  }

  /** A file whose one stored transaction raises fails to load, naming line 1. */
  lemma LoadOfOneMalformed(t: Transaction)
    requires ParseCsvLine(ToCsvString(t)) == Malformed
    ensures LoadedTransactions(Some(TransactionFile([t]))) == Err(1)
  {
    var file := TransactionFile([t]);
    var rs := TransactionResults(file);
    assert file[0 + 1] == ToCsvString(t);
    assert rs[0] == Skipped && rs[1] == Malformed;
    assert rs[..0] == [];
    CollectSkipped(rs, 0, []);
    CollectMalformed(rs, 1, []);
  }

  /** A comma inside a description shifts the date into the sixth field, so the whole load fails. */
  lemma CommaInDescriptionFailsLoad()
    ensures LoadedTransactions(Some(TransactionFile([CommaExample]))) == Err(1)
  {
    CommaExampleMalformed();
    LoadOfOneMalformed(CommaExample);
  }

  // ---------------------------------------------------------------------
  // Savings goals
  // ---------------------------------------------------------------------

  /** The decoding of each line of a goal file; the header is passed over. */
  function GoalResults(lines: seq<string>): (rs: seq<LineResult<SavingsGoals.GoalRecord>>)
    ensures |rs| == |lines|
    ensures |lines| > 0 ==> rs[0] == Skipped
    ensures forall k :: 0 < k < |lines| ==> rs[k] == SavingsGoals.ParseGoalLine(lines[k])
  {
    AfterHeader(SavingsGoals.ParseGoalLine, lines)
  }

  /** What `loadSavingsGoals` yields for a file, as records: nothing when it is missing. */
  function LoadedGoals(file: Option<seq<string>>): (r: Result<seq<SavingsGoals.GoalRecord>, nat>)
    ensures file.None? ==> r == Ok([])
    ensures file.Some? ==> (r.Ok? <==> forall k :: 0 < k < |file.value| ==> !SavingsGoals.ParseGoalLine(file.value[k]).Malformed?)
    ensures r.Err? ==> file.Some? && 0 < r.error < |file.value| && SavingsGoals.ParseGoalLine(file.value[r.error]).Malformed?
  {
    match file
    case None => Ok([])
    case Some(lines) =>
      CollectSucceedsIff(GoalResults(lines));
      Collect(GoalResults(lines))
  }

  function GoalIds(records: seq<SavingsGoals.GoalRecord>): (ids: seq<int>)
    ensures |ids| == |records| && forall k :: 0 <= k < |records| ==> ids[k] == records[k].id
  {
    seq(|records|, k requires 0 <= k < |records| => records[k].id)
  }

  lemma GoalIdsAppend(records: seq<SavingsGoals.GoalRecord>, r: SavingsGoals.GoalRecord)
    ensures GoalIds(records + [r]) == GoalIds(records) + [r.id]
  {
  }

  /** The field values of each goal of a list, in order. */
  function Records(goals: seq<SavingsGoals.SavingsGoal>): (rs: seq<SavingsGoals.GoalRecord>)
    reads set g | g in goals
    ensures |rs| == |goals| && forall k :: 0 <= k < |goals| ==> rs[k] == goals[k].Record()
  {
    if goals == [] then []
    else Records(goals[..|goals| - 1]) + [goals[|goals| - 1].Record()]
  }

  /** `records` lists the field values of `goals`, one for one. */
  ghost predicate Mirrors(goals: seq<SavingsGoals.SavingsGoal>, records: seq<SavingsGoals.GoalRecord>)
    reads set g | g in goals
  {
    |goals| == |records| && forall k :: 0 <= k < |goals| ==> goals[k].Record() == records[k]
  }

  lemma MirrorsAppend(goals: seq<SavingsGoals.SavingsGoal>, records: seq<SavingsGoals.GoalRecord>, g: SavingsGoals.SavingsGoal)
    requires Mirrors(goals, records)
    ensures Mirrors(goals + [g], records + [g.Record()])
  {
  }

  lemma RecordsOf(goals: seq<SavingsGoals.SavingsGoal>, records: seq<SavingsGoals.GoalRecord>)
    requires Mirrors(goals, records)
    ensures Records(goals) == records
  {
  }

  /** The goals of a list are distinct objects. */
  predicate Distinct(goals: seq<SavingsGoals.SavingsGoal>) {
    forall i, j :: 0 <= i < j < |goals| ==> goals[i] != goals[j]
  }

  lemma DistinctAppend(goals: seq<SavingsGoals.SavingsGoal>, g: SavingsGoals.SavingsGoal)
    requires Distinct(goals) && forall k :: 0 <= k < |goals| ==> goals[k] != g
    ensures Distinct(goals + [g])
  {
  }

  /**
   * One line after the header, as the loading loop treats it: the goal
   * `fromCSVString` builds is appended to `goals` and the counter moved
   * past its id; a line that raises stops the load.
   */
  method ReadGoalLine(ids: IdCounter, line: string, today: CalendarDate, goals: seq<SavingsGoals.SavingsGoal>,
                      ghost rs: seq<LineResult<SavingsGoals.GoalRecord>>, ghost i: nat,
                      ghost records: seq<SavingsGoals.GoalRecord>, ghost start: int)
    returns (stop: bool, extended: seq<SavingsGoals.SavingsGoal>, ghost extendedRecords: seq<SavingsGoals.GoalRecord>)
    requires i < |rs| && rs[i] == SavingsGoals.ParseGoalLine(line) && Collect(rs[..i]) == Ok(records)
    requires Mirrors(goals, records) && Distinct(goals)
    requires ids.next == RestoreAll(start, GoalIds(records))
    modifies ids
    ensures stop ==> Collect(rs) == Err(i)
    ensures !stop ==> Collect(rs[..i + 1]) == Ok(extendedRecords)
    ensures !stop ==> Mirrors(extended, extendedRecords) && Distinct(extended)
    ensures !stop ==> ids.next == RestoreAll(start, GoalIds(extendedRecords))
  {
    var goal := SavingsGoals.FromCsvString(ids, line, today);
    match goal
    case Malformed =>
      CollectMalformed(rs, i, records);
      return true, goals, records;
    case Skipped =>
      CollectSkipped(rs, i, records);
      return false, goals, records;
    case Parsed(g) =>
      CollectParsed(rs, i, records, g.Record());
      DistinctAppend(goals, g);
      MirrorsAppend(goals, records, g);
      GoalIdsAppend(records, g.Record());
      RestoreAllStep(start, GoalIds(records), g.id);
      return false, goals + [g], records + [g.Record()];
  }

  /**
   * `loadSavingsGoals`: skips the first line and builds a new goal object
   * from each later line that decodes, in file order.
   */
  method LoadSavingsGoals(file: Option<seq<string>>, ids: IdCounter, today: CalendarDate)
    returns (r: Result<seq<SavingsGoals.SavingsGoal>, nat>)
    modifies ids
    ensures r.Ok? <==> LoadedGoals(file).Ok?
    ensures r.Err? ==> r.error == LoadedGoals(file).error
    ensures r.Ok? ==> Records(r.value) == LoadedGoals(file).value
    ensures r.Ok? ==> Distinct(r.value)
    ensures r.Ok? ==> ids.next == RestoreAll(old(ids.next), GoalIds(Records(r.value)))
  {
    if file.None? {
      return Ok([]);
    }
    var lines := file.value;
    ghost var rs := GoalResults(lines);
    ghost var records: seq<SavingsGoals.GoalRecord> := [];
    var goals: seq<SavingsGoals.SavingsGoal> := [];
    if lines == [] {
      return Ok(goals);
    }
    // The first line is the header: skipped.
    CollectSkipped(rs, 0, records);
    for i := 1 to |lines|
      invariant Collect(rs[..i]) == Ok(records)
      invariant Mirrors(goals, records) && Distinct(goals)
      invariant ids.next == RestoreAll(old(ids.next), GoalIds(records))
    {
      var stop;
      stop, goals, records := ReadGoalLine(ids, lines[i], today, goals, rs, i, records, old(ids.next));
      if stop {
        return Err(i);
      }
    }
    assert rs[..|lines|] == rs;
    RecordsOf(goals, records);
    return Ok(goals);
  }

  /** One stored line per goal record, in list order. */
  function GoalLines(records: seq<SavingsGoals.GoalRecord>): (lines: seq<string>)
    ensures |lines| == |records| && forall k :: 0 <= k < |records| ==> lines[k] == SavingsGoals.EncodeGoal(records[k])
  {
    MapSeq(SavingsGoals.EncodeGoal, records)
  }

  /** The file `saveSavingsGoals` writes: the header, then one line per goal. */
  function GoalFile(records: seq<SavingsGoals.GoalRecord>): (lines: seq<string>)
    ensures |lines| == |records| + 1 && lines[0] == GoalHeader
    ensures forall k :: 0 <= k < |records| ==> lines[k + 1] == SavingsGoals.EncodeGoal(records[k])
  {
    HeaderThen(GoalHeader, GoalLines(records));
    [GoalHeader] + GoalLines(records)
  }

  /** `saveSavingsGoals`: writes the header and then each goal in list order. */
  method SaveSavingsGoals(goals: seq<SavingsGoals.SavingsGoal>) returns (lines: seq<string>)
    ensures lines == GoalFile(Records(goals))
  {
    ghost var records := Records(goals);
    var body := [];
    for i := 0 to |goals|
      invariant body == MapSeq(SavingsGoals.EncodeGoal, records[..i])
    {
      var line := goals[i].ToCsvString();
      MapSeqStep(SavingsGoals.EncodeGoal, records, i);
      body := body + [line];
    }
    assert records[..|goals|] == records;
    lines := [GoalHeader] + body;
  }

  /** Saving then loading gives back goals with the same fields, in order. */
  lemma GoalsRoundTrip(records: seq<SavingsGoals.GoalRecord>)
    requires forall k :: 0 <= k < |records| ==> SavingsGoals.Encodable(records[k])
    ensures LoadedGoals(Some(GoalFile(records))) == Ok(records)
  {
    var rs := GoalResults(GoalFile(records));
    forall k | 0 <= k < |records| ensures rs[k + 1] == Parsed(records[k]) {
      SavingsGoals.RoundTrip(records[k]);
    }
    ValuesOfParsed(rs, records);
  }

  // ---------------------------------------------------------------------
  // Budget
  // ---------------------------------------------------------------------

  /** One accepted budget line. */
  datatype BudgetEntry = BudgetEntry(month: CalendarMonth, category: string, amount: int)

  /**
   * The decoding of one budget line: passed over under three comma
   * fields; raises when the month or the amount does not parse.
   */
  function ParseBudgetLine(line: string): (r: LineResult<BudgetEntry>)
    ensures r.Skipped? <==> |JavaSplit(line, ',')| < 3
    ensures r.Malformed? <==>
      |JavaSplit(line, ',')| >= 3 &&
      (ParseYearMonth(JavaSplit(line, ',')[0]).None? || ParseAmount(JavaSplit(line, ',')[2]).None?)
    ensures r.Parsed? ==>
      && Some(r.value.month) == ParseYearMonth(JavaSplit(line, ',')[0])
      && r.value.category == JavaSplit(line, ',')[1]
      && Some(r.value.amount) == ParseAmount(JavaSplit(line, ',')[2])
  {
    var parts := JavaSplit(line, ',');
    if |parts| < 3 then Skipped
    else
      match (ParseYearMonth(parts[0]), ParseAmount(parts[2]))
      case (Some(month), Some(amount)) => Parsed(BudgetEntry(month, parts[1], amount))
      case _ => Malformed
  }

  function BudgetResults(lines: seq<string>): (rs: seq<LineResult<BudgetEntry>>)
    ensures |rs| == |lines|
    ensures |lines| > 0 ==> rs[0] == Skipped
    ensures forall k :: 0 < k < |lines| ==> rs[k] == ParseBudgetLine(lines[k])
  {
    AfterHeader(ParseBudgetLine, lines)
  }

  /** The limits after `setBudget` for each entry in turn: negative amounts are not stored. */
  function LimitsAfter(entries: seq<BudgetEntry>): map<string, int> {
    if entries == [] then map[]
    else
      var e := entries[|entries| - 1];
      var limits := LimitsAfter(entries[..|entries| - 1]);
      if e.amount >= 0 then limits[e.category := e.amount] else limits
  }

  /** The month after `setBudgetMonth` for each entry in turn. */
  function MonthAfter(entries: seq<BudgetEntry>, initial: CalendarMonth): CalendarMonth {
    if entries == [] then initial else entries[|entries| - 1].month
  }

  /** The month and limits a loaded budget holds. */
  datatype BudgetState = BudgetState(month: CalendarMonth, limits: map<string, int>)

  /** What `loadBudget` yields for a file: an empty budget for `today`'s month when it is missing. */
  function LoadedBudget(file: Option<seq<string>>, today: CalendarMonth): (r: Result<BudgetState, nat>)
    ensures file.None? ==> r == Ok(BudgetState(today, map[]))
    ensures file.Some? ==> (r.Ok? <==> forall k :: 0 < k < |file.value| ==> !ParseBudgetLine(file.value[k]).Malformed?)
    ensures r.Err? ==> file.Some? && 0 < r.error < |file.value| && ParseBudgetLine(file.value[r.error]).Malformed?
  {
    match file
    case None => Ok(BudgetState(today, map[]))
    case Some(lines) =>
      CollectSucceedsIff(BudgetResults(lines));
      match Collect(BudgetResults(lines))
      case Err(k) => Err(k)
      case Ok(entries) => Ok(BudgetState(MonthAfter(entries, today), LimitsAfter(entries)))
  }

  /** Replaying one more entry sets the month, and the limit when it is non-negative. */
  lemma ReplayStep(entries: seq<BudgetEntry>, e: BudgetEntry, today: CalendarMonth)
    ensures MonthAfter(entries + [e], today) == e.month
    ensures LimitsAfter(entries + [e]) == if e.amount >= 0 then LimitsAfter(entries)[e.category := e.amount] else LimitsAfter(entries)
  {
    assert (entries + [e])[..|entries|] == entries;
  }

  /**
   * The body of the `loadBudget` loop for one line after the header: with
   * three fields or more, parses the month and the amount, then sets the
   * month and the category's limit; `Malformed` when a parse raises.
   */
  method ReadBudgetLine(budget: Budget, line: string) returns (parsed: LineResult<BudgetEntry>)
    requires budget.Valid()
    modifies budget
    ensures parsed == ParseBudgetLine(line)
    ensures budget.Valid()
    ensures parsed.Parsed? ==> budget.month == parsed.value.month
    ensures parsed.Parsed? && parsed.value.amount >= 0 ==>
      budget.limits == old(budget.limits)[parsed.value.category := parsed.value.amount]
    ensures parsed.Parsed? && parsed.value.amount < 0 ==> budget.limits == old(budget.limits)
    ensures !parsed.Parsed? ==> budget.month == old(budget.month) && budget.limits == old(budget.limits)
  {
    var parts := JavaSplit(line, ',');
    if |parts| < 3 {
      return Skipped;
    }
    var month := ParseYearMonth(parts[0]);
    if month.None? {
      return Malformed;
    }
    var category := parts[1];
    var amount := ParseAmount(parts[2]);
    if amount.None? {
      return Malformed;
    }
    budget.SetBudgetMonth(month.value);
    budget.SetBudget(category, amount.value);
    return Parsed(BudgetEntry(month.value, category, amount.value));
  }

  /**
   * One line after the header, as the loading loop treats it: the entry
   * is applied to the budget, which then holds what replaying the entries
   * so far gives; a line that raises stops the load.
   */
  method ApplyBudgetLine(budget: Budget, line: string, ghost rs: seq<LineResult<BudgetEntry>>, ghost i: nat,
                         ghost entries: seq<BudgetEntry>, ghost today: CalendarMonth)
    returns (stop: bool, ghost extended: seq<BudgetEntry>)
    requires i < |rs| && rs[i] == ParseBudgetLine(line) && Collect(rs[..i]) == Ok(entries)
    requires budget.Valid() && budget.month == MonthAfter(entries, today) && budget.limits == LimitsAfter(entries)
    modifies budget
    ensures budget.Valid()
    ensures stop ==> Collect(rs) == Err(i)
    ensures !stop ==> Collect(rs[..i + 1]) == Ok(extended)
    ensures !stop ==> budget.month == MonthAfter(extended, today) && budget.limits == LimitsAfter(extended)
  {
    var parsed := ReadBudgetLine(budget, line);
    match parsed
    case Malformed =>
      CollectMalformed(rs, i, entries);
      return true, entries;
    case Skipped =>
      CollectSkipped(rs, i, entries);
      return false, entries;
    case Parsed(e) =>
      CollectParsed(rs, i, entries, e);
      ReplayStep(entries, e, today);
      return false, entries + [e];
  }

  /**
   * `loadBudget`: starts from an empty budget for the current month, skips
   * the first line and, for each later line with three fields, sets the
   * month and then the category's limit.
   */
  method LoadBudget(file: Option<seq<string>>, today: CalendarMonth) returns (r: Result<Budget, nat>)
    ensures r.Ok? <==> LoadedBudget(file, today).Ok?
    ensures r.Err? ==> r.error == LoadedBudget(file, today).error
    ensures r.Ok? ==> fresh(r.value) && r.value.Valid()
    ensures r.Ok? ==> BudgetState(r.value.month, r.value.limits) == LoadedBudget(file, today).value
  {
    var budget := new Budget(today);
    if file.None? {
      return Ok(budget);
    }
    var lines := file.value;
    ghost var rs := BudgetResults(lines);
    ghost var entries: seq<BudgetEntry> := [];
    if lines == [] {
      return Ok(budget);
    }
    // The first line is the header: skipped.
    CollectSkipped(rs, 0, entries);
    for i := 1 to |lines|
      invariant Collect(rs[..i]) == Ok(entries)
      invariant fresh(budget) && budget.Valid()
      invariant budget.month == MonthAfter(entries, today) && budget.limits == LimitsAfter(entries)
    {
      var stop;
      stop, entries := ApplyBudgetLine(budget, lines[i], rs, i, entries, today);
      if stop {
        return Err(i);
      }
    }
    assert rs[..|lines|] == rs;
    return Ok(budget);
  }

  /**
   * A category ends up stored exactly when some entry gives it a
   * non-negative amount, and it holds the amount of the last such entry.
   */
  lemma {:induction false} LastNonNegativeWins(entries: seq<BudgetEntry>, c: string)
    ensures c in LimitsAfter(entries) <==> exists k :: 0 <= k < |entries| && entries[k].category == c && entries[k].amount >= 0
    ensures c in LimitsAfter(entries) ==> exists k ::
      && 0 <= k < |entries| && entries[k].category == c && entries[k].amount == LimitsAfter(entries)[c]
      && forall j :: k < j < |entries| ==> entries[j].category != c || entries[j].amount < 0
    ensures c in LimitsAfter(entries) ==> LimitsAfter(entries)[c] >= 0
  {
    if entries != [] {
      var n := |entries| - 1;
      var prefix := entries[..n];
      LastNonNegativeWins(prefix, c);
      assert forall k :: 0 <= k < n ==> prefix[k] == entries[k];
      var limits, before := LimitsAfter(entries), LimitsAfter(prefix);
      if entries[n].category == c && entries[n].amount >= 0 {
        assert limits[c] == entries[n].amount;
        assert entries[n].category == c && entries[n].amount == limits[c];
      } else if c in before {
        assert c in limits && limits[c] == before[c];
        var k :| 0 <= k < n && prefix[k].category == c && prefix[k].amount == before[c]
          && forall j :: k < j < n ==> prefix[j].category != c || prefix[j].amount < 0;
        assert entries[k] == prefix[k];
        assert forall j :: k < j < |entries| ==> entries[j].category != c || entries[j].amount < 0;
      }
    }
  }

  /** The month of a loaded budget is that of the last line that decodes, or `today`'s without one. */
  lemma LastLineSetsMonth(lines: seq<string>, today: CalendarMonth, k: nat)
    requires LoadedBudget(Some(lines), today).Ok?
    requires 0 < k < |lines| && ParseBudgetLine(lines[k]).Parsed?
    requires forall j :: k < j < |lines| ==> !ParseBudgetLine(lines[j]).Parsed?
    ensures LoadedBudget(Some(lines), today).value.month == ParseBudgetLine(lines[k]).value.month
  {
    var rs := BudgetResults(lines);
    CollectKeepsParsedInOrder(rs);
    LastValue(rs, k);
  }

  lemma {:induction false} LastValue<T>(rs: seq<LineResult<T>>, k: nat)
    requires k < |rs| && rs[k].Parsed?
    requires forall j :: k < j < |rs| ==> !rs[j].Parsed?
    ensures Values(rs) != [] && Values(rs)[|Values(rs)| - 1] == rs[k].value
  {
    if k == 0 {
      NoValues(rs[1..]);
    } else {
      LastValue(rs[1..], k - 1);
    }
  }

  lemma {:induction false} NoValues<T>(rs: seq<LineResult<T>>)
    requires forall j :: 0 <= j < |rs| ==> !rs[j].Parsed?
    ensures Values(rs) == []
  {
    if rs != [] {
      NoValues(rs[1..]);
    }
  }

  /** One budget line reads back as the entry it was written from. */
  lemma ParseOfEntryLine(month: CalendarMonth, category: string, amount: int)
    requires ',' !in category
    ensures ParseBudgetLine(EntryLine(month, category, amount)) == Parsed(BudgetEntry(month, category, amount))
  {
    var fields := [FormatYearMonth(month), category, FormatDouble(amount)];
    assert fields[1..] == [category, FormatDouble(amount)];
    assert fields[1..][1..] == [FormatDouble(amount)];
    assert Join(fields[1..], ',') == category + [','] + FormatDouble(amount);
    assert EntryLine(month, category, amount) == Join(fields, ',');
    NoneInDigits(Pad4(month.year), ',');
    NoneInDigits(Pad2(month.month), ',');
    NoneInDigits(NatToString(Abs(amount) / 100), ',');
    var f := Abs(amount) % 100;
    if f % 10 == 0 {
      NoneInDigits([DigitChar(f / 10)], ',');
    } else {
      NoneInDigits(Pad2(f), ',');
    }
    assert ',' !in FormatYearMonth(month) && ',' !in FormatDouble(amount);
    JavaSplitOfJoin(fields, ',');
    assert FormatDouble(amount) != "";
    ParseOfFormatYearMonth(month);
    ParseOfFormatDouble(amount);
  }

  /** Replaying the lines of a budget written in some key order rebuilds exactly the keys written. */
  lemma {:induction false} LimitsAfterEnumeration(limits: map<string, int>, entries: seq<BudgetEntry>, order: seq<string>)
    requires |entries| == |order|
    requires forall k :: 0 <= k < |order| ==> order[k] in limits && limits[order[k]] >= 0
    requires forall k :: 0 <= k < |order| ==> entries[k].category == order[k] && entries[k].amount == limits[order[k]]
    ensures forall c :: c in LimitsAfter(entries) <==> c in order
    ensures forall c :: c in LimitsAfter(entries) ==> LimitsAfter(entries)[c] == limits[c]
  {
    if entries != [] {
      var n := |entries| - 1;
      LimitsAfterEnumeration(limits, entries[..n], order[..n]);
      assert order == order[..n] + [order[n]];
    }
  }

  /** The entries the lines of a budget written in `order` stand for. */
  function EntriesOf(month: CalendarMonth, limits: map<string, int>, order: seq<string>): (entries: seq<BudgetEntry>)
    requires forall k :: 0 <= k < |order| ==> order[k] in limits
    ensures |entries| == |order|
    ensures forall k :: 0 <= k < |order| ==> entries[k] == BudgetEntry(month, order[k], limits[order[k]])
  {
    seq(|order|, k requires 0 <= k < |order| && order[k] in limits => BudgetEntry(month, order[k], limits[order[k]]))
  }

  /** Each written line decodes to its entry. */
  lemma EntryLinesParse(month: CalendarMonth, limits: map<string, int>, order: seq<string>)
    requires forall k :: 0 <= k < |order| ==> order[k] in limits && ',' !in order[k]
    ensures forall k :: 0 <= k < |order| ==>
      ParseBudgetLine(EntryLines(month, limits, order)[k]) == Parsed(EntriesOf(month, limits, order)[k])
  {
    forall k | 0 <= k < |order|
      ensures ParseBudgetLine(EntryLines(month, limits, order)[k]) == Parsed(EntriesOf(month, limits, order)[k])
    {
      ParseOfEntryLine(month, order[k], limits[order[k]]);
    }
  }

  /** The written lines read back, after the header, as one entry each. */
  lemma BudgetLinesRead(month: CalendarMonth, limits: map<string, int>, order: seq<string>)
    requires forall k :: 0 <= k < |order| ==> order[k] in limits && ',' !in order[k]
    ensures Collect(BudgetResults([BudgetHeader] + EntryLines(month, limits, order))) == Ok(EntriesOf(month, limits, order))
  {
    var body := EntryLines(month, limits, order);
    var entries := EntriesOf(month, limits, order);
    HeaderThen(BudgetHeader, body);
    EntryLinesParse(month, limits, order);
    var lines := [BudgetHeader] + body;
    var rs := BudgetResults(lines);
    forall k | 0 <= k < |order| ensures rs[k + 1] == Parsed(entries[k]) {
      assert lines[k + 1] == body[k];
    }
    ValuesOfParsed(rs, entries);
  }

  /** Replaying those entries rebuilds the whole map when `order` lists every key once. */
  lemma LimitsRebuilt(month: CalendarMonth, limits: map<string, int>, order: seq<string>)
    requires forall c :: c in limits ==> limits[c] >= 0
    requires Enumerates(order, limits.Keys)
    ensures forall k :: 0 <= k < |order| ==> order[k] in limits
    ensures LimitsAfter(EntriesOf(month, limits, order)) == limits
  {
    assert forall k :: 0 <= k < |order| ==> order[k] in order;
    var entries := EntriesOf(month, limits, order);
    LimitsAfterEnumeration(limits, entries, order);
    var rebuilt := LimitsAfter(entries);
    assert rebuilt.Keys == limits.Keys;
    assert forall c :: c in rebuilt ==> rebuilt[c] == limits[c];
  }

  /**
   * Saving a non-empty budget whose categories have no comma, then loading
   * it, gives back its month and all its limits, whatever order the map
   * was written in.
   */
  lemma BudgetRoundTrip(b: Budget, order: seq<string>, today: CalendarMonth)
    requires b.Valid() && b.limits != map[]
    requires Enumerates(order, b.limits.Keys)
    requires forall c :: c in b.limits ==> ',' !in c
    ensures LoadedBudget(Some([BudgetHeader] + EntryLines(b.month, b.limits, order)), today)
      == Ok(BudgetState(b.month, b.limits))
  {
    BudgetStateRoundTrip(b.month, b.limits, order, today);
  }

  lemma BudgetStateRoundTrip(month: CalendarMonth, limits: map<string, int>, order: seq<string>, today: CalendarMonth)
    requires limits != map[] && forall c :: c in limits ==> limits[c] >= 0 && ',' !in c
    requires Enumerates(order, limits.Keys)
    ensures forall k :: 0 <= k < |order| ==> order[k] in limits
    ensures LoadedBudget(Some([BudgetHeader] + EntryLines(month, limits, order)), today) == Ok(BudgetState(month, limits))
  {
    LimitsRebuilt(month, limits, order);
    BudgetLinesRead(month, limits, order);
    assert |order| > 0 by {
      var c :| c in limits;
      assert c in order;
    }
  }

  /** `saveBudget`: the header, then the budget's lines in the map's iteration order. */
  method SaveBudget(b: Budget) returns (lines: seq<string>, ghost order: seq<string>)
    ensures Enumerates(order, b.limits.Keys)
    ensures forall k :: 0 <= k < |order| ==> order[k] in b.limits
    ensures lines == [BudgetHeader] + EntryLines(b.month, b.limits, order)
  {
    var entries;
    entries, order := b.ToCsvLines();
    lines := [BudgetHeader] + entries;
  }
}
