/** The purchase report and the loader that takes it as the next run's input, over records of
    cells. Quoting is the csv library's: writing and reading a record gives it back. */
module CsvReport {
  import opened Types
  import opened Sums
  import opened StableSorting
  import opened CsvNumbers
  import opened RdsTypes

  type Record = seq<string>

  /** A purchase and what came of it. */
  datatype Outcome = Outcome(
    rec: Rec,
    commitmentId: string,
    success: bool,
    error: string,
    timestamp: string
  )

  const COLUMNS: Record := [
    "Service", "Region", "ResourceType", "Family", "Engine", "Deployment",
    "Instances", "CoveredInstances", "Count", "NormalizedUnits", "RecommendedCount",
    "Account", "AccountName", "Term", "PaymentOption",
    "UpfrontPayment", "RecurringMonthlyCost", "EstimatedSavings",
    "CommitmentID", "Success", "Error", "Timestamp", "ExistingCoverage", "ProjectedCoverage"
  ]

  const TOTAL: string := "TOTAL"

  predicate IsCacheService(service: string)
  {
    service == "elasticache" || service == "cache"
  }

  predicate IsComputeService(service: string)
  {
    service == "ec2" || service == "compute"
  }

  // ---- Cells ----------------------------------------------------------------------------

  function EngineOf(rec: Rec): string
  {
    match rec.details
    case Database(engine, _, _) => engine
    case Cache(engine, _) => engine
    case Compute(_, platform) => platform
    case _ => ""
  }

  function DeploymentOf(rec: Rec): string
  {
    match rec.details
    case Database(_, azConfig, _) => azConfig
    case _ => ""
  }

  function FixedOrBlank(x: real, places: nat): string
    requires places > 0
  {
    if x == 0.0 then "" else FormatFixed(x, places)
  }

  function FormatIntOrBlank(n: int): string
  {
    if n == 0 then "" else FormatInt(n)
  }

  function FormatCoveredInstances(rec: Rec): string
  {
    if rec.averageInstances <= 0.0 || rec.existingCoverage <= 0.0 then ""
    else FormatFixed(rec.averageInstances * rec.existingCoverage / 100.0, 1)
  }

  function FormatRecurring(cost: MonthlyCost): string
  {
    if cost.Monthly? then FormatFixed(cost.amount, 2) else ""
  }

  /** `shortest` prints an amount in its shortest decimal form. */
  function FormatNormalizedUnits(rec: Rec, shortest: real -> string): string
  {
    if !IsDatabaseService(rec.service) || UnitsOfType(rec.resourceType) == 0.0 || rec.count == 0 then ""
    else shortest(RowUnits(rec))
  }

  function Row(o: Outcome, shortest: real -> string): (row: Record)
    ensures |row| == |COLUMNS|
  {
    var rec := o.rec;
    [
      rec.service, rec.region, rec.resourceType,
      if IsDatabaseService(rec.service) then FamilyOf(rec.resourceType) else "",
      EngineOf(rec), DeploymentOf(rec),
      FixedOrBlank(rec.averageInstances, 1), FormatCoveredInstances(rec),
      FormatInt(rec.count), FormatNormalizedUnits(rec, shortest), FormatIntOrBlank(rec.recommendedCount),
      rec.account, rec.accountName, rec.term, rec.paymentOption,
      FixedOrBlank(rec.commitmentCost, 2), FormatRecurring(rec.recurringMonthlyCost),
      FormatFixed(rec.estimatedSavings, 2),
      o.commitmentId, if o.success then "true" else "false", o.error, o.timestamp,
      if rec.existingCoverageKnown then FormatFixed(rec.existingCoverage, 1) else "n/a",
      FixedOrBlank(rec.projectedCoverage, 1)
    ]
  }

  // ---- The TOTAL row ----------------------------------------------------------------------

  function CountIn(o: Outcome): int { o.rec.count }

  function UpfrontIn(o: Outcome): real { o.rec.commitmentCost }

  function SavingsIn(o: Outcome): real { o.rec.estimatedSavings }

  function RecurringIn(o: Outcome): real
  {
    if o.rec.recurringMonthlyCost.Monthly? then o.rec.recurringMonthlyCost.amount else 0.0
  }

  function UnitsIn(o: Outcome): real { RowUnits(o.rec) }

  predicate HasBreakdown(results: seq<Outcome>)
  {
    exists i :: 0 <= i < |results| && results[i].rec.recurringMonthlyCost.Monthly?
  }

  function TotalRow(results: seq<Outcome>, shortest: real -> string): (row: Record)
    ensures |row| == |COLUMNS|
  {
    var units := SumReal(UnitsIn, results);
    [
      TOTAL, "", "", "", "", "",
      "", "", FormatInt(SumInt(CountIn, results)), if units > 0.0 then shortest(units) else "", "",
      "", "", "", "",
      FormatFixed(SumReal(UpfrontIn, results), 2),
      if HasBreakdown(results) then FormatFixed(SumReal(RecurringIn, results), 2) else "",
      FormatFixed(SumReal(SavingsIn, results), 2),
      "", "", "", "", "", ""
    ]
  }

  /** What one more row adds to the totals. */
  lemma TotalsStep(results: seq<Outcome>, i: nat)
    requires i < |results|
    ensures SumInt(CountIn, results[..i + 1]) == SumInt(CountIn, results[..i]) + CountIn(results[i])
    ensures SumReal(UnitsIn, results[..i + 1]) == SumReal(UnitsIn, results[..i]) + UnitsIn(results[i])
    ensures SumReal(UpfrontIn, results[..i + 1]) == SumReal(UpfrontIn, results[..i]) + UpfrontIn(results[i])
    ensures SumReal(RecurringIn, results[..i + 1]) == SumReal(RecurringIn, results[..i]) + RecurringIn(results[i])
    ensures SumReal(SavingsIn, results[..i + 1]) == SumReal(SavingsIn, results[..i]) + SavingsIn(results[i])
    ensures HasBreakdown(results[..i + 1]) <==>
              HasBreakdown(results[..i]) || results[i].rec.recurringMonthlyCost.Monthly?
  {
    hide CountIn, UnitsIn, UpfrontIn, RecurringIn, SavingsIn;
    assert results[..i + 1] == results[..i] + [results[i]];
    SumIntStep(CountIn, results[..i], results[i]);
    SumRealStep(UnitsIn, results[..i], results[i]);
    SumRealStep(UpfrontIn, results[..i], results[i]);
    SumRealStep(RecurringIn, results[..i], results[i]);
    SumRealStep(SavingsIn, results[..i], results[i]);
    BreakdownStep(results, i);
  }

  lemma BreakdownStep(results: seq<Outcome>, i: nat)
    requires i < |results|
    ensures HasBreakdown(results[..i + 1]) <==>
              HasBreakdown(results[..i]) || results[i].rec.recurringMonthlyCost.Monthly?
  {
    if HasBreakdown(results[..i]) {
      var k :| 0 <= k < i && results[..i][k].rec.recurringMonthlyCost.Monthly?;
      assert results[..i + 1][k].rec.recurringMonthlyCost.Monthly?;
    }
    if results[i].rec.recurringMonthlyCost.Monthly? {
      assert results[..i + 1][i].rec.recurringMonthlyCost.Monthly?;
    }
    if HasBreakdown(results[..i + 1]) && !results[i].rec.recurringMonthlyCost.Monthly? {
      var k :| 0 <= k < i + 1 && results[..i + 1][k].rec.recurringMonthlyCost.Monthly?;
      assert results[..i][k].rec.recurringMonthlyCost.Monthly?;
    }
  }

  /** One pass over the rows adds up every total. */
  method BuildTotalRow(results: seq<Outcome>, shortest: real -> string) returns (row: Record)
    ensures row == TotalRow(results, shortest)
  {
    var count, units, upfront, recurring, savings := 0, 0.0, 0.0, 0.0, 0.0;
    var hasRecurring := false;
    for i := 0 to |results|
      invariant count == SumInt(CountIn, results[..i])
      invariant units == SumReal(UnitsIn, results[..i])
      invariant upfront == SumReal(UpfrontIn, results[..i])
      invariant recurring == SumReal(RecurringIn, results[..i])
      invariant savings == SumReal(SavingsIn, results[..i])
      invariant hasRecurring == HasBreakdown(results[..i])
    {
      var rec := results[i].rec;
      TotalsStep(results, i);
      count := count + rec.count;
      units := units + RowUnits(rec);
      upfront := upfront + rec.commitmentCost;
      savings := savings + rec.estimatedSavings;
      if rec.recurringMonthlyCost.Monthly? {
        recurring := recurring + rec.recurringMonthlyCost.amount;
        hasRecurring := true;
      }
    }
    assert results[..|results|] == results;
    return [
        TOTAL, "", "", "", "", "",
        "", "", FormatInt(count), if units > 0.0 then shortest(units) else "", "",
        "", "", "", "",
        FormatFixed(upfront, 2), if hasRecurring then FormatFixed(recurring, 2) else "", FormatFixed(savings, 2),
        "", "", "", "", "", ""
      ];
  }

  // ---- Writing --------------------------------------------------------------------------

  predicate MoreUpfront(a: Outcome, b: Outcome)
  {
    a.rec.commitmentCost > b.rec.commitmentCost
  }

  /** The order of the report: most upfront first, ties as they came. */
  function ByUpfront(results: seq<Outcome>): (sorted: seq<Outcome>)
    ensures multiset(sorted) == multiset(results)
  {
    Sort(MoreUpfront, results)
  }

  function Rows(results: seq<Outcome>, shortest: real -> string): (rows: seq<Record>)
    ensures |rows| == |results|
    ensures forall i :: 0 <= i < |rows| ==> rows[i] == Row(results[i], shortest)
  {
    seq(|results|, i requires 0 <= i < |results| => Row(results[i], shortest))
  }

  function Assembled(header: Record, rows: seq<Record>, total: Record): seq<Record>
  {
    [header] + rows + [total]
  }

  /** The records of the report, or none when there is nothing to report. */
  function Report(results: seq<Outcome>, shortest: real -> string): Option<seq<Record>>
  {
    if results == [] then None
    else Some(Assembled(COLUMNS, Rows(ByUpfront(results), shortest), TotalRow(ByUpfront(results), shortest)))
  }

  method WriteReport(results: seq<Outcome>, shortest: real -> string) returns (file: Option<seq<Record>>)
    ensures file == Report(results, shortest)
  {
    hide ByUpfront, Row, TotalRow;
    if |results| == 0 {
      return None;
    }
    var records := [COLUMNS];
    var sorted := ByUpfront(results);
    for i := 0 to |sorted|
      invariant records == [COLUMNS] + Rows(sorted[..i], shortest)
    {
      assert Rows(sorted[..i + 1], shortest) == Rows(sorted[..i], shortest) + [Row(sorted[i], shortest)];
      records := records + [Row(sorted[i], shortest)];
    }
    assert sorted[..|sorted|] == sorted;
    var total := BuildTotalRow(sorted, shortest);
    return Some(records + [total]);
  }

  // ---- Loading --------------------------------------------------------------------------

  /** Where each column is; of two columns with one name the last counts. */
  function ColumnIndex(header: Record): (index: map<string, nat>)
    ensures forall c :: c in index <==> c in header
    ensures forall c :: c in index ==>
              && index[c] < |header| && header[index[c]] == c
              && forall j :: index[c] < j < |header| ==> header[j] != c
  {
    if header == [] then map[]
    else
      var last := |header| - 1;
      assert header == header[..last] + [header[last]];
      ColumnIndex(header[..last])[header[last] := last]
  }

  method BuildColumnIndexMap(header: Record) returns (index: map<string, nat>)
    ensures index == ColumnIndex(header)
  {
    index := map[];
    for i := 0 to |header|
      invariant index == ColumnIndex(header[..i])
    {
      assert header[..i + 1][..i] == header[..i];
      index := index[header[i] := i];
    }
    assert header[..|header|] == header;
  }

  function Field(record: Record, index: map<string, nat>, name: string): string
  {
    if name in index && index[name] < |record| then record[index[name]] else ""
  }

  function RebuiltDetails(service: string, resourceType: string, engine: string, deployment: string): Details
  {
    if engine == "" then NoDetails
    else if IsDatabaseService(service) then Database(engine, deployment, resourceType)
    else if IsCacheService(service) then Cache(engine, resourceType)
    else if IsComputeService(service) then Compute(resourceType, engine)
    else NoDetails
  }

  /** The recommendation a loaded record fills: the named fields, and zeros elsewhere. */
  function Blank(service: string, region: string, resourceType: string, account: string, accountName: string,
                 term: string, paymentOption: string, count: int, savings: real, details: Details): Rec
  {
    Rec(service, region, resourceType, account, accountName, count, OtherCommitment(""), term, paymentOption,
        0.0, 0.0, savings, 0.0, NoBreakdown, 0.0, details, 0.0, 0.0, 0, 0.0, false, 0.0, 0.0)
  }

  /** Fails on a count or savings cell that holds no number. */
  function ParseRecord(record: Record, index: map<string, nat>): Option<Rec>
  {
    var count := IntCell(Field(record, index, "Count"));
    var savings := AmountCell(Field(record, index, "EstimatedSavings"));
    if count.None? || savings.None? then None
    else
      var service, resourceType := Field(record, index, "Service"), Field(record, index, "ResourceType");
      Some(Blank(
        service, Field(record, index, "Region"), resourceType,
        Field(record, index, "Account"), Field(record, index, "AccountName"),
        Field(record, index, "Term"), Field(record, index, "PaymentOption"),
        count.value, savings.value,
        RebuiltDetails(service, resourceType, Field(record, index, "Engine"), Field(record, index, "Deployment"))))
  }

  predicate IsTotal(record: Record, index: map<string, nat>)
  {
    Field(record, index, "Service") == TOTAL
  }

  /** The rows of the records, or nothing if one of them cannot be read. The csv reader refuses
      a record that is not as wide as the header. */
  function Parsed(records: seq<Record>, width: nat, index: map<string, nat>): Option<seq<Rec>>
  {
    if records == [] then Some([])
    else if |records[0]| != width then None
    else if IsTotal(records[0], index) then Parsed(records[1..], width, index)
    else
      var rec := ParseRecord(records[0], index);
      var rest := Parsed(records[1..], width, index);
      if rec.None? || rest.None? then None else Some([rec.value] + rest.value)
  }

  function Prepend(recs: seq<Rec>, rest: Option<seq<Rec>>): Option<seq<Rec>>
  {
    if rest.None? then None else Some(recs + rest.value)
  }

  lemma PrependNothing(rest: Option<seq<Rec>>)
    ensures Prepend([], rest) == rest
  {
    if rest.Some? {
      assert [] + rest.value == rest.value;
    }
  }

  lemma PrependStep(recs: seq<Rec>, rec: Rec, rest: Option<seq<Rec>>)
    ensures Prepend(recs, if rest.None? then None else Some([rec] + rest.value)) == Prepend(recs + [rec], rest)
  {
    if rest.Some? {
      assert recs + ([rec] + rest.value) == recs + [rec] + rest.value;
    }
  }

  method ParseRecords(records: seq<Record>, width: nat, index: map<string, nat>) returns (parsed: Option<seq<Rec>>)
    ensures parsed == Parsed(records, width, index)
  {
    hide ParseRecord, IsTotal;
    var recs := [];
    assert records[0..] == records;
    PrependNothing(Parsed(records, width, index));
    for i := 0 to |records|
      invariant Parsed(records, width, index) == Prepend(recs, Parsed(records[i..], width, index))
    {
      assert records[i..][1..] == records[i + 1..];
      if |records[i]| != width {
        return None;
      }
      if IsTotal(records[i], index) {
        continue;
      }
      var rec := ParseRecord(records[i], index);
      if rec.None? {
        return None;
      }
      PrependStep(recs, rec.value, Parsed(records[i + 1..], width, index));
      recs := recs + [rec.value];
    }
    assert records[|records|..] == [];
    assert recs + [] == recs;
    return Some(recs);
  }

  function Load(file: seq<Record>): Option<seq<Rec>>
  {
    if file == [] then None else Parsed(file[1..], |file[0]|, ColumnIndex(file[0]))
  }

  method LoadRecommendations(file: seq<Record>) returns (loaded: Option<seq<Rec>>)
    ensures loaded == Load(file)
  {
    if |file| == 0 {
      return None;
    }
    var index := BuildColumnIndexMap(file[0]);
    loaded := ParseRecords(file[1..], |file[0]|, index);
  }

  /** A record the loader can use or knows to skip. */
  predicate Readable(record: Record, width: nat, index: map<string, nat>)
  {
    |record| == width && (IsTotal(record, index) || ParseRecord(record, index).Some?)
  }

  /** When a record is read, and what it is read as: blank numbers are zero, and the engine decides
      whether there are details and the service of what kind they are. */
  lemma RecordMeans(record: Record, width: nat, index: map<string, nat>)
    ensures var cell := (name: string) => Field(record, index, name);
            && (Readable(record, width, index) <==>
                  && |record| == width
                  && (|| cell("Service") == "TOTAL"
                      || ((cell("Count") == "" || ScanInt(cell("Count")).Some?)
                          && (cell("EstimatedSavings") == "" || ScanAmount(cell("EstimatedSavings")).Some?))))
            && (ParseRecord(record, index).Some? ==>
                  var rec := ParseRecord(record, index).value;
                  && rec.service == cell("Service") && rec.region == cell("Region")
                  && rec.resourceType == cell("ResourceType") && rec.account == cell("Account")
                  && rec.accountName == cell("AccountName") && rec.term == cell("Term")
                  && rec.paymentOption == cell("PaymentOption")
                  && (if cell("Count") == "" then rec.count == 0 else ScanInt(cell("Count")) == Some(rec.count))
                  && (if cell("EstimatedSavings") == "" then rec.estimatedSavings == 0.0
                      else ScanAmount(cell("EstimatedSavings")) == Some(rec.estimatedSavings))
                  && rec.details
                       == if cell("Engine") == "" then NoDetails
                          else if rec.service == "rds" || rec.service == "relational-db"
                          then Database(cell("Engine"), cell("Deployment"), rec.resourceType)
                          else if rec.service == "elasticache" || rec.service == "cache"
                          then Cache(cell("Engine"), rec.resourceType)
                          else if rec.service == "ec2" || rec.service == "compute"
                          then Compute(rec.resourceType, cell("Engine"))
                          else NoDetails)
  {
    hide Field, ScanInt, ScanAmount;
  }

  /** Loading is all or nothing, and never yields a TOTAL row. */
  lemma {:induction false} LoadsIffReadable(records: seq<Record>, width: nat, index: map<string, nat>)
    ensures Parsed(records, width, index).Some? <==>
              forall i :: 0 <= i < |records| ==> Readable(records[i], width, index)
    ensures Parsed(records, width, index).Some? ==>
              forall r :: r in Parsed(records, width, index).value ==> r.service != TOTAL
  {
    if records != [] {
      LoadsIffReadable(records[1..], width, index);
      assert records == [records[0]] + records[1..];
      if forall i :: 0 <= i < |records| ==> Readable(records[i], width, index) {
        forall i | 0 <= i < |records[1..]| ensures Readable(records[1..][i], width, index) {
          assert records[1..][i] == records[i + 1];
        }
      }
    }
  }

  // ---- The round trip ---------------------------------------------------------------------

  /** What a reported row is once loaded again. */
  function Reloaded(rec: Rec): Rec
  {
    Blank(rec.service, rec.region, rec.resourceType, rec.account, rec.accountName, rec.term, rec.paymentOption,
          rec.count, Rounded(rec.estimatedSavings, 2),
          RebuiltDetails(rec.service, rec.resourceType, EngineOf(rec), DeploymentOf(rec)))
  }

  predicate Survives(o: Outcome)
  {
    o.rec.service != TOTAL
  }

  function ReloadedRows(results: seq<Outcome>): (recs: seq<Rec>)
    ensures |recs| == |results|
    ensures forall i :: 0 <= i < |recs| ==> recs[i] == Reloaded(results[i].rec)
  {
    seq(|results|, i requires 0 <= i < |results| => Reloaded(results[i].rec))
  }

  const WIDTHS: seq<nat> := [7, 6, 12, 6, 6, 10, 9, 16, 5, 15, 16, 7, 11, 4, 13, 14, 20, 16, 12, 7, 5, 9, 16, 17]

  lemma ColumnWidths()
    ensures forall j :: 0 <= j < |COLUMNS| ==> |COLUMNS[j]| == WIDTHS[j]
  {
    forall j | 0 <= j < |COLUMNS| ensures |COLUMNS[j]| == WIDTHS[j] {
    }
  }

  lemma ColumnAt(i: nat)
    requires i < |COLUMNS|
    requires forall j :: i < j < |COLUMNS| ==> COLUMNS[j] != COLUMNS[i]
    ensures COLUMNS[i] in ColumnIndex(COLUMNS) && ColumnIndex(COLUMNS)[COLUMNS[i]] == i
  {
    hide ColumnIndex;
    assert COLUMNS[i] in COLUMNS;
  }

  /** The columns the loader reads. */
  const READ: set<nat> := {0, 1, 2, 4, 5, 8, 11, 12, 13, 14, 17}

  lemma SameWidthColumnsDiffer()
    ensures COLUMNS[0] != COLUMNS[11] && COLUMNS[0] != COLUMNS[19] && COLUMNS[1] != COLUMNS[4]
    ensures COLUMNS[2] != COLUMNS[18] && COLUMNS[8] != COLUMNS[20] && COLUMNS[11] != COLUMNS[19]
    ensures COLUMNS[17] != COLUMNS[22] && COLUMNS[1] != COLUMNS[3]
  {
    assert COLUMNS[0][0] != COLUMNS[11][0] && COLUMNS[0][1] != COLUMNS[19][1];
    assert COLUMNS[1][0] != COLUMNS[4][0] && COLUMNS[2][0] != COLUMNS[18][0];
    assert COLUMNS[8][0] != COLUMNS[20][0] && COLUMNS[11][0] != COLUMNS[19][0];
    assert COLUMNS[17][1] != COLUMNS[22][1] && COLUMNS[1][0] != COLUMNS[3][0];
  }

  /** Of the columns read, the only later ones of the same width. */
  predicate SameWidthLater(i: nat, j: nat)
  {
    || (i == 0 && (j == 11 || j == 19)) || (i == 1 && (j == 3 || j == 4)) || (i == 2 && j == 18)
    || (i == 8 && j == 20) || (i == 11 && j == 19) || (i == 17 && j == 22)
  }

  lemma WidthsTellApart(i: nat, j: nat)
    requires i in READ && i < j < |WIDTHS|
    ensures WIDTHS[i] == WIDTHS[j] <==> SameWidthLater(i, j)
  {
  }

  lemma NoLaterColumn(i: nat, j: nat)
    requires i in READ && i < j < |COLUMNS|
    ensures COLUMNS[i] != COLUMNS[j]
  {
    WidthsTellApart(i, j);
    if SameWidthLater(i, j) {
      SameWidthColumnsDiffer();
    } else {
      ColumnWidths();
    }
  }

  lemma ReadsItsCell(record: Record, i: nat)
    requires |record| == |COLUMNS| && i in READ
    ensures Field(record, ColumnIndex(COLUMNS), COLUMNS[i]) == record[i]
  {
    forall j | i < j < |COLUMNS| ensures COLUMNS[j] != COLUMNS[i] {
      NoLaterColumn(i, j);
    }
    ColumnAt(i);
  }

  /** The loader takes each field from the cell the writer put it in. */
  lemma ReadsItsCells(record: Record)
    requires |record| == |COLUMNS|
    ensures var at := ColumnIndex(COLUMNS);
            && Field(record, at, "Service") == record[0] && Field(record, at, "Region") == record[1]
            && Field(record, at, "ResourceType") == record[2] && Field(record, at, "Engine") == record[4]
            && Field(record, at, "Deployment") == record[5] && Field(record, at, "Count") == record[8]
            && Field(record, at, "Account") == record[11] && Field(record, at, "AccountName") == record[12]
            && Field(record, at, "Term") == record[13] && Field(record, at, "PaymentOption") == record[14]
            && Field(record, at, "EstimatedSavings") == record[17]
  {
    hide ColumnIndex, Field;
    forall i | i in READ ensures Field(record, ColumnIndex(COLUMNS), COLUMNS[i]) == record[i] {
      ReadsItsCell(record, i);
    }
    assert COLUMNS[0] == "Service" && COLUMNS[1] == "Region" && COLUMNS[2] == "ResourceType";
    assert COLUMNS[4] == "Engine" && COLUMNS[5] == "Deployment" && COLUMNS[8] == "Count";
    assert COLUMNS[11] == "Account" && COLUMNS[12] == "AccountName" && COLUMNS[13] == "Term";
    assert COLUMNS[14] == "PaymentOption" && COLUMNS[17] == "EstimatedSavings";
  }

  lemma PrintedNumbersLoad(count: int, savings: real)
    ensures IntCell(FormatInt(count)) == Some(count)
    ensures AmountCell(FormatFixed(savings, 2)) == Some(Rounded(savings, 2))
  {
    IntRoundTrip(count, "");
    assert FormatInt(count) + "" == FormatInt(count);
    AmountRoundTrip(savings, 2);
  }

  lemma RoundsToCents(x: real)
    ensures -0.005 <= Rounded(x, 2) - x <= 0.005
  {
    RoundedIsNear(x, 2);
    assert Pow10(2) == 100;
  }

  lemma RowLoads(o: Outcome, shortest: real -> string)
    ensures ParseRecord(Row(o, shortest), ColumnIndex(COLUMNS)) == Some(Reloaded(o.rec))
    ensures IsTotal(Row(o, shortest), ColumnIndex(COLUMNS)) <==> !Survives(o)
  {
    hide ColumnIndex, Field, FormatInt, FormatFixed, IntCell, AmountCell, Rounded, RebuiltDetails;
    ReadsItsCells(Row(o, shortest));
    PrintedNumbersLoad(o.rec.count, o.rec.estimatedSavings);
  }

  lemma TotalIsSkipped(results: seq<Outcome>, shortest: real -> string)
    ensures IsTotal(TotalRow(results, shortest), ColumnIndex(COLUMNS))
  {
    hide ColumnIndex, Field;
    ReadsItsCells(TotalRow(results, shortest));
  }

  lemma {:induction false} RowsLoad(results: seq<Outcome>, all: seq<Outcome>, shortest: real -> string)
    ensures Parsed(Rows(results, shortest) + [TotalRow(all, shortest)], |COLUMNS|, ColumnIndex(COLUMNS))
         == Some(ReloadedRows(Filter(Survives, results)))
  {
    hide ColumnIndex, ParseRecord, Row, TotalRow, IsTotal, Reloaded, Survives;
    var total := TotalRow(all, shortest);
    var at, records := ColumnIndex(COLUMNS), Rows(results, shortest) + [total];
    if results == [] {
      TotalIsSkipped(all, shortest);
      assert records[1..] == [];
    } else {
      assert records[1..] == Rows(results[1..], shortest) + [total];
      RowsLoad(results[1..], all, shortest);
      RowLoads(results[0], shortest);
      var rest := Filter(Survives, results[1..]);
      assert ReloadedRows([results[0]] + rest) == [Reloaded(results[0].rec)] + ReloadedRows(rest);
    }
  }

  lemma LoadsAssembled(header: Record, rows: seq<Record>, total: Record)
    ensures Load(Assembled(header, rows, total)) == Parsed(rows + [total], |header|, ColumnIndex(header))
  {
    hide Parsed, ColumnIndex;
    assert Assembled(header, rows, total)[1..] == rows + [total];
  }

  /** The report lists the largest upfront payments first and keeps ties as they came, which
      fixes its order. */
  lemma ReportIsOrdered(results: seq<Outcome>, k: Outcome)
    ensures StrictWeakOrder(MoreUpfront)
    ensures forall i, j :: 0 <= i < j < |ByUpfront(results)| ==>
              ByUpfront(results)[i].rec.commitmentCost >= ByUpfront(results)[j].rec.commitmentCost
    ensures Class(MoreUpfront, k, ByUpfront(results)) == Class(MoreUpfront, k, results)
  {
    SortIsSorted(MoreUpfront, results);
    SortIsStable(MoreUpfront, results, k);
  }

  /** A report written and loaded again; nothing when nothing was written or it cannot be read. */
  function Reread(results: seq<Outcome>, shortest: real -> string): Option<seq<Rec>>
  {
    var file := Report(results, shortest);
    if file.None? then None else Load(file.value)
  }

  /** Loading a written report gives back, in report order, every row whose service is not
      TOTAL, and nothing else. */
  lemma ReportRoundTrips(results: seq<Outcome>, shortest: real -> string)
    ensures Reread(results, shortest)
         == if results == [] then None else Some(ReloadedRows(Filter(Survives, ByUpfront(results))))
  {
    hide ByUpfront, TotalRow, ColumnIndex, Rows, Assembled, Load, Parsed;
    var sorted := ByUpfront(results);
    RowsLoad(sorted, sorted, shortest);
    LoadsAssembled(COLUMNS, Rows(sorted, shortest), TotalRow(sorted, shortest));
  }

  /** What survives the trip exactly, and the savings to within half a cent. */
  lemma ReloadedKeepsTheOffer(rec: Rec)
    ensures var r := Reloaded(rec);
            && r.service == rec.service && r.region == rec.region && r.resourceType == rec.resourceType
            && r.account == rec.account && r.accountName == rec.accountName
            && r.term == rec.term && r.paymentOption == rec.paymentOption && r.count == rec.count
            && -0.005 <= r.estimatedSavings - rec.estimatedSavings <= 0.005
  {
    hide Rounded, RebuiltDetails;
    RoundsToCents(rec.estimatedSavings);
  }

  /** The services whose engine the loader knows how to put back. */
  predicate KeepsEngine(service: string)
  {
    IsDatabaseService(service) || IsCacheService(service) || IsComputeService(service)
  }

  /** The trip is not lossless: it keeps the engine exactly for rows without one and for the six
      services above, and the deployment exactly for rows without one and for database rows that
      name an engine. */
  lemma EngineSurvivesIff(rec: Rec)
    ensures EngineOf(Reloaded(rec)) == EngineOf(rec) <==> EngineOf(rec) == "" || KeepsEngine(rec.service)
    ensures DeploymentOf(Reloaded(rec)) == DeploymentOf(rec) <==>
              DeploymentOf(rec) == "" || (EngineOf(rec) != "" && IsDatabaseService(rec.service))
  {
    hide Rounded;
  }

  /** A MemoryDB row carries its engine in cache details and comes back without it. */
  lemma MemoryDbLosesItsEngine(rec: Rec)
    requires rec.service == "memorydb" && rec.details == Cache("redis", rec.resourceType)
    ensures EngineOf(rec) == "redis" && Reloaded(rec).details == NoDetails
  {
    hide Rounded;
    assert !KeepsEngine(rec.service) by {
      assert |rec.service| == 8;
    }
  }

  lemma ReloadedTwice(rec: Rec)
    ensures Reloaded(Reloaded(rec)) == Reloaded(rec)
  {
    hide Rounded;
    RoundedTwice(rec.estimatedSavings, 2);
  }

  lemma {:induction false} SortOfTies(results: seq<Outcome>)
    requires forall a, b :: a in results && b in results ==> !MoreUpfront(a, b)
    ensures ByUpfront(results) == results
  {
    if results != [] {
      SortOfTies(results[1..]);
      if results[1..] != [] {
        assert results[1] in results;
      }
    }
  }

  lemma {:induction false} AllSurvive(results: seq<Outcome>)
    requires forall o :: o in results ==> Survives(o)
    ensures Filter(Survives, results) == results
  {
    if results != [] {
      assert results[0] in results;
      AllSurvive(results[1..]);
    }
  }

  /** Outcomes of purchasing these rows, whatever they were. */
  ghost predicate OutcomesOf(outcomes: seq<Outcome>, recs: seq<Rec>)
  {
    |outcomes| == |recs| && forall i :: 0 <= i < |recs| ==> outcomes[i].rec == recs[i]
  }

  /** Reporting the loaded rows, whatever became of them, and loading that report gives the
      same rows in the same order. */
  lemma LoadAfterWriteIsIdempotent(results: seq<Outcome>, again: seq<Outcome>, shortest: real -> string)
    ensures var loaded := Reread(results, shortest);
            loaded.Some? && loaded.value != [] && OutcomesOf(again, loaded.value) ==>
              Reread(again, shortest) == loaded
  {
    hide Reread, ByUpfront, Reloaded;
    ReportRoundTrips(results, shortest);
    ReportRoundTrips(again, shortest);
    var kept := Filter(Survives, ByUpfront(results));
    var loaded := ReloadedRows(kept);
    if results != [] && loaded != [] && OutcomesOf(again, loaded) {
      forall o | o in again ensures Survives(o) && o.rec.commitmentCost == 0.0 {
        var i :| 0 <= i < |again| && again[i] == o;
        assert kept[i] in kept;
        ReloadedStays(kept[i]);
      }
      SortOfTies(again);
      AllSurvive(again);
      forall i | 0 <= i < |again| ensures Reloaded(again[i].rec) == loaded[i] {
        ReloadedTwice(kept[i].rec);
      }
      assert ReloadedRows(again) == loaded;
    }
  }

  lemma ReloadedStays(o: Outcome)
    requires Survives(o)
    ensures Reloaded(o.rec).service != TOTAL && Reloaded(o.rec).commitmentCost == 0.0
  {
    hide Rounded, RebuiltDetails;
  }

  // ---- The TOTAL row against the rows ------------------------------------------------------

  lemma {:induction false} TotalsOf(results: seq<Outcome>)
    ensures SumInt(CountOf, ReloadedRows(results)) == SumInt(CountIn, results)
    ensures var off := SumReal(SavingsOf, ReloadedRows(results)) - SumReal(SavingsIn, results);
            -0.005 * |results| as real <= off <= 0.005 * |results| as real
  {
    if results != [] {
      hide Reloaded;
      assert ReloadedRows(results)[1..] == ReloadedRows(results[1..]);
      ReloadedKeepsTheOffer(results[0].rec);
      TotalsOf(results[1..]);
    }
  }

  /** A cell of the last record of a report. */
  function TotalField(results: seq<Outcome>, shortest: real -> string, name: string): string
  {
    var file := Report(results, shortest);
    if file.None? then "" else LastField(file.value, name)
  }

  function LastField(file: seq<Record>, name: string): string
  {
    if file == [] then "" else Field(file[|file| - 1], ColumnIndex(COLUMNS), name)
  }

  lemma AssembledEnds(header: Record, rows: seq<Record>, total: Record, name: string)
    ensures LastField(Assembled(header, rows, total), name) == Field(total, ColumnIndex(COLUMNS), name)
  {
    hide ColumnIndex, Field;
  }

  lemma TotalNumbers(results: seq<Outcome>, shortest: real -> string)
    ensures TotalRow(results, shortest)[8] == FormatInt(SumInt(CountIn, results))
    ensures TotalRow(results, shortest)[17] == FormatFixed(SumReal(SavingsIn, results), 2)
  {
    hide FormatInt, FormatFixed, SumInt, SumReal;
  }

  lemma TotalFields(results: seq<Outcome>, shortest: real -> string)
    ensures Field(TotalRow(results, shortest), ColumnIndex(COLUMNS), "Count") == FormatInt(SumInt(CountIn, results))
    ensures Field(TotalRow(results, shortest), ColumnIndex(COLUMNS), "EstimatedSavings")
         == FormatFixed(SumReal(SavingsIn, results), 2)
  {
    hide ColumnIndex, Field, FormatInt, FormatFixed, TotalRow;
    ReadsItsCells(TotalRow(results, shortest));
    TotalNumbers(results, shortest);
  }

  lemma TotalCells(results: seq<Outcome>, shortest: real -> string)
    requires results != []
    ensures TotalField(results, shortest, "Count") == FormatInt(SumInt(CountIn, ByUpfront(results)))
    ensures TotalField(results, shortest, "EstimatedSavings") == FormatFixed(SumReal(SavingsIn, ByUpfront(results)), 2)
  {
    hide ByUpfront, ColumnIndex, Field, FormatInt, FormatFixed, Rows, Assembled, LastField, TotalRow;
    var sorted := ByUpfront(results);
    AssembledEnds(COLUMNS, Rows(sorted, shortest), TotalRow(sorted, shortest), "Count");
    AssembledEnds(COLUMNS, Rows(sorted, shortest), TotalRow(sorted, shortest), "EstimatedSavings");
    TotalFields(sorted, shortest);
  }

  /** The TOTAL row of a report agrees with the rows a load gives back: its count is theirs, and
      its savings are within half a cent a row of theirs, and half a cent of its own. */
  lemma TotalRowAgreesWithTheRows(results: seq<Outcome>, shortest: real -> string)
    requires results != [] && forall o :: o in results ==> Survives(o)
    ensures var loaded := Reread(results, shortest);
            && loaded.Some?
            && ScanInt(TotalField(results, shortest, "Count")) == Some(SumInt(CountOf, loaded.value))
            && ScanAmount(TotalField(results, shortest, "EstimatedSavings")).Some?
            && var off := ScanAmount(TotalField(results, shortest, "EstimatedSavings")).value
                          - SumReal(SavingsOf, loaded.value);
               -0.005 * (|results| + 1) as real <= off <= 0.005 * (|results| + 1) as real
  {
    hide Reread, ByUpfront, Rounded, ScanInt, ScanAmount, FormatInt, FormatFixed, TotalField, Pow10;
    ReportRoundTrips(results, shortest);
    var sorted := ByUpfront(results);
    forall o | o in sorted ensures Survives(o) {
      assert o in multiset(sorted);
    }
    AllSurvive(sorted);
    TotalsOf(sorted);
    TotalCells(results, shortest);
    var count, savings := SumInt(CountIn, sorted), SumReal(SavingsIn, sorted);
    IntRoundTrip(count, "");
    assert FormatInt(count) + "" == FormatInt(count);
    AmountRoundTrip(savings, 2);
    RoundsToCents(savings);
    assert |sorted| == |multiset(sorted)| == |multiset(results)| == |results|;
  }
}
