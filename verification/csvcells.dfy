/** What the cells of a report say that the loader does not read back: each amount is shown to the
    last printed place, and a blank means what the report says it means. */
module CsvCells {
  import opened Types
  import opened Sums
  import opened RdsTypes
  import opened CsvNumbers
  import opened CsvReport

  /** The cell scans as an amount within half a unit of its last place of `x`. */
  predicate Shows(cell: string, x: real, places: nat)
  {
    var amount := ScanAmount(cell);
    amount.Some? && -0.5 <= (amount.value - x) * Pow10(places) as real <= 0.5
  }

  predicate ShowsOrBlank(cell: string, x: real, places: nat)
  {
    if x == 0.0 then cell == "" else Shows(cell, x, places)
  }

  lemma PrintedShows(x: real, places: nat)
    requires places > 0
    ensures Shows(FormatFixed(x, places), x, places)
  {
    hide ScanAmount, FormatFixed, Rounded, Pow10;
    AmountRoundTrip(x, places);
    RoundedIsNear(x, places);
  }

  lemma PrintedCountScans(n: int)
    ensures ScanInt(FormatInt(n)) == Some(n)
  {
    hide ScanInt, FormatInt;
    IntRoundTrip(n, "");
    assert FormatInt(n) + "" == FormatInt(n);
  }

  /** Family, Instances, CoveredInstances, NormalizedUnits, RecommendedCount and the two coverages. */
  predicate TellsSizing(row: Record, rec: Rec, shortest: real -> string)
    requires |row| == |COLUMNS|
  {
    && (if rec.service == "rds" || rec.service == "relational-db" then row[3] == FamilyOf(rec.resourceType)
        else row[3] == "" && row[9] == "")
    && ShowsOrBlank(row[6], rec.averageInstances, 1)
    && (if rec.averageInstances > 0.0 && rec.existingCoverage > 0.0
        then Shows(row[7], rec.averageInstances * rec.existingCoverage / 100.0, 1) else row[7] == "")
    && (row[9] == "" || row[9] == shortest(rec.count as real * UnitsOfType(rec.resourceType)))
    && (if rec.recommendedCount == 0 then row[10] == "" else ScanInt(row[10]) == Some(rec.recommendedCount))
    && (if rec.existingCoverageKnown then Shows(row[22], rec.existingCoverage, 1) else row[22] == "n/a")
    && ShowsOrBlank(row[23], rec.projectedCoverage, 1)
  }

  /** UpfrontPayment and RecurringMonthlyCost. */
  predicate TellsMoney(row: Record, rec: Rec)
    requires |row| == |COLUMNS|
  {
    && ShowsOrBlank(row[15], rec.commitmentCost, 2)
    && (if rec.recurringMonthlyCost.Monthly? then Shows(row[16], rec.recurringMonthlyCost.amount, 2)
        else row[16] == "")
  }

  /** CommitmentID, Success, Error and Timestamp. */
  predicate TellsOutcome(row: Record, o: Outcome)
    requires |row| == |COLUMNS|
  {
    && row[18] == o.commitmentId && row[20] == o.error && row[21] == o.timestamp
    && (o.success ==> row[19] == "true") && (!o.success ==> row[19] == "false")
  }

  predicate Tells(row: Record, o: Outcome, shortest: real -> string)
    requires |row| == |COLUMNS|
  {
    TellsSizing(row, o.rec, shortest) && TellsMoney(row, o.rec) && TellsOutcome(row, o)
  }

  lemma AmountCellTells(x: real, places: nat)
    requires places > 0
    ensures ShowsOrBlank(FixedOrBlank(x, places), x, places)
  {
    hide Shows, FormatFixed;
    PrintedShows(x, places);
  }

  lemma RowTellsSizing(o: Outcome, shortest: real -> string)
    ensures TellsSizing(Row(o, shortest), o.rec, shortest)
  {
    var rec := o.rec;
    hide Shows, FormatFixed, FormatInt, ScanInt, ShowsOrBlank, FixedOrBlank, UnitsOfType, FamilyOf, FormatRecurring;
    hide EngineOf, DeploymentOf;
    AmountCellTells(rec.averageInstances, 1);
    AmountCellTells(rec.projectedCoverage, 1);
    PrintedShows(rec.averageInstances * rec.existingCoverage / 100.0, 1);
    PrintedShows(rec.existingCoverage, 1);
    PrintedCountScans(rec.recommendedCount);
  }

  lemma RowTellsMoney(o: Outcome, shortest: real -> string)
    ensures TellsMoney(Row(o, shortest), o.rec)
  {
    hide Shows, FormatFixed, FormatInt, ShowsOrBlank, FixedOrBlank, FormatNormalizedUnits, FormatCoveredInstances;
    hide EngineOf, DeploymentOf, FamilyOf, FormatIntOrBlank;
    AmountCellTells(o.rec.commitmentCost, 2);
    if o.rec.recurringMonthlyCost.Monthly? {
      PrintedShows(o.rec.recurringMonthlyCost.amount, 2);
    }
  }

  /** Every row tells what was bought and what came of it. */
  lemma RowTellsItsPurchase(o: Outcome, shortest: real -> string)
    ensures Tells(Row(o, shortest), o, shortest)
  {
    hide FormatFixed, FormatInt, FixedOrBlank, FormatNormalizedUnits, FormatCoveredInstances, FormatRecurring;
    hide EngineOf, DeploymentOf, FamilyOf, FormatIntOrBlank, TellsSizing, TellsMoney;
    RowTellsSizing(o, shortest);
    RowTellsMoney(o, shortest);
  }

  /** The units column is filled for database rows of a known size that buy something. */
  lemma UnitsColumn(o: Outcome, shortest: real -> string)
    requires forall x :: shortest(x) != ""
    ensures Row(o, shortest)[9] == "" <==>
              || (o.rec.service != "rds" && o.rec.service != "relational-db")
              || UnitsOfType(o.rec.resourceType) == 0.0 || o.rec.count == 0
  {
    hide FormatFixed, FormatInt, UnitsOfType, FamilyOf, EngineOf, DeploymentOf, FixedOrBlank;
  }

  /** The TOTAL row adds up counts, units, upfront and monthly payments and savings, and leaves the
      monthly cell blank only if no row knows its monthly payment. */
  lemma TotalTells(results: seq<Outcome>, shortest: real -> string)
    ensures var row := TotalRow(results, shortest);
            var units := SumReal((o: Outcome) => o.rec.count as real * UnitsOfType(o.rec.resourceType), results);
            && row[0] == "TOTAL"
            && ScanInt(row[8]) == Some(SumInt((o: Outcome) => o.rec.count, results))
            && (row[9] == if units > 0.0 then shortest(units) else "")
            && Shows(row[15], SumReal((o: Outcome) => o.rec.commitmentCost, results), 2)
            && Shows(row[17], SumReal((o: Outcome) => o.rec.estimatedSavings, results), 2)
            && (if exists o :: o in results && o.rec.recurringMonthlyCost.Monthly?
                then Shows(row[16], SumReal(RecurringIn, results), 2) else row[16] == "")
  {
    var units := SumReal((o: Outcome) => o.rec.count as real * UnitsOfType(o.rec.resourceType), results);
    TotalsAgree(results);
    BreakdownMeans(results);
    hide Shows, FormatFixed, FormatInt, ScanInt, UnitsOfType, HasBreakdown, SumInt, SumReal, Pow10;
    PrintedCountScans(SumInt(CountIn, results));
    PrintedShows(SumReal(UpfrontIn, results), 2);
    PrintedShows(SumReal(SavingsIn, results), 2);
    PrintedShows(SumReal(RecurringIn, results), 2);
  }

  lemma TotalsAgree(results: seq<Outcome>)
    ensures SumInt(CountIn, results) == SumInt((o: Outcome) => o.rec.count, results)
    ensures SumReal(UpfrontIn, results) == SumReal((o: Outcome) => o.rec.commitmentCost, results)
    ensures SumReal(SavingsIn, results) == SumReal((o: Outcome) => o.rec.estimatedSavings, results)
    ensures SumReal(UnitsIn, results)
         == SumReal((o: Outcome) => o.rec.count as real * UnitsOfType(o.rec.resourceType), results)
  {
    hide UnitsOfType;
    SumIntAgrees(CountIn, (o: Outcome) => o.rec.count, results);
    SumRealAgrees(UpfrontIn, (o: Outcome) => o.rec.commitmentCost, results);
    SumRealAgrees(SavingsIn, (o: Outcome) => o.rec.estimatedSavings, results);
    SumRealAgrees(UnitsIn, (o: Outcome) => o.rec.count as real * UnitsOfType(o.rec.resourceType), results);
  }

  lemma BreakdownMeans(results: seq<Outcome>)
    ensures HasBreakdown(results) <==> exists o :: o in results && o.rec.recurringMonthlyCost.Monthly?
  {
    if o :| o in results && o.rec.recurringMonthlyCost.Monthly? {
      var i :| 0 <= i < |results| && results[i] == o;
    }
    if HasBreakdown(results) {
      var i :| 0 <= i < |results| && results[i].rec.recurringMonthlyCost.Monthly?;
      assert results[i] in results;
    }
  }

  /** The file is the header, a row for each result in report order, and the totals. */
  lemma ReportTells(results: seq<Outcome>, shortest: real -> string)
    requires results != []
    ensures var sorted := ByUpfront(results);
            && Report(results, shortest).Some?
            && var file := Report(results, shortest).value;
               && |file| == |results| + 2 && file[0] == COLUMNS && file[|results| + 1] == TotalRow(sorted, shortest)
               && multiset(sorted) == multiset(results)
               && forall i :: 0 <= i < |results| ==>
                    |file[i + 1]| == |COLUMNS| && |sorted| > i && Tells(file[i + 1], sorted[i], shortest)
  {
    hide Row, TotalRow, ByUpfront, Tells;
    var sorted := ByUpfront(results);
    assert |sorted| == |multiset(sorted)| == |multiset(results)| == |results|;
    var file := Report(results, shortest).value;
    forall i | 0 <= i < |results|
      ensures |file[i + 1]| == |COLUMNS| && Tells(file[i + 1], sorted[i], shortest)
    {
      RowTellsItsPurchase(sorted[i], shortest);
      assert file[i + 1] == Row(sorted[i], shortest);
    }
  }
}
