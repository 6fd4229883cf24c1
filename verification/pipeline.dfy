/** The two entry paths end to end, and the spend guards that have to survive every stage
    between the cap and the purchase. */
module Pipeline {
  import opened Types
  import opened Sums
  import opened Drops
  import opened Scoring
  import opened InstanceLimit
  import opened CsvRanking
  import opened Sizing
  import opened Dedup
  import opened Filters
  import opened Purchase

  datatype RunConfig = RunConfig(
    maxInstances: int,
    minCount: int,
    minSavingsPct: real,
    maxBreakEvenMonths: int,
    coverage: real,
    targetCoverage: real,
    overrideCount: int,
    isDryRun: bool
  )

  // ---- Sizing, by whichever rule is asked for ---------------------------------------------

  function SizedBy(recs: seq<Rec>, cfg: RunConfig, coverage: real): seq<Rec>
  {
    if cfg.targetCoverage > 0.0 then Targeted(recs, cfg.targetCoverage) else Covered(recs, coverage)
  }

  function SizedAndOverridden(recs: seq<Rec>, cfg: RunConfig, coverage: real): seq<Rec>
  {
    Overridden(SizedBy(recs, cfg, coverage), cfg.overrideCount)
  }

  /** How many rows sizing records as dropped for `reason`. */
  function SizingDrops(recs: seq<Rec>, cfg: RunConfig, coverage: real, reason: string): nat
  {
    if cfg.targetCoverage > 0.0 then
      if cfg.targetCoverage <= 100.0 then DropsFor(TargetOne(cfg.targetCoverage), reason, recs) else 0
    else if 0.0 < coverage < 100.0 then DropsFor(CoverOne(coverage / 100.0), reason, recs)
    else 0
  }

  method ApplySizing(recs: seq<Rec>, cfg: RunConfig, coverage: real, drops: DropSummary?) returns (sized: seq<Rec>)
    modifies drops
    ensures sized == SizedBy(recs, cfg, coverage)
    ensures sized == if cfg.targetCoverage > 0.0 then Targeted(recs, cfg.targetCoverage) else Covered(recs, coverage)
    ensures drops != null ==> forall reason ::
              Tally(drops.counts, reason) == Tally(old(drops.counts), reason) + SizingDrops(recs, cfg, coverage, reason)
  {
    if cfg.targetCoverage > 0.0 {
      sized := ApplyTargetCoverage(recs, cfg.targetCoverage, drops);
    } else {
      sized := ApplyCoverage(recs, coverage, drops);
    }
  }

  // ---- The recommendation-driven path -----------------------------------------------------

  function RunScorer(cfg: RunConfig): ScorerConfig
  {
    ScorerConfig(cfg.minSavingsPct, cfg.maxBreakEvenMonths, cfg.minCount, [])
  }

  method ScoreAndLimit(recs: seq<Rec>, cfg: RunConfig, drops: DropSummary?)
    returns (passed: seq<Rec>, ghost scored: seq<Rec>)
    modifies drops
    ensures IsScored(recs, RunScorer(cfg), scored)
    ensures passed == Cap(scored, cfg.maxInstances, cfg.minCount)
    ensures drops != null ==> drops.counts == CapDrops(old(drops.counts), scored, cfg.maxInstances, cfg.minCount)
  {
    var ranked, filtered := Score(recs, RunScorer(cfg));
    scored := ranked;
    passed := ApplyGlobalInstanceLimit(ranked, cfg.maxInstances, cfg.minCount, drops);
  }

  lemma ScoredIsFloored(recs: seq<Rec>, cfg: ScorerConfig, scored: seq<Rec>)
    requires IsScored(recs, cfg, scored)
    ensures Floored(scored, cfg.minCount)
    ensures (forall r :: r in recs ==> r.count >= 0) ==> forall r :: r in scored ==> r.count >= 0
  {
    forall r | r in scored ensures r in recs && PassesThresholds(r, cfg) {
      ScoredRow(recs, cfg, scored, r);
    }
  }

  lemma PrefixTotal(recs: seq<Rec>, n: nat)
    requires n <= |recs|
    ensures SumInt(PositiveCount, recs[..n]) <= SumInt(PositiveCount, recs)
  {
    assert recs == recs[..n] + recs[n..];
    SumIntAppend(PositiveCount, recs[..n], recs[n..]);
    SumIntNonNegative(PositiveCount, recs[n..]);
  }

  /** A recommendation-driven run, from the rows every region handed over to the purchases
      attempted: those of the scored and capped rows, in order, that come before a shutdown, or
      none if the operator declines. Whatever the scorer's ties and whenever a shutdown comes,
      they fit the cap and clear the floor. */
  method RunMain(recs: seq<Rec>, cfg: RunConfig, confirmed: bool, requested: nat -> bool, attempt: nat -> Attempt,
                 drops: DropSummary?)
    returns (bought: seq<Rec>, results: seq<PurchaseResult>, ghost scored: seq<Rec>)
    modifies drops
    ensures IsScored(recs, RunScorer(cfg), scored)
    ensures bought <= Cap(scored, cfg.maxInstances, cfg.minCount)
    ensures drops != null ==> drops.counts == CapDrops(old(drops.counts), scored, cfg.maxInstances, cfg.minCount)
    ensures !cfg.isDryRun && !confirmed ==> bought == []
    ensures |bought| < |Cap(scored, cfg.maxInstances, cfg.minCount)| ==>
              (!cfg.isDryRun && !confirmed) || requested(|bought|)
    ensures |results| == |bought|
    ensures forall i :: 0 <= i < |results| ==> results[i] == ResultOf(attempt(i), cfg.isDryRun)
    ensures cfg.maxInstances > 0 && (cfg.minCount > 0 || forall r :: r in recs ==> r.count >= 0) ==>
              SumInt(PositiveCount, bought) <= cfg.maxInstances
    ensures Floored(bought, cfg.minCount)
    // What is put up for purchase was handed over and clears every threshold that is on.
    ensures forall r :: r in scored <==>
              && r in recs
              && (cfg.minSavingsPct <= 0.0 || r.savingsPercentage >= cfg.minSavingsPct)
              && (cfg.maxBreakEvenMonths <= 0 || r.breakEvenMonths <= cfg.maxBreakEvenMonths as real)
              && (cfg.minCount <= 0 || r.count >= cfg.minCount)
    ensures forall i :: 0 <= i < |results| ==>
              (results[i].success <==> cfg.isDryRun || attempt(i) == Answered(true, false))
  {
    hide Cap, IsScored, CapDrops;
    var passed;
    passed, scored := ScoreAndLimit(recs, cfg, drops);
    ScoredRows(recs, cfg, scored);
    if passed == [] || (!cfg.isDryRun && !confirmed) {
      SumOfNothing();
      return [], [], scored;
    }
    ScoredIsFloored(recs, RunScorer(cfg), scored);
    if cfg.minCount > 0 || forall r :: r in recs ==> r.count >= 0 {
      CapGuardsSpend(scored, cfg.maxInstances, cfg.minCount);
    }
    CapKeepsFloor(scored, cfg.maxInstances, cfg.minCount);
    var audit;
    results, audit := ExecutePurchasePipeline(passed, cfg.isDryRun, requested, attempt);
    bought := passed[..|results|];
    PrefixTotal(passed, |results|);
  }

  lemma ScoredRows(recs: seq<Rec>, cfg: RunConfig, scored: seq<Rec>)
    requires IsScored(recs, RunScorer(cfg), scored)
    ensures forall r :: r in scored <==>
              && r in recs
              && (cfg.minSavingsPct <= 0.0 || r.savingsPercentage >= cfg.minSavingsPct)
              && (cfg.maxBreakEvenMonths <= 0 || r.breakEvenMonths <= cfg.maxBreakEvenMonths as real)
              && (cfg.minCount <= 0 || r.count >= cfg.minCount)
  {
    hide IsScored, PassesThresholds;
    forall r
      ensures r in scored <==>
              && r in recs
              && (cfg.minSavingsPct <= 0.0 || r.savingsPercentage >= cfg.minSavingsPct)
              && (cfg.maxBreakEvenMonths <= 0 || r.breakEvenMonths <= cfg.maxBreakEvenMonths as real)
              && (cfg.minCount <= 0 || r.count >= cfg.minCount)
    {
      ScoredRow(recs, RunScorer(cfg), scored, r);
    }
  }

  lemma SumOfNothing()
    ensures SumInt(PositiveCount, []) == 0
  {
  }

  lemma CapKeepsFloor(recs: seq<Rec>, maxInstances: int, minCount: int)
    requires Floored(recs, minCount)
    ensures Floored(Cap(recs, maxInstances, minCount), minCount)
  {
    TailDropTakesAtMostOne(recs, maxInstances, minCount);
  }

  // ---- The CSV path: up to the cap --------------------------------------------------------

  /** A CSV carries final counts, so the default coverage percentage means all of them. */
  function CsvCoverage(coverage: real): real { if coverage == 80.0 then 100.0 else coverage }

  function Prepared(recs: seq<Rec>, filters: FilterConfig, data: EngineData, cfg: RunConfig): seq<Rec>
  {
    SizedAndOverridden(SizedRows(FilterOne(filters, data, ""), recs), cfg, CsvCoverage(cfg.coverage))
  }

  method FilterAndAdjust(recs: seq<Rec>, filters: FilterConfig, data: EngineData, cfg: RunConfig)
    returns (kept: Option<seq<Rec>>, ghost passed: seq<Rec>)
    ensures IsFloorOutput(Prepared(recs, filters, data, cfg), cfg.minCount, passed)
    ensures kept == if HasRankingSignal(passed, cfg.maxInstances)
                    then Some(Cap(Ranked(passed), cfg.maxInstances, cfg.minCount)) else None
    ensures kept.None? <==> Refused(passed, cfg.maxInstances)
    ensures NoCapNeeded(passed, cfg.maxInstances) ==> kept.Some? && multiset(kept.value) == multiset(passed)
    ensures kept.Some? ==> Floored(kept.value, cfg.minCount)
    ensures kept.Some? && cfg.maxInstances > 0 && CountsAreSafe(recs, filters, cfg) ==>
              SumInt(PositiveCount, kept.value) <= cfg.maxInstances
  {
    var rows := ApplyFilters(recs, filters, data, "", null);
    var coverage := CsvCoverage(cfg.coverage);
    if cfg.targetCoverage > 0.0 || coverage < 100.0 {
      rows := ApplySizing(rows, cfg, coverage, null);
    }
    if cfg.overrideCount > 0 {
      var skippedSP, skippedNonPositive, extrapolated;
      rows, skippedSP, skippedNonPositive, extrapolated := ApplyCountOverride(rows, cfg.overrideCount);
    }
    var slice := new Rec[|rows|](i requires 0 <= i < |rows| => rows[i]);
    assert slice[..] == rows;
    kept, passed := ScoreAndLimitCsvRecs(slice, cfg.maxInstances, cfg.minCount);
    CsvCapGuards(recs, filters, data, cfg, passed);
  }

  /** Before the cap, without an override, a CSV run hands on the filtered rows as they are at the default
      coverage of 80, at the asked-for share at any other, and sized to the target if there is one. */
  lemma PreparedAsPromised(recs: seq<Rec>, filters: FilterConfig, data: EngineData, cfg: RunConfig)
    requires cfg.overrideCount <= 0
    ensures var filtered := SizedRows(FilterOne(filters, data, ""), recs);
            var prepared := Prepared(recs, filters, data, cfg);
            && RowByRow(FilterPromise(filters, data), Filter(Survivors(filters, data, ""), recs), filtered)
            && (cfg.targetCoverage <= 0.0 && (cfg.coverage == 80.0 || cfg.coverage >= 100.0) ==> prepared == filtered)
            && (cfg.targetCoverage <= 0.0 && cfg.coverage <= 0.0 ==> prepared == [])
            && (cfg.targetCoverage <= 0.0 && 0.0 < cfg.coverage < 100.0 && cfg.coverage != 80.0 ==>
                  RowByRow(SharePromise(cfg.coverage), Filter(WithShare(cfg.coverage), filtered), prepared))
            && (0.0 < cfg.targetCoverage <= 100.0 ==>
                  RowByRow(TargetPromise(cfg.targetCoverage), Filter(WithRoom(cfg.targetCoverage), filtered), prepared))
            && (cfg.targetCoverage > 100.0 ==> prepared == filtered)
  {
    hide FilterOne, CoverOne, TargetOne, SizedRows, RowByRow, Filter;
    var filtered := SizedRows(FilterOne(filters, data, ""), recs);
    FilteredAsPromised(recs, filters, data, "");
    if 0.0 < cfg.targetCoverage <= 100.0 {
      TargetedAsPromised(filtered, cfg.targetCoverage);
    } else if cfg.targetCoverage <= 0.0 && 0.0 < cfg.coverage < 100.0 && cfg.coverage != 80.0 {
      CoveredAsPromised(filtered, cfg.coverage);
    }
  }

  lemma {:induction false} SizedStayNonNegative(size: Rec -> Sized, recs: seq<Rec>)
    requires forall r :: r in recs && size(r).Kept? ==> size(r).row.count >= 0
    ensures forall r :: r in SizedRows(size, recs) ==> r.count >= 0
  {
    if recs != [] {
      SizedStayNonNegative(size, recs[1..]);
      assert recs[0] in recs;
    }
  }

  lemma TargetNonNegative(rec: Rec, target: real)
    requires target > 0.0 && rec.count >= 0 && TargetOne(target)(rec).Kept?
    ensures TargetOne(target)(rec).row.count >= 0
  {
    hide ScaleCosts;
    ScaledCount(rec, target / 100.0);
    if rec.averageInstances > 0.0 && target - rec.existingCoverage > 0.0 {
      NonNegativeProduct(rec.averageInstances, target - rec.existingCoverage);
    }
  }

  lemma ScaledCount(rec: Rec, ratio: real)
    ensures ScaleCosts(rec, ratio).count == rec.count
  {
  }

  lemma CoverNonNegative(rec: Rec, ratio: real)
    requires rec.count >= 0
    ensures CoverOne(ratio)(rec).Kept? ==> CoverOne(ratio)(rec).row.count >= 0
  {
  }

  /** Sizing keeps counts non-negative. */
  lemma SizingStaysNonNegative(recs: seq<Rec>, cfg: RunConfig, coverage: real)
    requires forall r :: r in recs ==> r.count >= 0
    ensures forall r :: r in SizedBy(recs, cfg, coverage) ==> r.count >= 0
  {
    if cfg.targetCoverage > 0.0 {
      if cfg.targetCoverage <= 100.0 {
        forall r | r in recs && TargetOne(cfg.targetCoverage)(r).Kept?
          ensures TargetOne(cfg.targetCoverage)(r).row.count >= 0
        {
          TargetNonNegative(r, cfg.targetCoverage);
        }
        SizedStayNonNegative(TargetOne(cfg.targetCoverage), recs);
      }
    } else if 0.0 < coverage < 100.0 {
      var ratio := coverage / 100.0;
      forall r | r in recs && CoverOne(ratio)(r).Kept? ensures CoverOne(ratio)(r).row.count >= 0 {
        CoverNonNegative(r, ratio);
      }
      SizedStayNonNegative(CoverOne(ratio), recs);
    }
  }

  lemma OverrideStaysNonNegative(recs: seq<Rec>, overrideCount: int)
    requires forall r :: r in recs ==> r.count >= 0
    ensures forall r :: r in Overridden(recs, overrideCount) ==> r.count >= 0
  {
    if overrideCount > 0 {
      SizedStayNonNegative(OverrideOne(overrideCount), recs);
    }
  }

  /** A pass that excludes extended support drops every row without a positive count. */
  lemma FilterNonNegative(recs: seq<Rec>, filters: FilterConfig, data: EngineData, region: string)
    requires !filters.includeExtendedSupport || forall r :: r in recs ==> r.count >= 0
    ensures forall r :: r in SizedRows(FilterOne(filters, data, region), recs) ==> r.count >= 0
  {
    SizedStayNonNegative(FilterOne(filters, data, region), recs);
  }

  /** Counts that come out of the filter non-negative stay so up to the cap. With extended
      support excluded, the filter itself drops every row without a positive count. */
  lemma PreparedNonNegative(recs: seq<Rec>, filters: FilterConfig, data: EngineData, cfg: RunConfig)
    requires !filters.includeExtendedSupport || forall r :: r in recs ==> r.count >= 0
    ensures forall r :: r in Prepared(recs, filters, data, cfg) ==> r.count >= 0
  {
    var filtered := SizedRows(FilterOne(filters, data, ""), recs);
    FilterNonNegative(recs, filters, data, "");
    SizingStaysNonNegative(filtered, cfg, CsvCoverage(cfg.coverage));
    OverrideStaysNonNegative(SizedBy(filtered, cfg, CsvCoverage(cfg.coverage)), cfg.overrideCount);
  }

  /** When the counts the CSV path hands to the cap cannot be negative. */
  ghost predicate CountsAreSafe(recs: seq<Rec>, filters: FilterConfig, cfg: RunConfig)
  {
    cfg.minCount > 0 || !filters.includeExtendedSupport || forall r :: r in recs ==> r.count >= 0
  }

  /** The capped CSV rows fit the cap and clear the floor. */
  lemma CsvCapGuards(recs: seq<Rec>, filters: FilterConfig, data: EngineData, cfg: RunConfig, passed: seq<Rec>)
    requires IsFloorOutput(Prepared(recs, filters, data, cfg), cfg.minCount, passed)
    ensures var kept := Cap(Ranked(passed), cfg.maxInstances, cfg.minCount);
            && Floored(kept, cfg.minCount)
            && (cfg.maxInstances > 0 && CountsAreSafe(recs, filters, cfg) ==>
                  SumInt(PositiveCount, kept) <= cfg.maxInstances)
  {
    var prepared, ranked := Prepared(recs, filters, data, cfg), Ranked(passed);
    hide Prepared, Cap;
    assert forall r :: r in ranked <==> r in multiset(ranked);
    assert forall r :: r in passed <==> r in multiset(passed);
    if cfg.minCount > 0 {
      ScoredIsFloored(prepared, FloorConfig(cfg.minCount), passed);
    } else if CountsAreSafe(recs, filters, cfg) {
      PreparedNonNegative(recs, filters, data, cfg);
    }
    CapKeepsFloor(ranked, cfg.maxInstances, cfg.minCount);
    if cfg.maxInstances > 0 && CountsAreSafe(recs, filters, cfg) {
      CapGuardsSpend(ranked, cfg.maxInstances, cfg.minCount);
    }
  }
}
