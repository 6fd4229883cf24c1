/** The scorer: drops rows below the configured thresholds and ranks the rest by savings
    percentage. Its sort is not a stable one, so `IsScored` fixes only what every run
    agrees on. */
module Scoring {
  import opened Types
  import opened Sums
  import opened StableSorting

  /** Zero switches a threshold off, and no enabled services means all of them. */
  datatype ScorerConfig = ScorerConfig(
    minSavingsPct: real,
    maxBreakEvenMonths: int,
    minCount: int,
    enabledServices: seq<string>
  )

  datatype FilterReason = ServiceNotEnabled | SavingsTooLow | BreakEvenTooLate | CountTooLow

  datatype Filtered = Filtered(row: Rec, reason: FilterReason)

  function LowerChar(c: char): char
  {
    if 'A' <= c <= 'Z' then c - 'A' + 'a' else c
  }

  function Lower(s: string): string
  {
    seq(|s|, i requires 0 <= i < |s| => LowerChar(s[i]))
  }

  predicate IsEnabled(service: string, enabled: seq<string>)
  {
    enabled == [] || exists i :: 0 <= i < |enabled| && Lower(enabled[i]) == Lower(service)
  }

  predicate PassesThresholds(rec: Rec, cfg: ScorerConfig)
  {
    && IsEnabled(rec.service, cfg.enabledServices)
    && !(cfg.minSavingsPct > 0.0 && rec.savingsPercentage < cfg.minSavingsPct)
    && !(cfg.maxBreakEvenMonths > 0 && rec.breakEvenMonths > cfg.maxBreakEvenMonths as real)
    && !(cfg.minCount > 0 && rec.count < cfg.minCount)
  }

  /** The first threshold a row misses. */
  function ReasonFor(rec: Rec, cfg: ScorerConfig): (reason: Option<FilterReason>)
    ensures reason.None? <==> PassesThresholds(rec, cfg)
  {
    if !IsEnabled(rec.service, cfg.enabledServices) then Some(ServiceNotEnabled)
    else if cfg.minSavingsPct > 0.0 && rec.savingsPercentage < cfg.minSavingsPct then Some(SavingsTooLow)
    else if cfg.maxBreakEvenMonths > 0 && rec.breakEvenMonths > cfg.maxBreakEvenMonths as real
    then Some(BreakEvenTooLate)
    else if cfg.minCount > 0 && rec.count < cfg.minCount then Some(CountTooLow)
    else None
  }

  function Passes(cfg: ScorerConfig): Rec -> bool
  {
    (rec: Rec) => PassesThresholds(rec, cfg)
  }

  /** Savings percentage first, then whole-row savings, both descending, then the key. */
  predicate ScoresBefore(a: Rec, b: Rec)
  {
    if a.savingsPercentage != b.savingsPercentage then a.savingsPercentage > b.savingsPercentage
    else if a.estimatedSavings != b.estimatedSavings then a.estimatedSavings > b.estimatedSavings
    else LexLess(OfferKey(a), OfferKey(b))
  }

  lemma ScoresBeforeIsStrictWeakOrder()
    ensures StrictWeakOrder(ScoresBefore)
  {
    forall x: Rec ensures !ScoresBefore(x, x) {
      LexLessIsTotal(OfferKey(x), OfferKey(x));
    }
    forall x, y, z | ScoresBefore(x, y) && ScoresBefore(y, z) ensures ScoresBefore(x, z) {
      KeyOrderFacts(OfferKey(x), OfferKey(y), OfferKey(z));
    }
    forall x, y, z | !ScoresBefore(x, y) && !ScoresBefore(y, z) ensures !ScoresBefore(x, z) {
      KeyOrderFacts(OfferKey(x), OfferKey(y), OfferKey(z));
    }
  }

  lemma KeyOrderFacts(a: string, b: string, c: string)
    ensures LexLess(a, b) && LexLess(b, c) ==> LexLess(a, c)
    ensures !LexLess(a, b) && !LexLess(b, c) ==> !LexLess(a, c)
  {
    LexLessIsTotal(a, b);
    LexLessIsTotal(b, c);
    LexLessIsTotal(a, c);
    if LexLess(a, b) && LexLess(b, c) {
      LexLessIsTransitive(a, b, c);
    }
    if !LexLess(a, b) && !LexLess(b, c) && a != b && b != c {
      LexLessIsTransitive(c, b, a);
    }
  }

  /** What every run of the scorer returns as passed: the rows that clear the thresholds,
      ranked, with ties in any order. */
  ghost predicate IsScored(recs: seq<Rec>, cfg: ScorerConfig, passed: seq<Rec>)
  {
    multiset(passed) == multiset(Filter(Passes(cfg), recs)) && Sorted(ScoresBefore, passed)
  }

  /** The rows that miss a threshold, in input order, each with the first it misses. */
  function FilteredOut(recs: seq<Rec>, cfg: ScorerConfig): seq<Filtered>
  {
    if recs == [] then []
    else
      var last := |recs| - 1;
      var reason := ReasonFor(recs[last], cfg);
      FilteredOut(recs[..last], cfg) + if reason.Some? then [Filtered(recs[last], reason.value)] else []
  }

  /** More savings in percent, or as much and more in all, or as much of both and no later key. */
  predicate ScoresNoLess(a: Rec, b: Rec)
  {
    || a.savingsPercentage > b.savingsPercentage
    || (a.savingsPercentage == b.savingsPercentage && a.estimatedSavings > b.estimatedSavings)
    || (a.savingsPercentage == b.savingsPercentage && a.estimatedSavings == b.estimatedSavings
        && !LexLess(OfferKey(b), OfferKey(a)))
  }

  lemma ScoredIsRanked(passed: seq<Rec>)
    requires Sorted(ScoresBefore, passed)
    ensures forall i, j :: 0 <= i < j < |passed| ==> ScoresNoLess(passed[i], passed[j])
  {
    hide LexLess, OfferKey;
    forall i, j | 0 <= i < j < |passed| ensures ScoresNoLess(passed[i], passed[j]) {
      assert !ScoresBefore(passed[j], passed[i]);
    }
  }

  method Score(recs: seq<Rec>, cfg: ScorerConfig) returns (passed: seq<Rec>, filtered: seq<Filtered>)
    ensures IsScored(recs, cfg, passed)
    ensures filtered == FilteredOut(recs, cfg)
    ensures forall i, j :: 0 <= i < j < |passed| ==> ScoresNoLess(passed[i], passed[j])
  {
    hide ReasonFor, PassesThresholds, IsEnabled;
    passed, filtered := [], [];
    for i := 0 to |recs|
      invariant passed == Filter(Passes(cfg), recs[..i])
      invariant filtered == FilteredOut(recs[..i], cfg)
    {
      var rec := recs[i];
      assert recs[..i + 1] == recs[..i] + [rec];
      assert recs[..i + 1][..i] == recs[..i];
      FilterStep(Passes(cfg), recs[..i], rec);
      var reason := ReasonFor(rec, cfg);
      if reason.Some? {
        filtered := filtered + [Filtered(rec, reason.value)];
      } else {
        passed := passed + [rec];
      }
    }
    assert recs[..|recs|] == recs;
    ScoresBeforeIsStrictWeakOrder();
    SortIsSorted(ScoresBefore, passed);
    passed := Sort(ScoresBefore, passed);
    ScoredIsRanked(passed);
  }

  /** No row is lost: what is not passed is filtered, and every filtered row misses the threshold
      it is filtered for. */
  lemma {:induction false} FilteredIsTheRest(recs: seq<Rec>, cfg: ScorerConfig, passed: seq<Rec>)
    requires IsScored(recs, cfg, passed)
    ensures |passed| + |FilteredOut(recs, cfg)| == |recs|
    ensures forall f :: f in FilteredOut(recs, cfg) ==>
              && f.row in recs && ReasonFor(f.row, cfg) == Some(f.reason)
              && match f.reason
                 case ServiceNotEnabled =>
                   forall s :: s in cfg.enabledServices ==> Lower(s) != Lower(f.row.service)
                 case SavingsTooLow => f.row.savingsPercentage < cfg.minSavingsPct
                 case BreakEvenTooLate => f.row.breakEvenMonths > cfg.maxBreakEvenMonths as real
                 case CountTooLow => f.row.count < cfg.minCount
  {
    assert |passed| == |multiset(passed)| == |Filter(Passes(cfg), recs)|;
    FilteredCount(recs, cfg);
  }

  lemma {:induction false} FilteredCount(recs: seq<Rec>, cfg: ScorerConfig)
    ensures |Filter(Passes(cfg), recs)| + |FilteredOut(recs, cfg)| == |recs|
    ensures forall f :: f in FilteredOut(recs, cfg) ==> f.row in recs && ReasonFor(f.row, cfg) == Some(f.reason)
  {
    if recs != [] {
      hide ReasonFor, PassesThresholds;
      var last := |recs| - 1;
      FilteredCount(recs[..last], cfg);
      assert recs == recs[..last] + [recs[last]];
      FilterStep(Passes(cfg), recs[..last], recs[last]);
    }
  }

  lemma ScoredRow(recs: seq<Rec>, cfg: ScorerConfig, passed: seq<Rec>, r: Rec)
    requires IsScored(recs, cfg, passed)
    ensures r in passed <==> r in recs && PassesThresholds(r, cfg)
    ensures r in passed <==>
              && r in recs
              && (cfg.enabledServices == [] || exists s :: s in cfg.enabledServices && Lower(s) == Lower(r.service))
              && (cfg.minSavingsPct <= 0.0 || r.savingsPercentage >= cfg.minSavingsPct)
              && (cfg.maxBreakEvenMonths <= 0 || r.breakEvenMonths <= cfg.maxBreakEvenMonths as real)
              && (cfg.minCount <= 0 || r.count >= cfg.minCount)
  {
    assert IsEnabled(r.service, cfg.enabledServices) <==>
             cfg.enabledServices == [] || exists s :: s in cfg.enabledServices && Lower(s) == Lower(r.service) by {
      if s :| s in cfg.enabledServices && Lower(s) == Lower(r.service) {
        var i :| 0 <= i < |cfg.enabledServices| && cfg.enabledServices[i] == s;
      }
    }
    var kept := Filter(Passes(cfg), recs);
    assert r in multiset(passed) <==> r in multiset(kept);
    assert Passes(cfg)(r) == PassesThresholds(r, cfg);
  }
}
