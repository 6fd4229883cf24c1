/** The purchase loop, which a shutdown request may cut short, and the statistics of a run. */
module Purchase {
  import opened Types
  import opened Sums

  datatype PurchaseResult = PurchaseResult(success: bool, dryRun: bool)

  datatype AuditStatus = Skipped | Succeeded | Errored

  /** What the provider answers to one purchase: there is no client for the service, or the
      call returns a result and possibly an error, which overrides the result's success. */
  datatype Attempt = NoClient | Answered(success: bool, failed: bool)

  function ResultOf(attempt: Attempt, isDryRun: bool): PurchaseResult
  {
    if isDryRun then PurchaseResult(true, true)
    else match attempt
         case NoClient => PurchaseResult(false, false)
         case Answered(success, failed) => PurchaseResult(success && !failed, false)
  }

  function StatusOf(attempt: Attempt, isDryRun: bool): AuditStatus
  {
    if isDryRun then Skipped else if ResultOf(attempt, isDryRun).success then Succeeded else Errored
  }

  /** One audit record: which recommendation, and what became of it. */
  datatype AuditRecord = AuditRecord(row: Rec, result: PurchaseResult, status: AuditStatus)

  /** Buys in order until done or until a shutdown is found requested. `requested(i)` is what
      the flag reads before row `i`, `attempt(i)` what the provider would answer for it. */
  method ExecutePurchasePipeline(recs: seq<Rec>, isDryRun: bool, requested: nat -> bool, attempt: nat -> Attempt)
    returns (results: seq<PurchaseResult>, audit: seq<AuditRecord>)
    ensures |results| == |audit| <= |recs|
    ensures forall i :: 0 <= i < |results| ==>
              && !requested(i)
              && results[i] == ResultOf(attempt(i), isDryRun)
              && audit[i] == AuditRecord(recs[i], results[i], StatusOf(attempt(i), isDryRun))
    ensures |results| < |recs| ==> requested(|results|)
    // A purchase succeeds if it is a dry run, or the provider says so and reports no error.
    ensures forall i :: 0 <= i < |results| ==>
              && (results[i].success <==> isDryRun || attempt(i) == Answered(true, false))
              && results[i].dryRun == isDryRun
              && audit[i].row == recs[i] && audit[i].result == results[i]
              && audit[i].status
                   == if isDryRun then Skipped else if attempt(i) == Answered(true, false) then Succeeded else Errored
  {
    results, audit := [], [];
    for i := 0 to |recs|
      invariant |results| == |audit| == i
      invariant forall k :: 0 <= k < i ==>
        && !requested(k)
        && results[k] == ResultOf(attempt(k), isDryRun)
        && audit[k] == AuditRecord(recs[k], results[k], StatusOf(attempt(k), isDryRun))
    {
      if requested(i) {
        break;
      }
      var result := ResultOf(attempt(i), isDryRun);
      results := results + [result];
      audit := audit + [AuditRecord(recs[i], result, StatusOf(attempt(i), isDryRun))];
    }
  }

  /** The per-region loop of a CSV run. The operator is asked once, before the first real
      purchase; a refusal cancels every row. */
  method ProcessPurchaseLoop(recs: seq<Rec>, isDryRun: bool, confirmed: bool, attempt: nat -> Attempt)
    returns (results: seq<PurchaseResult>)
    ensures |results| == |recs|
    ensures forall i :: 0 <= i < |recs| ==>
              results[i]
                == if isDryRun || confirmed then ResultOf(attempt(i), isDryRun) else PurchaseResult(false, false)
    ensures forall i :: 0 <= i < |recs| ==>
              && (results[i].success <==> isDryRun || (confirmed && attempt(i) == Answered(true, false)))
              && results[i].dryRun == isDryRun
  {
    results := [];
    for j := 0 to |recs|
      invariant |results| == j
      invariant forall i :: 0 <= i < j ==> results[i] == ResultOf(attempt(i), isDryRun)
      invariant j > 0 ==> isDryRun || confirmed
    {
      if !isDryRun && j == 0 && !confirmed {
        return seq(|recs|, _ => PurchaseResult(false, false));
      }
      results := results + [ResultOf(attempt(j), isDryRun)];
    }
  }

  // ---- Statistics -----------------------------------------------------------------------

  datatype ServiceStats = ServiceStats(
    regions: int, found: int, selected: int, instances: int, succeeded: int, failed: int, savings: real)

  function Success(r: PurchaseResult): int { if r.success then 1 else 0 }

  function Failure(r: PurchaseResult): int { if r.success then 0 else 1 }

  function RegionsOf(recs: seq<Rec>): set<string>
  {
    set i | 0 <= i < |recs| :: recs[i].region
  }

  function StatsOf(recs: seq<Rec>, results: seq<PurchaseResult>): ServiceStats
  {
    ServiceStats(|RegionsOf(recs)|, |recs|, |recs|, SumInt(CountOf, recs),
                 SumInt(Success, results), SumInt(Failure, results), SumReal(SavingsOf, recs))
  }

  lemma StatsMean(recs: seq<Rec>, results: seq<PurchaseResult>)
    ensures RegionsOf(recs) == set r | r in recs :: r.region
    ensures SumInt(CountOf, recs) == SumInt((r: Rec) => r.count, recs)
    ensures SumReal(SavingsOf, recs) == SumReal((r: Rec) => r.estimatedSavings, recs)
    ensures SumInt(Success, results) == |Filter((r: PurchaseResult) => r.success, results)|
    ensures SumInt(Failure, results) == |Filter((r: PurchaseResult) => !r.success, results)|
  {
    SumIntAgrees(CountOf, (r: Rec) => r.count, recs);
    SumRealAgrees(SavingsOf, (r: Rec) => r.estimatedSavings, recs);
    SumOfOnes(Success, (r: PurchaseResult) => r.success, results);
    SumOfOnes(Failure, (r: PurchaseResult) => !r.success, results);
    forall region ensures region in RegionsOf(recs) <==> region in set r | r in recs :: r.region {
      if r :| r in recs && r.region == region {
        var i :| 0 <= i < |recs| && recs[i] == r;
      }
    }
  }

  method CalculateServiceStats(recs: seq<Rec>, results: seq<PurchaseResult>) returns (stats: ServiceStats)
    ensures stats == StatsOf(recs, results)
    ensures stats.regions == |set r | r in recs :: r.region|
    ensures stats.found == stats.selected == |recs| && stats.instances == SumInt((r: Rec) => r.count, recs)
    ensures stats.savings == SumReal((r: Rec) => r.estimatedSavings, recs)
    ensures stats.succeeded == |Filter((r: PurchaseResult) => r.success, results)|
    ensures stats.failed == |Filter((r: PurchaseResult) => !r.success, results)|
  {
    var regions: set<string>, instances, savings := {}, 0, 0.0;
    for i := 0 to |recs|
      invariant regions == RegionsOf(recs[..i])
      invariant instances == SumInt(CountOf, recs[..i]) && savings == SumReal(SavingsOf, recs[..i])
    {
      assert recs[..i + 1] == recs[..i] + [recs[i]];
      SumIntStep(CountOf, recs[..i], recs[i]);
      SumRealAppend(SavingsOf, recs[..i], [recs[i]]);
      assert [recs[i]][1..] == [];
      RegionsStep(recs, i);
      regions := regions + {recs[i].region};
      instances := instances + recs[i].count;
      savings := savings + recs[i].estimatedSavings;
    }
    assert recs[..|recs|] == recs;
    var succeeded, failed := 0, 0;
    for i := 0 to |results|
      invariant succeeded == SumInt(Success, results[..i]) && failed == SumInt(Failure, results[..i])
    {
      assert results[..i + 1] == results[..i] + [results[i]];
      SumIntStep(Success, results[..i], results[i]);
      SumIntStep(Failure, results[..i], results[i]);
      if results[i].success {
        succeeded := succeeded + 1;
      } else {
        failed := failed + 1;
      }
    }
    assert results[..|results|] == results;
    stats := ServiceStats(|regions|, |recs|, |recs|, instances, succeeded, failed, savings);
    StatsMean(recs, results);
  }

  lemma RegionsStep(recs: seq<Rec>, i: nat)
    requires i < |recs|
    ensures RegionsOf(recs[..i + 1]) == RegionsOf(recs[..i]) + {recs[i].region}
  {
    var a, b := RegionsOf(recs[..i + 1]), RegionsOf(recs[..i]) + {recs[i].region};
    forall r ensures r in a <==> r in b {
      if r in b {
        if r == recs[i].region {
          assert recs[..i + 1][i].region == r;
        } else {
          var k :| 0 <= k < i && recs[..i][k].region == r;
          assert recs[..i + 1][k].region == r;
        }
      }
    }
  }

  /** The rows of one service, in order. */
  function RowsOf(service: string, recs: seq<Rec>): seq<Rec>
  {
    if recs == [] then []
    else
      var last := recs[|recs| - 1];
      var before := RowsOf(service, recs[..|recs| - 1]);
      if last.service == service then before + [last] else before
  }

  /** The results of one service: result `i` belongs to the service of row `i`. */
  function ResultsOf(service: string, recs: seq<Rec>, results: seq<PurchaseResult>): seq<PurchaseResult>
    decreases |recs|
  {
    if recs == [] then []
    else
      var n := |recs| - 1;
      var before := ResultsOf(service, recs[..n], results);
      if recs[n].service == service && n < |results| then before + [results[n]] else before
  }

  function ServicesOf(recs: seq<Rec>): set<string>
  {
    set i | 0 <= i < |recs| :: recs[i].service
  }

  lemma GroupStep(service: string, recs: seq<Rec>, results: seq<PurchaseResult>, i: nat)
    requires i < |recs|
    ensures var before := RowsOf(service, recs[..i]);
            RowsOf(service, recs[..i + 1]) == if recs[i].service == service then before + [recs[i]] else before
    ensures var before := ResultsOf(service, recs[..i], results);
            ResultsOf(service, recs[..i + 1], results)
              == if recs[i].service == service && i < |results| then before + [results[i]] else before
  {
    assert recs[..i + 1][..i] == recs[..i];
  }

  method GroupByService(recs: seq<Rec>, results: seq<PurchaseResult>)
    returns (rows: map<string, seq<Rec>>, outcomes: map<string, seq<PurchaseResult>>)
    ensures rows.Keys == ServicesOf(recs)
    ensures forall s :: Listed(rows, s) == RowsOf(s, recs)
    ensures forall s :: Listed(outcomes, s) == ResultsOf(s, recs, results)
  {
    rows, outcomes := map[], map[];
    for i := 0 to |recs|
      invariant rows.Keys == ServicesOf(recs[..i])
      invariant forall s :: Listed(rows, s) == RowsOf(s, recs[..i])
      invariant forall s :: Listed(outcomes, s) == ResultsOf(s, recs[..i], results)
    {
      ghost var rows0, outcomes0 := rows, outcomes;
      var service := recs[i].service;
      ServicesStep(recs, i);
      rows := rows[service := Listed(rows, service) + [recs[i]]];
      if i < |results| {
        outcomes := outcomes[service := Listed(outcomes, service) + [results[i]]];
      }
      hide RowsOf, ResultsOf, ServicesOf;
      forall s ensures Listed(rows, s) == RowsOf(s, recs[..i + 1])
               ensures Listed(outcomes, s) == ResultsOf(s, recs[..i + 1], results)
      {
        GroupStep(s, recs, results, i);
        ListedAfter(rows0, service, recs[i], s);
        if i < |results| {
          ListedAfter(outcomes0, service, results[i], s);
        }
      }
    }
    assert recs[..|recs|] == recs;
  }

  method BuildServiceStats(recs: seq<Rec>, results: seq<PurchaseResult>) returns (stats: map<string, ServiceStats>)
    ensures stats.Keys == ServicesOf(recs)
    ensures forall s :: s in stats ==> stats[s] == StatsOf(RowsOf(s, recs), ResultsOf(s, recs, results))
  {
    var rows, outcomes := GroupByService(recs, results);
    stats := map[];
    var pending := rows.Keys;
    while pending != {}
      invariant pending <= rows.Keys && stats.Keys == rows.Keys - pending
      invariant forall s :: s in stats ==> stats[s] == StatsOf(RowsOf(s, recs), ResultsOf(s, recs, results))
      decreases pending
    {
      hide RowsOf, ResultsOf, StatsOf;
      var service :| service in pending;
      assert rows[service] == Listed(rows, service);
      var one := CalculateServiceStats(rows[service], Listed(outcomes, service));
      stats := stats[service := one];
      pending := pending - {service};
    }
  }

  lemma ServicesStep(recs: seq<Rec>, i: nat)
    requires i < |recs|
    ensures ServicesOf(recs[..i + 1]) == ServicesOf(recs[..i]) + {recs[i].service}
  {
    var a, b := ServicesOf(recs[..i + 1]), ServicesOf(recs[..i]) + {recs[i].service};
    forall s ensures s in a <==> s in b {
      if s in b {
        if s == recs[i].service {
          assert recs[..i + 1][i].service == s;
        } else {
          var k :| 0 <= k < i && recs[..i][k].service == s;
          assert recs[..i + 1][k].service == s;
        }
      }
    }
  }

  // ---- Sums over services, in any order ---------------------------------------------------

  ghost function SumOver(f: string -> int, keys: set<string>): int
  {
    if keys == {} then 0
    else
      var k :| k in keys;
      f(k) + SumOver(f, keys - {k})
  }

  ghost function SumRealOver(f: string -> real, keys: set<string>): real
  {
    if keys == {} then 0.0
    else
      var k :| k in keys;
      f(k) + SumRealOver(f, keys - {k})
  }

  lemma {:induction false} SumOverTakes(f: string -> int, keys: set<string>, k: string)
    requires k in keys
    ensures SumOver(f, keys) == f(k) + SumOver(f, keys - {k})
    decreases keys
  {
    var first :| first in keys && SumOver(f, keys) == f(first) + SumOver(f, keys - {first});
    if first != k {
      SumOverTakes(f, keys - {first}, k);
      SumOverTakes(f, keys - {k}, first);
      assert keys - {first} - {k} == keys - {k} - {first};
    }
  }

  lemma {:induction false} SumRealOverTakes(f: string -> real, keys: set<string>, k: string)
    requires k in keys
    ensures SumRealOver(f, keys) == f(k) + SumRealOver(f, keys - {k})
    decreases keys
  {
    var first :| first in keys && SumRealOver(f, keys) == f(first) + SumRealOver(f, keys - {first});
    if first != k {
      SumRealOverTakes(f, keys - {first}, k);
      SumRealOverTakes(f, keys - {k}, first);
      assert keys - {first} - {k} == keys - {k} - {first};
    }
  }

  lemma {:induction false} SumOverPointwise(f: string -> int, g: string -> int, h: string -> int, keys: set<string>)
    requires forall k :: k in keys ==> h(k) == f(k) + g(k)
    ensures SumOver(h, keys) == SumOver(f, keys) + SumOver(g, keys)
    decreases keys
  {
    if keys != {} {
      var k :| k in keys;
      SumOverTakes(f, keys, k);
      SumOverTakes(g, keys, k);
      SumOverTakes(h, keys, k);
      SumOverPointwise(f, g, h, keys - {k});
    }
  }

  lemma {:induction false} SumOverAgree(f: string -> int, g: string -> int, keys: set<string>)
    requires forall k :: k in keys ==> f(k) == g(k)
    ensures SumOver(f, keys) == SumOver(g, keys)
    decreases keys
  {
    if keys != {} {
      var k :| k in keys;
      SumOverTakes(f, keys, k);
      SumOverTakes(g, keys, k);
      SumOverAgree(f, g, keys - {k});
    }
  }

  /** The share of the Savings Plans services, or of all others, in a sum over services. */
  function Pick(stats: map<string, ServiceStats>, plans: bool, field: ServiceStats -> int): string -> int
  {
    (s: string) => if s in stats && IsSavingsPlan(s) == plans then field(stats[s]) else 0
  }

  function PickSavings(stats: map<string, ServiceStats>, plans: bool): string -> real
  {
    (s: string) => if s in stats && IsSavingsPlan(s) == plans then stats[s].savings else 0.0
  }

  function Selected(s: ServiceStats): int { s.selected }
  function Found(s: ServiceStats): int { s.found }
  function Instances(s: ServiceStats): int { s.instances }
  function SuccessesOf(s: ServiceStats): int { s.succeeded }
  function FailuresOf(s: ServiceStats): int { s.failed }

  /** The most regions any Savings Plans service went through; the other services share none. */
  ghost predicate IsRegionCount(stats: map<string, ServiceStats>, plans: bool, regions: int)
  {
    if !plans then regions == 0
    else
      && regions >= 0
      && (forall s :: s in stats && IsSavingsPlan(s) ==> stats[s].regions <= regions)
      && (regions == 0 || exists s :: s in stats && IsSavingsPlan(s) && stats[s].regions == regions)
  }

  /** The summed counters of the services of one kind, and their region count. */
  ghost predicate IsAggregate(stats: map<string, ServiceStats>, plans: bool, total: ServiceStats)
  {
    && IsRegionCount(stats, plans, total.regions)
    && total.found == SumOver(Pick(stats, plans, Found), stats.Keys)
    && total.selected == SumOver(Pick(stats, plans, Selected), stats.Keys)
    && total.instances == SumOver(Pick(stats, plans, Instances), stats.Keys)
    && total.succeeded == SumOver(Pick(stats, plans, SuccessesOf), stats.Keys)
    && total.failed == SumOver(Pick(stats, plans, FailuresOf), stats.Keys)
    && total.savings == SumRealOver(PickSavings(stats, plans), stats.Keys)
  }

  function Plus(a: ServiceStats, b: ServiceStats, regions: int): ServiceStats
  {
    ServiceStats(regions, a.found + b.found, a.selected + b.selected, a.instances + b.instances,
                 a.succeeded + b.succeeded, a.failed + b.failed, a.savings + b.savings)
  }

  const NO_STATS := ServiceStats(0, 0, 0, 0, 0, 0, 0.0)

  lemma NothingAggregated(stats: map<string, ServiceStats>, plans: bool)
    requires stats == map[]
    ensures IsAggregate(stats, plans, NO_STATS)
  {
  }

  function MoreRegions(total: int, one: int): int
  {
    if one > total then one else total
  }

  lemma RegionCountStep(stats: map<string, ServiceStats>, service: string, one: ServiceStats, plans: bool, regions: int)
    requires service !in stats && IsRegionCount(stats, plans, regions)
    ensures IsRegionCount(stats[service := one], plans,
                          if plans && IsSavingsPlan(service) then MoreRegions(regions, one.regions) else regions)
  {
    hide IsSavingsPlan;
    var after := stats[service := one];
    var more := if plans && IsSavingsPlan(service) then MoreRegions(regions, one.regions) else regions;
    if plans && more != 0 {
      if more == regions {
        var s :| s in stats && IsSavingsPlan(s) && stats[s].regions == regions;
        assert s in after && after[s].regions == more;
      } else {
        assert service in after && after[service].regions == more;
      }
    }
  }

  lemma {:induction false} AggregateStep(stats: map<string, ServiceStats>, service: string, one: ServiceStats,
                                         plans: bool, total: ServiceStats)
    requires service !in stats && IsAggregate(stats, plans, total)
    ensures IsAggregate(stats[service := one], plans,
                        if IsSavingsPlan(service) == plans
                        then Plus(total, one, if plans then MoreRegions(total.regions, one.regions) else 0)
                        else total)
  {
    hide IsRegionCount, SumOver, SumRealOver, IsSavingsPlan;
    var after := stats[service := one];
    NoRegionsShared(stats, total.regions);
    RegionCountStep(stats, service, one, plans, total.regions);
    PickStep(stats, service, one, plans, Found);
    PickStep(stats, service, one, plans, Selected);
    PickStep(stats, service, one, plans, Instances);
    PickStep(stats, service, one, plans, SuccessesOf);
    PickStep(stats, service, one, plans, FailuresOf);
    SumRealOverTakes(PickSavings(after, plans), after.Keys, service);
    assert after.Keys - {service} == stats.Keys;
    SumRealOverAgree(PickSavings(after, plans), PickSavings(stats, plans), stats.Keys);
  }

  lemma NoRegionsShared(stats: map<string, ServiceStats>, regions: int)
    ensures IsRegionCount(stats, false, regions) ==> regions == 0
  {
  }

  /** One map has one aggregate of each kind, so no iteration order can yield another. */
  lemma AggregateIsUnique(stats: map<string, ServiceStats>, plans: bool, a: ServiceStats, b: ServiceStats)
    requires IsAggregate(stats, plans, a) && IsAggregate(stats, plans, b)
    ensures a == b
  {
    hide SumOver, SumRealOver, Pick, PickSavings, IsSavingsPlan;
    assert a.regions == b.regions;
  }

  lemma {:induction false} SumRealOverAgree(f: string -> real, g: string -> real, keys: set<string>)
    requires forall k :: k in keys ==> f(k) == g(k)
    ensures SumRealOver(f, keys) == SumRealOver(g, keys)
    decreases keys
  {
    if keys != {} {
      var k :| k in keys;
      SumRealOverTakes(f, keys, k);
      SumRealOverTakes(g, keys, k);
      SumRealOverAgree(f, g, keys - {k});
    }
  }

  lemma PickStep(stats: map<string, ServiceStats>, service: string, one: ServiceStats, plans: bool,
                 field: ServiceStats -> int)
    requires service !in stats
    ensures var after := stats[service := one];
            SumOver(Pick(after, plans, field), after.Keys)
              == SumOver(Pick(stats, plans, field), stats.Keys)
               + if IsSavingsPlan(service) == plans then field(one) else 0
  {
    var after := stats[service := one];
    SumOverTakes(Pick(after, plans, field), after.Keys, service);
    assert after.Keys - {service} == stats.Keys;
    SumOverAgree(Pick(after, plans, field), Pick(stats, plans, field), stats.Keys);
  }

  /** Splits the statistics into Savings Plans and the rest and aggregates each, taking the
      services in any order at all. */
  method SeparateAndAggregateStats(stats: map<string, ServiceStats>)
    returns (plans: ServiceStats, riStats: map<string, ServiceStats>, others: ServiceStats)
    ensures forall s :: s in riStats <==> s in stats && !IsSavingsPlan(s)
    ensures forall s :: s in riStats ==> riStats[s] == stats[s]
    ensures IsAggregate(stats, true, plans) && IsAggregate(stats, false, others)
  {
    hide IsAggregate, IsSavingsPlan;
    plans, riStats, others := NO_STATS, map[], NO_STATS;
    var pending := stats.Keys;
    ghost var done: map<string, ServiceStats> := map[];
    NothingAggregated(done, true);
    NothingAggregated(done, false);
    while pending != {}
      invariant pending <= stats.Keys && done.Keys == stats.Keys - pending
      invariant forall s :: s in done ==> done[s] == stats[s]
      invariant forall s :: s in riStats <==> s in done && !IsSavingsPlan(s)
      invariant forall s :: s in riStats ==> riStats[s] == stats[s]
      invariant IsAggregate(done, true, plans) && IsAggregate(done, false, others)
      decreases pending
    {
      var service :| service in pending;
      var one := stats[service];
      AggregateStep(done, service, one, true, plans);
      AggregateStep(done, service, one, false, others);
      if IsSavingsPlan(service) {
        plans := Plus(plans, one, MoreRegions(plans.regions, one.regions));
      } else {
        riStats := riStats[service := one];
        others := Plus(others, one, 0);
      }
      done := done[service := one];
      pending := pending - {service};
    }
    assert done == stats;
  }

  // ---- Every result is counted once -------------------------------------------------------

  function ResultCount(recs: seq<Rec>, results: seq<PurchaseResult>): string -> int
  {
    (s: string) => |ResultsOf(s, recs, results)|
  }

  lemma SumOverBump(f: string -> int, g: string -> int, keys: set<string>, k: string)
    requires k in keys && g(k) == f(k) + 1 && forall j :: j in keys && j != k ==> g(j) == f(j)
    ensures SumOver(g, keys) == SumOver(f, keys) + 1
  {
    SumOverTakes(f, keys, k);
    SumOverTakes(g, keys, k);
    SumOverAgree(f, g, keys - {k});
  }

  lemma {:induction false} AllZero(f: string -> int, keys: set<string>)
    requires forall k :: k in keys ==> f(k) == 0
    ensures SumOver(f, keys) == 0
    decreases keys
  {
    if keys != {} {
      var k :| k in keys;
      SumOverTakes(f, keys, k);
      AllZero(f, keys - {k});
    }
  }

  lemma {:induction false} ResultsSplitByService(recs: seq<Rec>, results: seq<PurchaseResult>, keys: set<string>)
    requires ServicesOf(recs) <= keys
    ensures SumOver(ResultCount(recs, results), keys) == if |results| <= |recs| then |results| else |recs|
    decreases |recs|
  {
    var f := ResultCount(recs, results);
    if recs == [] {
      AllZero(f, keys);
    } else {
      var n := |recs| - 1;
      var before := ResultCount(recs[..n], results);
      ServicesStep(recs, n);
      assert recs[..n + 1] == recs;
      ResultsSplitByService(recs[..n], results, keys);
      forall k ensures f(k) == before(k) + if k == recs[n].service && n < |results| then 1 else 0 {
        GroupStep(k, recs, results, n);
      }
      if n < |results| {
        assert recs[n].service in ServicesOf(recs);
        SumOverBump(before, f, keys, recs[n].service);
      } else {
        SumOverAgree(before, f, keys);
      }
    }
  }

  lemma {:induction false} SuccessOrFailure(results: seq<PurchaseResult>)
    ensures SumInt(Success, results) + SumInt(Failure, results) == |results|
  {
    if results != [] {
      SuccessOrFailure(results[1..]);
    }
  }

  function Field(stats: map<string, ServiceStats>, field: ServiceStats -> int): string -> int
  {
    (s: string) => if s in stats then field(stats[s]) else 0
  }

  lemma KindsAddUp(stats: map<string, ServiceStats>, field: ServiceStats -> int)
    ensures SumOver(Pick(stats, true, field), stats.Keys) + SumOver(Pick(stats, false, field), stats.Keys)
         == SumOver(Field(stats, field), stats.Keys)
  {
    hide IsSavingsPlan;
    SumOverPointwise(Pick(stats, true, field), Pick(stats, false, field), Field(stats, field), stats.Keys);
  }

  lemma StatsOutcomes(rows: seq<Rec>, results: seq<PurchaseResult>)
    ensures StatsOf(rows, results).succeeded + StatsOf(rows, results).failed == |results|
  {
    SuccessOrFailure(results);
  }

  lemma CountedOnce(recs: seq<Rec>, results: seq<PurchaseResult>, stats: map<string, ServiceStats>)
    requires |results| <= |recs| && ServicesOf(recs) <= stats.Keys
    requires forall s :: s in stats ==> stats[s] == StatsOf(RowsOf(s, recs), ResultsOf(s, recs, results))
    ensures SumOver(Field(stats, SuccessesOf), stats.Keys) + SumOver(Field(stats, FailuresOf), stats.Keys) == |results|
  {
    hide ServicesOf, RowsOf, ResultsOf, StatsOf;
    var successes, failures := Field(stats, SuccessesOf), Field(stats, FailuresOf);
    forall s | s in stats ensures ResultCount(recs, results)(s) == successes(s) + failures(s) {
      StatsOutcomes(RowsOf(s, recs), ResultsOf(s, recs, results));
    }
    SumOverPointwise(successes, failures, ResultCount(recs, results), stats.Keys);
    ResultsSplitByService(recs, results, stats.Keys);
  }

  /** Over a run that a shutdown may have cut short, the successes and failures of all
      services, Savings Plans and the rest together, add up to the results. */
  lemma StatisticsCountEveryResult(recs: seq<Rec>, results: seq<PurchaseResult>, stats: map<string, ServiceStats>,
                                   plans: ServiceStats, others: ServiceStats)
    requires |results| <= |recs| && stats.Keys == ServicesOf(recs)
    requires forall s :: s in stats ==> stats[s] == StatsOf(RowsOf(s, recs), ResultsOf(s, recs, results))
    requires IsAggregate(stats, true, plans) && IsAggregate(stats, false, others)
    ensures plans.succeeded + plans.failed + others.succeeded + others.failed == |results|
  {
    hide StatsOf, RowsOf, ResultsOf;
    KindsAddUp(stats, SuccessesOf);
    KindsAddUp(stats, FailuresOf);
    CountedOnce(recs, results, stats);
  }

  // ---- Appending the purchases of another service -------------------------------------------

  lemma {:induction false} RowsOfAppend(service: string, a: seq<Rec>, b: seq<Rec>)
    ensures RowsOf(service, a + b) == RowsOf(service, a) + RowsOf(service, b)
    decreases |b|
  {
    if b == [] {
      assert a + b == a;
    } else {
      RowsOfAppend(service, a, b[..|b| - 1]);
      assert (a + b)[..|a + b| - 1] == a + b[..|b| - 1];
    }
  }

  lemma {:induction false} ResultsOfPrefix(service: string, recs: seq<Rec>, results: seq<PurchaseResult>,
                                           more: seq<PurchaseResult>)
    requires |recs| <= |results|
    ensures ResultsOf(service, recs, results + more) == ResultsOf(service, recs, results)
    decreases |recs|
  {
    if recs != [] {
      ResultsOfPrefix(service, recs[..|recs| - 1], results, more);
    }
  }

  lemma {:induction false} ResultsOfAppend(service: string, a: seq<Rec>, b: seq<Rec>,
                                           ra: seq<PurchaseResult>, rb: seq<PurchaseResult>)
    requires |ra| == |a| && |rb| >= |b|
    ensures ResultsOf(service, a + b, ra + rb) == ResultsOf(service, a, ra) + ResultsOf(service, b, rb)
    decreases |b|
  {
    if b == [] {
      assert a + b == a;
      ResultsOfPrefix(service, a, ra, rb);
    } else {
      ResultsOfAppend(service, a, b[..|b| - 1], ra, rb);
      assert (a + b)[..|a + b| - 1] == a + b[..|b| - 1];
    }
  }

  lemma {:induction false} AllOfOneService(service: string, recs: seq<Rec>, results: seq<PurchaseResult>, s: string)
    requires |results| >= |recs| && forall r :: r in recs ==> r.service == service
    ensures RowsOf(s, recs) == if s == service then recs else []
    ensures ResultsOf(s, recs, results) == if s == service then results[..|recs|] else []
    decreases |recs|
  {
    if recs != [] {
      var n := |recs| - 1;
      AllOfOneService(service, recs[..n], results, s);
      assert recs == recs[..n] + [recs[n]];
      assert results[..n + 1] == results[..n] + [results[n]];
    }
  }

  lemma {:induction false} NoneOfService(service: string, recs: seq<Rec>, results: seq<PurchaseResult>)
    requires forall r :: r in recs ==> r.service != service
    ensures RowsOf(service, recs) == [] && ResultsOf(service, recs, results) == []
    decreases |recs|
  {
    if recs != [] {
      NoneOfService(service, recs[..|recs| - 1], results);
      assert recs[|recs| - 1] in recs;
    }
  }

  /** Buying for one more service leaves the statistics of the others alone. */
  lemma AnotherService(recs: seq<Rec>, results: seq<PurchaseResult>, service: string,
                       rows: seq<Rec>, outcomes: seq<PurchaseResult>, s: string)
    requires |results| == |recs| && |outcomes| == |rows|
    requires forall r :: r in recs ==> r.service != service
    requires forall r :: r in rows ==> r.service == service
    ensures StatsOf(RowsOf(s, recs + rows), ResultsOf(s, recs + rows, results + outcomes))
         == if s == service then StatsOf(rows, outcomes) else StatsOf(RowsOf(s, recs), ResultsOf(s, recs, results))
  {
    hide StatsOf, RowsOf, ResultsOf;
    RowsOfAppend(s, recs, rows);
    ResultsOfAppend(s, recs, rows, results, outcomes);
    AllOfOneService(service, rows, outcomes, s);
    if s == service {
      NoneOfService(service, recs, results);
      assert outcomes[..|rows|] == outcomes;
      assert RowsOf(s, recs + rows) == rows && ResultsOf(s, recs + rows, results + outcomes) == outcomes;
    } else {
      assert RowsOf(s, recs + rows) == RowsOf(s, recs);
      assert ResultsOf(s, recs + rows, results + outcomes) == ResultsOf(s, recs, results);
    }
  }
}
