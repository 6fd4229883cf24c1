/** The recommendation-driven run from the provider's offers to the purchase: every service is
    fetched region by region, filtered, sized, overridden and deduplicated, and the drop summary
    says what became of each offer. */
module Fetch {
  import opened Types
  import opened Sums
  import opened Drops
  import opened Scoring
  import opened InstanceLimit
  import opened Sizing
  import opened FamilySizing
  import opened Dedup
  import opened Filters
  import opened Purchase
  import opened Pipeline

  /** What the run finds outside itself, per service and region. Offers come with their account
      names filled in. */
  datatype Market = Market(
    offers: (string, string) -> seq<Rec>,
    discovered: string -> Option<seq<string>>,
    hasClient: (string, string) -> bool,
    commitments: (string, string) -> Option<seq<Commitment>>,
    now: int,
    keyOf: Rec -> string,
    data: EngineData,
    families: (string, string) -> Families
  )

  datatype Plan = Plan(services: seq<string>, regions: seq<string>, filters: FilterConfig, cfg: RunConfig)

  datatype Pass = Pass(service: string, region: string)

  const ACCOUNT_LEVEL_REGION := "us-east-1"

  /** The configured regions, one query for account-level Savings Plans, or what was discovered. */
  function RegionsFor(service: string, plan: Plan, market: Market): Option<seq<string>>
  {
    if plan.regions != [] then Some(plan.regions)
    else if IsSavingsPlan(service) then Some([ACCOUNT_LEVEL_REGION])
    else market.discovered(service)
  }

  function ServicePasses(service: string, regions: seq<string>): seq<Pass>
  {
    seq(|regions|, i requires 0 <= i < |regions| => Pass(service, regions[i]))
  }

  function PassesOf(services: seq<string>, plan: Plan, market: Market): seq<Pass>
  {
    if services == [] then []
    else
      var last := |services| - 1;
      var regions := RegionsFor(services[last], plan, market);
      PassesOf(services[..last], plan, market)
        + if regions.Some? then ServicePasses(services[last], regions.value) else []
  }

  /** Which passes a run makes: each service over the configured regions, and without any, over what was
      discovered, or once from a fixed region for account-level plans. */
  lemma {:induction false} PassesMade(services: seq<string>, plan: Plan, market: Market, pass: Pass)
    ensures pass in PassesOf(services, plan, market) <==>
              && pass.service in services
              && (if plan.regions != [] then pass.region in plan.regions
                  else if IsSavingsPlan(pass.service) then pass.region == "us-east-1"
                  else market.discovered(pass.service).Some? && pass.region in market.discovered(pass.service).value)
    decreases |services|
  {
    hide IsSavingsPlan;
    if services != [] {
      var last := |services| - 1;
      PassesMade(services[..last], plan, market, pass);
      assert services == services[..last] + [services[last]];
      var regions := RegionsFor(services[last], plan, market);
      if regions.Some? {
        ServicePassesAre(services[last], regions.value, pass);
      }
    }
  }

  lemma ServicePassesAre(service: string, regions: seq<string>, pass: Pass)
    ensures pass in ServicePasses(service, regions) <==> pass.service == service && pass.region in regions
  {
    if pass.service == service && pass.region in regions {
      var i :| 0 <= i < |regions| && regions[i] == pass.region;
      assert ServicePasses(service, regions)[i] == pass;
    }
  }

  // ---- One pass ---------------------------------------------------------------------------

  function Offers(pass: Pass, market: Market): seq<Rec> { market.offers(pass.service, pass.region) }

  function Filtered(pass: Pass, plan: Plan, market: Market): seq<Rec>
  {
    SizedRows(FilterOne(plan.filters, market.data, pass.region), Offers(pass, market))
  }

  function FamiliesOf(pass: Pass, market: Market): Families { market.families(pass.service, pass.region) }

  /** Under a target RDS families are sized as a whole, after the pools of all other rows. */
  function SizedIn(pass: Pass, plan: Plan, market: Market): seq<Rec>
  {
    var filtered, target := Filtered(pass, plan, market), plan.cfg.targetCoverage;
    Overridden(
      SizedBy(FamilyRest(filtered, target), plan.cfg, plan.cfg.coverage)
      + FamilySized(filtered, FamiliesOf(pass, market), target),
      plan.cfg.overrideCount)
  }

  function FamilyDrops(counts: DropCounts, reason: string): int
  {
    if reason == FAMILY_ALREADY_AT_TARGET then counts.alreadyAtTarget
    else if reason == FAMILY_NO_NU_SIGNAL then counts.noUnitsSignal
    else if reason == FAMILY_SIZED_TO_ZERO then counts.sizedToZero
    else 0
  }

  function FamilyCountsIn(pass: Pass, plan: Plan, market: Market): DropCounts
  {
    FamilyCounts(Filtered(pass, plan, market), FamiliesOf(pass, market), plan.cfg.targetCoverage)
  }

  function PassRows(pass: Pass, plan: Plan, market: Market): seq<Rec>
  {
    var sized := SizedIn(pass, plan, market);
    if market.hasClient(pass.service, pass.region)
    then Deduplicated(
      sized, market.commitments(pass.service, pass.region), market.now - DEFAULT_LOOKBACK_HOURS, market.keyOf)
    else sized
  }

  /** What one pass adds to the tally of `reason`. */
  function PassDrops(pass: Pass, plan: Plan, market: Market, reason: string): int
  {
    var rest := FamilyRest(Filtered(pass, plan, market), plan.cfg.targetCoverage);
    DropsFor(FilterOne(plan.filters, market.data, pass.region), reason, Offers(pass, market))
    + FamilyDrops(FamilyCountsIn(pass, plan, market), reason)
    + SizingDrops(rest, plan.cfg, plan.cfg.coverage, reason)
    + if reason == DUPLICATE_DEDUP then |SizedIn(pass, plan, market)| - |PassRows(pass, plan, market)| else 0
  }

  method AddFamilyDrops(drops: DropSummary, counts: DropCounts)
    modifies drops
    ensures forall reason ::
              Tally(drops.counts, reason) == Tally(old(drops.counts), reason) + FamilyDrops(counts, reason)
    ensures Tally(drops.counts, FAMILY_ALREADY_AT_TARGET)
         == Tally(old(drops.counts), FAMILY_ALREADY_AT_TARGET) + counts.alreadyAtTarget
    ensures Tally(drops.counts, FAMILY_NO_NU_SIGNAL)
         == Tally(old(drops.counts), FAMILY_NO_NU_SIGNAL) + counts.noUnitsSignal
    ensures Tally(drops.counts, FAMILY_SIZED_TO_ZERO)
         == Tally(old(drops.counts), FAMILY_SIZED_TO_ZERO) + counts.sizedToZero
  {
    hide Bump, Tally;
    FamilyReasonsDiffer();
    ghost var c0 := drops.counts;
    Add(drops, FAMILY_ALREADY_AT_TARGET, counts.alreadyAtTarget);
    ghost var c1 := drops.counts;
    Add(drops, FAMILY_NO_NU_SIGNAL, counts.noUnitsSignal);
    ghost var c2 := drops.counts;
    Add(drops, FAMILY_SIZED_TO_ZERO, counts.sizedToZero);
    forall reason ensures Tally(drops.counts, reason) == Tally(c0, reason) + FamilyDrops(counts, reason) {
      TallyAfterBump(c0, FAMILY_ALREADY_AT_TARGET, counts.alreadyAtTarget, reason);
      TallyAfterBump(c1, FAMILY_NO_NU_SIGNAL, counts.noUnitsSignal, reason);
      TallyAfterBump(c2, FAMILY_SIZED_TO_ZERO, counts.sizedToZero, reason);
    }
  }

  /** Sizing of one pass: families first if there is a target, then pools, then the override. */
  method ApplyCoverageAndOverrides(recs: seq<Rec>, cfg: RunConfig, families: Families, drops: DropSummary)
    returns (sized: seq<Rec>)
    modifies drops
    ensures sized == Overridden(SizedBy(FamilyRest(recs, cfg.targetCoverage), cfg, cfg.coverage)
                                + FamilySized(recs, families, cfg.targetCoverage), cfg.overrideCount)
    ensures forall reason ::
              Tally(drops.counts, reason) == Tally(old(drops.counts), reason)
                + FamilyDrops(FamilyCounts(recs, families, cfg.targetCoverage), reason)
                + SizingDrops(FamilyRest(recs, cfg.targetCoverage), cfg, cfg.coverage, reason)
  {
    hide SizedBy, SizingDrops, Overridden, Tally, FamilyDrops, CountsOver, RowsUnderAll, Filter;
    ghost var before := drops.counts;
    var sizedRds, rest := [], recs;
    if cfg.targetCoverage > 0.0 {
      var counts;
      sizedRds, rest, counts := ApplyFamilySizing(recs, families, cfg.targetCoverage);
      AddFamilyDrops(drops, counts);
    } else {
      NoFamilyDrops();
    }
    sized := ApplySizing(rest, cfg, cfg.coverage, drops);
    sized := sized + sizedRds;
    if cfg.overrideCount > 0 {
      var skippedSP, skippedNonPositive, extrapolated;
      sized, skippedSP, skippedNonPositive, extrapolated := ApplyCountOverride(sized, cfg.overrideCount);
    } else {
      NoOverride(sized, cfg.overrideCount);
    }
  }

  lemma NoFamilyDrops()
    ensures forall reason :: FamilyDrops(DropCounts(0, 0, 0), reason) == 0
  {
  }

  ghost predicate BuysBeyondCover(pass: Pass, plan: Plan, market: Market, recs: seq<Rec>)
  {
    var sized, listing := SizedIn(pass, plan, market), market.commitments(pass.service, pass.region);
    if !market.hasClient(pass.service, pass.region) || listing.None? then recs == sized
    else CountsAreKnown(sized, listing.value, market.keyOf) ==>
           PassesBeyondCover(sized, listing.value, market.now, 24, market.keyOf, recs)
  }

  lemma PassBuysBeyondCover(pass: Pass, plan: Plan, market: Market)
    ensures BuysBeyondCover(pass, plan, market, PassRows(pass, plan, market))
  {
    hide SizedIn, CountsAreKnown, PassesBeyondCover, Deduplicated;
    ListingDecides(SizedIn(pass, plan, market), market.commitments(pass.service, pass.region), market.now, 24,
                   market.keyOf);
  }

  method FetchAndFilterRegion(pass: Pass, plan: Plan, market: Market, drops: DropSummary) returns (recs: seq<Rec>)
    modifies drops
    ensures recs == PassRows(pass, plan, market)
    ensures forall reason :: reason != UNRECORDED ==>
              Tally(drops.counts, reason) == Tally(old(drops.counts), reason) + PassDrops(pass, plan, market, reason)
    // Without a client or a listing the sized rows are handed on; otherwise what they ask for beyond the
    // purchases of the last day.
    ensures BuysBeyondCover(pass, plan, market, recs)
  {
    PassBuysBeyondCover(pass, plan, market);
    hide BuysBeyondCover;
    hide SizedRows, DropsFor, SizedBy, SizingDrops, Overridden, Deduplicated, FilterOne, Bump, FamilyDrops;
    hide FamilyRest, FamilySized, FamilyCounts;
    NothingStaysNothing(pass, plan, market);
    recs := Offers(pass, market);
    if |recs| == 0 {
      return [];
    }
    recs := ApplyFilters(recs, plan.filters, market.data, pass.region, drops);
    if |recs| == 0 {
      return [];
    }
    recs := ApplyCoverageAndOverrides(recs, plan.cfg, FamiliesOf(pass, market), drops);
    assert recs == SizedIn(pass, plan, market);
    if market.hasClient(pass.service, pass.region) {
      ghost var before := drops.counts;
      var kept := CheckDuplicates(recs, market.commitments(pass.service, pass.region), market.now, market.keyOf, drops);
      forall reason ensures Tally(drops.counts, reason)
                         == Tally(before, reason) + if reason == DUPLICATE_DEDUP then |recs| - |kept| else 0
      {
        TallyAfterBump(before, DUPLICATE_DEDUP, |recs| - |kept|, reason);
      }
      recs := kept;
    }
  }

  lemma NoOverride(recs: seq<Rec>, overrideCount: int)
    requires overrideCount <= 0
    ensures Overridden(recs, overrideCount) == recs
  {
  }

  /** A pass with no offers, or none left after filtering, ends early; going on would have kept
      and counted nothing. */
  lemma NothingStaysNothing(pass: Pass, plan: Plan, market: Market)
    ensures Offers(pass, market) == [] ==> Filtered(pass, plan, market) == []
    ensures Filtered(pass, plan, market) == [] ==> PassRows(pass, plan, market) == []
    ensures Filtered(pass, plan, market) == [] ==> forall reason ::
              PassDrops(pass, plan, market, reason)
                == DropsFor(FilterOne(plan.filters, market.data, pass.region), reason, Offers(pass, market))
    ensures Offers(pass, market) == [] ==> forall reason :: PassDrops(pass, plan, market, reason) == 0
  {
    hide FilterOne, TargetOne, CoverOne, OverrideOne, FamilySized, FamilyRest, FamilyCounts;
    NoRowsNoFamilies(FamiliesOf(pass, market), plan.cfg.targetCoverage);
    NoFamilyDrops();
  }

  // ---- All passes -------------------------------------------------------------------------

  function Fetched(passes: seq<Pass>, plan: Plan, market: Market): seq<Rec>
  {
    if passes == [] then []
    else
      var last := |passes| - 1;
      Fetched(passes[..last], plan, market) + PassRows(passes[last], plan, market)
  }

  function AllPasses(plan: Plan, market: Market): seq<Pass>
  {
    PassesOf(plan.services, plan, market)
  }

  function AllFetched(plan: Plan, market: Market): seq<Rec>
  {
    Fetched(AllPasses(plan, market), plan, market)
  }

  function DropsIn(plan: Plan, market: Market, reason: string): Pass -> int
  {
    (pass: Pass) => PassDrops(pass, plan, market, reason)
  }

  ghost predicate TalliesAre(counts: map<string, int>, passes: seq<Pass>, plan: Plan, market: Market)
  {
    forall reason :: reason != UNRECORDED ==>
      Tally(counts, reason) == SumInt(DropsIn(plan, market, reason), passes)
  }

  lemma FetchedStep(passes: seq<Pass>, pass: Pass, plan: Plan, market: Market)
    ensures Fetched(passes + [pass], plan, market) == Fetched(passes, plan, market) + PassRows(pass, plan, market)
  {
    assert (passes + [pass])[..|passes|] == passes;
  }

  lemma FetchStep(passes: seq<Pass>, pass: Pass, plan: Plan, market: Market, before: map<string, int>,
                  after: map<string, int>)
    requires TalliesAre(before, passes, plan, market)
    requires forall reason :: reason != UNRECORDED ==>
               Tally(after, reason) == Tally(before, reason) + PassDrops(pass, plan, market, reason)
    ensures TalliesAre(after, passes + [pass], plan, market)
    ensures Fetched(passes + [pass], plan, market) == Fetched(passes, plan, market) + PassRows(pass, plan, market)
  {
    hide PassDrops, PassRows, Tally, Fetched;
    FetchedStep(passes, pass, plan, market);
    forall reason | reason != UNRECORDED
      ensures Tally(after, reason) == SumInt(DropsIn(plan, market, reason), passes + [pass])
    {
      SumIntStep(DropsIn(plan, market, reason), passes, pass);
    }
  }

  /** Every service, region by region; a service whose regions cannot be determined is skipped. */
  method FetchAll(plan: Plan, market: Market) returns (all: seq<Rec>, drops: DropSummary)
    ensures fresh(drops)
    ensures all == AllFetched(plan, market)
    ensures TalliesAre(drops.counts, AllPasses(plan, market), plan, market)
  {
    hide PassDrops, PassRows, TalliesAre, Tally, RegionsFor, BuysBeyondCover;
    all := [];
    drops := new DropSummary();
    ghost var passes: seq<Pass> := [];
    NoTallies(plan, market);
    for i := 0 to |plan.services|
      invariant fresh(drops)
      invariant passes == PassesOf(plan.services[..i], plan, market)
      invariant all == Fetched(passes, plan, market) && TalliesAre(drops.counts, passes, plan, market)
    {
      var service := plan.services[i];
      assert plan.services[..i + 1][..i] == plan.services[..i];
      var regions := RegionsFor(service, plan, market);
      if regions.None? {
        continue;
      }
      ghost var earlier := passes;
      for j := 0 to |regions.value|
        invariant fresh(drops)
        invariant passes == earlier + ServicePasses(service, regions.value[..j])
        invariant all == Fetched(passes, plan, market) && TalliesAre(drops.counts, passes, plan, market)
      {
        var pass := Pass(service, regions.value[j]);
        ghost var before := drops.counts;
        var recs := FetchAndFilterRegion(pass, plan, market, drops);
        FetchStep(passes, pass, plan, market, before, drops.counts);
        assert earlier + ServicePasses(service, regions.value[..j + 1]) == passes + [pass];
        all, passes := all + recs, passes + [pass];
      }
      assert regions.value[..|regions.value|] == regions.value;
    }
    assert plan.services[..|plan.services|] == plan.services;
  }

  lemma NoTallies(plan: Plan, market: Market)
    ensures TalliesAre(map[], [], plan, market)
  {
  }

  // ---- The drop ledger ----------------------------------------------------------------------

  predicate InFilter(reason: string)
  {
    reason == MIN_POOL_SIZE || reason == EXTENDED_SUPPORT || reason == UNRECORDED
  }

  predicate InPools(reason: string)
  {
    reason == TARGET_ALREADY_MET || reason == TARGET_SIZED_TO_ZERO
  }

  predicate InFamilies(reason: string)
  {
    reason == FAMILY_ALREADY_AT_TARGET || reason == FAMILY_NO_NU_SIGNAL || reason == FAMILY_SIZED_TO_ZERO
  }

  predicate InCap(reason: string)
  {
    reason == MAX_INSTANCES || reason == MIN_COUNT_AFTER_CAP
  }

  /** No stage counts under a reason of another. */
  lemma ReasonsDiffer()
    ensures MIN_POOL_SIZE != EXTENDED_SUPPORT && MIN_POOL_SIZE != UNRECORDED && EXTENDED_SUPPORT != UNRECORDED
    ensures TARGET_ALREADY_MET != TARGET_SIZED_TO_ZERO && MAX_INSTANCES != MIN_COUNT_AFTER_CAP
    ensures forall reason :: InFilter(reason) ==>
              !InPools(reason) && !InFamilies(reason) && !InCap(reason) && reason != DUPLICATE_DEDUP
    ensures forall reason :: InPools(reason) ==> !InFamilies(reason) && !InCap(reason) && reason != DUPLICATE_DEDUP
    ensures forall reason :: InFamilies(reason) ==> !InCap(reason) && reason != DUPLICATE_DEDUP
    ensures !InCap(DUPLICATE_DEDUP) && !InCap(UNRECORDED)
  {
    assert |MIN_POOL_SIZE| == 15 && |EXTENDED_SUPPORT| == 26 && |UNRECORDED| == 0;
    assert |TARGET_ALREADY_MET| == 18 && |TARGET_SIZED_TO_ZERO| == 20;
    assert |FAMILY_ALREADY_AT_TARGET| == 27 && |FAMILY_NO_NU_SIGNAL| == 22 && |FAMILY_SIZED_TO_ZERO| == 23;
    assert |DUPLICATE_DEDUP| == 15 && MIN_POOL_SIZE[0] != DUPLICATE_DEDUP[0];
    assert |MAX_INSTANCES| == 15 && |MIN_COUNT_AFTER_CAP| == 21;
    assert MAX_INSTANCES[0] != DUPLICATE_DEDUP[0] && MAX_INSTANCES[3] != MIN_POOL_SIZE[3];
  }

  lemma {:induction false} NoDropsFor(size: Rec -> Sized, reason: string, recs: seq<Rec>)
    requires forall r :: r in recs ==> size(r) != Dropped(reason)
    ensures DropsFor(size, reason, recs) == 0
  {
    if recs != [] {
      assert recs[0] in recs;
      NoDropsFor(size, reason, recs[1..]);
    }
  }

  lemma {:induction false} FilterConserves(recs: seq<Rec>, filters: FilterConfig, data: EngineData, region: string)
    ensures var filter := FilterOne(filters, data, region);
            |recs| == |SizedRows(filter, recs)| + DropsFor(filter, MIN_POOL_SIZE, recs)
                    + DropsFor(filter, EXTENDED_SUPPORT, recs) + DropsFor(filter, UNRECORDED, recs)
  {
    ReasonsDiffer();
    if recs != [] {
      hide PoolSizeAccepted, PassesDimensions, WithoutExcluded, Admits;
      FilterConserves(recs[1..], filters, data, region);
    }
  }

  lemma FilterDropsNothingElse(recs: seq<Rec>, filters: FilterConfig, data: EngineData, region: string, reason: string)
    requires !InFilter(reason)
    ensures DropsFor(FilterOne(filters, data, region), reason, recs) == 0
  {
    hide PoolSizeAccepted, PassesDimensions, WithoutExcluded, Admits;
    NoDropsFor(FilterOne(filters, data, region), reason, recs);
  }

  lemma SizingDropsNothingElse(recs: seq<Rec>, cfg: RunConfig, coverage: real, reason: string)
    requires !InPools(reason)
    ensures SizingDrops(recs, cfg, coverage, reason) == 0
  {
    hide IsSavingsPlan, ScaleCosts, TargetCount, ShareOf;
    if cfg.targetCoverage > 0.0 {
      if cfg.targetCoverage <= 100.0 {
        NoDropsFor(TargetOne(cfg.targetCoverage), reason, recs);
      }
    } else if 0.0 < coverage < 100.0 {
      NoDropsFor(CoverOne(coverage / 100.0), reason, recs);
    }
  }

  lemma CoverNeverMeetsATarget(recs: seq<Rec>, ratio: real)
    ensures DropsFor(CoverOne(ratio), TARGET_ALREADY_MET, recs) == 0
  {
    ReasonsDiffer();
    hide IsSavingsPlan, ScaleCosts, ShareOf;
    NoDropsFor(CoverOne(ratio), TARGET_ALREADY_MET, recs);
  }

  /** The rows a coverage of zero or less drops without a record. */
  function Wiped(recs: seq<Rec>, cfg: RunConfig, coverage: real): int
  {
    if cfg.targetCoverage <= 0.0 && coverage <= 0.0 then |recs| else 0
  }

  lemma SizingConserves(recs: seq<Rec>, cfg: RunConfig, coverage: real)
    ensures |recs| == |SizedBy(recs, cfg, coverage)| + SizingDrops(recs, cfg, coverage, TARGET_ALREADY_MET)
                    + SizingDrops(recs, cfg, coverage, TARGET_SIZED_TO_ZERO) + Wiped(recs, cfg, coverage)
  {
    hide CoverOne, TargetOne;
    if cfg.targetCoverage > 0.0 {
      TargetLedger(recs, cfg.targetCoverage);
    } else {
      CoverageLedger(recs, coverage);
      CoverNeverMeetsATarget(recs, coverage / 100.0);
    }
  }

  lemma {:induction false} OverrideKeepsLength(recs: seq<Rec>, overrideCount: int)
    ensures |Overridden(recs, overrideCount)| == |recs|
  {
    if overrideCount > 0 && recs != [] {
      hide IsSavingsPlan, Resized;
      OverrideKeepsLength(recs[1..], overrideCount);
    }
  }

  /** The rows of a pass that per-pool sizing looks at. */
  function PoolRows(pass: Pass, plan: Plan, market: Market): seq<Rec>
  {
    FamilyRest(Filtered(pass, plan, market), plan.cfg.targetCoverage)
  }

  /** The offers of one pass that go unrecorded: other regions' rows, rows a dimension filter
      rejects, and what a coverage of zero wipes out. */
  function Unrecorded(plan: Plan, market: Market): Pass -> int
  {
    (pass: Pass) => DropsFor(FilterOne(plan.filters, market.data, pass.region), UNRECORDED, Offers(pass, market))
                    + Wiped(PoolRows(pass, plan, market), plan.cfg, plan.cfg.coverage)
  }

  function OfferCount(market: Market): Pass -> int
  {
    (pass: Pass) => |Offers(pass, market)|
  }

  /** What one pass adds to the drop summary, whatever the reason, stage by stage. */
  function Recorded(plan: Plan, market: Market): Pass -> int
  {
    (pass: Pass) => Early(plan, market)(pass) + Late(plan, market)(pass)
  }

  function Early(plan: Plan, market: Market): Pass -> int
  {
    (pass: Pass) => ByFilter(plan, market)(pass) + ByFamilies(plan, market)(pass)
  }

  function ByFilter(plan: Plan, market: Market): Pass -> int
  {
    (pass: Pass) => PassDrops(pass, plan, market, MIN_POOL_SIZE) + PassDrops(pass, plan, market, EXTENDED_SUPPORT)
  }

  function ByFamilies(plan: Plan, market: Market): Pass -> int
  {
    (pass: Pass) => FamilyMisses(plan, market)(pass) + PassDrops(pass, plan, market, FAMILY_SIZED_TO_ZERO)
  }

  function FamilyMisses(plan: Plan, market: Market): Pass -> int
  {
    (pass: Pass) =>
      PassDrops(pass, plan, market, FAMILY_ALREADY_AT_TARGET) + PassDrops(pass, plan, market, FAMILY_NO_NU_SIGNAL)
  }

  function ByPools(plan: Plan, market: Market): Pass -> int
  {
    (pass: Pass) =>
      PassDrops(pass, plan, market, TARGET_ALREADY_MET) + PassDrops(pass, plan, market, TARGET_SIZED_TO_ZERO)
  }

  function Late(plan: Plan, market: Market): Pass -> int
  {
    (pass: Pass) => ByPools(plan, market)(pass) + PassDrops(pass, plan, market, DUPLICATE_DEDUP)
  }

  /** What a pass counts under a reason comes from the one stage the reason belongs to. */
  lemma StageOfReason(pass: Pass, plan: Plan, market: Market, reason: string)
    requires reason != UNRECORDED
    ensures PassDrops(pass, plan, market, reason)
         == if InFilter(reason)
            then DropsFor(FilterOne(plan.filters, market.data, pass.region), reason, Offers(pass, market))
            else if InFamilies(reason) then FamilyDrops(FamilyCountsIn(pass, plan, market), reason)
            else if InPools(reason)
            then SizingDrops(PoolRows(pass, plan, market), plan.cfg, plan.cfg.coverage, reason)
            else if reason == DUPLICATE_DEDUP
            then |SizedIn(pass, plan, market)| - |PassRows(pass, plan, market)|
            else 0
  {
    ReasonsDiffer();
    FamilyDropsNothingElse(FamilyCountsIn(pass, plan, market), reason);
    hide InFilter, InFamilies, InPools, InCap, FilterOne, DropsFor, SizingDrops, FamilyDrops;
    hide SizedIn, PassRows, FamilyCountsIn, Offers, Filtered;
    if !InFilter(reason) {
      FilterDropsNothingElse(Offers(pass, market), plan.filters, market.data, pass.region, reason);
    }
    if !InPools(reason) {
      SizingDropsNothingElse(PoolRows(pass, plan, market), plan.cfg, plan.cfg.coverage, reason);
    }
  }

  lemma FamilyDropsNothingElse(counts: DropCounts, reason: string)
    ensures !InFamilies(reason) ==> FamilyDrops(counts, reason) == 0
  {
  }

  lemma FamilyDropsTotal(counts: DropCounts)
    ensures FamilyDrops(counts, FAMILY_ALREADY_AT_TARGET) + FamilyDrops(counts, FAMILY_NO_NU_SIGNAL)
          + FamilyDrops(counts, FAMILY_SIZED_TO_ZERO) == Total(counts)
  {
    FamilyReasonsDiffer();
  }

  lemma SizingLedger(pass: Pass, plan: Plan, market: Market)
    ensures |Filtered(pass, plan, market)|
         == |SizedIn(pass, plan, market)| + Total(FamilyCountsIn(pass, plan, market))
          + SizingDrops(PoolRows(pass, plan, market), plan.cfg, plan.cfg.coverage, TARGET_ALREADY_MET)
          + SizingDrops(PoolRows(pass, plan, market), plan.cfg, plan.cfg.coverage, TARGET_SIZED_TO_ZERO)
          + Wiped(PoolRows(pass, plan, market), plan.cfg, plan.cfg.coverage)
  {
    var filtered, target := Filtered(pass, plan, market), plan.cfg.targetCoverage;
    var families, rest := FamiliesOf(pass, market), PoolRows(pass, plan, market);
    hide Filtered, SizingDrops, SizedBy, Overridden, FamilySized, FamilyRest, FamilyCounts, Total, Wiped;
    FamilyLedger(filtered, families, target);
    SizingConserves(rest, plan.cfg, plan.cfg.coverage);
    OverrideKeepsLength(SizedBy(rest, plan.cfg, plan.cfg.coverage) + FamilySized(filtered, families, target),
                        plan.cfg.overrideCount);
  }

  lemma PassAccounts(pass: Pass, plan: Plan, market: Market)
    ensures |Offers(pass, market)|
         == |PassRows(pass, plan, market)| + Unrecorded(plan, market)(pass)
          + PassDrops(pass, plan, market, MIN_POOL_SIZE) + PassDrops(pass, plan, market, EXTENDED_SUPPORT)
          + PassDrops(pass, plan, market, FAMILY_ALREADY_AT_TARGET)
          + PassDrops(pass, plan, market, FAMILY_NO_NU_SIGNAL) + PassDrops(pass, plan, market, FAMILY_SIZED_TO_ZERO)
          + PassDrops(pass, plan, market, TARGET_ALREADY_MET) + PassDrops(pass, plan, market, TARGET_SIZED_TO_ZERO)
          + PassDrops(pass, plan, market, DUPLICATE_DEDUP)
  {
    ReasonsDiffer();
    StageOfReason(pass, plan, market, MIN_POOL_SIZE);
    StageOfReason(pass, plan, market, EXTENDED_SUPPORT);
    StageOfReason(pass, plan, market, FAMILY_ALREADY_AT_TARGET);
    StageOfReason(pass, plan, market, FAMILY_NO_NU_SIGNAL);
    StageOfReason(pass, plan, market, FAMILY_SIZED_TO_ZERO);
    StageOfReason(pass, plan, market, TARGET_ALREADY_MET);
    StageOfReason(pass, plan, market, TARGET_SIZED_TO_ZERO);
    StageOfReason(pass, plan, market, DUPLICATE_DEDUP);
    hide FilterOne, DropsFor, SizingDrops, FamilyDrops, SizedIn, PassRows, FamilyCountsIn, PoolRows, PassDrops, Wiped;
    hide Total;
    FilterConserves(Offers(pass, market), plan.filters, market.data, pass.region);
    FamilyDropsTotal(FamilyCountsIn(pass, plan, market));
    SizingLedger(pass, plan, market);
  }

  lemma PassLedger(pass: Pass, plan: Plan, market: Market)
    ensures OfferCount(market)(pass)
         == |PassRows(pass, plan, market)| + Unrecorded(plan, market)(pass) + Recorded(plan, market)(pass)
  {
    hide PassDrops, PassRows, Unrecorded, Offers;
    PassAccounts(pass, plan, market);
    assert Recorded(plan, market)(pass) == Early(plan, market)(pass) + Late(plan, market)(pass);
    assert Early(plan, market)(pass) == ByFilter(plan, market)(pass) + ByFamilies(plan, market)(pass);
    assert ByFamilies(plan, market)(pass)
        == FamilyMisses(plan, market)(pass) + PassDrops(pass, plan, market, FAMILY_SIZED_TO_ZERO);
    assert Late(plan, market)(pass) == ByPools(plan, market)(pass) + PassDrops(pass, plan, market, DUPLICATE_DEDUP);
    assert OfferCount(market)(pass) == |Offers(pass, market)|;
  }

  function FetchTally(counts: map<string, int>): int
  {
    Tally(counts, MIN_POOL_SIZE) + Tally(counts, EXTENDED_SUPPORT)
    + Tally(counts, FAMILY_ALREADY_AT_TARGET) + Tally(counts, FAMILY_NO_NU_SIGNAL) + Tally(counts, FAMILY_SIZED_TO_ZERO)
    + Tally(counts, TARGET_ALREADY_MET) + Tally(counts, TARGET_SIZED_TO_ZERO) + Tally(counts, DUPLICATE_DEDUP)
  }

  /** Drop-ledger conservation over a whole fetch: the offers of all passes are the rows kept,
      the drops on record and the unrecorded ones; and the cap's reasons are still untouched. */
  lemma {:induction false} FetchConserves(counts: map<string, int>, passes: seq<Pass>, plan: Plan, market: Market)
    requires TalliesAre(counts, passes, plan, market)
    ensures SumInt(OfferCount(market), passes)
         == |Fetched(passes, plan, market)| + FetchTally(counts) + SumInt(Unrecorded(plan, market), passes)
    ensures Tally(counts, MAX_INSTANCES) == 0 && Tally(counts, MIN_COUNT_AFTER_CAP) == 0
  {
    ReasonsDiffer();
    hide Tally, PassDrops, DropsIn, OfferCount, Unrecorded, Recorded, Fetched, SumInt;
    PassesConserve(passes, plan, market);
    RecordedByReason(passes, plan, market);
    NoCapDrops(passes, plan, market, MAX_INSTANCES);
    NoCapDrops(passes, plan, market, MIN_COUNT_AFTER_CAP);
  }

  /** The offers that neither the drop summary nor the unrecorded rows account for. */
  function Unaccounted(passes: seq<Pass>, plan: Plan, market: Market): int
  {
    SumInt(OfferCount(market), passes)
    - SumInt(Unrecorded(plan, market), passes) - SumInt(Recorded(plan, market), passes)
  }

  lemma UnaccountedStep(passes: seq<Pass>, pass: Pass, plan: Plan, market: Market)
    ensures Unaccounted(passes + [pass], plan, market)
         == Unaccounted(passes, plan, market) + |PassRows(pass, plan, market)|
  {
    hide PassRows, Unrecorded, Recorded, OfferCount, SumInt;
    PassLedger(pass, plan, market);
    SumIntStep(OfferCount(market), passes, pass);
    SumIntStep(Unrecorded(plan, market), passes, pass);
    SumIntStep(Recorded(plan, market), passes, pass);
  }

  lemma NothingUnaccounted(plan: Plan, market: Market)
    ensures Unaccounted([], plan, market) == |Fetched([], plan, market)|
  {
    hide PassRows, Unrecorded, Recorded, OfferCount;
  }

  lemma {:induction false} PassesConserve(passes: seq<Pass>, plan: Plan, market: Market)
    ensures Unaccounted(passes, plan, market) == |Fetched(passes, plan, market)|
    decreases |passes|
  {
    hide PassRows, Unaccounted, Fetched;
    if passes == [] {
      NothingUnaccounted(plan, market);
    } else {
      var n := |passes| - 1;
      PassesConserve(passes[..n], plan, market);
      UnaccountedStep(passes[..n], passes[n], plan, market);
      FetchedStep(passes[..n], passes[n], plan, market);
      assert passes == passes[..n] + [passes[n]];
    }
  }

  lemma RecordedByReason(passes: seq<Pass>, plan: Plan, market: Market)
    ensures SumInt(Recorded(plan, market), passes)
         == SumInt(DropsIn(plan, market, MIN_POOL_SIZE), passes)
          + SumInt(DropsIn(plan, market, EXTENDED_SUPPORT), passes)
          + SumInt(DropsIn(plan, market, FAMILY_ALREADY_AT_TARGET), passes)
          + SumInt(DropsIn(plan, market, FAMILY_NO_NU_SIGNAL), passes)
          + SumInt(DropsIn(plan, market, FAMILY_SIZED_TO_ZERO), passes)
          + SumInt(DropsIn(plan, market, TARGET_ALREADY_MET), passes)
          + SumInt(DropsIn(plan, market, TARGET_SIZED_TO_ZERO), passes)
          + SumInt(DropsIn(plan, market, DUPLICATE_DEDUP), passes)
  {
    hide PassDrops, SumInt;
    SumIntPlus(Early(plan, market), Late(plan, market), Recorded(plan, market), passes);
    SumIntPlus(ByFilter(plan, market), ByFamilies(plan, market), Early(plan, market), passes);
    SumIntPlus(DropsIn(plan, market, MIN_POOL_SIZE), DropsIn(plan, market, EXTENDED_SUPPORT),
               ByFilter(plan, market), passes);
    SumIntPlus(FamilyMisses(plan, market), DropsIn(plan, market, FAMILY_SIZED_TO_ZERO),
               ByFamilies(plan, market), passes);
    SumIntPlus(DropsIn(plan, market, FAMILY_ALREADY_AT_TARGET), DropsIn(plan, market, FAMILY_NO_NU_SIGNAL),
               FamilyMisses(plan, market), passes);
    SumIntPlus(ByPools(plan, market), DropsIn(plan, market, DUPLICATE_DEDUP), Late(plan, market), passes);
    SumIntPlus(DropsIn(plan, market, TARGET_ALREADY_MET), DropsIn(plan, market, TARGET_SIZED_TO_ZERO),
               ByPools(plan, market), passes);
  }

  lemma {:induction false} NoCapDrops(passes: seq<Pass>, plan: Plan, market: Market, reason: string)
    requires InCap(reason)
    ensures SumInt(DropsIn(plan, market, reason), passes) == 0
  {
    ReasonsDiffer();
    hide InFilter, InFamilies, InPools, InCap, PassDrops;
    if passes != [] {
      StageOfReason(passes[0], plan, market, reason);
      NoCapDrops(passes[1..], plan, market, reason);
    }
  }

  // ---- From the offers to the purchase ------------------------------------------------------

  /** When the counts handed to the cap cannot be negative. */
  ghost predicate OffersAreSafe(passes: seq<Pass>, plan: Plan, market: Market)
  {
    || plan.cfg.minCount > 0
    || !plan.filters.includeExtendedSupport
    || forall i :: 0 <= i < |passes| ==> forall r :: r in Offers(passes[i], market) ==> r.count >= 0
  }

  lemma DeduplicatedNonNegative(recs: seq<Rec>, existing: Option<seq<Commitment>>, cutoff: int, keyOf: Rec -> string)
    requires forall r :: r in recs ==> r.count >= 0
    ensures forall r :: r in Deduplicated(recs, existing, cutoff, keyOf) ==> r.count >= 0
  {
    if existing.Some? {
      PassedShape(recs, Booked(Filter(RecentSince(cutoff), existing.value)), keyOf);
    }
  }

  lemma PassNonNegative(pass: Pass, plan: Plan, market: Market)
    requires !plan.filters.includeExtendedSupport || forall r :: r in Offers(pass, market) ==> r.count >= 0
    ensures forall r :: r in PassRows(pass, plan, market) ==> r.count >= 0
  {
    hide SizedRows, FilterOne, SizedBy, Overridden, Deduplicated, FamilySized, FamilyRest;
    var filtered, target := Filtered(pass, plan, market), plan.cfg.targetCoverage;
    FilterNonNegative(Offers(pass, market), plan.filters, market.data, pass.region);
    SizedFamiliesNonNegative(filtered, FamiliesOf(pass, market), target);
    SizingStaysNonNegative(FamilyRest(filtered, target), plan.cfg, plan.cfg.coverage);
    OverrideStaysNonNegative(SizedBy(FamilyRest(filtered, target), plan.cfg, plan.cfg.coverage)
                             + FamilySized(filtered, FamiliesOf(pass, market), target), plan.cfg.overrideCount);
    DeduplicatedNonNegative(SizedIn(pass, plan, market), market.commitments(pass.service, pass.region),
                            market.now - DEFAULT_LOOKBACK_HOURS, market.keyOf);
  }

  lemma {:induction false} FetchedNonNegative(passes: seq<Pass>, plan: Plan, market: Market)
    requires !plan.filters.includeExtendedSupport
          || forall i :: 0 <= i < |passes| ==> forall r :: r in Offers(passes[i], market) ==> r.count >= 0
    ensures forall r :: r in Fetched(passes, plan, market) ==> r.count >= 0
    decreases |passes|
  {
    if passes != [] {
      hide PassRows;
      FetchedNonNegative(passes[..|passes| - 1], plan, market);
      PassNonNegative(passes[|passes| - 1], plan, market);
    }
  }

  function RunTally(counts: map<string, int>): int
  {
    FetchTally(counts) + Tally(counts, MAX_INSTANCES) + Tally(counts, MIN_COUNT_AFTER_CAP)
  }

  /** The rows a binding cap removes that already stood at zero, which no tally counts. */
  function ZerosCut(scored: seq<Rec>, maxInstances: int, minCount: int): int
  {
    var kept := Cap(scored, maxInstances, minCount);
    if CapBinds(scored, maxInstances) && |kept| <= |scored| then SumInt(ZeroCount, scored[|kept|..]) else 0
  }

  /** The cap adds to its own two tallies what it removes, but for rows that stood at zero. */
  lemma CapConserves(counts: map<string, int>, scored: seq<Rec>, maxInstances: int, minCount: int)
    requires Floored(scored, minCount)
    ensures RunTally(CapDrops(counts, scored, maxInstances, minCount))
         == RunTally(counts) + |scored|
          - |Cap(scored, maxInstances, minCount)| - ZerosCut(scored, maxInstances, minCount)
    ensures minCount > 0 ==> ZerosCut(scored, maxInstances, minCount) == 0
  {
    ReasonsDiffer();
    hide ByCap, BelowFloor, Cap, Bump, Tally;
    if CapBinds(scored, maxInstances) {
      CapLedgerConserves(scored, maxInstances, minCount);
      var byCap, below := ByCap(scored, maxInstances, minCount), BelowFloor(scored, maxInstances, minCount);
      var mid := Bump(counts, MAX_INSTANCES, byCap);
      forall reason ensures Tally(Bump(mid, MIN_COUNT_AFTER_CAP, below), reason)
                         == Tally(counts, reason) + (if reason == MAX_INSTANCES then byCap else 0)
                          + (if reason == MIN_COUNT_AFTER_CAP then below else 0)
      {
        TallyAfterBump(counts, MAX_INSTANCES, byCap, reason);
        TallyAfterBump(mid, MIN_COUNT_AFTER_CAP, below, reason);
      }
    } else {
      UnboundCap(scored, maxInstances, minCount);
    }
  }

  lemma UnboundCap(recs: seq<Rec>, maxInstances: int, minCount: int)
    requires !CapBinds(recs, maxInstances)
    ensures Cap(recs, maxInstances, minCount) == recs
  {
  }

  /** A whole recommendation-driven run. Whatever the provider offers and whatever fails, the
      purchases attempted fit the cap and clear the floor; and every offer of every pass is
      accounted for: it was put up for purchase, filtered by the scorer, counted in the drop
      summary under exactly one reason, or is one of those the run does not record. */
  method RunToolMultiService(plan: Plan, market: Market, confirmed: bool, requested: nat -> bool,
                             attempt: nat -> Attempt)
    returns (bought: seq<Rec>, results: seq<PurchaseResult>, drops: DropSummary, ghost scored: seq<Rec>)
    ensures IsScored(AllFetched(plan, market), RunScorer(plan.cfg), scored)
    ensures bought <= Cap(scored, plan.cfg.maxInstances, plan.cfg.minCount) && |results| == |bought|
    ensures |bought| < |Cap(scored, plan.cfg.maxInstances, plan.cfg.minCount)| ==>
              (!plan.cfg.isDryRun && !confirmed) || requested(|bought|)
    ensures forall i :: 0 <= i < |results| ==> results[i] == ResultOf(attempt(i), plan.cfg.isDryRun)
    ensures plan.cfg.maxInstances > 0 && OffersAreSafe(AllPasses(plan, market), plan, market) ==>
              SumInt(PositiveCount, bought) <= plan.cfg.maxInstances
    ensures Floored(bought, plan.cfg.minCount)
    ensures SumInt(OfferCount(market), AllPasses(plan, market))
         == |Cap(scored, plan.cfg.maxInstances, plan.cfg.minCount)| + (|AllFetched(plan, market)| - |scored|)
          + RunTally(drops.counts) + SumInt(Unrecorded(plan, market), AllPasses(plan, market))
          + ZerosCut(scored, plan.cfg.maxInstances, plan.cfg.minCount)
    ensures plan.cfg.minCount > 0 ==> ZerosCut(scored, plan.cfg.maxInstances, plan.cfg.minCount) == 0
  {
    hide ZerosCut, IsScored, Cap, CapDrops, Fetched, PassesOf, OfferCount, Unrecorded, RunTally, FetchTally;
    hide TalliesAre, Floored;
    var all;
    all, drops := FetchAll(plan, market);
    ghost var passes := AllPasses(plan, market);
    ghost var counts := drops.counts;
    FetchRecorded(counts, passes, plan, market);
    if plan.cfg.minCount <= 0 && OffersAreSafe(passes, plan, market) {
      FetchedNonNegative(passes, plan, market);
    }
    bought, results, scored := RunMain(all, plan.cfg, confirmed, requested, attempt, drops);
    ScoredIsFloored(all, RunScorer(plan.cfg), scored);
    CapConserves(counts, scored, plan.cfg.maxInstances, plan.cfg.minCount);
  }

  lemma FetchRecorded(counts: map<string, int>, passes: seq<Pass>, plan: Plan, market: Market)
    requires TalliesAre(counts, passes, plan, market)
    ensures SumInt(OfferCount(market), passes)
         == |Fetched(passes, plan, market)| + RunTally(counts) + SumInt(Unrecorded(plan, market), passes)
  {
    hide Fetched, OfferCount, Unrecorded, TalliesAre, SumInt;
    FetchConserves(counts, passes, plan, market);
  }
}
