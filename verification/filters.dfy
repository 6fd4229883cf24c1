/** Filtering of recommendations, with the adjustment for instances on extended-support
    engine versions, and the sweep that filters the same rows once per region. */
module Filters {
  import opened Types
  import opened Sums
  import opened Drops
  import opened Sizing

  /** One running database instance. */
  datatype Instance = Instance(engine: string, engineVersion: string, instanceClass: string, region: string)

  /** What was learnt about running instances. Which versions are in extended support and
      which engine names mean the same engine are left open. */
  datatype EngineData = EngineData(
    versions: map<string, seq<Instance>>,
    inExtendedSupport: Instance -> bool,
    sameEngine: (string, string) -> bool
  )

  datatype FilterConfig = FilterConfig(
    minPoolSize: real,
    includeRegions: seq<string>,
    excludeRegions: seq<string>,
    includeInstanceTypes: seq<string>,
    excludeInstanceTypes: seq<string>,
    includeExtendedSupport: bool,
    engineAccepted: Rec -> bool,
    accountAccepted: string -> bool
  )

  // ---- Extended support -----------------------------------------------------------------

  /** Whether an instance is one the recommendation would cover and should not. */
  function Excluded(rec: Rec, engine: string, data: EngineData): Instance -> int
  {
    (v: Instance) =>
      if v.region == rec.region && data.sameEngine(v.engine, engine) && data.inExtendedSupport(v) then 1 else 0
  }

  function WithoutExcluded(rec: Rec, data: EngineData): Rec
  {
    if rec.resourceType !in data.versions || !rec.details.Database? then rec
    else
      var excluded := SumInt(Excluded(rec, rec.details.engine, data), data.versions[rec.resourceType]);
      if excluded > 0 then rec.(count := if rec.count - excluded > 0 then rec.count - excluded else 0) else rec
  }

  /** The listed instances of the row's class, region and engine that are in extended support. */
  function InstancesExcluded(rec: Rec, data: EngineData): nat
  {
    if rec.details.Database? && rec.resourceType in data.versions then
      |Filter((v: Instance) => v.region == rec.region && data.sameEngine(v.engine, rec.details.engine)
                               && data.inExtendedSupport(v), data.versions[rec.resourceType])|
    else 0
  }

  /** The adjustment takes the excluded instances off the count, and stops at zero. */
  lemma WithoutExcludedMeans(rec: Rec, data: EngineData)
    ensures var n := InstancesExcluded(rec, data);
            WithoutExcluded(rec, data)
              == rec.(count := if n == 0 then rec.count else if rec.count > n then rec.count - n else 0)
  {
    if rec.details.Database? && rec.resourceType in data.versions {
      SumOfOnes(Excluded(rec, rec.details.engine, data),
                (v: Instance) => v.region == rec.region && data.sameEngine(v.engine, rec.details.engine)
                                 && data.inExtendedSupport(v), data.versions[rec.resourceType]);
    }
  }

  method AdjustForExcludedVersions(rec: Rec, data: EngineData) returns (adjusted: Rec)
    ensures adjusted == WithoutExcluded(rec, data)
    ensures var n := InstancesExcluded(rec, data);
            adjusted == rec.(count := if n == 0 then rec.count else if rec.count > n then rec.count - n else 0)
  {
    WithoutExcludedMeans(rec, data);
    if rec.resourceType !in data.versions {
      return rec;
    }
    if !rec.details.Database? {
      return rec;
    }
    var engine, versions := rec.details.engine, data.versions[rec.resourceType];
    var excludedCount := 0;
    for i := 0 to |versions|
      invariant excludedCount == SumInt(Excluded(rec, engine, data), versions[..i])
    {
      var version := versions[i];
      assert versions[..i + 1] == versions[..i] + [version];
      SumIntStep(Excluded(rec, engine, data), versions[..i], version);
      if version.region != rec.region {
        continue;
      }
      if !data.sameEngine(version.engine, engine) {
        continue;
      }
      if data.inExtendedSupport(version) {
        excludedCount := excludedCount + 1;
      }
    }
    assert versions[..|versions|] == versions;
    adjusted := rec;
    if excludedCount > 0 {
      adjusted := rec.(count := if rec.count - excludedCount > 0 then rec.count - excludedCount else 0);
    }
  }

  /** The adjustment depends on which instances run, not on the order they were listed in. */
  lemma ExclusionIgnoresListingOrder(rec: Rec, a: EngineData, b: EngineData)
    requires a.sameEngine == b.sameEngine && a.inExtendedSupport == b.inExtendedSupport
    requires a.versions.Keys == b.versions.Keys
    requires forall c :: c in a.versions ==> multiset(a.versions[c]) == multiset(b.versions[c])
    ensures WithoutExcluded(rec, a) == WithoutExcluded(rec, b)
  {
    if rec.resourceType in a.versions && rec.details.Database? {
      var engine := rec.details.engine;
      SumIntPermutation(Excluded(rec, engine, a), a.versions[rec.resourceType], b.versions[rec.resourceType]);
      SameExclusions(rec, engine, a, b, b.versions[rec.resourceType]);
    }
  }

  lemma {:induction false} SameExclusions(rec: Rec, engine: string, a: EngineData, b: EngineData, s: seq<Instance>)
    requires a.sameEngine == b.sameEngine && a.inExtendedSupport == b.inExtendedSupport
    ensures SumInt(Excluded(rec, engine, a), s) == SumInt(Excluded(rec, engine, b), s)
  {
    if s != [] {
      SameExclusions(rec, engine, a, b, s[1..]);
    }
  }

  // ---- The filter chain -----------------------------------------------------------------

  predicate PoolSizeAccepted(rec: Rec, cfg: FilterConfig)
  {
    cfg.minPoolSize <= 0.0 || rec.averageInstances <= 0.0 || rec.averageInstances >= cfg.minPoolSize
  }

  predicate AllowedBy(value: string, included: seq<string>, excluded: seq<string>)
  {
    (included != [] ==> value in included) && value !in excluded
  }

  predicate PassesDimensions(rec: Rec, cfg: FilterConfig)
  {
    && AllowedBy(rec.region, cfg.includeRegions, cfg.excludeRegions)
    && AllowedBy(rec.resourceType, cfg.includeInstanceTypes, cfg.excludeInstanceTypes)
    && cfg.engineAccepted(rec)
    && cfg.accountAccepted(rec.accountName)
  }

  /** Whether the pass over `region` looks at a row: the unsharded pass (no region) looks at
      every row, and Savings Plans belong to the account rather than to a region. */
  predicate Admits(region: string, rec: Rec)
  {
    region == "" || rec.region == region || IsSavingsPlan(rec.service)
  }

  const UNRECORDED := ""

  function Processed(rec: Rec, cfg: FilterConfig, data: EngineData, region: string): Sized
  {
    if !Admits(region, rec) then Dropped(UNRECORDED)
    else if !PassesDimensions(rec, cfg) then Dropped(UNRECORDED)
    else if cfg.includeExtendedSupport then Kept(rec)
    else
      var adjusted := WithoutExcluded(rec, data);
      if adjusted.count <= 0 then Dropped(EXTENDED_SUPPORT) else Kept(adjusted)
  }

  function FilterOne(cfg: FilterConfig, data: EngineData, region: string): Rec -> Sized
  {
    (rec: Rec) =>
      if !PoolSizeAccepted(rec, cfg) then Dropped(MIN_POOL_SIZE) else Processed(rec, cfg, data, region)
  }

  /** A pool of known size below the floor. */
  function BelowPoolSize(cfg: FilterConfig): Rec -> bool
  {
    (rec: Rec) => cfg.minPoolSize > 0.0 && 0.0 < rec.averageInstances < cfg.minPoolSize
  }

  /** The row is of the pass, and of no region, type, engine or account that is left out. */
  predicate Wanted(rec: Rec, cfg: FilterConfig, region: string)
  {
    && !BelowPoolSize(cfg)(rec)
    && (region == "" || region == rec.region || IsSavingsPlan(rec.service))
    && (cfg.includeRegions == [] || rec.region in cfg.includeRegions)
    && (cfg.includeInstanceTypes == [] || rec.resourceType in cfg.includeInstanceTypes)
    && rec.region !in cfg.excludeRegions && rec.resourceType !in cfg.excludeInstanceTypes
    && cfg.engineAccepted(rec) && cfg.accountAccepted(rec.accountName)
  }

  /** What the filter keeps: wanted rows with more instances than are in extended support. */
  function Survivors(cfg: FilterConfig, data: EngineData, region: string): Rec -> bool
  {
    (rec: Rec) =>
      Wanted(rec, cfg, region) && (cfg.includeExtendedSupport || rec.count > InstancesExcluded(rec, data))
  }

  function OutOfSupport(cfg: FilterConfig, data: EngineData, region: string): Rec -> bool
  {
    (rec: Rec) =>
      Wanted(rec, cfg, region) && !cfg.includeExtendedSupport && rec.count <= InstancesExcluded(rec, data)
  }

  /** A row it keeps loses only the instances in extended support. */
  function FilterPromise(cfg: FilterConfig, data: EngineData): (Rec, Rec) -> bool
  {
    (rec: Rec, row: Rec) =>
      row == if cfg.includeExtendedSupport then rec else rec.(count := rec.count - InstancesExcluded(rec, data))
  }

  lemma FilterKeepsPromise(rec: Rec, cfg: FilterConfig, data: EngineData, region: string)
    ensures FilterOne(cfg, data, region)(rec).Kept? <==> Survivors(cfg, data, region)(rec)
    ensures FilterOne(cfg, data, region)(rec) == Dropped(MIN_POOL_SIZE) <==> BelowPoolSize(cfg)(rec)
    ensures FilterOne(cfg, data, region)(rec) == Dropped(EXTENDED_SUPPORT) <==> OutOfSupport(cfg, data, region)(rec)
    ensures FilterOne(cfg, data, region)(rec).Kept? ==>
              FilterPromise(cfg, data)(rec, FilterOne(cfg, data, region)(rec).row)
  {
    FilterReasonsDiffer();
    WithoutExcludedMeans(rec, data);
    hide InstancesExcluded, WithoutExcluded, IsSavingsPlan;
    assert PoolSizeAccepted(rec, cfg) <==> !BelowPoolSize(cfg)(rec);
    assert Wanted(rec, cfg, region)
      <==> PoolSizeAccepted(rec, cfg) && Admits(region, rec) && PassesDimensions(rec, cfg);
    hide PoolSizeAccepted, Admits, PassesDimensions, Wanted, BelowPoolSize;
  }

  lemma FilterReasonsDiffer()
    ensures MIN_POOL_SIZE != EXTENDED_SUPPORT && MIN_POOL_SIZE != UNRECORDED && EXTENDED_SUPPORT != UNRECORDED
  {
    assert |MIN_POOL_SIZE| == 15 && |EXTENDED_SUPPORT| == 26 && |UNRECORDED| == 0;
  }

  lemma FilteredAsPromised(recs: seq<Rec>, cfg: FilterConfig, data: EngineData, region: string)
    ensures RowByRow(FilterPromise(cfg, data), Filter(Survivors(cfg, data, region), recs),
                     SizedRows(FilterOne(cfg, data, region), recs))
    ensures DropsFor(FilterOne(cfg, data, region), MIN_POOL_SIZE, recs) == |Filter(BelowPoolSize(cfg), recs)|
    ensures DropsFor(FilterOne(cfg, data, region), EXTENDED_SUPPORT, recs)
         == |Filter(OutOfSupport(cfg, data, region), recs)|
  {
    var size := FilterOne(cfg, data, region);
    var promise, kept := FilterPromise(cfg, data), Survivors(cfg, data, region);
    var small, unsupported := BelowPoolSize(cfg), OutOfSupport(cfg, data, region);
    hide FilterOne, FilterPromise, Survivors, BelowPoolSize, OutOfSupport;
    forall r | r in recs
      ensures size(r).Kept? <==> kept(r)
      ensures size(r) == Dropped(MIN_POOL_SIZE) <==> small(r)
      ensures size(r) == Dropped(EXTENDED_SUPPORT) <==> unsupported(r)
      ensures size(r).Kept? ==> promise(r, size(r).row)
    {
      FilterKeepsPromise(r, cfg, data, region);
    }
    KeptAsPromised(size, kept, promise, recs);
    DroppedFor(size, MIN_POOL_SIZE, small, recs);
    DroppedFor(size, EXTENDED_SUPPORT, unsupported, recs);
  }

  method ApplyFilters(recs: seq<Rec>, cfg: FilterConfig, data: EngineData, region: string, drops: DropSummary?)
    returns (filtered: seq<Rec>)
    modifies drops
    ensures filtered == SizedRows(FilterOne(cfg, data, region), recs)
    ensures drops != null ==> forall reason :: reason != UNRECORDED ==>
              Tally(drops.counts, reason)
                == Tally(old(drops.counts), reason) + DropsFor(FilterOne(cfg, data, region), reason, recs)
    ensures RowByRow(FilterPromise(cfg, data), Filter(Survivors(cfg, data, region), recs), filtered)
    ensures drops != null ==>
              && Tally(drops.counts, MIN_POOL_SIZE)
                   == Tally(old(drops.counts), MIN_POOL_SIZE) + |Filter(BelowPoolSize(cfg), recs)|
              && Tally(drops.counts, EXTENDED_SUPPORT)
                   == Tally(old(drops.counts), EXTENDED_SUPPORT) + |Filter(OutOfSupport(cfg, data, region), recs)|
  {
    FilterReasonsDiffer();
    FilteredAsPromised(recs, cfg, data, region);
    filtered := [];
    for i := 0 to |recs|
      invariant filtered == SizedRows(FilterOne(cfg, data, region), recs[..i])
      invariant drops != null ==> forall reason :: reason != UNRECORDED ==>
        Tally(drops.counts, reason)
          == Tally(old(drops.counts), reason) + DropsFor(FilterOne(cfg, data, region), reason, recs[..i])
    {
      var rec := recs[i];
      SizingStepAt(FilterOne(cfg, data, region), recs, i);
      if cfg.minPoolSize > 0.0 && !PoolSizeAccepted(rec, cfg) {
        Add(drops, MIN_POOL_SIZE, 1);
        continue;
      }
      var verdict := Processed(rec, cfg, data, region);
      match verdict
      case Kept(adjusted) => filtered := filtered + [adjusted];
      case Dropped(reason) =>
        if reason != UNRECORDED {
          Add(drops, reason, 1);
        }
    }
    assert recs[..|recs|] == recs;
  }

  // ---- The region sweep -----------------------------------------------------------------

  /** What the passes over `regions`, one after the other, keep of the same fetched rows. */
  function Swept(recs: seq<Rec>, cfg: FilterConfig, data: EngineData, regions: seq<string>): seq<Rec>
  {
    if regions == [] then []
    else SizedRows(FilterOne(cfg, data, regions[0]), recs) + Swept(recs, cfg, data, regions[1..])
  }

  /** A pool below the size floor is counted as dropped by every pass, whatever its region:
      the size check runs before the region check. */
  lemma {:induction false} PoolDropsInEveryPass(recs: seq<Rec>, cfg: FilterConfig, data: EngineData, region: string)
    ensures DropsFor(FilterOne(cfg, data, region), MIN_POOL_SIZE, recs)
         == DropsFor(FilterOne(cfg, data, ""), MIN_POOL_SIZE, recs)
  {
    if recs != [] {
      hide WithoutExcluded, PassesDimensions, PoolSizeAccepted;
      PoolDropsInEveryPass(recs[1..], cfg, data, region);
    }
  }

  function DropsOver(recs: seq<Rec>, cfg: FilterConfig, data: EngineData, reason: string): string -> int
  {
    (region: string) => DropsFor(FilterOne(cfg, data, region), reason, recs)
  }

  method SweepRegions(recs: seq<Rec>, cfg: FilterConfig, data: EngineData, regions: seq<string>, drops: DropSummary?)
    returns (all: seq<Rec>)
    modifies drops
    ensures all == Swept(recs, cfg, data, regions)
    ensures drops != null ==> forall reason :: reason != UNRECORDED ==>
              Tally(drops.counts, reason)
                == Tally(old(drops.counts), reason) + SumInt(DropsOver(recs, cfg, data, reason), regions)
  {
    hide FilterOne, SizedRows, DropsFor, Swept, Tally;
    all := [];
    SweptStart(recs, cfg, data, regions);
    for i := 0 to |regions|
      invariant all + Swept(recs, cfg, data, regions[i..]) == Swept(recs, cfg, data, regions)
      invariant drops != null ==> forall reason :: reason != UNRECORDED ==>
        Tally(drops.counts, reason)
          == Tally(old(drops.counts), reason) + SumInt(DropsOver(recs, cfg, data, reason), regions[..i])
    {
      SweptStep(recs, cfg, data, regions, i, all);
      var filtered := ApplyFilters(recs, cfg, data, regions[i], drops);
      all := all + filtered;
      assert regions[..i + 1] == regions[..i] + [regions[i]];
      forall reason ensures SumInt(DropsOver(recs, cfg, data, reason), regions[..i + 1])
                         == SumInt(DropsOver(recs, cfg, data, reason), regions[..i])
                          + DropsFor(FilterOne(cfg, data, regions[i]), reason, recs)
      {
        SumIntStep(DropsOver(recs, cfg, data, reason), regions[..i], regions[i]);
      }
    }
    assert regions[..|regions|] == regions;
    SweptEnd(recs, cfg, data, regions);
  }

  lemma SweptStart(recs: seq<Rec>, cfg: FilterConfig, data: EngineData, regions: seq<string>)
    ensures [] + Swept(recs, cfg, data, regions[0..]) == Swept(recs, cfg, data, regions)
  {
    assert regions[0..] == regions;
  }

  lemma SweptEnd(recs: seq<Rec>, cfg: FilterConfig, data: EngineData, regions: seq<string>)
    ensures Swept(recs, cfg, data, regions[|regions|..]) == []
  {
  }

  lemma SweptStep(recs: seq<Rec>, cfg: FilterConfig, data: EngineData, regions: seq<string>, i: nat, all: seq<Rec>)
    requires i < |regions|
    ensures all + Swept(recs, cfg, data, regions[i..])
         == all + SizedRows(FilterOne(cfg, data, regions[i]), recs) + Swept(recs, cfg, data, regions[i + 1..])
    ensures Swept(recs, cfg, data, []) == []
  {
    assert regions[i..][0] == regions[i] && regions[i..][1..] == regions[i + 1..];
  }

  /** How many passes look at the row. */
  function PassesOver(rec: Rec, regions: seq<string>): nat
  {
    if regions == [] then 0 else (if Admits(regions[0], rec) then 1 else 0) + PassesOver(rec, regions[1..])
  }

  /** A row accepted as `x` by the unsharded filter counts once for every pass over it. */
  function Share(cfg: FilterConfig, data: EngineData, regions: seq<string>, x: Rec): Rec -> int
  {
    (rec: Rec) => if FilterOne(cfg, data, "")(rec) == Kept(x) then PassesOver(rec, regions) else 0
  }

  lemma ShareMeans(cfg: FilterConfig, data: EngineData, regions: seq<string>, x: Rec, rec: Rec)
    ensures Share(cfg, data, regions, x)(rec)
         == if FilterOne(cfg, data, "")(rec) == Kept(x) then PassesOver(rec, regions) else 0
  {
  }

  lemma ShardAgrees(cfg: FilterConfig, data: EngineData, region: string, rec: Rec, x: Rec)
    ensures FilterOne(cfg, data, region)(rec) == Kept(x)
       <==> Admits(region, rec) && FilterOne(cfg, data, "")(rec) == Kept(x)
  {
    hide WithoutExcluded, PassesDimensions, PoolSizeAccepted;
  }

  lemma {:induction false} OnePass(recs: seq<Rec>, cfg: FilterConfig, data: EngineData, region: string, x: Rec)
    ensures multiset(SizedRows(FilterOne(cfg, data, region), recs))[x] == SumInt(Share(cfg, data, [region], x), recs)
  {
    if recs != [] {
      OnePass(recs[1..], cfg, data, region, x);
      hide FilterOne;
      ShareMeans(cfg, data, [region], x, recs[0]);
      ShardAgrees(cfg, data, region, recs[0], x);
      var rest := SizedRows(FilterOne(cfg, data, region), recs[1..]);
      assert PassesOver(recs[0], [region][1..]) == 0;
      assert PassesOver(recs[0], [region]) == if Admits(region, recs[0]) then 1 else 0;
      match FilterOne(cfg, data, region)(recs[0])
      case Kept(row) => assert multiset([row] + rest)[x] == (if row == x then 1 else 0) + multiset(rest)[x];
      case Dropped(_) =>
    }
  }

  lemma {:induction false} SharesAdd(recs: seq<Rec>, cfg: FilterConfig, data: EngineData, regions: seq<string>, x: Rec)
    requires regions != []
    ensures SumInt(Share(cfg, data, regions, x), recs)
         == SumInt(Share(cfg, data, [regions[0]], x), recs) + SumInt(Share(cfg, data, regions[1..], x), recs)
  {
    if recs != [] {
      hide FilterOne;
      SharesAdd(recs[1..], cfg, data, regions, x);
      ShareMeans(cfg, data, regions, x, recs[0]);
      ShareMeans(cfg, data, [regions[0]], x, recs[0]);
      ShareMeans(cfg, data, regions[1..], x, recs[0]);
      assert PassesOver(recs[0], [regions[0]][1..]) == 0;
    }
  }

  lemma {:induction false} NoShares(recs: seq<Rec>, cfg: FilterConfig, data: EngineData, regions: seq<string>, x: Rec)
    requires regions == []
    ensures SumInt(Share(cfg, data, regions, x), recs) == 0
  {
    if recs != [] {
      hide FilterOne;
      NoShares(recs[1..], cfg, data, regions, x);
      ShareMeans(cfg, data, regions, x, recs[0]);
    }
  }

  /** The sweep against one global filter, for any list of regions: every row the unsharded
      filter accepts appears once for each pass that looks at it, and nothing else does. */
  lemma {:induction false} SweepMultiplicity(recs: seq<Rec>, cfg: FilterConfig, data: EngineData,
                                             regions: seq<string>, x: Rec)
    ensures multiset(Swept(recs, cfg, data, regions))[x] == SumInt(Share(cfg, data, regions, x), recs)
  {
    if regions == [] {
      NoShares(recs, cfg, data, regions, x);
    } else {
      SweepMultiplicity(recs, cfg, data, regions[1..], x);
      OnePass(recs, cfg, data, regions[0], x);
      SharesAdd(recs, cfg, data, regions, x);
    }
  }

  /** A regional row is looked at once per listing of its region, a Savings Plans row once
      per pass. */
  lemma {:induction false} PassesOverRow(rec: Rec, regions: seq<string>)
    requires "" !in regions
    ensures PassesOver(rec, regions) == if IsSavingsPlan(rec.service) then |regions| else multiset(regions)[rec.region]
  {
    if regions != [] {
      PassesOverRow(rec, regions[1..]);
      assert regions == [regions[0]] + regions[1..];
    }
  }

  function InRegions(regions: seq<string>): Rec -> bool
  {
    (rec: Rec) => rec.region in regions
  }

  ghost predicate DuplicateFree(regions: seq<string>)
  {
    forall i, j :: 0 <= i < j < |regions| ==> regions[i] != regions[j]
  }

  lemma {:induction false} DuplicateFreeCounts(regions: seq<string>, region: string)
    requires DuplicateFree(regions)
    ensures multiset(regions)[region] == if region in regions then 1 else 0
  {
    if regions != [] {
      DuplicateFreeCounts(regions[1..], region);
      assert regions == [regions[0]] + regions[1..];
      assert regions[0] !in regions[1..];
    }
  }

  /** Filtering may lower a count, and changes nothing else. */
  lemma FilterKeepsService(rec: Rec, cfg: FilterConfig, data: EngineData, region: string, x: Rec)
    requires FilterOne(cfg, data, region)(rec) == Kept(x)
    ensures x.service == rec.service && x.region == rec.region
  {
    hide PassesDimensions, PoolSizeAccepted;
  }

  lemma KeptOnce(size: Rec -> Sized, rec: Rec, rest: seq<Rec>, x: Rec)
    ensures multiset(SizedRows(size, [rec] + rest))[x]
         == multiset(SizedRows(size, rest))[x] + if size(rec) == Kept(x) then 1 else 0
  {
    assert ([rec] + rest)[1..] == rest;
    var kept := SizedRows(size, rest);
    match size(rec)
    case Kept(row) => assert multiset([row] + kept)[x] == (if row == x then 1 else 0) + multiset(kept)[x];
    case Dropped(_) =>
  }

  lemma {:induction false} RegionalShares(recs: seq<Rec>, cfg: FilterConfig, data: EngineData,
                                          regions: seq<string>, x: Rec)
    requires "" !in regions && DuplicateFree(regions) && !IsSavingsPlan(x.service)
    ensures SumInt(Share(cfg, data, regions, x), recs)
         == multiset(SizedRows(FilterOne(cfg, data, ""), Filter(InRegions(regions), recs)))[x]
  {
    hide FilterOne, SizedRows, IsSavingsPlan, PassesOver, DuplicateFree;
    if recs == [] {
      NothingKept(FilterOne(cfg, data, ""));
    } else {
      var rec, filter := recs[0], FilterOne(cfg, data, "");
      RegionalShares(recs[1..], cfg, data, regions, x);
      ShareMeans(cfg, data, regions, x, rec);
      PassesOverRow(rec, regions);
      DuplicateFreeCounts(regions, rec.region);
      if filter(rec) == Kept(x) {
        FilterKeepsService(rec, cfg, data, "", x);
      }
      KeptOnce(filter, rec, Filter(InRegions(regions), recs[1..]), x);
    }
  }

  lemma {:induction false} PlanShares(recs: seq<Rec>, cfg: FilterConfig, data: EngineData,
                                      regions: seq<string>, x: Rec)
    requires "" !in regions && IsSavingsPlan(x.service)
    ensures SumInt(Share(cfg, data, regions, x), recs)
         == |regions| * multiset(SizedRows(FilterOne(cfg, data, ""), recs))[x]
  {
    hide FilterOne, SizedRows, IsSavingsPlan, PassesOver;
    if recs == [] {
      NothingKept(FilterOne(cfg, data, ""));
    } else {
      var rec, filter := recs[0], FilterOne(cfg, data, "");
      PlanShares(recs[1..], cfg, data, regions, x);
      ShareMeans(cfg, data, regions, x, rec);
      PassesOverRow(rec, regions);
      if filter(rec) == Kept(x) {
        FilterKeepsService(rec, cfg, data, "", x);
      }
      KeptOnce(filter, rec, recs[1..], x);
      assert recs == [rec] + recs[1..];
      OneMore(|regions|, multiset(SizedRows(filter, recs[1..]))[x]);
    }
  }

  lemma OneMore(regions: int, n: int)
    ensures regions * (n + 1) == regions * n + regions
  {
  }

  lemma NothingKept(size: Rec -> Sized)
    ensures SizedRows(size, []) == []
  {
  }

  /** Over a duplicate-free list of regions the sweep of any rows keeps the regional ones exactly as
      one unsharded filter of the rows whose region is listed does, and every Savings Plans row as
      often as there are regions. */
  lemma SweepIsOneFilter(recs: seq<Rec>, cfg: FilterConfig, data: EngineData, regions: seq<string>)
    requires "" !in regions && DuplicateFree(regions)
    ensures forall x: Rec ::
              multiset(Swept(recs, cfg, data, regions))[x]
                == if IsSavingsPlan(x.service)
                   then |regions| * multiset(SizedRows(FilterOne(cfg, data, ""), recs))[x]
                   else multiset(SizedRows(FilterOne(cfg, data, ""), Filter(InRegions(regions), recs)))[x]
  {
    hide FilterOne, SizedRows, IsSavingsPlan, Swept, Filter, Share;
    forall x: Rec
      ensures multiset(Swept(recs, cfg, data, regions))[x]
                == if IsSavingsPlan(x.service)
                   then |regions| * multiset(SizedRows(FilterOne(cfg, data, ""), recs))[x]
                   else multiset(SizedRows(FilterOne(cfg, data, ""), Filter(InRegions(regions), recs)))[x]
    {
      SweepMultiplicity(recs, cfg, data, regions, x);
      if IsSavingsPlan(x.service) {
        PlanShares(recs, cfg, data, regions, x);
      } else {
        RegionalShares(recs, cfg, data, regions, x);
      }
    }
  }

  /** A Savings Plans row survives the sweep once per region, so exactly once only when a
      single region is swept. */
  lemma SweptSavingsPlan(rec: Rec, cfg: FilterConfig, data: EngineData, regions: seq<string>, x: Rec)
    requires IsSavingsPlan(rec.service) && "" !in regions && FilterOne(cfg, data, "")(rec) == Kept(x)
    ensures multiset(Swept([rec], cfg, data, regions))[x] == |regions|
    ensures multiset(Swept([rec], cfg, data, regions))[x] == 1 <==> |regions| == 1
  {
    SweepMultiplicity([rec], cfg, data, regions, x);
    PassesOverRow(rec, regions);
    assert [rec][1..] == [];
  }
}
