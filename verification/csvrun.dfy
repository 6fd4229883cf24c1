/** The CSV path after the cap: group by service and region, deduplicate and floor each
    group, buy. The groups are visited in whatever order the maps yield them. */
module CsvRun {
  import opened Types
  import opened Sums
  import opened Scoring
  import opened InstanceLimit
  import opened CsvRanking
  import opened Dedup
  import opened Filters
  import opened Purchase
  import opened Pipeline

  /** What the run finds outside itself, per service and region. */
  datatype Cloud = Cloud(
    hasClient: (string, string) -> bool,
    commitments: (string, string) -> Option<seq<Commitment>>,
    confirms: (string, string) -> bool,
    attempt: (string, string, nat) -> Attempt,
    now: int,
    keyOf: Rec -> string
  )

  function InGroup(service: string, region: string): Rec -> bool
  {
    (rec: Rec) => rec.service == service && rec.region == region
  }

  type Groups = map<string, map<string, seq<Rec>>>

  function GroupAt(groups: Groups, service: string, region: string): seq<Rec>
  {
    if service in groups then Listed(groups[service], region) else []
  }

  /** The groups partition the rows: each holds the rows of its service and region in order,
      there is one for every service and region that occurs, and no service without rows. */
  ghost predicate Groupings(groups: Groups, recs: seq<Rec>)
  {
    && (forall s, r :: GroupAt(groups, s, r) == Filter(InGroup(s, r), recs))
    && (forall x :: x in recs ==> x.service in groups && x.region in groups[x.service])
    && groups.Keys == ServicesOf(recs)
  }

  function WithRow(groups: Groups, rec: Rec): Groups
  {
    var regions := if rec.service in groups then groups[rec.service] else map[];
    groups[rec.service := regions[rec.region := Listed(regions, rec.region) + [rec]]]
  }

  lemma GroupAtAfter(groups: Groups, rec: Rec, s: string, r: string)
    ensures GroupAt(WithRow(groups, rec), s, r)
         == GroupAt(groups, s, r) + if s == rec.service && r == rec.region then [rec] else []
  {
  }

  lemma GroupKeysAfter(groups: Groups, rec: Rec)
    ensures var after := WithRow(groups, rec);
            && after.Keys == groups.Keys + {rec.service}
            && rec.region in after[rec.service]
            && forall s :: s in groups ==> groups[s].Keys <= after[s].Keys
  {
  }

  lemma GroupingsStep(groups: Groups, recs: seq<Rec>, rec: Rec)
    requires Groupings(groups, recs)
    ensures Groupings(WithRow(groups, rec), recs + [rec])
  {
    var after, all := WithRow(groups, rec), recs + [rec];
    GroupKeysAfter(groups, rec);
    hide GroupAt, WithRow, Filter, ServicesOf;
    forall s, r ensures GroupAt(after, s, r) == Filter(InGroup(s, r), all) {
      assert GroupAt(groups, s, r) == Filter(InGroup(s, r), recs);
      GroupAtAfter(groups, rec, s, r);
      FilterStep(InGroup(s, r), recs, rec);
    }
    ServicesStep(all, |recs|);
    assert all[..|recs|] == recs && all[..|recs| + 1] == all;
  }

  lemma NoGroups()
    ensures Groupings(map[], [])
  {
  }

  method GroupByServiceRegion(recs: seq<Rec>) returns (groups: Groups)
    ensures Groupings(groups, recs)
  {
    hide Groupings;
    groups := map[];
    NoGroups();
    for i := 0 to |recs|
      invariant Groupings(groups, recs[..i])
    {
      var rec := recs[i];
      GroupingsStep(groups, recs[..i], rec);
      ghost var after := WithRow(groups, rec);
      if rec.service !in groups {
        groups := groups[rec.service := map[]];
      }
      var regions := groups[rec.service];
      groups := groups[rec.service := regions[rec.region := Listed(regions, rec.region) + [rec]]];
      assert groups == after;
      assert recs[..i + 1] == recs[..i] + [rec];
    }
    assert recs[..|recs|] == recs;
  }

  /** The rows of a group that get bought, up to their order: what deduplication leaves of
      it, less what it left below the floor. */
  function GroupBuys(group: seq<Rec>, service: string, region: string, minCount: int, cloud: Cloud): seq<Rec>
  {
    if !cloud.hasClient(service, region) then []
    else
      var left := Deduplicated(
        group, cloud.commitments(service, region), cloud.now - DEFAULT_LOOKBACK_HOURS, cloud.keyOf);
      if minCount <= 0 then left else Filter(Passes(FloorConfig(minCount)), left)
  }

  function Buys(recs: seq<Rec>, service: string, region: string, minCount: int, cloud: Cloud): seq<Rec>
  {
    GroupBuys(Filter(InGroup(service, region), recs), service, region, minCount, cloud)
  }

  /** What purchase `j` of a group comes to. */
  function GroupResult(service: string, region: string, j: nat, isDryRun: bool, cloud: Cloud): PurchaseResult
  {
    if isDryRun || cloud.confirms(service, region)
    then ResultOf(cloud.attempt(service, region, j), isDryRun) else PurchaseResult(false, false)
  }

  /** How many purchases of its own group come before purchase `i`. */
  function PlaceInGroup(bought: seq<Rec>, i: nat): nat
    requires i < |bought|
  {
    |Filter(InGroup(bought[i].service, bought[i].region), bought[..i])|
  }

  /** Every purchase has the result that its place in its own group gives it. */
  ghost predicate ResultsMatch(bought: seq<Rec>, results: seq<PurchaseResult>, isDryRun: bool, cloud: Cloud)
  {
    && |results| == |bought|
    && forall i :: 0 <= i < |bought| ==>
         results[i] == GroupResult(bought[i].service, bought[i].region, PlaceInGroup(bought, i), isDryRun, cloud)
  }

  lemma {:induction false} NoneKept(keep: Rec -> bool, recs: seq<Rec>)
    requires forall r :: r in recs ==> !keep(r)
    ensures Filter(keep, recs) == []
  {
    if recs != [] {
      assert recs[0] in recs;
      NoneKept(keep, recs[1..]);
    }
  }

  lemma OneGroupMatches(service: string, region: string, bought: seq<Rec>, results: seq<PurchaseResult>,
                        isDryRun: bool, cloud: Cloud)
    requires |results| == |bought| && forall r :: r in bought ==> r.service == service && r.region == region
    requires forall i :: 0 <= i < |results| ==> results[i] == GroupResult(service, region, i, isDryRun, cloud)
    ensures ResultsMatch(bought, results, isDryRun, cloud)
  {
    hide GroupResult;
    forall i | 0 <= i < |bought| ensures PlaceInGroup(bought, i) == i {
      FilterKeepsAll(InGroup(bought[i].service, bought[i].region), bought[..i]);
    }
  }

  /** Purchases in other groups leave the places alone. */
  lemma PlacesAppend(bought: seq<Rec>, more: seq<Rec>, i: nat)
    requires i < |bought| + |more|
    requires forall a, b :: a in bought && b in more ==> a.service != b.service || a.region != b.region
    ensures PlaceInGroup(bought + more, i)
         == if i < |bought| then PlaceInGroup(bought, i) else PlaceInGroup(more, i - |bought|)
  {
    hide Filter;
    var all := bought + more;
    var group := InGroup(all[i].service, all[i].region);
    if i < |bought| {
      assert all[..i] == bought[..i];
    } else {
      var k := i - |bought|;
      assert all[..i] == bought + more[..k];
      assert all[i] == more[k] && more[k] in more;
      NoneKept(group, bought);
      FilterAppend(group, bought, more[..k]);
    }
  }

  lemma MatchesAppend(bought: seq<Rec>, results: seq<PurchaseResult>, more: seq<Rec>, outcomes: seq<PurchaseResult>,
                      isDryRun: bool, cloud: Cloud)
    requires ResultsMatch(bought, results, isDryRun, cloud) && ResultsMatch(more, outcomes, isDryRun, cloud)
    requires forall a, b :: a in bought && b in more ==> a.service != b.service || a.region != b.region
    ensures ResultsMatch(bought + more, results + outcomes, isDryRun, cloud)
  {
    hide GroupResult, PlaceInGroup;
    var all, done := bought + more, results + outcomes;
    forall i | 0 <= i < |all|
      ensures done[i] == GroupResult(all[i].service, all[i].region, PlaceInGroup(all, i), isDryRun, cloud)
    {
      PlacesAppend(bought, more, i);
      if i < |bought| {
        assert all[i] == bought[i] && done[i] == results[i];
      } else {
        assert all[i] == more[i - |bought|] && done[i] == outcomes[i - |bought|];
      }
    }
  }

  lemma NothingMatches(isDryRun: bool, cloud: Cloud)
    ensures ResultsMatch([], [], isDryRun, cloud)
  {
  }

  lemma FloorOfGroup(left: seq<Rec>, minCount: int, floored: seq<Rec>)
    requires IsFloorOutput(left, minCount, floored)
    ensures multiset(floored) == multiset(if minCount <= 0 then left else Filter(Passes(FloorConfig(minCount)), left))
  {
  }

  /** One group: deduplicate, floor again, buy. */
  method BuyGroup(group: seq<Rec>, service: string, region: string, minCount: int, isDryRun: bool, cloud: Cloud)
    returns (bought: seq<Rec>, results: seq<PurchaseResult>, ghost left: seq<Rec>)
    ensures multiset(bought) == multiset(GroupBuys(group, service, region, minCount, cloud))
    ensures |results| == |bought|
    // Without a client nothing is bought. Otherwise `left` is what the group asks for beyond the purchases of
    // the last day, and what reaches the floor of it is bought.
    ensures !cloud.hasClient(service, region) ==> bought == []
    ensures cloud.hasClient(service, region) ==>
              multiset(bought) == multiset(Filter(ReachesFloor(minCount), left))
    ensures var listing := cloud.commitments(service, region);
            cloud.hasClient(service, region) ==>
              if listing.None? then left == group
              else CountsAreKnown(group, listing.value, cloud.keyOf) ==>
                     PassesBeyondCover(group, listing.value, cloud.now, 24, cloud.keyOf, left)
    ensures forall i :: 0 <= i < |results| ==>
              results[i] == GroupResult(service, region, i, isDryRun, cloud)
  {
    hide Deduplicated, IsFloorOutput, Filter, ResultOf, CountsAreKnown, PassesBeyondCover, ReachesFloor, Passes;
    left := [];
    if !cloud.hasClient(service, region) {
      return [], [], [];
    }
    var adjusted, filtered := AdjustForExisting(group, cloud.commitments(service, region), 0, cloud.now, cloud.keyOf);
    left := adjusted;
    var slice := new Rec[|adjusted|](i requires 0 <= i < |adjusted| => adjusted[i]);
    assert slice[..] == adjusted;
    var floored := ApplyMinCountFloor(slice, minCount);
    bought := floored[..];
    FloorOfGroup(adjusted, minCount, bought);
    results := ProcessPurchaseLoop(bought, isDryRun, cloud.confirms(service, region),
                                   (j: nat) => cloud.attempt(service, region, j));
  }

  lemma GroupBuysShrink(group: seq<Rec>, service: string, region: string, minCount: int, cloud: Cloud)
    requires forall r :: r in group ==> r.service == service && r.region == region
    ensures var buys := GroupBuys(group, service, region, minCount, cloud);
            && SumInt(PositiveCount, buys) <= SumInt(PositiveCount, group)
            && Floored(buys, minCount)
            && forall p :: p in buys ==> p.service == service && p.region == region
  {
    var left := Deduplicated(
      group, cloud.commitments(service, region), cloud.now - DEFAULT_LOOKBACK_HOURS, cloud.keyOf);
    DeduplicatedOnlyShrinks(group, cloud.commitments(service, region), cloud.now - DEFAULT_LOOKBACK_HOURS, cloud.keyOf);
    hide Deduplicated;
    FilterLowersSum(PositiveCount, Passes(FloorConfig(minCount)), left);
    SumIntNonNegative(PositiveCount, group);
  }

  lemma NothingToBuy(recs: seq<Rec>, service: string, region: string, minCount: int, cloud: Cloud)
    requires Filter(InGroup(service, region), recs) == []
    ensures Buys(recs, service, region, minCount, cloud) == []
  {
    hide Deduplicated;
    DeduplicatedOnlyShrinks([], cloud.commitments(service, region), cloud.now - DEFAULT_LOOKBACK_HOURS, cloud.keyOf);
  }

  /** How often `x` is bought when its own group is. */
  function Bought(recs: seq<Rec>, x: Rec, minCount: int, cloud: Cloud): nat
  {
    multiset(Buys(recs, x.service, x.region, minCount, cloud))[x]
  }

  lemma OneGroup(recs: seq<Rec>, service: string, region: string, minCount: int, cloud: Cloud, more: seq<Rec>, x: Rec)
    requires multiset(more) == multiset(Buys(recs, service, region, minCount, cloud))
    ensures multiset(more)[x]
         == if x.service == service && x.region == region then Bought(recs, x, minCount, cloud) else 0
  {
    var buys := Buys(recs, service, region, minCount, cloud);
    GroupBuysShrink(Filter(InGroup(service, region), recs), service, region, minCount, cloud);
    hide GroupBuys;
    assert x in buys <==> x in multiset(buys);
    assert multiset(more)[x] > 0 <==> x in multiset(more);
  }

  lemma OneGroupGuards(recs: seq<Rec>, service: string, region: string, minCount: int, cloud: Cloud, more: seq<Rec>)
    requires multiset(more) == multiset(Buys(recs, service, region, minCount, cloud))
    ensures Floored(more, minCount)
    ensures SumInt(PositiveCount, more) <= SumInt(PositiveCount, Filter(InGroup(service, region), recs))
  {
    var buys := Buys(recs, service, region, minCount, cloud);
    GroupBuysShrink(Filter(InGroup(service, region), recs), service, region, minCount, cloud);
    hide GroupBuys;
    SumIntPermutation(PositiveCount, more, buys);
    forall r ensures r in more <==> r in buys {
      assert r in multiset(more) <==> r in multiset(buys);
    }
  }

  lemma InItsGroup(recs: seq<Rec>, service: string, region: string, minCount: int, cloud: Cloud, more: seq<Rec>)
    requires multiset(more) == multiset(Buys(recs, service, region, minCount, cloud))
    ensures forall r :: r in more ==> r.service == service && r.region == region
  {
    GroupBuysShrink(Filter(InGroup(service, region), recs), service, region, minCount, cloud);
    hide GroupBuys;
    forall r | r in more ensures r in Buys(recs, service, region, minCount, cloud) {
      assert r in multiset(more);
    }
  }

  function InRegionsOf(service: string, regions: set<string>): Rec -> bool
  {
    (rec: Rec) => rec.service == service && rec.region in regions
  }

  function InServices(services: set<string>): Rec -> bool
  {
    (rec: Rec) => rec.service in services
  }

  /** Of one service, the groups outside `pending` have been bought, and nothing else has. */
  ghost predicate BoughtOutside(
    bought: seq<Rec>, recs: seq<Rec>, service: string, pending: set<string>, minCount: int, cloud: Cloud)
  {
    forall x :: multiset(bought)[x]
             == if x.service == service && x.region !in pending then Bought(recs, x, minCount, cloud) else 0
  }

  lemma NotYetBought(bought: seq<Rec>, recs: seq<Rec>, service: string, pending: set<string>, minCount: int,
                     cloud: Cloud)
    requires BoughtOutside(bought, recs, service, pending, minCount, cloud)
    ensures forall r :: r in bought ==> r.service == service && r.region !in pending
  {
    hide Bought;
    forall r | r in bought ensures r.service == service && r.region !in pending {
      assert r in multiset(bought);
    }
  }

  lemma BuyRegionStep(bought: seq<Rec>, recs: seq<Rec>, service: string, pending: set<string>, region: string,
                      more: seq<Rec>, minCount: int, cloud: Cloud)
    requires BoughtOutside(bought, recs, service, pending, minCount, cloud) && region in pending
    requires multiset(more) == multiset(Buys(recs, service, region, minCount, cloud))
    ensures BoughtOutside(bought + more, recs, service, pending - {region}, minCount, cloud)
  {
    hide Bought, Buys;
    forall x ensures multiset(bought + more)[x]
                  == if x.service == service && x.region !in pending - {region}
                      then Bought(recs, x, minCount, cloud) else 0
    {
      OneGroup(recs, service, region, minCount, cloud, more, x);
      assert multiset(bought + more)[x] == multiset(bought)[x] + multiset(more)[x];
    }
  }

  lemma StartOutside(recs: seq<Rec>, groups: Groups, service: string, minCount: int, cloud: Cloud)
    requires Groupings(groups, recs) && service in groups
    ensures BoughtOutside([], recs, service, groups[service].Keys, minCount, cloud)
    ensures Filter(InRegionsOf(service, groups[service].Keys), recs) == Filter(InServices({service}), recs)
  {
    hide Bought;
    StartOfService(recs, groups, service, minCount, cloud);
  }

  /** Buys the groups of one service, region by region in any order. */
  method BuyService(recs: seq<Rec>, groups: Groups, service: string, minCount: int, isDryRun: bool, cloud: Cloud)
    returns (bought: seq<Rec>, results: seq<PurchaseResult>)
    requires Groupings(groups, recs) && service in groups
    ensures BoughtOutside(bought, recs, service, {}, minCount, cloud)
    ensures SumInt(PositiveCount, bought) <= SumInt(PositiveCount, Filter(InServices({service}), recs))
    ensures Floored(bought, minCount) && ResultsMatch(bought, results, isDryRun, cloud)
  {
    hide BoughtOutside, InServices, InRegionsOf, InGroup, Buys, Groupings, Floored, GroupBuys, GroupResult;
    hide ResultsMatch;
    bought, results := [], [];
    var pending := groups[service].Keys;
    NothingMatches(isDryRun, cloud);
    StartOutside(recs, groups, service, minCount, cloud);
    FlooredNothing(minCount);
    while pending != {}
      invariant pending <= groups[service].Keys
      invariant BoughtOutside(bought, recs, service, pending, minCount, cloud)
      invariant SumInt(PositiveCount, bought) + SumInt(PositiveCount, Filter(InRegionsOf(service, pending), recs))
             <= SumInt(PositiveCount, Filter(InServices({service}), recs))
      invariant Floored(bought, minCount) && ResultsMatch(bought, results, isDryRun, cloud)
      decreases pending
    {
      var region :| region in pending;
      GroupLookup(recs, groups, service, region, minCount, cloud);
      var more, outcomes, left := BuyGroup(groups[service][region], service, region, minCount, isDryRun, cloud);
      OneGroupGuards(recs, service, region, minCount, cloud, more);
      FlooredAppend(bought, more, minCount);
      InItsGroup(recs, service, region, minCount, cloud, more);
      OneGroupMatches(service, region, more, outcomes, isDryRun, cloud);
      NotYetBought(bought, recs, service, pending, minCount, cloud);
      MatchesAppend(bought, results, more, outcomes, isDryRun, cloud);
      BuyRegionStep(bought, recs, service, pending, region, more, minCount, cloud);
      SumIntAppend(PositiveCount, bought, more);
      LeaveRegion(recs, service, pending, region);
      bought := bought + more;
      results := results + outcomes;
      pending := pending - {region};
    }
    SumIntNonNegative(PositiveCount, Filter(InRegionsOf(service, pending), recs));
  }

  lemma GroupLookup(recs: seq<Rec>, groups: Groups, service: string, region: string, minCount: int, cloud: Cloud)
    requires Groupings(groups, recs) && service in groups && region in groups[service]
    ensures GroupBuys(groups[service][region], service, region, minCount, cloud)
         == Buys(recs, service, region, minCount, cloud)
    ensures SumInt(PositiveCount, Filter(InGroup(service, region), recs)) >= 0
  {
    assert GroupAt(groups, service, region) == groups[service][region];
    SumIntNonNegative(PositiveCount, Filter(InGroup(service, region), recs));
  }

  lemma LeaveRegion(recs: seq<Rec>, service: string, regions: set<string>, region: string)
    requires region in regions
    ensures SumInt(PositiveCount, Filter(InRegionsOf(service, regions), recs))
         == SumInt(PositiveCount, Filter(InGroup(service, region), recs))
          + SumInt(PositiveCount, Filter(InRegionsOf(service, regions - {region}), recs))
  {
    SplitFilter(PositiveCount, InRegionsOf(service, regions), InGroup(service, region),
                InRegionsOf(service, regions - {region}), recs);
  }

  lemma StartOfService(recs: seq<Rec>, groups: Groups, service: string, minCount: int, cloud: Cloud)
    requires Groupings(groups, recs) && service in groups
    ensures Filter(InRegionsOf(service, groups[service].Keys), recs) == Filter(InServices({service}), recs)
    ensures forall x: Rec :: x.service == service && x.region !in groups[service].Keys ==>
        Bought(recs, x, minCount, cloud) == 0
  {
    FilterAgree(InRegionsOf(service, groups[service].Keys), InServices({service}), recs);
    hide Buys;
    forall x: Rec | x.service == service && x.region !in groups[service].Keys
      ensures Bought(recs, x, minCount, cloud) == 0
    {
      assert GroupAt(groups, x.service, x.region) == [];
      NothingToBuy(recs, x.service, x.region, minCount, cloud);
    }
  }

  /** The statistics of what was bought for each service. */
  ghost predicate StatsMatch(stats: map<string, ServiceStats>, bought: seq<Rec>, results: seq<PurchaseResult>)
  {
    forall s :: s in stats ==> stats[s] == StatsOf(RowsOf(s, bought), ResultsOf(s, bought, results))
  }

  /** Buys every group. Whatever order the services and regions come in, the same rows are
      bought: each as often as the deduplication and floor of its own group leave it. No more
      instances are bought than were handed over, each row clears the floor, and the statistics
      have an entry for every service handed over and count every purchase. */
  method BuyGroups(recs: seq<Rec>, minCount: int, isDryRun: bool, cloud: Cloud)
    returns (bought: seq<Rec>, results: seq<PurchaseResult>, stats: map<string, ServiceStats>)
    ensures forall x :: multiset(bought)[x] == Bought(recs, x, minCount, cloud)
    ensures SumInt(PositiveCount, bought) <= SumInt(PositiveCount, recs)
    ensures Floored(bought, minCount) && ResultsMatch(bought, results, isDryRun, cloud)
    ensures stats.Keys == ServicesOf(recs) && StatsMatch(stats, bought, results)
    ensures SumOver(Purchase.Field(stats, SuccessesOf), stats.Keys)
          + SumOver(Purchase.Field(stats, FailuresOf), stats.Keys) == |results|
  {
    hide Bought, BoughtOutside, BoughtBesides, InServices, Groupings, StatsOf, RowsOf, ResultsOf, Floored;
    hide ResultsMatch, StatsMatch, ServicesOf;
    var groups := GroupByServiceRegion(recs);
    bought, results, stats := [], [], map[];
    var pending := groups.Keys;
    StartBesides(recs, groups, minCount, cloud);
    FlooredNothing(minCount);
    NothingMatches(isDryRun, cloud);
    NoStats();
    while pending != {}
      invariant pending <= groups.Keys && stats.Keys == groups.Keys - pending
      invariant forall r :: r in bought ==> r.service in stats
      invariant BoughtBesides(bought, recs, pending, minCount, cloud)
      invariant SumInt(PositiveCount, bought) + SumInt(PositiveCount, Filter(InServices(pending), recs))
             <= SumInt(PositiveCount, recs)
      invariant Floored(bought, minCount) && ResultsMatch(bought, results, isDryRun, cloud)
      invariant |results| == |bought| && StatsMatch(stats, bought, results)
      decreases pending
    {
      var service :| service in pending;
      var rows, outcomes := BuyService(recs, groups, service, minCount, isDryRun, cloud);
      MatchLength(rows, outcomes, isDryRun, cloud);
      NotYetBought(rows, recs, service, {}, minCount, cloud);
      var one := CalculateServiceStats(rows, outcomes);
      StatsMatchStep(stats, bought, results, service, rows, outcomes);
      MatchesAppend(bought, results, rows, outcomes, isDryRun, cloud);
      BuyServiceStep(bought, recs, pending, service, rows, minCount, cloud);
      RowsOfRun(bought, rows, stats, service, one);
      SumIntAppend(PositiveCount, bought, rows);
      LeaveService(recs, pending, service);
      FlooredAppend(bought, rows, minCount);
      stats := stats[service := one];
      bought := bought + rows;
      results := results + outcomes;
      pending := pending - {service};
    }
    AllServicesBought(bought, recs, minCount, cloud);
    SumIntNonNegative(PositiveCount, Filter(InServices(pending), recs));
    EveryPurchaseCounted(stats, bought, results);
  }

  /** The groups of the services outside `pending` have been bought, and nothing else has. */
  ghost predicate BoughtBesides(bought: seq<Rec>, recs: seq<Rec>, pending: set<string>, minCount: int, cloud: Cloud)
  {
    forall x :: multiset(bought)[x] == if x.service !in pending then Bought(recs, x, minCount, cloud) else 0
  }

  lemma BuyServiceStep(bought: seq<Rec>, recs: seq<Rec>, pending: set<string>, service: string, rows: seq<Rec>,
                       minCount: int, cloud: Cloud)
    requires BoughtBesides(bought, recs, pending, minCount, cloud) && service in pending
    requires BoughtOutside(rows, recs, service, {}, minCount, cloud)
    ensures BoughtBesides(bought + rows, recs, pending - {service}, minCount, cloud)
  {
    hide Bought;
    forall x ensures multiset(bought + rows)[x]
                  == if x.service !in pending - {service} then Bought(recs, x, minCount, cloud) else 0
    {
      assert multiset(bought + rows)[x] == multiset(bought)[x] + multiset(rows)[x];
    }
  }

  lemma AllServicesBought(bought: seq<Rec>, recs: seq<Rec>, minCount: int, cloud: Cloud)
    requires BoughtBesides(bought, recs, {}, minCount, cloud)
    ensures forall x :: multiset(bought)[x] == Bought(recs, x, minCount, cloud)
  {
    hide Bought;
  }

  lemma StartBesides(recs: seq<Rec>, groups: Groups, minCount: int, cloud: Cloud)
    requires Groupings(groups, recs)
    ensures BoughtBesides([], recs, groups.Keys, minCount, cloud)
    ensures groups.Keys == ServicesOf(recs) && Filter(InServices(groups.Keys), recs) == recs
  {
    hide Bought;
    StartOfRun(recs, groups, minCount, cloud);
  }

  lemma RowsOfRun(bought: seq<Rec>, rows: seq<Rec>, stats: map<string, ServiceStats>, service: string,
                  one: ServiceStats)
    requires forall r :: r in bought ==> r.service in stats
    requires forall r :: r in rows ==> r.service == service
    ensures forall r :: r in bought + rows ==> r.service in stats[service := one]
  {
  }

  lemma NoStats()
    ensures StatsMatch(map[], [], [])
  {
  }

  lemma MatchLength(bought: seq<Rec>, results: seq<PurchaseResult>, isDryRun: bool, cloud: Cloud)
    requires ResultsMatch(bought, results, isDryRun, cloud)
    ensures |results| == |bought|
  {
  }

  lemma StatsMatchStep(stats: map<string, ServiceStats>, bought: seq<Rec>, results: seq<PurchaseResult>,
                       service: string, rows: seq<Rec>, outcomes: seq<PurchaseResult>)
    requires StatsMatch(stats, bought, results) && service !in stats
    requires |results| == |bought| && |outcomes| == |rows|
    requires forall r :: r in bought ==> r.service in stats
    requires forall r :: r in rows ==> r.service == service
    ensures StatsMatch(stats[service := StatsOf(rows, outcomes)], bought + rows, results + outcomes)
  {
    hide StatsOf, RowsOf, ResultsOf;
    var after := stats[service := StatsOf(rows, outcomes)];
    forall s | s in after
      ensures after[s] == StatsOf(RowsOf(s, bought + rows), ResultsOf(s, bought + rows, results + outcomes))
    {
      AnotherService(bought, results, service, rows, outcomes, s);
    }
  }

  lemma EveryPurchaseCounted(stats: map<string, ServiceStats>, bought: seq<Rec>, results: seq<PurchaseResult>)
    requires StatsMatch(stats, bought, results) && |results| == |bought|
    requires forall r :: r in bought ==> r.service in stats
    ensures SumOver(Purchase.Field(stats, SuccessesOf), stats.Keys)
          + SumOver(Purchase.Field(stats, FailuresOf), stats.Keys) == |results|
  {
    hide StatsOf, RowsOf, ResultsOf;
    forall s | s in ServicesOf(bought) ensures s in stats {
      var i :| 0 <= i < |bought| && bought[i].service == s;
      assert bought[i] in bought;
    }
    CountedOnce(bought, results, stats);
  }

  lemma FlooredAppend(a: seq<Rec>, b: seq<Rec>, minCount: int)
    requires Floored(a, minCount) && Floored(b, minCount)
    ensures Floored(a + b, minCount)
  {
  }

  lemma FlooredNothing(minCount: int)
    ensures Floored([], minCount)
  {
  }

  lemma LeaveService(recs: seq<Rec>, services: set<string>, service: string)
    requires service in services
    ensures SumInt(PositiveCount, Filter(InServices(services), recs))
         == SumInt(PositiveCount, Filter(InServices({service}), recs))
          + SumInt(PositiveCount, Filter(InServices(services - {service}), recs))
  {
    SplitFilter(PositiveCount, InServices(services), InServices({service}), InServices(services - {service}), recs);
  }

  lemma StartOfRun(recs: seq<Rec>, groups: Groups, minCount: int, cloud: Cloud)
    requires Groupings(groups, recs)
    ensures groups.Keys == ServicesOf(recs) && Filter(InServices(groups.Keys), recs) == recs
    ensures forall x: Rec :: x.service !in groups.Keys ==> Bought(recs, x, minCount, cloud) == 0
  {
    FilterKeepsAll(InServices(groups.Keys), recs);
    hide Buys;
    forall x: Rec | x.service !in groups.Keys ensures Bought(recs, x, minCount, cloud) == 0 {
      assert GroupAt(groups, x.service, x.region) == [];
      NothingToBuy(recs, x.service, x.region, minCount, cloud);
    }
  }

  /** A whole CSV run. A run that cannot be ranked buys nothing. Otherwise it buys what
      deduplication and floor leave of each group of the capped rows, whatever order the groups
      come in; every purchase clears the floor, and the purchases together fit the cap whenever the counts that reach
      it cannot be negative, which a floor, the extended-support filter or the file ensures. */
  method RunToolFromCsv(loaded: seq<Rec>, filters: FilterConfig, data: EngineData, cfg: RunConfig, cloud: Cloud)
    returns (bought: seq<Rec>, results: seq<PurchaseResult>, stats: map<string, ServiceStats>,
             ghost passed: seq<Rec>, ghost kept: Option<seq<Rec>>)
    ensures IsFloorOutput(Prepared(loaded, filters, data, cfg), cfg.minCount, passed)
    // The run is refused only if the floored rows exceed the cap and some of them cannot be ranked. Rows that
    // fit it are all handed on.
    ensures kept.None? <==>
              && cfg.maxInstances > 0 && SumInt(CountOf, passed) > cfg.maxInstances
              && exists r :: r in passed && r.estimatedSavings <= 0.0
    ensures cfg.maxInstances <= 0 || SumInt(CountOf, passed) <= cfg.maxInstances ==>
              kept.Some? && multiset(kept.value) == multiset(passed)
    ensures kept.Some? ==> kept.value == Cap(Ranked(passed), cfg.maxInstances, cfg.minCount)
    ensures kept.None? ==> bought == [] && stats == map[]
    ensures kept.Some? ==>
              && (forall x :: multiset(bought)[x] == Bought(kept.value, x, cfg.minCount, cloud))
              && stats.Keys == ServicesOf(kept.value)
    ensures ResultsMatch(bought, results, cfg.isDryRun, cloud) && StatsMatch(stats, bought, results)
    ensures SumOver(Purchase.Field(stats, SuccessesOf), stats.Keys)
          + SumOver(Purchase.Field(stats, FailuresOf), stats.Keys) == |results|
    ensures Floored(bought, cfg.minCount)
    ensures cfg.maxInstances > 0 && CountsAreSafe(loaded, filters, cfg) ==>
              SumInt(PositiveCount, bought) <= cfg.maxInstances
  {
    hide Cap, Bought, IsFloorOutput, HasRankingSignal, Prepared, ResultsMatch, StatsMatch, ServicesOf;
    var limited;
    limited, passed := FilterAndAdjust(loaded, filters, data, cfg);
    kept := limited;
    if limited.None? {
      SumOfNothing();
      NothingMatches(cfg.isDryRun, cloud);
      NoStats();
      return [], [], map[], passed, limited;
    }
    bought, results, stats := BuyGroups(limited.value, cfg.minCount, cfg.isDryRun, cloud);
  }
}
