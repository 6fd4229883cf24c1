/** Ranking and capping of the rows loaded from `--input-csv`: best savings per instance
    first, so that the instance budget buys the most valuable instances. */
module CsvRanking {
  import opened Types
  import opened Sums
  import opened StableSorting
  import opened Scoring
  import opened InstanceLimit

  /** Higher rate first; equal rates fall back to the Service|Region|ResourceType key. */
  predicate RanksBefore(a: Rec, b: Rec)
  {
    if SavingsPerInstance(a) != SavingsPerInstance(b) then SavingsPerInstance(a) > SavingsPerInstance(b)
    else LexLess(OfferKey(a), OfferKey(b))
  }

  lemma RanksBeforeIsStrictWeakOrder()
    ensures StrictWeakOrder(RanksBefore)
  {
    forall x: Rec ensures !RanksBefore(x, x) {
      LexLessIsTotal(OfferKey(x), OfferKey(x));
    }
    forall x, y, z | RanksBefore(x, y) && RanksBefore(y, z) ensures RanksBefore(x, z) {
      KeyOrderFacts(OfferKey(x), OfferKey(y), OfferKey(z));
    }
    forall x, y, z | !RanksBefore(x, y) && !RanksBefore(y, z) ensures !RanksBefore(x, z) {
      KeyOrderFacts(OfferKey(x), OfferKey(y), OfferKey(z));
    }
  }

  function Ranked(recs: seq<Rec>): seq<Rec> { Sort(RanksBefore, recs) }

  lemma RankedDescends(recs: seq<Rec>)
    ensures var ranked := Ranked(recs);
            forall i, j :: 0 <= i < j < |ranked| ==>
              || SavingsPerInstance(ranked[i]) > SavingsPerInstance(ranked[j])
              || (SavingsPerInstance(ranked[i]) == SavingsPerInstance(ranked[j])
                  && !LexLess(OfferKey(ranked[j]), OfferKey(ranked[i])))
  {
    hide Sort, SavingsPerInstance, LexLess, OfferKey;
    var ranked := Ranked(recs);
    RanksBeforeIsStrictWeakOrder();
    SortIsSorted(RanksBefore, recs);
    forall i, j | 0 <= i < j < |ranked|
      ensures || SavingsPerInstance(ranked[i]) > SavingsPerInstance(ranked[j])
              || (SavingsPerInstance(ranked[i]) == SavingsPerInstance(ranked[j])
                  && !LexLess(OfferKey(ranked[j]), OfferKey(ranked[i])))
    {
      assert !RanksBefore(ranked[j], ranked[i]);
    }
  }

  /** Sorts the caller's slice in place, as the library's stable sort does. */
  method SortBySavingsPerInstance(recs: array<Rec>)
    modifies recs
    ensures recs[..] == Ranked(old(recs[..]))
    ensures forall i, j :: 0 <= i < j < recs.Length ==>
              || SavingsPerInstance(recs[i]) > SavingsPerInstance(recs[j])
              || (SavingsPerInstance(recs[i]) == SavingsPerInstance(recs[j])
                  && !LexLess(OfferKey(recs[j]), OfferKey(recs[i])))
  {
    RankedDescends(recs[..]);
    var sorted := Sort(RanksBefore, recs[..]);
    assert |sorted| == |multiset(recs[..])| == recs.Length;
    forall i | 0 <= i < recs.Length {
      recs[i] := sorted[i];
    }
    assert recs[..] == sorted;
  }

  /** The cap may choose between these rows: it does not bind, or all of them carry savings. */
  predicate HasRankingSignal(recs: seq<Rec>, maxInstances: int)
  {
    CapBinds(recs, maxInstances) ==> forall r :: r in recs ==> r.estimatedSavings > 0.0
  }

  /** The cap is too small for the rows, and some of them cannot be ranked. */
  ghost predicate Refused(recs: seq<Rec>, maxInstances: int)
  {
    && maxInstances > 0 && SumInt(CountOf, recs) > maxInstances
    && exists r :: r in recs && r.estimatedSavings <= 0.0
  }

  /** There is no cap, or the rows fit it as they are. */
  predicate NoCapNeeded(recs: seq<Rec>, maxInstances: int)
  {
    maxInstances <= 0 || SumInt(CountOf, recs) <= maxInstances
  }

  function Unrankable(rec: Rec): int { if rec.estimatedSavings <= 0.0 then 1 else 0 }

  /** Refuses a run whose cap would have to choose between rows it cannot rank, and says
      how many such rows there are. */
  method RequireRankingSignal(recs: seq<Rec>, maxInstances: int) returns (refusal: Option<int>)
    ensures refusal.None? <==> HasRankingSignal(recs, maxInstances)
    ensures refusal.Some? <==>
              && maxInstances > 0 && SumInt(CountOf, recs) > maxInstances
              && exists r :: r in recs && r.estimatedSavings <= 0.0
    ensures refusal.Some? ==> refusal.value == |Filter((r: Rec) => r.estimatedSavings <= 0.0, recs)|
  {
    var total := CalculateTotalInstances(recs);
    if !(maxInstances > 0 && total > maxInstances) {
      return None;
    }
    var unrankable := 0;
    for i := 0 to |recs|
      invariant unrankable >= 0
      invariant unrankable + SumInt(Unrankable, recs[i..]) == SumInt(Unrankable, recs)
      invariant unrankable == 0 <==> forall k :: 0 <= k < i ==> recs[k].estimatedSavings > 0.0
    {
      if recs[i].estimatedSavings <= 0.0 {
        unrankable := unrankable + 1;
      }
      assert recs[i..][1..] == recs[i + 1..];
    }
    if unrankable == 0 {
      return None;
    }
    SumOfOnes(Unrankable, (r: Rec) => r.estimatedSavings <= 0.0, recs);
    return Some(unrankable);
  }

  function FloorConfig(minCount: int): ScorerConfig { ScorerConfig(0.0, 0, minCount, []) }

  /** What the `--min-count` floor may hand on: the rows as they are when it is off, the
      scorer's output when it is on. */
  ghost predicate IsFloorOutput(recs: seq<Rec>, minCount: int, passed: seq<Rec>)
  {
    if minCount <= 0 then passed == recs else IsScored(recs, FloorConfig(minCount), passed)
  }

  /** The row has `minCount` instances or more, if that is asked for. */
  function ReachesFloor(minCount: int): Rec -> bool
  {
    (rec: Rec) => minCount <= 0 || rec.count >= minCount
  }

  /** The floor keeps the rows that reach it, and with it off, all of them. */
  lemma FloorKeeps(recs: seq<Rec>, minCount: int)
    ensures var kept := Filter(ReachesFloor(minCount), recs);
            if minCount <= 0 then kept == recs else kept == Filter(Passes(FloorConfig(minCount)), recs)
  {
    var reaches := ReachesFloor(minCount);
    if minCount <= 0 {
      FilterKeepsAll(reaches, recs);
    } else {
      FilterAgrees(reaches, Passes(FloorConfig(minCount)), recs);
    }
  }

  method ApplyMinCountFloor(recs: array<Rec>, minCount: int) returns (passed: array<Rec>)
    ensures minCount <= 0 ==> passed == recs
    ensures minCount > 0 ==> fresh(passed)
    ensures IsFloorOutput(recs[..], minCount, passed[..])
    ensures multiset(passed[..]) == multiset(Filter(ReachesFloor(minCount), recs[..]))
  {
    FloorKeeps(recs[..], minCount);
    if minCount <= 0 {
      return recs;
    }
    var rows, filtered := Score(recs[..], FloorConfig(minCount));
    passed := new Rec[|rows|](i requires 0 <= i < |rows| => rows[i]);
    assert passed[..] == rows;
  }

  lemma SignalOrRefusal(recs: seq<Rec>, maxInstances: int)
    ensures HasRankingSignal(recs, maxInstances) <==> !Refused(recs, maxInstances)
    ensures NoCapNeeded(recs, maxInstances) ==> !Refused(recs, maxInstances)
  {
  }

  lemma CapOfRanked(recs: seq<Rec>, maxInstances: int, minCount: int)
    ensures NoCapNeeded(recs, maxInstances) ==>
              Cap(Ranked(recs), maxInstances, minCount) == Ranked(recs)
              && multiset(Cap(Ranked(recs), maxInstances, minCount)) == multiset(recs)
  {
    SumIntPermutation(CountOf, recs, Ranked(recs));
  }

  /** Floor, ranking check, ranking, cap. With the floor off the caller's slice itself is
      re-ordered. */
  method ScoreAndLimitCsvRecs(recs: array<Rec>, maxInstances: int, minCount: int)
    returns (kept: Option<seq<Rec>>, ghost passed: seq<Rec>)
    modifies recs
    ensures IsFloorOutput(old(recs[..]), minCount, passed)
    ensures kept == if HasRankingSignal(passed, maxInstances)
                    then Some(Cap(Ranked(passed), maxInstances, minCount)) else None
    ensures Refused(passed, maxInstances) <==> kept.None?
    ensures NoCapNeeded(passed, maxInstances) ==> kept.Some? && multiset(kept.value) == multiset(passed)
    ensures recs[..] == if minCount <= 0 && kept.Some? then Ranked(old(recs[..])) else old(recs[..])
  {
    hide Cap, Ranked, HasRankingSignal, Refused, NoCapNeeded, IsFloorOutput;
    var floored := ApplyMinCountFloor(recs, minCount);
    passed := floored[..];
    SignalOrRefusal(passed, maxInstances);
    CapOfRanked(passed, maxInstances, minCount);
    var refusal := RequireRankingSignal(floored[..], maxInstances);
    if refusal.Some? {
      return None, passed;
    }
    SortBySavingsPerInstance(floored);
    var limited := ApplyGlobalInstanceLimit(floored[..], maxInstances, minCount, null);
    kept := Some(limited);
  }

  // ---- The ranked cap buys the most valuable instances -------------------------------

  /** What the rows return for the instances they buy. */
  function Worth(rec: Rec): real { SavingsPerInstance(rec) * PositiveCount(rec) as real }

  function AllocationWorth(recs: seq<Rec>, x: seq<real>): real
    requires |x| == |recs|
  {
    if recs == [] then 0.0 else SavingsPerInstance(recs[0]) * x[0] + AllocationWorth(recs[1..], x[1..])
  }

  function Spent(x: seq<real>): real
  {
    if x == [] then 0.0 else x[0] + Spent(x[1..])
  }

  /** Some number of instances of each row, whole or not, within what the row offers and
      within the budget. */
  predicate Affordable(recs: seq<Rec>, budget: int, x: seq<real>)
  {
    && |x| == |recs|
    && (forall i :: 0 <= i < |x| ==> 0.0 <= x[i] <= PositiveCount(recs[i]) as real)
    && Spent(x) <= budget as real
  }

  /** The worth of a row beyond a price of `price` for each of its instances. */
  function ExcessOver(price: real): Rec -> real
  {
    (rec: Rec) => Excess(SavingsPerInstance(rec), price, PositiveCount(rec) as real)
  }

  function Excess(rate: real, price: real, count: real): real
  {
    if rate > price then (rate - price) * count else 0.0
  }

  /** Charge every instance of the budget `price` and add what the rows are worth beyond it:
      a bound on every affordable allocation, whatever the price. */
  function PricedBound(recs: seq<Rec>, budget: int, price: real): real
  {
    price * budget as real + SumReal(ExcessOver(price), recs)
  }

  lemma ExcessBound(rate: real, price: real, x: real, count: real)
    requires 0.0 <= x <= count
    ensures rate * x <= price * x + Excess(rate, price, count)
  {
    if rate > price {
      assert (rate - price) * (count - x) >= 0.0;
    } else {
      assert (price - rate) * x >= 0.0;
    }
  }

  /** One row's share of an allocation costs no more than `price` a piece plus the excess. */
  lemma ExcessCovers(rec: Rec, price: real, x: real)
    requires 0.0 <= x <= PositiveCount(rec) as real
    ensures SavingsPerInstance(rec) * x <= price * x + ExcessOver(price)(rec)
  {
    ExcessBound(SavingsPerInstance(rec), price, x, PositiveCount(rec) as real);
  }

  lemma Distribute(price: real, a: real, b: real)
    ensures price * (a + b) == price * a + price * b
  {
  }

  lemma {:induction false} AllocationUnderPrice(recs: seq<Rec>, x: seq<real>, price: real)
    requires |x| == |recs|
    requires forall i :: 0 <= i < |x| ==> 0.0 <= x[i] <= PositiveCount(recs[i]) as real
    ensures AllocationWorth(recs, x) <= price * Spent(x) + SumReal(ExcessOver(price), recs)
  {
    hide Excess, SavingsPerInstance, PositiveCount;
    if recs != [] {
      AllocationUnderPrice(recs[1..], x[1..], price);
      ExcessCovers(recs[0], price, x[0]);
      Distribute(price, x[0], Spent(x[1..]));
    }
  }

  lemma MorePriced(price: real, a: real, b: real)
    requires price >= 0.0 && a <= b
    ensures price * a <= price * b
  {
    assert price * (b - a) >= 0.0;
  }

  lemma EveryPriceBounds(recs: seq<Rec>, budget: int, x: seq<real>, price: real)
    requires Affordable(recs, budget, x) && price >= 0.0
    ensures AllocationWorth(recs, x) <= PricedBound(recs, budget, price)
  {
    hide ExcessOver, AllocationWorth, Spent, SumReal;
    AllocationUnderPrice(recs, x, price);
    MorePriced(price, Spent(x), budget as real);
  }

  predicate RatesDescend(recs: seq<Rec>)
  {
    && (forall i :: 0 <= i < |recs| ==> SavingsPerInstance(recs[i]) >= 0.0)
    && (forall i, j :: 0 <= i < j < |recs| ==> SavingsPerInstance(recs[i]) >= SavingsPerInstance(recs[j]))
  }

  lemma {:induction false} NoExcess(recs: seq<Rec>, price: real)
    requires forall i :: 0 <= i < |recs| ==> SavingsPerInstance(recs[i]) <= price
    ensures SumReal(ExcessOver(price), recs) == 0.0
  {
    if recs != [] {
      NoExcess(recs[1..], price);
    }
  }

  lemma CutRowWorth(rec: Rec, n: int)
    requires 0 < n < rec.count
    ensures Worth(Resized(rec, n)) == SavingsPerInstance(rec) * n as real
  {
    var r := Resized(rec, n);
    ScaledDivision(rec.estimatedSavings, rec.count as real, n as real, r.estimatedSavings);
  }

  lemma WholeRowWorth(recs: seq<Rec>, budget: int)
    requires recs != [] && budget > 0 && PositiveCount(recs[0]) <= budget
    ensures SumReal(Worth, Limit(recs, budget))
         == Worth(recs[0]) + SumReal(Worth, Limit(recs[1..], budget - PositiveCount(recs[0])))
  {
    var rest := Limit(recs[1..], budget - PositiveCount(recs[0]));
    assert Limit(recs, budget) == [recs[0]] + rest;
  }

  lemma WholeRowStep(rate: real, price: real, n: real, left: real, budget: real, excess: real, worth: real)
    requires price <= rate && budget == n + left && worth == price * left + excess
    ensures rate * n + worth == price * budget + (Excess(rate, price, n) + excess)
  {
    if rate > price {
      assert price * budget == price * n + price * left;
      assert Excess(rate, price, n) == rate * n - price * n;
    }
  }

  lemma WholeRow(recs: seq<Rec>, budget: int, price: real)
    requires recs != [] && budget > 0 && PositiveCount(recs[0]) <= budget
    requires 0.0 <= price <= SavingsPerInstance(recs[0])
    requires var left := budget - PositiveCount(recs[0]);
             SumReal(Worth, Limit(recs[1..], left)) == PricedBound(recs[1..], left, price)
    ensures SumReal(Worth, Limit(recs, budget)) == PricedBound(recs, budget, price)
  {
    hide Excess, SavingsPerInstance, PositiveCount, Limit;
    var n, left := PositiveCount(recs[0]), budget - PositiveCount(recs[0]);
    WholeRowWorth(recs, budget);
    var worth := SumReal(Worth, Limit(recs[1..], left));
    WholeRowStep(SavingsPerInstance(recs[0]), price, n as real, left as real, budget as real,
                 SumReal(ExcessOver(price), recs[1..]), worth);
  }

  lemma CutRow(recs: seq<Rec>, budget: int)
    requires recs != [] && 0 < budget < recs[0].count
    ensures SumReal(Worth, Limit(recs, budget)) == SavingsPerInstance(recs[0]) * budget as real
  {
    var cut := Resized(recs[0], budget);
    CutRowWorth(recs[0], budget);
    assert Limit(recs, budget) == [cut] + Limit(recs[1..], 0) == [cut];
    assert [cut][1..] == [];
  }

  /** At the rate of the row where the budget runs out, the bound is attained by the cap. */
  lemma {:induction false} CapAttainsABound(recs: seq<Rec>, budget: int) returns (price: real)
    requires RatesDescend(recs) && budget >= 0
    ensures price >= 0.0 && price <= if recs == [] then 0.0 else SavingsPerInstance(recs[0])
    ensures SumReal(Worth, Limit(recs, budget)) == PricedBound(recs, budget, price)
  {
    if recs == [] {
      price := 0.0;
    } else if recs[0].count > budget || budget == 0 {
      price := SavingsPerInstance(recs[0]);
      NoExcess(recs, price);
      if budget > 0 {
        CutRow(recs, budget);
      }
    } else {
      price := CapAttainsABound(recs[1..], budget - PositiveCount(recs[0]));
      WholeRow(recs, budget, price);
    }
  }

  lemma {:induction false} NonNegativeRates(recs: seq<Rec>, maxInstances: int)
    requires HasRankingSignal(recs, maxInstances) && CapBinds(recs, maxInstances)
    ensures RatesDescend(Ranked(recs))
    ensures forall r :: r in Ranked(recs) ==> r.estimatedSavings > 0.0
  {
    hide Sort, SumInt;
    RanksBeforeIsStrictWeakOrder();
    SortIsSorted(RanksBefore, recs);
    var ranked := Ranked(recs);
    forall i | 0 <= i < |ranked| ensures ranked[i].estimatedSavings > 0.0 && SavingsPerInstance(ranked[i]) >= 0.0 {
      assert ranked[i] in multiset(ranked);
    }
    forall i, j | 0 <= i < j < |ranked| ensures SavingsPerInstance(ranked[i]) >= SavingsPerInstance(ranked[j]) {
      assert !RanksBefore(ranked[j], ranked[i]);
    }
  }

  /** While the rows in descending rate still hold the budget, the cap keeps only rows that
      buy something. */
  lemma {:induction false} KeptRowsBuySomething(recs: seq<Rec>, budget: int)
    requires RatesDescend(recs) && 0 <= budget <= SumInt(PositiveCount, recs)
    requires forall r :: r in recs ==> r.estimatedSavings > 0.0
    ensures forall r :: r in Limit(recs, budget) ==> r.count > 0
  {
    if recs != [] && budget > 0 {
      if recs[0].count <= 0 {
        forall r | r in recs ensures PositiveCount(r) <= Zero(r) {
          var k :| 0 <= k < |recs| && recs[k] == r;
          assert SavingsPerInstance(recs[0]) >= SavingsPerInstance(recs[k]);
          if r.count > 0 {
            PositiveRate(r);
          }
        }
        SumIntBound(PositiveCount, Zero, recs);
        ZeroSum(recs);
        assert false;
      }
      var adjusted := Limit(recs, budget)[0];
      if recs[0].count <= budget {
        KeptRowsBuySomething(recs[1..], budget - Max0(adjusted.count));
      }
      assert Limit(recs, budget) == [adjusted] + Limit(recs[1..], budget - Max0(adjusted.count));
    }
  }

  function Zero(rec: Rec): int { 0 }

  lemma {:induction false} ZeroSum(recs: seq<Rec>)
    ensures SumInt(Zero, recs) == 0
  {
    if recs != [] {
      ZeroSum(recs[1..]);
    }
  }

  lemma PositiveRate(rec: Rec)
    requires rec.count > 0 && rec.estimatedSavings > 0.0
    ensures SavingsPerInstance(rec) > 0.0
  {
  }

  lemma {:induction false} WorthIsSavings(recs: seq<Rec>)
    requires forall r :: r in recs ==> r.count > 0
    ensures SumReal(Worth, recs) == SumReal(SavingsOf, recs)
  {
    if recs != [] {
      WorthIsSavings(recs[1..]);
      assert recs[0].count > 0;
    }
  }

  /** A binding cap with a ranking signal spends exactly its budget, and saves exactly the
      bound at some price. */
  lemma BindingCap(recs: seq<Rec>, maxInstances: int) returns (price: real)
    requires HasRankingSignal(recs, maxInstances) && CapBinds(recs, maxInstances)
    ensures price >= 0.0
    ensures var kept := Limit(Ranked(recs), maxInstances);
            && SumInt(CountOf, kept) == maxInstances
            && SumReal(SavingsOf, kept) == SumReal(Worth, kept) == PricedBound(recs, maxInstances, price)
            && forall r :: r in kept ==> r.count > 0
  {
    var ranked := Ranked(recs);
    var kept := Limit(ranked, maxInstances);
    NonNegativeRates(recs, maxInstances);
    NetAtMostPositive(recs);
    SumIntPermutation(PositiveCount, recs, ranked);
    LimitSpendsTheBudget(ranked, maxInstances);
    KeptRowsBuySomething(ranked, maxInstances);
    NetAtMostPositive(kept);
    WorthIsSavings(kept);
    price := CapAttainsABound(ranked, maxInstances);
    SumRealPermutation(ExcessOver(price), recs, ranked);
  }

  /** Greedy optimality: when the cap binds and the rows can be ranked, no way of spending
      the instance budget on the loaded rows, not even on fractions of instances, saves more
      than what the ranked cap keeps. */
  lemma RankedCapIsOptimal(recs: seq<Rec>, maxInstances: int, x: seq<real>)
    requires HasRankingSignal(recs, maxInstances) && CapBinds(recs, maxInstances)
    requires Affordable(recs, maxInstances, x)
    ensures AllocationWorth(recs, x) <= SumReal(SavingsOf, Limit(Ranked(recs), maxInstances))
  {
    var price := BindingCap(recs, maxInstances);
    EveryPriceBounds(recs, maxInstances, x, price);
  }
}
