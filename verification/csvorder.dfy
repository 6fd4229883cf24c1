/** What the order of the rows in an `--input-csv` file can and cannot change. */
module CsvOrder {
  import opened Types
  import opened Sums
  import opened StableSorting
  import opened Scoring
  import opened InstanceLimit
  import opened CsvRanking

  /** The order the scorer and the ranking produce together: rate, key, savings percentage,
      whole-row savings. */
  predicate CapOrder(a: Rec, b: Rec)
  {
    if SavingsPerInstance(a) != SavingsPerInstance(b) || OfferKey(a) != OfferKey(b) then RanksBefore(a, b)
    else ScoresBefore(a, b)
  }

  lemma CapOrderIsStrictWeakOrder()
    ensures StrictWeakOrder(CapOrder)
  {
    hide LexLess, SavingsPerInstance, OfferKey;
    forall x: Rec ensures !CapOrder(x, x) {
      LexLessIsTotal(OfferKey(x), OfferKey(x));
    }
    forall x, y, z | CapOrder(x, y) && CapOrder(y, z) ensures CapOrder(x, z) {
      OrderOnKeys(x, y, z);
    }
    forall x, y, z | !CapOrder(x, y) && !CapOrder(y, z) ensures !CapOrder(x, z) {
      OrderOnKeys(x, y, z);
    }
  }

  lemma OrderOnKeys(x: Rec, y: Rec, z: Rec)
    ensures CapOrder(x, y) && CapOrder(y, z) ==> CapOrder(x, z)
    ensures !CapOrder(x, y) && !CapOrder(y, z) ==> !CapOrder(x, z)
  {
    hide LexLess, SavingsPerInstance, OfferKey;
    var a, b, c := OfferKey(x), OfferKey(y), OfferKey(z);
    KeyOrderFacts(a, b, c);
    KeyOrderFacts(b, a, c);
    KeyOrderFacts(a, c, b);
    LexLessIsTotal(a, b);
    LexLessIsTotal(b, c);
    LexLessIsTotal(a, c);
  }

  /** Once the scorer has run, the stable ranking sorts by the combined order. */
  lemma ScoredThenRanked(passed: seq<Rec>)
    requires Sorted(ScoresBefore, passed)
    ensures Sorted(CapOrder, Ranked(passed))
  {
    hide LexLess, SavingsPerInstance, OfferKey;
    var ranked := Ranked(passed);
    RanksBeforeIsStrictWeakOrder();
    SortIsSorted(RanksBefore, passed);
    SortKeepsInnerOrder(RanksBefore, ScoresBefore, passed);
    forall i, j | 0 <= i < j < |ranked| ensures !CapOrder(ranked[j], ranked[i]) {
      var a, b := ranked[i], ranked[j];
      assert !RanksBefore(b, a);
      if SavingsPerInstance(a) == SavingsPerInstance(b) && OfferKey(a) == OfferKey(b) {
        LexLessIsTotal(OfferKey(a), OfferKey(b));
        assert Tied(RanksBefore, a, b);
      }
    }
  }

  /** Two rows buy and save the same. */
  predicate SameBuy(a: Rec, b: Rec)
  {
    a.count == b.count && a.estimatedSavings == b.estimatedSavings
  }

  ghost predicate SameBuys(a: seq<Rec>, b: seq<Rec>)
  {
    |a| == |b| && forall i :: 0 <= i < |a| ==> SameBuy(a[i], b[i])
  }

  lemma SameRateSameCount(a: Rec, b: Rec)
    requires a.count > 0 && b.count > 0 && a.estimatedSavings == b.estimatedSavings > 0.0
    requires SavingsPerInstance(a) == SavingsPerInstance(b)
    ensures a.count == b.count
  {
    var s, m, n, q := a.estimatedSavings, a.count as real, b.count as real, SavingsPerInstance(a);
    assert q * m == s && q * n == s;
    assert q * (m - n) == 0.0;
    assert q > 0.0;
  }

  lemma TiedRowsBuyTheSame(a: Rec, b: Rec)
    requires a.count > 0 && b.count > 0 && a.estimatedSavings > 0.0
    requires Tied(CapOrder, a, b)
    ensures SameBuy(a, b)
  {
    hide LexLess, SavingsPerInstance, OfferKey;
    LexLessIsTotal(OfferKey(a), OfferKey(b));
    assert SavingsPerInstance(a) == SavingsPerInstance(b);
    SameRateSameCount(a, b);
  }

  lemma {:induction false} SameBuysSameLimit(a: seq<Rec>, b: seq<Rec>, remaining: int)
    requires SameBuys(a, b)
    ensures SameBuys(Limit(a, remaining), Limit(b, remaining))
  {
    if a != [] && remaining > 0 {
      hide ScaleCosts;
      var x, y := Limit(a, remaining)[0], Limit(b, remaining)[0];
      ResizedAlike(a[0], b[0], remaining);
      assert SameBuy(x, y);
      SameBuysSameLimit(a[1..], b[1..], remaining - Max0(x.count));
      assert Limit(a, remaining) == [x] + Limit(a[1..], remaining - Max0(x.count));
      assert Limit(b, remaining) == [y] + Limit(b[1..], remaining - Max0(x.count));
    }
  }

  lemma ResizedAlike(a: Rec, b: Rec, n: int)
    requires SameBuy(a, b)
    ensures a.count != 0 ==> SameBuy(Resized(a, n), Resized(b, n))
  {
  }

  lemma {:induction false} SameBuysSameTail(a: seq<Rec>, b: seq<Rec>, minCount: int)
    requires SameBuys(a, b)
    ensures SameBuys(DropTail(a, minCount), DropTail(b, minCount))
  {
    if a != [] {
      SameBuysSameTail(a[..|a| - 1], b[..|b| - 1], minCount);
    }
  }

  lemma {:induction false} SameBuysSameTotals(a: seq<Rec>, b: seq<Rec>)
    requires SameBuys(a, b)
    ensures SumInt(CountOf, a) == SumInt(CountOf, b)
    ensures SumReal(SavingsOf, a) == SumReal(SavingsOf, b)
  {
    if a != [] {
      assert SameBuy(a[0], b[0]);
      SameBuysSameTotals(a[1..], b[1..]);
    }
  }

  /** Two runs of the scorer on the same rows, in any order, keep the same rows. */
  lemma FloorKeepsTheSameRows(recs: seq<Rec>, recs': seq<Rec>, minCount: int, passed: seq<Rec>, passed': seq<Rec>)
    requires multiset(recs) == multiset(recs')
    requires IsFloorOutput(recs, minCount, passed) && IsFloorOutput(recs', minCount, passed')
    ensures multiset(passed) == multiset(passed')
    ensures Floored(passed, minCount)
  {
    if minCount > 0 {
      FilterPermutation(Passes(FloorConfig(minCount)), recs, recs');
      forall r | r in passed ensures r.count >= minCount {
        ScoredRow(recs, FloorConfig(minCount), passed, r);
      }
    }
  }

  lemma SignalIsOrderFree(a: seq<Rec>, b: seq<Rec>, maxInstances: int)
    requires multiset(a) == multiset(b)
    ensures CapBinds(a, maxInstances) <==> CapBinds(b, maxInstances)
    ensures HasRankingSignal(a, maxInstances) <==> HasRankingSignal(b, maxInstances)
  {
    SumIntPermutation(CountOf, a, b);
    assert forall r :: r in a <==> r in multiset(a);
    assert forall r :: r in b <==> r in multiset(b);
  }

  lemma UnflooredTotals(a: seq<Rec>, b: seq<Rec>, maxInstances: int)
    requires multiset(a) == multiset(b)
    requires CapBinds(a, maxInstances) && HasRankingSignal(a, maxInstances)
    ensures var kept, kept' := Limit(Ranked(a), maxInstances), Limit(Ranked(b), maxInstances);
            && SumInt(CountOf, kept) == SumInt(CountOf, kept')
            && SumReal(SavingsOf, kept) == SumReal(SavingsOf, kept')
  {
    SignalIsOrderFree(a, b, maxInstances);
    var price := BindingCap(a, maxInstances);
    var price' := BindingCap(b, maxInstances);
    NoBoundBeatsTheCap(a, maxInstances, price');
    NoBoundBeatsTheCap(b, maxInstances, price);
    BoundIsOrderFree(a, b, maxInstances, price);
    BoundIsOrderFree(a, b, maxInstances, price');
  }

  lemma BoundIsOrderFree(a: seq<Rec>, b: seq<Rec>, budget: int, price: real)
    requires multiset(a) == multiset(b)
    ensures PricedBound(a, budget, price) == PricedBound(b, budget, price)
  {
    SumRealPermutation(ExcessOver(price), a, b);
  }

  /** What the cap keeps is itself an affordable allocation, so it is under every bound. */
  lemma NoBoundBeatsTheCap(recs: seq<Rec>, maxInstances: int, price: real)
    requires HasRankingSignal(recs, maxInstances) && CapBinds(recs, maxInstances) && price >= 0.0
    ensures SumReal(SavingsOf, Limit(Ranked(recs), maxInstances)) <= PricedBound(recs, maxInstances, price)
  {
    hide PricedBound, SumReal, Limit;
    var ranked := Ranked(recs);
    var own := BindingCap(recs, maxInstances);
    LimitUnderPrice(ranked, maxInstances, price);
    BoundIsOrderFree(recs, ranked, maxInstances, price);
  }

  lemma CutUnderPrice(recs: seq<Rec>, budget: int, price: real)
    requires recs != [] && 0 < budget < recs[0].count
    ensures SumReal(Worth, Limit(recs, budget)) <= PricedBound(recs, budget, price)
  {
    hide SavingsPerInstance, Excess, Limit;
    CutRow(recs, budget);
    ExcessNonNegative(recs[1..], price);
    ExcessCovers(recs[0], price, budget as real);
  }

  lemma WholeUnderPrice(recs: seq<Rec>, budget: int, price: real)
    requires recs != [] && budget > 0 && PositiveCount(recs[0]) <= budget
    requires var left := budget - PositiveCount(recs[0]);
             SumReal(Worth, Limit(recs[1..], left)) <= PricedBound(recs[1..], left, price)
    ensures SumReal(Worth, Limit(recs, budget)) <= PricedBound(recs, budget, price)
  {
    hide SavingsPerInstance, Excess, Limit, PositiveCount;
    var n := PositiveCount(recs[0]);
    WholeRowWorth(recs, budget);
    CountNonNegative(recs[0]);
    ExcessCovers(recs[0], price, n as real);
    Distribute(price, n as real, (budget - n) as real);
  }

  lemma CountNonNegative(rec: Rec)
    ensures PositiveCount(rec) >= 0
  {
  }

  lemma {:induction false} LimitUnderPrice(recs: seq<Rec>, budget: int, price: real)
    requires price >= 0.0 && budget >= 0
    ensures SumReal(Worth, Limit(recs, budget)) <= PricedBound(recs, budget, price)
  {
    hide SavingsPerInstance, Excess, Resized;
    ExcessNonNegative(recs, price);
    if recs == [] || budget == 0 {
      MorePriced(price, 0.0, budget as real);
    } else if recs[0].count > budget {
      CutUnderPrice(recs, budget, price);
    } else {
      LimitUnderPrice(recs[1..], budget - PositiveCount(recs[0]), price);
      WholeUnderPrice(recs, budget, price);
    }
  }

  lemma {:induction false} ExcessNonNegative(recs: seq<Rec>, price: real)
    ensures SumReal(ExcessOver(price), recs) >= 0.0
  {
    if recs != [] {
      ExcessNonNegative(recs[1..], price);
      ExcessSign(SavingsPerInstance(recs[0]), price, PositiveCount(recs[0]) as real);
    }
  }

  lemma ExcessSign(rate: real, price: real, count: real)
    requires count >= 0.0
    ensures Excess(rate, price, count) >= 0.0
  {
  }

  lemma FlooredTotals(a: seq<Rec>, b: seq<Rec>, maxInstances: int, minCount: int)
    requires multiset(a) == multiset(b) && minCount > 0 && Floored(a, minCount)
    requires Sorted(ScoresBefore, a) && Sorted(ScoresBefore, b)
    requires CapBinds(a, maxInstances) && HasRankingSignal(a, maxInstances)
    ensures SameBuys(Cap(Ranked(a), maxInstances, minCount), Cap(Ranked(b), maxInstances, minCount))
  {
    var ra, rb := Ranked(a), Ranked(b);
    ScoredThenRanked(a);
    ScoredThenRanked(b);
    CapOrderIsStrictWeakOrder();
    SortedPermutationsTiePointwise(CapOrder, ra, rb);
    forall i | 0 <= i < |ra| ensures SameBuy(ra[i], rb[i]) {
      assert ra[i] in multiset(ra) && rb[i] in multiset(rb);
      assert ra[i] in a && rb[i] in a;
      TiedRowsBuyTheSame(ra[i], rb[i]);
    }
    SumIntPermutation(CountOf, a, ra);
    SumIntPermutation(CountOf, a, rb);
    SameBuysSameLimit(ra, rb, maxInstances);
    SameBuysSameTail(Limit(ra, maxInstances), Limit(rb, maxInstances), minCount);
  }

  /** File-order independence: whatever order the file lists its rows in, and however the
      scorer resolves its own ties, the run is refused or not alike, and when it is not, it
      keeps the same number of instances and the same savings. */
  lemma FileOrderDecidesNoTotals(
      recs: seq<Rec>, recs': seq<Rec>, passed: seq<Rec>, passed': seq<Rec>, maxInstances: int, minCount: int)
    requires multiset(recs) == multiset(recs')
    requires IsFloorOutput(recs, minCount, passed) && IsFloorOutput(recs', minCount, passed')
    ensures HasRankingSignal(passed, maxInstances) <==> HasRankingSignal(passed', maxInstances)
    ensures HasRankingSignal(passed, maxInstances) ==>
              var kept := Cap(Ranked(passed), maxInstances, minCount);
              var kept' := Cap(Ranked(passed'), maxInstances, minCount);
              && SumInt(CountOf, kept) == SumInt(CountOf, kept')
              && SumReal(SavingsOf, kept) == SumReal(SavingsOf, kept')
  {
    FloorKeepsTheSameRows(recs, recs', minCount, passed, passed');
    SignalIsOrderFree(passed, passed', maxInstances);
    SignalIsOrderFree(passed, Ranked(passed), maxInstances);
    SignalIsOrderFree(passed', Ranked(passed'), maxInstances);
    if !CapBinds(passed, maxInstances) {
      SumIntPermutation(CountOf, Ranked(passed), Ranked(passed'));
      SumRealPermutation(SavingsOf, Ranked(passed), Ranked(passed'));
    } else if HasRankingSignal(passed, maxInstances) {
      if minCount <= 0 {
        UnflooredTotals(passed, passed', maxInstances);
      } else {
        FlooredTotals(passed, passed', maxInstances, minCount);
        SameBuysSameTotals(Cap(Ranked(passed), maxInstances, minCount), Cap(Ranked(passed'), maxInstances, minCount));
      }
    }
  }

  // ---- When the rows themselves are decided ---------------------------------------------------

  /** What the run hands on: nothing when it is refused. */
  ghost function RunKeeps(passed: seq<Rec>, maxInstances: int, minCount: int): Option<seq<Rec>>
  {
    if HasRankingSignal(passed, maxInstances) then Some(Cap(Ranked(passed), maxInstances, minCount)) else None
  }

  /** Whatever order the file lists its rows in, however the scorer resolves its ties, and
      whatever the cap, the run hands on the same rows in the same order, or is refused alike. */
  ghost predicate FileOrderDecidesNothing(recs: seq<Rec>, minCount: int)
  {
    forall recs', passed, passed', maxInstances ::
      multiset(recs') == multiset(recs)
      && IsFloorOutput(recs, minCount, passed) && IsFloorOutput(recs', minCount, passed') ==>
        RunKeeps(passed, maxInstances, minCount) == RunKeeps(passed', maxInstances, minCount)
  }

  function FloorPassing(recs: seq<Rec>, minCount: int): seq<Rec>
  {
    Filter(Passes(FloorConfig(minCount)), recs)
  }

  /** The ranking breaks ties by rate and key only; where the scorer has run first it also tells
      rows apart by savings percentage and savings. */
  ghost predicate NoTwoRowsTie(recs: seq<Rec>, minCount: int)
  {
    if minCount <= 0 then TiesAreEqual(RanksBefore, recs) else TiesAreEqual(CapOrder, FloorPassing(recs, minCount))
  }

  lemma SameRankingSameRun(passed: seq<Rec>, passed': seq<Rec>, maxInstances: int, minCount: int)
    requires multiset(passed) == multiset(passed') && Ranked(passed) == Ranked(passed')
    ensures RunKeeps(passed, maxInstances, minCount) == RunKeeps(passed', maxInstances, minCount)
  {
    hide Cap, HasRankingSignal, Ranked;
    SignalIsOrderFree(passed, passed', maxInstances);
  }

  lemma UncappedRun(passed: seq<Rec>, minCount: int)
    ensures RunKeeps(passed, 0, minCount) == Some(Ranked(passed))
  {
    hide Ranked;
  }

  lemma UntiedScorerOutputsRankAlike(rows: seq<Rec>, passed: seq<Rec>, passed': seq<Rec>)
    requires TiesAreEqual(CapOrder, rows)
    requires multiset(passed) == multiset(rows) == multiset(passed')
    requires Sorted(ScoresBefore, passed) && Sorted(ScoresBefore, passed')
    ensures Ranked(passed) == Ranked(passed')
  {
    hide CapOrder, ScoresBefore;
    CapOrderIsStrictWeakOrder();
    ScoredThenRanked(passed);
    ScoredThenRanked(passed');
    forall r | r in Ranked(passed) ensures r in rows {
      assert r in multiset(Ranked(passed));
    }
    SortedPermutationIsUnique(CapOrder, Ranked(passed), Ranked(passed'));
  }

  /** The rows that tie under the combined order tie under each of its parts. */
  lemma CapTiesTieTwice(x: Rec, y: Rec)
    requires Tied(CapOrder, x, y)
    ensures Tied(RanksBefore, x, y) && Tied(ScoresBefore, x, y)
  {
    hide LexLess, SavingsPerInstance, OfferKey;
    LexLessIsTotal(OfferKey(x), OfferKey(y));
  }

  /** Scoring and ranking leave the rows of one combined tie in the order they came. */
  lemma ScoredAndRankedKeepsTies(rows: seq<Rec>, k: Rec)
    ensures Class(CapOrder, k, Ranked(Sort(ScoresBefore, rows))) == Class(CapOrder, k, rows)
  {
    hide CapOrder, RanksBefore, ScoresBefore;
    var scored := Sort(ScoresBefore, rows);
    RanksBeforeIsStrictWeakOrder();
    ScoresBeforeIsStrictWeakOrder();
    SortIsStable(RanksBefore, scored, k);
    SortIsStable(ScoresBefore, rows, k);
    forall y | Tied(CapOrder, k, y) ensures Tied(RanksBefore, k, y) && Tied(ScoresBefore, k, y) {
      CapTiesTieTwice(k, y);
    }
    ClassOfClass(CapOrder, RanksBefore, k, Ranked(scored));
    ClassOfClass(CapOrder, RanksBefore, k, scored);
    ClassOfClass(CapOrder, ScoresBefore, k, scored);
    ClassOfClass(CapOrder, ScoresBefore, k, rows);
  }

  lemma TiedScorerOutputsDiffer(rows: seq<Rec>) returns (passed: seq<Rec>, passed': seq<Rec>)
    requires !TiesAreEqual(CapOrder, rows)
    ensures multiset(passed) == multiset(rows) == multiset(passed')
    ensures Sorted(ScoresBefore, passed) && Sorted(ScoresBefore, passed')
    ensures Ranked(passed) != Ranked(passed')
  {
    hide CapOrder, RanksBefore, ScoresBefore;
    var x, y :| x in rows && y in rows && Tied(CapOrder, x, y) && x != y;
    var i :| 0 <= i < |rows| && rows[i] == x;
    var j :| 0 <= j < |rows| && rows[j] == y;
    var lo, hi := if i < j then i else j, if i < j then j else i;
    var swapped := Swap(rows, lo, hi);
    CapOrderIsStrictWeakOrder();
    ScoresBeforeIsStrictWeakOrder();
    SwapIsPermutation(rows, lo, hi);
    SwapChangesClass(CapOrder, rows, lo, hi);
    passed, passed' := Sort(ScoresBefore, rows), Sort(ScoresBefore, swapped);
    SortIsSorted(ScoresBefore, rows);
    SortIsSorted(ScoresBefore, swapped);
    ScoredAndRankedKeepsTies(rows, rows[lo]);
    ScoredAndRankedKeepsTies(swapped, rows[lo]);
  }

  lemma UntiedRunsAgree(recs: seq<Rec>, minCount: int)
    requires NoTwoRowsTie(recs, minCount)
    ensures FileOrderDecidesNothing(recs, minCount)
  {
    hide RunKeeps, RanksBefore, CapOrder, ScoresBefore;
    forall recs', passed, passed', maxInstances |
        multiset(recs') == multiset(recs)
        && IsFloorOutput(recs, minCount, passed) && IsFloorOutput(recs', minCount, passed')
      ensures RunKeeps(passed, maxInstances, minCount) == RunKeeps(passed', maxInstances, minCount)
    {
      FloorKeepsTheSameRows(recs, recs', minCount, passed, passed');
      if minCount <= 0 {
        RanksBeforeIsStrictWeakOrder();
        OrderIndependentIffNoTies(RanksBefore, recs);
        assert Sort(RanksBefore, recs') == Sort(RanksBefore, recs);
        assert passed == recs && passed' == recs';
      } else {
        UntiedScorerOutputsRankAlike(FloorPassing(recs, minCount), passed, passed');
      }
      SameRankingSameRun(passed, passed', maxInstances, minCount);
    }
  }

  lemma TiedRunsDiffer(recs: seq<Rec>, minCount: int)
    requires !NoTwoRowsTie(recs, minCount)
    ensures !FileOrderDecidesNothing(recs, minCount)
  {
    hide RunKeeps, RanksBefore, CapOrder, ScoresBefore;
    var recs', passed, passed' := recs, recs, recs;
    if minCount <= 0 {
      RanksBeforeIsStrictWeakOrder();
      OrderIndependentIffNoTies(RanksBefore, recs);
      var p :| multiset(p) == multiset(recs) && Sort(RanksBefore, p) != Sort(RanksBefore, recs);
      recs', passed' := p, p;
    } else {
      passed, passed' := TiedScorerOutputsDiffer(FloorPassing(recs, minCount));
    }
    UncappedRun(passed, minCount);
    UncappedRun(passed', minCount);
    assert IsFloorOutput(recs, minCount, passed) && IsFloorOutput(recs', minCount, passed');
    assert RunKeeps(passed, 0, minCount) != RunKeeps(passed', 0, minCount);
  }

  /** With the floor off, the rows are the same in the same order for every file order and every
      cap exactly when no two different rows share both rate and key, as rows that differ only in
      their account do. With a floor, exactly when no two different rows that clear it share rate,
      key, savings percentage and savings. */
  lemma FileOrderDecidesNoRowsIff(recs: seq<Rec>, minCount: int)
    ensures FileOrderDecidesNothing(recs, minCount) <==> NoTwoRowsTie(recs, minCount)
  {
    if NoTwoRowsTie(recs, minCount) {
      UntiedRunsAgree(recs, minCount);
    } else {
      TiedRunsDiffer(recs, minCount);
    }
  }

  /** What a tie under the combined order is. */
  lemma CapTieMeans(a: Rec, b: Rec)
    ensures Tied(RanksBefore, a, b) <==>
              SavingsPerInstance(a) == SavingsPerInstance(b) && OfferKey(a) == OfferKey(b)
    ensures Tied(CapOrder, a, b) <==>
              && SavingsPerInstance(a) == SavingsPerInstance(b) && OfferKey(a) == OfferKey(b)
              && a.savingsPercentage == b.savingsPercentage && a.estimatedSavings == b.estimatedSavings
  {
    hide LexLess, SavingsPerInstance, OfferKey;
    LexLessIsTotal(OfferKey(a), OfferKey(b));
  }
}
