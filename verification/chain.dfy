/** Any chain of sizing stages leaves the price of one instance alone. */
module SizingChain {
  import opened Drops
  import opened Types
  import opened Sums
  import opened StableSorting
  import opened InstanceLimit
  import opened Sizing
  import opened CsvRanking
  import opened FamilySizing
  import opened RdsTypes

  datatype Stage = Cover(coverage: real) | Target(target: real) | Override(count: int) | CapTo(maxInstances: int)

  function Run(stage: Stage, recs: seq<Rec>): seq<Rec>
  {
    match stage
    case Cover(coverage) => Covered(recs, coverage)
    case Target(target) => Targeted(recs, target)
    case Override(count) => Overridden(recs, count)
    case CapTo(maxInstances) => if maxInstances <= 0 then recs else Limit(recs, maxInstances)
  }

  function RunAll(stages: seq<Stage>, recs: seq<Rec>): seq<Rec>
  {
    if stages == [] then recs else RunAll(stages[1..], Run(stages[0], recs))
  }

  /** `b` is the offer of `a`, and if `a` buys instances priced one by one, so does `b`, at the same
      unit prices. */
  predicate SamePrices(a: Rec, b: Rec)
  {
    && SameOffer(a, b)
    && (IsSavingsPlan(a.service) || a.count <= 0 || (b.count > 0 && UnitPrices(a) == UnitPrices(b)))
  }

  /** `out` is a subsequence of `recs` whose rows kept their prices. */
  ghost predicate Survives(recs: seq<Rec>, out: seq<Rec>)
  {
    if out == [] then true
    else if recs == [] then false
    else (SamePrices(recs[0], out[0]) && Survives(recs[1..], out[1..])) || Survives(recs[1..], out)
  }

  lemma {:induction false} SurvivesReflexive(recs: seq<Rec>)
    ensures Survives(recs, recs)
  {
    if recs != [] {
      hide UnitPrices;
      SurvivesReflexive(recs[1..]);
    }
  }

  lemma {:induction false} SurvivesTransitive(a: seq<Rec>, b: seq<Rec>, c: seq<Rec>)
    requires Survives(a, b) && Survives(b, c)
    ensures Survives(a, c)
    decreases |a| + |b|
  {
    hide SameOffer, UnitPrices;
    if c != [] {
      if !(SamePrices(a[0], b[0]) && Survives(a[1..], b[1..])) {
        SurvivesTransitive(a[1..], b, c);
      } else if SamePrices(b[0], c[0]) && Survives(b[1..], c[1..]) {
        SurvivesTransitive(a[1..], b[1..], c[1..]);
        SamePricesTransitive(a[0], b[0], c[0]);
      } else {
        SurvivesTransitive(a[1..], b[1..], c);
      }
    }
  }

  lemma SamePricesTransitive(a: Rec, b: Rec, c: Rec)
    requires SamePrices(a, b) && SamePrices(b, c)
    ensures SamePrices(a, c)
  {
  }

  /** A per-row sizing rule keeps prices when every row it keeps does. */
  lemma {:induction false} SizedRowsSurvive(size: Rec -> Sized, recs: seq<Rec>)
    requires forall r :: r in recs && size(r).Kept? ==> SamePrices(r, size(r).row)
    ensures Survives(recs, SizedRows(size, recs))
  {
    if recs != [] {
      SizedRowsSurvive(size, recs[1..]);
      assert recs[0] in recs;
      match size(recs[0])
      case Kept(row) =>
        assert ([row] + SizedRows(size, recs[1..]))[1..] == SizedRows(size, recs[1..]);
      case Dropped(_) =>
    }
  }

  lemma ResizedKeepsPrices(rec: Rec, n: int)
    requires rec.count > 0 && n > 0
    ensures SamePrices(rec, Resized(rec, n))
  {
    ResizedKeepsUnitPrices(rec, n);
  }

  lemma ScaledKeepsOffer(rec: Rec, ratio: real)
    ensures SameOffer(rec, ScaleCosts(rec, ratio))
  {
  }

  lemma CoverKeepsPrices(rec: Rec, ratio: real)
    requires ratio > 0.0
    ensures CoverOne(ratio)(rec).Kept? ==> SamePrices(rec, CoverOne(ratio)(rec).row)
    ensures CoverOne(ratio)(rec).Kept? && !IsSavingsPlan(rec.service) ==> rec.count > 0
  {
    hide ScaleCosts, Resized, UnitPrices, ShareOf;
    if IsSavingsPlan(rec.service) {
      ScaledKeepsOffer(rec, ratio);
    } else if ShareOf(rec, ratio) > 0 {
      TruncatedToPositive(rec, ratio);
      ResizedKeepsPrices(rec, ShareOf(rec, ratio));
    }
  }

  /** Nothing that a price depends on differs. */
  predicate SameMoney(b: Rec, c: Rec)
  {
    c == b.(
      projectedUtilization := c.projectedUtilization,
      projectedCoverage := c.projectedCoverage,
      existingCoverage := c.existingCoverage,
      existingCoverageKnown := c.existingCoverageKnown
    )
  }

  lemma SameMoneySamePrices(a: Rec, b: Rec, c: Rec)
    requires SamePrices(a, b) && SameMoney(b, c)
    ensures SamePrices(a, c)
  {
  }

  lemma TargetKeepsPrices(rec: Rec, target: real)
    requires 0.0 < target
    ensures TargetOne(target)(rec).Kept? ==> SamePrices(rec, TargetOne(target)(rec).row)
  {
    hide ScaleCosts, UnitPrices;
    if TargetOne(target)(rec).Kept? && TargetOne(target)(rec).row != rec {
      var row := TargetOne(target)(rec).row;
      if IsSavingsPlan(rec.service) {
        ScaledKeepsOffer(rec, target / 100.0);
      } else {
        var n := TargetCount(rec.averageInstances, rec.existingCoverage, target);
        NonNegativeProduct(rec.averageInstances, target - rec.existingCoverage);
        if rec.count > 0 {
          ResizedKeepsPrices(rec, n);
          SameMoneySamePrices(rec, Resized(rec, n), row);
        } else {
          ScaledKeepsOffer(rec, n as real);
        }
      }
    }
  }

  lemma OverrideKeepsPrices(rec: Rec, count: int)
    requires count > 0
    ensures SamePrices(rec, OverrideOne(count)(rec).row)
  {
    hide ScaleCosts, UnitPrices, Resized;
    if !IsSavingsPlan(rec.service) && rec.count > 0 {
      ResizedKeepsPrices(rec, count);
    }
  }

  lemma {:induction false} LimitSurvives(recs: seq<Rec>, remaining: int)
    ensures Survives(recs, Limit(recs, remaining))
  {
    if recs != [] && remaining > 0 {
      hide UnitPrices, ScaleCosts;
      var adjusted := Limit(recs, remaining)[0];
      LimitSurvives(recs[1..], remaining - Max0(adjusted.count));
      var rest := Limit(recs[1..], remaining - Max0(adjusted.count));
      assert Limit(recs, remaining) == [adjusted] + rest && ([adjusted] + rest)[1..] == rest;
      if recs[0].count > remaining {
        ResizedKeepsPrices(recs[0], remaining);
      }
    }
  }

  lemma StageSurvives(stage: Stage, recs: seq<Rec>)
    ensures Survives(recs, Run(stage, recs))
  {
    SurvivesReflexive(recs);
    match stage
    case Cover(coverage) =>
      if 0.0 < coverage < 100.0 {
        var size := CoverOne(coverage / 100.0);
        forall r | r in recs && size(r).Kept? ensures SamePrices(r, size(r).row) {
          CoverKeepsPrices(r, coverage / 100.0);
        }
        SizedRowsSurvive(size, recs);
      }
    case Target(target) =>
      if 0.0 < target <= 100.0 {
        var size := TargetOne(target);
        forall r | r in recs && size(r).Kept? ensures SamePrices(r, size(r).row) {
          TargetKeepsPrices(r, target);
        }
        SizedRowsSurvive(size, recs);
      }
    case Override(count) =>
      if count > 0 {
        var size := OverrideOne(count);
        forall r | r in recs && size(r).Kept? ensures SamePrices(r, size(r).row) {
          OverrideKeepsPrices(r, count);
        }
        SizedRowsSurvive(size, recs);
      }
    case CapTo(maxInstances) =>
      if maxInstances > 0 {
        LimitSurvives(recs, maxInstances);
      }
  }

  /** Unit-price invariance: whatever the rows, the stages and their order, the rows that come
      out are a subsequence of the rows that went in, each at its original price per instance. */
  lemma {:induction false} ChainKeepsUnitPrices(stages: seq<Stage>, recs: seq<Rec>)
    ensures Survives(recs, RunAll(stages, recs))
  {
    if stages == [] {
      SurvivesReflexive(recs);
    } else {
      var next := Run(stages[0], recs);
      StageSurvives(stages[0], recs);
      ChainKeepsUnitPrices(stages[1..], next);
      SurvivesTransitive(recs, next, RunAll(stages[1..], next));
    }
  }

  /** The rows of a family that is sized as a whole keep their prices too. */
  lemma FamilyKeepsUnitPrices(members: seq<Rec>, coverage: FamilyCoverage, target: real)
    ensures Survives(members, FamilyRows(members, coverage, target))
  {
    hide RowUnits, ExistingPct, UnitsNeeded, ScaleCosts, AnnotatedRow, SamePrices;
    var rule := FamilyRule(members, coverage, target);
    if Rescaled(members, coverage, target) {
      var rows := SizedRows(rule, members);
      var existing, projection := ExistingPct(coverage), FamilyProjection(rows, coverage);
      var annotating := Annotating(rule, existing, projection);
      AnnotatedAsSized(rule, existing, projection, members);
      forall r | r in members && annotating(r).Kept? ensures SamePrices(r, annotating(r).row) {
        var scale := UnitsNeeded(coverage, target) / SumReal(RowUnits, members);
        ScalingKeepsPrices(r, scale);
        AnnotationKeepsPrices(r, ScaleBy(scale)(r).row, existing, projection);
      }
      SizedRowsSurvive(annotating, members);
    } else {
      forall r | r in members && rule(r).Kept? ensures SamePrices(r, rule(r).row) {
        SamePricesReflexive(r);
      }
      SizedRowsSurvive(rule, members);
    }
  }

  function Annotating(rule: Rec -> Sized, existing: real, projection: real): Rec -> Sized
  {
    (rec: Rec) =>
      match rule(rec)
      case Kept(row) => Kept(AnnotatedRow(row, existing, projection))
      case Dropped(reason) => Dropped(reason)
  }

  lemma {:induction false} AnnotatedAsSized(rule: Rec -> Sized, existing: real, projection: real, recs: seq<Rec>)
    ensures Annotated(SizedRows(rule, recs), existing, projection)
         == SizedRows(Annotating(rule, existing, projection), recs)
  {
    hide AnnotatedRow;
    if recs != [] {
      AnnotatedAsSized(rule, existing, projection, recs[1..]);
    }
  }

  lemma SamePricesReflexive(rec: Rec)
    ensures SamePrices(rec, rec)
  {
  }

  lemma ScalingKeepsPrices(rec: Rec, scale: real)
    ensures ScaleBy(scale)(rec).Kept? ==> SamePrices(rec, ScaleBy(scale)(rec).row)
  {
    hide ScaleCosts, Resized, ScaledCount;
    if ScaleBy(scale)(rec).Kept? {
      if rec.count > 0 {
        ResizedKeepsPrices(rec, ScaledCount(rec, scale));
      } else {
        ResizedKeepsOffer(rec, ScaledCount(rec, scale));
      }
    }
  }

  lemma ResizedKeepsOffer(rec: Rec, n: int)
    requires rec.count != 0
    ensures SameOffer(rec, Resized(rec, n))
  {
  }

  lemma AnnotationKeepsPrices(a: Rec, b: Rec, existing: real, projection: real)
    ensures SamePrices(a, b) ==> SamePrices(a, AnnotatedRow(b, existing, projection))
  {
    if SamePrices(a, b) {
      SameMoneySamePrices(a, b, AnnotatedRow(b, existing, projection));
    }
  }

  // ---- Ranking and sizing --------------------------------------------------------------------

  predicate SameRank(a: Rec, b: Rec)
  {
    SavingsPerInstance(a) == SavingsPerInstance(b) && OfferKey(a) == OfferKey(b)
  }

  lemma SamePricesSameRank(a: Rec, b: Rec)
    requires SamePrices(a, b) && !IsSavingsPlan(a.service) && a.count > 0
    ensures SameRank(a, b)
  {
    assert SavingsPerInstance(a) == UnitPrices(a).savings == UnitPrices(b).savings == SavingsPerInstance(b);
  }

  /** A rule gives each row it keeps the rank it had. */
  ghost predicate KeepsRank(size: Rec -> Sized, recs: seq<Rec>)
  {
    forall r :: r in recs && size(r).Kept? ==> SameRank(r, size(r).row)
  }

  lemma SameRankSameOrder(a: Rec, a': Rec, b: Rec, b': Rec)
    requires SameRank(a, a') && SameRank(b, b')
    ensures RanksBefore(a, b) <==> RanksBefore(a', b')
  {
  }

  lemma {:induction false} FirstKept(size: Rec -> Sized, recs: seq<Rec>) returns (k: nat)
    requires SizedRows(size, recs) != []
    ensures k < |recs| && size(recs[k]).Kept? && SizedRows(size, recs)[0] == size(recs[k]).row
  {
    if size(recs[0]).Kept? {
      k := 0;
    } else {
      k := FirstKept(size, recs[1..]);
      k := k + 1;
    }
  }

  lemma {:induction false} InsertDropped(size: Rec -> Sized, x: Rec, recs: seq<Rec>)
    requires size(x).Dropped?
    ensures SizedRows(size, Insert(RanksBefore, x, recs)) == SizedRows(size, recs)
  {
    hide RanksBefore;
    if recs == [] {
      assert [x][1..] == [];
    } else if RanksBefore(recs[0], x) {
      InsertDropped(size, x, recs[1..]);
      assert ([recs[0]] + Insert(RanksBefore, x, recs[1..]))[1..] == Insert(RanksBefore, x, recs[1..]);
    } else {
      assert ([x] + recs)[1..] == recs;
    }
  }

  /** No two kept rows trade places: they compare after sizing as before, or have become one row. */
  ghost predicate KeepsOrder(size: Rec -> Sized, recs: seq<Rec>)
  {
    forall a, b :: a in recs && b in recs ==> SameOrder(size, a, b)
  }

  predicate SameOrder(size: Rec -> Sized, a: Rec, b: Rec)
  {
    size(a).Kept? && size(b).Kept? && size(a).row != size(b).row ==>
      (RanksBefore(a, b) <==> RanksBefore(size(a).row, size(b).row))
  }

  /** What a sized list starts with is not behind `x` sized, when nothing in the list is ahead of `x`. */
  lemma SizedHeadIsNotAhead(size: Rec -> Sized, x: Rec, recs: seq<Rec>)
    requires StrictWeakOrder(RanksBefore) && size(x).Kept? && KeepsOrder(size, [x] + recs)
    requires forall r :: r in recs ==> !RanksBefore(r, x)
    ensures SizedRows(size, recs) != [] ==> !RanksBefore(SizedRows(size, recs)[0], size(x).row)
  {
    hide RanksBefore;
    if SizedRows(size, recs) != [] {
      var k := FirstKept(size, recs);
      assert recs[k] in [x] + recs && x in [x] + recs;
      assert SameOrder(size, recs[k], x) && !RanksBefore(recs[k], x);
    }
  }

  /** Sizing a sorted list with a row inserted inserts the sized row in the sized list. */
  lemma {:induction false} InsertKept(size: Rec -> Sized, x: Rec, recs: seq<Rec>)
    requires StrictWeakOrder(RanksBefore) && Sorted(RanksBefore, recs)
    requires size(x).Kept? && KeepsOrder(size, [x] + recs)
    ensures SizedRows(size, Insert(RanksBefore, x, recs))
         == Insert(RanksBefore, size(x).row, SizedRows(size, recs))
  {
    hide RanksBefore;
    if recs == [] {
      assert [x][1..] == [];
    } else if RanksBefore(recs[0], x) {
      var rest := Insert(RanksBefore, x, recs[1..]);
      hide SameOrder;
      assert KeepsOrder(size, [x] + recs[1..]);
      InsertKept(size, x, recs[1..]);
      assert ([recs[0]] + rest)[1..] == rest;
      if size(recs[0]).Kept? {
        InsertBehind(size, x, recs);
      }
    } else {
      hide SameOrder;
      assert ([x] + recs)[1..] == recs;
      assert forall r :: r in recs ==> !RanksBefore(r, x);
      SizedHeadIsNotAhead(size, x, recs);
    }
  }

  /** The step of `InsertKept` over a kept head that ranks before `x`. */
  lemma InsertBehind(size: Rec -> Sized, x: Rec, recs: seq<Rec>)
    requires StrictWeakOrder(RanksBefore) && Sorted(RanksBefore, recs) && recs != [] && RanksBefore(recs[0], x)
    requires size(x).Kept? && size(recs[0]).Kept? && KeepsOrder(size, [x] + recs)
    ensures Insert(RanksBefore, size(x).row, SizedRows(size, recs))
         == [size(recs[0]).row] + Insert(RanksBefore, size(x).row, SizedRows(size, recs[1..]))
  {
    hide RanksBefore;
    var head, sized := size(recs[0]).row, SizedRows(size, recs[1..]);
    assert SizedRows(size, recs) == [head] + sized && ([head] + sized)[1..] == sized;
    if head == size(x).row {
      hide SameOrder;
      assert KeepsOrder(size, [recs[0]] + recs[1..]);
      assert forall r :: r in recs[1..] ==> !RanksBefore(r, recs[0]);
      SizedHeadIsNotAhead(size, recs[0], recs[1..]);
    } else {
      assert recs[0] in [x] + recs && x in [x] + recs;
      assert SameOrder(size, recs[0], x);
    }
  }

  /** If no two kept rows trade places, ranking and sizing commute. */
  lemma {:induction false} RankingCommutes(size: Rec -> Sized, recs: seq<Rec>)
    requires StrictWeakOrder(RanksBefore) && KeepsOrder(size, recs)
    ensures Ranked(SizedRows(size, recs)) == SizedRows(size, Ranked(recs))
  {
    hide RanksBefore, SameOrder;
    if recs != [] {
      var x, rest := recs[0], recs[1..];
      RankingCommutes(size, rest);
      SortIsSorted(RanksBefore, rest);
      if size(x).Kept? {
        forall r | r in [x] + Ranked(rest) ensures r in recs {
          assert r == x || r in multiset(Ranked(rest));
        }
        InsertKept(size, x, Ranked(rest));
        assert ([size(x).row] + SizedRows(size, rest))[1..] == SizedRows(size, rest);
      } else {
        InsertDropped(size, x, Ranked(rest));
      }
    }
  }

  lemma KeptRankKeepsOrder(size: Rec -> Sized, recs: seq<Rec>)
    requires KeepsRank(size, recs)
    ensures KeepsOrder(size, recs)
  {
    hide RanksBefore, SameRank;
    forall a, b | a in recs && b in recs ensures SameOrder(size, a, b) {
      if size(a).Kept? && size(b).Kept? {
        SameRankSameOrder(a, size(a).row, b, size(b).row);
      }
    }
  }

  /** Which rows a stage leaves at their rank: coverage and target scale Savings Plans in dollars,
      a target gives a row without instances a count, and an override leaves both alone. */
  predicate Rankable(stage: Stage, rec: Rec)
  {
    match stage
    case Cover(_) => !IsSavingsPlan(rec.service)
    case Target(_) => !IsSavingsPlan(rec.service) && rec.count > 0
    case Override(_) => true
    case CapTo(maxInstances) => maxInstances <= 0
  }

  lemma StageKeepsRank(stage: Stage, rec: Rec)
    requires Rankable(stage, rec)
    ensures stage.Cover? && 0.0 < stage.coverage < 100.0 ==>
              var sized := CoverOne(stage.coverage / 100.0)(rec); sized.Kept? ==> SameRank(rec, sized.row)
    ensures stage.Target? && 0.0 < stage.target ==>
              var sized := TargetOne(stage.target)(rec); sized.Kept? ==> SameRank(rec, sized.row)
    ensures stage.Override? && stage.count > 0 ==>
              var sized := OverrideOne(stage.count)(rec); sized.Kept? ==> SameRank(rec, sized.row)
  {
    hide CoverOne, TargetOne, SamePrices, SavingsPerInstance, OfferKey, Resized;
    match stage
    case Cover(coverage) =>
      if 0.0 < coverage < 100.0 && CoverOne(coverage / 100.0)(rec).Kept? {
        CoverKeepsPrices(rec, coverage / 100.0);
        SamePricesSameRank(rec, CoverOne(coverage / 100.0)(rec).row);
      }
    case Target(target) =>
      if 0.0 < target && TargetOne(target)(rec).Kept? {
        TargetKeepsPrices(rec, target);
        SamePricesSameRank(rec, TargetOne(target)(rec).row);
      }
    case Override(count) =>
      if count > 0 && !IsSavingsPlan(rec.service) && rec.count > 0 {
        OverrideKeepsPrices(rec, count);
        SamePricesSameRank(rec, OverrideOne(count)(rec).row);
      }
    case CapTo(_) =>
  }

  lemma CoverCommutes(coverage: real, recs: seq<Rec>)
    requires forall r :: r in recs ==> Rankable(Cover(coverage), r)
    ensures Ranked(Covered(recs, coverage)) == Covered(Ranked(recs), coverage)
  {
    hide Rankable, SameRank, CoverOne, RanksBefore, Sort;
    if 0.0 < coverage < 100.0 {
      RanksBeforeIsStrictWeakOrder();
      forall r | r in recs && CoverOne(coverage / 100.0)(r).Kept?
        ensures SameRank(r, CoverOne(coverage / 100.0)(r).row)
      {
        StageKeepsRank(Cover(coverage), r);
      }
      KeptRankKeepsOrder(CoverOne(coverage / 100.0), recs);
      RankingCommutes(CoverOne(coverage / 100.0), recs);
    } else {
      NothingRanked();
    }
  }

  lemma TargetCommutes(target: real, recs: seq<Rec>)
    requires forall r :: r in recs ==> Rankable(Target(target), r)
    ensures Ranked(Targeted(recs, target)) == Targeted(Ranked(recs), target)
  {
    hide Rankable, SameRank, TargetOne, RanksBefore, Sort;
    if 0.0 < target <= 100.0 {
      RanksBeforeIsStrictWeakOrder();
      forall r | r in recs && TargetOne(target)(r).Kept? ensures SameRank(r, TargetOne(target)(r).row) {
        StageKeepsRank(Target(target), r);
      }
      KeptRankKeepsOrder(TargetOne(target), recs);
      RankingCommutes(TargetOne(target), recs);
    }
  }

  lemma OverrideCommutes(count: int, recs: seq<Rec>)
    ensures Ranked(Overridden(recs, count)) == Overridden(Ranked(recs), count)
  {
    hide SameRank, OverrideOne, RanksBefore, Sort;
    if count > 0 {
      RanksBeforeIsStrictWeakOrder();
      forall r | r in recs && OverrideOne(count)(r).Kept? ensures SameRank(r, OverrideOne(count)(r).row) {
        StageKeepsRank(Override(count), r);
      }
      KeptRankKeepsOrder(OverrideOne(count), recs);
      RankingCommutes(OverrideOne(count), recs);
    }
  }

  lemma NothingRanked()
    ensures Ranked([]) == []
  {
  }

  /** Ranking and sizing commute, ties included: sizing the ranked rows and ranking the sized rows
      give the same sequence. */
  lemma RankingCommutesWithStage(stage: Stage, recs: seq<Rec>)
    requires forall r :: r in recs ==> Rankable(stage, r)
    ensures Ranked(Run(stage, recs)) == Run(stage, Ranked(recs))
  {
    hide Rankable, Covered, Targeted, Overridden, Limit, Ranked;
    match stage
    case Cover(coverage) => CoverCommutes(coverage, recs);
    case Target(target) => TargetCommutes(target, recs);
    case Override(count) => OverrideCommutes(count, recs);
    case CapTo(maxInstances) =>
      if recs != [] {
        assert recs[0] in recs;
        CapToIsOff(stage, recs[0]);
      } else {
        NothingCapped(maxInstances);
      }
  }

  lemma CapToIsOff(stage: Stage, rec: Rec)
    requires stage.CapTo? && Rankable(stage, rec)
    ensures stage.maxInstances <= 0
  {
  }

  lemma NothingCapped(maxInstances: int)
    ensures Limit([], maxInstances) == [] == Ranked([])
  {
  }

  lemma {:induction false} SurvivorOf(recs: seq<Rec>, out: seq<Rec>, k: nat) returns (i: nat)
    requires Survives(recs, out) && k < |out|
    ensures i < |recs| && SamePrices(recs[i], out[k])
  {
    if SamePrices(recs[0], out[0]) && Survives(recs[1..], out[1..]) {
      if k == 0 {
        i := 0;
      } else {
        i := SurvivorOf(recs[1..], out[1..], k - 1);
        i := i + 1;
      }
    } else {
      i := SurvivorOf(recs[1..], out, k);
      i := i + 1;
    }
  }

  /** Rows that buy instances priced one by one, which the ranking is for. */
  predicate Priced(rec: Rec)
  {
    !IsSavingsPlan(rec.service) && rec.count > 0
  }

  lemma SurvivorsArePriced(recs: seq<Rec>, out: seq<Rec>)
    requires Survives(recs, out) && forall r :: r in recs ==> Priced(r)
    ensures forall r :: r in out ==> Priced(r)
  {
    hide UnitPrices;
    forall k | 0 <= k < |out| ensures Priced(out[k]) {
      var i := SurvivorOf(recs, out, k);
      assert recs[i] in recs;
    }
  }

  /** Over any chain of sizing stages: ranking first or last makes no difference. */
  lemma {:induction false} RankingCommutesWithSizing(stages: seq<Stage>, recs: seq<Rec>)
    requires forall r :: r in recs ==> Priced(r)
    requires forall stage :: stage in stages ==> !stage.CapTo?
    ensures Ranked(RunAll(stages, recs)) == RunAll(stages, Ranked(recs))
  {
    hide Ranked, Run, Survives;
    if stages != [] {
      assert stages[0] in stages;
      RankingCommutesWithStage(stages[0], recs);
      StageSurvives(stages[0], recs);
      SurvivorsArePriced(recs, Run(stages[0], recs));
      RankingCommutesWithSizing(stages[1..], Run(stages[0], recs));
    }
  }

  /** A Savings Plans row can change places: ahead of the reservation before half coverage, behind
      it after. */
  lemma SavingsPlanChangesPlaces(row: Rec)
    ensures var plan := row.(
              service := "savingsplans", count := 1, estimatedSavings := 10.0, details := SavingsPlan(1.0));
            var reservation := row.(service := "rds", count := 2, estimatedSavings := 16.0);
            && RanksBefore(plan, reservation)
            && Covered([plan], 50.0) == [ScaleCosts(plan, 0.5)]
            && Covered([reservation], 50.0) == [Resized(reservation, 1)]
            && RanksBefore(Resized(reservation, 1), ScaleCosts(plan, 0.5))
  {
    var plan := row.(service := "savingsplans", count := 1, estimatedSavings := 10.0, details := SavingsPlan(1.0));
    var reservation := row.(service := "rds", count := 2, estimatedSavings := 16.0);
    assert !IsSavingsPlan(reservation.service) by {
      assert |reservation.service| == 3;
    }
    assert [plan][1..] == [] && [reservation][1..] == [] && 50.0 / 100.0 == 0.5;
    assert ShareOf(reservation, 0.5) == 1;
    assert CoverOne(0.5)(plan) == Kept(ScaleCosts(plan, 0.5));
    assert CoverOne(0.5)(reservation) == Kept(Resized(reservation, 1));
    assert SavingsPerInstance(plan) == 10.0 && SavingsPerInstance(reservation) == 8.0;
    assert SavingsPerInstance(ScaleCosts(plan, 0.5)) == 5.0;
    assert SavingsPerInstance(Resized(reservation, 1)) == 8.0;
    assert RanksBefore(plan, reservation);
    assert RanksBefore(Resized(reservation, 1), ScaleCosts(plan, 0.5));
    assert SizedRows(CoverOne(0.5), [plan]) == [ScaleCosts(plan, 0.5)];
    assert SizedRows(CoverOne(0.5), [reservation]) == [Resized(reservation, 1)];
    assert CoverOne(50.0 / 100.0) == CoverOne(0.5);
    assert Covered([plan], 50.0) == SizedRows(CoverOne(50.0 / 100.0), [plan]);
  }

  /** The rule a coverage, target or override stage applies to each row. */
  function RowRule(stage: Stage): Rec -> Sized
    requires !stage.CapTo?
  {
    match stage
    case Cover(coverage) =>
      if coverage >= 100.0 then (rec: Rec) => Kept(rec)
      else if coverage <= 0.0 then (rec: Rec) => Dropped(TARGET_SIZED_TO_ZERO)
      else CoverOne(coverage / 100.0)
    case Target(target) => if target <= 0.0 || target > 100.0 then (rec: Rec) => Kept(rec) else TargetOne(target)
    case Override(count) => if count <= 0 then (rec: Rec) => Kept(rec) else OverrideOne(count)
  }

  lemma {:induction false} AllKept(size: Rec -> Sized, recs: seq<Rec>)
    requires forall r :: size(r) == Kept(r)
    ensures SizedRows(size, recs) == recs
  {
    if recs != [] {
      AllKept(size, recs[1..]);
    }
  }

  lemma {:induction false} AllDropped(size: Rec -> Sized, recs: seq<Rec>)
    requires forall r :: size(r).Dropped?
    ensures SizedRows(size, recs) == []
  {
    if recs != [] {
      AllDropped(size, recs[1..]);
    }
  }

  lemma StageAppliesRule(stage: Stage, recs: seq<Rec>)
    requires !stage.CapTo?
    ensures Run(stage, recs) == SizedRows(RowRule(stage), recs)
  {
    hide CoverOne, TargetOne, OverrideOne, SizedRows;
    var size := RowRule(stage);
    match stage
    case Cover(coverage) =>
      if coverage >= 100.0 {
        AllKept(size, recs);
      } else if coverage <= 0.0 {
        AllDropped(size, recs);
      }
    case Target(target) =>
      if target <= 0.0 || target > 100.0 {
        AllKept(size, recs);
      }
    case Override(count) =>
      if count <= 0 {
        AllKept(size, recs);
      }
  }

  ghost predicate DrawnFrom(recs: seq<Rec>, rows: seq<Rec>)
  {
    forall r :: r in recs ==> r in rows
  }

  /** Ranking first or last gives the same sequence. */
  ghost predicate Commutes(stage: Stage, recs: seq<Rec>)
  {
    Ranked(Run(stage, recs)) == Run(stage, Ranked(recs))
  }

  lemma RankedPair(a: Rec, b: Rec)
    ensures Ranked([a, b]) == if RanksBefore(b, a) then [b, a] else [a, b]
  {
    hide RanksBefore;
    assert [a, b][1..] == [b] && [b][1..] == [];
    assert Ranked([b]) == Insert(RanksBefore, b, []) == [b];
    assert Ranked([a, b]) == Insert(RanksBefore, a, [b]);
  }

  lemma SizedPair(size: Rec -> Sized, a: Rec, b: Rec)
    requires size(a).Kept? && size(b).Kept?
    ensures SizedRows(size, [a, b]) == [size(a).row, size(b).row]
  {
    assert [a, b][1..] == [b] && [b][1..] == [];
    assert SizedRows(size, [b]) == [size(b).row] + SizedRows(size, []);
  }

  /** Two kept rows, the later one first: the stage commutes only if they keep their places. */
  lemma PairCommutes(stage: Stage, a: Rec, b: Rec)
    requires !stage.CapTo? && Commutes(stage, [b, a])
    ensures SameOrder(RowRule(stage), a, b)
  {
    hide RanksBefore, RowRule, Run, Ranked;
    var size := RowRule(stage);
    if size(a).Kept? && size(b).Kept? && size(a).row != size(b).row {
      StageAppliesRule(stage, [b, a]);
      StageAppliesRule(stage, Ranked([b, a]));
      RankedPair(b, a);
      RankedPair(size(b).row, size(a).row);
      SizedPair(size, a, b);
      SizedPair(size, b, a);
      assert [size(a).row, size(b).row][0] != [size(b).row, size(a).row][0];
    }
  }

  /** The exact condition, whatever the rows: ranking and a stage commute on every list drawn from
      some rows if and only if no two of the rows it keeps trade places. */
  lemma StageCommutesIff(stage: Stage, rows: seq<Rec>)
    requires !stage.CapTo?
    ensures (forall recs :: DrawnFrom(recs, rows) ==> Commutes(stage, recs)) <==> KeepsOrder(RowRule(stage), rows)
  {
    hide RanksBefore, RowRule, Run, Ranked, SameOrder;
    if KeepsOrder(RowRule(stage), rows) {
      forall recs | DrawnFrom(recs, rows) ensures Commutes(stage, recs) {
        hide Sort;
        StageAppliesRule(stage, recs);
        StageAppliesRule(stage, Ranked(recs));
        RanksBeforeIsStrictWeakOrder();
        RankingCommutes(RowRule(stage), recs);
      }
    }
    if forall recs :: DrawnFrom(recs, rows) ==> Commutes(stage, recs) {
      hide Commutes;
      forall a, b | a in rows && b in rows ensures SameOrder(RowRule(stage), a, b) {
        assert DrawnFrom([b, a], rows);
        PairCommutes(stage, a, b);
      }
    }
  }

  /** Coverage scales what this Savings Plan saves. */
  predicate ScaledPlan(rec: Rec)
  {
    IsSavingsPlan(rec.service) && rec.details.SavingsPlan?
  }

  /** A rate and a key rank before another pair. */
  predicate Ahead(rateA: real, keyA: string, rateB: real, keyB: string)
  {
    if rateA != rateB then rateA > rateB else LexLess(keyA, keyB)
  }

  /** At `ratio` times its rate the plan stands to the other row as it stands at its own. */
  predicate StaysPut(ratio: real, plan: Rec, other: Rec)
  {
    var rate, key := SavingsPerInstance(plan), OfferKey(plan);
    var otherRate, otherKey := SavingsPerInstance(other), OfferKey(other);
    && (Ahead(rate, key, otherRate, otherKey) <==> Ahead(ratio * rate, key, otherRate, otherKey))
    && (Ahead(otherRate, otherKey, rate, key) <==> Ahead(otherRate, otherKey, ratio * rate, key))
  }

  lemma ScaledRate(rec: Rec, ratio: real)
    ensures SavingsPerInstance(ScaleCosts(rec, ratio)) == ratio * SavingsPerInstance(rec)
    ensures OfferKey(ScaleCosts(rec, ratio)) == OfferKey(rec)
  {
  }

  function CoveredRate(ratio: real, rec: Rec): real
  {
    if ScaledPlan(rec) then ratio * SavingsPerInstance(rec) else SavingsPerInstance(rec)
  }

  lemma CoveredRank(ratio: real, rec: Rec)
    requires ratio > 0.0 && CoverOne(ratio)(rec).Kept?
    ensures var row := CoverOne(ratio)(rec).row;
            OfferKey(row) == OfferKey(rec) && SavingsPerInstance(row) == CoveredRate(ratio, rec)
  {
    CoverKeepsPrices(rec, ratio);
    hide CoverOne, SavingsPerInstance, OfferKey, ScaleCosts, SamePrices;
    CoveredRow(ratio, rec);
    if ScaledPlan(rec) {
      ScaledRate(rec, ratio);
    } else if !IsSavingsPlan(rec.service) {
      SamePricesSameRank(rec, CoverOne(ratio)(rec).row);
    }
  }

  lemma CoveredRow(ratio: real, rec: Rec)
    requires CoverOne(ratio)(rec).Kept?
    ensures ScaledPlan(rec) ==> CoverOne(ratio)(rec).row == ScaleCosts(rec, ratio)
    ensures IsSavingsPlan(rec.service) && !ScaledPlan(rec) ==> CoverOne(ratio)(rec).row == rec
  {
  }

  /** Rows compare by their rates and keys, before coverage and after it. */
  lemma CoveredOrder(ratio: real, a: Rec, b: Rec)
    requires ratio > 0.0 && CoverOne(ratio)(a).Kept? && CoverOne(ratio)(b).Kept?
    ensures RanksBefore(a, b) <==> Ahead(SavingsPerInstance(a), OfferKey(a), SavingsPerInstance(b), OfferKey(b))
    ensures RanksBefore(CoverOne(ratio)(a).row, CoverOne(ratio)(b).row) <==>
              Ahead(CoveredRate(ratio, a), OfferKey(a), CoveredRate(ratio, b), OfferKey(b))
  {
    hide CoverOne, SavingsPerInstance, OfferKey, LexLess, CoveredRate;
    CoveredRank(ratio, a);
    CoveredRank(ratio, b);
  }

  lemma ScalingKeepsOrder(ratio: real, a: real, b: real)
    requires ratio > 0.0
    ensures a > b <==> ratio * a > ratio * b
    ensures a == b <==> ratio * a == ratio * b
  {
    if a > b {
      assert ratio * (a - b) > 0.0;
    } else if a < b {
      assert ratio * (b - a) > 0.0;
    }
  }

  /** No plan whose savings are scaled passes a kept row whose rate stays. */
  ghost predicate NoPlanPasses(ratio: real, rows: seq<Rec>)
  {
    forall plan, other ::
      && plan in rows && ScaledPlan(plan)
      && other in rows && !ScaledPlan(other) && CoverOne(ratio)(other).Kept?
      ==> StaysPut(ratio, plan, other)
  }

  /** For coverage the condition can be read off the rates and keys of the rows. */
  lemma MixedCoverageCommutesIff(coverage: real, rows: seq<Rec>)
    requires 0.0 < coverage < 100.0
    ensures (forall recs :: DrawnFrom(recs, rows) ==> Commutes(Cover(coverage), recs)) <==>
              NoPlanPasses(coverage / 100.0, rows)
  {
    hide Commutes, NoPlanPasses, KeepsOrder, CoverOne;
    StageCommutesIff(Cover(coverage), rows);
    assert RowRule(Cover(coverage)) == CoverOne(coverage / 100.0);
    CoverKeepsOrderIff(coverage / 100.0, rows);
  }

  lemma CoverKeepsOrderIff(ratio: real, rows: seq<Rec>)
    requires ratio > 0.0
    ensures KeepsOrder(CoverOne(ratio), rows) <==> NoPlanPasses(ratio, rows)
  {
    hide ScaledPlan, StaysPut, SameOrder, CoverOne;
    if KeepsOrder(CoverOne(ratio), rows) {
      forall plan, other | && plan in rows && ScaledPlan(plan)
                           && other in rows && !ScaledPlan(other) && CoverOne(ratio)(other).Kept?
        ensures StaysPut(ratio, plan, other)
      {
        PlanStaysPutIff(ratio, plan, other);
      }
    }
    if NoPlanPasses(ratio, rows) {
      forall a, b | a in rows && b in rows ensures SameOrder(CoverOne(ratio), a, b) {
        CoveredPairKeepsOrder(ratio, a, b, rows);
      }
    }
  }

  lemma CoveredPairKeepsOrder(ratio: real, a: Rec, b: Rec, rows: seq<Rec>)
    requires ratio > 0.0 && NoPlanPasses(ratio, rows) && a in rows && b in rows
    ensures SameOrder(CoverOne(ratio), a, b)
  {
    hide ScaledPlan, StaysPut, SameOrder, CoverOne;
    if !CoverOne(ratio)(a).Kept? || !CoverOne(ratio)(b).Kept? {
      DroppedKeepsOrder(CoverOne(ratio), a, b);
    } else if ScaledPlan(a) == ScaledPlan(b) {
      AlikeKeepOrder(ratio, a, b);
    } else if ScaledPlan(a) {
      PlanStaysPutIff(ratio, a, b);
    } else {
      PlanStaysPutIff(ratio, b, a);
    }
  }

  lemma DroppedKeepsOrder(size: Rec -> Sized, a: Rec, b: Rec)
    requires !size(a).Kept? || !size(b).Kept?
    ensures SameOrder(size, a, b)
  {
  }

  lemma AlikeKeepOrder(ratio: real, a: Rec, b: Rec)
    requires ratio > 0.0 && CoverOne(ratio)(a).Kept? && CoverOne(ratio)(b).Kept? && ScaledPlan(a) == ScaledPlan(b)
    ensures SameOrder(CoverOne(ratio), a, b)
  {
    hide CoverOne, SavingsPerInstance, OfferKey, LexLess, ScaledPlan, RanksBefore;
    CoveredOrder(ratio, a, b);
    ScalingKeepsOrder(ratio, SavingsPerInstance(a), SavingsPerInstance(b));
  }

  lemma PlanStaysPutIff(ratio: real, plan: Rec, other: Rec)
    requires ratio > 0.0 && ScaledPlan(plan) && !ScaledPlan(other) && CoverOne(ratio)(other).Kept?
    ensures StaysPut(ratio, plan, other) <==>
              SameOrder(CoverOne(ratio), plan, other) && SameOrder(CoverOne(ratio), other, plan)
  {
    hide CoverOne, SavingsPerInstance, OfferKey, Ahead, ScaledPlan, RanksBefore;
    CoveredDetails(ratio, plan, other);
    CoveredOrder(ratio, plan, other);
    CoveredOrder(ratio, other, plan);
    assert CoveredRate(ratio, plan) == ratio * SavingsPerInstance(plan);
    assert CoveredRate(ratio, other) == SavingsPerInstance(other);
  }

  lemma CoveredDetails(ratio: real, plan: Rec, other: Rec)
    requires ratio > 0.0 && ScaledPlan(plan) && !ScaledPlan(other) && CoverOne(ratio)(other).Kept?
    ensures CoverOne(ratio)(plan).Kept? && CoverOne(ratio)(plan).row != CoverOne(ratio)(other).row
  {
    hide IsSavingsPlan;
    if IsSavingsPlan(other.service) {
      assert CoverOne(ratio)(other).row == other;
    }
  }

  /** With a cap in the chain the rows kept may differ, but what is ranked stays ranked. */
  lemma {:induction false} SurvivorsStayRanked(recs: seq<Rec>, out: seq<Rec>)
    requires Survives(recs, out) && Sorted(RanksBefore, recs)
    requires forall r :: r in recs ==> Priced(r)
    ensures Sorted(RanksBefore, out)
  {
    hide SameOffer, UnitPrices, RanksBefore, SameRank;
    if out != [] {
      if SamePrices(recs[0], out[0]) && Survives(recs[1..], out[1..]) {
        SurvivorsStayRanked(recs[1..], out[1..]);
        forall k | 0 < k < |out| ensures !RanksBefore(out[k], out[0]) {
          var i := SurvivorOf(recs[1..], out[1..], k - 1);
          assert recs[i + 1] in recs && recs[0] in recs;
          assert !RanksBefore(recs[i + 1], recs[0]);
          SamePricesSameRank(recs[i + 1], out[k]);
          SamePricesSameRank(recs[0], out[0]);
          SameRankSameOrder(recs[i + 1], out[k], recs[0], out[0]);
        }
        forall j, k | 0 <= j < k < |out| ensures !RanksBefore(out[k], out[j]) {
          if j > 0 {
            assert out[1..][j - 1] == out[j] && out[1..][k - 1] == out[k];
          }
        }
      } else {
        SurvivorsStayRanked(recs[1..], out);
      }
    }
  }

  lemma RankedRunStaysRanked(stages: seq<Stage>, recs: seq<Rec>)
    requires forall r :: r in recs ==> Priced(r)
    ensures Sorted(RanksBefore, RunAll(stages, Ranked(recs)))
  {
    hide Priced, RanksBefore;
    var ranked := Ranked(recs);
    RanksBeforeIsStrictWeakOrder();
    SortIsSorted(RanksBefore, recs);
    forall r | r in ranked ensures r in recs {
      assert r in multiset(ranked);
    }
    ChainKeepsUnitPrices(stages, ranked);
    SurvivorsStayRanked(ranked, RunAll(stages, ranked));
  }

  /** Overriding a row and then capping it scales its money once, by the net ratio. */
  lemma OverrideThenCapIsOneRatio(rec: Rec, overrideCount: int, remaining: int)
    requires !IsSavingsPlan(rec.service) && rec.count > 0 && 0 < remaining < overrideCount
    ensures Limit(Overridden([rec], overrideCount), remaining) == [Resized(rec, remaining)]
  {
    hide ScaleCosts;
    var over := Resized(rec, overrideCount);
    ResizedTwice(rec, overrideCount, remaining);
    assert [rec][1..] == [] && [over][1..] == [];
    assert SizedRows(OverrideOne(overrideCount), [rec]) == [over];
    ResizedCount(rec, overrideCount);
    ResizedCount(over, remaining);
  }

  lemma ResizedCount(rec: Rec, n: int)
    requires rec.count != 0
    ensures Resized(rec, n).count == n
  {
  }
}
