/** Where sizing by family lands. The family as a whole stays at or under its target, but each row
    is rounded down on its own, so unlike the sizing of a single pool it is not the largest safe
    purchase: how far it falls short, and when it does not, is stated exactly. */
module FamilyTarget {
  import opened Types
  import opened Sums
  import opened Sizing
  import opened RdsTypes
  import opened FamilySizing

  /** The row counts for something that is not negative. */
  predicate Counted(rec: Rec)
  {
    rec.count >= 0 || UnitsOfType(rec.resourceType) == 0.0
  }

  /** The units of one instance of the row. */
  function OneInstance(rec: Rec): real
  {
    UnitsOfType(rec.resourceType)
  }

  /** The factor by which the counts of a family are scaled. */
  function ScaleOf(members: seq<Rec>, coverage: FamilyCoverage, target: real): real
    requires Rescaled(members, coverage, target)
  {
    UnitsNeeded(coverage, target) / SumReal(RowUnits, members)
  }

  /** The units a row loses when its scaled count is rounded down. */
  function LostUnits(rec: Rec, scale: real): real
  {
    (rec.count as real * scale - ScaledCount(rec, scale) as real) * UnitsOfType(rec.resourceType)
  }

  function Lost(scale: real): Rec -> real
  {
    (rec: Rec) => LostUnits(rec, scale)
  }

  /** The scaled count is whole, or of no consequence. */
  predicate ScalesEvenly(rec: Rec, scale: real)
  {
    UnitsOfType(rec.resourceType) == 0.0 || rec.count as real * scale == ScaledCount(rec, scale) as real
  }

  // ---- One row ------------------------------------------------------------------------------

  /** The units the row keeps when it is scaled. */
  function KeptUnits(rec: Rec, scale: real): real
  {
    match ScaleBy(scale)(rec)
    case Kept(row) => RowUnits(row)
    case Dropped(_) => 0.0
  }

  lemma ResizedShape(rec: Rec, n: int)
    requires rec.count != 0
    ensures Resized(rec, n).count == n && Resized(rec, n).resourceType == rec.resourceType
  {
  }

  lemma RowUnitsAre(rec: Rec)
    ensures RowUnits(rec) == rec.count as real * UnitsOfType(rec.resourceType)
  {
    hide UnitsOfType;
  }

  lemma KeptUnitsAre(rec: Rec, scale: real)
    ensures KeptUnits(rec, scale)
         == if ScaledCount(rec, scale) > 0 then ScaledCount(rec, scale) as real * UnitsOfType(rec.resourceType) else 0.0
  {
    hide Resized, ScaledCount, UnitsOfType;
    NothingScalesFromZero(rec, scale);
    if ScaledCount(rec, scale) > 0 {
      ResizedShape(rec, ScaledCount(rec, scale));
    }
  }

  lemma RoundedShare(scaled: real, n: real, u: real, lost: real, kept: real)
    requires 0.0 <= scaled - n <= 1.0 && u >= 0.0 && lost == (scaled - n) * u && kept == n * u
    ensures kept + lost == scaled * u
    ensures 0.0 <= lost <= u
    ensures lost == 0.0 <==> scaled == n || u == 0.0
  {
    var fraction := scaled - n;
    assert fraction * u == scaled * u - n * u;
    NonNegativeProduct(fraction, u);
    NonNegativeProduct(1.0 - fraction, u);
    assert (1.0 - fraction) * u == u - fraction * u;
    if fraction > 0.0 && u > 0.0 {
      PositiveProduct(fraction, u);
    }
  }

  lemma PositiveProduct(a: real, b: real)
    requires a > 0.0 && b > 0.0
    ensures a * b > 0.0
  {
  }

  lemma Reassociate(scale: real, c: real, u: real)
    ensures (c * scale) * u == scale * (c * u)
  {
  }

  lemma LostUnitsAre(rec: Rec, scale: real)
    ensures LostUnits(rec, scale)
         == (rec.count as real * scale - ScaledCount(rec, scale) as real) * UnitsOfType(rec.resourceType)
  {
    hide UnitsOfType, ScaledCount;
  }

  lemma ScaledCountIsFloor(rec: Rec, scale: real)
    ensures 0.0 <= rec.count as real * scale - ScaledCount(rec, scale) as real <= 1.0
    ensures scale > 0.0 && rec.count >= 0 ==> ScaledCount(rec, scale) >= 0
  {
    NonNegativeProduct(rec.count as real, scale);
  }

  /** A row keeps its scaled share of units, less what rounding down loses: between nothing and one
      instance. */
  lemma KeptIsShareLessLost(rec: Rec, scale: real)
    requires scale > 0.0 && Counted(rec)
    ensures KeptUnits(rec, scale) == scale * RowUnits(rec) - LostUnits(rec, scale)
    ensures 0.0 <= LostUnits(rec, scale) <= OneInstance(rec)
    ensures LostUnits(rec, scale) == 0.0 <==> ScalesEvenly(rec, scale)
  {
    hide KeptUnits, UnitsOfType, RowUnits, LostUnits, ScaledCount;
    var c, u, n := rec.count as real, UnitsOfType(rec.resourceType), ScaledCount(rec, scale);
    var scaled, kept, lost := c * scale, KeptUnits(rec, scale), LostUnits(rec, scale);
    RowUnitsAre(rec);
    KeptUnitsAre(rec, scale);
    LostUnitsAre(rec, scale);
    ScaledCountIsFloor(rec, scale);
    assert kept == n as real * u by {
      if n <= 0 && u != 0.0 {
        assert n == 0;
      }
    }
    RoundedShare(scaled, n as real, u, lost, kept);
    Reassociate(scale, c, u);
  }

  // ---- One family ---------------------------------------------------------------------------

  lemma ScaledHead(members: seq<Rec>, scale: real)
    requires members != []
    ensures SumReal(RowUnits, SizedRows(ScaleBy(scale), members))
         == KeptUnits(members[0], scale) + SumReal(RowUnits, SizedRows(ScaleBy(scale), members[1..]))
  {
    hide ScaleBy, RowUnits;
    var rest := SizedRows(ScaleBy(scale), members[1..]);
    match ScaleBy(scale)(members[0])
    case Kept(row) => assert ([row] + rest)[1..] == rest;
    case Dropped(_) =>
  }

  lemma NoneScaled(scale: real)
    ensures SizedRows(ScaleBy(scale), []) == []
  {
  }

  lemma Distributes(k: real, a: real, b: real)
    ensures k * (a + b) == k * a + k * b
  {
  }

  lemma {:induction false} KeptSum(members: seq<Rec>, scale: real)
    requires scale > 0.0 && forall r :: r in members ==> Counted(r)
    ensures SumReal(RowUnits, SizedRows(ScaleBy(scale), members))
         == scale * SumReal(RowUnits, members) - SumReal(Lost(scale), members)
  {
    hide ScaleBy, RowUnits, KeptUnits, LostUnits, SizedRows, Counted, ScalesEvenly, OneInstance;
    if members == [] {
      NoneScaled(scale);
    } else {
      hide SumReal;
      SumRealHead(RowUnits, members);
      SumRealHead(Lost(scale), members);
      assert members[0] in members;
      KeptSum(members[1..], scale);
      KeptIsShareLessLost(members[0], scale);
      ScaledHead(members, scale);
      Distributes(scale, RowUnits(members[0]), SumReal(RowUnits, members[1..]));
      assert Lost(scale)(members[0]) == LostUnits(members[0], scale);
    }
  }

  lemma {:induction false} LostSum(members: seq<Rec>, scale: real)
    requires scale > 0.0 && forall r :: r in members ==> Counted(r)
    ensures 0.0 <= SumReal(Lost(scale), members) <= SumReal(OneInstance, members)
    ensures SumReal(Lost(scale), members) == 0.0 <==> forall r :: r in members ==> ScalesEvenly(r, scale)
  {
    hide OneInstance, LostUnits, Counted, ScalesEvenly;
    if members != [] {
      assert members[0] in members;
      LostSum(members[1..], scale);
      KeptIsShareLessLost(members[0], scale);
      assert Lost(scale)(members[0]) == LostUnits(members[0], scale);
      assert members == [members[0]] + members[1..];
    }
  }

  lemma ScaleMeetsNeed(need: real, current: real)
    requires current > 0.0 && need > 0.0
    ensures need / current > 0.0 && need / current * current == need
  {
    var q := need / current;
    assert q * current == need;
  }

  lemma ScaleIsPositive(members: seq<Rec>, coverage: FamilyCoverage, target: real)
    requires Rescaled(members, coverage, target)
    ensures UnitsNeeded(coverage, target) > 0.0 && ScaleOf(members, coverage, target) > 0.0
    ensures ScaleOf(members, coverage, target) * SumReal(RowUnits, members) == UnitsNeeded(coverage, target)
  {
    hide RowUnits, SumReal;
    PositiveProduct((target - ExistingPct(coverage)) / 100.0, coverage.totalUnits);
    ScaleMeetsNeed(UnitsNeeded(coverage, target), SumReal(RowUnits, members));
  }

  /** A family lands short of the units it needs by exactly what its rows lose in rounding. */
  lemma FamilyUnitsExact(members: seq<Rec>, coverage: FamilyCoverage, target: real)
    requires Rescaled(members, coverage, target) && forall r :: r in members ==> Counted(r)
    ensures SumReal(RowUnits, FamilyRows(members, coverage, target))
         == UnitsNeeded(coverage, target) - SumReal(Lost(ScaleOf(members, coverage, target)), members)
  {
    hide ScaleBy, RowUnits, SizedRows, Counted, ExistingPct, SumReal;
    var scale := ScaleOf(members, coverage, target);
    ScaleIsPositive(members, coverage, target);
    KeptSum(members, scale);
    var rows := SizedRows(ScaleBy(scale), members);
    AnnotationKeepsUnits(rows, ExistingPct(coverage), FamilyProjection(rows, coverage));
  }

  lemma PercentOfTotal(existing: real, target: real, total: real, units: real)
    requires total > 0.0
    ensures existing + units / total * 100.0 <= target <==> units <= (target - existing) / 100.0 * total
    ensures existing + units / total * 100.0 == target <==> units == (target - existing) / 100.0 * total
  {
    var q := units / total;
    assert q * total == units;
    var gap := (target - existing) / 100.0;
    if q <= gap {
      assert (gap - q) * total >= 0.0;
    } else {
      assert (q - gap) * total > 0.0;
    }
    if q != gap {
      assert (gap - q) * total != 0.0;
    }
  }

  /** Where the family would land with `units` of new cover. */
  function LandsAt(coverage: FamilyCoverage, units: real): real
    requires coverage.totalUnits != 0.0
  {
    ExistingPct(coverage) + units / coverage.totalUnits * 100.0
  }

  /** A rescaled family lands at or under the target, short of the units it needs by at most one
      instance of each of its rows, and every row shows where the family lands. */
  lemma FamilyStaysUnderTarget(members: seq<Rec>, coverage: FamilyCoverage, target: real)
    requires Rescaled(members, coverage, target) && forall r :: r in members ==> Counted(r)
    ensures var rows := FamilyRows(members, coverage, target);
            && UnitsNeeded(coverage, target) - SumReal(OneInstance, members) <= SumReal(RowUnits, rows)
            && SumReal(RowUnits, rows) <= UnitsNeeded(coverage, target)
            && FamilyProjection(rows, coverage) <= target
            && forall r :: r in rows ==> r.projectedCoverage == Clamp100(FamilyProjection(rows, coverage))
  {
    hide ScaleBy, RowUnits, OneInstance, Lost, Counted, SumReal;
    var scale := ScaleOf(members, coverage, target);
    var rows := SizedRows(ScaleBy(scale), members);
    ScaleIsPositive(members, coverage, target);
    FamilyUnitsExact(members, coverage, target);
    LostSum(members, scale);
    AnnotationKeepsUnits(rows, ExistingPct(coverage), FamilyProjection(rows, coverage));
    PercentOfTotal(ExistingPct(coverage), target, coverage.totalUnits,
                   SumReal(RowUnits, FamilyRows(members, coverage, target)));
  }

  /** How much room rounding leaves: further units still fit under the target exactly when they are
      no more than the units lost. */
  lemma MoreFitsIff(members: seq<Rec>, coverage: FamilyCoverage, target: real, units: real)
    requires Rescaled(members, coverage, target) && forall r :: r in members ==> Counted(r)
    ensures LandsAt(coverage, SumReal(RowUnits, FamilyRows(members, coverage, target)) + units) <= target
       <==> units <= SumReal(Lost(ScaleOf(members, coverage, target)), members)
  {
    hide ScaleBy, RowUnits, Lost, Counted, FamilyRows, SumReal, ScaleOf;
    FamilyUnitsExact(members, coverage, target);
    PercentOfTotal(ExistingPct(coverage), target, coverage.totalUnits,
                   SumReal(RowUnits, FamilyRows(members, coverage, target)) + units);
  }

  /** The purchase is the largest safe one, in that not one instance more of any of its rows fits,
      exactly when every row's instance is worth more units than rounding loses in all. */
  lemma LargestSafeIff(members: seq<Rec>, coverage: FamilyCoverage, target: real)
    requires Rescaled(members, coverage, target) && forall r :: r in members ==> Counted(r)
    ensures (forall r :: r in members ==>
              LandsAt(coverage, SumReal(RowUnits, FamilyRows(members, coverage, target)) + OneInstance(r)) > target)
       <==> (forall r :: r in members ==>
              OneInstance(r) > SumReal(Lost(ScaleOf(members, coverage, target)), members))
  {
    hide LandsAt, RowUnits, OneInstance, Lost, Counted, FamilyRows, SumReal, ScaleOf;
    forall r | r in members
      ensures LandsAt(coverage, SumReal(RowUnits, FamilyRows(members, coverage, target)) + OneInstance(r)) <= target
         <==> OneInstance(r) <= SumReal(Lost(ScaleOf(members, coverage, target)), members)
    {
      MoreFitsIff(members, coverage, target, OneInstance(r));
    }
  }

  /** The family lands on the target exactly when every row of a listed size scales to a whole
      count. */
  lemma LandsOnTargetIff(members: seq<Rec>, coverage: FamilyCoverage, target: real)
    requires Rescaled(members, coverage, target) && forall r :: r in members ==> Counted(r)
    ensures FamilyProjection(FamilyRows(members, coverage, target), coverage) == target
       <==> forall r :: r in members ==> ScalesEvenly(r, ScaleOf(members, coverage, target))
  {
    hide RowUnits, Lost, Counted, FamilyRows, SumReal, ScaleOf, ScalesEvenly;
    ScaleIsPositive(members, coverage, target);
    FamilyUnitsExact(members, coverage, target);
    LostSum(members, ScaleOf(members, coverage, target));
    PercentOfTotal(ExistingPct(coverage), target, coverage.totalUnits,
                   SumReal(RowUnits, FamilyRows(members, coverage, target)));
  }

  lemma CountsThatFit(need: real, c: real, u: real, n: int)
    requires c * u > 0.0 && u >= 0.0
    ensures n as real * u <= need <==> n as real <= c * (need / (c * u))
  {
    var scale := need / (c * u);
    assert u > 0.0;
    assert scale * (c * u) == need;
    assert (c * scale) * u == need;
    var d := c * scale - n as real;
    assert d * u == need - n as real * u;
    if d >= 0.0 {
      NonNegativeProduct(d, u);
    } else {
      PositiveProduct(-d, u);
      assert (-d) * u == -(d * u);
    }
  }

  /** A family of one row always gets its largest safe purchase: exactly the counts up to the scaled
      one land at or under the target. */
  lemma OneRowFamilyIsLargestSafe(rec: Rec, coverage: FamilyCoverage, target: real, n: int)
    requires Rescaled([rec], coverage, target)
    ensures LandsAt(coverage, n as real * OneInstance(rec)) <= target
       <==> n <= ScaledCount(rec, ScaleOf([rec], coverage, target))
  {
    hide UnitsOfType, RowUnits, ExistingPct;
    var u, need := UnitsOfType(rec.resourceType), UnitsNeeded(coverage, target);
    SumRealHead(RowUnits, [rec]);
    assert [rec][1..] == [] && SumReal(RowUnits, [rec]) == RowUnits(rec);
    RowUnitsAre(rec);
    PercentOfTotal(ExistingPct(coverage), target, coverage.totalUnits, n as real * u);
    CountsThatFit(need, rec.count as real, u, n);
    FloorIsGreatest(rec.count as real * ScaleOf([rec], coverage, target), n);
  }

  /** Two rows of one instance each, of four units, with room for one of them exactly: each is
      halved and rounded away, and nothing is bought. */
  lemma RoundingCanBuyNothing(row: Rec)
    requires UnitsOfType(row.resourceType) == 4.0
    ensures var members, coverage := [row.(count := 1), row.(count := 1)], FamilyCoverage(16.0, 0.0);
            && Rescaled(members, coverage, 25.0)
            && FamilyRows(members, coverage, 25.0) == []
            && LandsAt(coverage, OneInstance(row)) == 25.0
  {
    hide UnitsOfType, ScaleCosts;
    var one := row.(count := 1);
    var members, coverage := [one, one], FamilyCoverage(16.0, 0.0);
    assert members[1..] == [one] && [one][1..] == [];
    assert RowUnits(one) == 4.0 && SumReal(RowUnits, [one]) == 4.0 && SumReal(RowUnits, members) == 8.0;
    assert ExistingPct(coverage) == 0.0 && UnitsNeeded(coverage, 25.0) == 4.0;
    assert 4.0 / 8.0 == 0.5 && ScaledCount(one, 0.5) == 0;
    assert FamilyRule(members, coverage, 25.0) == ScaleBy(0.5);
    assert ScaleBy(0.5)(one).Dropped?;
    assert SizedRows(ScaleBy(0.5), [one]) == [];
    assert SizedRows(ScaleBy(0.5), members) == [];
  }

  // ---- Negative counts ----------------------------------------------------------------------

  function PositiveUnits(rec: Rec): real
  {
    if rec.count > 0 then RowUnits(rec) else 0.0
  }

  lemma UnscaledRow(rec: Rec)
    ensures KeptUnits(rec, 1.0) == PositiveUnits(rec)
    ensures PositiveUnits(rec) >= RowUnits(rec)
    ensures PositiveUnits(rec) > RowUnits(rec) <==> !Counted(rec)
  {
    hide UnitsOfType;
    KeptUnitsAre(rec, 1.0);
    RowUnitsAre(rec);
    assert ScaledCount(rec, 1.0) == rec.count;
    var u := UnitsOfType(rec.resourceType);
    if rec.count < 0 {
      NonNegativeProduct((-rec.count) as real, u);
      assert (-rec.count) as real * u == -(rec.count as real * u);
      if u > 0.0 {
        PositiveProduct((-rec.count) as real, u);
      }
    }
  }

  lemma {:induction false} UnscaledSum(members: seq<Rec>)
    ensures var kept := SumReal(RowUnits, SizedRows(ScaleBy(1.0), members));
            && kept >= SumReal(RowUnits, members)
            && (kept > SumReal(RowUnits, members) <==> exists r :: r in members && !Counted(r))
  {
    hide ScaleBy, RowUnits, KeptUnits, PositiveUnits, SizedRows, Counted;
    if members == [] {
      NoneScaled(1.0);
    } else {
      UnscaledSum(members[1..]);
      UnscaledRow(members[0]);
      ScaledHead(members, 1.0);
      assert members == [members[0]] + members[1..];
    }
  }

  lemma WholeShare(total: real)
    requires total > 0.0
    ensures total / total == 1.0
    ensures (100.0 - 0.0) / 100.0 * total == total
  {
  }

  /** The coverage and target under which nothing is scaled. */
  lemma UnscaledFamily(members: seq<Rec>)
    requires SumReal(RowUnits, members) > 0.0
    ensures var coverage := FamilyCoverage(SumReal(RowUnits, members), 0.0);
            && Rescaled(members, coverage, 100.0)
            && (FamilyProjection(FamilyRows(members, coverage, 100.0), coverage) <= 100.0 <==>
                  forall r :: r in members ==> Counted(r))
  {
    hide RowUnits, ScaleBy, SizedRows, Counted, SumReal;
    var total := SumReal(RowUnits, members);
    var coverage := FamilyCoverage(total, 0.0);
    WholeShare(total);
    assert ExistingPct(coverage) == 0.0 && UnitsNeeded(coverage, 100.0) == total;
    assert FamilyRule(members, coverage, 100.0) == ScaleBy(1.0);
    var rows := SizedRows(ScaleBy(1.0), members);
    UnscaledSum(members);
    AnnotationKeepsUnits(rows, 0.0, FamilyProjection(rows, coverage));
    PercentOfTotal(0.0, 100.0, total, SumReal(RowUnits, rows));
  }

  /** A family whose rows have units at all lands at or under every target under every coverage if
      and only if no row of a listed size has a negative count. */
  lemma UnderEveryTargetIff(members: seq<Rec>)
    requires SumReal(RowUnits, members) > 0.0
    ensures (forall coverage, target :: Rescaled(members, coverage, target) ==>
              FamilyProjection(FamilyRows(members, coverage, target), coverage) <= target)
       <==> forall r :: r in members ==> Counted(r)
  {
    hide RowUnits, Counted, FamilyRows, FamilyProjection, SumReal;
    UnscaledFamily(members);
    if forall r :: r in members ==> Counted(r) {
      forall coverage, target | Rescaled(members, coverage, target)
        ensures FamilyProjection(FamilyRows(members, coverage, target), coverage) <= target
      {
        FamilyStaysUnderTarget(members, coverage, target);
      }
    }
  }

  lemma OnlyUpIsKept(up: Rec, down: Rec)
    requires up.count == 10 && down.count == -5 && UnitsOfType(up.resourceType) == 4.0
    ensures SizedRows(ScaleBy(1.0), [up, down]) == [Resized(up, 10)]
  {
    hide UnitsOfType, Resized;
    assert ScaledCount(up, 1.0) == 10 && ScaledCount(down, 1.0) == -5;
    assert ScaleBy(1.0)(up) == Kept(Resized(up, 10)) && ScaleBy(1.0)(down).Dropped?;
    assert [up, down][1..] == [down] && [down][1..] == [];
    assert SizedRows(ScaleBy(1.0), [down]) == SizedRows(ScaleBy(1.0), []);
  }

  lemma UnitsOfOne(rec: Rec)
    ensures SumReal(RowUnits, [rec]) == RowUnits(rec)
  {
    hide RowUnits;
    assert [rec][1..] == [];
  }

  lemma UnitsOfTwo(a: Rec, b: Rec)
    ensures SumReal(RowUnits, [a, b]) == RowUnits(a) + RowUnits(b)
  {
    hide RowUnits;
    assert [a, b][1..] == [b];
    UnitsOfOne(b);
  }

  /** Beside a row of -5 a row of 10 is not scaled down to the need of 5: the family overshoots. */
  lemma NegativeCountOvershoots(row: Rec)
    requires UnitsOfType(row.resourceType) == 4.0
    ensures var members, coverage := [row.(count := 10), row.(count := -5)], FamilyCoverage(100.0, 0.0);
            && Rescaled(members, coverage, 20.0)
            && FamilyProjection(FamilyRows(members, coverage, 20.0), coverage) == 40.0
  {
    hide UnitsOfType, Resized, RowUnits, SumReal, SizedRows, ScaleBy, Annotated;
    var up, down := row.(count := 10), row.(count := -5);
    var members, coverage := [up, down], FamilyCoverage(100.0, 0.0);
    var rows := SizedRows(ScaleBy(1.0), members);
    OnlyUpIsKept(up, down);
    ResizedShape(up, 10);
    RowUnitsAre(up);
    RowUnitsAre(down);
    RowUnitsAre(Resized(up, 10));
    UnitsOfTwo(up, down);
    UnitsOfOne(Resized(up, 10));
    assert ExistingPct(coverage) == 0.0 && UnitsNeeded(coverage, 20.0) == 20.0;
    assert FamilyRule(members, coverage, 20.0) == ScaleBy(1.0);
    AnnotationKeepsUnits(rows, 0.0, FamilyProjection(rows, coverage));
  }
}
