/** Sizing of RDS reservations by family under a coverage target: the provider bundles the demand
    of a size-flexible family into one recommendation, so the target is met for the family's
    normalized units as a whole. Families are visited in whatever order the map yields them. */
module FamilySizing {
  import opened Types
  import opened Sums
  import opened Drops
  import opened Sizing
  import opened RdsTypes

  /** How many units a family runs on average, and how many of them are covered already. */
  datatype FamilyCoverage = FamilyCoverage(totalUnits: real, coveredUnits: real)

  /** The key that groups rows of one region, family, engine and deployment, the coverage known
      under it, and the order in which the map of families happens to be visited. */
  datatype Families = Families(
    keyOf: Rec -> string,
    coverage: string -> FamilyCoverage,
    arrange: seq<string> -> seq<string>
  )

  /** A reservation of a database type that names its family. */
  predicate IsFamilyRow(rec: Rec)
  {
    rec.commitmentType.ReservedInstance? && IsDatabaseService(rec.service) && FamilyOf(rec.resourceType) != ""
  }

  predicate IsOtherRow(rec: Rec)
  {
    !IsFamilyRow(rec)
  }

  function InFamily(key: string, keyOf: Rec -> string): Rec -> bool
  {
    (rec: Rec) => IsFamilyRow(rec) && keyOf(rec) == key
  }

  function Members(key: string, keyOf: Rec -> string, recs: seq<Rec>): seq<Rec>
  {
    Filter(InFamily(key, keyOf), recs)
  }

  // ---- One family -------------------------------------------------------------------------

  function ExistingPct(coverage: FamilyCoverage): real
    requires coverage.totalUnits != 0.0
  {
    coverage.coveredUnits / coverage.totalUnits * 100.0
  }

  /** The units that fill the gap between the family's coverage and the target. */
  function UnitsNeeded(coverage: FamilyCoverage, target: real): real
    requires coverage.totalUnits != 0.0
  {
    (target - ExistingPct(coverage)) / 100.0 * coverage.totalUnits
  }

  function ScaledCount(rec: Rec, scale: real): int
  {
    (rec.count as real * scale).Floor
  }

  function ScaleBy(scale: real): Rec -> Sized
  {
    (rec: Rec) =>
      var n := ScaledCount(rec, scale);
      if n > 0 && rec.count != 0 then Kept(Resized(rec, n)) else Dropped(FAMILY_SIZED_TO_ZERO)
  }

  function KeepAsIs(): Rec -> Sized
  {
    (rec: Rec) => Kept(rec)
  }

  function DropAllFor(reason: string): Rec -> Sized
  {
    (rec: Rec) => Dropped(reason)
  }

  /** What happens to each row of a family. */
  function FamilyRule(members: seq<Rec>, coverage: FamilyCoverage, target: real): Rec -> Sized
  {
    if coverage.totalUnits <= 0.0 then KeepAsIs()
    else if target - ExistingPct(coverage) <= 0.0 then DropAllFor(FAMILY_ALREADY_AT_TARGET)
    else if SumReal(RowUnits, members) <= 0.0 then DropAllFor(FAMILY_NO_NU_SIGNAL)
    else ScaleBy(UnitsNeeded(coverage, target) / SumReal(RowUnits, members))
  }

  /** Whether the rows of a family get rescaled, rather than kept as they are or dropped at once. */
  predicate Rescaled(members: seq<Rec>, coverage: FamilyCoverage, target: real)
  {
    coverage.totalUnits > 0.0 && target - ExistingPct(coverage) > 0.0 && SumReal(RowUnits, members) > 0.0
  }

  /** Where the whole family lands, unclamped. */
  function FamilyProjection(sized: seq<Rec>, coverage: FamilyCoverage): real
    requires coverage.totalUnits != 0.0
  {
    ExistingPct(coverage) + SumReal(RowUnits, sized) / coverage.totalUnits * 100.0
  }

  function AnnotatedRow(rec: Rec, existing: real, projection: real): Rec
  {
    rec.(
      existingCoverage := existing,
      existingCoverageKnown := true,
      projectedCoverage := Clamp100(projection),
      projectedUtilization :=
        if rec.averageInstances > 0.0 && rec.count != 0
        then Clamp100(rec.averageInstances / rec.count as real * 100.0) else rec.projectedUtilization
    )
  }

  function Annotated(rows: seq<Rec>, existing: real, projection: real): (r: seq<Rec>)
    ensures |r| == |rows|
    ensures forall i :: 0 <= i < |r| ==> r[i] == AnnotatedRow(rows[i], existing, projection)
  {
    seq(|rows|, i requires 0 <= i < |rows| => AnnotatedRow(rows[i], existing, projection))
  }

  /** The rows of a family that survive, each with the projection of the family as a whole. */
  function FamilyRows(members: seq<Rec>, coverage: FamilyCoverage, target: real): seq<Rec>
  {
    var rows := SizedRows(FamilyRule(members, coverage, target), members);
    if Rescaled(members, coverage, target)
    then Annotated(rows, ExistingPct(coverage), FamilyProjection(rows, coverage)) else rows
  }

  function FamilyDropsFor(members: seq<Rec>, coverage: FamilyCoverage, target: real, reason: string): nat
  {
    DropsFor(FamilyRule(members, coverage, target), reason, members)
  }

  datatype DropCounts = DropCounts(alreadyAtTarget: int, noUnitsSignal: int, sizedToZero: int)

  function CountsFor(members: seq<Rec>, coverage: FamilyCoverage, target: real): DropCounts
  {
    DropCounts(FamilyDropsFor(members, coverage, target, FAMILY_ALREADY_AT_TARGET),
               FamilyDropsFor(members, coverage, target, FAMILY_NO_NU_SIGNAL),
               FamilyDropsFor(members, coverage, target, FAMILY_SIZED_TO_ZERO))
  }

  lemma FamilyReasonsDiffer()
    ensures FAMILY_ALREADY_AT_TARGET != FAMILY_NO_NU_SIGNAL
    ensures FAMILY_ALREADY_AT_TARGET != FAMILY_SIZED_TO_ZERO && FAMILY_NO_NU_SIGNAL != FAMILY_SIZED_TO_ZERO
  {
    assert |FAMILY_ALREADY_AT_TARGET| == 27 && |FAMILY_NO_NU_SIGNAL| == 22 && |FAMILY_SIZED_TO_ZERO| == 23;
  }

  lemma {:induction false} KeepingDropsNothing(reason: string, recs: seq<Rec>)
    ensures SizedRows(KeepAsIs(), recs) == recs && DropsFor(KeepAsIs(), reason, recs) == 0
  {
    if recs != [] {
      KeepingDropsNothing(reason, recs[1..]);
    }
  }

  lemma {:induction false} DroppingKeepsNothing(why: string, reason: string, recs: seq<Rec>)
    ensures SizedRows(DropAllFor(why), recs) == []
    ensures DropsFor(DropAllFor(why), reason, recs) == if reason == why then |recs| else 0
  {
    if recs != [] {
      DroppingKeepsNothing(why, reason, recs[1..]);
    }
  }

  lemma {:induction false} ScalingDropsOnly(scale: real, reason: string, recs: seq<Rec>)
    ensures reason != FAMILY_SIZED_TO_ZERO ==> DropsFor(ScaleBy(scale), reason, recs) == 0
    ensures |recs| == |SizedRows(ScaleBy(scale), recs)| + DropsFor(ScaleBy(scale), FAMILY_SIZED_TO_ZERO, recs)
  {
    if recs != [] {
      hide ScaleCosts, ScaledCount;
      ScalingDropsOnly(scale, reason, recs[1..]);
    }
  }

  lemma AnnotationKeepsUnits(rows: seq<Rec>, existing: real, projection: real)
    ensures SumReal(RowUnits, Annotated(rows, existing, projection)) == SumReal(RowUnits, rows)
  {
    hide UnitsOfType;
    if rows != [] {
      AnnotationKeepsUnits(rows[1..], existing, projection);
      assert Annotated(rows, existing, projection)[1..] == Annotated(rows[1..], existing, projection);
    }
  }

  // ---- What one family comes to, in its own terms ---------------------------------------------

  /** The units that are missing for `target` percent of the family's total. */
  function Missing(coverage: FamilyCoverage, target: real): real
  {
    target * coverage.totalUnits / 100.0 - coverage.coveredUnits
  }

  /** Of units `have` in all, `need` are wanted: this row gets one instance or more. */
  predicate GetsSome(rec: Rec, need: real, have: real)
  {
    rec.count as real * need >= have
  }

  function Getting(need: real, have: real): Rec -> bool
  {
    (rec: Rec) => GetsSome(rec, need, have)
  }

  function GettingNone(need: real, have: real): Rec -> bool
  {
    (rec: Rec) => !GetsSome(rec, need, have)
  }

  /** A rescaled row gets the most whole instances within its part of the need, at its prices, and shows
      where the family lands with `bought` units in all. */
  predicate IsRescaled(rec: Rec, row: Rec, need: real, have: real, coverage: FamilyCoverage, bought: real)
  {
    && SameOffer(rec, row) && row.count > 0
    && row.count as real * have <= rec.count as real * need < (row.count + 1) as real * have
    && MoneyIn(rec, row, row.count as real, rec.count as real)
    && row.existingCoverageKnown
    && row.existingCoverage * coverage.totalUnits == coverage.coveredUnits * 100.0
    && IsPercentUpTo100(row.projectedCoverage, coverage.coveredUnits + bought, coverage.totalUnits)
    && (if rec.averageInstances > 0.0
        then IsPercentUpTo100(row.projectedUtilization, rec.averageInstances, row.count as real)
        else row.projectedUtilization == rec.projectedUtilization)
  }

  function FamilyPromise(need: real, have: real, coverage: FamilyCoverage, bought: real): (Rec, Rec) -> bool
  {
    (rec: Rec, row: Rec) => IsRescaled(rec, row, need, have, coverage, bought)
  }

  lemma SignOfProduct(a: real, b: real)
    requires b > 0.0
    ensures a * b > 0.0 <==> a > 0.0
    ensures a * b >= 0.0 <==> a >= 0.0
  {
    NonNegativeProduct(a, b);
    NonNegativeProduct(-a, b);
    if a * b == 0.0 {
      assert a == 0.0;
    }
  }

  lemma PercentOf(part: real, whole: real)
    requires whole > 0.0
    ensures part / whole * 100.0 * whole == part * 100.0
  {
    var q := part / whole;
    assert q * whole == part;
    assert q * 100.0 * whole == q * whole * 100.0;
  }

  lemma GapInUnits(target: real, pct: real, total: real)
    ensures (target - pct) / 100.0 * total == (target * total - pct * total) / 100.0
  {
    assert (target - pct) * total == target * total - pct * total;
    assert (target - pct) / 100.0 * total == (target - pct) * total / 100.0;
  }

  lemma MissingUnits(coverage: FamilyCoverage, target: real)
    requires coverage.totalUnits > 0.0
    ensures UnitsNeeded(coverage, target) == Missing(coverage, target)
    ensures ExistingPct(coverage) * coverage.totalUnits == coverage.coveredUnits * 100.0
    ensures Missing(coverage, target) > 0.0 <==> target - ExistingPct(coverage) > 0.0
  {
    var total, pct := coverage.totalUnits, ExistingPct(coverage);
    PercentOf(coverage.coveredUnits, total);
    GapInUnits(target, pct, total);
    SignOfProduct((target - pct) / 100.0, total);
  }

  lemma PartFits(c: real, n: real, need: real, have: real)
    requires have > 0.0
    ensures n <= c * (need / have) <==> n * have <= c * need
  {
    var scale := need / have;
    assert scale * have == need;
    assert c * scale * have == c * (scale * have);
    assert (c * scale - n) * have == c * scale * have - n * have;
    SignOfProduct(c * scale - n, have);
  }

  lemma ScaledCountIsGreatest(rec: Rec, need: real, have: real)
    requires need > 0.0 && have > 0.0
    ensures var n := ScaledCount(rec, need / have);
            && (n > 0 <==> GetsSome(rec, need, have))
            && n as real * have <= rec.count as real * need < (n + 1) as real * have
            && (n > 0 ==> rec.count > 0)
  {
    var c, n := rec.count as real, ScaledCount(rec, need / have);
    PartFits(c, 1.0, need, have);
    PartFits(c, n as real, need, have);
    PartFits(c, (n + 1) as real, need, have);
    if rec.count <= 0 {
      NonNegativeProduct(-c, need);
    }
  }

  lemma LandsWhere(coverage: FamilyCoverage, bought: real)
    requires coverage.totalUnits > 0.0
    ensures IsPercentUpTo100(Clamp100(ExistingPct(coverage) + bought / coverage.totalUnits * 100.0),
                             coverage.coveredUnits + bought, coverage.totalUnits)
  {
    hide IsPercentUpTo100, Clamp100;
    var total, covered := coverage.totalUnits, coverage.coveredUnits;
    ClampedPercent(covered + bought, total);
    assert (covered + bought) / total * 100.0 == covered / total * 100.0 + bought / total * 100.0;
  }

  lemma RowKeepsPromise(rec: Rec, need: real, have: real, coverage: FamilyCoverage, bought: real)
    requires need > 0.0 && have > 0.0 && coverage.totalUnits > 0.0 && GetsSome(rec, need, have)
    ensures rec.count > 0
    ensures var n := ScaledCount(rec, need / have);
            n > 0 && IsRescaled(rec, AnnotatedRow(Resized(rec, n), ExistingPct(coverage),
                                                  ExistingPct(coverage) + bought / coverage.totalUnits * 100.0),
                                need, have, coverage, bought)
  {
    hide ScaledCount, Resized, ExistingPct, IsPercentUpTo100, Clamp100, MoneyIn, SameOffer;
    var n := ScaledCount(rec, need / have);
    var projection := ExistingPct(coverage) + bought / coverage.totalUnits * 100.0;
    ScaledCountIsGreatest(rec, need, have);
    MoneyResized(rec, n);
    MissingUnits(coverage, 0.0);
    LandsWhere(coverage, bought);
    ClampedPercent(rec.averageInstances, n as real);
    AnnotationKeepsMoney(rec, Resized(rec, n), ExistingPct(coverage), projection);
    ResizedKeepsUtilization(rec, n);
  }

  lemma ResizedKeepsUtilization(rec: Rec, n: int)
    requires rec.count != 0
    ensures Resized(rec, n).averageInstances == rec.averageInstances
    ensures Resized(rec, n).projectedUtilization == rec.projectedUtilization
  {
  }

  lemma AnnotationKeepsMoney(rec: Rec, row: Rec, existing: real, projection: real)
    requires rec.count != 0 && SameOffer(rec, row) && MoneyIn(rec, row, row.count as real, rec.count as real)
    ensures var shown := AnnotatedRow(row, existing, projection);
            && SameOffer(rec, shown) && shown.count == row.count
            && MoneyIn(rec, shown, shown.count as real, rec.count as real)
  {
  }

  function AnnotatedBy(scale: real, existing: real, projection: real): Rec -> Sized
  {
    (rec: Rec) =>
      var n := ScaledCount(rec, scale);
      if n > 0 && rec.count != 0 then Kept(AnnotatedRow(Resized(rec, n), existing, projection))
      else Dropped(FAMILY_SIZED_TO_ZERO)
  }

  lemma {:induction false} AnnotatedRowByRow(scale: real, existing: real, projection: real, recs: seq<Rec>)
    ensures Annotated(SizedRows(ScaleBy(scale), recs), existing, projection)
         == SizedRows(AnnotatedBy(scale, existing, projection), recs)
    ensures DropsFor(ScaleBy(scale), FAMILY_SIZED_TO_ZERO, recs)
         == DropsFor(AnnotatedBy(scale, existing, projection), FAMILY_SIZED_TO_ZERO, recs)
  {
    hide AnnotatedRow, Resized, ScaledCount;
    if recs != [] {
      AnnotatedRowByRow(scale, existing, projection, recs[1..]);
    }
  }

  lemma RescaledAsPromised(members: seq<Rec>, coverage: FamilyCoverage, need: real, have: real, bought: real)
    requires need > 0.0 && have > 0.0 && coverage.totalUnits > 0.0
    ensures var existing := ExistingPct(coverage);
            var rows := Annotated(SizedRows(ScaleBy(need / have), members), existing,
                                  existing + bought / coverage.totalUnits * 100.0);
            && RowByRow(FamilyPromise(need, have, coverage, bought), Filter(Getting(need, have), members), rows)
            && DropsFor(ScaleBy(need / have), FAMILY_SIZED_TO_ZERO, members)
                 == |Filter(GettingNone(need, have), members)|
  {
    var existing := ExistingPct(coverage);
    var projection := existing + bought / coverage.totalUnits * 100.0;
    var size := AnnotatedBy(need / have, existing, projection);
    AnnotatedRowByRow(need / have, existing, projection, members);
    hide ExistingPct, IsRescaled, GetsSome, AnnotatedRow, Resized, ScaledCount;
    forall r | r in members
      ensures size(r).Kept? <==> GetsSome(r, need, have)
      ensures size(r) == Dropped(FAMILY_SIZED_TO_ZERO) <==> !GetsSome(r, need, have)
      ensures size(r).Kept? ==> IsRescaled(r, size(r).row, need, have, coverage, bought)
    {
      ScaledCountIsGreatest(r, need, have);
      if GetsSome(r, need, have) {
        RowKeepsPromise(r, need, have, coverage, bought);
      }
    }
    KeptAsPromised(size, Getting(need, have), FamilyPromise(need, have, coverage, bought), members);
    DroppedFor(size, FAMILY_SIZED_TO_ZERO, GettingNone(need, have), members);
  }

  /** In the family's own terms: unknown and left alone, at its target, of no known size, or rescaled to
      what is missing. */
  ghost predicate SizesFamily(members: seq<Rec>, coverage: FamilyCoverage, target: real, sized: seq<Rec>,
                              drops: DropCounts)
  {
    var need, have := Missing(coverage, target), SumReal(RowUnits, members);
    if coverage.totalUnits <= 0.0 then sized == members && drops == DropCounts(0, 0, 0)
    else if need <= 0.0 then
      sized == [] && drops == DropCounts(|members|, 0, 0)
    else if have <= 0.0 then sized == [] && drops == DropCounts(0, |members|, 0)
    else
      && drops == DropCounts(0, 0, |Filter(GettingNone(need, have), members)|)
      && RowByRow(FamilyPromise(need, have, coverage, SumReal(RowUnits, sized)),
                  Filter(Getting(need, have), members), sized)
  }

  lemma FamilyAsPromised(members: seq<Rec>, coverage: FamilyCoverage, target: real)
    ensures SizesFamily(members, coverage, target, FamilyRows(members, coverage, target),
                        CountsFor(members, coverage, target))
  {
    hide SizesFamily, FamilyRows, CountsFor, Rescaled;
    if Rescaled(members, coverage, target) {
      RescaledFamily(members, coverage, target);
    } else {
      WholeFamily(members, coverage, target);
    }
  }

  lemma WholeFamily(members: seq<Rec>, coverage: FamilyCoverage, target: real)
    requires !Rescaled(members, coverage, target)
    ensures SizesFamily(members, coverage, target, FamilyRows(members, coverage, target),
                        CountsFor(members, coverage, target))
  {
    hide RowUnits, ExistingPct, UnitsNeeded, Missing, DropsFor, SizedRows, FamilyPromise;
    FamilyReasonsDiffer();
    if coverage.totalUnits <= 0.0 {
      KeepingDropsNothing(FAMILY_ALREADY_AT_TARGET, members);
      KeepingDropsNothing(FAMILY_NO_NU_SIGNAL, members);
      KeepingDropsNothing(FAMILY_SIZED_TO_ZERO, members);
    } else {
      MissingUnits(coverage, target);
      var why := if target - ExistingPct(coverage) <= 0.0 then FAMILY_ALREADY_AT_TARGET else FAMILY_NO_NU_SIGNAL;
      DroppingKeepsNothing(why, FAMILY_ALREADY_AT_TARGET, members);
      DroppingKeepsNothing(why, FAMILY_NO_NU_SIGNAL, members);
      DroppingKeepsNothing(why, FAMILY_SIZED_TO_ZERO, members);
    }
  }

  lemma RescaledFamily(members: seq<Rec>, coverage: FamilyCoverage, target: real)
    requires Rescaled(members, coverage, target)
    ensures SizesFamily(members, coverage, target, FamilyRows(members, coverage, target),
                        CountsFor(members, coverage, target))
  {
    hide RowUnits, ExistingPct, UnitsNeeded, Missing, DropsFor, SizedRows, FamilyPromise, ScaleBy, AnnotatedRow;
    hide SumReal, RowByRow, Filter;
    FamilyReasonsDiffer();
    MissingUnits(coverage, target);
    var need, have := UnitsNeeded(coverage, target), SumReal(RowUnits, members);
    var rows := SizedRows(ScaleBy(need / have), members);
    var bought := SumReal(RowUnits, rows);
    RescaledAsPromised(members, coverage, need, have, bought);
    AnnotationKeepsUnits(rows, ExistingPct(coverage), ExistingPct(coverage) + bought / coverage.totalUnits * 100.0);
    ScalingDropsOnly(need / have, FAMILY_ALREADY_AT_TARGET, members);
    ScalingDropsOnly(need / have, FAMILY_NO_NU_SIGNAL, members);
  }

  /** One family: keep it as it is, drop it whole, or rescale it and annotate what is left. */
  method SizeRdsFamily(members: seq<Rec>, coverage: FamilyCoverage, target: real)
    returns (sized: seq<Rec>, drops: DropCounts)
    ensures sized == FamilyRows(members, coverage, target)
    ensures drops == CountsFor(members, coverage, target)
    ensures SizesFamily(members, coverage, target, sized, drops)
  {
    hide SizesFamily, AnnotatedRow, ScaleBy, RowUnits, ExistingPct, UnitsNeeded;
    FamilyReasonsDiffer();
    FamilyAsPromised(members, coverage, target);
    if coverage.totalUnits <= 0.0 {
      KeepingDropsNothing(FAMILY_ALREADY_AT_TARGET, members);
      KeepingDropsNothing(FAMILY_NO_NU_SIGNAL, members);
      KeepingDropsNothing(FAMILY_SIZED_TO_ZERO, members);
      return members, DropCounts(0, 0, 0);
    }
    var existing := ExistingPct(coverage);
    if target - existing <= 0.0 {
      DroppingKeepsNothing(FAMILY_ALREADY_AT_TARGET, FAMILY_ALREADY_AT_TARGET, members);
      DroppingKeepsNothing(FAMILY_ALREADY_AT_TARGET, FAMILY_NO_NU_SIGNAL, members);
      DroppingKeepsNothing(FAMILY_ALREADY_AT_TARGET, FAMILY_SIZED_TO_ZERO, members);
      return [], DropCounts(|members|, 0, 0);
    }
    var current := TotalUnits(members);
    if current <= 0.0 {
      DroppingKeepsNothing(FAMILY_NO_NU_SIGNAL, FAMILY_ALREADY_AT_TARGET, members);
      DroppingKeepsNothing(FAMILY_NO_NU_SIGNAL, FAMILY_NO_NU_SIGNAL, members);
      DroppingKeepsNothing(FAMILY_NO_NU_SIGNAL, FAMILY_SIZED_TO_ZERO, members);
      return [], DropCounts(0, |members|, 0);
    }
    var scale := UnitsNeeded(coverage, target) / current;
    var newUnits, zeroDrops;
    sized, newUnits, zeroDrops := ScaleFamilyRecs(members, scale);
    ScalingDropsOnly(scale, FAMILY_ALREADY_AT_TARGET, members);
    ScalingDropsOnly(scale, FAMILY_NO_NU_SIGNAL, members);
    sized := AnnotateFamilyProjection(sized, existing, existing + newUnits / coverage.totalUnits * 100.0);
    drops := DropCounts(0, 0, zeroDrops);
  }

  method TotalUnits(members: seq<Rec>) returns (units: real)
    ensures units == SumReal(RowUnits, members)
  {
    units := 0.0;
    for i := 0 to |members|
      invariant units == SumReal(RowUnits, members[..i])
    {
      assert members[..i + 1] == members[..i] + [members[i]];
      SumRealStep(RowUnits, members[..i], members[i]);
      units := units + RowUnits(members[i]);
    }
    assert members[..|members|] == members;
  }

  /** First pass: scale each count down to whole instances, and drop what is left with none. */
  method ScaleFamilyRecs(members: seq<Rec>, scale: real) returns (sized: seq<Rec>, newUnits: real, zeroDrops: int)
    ensures sized == SizedRows(ScaleBy(scale), members)
    ensures newUnits == SumReal(RowUnits, sized)
    ensures zeroDrops == DropsFor(ScaleBy(scale), FAMILY_SIZED_TO_ZERO, members)
  {
    hide ScaleCosts, RowUnits;
    sized, newUnits, zeroDrops := [], 0.0, 0;
    for i := 0 to |members|
      invariant sized == SizedRows(ScaleBy(scale), members[..i])
      invariant newUnits == SumReal(RowUnits, sized)
      invariant zeroDrops == DropsFor(ScaleBy(scale), FAMILY_SIZED_TO_ZERO, members[..i])
    {
      var rec := members[i];
      assert members[..i + 1] == members[..i] + [rec];
      SizingStep(ScaleBy(scale), members[..i], rec);
      var n := ScaledCount(rec, scale);
      if n <= 0 {
        zeroDrops := zeroDrops + 1;
        continue;
      }
      NothingScalesFromZero(rec, scale);
      var row := Resized(rec, n);
      SumRealStep(RowUnits, sized, row);
      sized, newUnits := sized + [row], newUnits + RowUnits(row);
    }
    assert members[..|members|] == members;
  }

  lemma NothingScalesFromZero(rec: Rec, scale: real)
    ensures rec.count == 0 ==> ScaledCount(rec, scale) == 0
  {
  }

  /** Second pass: every row shows where the family lands, not its own slice of it. */
  method AnnotateFamilyProjection(rows: seq<Rec>, existing: real, projection: real) returns (annotated: seq<Rec>)
    ensures annotated == Annotated(rows, existing, projection)
  {
    hide AnnotatedRow;
    annotated := [];
    for i := 0 to |rows|
      invariant annotated == Annotated(rows[..i], existing, projection)
    {
      annotated := annotated + [AnnotatedRow(rows[i], existing, projection)];
    }
    assert rows[..|rows|] == rows;
  }

  // ---- What family sizing keeps --------------------------------------------------------------

  /** Every row of a family is kept or counted under one of its three reasons. */
  lemma FamilyConserves(members: seq<Rec>, coverage: FamilyCoverage, target: real)
    ensures var drops := CountsFor(members, coverage, target);
            |members| == |FamilyRows(members, coverage, target)|
                       + drops.alreadyAtTarget + drops.noUnitsSignal + drops.sizedToZero
  {
    var rule := FamilyRule(members, coverage, target);
    FamilyReasonsDiffer();
    hide ScaleBy, RowUnits, UnitsNeeded, AnnotatedRow;
    if coverage.totalUnits <= 0.0 {
      KeepingDropsNothing(FAMILY_ALREADY_AT_TARGET, members);
      KeepingDropsNothing(FAMILY_NO_NU_SIGNAL, members);
      KeepingDropsNothing(FAMILY_SIZED_TO_ZERO, members);
    } else if !Rescaled(members, coverage, target) {
      var why := if target - ExistingPct(coverage) <= 0.0 then FAMILY_ALREADY_AT_TARGET else FAMILY_NO_NU_SIGNAL;
      DroppingKeepsNothing(why, FAMILY_ALREADY_AT_TARGET, members);
      DroppingKeepsNothing(why, FAMILY_NO_NU_SIGNAL, members);
      DroppingKeepsNothing(why, FAMILY_SIZED_TO_ZERO, members);
    } else {
      var scale := UnitsNeeded(coverage, target) / SumReal(RowUnits, members);
      ScalingDropsOnly(scale, FAMILY_ALREADY_AT_TARGET, members);
      ScalingDropsOnly(scale, FAMILY_NO_NU_SIGNAL, members);
    }
  }

  /** Family sizing keeps counts non-negative. */
  lemma FamilyStaysNonNegative(members: seq<Rec>, coverage: FamilyCoverage, target: real)
    requires forall r :: r in members ==> r.count >= 0
    ensures forall r :: r in FamilyRows(members, coverage, target) ==> r.count >= 0
  {
    hide RowUnits, ExistingPct, UnitsNeeded, ScaleCosts;
    var rows := SizedRows(FamilyRule(members, coverage, target), members);
    KeptNonNegative(FamilyRule(members, coverage, target), members);
    forall i | 0 <= i < |rows| ensures rows[i].count >= 0 {
      assert rows[i] in rows;
    }
  }

  lemma {:induction false} KeptNonNegative(size: Rec -> Sized, recs: seq<Rec>)
    requires forall r :: r in recs && size(r).Kept? ==> size(r).row.count >= 0
    ensures forall r :: r in SizedRows(size, recs) ==> r.count >= 0
  {
    if recs != [] {
      KeptNonNegative(size, recs[1..]);
      assert recs[0] in recs;
    }
  }

  // ---- All families of a pass ----------------------------------------------------------------

  /** The keys of the families present, each once. */
  function KeysOf(recs: seq<Rec>, keyOf: Rec -> string): seq<string>
  {
    if recs == [] then []
    else
      var last := recs[|recs| - 1];
      var before := KeysOf(recs[..|recs| - 1], keyOf);
      if IsFamilyRow(last) && keyOf(last) !in before then before + [keyOf(last)] else before
  }

  /** The order in which the keys are visited: any order there is. */
  function Visited(keys: seq<string>, arrange: seq<string> -> seq<string>): (visited: seq<string>)
    ensures multiset(visited) == multiset(keys)
  {
    if multiset(arrange(keys)) == multiset(keys) then arrange(keys) else keys
  }

  function RowsUnder(key: string, recs: seq<Rec>, families: Families, target: real): seq<Rec>
  {
    FamilyRows(Members(key, families.keyOf, recs), families.coverage(key), target)
  }

  function RowsUnderAll(keys: seq<string>, recs: seq<Rec>, families: Families, target: real): seq<Rec>
  {
    if keys == [] then []
    else
      var last := |keys| - 1;
      RowsUnderAll(keys[..last], recs, families, target) + RowsUnder(keys[last], recs, families, target)
  }

  predicate InRange(target: real)
  {
    0.0 < target <= 100.0
  }

  function FamilySized(recs: seq<Rec>, families: Families, target: real): seq<Rec>
  {
    if !InRange(target) then []
    else RowsUnderAll(Visited(KeysOf(recs, families.keyOf), families.arrange), recs, families, target)
  }

  /** The rows that go on to per-pool sizing. */
  function FamilyRest(recs: seq<Rec>, target: real): seq<Rec>
  {
    if InRange(target) then Filter(IsOtherRow, recs) else recs
  }

  function CountsUnder(key: string, recs: seq<Rec>, families: Families, target: real): DropCounts
  {
    CountsFor(Members(key, families.keyOf, recs), families.coverage(key), target)
  }

  function AlreadyUnder(recs: seq<Rec>, families: Families, target: real): string -> int
  {
    (key: string) => CountsUnder(key, recs, families, target).alreadyAtTarget
  }

  function NoSignalUnder(recs: seq<Rec>, families: Families, target: real): string -> int
  {
    (key: string) => CountsUnder(key, recs, families, target).noUnitsSignal
  }

  function ZeroUnder(recs: seq<Rec>, families: Families, target: real): string -> int
  {
    (key: string) => CountsUnder(key, recs, families, target).sizedToZero
  }

  function CountsOver(keys: seq<string>, recs: seq<Rec>, families: Families, target: real): DropCounts
  {
    DropCounts(SumInt(AlreadyUnder(recs, families, target), keys),
               SumInt(NoSignalUnder(recs, families, target), keys),
               SumInt(ZeroUnder(recs, families, target), keys))
  }

  function FamilyCounts(recs: seq<Rec>, families: Families, target: real): DropCounts
  {
    if InRange(target) then CountsOver(KeysOf(recs, families.keyOf), recs, families, target) else DropCounts(0, 0, 0)
  }

  function Plus(a: DropCounts, b: DropCounts): DropCounts
  {
    DropCounts(a.alreadyAtTarget + b.alreadyAtTarget, a.noUnitsSignal + b.noUnitsSignal, a.sizedToZero + b.sizedToZero)
  }

  lemma OneMoreFamily(keys: seq<string>, key: string, recs: seq<Rec>, families: Families, target: real)
    ensures CountsOver(keys + [key], recs, families, target)
         == Plus(CountsOver(keys, recs, families, target), CountsUnder(key, recs, families, target))
    ensures RowsUnderAll(keys + [key], recs, families, target)
         == RowsUnderAll(keys, recs, families, target) + RowsUnder(key, recs, families, target)
  {
    hide CountsUnder, RowsUnder, SumInt;
    SumIntStep(AlreadyUnder(recs, families, target), keys, key);
    SumIntStep(NoSignalUnder(recs, families, target), keys, key);
    SumIntStep(ZeroUnder(recs, families, target), keys, key);
    assert (keys + [key])[..|keys|] == keys;
  }

  lemma CountsIgnoreOrder(a: seq<string>, b: seq<string>, recs: seq<Rec>, families: Families, target: real)
    requires multiset(a) == multiset(b)
    ensures CountsOver(a, recs, families, target) == CountsOver(b, recs, families, target)
  {
    hide CountsUnder;
    SumIntPermutation(AlreadyUnder(recs, families, target), a, b);
    SumIntPermutation(NoSignalUnder(recs, families, target), a, b);
    SumIntPermutation(ZeroUnder(recs, families, target), a, b);
  }

  lemma PartitionStep(recs: seq<Rec>, rec: Rec, keyOf: Rec -> string)
    ensures KeysOf(recs + [rec], keyOf)
         == KeysOf(recs, keyOf) + if IsFamilyRow(rec) && keyOf(rec) !in KeysOf(recs, keyOf) then [keyOf(rec)] else []
    ensures Filter(IsOtherRow, recs + [rec]) == Filter(IsOtherRow, recs) + if IsFamilyRow(rec) then [] else [rec]
    ensures forall key :: Members(key, keyOf, recs + [rec])
                       == Members(key, keyOf, recs) + if IsFamilyRow(rec) && keyOf(rec) == key then [rec] else []
  {
    hide IsFamilyRow, Filter;
    assert (recs + [rec])[..|recs|] == recs;
    FilterStep(IsOtherRow, recs, rec);
    forall key ensures Members(key, keyOf, recs + [rec])
                    == Members(key, keyOf, recs) + if IsFamilyRow(rec) && keyOf(rec) == key then [rec] else []
    {
      FilterStep(InFamily(key, keyOf), recs, rec);
    }
  }

  /** Groups the rows of each family; the others go on as they are. */
  method PartitionByFamily(recs: seq<Rec>, keyOf: Rec -> string)
    returns (groups: map<string, seq<Rec>>, keys: seq<string>, rest: seq<Rec>)
    ensures keys == KeysOf(recs, keyOf) && rest == Filter(IsOtherRow, recs)
    ensures forall key :: key in groups <==> key in keys
    ensures forall key :: Listed(groups, key) == Members(key, keyOf, recs)
  {
    hide IsFamilyRow, KeysOf, Members, Filter, Listed;
    groups, keys, rest := map[], [], [];
    NothingPartitioned(keyOf);
    for i := 0 to |recs|
      invariant keys == KeysOf(recs[..i], keyOf) && rest == Filter(IsOtherRow, recs[..i])
      invariant forall key :: key in groups <==> key in keys
      invariant forall key :: Listed(groups, key) == Members(key, keyOf, recs[..i])
    {
      var rec := recs[i];
      assert recs[..i + 1] == recs[..i] + [rec];
      PartitionStep(recs[..i], rec, keyOf);
      if !IsFamilyRow(rec) {
        rest := rest + [rec];
        continue;
      }
      if keyOf(rec) !in groups {
        keys := keys + [keyOf(rec)];
      }
      ghost var before := groups;
      groups := groups[keyOf(rec) := Listed(groups, keyOf(rec)) + [rec]];
      forall key ensures Listed(groups, key) == Members(key, keyOf, recs[..i + 1]) {
        ListedAfter(before, keyOf(rec), rec, key);
      }
    }
    assert recs[..|recs|] == recs;
  }

  lemma NothingPartitioned(keyOf: Rec -> string)
    ensures KeysOf([], keyOf) == [] && Filter(IsOtherRow, []) == []
    ensures forall key :: Members(key, keyOf, []) == [] == Listed(map[], key)
  {
  }

  lemma OtherRowsAre(recs: seq<Rec>)
    ensures Filter(IsOtherRow, recs)
         == Filter((r: Rec) => !(&& r.commitmentType == ReservedInstance
                                 && (r.service == "rds" || r.service == "relational-db")
                                 && FamilyOf(r.resourceType) != ""), recs)
  {
    hide FamilyOf;
    FilterAgrees(IsOtherRow, (r: Rec) => !(&& r.commitmentType == ReservedInstance
                                           && (r.service == "rds" || r.service == "relational-db")
                                           && FamilyOf(r.resourceType) != ""), recs);
  }

  /** Families one by one, in the order the map yields them. */
  method ApplyFamilySizing(recs: seq<Rec>, families: Families, target: real)
    returns (sized: seq<Rec>, rest: seq<Rec>, drops: DropCounts)
    ensures sized == FamilySized(recs, families, target) && rest == FamilyRest(recs, target)
    ensures drops == FamilyCounts(recs, families, target)
    // What goes on: everything but reservations of database types that name their family.
    ensures !(0.0 < target <= 100.0) ==> sized == [] && rest == recs && drops == DropCounts(0, 0, 0)
    ensures 0.0 < target <= 100.0 ==>
              rest == Filter((r: Rec) => !(&& r.commitmentType == ReservedInstance
                                           && (r.service == "rds" || r.service == "relational-db")
                                           && FamilyOf(r.resourceType) != ""), recs)
  {
    OtherRowsAre(recs);
    hide FamilyRows, CountsFor, Members, CountsOver, RowsUnderAll, Listed, Visited, KeysOf, Filter;
    if target <= 0.0 || target > 100.0 {
      return [], recs, DropCounts(0, 0, 0);
    }
    var groups, keys;
    groups, keys, rest := PartitionByFamily(recs, families.keyOf);
    var visited := Visited(keys, families.arrange);
    sized, drops := [], DropCounts(0, 0, 0);
    NoFamilies(recs, families, target);
    for i := 0 to |visited|
      invariant sized == RowsUnderAll(visited[..i], recs, families, target)
      invariant drops == CountsOver(visited[..i], recs, families, target)
    {
      var key := visited[i];
      VisitedKey(keys, visited, i);
      ListedGroup(groups, key);
      var rows, more := SizeRdsFamily(groups[key], families.coverage(key), target);
      assert visited[..i + 1] == visited[..i] + [key];
      OneMoreFamily(visited[..i], key, recs, families, target);
      sized, drops := sized + rows, Plus(drops, more);
    }
    assert visited[..|visited|] == visited;
    CountsIgnoreOrder(visited, keys, recs, families, target);
  }

  lemma NoFamilies(recs: seq<Rec>, families: Families, target: real)
    ensures RowsUnderAll([], recs, families, target) == []
    ensures CountsOver([], recs, families, target) == DropCounts(0, 0, 0)
  {
  }

  lemma VisitedKey(keys: seq<string>, visited: seq<string>, i: nat)
    requires multiset(visited) == multiset(keys) && i < |visited|
    ensures visited[i] in keys
  {
    assert visited[i] in multiset(visited);
  }

  lemma ListedGroup(groups: map<string, seq<Rec>>, key: string)
    requires key in groups
    ensures groups[key] == Listed(groups, key)
  {
  }

  // ---- Over all families ---------------------------------------------------------------------

  function MemberCount(recs: seq<Rec>, keyOf: Rec -> string): string -> int
  {
    (key: string) => |Members(key, keyOf, recs)|
  }

  /** Each key once, and no family row without its key. */
  ghost predicate ListsFamilies(keys: seq<string>, recs: seq<Rec>, keyOf: Rec -> string)
  {
    && (forall i, j :: 0 <= i < j < |keys| ==> keys[i] != keys[j])
    && (forall r :: r in recs && IsFamilyRow(r) ==> keyOf(r) in keys)
  }

  lemma {:induction false} KeysAreTheFamilies(recs: seq<Rec>, keyOf: Rec -> string)
    ensures ListsFamilies(KeysOf(recs, keyOf), recs, keyOf)
    decreases |recs|
  {
    hide IsFamilyRow;
    if recs != [] {
      var n := |recs| - 1;
      KeysAreTheFamilies(recs[..n], keyOf);
      assert recs == recs[..n] + [recs[n]];
    }
  }

  lemma {:induction false} OneKeyGrows(f: string -> int, g: string -> int, keys: seq<string>, key: string)
    requires forall i, j :: 0 <= i < j < |keys| ==> keys[i] != keys[j]
    requires forall k :: k in keys ==> g(k) == f(k) + if k == key then 1 else 0
    ensures SumInt(g, keys) == SumInt(f, keys) + if key in keys then 1 else 0
  {
    if keys != [] {
      assert keys[0] in keys;
      assert key in keys[1..] ==> key != keys[0];
      OneKeyGrows(f, g, keys[1..], key);
      assert keys == [keys[0]] + keys[1..];
    }
  }

  /** The families split the family rows among them. */
  lemma {:induction false} MembersPartition(recs: seq<Rec>, keys: seq<string>, keyOf: Rec -> string)
    requires ListsFamilies(keys, recs, keyOf)
    ensures SumInt(MemberCount(recs, keyOf), keys) + |Filter(IsOtherRow, recs)| == |recs|
    decreases |recs|
  {
    hide IsFamilyRow, Members, Filter, KeysOf;
    if recs == [] {
      NothingPartitioned(keyOf);
      NoMembers(keys, keyOf);
    } else {
      var n := |recs| - 1;
      var rest, rec := recs[..n], recs[n];
      assert recs == rest + [rec];
      MembersPartition(rest, keys, keyOf);
      PartitionStep(rest, rec, keyOf);
      if IsFamilyRow(rec) {
        OneKeyGrows(MemberCount(rest, keyOf), MemberCount(recs, keyOf), keys, keyOf(rec));
      } else {
        SameCounts(MemberCount(rest, keyOf), MemberCount(recs, keyOf), keys);
      }
    }
  }

  lemma {:induction false} SameCounts(f: string -> int, g: string -> int, keys: seq<string>)
    requires forall k :: k in keys ==> f(k) == g(k)
    ensures SumInt(f, keys) == SumInt(g, keys)
  {
    if keys != [] {
      assert keys[0] in keys;
      SameCounts(f, g, keys[1..]);
    }
  }

  lemma {:induction false} NoMembers(keys: seq<string>, keyOf: Rec -> string)
    ensures SumInt(MemberCount([], keyOf), keys) == 0
  {
    if keys != [] {
      NoMembers(keys[1..], keyOf);
    }
  }

  function Total(counts: DropCounts): int
  {
    counts.alreadyAtTarget + counts.noUnitsSignal + counts.sizedToZero
  }

  lemma {:induction false} FamiliesConserve(keys: seq<string>, recs: seq<Rec>, families: Families, target: real)
    ensures SumInt(MemberCount(recs, families.keyOf), keys)
         == |RowsUnderAll(keys, recs, families, target)| + Total(CountsOver(keys, recs, families, target))
    decreases |keys|
  {
    hide Members, FamilyRows, CountsFor, RowsUnderAll, CountsOver;
    if keys == [] {
      NoFamilies(recs, families, target);
    } else {
      var n := |keys| - 1;
      FamiliesConserve(keys[..n], recs, families, target);
      assert keys == keys[..n] + [keys[n]];
      OneMoreFamily(keys[..n], keys[n], recs, families, target);
      SumIntStep(MemberCount(recs, families.keyOf), keys[..n], keys[n]);
      FamilyConserves(Members(keys[n], families.keyOf, recs), families.coverage(keys[n]), target);
    }
  }

  lemma LedgerInOrder(keys: seq<string>, visited: seq<string>, recs: seq<Rec>, families: Families, target: real)
    requires multiset(visited) == multiset(keys) && ListsFamilies(keys, recs, families.keyOf)
    ensures |recs| == |Filter(IsOtherRow, recs)| + |RowsUnderAll(visited, recs, families, target)|
                    + Total(CountsOver(keys, recs, families, target))
  {
    hide RowsUnderAll, CountsOver, MemberCount, Filter, ListsFamilies, SumInt, Total, IsOtherRow;
    MembersPartition(recs, keys, families.keyOf);
    FamiliesConserve(visited, recs, families, target);
    CountsIgnoreOrder(visited, keys, recs, families, target);
    SumIntPermutation(MemberCount(recs, families.keyOf), visited, keys);
  }

  /** The ledger of a whole pass: every row goes on to per-pool sizing, is kept by its family, or
      is counted under one of the three family reasons. */
  lemma FamilyLedger(recs: seq<Rec>, families: Families, target: real)
    ensures |recs| == |FamilyRest(recs, target)| + |FamilySized(recs, families, target)|
                    + Total(FamilyCounts(recs, families, target))
  {
    hide RowsUnderAll, CountsOver, KeysOf, Filter, Visited, ListsFamilies, IsOtherRow, Total;
    if InRange(target) {
      var keys := KeysOf(recs, families.keyOf);
      var visited := Visited(keys, families.arrange);
      VisitsAll(keys, families.arrange);
      KeysAreTheFamilies(recs, families.keyOf);
      LedgerInOrder(keys, visited, recs, families, target);
    } else {
      NothingCounted();
    }
  }

  lemma VisitsAll(keys: seq<string>, arrange: seq<string> -> seq<string>)
    ensures multiset(Visited(keys, arrange)) == multiset(keys)
  {
  }

  lemma NothingCounted()
    ensures Total(DropCounts(0, 0, 0)) == 0
  {
  }

  function TimesUnder(recs: seq<Rec>, families: Families, target: real, x: Rec): string -> int
  {
    (key: string) => multiset(RowsUnder(key, recs, families, target))[x]
  }

  lemma {:induction false} TimesUnderAll(keys: seq<string>, recs: seq<Rec>, families: Families, target: real, x: Rec)
    ensures multiset(RowsUnderAll(keys, recs, families, target))[x]
         == SumInt(TimesUnder(recs, families, target, x), keys)
    decreases |keys|
  {
    hide RowsUnder, RowsUnderAll, CountsOver;
    if keys == [] {
      NoFamilies(recs, families, target);
    } else {
      var n := |keys| - 1;
      TimesUnderAll(keys[..n], recs, families, target, x);
      assert keys == keys[..n] + [keys[n]];
      OneMoreFamily(keys[..n], keys[n], recs, families, target);
      SumIntStep(TimesUnder(recs, families, target, x), keys[..n], keys[n]);
    }
  }

  /** The order in which the map yields the families decides only the order of their rows. */
  lemma FamilyOrderDecidesNoRows(recs: seq<Rec>, families: Families, other: Families, target: real)
    requires other == families.(arrange := other.arrange)
    ensures multiset(FamilySized(recs, families, target)) == multiset(FamilySized(recs, other, target))
    ensures FamilyCounts(recs, families, target) == FamilyCounts(recs, other, target)
  {
    hide RowsUnder, RowsUnderAll, Visited, KeysOf, CountsFor;
    if InRange(target) {
      var keys := KeysOf(recs, families.keyOf);
      var one, two := Visited(keys, families.arrange), Visited(keys, other.arrange);
      SameRowsUnderAll(two, recs, families, other, target);
      SameCountsOver(keys, recs, families, other, target);
      forall x ensures multiset(RowsUnderAll(one, recs, families, target))[x]
                    == multiset(RowsUnderAll(two, recs, families, target))[x]
      {
        TimesUnderAll(one, recs, families, target, x);
        TimesUnderAll(two, recs, families, target, x);
        SumIntPermutation(TimesUnder(recs, families, target, x), one, two);
      }
    }
  }

  lemma SameRowsUnderAll(keys: seq<string>, recs: seq<Rec>, families: Families, other: Families, target: real)
    requires other == families.(arrange := other.arrange)
    ensures RowsUnderAll(keys, recs, families, target) == RowsUnderAll(keys, recs, other, target)
    decreases |keys|
  {
    hide FamilyRows, Members;
    if keys != [] {
      SameRowsUnderAll(keys[..|keys| - 1], recs, families, other, target);
    }
  }

  lemma SameCountsOver(keys: seq<string>, recs: seq<Rec>, families: Families, other: Families, target: real)
    requires other == families.(arrange := other.arrange)
    ensures CountsOver(keys, recs, families, target) == CountsOver(keys, recs, other, target)
  {
    hide CountsFor, Members;
    SameCounts(AlreadyUnder(recs, families, target), AlreadyUnder(recs, other, target), keys);
    SameCounts(NoSignalUnder(recs, families, target), NoSignalUnder(recs, other, target), keys);
    SameCounts(ZeroUnder(recs, families, target), ZeroUnder(recs, other, target), keys);
  }

  lemma NoRowsNoFamilies(families: Families, target: real)
    ensures FamilySized([], families, target) == [] && FamilyRest([], target) == []
    ensures FamilyCounts([], families, target) == DropCounts(0, 0, 0)
  {
    hide FamilyRows, CountsFor;
    assert |Visited([], families.arrange)| == |multiset(Visited([], families.arrange))| == 0;
  }

  /** Family sizing keeps the counts of a whole pass non-negative. */
  lemma SizedFamiliesNonNegative(recs: seq<Rec>, families: Families, target: real)
    requires forall r :: r in recs ==> r.count >= 0
    ensures forall r :: r in FamilySized(recs, families, target) ==> r.count >= 0
    ensures forall r :: r in FamilyRest(recs, target) ==> r.count >= 0
  {
    if InRange(target) {
      AllRowsNonNegative(Visited(KeysOf(recs, families.keyOf), families.arrange), recs, families, target);
    }
  }

  lemma {:induction false} AllRowsNonNegative(keys: seq<string>, recs: seq<Rec>, families: Families, target: real)
    requires forall r :: r in recs ==> r.count >= 0
    ensures forall r :: r in RowsUnderAll(keys, recs, families, target) ==> r.count >= 0
    decreases |keys|
  {
    hide FamilyRows;
    if keys != [] {
      var n := |keys| - 1;
      AllRowsNonNegative(keys[..n], recs, families, target);
      FamilyStaysNonNegative(Members(keys[n], families.keyOf, recs), families.coverage(keys[n]), target);
    }
  }
}
