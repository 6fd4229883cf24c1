/** Sizing of recommendations: by a coverage percentage, by a coverage target, and by a
    count override, each rescaling the row's money with its count. */
module Sizing {
  import opened Types
  import opened Sums
  import opened Drops

  /** What sizing decides for one row. */
  datatype Sized = Kept(row: Rec) | Dropped(reason: string)

  /** The rows kept, in order. */
  function SizedRows(size: Rec -> Sized, recs: seq<Rec>): seq<Rec>
  {
    if recs == [] then []
    else
      match size(recs[0])
      case Kept(row) => [row] + SizedRows(size, recs[1..])
      case Dropped(_) => SizedRows(size, recs[1..])
  }

  /** How many rows are dropped for `reason`. */
  function DropsFor(size: Rec -> Sized, reason: string, recs: seq<Rec>): nat
  {
    if recs == [] then 0
    else (if size(recs[0]) == Dropped(reason) then 1 else 0) + DropsFor(size, reason, recs[1..])
  }

  lemma {:induction false} SizingStep(size: Rec -> Sized, recs: seq<Rec>, rec: Rec)
    ensures SizedRows(size, recs + [rec])
         == SizedRows(size, recs) + if size(rec).Kept? then [size(rec).row] else []
    ensures forall reason ::
              (DropsFor(size, reason, recs + [rec])
            == DropsFor(size, reason, recs) + if size(rec) == Dropped(reason) then 1 else 0)
  {
    if recs == [] {
      assert [rec][1..] == [];
    } else {
      SizingStep(size, recs[1..], rec);
      assert (recs + [rec])[1..] == recs[1..] + [rec];
    }
  }

  lemma SizingStepAt(size: Rec -> Sized, recs: seq<Rec>, i: nat)
    requires i < |recs|
    ensures SizedRows(size, recs[..i + 1])
         == SizedRows(size, recs[..i]) + if size(recs[i]).Kept? then [size(recs[i]).row] else []
    ensures forall reason ::
              (DropsFor(size, reason, recs[..i + 1])
            == DropsFor(size, reason, recs[..i]) + if size(recs[i]) == Dropped(reason) then 1 else 0)
  {
    assert recs[..i + 1] == recs[..i] + [recs[i]];
    SizingStep(size, recs[..i], recs[i]);
  }

  /** One row out for each row in, in order, and each is what was promised for it. */
  ghost predicate RowByRow(promise: (Rec, Rec) -> bool, recs: seq<Rec>, out: seq<Rec>)
  {
    |out| == |recs| && forall i :: 0 <= i < |recs| ==> promise(recs[i], out[i])
  }

  lemma {:induction false} KeptAsPromised(size: Rec -> Sized, keep: Rec -> bool, promise: (Rec, Rec) -> bool,
                                          recs: seq<Rec>)
    requires forall r :: r in recs ==> (size(r).Kept? <==> keep(r))
    requires forall r :: r in recs && size(r).Kept? ==> promise(r, size(r).row)
    ensures RowByRow(promise, Filter(keep, recs), SizedRows(size, recs))
  {
    if recs != [] {
      KeptAsPromised(size, keep, promise, recs[1..]);
      assert recs[0] in recs;
    }
  }

  lemma {:induction false} DroppedFor(size: Rec -> Sized, reason: string, why: Rec -> bool, recs: seq<Rec>)
    requires forall r :: r in recs ==> (size(r) == Dropped(reason) <==> why(r))
    ensures DropsFor(size, reason, recs) == |Filter(why, recs)|
  {
    if recs != [] {
      DroppedFor(size, reason, why, recs[1..]);
      assert recs[0] in recs;
    }
  }

  /** Every money field of the row, times `den`, is that of `rec` times `num`. */
  predicate MoneyIn(rec: Rec, row: Rec, num: real, den: real)
  {
    && row.commitmentCost * den == rec.commitmentCost * num
    && row.onDemandCost * den == rec.onDemandCost * num
    && row.estimatedSavings * den == rec.estimatedSavings * num
    && row.recurringMonthlyCost.Monthly? == rec.recurringMonthlyCost.Monthly?
    && (rec.recurringMonthlyCost.Monthly? ==>
          row.recurringMonthlyCost.amount * den == rec.recurringMonthlyCost.amount * num)
    && row.details.SavingsPlan? == rec.details.SavingsPlan?
    && (if rec.details.SavingsPlan? then row.details.hourlyCommitment * den == rec.details.hourlyCommitment * num
        else row.details == rec.details)
  }

  lemma ShareOfMoney(x: real, num: real, den: real)
    requires den != 0.0
    ensures x * (num / den) * den == x * num
  {
    var q := num / den;
    assert q * den == num;
    assert x * q * den == x * (q * den);
  }

  lemma MoneyScaled(rec: Rec, num: real, den: real)
    requires den != 0.0
    ensures MoneyIn(rec, ScaleCosts(rec, num / den), num, den)
    ensures SameOffer(rec, ScaleCosts(rec, num / den)) && ScaleCosts(rec, num / den).count == rec.count
  {
    ShareOfMoney(rec.commitmentCost, num, den);
    ShareOfMoney(rec.onDemandCost, num, den);
    ShareOfMoney(rec.estimatedSavings, num, den);
    if rec.recurringMonthlyCost.Monthly? {
      ShareOfMoney(rec.recurringMonthlyCost.amount, num, den);
    }
    if rec.details.SavingsPlan? {
      ShareOfMoney(rec.details.hourlyCommitment, num, den);
    }
  }

  lemma MoneyResized(rec: Rec, n: int)
    requires rec.count != 0
    ensures MoneyIn(rec, Resized(rec, n), n as real, rec.count as real)
    ensures SameOffer(rec, Resized(rec, n)) && Resized(rec, n).count == n
  {
    MoneyScaled(rec, n as real, rec.count as real);
  }

  // ---- Coverage percentage --------------------------------------------------------------

  /** Conversion to an integer drops the fraction. */
  function Truncated(x: real): int
  {
    if x >= 0.0 then x.Floor else -((-x).Floor)
  }

  function ShareOf(rec: Rec, ratio: real): int
  {
    Truncated(rec.count as real * ratio)
  }

  /** Savings Plans scale in dollars; everything else scales by the whole-instance ratio. */
  function CoverOne(ratio: real): Rec -> Sized
  {
    (rec: Rec) =>
      if IsSavingsPlan(rec.service) then
        Kept(if rec.details.SavingsPlan? then ScaleCosts(rec, ratio) else rec)
      else
        var newCount := ShareOf(rec, ratio);
        if newCount > 0 && rec.count != 0 then Kept(Resized(rec, newCount)) else Dropped(TARGET_SIZED_TO_ZERO)
  }

  function Covered(recs: seq<Rec>, coverage: real): seq<Rec>
  {
    if coverage >= 100.0 then recs
    else if coverage <= 0.0 then []
    else SizedRows(CoverOne(coverage / 100.0), recs)
  }

  lemma TruncatedToPositive(rec: Rec, ratio: real)
    requires ratio > 0.0 && ShareOf(rec, ratio) > 0
    ensures rec.count > 0
  {
    NonNegativeProduct((-rec.count) as real, ratio);
  }

  lemma NonNegativeProduct(a: real, b: real)
    ensures a >= 0.0 && b >= 0.0 ==> a * b >= 0.0
  {
  }

  /** The row buys something at a share of `coverage` percent: it is a Savings Plan, or its share is one
      instance or more. */
  predicate HasShare(rec: Rec, coverage: real)
  {
    IsSavingsPlan(rec.service) || rec.count as real * coverage >= 100.0
  }

  function WithShare(coverage: real): Rec -> bool
  {
    (rec: Rec) => HasShare(rec, coverage)
  }

  function WithoutShare(coverage: real): Rec -> bool
  {
    (rec: Rec) => !HasShare(rec, coverage)
  }

  /** What coverage promises for a row it keeps: the most whole instances within the share, and money in
      proportion; a Savings Plan keeps its count and scales in dollars. */
  predicate IsShareOf(rec: Rec, row: Rec, coverage: real)
  {
    SameOffer(rec, row) &&
    if !IsSavingsPlan(rec.service) then
      && row.count as real * 100.0 <= rec.count as real * coverage < (row.count + 1) as real * 100.0
      && row.count > 0 && MoneyIn(rec, row, row.count as real, rec.count as real)
    else if rec.details.SavingsPlan? then row.count == rec.count && MoneyIn(rec, row, coverage, 100.0)
    else row == rec
  }

  function SharePromise(coverage: real): (Rec, Rec) -> bool
  {
    (rec: Rec, row: Rec) => IsShareOf(rec, row, coverage)
  }

  lemma PercentFits(c: real, coverage: real, n: real)
    ensures n <= c * (coverage / 100.0) <==> n * 100.0 <= c * coverage
  {
    assert c * (coverage / 100.0) * 100.0 == c * coverage;
  }

  /** A share is the greatest whole number within `coverage` percent of the count, if that is positive. */
  lemma ShareIsGreatest(rec: Rec, coverage: real)
    requires coverage > 0.0
    ensures var n := ShareOf(rec, coverage / 100.0);
            && (n > 0 <==> rec.count as real * coverage >= 100.0)
            && (n > 0 ==>
                  && rec.count > 0
                  && n as real * 100.0 <= rec.count as real * coverage < (n + 1) as real * 100.0)
  {
    var c, n := rec.count as real, ShareOf(rec, coverage / 100.0);
    PercentFits(c, coverage, 1.0);
    PercentFits(c, coverage, n as real);
    PercentFits(c, coverage, (n + 1) as real);
    if n > 0 {
      TruncatedToPositive(rec, coverage / 100.0);
    }
  }

  lemma CoverKeepsPromise(rec: Rec, coverage: real)
    requires coverage > 0.0
    ensures CoverOne(coverage / 100.0)(rec).Kept? <==> HasShare(rec, coverage)
    ensures CoverOne(coverage / 100.0)(rec) == Dropped(TARGET_SIZED_TO_ZERO) <==> !HasShare(rec, coverage)
    ensures CoverOne(coverage / 100.0)(rec).Kept? ==>
              IsShareOf(rec, CoverOne(coverage / 100.0)(rec).row, coverage)
  {
    hide ShareOf, ScaleCosts, Resized, MoneyIn, IsSavingsPlan;
    var ratio := coverage / 100.0;
    if !IsSavingsPlan(rec.service) {
      ShareIsGreatest(rec, coverage);
      var n := ShareOf(rec, ratio);
      if n > 0 {
        MoneyResized(rec, n);
        assert CoverOne(ratio)(rec) == Kept(Resized(rec, n));
      } else {
        assert CoverOne(ratio)(rec) == Dropped(TARGET_SIZED_TO_ZERO);
        assert !(rec.count as real * coverage >= 100.0) && !HasShare(rec, coverage);
      }
    } else {
      MoneyScaled(rec, coverage, 100.0);
    }
  }

  lemma CoveredAsPromised(recs: seq<Rec>, coverage: real)
    requires 0.0 < coverage < 100.0
    ensures RowByRow(SharePromise(coverage), Filter(WithShare(coverage), recs), Covered(recs, coverage))
    ensures var size := CoverOne(coverage / 100.0);
            && DropsFor(size, TARGET_SIZED_TO_ZERO, recs) == |Filter(WithoutShare(coverage), recs)|
            && forall reason :: reason != TARGET_SIZED_TO_ZERO ==> DropsFor(size, reason, recs) == 0
  {
    var size := CoverOne(coverage / 100.0);
    hide CoverOne, IsShareOf, HasShare;
    forall r | r in recs
      ensures size(r).Kept? <==> HasShare(r, coverage)
      ensures size(r) == Dropped(TARGET_SIZED_TO_ZERO) <==> !HasShare(r, coverage)
      ensures size(r).Kept? ==> IsShareOf(r, size(r).row, coverage)
    {
      CoverKeepsPromise(r, coverage);
    }
    KeptAsPromised(size, WithShare(coverage), SharePromise(coverage), recs);
    DroppedFor(size, TARGET_SIZED_TO_ZERO, WithoutShare(coverage), recs);
    forall reason | reason != TARGET_SIZED_TO_ZERO ensures DropsFor(size, reason, recs) == 0 {
      CoverDropsNothingElse(coverage / 100.0, reason, recs);
    }
  }

  lemma {:induction false} CoverDropsNothingElse(ratio: real, reason: string, recs: seq<Rec>)
    requires reason != TARGET_SIZED_TO_ZERO
    ensures DropsFor(CoverOne(ratio), reason, recs) == 0
  {
    if recs != [] {
      CoverDropsNothingElse(ratio, reason, recs[1..]);
    }
  }

  method ApplyCoverage(recs: seq<Rec>, coverage: real, drops: DropSummary?) returns (result: seq<Rec>)
    modifies drops
    ensures result == Covered(recs, coverage)
    ensures drops != null ==> forall reason ::
              Tally(drops.counts, reason) == Tally(old(drops.counts), reason)
                + if 0.0 < coverage < 100.0 then DropsFor(CoverOne(coverage / 100.0), reason, recs) else 0
    // In the rows' own terms: all, none, or the share of each row that has one.
    ensures coverage >= 100.0 ==> result == recs
    ensures coverage <= 0.0 ==> result == []
    ensures 0.0 < coverage < 100.0 ==> RowByRow(SharePromise(coverage), Filter(WithShare(coverage), recs), result)
    ensures drops != null && 0.0 < coverage < 100.0 ==> forall reason ::
              Tally(drops.counts, reason) == Tally(old(drops.counts), reason)
                + if reason == TARGET_SIZED_TO_ZERO then |Filter(WithoutShare(coverage), recs)| else 0
  {
    if coverage >= 100.0 {
      return recs;
    }
    if coverage <= 0.0 {
      return [];
    }
    var ratio := coverage / 100.0;
    result := [];
    for i := 0 to |recs|
      invariant result == SizedRows(CoverOne(ratio), recs[..i])
      invariant drops != null ==> forall reason ::
        Tally(drops.counts, reason) == Tally(old(drops.counts), reason) + DropsFor(CoverOne(ratio), reason, recs[..i])
    {
      var rec := recs[i];
      SizingStepAt(CoverOne(ratio), recs, i);
      if IsSavingsPlan(rec.service) {
        var adjusted := rec;
        if rec.details.SavingsPlan? {
          adjusted := ScaleCosts(rec, ratio);
        }
        assert CoverOne(ratio)(rec) == Kept(adjusted);
        result := result + [adjusted];
      } else {
        var newCount := ShareOf(rec, ratio);
        if newCount > 0 {
          TruncatedToPositive(rec, ratio);
          assert CoverOne(ratio)(rec) == Kept(Resized(rec, newCount));
          result := result + [Resized(rec, newCount)];
        } else {
          Add(drops, TARGET_SIZED_TO_ZERO, 1);
        }
      }
    }
    assert recs[..|recs|] == recs;
    CoveredAsPromised(recs, coverage);
  }

  function ReservedCount(rec: Rec): int { if IsSavingsPlan(rec.service) then 0 else rec.count }

  function ReservedRow(rec: Rec): int { if IsSavingsPlan(rec.service) then 0 else 1 }

  lemma {:induction false} ReservedNonNegative(recs: seq<Rec>)
    requires forall r :: r in recs ==> r.count >= 0
    ensures SumInt(ReservedCount, recs) >= 0
  {
    if recs != [] {
      assert recs[0] in recs;
      ReservedNonNegative(recs[1..]);
    }
  }

  /** `bought` is within the share of `asked`, and short of it by at most an instance a row. */
  predicate WithinShare(bought: int, asked: int, rows: int, coverage: real)
  {
    bought as real * 100.0 <= asked as real * coverage <= (bought + rows) as real * 100.0
  }

  function ReservedIn(sized: Sized): int
  {
    match sized
    case Kept(row) => ReservedCount(row)
    case Dropped(_) => 0
  }

  lemma ShareOfOne(rec: Rec, coverage: real)
    requires coverage > 0.0 && rec.count >= 0
    ensures WithinShare(ReservedIn(CoverOne(coverage / 100.0)(rec)), ReservedCount(rec), ReservedRow(rec), coverage)
  {
    hide ShareOf, Resized, ScaleCosts, MoneyIn;
    var n := ShareOf(rec, coverage / 100.0);
    if IsSavingsPlan(rec.service) {
      MoneyScaled(rec, coverage, 100.0);
    } else {
      ShareIsGreatest(rec, coverage);
      NonNegativeProduct(rec.count as real, coverage);
      if n > 0 {
        MoneyResized(rec, n);
      }
    }
  }

  lemma SharesAdd(b0: int, b1: int, a0: int, a1: int, r0: int, r1: int, coverage: real)
    requires WithinShare(b0, a0, r0, coverage) && WithinShare(b1, a1, r1, coverage)
    ensures WithinShare(b0 + b1, a0 + a1, r0 + r1, coverage)
  {
    assert (a0 + a1) as real * coverage == a0 as real * coverage + a1 as real * coverage;
  }

  lemma ReservedHead(size: Rec -> Sized, recs: seq<Rec>)
    requires recs != []
    ensures SumInt(ReservedCount, SizedRows(size, recs))
         == ReservedIn(size(recs[0])) + SumInt(ReservedCount, SizedRows(size, recs[1..]))
  {
    var rest := SizedRows(size, recs[1..]);
    if size(recs[0]).Kept? {
      assert SizedRows(size, recs)[1..] == rest;
    }
  }

  lemma {:induction false} SharesAddUp(recs: seq<Rec>, coverage: real)
    requires coverage > 0.0 && forall r :: r in recs ==> r.count >= 0
    ensures WithinShare(SumInt(ReservedCount, SizedRows(CoverOne(coverage / 100.0), recs)),
                        SumInt(ReservedCount, recs), SumInt(ReservedRow, recs), coverage)
  {
    hide CoverOne, ReservedCount, ReservedRow;
    if recs != [] {
      hide SizedRows, WithinShare;
      var size, rest := CoverOne(coverage / 100.0), recs[1..];
      assert recs[0] in recs;
      ShareOfOne(recs[0], coverage);
      SharesAddUp(rest, coverage);
      ReservedHead(size, recs);
      SharesAdd(ReservedIn(size(recs[0])), SumInt(ReservedCount, SizedRows(size, rest)),
                ReservedCount(recs[0]), SumInt(ReservedCount, rest),
                ReservedRow(recs[0]), SumInt(ReservedRow, rest), coverage);
    }
  }

  /** The instances reserved are at most the share of those offered, and fall short of it by at most
      one instance a row. */
  lemma CoverageBuysItsShare(recs: seq<Rec>, coverage: real)
    requires 0.0 <= coverage <= 100.0 && forall r :: r in recs ==> r.count >= 0
    ensures WithinShare(SumInt(ReservedCount, Covered(recs, coverage)), SumInt(ReservedCount, recs),
                        SumInt(ReservedRow, recs), coverage)
  {
    if 0.0 < coverage < 100.0 {
      SharesAddUp(recs, coverage);
    } else {
      RowsNonNegative(recs);
    }
  }

  lemma {:induction false} RowsNonNegative(recs: seq<Rec>)
    ensures SumInt(ReservedRow, recs) >= 0
  {
    if recs != [] {
      RowsNonNegative(recs[1..]);
    }
  }

  // ---- Coverage target ------------------------------------------------------------------

  /** The instances that fill the gap between the coverage a pool has and the target. */
  function TargetCount(average: real, existing: real, target: real): int
  {
    (average * (target - existing) / 100.0).Floor
  }

  function Clamp100(x: real): real { if x > 100.0 then 100.0 else x }

  function TargetReserved(rec: Rec, target: real): Sized
  {
    var average, gap := rec.averageInstances, target - rec.existingCoverage;
    if average <= 0.0 then Kept(rec)
    else if gap <= 0.0 then Dropped(TARGET_ALREADY_MET)
    else
      var n := TargetCount(average, rec.existingCoverage, target);
      if n == 0 then Dropped(TARGET_SIZED_TO_ZERO)
      else
        var ratio := if rec.count > 0 then n as real / rec.count as real else n as real;
        Kept(ScaleCosts(rec, ratio).(
          count := n,
          projectedUtilization := Clamp100(average / n as real * 100.0),
          projectedCoverage := Clamp100(rec.existingCoverage + n as real / average * 100.0)
        ))
  }

  function TargetSavingsPlan(rec: Rec, target: real): Sized
    requires target != 0.0
  {
    if rec.recommendedUtilization <= 0.0 then Kept(rec)
    else if !rec.details.SavingsPlan? then Kept(rec)
    else if rec.details.hourlyCommitment <= 0.0 then Kept(rec)
    else
      var ratio := target / 100.0;
      Kept(ScaleCosts(rec, ratio).(projectedUtilization := Clamp100(rec.recommendedUtilization / ratio)))
  }

  function TargetOne(target: real): Rec -> Sized
    requires target > 0.0
  {
    (rec: Rec) =>
      if IsSavingsPlan(rec.service) then TargetSavingsPlan(rec, target)
      else if rec.commitmentType.ReservedInstance? then TargetReserved(rec, target)
      else Kept(rec)
  }

  function Targeted(recs: seq<Rec>, target: real): seq<Rec>
  {
    if target <= 0.0 || target > 100.0 then recs else SizedRows(TargetOne(target), recs)
  }

  /** Coverage after buying `n` more instances for a pool that runs `average` of them. */
  function CoverageWith(average: real, existing: real, n: int): real
    requires average != 0.0
  {
    existing + n as real / average * 100.0
  }

  lemma FloorIsGreatest(x: real, m: int)
    ensures m as real <= x <==> m <= x.Floor
  {
  }

  lemma CoverageFitsIff(average: real, existing: real, target: real, m: int)
    requires average > 0.0
    ensures CoverageWith(average, existing, m) <= target
       <==> m as real <= average * (target - existing) / 100.0
  {
    var q, gap := m as real / average, target - existing;
    assert q * average == m as real;
    if q * 100.0 <= gap {
      assert (gap - q * 100.0) * average >= 0.0;
      assert gap * average >= q * 100.0 * average == 100.0 * (q * average);
    } else {
      assert (q * 100.0 - gap) * average > 0.0;
      assert gap * average < q * 100.0 * average == 100.0 * (q * average);
    }
  }

  /** The sized count is the largest purchase that keeps total coverage at or under the
      target: exactly the counts up to it do. */
  lemma TargetCountIsLargestSafe(average: real, existing: real, target: real, m: int)
    requires average > 0.0
    ensures CoverageWith(average, existing, m) <= target <==> m <= TargetCount(average, existing, target)
  {
    CoverageFitsIff(average, existing, target, m);
    FloorIsGreatest(average * (target - existing) / 100.0, m);
  }

  /** More demand or a higher target never buys less, more existing coverage never more. */
  lemma TargetCountIsMonotone(average: real, existing: real, target: real,
                              average': real, existing': real, target': real)
    requires 0.0 < average <= average' && existing' <= existing && target <= target'
    requires existing' <= target'
    ensures TargetCount(average, existing, target) <= TargetCount(average', existing', target')
  {
    var gap, gap' := target - existing, target' - existing';
    NonNegativeProduct(average, gap' - gap);
    NonNegativeProduct(average' - average, gap');
    assert average * gap <= average' * gap';
  }

  lemma UtilizationFull(average: real, n: int)
    requires n > 0
    ensures Clamp100(average / n as real * 100.0) == 100.0 <==> n as real <= average
  {
    var q := average / n as real;
    assert q * n as real == average;
    if q >= 1.0 {
      assert (q - 1.0) * n as real >= 0.0;
    } else {
      assert (1.0 - q) * n as real > 0.0;
    }
  }

  /** What a sized reserved-instance row promises: total coverage at most the target and
      never clamped, full utilization exactly when the purchase fits the demand, and no
      instance more would be safe. */
  lemma TargetedRowIsSafe(rec: Rec, target: real)
    requires 0.0 < target <= 100.0 && rec.averageInstances > 0.0 && rec.existingCoverage < target
    ensures match TargetReserved(rec, target)
            case Kept(row) =>
              && row.count > 0
              && row.projectedCoverage == CoverageWith(rec.averageInstances, rec.existingCoverage, row.count) <= target
              && CoverageWith(rec.averageInstances, rec.existingCoverage, row.count + 1) > target
              && (row.projectedUtilization == 100.0 <==> row.count as real <= rec.averageInstances)
              && (rec.existingCoverage >= 0.0 ==> row.projectedUtilization == 100.0)
            case Dropped(reason) =>
              && reason == TARGET_SIZED_TO_ZERO
              && CoverageWith(rec.averageInstances, rec.existingCoverage, 1) > target
  {
    var average, existing := rec.averageInstances, rec.existingCoverage;
    var n := TargetCount(average, existing, target);
    assert average * (target - existing) > 0.0;
    TargetCountIsLargestSafe(average, existing, target, n);
    TargetCountIsLargestSafe(average, existing, target, n + 1);
    TargetCountIsLargestSafe(average, existing, target, 1);
    if n > 0 {
      UtilizationFull(average, n);
      if existing >= 0.0 {
        NonNegativeProduct(average, 100.0 - (target - existing));
      }
    }
  }

  /** Sizing a sized row again, now counting what it will cover, always drops it. */
  lemma ResizingDropsTheRow(rec: Rec, target: real)
    requires 0.0 < target <= 100.0 && rec.averageInstances > 0.0 && rec.existingCoverage < target
    requires TargetReserved(rec, target).Kept?
    ensures var row := TargetReserved(rec, target).row;
            TargetReserved(row.(existingCoverage := row.projectedCoverage), target).Dropped?
  {
    TargetedRowIsSafe(rec, target);
    var row := TargetReserved(rec, target).row;
    var average, n := rec.averageInstances, row.count;
    var again := row.(existingCoverage := row.projectedCoverage);
    assert again.averageInstances == average;
    assert CoverageWith(average, again.existingCoverage, 1) == CoverageWith(average, rec.existingCoverage, n + 1) by {
      assert (n + 1) as real / average == n as real / average + 1.0 / average;
    }
    if again.existingCoverage < target {
      TargetCountIsLargestSafe(average, again.existingCoverage, target, 1);
      assert average * (target - again.existingCoverage) > 0.0;
    }
  }

  // ---- What a run with a target returns, in the rows' own terms ------------------------------

  /** The target sizes the row by its pool: a reservation with a known average. */
  predicate IsPool(rec: Rec)
  {
    !IsSavingsPlan(rec.service) && rec.commitmentType.ReservedInstance? && rec.averageInstances > 0.0
  }

  /** One instance more for the pool stays within the target. */
  predicate HasRoom(rec: Rec, target: real)
  {
    IsPool(rec) ==> CoverageWith(rec.averageInstances, rec.existingCoverage, 1) <= target
  }

  function WithRoom(target: real): Rec -> bool
  {
    (rec: Rec) => HasRoom(rec, target)
  }

  /** The pool is at or above the target already. */
  function AtTarget(target: real): Rec -> bool
  {
    (rec: Rec) => IsPool(rec) && rec.existingCoverage >= target
  }

  /** The pool is below the target by less than an instance. */
  function JustBelowTarget(target: real): Rec -> bool
  {
    (rec: Rec) => IsPool(rec) && rec.existingCoverage < target && !HasRoom(rec, target)
  }

  /** What `part` is of `whole`, in percent, and a hundred if it is more. */
  predicate IsPercentUpTo100(percent: real, part: real, whole: real)
  {
    if part >= whole then percent == 100.0 else percent * whole == part * 100.0
  }

  /** A Savings Plan of known commitment and utilization. */
  predicate IsScalablePlan(rec: Rec)
  {
    && IsSavingsPlan(rec.service) && rec.recommendedUtilization > 0.0
    && rec.details.SavingsPlan? && rec.details.hourlyCommitment > 0.0
  }

  /** What the target promises for a row it keeps. A pool buys the most instances that stay within the
      target; a Savings Plan of known utilization is scaled to the target in dollars; nothing else
      changes. */
  predicate MeetsTarget(rec: Rec, row: Rec, target: real)
  {
    if IsPool(rec) then
      && SameOffer(rec, row) && row.count > 0
      && CoverageWith(rec.averageInstances, rec.existingCoverage, row.count) <= target
      && target < CoverageWith(rec.averageInstances, rec.existingCoverage, row.count + 1)
      && row.projectedCoverage == CoverageWith(rec.averageInstances, rec.existingCoverage, row.count)
      && IsPercentUpTo100(row.projectedUtilization, rec.averageInstances, row.count as real)
      && MoneyIn(rec, row, row.count as real, if rec.count > 0 then rec.count as real else 1.0)
    else if IsScalablePlan(rec) then
      && SameOffer(rec, row) && row.count == rec.count && MoneyIn(rec, row, target, 100.0)
      && IsPercentUpTo100(row.projectedUtilization, rec.recommendedUtilization, target)
    else row == rec
  }

  function TargetPromise(target: real): (Rec, Rec) -> bool
  {
    (rec: Rec, row: Rec) => MeetsTarget(rec, row, target)
  }

  lemma ClampedPercent(part: real, whole: real)
    requires whole > 0.0
    ensures IsPercentUpTo100(Clamp100(part / whole * 100.0), part, whole)
  {
    var q := part / whole;
    assert q * whole == part;
    if q >= 1.0 {
      assert (q - 1.0) * whole >= 0.0;
    } else {
      assert (1.0 - q) * whole > 0.0;
      assert q * 100.0 * whole == part * 100.0;
    }
  }

  lemma ScaledUtilization(utilization: real, target: real)
    requires target > 0.0
    ensures utilization / (target / 100.0) == utilization / target * 100.0
  {
    var q, ratio := utilization / target, target / 100.0;
    assert q * target == utilization && ratio * 100.0 == target;
    assert q * 100.0 * ratio == utilization;
  }

  lemma MoneyIgnoresTheRest(rec: Rec, scaled: Rec, row: Rec, num: real, den: real)
    requires MoneyIn(rec, scaled, num, den) && SameOffer(rec, scaled)
    requires row == scaled.(count := row.count, projectedUtilization := row.projectedUtilization,
                            projectedCoverage := row.projectedCoverage)
    ensures MoneyIn(rec, row, num, den) && SameOffer(rec, row)
  {
  }

  lemma PoolKeepsPromise(rec: Rec, target: real)
    requires 0.0 < target <= 100.0 && IsPool(rec)
    ensures TargetOne(target)(rec).Kept? <==> HasRoom(rec, target)
    ensures TargetOne(target)(rec) == Dropped(TARGET_ALREADY_MET) <==> rec.existingCoverage >= target
    ensures TargetOne(target)(rec) == Dropped(TARGET_SIZED_TO_ZERO) <==>
              rec.existingCoverage < target && !HasRoom(rec, target)
    ensures TargetOne(target)(rec).Kept? ==> MeetsTarget(rec, TargetOne(target)(rec).row, target)
  {
    hide ScaleCosts, MoneyIn, SameOffer, TargetCount, IsPercentUpTo100, Clamp100;
    TargetReasonsDiffer();
    TargetCountIsLargestSafe(rec.averageInstances, rec.existingCoverage, target, 1);
    assert 1.0 / rec.averageInstances > 0.0;
    if rec.existingCoverage < target {
      TargetedRowIsSafe(rec, target);
      if TargetOne(target)(rec).Kept? {
        var n := TargetCount(rec.averageInstances, rec.existingCoverage, target);
        PoolMoney(rec, n, target);
      }
    }
  }

  lemma TargetReasonsDiffer()
    ensures TARGET_ALREADY_MET != TARGET_SIZED_TO_ZERO
  {
    assert |TARGET_ALREADY_MET| == 18 && |TARGET_SIZED_TO_ZERO| == 20;
  }

  lemma PoolMoney(rec: Rec, n: int, target: real)
    requires 0.0 < target <= 100.0 && IsPool(rec) && rec.existingCoverage < target
    requires n == TargetCount(rec.averageInstances, rec.existingCoverage, target) > 0
    ensures TargetOne(target)(rec).Kept?
    ensures var row := TargetOne(target)(rec).row;
            && SameOffer(rec, row) && row.count == n
            && MoneyIn(rec, row, n as real, if rec.count > 0 then rec.count as real else 1.0)
            && IsPercentUpTo100(row.projectedUtilization, rec.averageInstances, n as real)
  {
    hide ScaleCosts, MoneyIn, SameOffer, TargetCount, IsPercentUpTo100, Clamp100;
    var den := if rec.count > 0 then rec.count as real else 1.0;
    var row := TargetOne(target)(rec).row;
    MoneyScaled(rec, n as real, den);
    assert n as real / 1.0 == n as real;
    MoneyIgnoresTheRest(rec, ScaleCosts(rec, n as real / den), row, n as real, den);
    ClampedPercent(rec.averageInstances, n as real);
  }

  lemma PlanKeepsPromise(rec: Rec, target: real)
    requires 0.0 < target <= 100.0 && !IsPool(rec)
    ensures TargetOne(target)(rec).Kept? && MeetsTarget(rec, TargetOne(target)(rec).row, target)
  {
    hide ScaleCosts, MoneyIn, SameOffer, IsPercentUpTo100, Clamp100;
    var row := TargetOne(target)(rec).row;
    if IsScalablePlan(rec) {
      MoneyScaled(rec, target, 100.0);
      MoneyIgnoresTheRest(rec, ScaleCosts(rec, target / 100.0), row, target, 100.0);
      ScaledUtilization(rec.recommendedUtilization, target);
      ClampedPercent(rec.recommendedUtilization, target);
    }
  }

  lemma TargetedAsPromised(recs: seq<Rec>, target: real)
    requires 0.0 < target <= 100.0
    ensures RowByRow(TargetPromise(target), Filter(WithRoom(target), recs), Targeted(recs, target))
    ensures DropsFor(TargetOne(target), TARGET_ALREADY_MET, recs) == |Filter(AtTarget(target), recs)|
    ensures DropsFor(TargetOne(target), TARGET_SIZED_TO_ZERO, recs) == |Filter(JustBelowTarget(target), recs)|
  {
    var size := TargetOne(target);
    hide TargetOne, MeetsTarget, HasRoom, IsPool;
    forall r | r in recs
      ensures size(r).Kept? <==> HasRoom(r, target)
      ensures size(r) == Dropped(TARGET_ALREADY_MET) <==> AtTarget(target)(r)
      ensures size(r) == Dropped(TARGET_SIZED_TO_ZERO) <==> JustBelowTarget(target)(r)
      ensures size(r).Kept? ==> MeetsTarget(r, size(r).row, target)
    {
      if IsPool(r) {
        PoolKeepsPromise(r, target);
      } else {
        PlanKeepsPromise(r, target);
        NoPoolHasRoom(r, target);
      }
    }
    KeptAsPromised(size, WithRoom(target), TargetPromise(target), recs);
    DroppedFor(size, TARGET_ALREADY_MET, AtTarget(target), recs);
    DroppedFor(size, TARGET_SIZED_TO_ZERO, JustBelowTarget(target), recs);
  }

  lemma NoPoolHasRoom(rec: Rec, target: real)
    requires !IsPool(rec)
    ensures HasRoom(rec, target)
  {
  }

  method ApplyTargetCoverage(recs: seq<Rec>, target: real, drops: DropSummary?) returns (result: seq<Rec>)
    modifies drops
    ensures result == Targeted(recs, target)
    ensures drops != null ==> forall reason ::
              Tally(drops.counts, reason) == Tally(old(drops.counts), reason)
                + if 0.0 < target <= 100.0 then DropsFor(TargetOne(target), reason, recs) else 0
    // In the rows' own terms: a row is handed on if and only if its pool has room for an instance.
    ensures !(0.0 < target <= 100.0) ==> result == recs
    ensures 0.0 < target <= 100.0 ==> RowByRow(TargetPromise(target), Filter(WithRoom(target), recs), result)
    ensures drops != null && 0.0 < target <= 100.0 ==>
              && Tally(drops.counts, TARGET_ALREADY_MET)
                   == Tally(old(drops.counts), TARGET_ALREADY_MET) + |Filter(AtTarget(target), recs)|
              && Tally(drops.counts, TARGET_SIZED_TO_ZERO)
                   == Tally(old(drops.counts), TARGET_SIZED_TO_ZERO) + |Filter(JustBelowTarget(target), recs)|
  {
    if target <= 0.0 || target > 100.0 {
      return recs;
    }
    result := [];
    for i := 0 to |recs|
      invariant result == SizedRows(TargetOne(target), recs[..i])
      invariant drops != null ==> forall reason ::
        Tally(drops.counts, reason) == Tally(old(drops.counts), reason) + DropsFor(TargetOne(target), reason, recs[..i])
    {
      var rec := recs[i];
      SizingStepAt(TargetOne(target), recs, i);
      match TargetOne(target)(rec)
      case Kept(adjusted) => result := result + [adjusted];
      case Dropped(reason) => Add(drops, reason, 1);
    }
    assert recs[..|recs|] == recs;
    TargetedAsPromised(recs, target);
  }

  // ---- Count override -------------------------------------------------------------------

  /** The largest count the row's figures are evidence for. */
  function EvidencedCount(rec: Rec): int
  {
    if rec.recommendedCount > rec.count then rec.recommendedCount else rec.count
  }

  function OverrideOne(overrideCount: int): Rec -> Sized
  {
    (rec: Rec) =>
      if IsSavingsPlan(rec.service) || rec.count <= 0 then Kept(rec) else Kept(Resized(rec, overrideCount))
  }

  function Overridden(recs: seq<Rec>, overrideCount: int): seq<Rec>
  {
    if overrideCount <= 0 then recs else SizedRows(OverrideOne(overrideCount), recs)
  }

  function SavingsPlanRow(rec: Rec): int { if IsSavingsPlan(rec.service) then 1 else 0 }

  function UnscalableRow(rec: Rec): int { if !IsSavingsPlan(rec.service) && rec.count <= 0 then 1 else 0 }

  function ExtrapolatedBy(overrideCount: int): Rec -> int
  {
    (rec: Rec) =>
      if !IsSavingsPlan(rec.service) && rec.count > 0 && overrideCount > EvidencedCount(rec) then 1 else 0
  }

  /** The new count is beyond what both counts of the row are evidence for. */
  function IsExtrapolated(overrideCount: int): Rec -> bool
  {
    (rec: Rec) =>
      && !IsSavingsPlan(rec.service) && rec.count > 0
      && overrideCount > rec.count && overrideCount > rec.recommendedCount
  }

  lemma OverrideTallies(recs: seq<Rec>, overrideCount: int)
    ensures SumInt(SavingsPlanRow, recs) == |Filter((r: Rec) => IsSavingsPlan(r.service), recs)|
    ensures SumInt(UnscalableRow, recs) == |Filter((r: Rec) => !IsSavingsPlan(r.service) && r.count <= 0, recs)|
    ensures SumInt(ExtrapolatedBy(overrideCount), recs) == |Filter(IsExtrapolated(overrideCount), recs)|
  {
    hide IsSavingsPlan;
    SumOfOnes(SavingsPlanRow, (r: Rec) => IsSavingsPlan(r.service), recs);
    SumOfOnes(UnscalableRow, (r: Rec) => !IsSavingsPlan(r.service) && r.count <= 0, recs);
    SumOfOnes(ExtrapolatedBy(overrideCount), IsExtrapolated(overrideCount), recs);
  }

  /** What one more row adds to the result and to the tallies. */
  lemma OverrideStep(recs: seq<Rec>, overrideCount: int, i: nat)
    requires i < |recs|
    ensures SizedRows(OverrideOne(overrideCount), recs[..i + 1])
         == SizedRows(OverrideOne(overrideCount), recs[..i])
            + [if IsSavingsPlan(recs[i].service) || recs[i].count <= 0 then recs[i]
               else Resized(recs[i], overrideCount)]
    ensures SumInt(SavingsPlanRow, recs[..i + 1]) == SumInt(SavingsPlanRow, recs[..i]) + SavingsPlanRow(recs[i])
    ensures SumInt(UnscalableRow, recs[..i + 1]) == SumInt(UnscalableRow, recs[..i]) + UnscalableRow(recs[i])
    ensures SumInt(ExtrapolatedBy(overrideCount), recs[..i + 1])
         == SumInt(ExtrapolatedBy(overrideCount), recs[..i]) + ExtrapolatedBy(overrideCount)(recs[i])
  {
    hide Resized;
    assert recs[..i + 1] == recs[..i] + [recs[i]];
    SizingStep(OverrideOne(overrideCount), recs[..i], recs[i]);
    SumIntStep(SavingsPlanRow, recs[..i], recs[i]);
    SumIntStep(UnscalableRow, recs[..i], recs[i]);
    SumIntStep(ExtrapolatedBy(overrideCount), recs[..i], recs[i]);
  }

  /** What an override promises: reservations that buy something buy the new count at their prices, and
      nothing else changes. */
  predicate IsOverridden(rec: Rec, row: Rec, overrideCount: int)
  {
    if !IsSavingsPlan(rec.service) && rec.count > 0 then
      && SameOffer(rec, row) && row.count == overrideCount
      && MoneyIn(rec, row, overrideCount as real, rec.count as real)
    else row == rec
  }

  function OverridePromise(overrideCount: int): (Rec, Rec) -> bool
  {
    (rec: Rec, row: Rec) => IsOverridden(rec, row, overrideCount)
  }

  lemma {:induction false} OverriddenAsPromised(recs: seq<Rec>, overrideCount: int)
    requires overrideCount > 0
    ensures RowByRow(OverridePromise(overrideCount), recs, Overridden(recs, overrideCount))
  {
    hide Resized, MoneyIn, SameOffer, IsSavingsPlan;
    if recs != [] {
      OverriddenAsPromised(recs[1..], overrideCount);
      if recs[0].count > 0 {
        MoneyResized(recs[0], overrideCount);
      }
      var rest := Overridden(recs[1..], overrideCount);
      assert Overridden(recs, overrideCount) == [OverrideOne(overrideCount)(recs[0]).row] + rest;
    }
  }

  method ApplyCountOverride(recs: seq<Rec>, overrideCount: int)
    returns (result: seq<Rec>, skippedSP: int, skippedNonPositive: int, extrapolated: int)
    ensures result == Overridden(recs, overrideCount) && |result| == |recs|
    ensures if overrideCount > 0 then RowByRow(OverridePromise(overrideCount), recs, result) else result == recs
    ensures overrideCount > 0 ==>
              && skippedSP == |Filter((r: Rec) => IsSavingsPlan(r.service), recs)|
              && skippedNonPositive == |Filter((r: Rec) => !IsSavingsPlan(r.service) && r.count <= 0, recs)|
              && extrapolated == |Filter(IsExtrapolated(overrideCount), recs)|
  {
    skippedSP, skippedNonPositive, extrapolated := 0, 0, 0;
    if overrideCount <= 0 {
      return recs, 0, 0, 0;
    }
    result := [];
    for i := 0 to |recs|
      invariant |result| == i && result == SizedRows(OverrideOne(overrideCount), recs[..i])
      invariant skippedSP == SumInt(SavingsPlanRow, recs[..i])
      invariant skippedNonPositive == SumInt(UnscalableRow, recs[..i])
      invariant extrapolated == SumInt(ExtrapolatedBy(overrideCount), recs[..i])
    {
      var rec := recs[i];
      OverrideStep(recs, overrideCount, i);
      if IsSavingsPlan(rec.service) {
        result := result + [rec];
        skippedSP := skippedSP + 1;
      } else if rec.count <= 0 {
        result := result + [rec];
        skippedNonPositive := skippedNonPositive + 1;
      } else {
        result := result + [Resized(rec, overrideCount)];
        if overrideCount > EvidencedCount(rec) {
          extrapolated := extrapolated + 1;
        }
      }
    }
    assert recs[..|recs|] == recs;
    OverriddenAsPromised(recs, overrideCount);
    OverrideTallies(recs, overrideCount);
  }

  // ---- Drop ledgers ---------------------------------------------------------------------

  lemma {:induction false} CoverageConserves(recs: seq<Rec>, ratio: real)
    ensures |recs| == |SizedRows(CoverOne(ratio), recs)| + DropsFor(CoverOne(ratio), TARGET_SIZED_TO_ZERO, recs)
  {
    if recs != [] {
      CoverageConserves(recs[1..], ratio);
    }
  }

  lemma {:induction false} TargetConserves(recs: seq<Rec>, target: real)
    requires target > 0.0
    ensures |recs| == |SizedRows(TargetOne(target), recs)|
                    + DropsFor(TargetOne(target), TARGET_ALREADY_MET, recs)
                    + DropsFor(TargetOne(target), TARGET_SIZED_TO_ZERO, recs)
  {
    if recs != [] {
      TargetConserves(recs[1..], target);
    }
  }

  /** Coverage sizing accounts for every row it drops, except that a coverage of zero or
      less drops everything unrecorded. */
  lemma CoverageLedger(recs: seq<Rec>, coverage: real)
    ensures var recorded := if 0.0 < coverage < 100.0
                            then DropsFor(CoverOne(coverage / 100.0), TARGET_SIZED_TO_ZERO, recs) else 0;
            |recs| == |Covered(recs, coverage)| + recorded <==> coverage > 0.0 || recs == []
  {
    if 0.0 < coverage < 100.0 {
      CoverageConserves(recs, coverage / 100.0);
    }
  }

  /** Target sizing accounts for every row it drops, whatever the target. */
  lemma TargetLedger(recs: seq<Rec>, target: real)
    ensures var recorded := if 0.0 < target <= 100.0
                            then DropsFor(TargetOne(target), TARGET_ALREADY_MET, recs)
                               + DropsFor(TargetOne(target), TARGET_SIZED_TO_ZERO, recs) else 0;
            |recs| == |Targeted(recs, target)| + recorded
  {
    if 0.0 < target <= 100.0 {
      TargetConserves(recs, target);
    }
  }
}
