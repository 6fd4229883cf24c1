/** The recommendation record and the pricing helpers every stage shares. */
module Types {
  datatype Option<+T> = None | Some(value: T)

  /** The service-specific part of a recommendation. A missing value and a typed nil
      pointer behave alike in every function modelled here: both are `NoDetails`. */
  datatype Details =
    | NoDetails
    | Database(engine: string, azConfig: string, instanceClass: string)
    | Cache(engine: string, nodeType: string)
    | Compute(instanceType: string, platform: string)
    | SavingsPlan(hourlyCommitment: real)
    | OtherDetails

  /** The recurring monthly charge, when the provider returned one. */
  datatype MonthlyCost = NoBreakdown | Monthly(amount: real)

  datatype CommitmentType = ReservedInstance | OtherCommitment(name: string)

  datatype Rec = Rec(
    service: string,
    region: string,
    resourceType: string,
    account: string,
    accountName: string,
    count: int,
    commitmentType: CommitmentType,
    term: string,
    paymentOption: string,
    onDemandCost: real,
    commitmentCost: real,
    estimatedSavings: real,
    savingsPercentage: real,
    recurringMonthlyCost: MonthlyCost,
    breakEvenMonths: real,
    details: Details,
    averageInstances: real,
    recommendedUtilization: real,
    recommendedCount: int,
    existingCoverage: real,
    existingCoverageKnown: bool,
    projectedUtilization: real,
    projectedCoverage: real
  )

  predicate IsSavingsPlan(service: string)
  {
    service in {
      "savingsplans", "savings-plans-compute", "savings-plans-ec2instance",
      "savings-plans-sagemaker", "savings-plans-database"
    }
  }

  /** Multiplies every whole-row money field by `ratio`. */
  function ScaleCosts(rec: Rec, ratio: real): Rec
  {
    rec.(
      commitmentCost := rec.commitmentCost * ratio,
      onDemandCost := rec.onDemandCost * ratio,
      estimatedSavings := rec.estimatedSavings * ratio,
      recurringMonthlyCost :=
        if rec.recurringMonthlyCost.Monthly? then Monthly(rec.recurringMonthlyCost.amount * ratio) else NoBreakdown,
      details :=
        if rec.details.SavingsPlan? then SavingsPlan(rec.details.hourlyCommitment * ratio) else rec.details
    )
  }

  /** The row for `n` instances at the prices of `rec`. */
  function Resized(rec: Rec, n: int): Rec
    requires rec.count != 0
  {
    ScaleCosts(rec, n as real / rec.count as real).(count := n)
  }

  /** What one instance of a row costs and saves. */
  datatype Prices = Prices(commitment: real, onDemand: real, savings: real, recurring: MonthlyCost)

  function UnitPrices(rec: Rec): Prices
    requires rec.count > 0
  {
    var n := rec.count as real;
    Prices(
      rec.commitmentCost / n, rec.onDemandCost / n, rec.estimatedSavings / n,
      if rec.recurringMonthlyCost.Monthly? then Monthly(rec.recurringMonthlyCost.amount / n) else NoBreakdown
    )
  }

  /** What a stage may not change when it resizes a row. */
  predicate SameOffer(a: Rec, b: Rec)
  {
    && a.service == b.service && a.region == b.region && a.resourceType == b.resourceType
    && a.account == b.account && a.term == b.term && a.paymentOption == b.paymentOption
    && a.commitmentType == b.commitmentType && a.savingsPercentage == b.savingsPercentage
    && a.recommendedCount == b.recommendedCount
  }

  lemma ScaledDivision(v: real, k: real, n: real, scaled: real)
    requires k != 0.0 && n != 0.0 && scaled == v * (n / k)
    ensures scaled / n == v / k
  {
    var q, w := n / k, v / k;
    assert q * k == n && w * k == v;
    assert v * q == w * k * q == w * (q * k);
  }

  /** Resizing keeps every unit price. */
  lemma ResizedKeepsUnitPrices(rec: Rec, n: int)
    requires rec.count > 0 && n > 0
    ensures UnitPrices(Resized(rec, n)) == UnitPrices(rec)
    ensures SameOffer(Resized(rec, n), rec)
  {
    var k, m, r := rec.count as real, n as real, Resized(rec, n);
    ScaledDivision(rec.commitmentCost, k, m, r.commitmentCost);
    ScaledDivision(rec.onDemandCost, k, m, r.onDemandCost);
    ScaledDivision(rec.estimatedSavings, k, m, r.estimatedSavings);
    if rec.recurringMonthlyCost.Monthly? {
      ScaledDivision(rec.recurringMonthlyCost.amount, k, m, r.recurringMonthlyCost.amount);
    }
  }

  lemma Regroup(v: real, a: real, b: real, ab: real)
    requires ab == a * b
    ensures v * a * b == v * ab
  {
  }

  lemma ScaledTwice(rec: Rec, a: real, b: real, ab: real)
    requires ab == a * b
    ensures ScaleCosts(ScaleCosts(rec, a), b) == ScaleCosts(rec, ab)
  {
    var once, twice := ScaleCosts(rec, ab), ScaleCosts(ScaleCosts(rec, a), b);
    Regroup(rec.commitmentCost, a, b, ab);
    Regroup(rec.onDemandCost, a, b, ab);
    Regroup(rec.estimatedSavings, a, b, ab);
    assert twice.recurringMonthlyCost == once.recurringMonthlyCost by {
      if rec.recurringMonthlyCost.Monthly? {
        Regroup(rec.recurringMonthlyCost.amount, a, b, ab);
        assert twice.recurringMonthlyCost.amount == once.recurringMonthlyCost.amount;
      }
    }
    assert twice.details == once.details by {
      if rec.details.SavingsPlan? {
        Regroup(rec.details.hourlyCommitment, a, b, ab);
        assert twice.details.hourlyCommitment == once.details.hourlyCommitment;
      }
    }
  }

  lemma RatiosCompose(k: real, m: real, n: real)
    requires k != 0.0 && m != 0.0
    ensures (m / k) * (n / m) == n / k
  {
    var a, b := m / k, n / m;
    assert a * k == m && b * m == n;
    assert (a * b) * k == b * (a * k);
  }

  /** Resizing twice is resizing once to the final count. */
  lemma ResizedTwice(rec: Rec, m: int, n: int)
    requires rec.count != 0 && m != 0
    ensures Resized(Resized(rec, m), n) == Resized(rec, n)
  {
    var k, x, y := rec.count as real, m as real, n as real;
    RatiosCompose(k, x, y);
    var a, b := x / k, y / x;
    ScaledTwice(rec, a, b, y / k);
    ScaleIgnoresCount(ScaleCosts(rec, a), m, b);
  }

  lemma ScaleIgnoresCount(rec: Rec, n: int, ratio: real)
    ensures ScaleCosts(rec.(count := n), ratio) == ScaleCosts(rec, ratio).(count := n)
  {
    var a, b := ScaleCosts(rec.(count := n), ratio), ScaleCosts(rec, ratio).(count := n);
    assert a.commitmentCost == b.commitmentCost;
    assert a.onDemandCost == b.onDemandCost;
    assert a.recurringMonthlyCost == b.recurringMonthlyCost;
    assert a.details == b.details;
  }

  function CountOf(rec: Rec): int { rec.count }

  function PositiveCount(rec: Rec): int { if rec.count > 0 then rec.count else 0 }

  function SavingsOf(rec: Rec): real { rec.estimatedSavings }

  /** The monthly savings one instance of the row returns; a row that buys nothing has
      no rate and counts as zero. */
  function SavingsPerInstance(rec: Rec): real
  {
    if rec.count <= 0 then 0.0 else rec.estimatedSavings / rec.count as real
  }

  /** Byte-wise string order. */
  predicate LexLess(a: string, b: string)
  {
    if b == [] then false
    else if a == [] then true
    else a[0] < b[0] || (a[0] == b[0] && LexLess(a[1..], b[1..]))
  }

  lemma {:induction false} LexLessIsTotal(a: string, b: string)
    ensures !LexLess(a, b) && !LexLess(b, a) <==> a == b
    ensures !(LexLess(a, b) && LexLess(b, a))
  {
    if a != [] && b != [] {
      LexLessIsTotal(a[1..], b[1..]);
      assert a == [a[0]] + a[1..] && b == [b[0]] + b[1..];
    }
  }

  /** One string is before another if it is a proper prefix of it, or smaller where they first differ. */
  lemma {:induction false} LexLessMeans(a: string, b: string)
    ensures LexLess(a, b) <==>
              exists k :: 0 <= k <= |a| && k < |b| && a[..k] == b[..k] && (k == |a| || a[k] < b[k])
  {
    if a != [] && b != [] {
      LexLessMeans(a[1..], b[1..]);
      if a[0] == b[0] && LexLess(a[1..], b[1..]) {
        var k :| 0 <= k <= |a| - 1 && k < |b| - 1 && a[1..][..k] == b[1..][..k]
                 && (k == |a| - 1 || a[1..][k] < b[1..][k]);
        assert a[..k + 1] == [a[0]] + a[1..][..k] && b[..k + 1] == [b[0]] + b[1..][..k];
        assert k + 1 == |a| || a[k + 1] < b[k + 1];
      }
      if k :| 0 <= k <= |a| && k < |b| && a[..k] == b[..k] && (k == |a| || a[k] < b[k]) {
        if k > 0 {
          assert a[..k][0] == b[..k][0];
          assert a[1..][..k - 1] == a[..k][1..] && b[1..][..k - 1] == b[..k][1..];
        }
      }
      if a[0] < b[0] {
        assert a[..0] == b[..0];
      }
    } else if b != [] {
      assert a[..0] == b[..0];
    }
  }

  lemma {:induction false} LexLessIsTransitive(a: string, b: string, c: string)
    requires LexLess(a, b) && LexLess(b, c)
    ensures LexLess(a, c)
  {
    if a != [] && b != [] && c != [] && a[0] == b[0] == c[0] {
      LexLessIsTransitive(a[1..], b[1..], c[1..]);
    }
  }

  /** The tie-break key of both rankings. */
  function OfferKey(rec: Rec): string
  {
    rec.service + "|" + rec.region + "|" + rec.resourceType
  }
}
