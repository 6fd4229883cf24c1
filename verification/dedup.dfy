/** Subtracting recently bought commitments from the recommendations, so that a run does not
    buy again what was just bought. The matching key is a parameter: everything below holds
    whatever two rows it considers alike. */
module Dedup {
  import opened Types
  import opened Sums
  import opened Drops

  /** An existing commitment, under the key its type, region and engine give it. */
  datatype Commitment = Commitment(key: string, count: int, state: string, startDate: int)

  const DEFAULT_LOOKBACK_HOURS := 24

  /** Recently bought instances not yet matched, per key. Rows consume it as they match. */
  class Ledger {
    var owed: map<string, int>

    constructor (owed: map<string, int>)
      ensures this.owed == owed
    {
      this.owed := owed;
    }
  }

  predicate IsRecentActive(c: Commitment, cutoff: int)
  {
    (c.state == "active" || c.state == "payment-pending") && c.startDate > cutoff
  }

  function RecentSince(cutoff: int): Commitment -> bool
  {
    (c: Commitment) => IsRecentActive(c, cutoff)
  }

  function Booked(commitments: seq<Commitment>): map<string, int>
  {
    if commitments == [] then map[]
    else
      var c := commitments[|commitments| - 1];
      var before := Booked(commitments[..|commitments| - 1]);
      before[c.key := Tally(before, c.key) + c.count]
  }

  method BuildExistingCommitmentsMap(commitments: seq<Commitment>) returns (existing: map<string, int>)
    ensures existing == Booked(commitments)
  {
    existing := map[];
    for i := 0 to |commitments|
      invariant existing == Booked(commitments[..i])
    {
      var c := commitments[i];
      assert commitments[..i + 1][..i] == commitments[..i];
      existing := existing[c.key := Tally(existing, c.key) + c.count];
    }
    assert commitments[..|commitments|] == commitments;
  }

  /** What is left to buy of `count` instances when `owed` are already on the way. */
  function Remaining(count: int, owed: int): int
  {
    if owed >= count then 0 else if owed > 0 then count - owed else count
  }

  function OwedAfter(count: int, owed: int): int
  {
    if owed >= count then owed - count else if owed > 0 then 0 else owed
  }

  function LedgerStep(rec: Rec, owed: map<string, int>, keyOf: Rec -> string): map<string, int>
  {
    var key := keyOf(rec);
    if Tally(owed, key) >= rec.count || Tally(owed, key) > 0
    then owed[key := OwedAfter(rec.count, Tally(owed, key))] else owed
  }

  /** The rows that still need buying, at what is left of their counts. */
  function Passed(recs: seq<Rec>, owed: map<string, int>, keyOf: Rec -> string): seq<Rec>
  {
    if recs == [] then []
    else
      var left := Remaining(recs[0].count, Tally(owed, keyOf(recs[0])));
      var rest := Passed(recs[1..], LedgerStep(recs[0], owed, keyOf), keyOf);
      if left > 0 then [recs[0].(count := left)] + rest else rest
  }

  function LedgerAfter(recs: seq<Rec>, owed: map<string, int>, keyOf: Rec -> string): map<string, int>
  {
    if recs == [] then owed else LedgerAfter(recs[1..], LedgerStep(recs[0], owed, keyOf), keyOf)
  }

  method AdjustSingleRecommendation(rec: Rec, ledger: Ledger, keyOf: Rec -> string) returns (left: int)
    modifies ledger
    ensures left == Remaining(rec.count, Tally(old(ledger.owed), keyOf(rec)))
    ensures ledger.owed == LedgerStep(rec, old(ledger.owed), keyOf)
  {
    var key := keyOf(rec);
    var existing := Tally(ledger.owed, key);
    if existing >= rec.count {
      ledger.owed := ledger.owed[key := existing - rec.count];
      return 0;
    }
    left := rec.count;
    if existing > 0 {
      left := rec.count - existing;
      ledger.owed := ledger.owed[key := 0];
    }
  }

  method AdjustAgainstExisting(recs: seq<Rec>, ledger: Ledger, keyOf: Rec -> string)
    returns (passed: seq<Rec>, filtered: seq<Rec>)
    modifies ledger
    ensures passed == Passed(recs, old(ledger.owed), keyOf)
    ensures ledger.owed == LedgerAfter(recs, old(ledger.owed), keyOf)
    ensures |passed| + |filtered| == |recs|
  {
    passed, filtered := [], [];
    for i := 0 to |recs|
      invariant passed + Passed(recs[i..], ledger.owed, keyOf) == Passed(recs, old(ledger.owed), keyOf)
      invariant LedgerAfter(recs[i..], ledger.owed, keyOf) == LedgerAfter(recs, old(ledger.owed), keyOf)
      invariant |passed| + |filtered| == i
    {
      var rec := recs[i];
      assert recs[i..][0] == rec && recs[i..][1..] == recs[i + 1..];
      var left := AdjustSingleRecommendation(rec, ledger, keyOf);
      if left > 0 {
        passed := passed + [rec.(count := left)];
      } else {
        filtered := filtered + [rec];
      }
    }
  }

  /** What one deduplication lets through. A failed listing, or no recent commitment at all,
      leaves the rows untouched. */
  function Deduplicated(recs: seq<Rec>, existing: Option<seq<Commitment>>, cutoff: int, keyOf: Rec -> string): seq<Rec>
  {
    if existing.None? then recs
    else
      var recent := Filter(RecentSince(cutoff), existing.value);
      if recent == [] then recs else Passed(recs, Booked(recent), keyOf)
  }

  lemma ListingDecides(recs: seq<Rec>, existing: Option<seq<Commitment>>, now: int, hours: int, keyOf: Rec -> string)
    ensures existing.None? ==> Deduplicated(recs, existing, now - hours, keyOf) == recs
    ensures existing.Some? ==>
              var recent := Filter(RecentSince(now - hours), existing.value);
              Deduplicated(recs, existing, now - hours, keyOf)
                == if recent == [] then recs else Passed(recs, Booked(recent), keyOf)
    ensures existing.Some? && CountsAreKnown(recs, existing.value, keyOf) ==>
              PassesBeyondCover(recs, existing.value, now, hours, keyOf,
                                Deduplicated(recs, existing, now - hours, keyOf))
  {
    hide CountsAreKnown, PassesBeyondCover;
    if existing.Some? && CountsAreKnown(recs, existing.value, keyOf) {
      PassedBeyondCover(recs, existing.value, now, hours, keyOf);
    }
  }

  method AdjustForExisting(recs: seq<Rec>, existing: Option<seq<Commitment>>, lookbackHours: int, now: int,
                           keyOf: Rec -> string)
    returns (passed: seq<Rec>, filtered: seq<Rec>)
    ensures var hours := if lookbackHours <= 0 then DEFAULT_LOOKBACK_HOURS else lookbackHours;
            passed == Deduplicated(recs, existing, now - hours, keyOf)
    ensures |passed| + |filtered| == |recs|
    ensures existing.None? ==> passed == recs
    // From the listing: under each key the demand passes beyond what was bought since, whether it is paid
    // for or still being so. If nothing was, every row passes.
    ensures existing.Some? && CountsAreKnown(recs, existing.value, keyOf) ==>
              PassesBeyondCover(
                recs, existing.value, now, if lookbackHours <= 0 then 24 else lookbackHours, keyOf, passed)
  {
    hide CountsAreKnown, PassesBeyondCover, Deduplicated, Passed, Booked, Filter;
    var hours := if lookbackHours <= 0 then DEFAULT_LOOKBACK_HOURS else lookbackHours;
    ListingDecides(recs, existing, now, hours, keyOf);
    if existing.None? {
      return recs, [];
    }
    var recent := Filter(RecentSince(now - hours), existing.value);
    if |recent| == 0 {
      return recs, [];
    }
    var counts := BuildExistingCommitmentsMap(recent);
    var ledger := new Ledger(counts);
    passed, filtered := AdjustAgainstExisting(recs, ledger, keyOf);
  }

  /** The deduplication of one region, counted into the drop summary. */
  method CheckDuplicates(recs: seq<Rec>, existing: Option<seq<Commitment>>, now: int, keyOf: Rec -> string,
                         drops: DropSummary?)
    returns (kept: seq<Rec>)
    modifies drops
    ensures kept == Deduplicated(recs, existing, now - DEFAULT_LOOKBACK_HOURS, keyOf)
    ensures drops != null ==> drops.counts == Bump(old(drops.counts), DUPLICATE_DEDUP, |recs| - |kept|)
  {
    var passed, filtered := AdjustForExisting(recs, existing, 0, now, keyOf);
    Add(drops, DUPLICATE_DEDUP, |filtered|);
    return passed;
  }

  // ---- Deduplication refines subtraction -------------------------------------------------

  /** The instances a row contributes to `key`. */
  function CountFor(key: string, keyOf: Rec -> string): Rec -> int
  {
    (rec: Rec) => if keyOf(rec) == key then rec.count else 0
  }

  /** The most instances of `key` that any prefix of the rows asks for, at least `floor`. */
  function Peak(key: string, keyOf: Rec -> string, recs: seq<Rec>, asked: int, floor: int): int
  {
    var high := if asked > floor then asked else floor;
    if recs == [] then high else Peak(key, keyOf, recs[1..], asked + CountFor(key, keyOf)(recs[0]), high)
  }

  ghost predicate NonNegative(owed: map<string, int>)
  {
    forall key :: key in owed ==> owed[key] >= 0
  }

  /** Two rows alike for the key stay alike when only the count changes. */
  ghost predicate KeyIgnoresCount(keyOf: Rec -> string)
  {
    forall r: Rec, n {:trigger keyOf(r.(count := n))} :: keyOf(r.(count := n)) == keyOf(r)
  }

  lemma {:induction false} PeakShift(key: string, keyOf: Rec -> string, recs: seq<Rec>, asked: int, floor: int,
                                     shift: int)
    ensures Peak(key, keyOf, recs, asked + shift, floor + shift) == Peak(key, keyOf, recs, asked, floor) + shift
  {
    if recs != [] {
      var high := if asked > floor then asked else floor;
      PeakShift(key, keyOf, recs[1..], asked + CountFor(key, keyOf)(recs[0]), high, shift);
    }
  }

  /** What passes for a key is the highest demand any prefix of the rows reaches beyond what
      was recently bought; what stays in the ledger is that less the demand left at the end.
      This holds for every row order and every count, negative ones included. */
  lemma {:induction false} PassedIsPeakBeyondOwed(recs: seq<Rec>, owed: map<string, int>, keyOf: Rec -> string,
                                                  key: string)
    requires NonNegative(owed) && KeyIgnoresCount(keyOf)
    ensures var peak := Peak(key, keyOf, recs, 0, Tally(owed, key));
            && SumInt(CountFor(key, keyOf), Passed(recs, owed, keyOf)) == peak - Tally(owed, key)
            && Tally(LedgerAfter(recs, owed, keyOf), key) == peak - SumInt(CountFor(key, keyOf), recs)
            && NonNegative(LedgerAfter(recs, owed, keyOf))
  {
    if recs != [] {
      hide LedgerStep, Remaining;
      var next := LedgerStep(recs[0], owed, keyOf);
      var before, after, c := Tally(owed, key), Tally(next, key), CountFor(key, keyOf)(recs[0]);
      PassedStep(recs, owed, keyOf, key);
      PassedIsPeakBeyondOwed(recs[1..], next, keyOf, key);
      PeakShift(key, keyOf, recs[1..], 0, after, c);
      PeakAbsorbsFloor(key, keyOf, recs[1..], c, before);
    }
  }

  /** One row: the ledger rises to the row's count where that is higher, and the rise is what passes. */
  lemma PassedStep(recs: seq<Rec>, owed: map<string, int>, keyOf: Rec -> string, key: string)
    requires recs != [] && NonNegative(owed) && KeyIgnoresCount(keyOf)
    ensures var next := LedgerStep(recs[0], owed, keyOf);
            var before, after, c := Tally(owed, key), Tally(next, key), CountFor(key, keyOf)(recs[0]);
            && NonNegative(next)
            && after + c == (if c > before then c else before)
            && SumInt(CountFor(key, keyOf), Passed(recs, owed, keyOf))
                 == after + c - before + SumInt(CountFor(key, keyOf), Passed(recs[1..], next, keyOf))
            && SumInt(CountFor(key, keyOf), recs) == c + SumInt(CountFor(key, keyOf), recs[1..])
            && LedgerAfter(recs, owed, keyOf) == LedgerAfter(recs[1..], next, keyOf)
  {
    var rec, rest := recs[0], Passed(recs[1..], LedgerStep(recs[0], owed, keyOf), keyOf);
    var left := Remaining(rec.count, Tally(owed, keyOf(rec)));
    var share := if left > 0 then [rec.(count := left)] else [];
    assert Passed(recs, owed, keyOf) == share + rest;
    SumIntAppend(CountFor(key, keyOf), share, rest);
    assert share != [] ==> share[1..] == [];
    assert SumInt(CountFor(key, keyOf), share) == if keyOf(rec) == key then left else 0;
  }

  lemma {:induction false} PeakAbsorbsFloor(key: string, keyOf: Rec -> string, recs: seq<Rec>, asked: int, floor: int)
    ensures Peak(key, keyOf, recs, asked, if asked > floor then asked else floor)
        == Peak(key, keyOf, recs, asked, floor)
  {
  }

  lemma {:induction false} PeakBounds(key: string, keyOf: Rec -> string, recs: seq<Rec>, asked: int, floor: int)
    ensures Peak(key, keyOf, recs, asked, floor) >= floor
    ensures Peak(key, keyOf, recs, asked, floor) >= asked + SumInt(CountFor(key, keyOf), recs)
  {
    if recs != [] {
      var high := if asked > floor then asked else floor;
      PeakBounds(key, keyOf, recs[1..], asked + CountFor(key, keyOf)(recs[0]), high);
    }
  }

  lemma {:induction false} PeakOfRisingDemand(key: string, keyOf: Rec -> string, recs: seq<Rec>, asked: int, floor: int)
    requires forall r :: r in recs ==> r.count >= 0
    ensures var total := asked + SumInt(CountFor(key, keyOf), recs);
            Peak(key, keyOf, recs, asked, floor) == if total > floor then total else floor
  {
    if recs != [] {
      assert recs[0] in recs;
      forall x | x in recs[1..] ensures CountFor(key, keyOf)(x) >= 0 {
      }
      SumIntNonNegative(CountFor(key, keyOf), recs[1..]);
      var high := if asked > floor then asked else floor;
      PeakOfRisingDemand(key, keyOf, recs[1..], asked + CountFor(key, keyOf)(recs[0]), high);
    }
  }

  function Beyond(a: int, b: int): int { if a > b then a - b else 0 }

  /** For every input: deduplication is subtraction for a key exactly when no prefix of the
      rows asks for more than both the whole demand and what was recently bought. */
  lemma DedupIsSubtractionIff(recs: seq<Rec>, owed: map<string, int>, keyOf: Rec -> string, key: string)
    requires NonNegative(owed) && KeyIgnoresCount(keyOf)
    ensures var demand, recent := SumInt(CountFor(key, keyOf), recs), Tally(owed, key);
            && (SumInt(CountFor(key, keyOf), Passed(recs, owed, keyOf)) == Beyond(demand, recent)
                <==> Peak(key, keyOf, recs, 0, recent) == if demand > recent then demand else recent)
            && (Tally(LedgerAfter(recs, owed, keyOf), key) == Beyond(recent, demand)
                <==> Peak(key, keyOf, recs, 0, recent) == if demand > recent then demand else recent)
  {
    PassedIsPeakBeyondOwed(recs, owed, keyOf, key);
  }

  /** Without negative counts the two always agree, so the order of the rows cannot matter. */
  lemma DedupIsSubtraction(recs: seq<Rec>, owed: map<string, int>, keyOf: Rec -> string, key: string)
    requires NonNegative(owed) && KeyIgnoresCount(keyOf) && forall r :: r in recs ==> r.count >= 0
    ensures var demand, recent := SumInt(CountFor(key, keyOf), recs), Tally(owed, key);
            && SumInt(CountFor(key, keyOf), Passed(recs, owed, keyOf)) == Beyond(demand, recent)
            && Tally(LedgerAfter(recs, owed, keyOf), key) == Beyond(recent, demand)
  {
    PeakOfRisingDemand(key, keyOf, recs, 0, Tally(owed, key));
    DedupIsSubtractionIff(recs, owed, keyOf, key);
  }

  lemma DedupIgnoresRowOrder(recs: seq<Rec>, recs': seq<Rec>, owed: map<string, int>, keyOf: Rec -> string, key: string)
    requires NonNegative(owed) && KeyIgnoresCount(keyOf)
    requires multiset(recs) == multiset(recs') && forall r :: r in recs ==> r.count >= 0
    ensures SumInt(CountFor(key, keyOf), Passed(recs, owed, keyOf))
         == SumInt(CountFor(key, keyOf), Passed(recs', owed, keyOf))
    ensures Tally(LedgerAfter(recs, owed, keyOf), key) == Tally(LedgerAfter(recs', owed, keyOf), key)
  {
    forall r | r in recs' ensures r.count >= 0 {
      assert r in multiset(recs);
    }
    SumIntPermutation(CountFor(key, keyOf), recs, recs');
    DedupIsSubtraction(recs, owed, keyOf, key);
    DedupIsSubtraction(recs', owed, keyOf, key);
  }

  /** With a negative count the order does matter: 8 then -5 lets 8 through, the net is 3. */
  lemma NegativeCountBreaksSubtraction(row: Rec, keyOf: Rec -> string)
    requires KeyIgnoresCount(keyOf)
    ensures var recs := [row.(count := 8), row.(count := -5)];
            && SumInt(CountFor(keyOf(row), keyOf), recs) == 3
            && SumInt(CountFor(keyOf(row), keyOf), Passed(recs, map[], keyOf)) == 8
  {
    var recs, key := [row.(count := 8), row.(count := -5)], keyOf(row);
    PassedIsPeakBeyondOwed(recs, map[], keyOf, key);
    var rest := [row.(count := -5)];
    assert recs[1..] == rest && rest[1..] == [];
    assert SumInt(CountFor(key, keyOf), rest) == -5;
    assert Peak(key, keyOf, rest, 8, 0) == 8;
  }

  lemma {:induction false} PassedShape(recs: seq<Rec>, owed: map<string, int>, keyOf: Rec -> string)
    ensures forall p :: p in Passed(recs, owed, keyOf) ==>
              p.count > 0 && exists r :: r in recs && p == r.(count := p.count) && p.count <= r.count
  {
    if recs != [] {
      var next := LedgerStep(recs[0], owed, keyOf);
      PassedShape(recs[1..], next, keyOf);
      forall p | p in Passed(recs, owed, keyOf)
        ensures p.count > 0
        ensures exists r :: r in recs && p == r.(count := p.count) && p.count <= r.count
      {
        if p in Passed(recs[1..], next, keyOf) {
          var r :| r in recs[1..] && p == r.(count := p.count) && p.count <= r.count;
          assert r in recs;
        } else {
          assert recs[0] in recs;
        }
      }
    }
  }

  lemma {:induction false} PassedLowersTotal(recs: seq<Rec>, owed: map<string, int>, keyOf: Rec -> string)
    ensures SumInt(PositiveCount, Passed(recs, owed, keyOf)) <= SumInt(PositiveCount, recs)
  {
    if recs != [] {
      var next := LedgerStep(recs[0], owed, keyOf);
      PassedLowersTotal(recs[1..], next, keyOf);
      var rest := Passed(recs[1..], next, keyOf);
      var left := Remaining(recs[0].count, Tally(owed, keyOf(recs[0])));
      if left > 0 {
        assert ([recs[0].(count := left)] + rest)[1..] == rest;
      }
    }
  }

  /** Deduplication never raises what is bought, and returns rows of its input at no more
      than their counts. */
  lemma DeduplicatedOnlyShrinks(recs: seq<Rec>, existing: Option<seq<Commitment>>, cutoff: int, keyOf: Rec -> string)
    ensures var kept := Deduplicated(recs, existing, cutoff, keyOf);
            && SumInt(PositiveCount, kept) <= SumInt(PositiveCount, recs)
            && forall p :: p in kept ==> exists r :: r in recs && p == r.(count := p.count) && p.count <= r.count
  {
    var kept := Deduplicated(recs, existing, cutoff, keyOf);
    if existing.Some? {
      var owed := Booked(Filter(RecentSince(cutoff), existing.value));
      PassedLowersTotal(recs, owed, keyOf);
      PassedShape(recs, owed, keyOf);
    }
    if kept == recs {
      forall p | p in kept ensures exists r :: r in recs && p == r.(count := p.count) && p.count <= r.count {
        assert p == p.(count := p.count);
      }
    }
  }

  lemma {:induction false} BookedTotals(commitments: seq<Commitment>, key: string)
    ensures Tally(Booked(commitments), key) == SumInt(CommittedFor(key), commitments)
  {
    if commitments != [] {
      var n := |commitments| - 1;
      BookedTotals(commitments[..n], key);
      assert commitments == commitments[..n] + [commitments[n]];
      SumIntStep(CommittedFor(key), commitments[..n], commitments[n]);
    }
  }

  function CommittedFor(key: string): Commitment -> int
  {
    (c: Commitment) => if c.key == key then c.count else 0
  }

  // ---- From the listed commitments -------------------------------------------------------------

  /** Bought within the last `hours` and being paid for. */
  predicate StillCovers(c: Commitment, now: int, hours: int)
  {
    c.state in {"active", "payment-pending"} && now - c.startDate < hours
  }

  /** The instances that the listed commitments cover under `key`. */
  function CoveredBy(key: string, now: int, hours: int): Commitment -> int
  {
    (c: Commitment) => if c.key == key && StillCovers(c, now, hours) then c.count else 0
  }

  lemma {:induction false} OwedIsCovered(existing: seq<Commitment>, key: string, now: int, hours: int)
    ensures SumInt(CommittedFor(key), Filter(RecentSince(now - hours), existing))
         == SumInt(CoveredBy(key, now, hours), existing)
    ensures Filter(RecentSince(now - hours), existing) == [] <==>
              forall c :: c in existing ==> !StillCovers(c, now, hours)
  {
    if existing != [] {
      OwedIsCovered(existing[1..], key, now, hours);
      var c := existing[0];
      assert IsRecentActive(c, now - hours) <==> StillCovers(c, now, hours);
      var rest := Filter(RecentSince(now - hours), existing[1..]);
      assert StillCovers(c, now, hours) ==> Filter(RecentSince(now - hours), existing) == [c] + rest;
      assert ([c] + rest)[1..] == rest;
      assert existing == [c] + existing[1..];
    }
  }

  /** No count is negative, and the key does not look at counts. */
  ghost predicate CountsAreKnown(recs: seq<Rec>, existing: seq<Commitment>, keyOf: Rec -> string)
  {
    && KeyIgnoresCount(keyOf) && (forall r :: r in recs ==> r.count >= 0)
    && forall c :: c in existing ==> c.count >= 0
  }

  /** What passes under each key is the demand beyond what the listed commitments still cover. Where none
      of them covers anything, every row passes as it is. */
  ghost predicate PassesBeyondCover(recs: seq<Rec>, existing: seq<Commitment>, now: int, hours: int,
                                    keyOf: Rec -> string, passed: seq<Rec>)
  {
    && (forall key ::
          SumInt(CountFor(key, keyOf), passed)
            == Beyond(SumInt(CountFor(key, keyOf), recs), SumInt(CoveredBy(key, now, hours), existing)))
    && ((forall c :: c in existing ==> !StillCovers(c, now, hours)) ==> passed == recs)
  }

  lemma PassedBeyondCover(recs: seq<Rec>, existing: seq<Commitment>, now: int, hours: int, keyOf: Rec -> string)
    requires CountsAreKnown(recs, existing, keyOf)
    ensures PassesBeyondCover(recs, existing, now, hours, keyOf,
                              Deduplicated(recs, Some(existing), now - hours, keyOf))
  {
    hide StillCovers, Passed, Booked;
    OwedIsCovered(existing, "", now, hours);
    forall key
      ensures SumInt(CountFor(key, keyOf), Deduplicated(recs, Some(existing), now - hours, keyOf))
           == Beyond(SumInt(CountFor(key, keyOf), recs), SumInt(CoveredBy(key, now, hours), existing))
    {
      PassedUnderKey(recs, existing, now, hours, keyOf, key);
    }
  }

  lemma PassedUnderKey(recs: seq<Rec>, existing: seq<Commitment>, now: int, hours: int, keyOf: Rec -> string,
                       key: string)
    requires CountsAreKnown(recs, existing, keyOf)
    ensures SumInt(CountFor(key, keyOf), Deduplicated(recs, Some(existing), now - hours, keyOf))
         == Beyond(SumInt(CountFor(key, keyOf), recs), SumInt(CoveredBy(key, now, hours), existing))
  {
    var recent := Filter(RecentSince(now - hours), existing);
    OwedIsCovered(existing, key, now, hours);
    hide StillCovers, Passed, Booked;
    if recent == [] {
      DemandNonNegative(recs, keyOf, key);
      assert SumInt(CommittedFor(key), recent) == 0;
    } else {
      BookedNonNegative(recent);
      BookedTotals(recent, key);
      DedupIsSubtraction(recs, Booked(recent), keyOf, key);
    }
  }

  lemma {:induction false} DemandNonNegative(recs: seq<Rec>, keyOf: Rec -> string, key: string)
    requires forall r :: r in recs ==> r.count >= 0
    ensures SumInt(CountFor(key, keyOf), recs) >= 0
  {
    if recs != [] {
      assert recs[0] in recs;
      DemandNonNegative(recs[1..], keyOf, key);
    }
  }

  /** A commitment that covers nothing any more, or is not being paid for, changes nothing. */
  lemma OtherCommitmentsAreIgnored(recs: seq<Rec>, a: seq<Commitment>, c: Commitment, b: seq<Commitment>, now: int,
                                   hours: int, keyOf: Rec -> string)
    requires (c.state != "active" && c.state != "payment-pending") || c.startDate <= now - hours
    ensures Deduplicated(recs, Some(a + [c] + b), now - hours, keyOf)
         == Deduplicated(recs, Some(a + b), now - hours, keyOf)
  {
    var recent := RecentSince(now - hours);
    FilterAppend(recent, a + [c], b);
    FilterAppend(recent, a, [c]);
    FilterAppend(recent, a, b);
    assert Filter(recent, [c]) == Filter(recent, []) by {
      assert [c][1..] == [];
    }
    assert Filter(recent, a + [c] + b) == Filter(recent, a + b);
  }

  // ---- A second run ---------------------------------------------------------------------------

  /** What was passed, bought; a row without instances buys nothing. */
  function Purchases(passed: seq<Rec>, keyOf: Rec -> string, now: int): seq<Commitment>
  {
    if passed == [] then []
    else
      var rest := Purchases(passed[1..], keyOf, now);
      if passed[0].count > 0 then [Commitment(keyOf(passed[0]), passed[0].count, "active", now)] + rest else rest
  }

  /** The instances a row buys for `key`. */
  function BoughtFor(key: string, keyOf: Rec -> string): Rec -> int
  {
    (rec: Rec) => if keyOf(rec) == key && rec.count > 0 then rec.count else 0
  }

  lemma {:induction false} PurchasesTotals(passed: seq<Rec>, keyOf: Rec -> string, now: int, key: string)
    ensures SumInt(CommittedFor(key), Purchases(passed, keyOf, now)) == SumInt(BoughtFor(key, keyOf), passed)
  {
    if passed != [] {
      PurchasesTotals(passed[1..], keyOf, now, key);
      var first := Commitment(keyOf(passed[0]), passed[0].count, "active", now);
      assert ([first] + Purchases(passed[1..], keyOf, now))[1..] == Purchases(passed[1..], keyOf, now);
    }
  }

  lemma {:induction false} PurchasesAreRecent(passed: seq<Rec>, keyOf: Rec -> string, now: int, cutoff: int)
    requires cutoff < now
    ensures Filter(RecentSince(cutoff), Purchases(passed, keyOf, now)) == Purchases(passed, keyOf, now)
  {
    if passed != [] {
      PurchasesAreRecent(passed[1..], keyOf, now, cutoff);
    }
  }

  lemma {:induction false} PurchasesExpire(passed: seq<Rec>, keyOf: Rec -> string, now: int, cutoff: int)
    requires cutoff >= now
    ensures Filter(RecentSince(cutoff), Purchases(passed, keyOf, now)) == []
  {
    if passed != [] {
      PurchasesExpire(passed[1..], keyOf, now, cutoff);
    }
  }

  lemma {:induction false} PurchasesNonNegative(passed: seq<Rec>, keyOf: Rec -> string, now: int)
    ensures forall c :: c in Purchases(passed, keyOf, now) ==> c.count >= 0
  {
    if passed != [] {
      PurchasesNonNegative(passed[1..], keyOf, now);
    }
  }

  /** What was bought since `cutoff` under `key`. */
  function Owed(existing: seq<Commitment>, cutoff: int, key: string): int
  {
    Tally(Booked(Filter(RecentSince(cutoff), existing)), key)
  }

  /** The highest demand for `key` that any prefix of the rows reaches. */
  function Demand(key: string, keyOf: Rec -> string, recs: seq<Rec>): int
  {
    Peak(key, keyOf, recs, 0, 0)
  }

  function Min(a: int, b: int): int { if a < b then a else b }

  /** The commitments after a first run that looked back to `cutoff` and bought at `now`. */
  function AfterFirstRun(recs: seq<Rec>, existing: seq<Commitment>, cutoff: int, now: int, keyOf: Rec -> string)
    : seq<Commitment>
  {
    existing + Purchases(Deduplicated(recs, Some(existing), cutoff, keyOf), keyOf, now)
  }

  /** What a second run over the same rows passes when it looks back to `later`. */
  function Rerun(recs: seq<Rec>, existing: seq<Commitment>, cutoff: int, now: int, later: int, keyOf: Rec -> string)
    : seq<Rec>
  {
    Deduplicated(recs, Some(AfterFirstRun(recs, existing, cutoff, now, keyOf)), later, keyOf)
  }

  lemma BookedNonNegative(commitments: seq<Commitment>)
    requires forall c :: c in commitments ==> c.count >= 0
    ensures NonNegative(Booked(commitments))
    decreases |commitments|
  {
    if commitments != [] {
      BookedNonNegative(commitments[..|commitments| - 1]);
    }
  }

  lemma {:induction false} PeakOverFloor(key: string, keyOf: Rec -> string, recs: seq<Rec>, asked: int, low: int,
                                         floor: int)
    requires low <= floor
    ensures var peak := Peak(key, keyOf, recs, asked, low);
            Peak(key, keyOf, recs, asked, floor) == if peak > floor then peak else floor
  {
    if recs != [] {
      var next := asked + CountFor(key, keyOf)(recs[0]);
      PeakOverFloor(key, keyOf, recs[1..], next, if asked > low then asked else low,
                    if asked > floor then asked else floor);
      PeakBounds(key, keyOf, recs[1..], next, if asked > low then asked else low);
    }
  }

  /** No prefix asks for more than the rows that buy something add up to. */
  lemma {:induction false} PeakUnderPurchases(key: string, keyOf: Rec -> string, recs: seq<Rec>, asked: int, floor: int)
    ensures Peak(key, keyOf, recs, asked, floor)
         <= (if asked > floor then asked else floor) + SumInt(BoughtFor(key, keyOf), recs)
  {
    if recs != [] {
      var high := if asked > floor then asked else floor;
      PeakUnderPurchases(key, keyOf, recs[1..], asked + CountFor(key, keyOf)(recs[0]), high);
    }
  }

  lemma {:induction false} PositiveRowsBuyTheirCounts(recs: seq<Rec>, keyOf: Rec -> string, key: string)
    requires forall r :: r in recs ==> r.count > 0
    ensures SumInt(BoughtFor(key, keyOf), recs) == SumInt(CountFor(key, keyOf), recs)
  {
    if recs != [] {
      assert recs[0] in recs;
      PositiveRowsBuyTheirCounts(recs[1..], keyOf, key);
    }
  }

  lemma {:induction false} NarrowerWindow(existing: seq<Commitment>, cutoff: int, later: int)
    requires cutoff <= later && Filter(RecentSince(cutoff), existing) == []
    ensures Filter(RecentSince(later), existing) == []
  {
    if existing != [] {
      NarrowerWindow(existing[1..], cutoff, later);
    }
  }

  lemma RecentNonNegative(existing: seq<Commitment>, cutoff: int)
    requires forall c :: c in existing ==> c.count >= 0
    ensures NonNegative(Booked(Filter(RecentSince(cutoff), existing)))
  {
    BookedNonNegative(Filter(RecentSince(cutoff), existing));
  }

  lemma NothingOwed(existing: seq<Commitment>, cutoff: int, key: string)
    requires Filter(RecentSince(cutoff), existing) == []
    ensures Owed(existing, cutoff, key) == 0
  {
  }

  lemma OneOwed(c: Commitment, cutoff: int)
    requires IsRecentActive(c, cutoff)
    ensures Owed([c], cutoff, c.key) == c.count && Filter(RecentSince(cutoff), [c]) == [c]
  {
    assert [c][1..] == [] && [c][..0] == [];
    assert Filter(RecentSince(cutoff), [c]) == [c];
    assert Booked([c]) == map[][c.key := Tally(map[], c.key) + c.count];
  }

  lemma NoneRecent(c: Commitment, cutoff: int)
    requires !IsRecentActive(c, cutoff)
    ensures Filter(RecentSince(cutoff), [c]) == []
  {
    assert [c][1..] == [];
  }

  lemma OneDemand(rec: Rec, keyOf: Rec -> string)
    requires rec.count >= 0
    ensures Demand(keyOf(rec), keyOf, [rec]) == rec.count
  {
    var key := keyOf(rec);
    assert CountFor(key, keyOf)(rec) == rec.count;
    assert [rec][1..] == [];
    assert Peak(key, keyOf, [], rec.count, 0) == rec.count;
    assert Peak(key, keyOf, [rec], 0, 0) == Peak(key, keyOf, [], 0 + rec.count, 0);
  }

  /** What the first run buys for a key, at least its demand beyond what it is owed. */
  lemma FirstRunBuys(recs: seq<Rec>, existing: seq<Commitment>, cutoff: int, keyOf: Rec -> string, key: string)
    requires KeyIgnoresCount(keyOf) && forall c :: c in existing ==> c.count >= 0
    ensures var bought := SumInt(BoughtFor(key, keyOf), Deduplicated(recs, Some(existing), cutoff, keyOf));
            var need := Beyond(Demand(key, keyOf, recs), Owed(existing, cutoff, key));
            && bought >= need
            && (Filter(RecentSince(cutoff), existing) != [] ==> bought == need)
  {
    var recent := Filter(RecentSince(cutoff), existing);
    var owed := Booked(recent);
    if recent == [] {
      NothingOwed(existing, cutoff, key);
      PeakBounds(key, keyOf, recs, 0, 0);
      PeakUnderPurchases(key, keyOf, recs, 0, 0);
    } else {
      RecentNonNegative(existing, cutoff);
      PassedIsPeakBeyondOwed(recs, owed, keyOf, key);
      PassedShape(recs, owed, keyOf);
      PositiveRowsBuyTheirCounts(Passed(recs, owed, keyOf), keyOf, key);
      PeakOverFloor(key, keyOf, recs, 0, 0, Tally(owed, key));
    }
  }

  /** At the second run the purchases of the first count in full while they are recent, beside
      whatever of the earlier commitments still is. */
  lemma OwedAtSecondRun(recs: seq<Rec>, existing: seq<Commitment>, cutoff: int, now: int, later: int,
                        keyOf: Rec -> string, key: string)
    ensures var first := Deduplicated(recs, Some(existing), cutoff, keyOf);
            && Filter(RecentSince(later), AfterFirstRun(recs, existing, cutoff, now, keyOf))
                 == Filter(RecentSince(later), existing) + (if later < now then Purchases(first, keyOf, now) else [])
            && Owed(AfterFirstRun(recs, existing, cutoff, now, keyOf), later, key)
                 == Owed(existing, later, key) + if later < now then SumInt(BoughtFor(key, keyOf), first) else 0
  {
    hide Deduplicated;
    var first := Deduplicated(recs, Some(existing), cutoff, keyOf);
    var bought := Purchases(first, keyOf, now);
    var recent := Filter(RecentSince(later), existing);
    FilterAppend(RecentSince(later), existing, bought);
    if later < now {
      PurchasesAreRecent(first, keyOf, now, later);
      BookedTotals(recent, key);
      BookedTotals(recent + bought, key);
      SumIntAppend(CommittedFor(key), recent, bought);
      PurchasesTotals(first, keyOf, now, key);
    } else {
      PurchasesExpire(first, keyOf, now, later);
      assert recent + [] == recent;
    }
  }

  lemma AfterFirstRunNonNegative(recs: seq<Rec>, existing: seq<Commitment>, cutoff: int, now: int, keyOf: Rec -> string)
    requires forall c :: c in existing ==> c.count >= 0
    ensures forall c :: c in AfterFirstRun(recs, existing, cutoff, now, keyOf) ==> c.count >= 0
  {
    hide Deduplicated;
    PurchasesNonNegative(Deduplicated(recs, Some(existing), cutoff, keyOf), keyOf, now);
  }

  /** The part of the demand for a key that was met by the first run's end and is not met by the
      first run's own purchases later: all of it once those have left the window too. */
  function MetOtherwise(recs: seq<Rec>, existing: seq<Commitment>, cutoff: int, now: int, later: int,
                        keyOf: Rec -> string, key: string): int
  {
    if later < now then Min(Demand(key, keyOf, recs), Owed(existing, cutoff, key)) else Demand(key, keyOf, recs)
  }

  /** A second run that finds any recent commitment buys, for every key, exactly the part of the
      demand whose cover has left the window since: what was owed at the first run, and once its
      own purchases are no longer recent those too. */
  lemma RerunBuysWhatExpired(recs: seq<Rec>, existing: seq<Commitment>, cutoff: int, now: int, later: int,
                             keyOf: Rec -> string, key: string)
    requires KeyIgnoresCount(keyOf) && forall c :: c in existing ==> c.count >= 0
    requires cutoff <= later
    requires Filter(RecentSince(later), AfterFirstRun(recs, existing, cutoff, now, keyOf)) != []
    ensures SumInt(CountFor(key, keyOf), Rerun(recs, existing, cutoff, now, later, keyOf))
         == Beyond(MetOtherwise(recs, existing, cutoff, now, later, keyOf, key), Owed(existing, later, key))
  {
    var after := AfterFirstRun(recs, existing, cutoff, now, keyOf);
    var owed := Booked(Filter(RecentSince(later), after));
    hide AfterFirstRun;
    AfterFirstRunNonNegative(recs, existing, cutoff, now, keyOf);
    RecentNonNegative(after, later);
    RecentNonNegative(existing, cutoff);
    RecentNonNegative(existing, later);
    FirstRunBuys(recs, existing, cutoff, keyOf, key);
    OwedAtSecondRun(recs, existing, cutoff, now, later, keyOf, key);
    PassedIsPeakBeyondOwed(recs, owed, keyOf, key);
    PeakOverFloor(key, keyOf, recs, 0, 0, Tally(owed, key));
    PeakBounds(key, keyOf, recs, 0, 0);
    if Filter(RecentSince(cutoff), existing) == [] {
      NarrowerWindow(existing, cutoff, later);
    }
  }

  lemma PositiveTotalHasRow(recs: seq<Rec>, keyOf: Rec -> string, k: nat)
    requires k < |recs| && forall r :: r in recs ==> r.count > 0
    ensures SumInt(CountFor(keyOf(recs[k]), keyOf), recs) > 0
  {
    var key := keyOf(recs[k]);
    var f := CountFor(key, keyOf);
    assert recs == recs[..k] + ([recs[k]] + recs[k + 1..]);
    SumIntAppend(f, recs[..k], [recs[k]] + recs[k + 1..]);
    SumIntAppend(f, [recs[k]], recs[k + 1..]);
    assert [recs[k]][1..] == [];
    forall x | x in recs ensures f(x) >= 0 {
    }
    SumIntNonNegative(f, recs[..k]);
    SumIntNonNegative(f, recs[k + 1..]);
    assert recs[k] in recs;
  }

  lemma NothingFromNothing(existing: Option<seq<Commitment>>, cutoff: int, keyOf: Rec -> string)
    ensures Deduplicated([], existing, cutoff, keyOf) == []
  {
  }

  /** The exact condition: a second run over the same rows passes nothing if and only if there are
      no rows, or it finds some recent commitment and for every key what is still recent of the
      earlier commitments covers the part of the demand not met by recent purchases of the first. */
  lemma RerunPassesNothingIff(recs: seq<Rec>, existing: seq<Commitment>, cutoff: int, now: int, later: int,
                              keyOf: Rec -> string)
    requires KeyIgnoresCount(keyOf) && forall c :: c in existing ==> c.count >= 0
    requires cutoff <= later
    ensures Rerun(recs, existing, cutoff, now, later, keyOf) == [] <==>
              || recs == []
              || (&& Filter(RecentSince(later), AfterFirstRun(recs, existing, cutoff, now, keyOf)) != []
                  && forall key ::
                       MetOtherwise(recs, existing, cutoff, now, later, keyOf, key) <= Owed(existing, later, key))
  {
    hide MetOtherwise, Owed, AfterFirstRun, Passed;
    var again := Rerun(recs, existing, cutoff, now, later, keyOf);
    var recent := Filter(RecentSince(later), AfterFirstRun(recs, existing, cutoff, now, keyOf));
    NothingFromNothing(Some(AfterFirstRun(recs, existing, cutoff, now, keyOf)), later, keyOf);
    if recs != [] && recent != [] {
      PassedShape(recs, Booked(recent), keyOf);
      if again != [] {
        var key := keyOf(again[0]);
        PositiveTotalHasRow(again, keyOf, 0);
        RerunBuysWhatExpired(recs, existing, cutoff, now, later, keyOf, key);
      } else {
        forall key ensures MetOtherwise(recs, existing, cutoff, now, later, keyOf, key) <= Owed(existing, later, key) {
          RerunBuysWhatExpired(recs, existing, cutoff, now, later, keyOf, key);
        }
      }
    }
  }

  /** A second run that looks back as far as the first buys nothing, whatever the counts: it passes
      no row that asks for instances. */
  lemma RerunBuysNothing(recs: seq<Rec>, existing: seq<Commitment>, cutoff: int, now: int, keyOf: Rec -> string)
    requires KeyIgnoresCount(keyOf) && cutoff < now && forall c :: c in existing ==> c.count >= 0
    ensures forall r :: r in Rerun(recs, existing, cutoff, now, cutoff, keyOf) ==> r.count <= 0
  {
    var after := AfterFirstRun(recs, existing, cutoff, now, keyOf);
    if Filter(RecentSince(cutoff), after) != [] {
      hide Owed, Passed, Booked, Demand, AfterFirstRun;
      forall key ensures MetOtherwise(recs, existing, cutoff, now, cutoff, keyOf, key) <= Owed(existing, cutoff, key) {
      }
      hide MetOtherwise;
      RerunPassesNothingIff(recs, existing, cutoff, now, cutoff, keyOf);
    } else {
      hide Owed, Passed, Booked, Demand;
      OwedAtSecondRun(recs, existing, cutoff, now, cutoff, keyOf, "");
      NothingBoughtNothingAsked(recs, keyOf, now);
    }
  }

  lemma {:induction false} NothingBoughtNothingAsked(recs: seq<Rec>, keyOf: Rec -> string, now: int)
    requires Purchases(recs, keyOf, now) == []
    ensures forall r :: r in recs ==> r.count <= 0
  {
    if recs != [] {
      NothingBoughtNothingAsked(recs[1..], keyOf, now);
    }
  }

  /** Eight are asked and five were bought before: three are bought, and once the five have left the
      window, five more. */
  lemma ExpiredCoverIsBoughtAgain(row: Rec, keyOf: Rec -> string)
    requires KeyIgnoresCount(keyOf)
    ensures var recs, earlier := [row.(count := 8)], [Commitment(keyOf(row), 5, "active", 10)];
            && SumInt(BoughtFor(keyOf(row), keyOf), Deduplicated(recs, Some(earlier), 0, keyOf)) == 3
            && SumInt(CountFor(keyOf(row), keyOf), Rerun(recs, earlier, 0, 20, 10, keyOf)) == 5
  {
    var key, asked := keyOf(row), row.(count := 8);
    var recs, earlier := [asked], [Commitment(key, 5, "active", 10)];
    assert keyOf(asked) == key;
    OneOwed(earlier[0], 0);
    NoneRecent(earlier[0], 10);
    NothingOwed(earlier, 10, key);
    OneDemand(asked, keyOf);
    hide Owed, Demand, Deduplicated, AfterFirstRun;
    FirstRunBuys(recs, earlier, 0, keyOf, key);
    OwedAtSecondRun(recs, earlier, 0, 20, 10, keyOf, key);
    if Filter(RecentSince(10), AfterFirstRun(recs, earlier, 0, 20, keyOf)) == [] {
      NothingOwed(AfterFirstRun(recs, earlier, 0, 20, keyOf), 10, key);
      assert false;
    }
    RerunBuysWhatExpired(recs, earlier, 0, 20, 10, keyOf, key);
  }
}
