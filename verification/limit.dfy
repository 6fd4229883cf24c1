/** The run-wide `--max-instances` cap: a single pass that spends an instance budget in
    slice order, the `--min-count` floor re-applied to whatever the cap truncated, and
    the accounting of what was removed. */
module InstanceLimit {
  import opened Types
  import opened Sums
  import opened Drops

  function Max0(n: int): int { if n > 0 then n else 0 }

  /** What is kept of `recs` when `remaining` instances may still be bought. */
  function Limit(recs: seq<Rec>, remaining: int): seq<Rec>
  {
    if recs == [] || remaining <= 0 then []
    else
      var adjusted := if recs[0].count > remaining then Resized(recs[0], remaining) else recs[0];
      [adjusted] + Limit(recs[1..], remaining - Max0(adjusted.count))
  }

  lemma LimitFrom(recs: seq<Rec>, i: nat, remaining: int)
    requires i < |recs| && remaining > 0
    ensures var adjusted := if recs[i].count > remaining then Resized(recs[i], remaining) else recs[i];
            Limit(recs[i..], remaining) == [adjusted] + Limit(recs[i + 1..], remaining - Max0(adjusted.count))
  {
    hide Resized;
    assert recs[i..][0] == recs[i] && recs[i..][1..] == recs[i + 1..];
  }

  lemma AppendOne<T>(a: seq<T>, x: T, b: seq<T>)
    ensures a + ([x] + b) == a + [x] + b
  {
  }

  method ApplyInstanceLimit(recs: seq<Rec>, maxInstances: int) returns (result: seq<Rec>)
    ensures result == if maxInstances <= 0 then recs else Limit(recs, maxInstances)
  {
    if maxInstances <= 0 {
      return recs;
    }
    result := [];
    var remaining := maxInstances;
    var i := 0;
    assert recs[0..] == recs;
    while i < |recs|
      invariant 0 <= i <= |recs|
      invariant result + Limit(recs[i..], remaining) == Limit(recs, maxInstances)
    {
      var rec := recs[i];
      if remaining <= 0 {
        break;
      }
      var adjusted := rec;
      if rec.count > remaining {
        adjusted := Resized(rec, remaining);
      }
      LimitFrom(recs, i, remaining);
      AppendOne(result, adjusted, Limit(recs[i + 1..], remaining - Max0(adjusted.count)));
      result := result + [adjusted];
      if adjusted.count > 0 {
        remaining := remaining - adjusted.count;
      }
      i := i + 1;
    }
  }

  /** The cap keeps a prefix of its input, unchanged but for its last row, which it may
      shrink at unchanged unit prices and only when that spends the budget exactly. */
  ghost predicate TruncatedPrefix(recs: seq<Rec>, kept: seq<Rec>)
  {
    && |kept| <= |recs|
    && (forall i :: 0 <= i < |kept| - 1 ==> kept[i] == recs[i])
    && (kept != [] ==>
         var n := |kept| - 1;
         || kept[n] == recs[n]
         || (0 < kept[n].count < recs[n].count && kept[n] == Resized(recs[n], kept[n].count)))
  }

  lemma {:induction false} LimitKeepsAPrefix(recs: seq<Rec>, remaining: int)
    ensures TruncatedPrefix(recs, Limit(recs, remaining))
    ensures var kept := Limit(recs, remaining);
            kept != [] && kept[|kept| - 1] != recs[|kept| - 1] ==> SumInt(PositiveCount, kept) == remaining
  {
    if recs != [] && remaining > 0 {
      var adjusted := Limit(recs, remaining)[0];
      var rest := Limit(recs[1..], remaining - Max0(adjusted.count));
      LimitKeepsAPrefix(recs[1..], remaining - Max0(adjusted.count));
      assert Limit(recs, remaining) == [adjusted] + rest;
    }
  }

  /** The counts alone: no row grows, and a row that shrinks keeps at least one instance. */
  ghost predicate ShrunkPrefix(recs: seq<Rec>, kept: seq<Rec>)
  {
    && |kept| <= |recs|
    && (forall i :: 0 <= i < |kept| ==> kept[i].count == recs[i].count || 0 < kept[i].count < recs[i].count)
    && (forall i :: 0 <= i < |kept| - 1 ==> kept[i].count == recs[i].count)
  }

  lemma {:induction false} LimitShrinksAPrefix(recs: seq<Rec>, remaining: int)
    ensures ShrunkPrefix(recs, Limit(recs, remaining))
  {
    LimitKeepsAPrefix(recs, remaining);
  }

  /** The cap spends its whole budget when there is enough to buy, and never more. */
  lemma {:induction false} LimitSpendsTheBudget(recs: seq<Rec>, remaining: int)
    requires remaining >= 0
    ensures var total := SumInt(PositiveCount, recs);
            SumInt(PositiveCount, Limit(recs, remaining)) == if total <= remaining then total else remaining
  {
    if recs != [] {
      SumIntNonNegative(PositiveCount, recs[1..]);
      if remaining == 0 {
      } else {
        var adjusted := Limit(recs, remaining)[0];
        LimitSpendsTheBudget(recs[1..], remaining - Max0(adjusted.count));
        assert Limit(recs, remaining)[1..] == Limit(recs[1..], remaining - Max0(adjusted.count));
      }
    }
  }

  /** Whether the cap will remove instances: a test on the net total. */
  predicate CapBinds(recs: seq<Rec>, maxInstances: int)
  {
    maxInstances > 0 && SumInt(CountOf, recs) > maxInstances
  }

  /** `limited` without the rows at its tail that are below the floor. */
  function DropTail(limited: seq<Rec>, minCount: int): (kept: seq<Rec>)
    ensures kept <= limited
  {
    if minCount <= 0 || limited == [] || limited[|limited| - 1].count >= minCount then limited
    else DropTail(limited[..|limited| - 1], minCount)
  }

  function Reversed<T>(s: seq<T>): (r: seq<T>)
    ensures |r| == |s|
  {
    if s == [] then [] else Reversed(s[1..]) + [s[0]]
  }

  lemma ReversedStep<T>(s: seq<T>, k: nat)
    requires k < |s|
    ensures Reversed(s[k..]) == Reversed(s[k + 1..]) + [s[k]]
  {
    assert s[k..][1..] == s[k + 1..];
  }

  method DropTruncatedBelowMinCount(limited: seq<Rec>, minCount: int) returns (kept: seq<Rec>, removed: seq<Rec>)
    ensures kept == DropTail(limited, minCount)
    ensures removed == Reversed(limited[|kept|..]) && |removed| == |limited| - |kept|
  {
    kept, removed := limited, [];
    if minCount <= 0 {
      return;
    }
    while kept != [] && kept[|kept| - 1].count < minCount
      invariant |kept| <= |limited| && kept == limited[..|kept|]
      invariant DropTail(kept, minCount) == DropTail(limited, minCount)
      invariant removed == Reversed(limited[|kept|..])
    {
      var last := |kept| - 1;
      ReversedStep(limited, last);
      removed := removed + [kept[last]];
      kept := kept[..last];
    }
  }

  /** Every row clears the floor, when there is one. */
  predicate Floored(recs: seq<Rec>, minCount: int)
  {
    minCount > 0 ==> forall r :: r in recs ==> r.count >= minCount
  }

  /** On rows that cleared the floor the tail drop takes at most the row the cap cut. */
  lemma TailDropTakesAtMostOne(recs: seq<Rec>, remaining: int, minCount: int)
    requires Floored(recs, minCount)
    ensures var limited := Limit(recs, remaining);
            var kept := DropTail(limited, minCount);
            && |limited| - 1 <= |kept| <= |limited|
            && (|kept| < |limited| ==> 0 < limited[|kept|].count < minCount)
            && Floored(kept, minCount)
  {
    LimitShrinksAPrefix(recs, remaining);
    TailDropOnShrunk(recs, Limit(recs, remaining), minCount);
  }

  lemma TailDropOnShrunk(recs: seq<Rec>, limited: seq<Rec>, minCount: int)
    requires Floored(recs, minCount) && ShrunkPrefix(recs, limited)
    ensures var kept := DropTail(limited, minCount);
            && |limited| - 1 <= |kept| <= |limited|
            && (|kept| < |limited| ==> 0 < limited[|kept|].count < minCount)
            && Floored(kept, minCount)
  {
    if minCount > 0 {
      forall i | 0 <= i < |limited| ensures recs[i].count >= minCount {
        assert recs[i] in recs;
      }
      DropTailTakesLast(limited, minCount);
      var kept := DropTail(limited, minCount);
      forall i | 0 <= i < |kept| ensures kept[i].count >= minCount {
        assert kept[i] == limited[i];
      }
    }
  }

  lemma DropTailTakesLast(limited: seq<Rec>, minCount: int)
    requires forall i :: 0 <= i < |limited| - 1 ==> limited[i].count >= minCount
    ensures var kept := DropTail(limited, minCount);
            && |limited| - 1 <= |kept|
            && (minCount > 0 && kept != [] ==> kept[|kept| - 1].count >= minCount)
            && (|kept| < |limited| ==> limited[|kept|].count < minCount)
  {
    if limited != [] {
      var cut := limited[..|limited| - 1];
      assert DropTail(cut, minCount) == cut;
    }
  }

  /** What the cap and the re-applied floor leave of a ranked run. */
  function Cap(recs: seq<Rec>, maxInstances: int, minCount: int): seq<Rec>
  {
    if !CapBinds(recs, maxInstances) then recs else DropTail(Limit(recs, maxInstances), minCount)
  }

  /** How many of the rows of `before` from `i` on the report lists as dropped: those whose
      count fell to zero. A row that already stood at zero is passed over. */
  function DroppedFrom(before: seq<Rec>, after: seq<Rec>, i: nat): nat
    requires i <= |before|
    decreases |before| - i
  {
    if i == |before| then 0
    else
      var kept := if i < |after| then after[i].count else 0;
      (if kept != before[i].count && kept <= 0 then 1 else 0) + DroppedFrom(before, after, i + 1)
  }

  method ReportInstanceLimit(before: seq<Rec>, after: seq<Rec>, belowMinCount: int, drops: DropSummary?)
    modifies drops
    ensures drops != null ==>
              drops.counts == Bump(old(drops.counts), MAX_INSTANCES, DroppedFrom(before, after, 0) - belowMinCount)
  {
    var dropped := 0;
    var i := 0;
    while i < |before|
      invariant 0 <= i <= |before|
      invariant dropped + DroppedFrom(before, after, i) == DroppedFrom(before, after, 0)
    {
      var kept := if i < |after| then after[i].count else 0;
      if kept != before[i].count && kept <= 0 {
        dropped := dropped + 1;
      }
      i := i + 1;
    }
    Add(drops, MAX_INSTANCES, dropped - belowMinCount);
  }

  /** How many capped rows the re-applied floor removes. */
  function BelowFloor(recs: seq<Rec>, maxInstances: int, minCount: int): nat
  {
    var limited := Limit(recs, maxInstances);
    |limited| - |DropTail(limited, minCount)|
  }

  /** How many rows are tallied as dropped by the cap itself. */
  function ByCap(recs: seq<Rec>, maxInstances: int, minCount: int): int
  {
    DroppedFrom(recs, DropTail(Limit(recs, maxInstances), minCount), 0) - BelowFloor(recs, maxInstances, minCount)
  }

  /** The drop counters after the cap has run. */
  function CapDrops(counts: map<string, int>, recs: seq<Rec>, maxInstances: int, minCount: int): map<string, int>
  {
    if !CapBinds(recs, maxInstances) then counts
    else
      Bump(Bump(counts, MAX_INSTANCES, ByCap(recs, maxInstances, minCount)),
           MIN_COUNT_AFTER_CAP, BelowFloor(recs, maxInstances, minCount))
  }

  predicate BuysNothing(rec: Rec) { rec.count == 0 }

  lemma BoundCap(recs: seq<Rec>, maxInstances: int, minCount: int)
    ensures Cap(recs, maxInstances, minCount)
         == if CapBinds(recs, maxInstances) then DropTail(Limit(recs, maxInstances), minCount) else recs
    ensures BelowFloor(recs, maxInstances, minCount)
         == |Limit(recs, maxInstances)| - |DropTail(Limit(recs, maxInstances), minCount)|
    ensures ByCap(recs, maxInstances, minCount)
         == DroppedFrom(recs, DropTail(Limit(recs, maxInstances), minCount), 0)
          - BelowFloor(recs, maxInstances, minCount)
    ensures forall counts ::
              (CapDrops(counts, recs, maxInstances, minCount)
            == if !CapBinds(recs, maxInstances) then counts
               else Bump(Bump(counts, MAX_INSTANCES, ByCap(recs, maxInstances, minCount)),
                         MIN_COUNT_AFTER_CAP, BelowFloor(recs, maxInstances, minCount)))
  {
    hide Limit, DropTail, DroppedFrom;
  }

  /** What a binding cap counts under each of its reasons. */
  lemma CapDropsByReason(counts: map<string, int>, recs: seq<Rec>, maxInstances: int, minCount: int)
    requires Floored(recs, minCount) && CapBinds(recs, maxInstances)
    ensures var after := CapDrops(counts, recs, maxInstances, minCount);
            var cut, kept := Limit(recs, maxInstances), Cap(recs, maxInstances, minCount);
            && |kept| <= |cut| <= |recs|
            && Tally(after, MIN_COUNT_AFTER_CAP) == Tally(counts, MIN_COUNT_AFTER_CAP) + |cut| - |kept|
            && Tally(after, MAX_INSTANCES)
                 == Tally(counts, MAX_INSTANCES)
                    + |recs| - |cut| - |Filter(BuysNothing, recs[|kept|..])|
  {
    hide Limit, DropTail, DroppedFrom, Bump, Tally;
    var byCap, below := ByCap(recs, maxInstances, minCount), BelowFloor(recs, maxInstances, minCount);
    var kept := Cap(recs, maxInstances, minCount);
    assert MAX_INSTANCES != MIN_COUNT_AFTER_CAP by {
      assert |MAX_INSTANCES| == 15 && |MIN_COUNT_AFTER_CAP| == 21;
    }
    CapLedgerConserves(recs, maxInstances, minCount);
    LimitShrinksAPrefix(recs, maxInstances);
    SumOfOnes(ZeroCount, BuysNothing, recs[|kept|..]);
    var mid := Bump(counts, MAX_INSTANCES, byCap);
    TallyAfterBump(counts, MAX_INSTANCES, byCap, MAX_INSTANCES);
    TallyAfterBump(counts, MAX_INSTANCES, byCap, MIN_COUNT_AFTER_CAP);
    TallyAfterBump(mid, MIN_COUNT_AFTER_CAP, below, MAX_INSTANCES);
    TallyAfterBump(mid, MIN_COUNT_AFTER_CAP, below, MIN_COUNT_AFTER_CAP);
  }

  method ApplyGlobalInstanceLimit(passed: seq<Rec>, maxInstances: int, minCount: int, drops: DropSummary?)
    returns (limited: seq<Rec>)
    modifies drops
    ensures limited == Cap(passed, maxInstances, minCount)
    ensures maxInstances <= 0 || SumInt(CountOf, passed) <= maxInstances ==> limited == passed
    ensures drops != null ==> drops.counts == CapDrops(old(drops.counts), passed, maxInstances, minCount)
    // Of the rows that cleared the floor, those the cap leaves out and those the floor takes of what it cut.
    ensures drops != null && Floored(passed, minCount) && maxInstances > 0 && SumInt(CountOf, passed) > maxInstances ==>
              var cut := Limit(passed, maxInstances);
              && |limited| <= |cut| <= |passed|
              && Tally(drops.counts, MIN_COUNT_AFTER_CAP)
                   == Tally(old(drops.counts), MIN_COUNT_AFTER_CAP) + |cut| - |limited|
              && Tally(drops.counts, MAX_INSTANCES)
                   == Tally(old(drops.counts), MAX_INSTANCES)
                      + |passed| - |cut| - |Filter(BuysNothing, passed[|limited|..])|
  {
    hide Limit, DropTail, DroppedFrom, Resized, CapDrops, Cap, BelowFloor, ByCap, Floored;
    BoundCap(passed, maxInstances, minCount);
    if drops != null && Floored(passed, minCount) && CapBinds(passed, maxInstances) {
      CapDropsByReason(drops.counts, passed, maxInstances, minCount);
    }
    var total := CalculateTotalInstances(passed);
    if !(maxInstances > 0 && total > maxInstances) {
      return passed;
    }
    var capped := ApplyInstanceLimit(passed, maxInstances);
    var belowMin;
    limited, belowMin := DropTruncatedBelowMinCount(capped, minCount);
    assert |belowMin| == BelowFloor(passed, maxInstances, minCount);
    ReportInstanceLimit(passed, limited, |belowMin|, drops);
    Add(drops, MIN_COUNT_AFTER_CAP, |belowMin|);
  }

  method CalculateTotalInstances(recs: seq<Rec>) returns (total: int)
    ensures total == SumInt(CountOf, recs)
  {
    total := 0;
    for i := 0 to |recs|
      invariant total + SumInt(CountOf, recs[i..]) == SumInt(CountOf, recs)
    {
      total := total + recs[i].count;
      assert recs[i..][1..] == recs[i + 1..];
    }
  }

  function ZeroCount(rec: Rec): int { if rec.count == 0 then 1 else 0 }

  lemma {:induction false} TailIsDropped(before: seq<Rec>, after: seq<Rec>, i: nat)
    requires |after| <= i <= |before|
    ensures DroppedFrom(before, after, i) == |before| - i - SumInt(ZeroCount, before[i..])
    decreases |before| - i
  {
    if i < |before| {
      TailIsDropped(before, after, i + 1);
      assert before[i..][1..] == before[i + 1..];
    }
  }

  lemma {:induction false} PrefixIsNotDropped(before: seq<Rec>, after: seq<Rec>, i: nat)
    requires ShrunkPrefix(before, after) && i <= |after|
    ensures DroppedFrom(before, after, i) == DroppedFrom(before, after, |after|)
    decreases |after| - i
  {
    if i < |after| {
      PrefixIsNotDropped(before, after, i + 1);
    }
  }

  /** The drop ledger of a binding cap: neither tally is negative, the floor takes at most
      one row, and the two tallies account for every removed row but those whose count was
      already zero. So input rows equal output rows plus drops exactly when no zero-count
      row is removed, and always when a floor is set. */
  lemma CapLedgerConserves(recs: seq<Rec>, maxInstances: int, minCount: int)
    requires Floored(recs, minCount) && CapBinds(recs, maxInstances)
    ensures var kept := Cap(recs, maxInstances, minCount);
            var below, byCap := BelowFloor(recs, maxInstances, minCount), ByCap(recs, maxInstances, minCount);
            && |kept| <= |recs| && 0 <= below <= 1 && 0 <= byCap
            && var zeros := SumInt(ZeroCount, recs[|kept|..]);
            && |recs| == |kept| + byCap + below + zeros
            && (minCount > 0 ==> zeros == 0)
            && (|recs| == |kept| + byCap + below <==> forall r :: r in recs[|kept|..] ==> r.count != 0)
  {
    var limited := Limit(recs, maxInstances);
    var kept := DropTail(limited, minCount);
    LimitShrinksAPrefix(recs, maxInstances);
    TailDropTakesAtMostOne(recs, maxInstances, minCount);
    assert ShrunkPrefix(recs, kept);
    PrefixIsNotDropped(recs, kept, 0);
    TailIsDropped(recs, kept, |kept|);
    ZerosCounted(recs[|kept|..]);
    if |kept| < |limited| {
      assert recs[|kept|] in recs;
      assert recs[|kept|..][1..] == recs[|kept| + 1..];
      assert DroppedFrom(recs, kept, |kept|) >= 1;
    }
    if minCount > 0 {
      forall r | r in recs[|kept|..] ensures r.count != 0 {
        assert r in recs;
      }
    }
  }

  lemma {:induction false} ZerosCounted(recs: seq<Rec>)
    ensures SumInt(ZeroCount, recs) >= 0
    ensures SumInt(ZeroCount, recs) == 0 <==> forall r :: r in recs ==> r.count != 0
  {
    if recs != [] {
      ZerosCounted(recs[1..]);
      assert recs == [recs[0]] + recs[1..];
    }
  }

  lemma {:induction false} NetAtMostPositive(recs: seq<Rec>)
    ensures SumInt(CountOf, recs) <= SumInt(PositiveCount, recs)
    ensures (forall r :: r in recs ==> r.count >= 0) ==> SumInt(CountOf, recs) == SumInt(PositiveCount, recs)
  {
    if recs != [] {
      NetAtMostPositive(recs[1..]);
      assert recs == [recs[0]] + recs[1..];
    }
  }

  lemma DropTailLowersTotal(limited: seq<Rec>, minCount: int)
    ensures SumInt(PositiveCount, DropTail(limited, minCount)) <= SumInt(PositiveCount, limited)
  {
    var kept := DropTail(limited, minCount);
    assert limited == kept + limited[|kept|..];
    SumIntAppend(PositiveCount, kept, limited[|kept|..]);
    SumIntNonNegative(PositiveCount, limited[|kept|..]);
  }

  /** The spend guard, stated for every input: the instances that survive a set cap fit it
      exactly when the rows already fitted it or the net total, which is what the code
      tests, exceeds it. Rows with a negative count can hide a cap that ought to bind. */
  lemma CapHoldsIff(recs: seq<Rec>, maxInstances: int, minCount: int)
    requires maxInstances > 0
    ensures SumInt(PositiveCount, Cap(recs, maxInstances, minCount)) <= maxInstances
       <==> CapBinds(recs, maxInstances) || SumInt(PositiveCount, recs) <= maxInstances
  {
    if CapBinds(recs, maxInstances) {
      LimitSpendsTheBudget(recs, maxInstances);
      DropTailLowersTotal(Limit(recs, maxInstances), minCount);
    }
  }

  /** A row of -5 beside a row of 8 passes a cap of 5 untouched. */
  lemma NegativeCountHidesTheCap(row: Rec)
    ensures var recs := [row.(count := -5), row.(count := 8)];
            && Cap(recs, 5, 0) == recs
            && SumInt(PositiveCount, Cap(recs, 5, 0)) == 8
  {
    var recs := [row.(count := -5), row.(count := 8)];
    var rest := [row.(count := 8)];
    assert recs[1..] == rest && rest[1..] == [];
    assert SumInt(CountOf, rest) == 8 && SumInt(PositiveCount, rest) == 8;
  }

  /** Without negative counts the guard always holds, and with a floor every row meets it. */
  lemma CapGuardsSpend(recs: seq<Rec>, maxInstances: int, minCount: int)
    requires forall r :: r in recs ==> r.count >= 0
    requires Floored(recs, minCount)
    ensures var kept := Cap(recs, maxInstances, minCount);
            && (maxInstances > 0 ==> SumInt(PositiveCount, kept) <= maxInstances)
            && Floored(kept, minCount)
            && forall r :: r in kept ==> r.count >= 0
  {
    NetAtMostPositive(recs);
    if CapBinds(recs, maxInstances) {
      CapHoldsIff(recs, maxInstances, minCount);
      LimitShrinksAPrefix(recs, maxInstances);
      TailDropTakesAtMostOne(recs, maxInstances, minCount);
      var limited := Limit(recs, maxInstances);
      forall i | 0 <= i < |limited| ensures limited[i].count >= 0 {
        assert recs[i] in recs;
      }
    }
  }
}
