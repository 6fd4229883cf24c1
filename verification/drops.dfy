/** The per-reason drop counters of the end-of-run summary. */
module Drops {
  const MIN_POOL_SIZE := "--min-pool-size"
  const EXTENDED_SUPPORT := "--include-extended-support"
  const TARGET_ALREADY_MET := "target-already-met"
  const TARGET_SIZED_TO_ZERO := "target-sized-to-zero"
  const FAMILY_ALREADY_AT_TARGET := "family-nu-already-at-target"
  const FAMILY_NO_NU_SIGNAL := "family-nu-no-nu-signal"
  const FAMILY_SIZED_TO_ZERO := "family-nu-sized-to-zero"
  const DUPLICATE_DEDUP := "duplicate-dedup"
  const MAX_INSTANCES := "--max-instances"
  const MIN_COUNT_AFTER_CAP := "--min-count-after-cap"

  function Tally(counts: map<string, int>, reason: string): int
  {
    if reason in counts then counts[reason] else 0
  }

  /** The counters after `n` more drops for `reason`; adding nothing creates no entry. */
  function Bump(counts: map<string, int>, reason: string, n: int): map<string, int>
  {
    if n == 0 then counts else counts[reason := Tally(counts, reason) + n]
  }

  lemma TallyAfterBump(counts: map<string, int>, reason: string, n: int, other: string)
    ensures Tally(Bump(counts, reason, n), other) == Tally(counts, other) + if other == reason then n else 0
  {
  }

  class DropSummary {
    var counts: map<string, int>

    constructor ()
      ensures counts == map[]
    {
      counts := map[];
    }
  }

  /** Counting into an absent summary does nothing. */
  method Add(drops: DropSummary?, reason: string, n: int)
    modifies drops
    ensures drops != null ==> drops.counts == Bump(old(drops.counts), reason, n)
  {
    if drops == null || n == 0 {
      return;
    }
    drops.counts := drops.counts[reason := Tally(drops.counts, reason) + n];
  }
}
