# Purchase sizing and spend guards, verified

CUDly buys cloud commitments (reserved instances, Savings Plans) from a list of recommendations.
This project models the part of its command line where money is decided, and the step-wise
protocols beside it, and proves what they promise. Counts are `int`, amounts are exact `real`s.

**The pipeline.** Recommendations are filtered once per region, sized by a coverage percentage or a
coverage target, overridden to a fixed count, reduced by what was bought recently, floored by
`--min-count`, ranked, cut by the run-wide `--max-instances` cap and bought. Both entry paths are
modelled to the purchase: the recommendation-driven one from the provider's offers
(`Fetch.RunToolMultiService`) and the `--input-csv` one (`CsvRun.RunToolFromCsv`). The main results:

- The ranked cap is an optimal knapsack: no allocation of the budget, not even a fractional one,
  saves more (`CsvRanking.RankedCapIsOptimal`, by a price at which the cap attains a bound that every
  allocation obeys).
- The order of the rows in the file decides no totals. It decides the rows themselves exactly when two
  different rows tie: on rate and key with the count floor off, and on rate, key, savings percentage
  and savings among the rows that clear the floor when it is on (`CsvOrder`).
- Deduplication against recent purchases, a loop over a ledger it consumes, is the height of a peak
  above a floor for every input, hence subtraction when no count is negative. A second run that finds any
  recent commitment buys exactly the part of the demand whose cover has left its window since, the first
  run's own purchases included, hence nothing in the same window (`Dedup`).
- Target sizing picks the largest safe purchase for a pool (`Sizing`). For an RDS family it does not: the
  family stays at or under the target and falls short of it by exactly what its rows lose in rounding,
  which can leave room for a whole instance. When it does not, and when the family lands on the target,
  is stated exactly; a family of one row always gets its largest safe purchase (`FamilyTarget`).
- Every chain of sizing stages keeps the price of one instance of each row that buys instances, for
  every input; Savings Plans rows, which are priced in dollars, are exempt. Ranking reservations before
  or after sizing gives the same sequence, and with Savings Plans among them exactly when no two kept rows
  trade places (`SizingChain`).
- Every offer of a recommendation-driven run is accounted for, across every stage, family sizing
  included: put up for purchase, filtered by the scorer, counted under exactly one of the ten reasons of
  the drop summary, or of a kind the run is known not to record (`Fetch.FetchConserves`, `Fetch.RunToolMultiService`).
- The spend cap and the count floor hold for what is finally bought on both paths, with the exact
  condition under which the cap can be missed (`InstanceLimit.CapHoldsIff`).

**The protocols.** The alias cache and the region sweep are transition systems over every schedule
of any number of goroutines. Their runs end, the sweep's when every listing does. The re-key migration
may crash after any row and its transactions may fail in any way; the service-principal saga, its back-off loop and the key writer are run against
every pattern of failures, including calls that report a failure and take effect all the same.

**The report.** The CSV writer and the loader that reads its output back are a printer and a parser,
down to the digits of the number cells.

Each source loop is a method proved against a function, and what the source promises is proved about
that function. The rules those functions apply to a single row, answer or cell are also stated without
them, in terms of the fields they read, and lifted to the whole lists the methods return
(`Sizing.RowByRow` pairs each row kept with the row it came from). `sums.dfy` and `sorting.dfy` hold the shared facts: sums do not depend on order, and a
stable sort has only one possible result. `dafny verify dfyconfig.toml` checks the project.

## Where the code and its comments disagree

The model follows the code.

- `cmd/helpers.go:206-238` describes target sizing as a ratio of the recommended count. The code at
  341-373 sizes from the average number of running instances.
- `cmd/multi_service_csv_cap.go:86-92` says the surviving rows do not depend on file order. Their
  totals do not; the rows do when two of them tie on rate and on Service|Region|ResourceType, as
  rows of two accounts can, unless a count floor has the scorer tell them apart first
  (`CsvOrder.FileOrderDecidesNoRowsIff`).
- `cmd/multi_service_csv.go:128-129` says a report round-trips losslessly. The engine is lost for
  services outside the six the loader knows, MemoryDB among them (`CsvReport.EngineSurvivesIff`,
  `CsvReport.MemoryDbLosesItsEngine`).
- `cmd/multi_service.go:256-264` calls `--max-instances` a hard cap. The test for it is on the net
  total, so a row with a negative count can hide it (`InstanceLimit.NegativeCountHidesTheCap`). The
  drop tally of `cmd/multi_service.go:345-350` passes over rows that already stood at zero
  (`InstanceLimit.CapLedgerConserves`).
- `cmd/configure_gcp.go:400-402` says no change means the member is already bound to the role. It may be
  bound under a condition only, and a conditional first binding is also where a new member goes
  (`KeyWriter.AddMemberToPolicyBinding`, `KeyWriter.ConditionalBindingIsUsed`).

## Model

| member | source | states |
|---|---|---|
| Types.ResizedKeepsUnitPrices | pkg/common/types.go:312-331 | a row resized with its money scaled by the count ratio keeps every price per instance and the offer itself |
| Types.ResizedTwice | pkg/common/types.go:312-331 | resizing twice is resizing once to the final count: ratios compose in every money field |
| Types.LexLessMeans | cmd/multi_service_csv_cap.go:102-112 | the tie-break order of keys is the byte-wise one: a proper prefix first, or the smaller character where they first differ |
| Drops.Add | pkg/common/drop_summary.go:40-48 | counts n more drops under the reason, nothing for n = 0, and is safe on an absent summary |
| StableSorting.StableSortIsUnique | cmd/multi_service_csv_cap.go:102-112 | whatever algorithm sorts and keeps ties in order returns exactly the reference result, so `sort.SliceStable` is determined |
| StableSorting.OrderIndependentIffNoTies | cmd/multi_service_csv_cap.go:102-112 | the stable sort gives one result for every input order if and only if rows tie only with equal rows |
| StableSorting.SortKeepsInnerOrder | cmd/multi_service_csv_cap.go:102-112 | a stable sort of rows that came sorted another way leaves each tie class in that other order |
| Scoring.Score | pkg/scorer/scorer.go:37-105 | the passed rows are, as a multiset, those that clear the thresholds, in descending savings percentage, then savings, then ascending key; the filtered ones come in input order, each with the first threshold it misses |
| Scoring.ScoredRow | pkg/scorer/scorer.go:73-93 | a row passes if and only if it was given and clears every threshold that is switched on, enabled services included |
| Scoring.FilteredIsTheRest | pkg/scorer/scorer.go:37-93 | passed and filtered rows together are as many as were given, and each filtered row misses the threshold named, in the terms of its own fields |
| InstanceLimit.ApplyInstanceLimit | cmd/helpers.go:514-546 | the loop over a falling budget keeps what the recursive cap keeps; a cap of zero or less keeps everything |
| InstanceLimit.LimitKeepsAPrefix | cmd/helpers.go:514-546 | the cap keeps a prefix, unchanged but for its last row, which shrinks at unchanged unit prices and only to spend the budget exactly |
| InstanceLimit.LimitSpendsTheBudget | cmd/helpers.go:514-546 | the instances kept are the lesser of the budget and the instances offered, for every input |
| InstanceLimit.CalculateTotalInstances | cmd/helpers.go:108-115 | the net total of the counts |
| InstanceLimit.CapHoldsIff | cmd/multi_service.go:252-287 | for every input, what survives a set cap fits it if and only if the net total exceeds the cap or the rows already fitted it |
| InstanceLimit.NegativeCountHidesTheCap | cmd/multi_service.go:252-254 | rows of -5 and 8 pass a cap of 5 untouched, buying 8 |
| InstanceLimit.CapGuardsSpend | cmd/multi_service.go:276-287 | without negative counts the kept instances fit a set cap, and the floor still holds for every row |
| InstanceLimit.DropTruncatedBelowMinCount | cmd/multi_service.go:313-323 | pops rows below the floor off the tail and returns them, last first, with what is left a prefix |
| InstanceLimit.TailDropTakesAtMostOne | cmd/multi_service.go:289-323 | on rows that cleared the floor the tail drop removes at most one row, the last, and every row left clears the floor |
| InstanceLimit.ReportInstanceLimit | cmd/multi_service.go:351-378 | adds to the cap's tally the rows whose count fell to zero, less those the floor accounts for |
| InstanceLimit.CapLedgerConserves | cmd/multi_service.go:276-287 | when the cap binds neither tally is negative, the floor takes at most one row, and rows in equal rows out plus drops if and only if no removed row already stood at zero, which a floor guarantees |
| InstanceLimit.ApplyGlobalInstanceLimit | cmd/multi_service.go:276-287 | rows whose counts add up to no more than the cap are returned as they are; otherwise the capped rows above the floor, the rows the cap leaves out and those the floor takes of what it cut each counted under their own reason, but for rows that already stood at zero |
| CsvRanking.SortBySavingsPerInstance | cmd/multi_service_csv_cap.go:102-112 | re-orders the caller's slice in place into the stable ranking: descending rate, then ascending key |
| CsvRanking.RequireRankingSignal | cmd/multi_service_csv_cap.go:136-163 | refuses if and only if there is a cap, the counts add up to more than it, and some row has no savings; it says how many have none |
| CsvRanking.ApplyMinCountFloor | cmd/multi_service_csv_cap.go:58-69 | returns the same slice when off, and otherwise a fresh one with exactly the rows whose count reaches the floor |
| CsvRanking.ScoreAndLimitCsvRecs | cmd/multi_service_csv_cap.go:41-48 | refusal, exactly when the floored rows exceed the cap and one lacks savings, or the capped ranking of the floored rows, all of them if they fit; and which of the two leaves the caller's slice re-ordered |
| CsvRanking.CapAttainsABound | cmd/multi_service_csv_cap.go:79-112 | on rows in descending rate there is a price at which the worth of the kept prefix equals the priced bound |
| CsvRanking.EveryPriceBounds | cmd/multi_service_csv_cap.go:79-112 | at any price, no allocation within the rows and the budget is worth more than the priced bound |
| CsvRanking.BindingCap | cmd/multi_service_csv_cap.go:114-163 | a binding cap with a ranking signal spends exactly its budget, keeps only rows that buy something, and saves exactly the bound at some price |
| CsvRanking.RankedCapIsOptimal | cmd/multi_service_csv_cap.go:79-112 | no whole or fractional allocation of the budget over the loaded rows saves more than the ranked cap keeps |
| CsvOrder.ScoredThenRanked | cmd/multi_service_csv_cap.go:41-48 | scorer then stable ranking sorts by rate, key, savings percentage and savings together |
| CsvOrder.FileOrderDecidesNoTotals | cmd/multi_service_csv_cap.go:41-48 | for every order of the file and every resolution of the scorer's ties, runs are refused alike and keep equal instances and equal savings, floor included |
| CsvOrder.FileOrderDecidesNoRowsIff | cmd/multi_service_csv_cap.go:41-112 | for every file order, scorer tie and cap the run hands on the same sequence or is refused alike, if and only if no two different rows tie: under the ranking with the floor off, under the combined order among the rows that clear it with a floor |
| CsvOrder.CapTieMeans | cmd/multi_service_csv_cap.go:102-112 | rows tie under the ranking exactly when rate and key agree, and under the combined order exactly when savings percentage and savings agree too |
| CsvOrder.ScoredAndRankedKeepsTies | cmd/multi_service_csv_cap.go:41-48 | a stable scorer followed by the ranking leaves rows that tie in both in the order they came |
| Sizing.ApplyCoverage | cmd/helpers.go:131-187 | a row is handed on if and only if its share of the count is an instance or more; it then buys the most whole instances within the share, at its prices; Savings Plans scale in dollars; every other row is one recorded drop; 100 percent keeps all, zero nothing |
| Sizing.CoverageBuysItsShare | cmd/helpers.go:131-187 | the instances reserved are at most the share of those offered, and short of it by at most one instance a row |
| Sizing.ApplyTargetCoverage | cmd/helpers.go:258-423 | a pool is handed on if and only if one instance more stays within the target, and buys the most that do; a pool at or above the target is a recorded drop as already met, one too close below it as sized to zero; Savings Plans of known utilization scale to the target in dollars, everything else is untouched; targets outside (0, 100] change nothing |
| Sizing.TargetCountIsLargestSafe | cmd/helpers.go:334-423 | a purchase keeps total coverage within the target if and only if it is at most the sized count |
| Sizing.TargetedRowIsSafe | cmd/helpers.go:334-423 | a sized row stays within the target unclamped, one instance more would not, utilization is full if and only if the purchase fits demand, and a row is dropped only when one instance is too many |
| Sizing.ResizingDropsTheRow | cmd/helpers.go:334-423 | sizing again with the projected coverage taken as existing drops the row |
| Sizing.TargetCountIsMonotone | cmd/helpers.go:341-373 | more demand or a higher target never buys less, more existing coverage never buys more |
| Sizing.ApplyCountOverride | cmd/helpers_count_override.go:40-77 | each reservation that buys something buys the new count at its prices, every other row is unchanged, and the three tallies count what they name |
| Sizing.CoverageLedger | cmd/helpers.go:131-187 | rows in equal rows out plus recorded drops if and only if the coverage is positive or there were no rows |
| Sizing.TargetLedger | cmd/helpers.go:258-327 | rows in equal rows out plus recorded drops for every target |
| SizingChain.ChainKeepsUnitPrices | cmd/helpers.go:167-182 | for every input, any sequence of coverage, target, override and cap stages returns a subsequence of the rows, each row that bought instances still buying them at its original price per instance |
| SizingChain.FamilyKeepsUnitPrices | providers/aws/recommendations/family_nu.go:249-352 | the rows of a family come out of family sizing as a subsequence at their original prices per instance |
| SizingChain.RankingCommutesWithStage | cmd/multi_service_csv_cap.go:95-101 | ranking the sized rows and sizing the ranked rows give the same sequence, ties included: for an override always, for coverage without Savings Plans, for a target if moreover every row has instances |
| SizingChain.RankingCommutesWithSizing | cmd/multi_service_csv_cap.go:95-101 | for reservations that buy instances, over any sequence of coverage, target and override stages, ranking first or last gives the same sequence |
| SizingChain.StageCommutesIff | cmd/multi_service_csv_cap.go:95-101 | for any rows, Savings Plans included: ranking and a coverage, target or override stage commute on every list drawn from them if and only if no two rows the stage keeps trade places |
| SizingChain.MixedCoverageCommutesIff | cmd/helpers.go:131-187 | for coverage the condition can be read off the rows beforehand: no Savings Plan, its savings scaled, passes a kept row whose rate stays |
| SizingChain.SavingsPlanChangesPlaces | cmd/helpers.go:150-182 | a Savings Plans row ranked ahead of a reservation falls behind it when both are covered by half, so the exclusion is needed |
| SizingChain.RankedRunStaysRanked | cmd/multi_service_csv_cap.go:95-101 | with caps in the sequence too, a ranked run is still ranked afterwards |
| SizingChain.OverrideThenCapIsOneRatio | cmd/helpers.go:526-543 | overriding and then capping a row equals one resize of the original row to the final count |
| Dedup.BuildExistingCommitmentsMap | cmd/helpers.go:652-665 | the commitments' counts added up per key |
| Dedup.AdjustSingleRecommendation | cmd/helpers.go:687-710 | what is left to buy of one row, and the ledger with what the row consumed taken out |
| Dedup.AdjustAgainstExisting | cmd/helpers.go:669-684 | rows passed and the ledger left behind, and no row lost between passed and filtered |
| Dedup.AdjustForExisting | cmd/helpers.go:604-649 | from the listed commitments: under each key the demand passes beyond the counts of those active or payment-pending that started within the lookback, 24 hours by default; if there are none, or the listing failed, every row passes |
| Dedup.OtherCommitmentsAreIgnored | cmd/helpers.go:632-649 | a commitment in any other state, or started at or before the cutoff, changes nothing wherever it is listed |
| Dedup.CheckDuplicates | cmd/multi_service_helpers.go:580-604 | the drop tally grows by exactly the rows removed |
| Dedup.PassedIsPeakBeyondOwed | cmd/helpers.go:669-710 | per key, for every order and negative counts too: what passes is the peak of the running demand above what was bought, and the ledger left is that peak less the whole demand |
| Dedup.DedupIsSubtractionIff | cmd/helpers.go:669-710 | deduplication is subtraction for a key if and only if no prefix of the rows asks for more than the whole demand and what was bought |
| Dedup.DedupIsSubtraction | cmd/helpers.go:669-710 | without negative counts the passed total is max(0, demand - recent) and the ledger left max(0, recent - demand) |
| Dedup.DedupIgnoresRowOrder | cmd/helpers.go:669-684 | without negative counts both are the same for every permutation of the rows |
| Dedup.NegativeCountBreaksSubtraction | cmd/helpers.go:687-710 | 8 then -5 passes 8 where subtraction gives 3 |
| Dedup.RerunBuysWhatExpired | cmd/helpers.go:604-710 | booking what passed and running again later passes, per key, exactly the part of the demand that is no longer covered: beyond what is still recent of the earlier purchases, all that those covered, and all of it once the first run's own purchases have left the window too; whatever the counts |
| Dedup.RerunPassesNothingIff | cmd/helpers.go:604-710 | the second run passes nothing if and only if there are no rows, or it finds a recent commitment and, under every key, what is still recent of the earlier purchases covers the demand that no recent purchase of the first run meets |
| Dedup.RerunBuysNothing | cmd/helpers.go:604-710 | looking back as far as the first run, the second passes no row that asks for instances |
| Dedup.ExpiredCoverIsBoughtAgain | cmd/helpers.go:632-649 | 8 asked and 5 bought earlier buys 3, and 5 again once the 5 have left the window |
| Dedup.DeduplicatedOnlyShrinks | cmd/helpers.go:604-684 | every row that passes is a given row at no more than its count, and the total never grows |
| Filters.AdjustForExcludedVersions | cmd/multi_service_engine_versions.go:421-491 | the count less the number of listed instances of the row's class, region and engine in extended support, never below zero, and nothing else changes |
| Filters.ExclusionIgnoresListingOrder | cmd/multi_service_engine_versions.go:421-491 | the adjustment is the same for every order in which the same instances are listed |
| Filters.ApplyFilters | cmd/multi_service_filters.go:16-80 | a row is kept if and only if its pool is not below the size floor, it is of the pass, its region and type are included and not excluded, its engine and account are accepted and it has more instances than are in extended support, which it loses; pool-size and extended-support drops are counted exactly |
| Filters.SweepRegions | cmd/multi_service_helpers.go:696-703 | the filters of the per-region passes over one set of rows, concatenated, with the drops of every pass recorded |
| Filters.SweepMultiplicity | cmd/multi_service_filters.go:16-80 | for any list of regions, each row the unsharded filter accepts appears once per pass that looks at it, and nothing else appears |
| Filters.SweepIsOneFilter | cmd/multi_service_helpers.go:677-705 | over a duplicate-free list and any rows, the sweep keeps each regional row as often as one unsharded filter of the rows whose region is listed does, and each Savings Plans row as often as that filter times the number of regions |
| Filters.SweptSavingsPlan | cmd/multi_service_filters.go:52-80 | a Savings Plans row survives once per region, so once if and only if one region is swept |
| Filters.PoolDropsInEveryPass | cmd/multi_service_filters.go:21-29 | a pool below the size floor is counted as dropped by every pass, whatever its region |
| Purchase.ExecutePurchasePipeline | cmd/multi_service.go:391-438 | results and audit records match a prefix of the rows one to one, a purchase succeeding if and only if it is a dry run or the provider reports success and no error, and the prefix is short only if a shutdown was requested at its end |
| Purchase.ProcessPurchaseLoop | cmd/multi_service.go:680-730 | a refused confirmation cancels every row; otherwise each row succeeds if and only if it is a dry run or the provider reports success and no error |
| Purchase.CalculateServiceStats | cmd/multi_service_stats.go:20-46 | distinct regions, instances, savings, successes and failures of one service |
| Purchase.BuildServiceStats | cmd/multi_service.go:442-457 | one entry per service present, over exactly its rows and the results at their positions, for a cut-short run too |
| Purchase.SeparateAndAggregateStats | cmd/multi_service_stats.go:101-139 | for every iteration order of the map each aggregate sums every counter of its services, found included, and takes the exact maximum of regions for Savings Plans |
| Purchase.AggregateIsUnique | cmd/multi_service_stats.go:101-139 | one map has one aggregate of each kind, so no two iteration orders differ |
| Purchase.StatisticsCountEveryResult | cmd/multi_service_stats.go:101-139 | successes plus failures over both aggregates equal the number of results |
| Pipeline.ApplySizing | cmd/helpers.go:488-493 | the sizing rule asked for, with exactly its recorded drops |
| Pipeline.ScoreAndLimit | cmd/multi_service.go:213-225 | the capped output of the scorer, whatever its ties, and the cap's share of the drop tallies |
| Pipeline.RunMain | cmd/multi_service.go:125-169 | the purchases attempted are a prefix of the capped rows that clear the configured savings, break-even and count thresholds, cut only by a shutdown or a refusal; they fit the cap and each clears the floor |
| Pipeline.FilterAndAdjust | cmd/multi_service.go:597-649 | filter, size, override, then the floored, ranked and capped rows; refused if and only if the floored rows exceed the cap and one lacks savings, and all handed on if they fit it |
| Pipeline.PreparedAsPromised | cmd/multi_service_csv.go:18-26 | without an override the filtered rows reach the cap as they are at the default coverage of 80, at the asked-for share at any other, and sized to the target if there is one |
| Pipeline.PreparedNonNegative | cmd/multi_service.go:597-649 | counts stay non-negative up to the cap; with extended support excluded they are so whatever the file holds |
| Pipeline.CsvCapGuards | cmd/multi_service.go:597-649 | the rows a CSV run hands on clear the floor and, when counts cannot be negative, fit the cap |
| FamilySizing.SizeRdsFamily | providers/aws/recommendations/family_nu.go:249-287 | one family: kept as it is when its units are unknown, dropped whole as at its target or without units, or each row given the most whole instances within its part of the missing units, at its prices, showing where the family lands |
| FamilySizing.ScaleFamilyRecs | providers/aws/recommendations/family_nu.go:294-352 | the rows left with whole instances, the units they add up to, and the number dropped |
| RdsTypes.TypeSplits | providers/aws/recommendations/family_nu.go:62-81 | a type is its family, a dot and its size, whatever they are, and the size alone decides the normalized units |
| FamilyTarget.FamilyStaysUnderTarget | providers/aws/recommendations/family_nu.go:155-287 | a rescaled family whose rows of listed sizes have no negative count lands at or under the target as a whole, short of its need by at most one instance of each row, and every row shows where |
| FamilyTarget.FamilyUnitsExact | providers/aws/recommendations/family_nu.go:273-352 | the units bought are the units needed less exactly what the rows lose when their scaled counts are rounded down |
| FamilyTarget.MoreFitsIff | providers/aws/recommendations/family_nu.go:273-352 | further units still fit under the target if and only if they are no more than the units lost in rounding |
| FamilyTarget.LargestSafeIff | providers/aws/recommendations/family_nu.go:273-352 | no row has room for one instance more if and only if one instance of each row is worth more units than rounding loses in all |
| FamilyTarget.LandsOnTargetIff | providers/aws/recommendations/family_nu.go:273-352 | the family lands on the target if and only if every row of a listed size scales to a whole count |
| FamilyTarget.OneRowFamilyIsLargestSafe | providers/aws/recommendations/family_nu.go:273-352 | a family of one row buys its largest safe count: exactly the counts up to it land at or under the target |
| FamilyTarget.RoundingCanBuyNothing | providers/aws/recommendations/family_nu.go:339-352 | two rows of one instance each, scaled by a half, are both dropped although one instance would land on the target |
| FamilyTarget.UnderEveryTargetIff | providers/aws/recommendations/family_nu.go:273-352 | a family with units lands at or under every target under every coverage if and only if no row of a listed size has a negative count, which `providers/aws/recommendations/parser_ri.go:114-140` refuses |
| FamilyTarget.NegativeCountOvershoots | providers/aws/recommendations/family_nu.go:273-287 | the failing half of that condition: rows of 10 and -5 of one size, which the provider's parser refuses, would land at twice the target |
| FamilySizing.FamilyConserves | providers/aws/recommendations/family_nu.go:249-287 | each row of a family is kept or counted under one of the three reasons |
| FamilySizing.PartitionByFamily | providers/aws/recommendations/family_nu.go:210-228 | the groups hold the family rows by key in order, and the rest are the other rows in order |
| FamilySizing.ApplyFamilySizing | providers/aws/recommendations/family_nu.go:183-201 | the sized rows family by family in whatever order the map yields them, the three drop counts, and on to pool sizing exactly the rows that are not reservations of a database type naming its family; a target out of range leaves all rows |
| FamilySizing.FamilyLedger | providers/aws/recommendations/family_nu.go:183-228 | rows in equal rows passed on plus rows sized plus the three drop counts, for every input |
| FamilySizing.FamilyOrderDecidesNoRows | providers/aws/recommendations/family_nu.go:193-199 | every iteration order of the families gives the same rows as a multiset and the same drop counts |
| Fetch.ApplyCoverageAndOverrides | cmd/multi_service_helpers.go:530-568 | pool-sized rows, then family-sized rows, overridden, and every drop of both under its own reason |
| Fetch.PassesMade | cmd/multi_service_helpers.go:259-280 | a pass is made for a service and region if and only if the service is asked for and the region is configured, or none is and it was discovered, or is the fixed one of account-level plans |
| Fetch.FetchAndFilterRegion | cmd/multi_service_helpers.go:611-670 | one pass, its early exits included: what filter, family and pool sizing and override leave, less what was bought in the last day if there is a client and a listing, and what it adds to every tally |
| Fetch.FetchAll | cmd/multi_service_helpers.go:677-705 | the rows of every pass in order, and a fresh drop summary whose tallies are the sums over the passes |
| Fetch.FetchConserves | cmd/multi_service_helpers.go:530-705 | over a whole fetch, offers equal rows kept plus drops recorded under the eight reasons of a pass plus the rows known to go unrecorded, and no stage touches the cap's tallies |
| Fetch.FetchedNonNegative | cmd/multi_service_helpers.go:611-705 | counts reach the cap non-negative when the offers are so or extended support is excluded |
| Fetch.CapConserves | cmd/multi_service.go:276-287 | the cap and its floor move the rows they remove into their two tallies, but for rows that already stood at zero, of which a floor leaves none |
| Fetch.RunToolMultiService | cmd/multi_service.go:87-169 | from the offers to the purchase: what is bought is a prefix of the capped rows, fits the cap when counts cannot be negative and clears the floor, and every offer is accounted for |
| CsvRun.GroupByServiceRegion | cmd/multi_service_helpers.go:175-185 | the groups partition the rows: each holds the rows of its service and region in order |
| CsvRun.BuyGroup | cmd/multi_service.go:515-562 | nothing is bought without a client; otherwise exactly the rows that reach the floor of what the group asks for beyond the purchases of the last day, each with the result its place gives it |
| CsvRun.BuyGroups | cmd/multi_service.go:513-573 | for every visiting order the same rows are bought with the results of their places in their groups, no more instances than handed over and every row above the floor; the statistics have an entry for every service handed over, hold the figures of its purchases, and count every result once |
| CsvRun.RunToolFromCsv | cmd/multi_service.go:472-589 | a run is refused, and buys nothing, if and only if the floored rows exceed the cap and one lacks savings; rows that fit the cap are all handed on; what is bought is fixed by the capped rows, each purchase has its result, the statistics count every result, the purchases fit the cap when counts cannot be negative, and each clears the floor |
| AliasCache.AccountAliasCache.GetAccountAlias | cmd/helpers.go:68-105 | a cached answer is returned unasked, a missing one is looked up and cached, failures included, and the empty ID is never looked up |
| AliasCache.LookedUpAtMostOnce | cmd/helpers.go:68-105 | over every interleaving of any number of calls: at most one lookup per account, none for the empty ID, all finished calls for an account agree, and they return the name that lookup gave, or the ID if it gave none |
| AliasCache.AnswersAreFinal | cmd/helpers.go:68-105 | the cache only grows and a finished call keeps its answer, however the run goes on |
| AliasCache.NeverStuck | cmd/helpers.go:68-105 | while a call is unfinished some call can move: the lock upgrade cannot deadlock |
| AliasCache.AtMostEightMovesEach | cmd/helpers.go:68-105 | over every schedule at most eight turns per call have any effect, and after that many every call has its answer |
| AliasCache.EveryRunCanFinish | cmd/helpers.go:68-105 | every run has a continuation in which every call is answered |
| AliasCache.AloneItIsTheMethod | cmd/helpers.go:68-105 | the interleaved steps of one undisturbed call do what the method does |
| RegionSweep.BoundedAndJoined | cmd/multi_service_engine_versions.go:103-129 | over every interleaving at most ten workers are in flight, and when the sweep returns all have finished, failed and panicked ones included |
| RegionSweep.RunKeepsInv | cmd/multi_service_engine_versions.go:132-157 | at every moment the list of each class is the multiset union of the pages merged so far |
| RegionSweep.SweepsAgree | cmd/multi_service_engine_versions.go:103-157 | two returned sweeps of the same answers hold the same classes with the same multisets of instances |
| RegionSweep.AdjustmentIgnoresInterleaving | cmd/multi_service_engine_versions.go:421-491 | the extended-support adjustment is the same for every interleaving of the sweep that fed it |
| RegionSweep.NeverStuck | cmd/multi_service_engine_versions.go:103-129 | until the sweep returns, the starting loop or some worker can move |
| RegionSweep.MovesAreBounded | cmd/multi_service_engine_versions.go:103-157 | when every listing ends, only a bounded number of turns of any schedule have any effect |
| RegionSweep.EveryRunCanReturn | cmd/multi_service_engine_versions.go:103-157 | and every run has a continuation in which the sweep returns |
| Rekey.RekeyOne | cmd/rekey/main.go:167-195 | one row's transaction under every fault: skipped if and only if it does not open under the zero key, re-keyed if and only if every step works; a committed row opens to its old text under the current key, and otherwise the row is untouched |
| Rekey.RekeyAccountCredentials | cmd/rekey/main.go:115-154 | the table and the counters after a whole scan in any order, and an untouched table when the rows cannot be read |
| Rekey.CrashSafe | cmd/rekey/main.go:115-195 | stopping after any number of rows, every readable row still yields its text under one of the keys, and any other row is untouched |
| Rekey.CountersAddUp | cmd/rekey/main.go:115-154 | after any number of rows scanned = re-keyed + skipped + errored, and errored is zero if and only if no row erred |
| Rekey.CleanRunRekeysAll | cmd/rekey/main.go:115-195 | a run without errors leaves no row under the zero key, and all rows under the current key if and only if each was under one of the two |
| Rekey.NextRunChangesNothing | cmd/rekey/main.go:115-195 | after a run without errors the next one re-keys nothing, errs on nothing and changes nothing |
| Rekey.ZeroRowsAreReported | cmd/rekey/main.go:50-89 | a row still under the zero key after a run was counted as an error |
| Rekey.IsEqual | cmd/rekey/main.go:199-208 | the comparison that never stops early is equality |
| Rekey.RunMigration | cmd/rekey/main.go:50-89 | refuses when both keys are the same, touches nothing when the rows cannot be read, and reports success only if no row is left under the zero key |
| Backoff.AssignRole | cmd/configure_azure_sp.go:297-345 | always returns, after the first attempt that ends the loop: successful if and only if that one was answered with the assignment, failed if and only if with another error, timed out if and only if the principal was still missing past the budget, and otherwise cancelled |
| Backoff.ClockAddsUp | cmd/configure_azure_sp.go:309-345 | the clock at an attempt is every call so far, the planned pauses between them and what those took longer |
| Backoff.DelayDoubles | cmd/configure_azure_sp.go:309-345 | each pause is twice the one before, or the cap if that is less |
| Backoff.AttemptsAreBounded | cmd/configure_azure_sp.go:297-345 | whatever the answers and however slow the clock, attempts stop once the planned pauses exceed the budget |
| Backoff.SomeAttemptIsLast | cmd/configure_azure_sp.go:297-345 | for every budget there is such an attempt |
| Backoff.DelaysRiseIff | cmd/configure_azure_sp.go:297-345 | the pauses never shrink if and only if the first is within the cap |
| Backoff.AtMostNineAttempts | cmd/configure_azure_sp.go:21-30 | the shipped 5 s, 30 s and 3 min allow at most nine attempts |
| Backoff.NineAttemptsHappen | cmd/configure_azure_sp.go:21-30 | and nine are made when answers are instant and the principal never appears |
| ServicePrincipal.Rollback | cmd/configure_azure_sp.go:136-144 | deletes the application with its secrets and principals, or names both identifiers for deletion by hand |
| ServicePrincipal.CreateAzureServicePrincipal | cmd/configure_azure_sp.go:123-170 | succeeds if and only if every step works and an attempt is answered with the assignment before the loop ends, and then application, secret, principal and assignment all exist; a failed run leaves the directory as it was if and only if it failed at once without effect or its rollback took effect and no assignment stuck |
| ServicePrincipal.UndoneIff | cmd/configure_azure_sp.go:130-144 | from any partly provisioned directory, the compensating delete restores the old one if and only if it took effect and no assignment was made |
| ServicePrincipal.CreateOnAtomicCloud | cmd/configure_azure_sp.go:123-170 | when failing calls have no effect, a failed run restores the directory unless the rollback failed too, and then the error names both identifiers |
| KeyWriter.WriteServiceAccountKey | cmd/configure_gcp.go:484-529 | over every failure pattern: an existing file is never touched and mints nothing; success leaves file and key; failure leaves no new file if it can be removed and no new key unless its deletion failed and the error names it |
| KeyWriter.AddMemberToPolicyBinding | cmd/configure_gcp.go:403-421 | exactly one grant is added: the role under the condition of its first binding, or under none if there is no binding; no change is reported exactly when that first binding already lists the member; so the member has the role without condition afterwards if and only if it had it before, or no binding of the role existed, or the first one is unconditional |
| KeyWriter.ConditionalBindingIsUsed | cmd/configure_gcp.go:403-421 | with a conditional first binding the member gets the role under that condition only |
| CsvNumbers.IntRoundTrip | cmd/multi_service_csv.go:166-177 | a printed integer scans back exactly, whatever text follows its digits |
| CsvNumbers.AmountRoundTrip | cmd/multi_service_csv.go:179-190 | a printed amount scans back as the amount it was rounded to |
| CsvNumbers.RoundedIsNear | cmd/multi_service_csv.go:274-274 | printing moves an amount by at most half a unit of its last decimal |
| CsvNumbers.RoundedTwice | cmd/multi_service_csv.go:274-274 | rounding a rounded amount changes nothing |
| CsvReport.ColumnIndex | cmd/multi_service_csv.go:61-67 | maps exactly the header's names, each to its last place |
| CsvReport.BuildColumnIndexMap | cmd/multi_service_csv.go:61-67 | the loop builds that map |
| CsvReport.BuildTotalRow | cmd/multi_service_csv.go:307-339 | one pass yields the row of all totals |
| CsvCells.TotalTells | cmd/multi_service_csv.go:302-339 | counts, units, upfront and monthly payments and savings add up over all rows; the monthly cell is blank if and only if no row knows its payment |
| CsvCells.RowTellsItsPurchase | cmd/multi_service_csv.go:248-287 | what the cells the loader does not read say: amounts to their last printed place, success and failure, and which values are shown blank or as n/a |
| CsvCells.UnitsColumn | cmd/multi_service_csv.go:370-387 | the units cell is filled exactly for database rows of a listed size that buy something |
| CsvCells.ReportTells | cmd/multi_service_csv.go:193-300 | the file is the header, one telling row for each result in report order, and the totals |
| CsvReport.WriteReport | cmd/multi_service_csv.go:193-300 | header, a row per result and the totals, in report order; nothing for no results |
| CsvReport.ReportIsOrdered | cmd/multi_service_csv.go:242-246 | largest upfront payment first, ties as they came |
| CsvReport.ParseRecords | cmd/multi_service_csv.go:70-99 | the rows of the records, skipping totals, or nothing if one cannot be read |
| CsvReport.LoadRecommendations | cmd/multi_service_csv.go:29-58 | the rows of a file, or nothing without a header |
| CsvReport.RecordMeans | cmd/multi_service_csv.go:101-190 | a record is readable if and only if it has the width and is a total or its number cells are blank or scan; the row it becomes, field by field, and the kind of details its engine and service give it |
| CsvReport.LoadsIffReadable | cmd/multi_service_csv.go:70-156 | loading succeeds if and only if each record has the header's width and is a total or holds readable numbers, and it never yields a total |
| CsvReport.RowLoads | cmd/multi_service_csv.go:101-156 | each written row parses to the reloaded form of its recommendation |
| CsvReport.ReportRoundTrips | cmd/multi_service_csv.go:60-300 | loading a written report yields, in report order, exactly the rows whose service is not TOTAL |
| CsvReport.ReloadedKeepsTheOffer | cmd/multi_service_csv.go:101-156 | service, region, type, account, account name, term, payment option and count survive exactly, savings to half a cent |
| CsvReport.EngineSurvivesIff | cmd/multi_service_csv.go:124-153 | the engine survives if and only if there was none or the service is one of six; the deployment if and only if there was none or the row is a database row with an engine |
| CsvReport.MemoryDbLosesItsEngine | cmd/multi_service_csv.go:124-153 | a MemoryDB row with an engine comes back without details |
| CsvReport.LoadAfterWriteIsIdempotent | cmd/multi_service_csv.go:60-300 | reporting loaded rows, with any outcomes, and loading them again gives the same rows in the same order |
| CsvReport.TotalRowAgreesWithTheRows | cmd/multi_service_csv.go:302-339 | the count of the TOTAL row is that of the loaded rows, and its savings differ by at most half a cent per row and half a cent |

## Left out

- The coverage map, its aggregation to families and the adjustment for expiring commitments: they set the existing coverage of a row or a family before sizing, which is an input here.
- Engine-name normalisation, family keys, version parsing and account-name matching: parameters of the model; every result holds whatever they decide. `Dedup` needs only that the key ignores the count.
- Filling in account names: in `Fetch` the offers come with them; on the CSV path it happens between cap and purchase and changes no field that grouping or deduplication reads.
- InstanceLimit.ReportInstanceLimit: the printed listing and the count of reduced rows are not part of the model, only the drop tally.
- Filters.SweepRegions: fetches the same rows for every region; it is the filter step alone. The whole pass, with its own offers, is `Fetch.FetchAll`.
- Pipeline.FilterAndAdjust: the printed progress is not part of the model, and neither is the failed query for engine data, which continues with no data.
- Rekey.RekeyAccountCredentials: one writer is assumed, because the update does not check the old blob.
- Encryption itself: opening succeeds only under the sealing key, as section 7.2 of NIST SP 800-38D has it.
- RegionSweep.BoundedAndJoined: one page is merged as one atomic step, as the mutex makes it; a panic while the mutex is held is not part of the model.
- KeyWriter.WriteServiceAccountKey: a failed removal of the reserved file is an input of the run; the file's permissions are not part of the model.
- CsvReport.LoadRecommendations: records are sequences of cells. Quoting, line ends inside cells and blank lines are the csv library's (section 2 of RFC 4180). Number cells with exponents, underscores, hexadecimal digits, infinities or NaN, blanks other than space and tab, and integers beyond 64 bits are not part of the model; the writer prints none of them.
- CsvReport.ParseRecords: reads the same number forms as `CsvReport.LoadRecommendations`.
- CsvReport.LoadsIffReadable: readable means readable in those number forms.
- CsvReport.WriteReport: timestamps are given as text, and the shortest form of an amount is a parameter.
- Scoring.ScoredRow: lower-casing of service names is that of ASCII letters.
- Floating-point rounding and 64-bit overflow of counts: results are over exact reals and unbounded integers.
- Recommendation fields no modelled stage reads (raw payload, usage history, provider, timestamp).
- Cloud calls, prompts, clocks, sleeps, signals and logs: replaced by arbitrary outcomes given as inputs.
- The web front end, federation templates, the server, Lambda, cleanup and MCP entry points, and flag validation: plumbing that would add easy members only.
