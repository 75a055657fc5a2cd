# Verified model of the backtest ledgers, stops and statistics

A Dafny model of the parts of the trading repository in which a silent error would falsify a result: matching a
booked ledger against a simulated one, the cash books of the simulator, its stops, the close-validation algebra, the
rank and multiple-testing statistics, and four state machines that run over unbounded histories. The run-time checks
and comments of the source become theorems here.

`dafny verify dfyconfig.toml` verifies the whole project.

| file | what it models |
|---|---|
| `Matching.dfy` | the candidate graph, the stack search for components, the enumeration of maximum matchings |
| `LedgerBooking.dfy` | booked rows: dispositions, fills, positions |
| `LedgerComparison.dfy`, `SimulatedLedger.dfy` | pair reconciliation, report sections, the conservation checks; the simulated side |
| `LedgerEngine.dfy` | the simulator's books: entries, scale-ins, closes, funding, the whole run |
| `Stops.dfy`, `StopOwner.dfy` | the trailing ratchet and intrabar stop; who owns the stop, and what is armed |
| `CloseValidation.dfy` | validations: built, serialised, decoded, aggregated in any nesting |
| `BenjaminiHochberg.dfy`, `Ranks.dfy`, `Wilcoxon.dfy`, `Kruskal.dfy` | the statistics |
| `Hurst.dfy`, `ProfileSwitcher.dfy`, `Replay.dfy`, `CarryPair.dfy` | the small state machines |
| `Common.dfy`, `Sequences.dfy`, `Sorting.dfy` | shared values and facts |

Each module has the same shape: the operations as the source runs them (classes and loops where the source mutates
state, functions where it computes), an independent statement of what the result means, and the lemmas or `ensures`
clauses that connect the two.

## How to read the model

- Prices, cash, fees and statistics are exact reals. Binary rounding, `round()` and not-a-number values are not part of
  the model; a missing number is `None`.
- Event keys, position ids, coins, labels and profile names are tokens (`nat`), compared as the source compares its
  strings. In `CloseValidation.dfy` strings are the recognised words or `Plain`, ordered by their spelling.
- Times in the ledger comparison are seconds; receipt times in the recordings are integer milliseconds.
- Python's `sorted` and numpy's sort are modelled by a sort whose contract is sorted-and-a-permutation.
- In the engine a margin per trade of 0 stands for "unset". What close evaluators, entry gates, add sizing and intrabar
  stops decide for a bar is an input of that bar, with no assumption but positive prices and quantities; adds do not
  occur together with an execution spec, which the source's constructor keeps apart.
- What the engine's books do not record themselves is read off their events: what snaps to zero dropped
  (`LedgerEngine.Snapped`), what margin mode paid for adds to longs (`LedgerEngine.LongAdds`), whether adds and final
  closes were timely (`LedgerEngine.Timely`). `Audit` carries the same facts through the proofs of single steps.

## What is false, and exactly when

- A scale-in leaves cash at cost and equity right, up to its fee, exactly when the position has no locked margin. With
  locked margin an add to a long is lost to both, and an add to a short overstates the equity until the close
  (`LedgerEngine.AddBreaksMarginIdentity`).
- So the final cash of a timely run is initial cash plus net trade results plus funding if and only if margin mode
  added to no long, and otherwise short by all those adds cost (`LedgerEngine.RunCash`); every margin-mode
  configuration has such a run (`LedgerEngine.LongAddRun`).
- Ending a position allocates its entry fees exactly once if and only if, after adds, the allocated fees do not exceed
  the charged ones, and, without adds, the close took the whole position or no fee was charged
  (`LedgerEngine.EndAllocates`). The first always holds when no add followed a partial close
  (`LedgerEngine.TimelyAddsAllocateOnce`), and `LedgerEngine.LateAddOverAllocates` gives a run in which it fails.
- The runtime arming chain agrees with the static stop owner except exactly when a unified close has no stop for the
  label while an ATR stop is configured beside it (`StopOwner.RuntimeAgreesWithOwner`); admission excludes that
  (`StopOwner.AdmittedOwnerArms`).
- A validation decodes to itself exactly when it is refused, or has a mode and reports approximations only in
  approximate mode (`CloseValidation.ValidationRoundTrip`).
- The gap a lost connection leaves is free of accepted records strictly inside it exactly when the loss was stamped no
  earlier than the last receipt, or the next record repeats that receipt and the one before it had come by the stamp
  (`Replay.LossGapHoldsNone`); `Replay.DirtyLossExample` gives a history in which it is not.
- Bucket coverage never exceeds the expected number, whatever the samples, exactly on windows that are empty or whose
  ends are both multiples of the cadence (`Replay.CoverageIsShareIffAligned`; `Replay.UnalignedCoverage` is an
  instance).

## Model

| member | source | states |
|---|---|---|
| Matching.MaximumExists | backtest/ledger_compare.py:1753-1760 | every finite candidate graph has a maximum matching |
| Matching.MaximumRestricts | backtest/ledger_compare.py:1733-1766 | a maximum matching of the whole graph, restricted to a separated part, is a maximum matching of that part |
| Matching.UniqueIsForced | backtest/ledger_compare.py:1759-1760 | a part's unique maximum matching is contained in every maximum matching of the whole graph |
| Matching.UniqueIsPerfect | backtest/ledger_compare.py:1753-1766 | when a maximum matching is unique, it touches both ends of every candidate edge |
| Matching.ComponentUnique | backtest/ledger_compare.py:1739-1748 | the connected component of a start vertex is determined by the graph alone |
| Matching.ComponentReroots | backtest/ledger_compare.py:1736-1748 | every vertex of a component has that same component, so the start vertex does not matter |
| Matching.CombinationsSound | backtest/ledger_compare.py:1755-1757 | each enumerated combination has the asked size and only distinct elements of the list |
| Matching.CombinationsComplete | backtest/ledger_compare.py:1755-1757 | every subset of that size is enumerated |
| Matching.CombinationsUnique | backtest/ledger_compare.py:1755-1757 | no subset is enumerated twice, so counting alternatives counts matchings |
| Matching.DistinctEndsIsMatching | backtest/ledger_compare.py:1756-1757 | the endpoint-count test accepts exactly the matchings |
| Matching.MatchingsOfSize | backtest/ledger_compare.py:1755-1757 | the inner loop lists every matching of one size once and nothing else |
| Matching.MaximumMatchings | backtest/ledger_compare.py:1753-1760 | the descending search stops at the size of the maximum matchings and lists all of them, each once |
| Matching.BuildAdjacency | backtest/ledger_compare.py:1728-1731 | the two adjacency dictionaries hold exactly the candidate edges |
| Matching.ExploreComponent | backtest/ledger_compare.py:1736-1745 | the explicit-stack search returns exactly the connected component of its start |
| Matching.DecideComponent | backtest/ledger_compare.py:1748-1765 | a component is assigned its matching when exactly one maximum exists and it has at most 16 edges, otherwise reported with its vertices and edges |
| Matching.MatchPositions | backtest/ledger_compare.py:1728-1766 | the assigned pairs are exactly the edges of every small component's unique maximum matching; a position is reported ambiguous exactly when its component is undecided; reports are disjoint |
| Matching.AssignedInEveryMaximum | backtest/ledger_compare.py:1753-1766 | every assigned pair belongs to every maximum matching of the whole candidate graph |
| Matching.AssignedIsMatching | backtest/ledger_compare.py:1759-1760 | the assigned pairs together form a matching |
| Matching.BookedTrichotomy | backtest/ledger_compare.py:2311-2319 | a booked position is exactly one of assigned, ambiguous, or without any strong candidate |
| Matching.SimulatedCovered | backtest/ledger_compare.py:2320-2328 | a simulated position with a strong candidate is assigned or ambiguous, so unmatched ones have none |
| Matching.AssignedIsEquivariant | backtest/ledger_compare.py:1710-1766 | renumbering the positions renumbers the assignment: it does not depend on their order |
| LedgerBooking.BookKeeps | backtest/ledger_compare.py:620-655 | booking one row keeps every list and the disposition dictionary consistent with the per-row rule |
| LedgerBooking.FirstPass | backtest/ledger_compare.py:620-657 | the first loop books every row that needs no position and groups exactly the fills by position |
| LedgerBooking.MakePositions | backtest/ledger_compare.py:658-700 | each position has all its fills in order, its agreed side, and the status the rule gives |
| LedgerBooking.SettlePosition | backtest/ledger_compare.py:701-722 | a position's rows are booked outside, unresolved or left for matching as the per-row rule says |
| LedgerBooking.NormalizeBooked | backtest/ledger_compare.py:576-734 | for every export and interval each row's early disposition is the order-free rule `Provisional`, each row sits once in the list of its disposition, and positions partition the fills |
| LedgerComparison.CandidateEdges | backtest/ledger_compare.py:1711-1727 | the candidate edges are exactly the pairs whose first openings agree in side, time, price and quantity, in order |
| LedgerComparison.ReconcilePair | backtest/ledger_compare.py:1769-1779 | the k-th booked opening is compared with the k-th simulated opening and the k-th close with the k-th close, entries first; the surplus rows of both sides are the leftovers, in the same order |
| LedgerComparison.PairIsWhole | backtest/ledger_compare.py:1769-1779 | compared and leftover rows of a pair are its in-interval rows, each once |
| LedgerComparison.PairConserves | backtest/ledger_compare.py:2000-2011 | for any amount per row, a pair's compared and leftover rows add up to the position's in-interval total |
| LedgerComparison.PairVerdict | backtest/ledger_compare.py:2285-2295 | each row of an assigned position is matched or a leftover of that one pair |
| LedgerComparison.DisposePairs | backtest/ledger_compare.py:2285-2295 | the pair loop gives exactly those dispositions and changes no other row |
| LedgerComparison.DisposePositions | backtest/ledger_compare.py:2296-2319 | the ambiguous and unmatched loops dispose exactly the rows of their positions |
| LedgerComparison.SectionHolds | backtest/ledger_compare.py:2354-2364 | each report section lists exactly the rows the rules put there, once |
| LedgerComparison.SectionsPartition | backtest/ledger_compare.py:1968-1984 | the sections together list every booked row exactly once |
| LedgerComparison.SectionsConserve | backtest/ledger_compare.py:1985-1998 | for any amount per row (fees, ledger deltas), the sections add up to the total over all rows |
| LedgerComparison.CheckSections | backtest/ledger_compare.py:1968-1984 | the run-time partition check answers yes exactly when every row is listed once and agrees with its disposition |
| LedgerComparison.ReportAgrees | backtest/ledger_compare.py:1950-1953 | every booked row has exactly one disposition, and every section agrees with it |
| LedgerComparison.Assemble | backtest/ledger_compare.py:2273-2364 | the assembled dispositions and sections are the ones the rules give for every row |
| LedgerComparison.Compare | backtest/ledger_compare.py:2077-2366 | for every valid export, interval and simulation the report is true to the rules, its pairs are exactly the assigned candidate edges with their rows in order, its ambiguities the undecided components, and the partition check passes |
| SimulatedLedger.NormalizeSimulated | backtest/ledger_compare.py:1637-1675 | the trading events are grouped into positions in the order of their ids, each with all its events in order and its first side; exactly the other events are settled at once |
| SimulatedLedger.DecidedTogether | backtest/ledger_compare.py:1733-1766 | a component decides for all its vertices, so no simulated position is both assigned and ambiguous |
| SimulatedLedger.ReportedSides | backtest/ledger_compare.py:2298-2325 | the simulated positions the ambiguity reports name are exactly those of undecided components |
| SimulatedLedger.DisposeSimulated | backtest/ledger_compare.py:2285-2343 | the pair, ambiguity and remainder loops give every simulated event the disposition its position's place in the candidate graph calls for, and change no earlier one |
| SimulatedLedger.EachEventOnce | backtest/ledger_compare.py:2062-2064 | the simulated disposition dictionary holds exactly the events of the envelope, each with the one disposition the rules give |
| SimulatedLedger.DisposeEnvelope | backtest/ledger_compare.py:2272-2343 | for every envelope and every true comparison the loops end in that dictionary |
| LedgerEngine.FloorLotIsWhole | platforms/hyperliquid/adapter.py:80-86 | flooring gives a whole number of lots, at most the quantity plus the slack, and 0 for nonpositive input |
| LedgerEngine.StartInv | backtest/backtester.py:3003-3078 | a fresh run satisfies the invariant |
| LedgerEngine.AccrueKeeps | backtest/backtester.py:3448-3468 | funding moves cash and the funding total by minus position times mark times accrual and keeps every identity |
| LedgerEngine.EntryFillFacts | backtest/backtester.py:3570-3602 | an entry's size, value, fee, locked margin and cash fit together for both sides and all three sizings; spec entries are whole lots above the minimum |
| LedgerEngine.SpecEntryWithinBudget | backtest/backtester.py:3179-3208 | a lot-sized entry with its fee stays within the budget up to the lot slack |
| LedgerEngine.EnterKeeps | backtest/backtester.py:3578-3713 | opening a long or short keeps the invariant |
| LedgerEngine.AddKeeps | backtest/backtester.py:3137-3164 | an add keeps the invariant, cost basis grows by exactly what was paid, and stop geometry keeps its first-leg anchor |
| LedgerEngine.AddBreaksMarginIdentity | backtest/backtester.py:3143-3154 | an add costs the books its fee and nothing else exactly when no margin is locked; with locked margin the value of an add to a long is lost to cash at cost and to the equity, and that of an add to a short raises the equity only |
| LedgerEngine.CloseQuantityFacts | backtest/backtester.py:3223-3243 | a close takes at most the position and leaves whole lots; it is skipped only below a lot or the minimum notional |
| LedgerEngine.CloseShape | backtest/backtester.py:3244-3326 | after a close the open trade, quantity, cost, margin and notional still mirror each other, or everything is flat |
| LedgerEngine.CloseChain | backtest/backtester.py:3352-3366 | every event starts from the cash and quantity the previous one ended with |
| LedgerEngine.CloseMoney | backtest/backtester.py:3249-3282 | a close of any size, side and mode, added to or not, keeps cash plus inventory at cost equal to initial cash plus realised minus fees plus funding, less dropped residues and margin-mode adds to longs |
| LedgerEngine.CloseFees | backtest/backtester.py:3284-3301 | entry fees charged are allocated to trades, outstanding, or left over; net trade results are gross minus allocated entry fees minus exit fees |
| LedgerEngine.CloseKeeps | backtest/backtester.py:3210-3366 | every partial, full or lot-floored close keeps the whole invariant |
| LedgerEngine.EndAllocates | backtest/backtester.py:2017-2034 | for every quantity whose close ends the position: after adds the allocated total is the larger of charged and already allocated; without adds the residue's share stays unallocated; nothing is left over if and only if, after adds, the allocated fees do not exceed the charged ones, and without adds the whole position was taken or no fee charged |
| LedgerEngine.TimelyAddsAllocateOnce | backtest/backtester.py:2027-2031 | without an add after a partial close the allocated fees never exceed the charged ones |
| LedgerEngine.LateAddOverAllocates | backtest/backtester.py:3154-3164 | a concrete run with a late add whose trades carry 4.7 more entry fees than were charged |
| LedgerEngine.ExampleEntry | backtest/backtester.py:3595-3602 | the opening fill of that run is what entry sizing gives |
| LedgerEngine.DustBound | backtest/backtester.py:3306-3309 | the snap to zero drops at most 1e-12 of quantity at average cost, times one over the leverage where a margin position is leveraged below 1 |
| LedgerEngine.SnapsAreBounded | backtest/backtester.py:3306-3309 | over a whole log the snaps drop at most that for every ended position, and at most 1e-12 of quantity each |
| LedgerEngine.TimelyDropsNothing | backtest/backtester.py:3306-3309 | a log whose positions all end in closes of all they hold drops nothing |
| LedgerEngine.LongAddsCost | backtest/backtester.py:3141-3147 | what adds to longs cost is nonnegative, and 0 exactly when there are none |
| LedgerEngine.DroppedIsRecorded | backtest/backtester.py:3352-3366 | what a close drops and the margin it leaves can be read off the events, in both modes and on both sides, added to or not |
| LedgerEngine.SpecCloseExact | backtest/backtester.py:3224-3243 | with lots larger than the dust limit a close that ends a position takes all of it |
| LedgerEngine.CashIdentity | backtest/ledger_compare.py:2050-2056 | in every reachable state cash plus inventory at cost is initial cash plus realised minus fees plus funding, less what the log says the snaps dropped and what margin mode paid for adds to longs; the last is 0 exactly when margin mode added to no long |
| LedgerEngine.EquityPoint | backtest/backtester.py:3470-3475 | in every reachable state the equity point is initial cash plus realised minus fees plus funding plus the open result at the mark, less what snaps dropped and what margin mode paid for adds to longs, plus what the notional of an added-to margin short does not count; the last is 0 without adds |
| LedgerEngine.FeesChargedOnce | backtest/ledger_compare.py:2057-2061 | in every reachable state with a timely log, entry fees charged less entry fees allocated are the fee outstanding on the open position |
| LedgerEngine.QuantityConserved | backtest/ledger_compare.py:2065-2068 | in every reachable state quantities opened and added less quantities closed are the position, up to residues of at most 1e-12 for each ended position and none in a timely log |
| LedgerEngine.FlatCash | backtest/backtester.py:4393-4434 | when flat, cash is initial cash plus net trade results plus funding, less the recorded entry fees no trade took over, the recorded drops of snaps and the cost of margin-mode adds to longs; in a timely log it is right exactly when margin mode added to no long |
| LedgerEngine.BarKeeps | backtest/backtester.py:3448-3790 | one bar leads from every reachable state to a reachable state and appends its equity point; a bar that closes nothing in part keeps the log timely, and only an add order adds |
| LedgerEngine.RunCash | backtest/backtester.py:3369-4450 | every run in every mode ends flat, with final cash initial cash plus net trade results plus funding, less those three recorded amounts; for a timely log (no add after a partial close of its position, every position ended by a close of all it held) it is right to the cent if and only if margin mode added to no long; whole-close and lot-sized runs are timely |
| LedgerEngine.LongAddRun | backtest/backtester.py:3137-3164 | every margin-mode configuration has a run, a long entry and one add, whose final cash is short by all that the add cost |
| LedgerEngine.Engine.AccrueFunding | backtest/backtester.py:3448-3468 | the new books are those of the accrual and the invariant holds |
| LedgerEngine.Engine.OpenPosition | backtest/backtester.py:3569-3713 | books the sized entry, or nothing when the spec rejects it |
| LedgerEngine.Engine.ScaleIn | backtest/backtester.py:3116-3177 | books the add and keeps the books sound |
| LedgerEngine.Engine.BookClose | backtest/backtester.py:3210-3367 | books exactly the close of the floored quantity, or nothing when it is skipped; a full close always ends flat |
| LedgerEngine.Engine.Step | backtest/backtester.py:3448-3790 | the books become those of the bar: funding, equity point, pending close, entry or add, stop, resting take-profit |
| LedgerEngine.Engine.Run | backtest/backtester.py:3369-4450 | the books become those of the whole run, which ends flat; for every timely log final cash is short by the margin-mode adds to longs, and right exactly when there are none |
| Stops.ArmIsBracketed | backtest/backtester.py:4832-4860 | arming puts the trigger exactly at the trailing distance from the better of anchor and mark |
| Stops.StepFacts | backtest/backtester.py:4737-4774 | one debounced step only tightens the trigger, keeps it within the minimum move of the trailing distance, and replaces it by at least that move |
| Stops.FollowKeeps | backtest/backtester.py:4862-4878 | over any marks the high water is the running extreme, the trigger is monotone and the bracket holds |
| Stops.MovesCompound | backtest/backtester.py:4770-4773 | k replacements move the trigger by at least the k-th power of the minimum move |
| Stops.HighWaterCompounds | backtest/backtester.py:4737-4774 | k replacements need the high water to have moved by the k-th power since arming |
| Stops.IntrabarFillIs | backtest/backtester.py:4880-4895 | the bar is survived exactly when open and extreme stay clear of the trigger, and the fill is the worse of open and trigger |
| Stops.EndOfBarTightens | backtest/backtester.py:2987-3001 | the trail step and the regime move at the end of a bar never loosen the stop |
| Stops.StopIsSafe | backtest/backtester.py:3768-3789 | over a whole position the trigger is never looser than when armed, and the position survives a bar only if the bar stayed clear of it |
| StopOwner.TrailingIffOwned | backtest/backtester.py:4697-4706 | with verified inputs the trailing chain is on exactly for the three trailing owners |
| StopOwner.RuntimeAgreesWithOwner | backtest/backtester.py:661-690 | for every field combination the armed geometry is the resolved owner's, except exactly the unified fall-through |
| StopOwner.RuntimeArmsOwnedFraction | backtest/backtester.py:4697-4740 | outside that fall-through the armed distance is the owner's own field: its percentage, its capped ATR multiple or the label's, margin over leverage, or the capped drawdown |
| StopOwner.AdmittedOwnerArms | backtest/backtester.py:4832-4860 | every admitted configuration arms its owner's geometry at the owner's own distance, from the anchor or, trailing, from the better of mark and high water, with a positive trigger exactly when the owner stands for a stop |
| StopOwner.NoFallThrough | backtest/backtester.py:792-826 | no admitted configuration, live or direct, has the fall-through |
| StopOwner.OnlyTrailingOwnersMove | backtest/backtester.py:4862-4878 | a trail step leaves every other owner's stop where it was armed |
| StopOwner.FallThroughExample | backtest/backtester.py:4708-4714 | outside admission a zero per-label stop arms the scalar ATR stop instead |
| CloseValidation.SortedIsOrdered | backtest/backtester.py:460-467 | the serialised required inputs are in order |
| CloseValidation.OrderedSorts | backtest/backtester.py:1249-1252 | a list in order passes the decoder's sortedness test |
| CloseValidation.FindingIsValid | backtest/backtester.py:1240-1254 | every serialised finding with a registered code passes the record check |
| CloseValidation.ValidationRoundTrip | backtest/backtester.py:1257-1303 | decoding a serialised validation gives it back exactly when its mode is coherent, and rejects it otherwise |
| CloseValidation.DedupeRecords | backtest/backtester.py:1362-1369 | the loop keeps the first of equal records |
| CloseValidation.AggregateCloseValidations | backtest/backtester.py:1372-1410 | the loop writes the object of the children's tally |
| CloseValidation.AggregateRoundTrip | backtest/backtester.py:1313-1341 | every aggregate, of any children, decodes to its own contents |
| CloseValidation.DedupeLeft | backtest/backtester.py:1362-1369 | removing duplicates inside an earlier part first changes nothing |
| CloseValidation.DedupeRight | backtest/backtester.py:1362-1369 | nor inside a later part |
| CloseValidation.AggregateContributes | backtest/backtester.py:1378-1396 | a nonempty aggregate contributes to its parent what its own children contributed, an empty one counts as unknown |
| CloseValidation.AggregationFlattens | backtest/backtester.py:1372-1410 | aggregating a tree without empty parts says what aggregating its leaves says: modes, approximations, refusals, unknown count, status and completeness |
| CloseValidation.CompleteIffAllSound | backtest/backtester.py:1343-1359 | an aggregate is complete exactly when every leaf at every depth decodes without a refusal and no aggregate at any depth is empty |
| CloseValidation.RunChecks | backtest/backtester.py:1119-1141 | findings are sorted by kind in order, and a fault is raised exactly for an undeclared finding |
| CloseValidation.ValidateCloseCapabilities | backtest/backtester.py:1063-1156 | checks run only without earlier refusals; the validation is accepted exactly when it has no refusal |
| CloseValidation.CheckRefs | backtest/backtester.py:504-605 | each of the five per-reference checks reports, in order, exactly what it finds of every close reference |
| CloseValidation.RefFindingsAre | backtest/backtester.py:504-605 | those findings carry codes the check declares, registered for their kind, with approximations only in approximate mode |
| CloseValidation.RegisteredAreHonest | backtest/backtester.py:911-932 | the same holds of all eight registered checks |
| CloseValidation.EmittedDecodes | backtest/backtester.py:1142-1156 | a validation whose checks are declared and honour the mode serialises to what decodes to itself |
| CloseValidation.EveryValidationDecodes | backtest/backtester.py:1063-1156 | with the registered checks no call faults, and every validation's serialised form decodes to itself, for every mode argument, context, list of closes and stop context |
| BenjaminiHochberg.CorrectIsStepUp | backtest/regime_stats.py:43-59 | the correction answers unless the family is too small, and rejects exactly the p-values within R times alpha over the family, R being the number rejected, ties or not |
| BenjaminiHochberg.RejectionsAreTheLargestRank | backtest/regime_stats.py:54-58 | the number of rejections is the largest k whose sorted p-value is within its threshold |
| BenjaminiHochberg.GrowsWithAlpha | backtest/regime_stats.py:43-59 | raising alpha keeps every rejection |
| BenjaminiHochberg.ShrinksWithFamily | backtest/regime_stats.py:48-52 | enlarging the family adds none |
| BenjaminiHochberg.LosesNothing | backtest/regime_stats.py:43-59 | lowering p-values keeps every rejection |
| BenjaminiHochberg.ContainsBonferroni | backtest/auto_suggest.py:673-695 | Bonferroni's rejections are among them |
| BenjaminiHochberg.OrderDoesNotMatter | backtest/regime_stats.py:53-59 | the answer for a p-value does not depend on the order of the list |
| Ranks.RanksTieAveraged | backtest/exit_policy_ab.py:148-162 | the in-place loop gives each position the number of smaller values plus the middle of the equal ones, and the sizes of the runs of ties |
| Ranks.RunCounts | backtest/regime_stats.py:5-18 | in sorted order a run starts after exactly the smaller values and is as long as its ties |
| Ranks.RankTotals | backtest/exit_policy_ab.py:169-174 | ranks sum to n(n+1)/2, and their squares to n(n+1)(2n+1)/6 less a twelfth of the tie term |
| Wilcoxon.WilcoxonSignedRank | backtest/exit_policy_ab.py:165-182 | whenever a pair is left the variance is a quarter of the sum of squared ranks and positive, so its zero guard is never taken |
| Wilcoxon.VarianceIsRankVariance | backtest/exit_policy_ab.py:173-174 | the tie-corrected variance equals a quarter of the sum of squared ranks |
| Wilcoxon.RankVarianceIsPositive | backtest/exit_policy_ab.py:175-176 | that is positive for any nonempty sample |
| Wilcoxon.NegationMirrors | backtest/exit_policy_ab.py:166-179 | negating every delta negates the numerator, keeps the variance, and the two rank sums add up to n(n+1)/2 |
| Wilcoxon.CorrectionKeepsSign | backtest/exit_policy_ab.py:177-179 | the continuity correction never changes the sign of the score |
| Kruskal.KruskalH | backtest/regime_stats.py:21-40 | the statistic is n - 1 times the between-group share of the spread of the ranks, between 0 and n - 1, and 0 when all values are equal |
| Kruskal.RawIsBetween | backtest/regime_stats.py:32-36 | the raw statistic is 12/(n(n+1)) times the weighted squared deviations of the groups' mean ranks |
| Kruskal.BetweenWithinTotal | backtest/regime_stats.py:32-40 | the spread between groups is nonnegative and at most the total spread |
| Kruskal.CorrectionIsShare | backtest/regime_stats.py:37-40 | the tie correction is the share of the full spread the ranks keep, in [0, 1] |
| Kruskal.NoSpreadIffEqual | backtest/regime_stats.py:39-40 | that share is 0 exactly when all values are equal |
| Kruskal.RankIsStrict | backtest/regime_stats.py:5-18 | ranking keeps the order of the values |
| Hurst.AdvanceIsStateless | backtest/hurst_gate.py:108-138 | under a validated configuration the remembered state is: armed exactly when the last decisive reading was in the arm band |
| Hurst.FlapBound | backtest/hurst_gate.py:124-138 | the flips after the first times the arm/disarm gap never exceed the total variation of the readings |
| Hurst.HurstGate.Advance | backtest/hurst_gate.py:124-138 | the new state is that of the history with the finite reading appended |
| Hurst.HurstGate.Step | backtest/hurst_gate.py:147-169 | a gate blocks exactly when the last decisive reading left it disarmed, or when it knows nothing, fails closed and is flat |
| Hurst.HurstGate.Run | backtest/hurst_gate.py:124-169 | over a whole stream the state is the stateless one and the flap bound holds |
| ProfileSwitcher.SwitchesCost | backtest/backtester.py:1595-1613 | switches times the confirmation length, plus the current count, is at most the number of mapped bars |
| ProfileSwitcher.Switcher.Step | backtest/backtester.py:1595-1613 | the fields are functions of the mapped history; the profile changes only on a flat bar closing a long enough run, and always then |
| ProfileSwitcher.Switcher.Run | backtest/backtester.py:1586-1613 | the active profile is the one named by the last confirming bar, and every switch used its own run of bars |
| Replay.LatestIsLastPerBucket | backtest/observation_replay.py:175-186 | the samples are exactly the accepted records no later record of their bucket replaces, with strictly increasing buckets |
| Replay.CoinState.Accept | backtest/observation_replay.py:162-186 | a record is refused for exactly the reason its predecessors give, or taken and the state replays the longer history |
| Replay.CoinState.Disconnect | backtest/observation_replay.py:132-136 | a disconnect opens a gap from the earlier of its stamp and the last receipt exactly when a record was accepted and none is open, and the state replays the longer history |
| Replay.CoinState.Overflow | backtest/observation_replay.py:140-145 | a recorder overflow appends its closed gap, and the state replays the longer history |
| Replay.GapsSnoc | backtest/observation_replay.py:132-173 | the gaps read off the history event by event change with one more event as the loop changes them: a record closes the open gap, a loss after a record opens one, an overflow leaves a closed one |
| Replay.OpenIffUnanswered | backtest/observation_replay.py:66-71 | at most one gap is open, and one is exactly when the connection was lost after the last accepted record |
| Replay.LossGapHoldsNone | backtest/observation_replay.py:132-136 | a gap runs forward and holds no accepted record strictly inside if and only if its loss was stamped no earlier than the last receipt, or the next record repeats that receipt and the one before had come by the stamp |
| Replay.DirtyLossExample | backtest/observation_replay.py:132-136 | a loss stamped between two earlier records leaves a gap with a record inside |
| Replay.LoadedCoin | backtest/observation_replay.py:60-71 | what holds of every loaded coin: samples, and exactly the gaps its history leaves, with the facts above of each |
| Replay.LoadRecording | backtest/observation_replay.py:122-190 | the first record that cannot follow the others stops the load with its error; otherwise every coin has the samples and the gaps its records leave, and the counters agree: samples plus refreshes are the accepted records |
| Replay.CoverageAtMostOne | backtest/observation_replay.py:255-271 | on a window aligned with the cadence at most the expected buckets are present |
| Replay.AllCanBePresent | backtest/observation_replay.py:255-271 | one receipt in every interval a window meets makes all of them present |
| Replay.CoverageIsShareIffAligned | backtest/observation_replay.py:255-271 | whatever the samples, no more buckets are present than expected, if and only if the window is empty or both its ends are multiples of the cadence |
| Replay.UnalignedCoverage | backtest/observation_replay.py:255-271 | an instance: two buckets present in a window that expects none |
| CarryPair.RebalanceKeepsPnl | backtest/backtest_carry_pair.py:356-374 | a rebalance makes the notionals equal, leaves the marked price PnL at the fill unchanged, and books exactly the cash traded |
| CarryPair.HeldAt | backtest/backtest_carry_pair.py:326-374 | an episode's legs, fees and rebalances are its entry at the base notional and a rebalance at the open of every later kept bar at which it had drifted; the perpetual never changes and the spot books are the cash traded |
| CarryPair.CarryEpisode.MarkBar | backtest/backtest_carry_pair.py:256-281 | a bar offers its funding once after the entry bar and liquidates exactly when the loss reaches the threshold, capping it at the margin |
| CarryPair.CarryEpisode.ClosePair | backtest/backtest_carry_pair.py:343-354 | closing settles the episode at the marked price PnL and charges both exit fees |
| CarryPair.CarryEpisode.MaybeRebalance | backtest/backtest_carry_pair.py:356-374 | rebalances exactly past the drift threshold, keeping the PnL at the fill; never on a single series |
| CarryPair.Act | backtest/backtest_carry_pair.py:285-304 | after acting on a bar's signal the account and position again satisfy the run's invariant for the next bar |
| CarryPair.Run | backtest/backtest_carry_pair.py:233-313 | every run's episodes are opened at every short signal seen while flat, hold the legs, margin, fees and rebalances their bars give, are settled as their bars demand, do not overlap, and equity is initial capital plus their net PnL |
| CarryPair.SettledNet | backtest/backtest_carry_pair.py:315-354 | a settled episode's net PnL is a function of the bars, the configuration, its entry and its exit |
| CarryPair.SameEntrySameEpisode | backtest/backtest_carry_pair.py:256-304 | two settled episodes with the same entry ended at the same bar, for the same reason, with the same net PnL |
| CarryPair.RunIsDetermined | backtest/backtest_carry_pair.py:233-313 | the bars and the configuration determine how many episodes a run has and its final equity |
| CarryPair.OfferedOnce | backtest/backtest_carry_pair.py:264-296 | each bar after the entry up to the exit is offered funding exactly once, whatever ended the episode |
| CarryPair.SingleSeriesMarks | backtest/backtest_carry_pair.py:256-262 | on a single series the marked price PnL is 0 at every bar |
| CarryPair.SingleSeriesPnl | backtest/backtest_carry_pair.py:256-281 | on a single series price PnL is 0 at exit, except that a liquidation keeps the loss beyond the margin |

## Left out

- Reading and writing files: JSON, compression, digests, segment and manifest checks, charts, command lines, reports.
- Strategies, indicators, regime classifiers, close evaluators and the market data itself: their answers are inputs.
- The square root, normal distribution and p-values of the signed-rank test: the model stops at numerator and variance.
- The plain signal path of the simulator, seeded long positions and terminal insolvency, which repeat the bookkeeping
  with different resets.
- The position inventory carried into the interval, its verification against the configuration, the sign test,
  percentiles and bootstrap intervals, hold metrics, and Sharpe-like summaries.
- Sizing of scale-in adds (spacing, caps, notional): an add's quantity is an input of the bar.
- Stop changes after take-profits (`sl_after` rules, post-profit multiples) and the legacy stop geometry.
- Weak candidates, geometry comparison, residuals and metrics of the ledger
  comparison, and its row-accounting, inventory and wallet checks.
- LedgerComparison.Compare: simulated positions are taken to start with an opening event, as the recorder writes them.
- LedgerEngine.Engine.Run: the synthetic close at the end of the data is the same close operation with the last close
  price and the remaining quantity; the source spells it out a second time.
- StopOwner.RuntimeAgreesWithOwner: field values are finite numbers; the unified close is the one value both chains
  read. The engine also accepts a dynamic close there, which capability checks refuse for this stop geometry.
- CloseValidation.RefFinding: the free-text details of a finding are left out; what the three stop checks find in the
  stop context is an input, of whatever features and details.
- CloseValidation.Decode: JSON numbers are integers, so a schema version written as 1.0 is not modelled.
- Replay.CoinState.Accept: repeated and conflicting records with a seen key are one error here.
- Replay.LoadRecording: the records of all segments form one list, as the source carries its state across segments.
- CarryPair.Run: the equity curve and the summary derived from it are not modelled; prices are taken to be positive.
- Hurst.HurstGate.Step: the rolling exponent is an input.
