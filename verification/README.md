# Bid market, policy arbiter and their neighbours

A Dafny model of the deterministic decision code of the orchestrator, with proofs about single
calls and about whole runs.

**The bid market** (`Settlement`, `Selection`, `MarketLoop`; laws in `SelectionLaws`, `MarketRuns`,
`MarketBounds`, `MarketMeaning`). Each tick settles the previous tick's winner: its credibility moves towards the
accuracy of its prediction, its bankroll is multiplied by a penalty or reward factor, all in Q32
fixed point with floored products. A bankruptcy rule then looks at every campaign, and the next
winner is chosen from the resulting table. `MarketLoop.MarketLedger` is the coordinator's state
directory; a run is any sequence of ticks from an empty one, with arbitrary bids, cooldowns,
budgets, realised changes and effect classes.

**The policy arbiter** (`PolicyArbiter`, `ArbiterLaws`, `ArbiterMeaning`). Proposals are validated, priced, given an
expected objective by a predictor, and ranked by objective, cost and program.

**Supporting components.** `Hygiene`: worklist reachability and the unused fraction.
`VisionResize`: nearest-neighbour resizing and grey conversion of byte images. `PolicyTable`,
`PolicyTableLaws`: the policy-table normaliser, its bootstrap merge, the bundle and the independent
verifier. `IndexPages`: the vision listing and the pages that must agree with it. `HarvestReplay`:
the harvesting and replaying language-model backends.

`Ordering` holds what all of them lean on: Python's tuple and string order and its stable sort.
`Q32`, `Text` and `Results` hold fixed point, `str.strip` and identifier formats, and failures.

## Conventions

- A method follows the loops and assignments of the source and ensures that it equals a function of
  its inputs or of its old state. The laws are lemmas about those functions.
- The functions the methods refine are pinned by laws that do not call them: floors by their two
  inequalities (`Q32.IsFloor`), lists by their members and order, failures by conditions on the
  inputs. The `Meaning` and `Iff` lemmas are these.
- `Fail(reason)` stands for the exception a `fail(reason)` raises, with the same reason code.
- Inputs are typed: a field the source type-checks is an option where the check can fail and matters
  to a result; other ill-typed documents are outside the model. Integers are unbounded, as in Python.
- Hashes and digests are function parameters. A law that needs well-formed or injective hashes says
  so in a `requires`.
- The market configuration is any, fixed over a run. The realised change of the objective is an
  input of a tick.
- Settlement has two callers: the v18 coordinator passes no effect class
  (`orchestrator/omega_v18_0/coordinator_v1.py:900-915`), the v19 kernel passes the previous tick's
  (`orchestrator/omega_v19_0/microkernel_v1.py:6700-6720`). Runs here range over every effect class,
  none included. The laws about losing settlements speak of both callers, those about punished
  effects of the second.
- Between two wins of a campaign lie any number of ticks that do not settle it, as cooldowns make
  them (`orchestrator/omega_v18_0/coordinator_v1.py:1096-1098`). The bounds on losing count the
  settlements in a stretch of a run, wherever they fall.

## Where the repository's promises and its code differ

- `test_orchestrator_bid_market_parity_v1.py:129-173` compares the orchestrator's selection with the
  copy vendored for the verifier on two bids of full confidence, where they agree. They differ in
  general: the vendored score has no confidence factor and disabled campaigns are not skipped
  (`CDEL-v2/cdel/v18_0/omega_bid_market_v1.py:610-622`). `SelectionLaws.CopiesAgreeIff` is the exact
  condition, `SelectionLaws.CopiesCanDisagree` a pair of bids on which they choose different winners.
- The arbiter's docstring (`orchestrator/omega_bid_market_v2.py:270-272`) calls the ranking independent
  of completion order and asks for proposals in branch order. Without that order it is independent
  exactly when proposals that tie produce equal rows (`ArbiterLaws.OrderIndependentIff`), which the
  caller can see from plan scores, costs and programs (`ArbiterLaws.OrderIndependentByContent`).
- A harvest is not always replayable: the prompt cache is shared between backends and names its files
  by the prompt alone (`agi-orchestrator/orchestrator/llm_cache.py:16-18`), so an answer can come from a
  cache that the log knows nothing of. `HarvestReplay.CachedHarvestReplays` is the exact condition,
  `HarvestReplay.WarmCacheIsNotReplayed` the failing case.
- The return on investment that the selection recomputes from a bid is not the declared one. How much
  it falls short, and when it does not, is `SelectionLaws.RoiRoundTrip`.

## Model

| member | source | states |
|---|---|---|
| Ordering.SortStable | orchestrator/omega_bid_market_v1.py:659-685 | rows with equal keys keep their input order, for every key |
| Ordering.SortOrdered | orchestrator/omega_bid_market_v1.py:659-685 | the sorted rows ascend in Python's tuple order |
| Ordering.SortPermutes | orchestrator/omega_bid_market_v1.py:659-685 | sorting loses, adds and duplicates no row |
| Ordering.StableSortUnique | orchestrator/omega_bid_market_v1.py:659-685 | an ordered and stable result is unique, so the model's sort is the only possible `sorted` |
| Ordering.SortOfPermutation | orchestrator/omega_bid_market_v2.py:359-366 | the sort forgets the input order when equal keys mean equal rows |
| Ordering.TieShowsInputOrder | orchestrator/omega_bid_market_v2.py:359-366 | when different rows tie, two input orders give different results |
| Ordering.SortMap | orchestrator/omega_bid_market_v2.py:359-366 | a change of keys that keeps their order commutes with sorting |
| Ordering.SortedSetAscending | orchestrator/omega_bid_market_v1.py:399 | the keys of a table are visited strictly ascending |
| Ordering.AscendingUnique | orchestrator/omega_bid_market_v1.py:399 | an ascending list is determined by its members, so that order is the only one |
| Ordering.LeqMeaning | orchestrator/omega_bid_market_v1.py:561-576 | the order of the sort keys: a prefix comes first, otherwise the first difference decides |
| Text.StripMeaning | orchestrator/omega_bid_market_v1.py:117-121 | stripping removes the spaces at both ends and nothing else |
| Settlement.ResolveSettlementParams | orchestrator/omega_bid_market_v1.py:98-109 | whatever the configuration says, rates and credibilities land in [0, 1], the error cap and the disabling limit are at least 1, bankroll and threshold at least 0 |
| Settlement.ResolveMeaning | orchestrator/omega_bid_market_v1.py:98-109 | every parameter is the configured or else the default value, stated as a number, if that is in its range, and the nearer bound otherwise |
| Settlement.ResolveTwice | orchestrator/omega_bid_market_v1.py:98-109 | resolving resolved parameters changes nothing |
| Settlement.MarketStateMap | orchestrator/omega_bid_market_v1.py:234-246 | rows become a table by stripped id, the last row of an id counts, a blank id fails |
| Settlement.TableOfMeaning | orchestrator/omega_bid_market_v1.py:234-246 | reading fails exactly on a blank id, and a key holds exactly the last row whose stripped id it is |
| Settlement.TableRoundTrip | orchestrator/omega_bid_market_v1.py:234-246 | the rows a settlement writes read back as the same table |
| Settlement.BootstrapTable | orchestrator/omega_bid_market_v1.py:112-157 | the first table has exactly the distinct non-blank ids of the registry, each enabled with the initial bankroll and credibility, streak 0 and no reason |
| Settlement.RegistryMeaning | orchestrator/omega_bid_market_v1.py:112-122 | the ids of a registry are the non-blank stripped ids of its entries |
| Settlement.ReviewAll | orchestrator/omega_bid_market_v1.py:396-417 | the loop reviews every row once, in key order, and lists the ids it disables in that order |
| Settlement.SettleTable | orchestrator/omega_bid_market_v1.py:342-417 | the settlement returns every campaign's step, the winner's values before and after, and the newly disabled ids; an unknown winner fails |
| Settlement.PaidThenReviewed | orchestrator/omega_bid_market_v1.py:353-415 | overwriting the winner and then reviewing all rows is one independent step of each campaign |
| Settlement.NewlyDisabledMembers | orchestrator/omega_bid_market_v1.py:396-417 | the list of a settlement holds exactly the campaigns enabled before and disabled after, each once, ascending |
| Selection.Select | orchestrator/omega_bid_market_v1.py:591-721 | the loop with its two lists and two sorts returns the receipt of the ranked entries; a bid by an unknown campaign fails |
| SelectionLaws.RankKeyOrder | orchestrator/omega_bid_market_v1.py:561-576 | comparing rank keys is the five-level rule: higher score, return, credibility, confidence, then lower id; campaigns never tie |
| SelectionLaws.EntryMeaning | orchestrator/omega_bid_market_v1.py:605-618 | the return is the promised change over the cost, the score return times credibility times confidence, each step floored in this order, so within two units in the last place of the exact product; the vendored score stops at credibility |
| SelectionLaws.LargerMeritWins | orchestrator/omega_bid_market_v1.py:605-618 | a product of return, credibility and confidence larger by two units in the last place always ranks ahead, and the other campaign does not win |
| SelectionLaws.WinnerIsBest | orchestrator/omega_bid_market_v1.py:597-721 | a campaign wins exactly when it may run and ranks ahead of every other that may; the payload is its own data; the outcome is OK exactly when some campaign may run |
| SelectionLaws.WinnerPayload | orchestrator/omega_bid_market_v1.py:687-699 | the payload has the promise, cost, confidence, horizon and evidence of the winner's bid, made admissible, and the credibility of its row |
| SelectionLaws.CandidatesAreRanked | orchestrator/omega_bid_market_v1.py:658-659 | the candidate list has one row for each bid, in ranking order, skipped ones included |
| SelectionLaws.CandidateMeaning | orchestrator/omega_bid_market_v1.py:619-640 | a row belongs to a bid, carries its score and return, and gives the first skip reason that applies: disabled, cooling down, over budget |
| SelectionLaws.WinnerIsFirstEligible | orchestrator/omega_bid_market_v1.py:658-702 | the two sorts agree: the first eligible row of the full list is the winner's, and without one there is no winner |
| SelectionLaws.WinnerMayRun | orchestrator/omega_bid_market_v1.py:605-631 | a winner is enabled, past its cooldown, affordable in all three budgets, and scored between zero and its return |
| SelectionLaws.NobodyWinsIff | orchestrator/omega_bid_market_v1.py:619-631 | there is no winner exactly when every bidder is disabled, cooling down or dearer than the least budget |
| SelectionLaws.WinnerMonotone | orchestrator/omega_bid_market_v1.py:605-618 | a winner whose predicted change, confidence or credibility rises still wins, through all floors and tie-breaks, in both copies |
| SelectionLaws.CopiesAgreeIff | CDEL-v2/cdel/v18_0/omega_bid_market_v1.py:605-622 | both copies of the selection return the same receipt exactly when every bidder is enabled and has full confidence or a zero product of return and credibility |
| SelectionLaws.CopiesCanDisagree | CDEL-v2/cdel/v18_0/omega_bid_market_v1.py:605-622 | two well-formed bids of enabled campaigns on which the copies name different winners |
| SelectionLaws.RoiRoundTrip | orchestrator/omega_bid_market_v1.py:475-500 | the bid that is built; and the recomputed return is the declared one less ceil((r * c mod 2^32) / c): never more, at most 1 less when the cost is at least 2^32, equal exactly when r * c is a multiple of 2^32 |
| MarketLoop.SettleAndAdvance | orchestrator/omega_bid_market_v1.py:313-452 | reads or bootstraps the table, finds what is due from the previous selection, settles it |
| MarketLoop.MarketLedger.constructor | orchestrator/omega_v18_0/coordinator_v1.py:881-888 | before the first tick there is no table, selection or receipt |
| MarketLoop.MarketLedger.RunTick | orchestrator/omega_v18_0/coordinator_v1.py:879-988 | one tick settles the previous winner and selects on the settled rows; the whole new ledger is a function of the old one and the inputs, a failing tick changes nothing |
| MarketRuns.TickSteps | orchestrator/omega_v18_0/coordinator_v1.py:900-988 | what every tick keeps: sound rows, the registered ids, an enabled winner; every row makes one step and the receipt lists the rows it disables |
| MarketRuns.TickSucceedsIff | orchestrator/omega_v18_0/coordinator_v1.py:900-988 | in a reachable ledger a tick fails only on a bid by an unregistered campaign |
| MarketRuns.RunIsLife | orchestrator/omega_bid_market_v1.py:342-417 | in every run every registered campaign starts new, makes one step a tick, and is settled only while enabled |
| MarketRuns.NamedIsBest | orchestrator/omega_v18_0/coordinator_v1.py:974-988 | the winner a tick names is the best campaign of the table it settled, with the promise and confidence of its bid |
| MarketRuns.EventsAreBids | orchestrator/omega_bid_market_v1.py:313-328 | what a tick settles, told by inputs: campaign k exactly when it was the best on the table the tick before left and the realised change is known, with promise and confidence of that tick's bid and change and effect of this one |
| MarketRuns.DisabledForever | orchestrator/omega_bid_market_v1.py:253-276 | once disabled, a campaign keeps its whole row for the rest of every run and is never named a winner again |
| MarketRuns.StreakIsHistory | orchestrator/omega_bid_market_v1.py:253-276 | an enabled campaign's streak is its current run of ticks below the threshold and short of the limit, a disabled one's is exactly the limit, each with its reason, and a campaign is disabled exactly when such a run once reached the limit |
| MarketRuns.ListedOnce | orchestrator/omega_bid_market_v1.py:396-417 | over a run the receipts list every disabled campaign exactly once, never an enabled or unregistered one, and no id twice in one receipt |
| MarketBounds.FactorBounds | orchestrator/omega_bid_market_v1.py:370-384 | the factor lies between 0 and 1 plus the reward rate, so neither clamp at zero ever fires |
| MarketBounds.CredibilityBetween | orchestrator/omega_bid_market_v1.py:363-368 | before its clamp the new credibility lies between the old one and the measured accuracy |
| MarketBounds.CredibilityKept | orchestrator/omega_bid_market_v1.py:367-382 | one step keeps credibility between any floor it starts above and 1, if the floor is at most the configured one |
| MarketBounds.AccuracyPays | orchestrator/omega_bid_market_v1.py:363-384 | with equal confidence and effect class a smaller error never leaves less credibility or bankroll, nor disables when the larger does not |
| MarketBounds.ExactAndHopeless | orchestrator/omega_bid_market_v1.py:363-384 | an exact unpunished prediction never costs anything; an error at or above the cap never earns anything |
| MarketBounds.EffectsAreOrdered | orchestrator/omega_bid_market_v1.py:372-384 | all else equal, no utility costs at least as much as a rejection, and a rejection at least as much as any other effect |
| MarketBounds.AdvantageKept | orchestrator/omega_bid_market_v1.py:353-415 | with the same settlements a campaign that starts with at least the credibility and bankroll of another, and no longer streak, keeps that through all floors and clamps, and is disabled only if the other is |
| MarketBounds.HopelessLoses | orchestrator/omega_bid_market_v1.py:363-384 | with an error at or above the cap the winner loses exactly when it is punished or confidence makes the penalty positive |
| MarketBounds.LosingShrinks | orchestrator/omega_bid_market_v1.py:383-384 | a losing settlement strictly shrinks a positive bankroll and leaves zero at zero |
| MarketBounds.PunishedShrinks | orchestrator/omega_bid_market_v1.py:373-384 | a punished settlement is a losing one and takes at least one part in two hundred of any bankroll |
| MarketBounds.BankrollBounded | orchestrator/omega_bid_market_v1.py:363-384 | in every run a bankroll is at least 0 and after n settlements at most b0 * (1 + reward rate)^n |
| MarketBounds.CredibilityBounded | orchestrator/omega_bid_market_v1.py:363-382 | in every run credibility stays between 1 and the lesser of its start and the configured floor |
| MarketBounds.DisabledWithin | orchestrator/omega_bid_market_v1.py:269-276 | with a threshold T > 0 and limit N, max(0, b - T) + N losing settlements disable a campaign with bankroll b, however many idle ticks lie between them |
| MarketBounds.LowIsDisabledWithin | orchestrator/omega_bid_market_v1.py:269-276 | below the threshold the ticks alone count: settled at a loss or not at all, a campaign is disabled after N ticks |
| MarketBounds.Halving | orchestrator/omega_bid_market_v1.py:373-384 | 140 punished settlements halve any bankroll |
| MarketBounds.OnlySettlementsMove | orchestrator/omega_bid_market_v1.py:396-412 | over any ticks the bankroll is a function of the settlements alone: the bankruptcy rule and idle ticks never move it |
| MarketBounds.DisabledWithinHalvings | orchestrator/omega_bid_market_v1.py:269-276 | if b < 2^m T, already 140 m + N punished settlements disable, however many idle ticks lie between them |
| MarketBounds.LosingWinsAreBounded | orchestrator/omega_bid_market_v1.py:353-415 | in any stretch of any run in which all settlements of a campaign lose there are at most max(0, b - T) + N of them, at whatever ticks, and that many disable it |
| MarketBounds.PunishedWinsAreBounded | orchestrator/omega_bid_market_v1.py:353-415 | if they are all punished and b < 2^m T, there are at most 140 m + N, and that many disable it |
| MarketBounds.LosingStreaksAreBounded | orchestrator/omega_bid_market_v1.py:353-415 | no campaign wins and loses more than max(0, b - T) + N ticks in a row |
| MarketBounds.PunishedStreaksAreBounded | orchestrator/omega_bid_market_v1.py:353-415 | nor wins and is punished more than 140 m + N ticks in a row when b < 2^m T |
| MarketBounds.LowBankrollIsDisabled | orchestrator/omega_bid_market_v1.py:396-415 | in every run a campaign below the threshold that is settled only at a loss, or not at all, is disabled N ticks later |
| MarketBounds.ZeroThresholdDisablesNobody | orchestrator/omega_bid_market_v1.py:269-276 | the positive threshold is needed: with threshold zero no run ever disables a campaign |
| MarketMeaning.SettlementMeaning | orchestrator/omega_bid_market_v1.py:357-389 | what a settlement does, by inequalities on promise, confidence, change and effect: error share, penalty and reward fractions, surcharges of 42949672 and 21474836, the new bankroll, and credibility as the mean of old value and accuracy weighted by the learning rate |
| MarketMeaning.WorkingExists | orchestrator/omega_bid_market_v1.py:357-389 | such intermediate results exist for every settlement |
| MarketMeaning.TickPaysWinner | orchestrator/omega_v18_0/coordinator_v1.py:900-988 | in every run the best campaign of a tick is paid at the next as its bid and the realised change demand |
| MarketMeaning.TickSparesOthers | orchestrator/omega_bid_market_v1.py:396-412 | and every other keeps bankroll and credibility |
| MarketMeaning.ReceiptNumbers | orchestrator/omega_bid_market_v1.py:344-394 | in every run the receipt names the winner of the tick before and its values before and after are those of its rows; without a settlement they are zero |
| MarketMeaning.CredibilityCatchesUp | orchestrator/omega_bid_market_v1.py:363-368 | in every run, while a campaign's settlements reach accuracy a without surcharge, its lag behind a shrinks by the factor 1 - rate at each, down to one unit in the last place over the rate |
| MarketMeaning.CredibilityComesDown | orchestrator/omega_bid_market_v1.py:363-382 | and while none exceeds a, not below the floor, its lead over a shrinks by that factor at each, punished or not |
| PolicyArbiter.ComputeJOld | orchestrator/omega_bid_market_v2.py:174-197 | the current objective is the bias plus the weighted metrics, zero without a report or profile, and fails with the reason of the first bad weight |
| ArbiterMeaning.JMeaning | orchestrator/omega_bid_market_v2.py:174-197 | the objective is zero without report or profile, otherwise bias plus every metric times its weight, floored row by row |
| ArbiterMeaning.JFailsAtFirst | orchestrator/omega_bid_market_v2.py:185-196 | the first row that cannot be weighed decides the reason |
| PolicyArbiter.SelectPolicyProposal | orchestrator/omega_bid_market_v2.py:257-397 | the loop returns the receipt of the ranked proposals, or the reason of the first check that fails |
| ArbiterMeaning.SelectionSucceedsIff | orchestrator/omega_bid_market_v2.py:274-397 | with well-formed hashes a selection succeeds exactly when descriptor and policy are valid, there are proposals, every profile row can be weighed and every proposal is accepted |
| ArbiterMeaning.AcceptedIff | orchestrator/omega_bid_market_v2.py:292-332 | a proposal is accepted exactly when its fields are well formed, it belongs to the descriptor and keeps its commitment, and trace, plan and predictor fit |
| ArbiterMeaning.NewDescriptorMeaning | orchestrator/omega_bid_market_v2.py:38-49 | a descriptor with one of three keys must have four hashes |
| ArbiterMeaning.OldDescriptorMeaning | orchestrator/omega_bid_market_v2.py:38-64 | any other must have ten, and one to a hundred programs |
| ArbiterMeaning.HashMeaning | orchestrator/omega_bid_market_v2.py:13-20 | a hash is the prefix and any 64 characters |
| ArbiterMeaning.BranchMeaning | orchestrator/omega_bid_market_v2.py:23-26 | a branch id is a b and two digits |
| ArbiterMeaning.RowMeaning | orchestrator/omega_bid_market_v2.py:334-357 | a row repeats its proposal and is bound to the descriptor by a hash of all it says |
| ArbiterMeaning.ExpectedMeaning | orchestrator/omega_bid_market_v2.py:200-226 | the expected objective is the current one plus bias, plan term and observation term, each weight times the head of its hash, floored; the observation hash goes before the report's |
| ArbiterMeaning.CostMeaning | orchestrator/omega_bid_market_v2.py:305-316 | a proposal costs what it says without traces, and what its trace costs with them |
| ArbiterMeaning.IdleCost | orchestrator/omega_bid_market_v2.py:229-248 | a trace that uses nothing costs the base |
| ArbiterMeaning.CounterCharges | orchestrator/omega_bid_market_v2.py:243-248 | traces that differ in one counter differ in cost by the floored charges of that counter at its own rate, for each of the four |
| ArbiterMeaning.CheaperTraceWins | orchestrator/omega_bid_market_v2.py:305-367 | with equal plan scores a trace that uses no more of anything is never behind on cost, and once it saves a charge it is ahead and the other proposal does not win |
| ArbiterMeaning.ReceiptMeaning | orchestrator/omega_bid_market_v2.py:359-396 | the receipt holds all rows in ranking order, all proposal hashes in string order, the head as winner, and a commitment to the whole ranking |
| ArbiterLaws.OrderIndependent | orchestrator/omega_bid_market_v2.py:289-397 | when ties are between equal rows, every permutation of the proposals gives the identical receipt with ranking, winner and commitment |
| ArbiterLaws.OrderIndependentIff | orchestrator/omega_bid_market_v2.py:289-397 | and only then |
| ArbiterLaws.OrderIndependentByContent | orchestrator/omega_bid_market_v2.py:289-397 | stated on the inputs: every order gives the identical receipt exactly when no two different proposals share plan score, cost and program |
| ArbiterLaws.TieDependsOnOrder | orchestrator/omega_bid_market_v2.py:359-367 | if two proposals tie on different rows, moving the one or the other to the front gives different receipts |
| ArbiterLaws.TiesKeepInputOrder | orchestrator/omega_bid_market_v2.py:359-366 | proposals with equal keys are ranked in input order |
| ArbiterLaws.RankKeyOrder | orchestrator/omega_bid_market_v2.py:359-366 | comparing keys is the rule: higher expected objective, then lower cost, then lower program |
| ArbiterLaws.WinnerIsFirstBest | orchestrator/omega_bid_market_v2.py:359-367 | the head of the ranking is the first row of the input that no other is ahead of |
| ArbiterLaws.OneFirstBest | orchestrator/omega_bid_market_v2.py:359-367 | there is exactly one such row among any rows |
| ArbiterLaws.WinnerIsFirstBestProposal | orchestrator/omega_bid_market_v2.py:359-395 | exactly one proposal is the first whose row no other is ahead of, and the receipt names its branch and hash |
| ArbiterLaws.ExpectedSplits | orchestrator/omega_bid_market_v2.py:200-226 | the expected objective is a part all proposals share plus a part of the plan weight and the plan alone |
| ArbiterLaws.OnlyPlanWeightDecides | orchestrator/omega_bid_market_v2.py:328-367 | ranking order and winner are the same under any two profiles, reports, biases and observation weights: only plan weight, cost and program decide |
| ArbiterLaws.ReceiptPassesItsCheck | orchestrator/omega_bid_market_v2.py:134-163 | with well-formed hashes the receipt always passes its own last check, so a selection fails only on its inputs |
| Hygiene.Reachable | CDEL-v2/analysis/compute_reuse_hygiene.py:172-183 | returns exactly the symbols at the end of a path from a root along edges that end inside the symbols, although the stack may hold duplicates |
| Hygiene.UnusedFraction | CDEL-v2/analysis/compute_reuse_hygiene.py:164-169 | is the share of symbols that no target or primitive reaches, zero without symbols, always between 0 and 1 |
| Hygiene.UnusedMeaning | CDEL-v2/analysis/compute_reuse_hygiene.py:164-183 | the symbols it counts are those that no path from a task target or one of the ten primitives reaches |
| Hygiene.ReachMonotone | CDEL-v2/analysis/compute_reuse_hygiene.py:172-183 | more roots and more edges never lose a reachable symbol |
| VisionResize.ClampedSource | orchestrator/rsi_eudrs_u_vision_capture_v1.py:80-92 | the source coordinate with both index clamps is the bare quotient: the clamps never fire |
| VisionResize.ResizeGray | orchestrator/rsi_eudrs_u_vision_capture_v1.py:65-94 | the in-place loop and the equal-size shortcut both give every output byte its source byte, and bad sizes fail |
| VisionResize.ResizeRgb | orchestrator/rsi_eudrs_u_vision_capture_v1.py:97-126 | the same for three bytes a pixel |
| VisionResize.ResizedMeaning | orchestrator/rsi_eudrs_u_vision_capture_v1.py:79-126 | output pixel (x, y) is the source pixel at row floor(y * ih / oh) and column floor(x * iw / ow), floors by inequality, for every byte of it |
| VisionResize.ResizedSameSize | orchestrator/rsi_eudrs_u_vision_capture_v1.py:75-76 | the equal-size shortcut agrees with the loop |
| VisionResize.WholeFactors | orchestrator/rsi_eudrs_u_vision_capture_v1.py:80-88 | enlarging an axis by k repeats every coordinate k times, shrinking by k takes the first of every k |
| VisionResize.ThroughMultiple | orchestrator/rsi_eudrs_u_vision_capture_v1.py:65-126 | resizing to whole multiples of a size and then to the size is resizing to it directly; whole enlargement is undone exactly |
| VisionResize.RgbToGray | orchestrator/rsi_eudrs_u_vision_capture_v1.py:50-62 | one grey byte for each triple, an incomplete triple fails |
| VisionResize.Gray | orchestrator/rsi_eudrs_u_vision_capture_v1.py:57-60 | a grey value is 77 r + 150 g + 29 b over 256 rounded down, by inequality, and lies between the least and the greatest channel |
| VisionResize.GrayCommutes | orchestrator/rsi_eudrs_u_vision_capture_v1.py:50-126 | grey conversion commutes with resizing, for every image and size |
| PolicyTable.NormalizeRanked | orchestrator/rsi_orch_policy_trainer_v1.py:41-60 | the loop with its seen set and final sort returns the normalised list, or fails |
| PolicyTable.CollectRows | orchestrator/rsi_orch_policy_trainer_v1.py:69-81 | the row loop of tables and bootstrap files: rows sorted by context, the first error counts, a repeated context fails |
| PolicyTable.MergeInto | orchestrator/rsi_orch_policy_trainer_v1.py:106-117 | rows overwrite the dictionary in order |
| PolicyTable.ApplyBootstrapRows | orchestrator/rsi_orch_policy_trainer_v1.py:99-128 | merges bootstrap rows into a table and recomputes its id; no rows change nothing |
| PolicyTableLaws.NormalizeMeaning | orchestrator/rsi_orch_policy_trainer_v1.py:41-60 | the result holds exactly the first entry of every named capability, named once, higher scores first and equal ones by name |
| PolicyTableLaws.NormalizeSucceedsIff | orchestrator/rsi_orch_policy_trainer_v1.py:41-60 | a list is accepted exactly when all entries are objects, some capability is named, and every first entry of one has a readable score; later duplicates may be malformed |
| PolicyTableLaws.CollectSucceedsIff | orchestrator/rsi_orch_policy_trainer_v1.py:69-81 | rows are accepted exactly when each is an object with a hash for a context no earlier row has and an acceptable ranked list |
| PolicyTableLaws.ConvertSucceedsIff | orchestrator/rsi_orch_policy_trainer_v1.py:131-198 | a payload converts exactly when it names the schema and has acceptable rows, in the legacy form with its own hash |
| PolicyTableLaws.BootstrapSucceedsIff | orchestrator/rsi_orch_policy_trainer_v1.py:63-96 | a bootstrap file is accepted exactly when it names its schema and its rows are; an absent one always |
| PolicyTableLaws.TrainedMeaning | orchestrator/rsi_orch_policy_trainer_v1.py:252-257 | the trained bundle read off the inputs: the row of a context is the bootstrap file's if it gives one and the payload's otherwise, contexts and capabilities in order, ids the hashes of table and bundle |
| PolicyTableLaws.ConvertIdempotent | orchestrator/rsi_orch_policy_trainer_v1.py:131-161 | converting a converted table changes nothing |
| PolicyTableLaws.FormsAgree | orchestrator/rsi_orch_policy_trainer_v1.py:131-198 | the legacy and the new form of the same rows convert alike, in success and in failure |
| PolicyTableLaws.BootstrapWins | orchestrator/rsi_orch_policy_trainer_v1.py:99-128 | the merged table has the contexts of both, reads the bootstrap row where there is one and the own row elsewhere, and is in normal form |
| PolicyTableLaws.BootstrapIdempotent | orchestrator/rsi_orch_policy_trainer_v1.py:99-128 | merging the same bootstrap rows again changes nothing |
| PolicyTableLaws.TrainedBundleIsAccepted | orchestrator/rsi_orch_policy_trainer_v1.py:252-257 | once its inputs convert, training cannot fail and the separate verifier accepts the bundle and confirms its id |
| PolicyTableLaws.AcceptedIffBuilt | orchestrator/verify_rsi_orch_policy_trainer_v1.py:30-53 | the verifier accepts exactly the bundles the builder makes of a valid table |
| PolicyTableLaws.VerifierMeaning | orchestrator/verify_rsi_orch_policy_trainer_v1.py:30-53 | the verifier accepts exactly the bundles whose ids are hashes, fit each other and the contents, with well-formed rows |
| PolicyTableLaws.AcceptedById | orchestrator/verify_rsi_orch_policy_trainer_v1.py:30-53 | with injective hashes two accepted bundles with one id are the same bundle |
| IndexPages.IdOrder | orchestrator/rsi_eudrs_u_vision_index_build_v1.py:246-301 | string order of ids is byte order of the hashes they spell |
| IndexPages.CheckListing | orchestrator/rsi_eudrs_u_vision_index_build_v1.py:247-254 | accepts exactly the strictly increasing listings of non-blank ids |
| IndexPages.CutPages | orchestrator/rsi_eudrs_u_vision_index_build_v1.py:304-316 | the range loop cuts consecutive pages |
| IndexPages.Emit | orchestrator/rsi_eudrs_u_vision_index_build_v1.py:245-316 | sorts and checks the listing, builds the records, checks the six parameters, sorts the records, cuts the pages |
| IndexPages.RecordMeaning | orchestrator/rsi_eudrs_u_vision_index_build_v1.py:269-274 | both hashes of a record are the 32 bytes its id spells, and its key is the item's embedding key |
| IndexPages.RecordsAlreadySorted | orchestrator/rsi_eudrs_u_vision_index_build_v1.py:300-301 | the second sort, by bytes, changes nothing after the first, by string |
| IndexPages.IndexAgreesWithListing | orchestrator/rsi_eudrs_u_vision_index_build_v1.py:245-316 | read page by page, bucket 0 holds exactly the listed items in the listing's order |
| IndexPages.RecordsStrictlyIncrease | orchestrator/rsi_eudrs_u_vision_index_build_v1.py:300-316 | the canonical page order: read page by page the record hashes strictly increase, so no two records share one |
| IndexPages.PagesAreFull | orchestrator/rsi_eudrs_u_vision_index_build_v1.py:304-316 | pages are numbered from 0, never empty, and all but the last hold exactly the cap |
| IndexPages.BuildSucceedsIff | orchestrator/rsi_eudrs_u_vision_index_build_v1.py:246-290 | the build succeeds exactly when all six parameters meet their conditions and no id repeats |
| HarvestReplay.LoadReplayEntries | orchestrator/llm_backend.py:177-209 | the loop reads own rows, the last one of a prompt counting, skips foreign ones, and fails with the first bad line, a missing file or no entry |
| HarvestReplay.LoadSucceedsIff | orchestrator/llm_backend.py:177-209 | loading succeeds exactly when the log is there, every line is blank or an object, every row that names this provider and model is well formed, and there is one |
| HarvestReplay.LoadedMeaning | orchestrator/llm_backend.py:187-206 | a loaded log holds a response for a prompt exactly when the last row with the schema, this provider, this model and the prompt has it |
| HarvestReplay.ProviderHarvestBackend.constructor | orchestrator/llm_backend.py:399-408 | starts from the given cache and log with no calls made |
| HarvestReplay.ProviderHarvestBackend.Generate | orchestrator/llm_backend.py:442-474 | a cached prompt changes nothing; otherwise a live response is counted, logged and cached; a refused or failing call changes nothing |
| HarvestReplay.ProviderReplayBackend.constructor | orchestrator/llm_backend.py:366-373 | starts from the loaded entries with no calls made |
| HarvestReplay.ProviderReplayBackend.Generate | orchestrator/llm_backend.py:375-396 | answers from the cache, else from the entries, counting and caching; an unknown prompt fails and changes nothing |
| HarvestReplay.ReplayMeaning | orchestrator/llm_backend.py:375-396 | an answered prompt is cached and all others stay, only answers the cache did not know are counted, a failing replay changes nothing |
| HarvestReplay.LogHoldsLast | orchestrator/llm_backend.py:177-209 | after any calls and foreign lines a readable log stays readable, and its entry for a prompt is the last live response or what it held before |
| HarvestReplay.LiveOnce | orchestrator/llm_backend.py:444-471 | with a cache no prompt is asked live twice |
| HarvestReplay.CallsAreRows | orchestrator/llm_backend.py:455-469 | the call counter counts exactly the rows the backend wrote |
| HarvestReplay.CachedHarvestReplays | orchestrator/llm_backend.py:442-474 | from any cache and any readable log, replay answers a prompt with what harvesting answered on every call exactly when an answer cached at the start was in the log as well; so always from an empty cache |
| HarvestReplay.WarmCacheIsNotReplayed | orchestrator/llm_backend.py:442-452 | the condition can fail: a prompt that only the cache knows is answered, not logged, and not replayed |
| HarvestReplay.UnreadableStays | orchestrator/llm_backend.py:177-209 | from a log that is unreadable to begin with nothing is ever replayed |
| HarvestReplay.HarvestKeepsCoherent | orchestrator/llm_backend.py:442-474 | after any harvesting all cached answers are in the log exactly when they were at the start |
| HarvestReplay.UncachedHarvestReplaysLast | orchestrator/llm_backend.py:442-474 | without a cache, from any readable log, replay gives the last response of a prompt |
| HarvestReplay.UnansweredIsUnchanged | orchestrator/llm_backend.py:375-396 | a prompt that was never answered is replayed as from the starting log, or not at all |
| HarvestReplay.CacheIsTransparentIff | orchestrator/llm_backend.py:375-396 | after any replays and for every prompt a replay backend answers as from the log alone exactly when its cache starts coherent with the log |

## Left out

- Selection.Select: carries no bid hashes and no printed tie-break path, which are functions of the bids and of the candidate rows; ill-typed cooldown and budget records are outside the model.
- MarketLoop.SettleAndAdvance: takes the realised change as an input, in place of `J_q32_from_observation`, `J_prev_q32_from_metric_series` and their failures; receipt fields that only carry hashes, ids, ticks or objective values through are not built.
- MarketLoop.MarketLedger.RunTick: takes arbitrary bids, which include the coordinator's own (`resolve_bidder_params`, bid sets); `build_decision_plan_from_selection` and the writing of files are not modelled.
- MarketRuns.TickSucceedsIff: says nothing about failures of the objective computation, of schemas or of files.
- PolicyArbiter.SelectPolicyProposal: numbers of a cost model, trace or proposal cost are typed as integers; the schema of decision plans and the number read from hexadecimal digits are function parameters.
- Hygiene.UnusedFraction: is a real number, without floating-point rounding; run-level means and percentiles of the report are not modelled.
- HarvestReplay.CachedHarvestReplays: assumes a provider and model without surrounding spaces, as `from_path` and the model checks leave them; nobody else writes the cache between calls, and a foreign log line arrives whole.
- Hypotheses on hashes: `ArbiterLaws.TieDependsOnOrder`, `ArbiterLaws.OrderIndependentIff`, `ArbiterLaws.OrderIndependentByContent`, `ArbiterLaws.ReceiptPassesItsCheck` and the bundle laws assume well-formed hashes, `OrderIndependentByContent` also that the given proposals do not collide; `HarvestReplay` laws and `PolicyTableLaws.AcceptedById` assume injective ones.
- JSON schemas beyond what the source itself checks, canonical JSON, hash computation, file and directory reading and writing.
- Live requests, retries, environment variables, the logger, the Mock, MLX and single-file replay backends, `from_path` validation.
- Descriptors, embedding configuration and keys, codebook and Merkle roots of the vision producers; the embedding key is a function parameter.
- The verifier's directory checks, command-line entry points, mutator campaigns, scripts under `scripts/`.
