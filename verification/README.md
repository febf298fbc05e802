# Verified model of the validator, the gateway and their protocol

A Dafny model of four parts of the system, and proofs about it.

- **The daily round.** Block heights, epochs, windows and labels; the decision of what a round does
  next and when to look again; the driver's tick over the round store and the chain, with the five
  steps it runs; the gated round document; the in-memory chain with its overwritten commitment slot
  and its archive. The central objects are `Driver.After`, the world after any list of ticks and
  chain advances, and `DriverLoop.RoundDriver`, the same loop over a chain object and a store object
  that it updates in place. A step may return, raise, or lose its process, before or after what it
  writes outside the store.
- **Metered spending.** The gateway's ledger of reservations, the adapter's retry loop and receipt,
  the hash-chained receipt, and the demo service's queue and daily allowance.
- **Exact allocation and dealing.** The cap-and-redistribute loop and the weight vector, integer
  quantiles and weighted means, the seeded shuffle, the slot plan.
- **Codecs and worklists.** The commitment wire format and its storage in chain fields, the scanner
  that finds a JSON structure in a reply (against the grammar of RFC 8259), the reachability closure.

Each module has a specification as functions on values, lemmas about it, and, where the program
updates something in place, a class or a method whose contract ties every new state to that
specification. `dafny verify dfyconfig.toml` checks all of it.

## How the files correspond

| file | models |
|---|---|
| `Wrappers.dfy`, `Sums.dfy`, `Text.dfy`, `Names.dfy` | shared: results, totals over maps, string operations, declared counts and their listing order |
| `Cycle.dfy`, `Scheduler.dfy`, `Rounds.dfy`, `Chain.dfy` | `validator/cycle.py`, `validator/scheduler.py`, `validator/roundstate.py`, `FakeChain` of `chain/client.py` |
| `Driver.dfy` | one tick: `validator/driver.py` and the step methods of `validator/__main__.py` |
| `DriverRuns.dfy`, `DriverPeers.dfy`, `DriverCompletion.dfy` | what every run keeps, what a peer can verify, and which runs complete a round |
| `DriverLoop.dfy` | the driver object |
| `Metering.dfy`, `Receipts.dfy`, `Adapter.dfy`, `Demo.dfy` | `gateway/metering.py`, `protocol/receipts.py`, `gateway/adapters/openrouter.py`, `demo/service.py` |
| `FixedPoint.dfy`, `Weights.dfy`, `Seeds.dfy`, `Taxonomy.dfy` | `protocol/fixedpoint.py`, `validator/weights.py`, `protocol/seeds.py`, `validator/challenge_factory/taxonomy.py` |
| `Commitments.dfy`, `JsonScan.dfy`, `Reachability.dfy` | `protocol/commitments.py` with the chunking of `chain/client.py`, `validator/model_client.py` and `miner/reference/template.py`, `tools/reachability.py` |

## Where the code and its documentation differ

The model follows the code; each difference is stated as a lemma.

- A breach of a run's ceiling is said to be "bounded to a single call" (`gateway/metering.py:280`).
  Calls already holding reservations can all overshoot. For an account within its ceiling the breach
  is one call's own, whatever is then charged, if and only if at most one call is in flight:
  `Metering.BreachIsOneCallsExactly`; `Metering.TwoCallsOvershoot` runs one such pair. What holds of
  every run is `Metering.SpendNeverPassesTheCeiling`, a factor that `Metering.CeilingIsReached` shows
  is tight.
- Steps are said to be attempted once per round (`validator/driver.py:25`). In every run a step is
  attempted once for each death of the process in it, and once more if the round is done with it:
  `DriverRuns.AttemptsAreDeathsAndOne`. A death leaves the store as it was, and the lost step is
  attempted again at a height if and only if its window holds the height:
  `DriverRuns.LostIsTriedAgainExactly`. So a death between publishing a salt and saving the round can
  be followed by a second salt for it: `DriverRuns.DeathRepeatsTheStep`.
- `live_rounds` is said to give every round whose window contains the block, at most two "for any
  sane config" (`validator/cycle.py:272-277`). It does exactly when the reveal is at most one epoch
  after the opening, which `assert_ordering` does not check: `Cycle.LiveRoundsExact`. What is proved
  of runs does not need it.
- Labels are said to sort in chronological order (`validator/cycle.py:306-307`), and rounds are keyed
  by them. They do exactly when an epoch lasts at least an hour, also unchecked:
  `Cycle.LabelsIncrease`, `Cycle.LabelsDistinct`.
- The first balanced structure is not always the first in the text: an object anywhere wins over an
  array before it, so an array of objects is cut down to its first object (`JsonScan.ArrayOfObjectsIsCut`),
  and a truncated object yields an array that arrived whole inside it
  (`JsonScan.TruncatedObjectYieldsItsArray`) or a bracketed part of one of its strings
  (`JsonScan.StringIsTakenForAnArray`). It yields nothing if and only if nothing closes from the
  first opening bracket: `JsonScan.TruncatedObjectExactly`.
- A definition that shares its qualified name with a later one is reached, but what only it refers to
  is not: `Reachability.OverwrittenReferencesAreLost`. Nothing is lost, for any entry points, if and
  only if what each such definition refers to is in every closed set that holds its name:
  `Reachability.NothingIsLostExactly`.

## Assumed of what is outside

Digests, HMAC blocks and the salt's commitment are functions passed in, with or without their
algorithm in front of the digest; where a result needs them not to collide it says so. The softmax is any function giving non-negative floors of shares of one whole
in the order of the scores (`Weights.SoftmaxLike`). A label's text is any injective rendering of a
day or an hour. Money is `real`. Random salts, packs, laboratory results, scores, provider replies,
clock readings and failures are inputs of the events, and so is whether the chain can be reached. Block heights of ticks are arbitrary in
`DriverRuns`; in `DriverPeers` they are the chain's head, as the loop makes them, because a write
decided at a stale height may land outside its window.

## Model

| member | source | states |
|---|---|---|
| Cycle.LiveRoundsShape | validator/cycle.py:271-286 | at every height one or two rounds are live, and the current epoch's is always the first |
| Cycle.LiveRoundsExact | validator/cycle.py:271-286 | the live rounds are exactly the indices whose window contains the block, for every block, if and only if the reveal is at most one epoch after the opening |
| Cycle.LiveIffInWindow | validator/cycle.py:248-286 | under that condition, index by index |
| Cycle.OneRoundBeforeReveal | validator/cycle.py:258-286 | two different rounds are never both between opening and reveal at one height, if and only if the reveal is at most one epoch after the opening |
| Cycle.LiveBeforeReveal | validator/cycle.py:271-286 | of the live rounds exactly the next epoch's is before its reveal, for every configuration |
| Cycle.LabelsIncrease | validator/cycle.py:296-330 | labels strictly increase with the epoch index if and only if an epoch has at least 300 blocks |
| Cycle.LabelsDistinct | validator/cycle.py:303-330 | no two rounds share a label, hence a store key, if and only if an epoch has at least 300 blocks |
| Cycle.ShortEpochsCollide | validator/cycle.py:303-330 | below 300 blocks the anchor's round and the next have one label |
| Scheduler.DecidePrefix | validator/scheduler.py:214-244 | with the first steps of the order done, the next step's window alone decides, and how |
| Scheduler.DecisionLater | validator/scheduler.py:214-244 | progress fixed, a waiting round first runs exactly when its window opens; an abandoned or complete one never runs |
| Scheduler.WaitingRoundWakes | validator/scheduler.py:266-274 | the wake height of a waiting round is the first height at which it is runnable |
| Scheduler.NextWakeBlock | validator/scheduler.py:247-277 | the result is the least height at which a live round would run a step with progress fixed, and None exactly when there is none |
| Scheduler.ClosedRoundRunsNothing | validator/scheduler.py:214-244 | outside its windows a round runs nothing, whatever it has done |
| Scheduler.EarliestOverAllRounds | validator/scheduler.py:247-277 | over all rounds, whatever becomes runnable does so on a live round or no earlier than the next opening, for every configuration; a new round is runnable at its opening |
| Scheduler.NextOpeningIsAhead | validator/scheduler.py:247-277 | the opening of the next round not looked at lies ahead at every height if and only if the reveal is at most one epoch after the opening |
| Scheduler.WakeMissesTheNextOpening | validator/scheduler.py:259-261 | with the live rounds finished the wake height is absent although a later round becomes runnable |
| Rounds.PhaseOfName | validator/roundstate.py:166-176 | a phase is read back from its name and from no other |
| Rounds.Recovery | validator/roundstate.py:241-302 | a state is written exactly when its phase is known, and is then recovered whole from its record |
| Rounds.PublicTellsExactly | validator/roundstate.py:182-239 | two states publish the same document if and only if they agree on everything but the problems, the salt and the last write, and on the problems too once disclosed |
| Rounds.PublicRecovery | validator/roundstate.py:182-239 | what can be recovered from the public document lacks the salt always and the problems before disclosure |
| Rounds.InMemoryRoundStore.Write | validator/roundstate.py:329-331 | both documents of the round are replaced, of no other, or nothing when the phase is not known |
| Rounds.InMemoryRoundStore.Read | validator/roundstate.py:333-335 | the state last written under the label |
| Rounds.InMemoryRoundStore.ReadPublic | validator/roundstate.py:337-338 | the gated view of the state last written |
| Chain.NearestIsLatest | chain/client.py:864-868 | the record found for a height is the latest of those not after it |
| Chain.PastIsSettled | chain/client.py:861-897 | whatever is written later, the archive answers the same for a past height |
| Chain.PassedHeightsHoldTheLive | chain/client.py:819-822 | heights passed over show what was live when they were passed |
| Chain.OverwrittenIsStillSeen | chain/client.py:861-897 | a commitment overwritten in a later block is still shown at its own height after any run |
| Chain.SameBlockHidesTheFirst | chain/client.py:890-897 | of two written in one block the first leaves no trace |
| Chain.FakeChain.AdvanceBy | chain/client.py:819-822 | records the head and moves it |
| Chain.FakeChain.PublishCommitment | chain/client.py:890-897 | overwrites the one slot, records it at the head, or refuses |
| Chain.FakeChain.BlockHash | chain/client.py:844-859 | given only for heights below the head |
| Chain.ListingIsByUid | chain/client.py:870-888 | a listing is by strictly increasing uid, each entry a registered hotkey's own slot under that hotkey's uid |
| Chain.ListingIsWhole | chain/client.py:870-888 | no registered hotkey with a slot is left out of a listing |
| Chain.EntryIsTheSlot | chain/client.py:870-888 | what a view gives under a hotkey is its slot, if it is registered and has one, and else nothing |
| Chain.FakeChain.Register | chain/client.py:824-834 | one more neuron, its uid the number before it |
| Chain.FakeChain.CurrentView | chain/client.py:841-888 | the head, the neurons and the live slots' listing, or refuses |
| Chain.FakeChain.ViewAt | chain/client.py:861-888 | the height, the neurons and the listing of the slots as of the nearest record, or refuses |
| Chain.FakeChain.SubmitWeights | chain/client.py:899-906 | the three refusals, or one more submission |
| Driver.DonePrefix | validator/driver.py:364-382 | the recorded names of the first steps parse to exactly those steps |
| Driver.StepOfName | validator/driver.py:364-382 | a step is read back from its name and from no other |
| DriverRuns.StepsKeep | validator/__main__.py:815-913 | a step keeps date, recorded steps, phase; only generation brings problems in and only the first step a salt |
| DriverRuns.ChosenFits | validator/driver.py:204-237 | an advance runs only the next step of the order and only inside its window, and never meets an unknown name |
| DriverRuns.AdvanceOutside | validator/driver.py:204-235 | nothing changes before a window opens, when complete or given up; past its close the round is given up as late, and only then |
| DriverRuns.DueIsAttempted | validator/driver.py:237-285 | inside the window the next step is attempted, and its outcome is what the advance leaves |
| DriverRuns.ReturnedIsRecorded | validator/driver.py:273-285 | a due step that returns is recorded at this height, its writes on the chain |
| DriverRuns.RaisedEndsTheRound | validator/driver.py:261-271 | a due step that refuses or raises ends the round and not the process |
| DriverRuns.AdvanceLeavesOthers | validator/driver.py:204-285 | advancing one round changes nothing of any other round's record |
| DriverRuns.AlwaysOk | validator/driver.py:153-285 | in every run each round's recorded steps are the first few of the order, each decided inside its own window of that round, and its phase is that of its last decision |
| DriverRuns.AlwaysLive | validator/driver.py:153-164 | in every run a step of a round is recorded only at a height at which the round is live |
| DriverRuns.DecisionsIncrease | validator/driver.py:239-285 | the decision heights of a round strictly increase, whatever the tick heights were |
| DriverRuns.StepsDoneDistinct | validator/driver.py:276-285 | in every reachable store the recorded steps are a duplicate-free prefix |
| DriverRuns.GivenUpForEver | validator/driver.py:209-212 | from any reachable point on, an abandoned round stays exactly as it was |
| DriverRuns.DisclosureIsLate | validator/roundstate.py:178-239 | in every reachable store the public document has problems if and only if scoring is recorded, and scoring was decided at or past execution close |
| DriverRuns.DisclosedWhenScored | validator/driver.py:276-285 | the saved phase discloses exactly when four steps are recorded |
| DriverRuns.AttemptsAreDeathsAndOne | validator/driver.py:25-34 | in every run each step of each round has been attempted once for every death in it and once more if the round is done with it; attempts come in the order of the steps |
| DriverRuns.AttemptedOnce | validator/driver.py:25-34 | with no death inside a step, every step is attempted once if the round is done with it and not at all otherwise |
| DriverRuns.AttemptIsInside | validator/driver.py:204-237 | a round not given up attempts its next step exactly when the height is in the step's window |
| DriverRuns.DeathLeavesTheStore | validator/driver.py:239-285 | a death inside a step leaves the store and the record of decisions as they were |
| DriverRuns.LostIsTriedAgainExactly | validator/driver.py:204-285 | after it the same step is attempted again by an advance if and only if the height is in its window, whatever happened to the chain in between |
| DriverRuns.SaltAttempt | validator/__main__.py:815-829 | what an attempt at the first step publishes, and that a death leaves the store as it was |
| DriverRuns.DeathRepeatsTheStep | validator/driver.py:256-285 | after a death between publishing and saving, an advance inside the window at any later head publishes a second salt for the round, and the second is the one recorded |
| DriverPeers.LabelFindsTheRound | validator/__main__.py:843-847 | generation finds by label the round the driver is advancing |
| DriverPeers.RandomnessIsPast | validator/__main__.py:848-853 | inside the generation window the randomness block is below the height |
| DriverPeers.AlwaysSeen | validator/__main__.py:815-881 | in every run at the head, each recorded salt and pack is in the archive at its step's height |
| DriverPeers.OthersStaySeen | chain/client.py:890-897 | no other live round's write ever hides a recorded commitment |
| DriverPeers.PeersCanVerify | protocol/commitments.py:269-303 | every round with a recorded salt and pack passes a peer's check on its views at the two heights if and only if the views list the hotkey: the salt reads back, the pack carries it, the timing check passes; and the randomness lies strictly between |
| DriverPeers.SeedIsAvailable | validator/__main__.py:396-412 | when generation is due the seed input is refused if and only if the chain cannot be reached or the setting refuses it: a missing label, hotkey or hash, or a field too long |
| DriverCompletion.EventMoves | validator/driver.py:153-285 | whatever the event, a round moves as its own part of it says: by one step, given up, or not at all |
| DriverCompletion.CompletesExactly | validator/driver.py:153-285 | at heights that never fall a round ends with all five steps recorded and not given up if and only if none of its steps fails and each of its windows holds a tick that reaches it and survives its step |
| DriverCompletion.HeadsRise | validator/driver.py:291-311 | the ticks of the loop are at heights that never fall |
| DriverCompletion.LoopCompletesExactly | validator/driver.py:291-311 | so in every run of the loop that is exactly when a round is completed |
| DriverLoop.RoundDriver.LoadState | validator/driver.py:345-362 | the stored state or a fresh one |
| DriverLoop.RoundDriver.StepsOf | validator/driver.py:364-382 | the recorded steps, or none at the first unknown name |
| DriverLoop.RoundDriver.CommitSaltAt | validator/__main__.py:815-829 | publishes and returns exactly what the specification says, or leaves the chain alone, an unreachable one included |
| DriverLoop.RoundDriver.FindByLabel | validator/__main__.py:843-847 | the first live round with the label, else the current epoch |
| DriverLoop.RoundDriver.GenerateAt | validator/__main__.py:831-881 | as above, through every refusal in order |
| DriverLoop.RoundDriver.SubmitAt | validator/__main__.py:883-913 | refuses without standings, without a vector or when the chain refuses, else submits once |
| DriverLoop.RoundDriver.AdvanceAt | validator/driver.py:204-285 | one round's part of a tick, as specified, keeping the invariant |
| DriverLoop.RoundDriver.TickAt | validator/driver.py:153-164 | every live round by at most one step, in order, until the process dies |
| DriverLoop.RoundDriver.RunTicks | validator/driver.py:291-311 | the loop's effect is a run in which every tick is at the head, with the chain becoming unreachable or reachable at any point; it ends early only when the height cannot be read or the process dies |
| Metering.UsageWithinEstimate | gateway/metering.py:98-113 | usage within the reservation costs no more than it |
| Metering.NoDiscountForSplitting | gateway/metering.py:98-113 | splitting a call never makes it cheaper, and nothing used is free |
| Metering.SpendNeverPassesTheCeiling | gateway/metering.py:166-313 | in every interleaving, if no call costs more than m times its hold, spend stays within m times the ceiling and the counts within theirs |
| Metering.CeilingIsReached | gateway/metering.py:225-303 | the factor m cannot be lowered |
| Metering.BreachStopsReserving | gateway/metering.py:225-271 | past its ceiling a run reserves nothing more |
| Metering.BreachIsOneCallsExactly | gateway/metering.py:273-303 | an account within its ceiling exceeds it by no more than one call's own overshoot, whatever non-negative amounts settle its holds, if and only if at most one call is in flight |
| Metering.SettlingAll | gateway/metering.py:185-303 | settling the calls in flight in any order and closing returns what was settled before and all the charges |
| Metering.TwoCallsOvershoot | gateway/metering.py:225-303 | the ledger lets two calls be in flight that both overshoot |
| Metering.NoReservationTwice | gateway/metering.py:273-313 | a reservation taken off hold is never on hold again, across close and re-admission |
| Metering.NewIdIsUnused | gateway/metering.py:225-271 | a new reservation's id is held by no run |
| Metering.Ledger.Admit | gateway/metering.py:166-183 | the new books, as specified |
| Metering.Ledger.Close | gateway/metering.py:185-210 | the run is removed and its settled and outstanding total returned |
| Metering.Ledger.Remaining | gateway/metering.py:217-223 | what is left, never negative, and nothing above it can be reserved |
| Metering.Ledger.Reserve | gateway/metering.py:225-271 | the refusals in order, or one more hold under a fresh id |
| Metering.Ledger.Settle | gateway/metering.py:273-303 | charges and frees a hold once; refuses what is gone |
| Metering.Ledger.Release | gateway/metering.py:305-313 | frees a hold if it is there |
| Receipts.LinkBodyLosesNothing | protocol/receipts.py:150-176 | no field of a call is left out of its link |
| Receipts.VerifyChain | protocol/receipts.py:183-203 | reports the first gap or broken link, and nothing exactly when the chain verifies |
| Receipts.SameHeadSameChain | protocol/receipts.py:178-203 | two verified chains with one head are the same call for call, unless two different bodies among their own links have one digest or one of those links is the chain's start |
| Receipts.SharesAddUp | protocol/receipts.py:258-274 | the accounts' shares add up to the total |
| Receipts.Receipt.Record | protocol/receipts.py:216-256 | appends exactly one call and keeps the chain verified, or refuses |
| Adapter.Attempt | gateway/adapters/openrouter.py:218-254 | the first reply that ends the call, all before it failures, within the attempts allowed |
| Adapter.ChargeWithinAttempts | gateway/adapters/openrouter.py:256-301 | with usage within the reservation a call is charged at most its estimate per attempt allowed |
| Adapter.AlwaysAgrees | gateway/adapters/openrouter.py:165-407 | along every interleaving the run's account and its receipt agree up to what was charged unrecorded |
| Adapter.ReceiptAgainstTotal | gateway/adapters/openrouter.py:201-378 | the receipt never exceeds the total that closing returns, and equals it if and only if nothing was charged unrecorded and no positive hold leaked |
| Adapter.AdmittedAgrees | gateway/metering.py:166-183 | a run just admitted with an empty receipt agrees |
| Adapter.LateEndChangesNothing | gateway/metering.py:273-313 | a call ending after its run was closed changes neither ledger nor receipt |
| Adapter.AttemptsTimesTheCeiling | gateway/adapters/openrouter.py:282-301 | with measurable usage a run never spends more than the attempts allowed times its ceiling |
| Adapter.OpenRouterAdapter.BeginCall | gateway/adapters/openrouter.py:197-201 | reserves the estimate or changes nothing |
| Adapter.OpenRouterAdapter.SettleAndRecord | gateway/adapters/openrouter.py:256-271 | settles, then records; what is settled and cannot be recorded is counted |
| Adapter.OpenRouterAdapter.EndCall | gateway/adapters/openrouter.py:218-301 | settles or releases and records as specified for every ending |
| Adapter.OpenRouterAdapter.ApplyEffect | gateway/adapters/openrouter.py:282-297 | the reservation leaves flight and exactly its effect reaches ledger and receipt |
| Adapter.OpenRouterAdapter.MakeCall | gateway/adapters/openrouter.py:197-301 | reserve, attempt, settle and record amount to one whole call |
| Adapter.OpenRouterAdapter.SearchWeb | gateway/adapters/openrouter.py:303-378 | refused without funding, else one attempt at the flat price, charged either way |
| Adapter.OpenRouterAdapter.Complete | gateway/adapters/openrouter.py:165-301 | the refusals exactly when due, else one whole call as specified |
| Demo.AlwaysCounted | demo/service.py:299-317 | in every interleaving the counter is the number suspended before running, within the queue's bound, and free, promised and used slots add up |
| Demo.ClampNeverFires | demo/service.py:305-317 | the clamp at zero never changes the counter |
| Demo.AlwaysCovered | demo/service.py:173-180 | charges so far plus all that is in flight stay within the allowance less one cap plus a full house |
| Demo.EveryDayIsBounded | demo/service.py:288-317 | on every calendar day of every run, across rollovers |
| Demo.OvershootIsAllButOne | demo/service.py:288-317 | with runs within their cap the day exceeds the allowance by at most all but one of them |
| Demo.BoundIsReached | demo/service.py:288-317 | for every run cap up to the daily allowance, a queue and any positive charge a run, some day of such runs reaches the bound exactly |
| Demo.NoCapNoBudget | demo/service.py:293-298 | without a positive run cap nothing is refused on budget, and only then |
| Demo.SpentIsTheDaysCharges | demo/service.py:173-180 | the counter is what was charged on its day |
| Demo.DemoService.Enter | demo/service.py:293-313 | the refusals in order, or running or queued |
| Demo.DemoService.CancelWaiting | demo/service.py:316-317 | a cancelled request is counted out once and gives back a slot it was promised |
| Demo.DemoService.Leave | demo/service.py:312-317 | a finished run is charged, its slot returned, the counter unchanged |
| FixedPoint.QuantileIgnoresOrder | protocol/fixedpoint.py:140-167 | values in another order have the same quantile |
| FixedPoint.QuantileInRange | protocol/fixedpoint.py:140-167 | between the least and greatest value, and equal to them at the ends |
| FixedPoint.QuantileMonotone | protocol/fixedpoint.py:140-167 | raising any values or the position never lowers it |
| FixedPoint.SortDominates | protocol/fixedpoint.py:157-157 | sorting keeps pointwise dominance |
| FixedPoint.OmittedIsNotZero | protocol/fixedpoint.py:105-130 | the mean of the criteria present lies within them, whatever was left out |
| Weights.CapAndRedistribute | validator/weights.py:229-276 | within its passes everything ends at or below the cap, the order kept, the total not increased, the uncapped not lowered, the loss bounded |
| Weights.OverIsNew | validator/weights.py:246-253 | each pass that is not the last caps somebody new |
| Weights.CapAppliesWhenItFits | validator/weights.py:214-226 | the declared cap is applied exactly when n times it reaches one whole |
| Weights.ShareOut | validator/weights.py:342-345 | on shares of at most one whole not everybody is capped, and the rounding loss is at most (n-1)(n-2)/2 |
| Weights.WhoQualifies | validator/weights.py:110-131 | exactly those with gates passed, artifacts, enough challenges and a score above the floor |
| Weights.VectorInRange | validator/weights.py:347-350 | the u16 vector is in range and sums to at most 65535 |
| Weights.Screen | validator/weights.py:292-300 | every candidate is qualified or excluded, and for a reason of its own |
| Weights.Allocate | validator/weights.py:279-354 | burn, one capped share, or a settled redistribution paid in the order of scores, by how many qualify |
| Weights.AllocateOne | validator/weights.py:319-340 | the qualifier gets the cap and the burn uid the rest |
| Weights.AllocateMany | validator/weights.py:342-354 | nobody outscored is paid more; uncapped qualifiers keep at least their share |
| Names.PoolIgnoresListing | protocol/seeds.py:178-187 | the pool depends on the declared counts, not on their listing |
| Seeds.PrefixedInjective | protocol/seeds.py:154-158 | no two lists of fields are laid out as the same bytes |
| Seeds.SeedBindsItsInputs | protocol/seeds.py:113-159 | one seed input means one date, hotkey, salt, block hash and commitment |
| Seeds.SeededStream.Next | protocol/seeds.py:209-224 | the next draw of the stream and no other |
| Seeds.ArrangePermutes | protocol/seeds.py:189-194 | the deal gives out exactly the pool |
| Seeds.ArrangeInjective | protocol/seeds.py:189-194 | on distinct items different choices deal differently |
| Seeds.ArrangeReaches | protocol/seeds.py:189-194 | every order of the pool is dealt under some choices |
| Seeds.Shuffle | protocol/seeds.py:189-194 | the in-place shuffle is that deal under the stream's draws |
| Seeds.SlotAssignments | protocol/seeds.py:162-194 | exactly the declared multiset of families, refused exactly when a count is not positive or nothing is declared |
| Seeds.SlotsIgnoreListing | protocol/seeds.py:178-194 | the deal does not depend on how the generators are listed |
| Taxonomy.NothingExcludedIsScheduled | validator/challenge_factory/taxonomy.py:109-150 | a valid taxonomy schedules only known, allowed domains |
| Taxonomy.DomainsFillThePack | validator/challenge_factory/taxonomy.py:109-150 | its pool of domains has one entry per challenge |
| Taxonomy.DealtDomains | validator/challenge_factory/taxonomy.py:194-212 | exactly the declared multiset of domains, dealt by the seed |
| Taxonomy.DealtFamilyHasCritic | validator/challenge_factory/taxonomy.py:153-191 | a dealt family always has a critic entry |
| Taxonomy.DeclaredFamilyIsDealt | protocol/seeds.py:178-194 | every family a generator declares is among the families dealt |
| Taxonomy.Plan | validator/challenge_factory/taxonomy.py:153-191 | succeeds if and only if something is declared, every count is positive, the totals are equal and no declared family lacks its critic; then both declared counts are met over the same slots, each deal by its own draws; each failure only for its reason |
| Commitments.ConstructValid | protocol/commitments.py:114-189 | what construction accepts it leaves as it is |
| Commitments.FieldsLackSeparator | protocol/commitments.py:79-110 | no field of a valid commitment holds the separator |
| Commitments.Hex64DropsAlgorithm | protocol/commitments.py:96-110 | a digest with its algorithm in front is accepted as that digest |
| Commitments.StripText | protocol/commitments.py:214-224 | stripping a commitment's text strips its last field and nothing else |
| Commitments.TextReadsBack | protocol/commitments.py:202-266 | a valid commitment's text reads back as it with its last field trimmed, so as itself if and only if that field does not end in a space |
| Commitments.RoundTrip | protocol/commitments.py:202-266 | so does what is encoded within the budget |
| Commitments.DecodedIsClean | protocol/commitments.py:214-266 | what is decoded is valid and satisfies that condition |
| Commitments.ReencodeRoundTrip | protocol/commitments.py:202-266 | what was decoded and fits the budget reads back the same |
| Commitments.EncodeInjective | protocol/commitments.py:202-211 | two valid commitments of any kinds with one text are one |
| Commitments.ChunksConcat | chain/client.py:499-501 | the chunks put together are the payload |
| Commitments.CommitmentText | chain/client.py:740-770 | the joined text, or "" when a value is not hex or the bytes are no text |
| Commitments.StoredTextReadsBack | chain/client.py:740-770 | however the pieces are rendered, rejoining gives the text back |
| Commitments.ReadBack | chain/client.py:740-770 | commitment to fields and back, with the round trip's condition |
| JsonScan.ClosingIsFirst | validator/model_client.py:263-283 | the scan's end is the first position at which it closes |
| JsonScan.SpanIsShortest | validator/model_client.py:259-283 | what is found starts at the first opener and no shorter text closes |
| JsonScan.FindFirstStructure | validator/model_client.py:251-284 | the loop finds the specified span |
| JsonScan.PortfolioSpan | miner/reference/template.py:291-318 | the other copy finds the same span whenever there is a balanced object |
| JsonScan.ValuePassed | validator/model_client.py:263-283 | every well-formed JSON value is scanned through without closing or moving the depth |
| JsonScan.ObjectFound | validator/model_client.py:251-284 | for any prefix without an opening brace, any well-formed object and any suffix, exactly the object is found, by both programs |
| JsonScan.ArrayFound | validator/model_client.py:258-284 | an array is found if and only if no object closes in the text |
| JsonScan.ArrayOfObjectsIsCut | validator/model_client.py:258-284 | an array whose first item is an object is cut down to it |
| JsonScan.TruncatedObjectNotFound | validator/model_client.py:259-284 | an object cut off before its end is not found |
| JsonScan.TruncatedObjectExactly | validator/model_client.py:258-284 | a truncated object yields the array scan's span, whatever that is, and nothing if and only if nothing closes from the first opening bracket |
| JsonScan.TruncatedObjectYieldsABracket | validator/model_client.py:258-284 | any bracketed text that arrived whole, first of the opening brackets, is taken for the structure |
| JsonScan.TruncatedObjectYieldsItsArray | validator/model_client.py:258-284 | an array whole inside a truncated object, in particular |
| JsonScan.StringIsTakenForAnArray | validator/model_client.py:258-284 | or a bracketed part of a string, wherever after it the object is cut |
| JsonScan.NoteIsTakenForAnArray | validator/model_client.py:258-284 | a reference in a note, for one |
| Reachability.EnclosingIsNesting | tools/reachability.py:222-240 | the encloser of a name is exactly the prefix it was built on |
| Reachability.ChildTable | tools/reachability.py:247-251 | each definition's children, in order |
| Reachability.NamedRoots | tools/reachability.py:253-260 | the entry points that exist, and exactly those that do not |
| Reachability.Handlers | tools/reachability.py:262-263 | every registered handler and nothing else |
| Reachability.Roots | tools/reachability.py:253-263 | both together |
| Reachability.ExpandNames | tools/reachability.py:272-276 | every name not yet expanded puts its definitions on the frontier, and nothing else is put there |
| Reachability.Reachable | tools/reachability.py:243-278 | terminates with the least set that holds the roots and is closed under children and references |
| Reachability.LeastExists | tools/reachability.py:243-278 | every list of entry points has a least closed set |
| Reachability.NothingIsLostExactly | tools/reachability.py:243-278 | whatever the entry points, everything a listed definition of a reached name refers to is reached, if and only if what each overwritten definition refers to is in every closed set holding its name |
| Reachability.UniqueLosesNothing | tools/reachability.py:243-278 | in particular with unique names |
| Reachability.OverwrittenReferencesAreLost | tools/reachability.py:206-278 | a module defining one name twice fails that condition and loses what only the first refers to |

## Left out

- The Bittensor client, Redis stores, HTTP, Docker, archive extraction, name resolution and the web
  routes: the round store and the chain are the in-memory ones.
- Digests, HMAC, the salt commitment and the CBOR encoding are functions passed in.
- The floating-point softmax and its overflow check; it is assumed to give ordered floors.
- Judging, criteria, gates, daily and rolling scores, the sandbox, and how `execute` and `score`
  arrive at what they record: their results are inputs of the step.
- Generation of a pack from its seed, and the pack store: the pack is an input, and what the step
  writes to that store before a failure is not kept.
- `preview`, and how long the loop sleeps between ticks: any number of blocks.
- Python objects shared between dictionaries and states: documents are values here.
- `from_document` on values of other types than it wrote, which Python converts.
- `seal`/`unseal`, and of a neuron everything but its uid and hotkey.
- A real semaphore's order of waking: any order is allowed.
- `int()` on digits outside ASCII, and lower-casing outside ASCII, in `decode` and `_hex64`.
- `json.loads` after the span is found, and what is stripped around it before.
- `mean_ppm`, `mul_ppm`, `clamp_ppm`, `to_ppm` and receipt reconciliation: one-line arithmetic.
- Reading Python sources into the two tables of `reachable`.
- DriverPeers.PeersCanVerify: only for ticks at the chain's head.
