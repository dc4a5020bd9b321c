# Rail events, from poll to subscriber: a verified model

cexyrouter polls exchanges for their deposit and withdraw rails (one rail per exchange, coin and chain),
keeps a table of rails, and publishes an event when a rail really changes. This project models that path
and proves what it promises:

- **The diff engine** (`internal/diff`): per rail a state machine with a baseline, a debounced status, a
  persisted missing counter, delisting and relisting. `RailTypes` holds the values, `RailMachine` the
  machine of one key (`React`), what the store and the log do with its answer (`Advance`) and whole histories
  (`Run`). `DiffEngine` is the engine as it is, a class with two pending maps that its methods update in place.
- **Whole histories of one key**: `RailInvariant` (what every reachable state satisfies), `RailHistory`
  (debounce, baseline and delisting told over windows of the history instead of counters), `RailData` (what a
  stored rail says about the venue), `RailEvents` (how often the event log speaks, in which order, and that it
  is enough to rebuild the rail), `RailConvergence` (how many polls settle a rail).
- **One poll** (`PollDiff`, `PollSafety`, `PollOrder`, `RailTable`): a multi-key diff is the product of its keys'
  machines, can be written as one batch, and does not depend on the order of its inputs.
- **The whole system** (`Ingestion`, `Interleaving`, `SystemRuns`, `Runner`, `Merging`): one engine, one rails table
  and one log. A cycle is three atomic moves: it loads its exchange's rails, diffs a poll under the engine's mutex,
  and commits. `Interleaving` lets the cycles of all exchanges overlap in any way, with restarts at any point that
  drop what is in flight, and shows every such run serial to each exchange; `SystemRuns` carries the promises of
  single keys over to it. `Ingestion` is the serial case, which one uninterrupted cycle of the runner follows, after
  merging the snapshots that name the same rail.
- **Alias resolution** (`Resolver`, `Naming`, `Text`): a resolver with four caches, hydrated rows and deferred writes
  answers like one that looks everything up and writes at once; `Naming` says on the catalog alone what that one
  answers. `Settling` joins it to the rest: from what a venue keeps answering to settled rails.
- **Event delivery** (`EventFilters`, `Dispatcher`, `Backfill`): filters and their normal forms, bounded channels
  that drop slow clients, and paging through the log from a cursor.
- **The token bucket** (`Limiter`) in front of the Binance adapter.

Conventions: a pointer is an `Option`, a decimal is a `real`, a time is a whole number of nanoseconds whose zero is
the program's zero time, an error return is a datatype, and anything the program iterates over in map order is
taken in arbitrary order.

`Skipped` is a poll that says nothing about a key (a partial poll that does not name it, or a poll of another
exchange), `Missed` an absence from a complete poll, `Restarted` a new process with empty pending maps.

Three places where the code does something a reader may not expect; the model follows the code:

- A rail delisted while it is still initial records no event. It can become settled while inactive, and then its
  first listing event is a relist (`RailEvents.EventsAlternate` allows either to come first).
- A cycle loads only its own exchange's rails, so a report of another exchange's settled rail resets that rail
  without an event. `SystemRuns.ForeignReportsReset` says exactly what happens; statements about an exchange in whole
  runs suppose that no other exchange's poll names its rails. Every adapter reports its own constant slug
  (for instance `internal/adapters/gate/gate.go:175`), so polls of the adapters as they are do not.
- The backfill query compares stored slugs as they are while live matching trims and lower-cases them.
  `EventFilters.PageSelectsCleanMatches` and `Backfill.BackfillIsLiveExactlyWhenClean` say exactly when they agree.

The main results, of which the other rows are parts:

- one key: `RailEvents.EventsAreExact`, `RailData.OffTimesTellTheStretch`, `RailHistory.DebounceIsExact`,
  `RailHistory.BaselineIsExactAndSilent`, `RailHistory.DelistingIsExact`, `RailEvents.FlappingIsBounded`,
  `RailEvents.EventsAlternate`, `RailEvents.LogIsFaithful`,
  `RailConvergence.SettlesExactly`, `RailConvergence.Converges`, `RailConvergence.BoundIsTight`
- one poll: `PollDiff.ProcessIsPointwise`, `PollSafety.DiffIsSafeToApply`, `PollOrder.ObservationOrderIsIrrelevant`,
  `DiffEngine.Engine.Diff`, `Merging.ObservationTellsTheSnapshots`, `Runner.Runner.RunAdapter`
- every interleaving: `Interleaving.InterleavingIsSerial`, `Interleaving.ExchangesDoNotInterfere`,
  `SystemRuns.EveryRunKeepsItsPromises`, `SystemRuns.EveryRunDebounces`, `SystemRuns.EveryWriteIsSafe`,
  `Settling.SameAnswersSettle`
- alias resolution: `Resolver.ResolvePoll`, `Naming.EverySnapshotIsNamed`, `Resolver.FinalAliasesExplainAPoll`,
  `Settling.LaterPollsRepeat`
- delivery: `Dispatcher.ServedExactlyWhileKeepingUp`, `Dispatcher.Dispatcher.DeliveryIsGapFree`,
  `Dispatcher.PublishIsOneStep`, `Backfill.BackfillSince`, `Backfill.BackfillIsLiveExactlyWhenClean`,
  `EventFilters.MatchMeansAsked`
- the token bucket: `Limiter.BalanceIsExact`, `Limiter.GrantsAreBounded`, `Limiter.FitsExactlyWhenDue`,
  `Limiter.WeightedLimiter.WaitN`, `Limiter.OtherCallersStarve`

## Model

| member | source | states |
|---|---|---|
| RailTypes.SideOffStarted | internal/diff/engine.go:288-310 | a side that goes off, or is off without a time, gets the time given; one that stays off keeps its time; one that comes on, or was on without a time, has none |
| RailTypes.RailsEqual | internal/diff/engine.go:422-440 | the field-by-field comparison misses no field, so a mutation that is not written never loses a change |
| RailMachine.DefaultsAreKnown | internal/diff/engine.go:412-420 | positive thresholds are kept, and the others become three reports and six absences |
| RailInvariant.AdvanceKeepsCoherent | internal/diff/engine.go:96-310 | every poll and every restart keeps the invariant: off-started times match the flags, the missing count stays below T while active, and pending entries belong to the right kind of rail with counts below N |
| RailInvariant.ReachableIsCoherent | internal/diff/engine.go:58-94 | that invariant holds after every history from an empty store |
| RailInvariant.RailsPersist | internal/diff/engine.go:137-163 | through every later history a rail keeps its ID and key, never disappears, and never becomes initial again |
| RailHistory.RunKeepsCounters | internal/diff/engine.go:172-198 | over every history the pending counters are the lengths of the streaks of equal reports, and the pending time is that of the streak's first report |
| RailHistory.DebounceIsExact | internal/diff/engine.go:172-198 | the committed pair changes exactly when the last N relevant signals are reports of one same other pair; absences and restarts break the window, polls that do not mention the key do not; a side that goes off is dated by the window's first report |
| RailHistory.DebounceHoldsAcrossRestarts | internal/diff/engine.go:24-28 | even counting across restarts, a pair is never committed without N reports of it in a row |
| RailHistory.BaselineIsExactAndSilent | internal/diff/engine.go:96-163 | an initial rail settles exactly at a non-insertion report that completes N equal ones in a row, and nothing is recorded up to and at that point |
| RailHistory.MissingCountTells | internal/diff/engine.go:215-222 | over every history, the stored missing count of an active rail is the number of absences since it was last heard of, restarts or not |
| RailHistory.DelistingIsExact | internal/diff/engine.go:215-234 | an active rail becomes inactive exactly when the last T things heard of it are absences from complete polls, at the time of the last one, restarts or not |
| RailData.LatestObservationIsStored | internal/diff/engine.go:253-286 | over every history, a key has a rail exactly when it was ever observed, and the rail carries the data of the last observation |
| RailData.OffTimesWereObserved | internal/diff/engine.go:288-310 | over every history, every off-started time is the time of an observation that reported that side off |
| RailData.OffTimesStay | internal/diff/engine.go:288-310 | a side that is off before and after a poll or a restart keeps the time it is off since |
| RailData.OffTimesTellTheStretch | internal/diff/engine.go:288-310 | over every history, the time a side is off since is the one it got when its current off stretch began: that of the first of the N confirming reports if the rail was settled then, else that of the report itself |
| RailEvents.SignalTells | internal/diff/engine.go:191-206 | what one signal adds to the log is what moved: one event for each side of a settled rail that changed, one listing event when activity changed, and none for an initial rail |
| RailEvents.FlappingIsPaidFor | internal/diff/engine.go:182-234 | over every history, N times the commits plus what is pending is at most the observations, and T times the delistings plus what is counted is at most the absences |
| RailEvents.FlappingIsBounded | internal/diff/engine.go:182-234 | so N times the polls that commit a change is at most the observations, each records at most one event per side, and T times the delist events is at most the absences |
| RailEvents.EventsAlternate | internal/diff/engine.go:191-250 | over every history, delist and relist events alternate and the last tells the active flag; within an active stretch the off and on events of each side alternate and the last tells the side |
| RailEvents.PriceEventsAreExact | internal/diff/engine.go:207-213 | over every history, a fee or minimum event is recorded exactly when an observation moves the fee, its type or percent, or the minimum of an active, settled rail |
| RailEvents.EventsAreExact | internal/diff/engine.go:165-340 | over every history, a poll appends exactly the events that tell what moved of a settled rail, in the order deposit, withdraw, fee, minimum, or else one listing event; each has the rail's ID and key, shows every field before and after, and has the time of the observation or of the absence |
| RailEvents.LogIsFaithful | internal/diff/types.go:116-133 | a subscriber that starts from the state at the baseline and takes over each After snapshot has the stored flags, off-started times, fees, minimum and active flag |
| RailConvergence.PollsComeCloser | internal/diff/engine.go:96-213 | each complete poll that repeats the same data brings a key exactly one poll closer to being settled, polls that do not mention it change nothing, and a settled key stays so silently |
| RailConvergence.SettlesExactly | internal/diff/engine.go:96-213 | complete polls with the same data settle a key exactly when there are as many as its state needs |
| RailConvergence.Converges | internal/diff/engine.go:96-250 | from every reachable state, N + 1 complete polls with the same data settle a key, whatever polls that do not mention it come between, and every further one keeps it settled and records nothing |
| RailConvergence.BoundIsTight | internal/diff/engine.go:147-153 | for every N and T a rail delisted while initial needs N + 1 such polls: it is settled exactly after more than N |
| Sequences.IncreasingIsUnique | internal/diff/engine.go:362-379 | keys have only one increasing order, so the order in which absent keys are handled does not depend on map order |
| PollDiff.ProcessIsPointwise | internal/diff/engine.go:58-94 | a diff of many keys does to each key exactly what the key's own machine answers: same pending entries, same mutation, same events in the same order |
| PollDiff.NotesSay | internal/diff/engine.go:69-91 | a poll says exactly one thing to each key: seen, with the observation's own time or else the poll's, if it is observed; missed if the poll is complete and the key is stored; else nothing |
| PollSafety.DiffIsSafeToApply | internal/diff/engine.go:331-349 | the result can be written as one batch: at most one mutation per key, inserts exactly for unknown keys, updates that really differ from the stored row, and every event backed by the mutation whose snapshots it carries and by a rail ID |
| PollSafety.DiffEventsAreDated | internal/diff/engine.go:381-386 | an event of a diff has the time of its key's observation, or the poll's if that has none; a delisting is of a key that a complete poll does not observe, at the poll's time |
| PollSafety.DiffStoresThePoll | internal/diff/engine.go:253-286 | once a diff is written, the row of every observation holds its amounts, fees, contract and time, and its flags too unless they wait for confirmation |
| PollOrder.ObservationOrderIsIrrelevant | internal/diff/engine.go:69-91 | permuting the observations changes neither the pending entries nor the table that is left; the result is a permutation of what the observations made, each key's events in order, followed by one and the same absent part |
| PollOrder.EventsComeInOrder | internal/diff/engine.go:68-91 | the events of a diff come in the order of the poll's observations, then those of the absent keys by exchange, coin and chain |
| DiffEngine.PreviousOrderIsIrrelevant | internal/diff/engine.go:351-360 | the order the stored rails come in does not matter |
| DiffEngine.RailsByKey | internal/diff/engine.go:351-360 | refuses stored rails exactly when two have the same key |
| DiffEngine.SortedAbsentKeys | internal/diff/engine.go:362-379 | returns the stored keys that were not seen, all of them, ordered by exchange, then coin, then chain |
| DiffEngine.Engine.constructor | internal/diff/engine.go:46-52 | a new engine keeps positive thresholds, takes three and six for the others, and has nothing pending |
| DiffEngine.Engine.InsertInitial | internal/diff/engine.go:96-112 | updates the maps and the result as the machine does for an unknown key |
| DiffEngine.Engine.HandleInitial | internal/diff/engine.go:137-163 | updates the maps and the result as the machine does for an initial rail |
| DiffEngine.Engine.HandleRelisted | internal/diff/engine.go:236-251 | updates the maps and the result as the machine does for a relisted rail |
| DiffEngine.Engine.HandleActive | internal/diff/engine.go:165-213 | updates the maps and the result as the machine does for a settled rail |
| DiffEngine.Engine.HandlePresent | internal/diff/engine.go:114-135 | updates the maps and the result as the machine does for an observed rail of any kind |
| DiffEngine.Engine.HandleAbsent | internal/diff/engine.go:215-234 | updates the maps and the result as the machine does for an absence |
| DiffEngine.Engine.Diff | internal/diff/engine.go:58-94 | succeeds exactly when no stored rail and no observation is repeated, and then has done to every key what its machine does; a repeated stored rail changes nothing, a repeated observation leaves the entries of the keys before it updated |
| RailTable.UpsertAt | internal/ingester/runner.go:597-617 | a batch that names a key at most once leaves its row as the mutation has it, with the row's own ID or a new one, and other rows alone |
| Ingestion.KeysOfAnExchangeRunAlone | internal/ingester/runner.go:188-216 | through its exchange's cycles and restarts, one after the other, each key's rail, pending entries and events are those of its own machine |
| Interleaving.SerialRunsAreInterleavings | internal/ingester/runner.go:53-104 | cycles that do not overlap are one of the interleavings |
| Interleaving.OtherMoveIsApart | internal/ingester/runner.go:259-269 | no move of another exchange's cycle changes an exchange's rails, pending entries, events or cycle in flight |
| Interleaving.InterleavingIsSerial | internal/ingester/runner.go:53-104 | in every interleaving of overlapping cycles and restarts, each exchange's rails, pending entries, ordered events and cycle in flight are those of its committed cycles run one after the other, and then its cycle in flight as far as it has come |
| Interleaving.EveryKeyRunsAlone | internal/ingester/runner.go:53-104 | in every interleaving, each key's stored rail and events are those of its own machine on the signals its exchange has committed, and with its pending entries, once the diff in flight is written, those of its machine on all the engine was told |
| Interleaving.ExchangesDoNotInterfere | internal/ingester/runner.go:259-269 | in every interleaving, each exchange's rails, pending entries, ordered events and cycle in flight are those of making its own moves alone |
| SystemRuns.EveryRunKeepsItsPromises | internal/ingester/runner.go:53-104 | in every interleaving every key satisfies the invariant, the alternation and the bounds on flapping, and has a log that rebuilds it |
| SystemRuns.EveryRunStoresTheLatest | internal/ingester/runner.go:53-104 | in every interleaving every rail carries the data of its key's last committed observation, and off-started times that were observed |
| SystemRuns.EveryRunDatesOffSides | internal/ingester/runner.go:53-104 | in every interleaving, a stored side that is off went off at some committed poll, has been off ever since, and is dated by what made it go off |
| SystemRuns.EveryRunDebounces | internal/ingester/runner.go:53-104 | in every interleaving, one more move of any exchange changes or delists a settled rail exactly as its own committed history says |
| SystemRuns.EveryRunSettlesBaselines | internal/ingester/runner.go:53-104 | in every interleaving, one more move settles an initial rail exactly when it commits a report that completes N equal ones in a row, and nothing is recorded up to then |
| SystemRuns.EveryRunRecordsMoves | internal/ingester/runner.go:53-104 | in every interleaving, one more move appends to a key's events exactly what its commit moved of a settled rail, shown whole before and after, at the time of the observation or absence |
| SystemRuns.EveryRunConverges | internal/ingester/runner.go:53-104 | in every interleaving, complete polls with the same data settle a key exactly when there are as many as its state needed, never more than N + 1, whatever other exchanges do between; a settled key stays so silently |
| SystemRuns.EveryWriteIsSafe | internal/ingester/runner.go:188-216 | however late a cycle writes what its diff made, it still fits its exchange's rows: one mutation per key, inserts of unknown keys, updates of the rows as they are, every event with a rail ID |
| SystemRuns.ForeignReportsReset | internal/ingester/runner.go:410-430 | a cycle leaves another exchange's key alone if it does not name it, and otherwise makes it initial again with what the poll says, under the row's ID, recording nothing; so a settled rail is left alone exactly when it is not named |
| Merging.MergeIsAssociative | internal/ingester/runner.go:352-373 | merging rails is associative |
| Merging.FoldMerges | internal/ingester/runner.go:352-408 | merging a group gives flags that are on exactly when any of them is, the least confirmations, minimum, fee and percent that any of them gives, the one fee type they agree on, or hybrid when they do not, and the latest time |
| Merging.MergeOrderIsIrrelevant | internal/ingester/runner.go:352-408 | everything merged but the contract address depends only on which snapshots were merged, not on their order |
| Merging.FirstKeysAreTheKeys | internal/ingester/runner.go:328-350 | the keys of the merged list are distinct and are exactly the keys of the input |
| Merging.MergeDuplicateRails | internal/ingester/runner.go:328-350 | one rail per key in order of first appearance, each the merge of all snapshots of its key |
| Merging.ObservationTellsTheSnapshots | internal/ingester/runner.go:300-408 | the observation made of a rail's snapshots has a side on exactly when any snapshot does, the least amounts given, the join of the fee types, or the fee type as written if there is but one snapshot, the first contract that is not blank, trimmed, and the latest time, or the current one when none has a time |
| Runner.MergedObservations | internal/ingester/runner.go:188-199 | the observations handed to the engine never repeat a key, so the engine's duplicate error cannot occur |
| Runner.Tables.LoadPreviousRails | internal/ingester/runner.go:410-480 | exactly the exchange's stored rails, each once, in arbitrary order |
| Runner.Tables.UpsertRails | internal/ingester/runner.go:487-634 | fails, writing nothing, exactly when a batch names a key twice; else writes every mutation, keeping the ID of a row that exists |
| Runner.Tables.InsertEvents | internal/ingester/runner.go:636-685 | fails, writing nothing, exactly when an event has no rail ID; else appends all events in order |
| Runner.Apply | internal/diff/apply.go:16-31 | writes rails before events, and no events if the rails fail |
| Runner.Runner.Diff | internal/ingester/runner.go:259-269 | runs the one shared engine, created with default options if there is none; succeeds exactly when nothing is repeated, and then and when it refuses does to entries and result what the specification of a diff says |
| Runner.Runner.RunAdapter | internal/ingester/runner.go:188-216 | a cycle that nothing interrupts always succeeds and moves rails, pending entries and log by exactly one step of the serial system, for the poll made of the merged snapshots |
| Runner.DiffCanBeWritten | internal/ingester/runner.go:597-645 | what a diff produces never hits a repeated conflict key or a missing rail ID, and leaves the table with its own keys and non-zero IDs |
| Resolver.ErrorsStop | internal/normalizer/resolver.go:220-232 | the first error of a poll is its answer, whatever comes after |
| Resolver.PollResolver.constructor | internal/normalizer/resolver.go:136-203 | hydrated with an exchange's ID and stored alias rows, a resolver stands where a plain one stands |
| Resolver.PollResolver.ResolveChain | internal/normalizer/resolver.go:347-424 | the same ID as the plain resolver, which then stands where this one does |
| Resolver.PollResolver.ResolveCoin | internal/normalizer/resolver.go:261-346 | the same ID as the plain resolver, which then stands where this one does |
| Resolver.PollResolver.Normalize | internal/normalizer/resolver.go:213-243 | for every sequence of snapshots the same rails, or the same first error, as the plain resolver |
| Resolver.PollResolver.FlushAliasUpserts | internal/ingester/runner.go:236-257 | after the flush the alias tables are the plain resolver's, with one upsert for each key it wrote |
| Resolver.ResolvePoll | internal/ingester/runner.go:166-221 | a poll resolved with hydration, caches and deferred writes, then flushed, gives the rails and leaves the tables of the plain resolver; on an error it gives the plain resolver's error and leaves every table as it was, no alias written |
| Resolver.FinalAliasesExplainAPoll | internal/normalizer/resolver.go:213-424 | every rail of a poll, early or late, has the IDs that the tables at its end give for its names; no alias changes; the aliases written are those of its chains and of the coins no contract identifies |
| Resolver.PollsRepeat | internal/normalizer/resolver.go:213-424 | the same snapshots resolved again, by a later resolver, get the same IDs, insert nothing and change no alias, so rail keys are stable from poll to poll |
| Naming.ContractsAreNormal | internal/normalizer/resolver.go:513-519 | a contract is taken without its outer spaces, without capital letters if it is hexadecimal, and otherwise as written |
| Naming.SnapshotIsNamed | internal/normalizer/resolver.go:261-424 | without an alias a chain is the one found by symbol or name, else the one its synonym names, and then nothing is inserted; else exactly one chain is, with that symbol, or the name for want of one; a known contract on a chain decides the coin, then the alias, then the coin found, then one inserted; a snapshot is refused exactly for a blank or unknown exchange, a chain without symbol and name, or a coin without symbol |
| Naming.EverySnapshotIsNamed | internal/normalizer/resolver.go:213-243 | in a resolved poll every snapshot is named in that way from the tables as those before it left them |
| Naming.PollsFailAtTheFirstRefusal | internal/normalizer/resolver.go:220-232 | a poll fails exactly with the error of the first snapshot that would be refused at its start |
| Naming.KnownPollsInsertNothing | internal/normalizer/resolver.go:347-424 | a poll whose chains and coins the tables all know inserts nothing |
| Settling.LaterPollsRepeat | internal/normalizer/resolver.go:213-424 | snapshots that differ from an earlier poll's at most in their times resolve, against any tables that still have that poll's aliases, to the same rails, and change no table |
| Settling.AnswersRepeat | internal/normalizer/resolver.go:213-424 | over any number of polls with the same answer, every poll succeeds, names the rails of the first and keeps its aliases |
| Settling.SameAnswersSettle | internal/ingester/runner.go:166-216 | in every interleaving, when a venue keeps answering the same snapshots, every rail they name is settled on their merge exactly after as many complete polls as its state needed, and so after N + 1 at most; a settled one stays so silently |
| Text.TrimIsBetween | internal/api/ws/filters.go:129-129 | trimming leaves the stretch between the leading and the trailing spaces |
| Text.BetweenIsUnique | internal/api/ws/filters.go:129-129 | and there is only one such stretch |
| Text.ToLowerMeans | internal/api/ws/filters.go:129-129 | lower-casing identifies exactly the strings that differ in the case of letters only |
| EventFilters.NormalizeSlugList | internal/api/ws/filters.go:122-140 | the distinct slugs of the values in order, an error exactly when a value is blank, and nil for nil |
| EventFilters.NormalizedListHoldsTheWords | internal/api/ws/filters.go:122-140 | a normalized list holds each word the client wrote once, trimmed and in lower case, in the order of first appearance, and no other |
| EventFilters.NormalizeSlugs | internal/exchanges/exchanges.go:34-48 | the distinct exchange slugs of the values in order, without blanks |
| EventFilters.NormalizeFilters | internal/api/ws/filters.go:80-95 | the normal form of the filters, or the error of the first field that has one |
| EventFilters.RefusalIsExact | internal/api/ws/filters.go:80-153 | filters are refused exactly when a value is blank or an event type is none of the eight, and the first field with a blank value is named, in the order exchange, coin, chain, event type, or else the first unsupported type |
| EventFilters.EventTypesAreTheKinds | internal/api/ws/filters.go:12-21 | the event types a filter may name are those the diff engine records |
| EventFilters.NormalFormsAreFixed | internal/api/ws/filters.go:80-95 | normalizing gives a normal form, and normal forms are exactly what it leaves alone, so the repeated normalizing of the socket's layers changes nothing |
| EventFilters.MatchMeansAsked | internal/api/ws/filters.go:108-113 | an event matches the normalized filters exactly when, in each field the client filters by, its value equals one that the client wrote, letter by letter up to case between their outer spaces, where every spelling of Gate.io stands for gate |
| EventFilters.PageSelectsCleanMatches | internal/api/ws/store.go:65-84 | the page filter selects an event exactly when it matches live and its stored values are trimmed and lower case where they are filtered |
| Backfill.DueIsExact | internal/api/ws/store.go:65-86 | what is due at a cursor is every selected row at a later time, or at its time with a larger ID, once, in increasing order |
| Backfill.DueIsTheRest | internal/api/ws/store.go:65-86 | what is due at a cursor is what the filters select of the rows of the log behind it |
| Backfill.DueBehindARow | internal/api/ws/store.go:65-86 | at the cursor of a row of a log that rises in time and ID, every selected row behind it is due, rows of the same time included |
| EventFilters.MatchNothingIsExact | internal/api/ws/filters.go:115-120 | the shortcut is taken exactly when the filters could select no event whatever |
| Backfill.NothingIsDue | internal/api/ws/filters.go:115-120 | when a filter has an empty list the shortcut answers what the query would have |
| Backfill.BackfillIsLiveExactlyWhenClean | internal/api/ws/store.go:65-84 | a backfill sends what live delivery would have sent exactly when every matching row after the cursor has clean values where it is filtered |
| Backfill.EventLog.Page | internal/api/ws/store.go:49-103 | a page is a prefix of what is due: all of it, or as many rows as a limit from 1 to 1000 says, else 1000; a bad filter is an error |
| Backfill.SendPage | internal/api/ws/store.go:118-123 | however a page's sending ends, what was sent and what is then due make up what was due |
| Backfill.BackfillSince | internal/api/ws/store.go:105-128 | it ends; whether it fails or not, what it sent followed by the selected rows of the log behind the returned cursor are the selected rows behind the given one; without an error there are none left |
| Dispatcher.DeliveryIsAPrefix | internal/api/ws/dispatcher.go:155-166 | in every interleaving, what was ever queued for a client is a prefix of the matching events since it subscribed, and all of them while its channel is open |
| Dispatcher.ServedExactlyWhileKeepingUp | internal/api/ws/dispatcher.go:155-166 | a client is served exactly until it cancels or a matching event finds its buffer full |
| Dispatcher.ClientsDoNotInterfere | internal/api/ws/dispatcher.go:155-166 | what a client sees depends only on its own steps and on the events it asked for |
| Dispatcher.OnceClosedAlwaysClosed | internal/api/ws/dispatcher.go:74-80 | a closed channel stays closed and nothing is queued on it any more |
| Dispatcher.Dispatcher.Subscribe | internal/api/ws/dispatcher.go:54-83 | bad filters change nothing; otherwise a new client with normalized filters, a new ID and an open empty channel |
| Dispatcher.Dispatcher.Cancel | internal/api/ws/dispatcher.go:74-81 | afterwards the client is not registered and its channel is closed, whatever happened before; every other client is as it should be |
| Dispatcher.Dispatcher.Receive | internal/api/ws/mount.go:126-136 | hands out the next queued event; a closed channel ends only when it is empty |
| Dispatcher.Dispatcher.Offer | internal/api/ws/dispatcher.go:155-165 | one client moves on by one step, and is removed exactly when its channel was closed |
| Dispatcher.PublishIsOneStep | internal/api/ws/dispatcher.go:143-167 | receives that fall between the offers of one publish leave every client as if those of clients not yet offered the event had come before the publish and the others after it, from every reachable state and for every order of offers and receives |
| Dispatcher.Dispatcher.Publish | internal/api/ws/dispatcher.go:143-167 | in whatever order the map is walked, every client ever subscribed has what the published event entitles it to; receives in between are those of `PublishIsOneStep` |
| Dispatcher.Dispatcher.DeliveryIsGapFree | internal/api/ws/dispatcher.go:54-167 | in every reachable state: gap-free prefixes for all, everything for the registered, and registered exactly when open, not cancelled and at every matching event fewer than 64 behind |
| Limiter.CallIsExact | internal/adapters/binance/binance.go:364-390 | a call is met if and only if the tokens held and brought back at the rate per second, as far as the capacity holds them, cover its weight, and takes exactly that |
| Limiter.BalanceIsExact | internal/adapters/binance/binance.go:364-390 | over every sequence of calls, the weight granted, the tokens left and what overflowed equal the tokens held at first plus the rate times the advance of the bucket's time |
| Limiter.GrantsArePaidFor | internal/adapters/binance/binance.go:364-390 | over every sequence of calls the tokens stay between zero and the capacity, the bucket's time never goes back, and what is granted is paid for |
| Limiter.GrantsAreBounded | internal/adapters/binance/binance.go:364-390 | over every stretch of calls the weight granted is at most the capacity plus the rate times the advance of the bucket's time |
| Limiter.FitsExactlyWhenDue | internal/adapters/binance/binance.go:371-383 | a refused request is met later exactly when what was missing has had time to come back |
| Limiter.SecondCallFitsExactly | internal/adapters/binance/binance.go:384-389 | a second call exactly after the wait asked for is met if and only if what was missing takes at most the shortest wait or a whole number of nanoseconds |
| Limiter.FitsAfterAnother | internal/adapters/binance/binance.go:364-390 | when another caller asks for any weight m just before, a request for n is met if and only if the refilled bucket has both, or has n but not m |
| Limiter.OtherCallersStarve | internal/adapters/binance/binance.go:364-390 | among several callers no number of calls suffices: for every weight up to the capacity, every bucket and every number of calls, each as late as one likes after the wait its last refusal asked for, there are requests of another caller, none above the capacity, that have all of them refused |
| Limiter.ClockBehindStarves | internal/adapters/binance/binance.go:371-383 | while the clock stays behind the bucket's time, calls that do not fit are all refused and leave the bucket as it is |
| Limiter.WeightedLimiter.Reserve | internal/adapters/binance/binance.go:364-390 | takes the weight exactly when the refilled bucket has it, and otherwise says how long the missing tokens take |
| Limiter.WeightedLimiter.WaitN | internal/adapters/binance/binance.go:331-362 | a sole caller whose clock does not go back is admitted within three calls unless cancelled, and one more for each shortest wait by which its clock starts behind the bucket's time; a weight that is not positive is free, one above the capacity is refused |
| Limiter.NewWeightedLimiter | internal/adapters/binance/binance.go:319-329 | nothing is limited exactly when the rate or the burst is not positive; otherwise the bucket starts full |

## Left out

- SQL text, row scanning and null wrappers: the tables are a map and a sequence, and what a column does to text, decimals or timestamps on the way (trimming, rounding to microseconds) is not captured.
- Integer widths: confirmations, IDs and counters are unbounded; the 32-bit range errors of the writer and the overflow of a wait into a 64-bit duration do not occur.
- Failed and rolled-back cycles: the engine's pending maps are not undone when a transaction fails after the diff; in a run every cycle that is diffed is committed, still in flight, or dropped by a restart.
- Nil receivers, nil stores, nil writers and a cancelled context inside the database calls.
- The IDs the rails table hands out are a fixed function of the key, never zero; a key is inserted at most once, so no ID is handed out twice for it.
- Rails are values in the engine where the program copies structs with pointers to optional fields; the copies the program makes so that snapshots do not share those pointers are not captured.
- One time per cycle: the poll's time stands also for snapshots without a time, which the program stamps with its own clock a moment earlier.
- What seeing an alias does to its last-seen time and to its confidence, which the plain resolver would raise each time it writes the alias and the real one once a poll (`internal/normalizer/sql_store.go:189-197`, `360-368`); and the slug, symbol and name that go with an ID.
- Contracts and chain synonyms are fixed functions during a poll; how canonical coins and chains are matched and inserted is an arbitrary function of their tables.
- `Runner.Runner.RunAdapter` starts from resolved snapshots, and the flush of aliases after the commit is `Resolver.ResolvePoll`'s; `Settling` joins resolution, merging and cycles as statements about runs, not as one method, and supposes the same contracts and chain synonyms in every poll.
- Two polls resolving aliases at the same time: each is compared with a plain resolver that has the tables to itself.
- Trimming and lower-casing are on ASCII.
- Events are their ID, time, slugs and type; summaries, snapshots and the encoding of cursors are not part of delivery here, nor is the lookup of events whose notification is incomplete.
- Reconnecting: the socket handler backfills before it subscribes, so events in between can be missed; the two results are separate.
- The goroutines and the semaphore of a polling round: loading an exchange's rails, a call of the engine, a commit and a call of the dispatcher are atomic, and an exchange has one cycle in flight at most, because a round names each exchange once and ends before the next begins.
- Rows that commit late with an earlier time while a backfill runs: the log does not change during one.
- Limiter.WeightedLimiter.WaitN: supposes a sole caller and a clock that does not go back while it waits, because without either no bound holds: other callers can have every call refused (`Limiter.OtherCallersStarve`), and so can a clock that stays behind (`Limiter.ClockBehindStarves`); the bound on what is granted supposes neither.
- Floating point: tokens and rates are reals, so rounding is not captured.
- Adapters, request signing, the Telegram bot, alert dispatch, REST handlers, configuration and migrations.
