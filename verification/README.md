# be-sdk-go: models and proofs

A Dafny model of the protocol logic of the be-sdk-go component kit, with proofs about all of its inputs
and all of its runs. `dafny verify dfyconfig.toml` verifies the whole project.

SQL tables are maps and sequences, a transaction body is one atomic step, and clocks, random nonces,
the network, other components and foreign callbacks are parameters or steps that may happen at any
time. A piece of code that updates things step by step is a class or a method with loops, proved equal
to a function; the theorems are then about that function and about every run built from it.

## What is modelled

**Watermarks and projections.** A source writes changes to an outbox and numbers the committed ones per
partition under a counter lock (`Numbering`). What one record's rows promise together is `SourceLog`.
A consumer folds inputs into a projection (`Receive`), pulls, applies positions contiguously, and now
and then re-fetches everything while the stream goes on. `Protocol` is the whole system of source and
consumer as atomic steps that interleave freely: inserts, commits and aborts in any order, numbering
batches, epoch changes, purges, recorded pulls, echoes, deliveries in any order and any number of times,
quarantines, generations that start, save P0, write pages and by-ID batches, are replaced, given up or
complete, and a consumer clock that may go back. `Freshness` is the invariant, `ConsumerSteps` shows that every
consumer transaction keeps it, `Watermark` states what follows for every run, and `Upkeep` is the code's
own loops and state in place. `Answers` says when a freshness answer is right, `Runs` builds runs step by
step, `PullRound` shows that the claim can always be made again and reaches the states the theorems speak
of from every installation, `AlignmentRace` shows each clause of the guard to be necessary, and
`SourceStates` is the alignment state table.

**Authorization and lists.** `Authz` has the three-valued evaluator and the compiler to SQL predicates;
`Sql` gives those predicates SQL's three-valued meaning, with LIKE and ESCAPE over character sequences;
`Chains` is the placeholder discipline they share. `Authorized` proves that compiled and evaluated
decisions agree. `Paging` is the keyset order, `ListQuery` and `ListBuild` build the statement, and
`Listed` puts it together: what following cursors returns, in the evaluator's terms. `ViewHolder` is the
member's held authorization view.

**Reservations.** `Reserve` is the transition table and the participant's commands over a ledger;
`Participant` its tables in place.

**External commands.** `ExternalCommand` is the step table and one run of the job, which may crash between
any two of its transactions and calls. `ExternalJob` is the job's control flow in place, `ExternalPair` two
runs of it at once.

**Redelivery.** `Progress` is the cut behind a subscription's progress, `Redelivery` the minimum over
subscriptions.

**Algorithms.** `Allocation` (largest remainder), `Canon` and `CanonWriter` (the canonical encoding after
RFC 8785, sections 3.2.2.2 and 3.2.3), `Durable` and `MemoryTransport` (the in-memory durable
subscription).

## Where the code does not do what one might expect

- The generation check of an alignment does not close three races, and the run theorems of `Watermark` hold
  on the runs without them (`Protocol.Guarded`). A row written while aligning before the generation's P0 is
  saved, from a page or from the stream past the P0 an earlier attempt left, and a page's row from a position
  at or below P0, let an alignment complete with a deletion missing; a completion after another epoch was
  adopted leaves changes of that epoch missing. From every state in which a generation waits for its P0 each
  of them does so with every other step guarded (`AlignmentRace.EarlyRowLosesADeletion`,
  `AlignmentRace.LatePageLosesADeletion`, `AlignmentRace.OtherIdentityLosesAChange`).
- One process does one pull or alignment at a time (projection/watermark.go:50, 598-599), so a page's row
  beside an alignment and an adoption beside one take a second loop on the same tables. In the runs of one
  loop every step is guarded if and only if the stream never writes past a P0 that an earlier attempt left
  (`AlignmentRace.OneLoopGuardsExactly`). That it may: every retry of an alignment that failed after saving
  its P0 begins with one left (`AlignmentRace.RetryLeavesP0`), and from every installation one loop alone
  comes to a completed alignment that misses a deletion (`PullRound.OneLoopLosesADeletion`).
- A generation started for an earlier identity keeps positions and marks of the later one, so marks are
  claims of an aligned source only (`AlignmentRace.EarlierIdentityOutdatesTheMark`); every installation
  comes to such a mark (`PullRound.MarkIsOutdated`).
- A consumer clock that goes back is noticed by the next recorded pull, not before. Until then any yes is made
  wrong by one commit (`Answers.ClockBackBreaksYes`). A yes is right as long as the clock has read no less
  than the time asked for since the pulls, and a right one stays right whatever the source commits next
  exactly when the clock reads no less now (`Answers.YesIsRight`, `Answers.RightStaysExactly`).
- A rollback recorded at a lower generation overwrites a higher one. Every way back to aligned exceeds all
  recorded generations if and only if none recorded before the latest is larger
  (`SourceStates.ExitExceedsAllExactly`).
- Numbering keeps its promises exactly when the declared epoch is not before the counter's
  (`Numbering.NumberOkExactly`); under one that was left it hands positions out again
  (`Numbering.ReturningEpochRepeats`).
- Evaluator and SQL differ on a tree item with an empty path, on an interval with an empty currency where the
  currency column is NULL, and on a list of values on an amount, where the evaluator compares texts and SQL
  numbers; the segment check lets all three through. `Authz.TreeAgreesExactly`, `Authz.IntervalAgreesExactly`,
  `Authz.IntervalComparableExactly` and `Authz.InAgreesExactly` say exactly when the two agree.
- Every transaction of an external command's run after its first writes what that run had read. With two
  runs at once, from every request on, a recorded first reach can move and a terminal state can be left
  (`ExternalPair.StaleRunMovesTheFirstReach`, `ExternalPair.StaleRunLeavesATerminalState`).
  `ExternalPair.KeepsExactly` says of every move, from whatever copy, exactly when it keeps either, and
  `ExternalPair.PairKeepsExactly` of every history of two runs; both last as long as no run writes from a
  copy the row has left behind (`ExternalPair.FreshPairsSettle`). The job is declared a singleton; the resend
  timing is stated of one run at a time.
- An unknown command past its resend deadline whose expiry or longest processing time is over never settles
  while queries find nothing: each round takes it to sending and back to unknown, due at once
  (`ExternalCommand.StuckNeverSettles`). A request comes to that on some run if and only if its operation has
  a window, and an expiry or a longest processing time (`ExternalCommand.StuckIsReached`,
  `ExternalCommand.OnlyThenStuck`); any other unknown command is settled by at most two such queries
  (`ExternalCommand.NotStuckSettles`).
- `Allocate` with a negative scale returns parts that do not add up to the total: `Allocation.Allocate`
  states that they do exactly when the scale is not negative or the total is zero.
- A stopped shard is meant to be unusable until a higher recovery generation (authz/view.go:98). A stall
  empties the holder, its stopped shards included: a stop lasts if and only if neither comes
  (`ViewHolder.StopLastsExactly`), and from every stopped shard a late tick and one answer under the same
  generation make the view that was refused give high-risk grants (`ViewHolder.StallEndsAStop`).

## Model

| member | source | states |
|---|---|---|
| `Numbering.NumberOk` | events/number.go:37-78 | Numbering a batch keeps all a partition promises: positions distinct, exactly 1..last in the counter's epoch and in every epoch of the history, and a row committed before another was inserted never numbered after it. |
| `Numbering.FirstPlace` | events/number.go:37-78 | Whenever a batch numbers anything, some row without a position gets the epoch's next one. |
| `Numbering.NumberOkExactly` | events/number.go:37-78 | A batch keeps those promises if and only if the declared epoch is the counter's or a later one. |
| `Numbering.ReturningEpochRepeats` | events/number.go:37-78 | If the declared epoch is one the partition left, any non-empty batch gives a second row a position that a first row has. |
| `Numbering.EventNumbers` | events/number.go:23-78 | Each insert, commit, abort, limited batch and epoch change keeps those promises. |
| `Numbering.EveryRunNumbers` | events/number.go:23-78 | They hold after every run of such events, in any interleaving. |
| `Numbering.EchoRound` | events/watermark.go:295-315 | A round towards an unnumbered echo changes nothing but places, gives only this epoch's, and leaves fewer pending rows up to the echo. |
| `Numbering.Outbox.NumberIn` | events/number.go:37-78 | The counter, the epoch history and the rows in place become what the numbering function says, and the count returned is the number of rows that got a position. |
| `Numbering.Outbox.NumberEcho` | events/watermark.go:295-315 | The loop ends with the echo's position, and every row committed before the echo was inserted then has a smaller one; nothing but places changed. |
| `Receive.DecideIsJoin` | projection/projection.go:51-95 | An input takes effect exactly when it is above the row by (version, partial < full < delete), and the row then is the input's; otherwise it stays. |
| `Receive.FoldIsLargest` | projection/projection.go:51-95 | Folding any sequence of inputs ends in the state of the largest one. |
| `Receive.OrderAndRepeatsDoNotMatter` | projection/projection.go:51-95 | Two sequences with the same inputs, in any order and multiplicity, end alike. |
| `Receive.ApplyRaises` | projection/projection.go:146-225 | An input of the adopted source changes at most its own row; unless an alignment had read past it, the row ends at its version or above, never below where it was, and a written row is marked with the running generation and true to the source. |
| `Receive.CompleteRowsAreTrue` | projection/projection.go:146-225 | After any inputs, of any instance and epoch, every incomplete row needs exactly its own version and every complete row holds the source's content at its version. |
| `Receive.Store.ApplyInput` | projection/projection.go:146-194 | The table in place and the outcome are those of the function the theorems are about, for every input including other instances and epochs. |
| `Receive.Store.WriteRow` | projection/projection.go:196-225 | One upsert: the decided row replaces the record's, no other row is touched. |
| `SourceLog.ReadCovers` | projection/align.go:171-239 | A by-ID read answers a version no smaller than any change committed before it, or a deletion or purge that covers it; it never answers "unknown" for a record with a change. |
| `SourceLog.VersionFollowsPlace` | events/number.go:37-78 | Along one record's changes, a larger position means a larger version. |
| `SourceLog.MoveGrows` | events/watermark.go:145-206 | Whatever the source does, committed and numbered rows stay as they are, and nothing new is committed in the past or numbered at or below a position handed out. |
| `SourceLog.MoveOk` | events/watermark.go:145-206 | Every move of the source keeps its promises over all partitions. |
| `Freshness.SourceMoveKeeps` | projection/watermark.go:238-277 | All that the consumer holds stays true whatever the source does next. |
| `Freshness.ReadAnswers` | projection/align.go:201-238 | A by-ID read answers for every row the consumer holds, so the loop's "did not answer" error does not arise from a source that keeps its log. |
| `Watermark.ConsumedKeeps` | projection/watermark.go:200-277 | Every consumer transaction (handler, page, recorded pull, adoption, every write of an alignment, under whatever identity) keeps the invariant, but for a row written while aligning before P0 is saved or from at or below it, and a completion to aligned under another identity. |
| `Watermark.StepKeeps` | projection/watermark.go:200-277 | Every step of source or consumer does. |
| `Watermark.EveryGuardedRun` | projection/watermark.go:846-907 | It holds after every guarded run from installation. |
| `Watermark.MarkReaches` | projection/watermark.go:238-277 | If an aligned source's partition has a mark, every row committed before the marked pull was recorded has a position in the contiguous range, and a change among them is in the projection, superseded there, or quarantined. |
| `Watermark.YesMeansApplied` | projection/watermark.go:544-550 | In every guarded run, when the watermark answers "no older than at", each change committed when the clock read less than at is in, or the clock had gone back between the pull and the commit. |
| `Watermark.FreshOnASteadyClock` | projection/watermark.go:544-550 | On a clock that never goes back, such an answer means every change of every partition committed before at is in. |
| `Watermark.RowsAreTrue` | projection/projection.go:196-225 | In every run, guarded or not, each stored row says what the source committed: content at its version if complete, a tombstone only for a deletion or a purge. |
| `Watermark.FinishedShows` | projection/align.go:135-239 | When the by-ID loop of a generation found nothing left, no record is behind its last change at or below its partition's P0. |
| `Watermark.FinishStepShows` | projection/watermark.go:846-907 | The completion transaction makes that the consumer's contiguous range. |
| `Watermark.AlignmentIsComplete` | projection/align.go:80-247 | However stream rows, pages, by-ID reads and the source interleaved before, right after a completed alignment of the identity still adopted nothing in the contiguous range is missing, not even quarantined. |
| `Watermark.ReplacedWritesNothing` | projection/align.go:98-110 | Once a newer generation began, no later P0, page, by-ID write or completion of the older one changes the consumer, after any steps whatever. |
| `Watermark.GenerationsOnlyGrow` | projection/align.go:80-97 | The generation never falls in any run. |
| `Watermark.OutsideNeverGrows` | projection/align.go:171-239 | While a generation re-fetches, no step of anyone puts a row outside it. |
| `Watermark.ByIdBatchShrinks` | projection/align.go:171-239 | A by-ID batch with an answered row makes the set of rows outside strictly smaller: the loop ends. |
| `AlignmentRace.EarlyRowLosesADeletion` | projection/align.go:80-134 | From every state in which a generation waits for its P0, a row from a page, or from the stream past a P0 left over, and guarded steps otherwise end aligned with a deletion within the contiguous range missing. |
| `AlignmentRace.LatePageLosesADeletion` | projection/watermark.go:807-842 | From every such state, a page's row at or below the P0 saved meanwhile, and guarded steps otherwise, do the same. |
| `AlignmentRace.OtherIdentityLosesAChange` | projection/watermark.go:884-907 | From every such state, a completion after another loop adopted the next epoch, and guarded steps of one loop otherwise, end aligned with a change of that epoch within the contiguous range missing. |
| `AlignmentRace.RetryLeavesP0` | projection/align.go:80-97 | In every reachable state with a P0 saved, starting the next generation, whether the alignment returned or still runs, leads to one that waits for its P0 and shows the old one on every partition. |
| `AlignmentRace.PastLeftoverIs` | projection/watermark.go:223-226 | A row the stream writes before the running generation's P0 is saved is past a P0 that is still there from an earlier attempt. |
| `AlignmentRace.OneLoopGuardsExactly` | projection/watermark.go:597-626 | In every run from an installation whose pulls and alignments exclude each other, all steps are guarded if and only if the stream never writes a row before the running generation's P0 is saved. |
| `AlignmentRace.EarlierIdentityOutdatesTheMark` | projection/align.go:80-97 | After a generation started for an earlier epoch, a mark stays although no row of the later epoch, those committed before the marked pull included, is in the contiguous range: marks are claims of an aligned source only. |
| `PullRound.PullAnswersYes` | projection/watermark.go:635-661 | From every aligned state whose consumer has taken in all that is numbered, one pull echoed on every partition and delivered is a guarded run after which the watermark is no older than the pull. |
| `PullRound.AlignmentIsReached` | projection/watermark.go:846-907 | Every installation, of any number of partitions, can by guarded steps complete an alignment and be caught up. |
| `PullRound.YesIsReached` | projection/watermark.go:544-550 | Every installation can by a guarded run answer yes. |
| `PullRound.LeftoverIsReached` | projection/align.go:80-134 | Every installation can by a guarded run of one loop, whose alignment returns without completing, come to a retry with a P0 left over on any partition. |
| `PullRound.OneLoopLosesADeletion` | projection/watermark.go:597-626 | From every installation, on any partition, a run of one loop with one unguarded delivery of the stream ends aligned with a deletion within the contiguous range missing. |
| `PullRound.MarkIsOutdated` | projection/align.go:80-97 | From every installation a guarded run of one loop adopts an epoch, adopts and aligns the next, and marks a pull after a row; a generation started for the first epoch then leaves the mark with that row outside the contiguous range. |
| `Answers.YesIsRightExactly` | projection/watermark.go:540-550 | In every guarded run, a yes misses no change committed while the clock read less than the time asked for if and only if it misses none of those committed since the marked pulls. |
| `Answers.YesIsRight` | projection/watermark.go:540-550 | So it misses none as long as the clock has read no less than that time since the pulls. |
| `Answers.RightStaysExactly` | projection/watermark.go:540-550 | An answer that misses nothing keeps missing nothing, whatever the source does next, if and only if the clock reads no less than that time. |
| `Answers.ClockBackBreaksYes` | projection/watermark.go:635-661 | From every state that answers yes, the clock going back, an insert and a commit leave the answer yes and a change missing. |
| `Upkeep.WatermarkOf` | projection/decide.go:278-289 | The loop returns the minimum of the partitions' marks, and nothing exactly when there is no partition or one has no mark. |
| `Upkeep.LastEcho` | projection/decide.go:267-276 | The loop returns the largest time among the own echoes within the contiguous range, and nothing exactly when there is none. |
| `Upkeep.NoOlderThanComparesTheMinimum` | projection/watermark.go:544-550 | The answer about all partitions is the comparison of that minimum. |
| `Upkeep.PutOneMore` | projection/align.go:116-134 | Writing a page's answers one after another, in any order, is writing the page at once. |
| `Upkeep.RowsAreAnswered` | projection/align.go:201-238 | Under the consumer's invariant every stored row is answered by a read now. |
| `Upkeep.BatchBringsIn` | projection/align.go:201-233 | A batch of rows outside the generation leaves strictly fewer outside, the same record IDs, and every row of the generation untouched. |
| `Upkeep.Watermarked.RecordPull` | projection/watermark.go:635-661 | Marks and old pulls are dropped exactly on a clock or epoch reset, and the nonce is recorded with its time, all before the pull is sent. |
| `Upkeep.Watermarked.HandleRow` | projection/watermark.go:200-277 | The handler's state in place is the step the run theorems are about, for rows of any partition, epoch and position, aligning or not, failing or not. |
| `Upkeep.Watermarked.WritePage` | projection/align.go:98-165 | The loop over a page equals the page at once under the current generation, and changes nothing under an older one. |
| `Upkeep.Watermarked.ReadTheRest` | projection/align.go:171-239 | The by-ID loop ends, with no row outside the generation, the same records, and the rows the stream already wrote for this generation untouched. |
| `Upkeep.Watermarked.Complete` | projection/align.go:240-247 | Positions start at P0, marks are empty, quarantines at or below P0 are dropped; nothing at all if a newer generation began. |
| `Upkeep.SelectSome` | projection/align.go:174-193 | The limited selection returns some of the rows, each once, and at least one while there are any. |
| `SourceStates.RollbackHolds` | projection/decide.go:205-256 | From a recorded rollback on, through blocked, confirmed and foreign detours, the source is not aligned and remembers the generation until an alignment of a larger one is done. |
| `SourceStates.RollbackExit` | projection/decide.go:205-256 | If it is aligned again, some completed alignment in between was of a generation larger than the one recorded last. |
| `SourceStates.RollbackCanExit` | projection/decide.go:205-256 | From any state but blocked, a rollback followed by adopting and completing a larger generation ends aligned. |
| `SourceStates.NextGenerationAligns` | projection/decide.go:205-256 | After any run that ends in a recorded rollback, adopting and completing the generation after it aligns the source. |
| `SourceStates.ExitExceedsAllExactly` | projection/decide.go:205-256 | After any such run, every way back to aligned, whatever inputs follow, completes a generation beyond all recorded ones if and only if none recorded before the latest is larger. |
| `SourceStates.LargerForgotten` | projection/decide.go:236-238 | With a larger one recorded before, some way back does not exceed it. |
| `Sql.EscapedMatchesItself` | authz/sql.go:67-69 | An escaped text in front of any pattern matches that text literally, whatever wildcards and backslashes it holds. |
| `Sql.SubtreePattern` | authz/sql.go:67-69 | The compiled subtree pattern matches exactly the paths below the item's path. |
| `Sql.SearchPattern` | search/search.go:87-89 | The search pattern matches exactly the texts that contain the query. |
| `Chains.ChainAll` | authz/sql.go:124-144 | A conjunction compiled part by part into one argument list is TRUE exactly when every part's meaning holds, whatever is appended to the list later. |
| `Chains.ChainAny` | authz/sql.go:71-122 | The same for alternatives: TRUE exactly when some part's meaning holds. |
| `Chains.ChainEach` | authz/sql.go:146-156 | Of a list of compiled parts, each single predicate is TRUE exactly when its own part's meaning holds. |
| `Authz.FitsMeansEveryDimension` | authz/segment.go:63-100 | A segment that passed the check constrains every dimension of its resource and no other. |
| `Authz.EntitledIsTrue` | authz/eval.go:130-149 | The three-valued disjunction is True exactly when some segment of the operation is. |
| `Authz.ActiveSegsAre` | authz/segment.go:49-59 | The compiler's segments are exactly the operation's that are active at the time. |
| `Authz.TreeMeans` | authz/sql.go:71-122 | The compiled tree atom is TRUE exactly when some item covers the path. |
| `Authz.IntervalMeans` | authz/sql.go:71-122 | The compiled interval atom is TRUE exactly when the currency column names the currency and the amount lies within the open or closed bounds. |
| `Authz.AtomMeans` | authz/eval.go:45-111 | For every atom that fits its dimension, compiled predicate and evaluator agree on every row, NULL included, but for the facts the exact lemmas below single out. |
| `Authz.TreeAgreesExactly` | authz/eval.go:45-82 | A tree atom decides alike in SQL and in the evaluator on every text if and only if no item has the empty path. |
| `Authz.IntervalAgreesExactly` | authz/eval.go:84-111 | An interval atom decides alike on every amount and currency if and only if its currency is not empty or its bounds admit no amount. |
| `Authz.IntervalComparableExactly` | authz/eval.go:84-111 | On each row an interval atom decides alike if and only if its currency is not empty, or the currency column holds a text, or the amount is outside the bounds or NULL. |
| `Authz.InAgreesExactly` | authz/eval.go:56-63 | A list of numbers on an amount decides alike on every amount, however facts write amounts, if and only if it lists each of its numbers the way facts write it. |
| `Authorized.SegmentMeans` | authz/sql.go:124-144 | A compiled active segment is one predicate, TRUE exactly when the evaluator says True for the segment. |
| `Authorized.PlanMeans` | authz/sql.go:168-227 | A plan selects the rows for which the view and the operation each have a segment that holds, and its hit bits are the operation's segments. |
| `Authorized.WhereMeansAllowed` | authz/sql.go:168-227 | For every resource, segments, operation and row on whose facts the concerned active segments' atoms can agree, the compiled Where is TRUE if and only if the evaluator's action is True. |
| `Authorized.FieldsMeanReadable` | authz/sql.go:30-45 | On those rows the fields read off the hit bits are the fields the evaluator decides. |
| `Authorized.RefusedExactly` | authz/sql.go:71-122 | Compiling is refused if and only if an active segment of the view or the operation has an atom the database cannot decide. |
| `Authorized.SegmentLoop` | authz/eval.go:113-127 | The loop over a map of atoms, in whatever order, gives the conjunction. |
| `Authorized.EntitledLoop` | authz/eval.go:130-149 | The loop's answer is the disjunction, and its field set is what the True segments grant, no more and no less. |
| `Authorized.EvaluateRecord` | authz/eval.go:163-180 | The decision of the loops is the decision the compiler is proved against. |
| `Authorized.Active` | authz/sql.go:168-227 | The filtering loop returns the active segments in order. |
| `Authorized.Compiler.AtomPred` | authz/sql.go:71-122 | The compiler's growing argument list and the atom's predicate are those of the compile function from the current placeholder on, or a refusal that leaves the list alone. |
| `Authorized.Compiler.DimPreds` | authz/sql.go:124-144 | The loop over a segment's sorted dimensions appends exactly the parts' arguments in order. |
| `Authorized.Compiler.SegmentPred` | authz/sql.go:124-144 | The same for a whole segment. |
| `Authorized.Compiler.UnionPreds` | authz/sql.go:146-156 | The same for the union of segments. |
| `Authorized.Compiler.PlanFor` | authz/sql.go:168-227 | View and operation share one argument list; the plan is the compile function's. |
| `Authorized.CompilePlan` | authz/sql.go:168-227 | Compiling from an empty list gives the plan `WhereMeansAllowed` and `FieldsMeanReadable` are about. |
| `Paging.PrecedesIsStrict` | list/list.go:232-240 | Of two rows with different IDs exactly one precedes the other, with every key in its own direction. |
| `Paging.PrecedesIsTransitive` | list/list.go:232-240 | The mixed-direction order is transitive. |
| `Paging.KeysetIsAfter` | list/list.go:294-316 | Some alternative of the keyset condition holds if and only if the row is strictly after the cursor in that order. |
| `Paging.ListingIsUnique` | list/list.go:232-240 | A set of rows has one listing in that order. |
| `Paging.RestIsAfter` | list/list.go:282-316 | What is strictly after the k-th row, listed, is the rest of the listing. |
| `Paging.TakePage` | list/page.go:16-46 | The loop keeps the first rows up to the limit and says "more" exactly when the look-ahead row came. |
| `Paging.PagesEnumerate` | list/page.go:16-46 | After any number of pages of any sizes, what was returned is a prefix of the listing, and there is a cursor exactly when rows remain. |
| `Paging.PagingEnds` | list/page.go:16-46 | No run of pages is longer than the listing by more than one. |
| `Paging.PagingIsExact` | list/page.go:16-46 | Pages followed to the end are the whole listing, each row once, in order. |
| `ListQuery.ReadableWhereIsReadable` | authz/sql.go:232-240 | The narrowing condition holds on a row if and only if the field is among those its hit bits make readable. |
| `Listed.NarrowMeans` | list/list.go:158-173 | The narrowing conditions hold on exactly the rows that show every field asked for, none of them secret or undeclared. |
| `Listed.FiltersMean` | list/list.go:180-193 | The compiled filters are TRUE exactly on the rows that pass all of them. |
| `Listed.SearchMeans` | list/list.go:194-210 | The search condition is TRUE exactly on the rows of which a column that may be searched contains the query. |
| `Listed.CursorMeans` | list/list.go:282-316 | The compiled keyset condition with its bound arguments is TRUE exactly on the rows strictly after the cursor. |
| `Listed.StatementSelects` | list/list.go:140-242 | The assembled statement selects a row if and only if it belongs to the list and is strictly after the cursor. |
| `Listed.CursorIsBound` | list/list.go:282-293 | A cursor is accepted if and only if the request would be without it and the cursor was made for the same filters, search, sort, narrowing and plan; it never changes the order. |
| `Listed.PlanHit` | authz/sql.go:168-227 | On every row a plan selects, some hit bit is set. |
| `Listed.SelectedIsNarrowed` | list/list.go:158-173 | Whatever cursor a request has, a selected row satisfies the plan and shows every field the list is narrowed to. |
| `Listed.QueriedFieldsAreShown` | list/list.go:158-219 | For every accepted request, each field that is not ordinary and is used to filter, sort or search is readable on every selected row. |
| `Listed.StatementSelectsPermitted` | list/list.go:140-242 | The statement selects exactly the rows the evaluator permits, narrowed, filtered, searched and after the cursor. |
| `Listed.AnswerIsPage` | list/page.go:16-46 | One answer is the next page of the permitted rows. |
| `Listed.RunFollows` | list/page.go:16-46 | Following the returned cursors is following pages of the permitted rows, whatever page sizes are asked for. |
| `Listed.ListAnswers` | list/list.go:140-242 | The cursor of any listed row is accepted again and answered with the page after it. |
| `Listed.ListIsExact` | list/list.go:140-242 | Over a fixed table, following cursors ends, and then has returned every row the evaluator permits, once, in the order asked for. |
| `ListBuild.Statement.AddFilters` | list/list.go:180-193 | The loop appends each filter's argument and condition in order, or refuses with the first refusal. |
| `ListBuild.Statement.SearchCondition` | list/list.go:194-210 | The loop over search columns appends alternatives for the columns that may be searched; none gives a condition that is never TRUE, an empty query no condition. |
| `ListBuild.Statement.Resume` | list/list.go:296-315 | The nested loops append the keyset alternatives with their own placeholders. |
| `ListBuild.Statement.CursorCondition` | list/list.go:282-316 | A cursor that is unreadable, of another query or of another plan is refused with its own error; else its condition is appended. |
| `ListBuild.NarrowTo` | list/list.go:158-173 | The loop builds the narrowing conditions and the set of narrowed fields, or refuses at the first undeclared or secret field. |
| `ListBuild.ReadableCondition` | authz/sql.go:232-240 | The loop over the field sets gives the narrowing condition. |
| `ListBuild.SortRefusal` | list/list.go:211-219 | The loop refuses at the first sort key that is not sortable or not readable on every row. |
| `ListBuild.BuildQuery` | list/list.go:140-242 | The whole of Build, refusals in the code's order, is the function the list theorems are about. |
| `ViewHolder.KeepIs` | authz/refuse.go:13-39 | Adoption keeps exactly the segments that fit the declarations. |
| `ViewHolder.EveryRunKeeps` | authz/view.go:164-275 | In every run with a truthful member, each held view is what the member had at a time at or after its request was sent, and each high-risk time is of such a renewal. |
| `ViewHolder.GrantsAreFresh` | authz/view.go:364-395 | Every grant at now is the member's content at a time after now minus the validity (for high risk counted from the last renewal that was not read-only), and its cutoff is within the validity. |
| `ViewHolder.FittingOnlyRemoves` | authz/refuse.go:13-39 | A granted segment is one the member listed for a principal whose accounts are not disabled, and fits. |
| `ViewHolder.RevokedIsNotGranted` | authz/view.go:364-395 | A segment the member has not had for that long is in no grant. |
| `ViewHolder.EveryRunAdvances` | authz/view.go:218-275 | In every run the accepted recovery generation never decreases and a held instance never changes. |
| `ViewHolder.StoppedGivesNothing` | authz/view.go:218-275 | A stopped shard gives no grant after any steps without a stall or a higher recovery generation. |
| `ViewHolder.StopLastsExactly` | authz/view.go:164-275 | A stopped shard is stopped at every point of a run if and only if no tick of the run found a stall and no higher recovery generation was accepted. |
| `ViewHolder.StallEndsAStop` | authz/view.go:164-180 | From every holder with a stopped shard and no verification under way, a tick too late and an answer of the same generation, with any view whose revisions went back, end with that view giving a high-risk grant. |
| `ViewHolder.StopIsReached` | authz/view.go:254-260 | Such a holder is reached from every start by a tick and two answers, with any two views of which the second goes back. |
| `ViewHolder.StopsExactly` | authz/view.go:254-260 | Within a recovery generation an answer stops a shard if and only if it carries a changed view of it whose revisions went back. |
| `ViewHolder.RollbackGivesNothing` | authz/view.go:218-275 | After an answer of a lower recovery generation or another instance no shard gives a grant. |
| `ViewHolder.FindGoingBack` | authz/view.go:279-296 | The nested loops say "back" exactly when some new revision has an earlier epoch, or the same epoch and a lower value, than a held one of its domain. |
| `ViewHolder.Holder.Tick` | authz/view.go:164-180 | A gap or a jump beyond the bound empties all shards; the clocks are remembered. |
| `ViewHolder.Holder.Rest` | authz/view.go:155-160 | Resting only remembers the clocks. |
| `ViewHolder.Holder.Accept` | authz/view.go:218-275 | An answer's effect on shards, generation and instance in place is the step of the run theorems, and it is accepted exactly when it is no rollback. |
| `ViewHolder.Holder.AcceptShard` | authz/view.go:218-275 | One shard's answer: renewed, replaced with the high-risk time carried over when read-only, stopped, or left to run out; no other shard is touched. |
| `ViewHolder.Holder.Lookup` | authz/view.go:364-395 | Whatever order the shards are met in, a grant is some valid shard's, and none is given exactly when no shard is valid. |
| `ViewHolder.Select` | authz/view.go:383-391 | The loop keeps the segments for the resource type or for all. |
| `Reserve.TableObeys` | reserve/lifecycle.go:92-151 | In every cell: states only move forward, the resource is taken exactly on entering held, given back exactly on leaving held or committed for released or expired, and a refusal changes nothing. |
| `Reserve.EveryRunConserves` | reserve/reserve.go:107-299 | In every run of hold, confirm, cancel, consume, expire, time and other kinds' branches: free plus outstanding plus consumed is the initial total, each branch's takes equal what it holds, gave back and used, no branch takes or gives back twice, no consumption ID counts twice, and an ended branch holds nothing. |
| `Reserve.EndedHoldsNothing` | reserve/reserve.go:107-118 | In every run an ended branch has nothing outstanding. |
| `Reserve.EndedNeverMoves` | reserve/lifecycle.go:92-151 | After any commands whatever, an ended branch's row is the same and nothing was taken, given back or used in its name. |
| `Reserve.CancelledNeverTakes` | reserve/reserve.go:188-206 | In every run, nothing is ever recorded in the name of a branch cancelled before its hold arrived. |
| `Participant.Tables.HoldBranch` | reserve/reserve.go:133-174 | The tables after a hold, first or repeated, willing or refused, same or other digest, are those of the run theorems. |
| `Participant.Tables.ApplyTo` | reserve/reserve.go:107-118 | Gives back what is held when the decision says so, then moves the branch. |
| `Participant.Tables.ConfirmBranch` | reserve/reserve.go:178-184 | The same for confirm, of absent and foreign branches too. |
| `Participant.Tables.CancelBranch` | reserve/reserve.go:188-206 | The same for cancel, which stores a cancelled branch when there was none. |
| `Participant.Tables.ConsumeBranch` | reserve/reserve.go:218-264 | The same for consume: repeated consumption IDs, other digests and other branches' IDs included. |
| `Participant.Tables.SelectDue` | reserve/reserve.go:271-282 | The selection is the due branches with the earliest ends, in order, at most the limit. |
| `Participant.Tables.ExpireBatch` | reserve/reserve.go:283-294 | The transactions of a batch expire exactly its branches, and are a run of the model. |
| `Participant.Tables.ExpireDue` | reserve/reserve.go:268-299 | The job ends, with nothing due, having expired exactly what was due; what it did is a run of the model, so everything above holds of it. |
| `ExternalCommand.EntersSending` | extcmd/state.go:116-180 | A command comes into sending only by a claim within the deadline or by a "not found" that allows sending again. |
| `ExternalCommand.EverySendIsTimely` | extcmd/commands.go:309-367 | In every run with crashes anywhere and manual registrations, each send after a recorded reach passed its last check within the window less its margin from the first recorded reach (the last one for last-use operations). |
| `ExternalCommand.EveryRunSettles` | extcmd/commands.go:225-298 | In every run the first recorded reach never changes, terminal states are never left, and sends are only added. |
| `ExternalCommand.QueryOnlyNeverSends` | extcmd/commands.go:225-275 | In query-only mode no run sends. |
| `ExternalCommand.TerminalNeverSends` | extcmd/commands.go:225-275 | After a terminal state no run sends or changes it. |
| `ExternalCommand.EverySendIsIssued` | extcmd/commands.go:395-407 | In every run each send of an irrevocable operation has an issue record of its own, written before it and no other send's. |
| `ExternalCommand.NotFoundLeads` | extcmd/state.go:97-113 | A query that finds nothing leads to a person exactly when sending again is not allowed; else to a send that passes its last check exactly when the deadline has not passed by then, and otherwise back to unknown, due at once and unknown only since. |
| `ExternalCommand.StuckNeverSettles` | extcmd/commands.go:419-465 | Past the deadline with the expiry or the longest processing time over, any number of such rounds, at any times, leaves the command unsent, with nobody, and unknown only since the latest. |
| `ExternalCommand.AskSettlesExactly` | extcmd/state.go:97-113 | A query of an unknown, due command that finds nothing gives it to a person if and only if it may not be sent again. |
| `ExternalCommand.RoundSettlesExactly` | extcmd/commands.go:419-465 | A round that may send again passes its last check if and only if the deadline has not passed by then; else the command is due again, and stuck if and only if it would have been at that time, and if and only if it may again be sent. |
| `ExternalCommand.NotStuckSettles` | extcmd/commands.go:419-465 | An unknown, due command that is not stuck by its first check is with a person, or past its last check, after at most two queries that find nothing. |
| `ExternalCommand.StuckIsReached` | extcmd/commands.go:309-367 | A request of an operation with a window, and an expiry or a longest processing time, comes to be stuck on some run. |
| `ExternalCommand.OnlyThenStuck` | extcmd/commands.go:309-367 | No other request does, on any run. |
| `ExternalPair.KeepsExactly` | extcmd/commands.go:225-366 | Every move, from whatever copy, keeps a terminal stage if and only if it is a check within the copy's deadline, a result or a query's finding that is that very stage, or no write of the copy, and never when evidence was missing; and keeps a first reach if and only if it is no result, or one whose copy had that reach, or had none and reaches at that instant. |
| `ExternalPair.PairKeepsExactly` | extcmd/commands.go:197-275 | In every history of two runs a terminal stage, and a first reach, last at every point if and only if every turn keeps them in that sense. |
| `ExternalPair.StaleRecord` | extcmd/commands.go:343-366 | Recording from a copy keeps a first reach recorded meanwhile if and only if the copy had it, or had none and reaches at that very instant; and keeps a terminal state reached meanwhile if and only if the result is that state. |
| `ExternalPair.FreshPairsSettle` | extcmd/commands.go:197-275 | In every history of two runs in which none writes from a copy whose stage or reaches the row has left, first reaches never change and terminal states are never left. |
| `ExternalPair.StaleRunLeavesATerminalState` | extcmd/commands.go:343-366 | From every request, two runs can take a command to succeeded and then back to waiting for a retry. |
| `ExternalPair.StaleRunMovesTheFirstReach` | extcmd/commands.go:343-366 | From every request, two runs can record a first reach and then a later one in its place. |
| `ExternalJob.Backoff` | extcmd/commands.go:292-298 | The loop doubles from a minute with each attempt after the first, an hour at most. |
| `ExternalJob.PassIsARun` | extcmd/commands.go:225-275 | Whatever the adapter and the evidence store answer and however long it takes, a pass over a command is a run of the model. |
| `ExternalJob.SendsExactly` | extcmd/commands.go:309-367 | A claimed command goes out, once, exactly when its last check is within the deadline and, if irrevocable, its issue record is written; the send and the record are those of this attempt. |
| `ExternalJob.PassSendsAtMostOnce` | extcmd/commands.go:225-275 | A pass sends at most once, and not at all in query-only mode or for a command that is not due. |
| `ExternalJob.JobRun.Process` | extcmd/commands.go:225-275 | The command and the clock after a pass are exactly those of the model's moves in the code's order. |
| `ExternalJob.JobRun.AwaitFinality` | extcmd/commands.go:251-261 | An accepted command is asked about exactly when the adapter can be and its limit has passed; the transaction is the model's load. |
| `ExternalJob.JobRun.Claiming` | extcmd/commands.go:235-244 | A command goes on to be sent exactly outside query-only mode and within its deadline, with the copy it claimed; the transaction is the model's load. |
| `ExternalJob.JobRun.SendOut` | extcmd/commands.go:309-367 | The last check, the issue record, the call and the result leave exactly the state the model's moves do. |
| `ExternalJob.JobRun.LastCheck` | extcmd/commands.go:310-326 | The send goes on exactly when the table's last check passes at this very time; else the command is unknown. |
| `ExternalJob.JobRun.Call` | extcmd/commands.go:327-339 | An irrevocable command without its issue record waits for a retry and is not sent; every other is sent after it. |
| `ExternalJob.JobRun.Report` | extcmd/commands.go:343-366 | The result's reach times, deadline, stage and next due time are the model's. |
| `ExternalJob.JobRun.Query` | extcmd/commands.go:419-465 | A query, its answer and the send it may lead to leave exactly the state the model's moves do. |
| `ExternalJob.JobRun.TakeAnswer` | extcmd/commands.go:433-462 | An answer leads to a send exactly when the table says so outside query-only mode; else the command is due when the code says. |
| `Progress.LastBetween` | events/progress.go:63-72 | The loop returns the last handling in the window, and nothing exactly when there is none. |
| `Progress.Sorted` | events/progress.go:89-92 | The starts in ascending order, the same values. |
| `Progress.WindowIsRun` | events/progress.go:89-103 | The window of a sorted start is the run of that start; of equal starts only the last has one. |
| `Progress.CutOf` | events/progress.go:89-103 | The cut is the last handling of the latest run that lasted the lifetime, less the lifetime; none exactly when no run did. |
| `Progress.ProgressOf` | events/progress.go:58-86 | A partition's progress is the largest position handled at or before the cut, present exactly when there is one. |
| `Progress.RanAfterTheCut` | events/progress.go:89-103 | An instance ran throughout the lifetime that follows the cut. |
| `Progress.CutIsSafe` | events/progress.go:58-103 | If first deliveries follow position order and a delivered message gets an outcome within the lifetime of running time, no position at or below the progress is without an outcome. |
| `Redelivery.FromOf` | events/redelivery.go:151-197 | In whatever order maps are iterated, a partition is listed if and only if every subscription has progress there, all on one instance, and its start is the minimum of their points. |
| `Redelivery.Visit` | events/redelivery.go:158-182 | After each subscription, starts and open partitions are what the subscriptions so far determine. |
| `Redelivery.NeverAfterAReader` | events/redelivery.go:151-197 | A redelivery never starts after any reader's progress. |
| `Redelivery.NothingLeftOutIsOpen` | events/redelivery.go:151-197 | With each reader's progress computed from its inbox, no position at or below a listed start is without an outcome for any reader of the stream. |
| `Allocation.SharesAddUp` | money/money.go:147-172 | The exact shares add up to the units. |
| `Allocation.LeftIsRems` | money/money.go:147-172 | What the floors leave over is the sum of the remainders. |
| `Allocation.LeftHaveRems` | money/money.go:147-172 | Fewer units are left than there are parts, and each part that gets one has a positive remainder. |
| `Allocation.DealtIsFair` | money/money.go:147-172 | Floors and one unit for the first in remainder order: every part its floor or one more, zero for a zero weight, and a larger or an equal earlier weight never less. |
| `Allocation.SortByRemainder` | money/money.go:157-166 | The insertion sort in place ends with all parts ranked by remainder, equal ones by index. |
| `Allocation.TakeFloors` | money/money.go:147-156 | The first loop fills the floors and remainders and counts what the floors give. |
| `Allocation.GiveOut` | money/money.go:168-171 | The last loop adds one unit to each of the first parts in the order, so the total grows by exactly what was left. |
| `Allocation.LargestRemainder` | money/money.go:147-172 | The parts add up to the units, and are close and fair as above, for all units and weights. |
| `Allocation.AmountOfTotal` | money/money.go:116-145 | The units turned back into an amount are the total if and only if the scale is not negative or the total is zero. |
| `Allocation.ReadWeights` | money/money.go:116-135 | Weights are refused exactly when one is not finite or negative. |
| `Allocation.Allocate` | money/money.go:116-145 | Refused exactly on a bad total, a bad weight or no weight at all; else one part per weight, adding up to the total if and only if the scale is not negative (or the total is zero), with magnitudes close to the shares and fair. |
| `Allocation.Signed` | money/money.go:116-145 | Every part gets the total's sign. |
| `Canon.NatTextIsUnique` | canon/canon.go:144-150 | A number's digits followed by anything that is no digit determine number and rest. |
| `Canon.IntTextIsUnique` | canon/canon.go:144-150 | The same with a sign. |
| `Canon.CodeIsUnique` | canon/canon.go:152-177 | A character's code, escaped or not, determines the character and the rest. |
| `Canon.QuotedIsUnique` | canon/canon.go:152-177 | A quoted string determines the string and the rest. |
| `Canon.TextIsUnique` | canon/canon.go:76-142 | The text of a value, followed by anything it may be followed by, determines value and rest: the encoding is uniquely decodable. |
| `Canon.TextIsInjective` | canon/canon.go:76-142 | Values with the same text are the same. |
| `Canon.SortedSetIsUnique` | canon/canon.go:241-260 | A sorted set depends only on which elements there are, not on their order or number. |
| `Canon.SortedSetIsIdempotent` | canon/canon.go:241-260 | Sorting a sorted set again changes nothing. |
| `CanonWriter.Buffer.PutString` | canon/canon.go:152-177 | The loop appends the quoted and escaped string. |
| `CanonWriter.Buffer.Write` | canon/canon.go:76-142 | Writing refuses exactly the values with something forbidden anywhere inside, and else appends the value's text. |
| `CanonWriter.Encode` | canon/canon.go:68-74 | The text of the value, or a refusal exactly when it cannot be encoded. |
| `CanonWriter.SortedSet` | canon/canon.go:241-260 | The elements ascending by their texts, each once; refused exactly when one of them is. |
| `Durable.EarliestIs` | events/memory.go:164-204 | The ordered choice is the queue entry with the smallest position. |
| `Durable.FirstDueIs` | events/memory.go:164-204 | The unordered choice is the first entry that is due. |
| `Durable.EveryRunKeeps` | events/memory.go:123-248 | In every run each matching entry is in exactly one of not yet considered, ready, in flight or settled, was delivered as often as its attempts say and never more than MaxDeliver times, and an ordered durable has at most one entry in flight and delivers positions in non-decreasing order. |
| `Durable.SettledForGood` | events/memory.go:206-248 | A settled entry is never delivered again. |
| `Durable.StepSettlesExactly` | events/memory.go:164-248 | A step settles an entry if and only if it acknowledges or terminates its current delivery, refuses the last one it may have, or finds that one expired. |
| `Durable.EveryRunSettlesExactly` | events/memory.go:123-248 | In every run an entry is settled if and only if some step did that to it: none is lost. |
| `Durable.LateOutcomeChangesNothing` | events/memory.go:206-248 | The outcome of a delivery that is over, and a request for more time for it, change nothing, then or after any steps. |
| `Durable.LeavingFlightIsOver` | events/memory.go:164-248 | A delivery is over once its entry left flight, by expiry, outcome or otherwise. |
| `MemoryTransport.Memory.PublishMessage` | events/memory.go:75-99 | Appends to the log and fills the queue with what matches, in place. |
| `MemoryTransport.Memory.FillUp` | events/memory.go:123-133 | The loop considers every log entry up to the end, each once. |
| `MemoryTransport.Memory.TakeBackExpired` | events/memory.go:165-173 | In whatever order the map gives them, exactly the entries past their deadline leave flight. |
| `MemoryTransport.Memory.Choose` | events/memory.go:174-203 | Ordered: the earliest entry, only when it is due and nothing is in flight; else the first due one; none exactly when there is no such entry. |
| `MemoryTransport.Memory.NextItem` | events/memory.go:164-204 | A worker gets the delivery the run theorems speak of, current at that moment, and it is recorded once. |
| `MemoryTransport.Memory.Finish` | events/memory.go:206-248 | An outcome counts only for the entry's current delivery. |

## Left out

- Repairs by ID beside an alignment.
- Sources restored to a state without rows they had committed, and records created again after a purge; a foreign instance is only the arbitrary change of the alignment status.
- The pages and tokens of a pull: a delivery of any numbered row at any time covers what they can bring; which row check a pull fails is an input.
- Judging freshness per record (`Judge`, `JudgeMany`) and the decision tables of epochs and pull outcomes: easier than the watermark they rest on.
- The failure counter behind a quarantine: quarantining is a choice open to every delivery of a change.
- A mark keeps the m_p of the echo applied last, not a table of echoes; `Upkeep.LastEcho` is stated of the table.
- Concurrency inside a transaction; locks and isolation are the atomicity of the steps.
- Text order of columns is by code point; other collations, casts from text to column types and case folding are parameters. Sort columns are not null, as the column declaration demands.
- Digests of filters, plans and content are the values they digest.
- A table that changes while a list is paged.
- LookupStale, and the rounding of the validity through floating point: it is an integer here.
- Reservations of several resources in one branch: a branch's content is an amount of one resource; the component's callbacks are contracts over a ledger.
- External reconciliation, which changes the facts the resend timing rests on; a reach that happened and was never recorded is not counted as one.
- Attempt rows, stored parameters and the content of issue records; the resend timing of two runs at once.
- Parsing canonical text, Unicode normalisation, decimal and instant texts, and hashes over the encoding.
- Rounding, cash rounding, parsing and formatting of amounts; decimals are reals with a finite flag.
- Several durables of one in-memory transport, message size limits, notifications and goroutines.
- The object store, the forwarder, calls and budgets, idempotency, document numbers, evidence, audit, tiering and work: input and output, or easier members than these.
- Servers, clients, tokens, keys, database drivers, configuration and process wiring.
