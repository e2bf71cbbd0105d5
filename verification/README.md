# The engine's guarantees, proved

This project models the engine of Borg, an append-only log of layers on forkable branches, and proves what its
four cooperating mechanisms promise together: optimistic transactions, derivation rounds, the schema as a fold of
def events, and the caches that must agree with the log. The codecs and the export stream that carry the log's
identities come as smaller modules of their own. `dafny verify dfyconfig.toml` checks the project; nothing
here runs the engine.

## How it is built

| module | models |
|---|---|
| `Core` | ids, PIDs, cells, values, events |
| `Producers` | producer code as a deterministic function from what it has been shown to its next read, its writes or its failure |
| `Scheduler`, `Waves`, `Settle` | `schedule`, one wave of concurrent runs (any interleaving of open, resolve, read and commit), and a whole round |
| `Confluence`, `Fronts`, `Ladder` | the same round whatever the interleaving; when exactly a round judges a producer to be cycling |
| `Transactions`, `Merge` | write sessions, a transaction's guards, a round's cascade; `merge_round` |
| `Equations`, `Trunk`, `Truth`, `RoundMerge`, `Watermarks` | what a set of source records determines, and why each watermark is worth it in every run of commits and rounds |
| `Serial` | begin, get, set, commit and abort on one branch, interleaved at will |
| `Log`, `Spans`, `Progress`, `Inherited` | layer states, heads and read paths; `span`; every run of layers opening and committing out of order; what a watermark is worth over a branch's ancestors |
| `Touch`, `DependencyIndex`, `Validate` | the cell-touch index, the dependency index, memoised validation, the frontier |
| `Schema`, `FieldHistory`, `Definitions`, `MigrationPath` | folding def events, what a folded history says of each field, pushes, forks and merges, version chains |
| `Stream`, `Acceptance`, `Lineage` | export and restore, exactly which streams are restored, and the engine invariant that makes one forward pass enough |
| `BigInt`, `PidText`, `PidSpelling`, `CellText`, `CellSpelling` | canonical integers, PIDs and cell addresses as text, and exactly which texts are read as which |

Storage is not modelled beyond its read rule: the first segment of a read path holding a record answers, with its
highest landed layer at or below the bound, and within one layer the later write. A producer is a
`Program`: `(Invocation, History) -> Step`, so its reads, writes and failures are arbitrary but repeatable. A merge
is one atomic step, because the host runs one request at a time per registry; runs inside a wave, and client commits
beside a running round, interleave freely. Loops and updated records are methods and classes with the source's
control flow, each proved against a specification function or an abstract history.

Hypotheses, where a theorem has them, are there because the statement fails without them:

- *Pipelines* (`Confluence`, `Watermarks`): one invocation per output record, the same read and write footprint in
  every run that finishes, and a layered dependency graph.
- *One version* (`Watermarks`): a cell is read and written at one def-version. The transactions of `Serial` need no such
  hypothesis: `Serial.GuardsDecideWhen` says for which of them the guards are enough.
- *Behind* (`Settle` and what follows from it): every producer of the round stands below the source layer it reflects.
  One that does not is never scheduled in it and is left out of `producers`. A producer new to the branch has some layer
  of the range in front of it, or it would be given its buffer in a later wave than the first.
- *Finite universe* (`Settle`): finitely many invocations can ever be dirtied, and a run reads finitely often. No
  hypothesis about cycles, failures or footprints is needed for a round to end.

Where the code's own comments say more than the code does, the code is followed, and the project says both when the
comment is right and an input for which it is not:

- a pipeline without a cycle can be judged to be cycling: not for its depth (`Fronts.LevelledRunsOnce`), but exactly
  when some invocation is reached in more than eight waves (`Fronts.CyclesWhen`, `Fronts.CyclesByWalks`,
  `Ladder.ClimbTheLadder`);
- a property set at one version and then read at another has no guard (`Serial.GuardsDecideWhen`,
  `Serial.CrossVersionReadEscapes`);
- `recompute` can settle past a source layer that commits later (`Progress.RecomputeIsSafeWhen`, `Progress.RecomputeCanPass`);
- the touch index's quick negative is wrong on some paths (`Touch.QuickIsWrong`, `Touch.RecomputeIsQuickWhen`), and what
  skipping the guards then costs a merge is `Merge.SkippingIsSoundWhen`;
- a watermark can come to stand above a source layer a branch's ancestor still has open (`Inherited.PathIsSafeWhen`,
  `Inherited.ParentCanCommitBeneath`), though never above one of its own (`Progress.MarksNeverPassPending`);
- validation's answer is no minimum once something moved (`Validate.AnswerIsLeastWhen`, `Validate.MovedDropsBounds`);
- a reader whose view is older than a field is given a migration path that stops short of the version it asked for
  (`MigrationPath.DownJoinsWhen`, `MigrationPath.OlderReaderStops`, `MigrationPath.OffChainSkips`);
- a run that wrote its entity before its last read is forgotten by a rebuild (`DependencyIndex.RunsRebuildWhen`,
  `DependencyIndex.EarlyWriteForgets`);
- a PID has more than one spelling: a zero digit to spare and an overlong number are read too
  (`PidSpelling.OneSpellingWhen`, `PidSpelling.MoreSpellings`).

The functions the loops are proved against are themselves held to laws that do not name them: over histories of events
for the schema (`FieldHistory`), lists of operations for the transactions (`Serial.HoldsWhatIsLeft` and what follows
it), layers and events for the merge (`Merge.FailedIsStale`), numbers for the codecs (`PidSpelling`).

## Model

| member | source | states |
|---|---|---|
| `Producers.Deterministic` | crates/borg-engine/src/derive.rs:206-242 | a producer shown two worlds that agree on what it reads asks the same questions and writes the same records |
| `Scheduler.NewestIsHighest` | crates/borg-core/src/layer.rs:90-98 | the read rule: the answer is a layer within the bound holding the record, and no such layer is higher |
| `Scheduler.InvalidatedBy` | crates/borg-engine/src/derive.rs:1038-1096 | a changeset dirties exactly the invocations that read one of its cells, and those whose source entity it holds, unless their own producer wrote it |
| `Scheduler.Backfill` | crates/borg-engine/src/derive.rs:974-1030 | a producer that has incorporated nothing, or nothing since it was last pushed, is given every entity of its source buffer, and no other producer is given any |
| `Scheduler.ScheduleOne` | crates/borg-engine/src/derive.rs:846-924 | one layer against one producer picks each candidate not already scheduled, counts it once, and breaks the producer exactly when one goes over the limit; with no break nothing is passed over |
| `Scheduler.Schedule` | crates/borg-engine/src/derive.rs:831-924 | a wave schedules exactly the invocations some committed layer puts in front of a producer that is neither broken nor past it |
| `Waves.StepWave` | crates/borg-engine/src/derive.rs:1104-1183 | whichever run steps next, every run in flight has been shown only the world before the wave or a record a peer has committed, and each layer id has one owner |
| `Waves.ResolvedSees` | crates/borg-engine/src/derive.rs:1104-1183 | whatever a peer had committed when a run resolved its path, the run sees: it reads that layer's record or a higher one, whatever is committed afterwards |
| `Waves.RunWave` | crates/borg-engine/src/derive.rs:733-805 | under every interleaving the wave ends with nothing in flight, each invocation committed at most once with its read-set in the index, and all of them committed where no producer broke |
| `Settle.ReadsHoldStep` | crates/borg-engine/src/derive.rs:733-805 | if everyone who read what the last wave replaced runs again, then after the wave each last run's reads are what the branch shows, but for what this wave itself wrote |
| `Settle.OwedIsScheduled` | crates/borg-engine/src/derive.rs:846-922 | a wave's output is picked up in full: whoever read a record it touched and whoever it newly concerns is scheduled |
| `Settle.ScheduledIsDeep` | crates/borg-engine/src/derive.rs:846-922 | in a layered graph nothing wanted after n waves is shallower than n |
| `Settle.NoCycleWhenShallow` | crates/borg-engine/src/derive.rs:87-922 | with every depth below 8 no producer is ever judged to be cycling, failed runs or not |
| `Settle.NextWave` | crates/borg-engine/src/derive.rs:733-794 | one wave keeps every round invariant and spends one of finitely many tickets, or ends the round |
| `Settle.RunRound` | crates/borg-engine/src/derive.rs:682-823 | every round ends; no invocation runs more than 8 times, said as the number, nor more than its depth plus one in a layered graph; where no producer newly broke, each invocation's last run read exactly what the branch finally shows, the index holds its read-set, and exactly the invocations with a reason ran |
| `Settle.NewCodeRunsEverywhere` | crates/borg-engine/src/derive.rs:974-1030 | after a round with no newly broken producer, a producer at watermark 0, or below the layer its code was pushed at, has run on every entity of its source buffer |
| `Settle.SetOffRuns` | crates/borg-engine/src/derive.rs:1038-1096 | whatever a record of the range sets off, by having been read or by being of a source entity another wrote, has run |
| `Settle.OldCodeRunsWhereSetOff` | crates/borg-engine/src/derive.rs:974-1096 | and a producer with nothing new in its code runs only where some record sets it off |
| `Settle.SceneIsWhatShows` | crates/borg-engine/src/derive.rs:974-1030 | a wave is scheduled over what the round's branch shows then, whoever wrote it |
| `Confluence.RanInBoth` | crates/borg-engine/src/derive.rs:733-794 | whatever ran in one settled round ran in every other from the same start |
| `Confluence.LastRunsAgree` | crates/borg-engine/src/derive.rs:733-794 | the last run of an invocation sees and writes the same in both |
| `Confluence.OutputShown` | crates/borg-engine/src/derive.rs:1104-1183 | the branch finally shows what an invocation's last run wrote, though each run has its own layer |
| `Confluence.Confluent` | crates/borg-engine/src/derive.rs:682-823 | two settled rounds from one start, however their runs interleaved and whatever the parallelism, run the same invocations, show the same value for every record and leave the same read-sets |
| `Fronts.WantedIsFront` | crates/borg-engine/src/derive.rs:831-924 | the invocations a wave schedules are the next front, which the footprints, the index, the range and the broken producers determine before the round begins |
| `Fronts.CyclesWhen` | crates/borg-engine/src/derive.rs:87-922 | a round in which no run fails breaks a producer for cycling exactly when some invocation lies in more than 8 fronts, whatever the interleaving |
| `Fronts.FrontIsWalk` | crates/borg-engine/src/derive.rs:1038-1096 | where the index holds what an invocation reads or the range dirties it, it is in front n exactly when a walk of n edges comes to it from one the range dirties |
| `Fronts.CyclesByWalks` | crates/borg-engine/src/derive.rs:85-87 | so such a round breaks a producer exactly when walks of more than 8 lengths come to one invocation |
| `Fronts.FrontIsShallow` | crates/borg-engine/src/derive.rs:85-87 | in a layered graph no front holds an invocation shallower than itself |
| `Fronts.LevelledRunsOnce` | crates/borg-engine/src/derive.rs:85-87 | a pipeline in levels, dirty at the first, runs each invocation once at most, however many levels it has |
| `Ladder.NineRungsBreak` | crates/borg-engine/src/derive.rs:87-922 | nine invocations, each reading what every lower one writes and all dirty at first, end with a producer broken whatever the interleaving |
| `Ladder.LadderIsLayered` | crates/borg-engine/src/derive.rs:85-87 | such a ladder exists with no cycle in it |
| `Ladder.ClimbTheLadder` | crates/borg-engine/src/derive.rs:831-924 | so a round over it breaks a producer for cycling although nothing depends on itself |
| `Transactions.WriteSession.Put` | crates/borg-engine/src/write.rs:265-287 | a write's accesses are an existence probe at most once per object and session, an implied existence write where the probe found nothing, then the write |
| `Transactions.WriteSession.ImplyExistence` | crates/borg-engine/src/write.rs:324-365 | a session never probes a cell it has already written, so reads-before-writes is a faithful account of it |
| `Transactions.Batched` | crates/borg-host/src/ops.rs:776-783 | absorbing a session as all its reads and then all its writes records the same guards as its true order of accesses |
| `Transactions.Transaction.Observe` | crates/borg-core/src/transaction.rs:73-78 | a read joins the history, and is recorded only where the cell is not yet written |
| `Transactions.Transaction.MarkWritten` | crates/borg-core/src/transaction.rs:80-83 | a write joins the history |
| `Transactions.Transaction.Absorb` | crates/borg-host/src/ops.rs:776-783 | absorbing a session is the session's own history, appended |
| `Transactions.Transaction.Guards` | crates/borg-core/src/transaction.rs:85-97 | after any history the guards are exactly the cells read or probed before the transaction first wrote them |
| `Transactions.Cascade` | crates/borg-core/src/transaction.rs:251-285 | the dropped set is the least one holding the failed layers and closed under reading what a dropped layer wrote |
| `Transactions.DroppedForAReason` | crates/borg-core/src/transaction.rs:240-285 | a layer that did not fail is dropped only because it read from a dropped one |
| `Merge.CheckGuards` | crates/borg-engine/src/branch.rs:248-262 | where the guards are looked at, a layer fails exactly when one of the cells it read outside the round's own output was touched by a parent source layer since the fork; each is named once, blaming such a cell |
| `Merge.CheckDangling` | crates/borg-engine/src/branch.rs:269-286 | a layer that passed its guards fails exactly when it writes to an object the parent deleted since, and the first such object is blamed |
| `Merge.FailedIsStale` | crates/borg-engine/src/branch.rs:248-286 | for any ascending round, versions and all: a layer is judged failed exactly when, where guards are looked at, some record it read is in no layer's outputs and a source layer above the fork has an event on that cell, or one of its events is on an object a source layer of the parent above the fork tombstones |
| `Merge.DroppedDescends` | crates/borg-core/src/transaction.rs:251-285 | what is dropped is exactly what a chain of reads leads to from a failed layer |
| `Merge.GroupByAuthor` | crates/borg-engine/src/branch.rs:300-313 | the kept layers fall into one group per author, each in order, none lost and none doubled |
| `Merge.LandGroups` | crates/borg-engine/src/branch.rs:315-336 | each author's group lands as one layer naming its events in order, an empty group lands nothing, and every kept event lands exactly once |
| `Merge.MemberAt` | crates/borg-engine/src/branch.rs:315-336 | every event of every layer of a group stands in its landing's membership, at the place its layer and its own order give it |
| `Merge.KeptCount` | crates/borg-engine/src/branch.rs:290-308 | kept and dropped layers together are all the layers |
| `Merge.MergeRound` | crates/borg-engine/src/branch.rs:240-337 | a round lands a consistent subset: the layers failed are exactly the stale ones, in the terms of `Merge.FailedIsStale`, the dropped ones exactly what descends from them, each applied layer's outside reads and objects are untouched and none of its inputs came from a dropped layer, rejected plus cascaded plus applied is every layer run, and each applied event lands exactly once in order within its producer |
| `Merge.SkippingIsSoundWhen` | crates/borg-engine/src/branch.rs:248-252 | not looking at the guards judges the same layers exactly where no layer would have failed on its guards alone |
| `Equations.OneSolution` | crates/borg-engine/src/derive.rs:524-539 | the source records and the producers determine every record: two worlds in which each producer's output is what it makes of that world are equal |
| `Trunk.ShowsTheLast` | crates/borg-core/src/layer.rs:90-98 | a branch shows for a record the value of the last layer that holds it |
| `Trunk.SourceIsTheLast` | crates/borg-core/src/layer.rs:90-98 | and at a watermark that of the last source layer at or below it |
| `Trunk.SpanAppends` | crates/borg-engine/src/derive.rs:549-630 | a range is its layers' changesets in the order they landed |
| `Trunk.LandedDirties` | crates/borg-engine/src/derive.rs:1038-1096 | a landed layer dirties an invocation exactly when the invocation read one of its records, or one is of its entity and another than its own producer wrote it |
| `Truth.OwedRuns` | crates/borg-engine/src/derive.rs:831-924 | an invocation whose inputs moved after the watermark, directly or through others, runs in the next round |
| `Truth.QuietHolds` | crates/borg-engine/src/derive.rs:682-823 | one that did not run still has the right values in the new world |
| `Truth.NewActivity` | crates/borg-engine/src/derive.rs:974-1096 | the invocations that exist in the new world are those that ran or were known |
| `Truth.RoundSolves` | crates/borg-engine/src/derive.rs:682-823 | a settled round shows exactly the world its source records determine, although it ran only what was dirty |
| `Truth.OnlySourcesSetOff` | crates/borg-engine/src/derive.rs:831-924 | what a round runs first was set off by a source record: derived layers landed since speak for what the watermark covers already |
| `Truth.RoundStandsFor` | crates/borg-engine/src/derive.rs:549-630 | the position a round stands for is the branch's highest source layer, or 0 where there is none |
| `RoundMerge.SameFate` | crates/borg-core/src/transaction.rs:217-285 | an invocation's several layers are dropped together or land together |
| `RoundMerge.WhyGone` | crates/borg-core/src/transaction.rs:217-285 | an invocation is dropped only because an input moved on the branch since the fork or comes from a dropped one |
| `RoundMerge.GroupRecord` | crates/borg-engine/src/branch.rs:300-336 | within a landed layer a record holds what its invocation's last run wrote |
| `RoundMerge.LandsIsMerged` | crates/borg-engine/src/branch.rs:240-337 | the merge as performed leaves exactly the last runs' records of the invocations not dropped, labelled with what the round reflects |
| `RoundMerge.EventsClaim` | crates/borg-engine/src/derive.rs:206-242 | every event a merge lands names the producer and the position its landed layer names, and has for read-set all its run was shown |
| `Watermarks.CommitKeeps` | crates/borg-engine/src/branch.rs:206-219 | a client commit, with a round in flight or not, keeps what every watermark is worth |
| `Watermarks.GoneIsOwed` | crates/borg-engine/src/branch.rs:240-337 | whatever a merge dropped is owed a run against the advanced watermark |
| `Watermarks.FinishKeeps` | crates/borg-engine/src/derive.rs:806-823 | landing a round beside commits made meanwhile, and advancing the watermark, keeps the invariant with the new world added |
| `Watermarks.FinishAdvances` | crates/borg-engine/src/derive.rs:806-823 | landing a round takes the watermark forward, to the highest source layer there was when it forked |
| `Watermarks.NextKeeps` | crates/borg-engine/src/derive.rs:524-539 | every step keeps it |
| `Watermarks.ReachedIsSound` | crates/borg-engine/src/derive.rs:524-539 | every run keeps it |
| `Watermarks.LabelledByTheSources` | crates/borg-engine/src/derive.rs:524-823 | in every run of client commits interleaved with rounds, whatever their merges rejected, a derived record labelled W holds what the one world determined by the source records visible at W holds, however deep the graph |
| `Watermarks.WatermarkTruth` | crates/borg-engine/src/derive.rs:524-823 | and where evaluating all producers from scratch over those sources settles, exactly what that shows |
| `Serial.SameWork` | crates/borg-core/src/transaction.rs:73-97 | two parents that agree on a transaction's guards give it the same branch |
| `Serial.SameAnswers` | crates/borg-host/src/ops.rs:832-863 | and the same answer to every source read, but one of a cell written before it was ever read, of a record the transaction did not itself write |
| `Serial.EscapesTells` | crates/borg-host/src/ops.rs:832-863 | every such read is answered differently by some two parents that agree on the guards |
| `Serial.GuardsDecideWhen` | crates/borg-core/src/transaction.rs:73-97 | so agreeing on the guards fixes a transaction's work and answers exactly when it makes no such read |
| `Serial.CommitSerial` | crates/borg-engine/src/branch.rs:206-219 | an accepted transaction did exactly what it would have done alone, after those that landed before it |
| `Serial.CommitShowsSerial` | crates/borg-engine/src/branch.rs:373-459 | replaying its layers onto the moved parent gives the source state of that one-at-a-time order |
| `Serial.HoldsWhatIsLeft` | crates/borg-engine/src/write.rs:265-365 | over the operations alone: a transaction's branch holds, for each record, the value of the last set of it, presence for an object a property of which it set where the parent had none, and nothing else |
| `Serial.AnswersAre` | crates/borg-host/src/ops.rs:832-863 | so a get of a record the transaction has set answers the value of the last such set, and any other what the parent shows or an object it created |
| `Serial.GuardsFollow` | crates/borg-engine/src/write.rs:324-365 | a cell is guarded exactly when a get of it, or a set of a property of it, came before any set of it |
| `Serial.LayersHoldSets` | crates/borg-engine/src/write.rs:265-287 | of a property, a transaction's layers hold exactly the records set |
| `Serial.LandedShows` | crates/borg-engine/src/branch.rs:373-459 | after its layers land the parent shows what the transaction leaves, and every other record as before |
| `Serial.ObjectsArePresent` | crates/borg-engine/src/write.rs:324-365 | and for each property set an object that is present |
| `Serial.DanglesMeans` | crates/borg-engine/src/branch.rs:513-545 | a commit is refused as dangling exactly when the operations set a property of an object whose newest record on the parent is a tombstone that landed above the fork |
| `Serial.CrossVersionReadEscapes` | crates/borg-core/src/transaction.rs:73-83 | a property set through one view and read back through a newer one, on an object both parents show, is such a read: the guards name the object alone |
| `Serial.Table.Begin` | crates/borg-host/src/ops.rs:797-831 | a transaction forks at the branch's head, seeing what the parent shows then, or is refused where the branch can see no layer |
| `Serial.Table.TxGet` | crates/borg-host/src/ops.rs:832-863 | a get answers the last value the transaction set for the record, else the parent as of the fork, by the operations alone, and changes nothing else |
| `Serial.Table.TxSet` | crates/borg-host/src/ops.rs:865-886 | a set lands on the transaction's own branch, in the terms of `Serial.HoldsWhatIsLeft`, and leaves the parent as it was |
| `Serial.Table.TxCommit` | crates/borg-host/src/ops.rs:1007-1056 | a transaction lands all its layers in order exactly when it is open, no cell it guards was written since its fork and it sets no property of an object deleted since; the parent then shows the last value set of every record set, and every other record as before; no other transaction lands any; in every run the accepted transactions replayed one at a time in landing order give the same source answers and the same source state |
| `Serial.Table.TxAbort` | crates/borg-host/src/ops.rs:1058-1064 | an abort leaves the parent and every other transaction unchanged |
| `Serial.Table.Derive` | crates/borg-engine/src/branch.rs:314-335 | rounds landing beside the transactions change no source answer |
| `Log.LayerManager.Fork` | crates/borg-engine/src/branch.rs:138-162 | a branch forks only at a layer of the named branch |
| `Log.LayerManager.OpenLayer` | crates/borg-engine/src/log.rs:416-438 | a layer takes the next id and the branch's head as parent |
| `Log.LayerManager.Transition` | crates/borg-engine/src/log.rs:511-526 | a state changes only from the expected one |
| `Log.LayerManager.Commit` | crates/borg-engine/src/log.rs:440-497 | in whatever order layers commit, the head is the highest committed one and the def-layer list holds each committed def layer once; a failed guard aborts the layer |
| `Log.LayerManager.Abort` | crates/borg-engine/src/log.rs:505-509 | only an open layer aborts, and nothing else moves |
| `Log.LayerManager.Restore` | crates/borg-engine/src/log.rs:140-169 | a layer read back keeps every head and list right, and one whose owner is gone comes back aborted |
| `Log.LayerManager.ReadPath` | crates/borg-engine/src/log.rs:200-224 | the loop ends and gives each ancestor bounded at the fork below it and at the asked layer |
| `Log.PathIs` | crates/borg-engine/src/log.rs:200-224 | a path starts at the branch asked, passes from each branch to the one it was forked from, bounded at the fork and at the asked layer, and ends at a root |
| `Log.AncestorBounds` | crates/borg-engine/src/log.rs:200-224 | every ancestor is read at or below the branch's own origin |
| `Log.AncestorsDiffer` | crates/borg-engine/src/log.rs:200-224 | no branch occurs twice on a path |
| `Log.OriginsFall` | crates/borg-engine/src/log.rs:200-224 | each ancestor was forked strictly earlier |
| `Spans.Scan` | crates/borg-engine/src/derive.rs:558-604 | the range holds exactly the committed layers above the watermark up to the first source layer still open, with its top source layer, and says whether any is work |
| `Spans.FindSpan` | crates/borg-engine/src/derive.rs:549-630 | a span forks at its last layer and reflects its top source layer, or the path's where it holds none; none means there is no work in reach |
| `Spans.SpanIs` | crates/borg-engine/src/derive.rs:549-630 | a range holds every committed layer with no source layer still open between it and the watermark, forks at the highest and stands at the highest source layer among them, or at the path's; and some of it is work |
| `Spans.NoSpanMeans` | crates/borg-engine/src/derive.rs:549-630 | there is none only where all in reach is incorporated, or all is derived and the path shows no source layer |
| `Spans.SettledCeiling` | crates/borg-engine/src/log.rs:370-391 | the longest prefix of a branch's committed layers in which every source layer is at or below the watermark and every derived one reflects no more than it |
| `Spans.HighestSourceLayer` | crates/borg-engine/src/log.rs:393-408 | the highest committed source layer a path shows |
| `Spans.DefLayersOf` | crates/borg-engine/src/log.rs:171-183 | exactly the committed def layers at or below the bound, oldest first |
| `Spans.SpanIsFinished` | crates/borg-engine/src/derive.rs:549-630 | what a span reflects has no pending source layer at or below it |
| `Spans.SpanIsCoherent` | crates/borg-engine/src/derive.rs:549-643 | between what a round reflects and where it forks is only derived data, none of it speaking for anything newer |
| `Spans.SettledHasNoSpan` | crates/borg-engine/src/derive.rs:541-548 | a round does not chase its own output |
| `Progress.ReachedIsSound` | crates/borg-engine/src/derive.rs:491-630 | opening, out-of-order commits, aborts, rounds, recomputes called with nothing open beneath them and everything on other branches keep the branch's invariant |
| `Progress.MarksNeverPassPending` | crates/borg-engine/src/derive.rs:524-630 | in every run no watermark reaches a source layer that may still commit |
| `Progress.MarksPassInherited` | crates/borg-engine/src/derive.rs:524-630 | a watermark that has come to a source layer of the branch's own stands above whatever the branch's ancestors still have open in its reach |
| `Inherited.PathIsSafeWhen` | crates/borg-engine/src/derive.rs:524-630 | over the whole read path, no watermark ever reaches a source layer that may still commit, in any run from here, exactly when no ancestor has one open or sealed within the branch's reach now |
| `Inherited.ParentCanCommitBeneath` | crates/borg-engine/src/derive.rs:559-582 | forked above its parent's open layer, a branch commits and settles one layer of its own and its watermark stands above the parent's |
| `Progress.EverySpanIsCoherent` | crates/borg-engine/src/derive.rs:549-643 | in every run each span's fork point is a snapshot of the world it names |
| `Progress.RoundThenNothing` | crates/borg-engine/src/derive.rs:806-821 | after a round with no newer source layer there is no further span |
| `Progress.RecomputeIsSafeWhen` | crates/borg-engine/src/derive.rs:491-515 | after a recompute no watermark ever reaches a source layer of the branch that may still commit, in any run, exactly when none of them lay beneath the path's highest committed source layer at the call |
| `Progress.RecomputeCanPass` | crates/borg-engine/src/derive.rs:491-515 | two layers opened and the later committed first are enough for it to settle past the other |
| `Touch.CellTouchIndex.Apply` | crates/borg-engine/src/touch.rs:141-151 | folding a layer, in any order, once or again, leaves the index agreeing with the set of layers folded |
| `Touch.CellTouchIndex.Record` | crates/borg-engine/src/touch.rs:44-59 | the layer joins each written cell's history and no other, and raises its branch's highest |
| `Touch.CellTouchIndex.MovedSince` | crates/borg-engine/src/touch.rs:71-79 | true where some segment's highest source layer is newer than `since` and within the bound |
| `Touch.CellTouchIndex.FirstTouchedSince` | crates/borg-engine/src/touch.rs:90-103 | the first listed cell a scan of the committed source layers finds touched in range, with its earliest layer |
| `Touch.CellTouchIndex.Lookup` | crates/borg-engine/src/touch.rs:105-126 | the earliest such layer for one cell, though histories are stored unordered |
| `Touch.OneAnswer` | crates/borg-engine/src/projection.rs:110-168 | a live index, a rebuild from zero and a refold give one answer |
| `Touch.BringToHead` | crates/borg-engine/src/projection.rs:110-154 | catching up folds exactly what the index had not seen and says how much that was |
| `Touch.QuickAnswer` | crates/borg-engine/src/touch.rs:61-79 | "moved" is never said of a path where nothing moved, and "not moved" is right wherever no segment has moved past its bound |
| `Touch.QuickIsWrong` | crates/borg-engine/src/touch.rs:61-79 | "not moved" misses a movement exactly when every segment that moved has also moved past its bound |
| `Touch.CatchUpIsQuick` | crates/borg-engine/src/branch.rs:248-262 | for a round of `catch_up` the quick negative gives what checking every guard would |
| `Touch.RecomputeIsQuickWhen` | crates/borg-engine/src/branch.rs:248-262 | for `recompute` it is wrong exactly when nothing has landed on the branch itself, some source layer has landed beneath an ancestor's bound, and every ancestor that moved so has also moved past its bound; elsewhere it gives what checking every guard would |
| `Touch.NewerHidesOlder` | crates/borg-engine/src/touch.rs:71-79 | a recompute called on a fork while its parent has a source layer open, which commits with another above it before the merge, is such a case |
| `Schema.JudgedByItsField` | crates/borg-engine/src/defs.rs:293-425 | whether an event applies depends on its own field's state alone, whatever layer carries it, and it changes no other field |
| `Schema.DisjointCommute` | crates/borg-engine/src/defs.rs:293-425 | events on different fields commute, refusals included |
| `Schema.FoldAlike` | crates/borg-core/src/def.rs:183-199 | events that avoid whatever one side moved fold alike on both sides |
| `Schema.TotalIsWhole` | crates/borg-engine/src/defs.rs:542-557 | a history folds at every ceiling exactly when it folds whole |
| `Schema.ReplayFolds` | crates/borg-engine/src/branch.rs:385-457 | a child's def layers, appended unvalidated to a parent that moved none of the same fields, fold, and its fields end as they were on the child |
| `FieldHistory.FoldTold` | crates/borg-engine/src/defs.rs:293-425 | whatever folds says what its history tells, for every field, producer and struct: a field is there when declared and not deleted since, its version is the layer that last moved it, its chain is its mutations in order, each from the version before with its own two migrations, and a producer's version is the layer of its latest push |
| `FieldHistory.FieldIs` | crates/borg-engine/src/defs.rs:293-425 | a field has the type and repo of the latest event to shape it and the owner its latest declaration named |
| `FieldHistory.JudgedByHistory` | crates/borg-engine/src/defs.rs:293-425 | an event is refused, and with which error, exactly by what the history tells of its field: a declaration unlike what lives, a mutation of what does not live or is another repo's or a producer's, a deletion by another repo |
| `Definitions.OwnParentForked` | crates/borg-engine/src/branch.rs:184-204 | a child and the parent it was forked from share everything up to the fork |
| `Definitions.MergeFolds` | crates/borg-engine/src/branch.rs:385-403 | a merge that does not diverge always folds |
| `Definitions.DivergesMeans` | crates/borg-engine/src/branch.rs:481-500 | a merge diverges exactly when some field has an event on the child's own layers and one on the parent's above the fork |
| `Definitions.PathHolds` | crates/borg-engine/src/defs.rs:542-557 | a branch's path holds its own def layers and those its origin's path holds at or below the fork, and no other |
| `Definitions.AppendKeeps` | crates/borg-engine/src/defs.rs:559-577 | growing one branch leaves every branch folding at every ceiling |
| `Definitions.DefRegistry.Push` | crates/borg-engine/src/defs.rs:559-577 | a push is kept exactly when the whole path with it folds |
| `Definitions.DefRegistry.Fork` | crates/borg-engine/src/branch.rs:138-162 | a fork at any layer folds at every ceiling |
| `Definitions.DefRegistry.Merge` | crates/borg-engine/src/branch.rs:373-459 | a merge is refused exactly when both sides moved one field since the fork, in the terms of `Definitions.DivergesMeans`, and otherwise every branch still folds, although nothing was folded to check |
| `Definitions.DefRegistry.ViewAt` | crates/borg-engine/src/defs.rs:542-557 | in every state reached by pushes, forks and merges, a view at any ceiling is never an error, and says of every field, producer and struct what its history tells |
| `MigrationPath.FoldedChain` | crates/borg-engine/src/defs.rs:341-390 | every chain a branch folds to is linked end to end with rising versions |
| `MigrationPath.Walk` | crates/borg-engine/src/defs.rs:435-477 | the loop over the chain, up or down, against the path it means |
| `MigrationPath.UpIsContiguous` | crates/borg-engine/src/defs.rs:435-477 | up is always there, and its hops join from one version to the other, each going up by the migration its own step names |
| `MigrationPath.DownIsContiguous` | crates/borg-engine/src/defs.rs:435-477 | down is there exactly when every step crossed has a way down, and then joins too, each hop going down by the migration its own step names |
| `MigrationPath.UpConcatenates` | crates/borg-engine/src/defs.rs:435-477 | up through any middle version is the two parts joined |
| `MigrationPath.DownConcatenates` | crates/borg-engine/src/defs.rs:435-477 | down exists exactly when both parts do, and is the two joined |
| `MigrationPath.NeverMutatedHasNoPath` | crates/borg-engine/src/defs.rs:435-477 | a field no event has mutated, though deleted and declared again, has no path between two versions |
| `MigrationPath.UpJoinsWhen` | crates/borg-engine/src/defs.rs:435-477 | the hops up join one version to the other exactly when both are on the chain |
| `MigrationPath.DownJoinsWhen` | crates/borg-engine/src/defs.rs:435-477 | the hops down do exactly when, besides, every step crossed has a way down |
| `MigrationPath.OlderReaderStops` | crates/borg-engine/src/resolve.rs:525-541 | a view older than the field asks for the undeclared version, which is on no chain, and is given a path that stops at the field's first version |
| `MigrationPath.OffChainSkips` | crates/borg-engine/src/resolve.rs:525-541 | a chain where that happens |
| `Validate.Validate` | crates/borg-engine/src/resolve.rs:463-514 | the memoised walk ends on every store, cyclic ones included, with the answer and memo of its specification |
| `Validate.WalkIsPlain` | crates/borg-engine/src/resolve.rs:463-514 | from any memo built on the way the walk gives the plain recursion's answer and leaves such a memo |
| `Validate.MemoChangesNothing` | crates/borg-engine/src/resolve.rs:463-514 | on acyclic graphs the memo changes nothing |
| `Validate.CleanWalk` | crates/borg-engine/src/resolve.rs:463-514 | a walk that reaches its target found nothing moved in all it met |
| `Validate.ReachingTheTarget` | crates/borg-core/src/cell.rs:365-370 | where every visible record reflects at most the target, an answer that reaches it means no record anywhere in the read closure reflects past its reader's `fresh_as_of`, cycles included |
| `Validate.AnswerIsLeastWhen` | crates/borg-engine/src/resolve.rs:455-514 | on acyclic stores, from any memo built on the way, the answer is the least of the target, the answers of the derived records read and the claim where something moved, exactly when nothing read directly reflects past the claim or the claim is the least of them anyway |
| `Validate.AnswerIs` | crates/borg-core/src/cell.rs:365-370 | over the two fields themselves: the claim as soon as a source record read landed above it or a derived one's `fresh_as_of` is above it, otherwise the least of the target and what each derived record read is good for |
| `Validate.UnfinishedBoundsByItsClaim` | crates/borg-engine/src/resolve.rs:463-514 | a record met while it is itself being validated bounds the answer by its own `fresh_as_of` |
| `Validate.SelfReadIsWorthItsClaim` | crates/borg-engine/src/resolve.rs:463-514 | so one that reads itself is worth its own claim |
| `Validate.MovedDropsBounds` | crates/borg-engine/src/resolve.rs:478-500 | three records for which it is not |
| `Validate.FrontierTracker.Advance` | crates/borg-engine/src/resolve.rs:54-78 | a watermark only rises, and only that one |
| `Validate.FrontierTracker.Rewind` | crates/borg-engine/src/resolve.rs:80-92 | a rewound producer has incorporated nothing |
| `Validate.FrontierTracker.Settled` | crates/borg-engine/src/resolve.rs:94-105 | the least watermark of the named producers, or none where there are none |
| `DependencyIndex.MemoryDependencyIndex.Record` | crates/borg-engine/src/index.rs:100-136 | after any sequence of calls the three maps are those the sequence determines |
| `DependencyIndex.MemoryDependencyIndex.Dependents` | crates/borg-engine/src/index.rs:138-149 | exactly the invocations whose latest recorded read-set on the branch meets the cells |
| `DependencyIndex.MemoryDependencyIndex.Dependencies` | crates/borg-engine/src/index.rs:151-158 | the read-set of the latest run that wrote the cell |
| `DependencyIndex.LatestReadsAre` | crates/borg-engine/src/index.rs:100-149 | an invocation's edges on a branch are those of the last call for it there |
| `DependencyIndex.LatestWriterIs` | crates/borg-engine/src/index.rs:100-158 | and a cell's those of the last call on the branch that wrote it |
| `DependencyIndex.RebuildAgreesWhen` | crates/borg-engine/src/projection.rs:245-265 | a rebuild subscribes an invocation as the live index does exactly when the last landed event that speaks for it carries the cells of its latest run |
| `DependencyIndex.RunsLandInOrder` | crates/borg-engine/src/projection.rs:245-265 | what a branch's landed runs wrote, run after run and whatever they wrote, speaks for each invocation whose entity no other writes |
| `DependencyIndex.RebuiltExplains` | crates/borg-engine/src/projection.rs:245-265 | and explains a cell by the read-set its last landed event carries |
| `DependencyIndex.RunsRebuildWhen` | crates/borg-engine/src/derive.rs:206-242 | so, where the latest run landed and wrote its own entity, exactly when it read nothing new after its last such write |
| `DependencyIndex.EarlyWriteForgets` | crates/borg-engine/src/derive.rs:206-242 | a run that writes and then reads on is forgotten: the live index subscribes it to the later cell and the rebuilt one does not |
| `Stream.EventReadsBack` | crates/borg-host/src/stream.rs:580-631 | an event's row, read in the block it stands in, is the event |
| `Stream.RowSays` | crates/borg-host/src/stream.rs:580-631 | and says the event's id, its cell's address, its value and version, whose run it came from and what that run had read, in order |
| `Stream.WriteMembers` | crates/borg-host/src/stream.rs:449-476 | the membership loop: events authored here in full, each preceded by content this layer has not yet carried; events authored elsewhere by name |
| `Stream.WriteStream` | crates/borg-host/src/stream.rs:341-478 | the whole export, one row that cannot be spelt failing it |
| `Stream.ExportStarts` | crates/borg-host/src/stream.rs:110-116 | a stream begins with the header of version 1 |
| `Stream.ContentComesFirst` | crates/borg-host/src/stream.rs:449-476 | an event naming content not yet carried in its block comes after that content |
| `Stream.ContentOnce` | crates/borg-host/src/stream.rs:449-476 | and a layer carries each content once |
| `Stream.SidecarsAre` | crates/borg-host/src/stream.rs:341-393 | of the sidecars a stream says everything, each list in the order of its ids, a paused branch once |
| `Stream.ReadStream` | crates/borg-host/src/stream.rs:700-806 | the whole restore, one bad record failing it |
| `Stream.FeedMembers` | crates/borg-host/src/stream.rs:787-797 | reading a layer's member records gives its membership in order, its own events and the content they refer to |
| `Stream.FeedLayers` | crates/borg-host/src/stream.rs:747-754 | one forward pass restores every layer, each name resolving to an event already stored |
| `Stream.InOrderAgain` | crates/borg-host/src/stream.rs:361-393 | sorting and deduplicating the sidecars is idempotent |
| `Stream.RoundTrip` | crates/borg-host/src/stream.rs:683-822 | restoring an export gives the same branches, committed layers, ordered memberships, def events and lineage, with the sidecars in order and the content the log refers to |
| `Stream.ContentIsReferredTo` | crates/borg-host/src/stream.rs:449-476 | restored is the content some event refers to where it is authored, byte for byte, and no other |
| `Stream.RestoredIsWellKept` | crates/borg-host/src/stream.rs:700-822 | whatever stream is accepted, its own or not, the store restored has one layer an id in their order, def events or value events as its kind says, no membership naming what is not there, every event in the layer that authored it, and content under the name its bytes have |
| `Acceptance.RestoredWhen` | crates/borg-host/src/stream.rs:683-822 | a stream is restored exactly when it begins with the header of version 1 and each record fits those before it: a layer not met before, addresses that can be read, content whose bytes have its name, def or value records in a block of that kind, each event once and no name of an event still to come |
| `Stream.SameMember` | crates/borg-host/src/stream.rs:449-476 | every event a committed layer names is restored unchanged, and so is the content it refers to, where there was any |
| `Stream.ExportAgain` | crates/borg-host/src/stream.rs:341-478 | exporting the restored store gives the identical record sequence |
| `Stream.ExportsAndReturns` | crates/borg-host/src/stream.rs:555-578 | a store whose addresses the constructors built always exports |
| `Lineage.AppendKeeps` | crates/borg-engine/src/branch.rs:432-457 | a merge's layer, naming what committed layers name, names only events authored in committed layers below it |
| `Lineage.StepKeeps` | crates/borg-engine/src/log.rs:416-509 | every engine step keeps that, aborts included |
| `Lineage.EveryRunIsWellKept` | crates/borg-host/src/stream.rs:658-668 | in every state of every run, every member record an export would write points backwards |
| `Lineage.EveryRunReturns` | crates/borg-host/src/stream.rs:658-668 | so each such registry exports, restores to the same log and exports again identically |
| `Lineage.EveryEventIsHome` | crates/borg-engine/src/log.rs:416-509 | in every state of every run each event stored is in the membership of the layer that authored it, and that layer was not aborted |
| `BigInt.TimesTenPlus` | crates/borg-core/src/bigint.rs:33-46 | one digit more, and no carry escapes |
| `BigInt.Increment` | crates/borg-core/src/bigint.rs:105-114 | adds one; a carry escapes only where every byte is 255 |
| `BigInt.Encode` | crates/borg-core/src/bigint.rs:21-72 | succeeds exactly on decimal integers, with the minimal two's-complement bytes of the number denoted |
| `BigInt.DivideByTen` | crates/borg-core/src/bigint.rs:84-97 | quotient and remainder, in place |
| `BigInt.Decode` | crates/borg-core/src/bigint.rs:74-103 | the canonical decimal of any bytes at all |
| `BigInt.MinimalIsShortest` | crates/borg-core/src/bigint.rs:52-72 | no byte string for the same number is shorter than the encoding |
| `BigInt.OneEncoding` | crates/borg-core/src/bigint.rs:21-72 | two decimals encode alike exactly when they are one number |
| `BigInt.OneSpelling` | crates/borg-core/src/bigint.rs:74-103 | a number has one canonical decimal |
| `BigInt.KnownBytes` | crates/borg-core/src/bigint.rs:149-170 | the bytes about which the sign comes and goes, as numbers |
| `BigInt.NoDecimals` | crates/borg-core/src/bigint.rs:172-178 | texts that are no integer |
| `BigInt.TextRoundTrip` | crates/borg-core/src/bigint.rs:21-103 | decoding an encoding gives the text with leading zeros and minus zero normalised |
| `BigInt.BytesRoundTrip` | crates/borg-core/src/bigint.rs:21-103 | encoding a decoding gives the minimal form of any byte string |
| `PidText.VarintTaken` | crates/borg-core/src/pid.rs:206-233 | a varint put is the varint taken, whatever follows it |
| `PidText.VarintWidths` | crates/borg-core/src/pid.rs:123-135 | ten bytes at most for a u64, five for a u32 |
| `PidText.PutVarint` | crates/borg-core/src/pid.rs:206-216 | the buffer gains exactly the varint and is otherwise untouched |
| `PidText.TakeVarint` | crates/borg-core/src/pid.rs:218-233 | refuses a group past 64 bits or whose bits would be lost |
| `PidText.StaysInStep` | crates/borg-core/src/pid.rs:235-287 | fed the encoder's digits, the decoder has every byte but the last, and their pending bits make that byte |
| `PidText.Base32RoundTrip` | crates/borg-core/src/pid.rs:235-287 | decoding the digits of a payload gives the payload |
| `PidText.EncodeBase32` | crates/borg-core/src/pid.rs:235-251 | the two nested loops write those digits |
| `PidText.DecodeBase32` | crates/borg-core/src/pid.rs:258-287 | the loop refuses a bad digit, too many bytes, dirty padding and a length no PID has, and nothing else |
| `PidText.RenderPid` | crates/borg-core/src/pid.rs:137-161 | the imperative rendering is the text form |
| `PidText.ReadsBack` | crates/borg-core/src/pid.rs:123-307 | parsing a rendered PID gives it back for every kind, number and hash, and length alone tells the two flavours apart |
| `PidText.Lossless` | crates/borg-core/src/pid.rs:123-161 | no two PIDs share a text |
| `PidSpelling.ReadsWhen` | crates/borg-core/src/pid.rs:163-307 | a text is read as a PID exactly when its letter is of that kind in either case, its characters stand for digits in either case or as look-alikes, and those digits are, as one number shifted by fewer than eight zero bits, a 32-byte hash or at most 25 bytes holding three numbers in groups of seven bits; any other text is refused |
| `PidSpelling.EncodedIsTheNumber` | crates/borg-core/src/pid.rs:235-251 | the digits written are the payload as one number, in as few as hold it |
| `PidSpelling.AllocatedWhen` | crates/borg-core/src/pid.rs:189-233 | a payload is an allocated PID exactly when it splits into three framed numbers of at most ten groups that are its branch, allocator and counter |
| `PidSpelling.AlphabetIs` | crates/borg-core/src/pid.rs:235-256 | the digits rise and are the decimal ones and lower-case letters but for i, l, o and u |
| `PidSpelling.OneSpellingWhen` | crates/borg-core/src/pid.rs:258-287 | a text that is read is the one written exactly when it is plain, has no zero digit to spare and holds no overlong number |
| `PidSpelling.MoreSpellings` | crates/borg-core/src/pid.rs:163-233 | three texts of one PID |
| `PidSpelling.KnownText` | crates/borg-core/src/parse.rs:436-449 | object 100 of branch 1, to the letter, and so for every kind |
| `CellText.ReadsBack` | crates/borg-core/src/parse.rs:46-151 | parsing a rendered address gives the cell back for every constructor-built cell with separator-free names and a matching PID kind |
| `CellText.AddressIs` | crates/borg-core/src/cell.rs:167-210 | the six shapes of an address |
| `CellText.AddressesDiffer` | crates/borg-core/src/cell.rs:194-210 | no two such cells share an address |
| `CellSpelling.ReadsWhen` | crates/borg-core/src/parse.rs:46-151 | a text is read as a cell exactly when it is a name, a separator and an id, with a field after its first dot and an index in brackets after a list's id, each part where that shape of cell takes it; any other text is refused |
| `CellText.ShorthandMeans` | crates/borg-core/src/parse.rs:46-151 | `Name#n` is the caller's own branch and allocator |

## Left out

- SQLite, JSON, sockets, worker processes, the CLI and code generation: I/O. Records of the export stream are datatypes, not lines; its binary name, counts and settled position are not carried.
- SHA-256 and FNV: a parameter `hash`; of content addressing only the kind and length of a name matter, and that restored bytes hash to the name they claim.
- Doubles, and guessing a type for untyped text: no round trip to state.
- Poisoning, `retry_broken` and inline computation inside `Watermarks`: each breaks a hypothesis of the watermark theorem. `Settle` models poisoning by failed runs and by the rerun limit.
- Scheduler.InvalidatedBy: without the peer filter of paired up and down migrations and the input-version filter, which only narrow what is scheduled.
- Scheduler.Backfill: without the live-version and migration-role conditions, for the same reason.
- Scheduler.ScheduleOne: speaks for producers none of which is a migration's half.
- Scheduler.Schedule: the same.
- `forget_producer`: it strips forward edges on every branch but read-sets on one.
- `check_write` and ownership: a case split with no proof behind it.
- Explicit guards on derived cells: their refusal is an input to `Log.LayerManager.Commit`, as are the guards' own results.
- Error texts, and which malformed part of a PID or address is reported: a failed parse is `None`.
- The choice of hex or text for content records, and an event's `origin` field, which says again whether it has a derivation.
- Serial.Table.TxCommit: stated over the branch's own log above an inherited base that does not move; def layers of a transaction and explicit guards on derived cells are not in it.
- Serial.Table.TxGet: derived reads are outside the serial order, since the touch index holds source layers only.
- Watermarks.WatermarkTruth: needs a from-scratch round that settles; `Watermarks.LabelledByTheSources` does not. Both speak for one branch with a fixed producer set and no deletes, with all watermarks advancing together as one call of `catch_up` advances them.
- RoundMerge.LandsIsMerged: takes the merge as atomic, one landed layer per producer.
- Confluence.Confluent: says nothing about rounds in which a producer broke.
- Progress.RoundThenNothing: takes at least one registered producer.
- Definitions.DefRegistry.Merge: carries def layers only; value layers beside them do not change a fold.
- Log.LayerManager.Commit: whether a guard failed is an input; what makes one fail is `Touch.CellTouchIndex.FirstTouchedSince`.
- Merge.MergeRound: the quick negative is an input; when it is right is `Touch.CatchUpIsQuick` and `Touch.RecomputeIsQuickWhen`.
- RoundMerge.SameFate: takes every guard as looked at, as `Touch.CatchUpIsQuick` allows for the rounds of `catch_up`.
- Touch.BringToHead: one projection, the touch index; the loop over the registered projections is not modelled.
- Progress.MarksNeverPassPending: the branch's own layers only; for an ancestor's the exact condition is `Inherited.PathIsSafeWhen`.
