# Noola: runner, automations and SDK, verified

A Dafny model of three parts of the repository, and proofs about them.

**The runner** (`runner/`) takes jobs from a redelivering queue, admits them through a global
semaphore and a per-tenant counter, starts one sandbox per job, follows the file the job is still
writing, cuts its bytes into live events and lines, and ends every delivery with one Ack, Nak or Term.

- `Outcomes`, `Gates`, `Runner`, `Broker`: how a run's outcome is settled; the gates and one handler
  that passes through them; one process with any number of concurrent handlers and its shutdown, as a
  step system; the queue with any number of such processes.
- `SandboxJob`, `Runs`: one job in one sandbox against a Box that answers as it likes, and the two
  kinds of run around it. `Runs` is where the pieces meet: that a run's outcome says its process was
  started exactly when it was is what the step system's `Return` step takes as its guard.
- `OutputEvents`, `Utf8`, `ShellOutput`, `FlowRelay`, `EnvFile`: what becomes of the bytes.
- `BoxBases`, `BaseHistories`, `FlowBases`, `NamedBases`: the two machines that build or pull a sandbox base.

**Automations** (`web/src/`, `api/apps/api/src/automations.ts`): `FlowGraph`, `DeriveGraph` (a linear
rule compiled to a graph), `KahnOrder` and `Engine` (what the engine does with a graph and with a
list, in any environment), `Branching` (where a node sends a run), `Templates`, `Actions` and `Rules` (that environment spelled out: the run's
context, the templates read from it, and what each type of action asks of the world), `RuleOrGraph` and
`CanvasRun` (when a rule does the same as a graph, and from the canvas), `Reachability`, `CanvasEdits`,
`FlowCollab` (a graph reconciled into shared maps), `EventStream` (the frame loop of a live execution).

**The Go SDK** (`sdk/go/`): `Retry`, `BulkSync`, `SyncReport`.

`Sequences`, `Texts` and `Options` hold what the others share. Code that changes state is a class or a
method proved against a specification function; the properties are lemmas about those functions, over
every input, cutting, history or run. `dafny verify dfyconfig.toml` checks everything.

## What the proofs found

These promises hold only under the condition proved with them.

- An event line is promised to be dropped when it is over 16 MiB. `flowRelay` tests the length only
  when a chunk ends inside the line, so a line between M and M + C bytes (C the largest chunk) is
  handled or dropped depending on how the stream was cut, and only such a line is
  (`FlowRelay.WhenTheCutMatters`).
- The delivery budget is promised to end a job as failed. Four branches of a handler hand a last
  delivery back without looking at the budget: the message dies and the run stays queued or running
  (`Broker.WhenTheLastDeliveryDies`, `Broker.NeverRecorded`).
- One handler that stands between the two gates can send another tenant's only job back although
  there is room for it (`Runner.BetweenTheGates`); `Runner.WhenANewTenantIsAdmitted` says exactly when.
- A run is settled by its exit code even if the reads after its end failed: a success can come with
  none of its output (`SandboxJob.SuccessWithoutOutput`), and `SandboxJob.WhenOutputIsWhole` says
  exactly when all of it was delivered.
- A rule turned into its graph need not do the same, and not only when a template or a condition names
  what a graph run puts in the context: `notify`, `escalate` and `browser_extract` hand the whole context
  on (`RuleOrGraph.PlainNotifyDiffers`). `RuleOrGraph.WhenTheGraphIsTheList` gives the exact condition,
  action by action.
- A later node is promised an earlier one's output as `{{steps.<id>.<field>}}`. Only ids of letters,
  digits and `_` can be named so, and those of a derived graph's actions cannot
  (`RuleOrGraph.WhenAStepCanBeNamed`, `RuleOrGraph.DerivedStepsAreUnnamed`).
- A rule without a graph that is run from the canvas goes past a `stop` at which the engine halts, and
  its options withhold or await some actions; `CanvasRun.WhenTheCanvasRunIsTheEngines` says exactly when
  it does what the engine does.
- An `error` frame whose message does not count as true does not make the call throw, and cancels the
  error frames before it (`EventStream.WhenAnErrorThrows`, `EventStream.EmptyErrorIsForgotten`); one
  whose payload is `null` throws a TypeError (`EventStream.NullErrorCrashes`).
- When a later request of a bulk call fails, `Sync` reports nothing of the batches already saved,
  though `BulkUpsertContacts` returned them, and it panics when a company answer names members of a
  row out of range (`SyncReport.WhenSyncFails`, `SyncReport.WhenSavedRowsAreHidden`,
  `SyncReport.SavedPeopleHidden`, `SyncReport.Panics`).
- The canvas's edge key, also the shared map's key, is not injective, and then a shared graph loses an
  edge (`CanvasEdits.ColonsCollide`, `FlowCollab.ColonsLoseAnEdge`); `CanvasEdits.WhenKeysTellApart`
  and `FlowCollab.WhenEdgesAreKept` say exactly for which source ids.
- The wrap-around of `minBackoff << attempt` is harmless for the default bounds and shows for others
  (`Retry.WrapShowsForOtherBounds`); `Retry.WhenBackoffIsExponential` says exactly for which.

## Assumptions

- A message that is held is not redelivered: heartbeats arrive within AckWait and runners do not crash.
- Dispositions reach the broker (a Nak lost because its callback ran after the connection was closed, see
  `Broker.HeldAtClose`, is in effect received when AckWait ends), row updates reach the database, and message metadata can be read.
- An error from `StartProcess` means that the process did not start.
- The streamed file is append-only and stops growing when its session is no longer OPEN; every Box
  call takes time.
- A context's `steps`, if there is one when a run begins, is an object.
- The methods of a base run under its mutex, so concurrent callers are a sequence of events.
- Node ids made from a UUID are new; the canvas draws edges between rendered nodes only, and a trigger
  has no target handle. Edits commit one after the other.

## Model

| member | source | states |
|---|---|---|
| `Outcomes.SettleFacts` | runner/worker.go:800-849 | the whole table: acknowledged exactly if the code ran to its end, or its sandbox was lost while the runner serves; handed back exactly after any error while the runner stops; terminated exactly if it never can run or did not start by delivery 100; else tried again after 15 or 5 s; a final status is recorded exactly with an Ack or Term, succeeded exactly for a success |
| `Gates.ReleaseUndoesAcquire` | runner/worker.go:425-453 | a release restores the counters its acquire found, if and only if they held no zero entry for the tenant |
| `Gates.Slots.TryAcquire` | runner/worker.go:425-438 | succeeds exactly without a cap or while the tenant's counter is under it, and then counts one more; a refusal changes nothing |
| `Gates.Slots.ReleaseTenant` | runner/worker.go:440-453 | one slot less for that tenant alone, and its entry gone rather than zero |
| `Gates.Slots.HandleJob` | runner/worker.go:762-793 | on every path of a handler alone both gates end as they began; it runs exactly when both let it pass, is deferred otherwise, and a malformed message is terminated |
| `Runner.InitialInv` | runner/worker.go:411-422 | a process begins within the invariant, whatever its caps |
| `Runner.RunInv` | runner/worker.go:762-849 | the whole invariant in every state of every run of any number of concurrent handlers |
| `Runner.StepInv` | runner/worker.go:762-849 | every step of a handler, of the consumer and of the main goroutine keeps it |
| `Runner.Admission` | runner/worker.go:410-453 | slots taken are the handlers past gate 1, at most globalMax; each counter is its tenant's handlers past gate 2, at most tenantMax and never zero; the counters add up to no more than the slots |
| `Runner.EntersUnlessClosing` | runner/worker.go:1024-1038 | a delivery that comes in gets a handler exactly while the runner serves, and is handed back otherwise |
| `Runner.GateOne` | runner/worker.go:762-784 | a job passes gate 1 exactly while fewer than globalMax handlers hold a global slot, and is deferred otherwise; a message that names no run is terminated |
| `Runner.GateTwo` | runner/worker.go:425-438 | a job passes gate 2 exactly while fewer than tenantMax handlers of its tenant are past it, or there is no cap, and is deferred otherwise |
| `Runner.SettlesByOutcome` | runner/worker.go:800-849 | in every reachable state a run that came back gets the one disposition its outcome, the shutdown and the delivery number call for |
| `Runner.WhenANewTenantIsAdmitted` | runner/worker.go:411-422 | a tenant that runs nothing passes both gates if and only if the running tenants' counters and the handlers that hold a global slot alone leave one |
| `Runner.NewTenantIsAdmitted` | runner/worker.go:411-422 | so it does while no handler holds a global slot alone and the running tenants' caps stay under the global one |
| `Runner.BetweenTheGates` | runner/worker.go:777-789 | a run in which a tenant that runs nothing is sent back because another tenant's job stands between the gates |
| `Runner.EveryDeliveryEndsOnce` | runner/worker.go:762-849 | a delivery's next step is always enabled, each of its steps brings it nearer its end, and at its end it has been settled exactly once |
| `Runner.NoHandlerStartsAfterClosing` | runner/worker.go:1024-1037 | once closing is set, no continuation ever adds to the WaitGroup |
| `Runner.Drained` | runner/worker.go:1049-1062 | once jobs.Wait has returned every delivery handed to a handler has its one disposition and all slots are back, before flush and close |
| `Runner.CanShutDown` | runner/worker.go:1044-1061 | from every reachable state a run of the process leads to its end, with every delivery settled once |
| `Runner.UnsettledAtClose` | runner/worker.go:1020-1061 | when the connection closes a delivery is unsettled exactly if its callback has not yet come to look at `closing`; nothing was started for it and all it can still do is give it back |
| `Broker.StepInv` | runner/worker.go:1003-1037 | every delivery and every runner's step keeps messages, rows and deliveries consistent |
| `Broker.BeginInv` | runner/worker.go:1003-1014 | so does the beginning, for any jobs and any number of runners |
| `Broker.DeliveriesAreNumbered` | runner/worker.go:1024-1038 | at the beginning every job waits, queued and never delivered; deliveries of a message are numbered from 1 |
| `Broker.RunInv` | runner/worker.go:1003-1062 | so does every run of any number of messages and runners |
| `Broker.StartedOnce` | runner/worker.go:792-849 | in every reachable state, of two deliveries that started one job the earlier was cut short by its runner's shutdown and handed back by that Nak alone; starts exceed such cuts by at most one |
| `Broker.EarlierHandedBack` | runner/worker.go:762-849 | of two deliveries of one message the earlier was settled once, by a Nak |
| `Broker.AfterSettling` | runner/worker.go:800-849 | what a settlement makes of its message, outcome by outcome: after any error while its runner stops the row stays as it was and, short of the last delivery, the message waits for another one; all other messages are untouched |
| `Broker.AfterAGate` | runner/worker.go:762-793 | a delivery a closing runner or a gate turns away leaves its row as it was and, short of the last delivery, its message waiting; one they let pass changes nothing |
| `Broker.AfterAStart` | runner/worker.go:299-309 | when its process starts a job is recorded running, and nothing else changes |
| `Broker.FinalRowStays` | runner/worker.go:800-849 | a recorded succeeded or failed status is unchanged by every continuation, and its message never delivered again |
| `Broker.HeldAtClose` | runner/worker.go:1048-1061 | a closed runner still holds exactly the messages whose callback has not run; none is in a process of that delivery, and none has a final row |
| `Broker.LastDelivery` | runner/worker.go:777-843 | after the last delivery: ended and (unless malformed) recorded if and only if it was acknowledged or terminated; dead and unrecorded if and only if it was a deferral or a shutdown Nak |
| `Broker.WhenTheLastDeliveryDies` | runner/worker.go:777-843 | each step of a last delivery leaves the message dead if and only if the runner is closing as it comes in, a gate refuses it, or the run comes back unfinished while the runner stops; any other step that settles it ends it |
| `Broker.DeferralsSpendTheBudget` | runner/worker.go:777-789 | from any state in which a runner has no free slot, deferrals alone can use up a waiting job's whole budget, leaving its row untouched |
| `Broker.NeverRecorded` | runner/worker.go:64-66 | a run from the very beginning that leaves the second of two jobs dead, queued and never started |
| `SandboxJob.Box.CreateSandbox` | runner/box.go:253-284 | a create may answer an id together with an error; every id answered counts as obtained |
| `SandboxJob.Drain` | runner/sandbox.go:132-147 | one poll's reads extend the delivered chunks to the file as it is when they succeed, and as far as the reads before the first failure reach when it no longer grows |
| `SandboxJob.WhenAllIsDrained` | runner/sandbox.go:132-147 | reads after the end reach the end of the file if and only if as many of them succeed as the bytes left take |
| `SandboxJob.WhenOutputIsWhole` | runner/sandbox.go:130-158 | once a session ended, the whole output was delivered if and only if the reads that takes succeeded |
| `SandboxJob.SuccessWithoutOutput` | runner/sandbox.go:130-158 | the loop can end, of a streamed job that exits 0 between two polls and whose next read fails, with nothing delivered and a success |
| `SandboxJob.Follow` | runner/sandbox.go:121-180 | for every interleaving with the writer the chunks are the beginning of the file, all of it when the session ended and the last reads succeeded; lost exactly after 20 failed polls in a row; otherwise the session's own verdict, the runner's stop, or a timeout no sooner than the job's timeout plus 15 s; a session that ended gives its exit code, else a failed process exactly if its status is FAILED, else a timeout |
| `SandboxJob.OneMorePoll` | runner/sandbox.go:165-171 | the failure counter is the number of polls that failed in a row |
| `SandboxJob.RunSandboxJob` | runner/sandbox.go:72-192 | every sandbox id obtained is terminated exactly once on every path; a startError exactly when no process was started; the chunks as above; no call before the start that fails is passed over, all files are written before it, and the log is read exactly after a run without an error that keeps one |
| `Runs.Classify` | runner/worker.go:704-716 | after-start outcomes are exactly those without a startError; a success is exit code 0 without timeout; a failed run is exactly one with a failure text |
| `Runs.Collect` | runner/worker.go:555-590 | over a whole run the record is the last maxResult bytes, marked cut exactly when there were more, and the live events are those of the whole stream |
| `Runs.RunShell` | runner/worker.go:529-600 | the process was started exactly when the outcome says so, success exactly for a session ended with exit code 0, every sandbox terminated; pending or failed bases start nothing; the base forgets exactly a digest the Box no longer has; what a started run reports is decided by how its session ended, a timeout exactly without an exit code and without FAILED or after the deadline, and a lost sandbox exactly for FAILED or 20 failed polls in a row |
| `Runs.StateSaver.Save` | runner/worker.go:649-663 | however many states came, the last one is written, in their order |
| `Runs.Relay` | runner/worker.go:649-700 | over all chunks and the flush, for any polls: the lines handled are the stream's, what is written to the row is some of the states in order, and the last state line handled is the last one written |
| `Runs.RunFlow` | runner/worker.go:604-717 | the same for a flow run, with the exact cases that cannot run as sent; its failure text is the error of the flow's last state; it reports as a shell run does |
| `Runs.Classified` | runner/worker.go:586-600 | what a started run reports, by how its tail loop ended |
| `Runs.UnknownIsForgotten` | runner/worker.go:581-583 | a shell base the Box does not know is forgotten, and only then |
| `Runs.UnknownFlowBaseIsForgotten` | runner/worker.go:695-697 | so is a flow base |
| `Runs.ReturnIsEnabled` | runner/worker.go:800-849 | what a run accounts for is what the step system's return step asks for |
| `Runs.CompleteShell` | runner/worker.go:572-590 | of a complete run the record is exactly the file's last maxResult bytes, and a UTF-8 file reaches the live channel unchanged in UTF-8 events |
| `Runs.CompleteFlow` | runner/worker.go:691-700 | of a complete run the lines handled are the file's lines in order, every one of at most M bytes, none of M + C or more, all when all are short, and a last open line |
| `Utf8.CutAtBoundary` | runner/flow.go:324-326 | valid text may be cut exactly where no tail byte stands |
| `Utf8.NoFourTails` | runner/flow.go:299-317 | at most three tail bytes follow one another in valid text, which is why looking back three bytes is enough |
| `Utf8.TailMask` | runner/flow.go:302-304 | the bit mask of the source is the tail range |
| `Utf8.StartsWithACharacter` | runner/flow.go:324-326 | a text starts with a well-formed character if and only if it starts with the UTF-8 encoding of a Unicode scalar value |
| `OutputEvents.SplitOutput` | runner/flow.go:296-336 | events and carry together are exactly the bytes given, the carry has at most 3, every event 1 to max |
| `OutputEvents.WhereItCuts` | runner/flow.go:298-317 | on any bytes the cut is before the last byte that is no tail byte if that is one of the last three and begins a character of more bytes than there are, and at the end otherwise |
| `OutputEvents.CutIsBoundary` | runner/flow.go:298-317 | in text that goes on into valid UTF-8 the cut falls between characters and holds back the start of one unfinished character |
| `OutputEvents.PiecesValid` | runner/flow.go:320-334 | with max >= 4 every event of valid text is valid by itself |
| `OutputEvents.PiecesFull` | runner/flow.go:320-334 | every event of valid text but the last comes within three bytes of max |
| `OutputEvents.StreamConserves` | runner/worker.go:572-579 | for every chunking the events so far and the carry are exactly the bytes so far |
| `OutputEvents.StreamValid` | runner/worker.go:572-579 | for every chunking of valid UTF-8 every event is valid and nothing is left over |
| `OutputEvents.RunEventsCarryTheOutput` | runner/worker.go:584-589 | a whole run's events are the output, plus one line feed exactly when it ended inside a character |
| `ShellOutput.LastBytesStep` | runner/worker.go:474-480 | keeping the end of an end keeps the end of the whole, and tells whether anything was cut |
| `ShellOutput.TailBuffer.Write` | runner/worker.go:474-480 | the buffer is the last max bytes ever written, cut exactly when there were more |
| `ShellOutput.ShellSink.OnChunk` | runner/worker.go:572-579 | carry, events and record are those of all chunks so far |
| `ShellOutput.ShellSink.Finish` | runner/worker.go:584-589 | the run's whole event stream has been published |
| `FlowRelay.LinesAppend` | runner/flow.go:232-252 | reading on never changes a line already ended |
| `FlowRelay.FlowRelay.Write` | runner/flow.go:232-252 | the buffer is the unfinished line while it fits and empty while dropping; the lines handled are those of the whole stream so far |
| `FlowRelay.FlowRelay.Flush` | runner/flow.go:254-260 | a last line without a newline is handled exactly when it is neither empty nor too long |
| `FlowRelay.FlowRelay.Handle` | runner/flow.go:262-290 | events published, states saved, error and replay flag are those of all lines handled |
| `FlowRelay.FramingOfRun` | runner/flow.go:232-252 | for any chunking: the handled lines are the stream's lines in order, once each, with every line of at most M bytes and none of M + C or more |
| `FlowRelay.CutDoesNotMatter` | runner/flow.go:232-252 | without a line in between, two cuttings of a stream handle the same lines |
| `FlowRelay.WhenTheCutMatters` | runner/flow.go:215-252 | the cutting never matters if and only if no line has more than M and fewer than M + C bytes |
| `FlowRelay.LiveIsOnlyLive` | runner/flow.go:277-288 | what is published is an event line, never a state or replay, and within the payload limit |
| `EnvFile.RenderEnvFile` | runner/sandbox.go:229-239 | renders the file exactly when all names are valid, else reports the first that is not |
| `EnvFile.NameBounds` | runner/sandbox.go:222-224 | both sides of every bound of the characters a name may have |
| `EnvFile.ShQuoteIsOneWord` | runner/sandbox.go:226-227 | the shell reads shQuote(s) back as the single word s, for every s without NUL and no other |
| `EnvFile.EnvFileReadBack` | runner/sandbox.go:229-239 | the shell reads exactly the printed names and values, with any quotes, newlines and backslashes, if and only if no value holds a NUL |
| `BoxBases.BaseDigest` | runner/box.go:202-215 | a digest listed READY under the name, none exactly when there is none |
| `FlowBases.Decide` | runner/flow.go:145-163 | a digest only if listed READY; refused only for a FAILED base after a build by this runner; built exactly when none of that name is listed, or only FAILED ones and this runner built none |
| `FlowBases.AskAnswers` | runner/flow.go:129-164 | what an Ask answers and changes: the cached digest, the failure or the build under way; else the first base listed that is decisive is cached, refused or waited for, and without one a build is started |
| `FlowBases.FlowBase.AskDigest` | runner/flow.go:129-164 | one call against the machine's step and answer |
| `FlowBases.FlowBase.ForgetDigest` | runner/flow.go:173-181 | the machine's step |
| `FlowBases.FlowBase.EndBuild` | runner/flow.go:183-206 | the machine's step |
| `FlowBases.Invariant` | runner/flow.go:129-206 | over every history: building exactly while one build is live, never two; a cached digest was listed READY; a failed base has no digest and no build |
| `FlowBases.AnswersAreReady` | runner/flow.go:129-164 | every digest answered was listed READY under the name |
| `FlowBases.WhenFailed` | runner/flow.go:183-206 | over every history the base counts as failed if and only if some build of it was not accepted, not finished or left no READY base of the name |
| `FlowBases.BuiltIsAnswered` | runner/flow.go:183-206 | after a build that was accepted, finished and listed READY every Ask answers a digest listed READY for it, whatever is listed later, until one is forgotten |
| `FlowBases.FailedIsForGood` | runner/flow.go:129-206 | once failed, no continuation clears it, caches a digest or starts a build |
| `FlowBases.FailedIsRebuiltOnce` | runner/flow.go:153-163 | a base listed FAILED is rebuilt only by a runner that has started no build |
| `FlowBases.StaleForgetIsHarmless` | runner/flow.go:173-181 | a Forget that comes late, for a digest no longer cached, changes nothing then or in any future |
| `FlowBases.ForgottenIsLookedUpAgain` | runner/flow.go:173-181 | after a Forget in time, any digest cached later was listed READY after it |
| `NamedBases.Decide` | runner/worker.go:205-216 | a digest only if listed READY; waits only for a base being pulled; missing exactly when neither is listed |
| `NamedBases.AskAnswers` | runner/worker.go:192-226 | what an Ask answers and changes, as for the flow base; a pull is started exactly if there is an image, nothing ready or on its way, and no failed pull within the last minute |
| `NamedBases.NamedBase.AskDigest` | runner/worker.go:192-226 | one call against the machine's step and answer |
| `NamedBases.NamedBase.ForgetDigest` | runner/worker.go:260-266 | the machine's step |
| `NamedBases.NamedBase.EndPull` | runner/worker.go:228-252 | the machine's step |
| `NamedBases.Invariant` | runner/worker.go:192-266 | over every history: pulling exactly while one pull is live, never two; a cached digest was listed READY; the recorded failure is the last pull's |
| `NamedBases.AnswersAreReady` | runner/worker.go:192-226 | every digest answered was listed READY under the name |
| `NamedBases.WhenPullFailed` | runner/worker.go:228-252 | the last pull counts as failed if and only if it was not accepted, came to no end or left no READY base of the name |
| `NamedBases.PulledIsAnswered` | runner/worker.go:228-252 | after a pull that succeeded every Ask answers a digest listed READY for it until one is forgotten |
| `NamedBases.PullsAreSpaced` | runner/worker.go:220-225 | after a failed pull the next starts no sooner than shellPullRetry later |
| `NamedBases.StaleForgetIsHarmless` | runner/worker.go:260-266 | a Forget that comes late, for a digest no longer cached, changes nothing then or in any future |
| `NamedBases.ForgottenIsLookedUpAgain` | runner/worker.go:260-266 | after a Forget in time, any digest cached later was listed READY after it |
| `DeriveGraph.Derive` | web/src/lib/automation-draft.ts:133-164 | the loop builds the chain of columns |
| `DeriveGraph.ActionIdsDistinct` | web/src/lib/automation-draft.ts:156-156 | action ids are injective in the index and differ from the trigger's and the branch's |
| `DeriveGraph.DerivedIsChain` | web/src/lib/automation-draft.ts:133-164 | ids are distinct, every edge joins neighbours of the chain, and every node is reachable from the trigger |
| `DeriveGraph.DerivedIsAcyclic` | web/src/lib/automation-draft.ts:133-164 | no walk along edges returns to where it began |
| `DeriveGraph.DerivedIsFlow` | web/src/lib/automation-draft.ts:166-169 | a derived graph is a flow exactly when the rule has a condition or an action |
| `DeriveGraph.DerivedHoldsTheRule` | web/src/lib/automation-draft.ts:133-164 | the branch is there exactly with conditions and holds them all, the actions follow in order, and only the edge out of the branch has a label |
| `DeriveGraph.DerivedLayout` | web/src/lib/automation-draft.ts:128-164 | column j stands at 320 j on one line |
| `KahnOrder.Degrees` | api/apps/api/src/automations.ts:1107-1117 | a node's degree counts the edges from nodes there are; edges that dangle are not seen |
| `KahnOrder.Follow` | api/apps/api/src/automations.ts:1125-1128 | following a node's edges frees exactly the nodes whose degree falls to zero, each once |
| `KahnOrder.Order` | api/apps/api/src/automations.ts:1118-1130 | for every graph the order holds exactly its nodes, none with an incoming edge twice; with unique ids each once, and the nodes placed by the algorithm come after all their sources |
| `KahnOrder.AllPlacedIffAcyclic` | api/apps/api/src/automations.ts:1118-1130 | with unique ids the fallback to declared order is taken if and only if the edges form a cycle |
| `Engine.RunGraph` | api/apps/api/src/automations.ts:1132-1190 | the loop, with its break at a stop, is the walk over such an order |
| `Engine.EachRunsAtMostOnce` | api/apps/api/src/automations.ts:1139-1188 | in every run of every graph no node but a trigger runs twice, and with unique ids none at all |
| `Engine.ResultsAreOfNodes` | api/apps/api/src/automations.ts:1160-1166 | every result is stamped with a node that ran and is no trigger |
| `Engine.RunsInsideReachable` | api/apps/api/src/automations.ts:1139-1188 | a run from a single trigger runs only nodes the canvas counts as reachable |
| `Engine.WhichNodesRun` | api/apps/api/src/automations.ts:1139-1188 | in an acyclic graph, unless halted, a node runs if and only if it is a trigger or a node that ran sends the run along an edge to it |
| `Branching.BranchActivates` | api/apps/api/src/automations.ts:1176-1179 | in any graph, a branch that ran makes active exactly its unlabelled edges and those of its verdict: "true" if its conditions hold over the context of its turn, "false" if not |
| `Branching.ItemActivates` | api/apps/api/src/automations.ts:1180-1183 | an item node that fired a handle makes active exactly its edges of that handle, an unlabelled one counting as "true"; one that fired none makes all of them active |
| `Branching.OthersActivate` | api/apps/api/src/automations.ts:1184-1186 | any other node that ran makes all of its edges active |
| `Branching.BehindABranch` | api/apps/api/src/automations.ts:1139-1188 | in an acyclic graph, unless halted, a node that only one edge enters, from a branch, runs if and only if the branch ran and the edge is unlabelled or carries its verdict |
| `Branching.HandsOnItems` | api/apps/api/src/automations.ts:1154-1162 | a node that ran hands on what it read, an action its result, an item node its own items |
| `Branching.SourcesInOrder` | api/apps/api/src/automations.ts:1142-1148 | a node reads its active incoming edges in their order |
| `Branching.ItemsInOrder` | api/packages/flow-core/src/index.ts:106-118 | the items of its sources follow one another, and the run's seed stands in for none |
| `Engine.DerivedMeansTheRule` | api/apps/api/src/automations.ts:1118-1190 | for every draft, environment and order a derived graph runs nothing when the conditions fail, else the rule's actions in order, each once, up to and including the first stop |
| `Engine.RunLinear` | api/apps/api/src/automations.ts:1240-1246 | the loop over a rule's actions, with its break at a stop |
| `Templates.PlainText` | api/apps/api/src/automations/conditions.ts:22-27 | a text without `{{` is its own rendering |
| `Templates.OneToken` | api/apps/api/src/automations/conditions.ts:13-27 | a path in braces, with white space around it or not, is replaced by the text of its value, and the rest is rendered as it would be alone |
| `Actions.WithheldByType` | api/apps/api/src/automations/registry.ts:143-158 | which actions a dry run withholds, type by type |
| `Actions.TicketTypesAsk` | api/apps/api/src/automations.ts:158-571 | what the types that need a ticket interpolate and hand on, and that they ask nothing without one |
| `Actions.FreeTypesAsk` | api/apps/api/src/automations.ts:249-408 | what notify, run, web_fetch, browser_extract, kb_upsert and stop interpolate and hand on |
| `Actions.LineTypesAsk` | api/apps/api/src/automations.ts:281-307 | http and contact_update interpolate nothing more after a blank URL or e-mail, and header and field blocks line by line |
| `Actions.SetFieldsAsk` | api/apps/api/src/automations.ts:308-316 | set_fields interpolates each of its lines |
| `Actions.BroadcastsAsk` | api/apps/api/src/automations.ts:423-440 | a broadcast interpolates its subject and body, and its segment exactly if neither came out blank |
| `Actions.WithheldAsks` | api/apps/api/src/automations.ts:95-115 | a withheld action interpolates what its summary shows and hands nothing on |
| `Rules.GraphSets` | api/apps/api/src/automations.ts:1132-1149 | a graph run sets text, json, item and steps and nothing else; the first action reads the context the run began with and its body, a later one the result and the detail of the one before |
| `Rules.StepsShow` | api/apps/api/src/automations.ts:1150-1153 | `steps` shows a trigger's event, a branch's verdict and an action's result under the node's id |
| `Rules.PutsAreSeen` | api/apps/api/src/automations.ts:158-571 | what an action puts into the context is there for those after it |
| `Rules.ResultsPut` | api/apps/api/src/automations.ts:1019-1036 | so is what the results of an agent or an item node put, one after another |
| `Rules.PerformedByType` | api/apps/api/src/automations.ts:140-571 | a withheld action does nothing, a stop halts, and any other comes to the world's answer to what it asked; an escalation changes the ticket first |
| `Rules.AskAlike` | api/apps/api/src/automations.ts:140-571 | two contexts that differ only in what a graph run sets make an action ask the same, in every way of running it, unless it hands the whole context on or interpolates what a graph run sets behind guards that can pass |
| `Rules.SameAsTheList` | api/apps/api/src/automations.ts:1236-1247 | in every world and from every context, a rule none of whose actions before a stop can see a graph run, and none of whose conditions names text, json, item or steps, has the same results as a graph and as a list, all that was asked included |
| `RuleOrGraph.WhenTheGraphIsTheList` | api/apps/api/src/automations.ts:1236-1247 | and that condition is exact: for any other rule with an action some world and context tell the two apart |
| `RuleOrGraph.PlainNotifyDiffers` | api/apps/api/src/automations.ts:249-256 | a rule that notifies an integration in plain text is one of those |
| `RuleOrGraph.WhenAStepCanBeNamed` | api/apps/api/src/automations/conditions.ts:12-27 | a template can name a step if and only if its id is of letters, digits and underscores |
| `RuleOrGraph.DerivedStepsAreUnnamed` | web/src/lib/automation-draft.ts:156 | no template can name an action of a derived graph |
| `CanvasRun.ExecuteLinear` | api/apps/api/src/automations.ts:1397-1407 | the canvas's loop over a rule's actions, which has no break |
| `CanvasRun.WhenTheCanvasRunIsTheEngines` | api/apps/api/src/automations.ts:1397-1407 | in every world and from every context, dry or for real, it does what the engine does on an event if and only if no action before the last is a stop, and none is withheld by a dry run, is a run that is waited for, or a drafted answer that a dry run would not send |
| `Reachability.Adjacency` | web/src/components/automation-canvas.tsx:521-526 | the adjacency lists are the edges' targets in edge order |
| `Reachability.ReachableSet` | web/src/components/automation-canvas.tsx:520-534 | exactly the nodes a path of edges connects to the trigger, for every graph; each id is enqueued once; the search ends |
| `CanvasEdits.WhenKeysTellApart` | web/src/components/automation-canvas.tsx:536-536 | edges from these sources are told apart by their keys, whatever their targets, if and only if no source's head `id::when::` begins another's |
| `CanvasEdits.EdgeKeyInjective` | web/src/components/automation-canvas.tsx:536-536 | in particular edges whose source ids are safe, as those without colons are |
| `CanvasEdits.UnsafeButApart` | web/src/components/automation-canvas.tsx:536-536 | source ids with colons that never collide |
| `CanvasEdits.ColonsCollide` | web/src/components/automation-canvas.tsx:536-536 | two edges with one key |
| `CanvasEdits.EditKeepsWellFormed` | web/src/components/automation-canvas.tsx:656-745 | each mutator keeps one undeletable trigger, unique ids, and no dangling, looping or doubled edge |
| `CanvasEdits.RunKeepsWellFormed` | web/src/components/automation-canvas.tsx:656-745 | so does every sequence of them |
| `CanvasEdits.PatchCommits` | web/src/components/automation-canvas.tsx:656-662 | a patch changes the config of its node alone |
| `CanvasEdits.DeletesCommit` | web/src/components/automation-canvas.tsx:663-683 | which nodes and edges a deletion leaves |
| `CanvasEdits.FilterKeepsOrder` | web/src/components/automation-canvas.tsx:663-683 | in their order, each as often as it was there |
| `CanvasEdits.AdditionsCommit` | web/src/components/automation-canvas.tsx:692-716 | a new node and a moved copy come last, and a trigger is not copied |
| `CanvasEdits.ConnectCommits` | web/src/components/automation-canvas.tsx:736-745 | an edge is drawn last unless an end is missing, it would loop or it is there |
| `CanvasEdits.AddUndone` | web/src/components/automation-canvas.tsx:663-700 | deleting a node just added gives back exactly the graph there was |
| `CanvasEdits.ConnectUndone` | web/src/components/automation-canvas.tsx:677-745 | deleting an edge just drawn, by its key, gives back exactly the graph there was |
| `CanvasEdits.DerivedIsWellFormed` | web/src/lib/automation-draft.ts:130-164 | the graph a rule starts from is well formed |
| `CanvasEdits.RemoveEdgeRemovesOne` | web/src/components/automation-canvas.tsx:677-683 | removing an edge by its key removes that edge and no other |
| `FlowCollab.Reconcile` | web/src/lib/flow-collab.ts:137-147 | whatever the map held before, it holds exactly the items under their keys after |
| `FlowCollab.SharedFlow.WriteGraph` | web/src/lib/flow-collab.ts:137-147 | both maps depend on the graph alone, so writing again changes nothing |
| `FlowCollab.SharedFlow.ReadGraph` | web/src/lib/flow-collab.ts:149-152 | after a write of a graph whose ids and source heads are apart it reads back exactly that graph's nodes and edges |
| `FlowCollab.AllKept` | web/src/lib/flow-collab.ts:139-145 | every item is kept exactly when the keys tell the items apart |
| `FlowCollab.WhenEdgesAreKept` | web/src/lib/flow-collab.ts:142-145 | no graph with edges from these sources loses one if and only if the sources' heads are apart |
| `FlowCollab.ReadAfterWrite` | web/src/lib/flow-collab.ts:137-152 | what is read is what was written, from any earlier map state, for every graph with unique ids, distinct edges and source heads apart |
| `FlowCollab.WellFormedIsApart` | web/src/components/automation-canvas.tsx:656-745 | every graph the canvas's edits keep well formed is such a graph |
| `FlowCollab.ColonsLoseAnEdge` | web/src/lib/flow-collab.ts:142-145 | a graph with colons in its ids that loses an edge |
| `EventStream.FramesAppend` | web/src/lib/automations.ts:418-423 | reading on never changes a frame already cut |
| `EventStream.FramesAreTheLeftmostSplit` | web/src/lib/automations.ts:418-425 | the frames and the remainder are the leftmost split of the text on blank lines, and the only one |
| `EventStream.Execution.Read` | web/src/lib/automations.ts:416-424 | after each read the frames handled are those of all text so far, unless a crash ended the call |
| `EventStream.Execution.HandleFrame` | web/src/lib/automations.ts:400-413 | result, error and steps are those of all frames handled |
| `EventStream.ReadAll` | web/src/lib/automations.ts:394-428 | for every cutting of the text the steps and the outcome are those of its frames, a non-blank remainder being one |
| `EventStream.Execute` | web/src/lib/automations.ts:376-428 | a response that is no success or has no body throws its status; any other comes to what its frames say |
| `EventStream.CrashIsFinal` | web/src/lib/automations.ts:412-412 | after a crash no later text changes anything |
| `EventStream.LastDoneDecides` | web/src/lib/automations.ts:426-427 | without error frames the last done frame is the result |
| `EventStream.WrittenDoes` | web/src/lib/automations.ts:400-413 | what a frame does, by its event and its decoded data |
| `EventStream.BareDoesNothing` | web/src/lib/automations.ts:400-413 | a frame without an event or without data does nothing |
| `EventStream.MoreLines` | web/src/lib/automations.ts:403-406 | data lines are run together, and the last event line names the frame |
| `EventStream.WhenAnErrorThrows` | web/src/lib/automations.ts:412-426 | short of a crash the call throws an error exactly when the last error frame's message counts as true, and then with that message |
| `EventStream.EmptyErrorIsForgotten` | web/src/lib/automations.ts:400-427 | a text with an error frame of an empty message and a done frame comes back as that success |
| `EventStream.NullErrorCrashes` | web/src/lib/automations.ts:400-413 | a text that begins with an error frame of a null payload throws a TypeError, whatever follows |
| `Retry.Wrap64` | sdk/go/client.go:208-208 | the int64 congruent to its argument |
| `Retry.WhenBackoffIsExponential` | sdk/go/client.go:204-211 | for all positive bounds min = u * 2^s, u odd, the wrapped backoff is min(min * 2^attempt, max) for every attempt if and only if, wherever a bit of u below its top one is clear, what u has below that bit, shifted to 63 bits, is no less than max |
| `Retry.OddPart` | sdk/go/client.go:52-58 | every positive minimum a caller can set is of that form |
| `Retry.BackoffIsExponential` | sdk/go/client.go:79-81 | in particular where u * max < 2^63, as for the default bounds |
| `Retry.DefaultWait` | sdk/go/client.go:204-212 | with the default bounds the wait lies between half that value and all of it |
| `Retry.WaitRange` | sdk/go/client.go:205-213 | a Retry-After is honoured to the nanosecond; else the wait is anything from half the backoff to twice that half |
| `Retry.WhenItCanWait` | sdk/go/client.go:211-211 | the wait panics exactly if the jitter's bound is not positive |
| `Retry.WrapShowsForOtherBounds` | sdk/go/client.go:208-211 | bounds for which the wait is a fraction of the maximum though the exact backoff exceeds it |
| `Retry.Do` | sdk/go/client.go:138-202 | at most maxRetries + 1 requests; all before the last were retryable; the result is the last request's; each wait is that of its attempt; success exactly for a 2xx that decodes, and tried again exactly after a live network error, a 429 or a 5xx |
| `Retry.TotalWaitBounded` | sdk/go/client.go:204-222 | n retries wait at most 500 ms * (2^n - 1) and at most n * 30 s in all |
| `BulkSync.BulkUpsert` | sdk/go/contacts.go:98-119 | the batches are the input in order, each of 1 to limit rows; a failing batch returns exactly the completed prefix |
| `BulkSync.WhenUpsertFails` | sdk/go/companies.go:174-193 | a bulk call fails if and only if the reply to some batch it needs is a failure |
| `BulkSync.TotalIsOneRowEach` | sdk/go/companies.go:174-193 | under an honest server the total has one row for every input row so far, under its index in the whole input, and its counters are the numbers of rows with each status |
| `SyncReport.TotalInRange` | sdk/go/sync.go:65-67 | with local indices inside their batches `companies[r.Index]` is in range |
| `SyncReport.LocalIndicesAreSafe` | sdk/go/sync.go:65-67 | and the sync never panics |
| `SyncReport.CollectUnknown` | sdk/go/sync.go:61-68 | panics exactly when a row with unknown members has an index out of range |
| `SyncReport.Sync` | sdk/go/sync.go:37-71 | the report is that of the two bulk calls, a side without rows counting as one without results |
| `SyncReport.WhatIsReported` | sdk/go/sync.go:37-71 | for each side that did not fail its counters and the rows not saved, and nothing of a side that failed or came after one that did |
| `SyncReport.IssuesInOrder` | sdk/go/sync.go:48-64 | issues come in the order of their rows |
| `SyncReport.LaterUnknownStands` | sdk/go/sync.go:61-68 | of two rows of one company the later one's unknown members are reported |
| `SyncReport.WhenSyncFails` | sdk/go/sync.go:41-71 | which error it returns, and that it panics, each if and only if: some needed batch of that side fails, or neither does and an answer names members of a company that was not sent |
| `SyncReport.WhenSavedRowsAreHidden` | sdk/go/sync.go:43-60 | under an honest server the report omits saved rows if and only if the server failed a batch the call needs after it had answered one, and all before, with a saved row |
| `SyncReport.SavedPeopleHidden` | sdk/go/sync.go:43-47 | with 1001 contacts, an honest server that fails the second request has saved a thousand people the report does not mention |
| `SyncReport.Panics` | sdk/go/sync.go:65-67 | an answer that makes the sync panic |
| `SyncReport.FailedIsIssues` | sdk/go/sync.go:48-64 | under an honest server the failures counted are exactly the issues listed |

## Left out

- HTTP, NATS, Postgres, object storage and the JSON codec: their answers are parameters, and JSON decoding is an abstract function. Bytes that are not UTF-8 are published as the JSON encoder replaces them, which is not modelled.
- Cryptography, credential resolution, presigned URLs, the packing of the flow context and random ids.
- `runner/health.go`, `sandboxLog`, the orphan sweep, log lines, and the flow's log tail, which only report.
- Yjs merging, awareness and channels: `FlowCollab` models the two maps one client writes and reads, whose order of values is left open.
- React rendering and hooks, API wrappers, and the regular expressions of `web/src/lib/markdown.ts`.
- AckWait expiry but for that, crashes of a runner and real clocks: a message that a runner was handed and never settled stays held in `Broker`.
- Runs.RunShell: replays the tail loop's callbacks after it ended instead of during it, and leaves out trimming, the note put before a cut record and heartbeats.
- Runs.RunFlow: as RunShell, and the log tail; a missing model key or upload URL only changes the variables it is given.
- SandboxJob.Box.GetSession: an exit code may come with any status; what the Box guarantees about them is not modelled.
- EventStream.Execute: the request itself and the text decoder are left out.
- FlowRelay.FlowRelay.Handle: the white-space trimmer and the JSON decoder are abstract.
- Engine.RunGraph: graphs with browser nodes, which the engine hands to a flow run; live events and the log; what an agent, an item node or an action does is the environment's answer (for actions and for dry runs `Rules` spells it out), which may depend on everything done before.
- Engine.DerivedMeansTheRule: rule chaining and the other rules of a trigger are not modelled.
- Templates.OneToken: what String() makes of a value and the properties it has are given with the value; the properties of strings, and the names every JavaScript object inherits (`constructor`, `toString`), are not there unless they are set.
- Rules.SameAsTheList: what the operators of conditions make of a field's value is the world's, so a condition counts by the field it names; a header or field block counts by the lines it renders to, not by the record they are parsed into; two runs whose actions ask different things count as different whatever the world answers; the wording of a dry run's summaries is left out.
- CanvasRun.ExecuteLinear: the events it emits and the run history.
- CanvasEdits.RunKeepsWellFormed: commits are sequential; edits made on a stale graph are not modelled. A node's config is its payload and position.
- BulkSync.BulkUpsert: a row is represented by its external id, and both bulk calls are one method with the limit 1000 or 200.
- Retry.Do: request encoding, headers and the parsing of Retry-After.
