# MIG, verified

A Dafny model of the protocols that hold MIG together, with proofs of what they keep over every run. `dafny verify dfyconfig.toml` checks everything.

Conventions. An SQL statement is one atomic operation on finite maps, a file a map entry, a hand-over on an unbuffered channel one step. Time is an integer. Hashes, signatures, JSON, tar and the like are parameters. A choice the environment makes (a failing disk, a short write, the order of a map) is an event parameter or a nondeterministic assignment, so every outcome is covered. Where a promise fails, the code is kept as it is, a concrete case shows the failure, and the exact condition is proved.

## What is modelled

**Scheduler.** `Scheduler` is a transition system of any number of schedulers over one database: action rows, command rows, spools, batches, publications, and one event for each statement of the collector, the worker, the sender and the updater. Any operation on a disk, the database or the broker may fail, also where the code ignores the error. `SchedulerConservation` follows each command from its creation to the broker: at every moment of every run it is in exactly one of seven places, and it gives the exact causes of each loss, among them an in-flight file that cannot be written after the insert. `SchedulerSafety` proves at-most-once dispatch for all runs in which no worker leaves the file of an unexpired action with commands in the spool, and `SchedulerDoubleDispatch` proves that this condition is exact: as soon as a worker does, the run can go on to dispatch the action again. `SchedulerLanding` proves when actions land and exactly when they stay landed, what happens to a row over a whole run, and that the Done counter falls only when a return carries a status that is not done. `SchedulerExamples` reaches the states that show how far this goes: an action that lands before its remaining commands are inserted, a landed action that takes off again, an inserted command that is lost, a Done counter that falls, an action dispatched twice, and an action that lands on the answer of an idle agent. `SchedulerCode` is the same goroutines as imperative code on a shared object; between any two statements all other goroutines take any number of steps, so each method is proved amid every interleaving. `SchedulerSteps` says of single steps, in terms of rows and files, what they offer, pick and insert. `SchedulerTrace` and `SchedulerRuns` hold what can be read off such steps and what is common to statements about runs. `CommandTable`, `Batching` and `CommandInsert` hold the guarded update, the counters, the id generator, the batching loops and the insert statement; `SchedulerBatching` proves that the batches of the transition system are what the batching loop makes of the commands that arrive.

**Agent.** `AgentPipeline` is the feeder, the runner and the collectors. With a run queue of capacity K, commands are answered exactly up to the first one with more than K + 1 operations (K is 5 in the agent); within the bound there is no deadlock and runs are bounded. `ResultAggregation` is the collector loop. `Supervisor` is the persistent-module supervisors and the alert processor. It proves the dispatch-channel invariants, that the register holds what each module registered with last since it was down, that no alert is lost or reordered on its way into and out of the dispatch channel, and also that holding the lock across a blocking send deadlocks exactly when the dispatch buffer is full and the dispatch supervisor waits for the lock, is gone, or raises an alert while all 128 places for alerts are taken. `ModuleReaders` shows that a module restarted while its earlier reader is still at work can make the agent close a channel twice or send on a closed one, and that otherwise it does neither. `Framing` is the line protocol with modules, from the writer through the pipe to the reader.

**Search.** `SearchQuery` gives inner joins and placeholders a meaning; `SearchBuilder` is the compiler of filters in its own imperative form; `SearchMeaning` and `InvestigatorSearchMeaning` prove that compilation preserves meaning over every database. `SearchAsked` says what a caller wants in terms of its parameters and of the columns alone, and proves that exactly that is found. `SearchExecutable` proves that a search can be executed exactly when some filter was supplied; the default parameters supply none for an hour. `SearchParameters`, `QueryString`, `TextFormats` and `SearchRoundTrip` are the printer and parser of search parameters, and exactly when they undo each other: a field with `&` or `;` is lost, and a time zone east of Greenwich is printed with a `+`, which the wildcard encoding destroys. `SearchEndToEnd` puts them together, from the client's parameters to the answers of the database.

**Signatures and manifests.** `Armour` is the one-line armour of signatures. `ManifestStore` is the signature quorum of manifests, as whole requests and as interleaved statements; whole requests keep the quorum, and a disabled manifest stays so in every interleaving, but two processes can leave a manifest active with no signature. `ManifestOverlap` proves that undisturbed interleavings keep it, and that as soon as one is disturbed it can be broken. `ManifestSigning` follows a manifest from `Sign` to the loader's acceptance.

**Loader, runner, agents.** `Loader` is the comparison with the manifest and the staged replacement, with every intermediate state of the disk. `Runner` is the list of results with its in-flight files, its in-place filter, and recovery after dying at any moment. `AgentTable` and `DuplicateAgents` are heartbeats, the periodic statements and the destruction of duplicates. A heartbeat looks its agent up and writes to the table in two steps, with anything in between, and an agent keeps one live row over a run exactly when no step of it is overtaken; runs in which one is are reached.

Where the code and its comments disagree, the code is followed: the comment above the configuration failure in `mig-agent/persist.go:211-215` says the module is killed, but the `break` leaves the whole loop; the comment on `UpdateAgentHeartbeat` (`database/agents.go:138-139`) exempts destroyed agents, but the statement does not; `killDupAgents` spares agents destroyed recently, but the query it uses never selects the destruction time.

## Model

| member | source | states |
|---|---|---|
| SchedulerSafety.AtMostOnceDispatch | mig-scheduler/scheduler.go:54-164 | over every interleaving of any number of schedulers in which no worker leaves the file of an unexpired action with commands in the spool, whatever else fails, no two commands made or published are for the same action and endpoint queue |
| SchedulerSafety.AtMostOnceWhenFilesAreRemoved | mig-scheduler/flow.go:99-100 | in particular in every run in which the removal in flyAction and the rename of the new-action loop never fail |
| SchedulerDoubleDispatch.LeavingCanDispatchTwice | mig-scheduler/routines.go:37-47 | that condition is exact: as soon as a run leaves such a file, it can go on to dispatch the action twice |
| SchedulerDoubleDispatch.LeftFileCanBeDispatchedTwice | mig-scheduler/collector.go:75-119 | from any state of any run, whatever collector, sender and other schedulers are doing, a file left there is read and dispatched again |
| SchedulerExamples.AnActionCanBeDispatchedTwice | mig-scheduler/flow.go:99-100 | a reachable double dispatch after the ignored error of a removal |
| SchedulerConservation.NoCommandLostOrDoubled | mig-scheduler/routines.go:54-87 | whatever fails, at every moment a command is in exactly one place: pending batch, inserted and to be written to the in-flight directory, about to be published, published once, refused by the broker, refused by the database, or abandoned; batches hold at most 1024 |
| SchedulerConservation.NothingIsLostIff | mig-scheduler/scheduler.go:204-240 | a run loses commands to the database iff an insert fails, abandons inserted ones iff an in-flight write fails, and to the broker iff a publication fails |
| SchedulerBatching.BatchIsWindow | mig-scheduler/routines.go:54-87 | in every run the batch of a scheduler holds the commands that have arrived since it was last handed over, as the batching loop keeps them, and its counter counts them |
| SchedulerBatching.HandOverIsComplete | mig-scheduler/routines.go:60-82 | so each list handed to the sender has every command that arrived since the last one, once |
| SchedulerConservation.WithoutFailuresAllArePublished | mig-scheduler/scheduler.go:196-242 | without these three failures exactly the commands made are published or under way |
| SchedulerConservation.WriteKeepsBatches | mig-scheduler/scheduler.go:211-230 | the loop over in-flight files keeps every command in exactly one place, also when a write fails and the rest is given up |
| SchedulerConservation.PublishKeepsBatches | mig-scheduler/scheduler.go:230-238 | so do the publications, each in a goroutine of its own and in any order |
| SchedulerExamples.AnInsertedCommandCanBeLost | mig-scheduler/scheduler.go:216-219 | a reachable state with a command that is in the table as sent and abandoned |
| SchedulerLanding.UnansweredCommandHoldsItsAction | mig-scheduler/scheduler.go:316-317 | an inserted command that nothing comes back for keeps its action from ever landing |
| SchedulerSafety.ClaimKeeps | database/actions.go:330-350 | the atomic claim keeps: at most one scheduler holds an action, a pending one is held by none and has no commands, one command for each queue |
| SchedulerSteps.VisitOffersIff | mig-scheduler/collector.go:102-111 | a file of the spool is handed to the worker iff it loads and now is past validFrom and not past expireAfter; one that has expired, and nothing else, leaves the spool |
| SchedulerSteps.PickedIff | database/agents.go:256-260 | a queue is picked, once, iff some selected agent on it is online or idle, and what is picked for it is such an agent |
| SchedulerSteps.FlushInsertsRows | mig-scheduler/scheduler.go:196-210 | a batch is inserted iff the database takes it and no id is taken: a sent row for each command with its action and agent, all other rows as they were |
| SchedulerRuns.RunPersists | database/actions.go:209-240 | over every run no row of the actions table goes away, and of a row no more than the status changes |
| SchedulerSafety.SetupKeeps | mig-scheduler/flow.go:58-80 | writing a claimed action to the spool keeps the same: it stays with its one holder, without commands |
| SchedulerSafety.ReadKeeps | mig-scheduler/scheduler.go:54-86 | reading and re-queueing an action file keep the same, also when it cannot be read |
| SchedulerSafety.InvalidateKeeps | mig-scheduler/flow.go:116-135 | so does invalidating an action, whether or not its file can be removed |
| SchedulerSafety.QueryKeeps | database/agents.go:237-300 | the query keeps the same, also when it fails or finds no agent |
| SchedulerSafety.CreateKeeps | mig-scheduler/scheduler.go:166-192 | creating a command keeps one command for each action and queue, while earlier ones are still to be published |
| SchedulerSafety.FlyKeeps | mig-scheduler/flow.go:82-103 | flying an action up to the removal of its file keeps the same, whether or not it is removed |
| SchedulerSafety.DiscardKeeps | mig-scheduler/routines.go:39-46 | moving the file of a failed action keeps the same, unless it fails with commands made |
| SchedulerConservation.FlushKeepsBatches | mig-scheduler/scheduler.go:196-210 | inserting a batch, or having it refused, keeps every command in exactly one place |
| SchedulerLanding.LandsExactlyWhenNoneSent | mig-scheduler/scheduler.go:316-329 | the counters send an action to landing iff none of its rows is sent at that moment |
| SchedulerLanding.SentComesBackOnlyByInsertOrSentReturn | database/commands.go:203-244 | once none is sent, the next step brings a sent row back iff it inserts one or returns one with that status |
| SchedulerLanding.LandingIsSafe | mig-scheduler/scheduler.go:285-340 | after the decision to land, no row of the action is sent in any later state, if none is inserted or returned as sent |
| SchedulerExamples.AnActionCanLandBeforeAllItsCommandsAreSent | mig-scheduler/scheduler.go:316-329 | a reachable state in which an action is completed while a command of it, inserted after that, is still sent |
| SchedulerLanding.CompletedStaysIff | mig-scheduler/flow.go:103-107 | a step takes a completed action back iff it is one of the three unguarded statements of a worker on that action: in flight, invalid, or preparing |
| SchedulerLanding.CompletedForeverIff | mig-scheduler/flow.go:103-107 | a completed action stays completed over a run iff no such statement of the run succeeds |
| SchedulerExamples.ALandedActionCanTakeOffAgain | mig-scheduler/flow.go:103-107 | a reachable state in which flyAction takes a completed action back |
| SchedulerLanding.DoneNeverFalls | database/actions.go:278-325 | over runs whose returns carry done statuses, the Done counter never decreases |
| SchedulerLanding.DoneDropsOnlyOnUnfinishedReturnStep | database/commands.go:228-233 | exactly which step lowers the Done counter; the guard in it is that of FinishCommandWritesIff |
| SchedulerExamples.DoneCanFall | database/commands.go:228-233 | a reachable state and a return that lowers it |
| SchedulerExamples.CanLand | mig-scheduler/scheduler.go:316-321 | from any state in which an action has no sent row, a free updater can complete it |
| SchedulerExamples.AnIdleAgentLandsItsAction | database/commands.go:228-233 | a reachable run in which the success of an agent that is idle is written and its action lands |
| SchedulerLanding.RowFollowsItsReturns | database/commands.go:203-244 | whatever else happens, a row is the fold of its returned copies with the guard's verdict (that of FinishCommandWritesIff) at the time |
| SchedulerLanding.FinalStatusIsSuccessIffSomeReturnIs | mig-scheduler/scheduler.go:243-283 | the final status is success iff some guard-passing copy of the run was |
| SchedulerLanding.SuccessIsForever | database/commands.go:228-233 | from the first success on, status, results and finish time never change |
| SchedulerCode.Cluster.OnNewAction | mig-scheduler/routines.go:34-47 | one round of the loop amid all other goroutines: ends waiting, without faults the file of a failed action is gone, and if no file was left nothing is published twice for a queue |
| SchedulerCode.Cluster.ProcessNewAction | mig-scheduler/scheduler.go:54-164 | the worker's code: all it tries to create is one command for each agent that the query picked at a moment of the call, in order; then, unless it fails, the row is there and is in flight, or invalid if no try succeeded; without faults it fails only if the file was not there |
| SchedulerCode.Cluster.ActiveAgentsByTarget | database/agents.go:256-260 | picks one agent for each queue with a selected agent that is online or idle |
| SchedulerCode.Cluster.CreateCommands | mig-scheduler/scheduler.go:135-147 | the creation events of this scheduler during the call are one for each target, in order: each that succeeds makes exactly one new command, for that target, and the count is that of the successes |
| SchedulerCode.Cluster.CreateCommand | mig-scheduler/scheduler.go:166-192 | waits for the batching loop and then makes exactly one new command, of this action and for the next target; only a fault can fail it |
| SchedulerCode.Cluster.FlyAction | mig-scheduler/flow.go:82-113 | on success the row is in flight and, without faults, the file has left the spool; a failure leaves the file to the loop |
| SchedulerCode.Cluster.LandAction | mig-scheduler/flow.go:150-185 | on success the row was marked completed at a moment of this call, and only a fault can fail it |
| SchedulerCode.Cluster.FlushReady | mig-scheduler/scheduler.go:196-210 | the batch is handed over; without faults, and unless an id is taken, each of its commands has its sent row and is about to be written, and nothing is dropped |
| SchedulerCode.Cluster.WriteAll | mig-scheduler/scheduler.go:211-230 | without faults each command that was to be written is about to be published, and none is abandoned |
| SchedulerCode.Cluster.LoadNewActionsFromDB | mig-scheduler/collector.go:51-71 | what is claimed was pending and in its validity period at one moment of the call, right after which nothing is left to claim; without faults it is everything of that kind; and unless the call fails each claimed action was put into the spool |
| SchedulerCode.Cluster.ReturnCommands | mig-scheduler/scheduler.go:245-283 | each readable file starts one guarded update, which is pending at the return or has been made, once, in any order and wherever the others are |
| SchedulerCode.Cluster.UpdateAction | mig-scheduler/scheduler.go:285-340 | at moments of this call a landed action had no sent row and its own row was marked completed, and unless the call failed the others had some sent row; without faults it fails only for an action that has no row |
| CommandTable.FinishAllOutcome | database/commands.go:203-244 | a row after any copies: the first success among those passing the guard, else the last passing one, else unchanged |
| CommandTable.FinishingIsConfluent | database/commands.go:203-244 | whether success wins does not depend on the order of the copies |
| CommandTable.SuccessAbsorbs | database/commands.go:228-233 | a successful row is never changed |
| CommandTable.GetActionCounters | database/actions.go:278-325 | for any order of the grouped rows the counters are the true counts, and they add up |
| CommandTable.TallyIsCount | database/actions.go:278-325 | the groups of a status say how many rows have it |
| CommandTable.CountsAddUp | database/actions.go:296-323 | Sent = InFlight + Done, and Done is the sum of its five parts |
| CommandTable.AllDoneIffNoneSent | mig-scheduler/scheduler.go:316-317 | Done equals Sent iff no row of the action is sent |
| CommandTable.DoneDropsOnlyOnUnfinishedReturn | database/commands.go:228-233 | finishing lowers Done iff the guard passes, the row was done without success, and the status returned is not done |
| CommandTable.FinishCommandWritesIff | database/commands.go:228-233 | the returned status, results and finish time are written to the row of that id iff it is there, is not a success, and its agent is in the table on that queue and pid and online or idle; everything else stays as it was |
| CommandTable.CountersCount | database/actions.go:278-325 | each counter is the number of rows of the action with its own status |
| Batching.IdGenerator.GenID | action.go:214-227 | the first id is the clock in its upper bits; while the first reading and the number of ids allow for it, each id is the one before plus one, and so greater than all the generator has handed out, whatever the clock shows later |
| Batching.IdsIncrease | action.go:210-227 | whatever the clock does later, ids increase within what float64 counts |
| Batching.TwoIdsDifferIff | action.go:214-227 | two calls in one second differ iff the generator has been started and two more can be counted, or the clock is past the inception and before its 2^37th second |
| Batching.Batcher.OnArrival | mig-scheduler/routines.go:72-80 | an arrival joins the window, which closes at 1024 |
| Batching.Batcher.OnQuiet | mig-scheduler/routines.go:81-88 | a quiet second closes a window that is not empty |
| Batching.Batcher.HandOver | mig-scheduler/routines.go:60-71 | the list handed over holds the map's values once each and is not empty, so its first element exists |
| Batching.LastOfIsLast | mig-scheduler/routines.go:72-76 | the pending map holds each arrival that no later one of its window with the same key has replaced |
| Batching.HandedOverIff | mig-scheduler/routines.go:54-87 | a window is handed over complete iff no key came twice, otherwise something is missing |
| Batching.StreamConservedIff | mig-scheduler/routines.go:130-175 | over the life of a loop, all that arrived is handed over iff no key came twice in a window |
| Batching.CommandsOfOneProcessAreConserved | mig-scheduler/routines.go:54-87 | commands keyed by ids from different calls of one generator: those received are those handed over plus those pending |
| Batching.ReturnedFilesAreConserved | mig-scheduler/routines.go:92-127 | returned files, keyed by the counter, are never lost |
| CommandInsert.BuildInsert | database/commands.go:148-168 | n commands give placeholders $1 to $7n in order, each row reads as its command, and a failing marshal reports how many went before |
| AgentPipeline.MaximalRunAnswersExactly | mig-agent/agent.go:631-711 | a run that can go no further has answered exactly the non-empty commands before the first with more than capacity + 1 operations |
| AgentPipeline.AllAnsweredIffWithinBound | mig-agent/agent.go:674-706 | everything is answered iff each command has 1 to capacity + 1 operations |
| AgentPipeline.NoDeadlockWithinBound | mig-agent/agent.go:565-575 | within the bound some goroutine can always move |
| AgentPipeline.HaltedAt | mig-agent/agent.go:674-706 | where a halted pipeline stands: done, or blocked feeding a command whose collector does not exist |
| AgentPipeline.RunsAreBounded | mig-agent/agent.go:565-575 | no run takes more moves than one for each command and four for each operation |
| AgentPipeline.AnsweredInOrder | mig-agent/agent.go:716-733 | an answered command got each result once, and none of its operations is still registered |
| AgentPipeline.NoSendAfterClose | mig-agent/agent.go:716-733 | an operation on its way belongs to a command whose channel is not closed |
| ResultAggregation.ReceiveModuleResults | mig-agent/agent.go:849-909 | slot i holds operation i's output with any error behind it; success iff all succeeded, else the first other status to arrive |
| ResultAggregation.PipelineFeedsCollector | mig-agent/agent.go:716-733 | what the pipeline delivers meets the collector's contract |
| SearchBuilder.SearchAgents | database/searches.go:508-646 | the query built is the compilation of the filters supplied, in their order; an id that does not parse is the only error |
| SearchBuilder.SearchInvestigators | database/searches.go:692-832 | the same for investigators, whose joins run the other way |
| SearchBuilder.Builder.Compare | database/searches.go:528-541 | one comparison: AND if needed, the next placeholder and its value stay aligned |
| SearchBuilder.Builder.Within | database/searches.go:542-549 | an id range is two comparisons with the next two placeholders |
| SearchMeaning.TokensOfFilters | database/searches.go:524-628 | the WHERE text parses iff there is a filter, and comparison i is filter i with placeholder i |
| SearchMeaning.CompiledAnswers | database/searches.go:524-646 | a row is answered iff a joined tuple satisfies every filter |
| SearchMeaning.AgentSearchMeansWhatWasAsked | database/searches.go:508-646 | over every database: an agent is answered iff some chain of command, action, signature and investigator satisfies all filters supplied |
| InvestigatorSearchMeaning.InvestigatorSearchMeansWhatWasAsked | database/searches.go:692-832 | over every database: an investigator is answered iff some chain of signature, action, command and agent satisfies all filters supplied |
| SearchAsked.SearchAgentsFindsTheWanted | database/searches.go:508-646 | over every database the compiled search finds exactly the agents of the id, name, version and status asked for, heard of in the time asked for, with such a command of such an action signed by such an investigator as far as that is asked for |
| SearchAsked.SearchInvestigatorsFindsTheWanted | database/searches.go:692-832 | exactly the investigators of the id, name and status asked for, changed in that time, who signed such an action with such a command on such an agent as far as that is asked for |
| SearchAsked.IdsMadeIff | database/searches.go:33-91 | a search is refused iff some id that is given, used or not, spells no number |
| SearchExecutable.AgentSearchRunsIffSomethingIsAsked | database/searches.go:508-646 | the query is in scope, parses and has its placeholders in order iff the caller asked for something |
| SearchExecutable.InvestigatorSearchRunsIffSomethingIsAsked | database/searches.go:692-832 | the same for investigators |
| SearchExecutable.DefaultParametersCannotBeSearchedForAnHour | database/search/parameters.go:45-68 | with the default parameters the WHERE is empty until an hour has passed |
| SearchParameters.String | database/search/parameters.go:71-122 | prints the shown fields in order, wildcards encoded |
| SearchParameters.Assign | mig-api/search.go:241-302 | one case of the switch: from the defaults overridden by the texts seen so far to the defaults overridden by those and this one, or an error iff the text is none the key can take |
| SearchParameters.ParseSearchParameters | mig-api/search.go:233-305 | whatever the order of the form's names, the defaults overridden by its first values; an error iff one is unacceptable |
| SearchParameters.FlagIsRead | mig-api/search.go:264-271 | the flag is the first value under its name in any capitals, or the default |
| SearchParameters.WireNames | mig-api/search.go:241-302 | the name each parameter has in a query |
| SearchParameters.DefaultsAre | database/search/parameters.go:45-68 | what is searched for when nothing is supplied |
| QueryString.EncodedQueryIsRead | database/search/parameters.go:116-121 | every encoded query is read as the plain one with its wildcards spelled % (section 2.1 of RFC 3986) |
| QueryString.UnescapeReads | mig-api/search.go:56 | what a percent with two digits of either case, a plus and any other character stand for (section 2.1 of RFC 3986) |
| QueryString.FormKeepsOrder | mig-api/search.go:56 | the values under a name are those of its pairs, in order |
| QueryString.EncodedQueryReadsClean | database/search/parameters.go:116-121 | no separator ever comes out of an encoded query |
| TextFormats.TimeSurvivesIffSendable | database/search/parameters.go:72 | a printed time is read back iff it is in UTC or west of it with a four-digit year (section 5.6 of RFC 3339) |
| TextFormats.WholeReads | database/search/parameters.go:106-109 | a printed whole number is read back |
| SearchRoundTrip.RoundTripIff | database/search/parameters.go:71-122 | print then parse gives the normalised parameters iff no printed field has a separator and both times can be sent |
| SearchRoundTrip.PrintedIff | database/search/parameters.go:71-122 | a parameter is printed iff it is the type, a time or the limit, or the offset is not zero, or it differs from its wildcard |
| SearchRoundTrip.EasternTimeIsRefused | mig-api/search.go:257-261 | a search up to a time east of Greenwich is refused |
| SearchEndToEnd.FindAgents | mig-api/search.go:56-70 | what a client prints, the API parses and the database package compiles: refused iff a time cannot be sent or an id spells no number, else over every database it finds exactly the agents wanted by the normalised parameters, with their page |
| SearchEndToEnd.FindInvestigators | mig-api/search.go:56-70 | the same for investigators |
| SearchEndToEnd.PlainAsksTheSame | database/search/parameters.go:71-122 | parameters whose only wildcard is % and whose times are whole seconds ask for the same when they arrive |
| TextFormats.DaysAreCounted | database/searches.go:524-541 | the instants that times are compared by count every day of the calendar once |
| TextFormats.InstantCounts | database/searches.go:524-541 | a nanosecond, second, minute, hour, day or month more, or a minute of the zone, moves the instant by as much |
| Armour.ReArmorSignature | pgp/verify.go:59-78 | the loop produces the armour of the line |
| Armour.ArmourIsWrapped | pgp/verify.go:59-78 | that armour is the payload in lines of 64 columns and the checksum, between the header and the footer |
| Armour.ArmourRoundTrip | pgp/verify.go:59-78 | a line comes back iff it has a checksum, is one line, and no 64-column chunk starts with five dashes |
| Armour.Base64RoundTrip | pgp/sign.go:96-106 | every base64 line with a checksum comes back (sections 6.2 and 6.3 of RFC 4880) |
| Armour.CanonicalArmourRoundTrip | pgp/sign.go:96-106 | every canonical armour with 64-column lines comes back |
| ManifestStore.ManifestTables.ManifestAddSignature | database/manifest.go:24-43 | refused for a disabled or unknown manifest or a second signature, else signed and its status refreshed; a failure in between leaves it signed with the old status |
| ManifestStore.ManifestTables.ManifestUpdateStatus | database/manifest.go:58-75 | active iff as many investigators as required have signed, unless disabled |
| ManifestStore.ManifestTables.StageManifest | mig-api/manifest_endpoints.go:78-86 | staging clears the signatures and refreshes the status; a failure in between leaves them cleared with the old status |
| ManifestStore.QuorumOverRuns | database/manifest.go:16-80 | over every sequence of requests a manifest not disabled is active iff enough investigators signed |
| ManifestStore.QuorumNeedsARequirement | database/manifest.go:16-21 | that holds for all sequences iff at least one signature is required |
| ManifestStore.DisabledIsForever | database/manifest.go:46-55 | a disabled manifest stays so and takes no further signature |
| ManifestStore.DisabledInEveryInterleaving | database/manifest.go:58-75 | so it does in every interleaving of statements, where the update leaves a manifest alone that was disabled since the count |
| ManifestStore.UninterruptedIsWhole | database/manifest.go:24-75 | the statements of a request, uninterrupted, are the request |
| ManifestStore.ActiveOnceHadQuorum | database/manifest.go:58-75 | in every interleaving a manifest is active only if it once had enough signatures |
| ManifestOverlap.UndisturbedKeepsQuorum | database/manifest.go:24-75 | in every interleaving in which no change of the signatures that makes a count wrong falls between the count and the update of another process, and no failing request leaves a wrong status to nobody, each manifest that is not disabled and not being worked on is active iff it has enough signatures |
| ManifestOverlap.OverlapCanBreakQuorum | database/manifest.go:58-75 | from every state in which a process stands between its count and its update, other requests can leave the manifest with the wrong status and nobody at work |
| ManifestOverlap.AbandoningBreaksQuorum | database/manifest.go:36-43 | and a request that fails with nobody else at work leaves the wrong status at once |
| ManifestStore.InterleavingBreaksQuorum | mig-api/manifest_endpoints.go:78-86 | two processes can leave a manifest active with no signature |
| ManifestSigning.ManifestResponse.VerifySignatures | manifest.go:289-336 | counts the signatures iff all verify the stripped document, by distinct keys, else an error; the response loses them |
| ManifestSigning.CheckManifestSignature | mig-loader/loader.go:358-384 | no error iff enough signatures, all good, by distinct keys |
| ManifestSigning.AcceptedMeansQuorum | mig-loader/loader.go:373-382 | acceptance means that many different keys signed |
| ManifestSigning.SignThenVerify | manifest.go:61-84 | what is signed is what is verified, so a served record is accepted iff enough different keys signed it |
| ManifestSigning.ActiveManifestIsAccepted | mig-api/manifest_endpoints.go:404-414 | an active manifest, its signatures in any order, is accepted by a loader that requires no more |
| Loader.Machine.FetchAndReplace | mig-loader/loader.go:206-273 | success leaves verified content with the permissions asked for; at every moment the path is safe; a mismatch changes only the staged file; without faults it succeeds iff the served content has the hash, and the former file is kept beside it |
| Loader.Machine.Install | mig-loader/loader.go:259-271 | between and after the two renames the path, or its .old sibling, holds a complete file |
| Loader.Machine.CheckEntry | mig-loader/loader.go:276-314 | the first manifest entry of the name decides; changes are noted iff the checksums differ; without faults it succeeds iff the file is there, or, if they differ, is served with the checksum wanted |
| Loader.Machine.CompareManifest | mig-loader/loader.go:342-356 | success brings every named entry to the manifest's content and leaves all else; every moment is safe for every entry; without faults it fails only for an entry that is missing or not served as wanted |
| Loader.Machine.HashBundle | manifest.go:417-451 | fills in checksums in place; a missing file keeps the one it came with |
| Loader.HashedIffFresh | manifest.go:417-451 | the filled bundle describes the disk iff no missing file came with a checksum |
| Loader.PlainIsSeparate | manifest.go:366-391 | different paths without the staging endings do not interfere |
| Runner.Tracker.Monitor | mig-runner/results.go:212-219 | the file is written before the list grows, and at any moment the tracker can be restarted |
| Runner.Tracker.ScanInFlight | mig-runner/results.go:150-200 | a complete scan makes the list cover every file; distinct ids are kept |
| Runner.Tracker.CollectExpired | mig-runner/results.go:236-266 | the in-place rebuild keeps, in order, the entries whose clock reading is not past expireAfter plus the delay, and fetches the others, each after that sum; files go only after a fetch; every moment is recoverable |
| Runner.CollectsExactlyThePast | mig-runner/results.go:236-256 | an entry is kept iff its clock reading is not past expireAfter plus the delay, if that parses; else it is fetched at that reading and its file goes |
| Runner.Tracker.Keep | mig-runner/results.go:264 | writing to the list's own array never passes the element being read |
| Runner.OnQuiet | mig-runner/results.go:204-266 | after a quiet period that scanned everything, each registered action past expireAfter plus the delay was fetched after that time, also after restarts |
| Runner.DueIsFetched | mig-runner/results.go:236-256 | why: a file found by the scan is in the list, and what is past that sum is fetched |
| Supervisor.RunsAreSafe | mig-agent/persist.go:127-357 | no send on or close of a closed or nil dispatch channel; down means not registered; the channel only while dispatch is up; what was raised is what was handled, is in hand and is queued, in order; what was put into the dispatch channel is what was taken from it, dropped at its end or is still there, in order |
| Supervisor.RegisterFollows | mig-agent/persist.go:280-294 | in every run the register holds what the module registered with last since it was down |
| Supervisor.UpMeansStarted | mig-agent/persist.go:165-228 | in every run a module that is up was started, and sent its configuration, since it was down, unless its supervisor is gone |
| Supervisor.DeathNeedsAKill | mig-agent/persist.go:342-357 | whatever else happens, a module told to die is down only after it was killed |
| Supervisor.DeadlockIff | mig-agent/alert.go:33-39 | processor and dispatch supervisor are deadlocked iff the dispatch buffer is full and the supervisor waits for the lock, is gone, or raises an alert with all 128 places for alerts taken |
| Supervisor.DeadlockIsReachable | mig-agent/alert.go:33-39 | 129 alerts and a failing dispatch module get there |
| Supervisor.DeadlockIsForever | mig-agent/persist.go:145-155 | from then on no alert is ever handled |
| ModuleReaders.OneReaderIsSafe | mig-agent/persist.go:190-201 | if no module starts while an earlier reader works, no reader sends on a closed input channel or closes one |
| ModuleReaders.OverlapCanPanic | mig-agent/persist.go:190-201 | any start next to an earlier reader can end in closing a closed channel, or in sending on one |
| ModuleReaders.PanicIsReachable | mig-agent/persist.go:331-339 | a failing ping leads there |
| AgentTable.AgentTable.OnHeartbeat | mig-scheduler/agents_queues.go:114-156 | the lookup sees a live row of the agent, or nothing if there is none or it fails; then, whatever others do in between, the row inserted, put in its place, or updated is online with the time of this heartbeat (a refreshed one that says destroyed keeps the old status), or nothing happens; and a write that takes effect keeps one live row iff the lookup is still up to date |
| AgentTable.AgentTable.ReplaceRefreshedAgent | database/agents.go:153-177 | the old row goes offline and the new one comes in, or neither |
| AgentTable.AgentTable.Periodic | mig-scheduler/periodic.go:36-43 | offline is marked before idle; either may fail |
| AgentTable.PeriodicTakesIff | database/agents.go:600-620 | a whole run takes an online row to idle iff it was last heard of before the idle point, an idle one to offline iff before the offline point, and changes nothing else |
| AgentTable.CutShortTakesIff | mig-scheduler/periodic.go:36-43 | one that is cut short has only marked idle rows offline, or nothing |
| AgentTable.HeardOfStaysOnline | database/agents.go:138-151 | over every run a row stays online whose last heartbeat is no earlier than the idle points, unless it is replaced or destroyed |
| AgentTable.OneLiveRowPerAgentIff | mig-scheduler/agents_queues.go:114-156 | over every interleaving of lookups, writes, periodic runs and kill passes, at every moment at most one row of a queue and pid is not offline, iff no step of the run brings up a row of an agent that has another live one |
| AgentTable.WriteKeepsOneLiveIff | database/agents.go:138-177 | whatever its lookup saw, a write keeps that iff no row of the agent but the one seen is live when it takes effect |
| AgentTable.MarkingKeepsOneLiveIff | database/agents.go:313-322 | marking a row destroyed keeps that iff no other row of its agent is live |
| AgentTable.LookupIsUpToDate | database/agents.go:20-34 | a lookup that does not fail is up to date when it is made, so only failed and overtaken ones break it |
| AgentTable.FirstHeartbeatsCanCollide | mig-scheduler/agents_queues.go:114-134 | a run in which two first heartbeats leave two live rows |
| AgentTable.LateUpdateRevives | database/agents.go:140-143 | a run in which a late update puts a replaced row back online |
| AgentTable.OneAgentAnswers | database/commands.go:228-233 | while agents have one live row each, a returned command passes the guard for one agent at most |
| AgentTable.OfflineTakesTwoRuns | mig-scheduler/periodic.go:36-43 | whatever heartbeats do in between, a row never replaced goes from online to offline only over two periodic runs |
| DuplicateAgents.Killer.KillAgain | mig-scheduler/agents_management.go:46-70 | orders again exactly agents destroyed more than three heartbeats ago |
| DuplicateAgents.Killer.Oldest | mig-scheduler/agents_management.go:76-84 | no online agent is older than the one chosen, nor is the first; it is online iff the first is or an earlier online one exists |
| DuplicateAgents.Killer.KillDupAgents | mig-scheduler/agents_management.go:18-101 | whatever part of the listing the ignored query error leaves, and however the pass ends, an agent that was not destroyed is left, and at most one such is ordered destroyed; a pass that does not fail orders all destroyed agents again, since destruction times are never selected, and the chosen one if two remain |
| Framing.WriteOutput | modules/modules.go:338-355 | under every schedule of short writes the message and a line feed go out, or a prefix if the pipe breaks |
| Framing.ReadInputLine | modules/modules.go:242-254 | under every split into prefixes one whole line is read and nothing behind it is touched |
| Framing.FramingRoundTripIff | modules/modules.go:242-355 | framed messages have themselves as their lines iff none contains a line feed or ends in a carriage return |
| Framing.Transfer | modules/modules.go:242-355 | a sequence of messages written with short writes and read in prefixes: unless the pipe breaks they arrive as sent iff each can be framed, else a prefix of them arrives, the last perhaps cut short |

## Left out

- Crashes of a scheduler: a process killed between creating commands and removing the spool file creates them again when restarted.
- Returned command files, the content of in-flight files, and their removal before the database update: returns and expired copies are arbitrary finish events instead.
- Actions with an id below one, which get an id from the generator, and clashes of ids between processes beyond the insert being refused.
- The inserts of signatures and the log of actions in `processNewAction`: they can only fail, which is one outcome of its events.
- The branch for a module that is not available in `parseCommands`: its failed entries stay in the shared map and are seen by later commands.
- SearchCommands, SearchActions, SearchManifests and SearchLoaders: the same construction, except that the status filter of `SearchActions` names a table that is not joined.
- Ordering, grouping by primary key, limits and offsets of search results, and the double evaluation of the clock within one search.
- HTTP transport of query strings: spaces, `#` and non-ASCII octets.
- TextFormats.TimeSurvivesIffSendable: fractions of a second, which time.Parse would accept but String never prints, and negative years.
- TextFormats.WholeReads: limits and offsets are whole numbers; fractions are rounded by the printer and exponents accepted by the parser.
- SearchParameters.String: the blocks that each print one field are one loop over the keys, and the string fields of the parameters are entries of a map.
- ResultAggregation.ReceiveModuleResults: commands without operations, for which the loop waits forever, are covered by the pipeline instead.
- ManifestStore.ActiveOnceHadQuorum: says "once had", since interleaved statements can leave a manifest active after its signatures were cleared; `ManifestOverlap` has the exact condition.
- Runner.Tracker.Monitor: files are written whole; a file cut short would be read as an action with id zero.
- Runner.OnQuiet: a fetch that fails counts as one; the code does not repeat it.
- Loader.Machine.FetchAndReplace: the umask, which can take permissions from a new file.
- What `getHeartbeats` checks before its lookup: the size and age of a message, the lengths of its fields and the authorization of the agent.
- Raw SQL targets: an arbitrary set of selected agents.
- AMQP, HTTP, PostgreSQL itself, logging, process spawning, service installation, consoles, OpenPGP, hashing, compression, JSON and tar.
- Liveness that needs agents to answer.
