/**
 Several schedulers sharing one database, as a transition system.  Each scheduler runs a collector
 (claims actions and scans its spool), one worker (processNewAction), one batching sender and one
 updater.  A step is one SQL statement, one file operation or one hand-over on an unbuffered channel,
 so every interleaving of the goroutines is a sequence of events.  An event whose guard does not hold
 leaves the state as it is.  The boolean parameters let any operation on a disk, the database or the
 message broker fail, also those whose errors the code ignores.
 */
module Scheduler {
  import opened Common
  import opened CommandTable
  import opened FiniteSets

  datatype Action = Action(id: ActionId, validFrom: int, expireAfter: int)
  datatype ActionStatus = Pending | Scheduled | Preparing | InFlight | Invalid | Completed
  datatype ActionRow = ActionRow(action: Action, status: ActionStatus)

  datatype Target = Target(agent: AgentId, queueLoc: string)
  datatype Command = Command(owner: nat, id: CommandId, action: ActionId, target: Target)

  /** Where processNewAction stands.  After invalidAction it carries on, to Upserting, if resume is set.
      Failing is the loop around it, about to move the file of a failed action out of the spool. */
  datatype Worker =
    | Waiting
    | Reading(path: ActionId)
    | Targeting(action: Action)
    | Invalidating(action: Action, resume: bool)
    | Invalidated(action: Action, resume: bool)
    | Upserting(action: Action, targets: seq<Target>)
    | Creating(action: Action, targets: seq<Target>, created: nat)
    | Flying(action: Action)
    | Flown(action: Action)
    | Failing(path: ActionId)

  /** Where the collector stands; Offering is the blocking send on the NewAction channel. */
  datatype Collector =
    | Resting
    | SettingUp(claimed: map<ActionId, Action>)
    | Scanning(names: set<ActionId>)
    | Offering(path: ActionId, names: set<ActionId>)

  datatype Updater = Free | Landing(action: ActionId)

  /** writing is what sendCommands still has to write to the in-flight directory. */
  datatype Sched = Sched(
    spool: map<ActionId, Action>,
    collector: Collector,
    worker: Worker,
    nextId: CommandId,
    readyCmd: map<CommandId, Command>,
    ctr: nat,
    writing: seq<Command>,
    updater: Updater)

  /** publishing are the goroutines that are each about to publish one command.  The rest is a history
      and never influences a step: dropped are the commands whose insert failed, abandoned those inserted
      but given up before they were published, unpublished those the broker refused. */
  datatype State = State(
    now: int,
    actions: map<ActionId, ActionRow>,
    agents: map<AgentId, AgentRow>,
    commands: map<CommandId, CommandRow>,
    scheds: seq<Sched>,
    seen: set<ActionId>,
    made: set<Command>,
    dropped: set<Command>,
    abandoned: set<Command>,
    publishing: set<Command>,
    published: seq<Command>,
    unpublished: set<Command>)

  datatype Event =
    | AddAction(action: Action)
    | DropAction(s: nat, action: Action)
    | SetAgents(agents: map<AgentId, AgentRow>)
    | Tick(duration: nat)
    | Claim(s: nat, read: set<ActionId>, ok: bool)
    | Setup(s: nat, id: ActionId, ok: bool)
    | Scan(s: nat, ok: bool)
    | Visit(s: nat, id: ActionId, ok: bool)
    | EndScan(s: nat)
    | Take(s: nat)
    | Read(s: nat, ok: bool)
    | Query(s: nat, selected: set<AgentId>, picked: seq<Target>, ok: bool)
    | Invalidate(s: nat, ok: bool, removed: bool)
    | MarkInvalid(s: nat, ok: bool)
    | Upsert(s: nat, ok: bool, signed: bool)
    | Create(s: nat, gap: nat, ok: bool)
    | CreatedAll(s: nat)
    | Fly(s: nat, ok: bool, removed: bool)
    | FlyStatus(s: nat, ok: bool)
    | Discard(s: nat, ok: bool)
    | Flush(s: nat, order: seq<Command>, ok: bool)
    | Write(s: nat, ok: bool)
    | Publish(cmd: Command, ok: bool)
    | Finish(returned: Returned)
    | Tally(s: nat, id: ActionId)
    | Land(s: nat, ok: bool)

  // ----- the steps -----

  /** What a step does that neither makes nor moves a command on its way to the message broker. */
  ghost predicate LeavesBatches(st: State, st': State) {
    && |st'.scheds| == |st.scheds|
    && st'.made == st.made && st'.dropped == st.dropped && st'.abandoned == st.abandoned
    && st'.publishing == st.publishing && st'.published == st.published && st'.unpublished == st.unpublished
    && forall s | 0 <= s < |st.scheds| :: SameBatch(st.scheds[s], st'.scheds[s])
  }

  predicate SameBatch(sc: Sched, sc': Sched) {
    sc'.readyCmd == sc.readyCmd && sc'.ctr == sc.ctr && sc'.writing == sc.writing && sc'.nextId == sc.nextId
  }

  function With(st: State, s: nat, sc: Sched): State
    requires s < |st.scheds|
  {
    st.(scheds := st.scheds[s := sc])
  }

  function SetStatus(st: State, id: ActionId, status: ActionStatus): State {
    if id in st.actions then st.(actions := st.actions[id := st.actions[id].(status := status)]) else st
  }

  function WithWorker(st: State, s: nat, w: Worker): State
    requires s < |st.scheds|
  {
    With(st, s, st.scheds[s].(worker := w))
  }

  /** Removing a file whose removal may fail. */
  function Without(spool: map<ActionId, Action>, id: ActionId, removed: bool): map<ActionId, Action> {
    if removed then spool - {id} else spool
  }

  /** The API stores a new action; ids are never reused, and unique in the table. */
  function DoAddAction(st: State, a: Action): (st': State)
    ensures LeavesBatches(st, st')
  {
    if a.id in st.seen || a.id in st.actions then st
    else st.(seen := st.seen + {a.id}, actions := st.actions[a.id := ActionRow(a, Pending)])
  }

  /** issueKillAction writes an action of the scheduler's own straight into its spool. */
  function DoDropAction(st: State, s: nat, a: Action): (st': State)
    requires s < |st.scheds|
    ensures LeavesBatches(st, st')
  {
    if a.id in st.seen then st
    else With(st.(seen := st.seen + {a.id}), s, st.scheds[s].(spool := st.scheds[s].spool[a.id := a]))
  }

  predicate Runnable(row: ActionRow, now: int) {
    row.status == Pending && row.action.validFrom < now && row.action.expireAfter > now
  }

  /** SetupRunnableActions: one UPDATE ... RETURNING.  A row that does not decode fails the call (ok is
      false); a connection lost while reading the rows does not, and only those read are set up. */
  function DoClaim(st: State, s: nat, read: set<ActionId>, ok: bool): (st': State)
    requires s < |st.scheds|
    ensures LeavesBatches(st, st')
  {
    var sc := st.scheds[s];
    if !sc.collector.Resting? then st
    else
      var claimed :=
        map id | id in st.actions && Runnable(st.actions[id], st.now) && id in read :: st.actions[id].action;
      var rows := map id | id in st.actions ::
        if Runnable(st.actions[id], st.now) then st.actions[id].(status := Scheduled) else st.actions[id];
      With(st.(actions := rows), s, sc.(collector := if ok then SettingUp(claimed) else Resting))
  }

  function DoSetup(st: State, s: nat, id: ActionId, ok: bool): (st': State)
    requires s < |st.scheds|
    ensures LeavesBatches(st, st')
  {
    var sc := st.scheds[s];
    if !(sc.collector.SettingUp? && id in sc.collector.claimed) then st
    else if !ok then With(st, s, sc.(collector := Resting))
    else
      var a := sc.collector.claimed[id];
      With(st, s, sc.(spool := sc.spool[id := a], collector := SettingUp(sc.collector.claimed - {id})))
  }

  function DoScan(st: State, s: nat, ok: bool): (st': State)
    requires s < |st.scheds|
    ensures LeavesBatches(st, st')
  {
    var sc := st.scheds[s];
    if sc.collector != SettingUp(map[]) then st
    else With(st, s, sc.(collector := if ok then Scanning(sc.spool.Keys) else Resting))
  }

  /** A file that does not load is skipped; one that has expired stays if its removal fails. */
  function DoVisit(st: State, s: nat, id: ActionId, ok: bool): (st': State)
    requires s < |st.scheds|
    ensures LeavesBatches(st, st')
  {
    var sc := st.scheds[s];
    if !(sc.collector.Scanning? && id in sc.collector.names) then st
    else
      var rest := Scanning(sc.collector.names - {id});
      if id !in sc.spool || !ok then With(st, s, sc.(collector := rest))
      else if st.now > sc.spool[id].expireAfter then
        With(st, s, sc.(spool := sc.spool - {id}, collector := rest))
      else if st.now > sc.spool[id].validFrom then
        With(st, s, sc.(collector := Offering(id, rest.names)))
      else With(st, s, sc.(collector := rest))
  }

  function DoEndScan(st: State, s: nat): (st': State)
    requires s < |st.scheds|
    ensures LeavesBatches(st, st')
  {
    var sc := st.scheds[s];
    if sc.collector == Scanning({}) then With(st, s, sc.(collector := Resting)) else st
  }

  /** The hand-over on the NewAction channel: the worker takes one path at a time. */
  function DoTake(st: State, s: nat): (st': State)
    requires s < |st.scheds|
    ensures LeavesBatches(st, st')
  {
    var sc := st.scheds[s];
    if sc.collector.Offering? && sc.worker.Waiting? then
      With(st, s, sc.(worker := Reading(sc.collector.path), collector := Scanning(sc.collector.names)))
    else st
  }

  function AfterReading(spool: map<ActionId, Action>, path: ActionId, now: int, ok: bool): Worker {
    if !ok || path !in spool then Failing(path)
    else if now < spool[path].validFrom then Waiting
    else if now > spool[path].expireAfter then Invalidating(spool[path], false)
    else Targeting(spool[path])
  }

  function DoRead(st: State, s: nat, ok: bool): (st': State)
    requires s < |st.scheds|
    ensures LeavesBatches(st, st')
  {
    var sc := st.scheds[s];
    if !sc.worker.Reading? then st
    else WithWorker(st, s, AfterReading(sc.spool, sc.worker.path, st.now, ok))
  }

  /** SELECT DISTINCT ON (queueloc) over the selected agents that are online or idle. */
  predicate DistinctOn(picked: seq<Target>, agents: map<AgentId, AgentRow>, selected: set<AgentId>) {
    && DistinctQueues(picked)
    && (forall t | t in picked ::
          && t.agent in selected && t.agent in agents
          && agents[t.agent].status in {Online, Idle} && agents[t.agent].queueLoc == t.queueLoc)
    && (forall id | id in selected && id in agents && agents[id].status in {Online, Idle} ::
          HasQueue(picked, agents[id].queueLoc))
  }

  predicate HasQueue(picked: seq<Target>, queueLoc: string) {
    exists t :: t in picked && t.queueLoc == queueLoc
  }

  predicate DistinctQueues(picked: seq<Target>) {
    forall i, j | 0 <= i < j < |picked| :: picked[i].queueLoc != picked[j].queueLoc
  }

  /** An empty answer invalidates the action, and processNewAction then carries on all the same. */
  function DoQuery(st: State, s: nat, selected: set<AgentId>, picked: seq<Target>, ok: bool): (st': State)
    requires s < |st.scheds|
    ensures LeavesBatches(st, st')
  {
    var sc := st.scheds[s];
    if !(sc.worker.Targeting? && DistinctOn(picked, st.agents, selected)) then st
    else
      var a := sc.worker.action;
      if !ok then WithWorker(st, s, Failing(a.id))
      else if picked == [] then WithWorker(st, s, Invalidating(a, true))
      else WithWorker(st, s, Upserting(a, picked))
  }

  /** invalidAction up to the removal of the file, whose error is ignored. */
  function DoInvalidate(st: State, s: nat, ok: bool, removed: bool): (st': State)
    requires s < |st.scheds|
    ensures LeavesBatches(st, st')
  {
    var sc := st.scheds[s];
    if !sc.worker.Invalidating? then st
    else
      var a := sc.worker.action;
      if !ok then WithWorker(st, s, Failing(a.id))
      else With(st, s, sc.(spool := Without(sc.spool, a.id, removed), worker := Invalidated(a, sc.worker.resume)))
  }

  function DoMarkInvalid(st: State, s: nat, ok: bool): (st': State)
    requires s < |st.scheds|
    ensures LeavesBatches(st, st')
  {
    var sc := st.scheds[s];
    if !sc.worker.Invalidated? then st
    else
      var a := sc.worker.action;
      if !ok then WithWorker(st, s, Failing(a.id))
      else SetStatus(WithWorker(st, s, if sc.worker.resume then Upserting(a, []) else Waiting), a.id, Invalid)
  }

  /** The row, and then the signatures of an action that had none yet. */
  function DoUpsert(st: State, s: nat, ok: bool, signed: bool): (st': State)
    requires s < |st.scheds|
    ensures LeavesBatches(st, st')
  {
    var sc := st.scheds[s];
    if !sc.worker.Upserting? then st
    else
      var a := sc.worker.action;
      if !ok then WithWorker(st, s, Failing(a.id))
      else
        var row := if a.id in st.actions then st.actions[a.id].(status := Preparing) else ActionRow(a, Preparing);
        WithWorker(st.(actions := st.actions[a.id := row]), s,
                   if signed then Creating(a, sc.worker.targets, 0) else Failing(a.id))
  }

  /** createCommand: a fresh GenID, then the blocking send to the batching loop. */
  function DoCreate(st: State, s: nat, gap: nat, ok: bool): State
    requires s < |st.scheds|
  {
    var sc := st.scheds[s];
    if !(sc.worker.Creating? && sc.worker.targets != []) then st
    else
      var a, id := sc.worker.action, sc.nextId + gap;
      var rest, n := sc.worker.targets[1..], sc.worker.created;
      if !ok then With(st, s, sc.(worker := Creating(a, rest, n), nextId := id + 1))
      else if !(sc.ctr < BATCH && sc.writing == []) then st
      else
        var cmd := Command(s, id, a.id, sc.worker.targets[0]);
        With(st.(made := st.made + {cmd}), s,
             sc.(worker := Creating(a, rest, n + 1), nextId := id + 1,
                 readyCmd := sc.readyCmd[id := cmd], ctr := sc.ctr + 1))
  }

  function DoCreatedAll(st: State, s: nat): (st': State)
    requires s < |st.scheds|
    ensures LeavesBatches(st, st')
  {
    var sc := st.scheds[s];
    if !(sc.worker.Creating? && sc.worker.targets == []) then st
    else if sc.worker.created == 0 then WithWorker(st, s, Invalidating(sc.worker.action, false))
    else WithWorker(st, s, Flying(sc.worker.action))
  }

  /** flyAction up to the removal of the file, whose error is ignored. */
  function DoFly(st: State, s: nat, ok: bool, removed: bool): (st': State)
    requires s < |st.scheds|
    ensures LeavesBatches(st, st')
  {
    var sc := st.scheds[s];
    if !sc.worker.Flying? then st
    else
      var a := sc.worker.action;
      if !ok then WithWorker(st, s, Failing(a.id))
      else With(st, s, sc.(spool := Without(sc.spool, a.id, removed), worker := Flown(a)))
  }

  function DoFlyStatus(st: State, s: nat, ok: bool): (st': State)
    requires s < |st.scheds|
    ensures LeavesBatches(st, st')
  {
    var sc := st.scheds[s];
    if !sc.worker.Flown? then st
    else
      var a := sc.worker.action;
      if !ok then WithWorker(st, s, Failing(a.id))
      else SetStatus(WithWorker(st, s, Waiting), a.id, InFlight)
  }

  /** The new-action loop moves the file of a failed action out of the spool, and ignores the error. */
  function DoDiscard(st: State, s: nat, ok: bool): (st': State)
    requires s < |st.scheds|
    ensures LeavesBatches(st, st')
  {
    var sc := st.scheds[s];
    if !sc.worker.Failing? then st
    else With(st, s, sc.(spool := Without(sc.spool, sc.worker.path, ok), worker := Waiting))
  }

  predicate Lists(order: seq<Command>, ready: map<CommandId, Command>) {
    && (forall i, j | 0 <= i < j < |order| :: order[i] != order[j])
    && (forall c | c in order :: c in Batched(ready)) && (forall c | c in Batched(ready) :: c in order)
  }

  function Batched(ready: map<CommandId, Command>): set<Command> {
    set id | id in ready :: ready[id]
  }

  function RowsOf(ready: map<CommandId, Command>): map<CommandId, CommandRow> {
    map id | id in ready :: CommandRow(ready[id].action, ready[id].target.agent, Sent, "", FAR_FUTURE)
  }

  /** sendCommands up to its insert: one INSERT for the whole batch, refused if any id is taken. */
  function DoFlush(st: State, s: nat, order: seq<Command>, ok: bool): State
    requires s < |st.scheds|
  {
    var sc := st.scheds[s];
    if !(sc.ctr > 0 && sc.writing == [] && Lists(order, sc.readyCmd)) then st
    else
      var emptied := sc.(readyCmd := map[], ctr := 0);
      if !ok || sc.readyCmd.Keys * st.commands.Keys != {} then
        With(st.(dropped := st.dropped + Batched(sc.readyCmd)), s, emptied)
      else
        With(st.(commands := st.commands + RowsOf(sc.readyCmd)), s, emptied.(writing := order))
  }

  /** The loop of sendCommands: each command goes to the in-flight directory, and a goroutine is started to
      publish it.  A write that fails ends the loop. */
  function DoWrite(st: State, s: nat, ok: bool): State
    requires s < |st.scheds|
  {
    var sc := st.scheds[s];
    if sc.writing == [] then st
    else if !ok then
      With(st.(abandoned := st.abandoned + Elements(sc.writing)), s, sc.(writing := []))
    else
      With(st.(publishing := st.publishing + {sc.writing[0]}), s, sc.(writing := sc.writing[1..]))
  }

  /** The goroutines publish in any order; a failure is only logged. */
  function DoPublish(st: State, c: Command, ok: bool): State {
    if c !in st.publishing then st
    else
      var rest := st.(publishing := st.publishing - {c});
      if ok then rest.(published := rest.published + [c]) else rest.(unpublished := rest.unpublished + {c})
  }

  /** updateAction up to its decision: the counters are one query. */
  function DoTally(st: State, s: nat, id: ActionId): (st': State)
    requires s < |st.scheds|
    ensures LeavesBatches(st, st')
  {
    var sc := st.scheds[s];
    if !(sc.updater.Free? && id in st.actions) then st
    else
      var counters := CountersOf(st.commands, id);
      if counters.done == counters.sent then With(st, s, sc.(updater := Landing(id))) else st
  }

  /** landAction: the row is marked by a statement of its own. */
  function DoLand(st: State, s: nat, ok: bool): (st': State)
    requires s < |st.scheds|
    ensures LeavesBatches(st, st')
  {
    var sc := st.scheds[s];
    if !sc.updater.Landing? then st
    else
      var freed := With(st, s, sc.(updater := Free));
      if ok then SetStatus(freed, sc.updater.action, Completed) else freed
  }

  predicate Addressed(st: State, e: Event) {
    match e
    case AddAction(_) => true
    case SetAgents(_) => true
    case Tick(_) => true
    case Finish(_) => true
    case Publish(_, _) => true
    case _ => e.s < |st.scheds|
  }

  function Step(st: State, e: Event): State {
    if !Addressed(st, e) then st else
    match e
    case AddAction(a) => DoAddAction(st, a)
    case DropAction(s, a) => DoDropAction(st, s, a)
    case SetAgents(agents) => st.(agents := agents)
    case Tick(d) => st.(now := st.now + d)
    case Claim(s, read, ok) => DoClaim(st, s, read, ok)
    case Setup(s, id, ok) => DoSetup(st, s, id, ok)
    case Scan(s, ok) => DoScan(st, s, ok)
    case Visit(s, id, ok) => DoVisit(st, s, id, ok)
    case EndScan(s) => DoEndScan(st, s)
    case Take(s) => DoTake(st, s)
    case Read(s, ok) => DoRead(st, s, ok)
    case Query(s, selected, picked, ok) => DoQuery(st, s, selected, picked, ok)
    case Invalidate(s, ok, removed) => DoInvalidate(st, s, ok, removed)
    case MarkInvalid(s, ok) => DoMarkInvalid(st, s, ok)
    case Upsert(s, ok, signed) => DoUpsert(st, s, ok, signed)
    case Create(s, gap, ok) => DoCreate(st, s, gap, ok)
    case CreatedAll(s) => DoCreatedAll(st, s)
    case Fly(s, ok, removed) => DoFly(st, s, ok, removed)
    case FlyStatus(s, ok) => DoFlyStatus(st, s, ok)
    case Discard(s, ok) => DoDiscard(st, s, ok)
    case Flush(s, order, ok) => DoFlush(st, s, order, ok)
    case Write(s, ok) => DoWrite(st, s, ok)
    case Publish(c, ok) => DoPublish(st, c, ok)
    case Finish(cmd) => st.(commands := FinishCommand(st.commands, st.agents, cmd))
    case Tally(s, id) => DoTally(st, s, id)
    case Land(s, ok) => DoLand(st, s, ok)
  }

  function Run(st: State, events: seq<Event>): State
    decreases |events|
  {
    if events == [] then st
    else Step(Run(st, events[..|events| - 1]), events[|events| - 1])
  }

  function FreshSched(): Sched {
    Sched(map[], Resting, Waiting, 1, map[], 0, [], Free)
  }

  function Init(n: nat, now: int): State {
    State(now, map[], map[], map[], seq(n, _ => FreshSched()), {}, {}, {}, {}, {}, [], {})
  }
}
