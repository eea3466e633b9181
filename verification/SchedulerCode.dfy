/**
 The scheduler's goroutines as code, each running amid whatever all other goroutines of all schedulers do.
 The shared state is one object; every statement that reads or writes it is one event of the transition
 system, and between any two of them the others take any number of steps.  So everything proved of all runs
 holds at every point of this code.
 */
module SchedulerCode {
  import opened Common
  import opened CommandTable
  import opened Scheduler
  import opened SchedulerRuns
  import opened SchedulerTrace
  import FiniteSets
  import SchedulerLanding

  class Cluster {
    const n: nat
    const start: int
    /** Whether disks, the database and the broker can fail. */
    const faulty: bool
    var st: State
    /** The goroutines of returnCommands that have not updated their row yet. */
    var pending: multiset<Returned>
    ghost var settled: multiset<Returned>
    ghost var trace: seq<Moment>

    ghost predicate Valid()
      reads this
    {
      IsTrace(Init(n, start), trace, st) && |st.scheds| == n
    }

    constructor (n: nat, start: int, faulty: bool)
      ensures Valid() && this.n == n && this.start == start && this.faulty == faulty && trace == []
      ensures pending == settled == multiset{}
    {
      this.n, this.start, this.faulty, this.st, this.trace := n, start, faulty, Init(n, start), [];
      this.pending, this.settled := multiset{}, multiset{};
    }

    method Do(e: Event)
      requires Valid()
      modifies this`st, this`trace
      ensures Valid() && st == Step(old(st), e) && trace == old(trace) + [Moment(old(st), e, st)]
    {
      StepPersists(st, e);
      OneMoreStep(Init(n, start), trace, st, e);
      trace := trace + [Moment(st, e, Step(st, e))];
      st := Step(st, e);
    }

    /** Any number of steps of everyone but this goroutine. */
    method Meanwhile(s: nat, role: Role)
      requires Valid() && s < n
      modifies this`st, this`trace
      ensures Valid() && old(trace) <= trace && SameOwn(old(st).scheds[s], st.scheds[s], role)
      ensures NoneOwn(trace, |old(trace)|, s, role)
    {
      var more: seq<Event> := *;
      for i := 0 to |more|
        invariant Valid() && old(trace) <= trace && SameOwn(old(st).scheds[s], st.scheds[s], role)
        invariant NoneOwn(trace, |old(trace)|, s, role)
      {
        if !Own(more[i], s, role) {
          OthersLeaveOwn(st, more[i], s, role);
          Do(more[i]);
        }
      }
    }

    /** The updates that goroutines of returnCommands have been started for. */
    ghost function Started(): multiset<Returned>
      reads this
    {
      pending + settled
    }

    /** Any number of steps of anyone, also of the updates under way. */
    method Anything()
      requires Valid()
      modifies this
      ensures Valid() && old(trace) <= trace && old(settled) <= settled && Started() == old(Started())
      ensures !faulty ==> HaveHappened(old(settled), settled, trace, |old(trace)|)
    {
      var more: seq<Event> := *;
      for i := 0 to |more|
        invariant Valid() && old(trace) <= trace && old(settled) <= settled && Started() == old(Started())
        invariant !faulty ==> HaveHappened(old(settled), settled, trace, |old(trace)|)
      {
        ghost var was, before := settled, trace;
        Anyone(more[i]);
        if !faulty {
          StillHappened(old(settled), was, settled, before, trace, |old(trace)|);
        }
      }
    }

    /** One step, of an update under way if it is one. */
    method Anyone(e: Event)
      requires Valid()
      modifies this
      ensures Valid() && old(trace) <= trace && old(settled) <= settled && Started() == old(Started())
      ensures !faulty ==> HaveHappened(old(settled), settled, trace, |old(trace)|)
    {
      if e.Finish? && e.returned in pending {
        Update(e.returned);
      } else {
        Do(e);
      }
    }

    /** A goroutine of returnCommands updates its row, which may fail, and ends. */
    method Update(cmd: Returned)
      requires Valid() && cmd in pending
      modifies this
      ensures Valid() && old(trace) <= trace
      ensures pending == old(pending) - multiset{cmd} && settled == old(settled) + multiset{cmd}
      ensures !faulty ==> HaveHappened(old(settled), settled, trace, |old(trace)|)
    {
      var ok := Succeeds(faulty);
      ghost var before := trace;
      if ok {
        Do(Finish(cmd));
        OneReturn(before, trace[|trace| - 1], settled, cmd);
      }
      pending, settled := pending - multiset{cmd}, settled + multiset{cmd};
    }

    /** The batching loop hands over what it has until it can receive again. */
    method AwaitSender(s: nat)
      requires Valid() && s < n
      modifies this`st, this`trace
      ensures Valid() && old(trace) <= trace && st.scheds[s].worker == old(st).scheds[s].worker
      ensures st.scheds[s].ctr < BATCH && st.scheds[s].writing == []
      ensures NoneOwn(trace, |old(trace)|, s, NewActions)
    {
      WriteAll(s);
      if st.scheds[s].ctr >= BATCH {
        FlushReady(s);
        WriteAll(s);
      }
    }

    /** The batch is full: it is handed over, whether or not the database takes it. */
    method FlushReady(s: nat)
      requires Valid() && s < n && st.scheds[s].ctr >= BATCH && st.scheds[s].writing == []
      modifies this`st, this`trace
      ensures Valid() && old(trace) <= trace && NoneOwn(trace, |old(trace)|, s, NewActions)
      ensures st.scheds[s].worker == old(st).scheds[s].worker && st.scheds[s].ctr == 0
      ensures !faulty && old(st.scheds[s].readyCmd.Keys !! st.commands.Keys) ==>
        AreInserted(old(st).scheds[s].readyCmd, s) && st.dropped == old(st).dropped
    {
      var order := List(st.scheds[s].readyCmd);
      var ok := Succeeds(faulty);
      Do(Flush(s, order, ok));
    }

    /** Each has its row, and is about to be written. */
    ghost predicate AreInserted(ready: map<CommandId, Command>, s: nat)
      reads this
      requires s < |st.scheds|
    {
      forall id | id in ready ::
        && id in st.commands && ready[id] in st.scheds[s].writing
        && st.commands[id] == CommandRow(ready[id].action, ready[id].target.agent, Sent, "", FAR_FUTURE)
    }

    /** The loop of sendCommands. */
    method WriteAll(s: nat)
      requires Valid() && s < n
      modifies this`st, this`trace
      ensures Valid() && old(trace) <= trace && st.scheds[s] == old(st).scheds[s].(writing := [])
      ensures NoneOwn(trace, |old(trace)|, s, NewActions)
      ensures !faulty ==> st.abandoned == old(st).abandoned
      ensures !faulty ==> st.publishing == old(st).publishing + FiniteSets.Elements(old(st).scheds[s].writing)
    {
      while st.scheds[s].writing != []
        invariant Valid() && old(trace) <= trace
        invariant !faulty ==> st.abandoned == old(st).abandoned
        invariant !faulty ==> st.publishing + FiniteSets.Elements(st.scheds[s].writing)
                              == old(st).publishing + FiniteSets.Elements(old(st).scheds[s].writing)
        invariant st.scheds[s] == old(st).scheds[s].(writing := st.scheds[s].writing)
        invariant NoneOwn(trace, |old(trace)|, s, NewActions)
        decreases |st.scheds[s].writing|
      {
        var ok := Succeeds(faulty);
        Do(Write(s, ok));
      }
    }

    /** SELECT DISTINCT ON (queueloc) of the selected agents that are online or idle. */
    method ActiveAgentsByTarget(selected: set<AgentId>) returns (picked: seq<Target>)
      ensures DistinctOn(picked, st.agents, selected)
    {
      picked := [];
      var rest := st.agents;
      while rest.Keys != {}
        invariant forall id | id in rest :: id in st.agents && rest[id] == st.agents[id]
        invariant DistinctOn(picked, st.agents - rest.Keys, selected)
        decreases |rest|
      {
        ghost var any := FiniteSets.SomeMember(rest.Keys);
        var id :| id in rest.Keys;
        var row := rest[id];
        ghost var seen := st.agents - rest.Keys;
        if id in selected && row.status in {Online, Idle} && !HasQueue(picked, row.queueLoc) {
          AgentPicked(picked, seen, selected, id, row);
          picked := picked + [Target(id, row.queueLoc)];
        } else {
          AgentSkipped(picked, seen, selected, id, row);
        }
        rest := rest - {id};
        assert st.agents - rest.Keys == seen[id := row];
      }
      assert st.agents - rest.Keys == st.agents;
    }

    // ----- the new-action loop -----

    /** One round of the loop.  The file of a failed action is moved out of the spool, unless that fails too. */
    method OnNewAction(s: nat)
      returns (failed: bool, targets: seq<Target>, ghost action: Action, ghost tries: seq<Moment>)
      requires Valid() && s < n && st.scheds[s].worker.Reading?
      modifies this`st, this`trace
      ensures Valid() && old(trace) <= trace && st.scheds[s].worker.Waiting?
      ensures failed && !faulty ==> old(st).scheds[s].worker.path !in st.scheds[s].spool
      ensures tries == Tries(trace[|old(trace)|..], s) && DistinctQueues(targets)
      ensures AreAttempts(tries, s, action, targets) && (!failed ==> |tries| == |targets|)
      ensures tries != [] ==> |tries| == |targets| && WerePicked(trace, |old(trace)|, s, targets)
      ensures !faulty ==> Successes(tries) == |tries|
      ensures NothingLeft(trace) ==> DispatchedOnce(st)
    {
      failed, targets, action, tries := ProcessNewAction(s);
      if failed {
        ghost var before := trace;
        DiscardFile(s);
        QuietAfter(before, trace, |old(trace)|, s);
        if tries != [] {
          StillPicked(before, trace, |old(trace)|, |old(trace)|, s, targets);
        }
      }
      if NothingLeft(trace) {
        DispatchesOnce(n, start, trace, st);
      }
    }

    /** The rename of a failed action's file, whose error is ignored. */
    method DiscardFile(s: nat)
      requires Valid() && s < n && st.scheds[s].worker.Failing?
      modifies this`st, this`trace
      ensures Valid() && old(trace) <= trace && Tries(trace[|old(trace)|..], s) == [] && st.scheds[s].worker.Waiting?
      ensures !faulty ==> old(st).scheds[s].worker.path !in st.scheds[s].spool
    {
      var ok := Succeeds(faulty);
      Act(s, Discard(s, ok));
    }

    /** The worker.  What it tries is to create one command for each agent of the query, in order; afterwards
        the action is in flight, or invalid if none succeeded. */
    method ProcessNewAction(s: nat)
      returns (failed: bool, targets: seq<Target>, ghost action: Action, ghost tries: seq<Moment>)
      requires Valid() && s < n && st.scheds[s].worker.Reading?
      modifies this`st, this`trace
      ensures Valid() && old(trace) <= trace
      ensures if failed then st.scheds[s].worker.Failing? else st.scheds[s].worker.Waiting?
      ensures failed && !faulty ==> st.scheds[s].worker.path == old(st).scheds[s].worker.path
      ensures failed && !faulty ==> WasMissing(trace, |old(trace)|, s, old(st).scheds[s].worker.path)
      ensures tries == Tries(trace[|old(trace)|..], s) && DistinctQueues(targets)
      ensures AreAttempts(tries, s, action, targets) && (!failed ==> |tries| == |targets|)
      ensures tries != [] ==> |tries| == |targets| && WerePicked(trace, |old(trace)|, s, targets)
      ensures !faulty ==> Successes(tries) == |tries|
      ensures !failed && tries != [] ==> HasStatus(action.id, if Successes(tries) > 0 then InFlight else Invalid)
    {
      targets, action, tries := [], Action(0, 0, 0), [];
      var path := st.scheds[s].worker.path;
      Wait(s);
      ghost var waited := trace;
      failed := ReadAction(s, path);
      QuietBefore(waited, trace, |old(trace)|, s);
      assert failed && !faulty ==> IsMissing(trace[|waited|].state, s, path);
      if !failed && st.scheds[s].worker.Targeting? {
        action := st.scheds[s].worker.action;
        ghost var before := trace;
        failed, targets, tries := ProcessRead(s, action);
        QuietBefore(before, trace, |old(trace)|, s);
        if tries != [] {
          StillPicked(trace, trace, |before|, |old(trace)|, s, targets);
        }
      }
    }

    /** What follows once the action has been read. */
    method ProcessRead(s: nat, ghost action: Action)
      returns (failed: bool, targets: seq<Target>, ghost tries: seq<Moment>)
      requires Valid() && s < n && st.scheds[s].worker == Targeting(action)
      modifies this`st, this`trace
      ensures Valid() && old(trace) <= trace
      ensures if failed then faulty && st.scheds[s].worker.Failing? else st.scheds[s].worker.Waiting?
      ensures tries == Tries(trace[|old(trace)|..], s) && DistinctQueues(targets)
      ensures AreAttempts(tries, s, action, targets) && (!failed ==> |tries| == |targets|)
      ensures tries != [] ==> |tries| == |targets| && WerePicked(trace, |old(trace)|, s, targets)
      ensures !faulty ==> Successes(tries) == |tries|
      ensures !failed ==> HasStatus(action.id, if Successes(tries) > 0 then InFlight else Invalid)
    {
      tries := [];
      failed, targets := Prepare(s);
      if !failed {
        ghost var before := trace;
        failed, tries := Dispatch(s, action, targets);
        QuietBefore(before, trace, |old(trace)|, s);
        StillPicked(before, trace, |old(trace)|, |old(trace)|, s, targets);
      }
    }

    /** The others go on, and then the worker takes its next step, which creates nothing. */
    method Act(s: nat, e: Event)
      requires Valid() && s < n && !IsCreation(e, s)
      modifies this`st, this`trace
      ensures Valid() && old(trace) < trace && Tries(trace[|old(trace)|..], s) == []
      ensures var m := trace[|trace| - 1];
        m.event == e && m.next == st == Step(m.state, e) && |m.state.scheds| == n
        && m.state.scheds[s].worker == old(st).scheds[s].worker
    {
      Meanwhile(s, NewActions);
      Do(e);
      NothingTried(old(trace), trace, s);
    }

    method Wait(s: nat)
      requires Valid() && s < n
      modifies this`st, this`trace
      ensures Valid() && old(trace) <= trace && Tries(trace[|old(trace)|..], s) == []
      ensures st.scheds[s].worker == old(st).scheds[s].worker
    {
      Meanwhile(s, NewActions);
      OthersTryNothing(trace[|old(trace)|..], s);
    }

    ghost predicate HasRow(a: Action)
      reads this
    {
      a.id in st.actions
    }

    ghost predicate HasStatus(id: ActionId, status: ActionStatus)
      reads this
    {
      id in st.actions && st.actions[id].status == status
    }

    /** ActionFromFile and the checks of the validity period. */
    method ReadAction(s: nat, path: ActionId) returns (failed: bool)
      requires Valid() && s < n && st.scheds[s].worker == Reading(path)
      modifies this`st, this`trace
      ensures Valid() && old(trace) <= trace && Tries(trace[|old(trace)|..], s) == []
      ensures failed ==> st.scheds[s].worker.Failing? && (!faulty ==> st.scheds[s].worker.path == path)
      ensures !failed ==> st.scheds[s].worker.Waiting? || st.scheds[s].worker.Targeting?
      ensures path in old(st).scheds[s].spool && !faulty ==> !failed && ReadsWell(old(st), s, path, st.scheds[s].worker)
      ensures |trace| > |old(trace)| && trace[|old(trace)|].state == old(st)
    {
      var ok := Succeeds(faulty);
      if !ok || path !in st.scheds[s].spool {
        ReadFile(s, path, ok);
        return true;
      }
      var action := st.scheds[s].spool[path];
      ReadFile(s, path, true);
      failed := false;
      if st.now < action.validFrom {
        return;
      }
      if st.now > action.expireAfter {
        ghost var before := trace;
        failed := InvalidAction(s);
        QuietBefore(before, trace, |old(trace)|, s);
      }
    }

    method ReadFile(s: nat, path: ActionId, ok: bool)
      requires Valid() && s < n && st.scheds[s].worker == Reading(path)
      modifies this`st, this`trace
      ensures Valid() && old(trace) <= trace && Tries(trace[|old(trace)|..], s) == [] && st.now == old(st).now
      ensures st.scheds[s].worker == AfterReading(old(st).scheds[s].spool, path, old(st).now, ok)
      ensures |trace| > |old(trace)| && trace[|old(trace)|].state == old(st)
    {
      Do(Read(s, ok));
      NothingTried(old(trace), trace, s);
    }

    /** invalidAction: on success the row is marked, and without faults the file has left the spool. */
    method InvalidAction(s: nat) returns (failed: bool)
      requires Valid() && s < n && st.scheds[s].worker.Invalidating?
      modifies this`st, this`trace
      ensures Valid() && old(trace) <= trace && Tries(trace[|old(trace)|..], s) == []
      ensures failed ==> faulty && st.scheds[s].worker == Failing(old(st).scheds[s].worker.action.id)
      ensures !failed ==> st.scheds[s].worker == AfterInvalid(old(st).scheds[s].worker)
      ensures !failed && old(HasRow(st.scheds[s].worker.action)) ==>
        HasStatus(old(st).scheds[s].worker.action.id, Invalid)
      ensures !failed && !faulty ==> LeftSpool(trace, |old(trace)|, s, old(st).scheds[s].worker.action.id)
    {
      var ok := Succeeds(faulty);
      var removed := Succeeds(faulty);
      Act(s, Invalidate(s, ok, removed));
      RowsStay(Init(n, start), old(trace), old(st), trace, st);
      if !ok {
        return true;
      }
      ghost var before := trace;
      assert removed ==> IsOut(trace[|trace| - 1].next, s, st.scheds[s].worker.action.id);
      failed := MarkRowInvalid(s);
      QuietBefore(before, trace, |old(trace)|, s);
      if removed {
        StillLeft(before, trace, |old(trace)|, |old(trace)|, s, old(st).scheds[s].worker.action.id);
      }
    }

    method MarkRowInvalid(s: nat) returns (failed: bool)
      requires Valid() && s < n && st.scheds[s].worker.Invalidated?
      modifies this`st, this`trace
      ensures Valid() && old(trace) <= trace && Tries(trace[|old(trace)|..], s) == []
      ensures failed ==> faulty && st.scheds[s].worker == Failing(old(st).scheds[s].worker.action.id)
      ensures !failed && old(HasRow(st.scheds[s].worker.action)) ==>
        HasStatus(old(st).scheds[s].worker.action.id, Invalid)
      ensures var w := old(st).scheds[s].worker;
        !failed ==> st.scheds[s].worker == AfterInvalid(Invalidating(w.action, w.resume))
    {
      var ok := Succeeds(faulty);
      Act(s, MarkInvalid(s, ok));
      RowsStay(Init(n, start), old(trace), old(st), trace, st);
      failed := !ok;
    }

    /** The query for agents, and the action's row. */
    method Prepare(s: nat) returns (failed: bool, targets: seq<Target>)
      requires Valid() && s < n && st.scheds[s].worker.Targeting?
      modifies this`st, this`trace
      ensures Valid() && old(trace) <= trace && DistinctQueues(targets) && Tries(trace[|old(trace)|..], s) == []
      ensures failed ==> faulty && st.scheds[s].worker.Failing?
      ensures !failed ==> st.scheds[s].worker == Creating(old(st).scheds[s].worker.action, targets, 0)
      ensures !failed ==> HasStatus(old(st).scheds[s].worker.action.id, Preparing)
      ensures WerePicked(trace, |old(trace)|, s, targets)
    {
      failed, targets := QueryAgents(s);
      if failed {
        return;
      }
      ghost var before := trace;
      failed := UpsertRow(s);
      QuietBefore(before, trace, |old(trace)|, s);
      StillPicked(before, trace, |old(trace)|, |old(trace)|, s, targets);
    }

    /** InsertOrUpdateAction and InsertSignature. */
    method UpsertRow(s: nat) returns (failed: bool)
      requires Valid() && s < n && st.scheds[s].worker.Upserting?
      modifies this`st, this`trace
      ensures Valid() && old(trace) <= trace && Tries(trace[|old(trace)|..], s) == []
      ensures failed ==> faulty && st.scheds[s].worker.Failing?
      ensures !failed ==>
        st.scheds[s].worker == Creating(old(st).scheds[s].worker.action, old(st).scheds[s].worker.targets, 0)
      ensures !failed ==> HasStatus(old(st).scheds[s].worker.action.id, Preparing)
    {
      var ok := Succeeds(faulty);
      var signed := Succeeds(faulty);
      Act(s, Upsert(s, ok, signed));
      failed := !(ok && signed);
    }

    /** Without an agent the action is invalidated, and goes on all the same. */
    method QueryAgents(s: nat) returns (failed: bool, targets: seq<Target>)
      requires Valid() && s < n && st.scheds[s].worker.Targeting?
      modifies this`st, this`trace
      ensures Valid() && old(trace) <= trace && DistinctQueues(targets) && Tries(trace[|old(trace)|..], s) == []
      ensures failed ==> faulty && st.scheds[s].worker.Failing?
      ensures !failed ==> st.scheds[s].worker == Upserting(old(st).scheds[s].worker.action, targets)
      ensures WerePicked(trace, |old(trace)|, s, targets)
    {
      Meanwhile(s, NewActions);
      var selected: set<AgentId> := *;
      targets := ActiveAgentsByTarget(selected);
      var ok := Succeeds(faulty);
      Do(Query(s, selected, targets, ok));
      NothingTried(old(trace), trace, s);
      assert IsPick(trace[|trace| - 1], s, targets);
      failed := !ok;
      if ok && targets == [] {
        ghost var before := trace;
        failed := InvalidAction(s);
        QuietBefore(before, trace, |old(trace)|, s);
        StillPicked(before, trace, |old(trace)|, |old(trace)|, s, targets);
      }
    }

    /** The creation loop, and the end of the action. */
    method Dispatch(s: nat, ghost action: Action, targets: seq<Target>) returns (failed: bool, ghost tries: seq<Moment>)
      requires Valid() && s < n && st.scheds[s].worker == Creating(action, targets, 0)
      modifies this`st, this`trace
      ensures Valid() && old(trace) <= trace
      ensures if failed then faulty && st.scheds[s].worker.Failing? else st.scheds[s].worker.Waiting?
      ensures tries == Tries(trace[|old(trace)|..], s) && |tries| == |targets| && AreAttempts(tries, s, action, targets)
      ensures !faulty ==> Successes(tries) == |tries|
      ensures !failed && old(HasRow(action)) ==>
        HasStatus(action.id, if Successes(tries) > 0 then InFlight else Invalid)
    {
      var created;
      created, tries := CreateCommands(s, action, targets);
      ghost var before := trace;
      RowsStay(Init(n, start), old(trace), old(st), trace, st);
      failed := Conclude(s, action, created);
      QuietAfter(before, trace, |old(trace)|, s);
    }

    /** Without a command the action is invalid; else it takes off. */
    method Conclude(s: nat, ghost action: Action, created: nat) returns (failed: bool)
      requires Valid() && s < n && st.scheds[s].worker == Creating(action, [], created)
      modifies this`st, this`trace
      ensures Valid() && old(trace) <= trace && Tries(trace[|old(trace)|..], s) == []
      ensures if failed then faulty && st.scheds[s].worker.Failing? else st.scheds[s].worker.Waiting?
      ensures !failed && old(HasRow(action)) ==> HasStatus(action.id, if created > 0 then InFlight else Invalid)
      ensures !failed && !faulty ==> LeftSpool(trace, |old(trace)|, s, action.id)
    {
      Act(s, CreatedAll(s));
      RowsStay(Init(n, start), old(trace), old(st), trace, st);
      ghost var before := trace;
      if created == 0 {
        failed := InvalidAction(s);
      } else {
        failed := FlyAction(s);
      }
      QuietBefore(before, trace, |old(trace)|, s);
      if !failed && !faulty {
        StillLeft(trace, trace, |before|, |old(trace)|, s, action.id);
      }
    }

    /** The creation loop tries one command for each target, in order, and nothing else. */
    method CreateCommands(s: nat, ghost action: Action, targets: seq<Target>)
      returns (created: nat, ghost tries: seq<Moment>)
      requires Valid() && s < n && st.scheds[s].worker == Creating(action, targets, 0)
      modifies this`st, this`trace
      ensures Valid() && old(trace) <= trace
      ensures st.scheds[s].worker == Creating(action, [], created)
      ensures tries == Tries(trace[|old(trace)|..], s) && |tries| == |targets| && AreAttempts(tries, s, action, targets)
      ensures created == Successes(tries) && (!faulty ==> created == |tries|)
    {
      created, tries := 0, [];
      for i := 0 to |targets|
        invariant Valid() && old(trace) <= trace
        invariant HasTried(|old(trace)|, s, action, targets, i, created, tries)
      {
        created, tries := CreateNext(s, action, targets, i, created, tries, |old(trace)|);
      }
    }

    /** The creation loop has been through i targets since from. */
    ghost predicate HasTried(from: nat, s: nat, action: Action, targets: seq<Target>, i: nat, created: nat,
                             tries: seq<Moment>)
      reads this
      requires from <= |trace|
    {
      && i <= |targets| && s < |st.scheds|
      && st.scheds[s].worker == Creating(action, targets[i..], created)
      && tries == Tries(trace[from..], s) && |tries| == i && AreAttempts(tries, s, action, targets)
      && created == Successes(tries) && (!faulty ==> created == |tries|)
    }

    method CreateNext(s: nat, ghost action: Action, targets: seq<Target>, i: nat, created: nat,
                      ghost tries: seq<Moment>, ghost from: nat)
      returns (created': nat, ghost tries': seq<Moment>)
      requires Valid() && s < n && i < |targets| && from <= |trace|
      requires HasTried(from, s, action, targets, i, created, tries)
      modifies this`st, this`trace
      ensures Valid() && old(trace) <= trace
      ensures HasTried(from, s, action, targets, i + 1, created', tries')
    {
      ghost var before := trace;
      ghost var attempt;
      var ok;
      ok, attempt := CreateCommand(s);
      OneTryLater(before, trace, from, tries, attempt, s, action, targets);
      tries' := tries + [attempt];
      created' := if ok then created + 1 else created;
    }

    /** Waits for the batching loop, and makes one command for the next target; only a fault can fail it. */
    method CreateCommand(s: nat) returns (ok: bool, ghost attempt: Moment)
      requires Valid() && s < n && st.scheds[s].worker.Creating? && st.scheds[s].worker.targets != []
      modifies this`st, this`trace
      ensures Valid() && old(trace) <= trace && Tries(trace[|old(trace)|..], s) == [attempt]
      ensures var w := old(st).scheds[s].worker; IsAttempt(attempt, s, w.action, w.targets[0])
      ensures attempt.event.ok == ok && (!faulty ==> ok)
      ensures var w := old(st).scheds[s].worker;
        st.scheds[s].worker == Creating(w.action, w.targets[1..], w.created + if ok then 1 else 0)
    {
      ghost var w := st.scheds[s].worker;
      ok := Succeeds(faulty);
      AwaitTurn(s, ok);
      ghost var before := trace;
      attempt := Attempt(s, ok, w);
      assert trace == before + [attempt];
      OneTried(old(trace), before, attempt, s);
    }

    method Attempt(s: nat, ok: bool, ghost w: Worker) returns (ghost attempt: Moment)
      requires Valid() && s < n && w.Creating? && w.targets != [] && st.scheds[s].worker == w
      requires ok ==> st.scheds[s].ctr < BATCH && st.scheds[s].writing == []
      modifies this`st, this`trace
      ensures Valid() && trace == old(trace) + [attempt] && IsCreation(attempt.event, s) && attempt.event.ok == ok
      ensures IsAttempt(attempt, s, w.action, w.targets[0])
      ensures st.scheds[s].worker == Creating(w.action, w.targets[1..], w.created + if ok then 1 else 0)
    {
      var any: int := *;
      var gap := if any < 0 then 0 else any;
      attempt := Moment(st, Create(s, gap, ok), Step(st, Create(s, gap, ok)));
      assert IsAttempt(attempt, s, w.action, w.targets[0]) by {
        Balanced(n, start, trace, st);
        CreationIsAttempt(st, s, gap, ok);
      }
      Do(Create(s, gap, ok));
    }

    /** The others go on; a command that has been made waits until the batching loop receives it. */
    method AwaitTurn(s: nat, ok: bool)
      requires Valid() && s < n
      modifies this`st, this`trace
      ensures Valid() && old(trace) <= trace && st.scheds[s].worker == old(st).scheds[s].worker
      ensures ok ==> st.scheds[s].ctr < BATCH && st.scheds[s].writing == []
      ensures NoneOwn(trace, |old(trace)|, s, NewActions)
    {
      Meanwhile(s, NewActions);
      if ok {
        AwaitSender(s);
      }
    }

    /** flyAction: on success the row is in flight, and without faults the file has left the spool. */
    method FlyAction(s: nat) returns (failed: bool)
      requires Valid() && s < n && st.scheds[s].worker.Flying?
      modifies this`st, this`trace
      ensures Valid() && old(trace) <= trace && Tries(trace[|old(trace)|..], s) == []
      ensures failed ==> faulty && st.scheds[s].worker == Failing(old(st).scheds[s].worker.action.id)
      ensures !failed ==> st.scheds[s].worker.Waiting?
      ensures !failed && old(HasRow(st.scheds[s].worker.action)) ==>
        HasStatus(old(st).scheds[s].worker.action.id, InFlight)
      ensures !failed && !faulty ==> LeftSpool(trace, |old(trace)|, s, old(st).scheds[s].worker.action.id)
    {
      var ok := Succeeds(faulty);
      var removed := Succeeds(faulty);
      Act(s, Fly(s, ok, removed));
      RowsStay(Init(n, start), old(trace), old(st), trace, st);
      if !ok {
        return true;
      }
      ghost var before := trace;
      assert removed ==> IsOut(trace[|trace| - 1].next, s, st.scheds[s].worker.action.id);
      failed := MarkRowInFlight(s);
      QuietBefore(before, trace, |old(trace)|, s);
      if removed {
        StillLeft(before, trace, |old(trace)|, |old(trace)|, s, old(st).scheds[s].worker.action.id);
      }
    }

    method MarkRowInFlight(s: nat) returns (failed: bool)
      requires Valid() && s < n && st.scheds[s].worker.Flown?
      modifies this`st, this`trace
      ensures Valid() && old(trace) <= trace && Tries(trace[|old(trace)|..], s) == []
      ensures failed ==> faulty && st.scheds[s].worker == Failing(old(st).scheds[s].worker.action.id)
      ensures !failed ==> st.scheds[s].worker.Waiting?
      ensures !failed && old(HasRow(st.scheds[s].worker.action)) ==>
        HasStatus(old(st).scheds[s].worker.action.id, InFlight)
    {
      var ok := Succeeds(faulty);
      Act(s, FlyStatus(s, ok));
      RowsStay(Init(n, start), old(trace), old(st), trace, st);
      failed := !ok;
    }

    // ----- loadNewActionsFromDB -----

    /** Claims what is runnable in one statement, at position at of the trace, then writes it to the spool,
        one action after the other.  claimed are the actions. */
    method LoadNewActionsFromDB(s: nat) returns (failed: bool, claimed: map<ActionId, Action>, ghost at: nat)
      requires Valid() && s < n && st.scheds[s].collector.Resting?
      modifies this`st, this`trace
      ensures Valid() && old(trace) <= trace && |old(trace)| <= at < |trace|
      ensures trace[at].event.Claim? && trace[at].event.s == s
      ensures AreClaimed(trace[at], claimed) && (!faulty ==> AreAllRunnable(trace[at].state, claimed))
      ensures failed ==> st.scheds[s].collector.Resting? && faulty
      ensures !failed ==> st.scheds[s].collector == SettingUp(map[])
      ensures !failed ==> AreFiled(trace, at, s, claimed)
    {
      Meanwhile(s, Claims);
      at := |trace|;
      failed, claimed := ClaimRunnable(s);
      if !failed {
        failed := SetupAll(s, claimed);
        if !failed {
          FiledSince(trace, at + 1, at, s, claimed);
        }
      }
    }

    /** SetupRunnableActions. */
    method ClaimRunnable(s: nat) returns (failed: bool, claimed: map<ActionId, Action>)
      requires Valid() && s < n && st.scheds[s].collector.Resting?
      modifies this`st, this`trace
      ensures Valid() && |trace| == |old(trace)| + 1 && old(trace) < trace
      ensures var m := trace[|old(trace)|];
        && m.event.Claim? && m.event.s == s && AreClaimed(m, claimed) && m.state == old(st)
        && (!faulty ==> !failed && AreAllRunnable(m.state, claimed))
      ensures st.scheds[s].collector == if failed then Resting else SettingUp(claimed)
    {
      var read: set<ActionId> := *;
      if !faulty {
        read := st.actions.Keys;
      }
      var ok := Succeeds(faulty);
      Do(Claim(s, read, ok));
      claimed := if ok then st.scheds[s].collector.claimed else map[];
      failed := !ok;
    }

    method SetupAll(s: nat, claimed: map<ActionId, Action>) returns (failed: bool)
      requires Valid() && s < n && st.scheds[s].collector == SettingUp(claimed)
      modifies this`st, this`trace
      ensures Valid() && old(trace) <= trace
      ensures failed ==> st.scheds[s].collector.Resting? && faulty
      ensures !failed ==> st.scheds[s].collector == SettingUp(map[])
      ensures !failed ==> AreFiled(trace, |old(trace)|, s, claimed)
    {
      var rest := claimed;
      while rest.Keys != {}
        invariant Valid() && old(trace) <= trace
        invariant st.scheds[s].collector == SettingUp(rest)
        invariant forall id | id in rest :: id in claimed && rest[id] == claimed[id]
        invariant AreFiled(trace, |old(trace)|, s, claimed - rest.Keys)
        decreases |rest|
      {
        ghost var any := FiniteSets.SomeMember(rest.Keys);
        var id :| id in rest.Keys;
        ghost var before := trace;
        failed := SetupAction(s, id);
        if failed {
          return;
        }
        OneMoreFiled(before, trace, |old(trace)|, s, claimed - rest.Keys, id, claimed[id]);
        assert claimed - (rest - {id}).Keys == (claimed - rest.Keys)[id := claimed[id]];
        rest := rest - {id};
      }
      assert rest == map[] && claimed - rest.Keys == claimed;
      failed := false;
    }

    method SetupAction(s: nat, id: ActionId) returns (failed: bool)
      requires Valid() && s < n && st.scheds[s].collector.SettingUp? && id in st.scheds[s].collector.claimed
      modifies this`st, this`trace
      ensures Valid() && old(trace) < trace
      ensures failed ==> st.scheds[s].collector.Resting? && faulty
      ensures !failed ==> st.scheds[s].collector == SettingUp(old(st).scheds[s].collector.claimed - {id})
      ensures !failed ==> IsFiled(trace[|trace| - 1].next, s, id, old(st).scheds[s].collector.claimed[id])
    {
      Meanwhile(s, Claims);
      var ok := Succeeds(faulty);
      Do(Setup(s, id, ok));
      failed := !ok;
    }

    // ----- returnCommands -----

    method ReturnOne(file: Parsed)
      requires Valid()
      modifies this
      ensures Valid() && old(trace) <= trace && old(settled) <= settled
      ensures Started() == old(Started()) + UpdateOf(file)
      ensures !faulty ==> HaveHappened(old(settled), settled, trace, |old(trace)|)
    {
      if file.Readable? {
        pending := pending + multiset{file.cmd};
      }
      assert Started() == old(Started()) + UpdateOf(file);
      Anything();
    }

    /** Each file that parses starts one guarded update, in a goroutine of its own: at the return it is still
        pending or has been made, once, at any place between the others' steps. */
    method ReturnCommands(files: seq<Parsed>)
      requires Valid()
      modifies this
      ensures Valid() && old(trace) <= trace && old(settled) <= settled
      ensures Started() == old(Started()) + UpdatesOf(files)
      ensures !faulty ==> HaveHappened(old(settled), settled, trace, |old(trace)|)
    {
      ghost var started := Started();
      for i := 0 to |files|
        invariant Valid() && old(trace) <= trace && old(settled) <= settled
        invariant Started() == started == old(Started()) + UpdatesOf(files[..i])
        invariant !faulty ==> HaveHappened(old(settled), settled, trace, |old(trace)|)
      {
        ghost var was, before := settled, trace;
        ReturnOne(files[i]);
        OneMoreUpdate(old(Started()), files, i);
        started := started + UpdateOf(files[i]);
        if !faulty {
          StillHappened(old(settled), was, settled, before, trace, |old(trace)|);
        }
      }
      assert files[..|files|] == files;
    }

    // ----- updateAction -----

    /** landed are the actions landed.  At some moment of this call a landed action had no sent row, and its own row
        was marked completed; one that was not landed had some sent row, unless the call failed. */
    method UpdateAction(s: nat, cmds: seq<ActionId>) returns (failed: bool, landed: set<ActionId>)
      requires Valid() && s < n && st.scheds[s].updater.Free?
      modifies this
      ensures Valid() && old(trace) <= trace && st.scheds[s].updater.Free?
      ensures forall a | a in landed :: a in cmds && Once(trace, |old(trace)|, a, true)
      ensures forall a | a in landed :: HasLanded(trace, |old(trace)|, a)
      ensures !failed ==> forall a | a in cmds && a !in landed :: Once(trace, |old(trace)|, a, false)
      ensures failed && !faulty ==> exists a :: a in cmds && a !in st.actions
    {
      landed, failed := {}, false;
      var actions := ActionsOf(cmds);
      ghost var kept: set<ActionId> := {};
      while actions != {}
        invariant Valid() && old(trace) <= trace && st.scheds[s].updater.Free?
        invariant forall a :: a in cmds <==> a in actions || a in landed || a in kept
        invariant WereLooked(trace, |old(trace)|, landed, kept)
        decreases |actions|
      {
        ghost var any := FiniteSets.SomeMember(actions);
        var a :| a in actions;
        actions := actions - {a};
        ghost var before := trace;
        var ok, done := UpdateOne(s, a);
        StillLooked(before, trace, |old(trace)|, landed, kept);
        if !ok {
          return true, landed;
        }
        OneMoreLooked(trace, |before|, |old(trace)|, landed, kept, a, done);
        if done {
          landed := landed + {a};
        } else {
          kept := kept + {a};
        }
      }
    }

    /** The counters of one action, and landing it if they say so. */
    method UpdateOne(s: nat, a: ActionId) returns (ok: bool, landed: bool)
      requires Valid() && s < n && st.scheds[s].updater.Free?
      modifies this
      ensures Valid() && old(trace) <= trace && st.scheds[s].updater.Free?
      ensures ok ==> Once(trace, |old(trace)|, a, landed)
      ensures landed ==> ok && HasLanded(trace, |old(trace)|, a)
      ensures !ok && !faulty ==> a !in st.actions
    {
      Meanwhile(s, Updates);
      if a !in st.actions {
        return false, false;
      }
      ghost var at, looked, was := |trace|, trace, st;
      landed := TallyOne(s, a);
      ok := true;
      if landed {
        ghost var before := trace;
        RowsStay(Init(n, start), looked, was, trace, st);
        ok := LandAction(s);
        landed := ok;
        if landed {
          LandedSince(trace, trace, |before|, |old(trace)|, a);
        }
      }
      if ok {
        assert NoneSent(trace[at].state.commands, a) <==> landed;
      }
    }

    /** One look at the counters. */
    method TallyOne(s: nat, a: ActionId) returns (done: bool)
      requires Valid() && s < n && st.scheds[s].updater.Free? && a in st.actions
      modifies this`st, this`trace
      ensures Valid() && old(trace) < trace && st.scheds[s].updater == if done then Landing(a) else Free
      ensures NoneSent(trace[|old(trace)|].state.commands, a) <==> done
    {
      done := IsDone(a);
      SchedulerLanding.LandsExactlyWhenNoneSent(st, s, a);
      Do(Tally(s, a));
    }

    method LandAction(s: nat) returns (ok: bool)
      requires Valid() && s < n && st.scheds[s].updater.Landing?
      modifies this
      ensures Valid() && old(trace) <= trace && st.scheds[s].updater.Free? && (!faulty ==> ok)
      ensures ok && old(st.scheds[s].updater.action in st.actions) ==>
        HasLanded(trace, |old(trace)|, old(st.scheds[s].updater.action))
    {
      ghost var a := st.scheds[s].updater.action;
      Meanwhile(s, Updates);
      RowsStay(Init(n, start), old(trace), old(st), trace, st);
      ok := Succeeds(faulty);
      Do(Land(s, ok));
      assert ok && a in old(st).actions ==> IsMarked(trace[|trace| - 1].next, a);
    }

    /** The row says so. */
    predicate IsMarked(st: State, a: ActionId) {
      a in st.actions && st.actions[a].status == Completed
    }

    /** At a moment since from, the row of a is marked completed. */
    ghost predicate HasLanded(trace: seq<Moment>, from: nat, a: ActionId) {
      exists k :: from <= k < |trace| && IsMarked(trace[k].next, a)
    }

    lemma LandedSince(before: seq<Moment>, now: seq<Moment>, from: nat, earlier: nat, a: ActionId)
      requires before <= now && earlier <= from && HasLanded(before, from, a)
      ensures HasLanded(now, earlier, a)
    {
      var k :| from <= k < |before| && IsMarked(before[k].next, a);
      assert now[k] == before[k];
    }

    /** GetActionCounters, and its use. */
    method IsDone(a: ActionId) returns (done: bool)
      ensures done <==> NoneSent(st.commands, a)
    {
      AllDoneIffNoneSent(st.commands, a);
      var counters := CountersOf(st.commands, a);
      done := counters.done == counters.sent;
    }

    /** At a moment since from, a had no sent row, or had some. */
    ghost predicate Once(trace: seq<Moment>, from: nat, a: ActionId, none: bool) {
      exists k :: from <= k < |trace| && (NoneSent(trace[k].state.commands, a) <==> none)
    }

    lemma OnceSince(trace: seq<Moment>, from: nat, before: nat, a: ActionId, none: bool)
      requires Once(trace, from, a, none) && before <= from
      ensures Once(trace, before, a, none)
    {
      var k :| from <= k < |trace| && (NoneSent(trace[k].state.commands, a) <==> none);
    }

    /** What has been found out of the actions looked at since from. */
    ghost predicate WereLooked(trace: seq<Moment>, from: nat, landed: set<ActionId>, kept: set<ActionId>) {
      && (forall a | a in landed :: Once(trace, from, a, true) && HasLanded(trace, from, a))
      && (forall a | a in kept :: Once(trace, from, a, false))
    }

    lemma StillLooked(before: seq<Moment>, now: seq<Moment>, from: nat, landed: set<ActionId>, kept: set<ActionId>)
      requires before <= now && WereLooked(before, from, landed, kept)
      ensures WereLooked(now, from, landed, kept)
    {
      forall a, none | Once(before, from, a, none) ensures Once(now, from, a, none) {
        var k :| from <= k < |before| && (NoneSent(before[k].state.commands, a) <==> none);
        assert now[k] == before[k];
      }
      forall a | a in landed ensures HasLanded(now, from, a) {
        LandedSince(before, now, from, from, a);
      }
    }

    lemma OneMoreLooked(trace: seq<Moment>, from: nat, earlier: nat, landed: set<ActionId>, kept: set<ActionId>,
                        a: ActionId, done: bool)
      requires WereLooked(trace, earlier, landed, kept) && earlier <= from
      requires Once(trace, from, a, done) && (done ==> HasLanded(trace, from, a))
      ensures WereLooked(trace, earlier, if done then landed + {a} else landed, if done then kept else kept + {a})
    {
      OnceSince(trace, from, earlier, a, done);
      if done {
        LandedSince(trace, trace, from, earlier, a);
      }
    }
  }

  /** A list of returned commands may name an action several times. */
  method ActionsOf(cmds: seq<ActionId>) returns (actions: set<ActionId>)
    ensures forall a :: a in actions <==> a in cmds
  {
    actions := {};
    for i := 0 to |cmds|
      invariant forall a :: a in actions <==> a in cmds[..i]
    {
      assert cmds[..i + 1] == cmds[..i] + [cmds[i]];
      actions := actions + {cmds[i]};
    }
    assert cmds[..|cmds|] == cmds;
  }

  predicate IsAlive(row: AgentRow) {
    row.status in {Online, Idle}
  }

  lemma AgentSkipped(picked: seq<Target>, seen: map<AgentId, AgentRow>, selected: set<AgentId>, id: AgentId,
                     row: AgentRow)
    requires DistinctOn(picked, seen, selected) && id !in seen
    requires id !in selected || !IsAlive(row) || HasQueue(picked, row.queueLoc)
    ensures DistinctOn(picked, seen[id := row], selected)
  {
  }

  lemma AgentPicked(picked: seq<Target>, seen: map<AgentId, AgentRow>, selected: set<AgentId>, id: AgentId,
                    row: AgentRow)
    requires DistinctOn(picked, seen, selected) && id !in seen
    requires id in selected && IsAlive(row) && !HasQueue(picked, row.queueLoc)
    ensures DistinctOn(picked + [Target(id, row.queueLoc)], seen[id := row], selected)
  {
    var more, last := picked + [Target(id, row.queueLoc)], Target(id, row.queueLoc);
    assert last in more;
    forall q | HasQueue(picked, q) ensures HasQueue(more, q) {
      var t :| t in picked && t.queueLoc == q;
      assert t in more;
    }
    forall i | 0 <= i < |picked| ensures more[i].queueLoc != last.queueLoc {
      assert picked[i] in picked;
    }
  }

  method List(ready: map<CommandId, Command>) returns (order: seq<Command>)
    ensures Lists(order, ready)
  {
    order := [];
    var rest := ready;
    while rest.Keys != {}
      invariant forall id | id in rest :: id in ready && rest[id] == ready[id]
      invariant forall i, j | 0 <= i < j < |order| :: order[i] != order[j]
      invariant forall c | c in order :: c in Batched(ready)
      invariant forall id | id in ready && id !in rest :: ready[id] in order
      decreases |rest|
    {
      ghost var any := FiniteSets.SomeMember(rest.Keys);
      var id :| id in rest.Keys;
      if rest[id] !in order {
        order := order + [rest[id]];
      }
      rest := rest - {id};
    }
  }
}
