/** Landing, counting and finishing over whole runs of the schedulers. */
module SchedulerLanding {
  import opened CommandTable
  import opened Scheduler
  import opened SchedulerRuns

  ghost predicate FlushInserts(st: State, e: Event) {
    && e.Flush? && e.s < |st.scheds| && e.ok
    && var sc := st.scheds[e.s];
       && sc.ctr > 0 && sc.writing == [] && Lists(e.order, sc.readyCmd)
       && sc.readyCmd.Keys * st.commands.Keys == {}
  }

  ghost predicate InsertsFor(st: State, e: Event, a: ActionId) {
    FlushInserts(st, e) && exists id :: id in st.scheds[e.s].readyCmd && st.scheds[e.s].readyCmd[id].action == a
  }

  /** A return that passes the guard of FinishCommand. */
  predicate Finishes(st: State, e: Event, id: CommandId) {
    && e.Finish? && e.returned.id == id && id in st.commands
    && st.commands[id].status != Success
    && AgentAnswers(st.agents, st.commands[id].agent, e.returned)
  }

  predicate ReturnsAsSent(st: State, e: Event, a: ActionId) {
    e.Finish? && Finishes(st, e, e.returned.id) && st.commands[e.returned.id].action == a && e.returned.status == Sent
  }

  lemma ClaimingLeavesRows(st: State, e: Event)
    requires e.Claim? || e.Setup?
    ensures Step(st, e).commands == st.commands
  {
  }

  lemma ScanningLeavesRows(st: State, e: Event)
    requires e.Scan? || e.Visit? || e.EndScan? || e.Take?
    ensures Step(st, e).commands == st.commands
  {
  }

  lemma ReadingLeavesRows(st: State, e: Event)
    requires e.Read? || e.Query?
    ensures Step(st, e).commands == st.commands
  {
  }

  lemma InvalidatingLeavesRows(st: State, e: Event)
    requires e.Invalidate? || e.MarkInvalid? || e.Discard?
    ensures Step(st, e).commands == st.commands
  {
  }

  lemma UpsertLeavesRows(st: State, e: Event)
    requires e.Upsert?
    ensures Step(st, e).commands == st.commands
  {
  }

  lemma CreatingLeavesRows(st: State, e: Event)
    requires e.Create? || e.CreatedAll?
    ensures Step(st, e).commands == st.commands
  {
  }

  lemma FlyingLeavesRows(st: State, e: Event)
    requires e.Fly? || e.FlyStatus?
    ensures Step(st, e).commands == st.commands
  {
  }

  lemma SendingLeavesRows(st: State, e: Event)
    requires e.Write? || e.Publish?
    ensures Step(st, e).commands == st.commands
  {
  }

  lemma UpdatingLeavesRows(st: State, e: Event)
    requires e.Tally? || e.Land?
    ensures Step(st, e).commands == st.commands
  {
  }

  lemma AddingLeavesRows(st: State, e: Event)
    requires e.AddAction? || e.DropAction? || e.SetAgents? || e.Tick?
    ensures Step(st, e).commands == st.commands
  {
  }

  lemma FlushAddsRows(st: State, e: Event)
    requires e.Flush?
    ensures Step(st, e).commands
         == if FlushInserts(st, e) then st.commands + RowsOf(st.scheds[e.s].readyCmd) else st.commands
  {
  }

  lemma StepOnRows(st: State, e: Event)
    ensures Step(st, e).commands
         == if e.Finish? then FinishCommand(st.commands, st.agents, e.returned)
            else if FlushInserts(st, e) then st.commands + RowsOf(st.scheds[e.s].readyCmd)
            else st.commands
  {
    match e {
      case Claim(_, _, _) | Setup(_, _, _) => ClaimingLeavesRows(st, e);
      case Scan(_, _) | Visit(_, _, _) | EndScan(_) | Take(_) => ScanningLeavesRows(st, e);
      case Read(_, _) | Query(_, _, _, _) => ReadingLeavesRows(st, e);
      case Invalidate(_, _, _) | MarkInvalid(_, _) | Discard(_, _) => InvalidatingLeavesRows(st, e);
      case Upsert(_, _, _) => UpsertLeavesRows(st, e);
      case Create(_, _, _) | CreatedAll(_) => CreatingLeavesRows(st, e);
      case Fly(_, _, _) | FlyStatus(_, _) => FlyingLeavesRows(st, e);
      case Write(_, _) | Publish(_, _) => SendingLeavesRows(st, e);
      case Tally(_, _) | Land(_, _) => UpdatingLeavesRows(st, e);
      case AddAction(_) | DropAction(_, _) | SetAgents(_) | Tick(_) => AddingLeavesRows(st, e);
      case Flush(_, _, _) => FlushAddsRows(st, e);
      case Finish(_) =>
    }
  }

  // ----- landing -----

  /** The counters send an action to landing exactly when none of its rows is sent at that moment. */
  lemma LandsExactlyWhenNoneSent(st: State, s: nat, a: ActionId)
    requires s < |st.scheds| && st.scheds[s].updater.Free? && a in st.actions
    ensures Step(st, Event.Tally(s, a)).scheds[s].updater == Landing(a) <==> NoneSent(st.commands, a)
  {
    AllDoneIffNoneSent(st.commands, a);
  }

  /** One step brings a sent row back exactly by inserting, or by a return whose status is "sent". */
  lemma SentComesBackOnlyByInsertOrSentReturn(st: State, e: Event, a: ActionId)
    requires NoneSent(st.commands, a)
    ensures NoneSent(Step(st, e).commands, a) <==> !InsertsFor(st, e, a) && !ReturnsAsSent(st, e, a)
  {
    StepOnRows(st, e);
    var after := Step(st, e).commands;
    if InsertsFor(st, e, a) {
      var id :| id in st.scheds[e.s].readyCmd && st.scheds[e.s].readyCmd[id].action == a;
      assert after[id].action == a && after[id].status == Sent;
    } else if ReturnsAsSent(st, e, a) {
      assert after[e.returned.id].action == a && after[e.returned.id].status == Sent;
    }
  }

  lemma DecidedNow(before: State, s: nat, a: ActionId)
    requires s < |before.scheds| && before.scheds[s].updater.Free?
    requires Step(before, Event.Tally(s, a)).scheds[s].updater == Landing(a)
    ensures NoneSent(Step(before, Event.Tally(s, a)).commands, a)
  {
    LandsExactlyWhenNoneSent(before, s, a);
    StepOnRows(before, Event.Tally(s, a));
  }

  lemma DecidedAt(st: State, events: seq<Event>, i: nat, s: nat, a: ActionId)
    requires i < |events| && events[i] == Event.Tally(s, a) && s < |StateAt(st, events, i).scheds|
    requires StateAt(st, events, i).scheds[s].updater.Free?
    requires s < |StateAt(st, events, i + 1).scheds| && StateAt(st, events, i + 1).scheds[s].updater == Landing(a)
    ensures NoneSent(StateAt(st, events, i + 1).commands, a)
  {
    StateAfter(st, events, i);
    DecidedNow(StateAt(st, events, i), s, a);
  }

  lemma StillNoneSent(st: State, events: seq<Event>, k: nat, a: ActionId)
    requires k < |events| && NoneSent(StateAt(st, events, k).commands, a)
    requires !BringsBack(StateAt(st, events, k), events[k], a)
    ensures NoneSent(StateAt(st, events, k + 1).commands, a)
  {
    StateAfter(st, events, k);
    SentComesBackOnlyByInsertOrSentReturn(StateAt(st, events, k), events[k], a);
  }

  ghost predicate BringsBack(st: State, e: Event, a: ActionId) {
    InsertsFor(st, e, a) || ReturnsAsSent(st, e, a)
  }

  lemma {:induction false} NoneSentThrough(st: State, events: seq<Event>, i: nat, j: nat, a: ActionId)
    requires i <= j <= |events| && NoneSent(StateAt(st, events, i).commands, a)
    requires forall k | i <= k < j :: !BringsBack(StateAt(st, events, k), events[k], a)
    ensures NoneSent(StateAt(st, events, j).commands, a)
    decreases j
  {
    if i < j {
      NoneSentThrough(st, events, i, j - 1, a);
      StillNoneSent(st, events, j - 1, a);
    }
  }

  /** Once an updater has decided to land an action, no row of it is sent in any later state of the run,
      as long as no more of its commands are inserted and no return claims the status "sent". */
  lemma LandingIsSafe(st: State, events: seq<Event>, i: nat, j: nat, s: nat, a: ActionId)
    requires i < j <= |events|
    requires events[i] == Event.Tally(s, a) && s < |StateAt(st, events, i).scheds|
    requires StateAt(st, events, i).scheds[s].updater.Free?
    requires s < |StateAt(st, events, i + 1).scheds|
    requires StateAt(st, events, i + 1).scheds[s].updater == Landing(a)
    requires forall k | i < k < j :: !BringsBack(StateAt(st, events, k), events[k], a)
    ensures NoneSent(StateAt(st, events, j).commands, a)
  {
    DecidedAt(st, events, i, s, a);
    NoneSentThrough(st, events, i + 1, j, a);
  }

  // ----- after landing -----

  predicate IsCompleted(st: State, a: ActionId) {
    a in st.actions && st.actions[a].status == Completed
  }

  /** One of the three unguarded statements of the worker marks the action's row. */
  predicate Remarks(st: State, e: Event, a: ActionId) {
    && (e.FlyStatus? || e.MarkInvalid? || e.Upsert?) && e.s < |st.scheds| && e.ok
    && var w := st.scheds[e.s].worker;
       || (e.FlyStatus? && w.Flown? && w.action.id == a)
       || (e.MarkInvalid? && w.Invalidated? && w.action.id == a)
       || (e.Upsert? && w.Upserting? && w.action.id == a)
  }

  lemma MarksRemark(st: State, e: Event, a: ActionId)
    requires IsCompleted(st, a) && (e.FlyStatus? || e.MarkInvalid? || e.Upsert?)
    ensures IsCompleted(Step(st, e), a) <==> !Remarks(st, e, a)
  {
  }

  lemma CollectorsLeaveCompleted(st: State, e: Event, a: ActionId)
    requires IsCompleted(st, a)
    requires e.Claim? || e.Setup? || e.Scan? || e.Visit? || e.EndScan? || e.Take? || e.AddAction? || e.DropAction?
    ensures IsCompleted(Step(st, e), a)
  {
  }

  lemma PreparationLeavesCompleted(st: State, e: Event, a: ActionId)
    requires IsCompleted(st, a) && (e.Read? || e.Query? || e.Invalidate?)
    ensures IsCompleted(Step(st, e), a)
  {
  }

  lemma CreationLeavesCompleted(st: State, e: Event, a: ActionId)
    requires IsCompleted(st, a) && (e.Create? || e.CreatedAll? || e.Fly? || e.Discard?)
    ensures IsCompleted(Step(st, e), a)
  {
  }

  /** A step takes a completed action back exactly by remarking its row: neither flyAction, nor invalidAction,
      nor the upsert of processNewAction looks at the status it overwrites. */
  lemma CompletedStaysIff(st: State, e: Event, a: ActionId)
    requires IsCompleted(st, a)
    ensures IsCompleted(Step(st, e), a) <==> !Remarks(st, e, a)
  {
    if e.FlyStatus? || e.MarkInvalid? || e.Upsert? {
      MarksRemark(st, e, a);
    } else if e.Claim? || e.Setup? || e.Scan? || e.Visit? || e.EndScan? || e.Take? || e.AddAction? || e.DropAction? {
      CollectorsLeaveCompleted(st, e, a);
    } else if e.Read? || e.Query? || e.Invalidate? {
      PreparationLeavesCompleted(st, e, a);
    } else if e.Create? || e.CreatedAll? || e.Fly? || e.Discard? {
      CreationLeavesCompleted(st, e, a);
    }
  }

  ghost predicate StaysCompleted(st: State, events: seq<Event>, a: ActionId) {
    forall k | 0 <= k <= |events| :: IsCompleted(StateAt(st, events, k), a)
  }

  lemma StaysCompletedGrows(st: State, events: seq<Event>, a: ActionId)
    requires events != []
    ensures StaysCompleted(st, events, a)
       <==> StaysCompleted(st, events[..|events| - 1], a) && IsCompleted(Run(st, events), a)
  {
    var init := events[..|events| - 1];
    SameStateAt(st, events, events, |events|);
    forall k | 0 <= k <= |init| ensures StateAt(st, init, k) == StateAt(st, events, k) {
      SameStateAt(st, init, events, k);
    }
  }

  /** A completed action stays completed over a run exactly when no worker remarks its row. */
  lemma {:induction false} CompletedForeverIff(st: State, events: seq<Event>, a: ActionId)
    requires IsCompleted(st, a)
    ensures StaysCompleted(st, events, a) <==> !Ever(st, events, (before, e) => Remarks(before, e, a))
    ensures StaysCompleted(st, events, a) ==> IsCompleted(Run(st, events), a)
    decreases |events|
  {
    if events != [] {
      var init, last := events[..|events| - 1], events[|events| - 1];
      CompletedForeverIff(st, init, a);
      StaysCompletedGrows(st, events, a);
      EverGrows(st, events, (before, e) => Remarks(before, e, a));
      if StaysCompleted(st, init, a) {
        CompletedStaysIff(Run(st, init), last, a);
      }
    }
  }

  // ----- the Done counter -----

  lemma DoneDropsOnlyOnUnfinishedReturnStep(st: State, e: Event, a: ActionId)
    ensures Count(Step(st, e).commands, a, DONE) < Count(st.commands, a, DONE)
       <==> && e.Finish? && Finishes(st, e, e.returned.id) && st.commands[e.returned.id].action == a
            && st.commands[e.returned.id].status in DONE && e.returned.status !in DONE
  {
    StepOnRows(st, e);
    if e.Finish? {
      DoneDropsOnlyOnUnfinishedReturn(st.commands, st.agents, e.returned, a);
    } else if FlushInserts(st, e) {
      var ready := st.scheds[e.s].readyCmd;
      forall id | id in ready ensures id !in st.commands {
        assert id !in ready.Keys * st.commands.Keys;
      }
      var was, now := Matching(st.commands, a, DONE), Matching(Step(st, e).commands, a, DONE);
      assert was <= now;
      assert now == was + (now - was);
    }
  }

  /** Over a run whose returns all carry a done status, the Done counter of no action ever falls. */
  lemma {:induction false} DoneNeverFalls(st: State, events: seq<Event>, a: ActionId)
    requires forall k | 0 <= k < |events| :: events[k].Finish? ==> events[k].returned.status in DONE
    ensures Count(Run(st, events).commands, a, DONE) >= Count(st.commands, a, DONE)
    decreases |events|
  {
    if events != [] {
      var init := events[..|events| - 1];
      DoneNeverFalls(st, init, a);
      DoneDropsOnlyOnUnfinishedReturnStep(Run(st, init), events[|events| - 1], a);
    }
  }

  // ----- finishing -----

  /** The returns of one command in a run, each with the verdict of the agent guard when it is processed. */
  ghost function CopiesOf(st: State, events: seq<Event>, id: CommandId, agent: AgentId): seq<Copy>
    decreases |events|
  {
    if events == [] then []
    else
      var init, e := events[..|events| - 1], events[|events| - 1];
      CopiesOf(st, init, id, agent)
      + if !e.Finish? || e.returned.id != id then []
        else [Copy(AgentAnswers(Run(st, init).agents, agent, e.returned), e.returned)]
  }

  lemma {:induction false} FinishAllSnoc(row: CommandRow, copies: seq<Copy>, c: Copy)
    ensures FinishAll(row, copies + [c]) == FinishRow(FinishAll(row, copies), c.answers, c.cmd)
    decreases |copies|
  {
    if copies == [] {
      assert [c][1..] == [];
    } else {
      assert (copies + [c])[1..] == copies[1..] + [c];
      FinishAllSnoc(FinishRow(row, copies[0].answers, copies[0].cmd), copies[1..], c);
    }
  }

  /** Whatever else the schedulers do, the fate of a row is the fold of its returned copies. */
  lemma {:induction false} RowFollowsItsReturns(st: State, events: seq<Event>, id: CommandId)
    requires id in st.commands
    ensures id in Run(st, events).commands
    ensures Run(st, events).commands[id] == FinishAll(st.commands[id], CopiesOf(st, events, id, st.commands[id].agent))
    decreases |events|
  {
    if events != [] {
      var init, e := events[..|events| - 1], events[|events| - 1];
      RowFollowsItsReturns(st, init, id);
      var before, row := Run(st, init), st.commands[id];
      var copies := CopiesOf(st, init, id, row.agent);
      StepOnRows(before, e);
      AgentIsKept(row, copies);
      if e.Finish? && e.returned.id == id {
        var c := Copy(AgentAnswers(before.agents, row.agent, e.returned), e.returned);
        FinishAllSnoc(row, copies, c);
      } else {
        assert CopiesOf(st, events, id, row.agent) == copies;
        if FlushInserts(before, e) {
          assert id !in before.scheds[e.s].readyCmd.Keys * before.commands.Keys;
        }
      }
    }
  }

  lemma {:induction false} AgentIsKept(row: CommandRow, copies: seq<Copy>)
    ensures FinishAll(row, copies).agent == row.agent && FinishAll(row, copies).action == row.action
    decreases |copies|
  {
    if copies != [] {
      AgentIsKept(FinishRow(row, copies[0].answers, copies[0].cmd), copies[1..]);
    }
  }

  /** The final status is success iff it was, or some guard-passing return of the run was a success. */
  lemma FinalStatusIsSuccessIffSomeReturnIs(st: State, events: seq<Event>, id: CommandId)
    requires id in st.commands
    ensures id in Run(st, events).commands
    ensures Run(st, events).commands[id].status == Success
       <==> || st.commands[id].status == Success
            || exists c :: c in CopiesOf(st, events, id, st.commands[id].agent) && c.answers && c.cmd.status == Success
  {
    RowFollowsItsReturns(st, events, id);
    WinsIffSomeSuccess(st.commands[id], CopiesOf(st, events, id, st.commands[id].agent));
  }

  /** From the first success on, status, results and finish time never change. */
  lemma SuccessIsForever(st: State, events: seq<Event>, id: CommandId)
    requires id in st.commands && st.commands[id].status == Success
    ensures id in Run(st, events).commands && Run(st, events).commands[id] == st.commands[id]
  {
    RowFollowsItsReturns(st, events, id);
    SuccessAbsorbs(st.commands[id], CopiesOf(st, events, id, st.commands[id].agent));
  }

  // ----- a command that never comes back -----

  lemma {:induction false} NoCopies(st: State, events: seq<Event>, id: CommandId, agent: AgentId)
    requires forall e | e in events :: e.Finish? ==> e.returned.id != id
    ensures CopiesOf(st, events, id, agent) == []
    decreases |events|
  {
    if events != [] {
      NoCopies(st, events[..|events| - 1], id, agent);
    }
  }

  /** An inserted command that nothing comes back for, as when it was abandoned before it was published and
      has no in-flight file to expire, keeps its action from landing for ever. */
  lemma UnansweredCommandHoldsItsAction(st: State, events: seq<Event>, id: CommandId, s: nat)
    requires id in st.commands && st.commands[id].status == Sent
    requires forall e | e in events :: e.Finish? ==> e.returned.id != id
    ensures id in Run(st, events).commands && Run(st, events).commands[id] == st.commands[id]
    ensures var now, a := Run(st, events), st.commands[id].action;
      s < |now.scheds| && now.scheds[s].updater.Free? ==> Step(now, Event.Tally(s, a)).scheds[s].updater.Free?
  {
    RowFollowsItsReturns(st, events, id);
    NoCopies(st, events, id, st.commands[id].agent);
    var now, a := Run(st, events), st.commands[id].action;
    assert now.commands[id].status == Sent && now.commands[id].action == a;
    AllDoneIffNoneSent(now.commands, a);
  }
}
