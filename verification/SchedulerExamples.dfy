/** Runs that show how far the promises of the schedulers go. */
module SchedulerExamples {
  import opened Common
  import opened CommandTable
  import FiniteSets
  import opened Scheduler
  import opened SchedulerConservation
  import opened SchedulerDoubleDispatch
  import opened SchedulerLanding
  import opened SchedulerRuns
  import opened SchedulerSafety

  const T1 := Target(1, "q1")
  const T2 := Target(2, "q2")
  const TWO_AGENTS: map<AgentId, AgentRow> := map[1 := AgentRow("q1", 7, Online), 2 := AgentRow("q2", 8, Online)]
  const ACTION := Action(1, 0, 100)

  function Only(status: ActionStatus, sc: Sched): State {
    State(10, map[1 := ActionRow(ACTION, status)], TWO_AGENTS, map[], [sc], {1}, {}, {}, {}, {}, [], {})
  }

  const SPOOLED: Sched := FreshSched().(spool := map[1 := ACTION])

  lemma ReachClaimed()
    ensures Reaches(Init(1, 10), Only(Scheduled, FreshSched().(collector := SettingUp(map[1 := ACTION]))))
  {
    var s0, sc := Init(1, 10), FreshSched();
    assert s0.scheds == [sc];
    assert Run(s0, []) == s0;
    ReachesNext(s0, s0, SetAgents(TWO_AGENTS));
    var s1 := s0.(agents := TWO_AGENTS);
    assert DoAddAction(s1, ACTION) == Only(Pending, sc) by { assert s1.seen + {1} == {1}; }
    ReachesNext(s0, s1, AddAction(ACTION));
    var s2 := Only(Pending, sc);
    ClaimsIt(s2, {1});
    ReachesNext(s0, s2, Claim(0, {1}, true));
  }

  lemma ClaimsIt(st: State, read: set<ActionId>)
    requires st == Only(Pending, FreshSched()) && read == {1}
    ensures DoClaim(st, 0, read, true) == Only(Scheduled, FreshSched().(collector := SettingUp(map[1 := ACTION])))
  {
    var claimed := map id | id in st.actions && Runnable(st.actions[id], st.now) && id in read :: st.actions[id].action;
    assert claimed == map[1 := ACTION];
    assert DoClaim(st, 0, read, true).actions == map[1 := ActionRow(ACTION, Scheduled)];
  }

  lemma ReachSetUp()
    ensures Reaches(Init(1, 10), Only(Scheduled, SPOOLED.(collector := SettingUp(map[]))))
  {
    ReachClaimed();
    var s3 := Only(Scheduled, FreshSched().(collector := SettingUp(map[1 := ACTION])));
    assert DoSetup(s3, 0, 1, true) == Only(Scheduled, SPOOLED.(collector := SettingUp(map[]))) by {
      assert map[1 := ACTION] - {1} == map[];
    }
    ReachesNext(Init(1, 10), s3, Setup(0, 1, true));
  }

  lemma ReachScanning()
    ensures Reaches(Init(1, 10), Only(Scheduled, SPOOLED.(collector := Scanning({1}))))
  {
    ReachSetUp();
    var s4 := Only(Scheduled, SPOOLED.(collector := SettingUp(map[])));
    assert DoScan(s4, 0, true) == Only(Scheduled, SPOOLED.(collector := Scanning({1}))) by {
      assert SPOOLED.spool.Keys == {1};
    }
    ReachesNext(Init(1, 10), s4, Scan(0, true));
  }

  lemma ReachOffered()
    ensures Reaches(Init(1, 10), Only(Scheduled, SPOOLED.(collector := Offering(1, {}))))
  {
    ReachScanning();
    var s5 := Only(Scheduled, SPOOLED.(collector := Scanning({1})));
    assert DoVisit(s5, 0, 1, true) == Only(Scheduled, SPOOLED.(collector := Offering(1, {}))) by {
      assert {1} - {1} == {};
    }
    ReachesNext(Init(1, 10), s5, Visit(0, 1, true));
  }

  function Working(w: Worker): Sched {
    SPOOLED.(collector := Scanning({}), worker := w)
  }

  lemma ReachReading()
    ensures Reaches(Init(1, 10), Only(Scheduled, Working(Reading(1))))
  {
    ReachOffered();
    var s6 := Only(Scheduled, SPOOLED.(collector := Offering(1, {})));
    assert DoTake(s6, 0) == Only(Scheduled, Working(Reading(1)));
    ReachesNext(Init(1, 10), s6, Take(0));
  }

  lemma ReachTargeting()
    ensures Reaches(Init(1, 10), Only(Scheduled, Working(Targeting(ACTION))))
  {
    ReachReading();
    var s7 := Only(Scheduled, Working(Reading(1)));
    assert DoRead(s7, 0, true) == Only(Scheduled, Working(Targeting(ACTION)));
    ReachesNext(Init(1, 10), s7, Read(0, true));
  }

  lemma ReachUpserting()
    ensures Reaches(Init(1, 10), Only(Scheduled, Working(Upserting(ACTION, [T1, T2]))))
  {
    ReachTargeting();
    var s0, s8 := Init(1, 10), Only(Scheduled, Working(Targeting(ACTION)));
    BothPicked();
    assert DoQuery(s8, 0, {1, 2}, [T1, T2], true) == Only(Scheduled, Working(Upserting(ACTION, [T1, T2])));
    ReachesNext(s0, s8, Query(0, {1, 2}, [T1, T2], true));
  }

  lemma BothPicked()
    ensures DistinctOn([T1, T2], TWO_AGENTS, {1, 2})
  {
    assert T1.queueLoc[1] != T2.queueLoc[1];
    assert T1 in [T1, T2] && T2 in [T1, T2];
  }

  lemma ReachCreating()
    ensures Reaches(Init(1, 10), Only(Preparing, Working(Creating(ACTION, [T1, T2], 0))))
  {
    ReachUpserting();
    var s0, s9 := Init(1, 10), Only(Scheduled, Working(Upserting(ACTION, [T1, T2])));
    assert DoUpsert(s9, 0, true, true) == Only(Preparing, Working(Creating(ACTION, [T1, T2], 0)));
    ReachesNext(s0, s9, Upsert(0, true, true));
  }

  lemma SingletonBatch(id: CommandId, c: Command)
    ensures Batched(map[id := c]) == {c} && Lists([c], map[id := c])
  {
    var m := map[id := c];
    assert id in m && m[id] == c;
    assert c in Batched(m);
  }

  const C1 := Command(0, 1, 1, T1)
  const C2 := Command(0, 2, 1, T2)

  const HALFWAY: Sched := Working(Creating(ACTION, [T2], 1)).(nextId := 2)
  const SENT_ROW := CommandRow(1, 1, Sent, "", FAR_FUTURE)

  lemma ReachOneMade()
    ensures Reaches(Init(1, 10), Only(Preparing, HALFWAY.(readyCmd := map[1 := C1], ctr := 1)).(made := {C1}))
  {
    ReachCreating();
    var s1 := Only(Preparing, Working(Creating(ACTION, [T1, T2], 0)));
    assert DoCreate(s1, 0, 0, true) == Only(Preparing, HALFWAY.(readyCmd := map[1 := C1], ctr := 1)).(made := {C1}) by {
      assert [T1, T2][1..] == [T2] && s1.made + {C1} == {C1};
    }
    ReachesNext(Init(1, 10), s1, Create(0, 0, true));
  }

  lemma ReachOneFlushed()
    ensures Reaches(Init(1, 10), OneInserted([C1]))
  {
    ReachOneMade();
    var s2 := Only(Preparing, HALFWAY.(readyCmd := map[1 := C1], ctr := 1)).(made := {C1});
    SingletonBatch(1, C1);
    assert s2.commands + RowsOf(map[1 := C1]) == map[1 := SENT_ROW];
    assert DoFlush(s2, 0, [C1], true) == OneInserted([C1]);
    ReachesNext(Init(1, 10), s2, Flush(0, [C1], true));
  }

  function OneInserted(writing: seq<Command>): State {
    Only(Preparing, HALFWAY.(writing := writing)).(commands := map[1 := SENT_ROW], made := {C1})
  }

  lemma ReachPublishing()
    ensures Reaches(Init(1, 10), OneInserted([]).(publishing := {C1}))
  {
    ReachOneFlushed();
    var s3, s4 := OneInserted([C1]), OneInserted([]).(publishing := {C1});
    assert DoWrite(s3, 0, true) == s4 by { assert [C1][1..] == [] && s3.publishing + {C1} == {C1}; }
    ReachesNext(Init(1, 10), s3, Write(0, true));
  }

  /** The first command made, inserted and published on its own. */
  lemma ReachOneSent()
    ensures Reaches(Init(1, 10), OneInserted([]).(published := [C1]))
  {
    ReachPublishing();
    var s4 := OneInserted([]).(publishing := {C1});
    assert DoPublish(s4, C1, true) == OneInserted([]).(published := [C1]) by { assert {C1} - {C1} == {}; }
    ReachesNext(Init(1, 10), s4, Publish(C1, true));
  }

  /** The same command is lost when its in-flight file cannot be written: it is in the table as sent, and
      will never be published. */
  lemma AnInsertedCommandCanBeLost()
    ensures exists st, c ::
      Reaches(Init(1, 10), st) && c in st.abandoned && c.id in st.commands && st.commands[c.id].status == Sent
  {
    ReachOneFlushed();
    var s3, s4 := OneInserted([C1]), OneInserted([]).(abandoned := {C1});
    assert DoWrite(s3, 0, false) == s4 by { assert s3.abandoned + FiniteSets.Elements([C1]) == {C1}; }
    ReachesNext(Init(1, 10), s3, Write(0, false));
    assert C1 in s4.abandoned && C1.id in s4.commands;
  }

  function AfterAnswer(status: ActionStatus, sc: Sched): State {
    Only(status, sc).(commands := map[1 := CommandRow(1, 1, Success, "done", 20)], made := {C1}, published := [C1])
  }

  lemma ReachAnswered()
    ensures Reaches(Init(1, 10), AfterAnswer(Preparing, HALFWAY))
  {
    ReachOneSent();
    var s4 := OneInserted([]).(published := [C1]);
    var answer := Returned(1, "q1", 7, Success, "done", 20);
    assert FinishCommand(s4.commands, s4.agents, answer) == map[1 := CommandRow(1, 1, Success, "done", 20)];
    ReachesNext(Init(1, 10), s4, Finish(answer));
  }

  /** The answer lands the action. */
  lemma ReachLanded()
    ensures Reaches(Init(1, 10), AfterAnswer(Completed, HALFWAY))
  {
    ReachAnswered();
    var s5 := AfterAnswer(Preparing, HALFWAY);
    var s6 := AfterAnswer(Preparing, HALFWAY.(updater := Landing(1)));
    AllDoneIffNoneSent(s5.commands, 1);
    assert DoTally(s5, 0, 1) == s6;
    ReachesNext(Init(1, 10), s5, Event.Tally(0, 1));
    LandsNow(s6);
  }

  lemma LandsNow(s6: State)
    requires s6 == AfterAnswer(Preparing, HALFWAY.(updater := Landing(1))) && Reaches(Init(1, 10), s6)
    ensures Reaches(Init(1, 10), AfterAnswer(Completed, HALFWAY))
  {
    assert DoLand(s6, 0, true) == AfterAnswer(Completed, HALFWAY);
    ReachesNext(Init(1, 10), s6, Land(0, true));
  }

  // ----- an idle agent answers -----

  const ONE_IDLE: map<AgentId, AgentRow> := TWO_AGENTS[1 := AgentRow("q1", 7, Idle)]

  function Heard(st: State): State {
    st.(agents := ONE_IDLE)
  }

  lemma ReachIdle()
    ensures Reaches(Init(1, 10), Heard(OneInserted([]).(published := [C1])))
  {
    ReachOneSent();
    ReachesNext(Init(1, 10), OneInserted([]).(published := [C1]), SetAgents(ONE_IDLE));
  }

  lemma MarksIt(st: State, s: nat, a: ActionId)
    requires s < |st.scheds| && st.scheds[s].updater == Landing(a) && a in st.actions
    ensures IsCompleted(Step(st, Land(s, true)), a)
  {
  }

  lemma TallyChanges(st: State, s: nat, a: ActionId)
    requires s < |st.scheds|
    ensures |Step(st, Event.Tally(s, a)).scheds| == |st.scheds| && Step(st, Event.Tally(s, a)).actions == st.actions
  {
  }

  /** From any state in which none of its commands is sent, an updater that is free can land an action. */
  lemma CanLand(st: State, s: nat, a: ActionId) returns (st': State)
    requires s < |st.scheds| && st.scheds[s].updater.Free? && a in st.actions && NoneSent(st.commands, a)
    ensures Reaches(st, st') && IsCompleted(st', a)
  {
    var tallied := Step(st, Event.Tally(s, a));
    st' := Step(tallied, Land(s, true));
    assert IsCompleted(st', a) by {
      LandsExactlyWhenNoneSent(st, s, a);
      TallyChanges(st, s, a);
      MarksIt(tallied, s, a);
    }
    ReachesInTwo(st, Event.Tally(s, a), Land(s, true));
  }

  lemma ReachesInTwo(st: State, e: Event, e': Event)
    ensures Reaches(st, Step(Step(st, e), e'))
  {
    assert Run(st, []) == st;
    ReachesNext(st, st, e);
    ReachesNext(st, Step(st, e), e');
  }

  /** The agent has gone idle when its success comes back: it is written, and lands the action. */
  lemma AnIdleAgentLandsItsAction()
    ensures exists st, e: Event, st' ::
      && Reaches(Init(1, 10), st) && 1 in st.agents && st.agents[1].status == Idle
      && e.Finish? && 1 in st.commands && st.commands[1] == SENT_ROW
      && 1 in Step(st, e).commands && Step(st, e).commands[1] == CommandRow(1, 1, Success, "done", 20)
      && Reaches(Step(st, e), st') && IsCompleted(st', 1)
  {
    ReachIdle();
    var st, answer := Heard(OneInserted([]).(published := [C1])), Returned(1, "q1", 7, Success, "done", 20);
    assert FinishCommand(st.commands, st.agents, answer) == map[1 := CommandRow(1, 1, Success, "done", 20)];
    assert Step(st, Finish(answer)) == Heard(AfterAnswer(Preparing, HALFWAY));
    var st' := CanLand(Heard(AfterAnswer(Preparing, HALFWAY)), 0, 1);
    assert IsCompleted(st', 1) && Reaches(Step(st, Finish(answer)), st');
  }

  function SecondMade(): State {
    AfterAnswer(Completed, Working(Creating(ACTION, [], 2)).(nextId := 3, readyCmd := map[2 := C2], ctr := 1))
      .(made := {C1, C2})
  }

  lemma ReachSecondMade()
    ensures Reaches(Init(1, 10), SecondMade())
  {
    ReachLanded();
    var s7 := AfterAnswer(Completed, HALFWAY);
    assert DoCreate(s7, 0, 0, true) == SecondMade() by {
      assert [T2][1..] == [] && s7.made + {C2} == {C1, C2};
    }
    ReachesNext(Init(1, 10), s7, Create(0, 0, true));
  }

  /** The condition on later inserts is needed.  The sender's timer flushes the first command before the
      second is made, the first answer lands the action, and the second command is then inserted as sent
      under an action that is already completed. */
  lemma AnActionCanLandBeforeAllItsCommandsAreSent()
    ensures exists st ::
      && Reaches(Init(1, 10), st)
      && 1 in st.actions && st.actions[1].status == Completed
      && 2 in st.commands && st.commands[2].action == 1 && st.commands[2].status == Sent
  {
    ReachSecondMade();
    var e := Flush(0, [C2], true);
    SingletonBatch(2, C2);
    assert FlushInserts(SecondMade(), e);
    StepOnRows(SecondMade(), e);
    assert Step(SecondMade(), e).actions == SecondMade().actions;
    ReachesNext(Init(1, 10), SecondMade(), e);
  }

  // ----- the Done counter falls -----

  function Answered(status: Status): State {
    OneInserted([]).(commands := map[1 := CommandRow(1, 1, status, "", 20)], published := [C1])
  }

  lemma ReachFailed()
    ensures Reaches(Init(1, 10), Answered(Failed))
  {
    ReachOneSent();
    var s4, failed := OneInserted([]).(published := [C1]), Returned(1, "q1", 7, Failed, "", 20);
    assert FinishCommand(s4.commands, s4.agents, failed) == Answered(Failed).commands;
    ReachesNext(Init(1, 10), s4, Finish(failed));
  }

  /** The command fails, and then comes back again with the status it was sent with. */
  lemma DoneCanFall()
    ensures exists st, e ::
      Reaches(Init(1, 10), st) && Count(Step(st, e).commands, 1, DONE) < Count(st.commands, 1, DONE)
  {
    ReachFailed();
    DropsNow(Answered(Failed), Finish(Returned(1, "q1", 7, Sent, "", 20)));
  }

  lemma DropsNow(st: State, e: Event)
    requires st == Answered(Failed) && e == Finish(Returned(1, "q1", 7, Sent, "", 20))
    ensures Count(Step(st, e).commands, 1, DONE) < Count(st.commands, 1, DONE)
  {
    DoneDropsOnlyOnUnfinishedReturnStep(st, e, 1);
  }

  // ----- a file left behind -----

  lemma ReachFlown()
    ensures Reaches(Init(1, 10), SecondMade().(scheds := [SecondMade().scheds[0].(worker := Flown(ACTION))]))
  {
    ReachSecondMade();
    var s8, sc := SecondMade(), SecondMade().scheds[0];
    var s9 := s8.(scheds := [sc.(worker := Flying(ACTION))]);
    assert DoCreatedAll(s8, 0) == s9;
    ReachesNext(Init(1, 10), s8, CreatedAll(0));
    var s10 := s8.(scheds := [sc.(worker := Flown(ACTION))]);
    assert DoFly(s9, 0, true, false) == s10;
    ReachesNext(Init(1, 10), s9, Fly(0, true, false));
  }

  /** The action had landed while its second command was being made; its flight takes it back. */
  lemma ALandedActionCanTakeOffAgain()
    ensures exists st, e :: Reaches(Init(1, 10), st) && IsCompleted(st, 1) && !IsCompleted(Step(st, e), 1)
  {
    ReachFlown();
    var s10 := SecondMade().(scheds := [SecondMade().scheds[0].(worker := Flown(ACTION))]);
    CompletedStaysIff(s10, FlyStatus(0, true), 1);
  }

  /** The removal of the file in flyAction fails, the error is ignored, and the action is dispatched again
      to an endpoint queue it has been dispatched to. */
  lemma AnActionCanBeDispatchedTwice()
    ensures exists st :: Reaches(Init(1, 10), st) && IsDispatchedTwice(st, 1)
  {
    ReachFlown();
    var s10 := SecondMade().(scheds := [SecondMade().scheds[0].(worker := Flown(ACTION))]);
    ReachesNext(Init(1, 10), s10, FlyStatus(0, true));
    var s11 := Step(s10, FlyStatus(0, true));
    var events :| Run(Init(1, 10), events) == s11;
    assert C1 in s11.made && C1.action == 1;
    assert IsLeft(s11, 0, 1);
    LeftFileCanBeDispatchedTwice(1, 10, events, 0, 1);
    var st :| Reaches(s11, st) && IsDispatchedTwice(st, 1);
    ReachesThrough(Init(1, 10), s11, st);
  }
}
