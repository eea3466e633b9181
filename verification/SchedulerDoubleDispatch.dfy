/** What a file left in the spool can lead to: the other half of at-most-once dispatch. */
module SchedulerDoubleDispatch {
  import opened Common
  import opened FiniteSets
  import opened CommandTable
  import opened Scheduler
  import opened SchedulerConservation
  import opened SchedulerRuns
  import opened SchedulerSafety

  /** Two commands have been made of an action for the same endpoint queue. */
  ghost predicate IsDispatchedTwice(st: State, a: ActionId) {
    !OnePerQueue(st.made, a)
  }

  /** The worker of s waits, and the spool of s has the file of an action in its validity period. */
  ghost predicate IsLeft(st: State, s: nat, a: ActionId) {
    && s < |st.scheds| && st.scheds[s].worker.Waiting?
    && a in st.scheds[s].spool && st.scheds[s].spool[a].id == a
    && st.scheds[s].spool[a].validFrom < st.now <= st.scheds[s].spool[a].expireAfter
  }

  /** What is kept on the way to the second dispatch. */
  ghost predicate Keeps(st: State, st': State, s: nat)
    requires s < |st.scheds|
  {
    && |st'.scheds| == |st.scheds| && st'.now == st.now && st'.made == st.made
    && st'.scheds[s].spool == st.scheds[s].spool && st'.scheds[s].nextId == st.scheds[s].nextId
  }

  lemma {:induction false} EndTheScan(from: State, st: State, s: nat, names: set<ActionId>) returns (st': State)
    requires Reaches(from, st) && s < |st.scheds|
    requires st.scheds[s].worker.Waiting? && st.scheds[s].collector == Scanning(names)
    ensures Reaches(from, st') && Keeps(st, st', s)
    ensures st'.scheds[s].worker.Waiting? && st'.scheds[s].collector.Resting?
    decreases |names|
  {
    if names == {} {
      ReachesNext(from, st, EndScan(s));
      st' := DoEndScan(st, s);
    } else {
      var id := SomeMember(names);
      ReachesNext(from, st, Visit(s, id, false));
      st' := EndTheScan(from, DoVisit(st, s, id, false), s, names - {id});
    }
  }

  lemma FailTheFile(from: State, st: State, s: nat) returns (st': State)
    requires Reaches(from, st) && s < |st.scheds| && st.scheds[s].worker.Reading?
    ensures Reaches(from, st') && Keeps(st, st', s) && st'.scheds[s] == st.scheds[s].(worker := Waiting)
  {
    var failing := DoRead(st, s, false);
    ReachesNext(from, st, Read(s, false));
    st' := DoDiscard(failing, s, false);
    ReachesNext(from, failing, Discard(s, false));
  }

  lemma RefuseTheOffer(from: State, st: State, s: nat) returns (st': State)
    requires Reaches(from, st) && s < |st.scheds|
    requires st.scheds[s].worker.Waiting? && st.scheds[s].collector.Offering?
    ensures Reaches(from, st') && Keeps(st, st', s) && st'.scheds[s].worker.Waiting?
    ensures st'.scheds[s].collector == Scanning(st.scheds[s].collector.names)
  {
    ReachesNext(from, st, Take(s));
    st' := FailTheFile(from, DoTake(st, s), s);
  }

  /** Wherever the collector stands, its round can end without touching the spool. */
  lemma EndTheRound(from: State, st: State, s: nat) returns (st': State)
    requires Reaches(from, st) && s < |st.scheds| && st.scheds[s].worker.Waiting?
    ensures Reaches(from, st') && Keeps(st, st', s)
    ensures st'.scheds[s].worker.Waiting? && st'.scheds[s].collector.Resting?
  {
    match st.scheds[s].collector {
      case Resting => st' := st;
      case SettingUp(claimed) =>
        if claimed == map[] {
          ReachesNext(from, st, Scan(s, false));
          st' := DoScan(st, s, false);
        } else {
          var id := SomeMember(claimed.Keys);
          ReachesNext(from, st, Setup(s, id, false));
          st' := DoSetup(st, s, id, false);
        }
      case Scanning(names) => st' := EndTheScan(from, st, s, names);
      case Offering(path, names) =>
        var scanning := RefuseTheOffer(from, st, s);
        st' := EndTheScan(from, scanning, s, names);
    }
  }

  lemma ScanAgain(from: State, st: State, s: nat) returns (st': State)
    requires Reaches(from, st) && s < |st.scheds| && st.scheds[s].worker.Waiting? && st.scheds[s].collector.Resting?
    ensures Reaches(from, st') && Keeps(st, st', s) && st'.scheds[s].worker.Waiting?
    ensures st'.scheds[s].collector == Scanning(st.scheds[s].spool.Keys)
  {
    var st1 := DoClaim(st, s, {}, true);
    ReachesNext(from, st, Claim(s, {}, true));
    assert st1.scheds[s].collector == SettingUp(map[]);
    st' := DoScan(st1, s, true);
    ReachesNext(from, st1, Scan(s, true));
  }

  /** The next round offers the file again. */
  lemma ReadAgain(from: State, st: State, s: nat, a: ActionId) returns (st': State)
    requires Reaches(from, st) && IsLeft(st, s, a)
    requires st.scheds[s].collector.Scanning? && a in st.scheds[s].collector.names
    ensures Reaches(from, st') && Keeps(st, st', s) && st'.scheds[s].worker == Reading(a)
  {
    var st1 := DoVisit(st, s, a, true);
    ReachesNext(from, st, Visit(s, a, true));
    st' := DoTake(st1, s);
    ReachesNext(from, st1, Take(s));
  }

  lemma OnePicked(agent: AgentId, queueLoc: string)
    ensures DistinctOn([Target(agent, queueLoc)], map[agent := AgentRow(queueLoc, 0, Online)], {agent})
  {
    assert Target(agent, queueLoc) in [Target(agent, queueLoc)];
  }

  lemma TargetAgain(from: State, st: State, s: nat, a: ActionId, t: Target) returns (st': State)
    requires Reaches(from, st) && s < |st.scheds| && st.scheds[s].worker == Reading(a)
    requires a in st.scheds[s].spool && st.scheds[s].spool[a].id == a
    requires st.scheds[s].spool[a].validFrom < st.now <= st.scheds[s].spool[a].expireAfter
    ensures Reaches(from, st') && Keeps(st, st', s)
    ensures st'.scheds[s].worker == Upserting(st.scheds[s].spool[a], [t])
  {
    var st1 := DoRead(st, s, true);
    ReachesNext(from, st, Read(s, true));
    var agents := map[t.agent := AgentRow(t.queueLoc, 0, Online)];
    var st2 := st1.(agents := agents);
    ReachesNext(from, st1, SetAgents(agents));
    OnePicked(t.agent, t.queueLoc);
    st' := DoQuery(st2, s, {t.agent}, [t], true);
    ReachesNext(from, st2, Query(s, {t.agent}, [t], true));
  }

  lemma StopWriting(from: State, st: State, s: nat) returns (st': State)
    requires Reaches(from, st) && s < |st.scheds|
    ensures Reaches(from, st') && Keeps(st, st', s) && st'.scheds[s] == st.scheds[s].(writing := [])
  {
    ReachesNext(from, st, Write(s, false));
    st' := DoWrite(st, s, false);
  }

  lemma DropBatch(from: State, st: State, s: nat) returns (st': State)
    requires Reaches(from, st) && s < |st.scheds| && st.scheds[s].writing == [] && st.scheds[s].ctr > 0
    ensures Reaches(from, st') && Keeps(st, st', s) && st'.scheds[s] == st.scheds[s].(readyCmd := map[], ctr := 0)
  {
    var order := ListOf(Batched(st.scheds[s].readyCmd));
    ReachesNext(from, st, Flush(s, order, false));
    st' := DoFlush(st, s, order, false);
  }

  /** The sender can be made ready to receive. */
  lemma EmptyTheSender(from: State, st: State, s: nat) returns (st': State)
    requires Reaches(from, st) && BatchInv(st) && s < |st.scheds|
    ensures Reaches(from, st') && Keeps(st, st', s) && st'.scheds[s].worker == st.scheds[s].worker
    ensures st'.scheds[s].writing == [] && st'.scheds[s].ctr < BATCH
  {
    assert SchedBatch(st.scheds[s], s);
    st' := StopWriting(from, st, s);
    if st'.scheds[s].ctr >= BATCH {
      st' := DropBatch(from, st', s);
    }
  }

  lemma {:induction false} ListOf(cs: set<Command>) returns (order: seq<Command>)
    ensures NoRepeats(order) && (forall c :: c in order <==> c in cs)
  {
    if cs == {} {
      order := [];
    } else {
      var c := SomeMember(cs);
      var rest := ListOf(cs - {c});
      order := [c] + rest;
    }
  }

  lemma UpsertAgain(from: State, st: State, s: nat) returns (st': State)
    requires Reaches(from, st) && s < |st.scheds| && st.scheds[s].worker.Upserting?
    ensures Reaches(from, st') && Keeps(st, st', s)
    ensures var w := st.scheds[s].worker;
      st'.scheds[s] == st.scheds[s].(worker := Creating(w.action, w.targets, 0))
  {
    ReachesNext(from, st, Upsert(s, true, true));
    st' := DoUpsert(st, s, true, true);
  }

  lemma MakeAgain(from: State, st: State, s: nat, a: ActionId, t: Target) returns (st': State)
    requires Reaches(from, st) && s < |st.scheds| && st.scheds[s].writing == [] && st.scheds[s].ctr < BATCH
    requires st.scheds[s].worker.Creating? && st.scheds[s].worker.action.id == a && st.scheds[s].worker.targets == [t]
    ensures Reaches(from, st') && st'.made == st.made + {Command(s, st.scheds[s].nextId, a, t)}
  {
    ReachesNext(from, st, Create(s, 0, true));
    st' := DoCreate(st, s, 0, true);
  }

  lemma CreateAgain(from: State, st: State, s: nat, a: ActionId, first: Command)
    requires Reaches(from, st) && BatchInv(st) && s < |st.scheds|
    requires st.scheds[s].worker.Upserting? && st.scheds[s].worker.action.id == a
    requires st.scheds[s].worker.targets == [first.target] && first in st.made && first.action == a
    ensures exists st' :: Reaches(from, st') && IsDispatchedTwice(st', a)
  {
    var ready := EmptyTheSender(from, st, s);
    var creating := UpsertAgain(from, ready, s);
    var twice := MakeAgain(from, creating, s, a, first.target);
    var again := Command(s, st.scheds[s].nextId, a, first.target);
    assert again in twice.made && first in twice.made;
    assert again != first by {
      assert PlacedOnce(st, first);
    }
    assert IsDispatchedTwice(twice, a);
  }

  /** From any state of any run, whatever else is going on: a file left in the spool, of an action of which
      commands were made and whose validity period has not passed, can be dispatched again. */
  lemma LeftFileCanBeDispatchedTwice(n: nat, now: int, events: seq<Event>, s: nat, a: ActionId)
    requires IsLeft(Run(Init(n, now), events), s, a) && HasCommands(Run(Init(n, now), events).made, a)
    ensures exists st :: Reaches(Run(Init(n, now), events), st) && IsDispatchedTwice(st, a)
  {
    var st := Run(Init(n, now), events);
    NoCommandLostOrDoubled(n, now, events);
    ReachesItself(st);
    var first :| first in st.made && first.action == a;
    var resting := EndTheRound(st, st, s);
    var scanning := ScanAgain(st, resting, s);
    var reading := ReadAgain(st, scanning, s, a);
    var upserting := TargetAgain(st, reading, s, a, first.target);
    var more :| Run(st, more) == upserting;
    RunKeepsBatches(st, more);
    CreateAgain(st, upserting, s, a, first);
  }

  /** The file that is left. */
  ghost function LeftBy(st: State, e: Event): ActionId
    requires LeavesFile(st, e)
  {
    if e.FlyStatus? then st.scheds[e.s].worker.action.id else st.scheds[e.s].worker.path
  }

  /** So the condition of AtMostOnceDispatch is exact: as soon as a run leaves a file, it can go on to dispatch
      the action twice. */
  lemma LeavingCanDispatchTwice(n: nat, now: int, events: seq<Event>, e: Event)
    requires !Ever(Init(n, now), events, LeavesFile) && LeavesFile(Run(Init(n, now), events), e)
    ensures exists st ::
      Reaches(Run(Init(n, now), events + [e]), st) && IsDispatchedTwice(st, LeftBy(Run(Init(n, now), events), e))
  {
    var st, a := Run(Init(n, now), events), LeftBy(Run(Init(n, now), events), e);
    RunKeepsActions(n, now, events);
    assert ActionInv(st, a) && HeldWell(st.scheds[e.s], a, st.made, st.now);
    RunThen(Init(n, now), events, e);
    LeftStays(st, e);
    LeftFileCanBeDispatchedTwice(n, now, events + [e], e.s, a);
  }

  lemma LeftStays(st: State, e: Event)
    requires LeavesFile(st, e) && HeldWell(st.scheds[e.s], LeftBy(st, e), st.made, st.now)
    ensures IsLeft(Step(st, e), e.s, LeftBy(st, e)) && HasCommands(Step(st, e).made, LeftBy(st, e))
  {
  }
}
