/** What every run of the schedulers keeps: at-most-once dispatch and conservation of commands. */
module SchedulerSafety {
  import opened Common
  import opened FiniteSets
  import opened CommandTable
  import opened Scheduler
  import opened SchedulerConservation
  import opened SchedulerRuns

  // ----- one holder per action, and commands only from that holder -----

  /** The worker is past reading the file of the action. */
  predicate WorksOn(w: Worker, a: ActionId) {
    !w.Waiting? && !w.Reading? && !w.Failing? && w.action.id == a
  }

  /** Only now may the file of an action lie in the spool although commands have been made of it. */
  predicate IsPastCommands(w: Worker, a: ActionId) {
    || ((w.Creating? || w.Flying? || w.Flown?) && w.action.id == a)
    || w == Failing(a)
  }

  /** The action has been offered to the worker, or is with it. */
  predicate IsStarted(sc: Sched, a: ActionId) {
    || (sc.collector.Offering? && sc.collector.path == a)
    || sc.worker == Reading(a)
    || WorksOn(sc.worker, a)
  }

  predicate Holds(sc: Sched, a: ActionId) {
    || (sc.collector.SettingUp? && a in sc.collector.claimed)
    || a in sc.spool
    || IsStarted(sc, a)
  }

  predicate HasCommands(made: set<Command>, a: ActionId) {
    exists c :: c in made && c.action == a
  }

  ghost predicate Untouched(st: State, a: ActionId) {
    !HasCommands(st.made, a) && forall s | 0 <= s < |st.scheds| :: !Holds(st.scheds[s], a)
  }

  /** The worker is invalidating the action, and will not carry on with it. */
  predicate IsGivingUp(w: Worker, a: ActionId) {
    (w.Invalidating? || w.Invalidated?) && w.action.id == a && !w.resume
  }

  /** What one scheduler holding the action implies about the commands made so far: its file may lie around
      with commands made of it only while the worker is past them, or once the action has expired. */
  ghost predicate HeldWell(sc: Sched, a: ActionId, made: set<Command>, now: int) {
    && (sc.collector.SettingUp? && a in sc.collector.claimed ==>
          sc.collector.claimed[a].id == a && a !in sc.spool && !IsStarted(sc, a) && !HasCommands(made, a))
    && (a in sc.spool ==> sc.spool[a].id == a)
    && (a in sc.spool && (IsStarted(sc, a) || HasCommands(made, a)) ==> sc.spool[a].validFrom < now)
    && (a in sc.spool && HasCommands(made, a) ==> IsPastCommands(sc.worker, a) || sc.spool[a].expireAfter < now)
    && (WorksOn(sc.worker, a) && HasCommands(made, a) ==> IsPastCommands(sc.worker, a) || IsGivingUp(sc.worker, a))
    && (sc.worker.Upserting? || sc.worker.Creating? ==> DistinctQueues(sc.worker.targets))
    && (sc.worker.Creating? && sc.worker.action.id == a ==>
          && (sc.worker.created == 0 ==> !HasCommands(made, a))
          && forall c, i | c in made && c.action == a && 0 <= i < |sc.worker.targets| ::
               c.target.queueLoc != sc.worker.targets[i].queueLoc)
  }

  ghost predicate ActionInv(st: State, a: ActionId) {
    && (a in st.actions ==> st.actions[a].action.id == a)
    && (a !in st.seen ==> a !in st.actions && Untouched(st, a))
    && (a in st.actions && st.actions[a].status == Pending ==> Untouched(st, a))
    && (forall s, t | 0 <= s < |st.scheds| && 0 <= t < |st.scheds| ::
          Holds(st.scheds[s], a) && Holds(st.scheds[t], a) ==> s == t)
    && (forall s | 0 <= s < |st.scheds| :: HeldWell(st.scheds[s], a, st.made, st.now))
    && OnePerQueue(st.made, a)
  }

  ghost predicate OnePerQueue(made: set<Command>, a: ActionId) {
    forall c, d | c in made && d in made && c.action == a && d.action == a
      && c.target.queueLoc == d.target.queueLoc :: c == d
  }

  /** A step that only moves one scheduler on, and takes nothing new. */
  ghost predicate MovesOn(st: State, st': State, s: nat, a: ActionId)
    requires s < |st.scheds|
  {
    && |st'.scheds| == |st.scheds|
    && (forall t | 0 <= t < |st.scheds| && t != s :: st'.scheds[t] == st.scheds[t])
    && st'.seen == st.seen && st'.made == st.made && st'.now == st.now
    && (a in st'.actions ==>
          && st'.actions[a].action.id == a
          && a in st.seen
          && (st'.actions[a].status == Pending ==> a in st.actions && st.actions[a].status == Pending))
    && (Holds(st'.scheds[s], a) ==> Holds(st.scheds[s], a))
    && HeldWell(st'.scheds[s], a, st.made, st.now)
  }

  lemma MovingOnKeeps(st: State, st': State, s: nat, a: ActionId)
    requires s < |st.scheds| && MovesOn(st, st', s, a) && ActionInv(st, a)
    ensures ActionInv(st', a)
  {
    if Untouched(st, a) {
      forall t | 0 <= t < |st.scheds| ensures !Holds(st'.scheds[t], a) {
        assert !Holds(st.scheds[t], a);
      }
    }
    forall t | 0 <= t < |st.scheds| ensures HeldWell(st'.scheds[t], a, st.made, st.now) {
      assert HeldWell(st.scheds[t], a, st.made, st.now);
    }
  }

  lemma SetupKeeps(st: State, s: nat, id: ActionId, ok: bool, a: ActionId)
    requires s < |st.scheds| && ActionInv(st, a)
    requires ActionInv(st, id)
    ensures ActionInv(DoSetup(st, s, id, ok), a)
  {
    assert HeldWell(st.scheds[s], a, st.made, st.now);
    assert HeldWell(st.scheds[s], id, st.made, st.now);
    MovingOnKeeps(st, DoSetup(st, s, id, ok), s, a);
  }

  /** A step that only changes one scheduler. */
  lemma SchedKeeps(st: State, s: nat, sc: Sched, a: ActionId)
    requires s < |st.scheds| && ActionInv(st, a) && HeldWell(sc, a, st.made, st.now)
    requires Holds(sc, a) ==> Holds(st.scheds[s], a)
    ensures ActionInv(With(st, s, sc), a)
  {
    MovingOnKeeps(st, With(st, s, sc), s, a);
  }

  lemma StatusKeeps(st: State, id: ActionId, status: ActionStatus, a: ActionId)
    requires ActionInv(st, a) && status != Pending
    ensures ActionInv(SetStatus(st, id, status), a)
  {
    var st' := SetStatus(st, id, status);
    assert Untouched(st', a) == Untouched(st, a);
    forall t | 0 <= t < |st.scheds| ensures HeldWell(st'.scheds[t], a, st'.made, st'.now) {
      assert HeldWell(st.scheds[t], a, st.made, st.now);
    }
  }

  lemma VisitChanges(st: State, s: nat, id: ActionId, ok: bool)
    requires s < |st.scheds| && DoVisit(st, s, id, ok) != st
    ensures var sc, sc' := st.scheds[s], DoVisit(st, s, id, ok).scheds[s];
      && DoVisit(st, s, id, ok) == With(st, s, sc') && sc.collector.Scanning?
      && sc' == sc.(spool := sc'.spool, collector := sc'.collector)
      && (sc'.spool == sc.spool || sc'.spool == sc.spool - {id})
      && (sc'.collector.Scanning? || (&& sc'.collector.Offering? && sc'.collector.path == id && id in sc.spool
                                      && sc'.spool == sc.spool && sc.spool[id].validFrom < st.now))
  {
  }

  lemma VisitHolds(sc: Sched, sc': Sched, id: ActionId, a: ActionId, made: set<Command>, now: int)
    requires HeldWell(sc, a, made, now) && sc.collector.Scanning?
    requires sc' == sc.(spool := sc'.spool, collector := sc'.collector)
    requires sc'.spool == sc.spool || sc'.spool == sc.spool - {id}
    requires sc'.collector.Scanning? || (&& sc'.collector.Offering? && sc'.collector.path == id && id in sc.spool
                                         && sc'.spool == sc.spool && sc.spool[id].validFrom < now)
    ensures HeldWell(sc', a, made, now) && (Holds(sc', a) ==> Holds(sc, a))
  {
  }

  lemma VisitKeeps(st: State, s: nat, id: ActionId, ok: bool, a: ActionId)
    requires s < |st.scheds| && ActionInv(st, a)
    ensures ActionInv(DoVisit(st, s, id, ok), a)
  {
    var st' := DoVisit(st, s, id, ok);
    if st' != st {
      VisitChanges(st, s, id, ok);
      VisitHolds(st.scheds[s], st'.scheds[s], id, a, st.made, st.now);
      SchedKeeps(st, s, st'.scheds[s], a);
    }
  }

  /** What reading a file makes of the worker. */
  predicate IsReadAs(sc: Sched, path: ActionId, w: Worker, now: int) {
    || w == Failing(path)
    || (path in sc.spool && (|| w == Waiting
                             || (w == Invalidating(sc.spool[path], false) && sc.spool[path].expireAfter < now)
                             || (w == Targeting(sc.spool[path]) && now <= sc.spool[path].expireAfter)))
  }

  lemma ReadChanges(st: State, s: nat, ok: bool)
    requires s < |st.scheds| && st.scheds[s].worker.Reading?
    ensures var sc, sc' := st.scheds[s], DoRead(st, s, ok).scheds[s];
      && DoRead(st, s, ok) == With(st, s, sc') && sc' == sc.(worker := sc'.worker)
      && IsReadAs(sc, sc.worker.path, sc'.worker, st.now)
  {
  }

  lemma ReadHolds(sc: Sched, w: Worker, a: ActionId, made: set<Command>, now: int)
    requires sc.worker.Reading? && IsReadAs(sc, sc.worker.path, w, now)
    requires HeldWell(sc, a, made, now) && HeldWell(sc, sc.worker.path, made, now)
    ensures HeldWell(sc.(worker := w), a, made, now) && (Holds(sc.(worker := w), a) ==> Holds(sc, a))
  {
  }

  lemma ReadKeeps(st: State, s: nat, ok: bool, a: ActionId)
    requires s < |st.scheds| && ActionInv(st, a)
    requires st.scheds[s].worker.Reading? ==> ActionInv(st, st.scheds[s].worker.path)
    ensures ActionInv(DoRead(st, s, ok), a)
  {
    var sc, st' := st.scheds[s], DoRead(st, s, ok);
    if sc.worker.Reading? {
      ReadChanges(st, s, ok);
      assert HeldWell(sc, sc.worker.path, st.made, st.now);
      ReadHolds(sc, st'.scheds[s].worker, a, st.made, st.now);
      SchedKeeps(st, s, st'.scheds[s], a);
    }
  }

  /** What the answer to the query makes of the worker. */
  predicate IsQueriedAs(a: Action, w: Worker) {
    w == Failing(a.id) || w == Invalidating(a, true) || (w.Upserting? && w.action == a && DistinctQueues(w.targets))
  }

  lemma QueryChanges(st: State, s: nat, selected: set<AgentId>, picked: seq<Target>, ok: bool)
    requires s < |st.scheds| && DoQuery(st, s, selected, picked, ok) != st
    ensures var sc, sc' := st.scheds[s], DoQuery(st, s, selected, picked, ok).scheds[s];
      && DoQuery(st, s, selected, picked, ok) == With(st, s, sc') && sc' == sc.(worker := sc'.worker)
      && sc.worker.Targeting? && IsQueriedAs(sc.worker.action, sc'.worker)
  {
  }

  lemma QueryHolds(sc: Sched, w: Worker, a: ActionId, made: set<Command>, now: int)
    requires sc.worker.Targeting? && IsQueriedAs(sc.worker.action, w) && HeldWell(sc, a, made, now)
    ensures HeldWell(sc.(worker := w), a, made, now) && (Holds(sc.(worker := w), a) ==> Holds(sc, a))
  {
  }

  lemma QueryKeeps(st: State, s: nat, selected: set<AgentId>, picked: seq<Target>, ok: bool, a: ActionId)
    requires s < |st.scheds| && ActionInv(st, a)
    ensures ActionInv(DoQuery(st, s, selected, picked, ok), a)
  {
    var st' := DoQuery(st, s, selected, picked, ok);
    if st' != st {
      QueryChanges(st, s, selected, picked, ok);
      QueryHolds(st.scheds[s], st'.scheds[s].worker, a, st.made, st.now);
      SchedKeeps(st, s, st'.scheds[s], a);
    }
  }

  lemma UpsertKeeps(st: State, s: nat, ok: bool, signed: bool, a: ActionId)
    requires s < |st.scheds| && ActionInv(st, a)
    ensures ActionInv(DoUpsert(st, s, ok, signed), a)
  {
    assert HeldWell(st.scheds[s], a, st.made, st.now);
    MovingOnKeeps(st, DoUpsert(st, s, ok, signed), s, a);
  }

  /** What invalidAction makes of the scheduler up to the removal of the file. */
  predicate IsInvalidatedAs(sc: Sched, sc': Sched)
    requires sc.worker.Invalidating?
  {
    var a := sc.worker.action;
    || sc' == sc.(worker := Failing(a.id))
    || (sc' == sc.(spool := sc'.spool, worker := Invalidated(a, sc.worker.resume))
        && (sc'.spool == sc.spool || sc'.spool == sc.spool - {a.id}))
  }

  lemma InvalidateHolds(sc: Sched, sc': Sched, a: ActionId, made: set<Command>, now: int)
    requires sc.worker.Invalidating? && IsInvalidatedAs(sc, sc') && HeldWell(sc, a, made, now)
    ensures HeldWell(sc', a, made, now) && (Holds(sc', a) ==> Holds(sc, a))
  {
  }

  lemma InvalidateChanges(st: State, s: nat, ok: bool, removed: bool)
    requires s < |st.scheds| && st.scheds[s].worker.Invalidating?
    ensures var sc' := DoInvalidate(st, s, ok, removed).scheds[s];
      DoInvalidate(st, s, ok, removed) == With(st, s, sc') && IsInvalidatedAs(st.scheds[s], sc')
  {
  }

  lemma InvalidateKeeps(st: State, s: nat, ok: bool, removed: bool, a: ActionId)
    requires s < |st.scheds| && ActionInv(st, a)
    ensures ActionInv(DoInvalidate(st, s, ok, removed), a)
  {
    var st' := DoInvalidate(st, s, ok, removed);
    if st.scheds[s].worker.Invalidating? {
      InvalidateChanges(st, s, ok, removed);
      InvalidateHolds(st.scheds[s], st'.scheds[s], a, st.made, st.now);
      SchedKeeps(st, s, st'.scheds[s], a);
    }
  }

  lemma MarkInvalidHolds(sc: Sched, w: Worker, a: ActionId, made: set<Command>, now: int)
    requires sc.worker.Invalidated? && HeldWell(sc, a, made, now)
    requires || w == Failing(sc.worker.action.id)
             || w == if sc.worker.resume then Upserting(sc.worker.action, []) else Waiting
    ensures HeldWell(sc.(worker := w), a, made, now) && (Holds(sc.(worker := w), a) ==> Holds(sc, a))
  {
  }

  lemma MarkInvalidKeeps(st: State, s: nat, ok: bool, a: ActionId)
    requires s < |st.scheds| && ActionInv(st, a)
    ensures ActionInv(DoMarkInvalid(st, s, ok), a)
  {
    var sc := st.scheds[s];
    if sc.worker.Invalidated? {
      var id, next := sc.worker.action.id, if sc.worker.resume then Upserting(sc.worker.action, []) else Waiting;
      var w := if ok then next else Failing(id);
      MarkInvalidHolds(sc, w, a, st.made, st.now);
      SchedKeeps(st, s, sc.(worker := w), a);
      if ok {
        StatusKeeps(WithWorker(st, s, w), id, Invalid, a);
      }
    }
  }

  lemma CreatedAllKeeps(st: State, s: nat, a: ActionId)
    requires s < |st.scheds| && ActionInv(st, a)
    ensures ActionInv(DoCreatedAll(st, s), a)
  {
    assert HeldWell(st.scheds[s], a, st.made, st.now);
    MovingOnKeeps(st, DoCreatedAll(st, s), s, a);
  }

  lemma FlyKeeps(st: State, s: nat, ok: bool, removed: bool, a: ActionId)
    requires s < |st.scheds| && ActionInv(st, a)
    ensures ActionInv(DoFly(st, s, ok, removed), a)
  {
    assert HeldWell(st.scheds[s], a, st.made, st.now);
    MovingOnKeeps(st, DoFly(st, s, ok, removed), s, a);
  }

  predicate IsUnexpired(sc: Sched, a: ActionId, now: int) {
    a in sc.spool && now <= sc.spool[a].expireAfter
  }

  /** The worker is done with an action that has not expired and whose file is still in the spool though
      commands were made of it: the removal in flyAction failed, or the rename of the new-action loop. */
  ghost predicate LeavesFile(st: State, e: Event) {
    && (e.FlyStatus? || e.Discard?) && e.s < |st.scheds|
    && var sc := st.scheds[e.s];
       || (&& e.FlyStatus? && e.ok && sc.worker.Flown?
           && IsUnexpired(sc, sc.worker.action.id, st.now) && HasCommands(st.made, sc.worker.action.id))
       || (&& e.Discard? && !e.ok && sc.worker.Failing?
           && IsUnexpired(sc, sc.worker.path, st.now) && HasCommands(st.made, sc.worker.path))
  }

  lemma FlyStatusHolds(sc: Sched, w: Worker, a: ActionId, made: set<Command>, now: int)
    requires sc.worker.Flown? && HeldWell(sc, a, made, now)
    requires w == Failing(sc.worker.action.id)
          || (w == Waiting && !(IsUnexpired(sc, sc.worker.action.id, now) && HasCommands(made, sc.worker.action.id)))
    ensures HeldWell(sc.(worker := w), a, made, now) && (Holds(sc.(worker := w), a) ==> Holds(sc, a))
  {
  }

  lemma FlyStatusKeeps(st: State, s: nat, ok: bool, a: ActionId)
    requires s < |st.scheds| && ActionInv(st, a) && !LeavesFile(st, FlyStatus(s, ok))
    ensures ActionInv(DoFlyStatus(st, s, ok), a)
  {
    var sc := st.scheds[s];
    if sc.worker.Flown? {
      var id := sc.worker.action.id;
      var w := if ok then Waiting else Failing(id);
      FlyStatusHolds(sc, w, a, st.made, st.now);
      SchedKeeps(st, s, sc.(worker := w), a);
      if ok {
        StatusKeeps(WithWorker(st, s, w), id, InFlight, a);
      }
    }
  }

  lemma DiscardKeeps(st: State, s: nat, ok: bool, a: ActionId)
    requires s < |st.scheds| && ActionInv(st, a) && !LeavesFile(st, Discard(s, ok))
    ensures ActionInv(DoDiscard(st, s, ok), a)
  {
    assert HeldWell(st.scheds[s], a, st.made, st.now);
    MovingOnKeeps(st, DoDiscard(st, s, ok), s, a);
  }

  lemma ClaimKeeps(st: State, s: nat, read: set<ActionId>, ok: bool, a: ActionId)
    requires s < |st.scheds| && ActionInv(st, a)
    ensures ActionInv(DoClaim(st, s, read, ok), a)
  {
    var st' := DoClaim(st, s, read, ok);
    assert HeldWell(st.scheds[s], a, st.made, st.now);
    if a in st.actions && Runnable(st.actions[a], st.now) {
      assert Untouched(st, a);
      forall t | 0 <= t < |st.scheds| ensures HeldWell(st'.scheds[t], a, st.made, st.now) {
        assert HeldWell(st.scheds[t], a, st.made, st.now) && !Holds(st.scheds[t], a);
      }
      forall t | 0 <= t < |st.scheds| && t != s ensures !Holds(st'.scheds[t], a) {
        assert !Holds(st.scheds[t], a);
      }
    } else {
      MovingOnKeeps(st, st', s, a);
    }
  }

  lemma NextTargetHolds(sc: Sched, nextId: CommandId, a: ActionId, made: set<Command>, now: int)
    requires sc.worker.Creating? && sc.worker.targets != [] && HeldWell(sc, a, made, now)
    ensures var w := Creating(sc.worker.action, sc.worker.targets[1..], sc.worker.created);
      var sc' := sc.(worker := w, nextId := nextId);
      HeldWell(sc', a, made, now) && (Holds(sc', a) ==> Holds(sc, a))
  {
  }

  /** The one step that makes a command: the queue it takes was not used before. */
  lemma CreateKeeps(st: State, s: nat, gap: nat, ok: bool, a: ActionId)
    requires s < |st.scheds| && ActionInv(st, a)
    ensures ActionInv(DoCreate(st, s, gap, ok), a)
  {
    var st', sc := DoCreate(st, s, gap, ok), st.scheds[s];
    if sc.worker.Creating? && sc.worker.targets != [] {
      if !ok {
        NextTargetHolds(sc, sc.nextId + gap + 1, a, st.made, st.now);
        SchedKeeps(st, s, st'.scheds[s], a);
      } else if sc.ctr < BATCH && sc.writing == [] {
        var cmd := Command(s, sc.nextId + gap, sc.worker.action.id, sc.worker.targets[0]);
        MadeOne(st, st', s, cmd, a);
      }
    }
  }

  /** Making a command for the queue at the head of the worker's list, which then moves on. */
  lemma MadeOne(st: State, st': State, s: nat, cmd: Command, a: ActionId)
    requires s < |st.scheds| && ActionInv(st, a)
    requires |st'.scheds| == |st.scheds| && st'.seen == st.seen && st'.actions == st.actions && st'.now == st.now
    requires forall t | 0 <= t < |st.scheds| && t != s :: st'.scheds[t] == st.scheds[t]
    requires st'.made == st.made + {cmd}
    requires var sc, sc' := st.scheds[s], st'.scheds[s];
      && sc'.spool == sc.spool && sc'.collector == sc.collector
      && sc.worker.Creating? && sc'.worker.Creating? && sc.worker.targets != []
      && sc'.worker == Creating(sc.worker.action, sc.worker.targets[1..], sc.worker.created + 1)
      && cmd.action == sc.worker.action.id && cmd.target == sc.worker.targets[0]
    ensures ActionInv(st', a)
  {
    forall t | 0 <= t < |st.scheds| ensures Holds(st'.scheds[t], a) == Holds(st.scheds[t], a) {}
    assert HeldWell(st.scheds[s], a, st.made, st.now) && HeldWell(st'.scheds[s], a, st'.made, st'.now);
    if cmd.action == a {
      assert Holds(st.scheds[s], a);
    }
    forall t | 0 <= t < |st.scheds| ensures HeldWell(st'.scheds[t], a, st'.made, st'.now) {
      assert HeldWell(st.scheds[t], a, st.made, st.now);
      if cmd.action == a && t != s {
        assert !Holds(st.scheds[t], a);
      }
    }
    if Untouched(st, a) {
      assert !Holds(st.scheds[s], a);
    }
  }

  lemma AddActionKeeps(st: State, action: Action, a: ActionId)
    requires ActionInv(st, a)
    ensures ActionInv(DoAddAction(st, action), a)
  {
    var st' := DoAddAction(st, action);
    assert st'.scheds == st.scheds;
    assert Untouched(st', a) == Untouched(st, a);
  }

  lemma DropActionKeeps(st: State, s: nat, action: Action, a: ActionId)
    requires s < |st.scheds| && ActionInv(st, a)
    ensures ActionInv(DoDropAction(st, s, action), a)
  {
    var st' := DoDropAction(st, s, action);
    forall t | 0 <= t < |st.scheds| ensures HeldWell(st'.scheds[t], a, st'.made, st'.now) {
      assert HeldWell(st.scheds[t], a, st.made, st.now);
      if action.id == a && action.id !in st.seen {
        assert !Holds(st.scheds[t], a);
      }
    }
    if action.id != a {
      assert forall t | 0 <= t < |st.scheds| :: Holds(st'.scheds[t], a) == Holds(st.scheds[t], a);
    }
  }

  lemma OutsideKeeps(st: State, st': State, a: ActionId)
    requires ActionInv(st, a)
    requires st'.scheds == st.scheds && st'.actions == st.actions && st'.seen == st.seen && st'.made == st.made
    requires st'.now >= st.now
    ensures ActionInv(st', a)
  {
    assert Untouched(st', a) == Untouched(st, a);
    forall t | 0 <= t < |st.scheds| ensures HeldWell(st'.scheds[t], a, st'.made, st'.now) {
      assert HeldWell(st.scheds[t], a, st.made, st.now);
    }
  }

  lemma ScanKeeps(st: State, s: nat, ok: bool, a: ActionId)
    requires s < |st.scheds| && ActionInv(st, a)
    ensures ActionInv(DoScan(st, s, ok), a)
  {
    assert HeldWell(st.scheds[s], a, st.made, st.now);
    MovingOnKeeps(st, DoScan(st, s, ok), s, a);
  }

  lemma EndScanKeeps(st: State, s: nat, a: ActionId)
    requires s < |st.scheds| && ActionInv(st, a)
    ensures ActionInv(DoEndScan(st, s), a)
  {
    assert HeldWell(st.scheds[s], a, st.made, st.now);
    MovingOnKeeps(st, DoEndScan(st, s), s, a);
  }

  lemma TakeKeeps(st: State, s: nat, a: ActionId)
    requires s < |st.scheds| && ActionInv(st, a)
    ensures ActionInv(DoTake(st, s), a)
  {
    assert HeldWell(st.scheds[s], a, st.made, st.now);
    MovingOnKeeps(st, DoTake(st, s), s, a);
  }

  /** The sender and the updater touch neither the spool nor what collector and worker hold. */
  lemma SideStepKeeps(st: State, st': State, s: nat, a: ActionId)
    requires s < |st.scheds| && ActionInv(st, a)
    requires |st'.scheds| == |st.scheds| && st'.seen == st.seen && st'.made == st.made && st'.now == st.now
    requires forall t | 0 <= t < |st.scheds| && t != s :: st'.scheds[t] == st.scheds[t]
    requires var sc, sc' := st.scheds[s], st'.scheds[s];
      sc'.spool == sc.spool && sc'.collector == sc.collector && sc'.worker == sc.worker
    requires a in st'.actions ==> a in st.actions && st'.actions[a].action == st.actions[a].action
    requires a in st'.actions && st'.actions[a].status == Pending ==> st.actions[a].status == Pending
    ensures ActionInv(st', a)
  {
    assert HeldWell(st.scheds[s], a, st.made, st.now);
    MovingOnKeeps(st, st', s, a);
  }

  lemma FlushKeeps(st: State, s: nat, order: seq<Command>, ok: bool, a: ActionId)
    requires s < |st.scheds| && ActionInv(st, a)
    ensures ActionInv(DoFlush(st, s, order, ok), a)
  {
    SideStepKeeps(st, DoFlush(st, s, order, ok), s, a);
  }

  lemma WriteKeeps(st: State, s: nat, ok: bool, a: ActionId)
    requires s < |st.scheds| && ActionInv(st, a)
    ensures ActionInv(DoWrite(st, s, ok), a)
  {
    SideStepKeeps(st, DoWrite(st, s, ok), s, a);
  }

  lemma TallyKeeps(st: State, s: nat, id: ActionId, a: ActionId)
    requires s < |st.scheds| && ActionInv(st, a)
    ensures ActionInv(DoTally(st, s, id), a)
  {
    SideStepKeeps(st, DoTally(st, s, id), s, a);
  }

  lemma LandKeeps(st: State, s: nat, ok: bool, a: ActionId)
    requires s < |st.scheds| && ActionInv(st, a)
    ensures ActionInv(DoLand(st, s, ok), a)
  {
    SideStepKeeps(st, DoLand(st, s, ok), s, a);
  }

  ghost predicate AllActions(st: State) {
    forall b :: ActionInv(st, b)
  }

  lemma CollectorStepKeeps(st: State, e: Event, a: ActionId)
    requires e.Claim? || e.Setup? || e.Scan? || e.Visit? || e.EndScan? || e.Take?
    requires Addressed(st, e) && ActionInv(st, a) && (e.Setup? ==> ActionInv(st, e.id))
    ensures ActionInv(Step(st, e), a)
  {
    match e {
      case Claim(s, read, ok) => ClaimKeeps(st, s, read, ok, a);
      case Setup(s, id, ok) => SetupKeeps(st, s, id, ok, a);
      case Scan(s, ok) => ScanKeeps(st, s, ok, a);
      case Visit(s, id, ok) => VisitKeeps(st, s, id, ok, a);
      case EndScan(s) => EndScanKeeps(st, s, a);
      case Take(s) => TakeKeeps(st, s, a);
    }
  }

  lemma PreparationStepKeeps(st: State, e: Event, a: ActionId)
    requires e.Read? || e.Query? || e.Invalidate? || e.MarkInvalid?
    requires Addressed(st, e) && ActionInv(st, a)
    requires e.Read? && st.scheds[e.s].worker.Reading? ==> ActionInv(st, st.scheds[e.s].worker.path)
    ensures ActionInv(Step(st, e), a)
  {
    match e {
      case Read(s, ok) => ReadKeeps(st, s, ok, a);
      case Query(s, selected, picked, ok) => QueryKeeps(st, s, selected, picked, ok, a);
      case Invalidate(s, ok, removed) => InvalidateKeeps(st, s, ok, removed, a);
      case MarkInvalid(s, ok) => MarkInvalidKeeps(st, s, ok, a);
    }
  }

  lemma CreationStepKeeps(st: State, e: Event, a: ActionId)
    requires e.Upsert? || e.Create? || e.CreatedAll?
    requires Addressed(st, e) && ActionInv(st, a)
    ensures ActionInv(Step(st, e), a)
  {
    match e {
      case Upsert(s, ok, signed) => UpsertKeeps(st, s, ok, signed, a);
      case Create(s, gap, ok) => CreateKeeps(st, s, gap, ok, a);
      case CreatedAll(s) => CreatedAllKeeps(st, s, a);
    }
  }

  lemma OutcomeStepKeeps(st: State, e: Event, a: ActionId)
    requires e.Fly? || e.FlyStatus? || e.Discard?
    requires Addressed(st, e) && ActionInv(st, a) && !LeavesFile(st, e)
    ensures ActionInv(Step(st, e), a)
  {
    match e {
      case Fly(s, ok, removed) => FlyKeeps(st, s, ok, removed, a);
      case FlyStatus(s, ok) => FlyStatusKeeps(st, s, ok, a);
      case Discard(s, ok) => DiscardKeeps(st, s, ok, a);
    }
  }

  lemma SendingStepKeeps(st: State, e: Event, a: ActionId)
    requires (e.Flush? || e.Write?) && Addressed(st, e) && ActionInv(st, a)
    ensures ActionInv(Step(st, e), a)
  {
    match e {
      case Flush(s, order, ok) => FlushKeeps(st, s, order, ok, a);
      case Write(s, ok) => WriteKeeps(st, s, ok, a);
    }
  }

  lemma UpdatingStepKeeps(st: State, e: Event, a: ActionId)
    requires (e.Tally? || e.Land?) && Addressed(st, e) && ActionInv(st, a)
    ensures ActionInv(Step(st, e), a)
  {
    match e {
      case Tally(s, id) => TallyKeeps(st, s, id, a);
      case Land(s, ok) => LandKeeps(st, s, ok, a);
    }
  }

  lemma AddingStepKeeps(st: State, e: Event, a: ActionId)
    requires (e.AddAction? || e.DropAction?) && Addressed(st, e) && ActionInv(st, a)
    ensures ActionInv(Step(st, e), a)
  {
    match e {
      case AddAction(action) => AddActionKeeps(st, action, a);
      case DropAction(s, action) => DropActionKeeps(st, s, action, a);
    }
  }

  lemma OutsideStepKeeps(st: State, e: Event, a: ActionId)
    requires (e.SetAgents? || e.Tick? || e.Finish? || e.Publish?) && ActionInv(st, a)
    ensures ActionInv(Step(st, e), a)
  {
    OutsideKeeps(st, Step(st, e), a);
  }

  lemma StepKeepsActions(st: State, e: Event)
    requires AllActions(st) && !LeavesFile(st, e)
    ensures AllActions(Step(st, e))
  {
    if Addressed(st, e) {
      forall a ensures ActionInv(Step(st, e), a) {
        if e.Claim? || e.Setup? || e.Scan? || e.Visit? || e.EndScan? || e.Take? {
          CollectorStepKeeps(st, e, a);
        } else if e.Read? || e.Query? || e.Invalidate? || e.MarkInvalid? {
          PreparationStepKeeps(st, e, a);
        } else if e.Upsert? || e.Create? || e.CreatedAll? {
          CreationStepKeeps(st, e, a);
        } else if e.Fly? || e.FlyStatus? || e.Discard? {
          OutcomeStepKeeps(st, e, a);
        } else if e.Flush? || e.Write? {
          SendingStepKeeps(st, e, a);
        } else if e.Tally? || e.Land? {
          UpdatingStepKeeps(st, e, a);
        } else if e.AddAction? || e.DropAction? {
          AddingStepKeeps(st, e, a);
        } else {
          OutsideStepKeeps(st, e, a);
        }
      }
    }
  }

  // ----- every run -----

  lemma InitActions(n: nat, now: int)
    ensures AllActions(Init(n, now))
  {
    var st := Init(n, now);
    forall s | 0 <= s < n ensures st.scheds[s] == FreshSched() {}
    forall a ensures ActionInv(st, a) {}
  }

  lemma {:induction false} RunKeepsActions(n: nat, now: int, events: seq<Event>)
    requires !Ever(Init(n, now), events, LeavesFile)
    ensures AllActions(Run(Init(n, now), events))
    decreases |events|
  {
    if events == [] {
      InitActions(n, now);
    } else {
      var before := events[..|events| - 1];
      EverGrows(Init(n, now), events, LeavesFile);
      RunKeepsActions(n, now, before);
      StepKeepsActions(Run(Init(n, now), before), events[|events| - 1]);
    }
  }

  /** At-most-once dispatch, over every interleaving of any number of schedulers in which no worker leaves
      the file of an unexpired action with commands in the spool: no two publications are for the same action and
      the same endpoint queue, and the same holds of all commands made. */
  lemma AtMostOnceDispatch(n: nat, now: int, events: seq<Event>)
    requires !Ever(Init(n, now), events, LeavesFile)
    ensures var st := Run(Init(n, now), events);
      && (forall i, j | 0 <= i < j < |st.published| ::
            !(&& st.published[i].action == st.published[j].action
              && st.published[i].target.queueLoc == st.published[j].target.queueLoc))
      && (forall c, d | c in st.made && d in st.made && c != d ::
            !(c.action == d.action && c.target.queueLoc == d.target.queueLoc))
  {
    RunKeepsActions(n, now, events);
    NoCommandLostOrDoubled(n, now, events);
    var st := Run(Init(n, now), events);
    forall c, d | c in st.made && d in st.made && c.action == d.action && c.target.queueLoc == d.target.queueLoc
      ensures c == d
    {
      assert ActionInv(st, c.action);
    }
    forall i | 0 <= i < |st.published| ensures st.published[i] in st.made {
      assert Places(st, st.published[i]) == One(st.published[i] in st.made);
    }
  }

  // ----- runs in which every removal succeeds -----

  /** The two removals whose errors the code ignores after commands have been made. */
  predicate Removes(e: Event) {
    (e.Fly? ==> e.removed) && (e.Discard? ==> e.ok)
  }

  predicate FlownIsGone(sc: Sched) {
    sc.worker.Flown? ==> sc.worker.action.id !in sc.spool
  }

  lemma SetupKeepsFlownGone(st: State, s: nat, id: ActionId, ok: bool)
    requires s < |st.scheds| && AllActions(st) && FlownIsGone(st.scheds[s])
    ensures FlownIsGone(DoSetup(st, s, id, ok).scheds[s])
  {
    assert ActionInv(st, id) && HeldWell(st.scheds[s], id, st.made, st.now);
  }

  lemma DropActionKeepsFlownGone(st: State, s: nat, a: Action)
    requires s < |st.scheds| && AllActions(st) && FlownIsGone(st.scheds[s])
    ensures FlownIsGone(DoDropAction(st, s, a).scheds[s])
  {
    assert ActionInv(st, a.id);
    assert a.id !in st.seen ==> !Holds(st.scheds[s], a.id);
  }

  lemma FilingElsewhereKeepsFlownGone(st: State, e: Event, s: nat)
    requires s < |st.scheds| && FlownIsGone(st.scheds[s]) && (e.Setup? || e.DropAction?) && e.s != s
    ensures s < |Step(st, e).scheds| && FlownIsGone(Step(st, e).scheds[s])
  {
  }

  lemma ClaimingKeepsFlownGone(st: State, e: Event, s: nat)
    requires s < |st.scheds| && FlownIsGone(st.scheds[s]) && e.Claim?
    ensures s < |Step(st, e).scheds| && FlownIsGone(Step(st, e).scheds[s])
  {
  }

  lemma VisitingKeepsFlownGone(st: State, e: Event, s: nat)
    requires s < |st.scheds| && FlownIsGone(st.scheds[s]) && e.Visit?
    ensures s < |Step(st, e).scheds| && FlownIsGone(Step(st, e).scheds[s])
  {
    if e.s < |st.scheds| && DoVisit(st, e.s, e.id, e.ok) != st {
      VisitChanges(st, e.s, e.id, e.ok);
    }
  }

  lemma ScanningKeepsFlownGone(st: State, e: Event, s: nat)
    requires s < |st.scheds| && FlownIsGone(st.scheds[s]) && (e.Scan? || e.EndScan? || e.Take?)
    ensures s < |Step(st, e).scheds| && FlownIsGone(Step(st, e).scheds[s])
  {
  }

  lemma ReadingKeepsFlownGone(st: State, e: Event, s: nat)
    requires s < |st.scheds| && FlownIsGone(st.scheds[s]) && e.Read?
    ensures s < |Step(st, e).scheds| && FlownIsGone(Step(st, e).scheds[s])
  {
  }

  lemma QueryingKeepsFlownGone(st: State, e: Event, s: nat)
    requires s < |st.scheds| && FlownIsGone(st.scheds[s]) && e.Query?
    ensures s < |Step(st, e).scheds| && FlownIsGone(Step(st, e).scheds[s])
  {
  }

  lemma InvalidatingKeepsFlownGone(st: State, e: Event, s: nat)
    requires s < |st.scheds| && FlownIsGone(st.scheds[s]) && e.Invalidate?
    ensures s < |Step(st, e).scheds| && FlownIsGone(Step(st, e).scheds[s])
  {
  }

  lemma MarkingKeepsFlownGone(st: State, e: Event, s: nat)
    requires s < |st.scheds| && FlownIsGone(st.scheds[s]) && e.MarkInvalid?
    ensures s < |Step(st, e).scheds| && FlownIsGone(Step(st, e).scheds[s])
  {
  }

  lemma UpsertingKeepsFlownGone(st: State, e: Event, s: nat)
    requires s < |st.scheds| && FlownIsGone(st.scheds[s]) && e.Upsert?
    ensures s < |Step(st, e).scheds| && FlownIsGone(Step(st, e).scheds[s])
  {
  }

  lemma CreatingKeepsFlownGone(st: State, e: Event, s: nat)
    requires s < |st.scheds| && FlownIsGone(st.scheds[s]) && e.Create?
    ensures s < |Step(st, e).scheds| && FlownIsGone(Step(st, e).scheds[s])
  {
  }

  lemma FinishingCreationKeepsFlownGone(st: State, e: Event, s: nat)
    requires s < |st.scheds| && FlownIsGone(st.scheds[s]) && e.CreatedAll?
    ensures s < |Step(st, e).scheds| && FlownIsGone(Step(st, e).scheds[s])
  {
  }

  lemma FlyingKeepsFlownGone(st: State, e: Event, s: nat)
    requires s < |st.scheds| && FlownIsGone(st.scheds[s]) && e.Fly? && Removes(e)
    ensures s < |Step(st, e).scheds| && FlownIsGone(Step(st, e).scheds[s])
  {
  }

  lemma FlyingStatusKeepsFlownGone(st: State, e: Event, s: nat)
    requires s < |st.scheds| && FlownIsGone(st.scheds[s]) && e.FlyStatus?
    ensures s < |Step(st, e).scheds| && FlownIsGone(Step(st, e).scheds[s])
  {
  }

  lemma DiscardingKeepsFlownGone(st: State, e: Event, s: nat)
    requires s < |st.scheds| && FlownIsGone(st.scheds[s]) && e.Discard?
    ensures s < |Step(st, e).scheds| && FlownIsGone(Step(st, e).scheds[s])
  {
  }

  lemma FlushingKeepsFlownGone(st: State, e: Event, s: nat)
    requires s < |st.scheds| && FlownIsGone(st.scheds[s]) && e.Flush?
    ensures s < |Step(st, e).scheds| && FlownIsGone(Step(st, e).scheds[s])
  {
  }

  lemma WritingKeepsFlownGone(st: State, e: Event, s: nat)
    requires s < |st.scheds| && FlownIsGone(st.scheds[s]) && e.Write?
    ensures s < |Step(st, e).scheds| && FlownIsGone(Step(st, e).scheds[s])
  {
  }

  lemma PublishingKeepsFlownGone(st: State, e: Event, s: nat)
    requires s < |st.scheds| && FlownIsGone(st.scheds[s]) && e.Publish?
    ensures s < |Step(st, e).scheds| && FlownIsGone(Step(st, e).scheds[s])
  {
  }

  lemma TallyingKeepsFlownGone(st: State, e: Event, s: nat)
    requires s < |st.scheds| && FlownIsGone(st.scheds[s]) && e.Tally?
    ensures s < |Step(st, e).scheds| && FlownIsGone(Step(st, e).scheds[s])
  {
  }

  lemma LandingKeepsFlownGone(st: State, e: Event, s: nat)
    requires s < |st.scheds| && FlownIsGone(st.scheds[s]) && e.Land?
    ensures s < |Step(st, e).scheds| && FlownIsGone(Step(st, e).scheds[s])
  {
  }

  lemma FinishingKeepsFlownGone(st: State, e: Event, s: nat)
    requires s < |st.scheds| && FlownIsGone(st.scheds[s]) && e.Finish?
    ensures s < |Step(st, e).scheds| && FlownIsGone(Step(st, e).scheds[s])
  {
  }

  lemma AddingKeepsFlownGone(st: State, e: Event, s: nat)
    requires s < |st.scheds| && FlownIsGone(st.scheds[s]) && (e.AddAction? || e.SetAgents? || e.Tick?)
    ensures s < |Step(st, e).scheds| && FlownIsGone(Step(st, e).scheds[s])
  {
  }

  lemma StepKeepsFlownGone(st: State, e: Event, s: nat)
    requires s < |st.scheds| && AllActions(st) && FlownIsGone(st.scheds[s]) && Removes(e)
    ensures s < |Step(st, e).scheds| && FlownIsGone(Step(st, e).scheds[s])
  {
    match e {
      case Setup(t, id, ok) =>
        if t == s { SetupKeepsFlownGone(st, s, id, ok); } else { FilingElsewhereKeepsFlownGone(st, e, s); }
      case DropAction(t, a) =>
        if t == s { DropActionKeepsFlownGone(st, s, a); } else { FilingElsewhereKeepsFlownGone(st, e, s); }
      case Claim(_, _, _) => ClaimingKeepsFlownGone(st, e, s);
      case Visit(_, _, _) => VisitingKeepsFlownGone(st, e, s);
      case Scan(_, _) | EndScan(_) | Take(_) => ScanningKeepsFlownGone(st, e, s);
      case Read(_, _) => ReadingKeepsFlownGone(st, e, s);
      case Query(_, _, _, _) => QueryingKeepsFlownGone(st, e, s);
      case Invalidate(_, _, _) => InvalidatingKeepsFlownGone(st, e, s);
      case MarkInvalid(_, _) => MarkingKeepsFlownGone(st, e, s);
      case Upsert(_, _, _) => UpsertingKeepsFlownGone(st, e, s);
      case Create(_, _, _) => CreatingKeepsFlownGone(st, e, s);
      case CreatedAll(_) => FinishingCreationKeepsFlownGone(st, e, s);
      case Fly(_, _, _) => FlyingKeepsFlownGone(st, e, s);
      case FlyStatus(_, _) => FlyingStatusKeepsFlownGone(st, e, s);
      case Discard(_, _) => DiscardingKeepsFlownGone(st, e, s);
      case Flush(_, _, _) => FlushingKeepsFlownGone(st, e, s);
      case Write(_, _) => WritingKeepsFlownGone(st, e, s);
      case Publish(_, _) => PublishingKeepsFlownGone(st, e, s);
      case Tally(_, _) => TallyingKeepsFlownGone(st, e, s);
      case Land(_, _) => LandingKeepsFlownGone(st, e, s);
      case Finish(_) => FinishingKeepsFlownGone(st, e, s);
      case AddAction(_) | SetAgents(_) | Tick(_) => AddingKeepsFlownGone(st, e, s);
    }
  }

  lemma {:induction false} RemovingLeavesNothing(n: nat, now: int, events: seq<Event>)
    requires forall e | e in events :: Removes(e)
    ensures !Ever(Init(n, now), events, LeavesFile)
    ensures |Run(Init(n, now), events).scheds| == n
    ensures forall s | 0 <= s < n :: FlownIsGone(Run(Init(n, now), events).scheds[s])
    decreases |events|
  {
    if events != [] {
      var before, e := events[..|events| - 1], events[|events| - 1];
      var st := Run(Init(n, now), before);
      RemovingLeavesNothing(n, now, before);
      RunKeepsActions(n, now, before);
      EverGrows(Init(n, now), events, LeavesFile);
      StepPersists(st, e);
      forall s | 0 <= s < n ensures FlownIsGone(Step(st, e).scheds[s]) {
        StepKeepsFlownGone(st, e, s);
      }
      assert Removes(e) && e in events;
    }
  }

  /** In particular nothing is dispatched twice in a run in which no removal or rename of an action file
      fails in flyAction and in the new-action loop, whatever else fails. */
  lemma AtMostOnceWhenFilesAreRemoved(n: nat, now: int, events: seq<Event>)
    requires forall e | e in events :: Removes(e)
    ensures var st := Run(Init(n, now), events);
      forall c, d | c in st.made && d in st.made && c != d ::
        !(c.action == d.action && c.target.queueLoc == d.target.queueLoc)
  {
    RemovingLeavesNothing(n, now, events);
    AtMostOnceDispatch(n, now, events);
  }
}
