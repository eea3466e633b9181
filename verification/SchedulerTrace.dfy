/** The steps a goroutine of a scheduler and all others take together, and what can be read off them. */
module SchedulerTrace {
  import opened Common
  import opened CommandTable
  import opened Scheduler
  import opened SchedulerRuns
  import SchedulerConservation
  import SchedulerSafety

  datatype Role = NewActions | Updates | Claims

  /** Events of one goroutine of scheduler s. */
  predicate Own(e: Event, s: nat, role: Role) {
    match role
    case NewActions =>
      && (|| e.Take? || e.Read? || e.Query? || e.Invalidate? || e.MarkInvalid? || e.Upsert? || e.Create?
          || e.CreatedAll? || e.Fly? || e.FlyStatus? || e.Discard?)
      && e.s == s
    case Updates => (e.Tally? || e.Land?) && e.s == s
    case Claims => (e.Claim? || e.Setup? || e.Scan? || e.Visit? || e.EndScan? || e.Take?) && e.s == s
  }

  /** What no other goroutine changes. */
  predicate SameOwn(sc: Sched, sc': Sched, role: Role) {
    match role
    case NewActions => sc'.worker == sc.worker
    case Updates => sc'.updater == sc.updater
    case Claims => sc'.collector == sc.collector
  }

  lemma ClaimingLeavesOwn(st: State, e: Event, s: nat, role: Role)
    requires s < |st.scheds| && !Own(e, s, role) && (e.Claim? || e.Setup?)
    ensures |Step(st, e).scheds| == |st.scheds| && SameOwn(st.scheds[s], Step(st, e).scheds[s], role)
  {
  }

  lemma ScanningLeavesOwn(st: State, e: Event, s: nat, role: Role)
    requires s < |st.scheds| && !Own(e, s, role) && e.Scan?
    ensures |Step(st, e).scheds| == |st.scheds| && SameOwn(st.scheds[s], Step(st, e).scheds[s], role)
  {
  }

  lemma VisitLeavesOwn(st: State, e: Event, s: nat, role: Role)
    requires s < |st.scheds| && !Own(e, s, role) && e.Visit?
    ensures |Step(st, e).scheds| == |st.scheds| && SameOwn(st.scheds[s], Step(st, e).scheds[s], role)
  {
  }

  lemma OfferingLeavesOwn(st: State, e: Event, s: nat, role: Role)
    requires s < |st.scheds| && !Own(e, s, role) && (e.EndScan? || e.Take?)
    ensures |Step(st, e).scheds| == |st.scheds| && SameOwn(st.scheds[s], Step(st, e).scheds[s], role)
  {
  }

  lemma ReadingLeavesOwn(st: State, e: Event, s: nat, role: Role)
    requires s < |st.scheds| && !Own(e, s, role) && e.Read?
    ensures |Step(st, e).scheds| == |st.scheds| && SameOwn(st.scheds[s], Step(st, e).scheds[s], role)
  {
  }

  lemma QueryLeavesOwn(st: State, e: Event, s: nat, role: Role)
    requires s < |st.scheds| && !Own(e, s, role) && e.Query?
    ensures |Step(st, e).scheds| == |st.scheds| && SameOwn(st.scheds[s], Step(st, e).scheds[s], role)
  {
  }

  lemma InvalidationLeavesOwn(st: State, e: Event, s: nat, role: Role)
    requires s < |st.scheds| && !Own(e, s, role) && e.Invalidate?
    ensures |Step(st, e).scheds| == |st.scheds| && SameOwn(st.scheds[s], Step(st, e).scheds[s], role)
  {
  }

  lemma MarkingLeavesOwn(st: State, e: Event, s: nat, role: Role)
    requires s < |st.scheds| && !Own(e, s, role) && e.MarkInvalid?
    ensures |Step(st, e).scheds| == |st.scheds| && SameOwn(st.scheds[s], Step(st, e).scheds[s], role)
  {
  }

  lemma UpsertLeavesOwn(st: State, e: Event, s: nat, role: Role)
    requires s < |st.scheds| && !Own(e, s, role) && (e.Upsert? || e.Discard?)
    ensures |Step(st, e).scheds| == |st.scheds| && SameOwn(st.scheds[s], Step(st, e).scheds[s], role)
  {
  }

  lemma CreationLeavesOwn(st: State, e: Event, s: nat, role: Role)
    requires s < |st.scheds| && !Own(e, s, role) && e.Create?
    ensures |Step(st, e).scheds| == |st.scheds| && SameOwn(st.scheds[s], Step(st, e).scheds[s], role)
  {
  }

  lemma CreationEndLeavesOwn(st: State, e: Event, s: nat, role: Role)
    requires s < |st.scheds| && !Own(e, s, role) && e.CreatedAll?
    ensures |Step(st, e).scheds| == |st.scheds| && SameOwn(st.scheds[s], Step(st, e).scheds[s], role)
  {
  }

  lemma FlightLeavesOwn(st: State, e: Event, s: nat, role: Role)
    requires s < |st.scheds| && !Own(e, s, role) && e.Fly?
    ensures |Step(st, e).scheds| == |st.scheds| && SameOwn(st.scheds[s], Step(st, e).scheds[s], role)
  {
  }

  lemma FlightStatusLeavesOwn(st: State, e: Event, s: nat, role: Role)
    requires s < |st.scheds| && !Own(e, s, role) && e.FlyStatus?
    ensures |Step(st, e).scheds| == |st.scheds| && SameOwn(st.scheds[s], Step(st, e).scheds[s], role)
  {
  }

  lemma FlushLeavesOwn(st: State, e: Event, s: nat, role: Role)
    requires s < |st.scheds| && !Own(e, s, role) && e.Flush?
    ensures |Step(st, e).scheds| == |st.scheds| && SameOwn(st.scheds[s], Step(st, e).scheds[s], role)
  {
  }

  lemma WriteLeavesOwn(st: State, e: Event, s: nat, role: Role)
    requires s < |st.scheds| && !Own(e, s, role) && e.Write?
    ensures |Step(st, e).scheds| == |st.scheds| && SameOwn(st.scheds[s], Step(st, e).scheds[s], role)
  {
  }

  lemma PublicationLeavesOwn(st: State, e: Event, s: nat, role: Role)
    requires s < |st.scheds| && !Own(e, s, role) && e.Publish?
    ensures |Step(st, e).scheds| == |st.scheds| && SameOwn(st.scheds[s], Step(st, e).scheds[s], role)
  {
  }

  lemma TallyLeavesOwn(st: State, e: Event, s: nat, role: Role)
    requires s < |st.scheds| && !Own(e, s, role) && e.Tally?
    ensures |Step(st, e).scheds| == |st.scheds| && SameOwn(st.scheds[s], Step(st, e).scheds[s], role)
  {
  }

  lemma LandingLeavesOwn(st: State, e: Event, s: nat, role: Role)
    requires s < |st.scheds| && !Own(e, s, role) && e.Land?
    ensures |Step(st, e).scheds| == |st.scheds| && SameOwn(st.scheds[s], Step(st, e).scheds[s], role)
  {
  }

  lemma FinishLeavesOwn(st: State, e: Event, s: nat, role: Role)
    requires s < |st.scheds| && !Own(e, s, role) && e.Finish?
    ensures |Step(st, e).scheds| == |st.scheds| && SameOwn(st.scheds[s], Step(st, e).scheds[s], role)
  {
  }

  lemma AddingLeavesOwn(st: State, e: Event, s: nat, role: Role)
    requires s < |st.scheds| && !Own(e, s, role) && (e.AddAction? || e.DropAction? || e.SetAgents? || e.Tick?)
    ensures |Step(st, e).scheds| == |st.scheds| && SameOwn(st.scheds[s], Step(st, e).scheds[s], role)
  {
  }

  lemma OthersLeaveOwn(st: State, e: Event, s: nat, role: Role)
    requires s < |st.scheds| && !Own(e, s, role)
    ensures |Step(st, e).scheds| == |st.scheds| && SameOwn(st.scheds[s], Step(st, e).scheds[s], role)
  {
    match e {
      case Claim(_, _, _) | Setup(_, _, _) => ClaimingLeavesOwn(st, e, s, role);
      case Scan(_, _) => ScanningLeavesOwn(st, e, s, role);
      case Visit(_, _, _) => VisitLeavesOwn(st, e, s, role);
      case EndScan(_) | Take(_) => OfferingLeavesOwn(st, e, s, role);
      case Read(_, _) => ReadingLeavesOwn(st, e, s, role);
      case Query(_, _, _, _) => QueryLeavesOwn(st, e, s, role);
      case Invalidate(_, _, _) => InvalidationLeavesOwn(st, e, s, role);
      case MarkInvalid(_, _) => MarkingLeavesOwn(st, e, s, role);
      case Upsert(_, _, _) | Discard(_, _) => UpsertLeavesOwn(st, e, s, role);
      case Create(_, _, _) => CreationLeavesOwn(st, e, s, role);
      case CreatedAll(_) => CreationEndLeavesOwn(st, e, s, role);
      case Fly(_, _, _) => FlightLeavesOwn(st, e, s, role);
      case FlyStatus(_, _) => FlightStatusLeavesOwn(st, e, s, role);
      case Flush(_, _, _) => FlushLeavesOwn(st, e, s, role);
      case Write(_, _) => WriteLeavesOwn(st, e, s, role);
      case Publish(_, _) => PublicationLeavesOwn(st, e, s, role);
      case Tally(_, _) => TallyLeavesOwn(st, e, s, role);
      case Land(_, _) => LandingLeavesOwn(st, e, s, role);
      case Finish(_) => FinishLeavesOwn(st, e, s, role);
      case AddAction(_) | DropAction(_, _) | SetAgents(_) | Tick(_) => AddingLeavesOwn(st, e, s, role);
    }
  }

  // ----- what has happened -----

  /** One step of the run so far. */
  datatype Moment = Moment(state: State, event: Event, next: State)

  predicate KeepsRows(before: State, after: State) {
    forall a | a in before.actions :: a in after.actions
  }

  predicate IsStep(m: Moment) {
    m.next == Step(m.state, m.event)
  }

  /** The steps of a run from init to st. */
  ghost predicate IsTrace(init: State, trace: seq<Moment>, st: State) {
    && (forall m {:trigger IsStep(m)} | m in trace :: IsStep(m))
    && (forall k {:trigger Reached(init, trace, k)} | 0 <= k < |trace| :: trace[k].state == Reached(init, trace, k))
    && st == Reached(init, trace, |trace|)
  }

  /** The state after k steps. */
  function Reached(init: State, trace: seq<Moment>, k: nat): State
    requires k <= |trace|
  {
    if k == 0 then init else trace[k - 1].next
  }

  lemma OneMoreStep(init: State, trace: seq<Moment>, st: State, e: Event)
    requires IsTrace(init, trace, st)
    ensures IsTrace(init, trace + [Moment(st, e, Step(st, e))], Step(st, e))
  {
    var m := Moment(st, e, Step(st, e));
    var more := trace + [m];
    assert IsStep(m);
    forall k | 0 <= k < |more| ensures more[k].state == Reached(init, more, k) {
      assert Reached(init, more, k) == Reached(init, trace, k);
    }
  }

  lemma PrefixIsTrace(init: State, trace: seq<Moment>, st: State, k: nat)
    requires IsTrace(init, trace, st) && k < |trace|
    ensures IsTrace(init, trace[..k], trace[k].state) && IsStep(trace[k])
  {
    var before := trace[..k];
    assert trace[k] in trace;
    forall m | m in before ensures IsStep(m) { assert m in trace; }
    forall i | 0 <= i <= k ensures Reached(init, before, i) == Reached(init, trace, i) {}
    assert trace[k].state == Reached(init, trace, k);
  }

  function Events(trace: seq<Moment>): seq<Event> {
    seq(|trace|, i requires 0 <= i < |trace| => trace[i].event)
  }

  /** No row of the actions table is removed on the way. */
  lemma {:induction false} RowsStay(init: State, before: seq<Moment>, was: State, now: seq<Moment>, st: State)
    requires before <= now && IsTrace(init, before, was) && IsTrace(init, now, st)
    ensures KeepsRows(was, st)
    decreases |now|
  {
    if |before| == |now| {
      assert before == now;
    } else {
      var last := now[|now| - 1];
      PrefixIsTrace(init, now, st, |now| - 1);
      RowsStay(init, before, was, now[..|now| - 1], last.state);
      LastStep(init, now, st);
    }
  }

  lemma LastStep(init: State, trace: seq<Moment>, st: State)
    requires IsTrace(init, trace, st) && trace != []
    ensures KeepsRows(trace[|trace| - 1].state, st)
  {
    var last := trace[|trace| - 1];
    assert last in trace && IsStep(last);
    StepPersists(last.state, last.event);
  }

  lemma EventsOfPrefix(trace: seq<Moment>, k: nat)
    requires k <= |trace|
    ensures Events(trace[..k]) == Events(trace)[..k]
  {
  }

  lemma {:induction false} TraceIsRun(init: State, trace: seq<Moment>, st: State)
    requires IsTrace(init, trace, st)
    ensures Run(init, Events(trace)) == st
  {
    if trace != [] {
      var before, last := trace[..|trace| - 1], trace[|trace| - 1];
      PrefixIsTrace(init, trace, st, |before|);
      TraceIsRun(init, before, last.state);
      EventsOfPrefix(trace, |before|);
      assert Events(trace) == Events(before) + [last.event];
      RunThen(init, Events(before), last.event);
    }
  }

  lemma TraceHasStates(init: State, trace: seq<Moment>, st: State, k: nat)
    requires IsTrace(init, trace, st) && k < |trace|
    ensures StateAt(init, Events(trace), k) == trace[k].state
  {
    PrefixIsTrace(init, trace, st, k);
    EventsOfPrefix(trace, k);
    TraceIsRun(init, trace[..k], trace[k].state);
  }

  /** Events of one goroutine are nowhere in the trace since from. */
  ghost predicate NoneOwn(trace: seq<Moment>, from: nat, s: nat, role: Role) {
    forall k | from <= k < |trace| :: !Own(trace[k].event, s, role)
  }

  predicate IsCreation(e: Event, s: nat) {
    e.Create? && e.s == s
  }

  /** Scheduler s tries to make a command of an action for a target: if that succeeds, exactly one new
      command is made, for that target; else none is. */
  ghost predicate IsAttempt(m: Moment, s: nat, action: Action, t: Target) {
    && IsCreation(m.event, s)
    && if m.event.ok then MakesOne(m.state.made, m.next.made, s, action, t) else m.next.made == m.state.made
  }

  ghost predicate MakesOne(before: set<Command>, after: set<Command>, s: nat, action: Action, t: Target) {
    exists id :: Command(s, id, action.id, t) !in before && after == before + {Command(s, id, action.id, t)}
  }

  /** What scheduler s has tried, in order. */
  ghost function Tries(trace: seq<Moment>, s: nat): seq<Moment> {
    if trace == [] then []
    else
      var last := trace[|trace| - 1];
      Tries(trace[..|trace| - 1], s) + if IsCreation(last.event, s) then [last] else []
  }

  /** The i-th try is for the i-th target. */
  ghost predicate AreAttempts(tries: seq<Moment>, s: nat, action: Action, targets: seq<Target>) {
    |tries| <= |targets| && forall i | 0 <= i < |tries| :: IsAttempt(tries[i], s, action, targets[i])
  }

  /** How many tries succeeded. */
  ghost function Successes(tries: seq<Moment>): nat {
    if tries == [] then 0
    else Successes(tries[..|tries| - 1]) + if Succeeded(tries[|tries| - 1].event) then 1 else 0
  }

  predicate Succeeded(e: Event) {
    e.Create? && e.ok
  }

  lemma OneMoreTry(tries: seq<Moment>, attempt: Moment, s: nat, action: Action, targets: seq<Target>)
    requires AreAttempts(tries, s, action, targets) && |tries| < |targets|
    requires IsAttempt(attempt, s, action, targets[|tries|])
    ensures AreAttempts(tries + [attempt], s, action, targets)
    ensures Successes(tries + [attempt]) == Successes(tries) + if attempt.event.ok then 1 else 0
  {
    var more := tries + [attempt];
    assert more[..|tries|] == tries;
    forall i | 0 <= i < |more| ensures IsAttempt(more[i], s, action, targets[i]) {
      if i < |tries| {
        assert more[i] == tries[i];
      }
    }
  }

  lemma {:induction false} TriesAdd(before: seq<Moment>, after: seq<Moment>, s: nat)
    ensures Tries(before + after, s) == Tries(before, s) + Tries(after, s)
    decreases |after|
  {
    if after == [] {
      assert before + after == before;
    } else {
      var all := before + after;
      assert all[..|all| - 1] == before + after[..|after| - 1];
      TriesAdd(before, after[..|after| - 1], s);
    }
  }

  lemma TriesSince(before: seq<Moment>, now: seq<Moment>, from: nat, s: nat)
    requires before <= now && from <= |before|
    ensures Tries(now[from..], s) == Tries(before[from..], s) + Tries(now[|before|..], s)
  {
    TriesAdd(before[from..], now[|before|..], s);
    assert now[from..] == before[from..] + now[|before|..];
  }

  lemma OneTryLater(before: seq<Moment>, now: seq<Moment>, from: nat, tries: seq<Moment>, attempt: Moment,
                    s: nat, action: Action, targets: seq<Target>)
    requires before <= now && from <= |before|
    requires tries == Tries(before[from..], s) && Tries(now[|before|..], s) == [attempt]
    requires AreAttempts(tries, s, action, targets) && |tries| < |targets|
    requires IsAttempt(attempt, s, action, targets[|tries|])
    ensures tries + [attempt] == Tries(now[from..], s) && AreAttempts(tries + [attempt], s, action, targets)
    ensures Successes(tries + [attempt]) == Successes(tries) + if attempt.event.ok then 1 else 0
  {
    TriesSince(before, now, from, s);
    OneMoreTry(tries, attempt, s, action, targets);
  }

  lemma QuietAfter(before: seq<Moment>, now: seq<Moment>, from: nat, s: nat)
    requires before <= now && from <= |before| && Tries(now[|before|..], s) == []
    ensures Tries(now[from..], s) == Tries(before[from..], s)
  {
    TriesSince(before, now, from, s);
  }

  lemma QuietBefore(before: seq<Moment>, now: seq<Moment>, from: nat, s: nat)
    requires before <= now && from <= |before| && Tries(before[from..], s) == []
    ensures Tries(now[from..], s) == Tries(now[|before|..], s)
  {
    TriesSince(before, now, from, s);
  }

  lemma {:induction false} OthersTryNothing(trace: seq<Moment>, s: nat)
    requires NoneOwn(trace, 0, s, NewActions)
    ensures Tries(trace, s) == []
  {
    if trace != [] {
      assert !Own(trace[|trace| - 1].event, s, NewActions);
      OthersTryNothing(trace[..|trace| - 1], s);
    }
  }

  /** Nothing is tried by others, nor by a last step of another kind. */
  lemma NothingTried(before: seq<Moment>, now: seq<Moment>, s: nat)
    requires before < now && NoneOwn(now[..|now| - 1], |before|, s, NewActions) && !IsCreation(now[|now| - 1].event, s)
    ensures Tries(now[|before|..], s) == []
  {
    var more := now[|before|..];
    assert more[..|more| - 1] == now[..|now| - 1][|before|..];
    OthersTryNothing(more[..|more| - 1], s);
  }

  lemma OneTried(start: seq<Moment>, before: seq<Moment>, attempt: Moment, s: nat)
    requires start <= before && NoneOwn(before, |start|, s, NewActions) && IsCreation(attempt.event, s)
    ensures Tries((before + [attempt])[|start|..], s) == [attempt]
  {
    var more := before[|start|..];
    OthersTryNothing(more, s);
    assert (before + [attempt])[|start|..] == more + [attempt];
    assert (more + [attempt])[..|more|] == more;
  }

  /** At a moment since from, there was no such file to read. */
  ghost predicate WasMissing(trace: seq<Moment>, from: nat, s: nat, id: ActionId) {
    exists k :: from <= k < |trace| && IsMissing(trace[k].state, s, id)
  }

  predicate IsMissing(st: State, s: nat, id: ActionId) {
    s < |st.scheds| && id !in st.scheds[s].spool
  }

  /** At a moment since from, the file is not in the spool. */
  ghost predicate LeftSpool(trace: seq<Moment>, from: nat, s: nat, id: ActionId) {
    exists k :: from <= k < |trace| && IsOut(trace[k].next, s, id)
  }

  predicate IsOut(st: State, s: nat, id: ActionId) {
    s < |st.scheds| && id !in st.scheds[s].spool
  }

  lemma StillLeft(before: seq<Moment>, now: seq<Moment>, from: nat, earlier: nat, s: nat, id: ActionId)
    requires before <= now && earlier <= from && LeftSpool(before, from, s, id)
    ensures LeftSpool(now, earlier, s, id)
  {
    var k :| from <= k < |before| && IsOut(before[k].next, s, id);
    assert IsOut(now[k].next, s, id);
  }

  /** At a moment since from, the targets were the answer to the query for the agents of some target string. */
  ghost predicate WerePicked(trace: seq<Moment>, from: nat, s: nat, targets: seq<Target>) {
    exists k :: from <= k < |trace| && IsPick(trace[k], s, targets)
  }

  predicate IsPick(m: Moment, s: nat, targets: seq<Target>) {
    m.event.Query? && m.event.s == s && DistinctOn(targets, m.state.agents, m.event.selected)
  }

  lemma StillPicked(before: seq<Moment>, now: seq<Moment>, from: nat, earlier: nat, s: nat, targets: seq<Target>)
    requires before <= now && earlier <= from && WerePicked(before, from, s, targets)
    ensures WerePicked(now, earlier, s, targets)
  {
    var k :| from <= k < |before| && IsPick(before[k], s, targets);
    assert IsPick(now[k], s, targets);
  }

  /** What the claiming statement takes, all of it pending and within its validity period, and what it leaves of that
      for others: nothing. */
  ghost predicate AreClaimed(m: Moment, claimed: map<ActionId, Action>) {
    && (forall id | id in claimed ::
          && id in m.state.actions && m.state.actions[id].status == Pending
          && claimed[id] == m.state.actions[id].action && claimed[id].validFrom < m.state.now < claimed[id].expireAfter
          && m.next.actions.Keys == m.state.actions.Keys && m.next.actions[id].status == Scheduled)
    && (forall id | id in m.next.actions && m.next.actions[id].status == Pending ::
          !(m.next.actions[id].action.validFrom < m.next.now < m.next.actions[id].action.expireAfter))
  }

  ghost predicate AreAllRunnable(st: State, claimed: map<ActionId, Action>) {
    forall id | id in st.actions && st.actions[id].status == Pending
      && st.actions[id].action.validFrom < st.now < st.actions[id].action.expireAfter :: id in claimed
  }

  /** At a moment since from, the action is in the spool. */
  ghost predicate WasFiled(trace: seq<Moment>, from: nat, s: nat, id: ActionId, a: Action) {
    exists k :: from <= k < |trace| && IsFiled(trace[k].next, s, id, a)
  }

  predicate IsFiled(st: State, s: nat, id: ActionId, a: Action) {
    s < |st.scheds| && id in st.scheds[s].spool && st.scheds[s].spool[id] == a
  }

  ghost predicate AreFiled(trace: seq<Moment>, from: nat, s: nat, claimed: map<ActionId, Action>) {
    forall id | id in claimed :: WasFiled(trace, from, s, id, claimed[id])
  }

  lemma OneMoreFiled(before: seq<Moment>, now: seq<Moment>, from: nat, s: nat, claimed: map<ActionId, Action>,
                     id: ActionId, a: Action)
    requires before < now && from <= |before| && AreFiled(before, from, s, claimed)
    requires IsFiled(now[|now| - 1].next, s, id, a)
    ensures AreFiled(now, from, s, claimed[id := a])
  {
    forall other | other in claimed ensures WasFiled(now, from, s, other, claimed[other]) {
      var k :| from <= k < |before| && IsFiled(before[k].next, s, other, claimed[other]);
      assert IsFiled(now[k].next, s, other, claimed[other]);
    }
  }

  lemma FiledSince(trace: seq<Moment>, from: nat, earlier: nat, s: nat, claimed: map<ActionId, Action>)
    requires earlier <= from && AreFiled(trace, from, s, claimed)
    ensures AreFiled(trace, earlier, s, claimed)
  {
    forall id | id in claimed ensures WasFiled(trace, earlier, s, id, claimed[id]) {
      var k :| from <= k < |trace| && IsFiled(trace[k].next, s, id, claimed[id]);
      assert earlier <= k;
    }
  }

  function AfterInvalid(w: Worker): Worker
    requires w.Invalidating?
  {
    if w.resume then Upserting(w.action, []) else Waiting
  }

  /** A file that reads is targeted exactly within its validity period. */
  ghost predicate ReadsWell(st: State, s: nat, path: ActionId, w: Worker)
    requires s < |st.scheds| && path in st.scheds[s].spool
  {
    var a := st.scheds[s].spool[path];
    w == if a.validFrom <= st.now <= a.expireAfter then Targeting(a) else Waiting
  }

  lemma CreationMakesOne(st: State, s: nat, gap: nat)
    requires SchedulerConservation.BatchInv(st) && s < |st.scheds|
    requires st.scheds[s].worker.Creating? && st.scheds[s].worker.targets != []
    requires st.scheds[s].ctr < BATCH && st.scheds[s].writing == []
    ensures var w := st.scheds[s].worker; MakesOne(st.made, DoCreate(st, s, gap, true).made, s, w.action, w.targets[0])
  {
    var sc := st.scheds[s];
    var cmd := Command(s, sc.nextId + gap, sc.worker.action.id, sc.worker.targets[0]);
    assert SchedulerConservation.PlacedOnce(st, cmd);
    assert DoCreate(st, s, gap, true).made == st.made + {cmd};
  }

  /** Creating a command when the sender can receive. */
  lemma CreationIsAttempt(st: State, s: nat, gap: nat, ok: bool)
    requires SchedulerConservation.BatchInv(st) && s < |st.scheds|
    requires st.scheds[s].worker.Creating? && st.scheds[s].worker.targets != []
    requires ok ==> st.scheds[s].ctr < BATCH && st.scheds[s].writing == []
    ensures var e, w := Create(s, gap, ok), st.scheds[s].worker;
      IsAttempt(Moment(st, e, Step(st, e)), s, w.action, w.targets[0])
  {
    if ok {
      CreationMakesOne(st, s, gap);
    }
  }

  ghost predicate NothingLeft(trace: seq<Moment>) {
    forall m | m in trace :: !SchedulerSafety.LeavesFile(m.state, m.event)
  }

  lemma DispatchesOnce(n: nat, start: int, trace: seq<Moment>, st: State)
    requires IsTrace(Init(n, start), trace, st) && NothingLeft(trace)
    ensures DispatchedOnce(st)
  {
    TraceIsRun(Init(n, start), trace, st);
    var events := Events(trace);
    forall k | 0 <= k < |events| ensures !SchedulerSafety.LeavesFile(StateAt(Init(n, start), events, k), events[k]) {
      TraceHasStates(Init(n, start), trace, st, k);
      assert trace[k] in trace;
    }
    SchedulerSafety.AtMostOnceDispatch(n, start, events);
  }

  lemma Balanced(n: nat, start: int, trace: seq<Moment>, st: State)
    requires IsTrace(Init(n, start), trace, st)
    ensures SchedulerConservation.BatchInv(st)
  {
    TraceIsRun(Init(n, start), trace, st);
    SchedulerConservation.NoCommandLostOrDoubled(n, start, Events(trace));
  }

  ghost predicate DispatchedOnce(st: State) {
    forall i, j | 0 <= i < j < |st.published| && st.published[i].action == st.published[j].action ::
      st.published[i].target.queueLoc != st.published[j].target.queueLoc
  }

  // ----- updates under way -----

  datatype Parsed = Unreadable | Readable(cmd: Returned)

  function UpdateOf(file: Parsed): multiset<Returned> {
    if file.Readable? then multiset{file.cmd} else multiset{}
  }

  /** One update for each file that parses. */
  function UpdatesOf(files: seq<Parsed>): multiset<Returned> {
    if files == [] then multiset{} else UpdatesOf(files[..|files| - 1]) + UpdateOf(files[|files| - 1])
  }

  lemma OneMoreUpdate(start: multiset<Returned>, files: seq<Parsed>, i: nat)
    requires i < |files|
    ensures start + UpdatesOf(files[..i]) + UpdateOf(files[i]) == start + UpdatesOf(files[..i + 1])
  {
    assert files[..i + 1][..i] == files[..i];
  }

  /** The updates among some events. */
  function Returns(events: seq<Event>): multiset<Returned> {
    if events == [] then multiset{}
    else
      var last := events[|events| - 1];
      Returns(events[..|events| - 1]) + if last.Finish? then multiset{last.returned} else multiset{}
  }

  lemma {:induction false} ReturnsAdd(before: seq<Event>, after: seq<Event>)
    ensures Returns(before + after) == Returns(before) + Returns(after)
    decreases |after|
  {
    if after == [] {
      assert before + after == before;
    } else {
      var all := before + after;
      assert all[..|all| - 1] == before + after[..|after| - 1];
      ReturnsAdd(before, after[..|after| - 1]);
    }
  }

  lemma MoreReturns(before: seq<Moment>, now: seq<Moment>, from: nat)
    requires before <= now && from <= |before|
    ensures Returns(Events(now[from..])) == Returns(Events(before[from..])) + Returns(Events(now[|before|..]))
  {
    ReturnsAdd(Events(before[from..]), Events(now[|before|..]));
    assert Events(now[from..]) == Events(before[from..]) + Events(now[|before|..]);
  }

  /** Each update newly settled is among the steps since from, as many times. */
  ghost predicate HaveHappened(was: multiset<Returned>, settled: multiset<Returned>, trace: seq<Moment>, from: nat) {
    from <= |trace| && settled - was <= Returns(Events(trace[from..]))
  }

  lemma StillHappened(first: multiset<Returned>, was: multiset<Returned>, settled: multiset<Returned>,
                      before: seq<Moment>, now: seq<Moment>, from: nat)
    requires before <= now && from <= |before| && first <= was <= settled
    requires HaveHappened(first, was, before, from)
    requires HaveHappened(was, settled, now, |before|)
    ensures HaveHappened(first, settled, now, from)
  {
    MoreReturns(before, now, from);
  }

  lemma OneReturn(before: seq<Moment>, m: Moment, was: multiset<Returned>, cmd: Returned)
    requires m.event == Finish(cmd)
    ensures HaveHappened(was, was + multiset{cmd}, before + [m], |before|)
  {
    assert Events((before + [m])[|before|..]) == [Finish(cmd)];
    assert [Finish(cmd)][..0] == [];
    assert was + multiset{cmd} - was == multiset{cmd};
  }
}
