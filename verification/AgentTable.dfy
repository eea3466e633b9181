/** The agents table: heartbeats, the periodic statements, and the pass that destroys duplicate agents. */
module AgentTable {
  import opened Common
  import opened CommandTable
  import FiniteSets

  /** The zero time.Time, in seconds of the Unix clock. */
  const ZERO: int := -62135596800
  datatype Agent = Agent(queueLoc: string, pid: int, startTime: int, destructionTime: int, heartbeat: int,
                         refresh: int, status: AgentStatus)
  type Rows = map<int, Agent>

  /** A heartbeat.  saysDestroyed: the status in it is "destroyed". */
  datatype Message = Message(queueLoc: string, pid: int, startTime: int, destructionTime: int, refresh: int,
                             saysDestroyed: bool)

  /** What a lookup found: a row as it was then. */
  datatype Seen = Seen(id: int, row: Agent)

  predicate IsOf(a: Agent, queueLoc: string, pid: int) {
    a.queueLoc == queueLoc && a.pid == pid
  }

  function Live(rows: Rows, queueLoc: string, pid: int): set<int> {
    set id | id in rows && IsOf(rows[id], queueLoc, pid) && rows[id].status != Offline
  }

  ghost predicate AtMostOneLive(rows: Rows) {
    forall i, j | i in rows && j in rows && rows[i].status != Offline && rows[j].status != Offline
      && rows[i].queueLoc == rows[j].queueLoc && rows[i].pid == rows[j].pid :: i == j
  }

  // ----- heartbeats -----

  predicate IsRefreshed(row: Agent, msg: Message) {
    msg.refresh != ZERO && msg.refresh > row.refresh + 15
  }

  function WithStatus(rows: Rows, id: int, status: AgentStatus): Rows {
    if id in rows then rows[id := rows[id].(status := status)] else rows
  }

  function Touched(rows: Rows, id: int, now: int): Rows {
    if id in rows then rows[id := rows[id].(status := Online, heartbeat := now)] else rows
  }

  function FirstRow(msg: Message, now: int): Agent {
    Agent(msg.queueLoc, msg.pid, now, FAR_FUTURE, now, msg.refresh, Online)
  }

  function RefreshedRow(msg: Message, row: Agent, now: int): Agent {
    Agent(msg.queueLoc, msg.pid, msg.startTime, msg.destructionTime, now, msg.refresh,
          if msg.saysDestroyed then row.status else Online)
  }

  predicate Inserts(msg: Message, seen: Option<Seen>) {
    seen.None? || IsRefreshed(seen.value.row, msg)
  }

  /** What the write of a heartbeat does to the table, given what its lookup saw some time before.  An insert
      with an id that is taken is refused, and the transaction around it rolled back. */
  function Written(rows: Rows, msg: Message, seen: Option<Seen>, now: int, newId: int): Rows {
    if Inserts(msg, seen) && newId in rows then rows
    else
      match seen
      case None => rows[newId := FirstRow(msg, now)]
      case Some(s) =>
        if IsRefreshed(s.row, msg) then WithStatus(rows, s.id, Offline)[newId := RefreshedRow(msg, s.row, now)]
        else Touched(rows, s.id, now)
  }

  ghost predicate IsLookup(rows: Rows, msg: Message, seen: Option<Seen>, failed: bool) {
    match seen
    case None => failed || Live(rows, msg.queueLoc, msg.pid) == {}
    case Some(s) => !failed && s.id in Live(rows, msg.queueLoc, msg.pid) && s.row == rows[s.id]
  }

  function SeenIds(seen: Option<Seen>): set<int> {
    if seen.Some? then {seen.value.id} else {}
  }

  /** No row of the agent is live but the one that was seen. */
  predicate IsUpToDate(rows: Rows, msg: Message, seen: Option<Seen>) {
    Live(rows, msg.queueLoc, msg.pid) <= SeenIds(seen)
  }

  /** What is seen stays a row of the agent, since no statement changes queues, pids or ids. */
  predicate IsKnown(rows: Rows, msg: Message, seen: Option<Seen>) {
    seen.Some? ==>
      && seen.value.id in rows && IsOf(rows[seen.value.id], msg.queueLoc, msg.pid)
      && seen.value.row.status != Offline
  }

  function MarkedOffline(rows: Rows, point: int): Rows {
    map id | id in rows ::
      if rows[id].heartbeat < point && rows[id].status == Idle then rows[id].(status := Offline) else rows[id]
  }

  function MarkedIdle(rows: Rows, point: int): Rows {
    map id | id in rows ::
      if rows[id].heartbeat < point && rows[id].status == Online then rows[id].(status := Idle) else rows[id]
  }

  function MarkedDestroyed(rows: Rows, ids: set<int>, now: int): Rows {
    map id | id in rows ::
      if id in ids then rows[id].(status := Destroyed, destructionTime := now) else rows[id]
  }

  /** A run that is not cut short takes an online row to idle exactly if it was last heard of before the idle point,
      an idle one to offline exactly if it was before the offline point, and changes nothing else. */
  lemma PeriodicTakesIff(rows: Rows, offlinePoint: int, idlePoint: int, id: int)
    requires id in rows
    ensures var later := PeriodicRun(rows, offlinePoint, idlePoint, 2);
      && later.Keys == rows.Keys && later[id] == rows[id].(status := later[id].status)
      && (rows[id].status == Online ==> later[id].status == if rows[id].heartbeat < idlePoint then Idle else Online)
      && (rows[id].status == Idle ==> later[id].status == if rows[id].heartbeat < offlinePoint then Offline else Idle)
      && (rows[id].status in {Offline, Destroyed} ==> later[id].status == rows[id].status)
  {
  }

  /** One cut short after the first statement has only marked idle rows offline, one before it nothing. */
  lemma CutShortTakesIff(rows: Rows, offlinePoint: int, idlePoint: int, id: int)
    requires id in rows
    ensures PeriodicRun(rows, offlinePoint, idlePoint, 0) == rows
    ensures var later := PeriodicRun(rows, offlinePoint, idlePoint, 1);
      && later.Keys == rows.Keys
      && later[id] == if rows[id].status == Idle && rows[id].heartbeat < offlinePoint
                      then rows[id].(status := Offline) else rows[id]
  {
  }

  /** The rows there were are still there, with their queues and pids. */
  ghost predicate Extends(rows: Rows, later: Rows) {
    forall id | id in rows :: id in later && IsOf(later[id], rows[id].queueLoc, rows[id].pid)
  }

  class AgentTable {
    /** Whether the database can fail. */
    const faulty: bool
    var rows: Rows

    constructor (faulty: bool)
      ensures rows == map[] && this.faulty == faulty
    {
      this.rows, this.faulty := map[], faulty;
    }

    /** One row, if the query succeeds and there is any. */
    method AgentByQueueAndPID(msg: Message) returns (seen: Option<Seen>, failed: bool)
      ensures IsLookup(rows, msg, seen, failed) && (failed ==> faulty)
      ensures seen.Some? ==>
        && seen.value.id in rows && seen.value.row == rows[seen.value.id] && seen.value.row.status != Offline
        && seen.value.row.queueLoc == msg.queueLoc && seen.value.row.pid == msg.pid
      ensures seen.None? && !failed ==> forall id | id in rows ::
        rows[id].queueLoc != msg.queueLoc || rows[id].pid != msg.pid || rows[id].status == Offline
    {
      var ok := Succeeds(faulty);
      failed := !ok;
      seen := None;
      var live := Live(rows, msg.queueLoc, msg.pid);
      assert forall id | id in rows ::
        id in live || !IsOf(rows[id], msg.queueLoc, msg.pid) || rows[id].status == Offline;
      if !failed && live != {} {
        ghost var any := FiniteSets.SomeMember(live);
        var id :| id in live;
        seen := Some(Seen(id, rows[id]));
      }
    }

    method InsertAgent(a: Agent, newId: int) returns (ok: bool)
      modifies this
      ensures rows == if ok then old(rows)[newId := a] else old(rows)
      ensures newId in old(rows) ==> !ok
      ensures !ok ==> newId in old(rows) || faulty
    {
      ok := Succeeds(faulty);
      ok := ok && newId !in rows;
      if ok {
        rows := rows[newId := a];
      }
    }

    method UpdateAgentHeartbeat(id: int, now: int) returns (ok: bool)
      modifies this
      ensures rows == if ok then Touched(old(rows), id, now) else old(rows)
      ensures !ok ==> faulty
    {
      ok := Succeeds(faulty);
      if ok && id in rows {
        rows := rows[id := rows[id].(status := Online, heartbeat := now)];
      }
    }

    /** One transaction: the old row goes offline and the new one comes in, or neither. */
    method ReplaceRefreshedAgent(id: int, a: Agent, newId: int) returns (ok: bool)
      modifies this
      ensures rows == if ok then WithStatus(old(rows), id, Offline)[newId := a] else old(rows)
      ensures newId in old(rows) ==> !ok
      ensures !ok ==> newId in old(rows) || faulty
    {
      var before := rows;
      ok := Succeeds(faulty);
      if !ok {
        return;
      }
      if id in rows {
        rows := rows[id := rows[id].(status := Offline)];
      }
      ok := InsertAgent(a, newId);
      if !ok {
        rows := before;
        return;
      }
      ok := Succeeds(faulty);
      if !ok {
        rows := before;
      }
    }

    /** Whatever else the schedulers do with the table meanwhile. */
    method Others()
      modifies this
      ensures Extends(old(rows), rows)
    {
      var later: Rows := *;
      if forall id | id in rows :: id in later && IsOf(later[id], rows[id].queueLoc, rows[id].pid) {
        rows := later;
      }
    }

    /** The goroutine of getHeartbeats: the lookup, then, after whatever others do, the write to the table at. */
    method OnHeartbeat(msg: Message, now: int, newId: int)
      returns (seen: Option<Seen>, failed: bool, ok: bool, ghost at: Rows)
      modifies this
      ensures IsLookup(old(rows), msg, seen, failed) && (failed ==> faulty)
      ensures Extends(old(rows), at) && IsKnown(at, msg, seen)
      ensures rows == if ok then Written(at, msg, seen, now, newId) else at
      ensures !ok ==> faulty || newId in at
      ensures ok && AtMostOneLive(at) ==> (AtMostOneLive(rows) <==> IsUpToDate(at, msg, seen))
      ensures ok && seen.None? ==>
        rows == at[newId := Agent(msg.queueLoc, msg.pid, now, FAR_FUTURE, now, msg.refresh, Online)]
      ensures ok && seen.Some? && msg.refresh != ZERO && msg.refresh > seen.value.row.refresh + 15 ==>
        && rows.Keys == at.Keys + {newId} && rows[seen.value.id] == at[seen.value.id].(status := Offline)
        && rows[newId] == Agent(msg.queueLoc, msg.pid, msg.startTime, msg.destructionTime, now, msg.refresh,
                                if msg.saysDestroyed then seen.value.row.status else Online)
        && forall id | id in at && id != seen.value.id :: rows[id] == at[id]
      ensures ok && seen.Some? && (msg.refresh == ZERO || msg.refresh <= seen.value.row.refresh + 15) ==>
        rows == at[seen.value.id := at[seen.value.id].(status := Online, heartbeat := now)]
    {
      seen, failed := AgentByQueueAndPID(msg);
      Others();
      at := rows;
      match seen {
        case None =>
          ok := InsertAgent(FirstRow(msg, now), newId);
        case Some(s) =>
          var cutoff := s.row.refresh + 15;
          if msg.refresh != ZERO && msg.refresh > cutoff {
            ok := ReplaceRefreshedAgent(s.id, RefreshedRow(msg, s.row, now), newId);
          } else {
            ok := UpdateAgentHeartbeat(s.id, now);
          }
      }
      if ok && AtMostOneLive(at) {
        WriteKeepsOneLiveIff(at, msg, seen, now, newId);
      }
    }

    method MarkOfflineAgents(point: int)
      modifies this
      ensures rows == MarkedOffline(old(rows), point)
    {
      rows := map id | id in rows ::
        if rows[id].heartbeat < point && rows[id].status == Idle then rows[id].(status := Offline) else rows[id];
    }

    method MarkIdleAgents(point: int)
      modifies this
      ensures rows == MarkedIdle(old(rows), point)
    {
      rows := map id | id in rows ::
        if rows[id].heartbeat < point && rows[id].status == Online then rows[id].(status := Idle) else rows[id];
    }

    /** The table statements of periodic, in their order; either may fail, which ends the run. */
    method Periodic(offlinePoint: int, idlePoint: int) returns (done: nat)
      modifies this
      ensures done <= 2 && rows == PeriodicRun(old(rows), offlinePoint, idlePoint, done) && (!faulty ==> done == 2)
    {
      done := 0;
      var ok := Succeeds(faulty);
      if !ok {
        return;
      }
      MarkOfflineAgents(offlinePoint);
      done := 1;
      ok := Succeeds(faulty);
      if !ok {
        return;
      }
      MarkIdleAgents(idlePoint);
      done := 2;
    }
  }

  function PeriodicRun(rows: Rows, offlinePoint: int, idlePoint: int, done: nat): Rows {
    if done == 0 then rows
    else if done == 1 then MarkedOffline(rows, offlinePoint)
    else MarkedIdle(MarkedOffline(rows, offlinePoint), idlePoint)
  }

  // ----- one live row for each agent -----

  lemma LiveAreOne(rows: Rows, queueLoc: string, pid: int, id: int)
    requires AtMostOneLive(rows) && id in Live(rows, queueLoc, pid)
    ensures Live(rows, queueLoc, pid) == {id}
  {
    forall i | i in Live(rows, queueLoc, pid) ensures i == id {
      assert IsOf(rows[i], rows[id].queueLoc, rows[id].pid);
    }
  }

  /** The rows of one agent have changed: one of them, id, is live, and perhaps others are. */
  lemma OneComesUp(rows: Rows, later: Rows, queueLoc: string, pid: int, id: int, others: set<int>)
    requires AtMostOneLive(rows) && id !in others
    requires Live(later, queueLoc, pid) == others + {id}
    requires forall i | i in later && !IsOf(later[i], queueLoc, pid) :: i in rows && later[i] == rows[i]
    ensures AtMostOneLive(later) <==> others == {}
  {
    if others != {} {
      var other := FiniteSets.SomeMember(others);
      assert other in Live(later, queueLoc, pid) && id in Live(later, queueLoc, pid);
    } else {
      forall i, j | i in later && j in later && later[i].status != Offline && later[j].status != Offline
        && IsOf(later[i], later[j].queueLoc, later[j].pid)
        ensures i == j
      {
        if IsOf(later[i], queueLoc, pid) {
          assert i in Live(later, queueLoc, pid) && j in Live(later, queueLoc, pid);
        }
      }
    }
  }

  /** A write that takes effect keeps one live row for each agent exactly when its lookup is up to date: the
      row it saw, if any, is the only one of the agent that is live. */
  lemma WriteKeepsOneLiveIff(rows: Rows, msg: Message, seen: Option<Seen>, now: int, newId: int)
    requires AtMostOneLive(rows) && IsKnown(rows, msg, seen) && (Inserts(msg, seen) ==> newId !in rows)
    ensures AtMostOneLive(Written(rows, msg, seen, now, newId)) <==> IsUpToDate(rows, msg, seen)
  {
    var later, live := Written(rows, msg, seen, now, newId), Live(rows, msg.queueLoc, msg.pid);
    var id := if Inserts(msg, seen) then newId else seen.value.id;
    assert Live(later, msg.queueLoc, msg.pid) == (live - SeenIds(seen)) + {id};
    OneComesUp(rows, later, msg.queueLoc, msg.pid, id, live - SeenIds(seen));
  }

  lemma MarkingKeepsOneLiveIff(rows: Rows, id: int, now: int)
    requires AtMostOneLive(rows) && id in rows
    ensures AtMostOneLive(MarkedDestroyed(rows, {id}, now)) <==> Live(rows, rows[id].queueLoc, rows[id].pid) <= {id}
  {
    var later, queueLoc, pid := MarkedDestroyed(rows, {id}, now), rows[id].queueLoc, rows[id].pid;
    assert Live(later, queueLoc, pid) == (Live(rows, queueLoc, pid) - {id}) + {id};
    OneComesUp(rows, later, queueLoc, pid, id, Live(rows, queueLoc, pid) - {id});
  }

  /** A lookup that does not fail is up to date when it is made. */
  lemma LookupIsUpToDate(rows: Rows, msg: Message, seen: Option<Seen>)
    requires AtMostOneLive(rows) && IsLookup(rows, msg, seen, false)
    ensures IsUpToDate(rows, msg, seen)
  {
    if seen.Some? {
      LiveAreOne(rows, msg.queueLoc, msg.pid, seen.value.id);
    }
  }

  // ----- runs -----

  /** A goroutine of getHeartbeats between its lookup and its write. */
  datatype Writer = Writer(msg: Message, seen: Option<Seen>)

  datatype Table = Table(rows: Rows, writers: map<nat, Writer>)

  /** seen, failed, done and ok are what the database made of it. */
  datatype Event =
    | LookUp(p: nat, msg: Message, seen: Option<Seen>, failed: bool)
    | Write(p: nat, now: int, newId: int, ok: bool)
    | Periodically(offlinePoint: int, idlePoint: int, done: nat)
    | Destroy(id: int, now: int)

  ghost function Step(t: Table, e: Event): Table {
    match e
    case LookUp(p, msg, seen, failed) =>
      if p in t.writers || !IsLookup(t.rows, msg, seen, failed) then t
      else t.(writers := t.writers[p := Writer(msg, seen)])
    case Write(p, now, newId, ok) =>
      if p !in t.writers then t
      else
        var w := t.writers[p];
        Table(if ok then Written(t.rows, w.msg, w.seen, now, newId) else t.rows, t.writers - {p})
    case Periodically(offlinePoint, idlePoint, done) => t.(rows := PeriodicRun(t.rows, offlinePoint, idlePoint, done))
    case Destroy(id, now) => t.(rows := MarkedDestroyed(t.rows, {id}, now))
  }

  ghost function Run(events: seq<Event>): Table {
    if events == [] then Table(map[], map[])
    else Step(Run(events[..|events| - 1]), events[|events| - 1])
  }

  /** The step brings up a row of an agent that has another live row, because that came up since the lookup or
      the listing the step goes by, or because the lookup failed. */
  ghost predicate IsOvertaken(t: Table, e: Event) {
    match e
    case Write(p, now, newId, ok) =>
      && p in t.writers && ok && (Inserts(t.writers[p].msg, t.writers[p].seen) ==> newId !in t.rows)
      && !IsUpToDate(t.rows, t.writers[p].msg, t.writers[p].seen)
    case Destroy(id, now) => id in t.rows && !(Live(t.rows, t.rows[id].queueLoc, t.rows[id].pid) <= {id})
    case _ => false
  }

  ghost predicate WritersKnow(t: Table) {
    forall p | p in t.writers :: IsKnown(t.rows, t.writers[p].msg, t.writers[p].seen)
  }

  lemma WrittenExtends(rows: Rows, msg: Message, seen: Option<Seen>, now: int, newId: int)
    requires IsKnown(rows, msg, seen)
    ensures Extends(rows, Written(rows, msg, seen, now, newId))
  {
  }

  lemma StepExtends(t: Table, e: Event)
    requires WritersKnow(t)
    ensures Extends(t.rows, Step(t, e).rows)
  {
    if e.Write? && e.p in t.writers {
      WrittenExtends(t.rows, t.writers[e.p].msg, t.writers[e.p].seen, e.now, e.newId);
    }
  }

  lemma StepKeepsWriters(t: Table, e: Event)
    requires WritersKnow(t)
    ensures WritersKnow(Step(t, e))
  {
    StepExtends(t, e);
    var t' := Step(t, e);
    forall p | p in t'.writers ensures IsKnown(t'.rows, t'.writers[p].msg, t'.writers[p].seen) {
      if p in t.writers {
        assert IsKnown(t.rows, t.writers[p].msg, t.writers[p].seen);
      }
    }
  }

  lemma StepKeepsOneLiveIff(t: Table, e: Event)
    requires WritersKnow(t) && AtMostOneLive(t.rows)
    ensures AtMostOneLive(Step(t, e).rows) <==> !IsOvertaken(t, e)
  {
    match e {
      case Write(p, now, newId, ok) =>
        if p in t.writers && ok && (Inserts(t.writers[p].msg, t.writers[p].seen) ==> newId !in t.rows) {
          WriteKeepsOneLiveIff(t.rows, t.writers[p].msg, t.writers[p].seen, now, newId);
        }
      case Destroy(id, now) =>
        if id in t.rows {
          MarkingKeepsOneLiveIff(t.rows, id, now);
        } else {
          assert MarkedDestroyed(t.rows, {id}, now) == t.rows;
        }
      case Periodically(offlinePoint, idlePoint, done) =>
      case LookUp(p, msg, seen, failed) =>
    }
  }

  /** The k-th step of the run is not overtaken. */
  ghost predicate IsTimely(events: seq<Event>, k: nat)
    requires k < |events|
  {
    !IsOvertaken(Run(events[..k]), events[k])
  }

  ghost predicate AllTimely(events: seq<Event>) {
    forall k | 0 <= k < |events| :: IsTimely(events, k)
  }

  ghost predicate IsOneLive(events: seq<Event>, k: nat)
    requires k <= |events|
  {
    AtMostOneLive(Run(events[..k]).rows)
  }

  ghost predicate AlwaysOneLive(events: seq<Event>) {
    forall k | 0 <= k <= |events| :: IsOneLive(events, k)
  }

  lemma TimelyGrows(events: seq<Event>)
    requires events != []
    ensures AllTimely(events) <==> AllTimely(events[..|events| - 1]) && IsTimely(events, |events| - 1)
  {
    var init := events[..|events| - 1];
    forall k | 0 <= k < |init| ensures IsTimely(events, k) <==> IsTimely(init, k) {
      assert init[..k] == events[..k];
    }
  }

  lemma SameOneLive(events: seq<Event>, more: seq<Event>, k: nat)
    requires events <= more && k <= |events|
    ensures IsOneLive(events, k) <==> IsOneLive(more, k)
    ensures IsOneLive(more, |more|) <==> AtMostOneLive(Run(more).rows)
  {
    assert events[..k] == more[..k] && more[..|more|] == more;
  }

  lemma OneLiveUpTo(events: seq<Event>, more: seq<Event>)
    requires events <= more && AlwaysOneLive(more)
    ensures AlwaysOneLive(events)
  {
    forall k | 0 <= k <= |events| ensures IsOneLive(events, k) {
      SameOneLive(events, more, k);
    }
  }

  lemma OneLiveAfter(events: seq<Event>, more: seq<Event>)
    requires events <= more && |more| == |events| + 1 && AlwaysOneLive(events) && IsOneLive(more, |more|)
    ensures AlwaysOneLive(more)
  {
    forall k | 0 <= k <= |more| ensures IsOneLive(more, k) {
      if k <= |events| {
        SameOneLive(events, more, k);
      }
    }
  }

  lemma OneLiveGrows(events: seq<Event>)
    requires events != []
    ensures AlwaysOneLive(events) <==> AlwaysOneLive(events[..|events| - 1]) && AtMostOneLive(Run(events).rows)
  {
    SameOneLive(events, events, |events|);
    if AlwaysOneLive(events) {
      OneLiveUpTo(events[..|events| - 1], events);
    } else if AlwaysOneLive(events[..|events| - 1]) && IsOneLive(events, |events|) {
      OneLiveAfter(events[..|events| - 1], events);
    }
  }

  /** Over every interleaving of any number of heartbeats, periodic runs and kill passes: at every moment at
      most one row of a queue and pid is not offline, exactly when no step of the run is overtaken. */
  lemma {:induction false} OneLiveRowPerAgentIff(events: seq<Event>)
    ensures WritersKnow(Run(events))
    ensures AlwaysOneLive(events) <==> AllTimely(events)
  {
    if events == [] {
      assert events[..0] == events;
      assert IsOneLive(events, 0);
    } else {
      var n := |events| - 1;
      OneLiveRowPerAgentIff(events[..n]);
      StepKeepsWriters(Run(events[..n]), events[n]);
      TimelyGrows(events);
      OneLiveGrows(events);
      if AlwaysOneLive(events[..n]) {
        assert IsOneLive(events[..n], n) && events[..n][..n] == events[..n];
        StepKeepsOneLiveIff(Run(events[..n]), events[n]);
      }
    }
  }

  // ----- runs with overtaken steps -----

  lemma Extend(events: seq<Event>, e: Event) returns (longer: seq<Event>)
    ensures longer == events + [e] && Run(longer) == Step(Run(events), e)
  {
    longer := events + [e];
    assert longer[..|longer| - 1] == events;
  }

  const FIRST := Message("q", 7, 1, FAR_FUTURE, 0, false)
  const REFRESH := Message("q", 7, 1, FAR_FUTURE, 60, false)

  /** One heartbeat has been written: row 1 is live. */
  lemma OneWritten() returns (events: seq<Event>)
    ensures Run(events) == Table(map[1 := FirstRow(FIRST, 100)], map[])
  {
    events := Extend([], LookUp(0, FIRST, None, false));
    assert Run(events).writers == map[0 := Writer(FIRST, None)];
    events := Extend(events, Write(0, 100, 1, true));
    assert map[0 := Writer(FIRST, None)] - {0} == map[];
  }

  /** Two first heartbeats, such as one sent again, both look for a row before either writes one. */
  lemma FirstHeartbeatsCanCollide()
    ensures exists events :: !AtMostOneLive(Run(events).rows)
  {
    var events := Extend([], LookUp(0, FIRST, None, false));
    events := Extend(events, LookUp(1, FIRST, None, false));
    events := Extend(events, Write(0, 100, 1, true));
    assert Run(events).rows[1].status == Online;
    events := Extend(events, Write(1, 100, 2, true));
    var rows := Run(events).rows;
    assert 1 in rows && 2 in rows && IsOf(rows[1], rows[2].queueLoc, rows[2].pid);
  }

  /** A heartbeat updates the row it saw after a refreshed heartbeat has replaced it: the row that went offline
      is back online. */
  lemma LateUpdateRevives()
    ensures exists events :: !AtMostOneLive(Run(events).rows)
  {
    var events := OneWritten();
    var seen := Some(Seen(1, FirstRow(FIRST, 100)));
    events := Extend(events, LookUp(0, REFRESH, seen, false));
    events := Extend(events, LookUp(1, FIRST, seen, false));
    events := Extend(events, Write(0, 160, 2, true));
    assert Run(events).rows[1].status == Offline && Run(events).rows[2].status == Online;
    events := Extend(events, Write(1, 161, 3, true));
    var rows := Run(events).rows;
    assert 1 in rows && 2 in rows && IsOf(rows[1], rows[2].queueLoc, rows[2].pid);
  }

  // ----- how an agent goes offline -----

  /** Steps away from being heard of. */
  function Distance(s: AgentStatus): nat {
    match s
    case Online | Destroyed => 0
    case Idle => 1
    case Offline => 2
  }

  function PeriodicRuns(events: seq<Event>): nat {
    if events == [] then 0
    else PeriodicRuns(events[..|events| - 1]) + if events[|events| - 1].Periodically? then 1 else 0
  }

  predicate Replaces(t: Table, e: Event, id: int) {
    && e.Write? && e.p in t.writers && e.ok
    && var w := t.writers[e.p]; w.seen.Some? && w.seen.value.id == id && IsRefreshed(w.seen.value.row, w.msg)
  }

  lemma OneStepAway(t: Table, e: Event, id: int)
    requires WritersKnow(t) && id in t.rows && !Replaces(t, e, id)
    ensures id in Step(t, e).rows
    ensures Distance(Step(t, e).rows[id].status) <= Distance(t.rows[id].status) + if e.Periodically? then 1 else 0
  {
  }

  lemma OneFurtherAway(events: seq<Event>, e: Event, id: int)
    requires id in Run(events).rows && !Replaces(Run(events), e, id)
    ensures id in Run(events + [e]).rows
    ensures Distance(Run(events + [e]).rows[id].status)
         <= Distance(Run(events).rows[id].status) + if e.Periodically? then 1 else 0
  {
    OneLiveRowPerAgentIff(events);
    OneStepAway(Run(events), e, id);
    assert (events + [e])[..|events|] == events;
  }

  /** The row is not replaced by the i-th of the events after before. */
  ghost predicate IsKeptAt(before: seq<Event>, events: seq<Event>, id: int, i: nat)
    requires i < |events|
  {
    !Replaces(Run(before + events[..i]), events[i], id)
  }

  lemma SameKept(before: seq<Event>, events: seq<Event>, id: int, i: nat)
    requires i < |events| - 1
    ensures IsKeptAt(before, events, id, i) <==> IsKeptAt(before, events[..|events| - 1], id, i)
  {
    assert events[..|events| - 1][..i] == events[..i];
  }

  lemma {:induction false} DistanceIsBounded(before: seq<Event>, events: seq<Event>, id: int)
    requires id in Run(before).rows
    requires forall i | 0 <= i < |events| :: IsKeptAt(before, events, id, i)
    ensures id in Run(before + events).rows
    ensures Distance(Run(before + events).rows[id].status)
         <= Distance(Run(before).rows[id].status) + PeriodicRuns(events)
    decreases |events|
  {
    if events == [] {
      assert before + events == before;
    } else {
      var init, last := events[..|events| - 1], events[|events| - 1];
      forall i | 0 <= i < |init| ensures IsKeptAt(before, init, id, i) {
        SameKept(before, events, id, i);
      }
      DistanceIsBounded(before, init, id);
      assert IsKeptAt(before, events, id, |init|);
      OneFurtherAway(before + init, last, id);
      assert before + events == before + init + [last];
    }
  }

  /** A row that is never replaced by a refreshed one is taken from online to offline by no fewer than two
      periodic runs, whatever heartbeats do in between. */
  lemma OfflineTakesTwoRuns(before: seq<Event>, events: seq<Event>, id: int)
    requires id in Run(before).rows && Run(before).rows[id].status == Online
    requires forall i | 0 <= i < |events| :: IsKeptAt(before, events, id, i)
    ensures id in Run(before + events).rows
    ensures Run(before + events).rows[id].status == Offline ==> PeriodicRuns(events) >= 2
  {
    DistanceIsBounded(before, events, id);
  }

  // ----- how an agent stays online -----

  predicate IsHeardOf(rows: Rows, id: int, since: int) {
    id in rows && rows[id].status == Online && rows[id].heartbeat >= since
  }

  /** The step neither replaces nor destroys the row, writes no heartbeat from before since, and marks nothing idle
      that has been heard of since then. */
  ghost predicate IsKind(t: Table, e: Event, id: int, since: int) {
    && !Replaces(t, e, id)
    && (e.Write? ==> e.now >= since) && (e.Periodically? ==> e.idlePoint <= since) && (e.Destroy? ==> e.id != id)
  }

  lemma KindStepKeeps(t: Table, e: Event, id: int, since: int)
    requires WritersKnow(t) && IsHeardOf(t.rows, id, since) && IsKind(t, e, id, since)
    ensures IsHeardOf(Step(t, e).rows, id, since)
  {
  }

  ghost predicate IsKindAt(before: seq<Event>, events: seq<Event>, id: int, since: int, i: nat)
    requires i < |events|
  {
    IsKind(Run(before + events[..i]), events[i], id, since)
  }

  /** A row that has been heard of stays online over any run whose idle points are no later than that, whatever
      other heartbeats do, unless it is replaced or destroyed. */
  lemma {:induction false} HeardOfStaysOnline(before: seq<Event>, events: seq<Event>, id: int, since: int)
    requires IsHeardOf(Run(before).rows, id, since)
    requires forall i | 0 <= i < |events| :: IsKindAt(before, events, id, since, i)
    ensures IsHeardOf(Run(before + events).rows, id, since)
    decreases |events|
  {
    if events == [] {
      assert before + events == before;
    } else {
      var init, last := events[..|events| - 1], events[|events| - 1];
      forall i | 0 <= i < |init| ensures IsKindAt(before, init, id, since, i) {
        assert IsKindAt(before, events, id, since, i) && init[..i] == events[..i];
      }
      HeardOfStaysOnline(before, init, id, since);
      assert IsKindAt(before, events, id, since, |init|);
      OneLiveRowPerAgentIff(before + init);
      KindStepKeeps(Run(before + init), last, id, since);
      assert (before + events)[..|before + events| - 1] == before + init;
    }
  }

  // ----- what answers a returned command -----

  /** The agents as the guard of a finishing command sees them. */
  function AgentsOf(rows: Rows): map<AgentId, AgentRow> {
    map id | id in rows :: AgentRow(rows[id].queueLoc, rows[id].pid, rows[id].status)
  }

  /** While each agent has one live row, a returned command passes the guard for one agent at most. */
  lemma OneAgentAnswers(rows: Rows, cmd: Returned, a: AgentId, b: AgentId)
    requires AtMostOneLive(rows)
    requires AgentAnswers(AgentsOf(rows), a, cmd) && AgentAnswers(AgentsOf(rows), b, cmd)
    ensures a == b
  {
    assert IsOf(rows[a], rows[b].queueLoc, rows[b].pid);
  }
}
