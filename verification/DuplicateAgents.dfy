/** The pass over the active agents of one queue that orders duplicates destroyed. */
module DuplicateAgents {
  import opened Common
  import opened CommandTable
  import opened AgentTable

  /** An agent as the pass sees it. */
  datatype Listed = Listed(id: int, row: Agent)

  /** An active agent of the queue. */
  predicate IsActive(rows: Rows, queueLoc: string, point: int, id: int) {
    id in rows && rows[id].queueLoc == queueLoc && rows[id].heartbeat > point && rows[id].status != Offline
  }

  /** What ActiveAgentsByQueue returns: active agents of the queue, all of them unless it fails.  It does not
      select the destruction time, so every agent comes with the zero time. */
  ghost predicate IsListing(rows: Rows, queueLoc: string, point: int, list: seq<Listed>, complete: bool) {
    && (forall i, j | 0 <= i < j < |list| :: list[i].id != list[j].id)
    && (forall a | a in list :: IsActive(rows, queueLoc, point, a.id) && a.row == rows[a.id].(destructionTime := ZERO))
    && (complete ==> forall id | IsActive(rows, queueLoc, point, id) :: exists a :: a in list && a.id == id)
  }

  /** An active agent of the queue that has not been destroyed. */
  predicate IsUp(rows: Rows, queueLoc: string, point: int, id: int) {
    IsActive(rows, queueLoc, point, id) && rows[id].status != Destroyed
  }

  /** If any is up, one that is up is not ordered destroyed. */
  ghost predicate SparesOne(rows: Rows, queueLoc: string, point: int, ordered: seq<int>) {
    (exists id :: IsUp(rows, queueLoc, point, id)) ==> exists id :: IsUp(rows, queueLoc, point, id) && id !in ordered
  }

  predicate WasDestroyed(a: Listed) {
    a.row.status == Destroyed
  }

  /** At most one of the agents that had not been destroyed is among those ordered. */
  ghost predicate OrdersOneAtMost(list: seq<Listed>, ordered: seq<AgentId>) {
    forall a, b | a in list && b in list && !WasDestroyed(a) && !WasDestroyed(b) ::
      a.id in ordered && b.id in ordered ==> a.id == b.id
  }

  function CountRemaining(list: seq<Listed>): nat {
    if list == [] then 0
    else CountRemaining(list[..|list| - 1]) + if WasDestroyed(list[|list| - 1]) then 0 else 1
  }

  lemma OneMoreCounted(list: seq<Listed>, i: nat)
    requires i < |list|
    ensures list[i] in list && list[..i + 1] == list[..i] + [list[i]]
    ensures CountRemaining(list[..i + 1]) == CountRemaining(list[..i]) + if WasDestroyed(list[i]) then 0 else 1
    ensures CountRemaining(list[..i]) <= i
  {
    assert list[..i + 1][..i] == list[..i];
    SomeRemain(list[..i]);
  }

  lemma {:induction false} SomeRemain(list: seq<Listed>)
    ensures CountRemaining(list) > 0 <==> exists a :: a in list && !WasDestroyed(a)
    ensures CountRemaining(list) <= |list|
  {
    if list != [] {
      var init, last := list[..|list| - 1], list[|list| - 1];
      SomeRemain(init);
      assert list == init + [last];
    }
  }

  /** Of several that are not destroyed, at least one is not x. */
  lemma {:induction false} AnotherRemains(list: seq<Listed>, x: Listed)
    requires CountRemaining(list) >= 2 && forall i, j | 0 <= i < j < |list| :: list[i].id != list[j].id
    ensures exists a :: a in list && !WasDestroyed(a) && a.id != x.id
    decreases |list|
  {
    var init, last := list[..|list| - 1], list[|list| - 1];
    assert list == init + [last];
    if WasDestroyed(last) {
      AnotherRemains(init, x);
      var a :| a in init && !WasDestroyed(a) && a.id != x.id;
      assert a in list;
    } else if last.id != x.id {
      assert last in list;
    } else {
      SomeRemain(init);
      var a :| a in init && !WasDestroyed(a);
      assert a in list;
    }
  }

  predicate IsEarlier(a: Listed, b: Listed) {
    a.row.status == Online && a.row.startTime < b.row.startTime
  }

  /** No online agent is older, nor the first of the list; and it is one of those. */
  predicate IsChosen(list: seq<Listed>, oldest: Listed) {
    && list != [] && oldest in list && (oldest == list[0] || oldest.row.status == Online)
    && (forall a | a in list && a.row.status == Online :: oldest.row.startTime <= a.row.startTime)
    && oldest.row.startTime <= list[0].row.startTime
  }

  class Killer {
    const table: AgentTable
    /** Ids ordered destroyed, in order. */
    ghost var ordered: seq<int>

    constructor (table: AgentTable)
      ensures this.table == table && ordered == []
    {
      this.table, ordered := table, [];
    }

    /** The action goes out, then the row is marked; either can fail. */
    method IssueKillAction(a: Listed, now: int) returns (ok: bool)
      requires a.id in table.rows
      modifies this, table
      ensures table.rows.Keys == old(table.rows).Keys
      ensures ordered == old(ordered) || ordered == old(ordered) + [a.id]
      ensures ok ==> ordered == old(ordered) + [a.id] && table.rows == MarkedDestroyed(old(table.rows), {a.id}, now)
      ensures ok ==> table.rows[a.id] == old(table.rows)[a.id].(status := Destroyed, destructionTime := now)
      ensures !ok ==> table.rows == old(table.rows) && table.faulty
    {
      ok := Succeeds(table.faulty);
      if !ok {
        return;
      }
      ordered := ordered + [a.id];
      ok := Succeeds(table.faulty);
      if ok {
        table.rows := table.rows[a.id := table.rows[a.id].(status := Destroyed, destructionTime := now)];
      }
    }

    /** The first loop: an agent destroyed more than three heartbeats ago is ordered destroyed again. */
    method KillAgain(list: seq<Listed>, now: int, heartbeatFreq: int) returns (ok: bool, destroyed: nat, leftAlone: nat)
      requires ordered == [] && forall a | a in list :: a.id in table.rows
      modifies this, table
      ensures table.rows.Keys == old(table.rows).Keys
      ensures forall id | id in ordered :: exists a :: a in list && a.id == id && WasDestroyed(a)
      ensures !ok ==> table.faulty
      ensures ok ==> destroyed + leftAlone == |list| - CountRemaining(list)
      ensures ok ==>
        forall a | a in list && WasDestroyed(a) && a.row.destructionTime < now - 3 * heartbeatFreq :: a.id in ordered
    {
      destroyed, leftAlone, ok := 0, 0, true;
      for i := 0 to |list|
        invariant table.rows.Keys == old(table.rows).Keys
        invariant forall id | id in ordered :: exists a :: a in list && a.id == id && WasDestroyed(a)
        invariant destroyed + leftAlone == i - CountRemaining(list[..i])
        invariant forall a | a in list[..i] && WasDestroyed(a) && a.row.destructionTime < now - 3 * heartbeatFreq ::
          a.id in ordered
      {
        OneMoreCounted(list, i);
        if list[i].row.status == Destroyed {
          if list[i].row.destructionTime < now - 3 * heartbeatFreq {
            ok := IssueKillAction(list[i], now);
            if !ok {
              return;
            }
            destroyed := destroyed + 1;
          } else {
            leftAlone := leftAlone + 1;
          }
        }
      }
      assert list[..|list|] == list;
    }

    /** Starts from the first agent, whatever its status, and moves to any online agent that started earlier. */
    method Oldest(list: seq<Listed>) returns (oldest: Listed)
      requires list != []
      ensures IsChosen(list, oldest)
      ensures oldest.row.status == Online
         <==> list[0].row.status == Online || exists a :: a in list && IsEarlier(a, list[0])
    {
      oldest := list[0];
      for i := 0 to |list|
        invariant oldest in list
        invariant forall a | a in list[..i] && a.row.status == Online :: oldest.row.startTime <= a.row.startTime
        invariant oldest.row.startTime <= list[0].row.startTime
        invariant oldest == list[0] ==> forall a | a in list[..i] :: !IsEarlier(a, list[0])
        invariant oldest != list[0] ==> IsEarlier(oldest, list[0])
      {
        assert list[..i + 1] == list[..i] + [list[i]];
        if list[i].row.status != Online {
          continue;
        }
        if list[i].row.startTime < oldest.row.startTime {
          oldest := list[i];
        }
      }
      assert list[..|list|] == list;
    }

    /**
     If some active agent of the queue was not destroyed, one is left that this pass does not order
     destroyed, however the pass ends.  The error of the query is not looked at: the pass goes on with
     what it got, and returns the error at the end unless an order went out after it.
     */
    method KillDupAgents(list: seq<Listed>, queried: bool, queueLoc: string, now: int, heartbeatFreq: int,
                         killDupAgents: bool)
      returns (ok: bool)
      requires IsListing(table.rows, queueLoc, now - heartbeatFreq, list, queried) && (queried || table.faulty)
      requires ordered == [] && now - 3 * heartbeatFreq > ZERO
      modifies this, table
      ensures forall id | id in ordered :: exists a :: a in list && a.id == id
      ensures SparesOne(old(table.rows), queueLoc, now - heartbeatFreq, ordered)
      ensures (exists a :: a in list && !WasDestroyed(a)) ==>
        exists a :: a in list && !WasDestroyed(a) && a.id !in ordered
      ensures !ok ==> table.faulty
      ensures ok && |list| >= 2 ==> forall a | a in list && WasDestroyed(a) :: a.id in ordered
      ensures ok && killDupAgents && CountRemaining(list) >= 2 ==> exists a :: IsChosen(list, a) && a.id in ordered
      ensures OrdersOneAtMost(list, ordered)
      ensures !killDupAgents ==> forall a | a in list && !WasDestroyed(a) :: a.id !in ordered
    {
      ok := KillListed(list, queried, now, heartbeatFreq, killDupAgents);
      OneIsUp(old(table.rows), queueLoc, now - heartbeatFreq, list, ordered);
    }

    method KillListed(list: seq<Listed>, queried: bool, now: int, heartbeatFreq: int, killDupAgents: bool)
      returns (ok: bool)
      requires forall i, j | 0 <= i < j < |list| :: list[i].id != list[j].id
      requires forall a | a in list :: a.id in table.rows && a.row.destructionTime == ZERO
      requires (queried || table.faulty) && ordered == [] && now - 3 * heartbeatFreq > ZERO
      modifies this, table
      ensures forall id | id in ordered :: exists a :: a in list && a.id == id
      ensures (exists a :: a in list && !WasDestroyed(a)) ==>
        exists a :: a in list && !WasDestroyed(a) && a.id !in ordered
      ensures !ok ==> table.faulty
      ensures ok && |list| >= 2 ==> forall a | a in list && WasDestroyed(a) :: a.id in ordered
      ensures ok && killDupAgents && CountRemaining(list) >= 2 ==> exists a :: IsChosen(list, a) && a.id in ordered
      ensures OrdersOneAtMost(list, ordered)
      ensures !killDupAgents ==> forall a | a in list && !WasDestroyed(a) :: a.id !in ordered
    {
      ok := queried;
      SomeRemain(list);
      if |list| < 2 {
        return;
      }
      var again, destroyed, leftAlone := KillAgain(list, now, heartbeatFreq);
      forall a | a in list && !WasDestroyed(a) ensures a.id !in ordered {
        OnlyOne(list, a);
      }
      if !again {
        return false;
      }
      var remaining := |list| - destroyed - leftAlone;
      if remaining > 1 && killDupAgents {
        ghost var before := ordered;
        var oldest;
        ok, oldest := KillOldest(list, now);
        OneIsLeft(list, before, oldest);
      }
    }

    method KillOldest(list: seq<Listed>, now: int) returns (ok: bool, oldest: Listed)
      requires list != [] && forall a | a in list :: a.id in table.rows
      modifies this, table
      ensures IsChosen(list, oldest) && (!ok ==> table.faulty)
      ensures ordered == old(ordered) || ordered == old(ordered) + [oldest.id]
      ensures ok ==> ordered == old(ordered) + [oldest.id]
    {
      oldest := Oldest(list);
      ok := IssueKillAction(oldest, now);
    }
  }

  /** Of several that are not destroyed, ordering one more leaves one. */
  lemma OneIsLeft(list: seq<Listed>, again: seq<int>, oldest: Listed)
    requires CountRemaining(list) >= 2 && forall i, j | 0 <= i < j < |list| :: list[i].id != list[j].id
    requires forall a | a in list && !WasDestroyed(a) :: a.id !in again
    ensures exists a :: a in list && !WasDestroyed(a) && a.id !in again + [oldest.id]
    ensures (forall a, b | a in list && b in list && !WasDestroyed(a) && !WasDestroyed(b)
      && a.id in again + [oldest.id] && b.id in again + [oldest.id] :: a.id == b.id)
  {
    AnotherRemains(list, oldest);
    var other :| other in list && !WasDestroyed(other) && other.id != oldest.id;
    assert other.id !in again + [oldest.id];
  }

  /** One that is up is left: either of the list, or, after a query that failed, one that is not in it. */
  lemma OneIsUp(rows: Rows, queueLoc: string, point: int, list: seq<Listed>, ordered: seq<int>)
    requires IsListing(rows, queueLoc, point, list, false)
    requires forall id | id in ordered :: exists a :: a in list && a.id == id
    requires (exists a :: a in list && !WasDestroyed(a)) ==>
      exists a :: a in list && !WasDestroyed(a) && a.id !in ordered
    ensures SparesOne(rows, queueLoc, point, ordered)
  {
    if id :| IsUp(rows, queueLoc, point, id) {
      if id in ordered {
        var a :| a in list && a.id == id;
        assert !WasDestroyed(a);
        var b :| b in list && !WasDestroyed(b) && b.id !in ordered;
        assert IsUp(rows, queueLoc, point, b.id);
      }
    }
  }

  lemma OnlyOne(list: seq<Listed>, a: Listed)
    requires a in list && forall i, j | 0 <= i < j < |list| :: list[i].id != list[j].id
    ensures forall b | b in list && b.id == a.id :: b == a
  {
  }
}
