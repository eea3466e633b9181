/**
 The commands table: what finishing a command does to a row, and what the per-action counters
 say about the rows.  SQL statements are atomic operations on finite maps.
 */
module CommandTable {
  import opened FiniteSets

  type CommandId = int
  type ActionId = int
  type AgentId = int

  /** A status is any string; the six the counters know about have names of their own. */
  datatype Status = Sent | Success | Cancelled | Expired | Failed | Timeout | Other(text: string)

  datatype AgentStatus = Online | Idle | Destroyed | Offline

  datatype AgentRow = AgentRow(queueLoc: string, pid: int, status: AgentStatus)

  datatype CommandRow =
    CommandRow(action: ActionId, agent: AgentId, status: Status, results: string, finishTime: int)

  /** A command that comes back, from an agent or from the expiry of an in-flight file. */
  datatype Returned =
    Returned(id: CommandId, queueLoc: string, pid: int, status: Status, results: string, finishTime: int)

  const DONE: set<Status> := {Success, Cancelled, Expired, Failed, Timeout}

  // ----- FinishCommand -----

  /** The sub-select: the row's agent sits on the returned queue and pid, and is alive. */
  predicate AgentAnswers(agents: map<AgentId, AgentRow>, agent: AgentId, cmd: Returned) {
    && agent in agents
    && agents[agent].queueLoc == cmd.queueLoc
    && agents[agent].pid == cmd.pid
    && agents[agent].status in {Online, Idle}
  }

  function FinishRow(row: CommandRow, answers: bool, cmd: Returned): CommandRow {
    if answers && row.status != Success then
      row.(status := cmd.status, results := cmd.results, finishTime := cmd.finishTime)
    else row
  }

  function FinishCommand(rows: map<CommandId, CommandRow>, agents: map<AgentId, AgentRow>, cmd: Returned)
    : map<CommandId, CommandRow>
  {
    if cmd.id in rows then
      rows[cmd.id := FinishRow(rows[cmd.id], AgentAnswers(agents, rows[cmd.id].agent, cmd), cmd)]
    else rows
  }

  /** Exactly which returns are written, and that nothing else changes.  An agent that is idle answers like one that is
      online; one that is offline or destroyed does not. */
  lemma FinishCommandWritesIff(rows: map<CommandId, CommandRow>, agents: map<AgentId, AgentRow>, cmd: Returned)
    ensures FinishCommand(rows, agents, cmd).Keys == rows.Keys
    ensures forall id | id in rows && id != cmd.id :: FinishCommand(rows, agents, cmd)[id] == rows[id]
    ensures cmd.id in rows ==>
      FinishCommand(rows, agents, cmd)[cmd.id]
        == if && rows[cmd.id].status != Success && rows[cmd.id].agent in agents
              && agents[rows[cmd.id].agent].queueLoc == cmd.queueLoc && agents[rows[cmd.id].agent].pid == cmd.pid
              && (agents[rows[cmd.id].agent].status == Online || agents[rows[cmd.id].agent].status == Idle)
           then CommandRow(rows[cmd.id].action, rows[cmd.id].agent, cmd.status, cmd.results, cmd.finishTime)
           else rows[cmd.id]
  {
  }

  // ----- Any number of copies of one command, in any order -----

  /** A copy together with the verdict of the agent guard at the moment it is processed. */
  datatype Copy = Copy(answers: bool, cmd: Returned)

  function FinishAll(row: CommandRow, copies: seq<Copy>): CommandRow
    decreases |copies|
  {
    if copies == [] then row
    else FinishAll(FinishRow(row, copies[0].answers, copies[0].cmd), copies[1..])
  }

  ghost predicate Decides(copies: seq<Copy>, k: int) {
    && 0 <= k < |copies|
    && copies[k].answers
    && (|| (&& copies[k].cmd.status == Success
            && forall j | 0 <= j < k && copies[j].answers :: copies[j].cmd.status != Success)
        || (&& (forall j | 0 <= j < |copies| && copies[j].answers :: copies[j].cmd.status != Success)
            && forall j | k < j < |copies| :: !copies[j].answers))
  }

  function Stamp(row: CommandRow, cmd: Returned): CommandRow {
    row.(status := cmd.status, results := cmd.results, finishTime := cmd.finishTime)
  }

  lemma {:induction false} SuccessAbsorbs(row: CommandRow, copies: seq<Copy>)
    requires row.status == Success
    ensures FinishAll(row, copies) == row
    decreases |copies|
  {
    if copies != [] {
      SuccessAbsorbs(row, copies[1..]);
    }
  }

  ghost predicate NoneAnswers(copies: seq<Copy>) {
    forall j | 0 <= j < |copies| :: !copies[j].answers
  }

  lemma FirstSuccessDecides(copies: seq<Copy>, k: int)
    requires copies != [] && copies[0].answers && copies[0].cmd.status == Success
    ensures Decides(copies, k) <==> k == 0
  {
  }

  lemma FirstDecides(copies: seq<Copy>)
    requires copies != [] && copies[0].answers && copies[0].cmd.status != Success
    ensures Decides(copies, 0) <==> NoneAnswers(copies[1..])
  {
    assert forall j | 0 < j < |copies| :: copies[j] == copies[1..][j - 1];
    assert forall j | 0 <= j < |copies| - 1 :: copies[1..][j] == copies[j + 1];
  }

  lemma LaterDecides(copies: seq<Copy>, k: int)
    requires copies != [] && (copies[0].answers ==> copies[0].cmd.status != Success) && 0 < k
    ensures Decides(copies, k) <==> Decides(copies[1..], k - 1)
  {
    var rest := copies[1..];
    assert forall j | 0 < j < |copies| :: copies[j] == rest[j - 1];
    assert forall j | 0 <= j < |rest| :: rest[j] == copies[j + 1];
  }

  /** The exact outcome: the first success among the copies that pass the guard, else the last
      copy that passes it, else nothing has changed. */
  lemma {:induction false} FinishAllOutcome(row: CommandRow, copies: seq<Copy>)
    requires row.status != Success
    ensures NoneAnswers(copies) ==> FinishAll(row, copies) == row
    ensures forall k | Decides(copies, k) :: FinishAll(row, copies) == Stamp(row, copies[k].cmd)
    ensures !NoneAnswers(copies) ==> exists k :: Decides(copies, k)
    decreases |copies|
  {
    if copies != [] {
      var next, rest := FinishRow(row, copies[0].answers, copies[0].cmd), copies[1..];
      if next.status == Success {
        SuccessAbsorbs(next, rest);
        FirstSuccessDecides(copies, 0);
        forall k | Decides(copies, k) ensures k == 0 {
          FirstSuccessDecides(copies, k);
        }
      } else {
        FinishAllOutcome(next, rest);
        LaterOutcome(row, copies);
      }
    }
  }

  lemma LaterOutcome(row: CommandRow, copies: seq<Copy>)
    requires copies != [] && row.status != Success
    requires copies[0].answers ==> copies[0].cmd.status != Success
    requires var next, rest := FinishRow(row, copies[0].answers, copies[0].cmd), copies[1..];
      && (NoneAnswers(rest) ==> FinishAll(next, rest) == next)
      && (forall k | Decides(rest, k) :: FinishAll(next, rest) == Stamp(next, rest[k].cmd))
      && (!NoneAnswers(rest) ==> exists k :: Decides(rest, k))
    ensures NoneAnswers(copies) ==> FinishAll(row, copies) == row
    ensures forall k | Decides(copies, k) :: FinishAll(row, copies) == Stamp(row, copies[k].cmd)
    ensures !NoneAnswers(copies) ==> exists k :: Decides(copies, k)
  {
    var rest := copies[1..];
    assert NoneAnswers(copies) <==> !copies[0].answers && NoneAnswers(rest) by {
      assert forall j | 0 <= j < |rest| :: rest[j] == copies[j + 1];
      assert forall j | 0 < j < |copies| :: copies[j] == rest[j - 1];
    }
    if copies[0].answers {
      FirstDecides(copies);
    }
    forall k | Decides(copies, k) ensures FinishAll(row, copies) == Stamp(row, copies[k].cmd) {
      if k != 0 {
        LaterDecides(copies, k);
      }
    }
    if k :| Decides(rest, k) {
      LaterDecides(copies, k + 1);
    }
  }

  /** Which status wins does not depend on the order in which the copies are processed. */
  lemma FinishingIsConfluent(row: CommandRow, copies: seq<Copy>, other: seq<Copy>)
    requires multiset(copies) == multiset(other)
    ensures FinishAll(row, copies).status == Success
       <==> row.status == Success || exists c :: c in copies && c.answers && c.cmd.status == Success
    ensures FinishAll(row, copies).status == Success <==> FinishAll(row, other).status == Success
  {
    WinsIffSomeSuccess(row, copies);
    WinsIffSomeSuccess(row, other);
    assert forall c :: c in copies <==> c in multiset(copies);
    assert forall c :: c in other <==> c in multiset(other);
  }

  lemma {:induction false} WinsIffSomeSuccess(row: CommandRow, copies: seq<Copy>)
    ensures FinishAll(row, copies).status == Success
       <==> row.status == Success || exists c :: c in copies && c.answers && c.cmd.status == Success
    decreases |copies|
  {
    if copies != [] {
      WinsIffSomeSuccess(FinishRow(row, copies[0].answers, copies[0].cmd), copies[1..]);
    }
  }

  // ----- Counters -----

  function Matching(rows: map<CommandId, CommandRow>, action: ActionId, statuses: set<Status>)
    : set<CommandId>
  {
    set id | id in rows && rows[id].action == action && rows[id].status in statuses
  }

  function Count(rows: map<CommandId, CommandRow>, action: ActionId, statuses: set<Status>): nat {
    |Matching(rows, action, statuses)|
  }

  lemma CountSplits(rows: map<CommandId, CommandRow>, action: ActionId, some: set<Status>, more: set<Status>)
    requires some !! more
    ensures Count(rows, action, some + more) == Count(rows, action, some) + Count(rows, action, more)
  {
    assert Matching(rows, action, some + more) == Matching(rows, action, some) + Matching(rows, action, more);
  }

  datatype Counters = Counters(sent: nat, done: nat, inFlight: nat, success: nat,
                               cancelled: nat, expired: nat, failed: nat, timeOut: nat)

  function CountersOf(rows: map<CommandId, CommandRow>, action: ActionId): Counters {
    Counters(Count(rows, action, DONE + {Sent}), Count(rows, action, DONE), Count(rows, action, {Sent}),
             Count(rows, action, {Success}), Count(rows, action, {Cancelled}), Count(rows, action, {Expired}),
             Count(rows, action, {Failed}), Count(rows, action, {Timeout}))
  }

  /** What each counter counts. */
  lemma CountersCount(rows: map<CommandId, CommandRow>, action: ActionId)
    ensures CountersOf(rows, action).sent
         == |set id | id in rows && rows[id].action == action && !rows[id].status.Other?|
    ensures CountersOf(rows, action).done
         == |set id | id in rows && rows[id].action == action && !rows[id].status.Other? && !rows[id].status.Sent?|
    ensures CountersOf(rows, action).inFlight
         == |set id | id in rows && rows[id].action == action && rows[id].status == Sent|
    ensures CountersOf(rows, action).success
         == |set id | id in rows && rows[id].action == action && rows[id].status == Success|
    ensures CountersOf(rows, action).cancelled
         == |set id | id in rows && rows[id].action == action && rows[id].status == Cancelled|
    ensures CountersOf(rows, action).expired
         == |set id | id in rows && rows[id].action == action && rows[id].status == Expired|
    ensures CountersOf(rows, action).failed
         == |set id | id in rows && rows[id].action == action && rows[id].status == Failed|
    ensures CountersOf(rows, action).timeOut
         == |set id | id in rows && rows[id].action == action && rows[id].status == Timeout|
  {
    assert Matching(rows, action, DONE + {Sent})
        == set id | id in rows && rows[id].action == action && !rows[id].status.Other?;
    assert Matching(rows, action, DONE)
        == set id | id in rows && rows[id].action == action && !rows[id].status.Other? && !rows[id].status.Sent?;
    assert Matching(rows, action, {Sent})
        == set id | id in rows && rows[id].action == action && rows[id].status == Sent;
    assert Matching(rows, action, {Success})
        == set id | id in rows && rows[id].action == action && rows[id].status == Success;
    assert Matching(rows, action, {Cancelled})
        == set id | id in rows && rows[id].action == action && rows[id].status == Cancelled;
    assert Matching(rows, action, {Expired})
        == set id | id in rows && rows[id].action == action && rows[id].status == Expired;
    assert Matching(rows, action, {Failed})
        == set id | id in rows && rows[id].action == action && rows[id].status == Failed;
    assert Matching(rows, action, {Timeout})
        == set id | id in rows && rows[id].action == action && rows[id].status == Timeout;
  }

  datatype Group = Group(status: Status, count: nat)

  /** The rows a GROUP BY status may return, in whatever order. */
  ghost predicate IsGrouping(groups: seq<Group>, rows: map<CommandId, CommandRow>, action: ActionId) {
    && Distinct(groups)
    && (forall i | 0 <= i < |groups| :: groups[i].count == Count(rows, action, {groups[i].status}))
    && (forall id | id in rows && rows[id].action == action ::
          exists i :: 0 <= i < |groups| && groups[i].status == rows[id].status)
  }

  /** What the groups seen so far say about one status. */
  ghost function Tally(groups: seq<Group>, status: Status): nat {
    if groups == [] then 0
    else Tally(groups[..|groups| - 1], status)
         + if groups[|groups| - 1].status == status then groups[|groups| - 1].count else 0
  }

  ghost predicate Distinct(groups: seq<Group>) {
    forall i, j | 0 <= i < j < |groups| :: groups[i].status != groups[j].status
  }

  lemma {:induction false} TallyOfDistinct(groups: seq<Group>, status: Status)
    requires Distinct(groups)
    ensures forall i | 0 <= i < |groups| && groups[i].status == status :: Tally(groups, status) == groups[i].count
    ensures (forall i | 0 <= i < |groups| :: groups[i].status != status) ==> Tally(groups, status) == 0
  {
    if groups != [] {
      var init := groups[..|groups| - 1];
      TallyOfDistinct(init, status);
      assert forall i | 0 <= i < |init| :: init[i] == groups[i];
    }
  }

  lemma TallyIsCount(groups: seq<Group>, rows: map<CommandId, CommandRow>, action: ActionId, status: Status)
    requires IsGrouping(groups, rows, action)
    ensures Tally(groups, status) == Count(rows, action, {status})
  {
    TallyOfDistinct(groups, status);
    if forall i | 0 <= i < |groups| :: groups[i].status != status {
      forall id | id in rows && rows[id].action == action ensures rows[id].status != status {
        var i :| 0 <= i < |groups| && groups[i].status == rows[id].status;
      }
      assert Matching(rows, action, {status}) == {};
    }
  }

  lemma CountsAddUp(rows: map<CommandId, CommandRow>, action: ActionId)
    ensures var c := CountersOf(rows, action);
      && c.sent == c.inFlight + c.done
      && c.done == c.success + c.cancelled + c.expired + c.failed + c.timeOut
  {
    CountSplits(rows, action, DONE, {Sent});
    CountSplits(rows, action, {Success}, {Cancelled});
    CountSplits(rows, action, {Success} + {Cancelled}, {Expired});
    CountSplits(rows, action, {Success} + {Cancelled} + {Expired}, {Failed});
    CountSplits(rows, action, {Success} + {Cancelled} + {Expired} + {Failed}, {Timeout});
    assert DONE == {Success} + {Cancelled} + {Expired} + {Failed} + {Timeout};
  }

  /** The counters after some of the groups. */
  ghost predicate IsTallied(counters: Counters, groups: seq<Group>) {
    && counters.inFlight == Tally(groups, Sent) && counters.success == Tally(groups, Success)
    && counters.cancelled == Tally(groups, Cancelled) && counters.expired == Tally(groups, Expired)
    && counters.failed == Tally(groups, Failed) && counters.timeOut == Tally(groups, Timeout)
    && counters.sent == counters.inFlight + counters.done
    && counters.done == counters.success + counters.cancelled + counters.expired + counters.failed + counters.timeOut
  }

  lemma NotTalliedYet(groups: seq<Group>, last: Group)
    requires Distinct(groups + [last])
    ensures Tally(groups, last.status) == 0
  {
    var all := groups + [last];
    assert Distinct(groups) by {
      assert forall i | 0 <= i < |groups| :: groups[i] == all[i];
    }
    forall i | 0 <= i < |groups| ensures groups[i].status != last.status {
      assert all[i].status != all[|groups|].status;
    }
    TallyOfDistinct(groups, last.status);
  }

  lemma OneMoreGroup(groups: seq<Group>, last: Group, status: Status)
    ensures Tally(groups + [last], status)
         == Tally(groups, status) + if last.status == status then last.count else 0
  {
    assert (groups + [last])[..|groups|] == groups;
  }

  lemma OneMoreTallied(groups: seq<Group>, last: Group, before: Counters, after: Counters)
    requires Distinct(groups + [last]) && IsTallied(before, groups)
    requires after.done == before.done + if last.status.Sent? || last.status.Other? then 0 else last.count
    requires after.sent == before.sent + if last.status.Other? then 0 else last.count
    requires after.inFlight == if last.status == Sent then last.count else before.inFlight
    requires after.success == if last.status == Success then last.count else before.success
    requires after.cancelled == if last.status == Cancelled then last.count else before.cancelled
    requires after.expired == if last.status == Expired then last.count else before.expired
    requires after.failed == if last.status == Failed then last.count else before.failed
    requires after.timeOut == if last.status == Timeout then last.count else before.timeOut
    ensures IsTallied(after, groups + [last])
  {
    NotTalliedYet(groups, last);
    OneMoreGroup(groups, last, Sent);
    OneMoreGroup(groups, last, Success);
    OneMoreGroup(groups, last, Cancelled);
    OneMoreGroup(groups, last, Expired);
    OneMoreGroup(groups, last, Failed);
    OneMoreGroup(groups, last, Timeout);
  }

  /** The body of the loop over the groups. */
  method CountGroup(counters: Counters, group: Group, ghost before: seq<Group>) returns (counted: Counters)
    requires Distinct(before + [group]) && IsTallied(counters, before)
    ensures IsTallied(counted, before + [group])
  {
    counted := counters;
    var count := group.count;
    var done, sent := counters.done + count, counters.sent + count;
    match group.status {
      case Sent => counted := counted.(inFlight := count, sent := sent);
      case Success => counted := counted.(success := count, done := done, sent := sent);
      case Cancelled => counted := counted.(cancelled := count, done := done, sent := sent);
      case Expired => counted := counted.(expired := count, done := done, sent := sent);
      case Failed => counted := counted.(failed := count, done := done, sent := sent);
      case Timeout => counted := counted.(timeOut := count, done := done, sent := sent);
      case Other(_) =>
    }
    OneMoreTallied(before, group, counters, counted);
  }

  method GetActionCounters(groups: seq<Group>, ghost rows: map<CommandId, CommandRow>, ghost action: ActionId)
    returns (counters: Counters)
    requires IsGrouping(groups, rows, action)
    ensures counters == CountersOf(rows, action)
    ensures counters.sent == counters.inFlight + counters.done
    ensures counters.done
         == counters.success + counters.cancelled + counters.expired + counters.failed + counters.timeOut
  {
    counters := Counters(0, 0, 0, 0, 0, 0, 0, 0);
    for k := 0 to |groups|
      invariant IsTallied(counters, groups[..k])
    {
      assert groups[..k] + [groups[k]] == groups[..k + 1];
      assert forall i | 0 <= i <= k :: groups[..k + 1][i] == groups[i];
      counters := CountGroup(counters, groups[k], groups[..k]);
    }
    assert groups[..|groups|] == groups;
    TallyIsCount(groups, rows, action, Sent);
    TallyIsCount(groups, rows, action, Success);
    TallyIsCount(groups, rows, action, Cancelled);
    TallyIsCount(groups, rows, action, Expired);
    TallyIsCount(groups, rows, action, Failed);
    TallyIsCount(groups, rows, action, Timeout);
    CountsAddUp(rows, action);
  }

  /** Done == Sent says exactly that no row of the action is still sent. */
  lemma AllDoneIffNoneSent(rows: map<CommandId, CommandRow>, action: ActionId)
    ensures var c := CountersOf(rows, action); c.done == c.sent <==> NoneSent(rows, action)
  {
    CountSplits(rows, action, DONE, {Sent});
    var sent := Matching(rows, action, {Sent});
    if sent == {} {
      forall id | id in rows && rows[id].action == action ensures rows[id].status != Sent {
        assert id !in sent;
      }
    } else {
      var id := SomeMember(sent);
      assert rows[id].status == Sent;
    }
  }

  ghost predicate NoneSent(rows: map<CommandId, CommandRow>, action: ActionId) {
    forall id | id in rows && rows[id].action == action :: rows[id].status != Sent
  }

  lemma FinishedMatches(rows: map<CommandId, CommandRow>, agents: map<AgentId, AgentRow>, cmd: Returned,
                        action: ActionId, statuses: set<Status>)
    ensures Matching(FinishCommand(rows, agents, cmd), action, statuses) - {cmd.id}
         == Matching(rows, action, statuses) - {cmd.id}
  {
  }

  lemma CountFalls(was: set<CommandId>, now: set<CommandId>, id: CommandId)
    requires now - {id} == was - {id}
    ensures |now| < |was| <==> id in was && id !in now
  {
    assert id in was ==> was == (was - {id}) + {id};
    assert id !in was ==> was == was - {id};
    assert id in now ==> now == (was - {id}) + {id};
    assert id !in now ==> now == was - {id};
  }

  /** Finishing lowers the Done counter of an action in exactly one situation: the guard passes, the
      row was done, and the returned status is not one of the done statuses. */
  lemma DoneDropsOnlyOnUnfinishedReturn(rows: map<CommandId, CommandRow>, agents: map<AgentId, AgentRow>,
                                        cmd: Returned, action: ActionId)
    ensures Count(FinishCommand(rows, agents, cmd), action, DONE) < Count(rows, action, DONE)
       <==> && cmd.id in rows && rows[cmd.id].action == action
            && AgentAnswers(agents, rows[cmd.id].agent, cmd)
            && rows[cmd.id].status in DONE - {Success}
            && cmd.status !in DONE
  {
    FinishedMatches(rows, agents, cmd, action, DONE);
    CountFalls(Matching(rows, action, DONE), Matching(FinishCommand(rows, agents, cmd), action, DONE), cmd.id);
  }
}
