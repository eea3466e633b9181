/** What single statements of the schedulers do, in terms of the rows and files they look at. */
module SchedulerSteps {
  import opened Common
  import opened CommandTable
  import opened Scheduler

  /** The collector offers a file of its spool exactly when it loads, is past its start and not past its end, and
      removes it exactly when it is past its end and can be removed. */
  lemma VisitOffersIff(st: State, s: nat, id: ActionId, ok: bool)
    requires s < |st.scheds| && st.scheds[s].collector.Scanning? && id in st.scheds[s].collector.names
    ensures |Step(st, Visit(s, id, ok)).scheds| == |st.scheds|
    ensures var before, after := st.scheds[s], Step(st, Visit(s, id, ok)).scheds[s];
      && after.collector.Offering?
         == (ok && id in before.spool && before.spool[id].validFrom < st.now <= before.spool[id].expireAfter)
      && (after.collector.Offering? ==> after.collector.path == id)
      && after.spool == if ok && id in before.spool && st.now > before.spool[id].expireAfter then before.spool - {id}
                        else before.spool
  {
  }

  /** The target query picks a queue exactly when some selected agent on it is online or idle, and picks it once. */
  lemma PickedIff(picked: seq<Target>, agents: map<AgentId, AgentRow>, selected: set<AgentId>, queueLoc: string)
    requires DistinctOn(picked, agents, selected)
    ensures (exists i :: 0 <= i < |picked| && picked[i].queueLoc == queueLoc)
       <==> exists id :: IsAliveOn(agents, selected, queueLoc, id)
    ensures forall i, j | 0 <= i < j < |picked| :: picked[i].queueLoc != picked[j].queueLoc
    ensures forall i | 0 <= i < |picked| :: IsAliveOn(agents, selected, picked[i].queueLoc, picked[i].agent)
  {
    forall i | 0 <= i < |picked| ensures IsAliveOn(agents, selected, picked[i].queueLoc, picked[i].agent) {
      assert picked[i] in picked;
    }
    if id :| IsAliveOn(agents, selected, queueLoc, id) {
      assert HasQueue(picked, agents[id].queueLoc);
      var t :| t in picked && t.queueLoc == queueLoc;
    }
  }

  predicate IsAliveOn(agents: map<AgentId, AgentRow>, selected: set<AgentId>, queueLoc: string, id: AgentId) {
    && id in selected && id in agents && agents[id].queueLoc == queueLoc
    && (agents[id].status == Online || agents[id].status == Idle)
  }

  /** The insert of a batch puts in a row for each command, sent, of its action and for its agent, unless an id is
      taken, and changes no other row. */
  lemma FlushInsertsRows(st: State, s: nat, order: seq<Command>, ok: bool, id: CommandId)
    requires s < |st.scheds| && st.scheds[s].ctr > 0 && st.scheds[s].writing == []
    requires Lists(order, st.scheds[s].readyCmd)
    ensures var ready, rows := st.scheds[s].readyCmd, Step(st, Flush(s, order, ok)).commands;
      if ok && (forall c | c in ready :: c !in st.commands) then
        && rows.Keys == st.commands.Keys + ready.Keys
        && (id in ready ==>
              rows[id] == CommandRow(ready[id].action, ready[id].target.agent, Sent, "", FAR_FUTURE))
        && (id in st.commands ==> rows[id] == st.commands[id])
      else rows == st.commands
  {
    var ready := st.scheds[s].readyCmd;
    if forall c | c in ready :: c !in st.commands {
      assert ready.Keys * st.commands.Keys == {};
    } else {
      var c :| c in ready && c in st.commands;
      assert c in ready.Keys * st.commands.Keys;
    }
  }
}
