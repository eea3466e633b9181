/** The batches of the schedulers are what the batching loop makes of the commands that arrive. */
module SchedulerBatching {
  import opened Common
  import opened CommandTable
  import opened Scheduler
  import opened SchedulerConservation
  import opened SchedulerRuns
  import Batching

  /** The command that a creation event makes, if it makes one. */
  predicate Makes(st: State, e: Event, s: nat) {
    && e.Create? && e.s == s < |st.scheds| && e.ok
    && var sc := st.scheds[s];
       sc.worker.Creating? && sc.worker.targets != [] && sc.ctr < BATCH && sc.writing == []
  }

  function MadeBy(st: State, e: Event, s: nat): Command
    requires Makes(st, e, s)
  {
    var sc := st.scheds[s];
    Command(s, sc.nextId + e.gap, sc.worker.action.id, sc.worker.targets[0])
  }

  predicate HandsOver(st: State, e: Event, s: nat) {
    && e.Flush? && e.s == s < |st.scheds|
    && st.scheds[s].ctr > 0 && st.scheds[s].writing == [] && Lists(e.order, st.scheds[s].readyCmd)
  }

  /** The commands of scheduler s that have arrived since its batch was last handed over, under their ids. */
  ghost function WindowOf(st: State, events: seq<Event>, s: nat): seq<(CommandId, Command)>
    decreases |events|
  {
    if events == [] then []
    else
      var init, e := events[..|events| - 1], events[|events| - 1];
      var before := Run(st, init);
      if Makes(before, e, s) then WindowOf(st, init, s) + [(MadeBy(before, e, s).id, MadeBy(before, e, s))]
      else if HandsOver(before, e, s) then []
      else WindowOf(st, init, s)
  }

  /** What the batch of a scheduler is, given the window. */
  ghost predicate HoldsWindow(sc: Sched, window: seq<(CommandId, Command)>) {
    && sc.readyCmd == Batching.LastOf(window) && sc.ctr == |window|
    && (forall i | 0 <= i < |window| :: window[i].0 < sc.nextId && window[i].1.id == window[i].0)
    && (forall i, j | 0 <= i < j < |window| :: window[i].0 < window[j].0)
  }

  lemma MakingAdds(st: State, e: Event, s: nat, window: seq<(CommandId, Command)>)
    requires Makes(st, e, s) && HoldsWindow(st.scheds[s], window)
    ensures s < |Step(st, e).scheds|
    ensures HoldsWindow(Step(st, e).scheds[s], window + [(MadeBy(st, e, s).id, MadeBy(st, e, s))])
  {
    var more := window + [(MadeBy(st, e, s).id, MadeBy(st, e, s))];
    assert more[..|more| - 1] == window;
    assert Step(st, e) == DoCreate(st, s, e.gap, true);
  }

  lemma HandingOverEmpties(st: State, e: Event, s: nat)
    requires HandsOver(st, e, s)
    ensures s < |Step(st, e).scheds| && HoldsWindow(Step(st, e).scheds[s], [])
  {
    assert Step(st, e) == DoFlush(st, s, e.order, e.ok);
  }

  predicate LeavesBatchOf(st: State, st': State, s: nat) {
    && s < |st.scheds| == |st'.scheds|
    && var sc, sc' := st.scheds[s], st'.scheds[s];
       sc'.readyCmd == sc.readyCmd && sc'.ctr == sc.ctr && sc'.nextId >= sc.nextId
  }

  lemma CreationLeavesBatch(st: State, e: Event, s: nat)
    requires s < |st.scheds| && !Makes(st, e, s) && !HandsOver(st, e, s) && e.Create?
    ensures LeavesBatchOf(st, Step(st, e), s)
  {
  }

  lemma FlushLeavesBatch(st: State, e: Event, s: nat)
    requires s < |st.scheds| && !Makes(st, e, s) && !HandsOver(st, e, s) && e.Flush?
    ensures LeavesBatchOf(st, Step(st, e), s)
  {
  }

  lemma WriteLeavesBatch(st: State, e: Event, s: nat)
    requires s < |st.scheds| && !Makes(st, e, s) && !HandsOver(st, e, s) && e.Write?
    ensures LeavesBatchOf(st, Step(st, e), s)
  {
  }

  lemma PublicationLeavesBatch(st: State, e: Event, s: nat)
    requires s < |st.scheds| && !Makes(st, e, s) && !HandsOver(st, e, s) && e.Publish?
    ensures LeavesBatchOf(st, Step(st, e), s)
  {
  }

  lemma NonSendersLeaveBatch(st: State, e: Event, s: nat)
    requires s < |st.scheds| && !IsSending(e)
    ensures LeavesBatchOf(st, Step(st, e), s)
  {
    OthersLeaveBatches(st, e);
    assert SameBatch(st.scheds[s], Step(st, e).scheds[s]);
  }

  lemma OthersLeaveBatch(st: State, e: Event, s: nat)
    requires s < |st.scheds| && !Makes(st, e, s) && !HandsOver(st, e, s)
    ensures LeavesBatchOf(st, Step(st, e), s)
  {
    match e {
      case Create(_, _, _) => CreationLeavesBatch(st, e, s);
      case Flush(_, _, _) => FlushLeavesBatch(st, e, s);
      case Write(_, _) => WriteLeavesBatch(st, e, s);
      case Publish(_, _) => PublicationLeavesBatch(st, e, s);
      case _ => NonSendersLeaveBatch(st, e, s);
    }
  }

  /** In every run, the batch of a scheduler holds the commands that have arrived since it was last handed
      over, and its counter counts them. */
  lemma {:induction false} BatchIsWindow(n: nat, now: int, events: seq<Event>, s: nat)
    requires s < n
    ensures s < |Run(Init(n, now), events).scheds|
    ensures HoldsWindow(Run(Init(n, now), events).scheds[s], WindowOf(Init(n, now), events, s))
    decreases |events|
  {
    if events == [] {
      assert Init(n, now).scheds[s] == FreshSched();
    } else {
      var init, e := events[..|events| - 1], events[|events| - 1];
      var st, window := Run(Init(n, now), init), WindowOf(Init(n, now), init, s);
      BatchIsWindow(n, now, init, s);
      if Makes(st, e, s) {
        MakingAdds(st, e, s, window);
      } else if HandsOver(st, e, s) {
        HandingOverEmpties(st, e, s);
      } else {
        OthersLeaveBatch(st, e, s);
      }
    }
  }

  lemma OrderLists(order: seq<Command>, ready: map<CommandId, Command>)
    requires Lists(order, ready) && forall id | id in ready :: ready[id].id == id
    ensures Batching.Lists(order, ready)
  {
    var keys := seq(|order|, i requires 0 <= i < |order| => order[i].id);
    forall i | 0 <= i < |order| ensures keys[i] in ready && ready[keys[i]] == order[i] {
      assert order[i] in order && order[i] in Batched(ready);
    }
    forall id | id in ready ensures id in keys {
      assert ready[id] in Batched(ready);
      var i :| 0 <= i < |order| && order[i] == ready[id];
      assert keys[i] == id;
    }
    assert Batching.ListsBy(order, ready, keys);
  }

  /** So each list handed to sendCommands has every command that arrived since the last one, once. */
  lemma HandOverIsComplete(n: nat, now: int, events: seq<Event>, s: nat, e: Event)
    requires s < n && HandsOver(Run(Init(n, now), events), e, s)
    ensures multiset(e.order) == multiset(Batching.ValuesOf(WindowOf(Init(n, now), events, s)))
  {
    var window := WindowOf(Init(n, now), events, s);
    BatchIsWindow(n, now, events, s);
    Batching.LastOfSize(window);
    forall i, j | 0 <= i < j < |window| ensures Batching.KeysOf(window)[i] != Batching.KeysOf(window)[j] {
      assert window[i].0 < window[j].0;
    }
    Batching.LastOfDistinct(window);
    OrderLists(e.order, Batching.LastOf(window));
    Batching.HandedOverIff(window, e.order);
  }
}
