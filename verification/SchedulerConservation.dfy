/** Where every command is on its way from its creation to the message broker, and when none gets lost. */
module SchedulerConservation {
  import opened Common
  import opened FiniteSets
  import opened CommandTable
  import opened Scheduler
  import opened SchedulerRuns

  predicate InReady(st: State, c: Command) {
    c.owner < |st.scheds| && c.id in st.scheds[c.owner].readyCmd && st.scheds[c.owner].readyCmd[c.id] == c
  }

  predicate InWriting(st: State, c: Command) {
    c.owner < |st.scheds| && c in st.scheds[c.owner].writing
  }

  function One(there: bool): nat {
    if there then 1 else 0
  }

  /** In how many places a command is: pending in its scheduler's batch, inserted and still to be written to
      the in-flight directory, about to be published, published, refused by the broker, refused by the
      database, or abandoned. */
  function Places(st: State, c: Command): nat {
    One(InReady(st, c)) + One(InWriting(st, c)) + One(c in st.publishing) + One(c in st.published)
    + One(c in st.unpublished) + One(c in st.dropped) + One(c in st.abandoned)
  }

  predicate NoRepeats(cs: seq<Command>) {
    forall i, j | 0 <= i < j < |cs| :: cs[i] != cs[j]
  }

  ghost predicate SchedBatch(sc: Sched, s: nat) {
    && (forall id | id in sc.readyCmd :: sc.readyCmd[id].id == id && sc.readyCmd[id].owner == s && id < sc.nextId)
    && |sc.readyCmd| == sc.ctr <= BATCH
    && NoRepeats(sc.writing) && |sc.writing| <= BATCH
    && (forall c | c in sc.writing :: c.owner == s)
  }

  ghost predicate PlacedOnce(st: State, c: Command) {
    && Places(st, c) == One(c in st.made)
    && (c in st.made ==> c.owner < |st.scheds| && c.id < st.scheds[c.owner].nextId)
  }

  ghost predicate BatchInv(st: State) {
    && (forall s | 0 <= s < |st.scheds| :: SchedBatch(st.scheds[s], s))
    && NoRepeats(st.published)
    && forall c :: PlacedOnce(st, c)
  }

  lemma NothingMadeKeepsBatches(st: State, s: nat, gap: nat, ok: bool)
    requires s < |st.scheds| && BatchInv(st) && DoCreate(st, s, gap, ok).made == st.made
    ensures BatchInv(DoCreate(st, s, gap, ok))
  {
    var st' := DoCreate(st, s, gap, ok);
    assert SchedBatch(st.scheds[s], s);
    forall c ensures PlacedOnce(st', c) { assert PlacedOnce(st, c); }
  }

  lemma CreateKeepsBatches(st: State, s: nat, gap: nat, ok: bool)
    requires s < |st.scheds| && BatchInv(st)
    ensures BatchInv(DoCreate(st, s, gap, ok))
  {
    var st', sc := DoCreate(st, s, gap, ok), st.scheds[s];
    if st'.made == st.made {
      NothingMadeKeepsBatches(st, s, gap, ok);
    } else {
      var cmd := Command(s, sc.nextId + gap, sc.worker.action.id, sc.worker.targets[0]);
      assert SchedBatch(sc, s);
      OneMadeKeepsBatches(st, st', s, cmd);
    }
  }

  /** Everything but the batches, the commands made and the one place that grew. */
  ghost predicate SamePlaces(st: State, st': State) {
    && st'.dropped == st.dropped && st'.abandoned == st.abandoned && st'.publishing == st.publishing
    && st'.published == st.published && st'.unpublished == st.unpublished
  }

  lemma OneMadeKeepsBatches(st: State, st': State, s: nat, cmd: Command)
    requires s < |st.scheds| && BatchInv(st) && cmd.owner == s
    requires cmd.id >= st.scheds[s].nextId && st.scheds[s].ctr < BATCH
    requires |st'.scheds| == |st.scheds|
    requires var sc := st.scheds[s];
      st'.scheds == st.scheds[s := sc.(worker := st'.scheds[s].worker, nextId := cmd.id + 1,
                                       readyCmd := sc.readyCmd[cmd.id := cmd], ctr := sc.ctr + 1)]
    requires st'.made == st.made + {cmd} && SamePlaces(st, st')
    ensures BatchInv(st')
  {
    var sc := st.scheds[s];
    assert SchedBatch(sc, s);
    assert cmd.id !in sc.readyCmd;
    assert PlacedOnce(st, cmd) && cmd !in st.made;
    forall c ensures PlacedOnce(st', c) {
      assert PlacedOnce(st, c);
      if c.owner == s && c != cmd && c.id == cmd.id {
        assert !InReady(st, c);
      }
    }
  }

  lemma FlushKeepsBatches(st: State, s: nat, order: seq<Command>, ok: bool)
    requires s < |st.scheds| && BatchInv(st)
    ensures BatchInv(DoFlush(st, s, order, ok))
  {
    var st', sc := DoFlush(st, s, order, ok), st.scheds[s];
    if sc.ctr > 0 && sc.writing == [] && Lists(order, sc.readyCmd) {
      if ok && sc.readyCmd.Keys * st.commands.Keys == {} {
        BatchInserted(st, st', s, order);
      } else {
        BatchDropped(st, st', s);
      }
    }
  }

  lemma BatchedIsInReady(st: State, s: nat, c: Command)
    requires s < |st.scheds| && BatchInv(st)
    ensures c in Batched(st.scheds[s].readyCmd) <==> c.owner == s && InReady(st, c)
  {
    assert SchedBatch(st.scheds[s], s);
  }

  lemma BatchInserted(st: State, st': State, s: nat, order: seq<Command>)
    requires s < |st.scheds| && BatchInv(st)
    requires st.scheds[s].writing == [] && Lists(order, st.scheds[s].readyCmd)
    requires st'.scheds == st.scheds[s := st.scheds[s].(readyCmd := map[], ctr := 0, writing := order)]
    requires st'.made == st.made && SamePlaces(st, st')
    ensures BatchInv(st')
  {
    var sc := st.scheds[s];
    assert SchedBatch(sc, s);
    ListingIsShort(order, sc.readyCmd);
    forall c ensures PlacedOnce(st', c) && (c in order ==> c.owner == s) {
      assert PlacedOnce(st, c);
      BatchedIsInReady(st, s, c);
    }
  }

  lemma BatchDropped(st: State, st': State, s: nat)
    requires s < |st.scheds| && BatchInv(st)
    requires st'.scheds == st.scheds[s := st.scheds[s].(readyCmd := map[], ctr := 0)]
    requires st'.made == st.made && SamePlaces(st, st'.(dropped := st.dropped))
    requires st'.dropped == st.dropped + Batched(st.scheds[s].readyCmd)
    ensures BatchInv(st')
  {
    assert SchedBatch(st.scheds[s], s);
    forall c ensures PlacedOnce(st', c) {
      assert PlacedOnce(st, c);
      BatchedIsInReady(st, s, c);
    }
  }

  /** A listing without repeats is no longer than the map it lists. */
  lemma ListingIsShort(order: seq<Command>, ready: map<CommandId, Command>)
    requires Lists(order, ready)
    requires forall id | id in ready :: ready[id].id == id
    ensures |order| == |ready|
  {
    var ids := seq(|order|, i requires 0 <= i < |order| => order[i].id);
    assert forall i | 0 <= i < |order| :: order[i] in order && order[i] in Batched(ready);
    assert forall i, j | 0 <= i < j < |ids| :: ids[i] != ids[j];
    forall id | id in ready ensures id in ids {
      assert ready[id] in Batched(ready) && ready[id] in order;
      var i :| 0 <= i < |order| && order[i] == ready[id];
      assert ids[i] == id;
    }
    assert ready.Keys == Elements(ids);
    DistinctSize(ids);
    assert |ready| == |ready.Keys|;
  }

  /** One step of the loop that writes and publishes: the head moves on, or all that are left are lost. */
  lemma WriteKeepsBatches(st: State, s: nat, ok: bool)
    requires s < |st.scheds| && BatchInv(st)
    ensures BatchInv(DoWrite(st, s, ok))
  {
    var st', sc := DoWrite(st, s, ok), st.scheds[s];
    assert SchedBatch(sc, s);
    if sc.writing != [] {
      assert sc.writing == [sc.writing[0]] + sc.writing[1..];
      forall c ensures PlacedOnce(st', c) {
        assert PlacedOnce(st, c);
        assert InWriting(st, c) <==> c.owner < |st.scheds| && c in st.scheds[c.owner].writing;
        assert c in sc.writing ==> c.owner == s;
      }
    }
  }

  lemma PublishKeepsBatches(st: State, cmd: Command, ok: bool)
    requires BatchInv(st)
    ensures BatchInv(DoPublish(st, cmd, ok))
  {
    var st' := DoPublish(st, cmd, ok);
    assert PlacedOnce(st, cmd);
    forall c ensures PlacedOnce(st', c) { assert PlacedOnce(st, c); }
  }

  lemma LeavingBatchesKeeps(st: State, st': State)
    requires BatchInv(st) && LeavesBatches(st, st')
    ensures BatchInv(st')
  {
    forall s | 0 <= s < |st.scheds| ensures SchedBatch(st'.scheds[s], s) {
      assert SchedBatch(st.scheds[s], s) && SameBatch(st.scheds[s], st'.scheds[s]);
    }
    forall c ensures PlacedOnce(st', c) {
      assert PlacedOnce(st, c);
      if c.owner < |st.scheds| { assert SameBatch(st.scheds[c.owner], st'.scheds[c.owner]); }
    }
  }

  predicate IsSending(e: Event) {
    e.Create? || e.Flush? || e.Write? || e.Publish?
  }

  lemma OthersLeaveBatches(st: State, e: Event)
    requires !IsSending(e)
    ensures LeavesBatches(st, Step(st, e))
  {
  }

  lemma StepKeepsBatches(st: State, e: Event)
    requires BatchInv(st)
    ensures BatchInv(Step(st, e))
  {
    if !IsSending(e) {
      OthersLeaveBatches(st, e);
      LeavingBatchesKeeps(st, Step(st, e));
    } else if Addressed(st, e) {
      match e {
        case Create(s, gap, ok) => CreateKeepsBatches(st, s, gap, ok);
        case Flush(s, order, ok) => FlushKeepsBatches(st, s, order, ok);
        case Write(s, ok) => WriteKeepsBatches(st, s, ok);
        case Publish(c, ok) => PublishKeepsBatches(st, c, ok);
      }
    }
  }

  lemma InitBatches(n: nat, now: int)
    ensures BatchInv(Init(n, now))
  {
    var st := Init(n, now);
    forall s | 0 <= s < n ensures st.scheds[s] == FreshSched() {}
    forall c ensures PlacedOnce(st, c) {}
  }

  lemma {:induction false} RunKeepsBatches(st: State, events: seq<Event>)
    requires BatchInv(st)
    ensures BatchInv(Run(st, events))
    decreases |events|
  {
    if events != [] {
      RunKeepsBatches(st, events[..|events| - 1]);
      StepKeepsBatches(Run(st, events[..|events| - 1]), events[|events| - 1]);
    }
  }

  /** Over every run, whatever fails: each command made is at every moment in exactly one of the seven
      places, and no other command is in any.  A batch holds as many commands as its counter says, and
      never more than 1024. */
  lemma NoCommandLostOrDoubled(n: nat, now: int, events: seq<Event>)
    ensures forall c :: Places(Run(Init(n, now), events), c) == One(c in Run(Init(n, now), events).made)
    ensures NoRepeats(Run(Init(n, now), events).published)
    ensures var st := Run(Init(n, now), events); forall s | 0 <= s < |st.scheds| :: SchedBatch(st.scheds[s], s)
    ensures BatchInv(Run(Init(n, now), events))
  {
    InitBatches(n, now);
    RunKeepsBatches(Init(n, now), events);
    var st := Run(Init(n, now), events);
    forall c ensures Places(st, c) == One(c in st.made) { assert PlacedOnce(st, c); }
  }

  // ----- when nothing is lost -----

  /** The insert of a batch fails or is refused. */
  predicate RefusesInsert(st: State, e: Event) {
    && e.Flush? && e.s < |st.scheds|
    && var sc := st.scheds[e.s];
       && sc.ctr > 0 && sc.writing == [] && Lists(e.order, sc.readyCmd)
       && (!e.ok || sc.readyCmd.Keys * st.commands.Keys != {})
  }

  /** An in-flight file cannot be written, with commands of the batch left. */
  predicate FailsWrite(st: State, e: Event) {
    e.Write? && e.s < |st.scheds| && st.scheds[e.s].writing != [] && !e.ok
  }

  predicate FailsPublish(st: State, e: Event) {
    e.Publish? && e.cmd in st.publishing && !e.ok
  }

  lemma BatchIsNotEmpty(sc: Sched, s: nat)
    requires SchedBatch(sc, s) && sc.ctr > 0
    ensures Batched(sc.readyCmd) != {}
  {
    assert |sc.readyCmd.Keys| == sc.ctr;
    var id := SomeMember(sc.readyCmd.Keys);
    assert sc.readyCmd[id] in Batched(sc.readyCmd);
  }

  lemma OneDropsIff(st: State, e: Event)
    requires BatchInv(st)
    ensures Step(st, e).dropped == {} <==> st.dropped == {} && !RefusesInsert(st, e)
  {
    if !IsSending(e) {
      OthersLeaveBatches(st, e);
    } else if RefusesInsert(st, e) {
      BatchIsNotEmpty(st.scheds[e.s], e.s);
    }
  }

  lemma OneAbandonsIff(st: State, e: Event)
    ensures Step(st, e).abandoned == {} <==> st.abandoned == {} && !FailsWrite(st, e)
  {
    if !IsSending(e) {
      OthersLeaveBatches(st, e);
    } else if FailsWrite(st, e) {
      assert st.scheds[e.s].writing[0] in Elements(st.scheds[e.s].writing);
    }
  }

  lemma OneUnpublishedIff(st: State, e: Event)
    ensures Step(st, e).unpublished == {} <==> st.unpublished == {} && !FailsPublish(st, e)
  {
    if !IsSending(e) {
      OthersLeaveBatches(st, e);
    }
  }

  /** The exact causes of each loss: no command is refused by the database iff no insert of the run fails,
      none inserted is abandoned iff every in-flight file of the run was written, and none is refused by
      the broker iff every publication succeeded. */
  lemma {:induction false} NothingIsLostIff(n: nat, now: int, events: seq<Event>)
    ensures Run(Init(n, now), events).dropped == {} <==> !Ever(Init(n, now), events, RefusesInsert)
    ensures Run(Init(n, now), events).abandoned == {} <==> !Ever(Init(n, now), events, FailsWrite)
    ensures Run(Init(n, now), events).unpublished == {} <==> !Ever(Init(n, now), events, FailsPublish)
    decreases |events|
  {
    if events != [] {
      var before, e := events[..|events| - 1], events[|events| - 1];
      NothingIsLostIff(n, now, before);
      NoCommandLostOrDoubled(n, now, before);
      var st := Run(Init(n, now), before);
      OneDropsIff(st, e);
      OneAbandonsIff(st, e);
      OneUnpublishedIff(st, e);
      EverGrows(Init(n, now), events, RefusesInsert);
      EverGrows(Init(n, now), events, FailsWrite);
      EverGrows(Init(n, now), events, FailsPublish);
    }
  }

  /** So without these three failures every command made is published, once, or still under way. */
  lemma WithoutFailuresAllArePublished(n: nat, now: int, events: seq<Event>, c: Command)
    requires !Ever(Init(n, now), events, RefusesInsert) && !Ever(Init(n, now), events, FailsWrite)
    requires !Ever(Init(n, now), events, FailsPublish)
    ensures var st := Run(Init(n, now), events);
      c in st.made <==> c in st.published || InReady(st, c) || InWriting(st, c) || c in st.publishing
  {
    NothingIsLostIff(n, now, events);
    NoCommandLostOrDoubled(n, now, events);
  }
}
