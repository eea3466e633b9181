/** Runs of the schedulers: their states, what ever happens in them, and what can be reached. */
module SchedulerRuns {
  import opened Scheduler

  /** The state before the k-th event of a run. */
  ghost function StateAt(st: State, events: seq<Event>, k: nat): State
    requires k <= |events|
  {
    Run(st, events[..k])
  }

  lemma StateAfter(st: State, events: seq<Event>, k: nat)
    requires k < |events|
    ensures StateAt(st, events, k + 1) == Step(StateAt(st, events, k), events[k])
  {
    assert events[..k + 1][..k] == events[..k];
  }

  ghost predicate Ever(st: State, events: seq<Event>, happens: (State, Event) -> bool) {
    exists k :: 0 <= k < |events| && happens(StateAt(st, events, k), events[k])
  }

  lemma SameStateAt(st: State, events: seq<Event>, more: seq<Event>, k: nat)
    requires events <= more && k <= |events|
    ensures StateAt(st, events, k) == StateAt(st, more, k)
    ensures k == |events| ==> StateAt(st, events, k) == Run(st, events)
  {
    assert events[..k] == more[..k];
    assert k == |events| ==> events[..k] == events;
  }

  lemma EverStays(st: State, events: seq<Event>, more: seq<Event>, happens: (State, Event) -> bool)
    requires events <= more && Ever(st, events, happens)
    ensures Ever(st, more, happens)
  {
    var k :| 0 <= k < |events| && happens(StateAt(st, events, k), events[k]);
    SameStateAt(st, events, more, k);
    assert happens(StateAt(st, more, k), more[k]);
  }

  lemma EverGrows(st: State, events: seq<Event>, happens: (State, Event) -> bool)
    requires events != []
    ensures var init, last := events[..|events| - 1], events[|events| - 1];
      Ever(st, events, happens) <==> Ever(st, init, happens) || happens(Run(st, init), last)
  {
    var init, last := events[..|events| - 1], events[|events| - 1];
    SameStateAt(st, init, events, |init|);
    if Ever(st, init, happens) {
      EverStays(st, init, events, happens);
    }
    if Ever(st, events, happens) {
      var k :| 0 <= k < |events| && happens(StateAt(st, events, k), events[k]);
      if k < |init| {
        SameStateAt(st, init, events, k);
        assert happens(StateAt(st, init, k), init[k]);
      }
    }
  }

  lemma RunThen(st: State, events: seq<Event>, e: Event)
    ensures Run(st, events + [e]) == Step(Run(st, events), e)
  {
    assert (events + [e])[..|events + [e]| - 1] == events;
  }

  ghost predicate Reaches(from: State, to: State) {
    exists events :: Run(from, events) == to
  }

  lemma ReachesItself(st: State)
    ensures Reaches(st, st)
  {
    assert Run(st, []) == st;
  }

  lemma ReachesNext(from: State, st: State, e: Event)
    requires Reaches(from, st)
    ensures Reaches(from, Step(st, e))
  {
    var events :| Run(from, events) == st;
    RunThen(from, events, e);
  }

  /** No scheduler and no row of the actions table goes away, and of a row no more than the status changes. */
  predicate Persists(st: State, st': State) {
    && |st'.scheds| == |st.scheds|
    && forall a | a in st.actions :: a in st'.actions && st'.actions[a].action == st.actions[a].action
  }

  lemma ClaimingPersists(st: State, e: Event)
    requires e.Claim? || e.Setup?
    ensures Persists(st, Step(st, e))
  {
  }

  lemma ScanningPersists(st: State, e: Event)
    requires e.Scan? || e.Visit? || e.EndScan? || e.Take?
    ensures Persists(st, Step(st, e))
  {
  }

  lemma ReadingPersists(st: State, e: Event)
    requires e.Read? || e.Query?
    ensures Persists(st, Step(st, e))
  {
  }

  lemma InvalidatingPersists(st: State, e: Event)
    requires e.Invalidate? || e.MarkInvalid? || e.Discard?
    ensures Persists(st, Step(st, e))
  {
  }

  lemma CreatingPersists(st: State, e: Event)
    requires e.Upsert? || e.Create? || e.CreatedAll?
    ensures Persists(st, Step(st, e))
  {
  }

  lemma FlyingPersists(st: State, e: Event)
    requires e.Fly? || e.FlyStatus?
    ensures Persists(st, Step(st, e))
  {
  }

  lemma SendingPersists(st: State, e: Event)
    requires e.Flush? || e.Write? || e.Publish?
    ensures Persists(st, Step(st, e))
  {
  }

  lemma UpdatingPersists(st: State, e: Event)
    requires e.Tally? || e.Land? || e.Finish?
    ensures Persists(st, Step(st, e))
  {
  }

  lemma AddingPersists(st: State, e: Event)
    requires e.AddAction? || e.DropAction? || e.SetAgents? || e.Tick?
    ensures Persists(st, Step(st, e))
  {
  }

  lemma StepPersists(st: State, e: Event)
    ensures Persists(st, Step(st, e))
  {
    match e {
      case Claim(_, _, _) | Setup(_, _, _) => ClaimingPersists(st, e);
      case Scan(_, _) | Visit(_, _, _) | EndScan(_) | Take(_) => ScanningPersists(st, e);
      case Read(_, _) | Query(_, _, _, _) => ReadingPersists(st, e);
      case Invalidate(_, _, _) | MarkInvalid(_, _) | Discard(_, _) => InvalidatingPersists(st, e);
      case Upsert(_, _, _) | Create(_, _, _) | CreatedAll(_) => CreatingPersists(st, e);
      case Fly(_, _, _) | FlyStatus(_, _) => FlyingPersists(st, e);
      case Flush(_, _, _) | Write(_, _) | Publish(_, _) => SendingPersists(st, e);
      case Tally(_, _) | Land(_, _) | Finish(_) => UpdatingPersists(st, e);
      case AddAction(_) | DropAction(_, _) | SetAgents(_) | Tick(_) => AddingPersists(st, e);
    }
  }

  /** What the API stored of an action, its validity period among it, is the same after any run. */
  lemma {:induction false} RunPersists(st: State, events: seq<Event>)
    ensures Persists(st, Run(st, events))
    decreases |events|
  {
    if events != [] {
      RunPersists(st, events[..|events| - 1]);
      StepPersists(Run(st, events[..|events| - 1]), events[|events| - 1]);
    }
  }

  lemma {:induction false} RunConcat(st: State, before: seq<Event>, after: seq<Event>)
    ensures Run(st, before + after) == Run(Run(st, before), after)
    decreases |after|
  {
    if after == [] {
      assert before + after == before;
    } else {
      var init, all := after[..|after| - 1], before + after;
      RunConcat(st, before, init);
      assert all[..|all| - 1] == before + init && all[|all| - 1] == after[|after| - 1];
    }
  }

  lemma ReachesThrough(from: State, via: State, to: State)
    requires Reaches(from, via) && Reaches(via, to)
    ensures Reaches(from, to)
  {
    var before :| Run(from, before) == via;
    var after :| Run(via, after) == to;
    RunConcat(from, before, after);
  }
}
