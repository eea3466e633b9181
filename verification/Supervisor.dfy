/**
 The supervisors of the agent's persistent modules and the alert processor, as a transition system: one
 goroutine for each module, one for alerts, sharing the register, the dispatch channel and its lock.
 */
module Supervisor {
  import opened Common

  const DISPATCH := "dispatch"
  /** Places in the dispatch channel, and in the alert channel. */
  const CAPACITY: nat := 128
  const ALERTS: nat := 128

  /** Gone: the goroutine has returned, which it does when a configuration cannot be built or a module
      cannot be killed. */
  datatype Place = Head | Init | Locking | Select | Alerting(alert: string) | Killing | Dealloc | Gone

  /** local is localDispatch, a channel's number. */
  datatype Sup = Sup(at: Place, isRunning: bool, local: Option<nat>)

  datatype Processor = Receiving | Got(alert: string) | Holding(alert: string) | Logging(alert: string)

  datatype Handled = Logged(alert: string) | Queued(alert: string)

  /** What became of a queued alert: written to the dispatch module, or not, or still there when the channel closed. */
  datatype Taken = Written(alert: string) | Unwritten(alert: string) | Dropped(alert: string)

  /** alerts is the alert channel; lockedByProcessor is the state of dispatchChanLock between steps; raised
      (what was put into the alert channel), handled and taken are a history; panicked marks a send on, or a close of,
      a closed or nil dispatch channel. */
  datatype State = State(
    sups: map<string, Sup>,
    register: map<string, string>,
    dispatchChan: Option<nat>,
    channels: nat,
    closed: set<nat>,
    buffer: seq<string>,
    lockedByProcessor: bool,
    processor: Processor,
    alerts: seq<string>,
    raised: seq<string>,
    handled: seq<Handled>,
    taken: seq<Taken>,
    panicked: bool)

  datatype Outcome = StartFailed | ConfigNotBuilt | ConfigNotWritten | Started

  datatype Event =
    | Start(n: string, outcome: Outcome)
    | CheckDispatch(n: string)
    | Allocate(n: string)
    | InputClosed(n: string)
    | Ignored(n: string)
    | Raises(n: string, alert: string)
    | Registers(n: string, spec: string)
    | MustDie(n: string)
    | Dispatches(n: string, ok: bool)
    | PingFails(n: string)
    | Kill(n: string, ok: bool)
    | Deallocate(n: string)
    | Raised(n: string)
    | Receive
    | Lock
    | Log
    | Send

  function Put(st: State, n: string, s: Sup): State {
    st.(sups := st.sups[n := s])
  }

  /** isRunning = false, and the module is no longer registered. */
  function Down(st: State, n: string, s: Sup): State {
    Put(st.(register := st.register - {n}), n, s.(isRunning := false, at := Head))
  }

  function AllDropped(alerts: seq<string>): seq<Taken> {
    seq(|alerts|, i requires 0 <= i < |alerts| => Dropped(alerts[i]))
  }

  function DoStart(st: State, n: string, outcome: Outcome): State
    requires n in st.sups
  {
    var s := st.sups[n];
    if !s.at.Head? then st
    else if s.isRunning then Put(st, n, s.(at := Init))
    else match outcome
      case StartFailed => st
      case ConfigNotBuilt => Put(st, n, s.(isRunning := true, at := Gone))
      case ConfigNotWritten => Down(st, n, s)
      case Started => Put(st, n, s.(isRunning := true, at := Init))
  }

  function DoCheckDispatch(st: State, n: string): State
    requires n in st.sups
  {
    var s := st.sups[n];
    if !s.at.Init? then st
    else Put(st, n, s.(at := if n == DISPATCH && st.dispatchChan.None? then Locking else Select))
  }

  function DoAllocate(st: State, n: string): State
    requires n in st.sups
  {
    var s := st.sups[n];
    if !s.at.Locking? || st.lockedByProcessor then st
    else
      Put(st.(dispatchChan := Some(st.channels), channels := st.channels + 1, buffer := []), n,
          s.(local := Some(st.channels), at := Select))
  }

  /** A turn of the select that ends at the loop head with the module up. */
  function DoRegister(st: State, n: string, spec: string): State
    requires n in st.sups
  {
    var s := st.sups[n];
    if !s.at.Select? then st else Put(st.(register := st.register[n := spec]), n, s.(at := Head))
  }

  function DoLeaveSelect(st: State, n: string, next: Place): State
    requires n in st.sups
  {
    if !st.sups[n].at.Select? then st else Put(st, n, st.sups[n].(at := next))
  }

  /** An alert taken from localDispatch; one that cannot be written is lost. */
  function DoDispatch(st: State, n: string, ok: bool): State
    requires n in st.sups
  {
    var s := st.sups[n];
    if !s.at.Select? || s.local.None? || s.local != st.dispatchChan || st.buffer == [] then st
    else
      var alert := st.buffer[0];
      Put(st.(buffer := st.buffer[1..], taken := st.taken + [if ok then Written(alert) else Unwritten(alert)]), n,
          s.(at := if ok then Head else Dealloc))
  }

  function DoKill(st: State, n: string, ok: bool): State
    requires n in st.sups
  {
    var s := st.sups[n];
    if !s.at.Killing? then st else Put(st, n, s.(at := if ok then Dealloc else Gone))
  }

  /** dispatchDealloc, and what follows it everywhere it is called. */
  function DoDeallocate(st: State, n: string): State
    requires n in st.sups
  {
    var s := st.sups[n];
    if !s.at.Dealloc? then st
    else if s.local.None? then Down(st, n, s)
    else if st.lockedByProcessor then st
    else if st.dispatchChan.None? || st.dispatchChan.value in st.closed then st.(panicked := true)
    else
      Down(st.(closed := st.closed + {st.dispatchChan.value}, dispatchChan := None, buffer := [],
               taken := st.taken + AllDropped(st.buffer)), n, s.(local := None))
  }

  /** The send of alertHandler, which blocks while the alert channel is full. */
  function DoRaised(st: State, n: string): State
    requires n in st.sups
  {
    var s := st.sups[n];
    if !s.at.Alerting? || |st.alerts| >= ALERTS then st
    else Put(st.(alerts := st.alerts + [s.at.alert], raised := st.raised + [s.at.alert]), n, s.(at := Head))
  }

  function DoReceive(st: State): State {
    if !st.processor.Receiving? || st.alerts == [] then st
    else st.(processor := Got(st.alerts[0]), alerts := st.alerts[1..])
  }

  function DoLock(st: State): State {
    if !st.processor.Got? || st.lockedByProcessor then st
    else if st.dispatchChan.Some? then st.(lockedByProcessor := true, processor := Holding(st.processor.alert))
    else st.(processor := Logging(st.processor.alert))
  }

  function DoLog(st: State): State {
    if !st.processor.Logging? then st
    else st.(processor := Receiving, handled := st.handled + [Logged(st.processor.alert)])
  }

  /** The send under the lock blocks while the buffer is full. */
  function DoSend(st: State): State {
    if !st.processor.Holding? then st
    else if st.dispatchChan.None? || st.dispatchChan.value in st.closed then st.(panicked := true)
    else if |st.buffer| >= CAPACITY then st
    else
      st.(buffer := st.buffer + [st.processor.alert], lockedByProcessor := false, processor := Receiving,
          handled := st.handled + [Queued(st.processor.alert)])
  }

  predicate Addressed(st: State, e: Event) {
    match e
    case Receive => true
    case Lock => true
    case Log => true
    case Send => true
    case _ => e.n in st.sups
  }

  function Step(st: State, e: Event): State {
    if !Addressed(st, e) then st else
    match e
    case Start(n, outcome) => DoStart(st, n, outcome)
    case CheckDispatch(n) => DoCheckDispatch(st, n)
    case Allocate(n) => DoAllocate(st, n)
    case InputClosed(n) => DoLeaveSelect(st, n, Dealloc)
    case Ignored(n) => DoLeaveSelect(st, n, Head)
    case Raises(n, alert) => DoLeaveSelect(st, n, Alerting(alert))
    case Registers(n, spec) => DoRegister(st, n, spec)
    case MustDie(n) => DoLeaveSelect(st, n, Killing)
    case Dispatches(n, ok) => DoDispatch(st, n, ok)
    case PingFails(n) => DoLeaveSelect(st, n, Dealloc)
    case Kill(n, ok) => DoKill(st, n, ok)
    case Deallocate(n) => DoDeallocate(st, n)
    case Raised(n) => DoRaised(st, n)
    case Receive => DoReceive(st)
    case Lock => DoLock(st)
    case Log => DoLog(st)
    case Send => DoSend(st)
  }

  function Run(st: State, events: seq<Event>): State
    decreases |events|
  {
    if events == [] then st
    else Step(Run(st, events[..|events| - 1]), events[|events| - 1])
  }

  function FreshSup(): Sup {
    Sup(Head, false, None)
  }

  function Fresh(modules: set<string>): State {
    State(map n | n in modules :: FreshSup(), map[], None, 0, {}, [], false, Receiving, [], [], [], [], false)
  }

  // ----- what every step keeps -----

  predicate LocalInv(st: State, n: string)
    requires n in st.sups
  {
    var s := st.sups[n];
    && (s.local.Some? ==> n == DISPATCH && s.isRunning)
    && (!s.at.Head? ==> s.isRunning)
    && (s.at.Locking? ==> n == DISPATCH && s.local.None?)
    && (!s.isRunning ==> n !in st.register)
  }

  /** Alerts in hand, and those handled, in order. */
  function InHand(p: Processor): seq<string> {
    if p.Receiving? then [] else [p.alert]
  }

  function Alerts(handled: seq<Handled>): seq<string> {
    seq(|handled|, i requires 0 <= i < |handled| => handled[i].alert)
  }

  function QueuedOf(handled: seq<Handled>): seq<string> {
    if handled == [] then []
    else
      QueuedOf(handled[..|handled| - 1])
      + if handled[|handled| - 1].Queued? then [handled[|handled| - 1].alert] else []
  }

  function TakenAlerts(taken: seq<Taken>): seq<string> {
    seq(|taken|, i requires 0 <= i < |taken| => taken[i].alert)
  }

  ghost predicate Inv(st: State) {
    && !st.panicked
    && (forall n | n in st.sups :: LocalInv(st, n))
    && (st.dispatchChan.Some? ==>
          DISPATCH in st.sups && st.dispatchChan.value < st.channels && st.dispatchChan.value !in st.closed)
    && (DISPATCH in st.sups ==> st.sups[DISPATCH].local == st.dispatchChan)
    && (forall c | c in st.closed :: c < st.channels)
    && (st.lockedByProcessor <==> st.processor.Holding?)
    && (st.processor.Holding? ==> st.dispatchChan.Some?)
    && |st.buffer| <= CAPACITY && (st.dispatchChan.None? ==> st.buffer == [])
    && |st.alerts| <= ALERTS
    && st.raised == Alerts(st.handled) + InHand(st.processor) + st.alerts
    && QueuedOf(st.handled) == TakenAlerts(st.taken) + st.buffer
  }

  lemma StartKeeps(st: State, n: string, outcome: Outcome)
    requires Inv(st) && n in st.sups
    ensures Inv(DoStart(st, n, outcome))
  {
  }

  lemma AllocateKeeps(st: State, n: string)
    requires Inv(st) && n in st.sups
    ensures Inv(DoAllocate(st, n)) && Inv(DoCheckDispatch(st, n))
  {
  }

  lemma DeallocateKeeps(st: State, n: string)
    requires Inv(st) && n in st.sups
    ensures Inv(DoDeallocate(st, n))
  {
  }

  lemma SelectKeeps(st: State, n: string, next: Place)
    requires Inv(st) && n in st.sups && !next.Locking?
    ensures Inv(DoLeaveSelect(st, n, next))
  {
  }

  lemma RegisterKeeps(st: State, n: string, spec: string)
    requires Inv(st) && n in st.sups
    ensures Inv(DoRegister(st, n, spec))
  {
  }

  lemma DispatchKeeps(st: State, n: string, ok: bool)
    requires Inv(st) && n in st.sups
    ensures Inv(DoDispatch(st, n, ok))
  {
  }

  lemma KillKeeps(st: State, n: string, ok: bool)
    requires Inv(st) && n in st.sups
    ensures Inv(DoKill(st, n, ok))
  {
  }

  lemma LockKeeps(st: State)
    requires Inv(st)
    ensures Inv(DoLock(st)) && Inv(DoReceive(st))
  {
  }

  lemma LogKeeps(st: State)
    requires Inv(st)
    ensures Inv(DoLog(st))
  {
  }

  lemma SendKeeps(st: State)
    requires Inv(st)
    ensures Inv(DoSend(st))
  {
  }

  lemma RaisedKeeps(st: State, n: string)
    requires Inv(st) && n in st.sups
    ensures Inv(DoRaised(st, n))
  {
  }

  lemma SelectStepKeeps(st: State, e: Event)
    requires Inv(st) && Addressed(st, e)
    requires e.InputClosed? || e.Ignored? || e.Raises? || e.MustDie? || e.PingFails?
    ensures Inv(Step(st, e))
  {
    var next :=
      if e.Raises? then Alerting(e.alert) else if e.Ignored? then Head else if e.MustDie? then Killing else Dealloc;
    SelectKeeps(st, e.n, next);
  }

  lemma ProcessorStepKeeps(st: State, e: Event)
    requires Inv(st) && Addressed(st, e) && (e.Lock? || e.Log? || e.Send? || e.Receive?)
    ensures Inv(Step(st, e))
  {
    match e
    case Log => LogKeeps(st);
    case Send => SendKeeps(st);
    case _ => LockKeeps(st);
  }

  lemma ModuleStepKeeps(st: State, e: Event)
    requires Inv(st) && Addressed(st, e)
    requires || e.Start? || e.CheckDispatch? || e.Allocate? || e.Registers? || e.Dispatches? || e.Kill?
             || e.Deallocate? || e.Raised?
    ensures Inv(Step(st, e))
  {
    if e.Start? {
      StartKeeps(st, e.n, e.outcome);
    } else if e.Registers? {
      RegisterKeeps(st, e.n, e.spec);
    } else if e.Dispatches? {
      DispatchKeeps(st, e.n, e.ok);
    } else if e.Kill? {
      KillKeeps(st, e.n, e.ok);
    } else if e.Raised? {
      RaisedKeeps(st, e.n);
    } else if e.Deallocate? {
      DeallocateKeeps(st, e.n);
    } else {
      AllocateKeeps(st, e.n);
    }
  }

  lemma StepKeeps(st: State, e: Event)
    requires Inv(st)
    ensures Inv(Step(st, e))
  {
    if Addressed(st, e) {
      match e
      case InputClosed(_) => SelectStepKeeps(st, e);
      case Ignored(_) => SelectStepKeeps(st, e);
      case Raises(_, _) => SelectStepKeeps(st, e);
      case MustDie(_) => SelectStepKeeps(st, e);
      case PingFails(_) => SelectStepKeeps(st, e);
      case Lock => ProcessorStepKeeps(st, e);
      case Log => ProcessorStepKeeps(st, e);
      case Send => ProcessorStepKeeps(st, e);
      case Receive => ProcessorStepKeeps(st, e);
      case _ => ModuleStepKeeps(st, e);
    }
  }

  /** In every interleaving of the supervisors and the alert processor. */
  lemma {:induction false} RunKeeps(modules: set<string>, events: seq<Event>)
    ensures Inv(Run(Fresh(modules), events))
    decreases |events|
  {
    if events != [] {
      RunKeeps(modules, events[..|events| - 1]);
      StepKeeps(Run(Fresh(modules), events[..|events| - 1]), events[|events| - 1]);
    }
  }

  /** What this means: no run sends on or closes a closed or nil dispatch channel; a module that is down is
      not registered; the channel is there only while the dispatch module is up; and every alert raised is
      handled once, in order. */
  lemma RunsAreSafe(modules: set<string>, events: seq<Event>)
    ensures var st := Run(Fresh(modules), events);
      && !st.panicked
      && (forall n | n in st.sups && st.sups[n].at.Head? && !st.sups[n].isRunning :: n !in st.register)
      && (st.dispatchChan.Some? ==>
            DISPATCH in st.sups && st.sups[DISPATCH].isRunning && st.dispatchChan.value !in st.closed)
      && st.raised == Alerts(st.handled) + InHand(st.processor) + st.alerts
      && QueuedOf(st.handled) == TakenAlerts(st.taken) + st.buffer
  {
    RunKeeps(modules, events);
  }

  // ----- what the register says, and what a module has been through -----

  function At(st: State, n: string): Sup {
    if n in st.sups then st.sups[n] else FreshSup()
  }

  /** What the module has registered with last since it was down. */
  ghost function LastSpec(modules: set<string>, events: seq<Event>, n: string): Option<string>
    decreases |events|
  {
    if events == [] then None
    else
      var init, e := events[..|events| - 1], events[|events| - 1];
      var before := Run(Fresh(modules), init);
      if e.Registers? && e.n == n && At(before, n).at.Select? then Some(e.spec)
      else if !At(Step(before, e), n).isRunning then None
      else LastSpec(modules, init, n)
  }

  /** How the module was started last, when it was down. */
  ghost function LastStart(modules: set<string>, events: seq<Event>, n: string): Option<Outcome>
    decreases |events|
  {
    if events == [] then None
    else
      var init, e := events[..|events| - 1], events[|events| - 1];
      var before := At(Run(Fresh(modules), init), n);
      if e.Start? && e.n == n && before.at.Head? && !before.isRunning then Some(e.outcome)
      else LastStart(modules, init, n)
  }

  /** Nothing of module n changes. */
  predicate Leaves(st: State, st': State, n: string) {
    && At(st', n) == At(st, n) && (n in st'.sups <==> n in st.sups) && (n in st'.register <==> n in st.register)
    && (n in st.register ==> st'.register[n] == st.register[n])
  }

  lemma ProcessorLeaves(st: State, e: Event, n: string)
    requires IsProcessors(e)
    ensures Leaves(st, Step(st, e), n)
  {
  }

  lemma SelectLeavesOthers(st: State, e: Event, n: string)
    requires IsLeavingSelect(e) && e.n != n
    ensures Leaves(st, Step(st, e), n)
  {
  }

  lemma StartLeavesOthers(st: State, e: Event, n: string)
    requires IsStarting(e) && e.n != n
    ensures Leaves(st, Step(st, e), n)
  {
  }

  lemma EndLeavesOthers(st: State, e: Event, n: string)
    requires !IsLeavingSelect(e) && !IsProcessors(e) && !IsStarting(e) && e.n != n
    ensures Leaves(st, Step(st, e), n)
  {
  }

  lemma OthersLeave(st: State, e: Event, n: string)
    requires IsProcessors(e) || e.n != n
    ensures Leaves(st, Step(st, e), n)
  {
    if IsProcessors(e) {
      ProcessorLeaves(st, e, n);
    } else if IsLeavingSelect(e) {
      SelectLeavesOthers(st, e, n);
    } else if IsStarting(e) {
      StartLeavesOthers(st, e, n);
    } else {
      EndLeavesOthers(st, e, n);
    }
  }

  predicate RegistersOnly(st: State, st': State, e: Event)
    requires !IsProcessors(e) && e.n in st.sups
  {
    var registers := e.Registers? && st.sups[e.n].at.Select?;
    && e.n in st'.sups
    && (registers ==> e.n in st'.register && st'.register[e.n] == e.spec)
    && (!registers && st'.sups[e.n].isRunning ==>
          (e.n in st'.register <==> e.n in st.register)
          && (e.n in st.register ==> st'.register[e.n] == st.register[e.n]))
  }

  lemma SelectRegisters(st: State, e: Event)
    requires IsLeavingSelect(e) && e.n in st.sups
    ensures RegistersOnly(st, Step(st, e), e)
  {
  }

  lemma StartRegisters(st: State, e: Event)
    requires IsStarting(e) && e.n in st.sups
    ensures RegistersOnly(st, Step(st, e), e)
  {
  }

  lemma EndRegisters(st: State, e: Event)
    requires !IsProcessors(e) && !IsLeavingSelect(e) && !IsStarting(e) && e.n in st.sups
    ensures RegistersOnly(st, Step(st, e), e)
  {
  }

  lemma OwnStepRegisters(st: State, e: Event)
    requires !IsProcessors(e) && e.n in st.sups
    ensures RegistersOnly(st, Step(st, e), e)
  {
    if IsLeavingSelect(e) {
      SelectRegisters(st, e);
    } else if IsStarting(e) {
      StartRegisters(st, e);
    } else {
      EndRegisters(st, e);
    }
  }

  /** In every run the register holds, for each module, what it has registered with last since it was down. */
  lemma {:induction false} RegisterFollows(modules: set<string>, events: seq<Event>, n: string)
    requires n in modules
    ensures n in Run(Fresh(modules), events).sups
    ensures n in Run(Fresh(modules), events).register <==> LastSpec(modules, events, n).Some?
    ensures n in Run(Fresh(modules), events).register ==>
      LastSpec(modules, events, n) == Some(Run(Fresh(modules), events).register[n])
    decreases |events|
  {
    if events != [] {
      var init := events[..|events| - 1];
      var st, e := Run(Fresh(modules), init), events[|events| - 1];
      RegisterFollows(modules, init, n);
      RunKeeps(modules, events);
      if IsProcessors(e) || e.n != n {
        OthersLeave(st, e, n);
      } else {
        OwnStepRegisters(st, e);
      }
    }
  }

  predicate IsUp(s: Sup) {
    s.isRunning && !s.at.Gone?
  }

  lemma StartStarts(st: State, n: string, outcome: Outcome)
    requires n in st.sups && (!st.sups[n].at.Head? ==> st.sups[n].isRunning)
    ensures var st' := DoStart(st, n, outcome);
      && n in st'.sups
      && (IsUp(st'.sups[n]) && !IsUp(st.sups[n]) ==>
            st.sups[n].at.Head? && !st.sups[n].isRunning && outcome == Started)
      && (st.sups[n].at.Head? && !st.sups[n].isRunning && IsUp(st'.sups[n]) ==> outcome == Started)
  {
  }

  lemma SelectStarts(st: State, e: Event)
    requires IsLeavingSelect(e) && e.n in st.sups
    ensures e.n in Step(st, e).sups && (IsUp(Step(st, e).sups[e.n]) ==> IsUp(st.sups[e.n]))
  {
  }

  lemma EndStarts(st: State, e: Event)
    requires !IsLeavingSelect(e) && !IsProcessors(e) && !e.Start? && e.n in st.sups
    ensures e.n in Step(st, e).sups && (IsUp(Step(st, e).sups[e.n]) ==> IsUp(st.sups[e.n]))
  {
  }

  lemma OwnStepStarts(st: State, e: Event, last: Option<Outcome>)
    requires !IsProcessors(e) && e.n in st.sups
    requires IsUp(st.sups[e.n]) ==> last == Some(Started)
    requires !st.sups[e.n].at.Head? ==> st.sups[e.n].isRunning
    ensures var was := st.sups[e.n];
      var now := if e.Start? && was.at.Head? && !was.isRunning then Some(e.outcome) else last;
      e.n in Step(st, e).sups && (IsUp(Step(st, e).sups[e.n]) ==> now == Some(Started))
  {
    if e.Start? {
      StartStarts(st, e.n, e.outcome);
    } else if IsLeavingSelect(e) {
      SelectStarts(st, e);
    } else {
      EndStarts(st, e);
    }
  }

  lemma OneStepStarts(st: State, e: Event, n: string, last: Option<Outcome>)
    requires n in st.sups && (IsUp(st.sups[n]) ==> last == Some(Started))
    requires !st.sups[n].at.Head? ==> st.sups[n].isRunning
    ensures var was := st.sups[n];
      var now := if e.Start? && e.n == n && was.at.Head? && !was.isRunning then Some(e.outcome) else last;
      n in Step(st, e).sups && (IsUp(Step(st, e).sups[n]) ==> now == Some(Started))
  {
    if IsProcessors(e) || e.n != n {
      OthersLeave(st, e, n);
    } else {
      OwnStepStarts(st, e, last);
    }
  }

  /** A module that is up has been started, and was sent its configuration, since it was last down, unless its
      supervisor is gone. */
  lemma {:induction false} UpMeansStarted(modules: set<string>, events: seq<Event>, n: string)
    requires n in modules
    ensures var st := Run(Fresh(modules), events);
      n in st.sups && (st.sups[n].isRunning && !st.sups[n].at.Gone? ==> LastStart(modules, events, n) == Some(Started))
    decreases |events|
  {
    if events != [] {
      var init := events[..|events| - 1];
      UpMeansStarted(modules, init, n);
      RunKeeps(modules, init);
      OneStepStarts(Run(Fresh(modules), init), events[|events| - 1], n, LastStart(modules, init, n));
    }
  }

  predicate IsDying(s: Sup) {
    s.isRunning && (s.at.Killing? || s.at.Gone?)
  }

  lemma ToldToDie(st: State, n: string)
    requires Inv(st) && n in st.sups && st.sups[n].at.Select?
    ensures n in Step(st, MustDie(n)).sups && IsDying(Step(st, MustDie(n)).sups[n])
  {
  }

  lemma OwnStepKills(st: State, e: Event)
    requires !IsProcessors(e) && e.n in st.sups && IsDying(st.sups[e.n]) && e != Kill(e.n, true)
    ensures e.n in Step(st, e).sups && IsDying(Step(st, e).sups[e.n])
  {
  }

  lemma OneStepKills(st: State, e: Event, n: string)
    requires n in st.sups && IsDying(st.sups[n]) && e != Kill(n, true)
    ensures n in Step(st, e).sups && IsDying(Step(st, e).sups[n])
  {
    if IsProcessors(e) || e.n != n {
      OthersLeave(st, e, n);
    } else {
      OwnStepKills(st, e);
    }
  }

  /** A module told to die is taken to be down only after it has been killed. */
  lemma {:induction false} DeathNeedsAKill(modules: set<string>, before: seq<Event>, after: seq<Event>, n: string)
    requires n in Run(Fresh(modules), before).sups && Run(Fresh(modules), before).sups[n].at.Select?
    requires after != [] && after[0] == MustDie(n) && Kill(n, true) !in after
    ensures var st := Run(Fresh(modules), before + after); n in st.sups && IsDying(st.sups[n])
    decreases |after|
  {
    var init, last, all := after[..|after| - 1], after[|after| - 1], before + after;
    assert all[..|all| - 1] == before + init && all[|all| - 1] == last;
    if init == [] {
      assert before + init == before;
      RunKeeps(modules, before);
      ToldToDie(Run(Fresh(modules), before), n);
    } else {
      DeathNeedsAKill(modules, before, init, n);
      OneStepKills(Run(Fresh(modules), before + init), last, n);
    }
  }

  // ----- the lock is held while the send blocks -----

  /** The processor waits for room in the buffer, and the one goroutine that could make room will not. */
  predicate Stuck(st: State) {
    && st.processor.Holding? && |st.buffer| == 128 && DISPATCH in st.sups
    && (|| st.sups[DISPATCH].at.Dealloc? || st.sups[DISPATCH].at.Gone?
        || (st.sups[DISPATCH].at.Alerting? && |st.alerts| == 128))
  }

  /** A step of the alert processor or of the dispatch supervisor. */
  predicate Moves(st: State, e: Event)
    requires DISPATCH in st.sups
  {
    var st' := Step(st, e);
    st'.processor != st.processor || DISPATCH !in st'.sups || st'.sups[DISPATCH] != st.sups[DISPATCH]
  }

  predicate IsLeavingSelect(e: Event) {
    || e.InputClosed? || e.Ignored? || e.Raises? || e.Registers? || e.MustDie? || e.Dispatches? || e.PingFails?
  }

  predicate IsStarting(e: Event) {
    e.Start? || e.CheckDispatch? || e.Allocate?
  }

  predicate IsProcessors(e: Event) {
    e.Receive? || e.Lock? || e.Log? || e.Send?
  }

  lemma StuckProcessor(st: State, e: Event)
    requires Inv(st) && Stuck(st) && IsProcessors(e)
    ensures Stuck(Step(st, e)) && !Moves(st, e) && Step(st, e).handled == st.handled
  {
  }

  lemma StuckSelect(st: State, e: Event)
    requires Inv(st) && Stuck(st) && IsLeavingSelect(e)
    ensures Stuck(Step(st, e)) && !Moves(st, e) && Step(st, e).handled == st.handled
  {
  }

  lemma StuckModule(st: State, e: Event)
    requires Inv(st) && Stuck(st) && !IsLeavingSelect(e) && !IsProcessors(e)
    ensures Stuck(Step(st, e)) && !Moves(st, e) && Step(st, e).handled == st.handled
  {
  }

  lemma StuckStep(st: State, e: Event)
    requires Inv(st) && Stuck(st)
    ensures Stuck(Step(st, e)) && !Moves(st, e) && Step(st, e).handled == st.handled
  {
    if IsProcessors(e) {
      StuckProcessor(st, e);
    } else if IsLeavingSelect(e) {
      StuckSelect(st, e);
    } else {
      StuckModule(st, e);
    }
  }

  lemma UnstuckMoves(st: State) returns (e: Event)
    requires Inv(st) && DISPATCH in st.sups && st.processor.Holding? && !Stuck(st)
    ensures Moves(st, e)
  {
    var s := st.sups[DISPATCH];
    if |st.buffer| < CAPACITY {
      e := Send;
    } else if s.at.Head? {
      e := Start(DISPATCH, Started);
    } else if s.at.Init? {
      e := CheckDispatch(DISPATCH);
    } else if s.at.Select? {
      e := Dispatches(DISPATCH, true);
    } else if s.at.Alerting? {
      e := Raised(DISPATCH);
    } else {
      assert s.at.Killing?;
      e := Kill(DISPATCH, true);
    }
  }

  /** Exactly when: while the processor holds the lock, it and the dispatch supervisor are deadlocked if and
      only if the dispatch channel is full and the supervisor is waiting for the lock, gone, or raising an
      alert of its own while the alert channel is full too. */
  lemma DeadlockIff(st: State)
    requires Inv(st) && DISPATCH in st.sups && st.processor.Holding?
    ensures Stuck(st) <==> forall e :: !Moves(st, e)
  {
    if Stuck(st) {
      forall e ensures !Moves(st, e) {
        StuckStep(st, e);
      }
    } else {
      var e := UnstuckMoves(st);
    }
  }

  /** From then on no alert is ever handled again. */
  lemma {:induction false} DeadlockIsForever(modules: set<string>, before: seq<Event>, after: seq<Event>)
    requires Stuck(Run(Fresh(modules), before))
    ensures Stuck(Run(Fresh(modules), before + after))
    ensures Run(Fresh(modules), before + after).handled == Run(Fresh(modules), before).handled
    decreases |after|
  {
    if after == [] {
      assert before + after == before;
    } else {
      var init, last := after[..|after| - 1], after[|after| - 1];
      DeadlockIsForever(modules, before, init);
      StuckAfter(modules, before + init, last);
      assert before + after == before + init + [last];
    }
  }

  lemma StuckAfter(modules: set<string>, events: seq<Event>, e: Event)
    requires Stuck(Run(Fresh(modules), events))
    ensures Stuck(Run(Fresh(modules), events + [e]))
    ensures Run(Fresh(modules), events + [e]).handled == Run(Fresh(modules), events).handled
  {
    RunKeeps(modules, events);
    StuckStep(Run(Fresh(modules), events), e);
    var longer := Extend(modules, events, e);
  }

  lemma Extend(modules: set<string>, events: seq<Event>, e: Event) returns (longer: seq<Event>)
    ensures longer == events + [e] && Run(Fresh(modules), longer) == Step(Run(Fresh(modules), events), e)
  {
    longer := events + [e];
    assert longer[..|longer| - 1] == events;
  }

  /** Dispatch waits in its select with n alerts unread, another module is up, and nothing is under way. */
  predicate Filled(st: State, module1: string, n: nat) {
    && DISPATCH in st.sups && module1 in st.sups && module1 != DISPATCH
    && st.sups[DISPATCH] == Sup(Select, true, st.dispatchChan)
    && st.dispatchChan.Some? && st.dispatchChan.value !in st.closed
    && st.sups[module1] == Sup(Select, true, None)
    && st.processor.Receiving? && !st.lockedByProcessor && |st.buffer| == n && st.alerts == []
  }

  lemma RaiseAlert(modules: set<string>, module1: string, before: seq<Event>, n: nat) returns (events: seq<Event>)
    requires Filled(Run(Fresh(modules), before), module1, n)
    ensures var st, st' := Run(Fresh(modules), before), Run(Fresh(modules), events);
      st' == st.(sups := st.sups[module1 := Sup(Head, true, None)], processor := Holding("alert"),
                 lockedByProcessor := true, raised := st.raised + ["alert"])
  {
    events := Extend(modules, before, Raises(module1, "alert"));
    events := Extend(modules, events, Raised(module1));
    events := Extend(modules, events, Receive);
    events := Extend(modules, events, Lock);
  }

  lemma StartBoth(modules: set<string>, module1: string) returns (events: seq<Event>)
    requires modules == {DISPATCH, module1} && module1 != DISPATCH
    ensures Filled(Run(Fresh(modules), events), module1, 0)
  {
    events := Extend(modules, [], Start(DISPATCH, Started));
    events := Extend(modules, events, CheckDispatch(DISPATCH));
    events := Extend(modules, events, Allocate(DISPATCH));
    events := Extend(modules, events, Start(module1, Started));
    events := Extend(modules, events, CheckDispatch(module1));
  }

  lemma FillOneMore(modules: set<string>, module1: string, before: seq<Event>, n: nat) returns (events: seq<Event>)
    requires Filled(Run(Fresh(modules), before), module1, n) && n < CAPACITY
    ensures Filled(Run(Fresh(modules), events), module1, n + 1)
  {
    events := RaiseAlert(modules, module1, before, n);
    events := Extend(modules, events, Send);
    events := Extend(modules, events, Start(module1, Started));
    events := Extend(modules, events, CheckDispatch(module1));
  }

  lemma {:induction false} FillUp(modules: set<string>, module1: string, n: nat) returns (events: seq<Event>)
    requires modules == {DISPATCH, module1} && module1 != DISPATCH && n <= CAPACITY
    ensures Filled(Run(Fresh(modules), events), module1, n)
  {
    if n == 0 {
      events := StartBoth(modules, module1);
    } else {
      events := FillUp(modules, module1, n - 1);
      events := FillOneMore(modules, module1, events, n - 1);
    }
  }

  /** It does happen: the buffer fills, one more alert arrives, and the dispatch module goes down. */
  lemma DeadlockIsReachable(module1: string)
    requires module1 != DISPATCH
    ensures exists events :: Stuck(Run(Fresh({DISPATCH, module1}), events))
  {
    var modules := {DISPATCH, module1};
    var events := FillUp(modules, module1, CAPACITY);
    events := RaiseAlert(modules, module1, events, CAPACITY);
    events := Extend(modules, events, InputClosed(DISPATCH));
    assert Stuck(Run(Fresh(modules), events));
  }
}
