/**
 The goroutines that read a persistent module's output.  Each start of the module makes a new input channel
 and a new reader, but every reader sends on, and in the end closes, whatever channel the shared variable
 holds at that time.
 */
module ModuleReaders {

  /** closed: the current channel is.  readers: how many goroutines have yet to fail to read. */
  datatype State = State(isRunning: bool, closed: bool, readers: nat, panicked: bool)

  /** WriteFails stands for a ping, alert or configuration that cannot be written: the module is taken to be
      down without being waited for.  Killed is followed by a wait, but not for the reader. */
  datatype Event = Starts | Sends | ReadFails | SeesClosed | WriteFails | Killed

  function Step(st: State, e: Event): State {
    match e
    case Starts =>
      if st.isRunning then st else st.(isRunning := true, closed := false, readers := st.readers + 1)
    case Sends => if st.readers > 0 && st.closed then st.(panicked := true) else st
    case ReadFails =>
      if st.readers == 0 then st
      else if st.closed then st.(panicked := true)
      else st.(closed := true, readers := st.readers - 1)
    case SeesClosed => if st.isRunning && st.closed then st.(isRunning := false) else st
    case WriteFails => st.(isRunning := false)
    case Killed => st.(isRunning := false)
  }

  const INITIAL := State(false, false, 0, false)

  function Run(events: seq<Event>): State {
    if events == [] then INITIAL
    else Step(Run(events[..|events| - 1]), events[|events| - 1])
  }

  /** No module is started while the reader of an earlier start is still at work. */
  ghost predicate WaitsForReaders(events: seq<Event>) {
    forall i | 0 <= i < |events| && events[i].Starts? && !Run(events[..i]).isRunning :: Run(events[..i]).readers == 0
  }

  /** Then no reader sends on a closed channel or closes one. */
  lemma {:induction false} OneReaderIsSafe(events: seq<Event>)
    requires WaitsForReaders(events)
    ensures !Run(events).panicked && Run(events).readers + (if Run(events).closed then 1 else 0) <= 1
  {
    if events != [] {
      var n := |events| - 1;
      forall i | 0 <= i < n && events[..n][i].Starts? && !Run(events[..n][..i]).isRunning
        ensures Run(events[..n][..i]).readers == 0
      {
        assert events[..n][..i] == events[..i];
      }
      OneReaderIsSafe(events[..n]);
    }
  }

  lemma Extend(events: seq<Event>, e: Event) returns (longer: seq<Event>)
    ensures longer == events + [e] && Run(longer) == Step(Run(events), e)
  {
    longer := events + [e];
    assert longer[..|longer| - 1] == events;
  }

  /** And a start next to an earlier reader can always end in closing a closed channel, or in sending on one. */
  lemma OverlapCanPanic(events: seq<Event>)
    requires !Run(events).isRunning && Run(events).readers >= 1
    ensures Run(events + [Starts, ReadFails, ReadFails]).panicked
    ensures Run(events + [Starts, ReadFails, Sends]).panicked
  {
    var longer := Extend(events, Starts);
    longer := Extend(longer, ReadFails);
    var closes := Extend(longer, ReadFails);
    var sends := Extend(longer, Sends);
    assert closes == events + [Starts, ReadFails, ReadFails] && sends == events + [Starts, ReadFails, Sends];
  }

  /** A module whose ping fails is restarted without waiting for its reader. */
  lemma PanicIsReachable() returns (events: seq<Event>)
    ensures Run(events).panicked
  {
    events := Extend([], Starts);
    events := Extend(events, WriteFails);
    OverlapCanPanic(events);
    events := events + [Starts, ReadFails, ReadFails];
  }
}
