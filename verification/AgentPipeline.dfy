/**
 The execution pipeline of the agent: parseCommands feeds the operations of one command after another
 into a bounded channel, a single runner takes one operation at a time and answers on the unbuffered
 channel of its command, and the collector of a command is started only after the whole command was fed.
 commands[c] is the number of operations of the c-th command; all modules are available.
 */
module AgentPipeline {

  datatype Op = Op(command: nat, position: nat)

  datatype Runner = Idle | Executing(op: Op) | Answering(op: Op)

  /** cursor and fed say where parseCommands stands; collectors[c] is what the collector of c has
      received; sent is the history of all sends on result channels. */
  datatype State = State(
    cursor: nat,
    fed: nat,
    queue: seq<Op>,
    runner: Runner,
    collectors: seq<seq<Op>>,
    runningOps: set<Op>,
    sent: seq<Op>)

  datatype Event = Feed | StartCollector | Take | Finish | Deliver

  function Init(): State {
    State(0, 0, [], Idle, [], {}, [])
  }

  /** The collector has received as many results as the command has operations, forwarded the command
      and closed the channel.  It counts after receiving, so a command without operations never gets here. */
  predicate Answered(commands: seq<nat>, st: State, c: nat) {
    c < |commands| && c < |st.collectors| && commands[c] >= 1 && |st.collectors[c]| >= commands[c]
  }

  predicate Listening(commands: seq<nat>, st: State, c: nat) {
    c < |st.collectors| && !Answered(commands, st, c)
  }

  predicate Enabled(commands: seq<nat>, capacity: nat, st: State, e: Event) {
    match e
    case Feed => st.cursor < |commands| && st.fed < commands[st.cursor] && |st.queue| < capacity
    case StartCollector => st.cursor < |commands| && st.fed == commands[st.cursor]
    case Take => st.runner.Idle? && st.queue != []
    case Finish => st.runner.Executing?
    case Deliver => st.runner.Answering? && Listening(commands, st, st.runner.op.command)
  }

  /** The runner drops the operation from runningOps before it sends the result. */
  function Step(commands: seq<nat>, capacity: nat, st: State, e: Event): State
    requires Enabled(commands, capacity, st, e)
  {
    match e
    case Feed =>
      var op := Op(st.cursor, st.fed);
      st.(fed := st.fed + 1, queue := st.queue + [op], runningOps := st.runningOps + {op})
    case StartCollector => st.(cursor := st.cursor + 1, fed := 0, collectors := st.collectors + [[]])
    case Take => st.(runner := Executing(st.queue[0]), queue := st.queue[1..])
    case Finish => st.(runner := Answering(st.runner.op), runningOps := st.runningOps - {st.runner.op})
    case Deliver =>
      var op := st.runner.op;
      st.(runner := Idle, sent := st.sent + [op],
          collectors := st.collectors[op.command := st.collectors[op.command] + [op]])
  }

  // ----- the operations in the order in which they are fed -----

  function OpsOf(c: nat, n: nat): seq<Op> {
    seq(n, i requires 0 <= i < n => Op(c, i))
  }

  function Ops(commands: seq<nat>, cursor: nat): seq<Op>
    requires cursor <= |commands|
  {
    if cursor == 0 then [] else Ops(commands, cursor - 1) + OpsOf(cursor - 1, commands[cursor - 1])
  }

  function Fed(commands: seq<nat>, st: State): seq<Op>
    requires st.cursor <= |commands|
  {
    Ops(commands, st.cursor) + OpsOf(st.cursor, st.fed)
  }

  function Held(st: State): seq<Op> {
    if st.runner.Idle? then [] else [st.runner.op]
  }

  /** The sub-sequence of the operations of one command. */
  function Only(ops: seq<Op>, c: nat): seq<Op> {
    if ops == [] then []
    else Only(ops[..|ops| - 1], c) + if ops[|ops| - 1].command == c then [ops[|ops| - 1]] else []
  }

  lemma {:induction false} OnlyOfConcat(a: seq<Op>, b: seq<Op>, c: nat)
    ensures Only(a + b, c) == Only(a, c) + Only(b, c)
  {
    if b == [] {
      assert a + b == a;
    } else {
      assert (a + b)[..|a + b| - 1] == a + b[..|b| - 1];
      OnlyOfConcat(a, b[..|b| - 1], c);
    }
  }

  lemma {:induction false} OnlyOfOpsOf(d: nat, n: nat, c: nat)
    ensures Only(OpsOf(d, n), c) == if c == d then OpsOf(c, n) else []
  {
    if n > 0 {
      assert OpsOf(d, n)[..n - 1] == OpsOf(d, n - 1);
      OnlyOfOpsOf(d, n - 1, c);
    }
  }

  lemma {:induction false} OnlyOfOps(commands: seq<nat>, cursor: nat, c: nat)
    requires cursor <= |commands|
    ensures Only(Ops(commands, cursor), c) == if c < cursor then OpsOf(c, commands[c]) else []
  {
    if cursor > 0 {
      OnlyOfOps(commands, cursor - 1, c);
      OnlyOfConcat(Ops(commands, cursor - 1), OpsOf(cursor - 1, commands[cursor - 1]), c);
      OnlyOfOpsOf(cursor - 1, commands[cursor - 1], c);
    }
  }

  // ----- the invariant -----

  ghost predicate Inv(commands: seq<nat>, capacity: nat, st: State) {
    && st.cursor <= |commands| && |st.collectors| == st.cursor
    && (if st.cursor < |commands| then st.fed <= commands[st.cursor] else st.fed == 0)
    && |st.queue| <= capacity
    && st.sent + Held(st) + st.queue == Fed(commands, st)
    && (forall op | op in st.sent :: op.command < st.cursor)
    && (forall c | 0 <= c < st.cursor :: st.collectors[c] == Only(st.sent, c) && commands[c] <= capacity + 1)
    && st.runningOps == (if st.runner.Executing? then {st.runner.op} else {}) + set op | op in st.queue
  }

  /** What the collector of a started command has received, is about to receive, and will receive. */
  lemma ReceivedSoFar(commands: seq<nat>, capacity: nat, st: State, c: nat)
    requires Inv(commands, capacity, st) && c < st.cursor
    ensures st.collectors[c] + Only(Held(st), c) + Only(st.queue, c) == OpsOf(c, commands[c])
  {
    OnlyOfConcat(st.sent + Held(st), st.queue, c);
    OnlyOfConcat(st.sent, Held(st), c);
    OnlyOfConcat(Ops(commands, st.cursor), OpsOf(st.cursor, st.fed), c);
    OnlyOfOps(commands, st.cursor, c);
    OnlyOfOpsOf(st.cursor, st.fed, c);
  }

  /** Nothing of the command being fed has been sent yet. */
  lemma BeingFed(commands: seq<nat>, capacity: nat, st: State)
    requires Inv(commands, capacity, st)
    ensures Only(Held(st), st.cursor) + Only(st.queue, st.cursor) == OpsOf(st.cursor, st.fed)
    ensures st.fed <= |Held(st)| + |st.queue|
  {
    var c := st.cursor;
    OnlyOfConcat(st.sent + Held(st), st.queue, c);
    OnlyOfConcat(st.sent, Held(st), c);
    OnlyOfConcat(Ops(commands, c), OpsOf(c, st.fed), c);
    OnlyOfOps(commands, c, c);
    OnlyOfOpsOf(c, st.fed, c);
    NoneOf(st.sent, c);
    OnlyIsShorter(st.queue, c);
    OnlyIsShorter(Held(st), c);
  }

  lemma {:induction false} NoneOf(ops: seq<Op>, c: nat)
    requires forall op | op in ops :: op.command < c
    ensures Only(ops, c) == []
  {
    if ops != [] {
      NoneOf(ops[..|ops| - 1], c);
    }
  }

  lemma {:induction false} OnlyIsShorter(ops: seq<Op>, c: nat)
    ensures |Only(ops, c)| <= |ops|
    ensures |Only(ops, c)| == |ops| ==> Only(ops, c) == ops
  {
    if ops != [] {
      OnlyIsShorter(ops[..|ops| - 1], c);
    }
  }

  /** A send never meets a closed channel: the collector of an operation on its way is not finished. */
  lemma NoSendAfterClose(commands: seq<nat>, capacity: nat, st: State)
    requires Inv(commands, capacity, st) && !st.runner.Idle?
    ensures !Answered(commands, st, st.runner.op.command)
    ensures st.runner.op.command <= st.cursor
    ensures st.runner.op.command == st.cursor ==> st.runner.op == Op(st.cursor, 0)
    ensures st.runner.op.command == st.cursor ==> st.fed >= 1 && st.queue == OpsOf(st.cursor, st.fed)[1..]
  {
    var op := st.runner.op;
    var k := |st.sent|;
    assert Fed(commands, st)[k] == op;
    InOps(commands, st.cursor);
    if op.command < st.cursor {
      ReceivedSoFar(commands, capacity, st, op.command);
      assert Only(Held(st), op.command) == [op] by { assert [op][..0] == []; }
    } else {
      var ops := Ops(commands, st.cursor);
      assert forall i | 0 <= i < |ops| :: Fed(commands, st)[i] == ops[i] && ops[i] in ops;
      assert forall i | 0 <= i < k :: Fed(commands, st)[i] == st.sent[i] && st.sent[i] in st.sent;
      assert k == |ops|;
      assert st.queue == Fed(commands, st)[k + 1..];
    }
  }

  lemma {:induction false} InOps(commands: seq<nat>, cursor: nat)
    requires cursor <= |commands|
    ensures forall op | op in Ops(commands, cursor) :: op.command < cursor
  {
    if cursor > 0 {
      InOps(commands, cursor - 1);
    }
  }

  lemma FeederKeepsInv(commands: seq<nat>, capacity: nat, st: State, e: Event)
    requires capacity >= 1 && (e.Feed? || e.StartCollector?)
    requires Inv(commands, capacity, st) && Enabled(commands, capacity, st, e)
    ensures Inv(commands, capacity, Step(commands, capacity, st, e))
  {
    if e.Feed? {
      var op := Op(st.cursor, st.fed);
      assert OpsOf(st.cursor, st.fed + 1) == OpsOf(st.cursor, st.fed) + [op];
      assert Fed(commands, Step(commands, capacity, st, e)) == Fed(commands, st) + [op];
    } else {
      BeingFed(commands, capacity, st);
      NoneOf(st.sent, st.cursor);
      assert OpsOf(st.cursor + 1, 0) == [];
    }
  }

  lemma DeliverKeepsInv(commands: seq<nat>, capacity: nat, st: State)
    requires Inv(commands, capacity, st) && Enabled(commands, capacity, st, Deliver)
    ensures Inv(commands, capacity, Step(commands, capacity, st, Deliver))
  {
    var op := st.runner.op;
    var st' := Step(commands, capacity, st, Deliver);
    forall c | 0 <= c < st.cursor ensures Only(st.sent + [op], c) == st'.collectors[c] {
      assert (st.sent + [op])[..|st.sent|] == st.sent;
    }
  }

  lemma StepKeepsInv(commands: seq<nat>, capacity: nat, st: State, e: Event)
    requires capacity >= 1
    requires Inv(commands, capacity, st) && Enabled(commands, capacity, st, e)
    ensures Inv(commands, capacity, Step(commands, capacity, st, e))
  {
    match e {
      case Feed => FeederKeepsInv(commands, capacity, st, e);
      case StartCollector => FeederKeepsInv(commands, capacity, st, e);
      case Take => assert st.queue == [st.queue[0]] + st.queue[1..];
      case Finish => FinishDropsOne(commands, capacity, st);
      case Deliver => DeliverKeepsInv(commands, capacity, st);
    }
  }

  lemma FinishDropsOne(commands: seq<nat>, capacity: nat, st: State)
    requires Inv(commands, capacity, st) && st.runner.Executing?
    ensures st.runner.op !in st.queue
  {
    var op, k := st.runner.op, |st.sent|;
    FedIsDistinct(commands, st);
    forall j | 0 <= j < |st.queue| ensures st.queue[j] != op {
      assert Fed(commands, st)[k] == op;
      assert Fed(commands, st)[k + 1 + j] == st.queue[j];
    }
  }

  lemma FedIsDistinct(commands: seq<nat>, st: State)
    requires st.cursor <= |commands|
    ensures forall i, j | 0 <= i < j < |Fed(commands, st)| :: Fed(commands, st)[i] != Fed(commands, st)[j]
  {
    OpsDistinct(commands, st.cursor);
    InOps(commands, st.cursor);
    var ops := Ops(commands, st.cursor);
    assert forall i | 0 <= i < |ops| :: ops[i] in ops;
  }

  lemma {:induction false} OpsDistinct(commands: seq<nat>, cursor: nat)
    requires cursor <= |commands|
    ensures forall i, j | 0 <= i < j < |Ops(commands, cursor)| :: Ops(commands, cursor)[i] != Ops(commands, cursor)[j]
  {
    if cursor > 0 {
      OpsDistinct(commands, cursor - 1);
      InOps(commands, cursor - 1);
      var ops := Ops(commands, cursor - 1);
      assert forall i | 0 <= i < |ops| :: ops[i] in ops;
    }
  }

  // ----- runs -----

  ghost predicate IsRun(commands: seq<nat>, capacity: nat, events: seq<Event>)
    decreases |events|, 0
  {
    events == [] ||
      var init := events[..|events| - 1];
      IsRun(commands, capacity, init)
      && Enabled(commands, capacity, After(commands, capacity, init), events[|events| - 1])
  }

  ghost function After(commands: seq<nat>, capacity: nat, events: seq<Event>): State
    requires IsRun(commands, capacity, events)
    decreases |events|, 1
  {
    if events == [] then Init()
    else Step(commands, capacity, After(commands, capacity, events[..|events| - 1]), events[|events| - 1])
  }

  lemma {:induction false} RunKeepsInv(commands: seq<nat>, capacity: nat, events: seq<Event>)
    requires capacity >= 1 && IsRun(commands, capacity, events)
    ensures Inv(commands, capacity, After(commands, capacity, events))
    decreases |events|
  {
    if events != [] {
      var init := events[..|events| - 1];
      RunKeepsInv(commands, capacity, init);
      StepKeepsInv(commands, capacity, After(commands, capacity, init), events[|events| - 1]);
    }
  }

  ghost predicate Halted(commands: seq<nat>, capacity: nat, st: State) {
    forall e :: !Enabled(commands, capacity, st, e)
  }

  /** The first command with more than capacity + 1 operations, or the number of commands. */
  function FirstTooLong(commands: seq<nat>, capacity: nat): (k: nat)
    ensures k <= |commands|
    ensures forall c | 0 <= c < k :: commands[c] <= capacity + 1
    ensures k < |commands| ==> commands[k] > capacity + 1
  {
    if commands == [] then 0
    else if commands[0] > capacity + 1 then 0
    else 1 + FirstTooLong(commands[1..], capacity)
  }

  /** Where a halted pipeline stands: everything fed and delivered, or parseCommands blocked inside a
      command whose collector does not exist yet. */
  lemma HaltedAt(commands: seq<nat>, capacity: nat, st: State)
    requires capacity >= 1 && Inv(commands, capacity, st) && Halted(commands, capacity, st)
    ensures st.cursor == FirstTooLong(commands, capacity)
    ensures st.cursor < |commands| ==>
      st.runner == Answering(Op(st.cursor, 0)) && st.queue == OpsOf(st.cursor, capacity + 1)[1..]
    ensures st.cursor == |commands| ==> st.runner.Idle? && st.queue == []
    ensures forall c | 0 <= c < st.cursor :: st.collectors[c] == OpsOf(c, commands[c])
  {
    assert !Enabled(commands, capacity, st, Finish) && !Enabled(commands, capacity, st, Take)
      && !Enabled(commands, capacity, st, Feed) && !Enabled(commands, capacity, st, StartCollector)
      && !Enabled(commands, capacity, st, Deliver);
    if st.runner.Answering? {
      NoSendAfterClose(commands, capacity, st);
      assert |st.queue| == st.fed - 1;
    }
    forall c | 0 <= c < st.cursor ensures st.collectors[c] == OpsOf(c, commands[c]) {
      ReceivedSoFar(commands, capacity, st, c);
      if st.runner.Answering? {
        OnlyOfOpsOf(st.cursor, st.fed, c);
        OnlyOfConcat([st.runner.op], st.queue, c);
        assert [st.runner.op] + st.queue == OpsOf(st.cursor, st.fed);
      }
    }
  }

  /** The exact bound.  However the goroutines interleave, a run that can go no further has answered the
      commands before the first one that has more than capacity + 1 operations, save those without
      operations, and no others. */
  lemma MaximalRunAnswersExactly(commands: seq<nat>, capacity: nat, events: seq<Event>)
    requires capacity >= 1 && IsRun(commands, capacity, events)
    requires Halted(commands, capacity, After(commands, capacity, events))
    ensures forall c: nat ::
      (Answered(commands, After(commands, capacity, events), c)
       <==> c < FirstTooLong(commands, capacity) && commands[c] >= 1)
  {
    RunKeepsInv(commands, capacity, events);
    HaltedAt(commands, capacity, After(commands, capacity, events));
  }

  /** Every command is answered in every maximal run iff each has between 1 and capacity + 1 operations. */
  lemma AllAnsweredIffWithinBound(commands: seq<nat>, capacity: nat, events: seq<Event>)
    requires capacity >= 1 && IsRun(commands, capacity, events)
    requires Halted(commands, capacity, After(commands, capacity, events))
    ensures (forall c | 0 <= c < |commands| :: Answered(commands, After(commands, capacity, events), c))
       <==> (forall c | 0 <= c < |commands| :: 1 <= commands[c] <= capacity + 1)
  {
    MaximalRunAnswersExactly(commands, capacity, events);
    if forall c | 0 <= c < |commands| :: Answered(commands, After(commands, capacity, events), c) {
      forall c: nat | c < |commands| ensures 1 <= commands[c] <= capacity + 1 {
        assert Answered(commands, After(commands, capacity, events), c);
      }
    }
  }

  /** As long as something is unanswered and all sizes are within the bound, some goroutine can move. */
  lemma NoDeadlockWithinBound(commands: seq<nat>, capacity: nat, st: State)
    requires capacity >= 1 && Inv(commands, capacity, st)
    requires forall c | 0 <= c < |commands| :: 1 <= commands[c] <= capacity + 1
    ensures (exists e :: Enabled(commands, capacity, st, e))
         || (forall c | 0 <= c < |commands| :: Answered(commands, st, c))
  {
    if Halted(commands, capacity, st) {
      HaltedAt(commands, capacity, st);
    }
  }

  // ----- termination -----

  function Busy(r: Runner): nat {
    match r
    case Idle => 0
    case Executing(_) => 2
    case Answering(_) => 1
  }

  /** What is left to do: four moves for an operation not yet fed, down to one for an answer on its way. */
  function Left(commands: seq<nat>, st: State): int
    requires st.cursor <= |commands|
  {
    |commands| - st.cursor
    + 4 * (|Ops(commands, |commands|)| - |Fed(commands, st)|) + 3 * |st.queue| + Busy(st.runner)
  }

  lemma {:induction false} OpsGrow(commands: seq<nat>, c: nat, d: nat)
    requires c <= d <= |commands|
    ensures |Ops(commands, c)| <= |Ops(commands, d)|
    decreases d - c
  {
    if c < d {
      OpsGrow(commands, c + 1, d);
    }
  }

  lemma FedIsPart(commands: seq<nat>, capacity: nat, st: State)
    requires Inv(commands, capacity, st)
    ensures |Fed(commands, st)| <= |Ops(commands, |commands|)|
  {
    if st.cursor < |commands| {
      OpsGrow(commands, st.cursor + 1, |commands|);
    }
  }

  lemma StepLeavesLess(commands: seq<nat>, capacity: nat, st: State, e: Event)
    requires capacity >= 1
    requires Inv(commands, capacity, st) && Enabled(commands, capacity, st, e)
    ensures Step(commands, capacity, st, e).cursor <= |commands|
    ensures 0 <= Left(commands, Step(commands, capacity, st, e)) < Left(commands, st)
  {
    StepKeepsInv(commands, capacity, st, e);
    FedIsPart(commands, capacity, Step(commands, capacity, st, e));
  }

  /** Runs end: no run takes more moves than one per command and four per operation. */
  lemma {:induction false} RunsAreBounded(commands: seq<nat>, capacity: nat, events: seq<Event>)
    requires capacity >= 1 && IsRun(commands, capacity, events)
    ensures Inv(commands, capacity, After(commands, capacity, events))
    ensures |events| + Left(commands, After(commands, capacity, events)) <= |commands| + 4 * |Ops(commands, |commands|)|
    ensures |events| <= |commands| + 4 * |Ops(commands, |commands|)|
    decreases |events|
  {
    RunKeepsInv(commands, capacity, events);
    FedIsPart(commands, capacity, After(commands, capacity, events));
    if events != [] {
      var init := events[..|events| - 1];
      RunsAreBounded(commands, capacity, init);
      StepLeavesLess(commands, capacity, After(commands, capacity, init), events[|events| - 1]);
    }
  }

  // ----- what an answered command leaves behind -----

  /** An answered command got its results in position order, each once, and none of its operations
      is still registered as running. */
  lemma AnsweredInOrder(commands: seq<nat>, capacity: nat, events: seq<Event>, c: nat)
    requires capacity >= 1 && IsRun(commands, capacity, events)
    requires Answered(commands, After(commands, capacity, events), c)
    ensures var st := After(commands, capacity, events);
      && st.collectors[c] == OpsOf(c, commands[c])
      && (forall op | op in st.runningOps :: op.command != c)
      && (!st.runner.Idle? ==> st.runner.op.command != c)
  {
    var st := After(commands, capacity, events);
    RunKeepsInv(commands, capacity, events);
    ReceivedSoFar(commands, capacity, st, c);
    assert Only(Held(st), c) == [] && Only(st.queue, c) == [];
    NotIn(Held(st), c);
    NotIn(st.queue, c);
    assert !st.runner.Idle? ==> st.runner.op in Held(st);
  }

  lemma {:induction false} NotIn(ops: seq<Op>, c: nat)
    requires Only(ops, c) == []
    ensures forall op | op in ops :: op.command != c
  {
    if ops != [] {
      NotIn(ops[..|ops| - 1], c);
    }
  }
}
