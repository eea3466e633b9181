/** receiveModuleResults: the collector of one command, and how it meets the pipeline. */
module ResultAggregation {
  import opened Common
  import opened AgentPipeline
  import opened FiniteSets

  datatype Status = Success | Failed | Timeout

  /** What a module printed: its data and the errors it reports itself. */
  datatype Output = Output(data: string, errors: seq<string>)

  /** err is an error of runModule itself. */
  datatype ModuleResult = ModuleResult(position: nat, status: Status, output: Output, err: Option<string>)

  /** A slot of the command's results. */
  datatype Slot = Empty | Filled(output: Output)

  /** The module's output, with the error of runModule behind the module's own. */
  predicate IsReported(r: ModuleResult, slot: Slot) {
    && slot.Filled? && slot.output.data == r.output.data
    && (r.err.None? ==> slot.output.errors == r.output.errors)
    && (r.err.Some? ==> slot.output.errors == r.output.errors + [r.err.value])
  }

  /** Each of the n operations answers exactly once, in whatever order. */
  ghost predicate OncePerOperation(arrivals: seq<ModuleResult>, n: nat) {
    && |arrivals| == n
    && (forall i | 0 <= i < n :: arrivals[i].position < n)
    && (forall i, j | 0 <= i < j < n :: arrivals[i].position != arrivals[j].position)
  }

  /** Receives until n results are in; the rest of the channel is left alone. */
  method ReceiveModuleResults(n: nat, arrivals: seq<ModuleResult>)
    returns (status: Status, results: array<Slot>, received: nat)
    requires n >= 1
    requires OncePerOperation(arrivals, n)
    ensures fresh(results) && results.Length == n && received == n
    ensures forall i | 0 <= i < n ::
      IsReported(arrivals[i], results[arrivals[i].position])
    ensures forall p | 0 <= p < n :: results[p].Filled?
    ensures status == Success <==> forall i | 0 <= i < n :: arrivals[i].status == Success
    ensures status != Success ==> exists i :: FirstBad(arrivals[..n], i) && arrivals[i].status == status
  {
    results := new Slot[n](_ => Empty);
    status, received := Success, 0;
    while received < n
      invariant received <= n
      invariant forall i | 0 <= i < received ::
        IsReported(arrivals[i], results[arrivals[i].position])
      invariant IsFirstBad(arrivals[..received], status)
    {
      var result := arrivals[received];
      assert arrivals[..received + 1] == arrivals[..received] + [result];
      OneMoreStatus(arrivals[..received], result, status);
      if status == Success && result.status != Success {
        status := result.status;
      }
      results[result.position] := Filled(result.output);
      if result.err.Some? {
        var output := results[result.position].output;
        results[result.position] := Filled(output.(errors := output.errors + [result.err.value]));
      }
      received := received + 1;
    }
    forall p | 0 <= p < n ensures results[p].Filled? {
      var i := ArrivalOf(arrivals, n, p);
    }
  }

  /** The i-th arrival is the first that is not a success. */
  ghost predicate FirstBad(arrivals: seq<ModuleResult>, i: int) {
    && 0 <= i < |arrivals| && arrivals[i].status != Success
    && forall j | 0 <= j < i :: arrivals[j].status == Success
  }

  /** status is that of the first arrival that is not a success, if there is one. */
  ghost predicate IsFirstBad(arrivals: seq<ModuleResult>, status: Status) {
    && (status == Success <==> forall i | 0 <= i < |arrivals| :: arrivals[i].status == Success)
    && (status != Success ==> exists i :: FirstBad(arrivals, i) && arrivals[i].status == status)
  }

  lemma OneMoreStatus(arrivals: seq<ModuleResult>, result: ModuleResult, status: Status)
    requires IsFirstBad(arrivals, status)
    ensures IsFirstBad(arrivals + [result], if status == Success then result.status else status)
  {
    var more := arrivals + [result];
    if status != Success {
      var i :| FirstBad(arrivals, i) && arrivals[i].status == status;
      assert FirstBad(more, i);
    } else if result.status != Success {
      assert FirstBad(more, |arrivals|);
    }
  }

  /** n distinct positions below n are all the positions. */
  lemma ArrivalOf(arrivals: seq<ModuleResult>, n: nat, p: nat) returns (i: nat)
    requires OncePerOperation(arrivals, n) && p < n
    ensures i < n && arrivals[i].position == p
  {
    var positions: seq<int> := seq(n, i requires 0 <= i < n => arrivals[i].position);
    DistinctSize(positions);
    SubsetIsNoLarger(Elements(positions), Below(n));
    assert forall x | x in Elements(positions) :: x in Below(n);
    assert (p as int) in Below(n);
    assert Elements(positions) == Below(n);
    i :| 0 <= i < n && positions[i] == p;
  }

  /** What reaches the collector of an answered command meets its contract: the pipeline delivers each
      result of the command exactly once. */
  lemma PipelineFeedsCollector(commands: seq<nat>, capacity: nat, events: seq<Event>, c: nat,
                               outcome: Op -> ModuleResult)
    requires capacity >= 1 && IsRun(commands, capacity, events)
    requires Answered(commands, After(commands, capacity, events), c)
    requires forall op :: outcome(op).position == op.position
    ensures var ops := After(commands, capacity, events).collectors[c];
      OncePerOperation(seq(|ops|, i requires 0 <= i < |ops| => outcome(ops[i])), commands[c])
  {
    AnsweredInOrder(commands, capacity, events, c);
  }
}
