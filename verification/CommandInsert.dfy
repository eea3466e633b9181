/** The statement that inserts a batch of commands. */
module CommandInsert {
  import opened Common

  datatype NewCommand<R> = NewCommand(
    id: int, actionId: int, agentId: int, status: string, startTime: int, results: R)

  datatype Value = Num(n: int) | Text(s: string) | Time(t: int)

  const FUTURE_DATE: Value := Time(FAR_FUTURE)

  /** How PostgreSQL reads the statement: column c of a row is the value behind the placeholder in its place. */
  function Evaluate(row: seq<nat>, vals: seq<Value>): (r: seq<Option<Value>>)
    ensures |r| == |row|
  {
    seq(|row|, c requires 0 <= c < |row| => if 1 <= row[c] <= |vals| then Some(vals[row[c] - 1]) else None)
  }

  /** The row a command is to become, in the order of the statement's columns. */
  predicate IsRowOf<R>(row: seq<Option<Value>>, cmd: NewCommand<R>, json: string) {
    row == [Some(Num(cmd.id)), Some(Num(cmd.actionId)), Some(Num(cmd.agentId)), Some(Text(cmd.status)),
            Some(Time(cmd.startTime)), Some(FUTURE_DATE), Some(Text(json))]
  }

  function Upto(n: nat): (s: seq<nat>)
    ensures |s| == n && forall i | 0 <= i < n :: s[i] == i + 1
  {
    seq(n, i => i + 1)
  }

  function Concat(rows: seq<seq<nat>>): seq<nat> {
    if rows == [] then [] else Concat(rows[..|rows| - 1]) + rows[|rows| - 1]
  }

  /** Everything stays as it was when values are added behind it. */
  lemma EvaluateMore(row: seq<nat>, vals: seq<Value>, more: seq<Value>)
    requires forall p | p in row :: 1 <= p <= |vals|
    ensures Evaluate(row, vals + more) == Evaluate(row, vals)
  {
    forall c | 0 <= c < |row| ensures Evaluate(row, vals + more)[c] == Evaluate(row, vals)[c] {
      assert row[c] in row;
    }
  }

  /**
   The statement and its values, or the number of commands before the first whose results do not marshal.
   The placeholders are $1 to $7n, each once and in order, and every row reads as its command.
   */
  method BuildInsert<R>(cmds: seq<NewCommand<R>>, marshal: R -> Option<string>)
    returns (rows: seq<seq<nat>>, vals: seq<Value>, failedAt: Option<nat>)
    ensures failedAt.None? <==> forall cmd | cmd in cmds :: marshal(cmd.results).Some?
    ensures failedAt.Some? ==> failedAt.value < |cmds| && marshal(cmds[failedAt.value].results).None?
    ensures failedAt.Some? ==> forall i | 0 <= i < failedAt.value :: marshal(cmds[i].results).Some?
    ensures failedAt.None? ==> |rows| == |cmds| && Concat(rows) == Upto(7 * |cmds|) && |vals| == 7 * |cmds|
    ensures (failedAt.None? ==> forall i | 0 <= i < |cmds| ::
      marshal(cmds[i].results).Some? && IsRowOf(Evaluate(rows[i], vals), cmds[i], marshal(cmds[i].results).value))
  {
    rows, vals, failedAt := [], [], None;
    var step := 0;
    for i := 0 to |cmds|
      invariant step == 6 * i && |rows| == i && |vals| == 7 * i
      invariant Concat(rows) == Upto(7 * i)
      invariant forall k | 0 <= k < i :: marshal(cmds[k].results).Some?
      invariant forall k | 0 <= k < i :: forall p | p in rows[k] :: 1 <= p <= 7 * i
      invariant forall k | 0 <= k < i :: IsRowOf(Evaluate(rows[k], vals), cmds[k], marshal(cmds[k].results).value)
    {
      var cmd := cmds[i];
      var json := marshal(cmd.results);
      if json.None? {
        assert cmd in cmds;
        return rows, vals, Some(i);
      }
      var row := [i + 1 + step, i + 2 + step, i + 3 + step, i + 4 + step, i + 5 + step, i + 6 + step, i + 7 + step];
      var added := [Num(cmd.id), Num(cmd.actionId), Num(cmd.agentId), Text(cmd.status), Time(cmd.startTime),
                    FUTURE_DATE, Text(json.value)];
      OneMoreRow(rows, vals, row, added, cmd, json.value);
      forall k | 0 <= k < i ensures Evaluate(rows[k], vals + added) == Evaluate(rows[k], vals) {
        EvaluateMore(rows[k], vals, added);
      }
      rows := rows + [row];
      vals := vals + added;
      step := step + 6;
    }
  }

  lemma OneMoreRow<R>(rows: seq<seq<nat>>, vals: seq<Value>, row: seq<nat>, added: seq<Value>, cmd: NewCommand<R>,
                      json: string)
    requires |vals| == 7 * |rows| && Concat(rows) == Upto(|vals|)
    requires |row| == 7 && forall c | 0 <= c < 7 :: row[c] == |vals| + c + 1
    requires added == [Num(cmd.id), Num(cmd.actionId), Num(cmd.agentId), Text(cmd.status), Time(cmd.startTime),
                       FUTURE_DATE, Text(json)]
    ensures Concat(rows + [row]) == Upto(|vals| + 7)
    ensures IsRowOf(Evaluate(row, vals + added), cmd, json)
  {
    assert (rows + [row])[..|rows|] == rows;
    forall c | 0 <= c < 7 ensures Evaluate(row, vals + added)[c] == Some(added[c]) {
      assert (vals + added)[row[c] - 1] == added[c];
    }
  }
}
