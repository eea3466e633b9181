/** The filter-to-query compiler of the database package. */
module SearchBuilder {
  import opened Common
  import opened SearchQuery
  import P = SearchParameters
  import T = TextFormats

  /** Instants are in nanoseconds. */
  const HOUR: int := 3_600_000_000_000
  const WINDOW: int := P.WINDOW_HOURS * HOUR

  type Params = P.Parameters

  const NO_ID := P.NO_ID
  const ANY := P.ANY

  /** A string field: an id, "∞" when not supplied, or a pattern, "%" when not supplied. */
  function Wanted(p: Params, k: P.Key): string {
    if k in p.texts then p.texts[k] else P.Default(k)
  }

  // ----- makeIDsFromParams -----

  const MAXFLOAT64: int := 9007199254740991

  datatype Range = Range(min: int, max: int)
  datatype Ids = Ids(action: Range, command: Range, agent: Range, investigator: Range, manifest: Range, loader: Range)

  function RangeOf(id: string, parse: string -> Option<int>): Option<Range> {
    if id == NO_ID then Some(Range(0, MAXFLOAT64))
    else match parse(id)
      case None => None
      case Some(v) => Some(Range(v, v))
  }

  /** The first id that does not parse is an error, whether or not the search would use it. */
  function MakeIds(p: Params, parse: string -> Option<int>): Result<Ids> {
    match (RangeOf(Wanted(p, P.ActionId), parse), RangeOf(Wanted(p, P.CommandId), parse),
           RangeOf(Wanted(p, P.AgentId), parse), RangeOf(Wanted(p, P.InvestigatorId), parse),
           RangeOf(Wanted(p, P.ManifestId), parse), RangeOf(Wanted(p, P.LoaderId), parse))
    case (Some(action), Some(command), Some(agent), Some(investigator), Some(manifest), Some(loader)) =>
      Ok(Ids(action, command, agent, investigator, manifest, loader))
    case _ => Err("invalid id")
  }

  // ----- a filter, and what a list of filters compiles to -----

  datatype Filter = Filter(field: Field, op: Op, value: Value)

  function Tokens(filters: seq<Filter>): seq<Token> {
    if filters == [] then []
    else
      var init, f := filters[..|filters| - 1], filters[|filters| - 1];
      Tokens(init) + (if init == [] then [] else [And]) + [Cmp(f.field, f.op, |filters|)]
  }

  function Values(filters: seq<Filter>): seq<Value> {
    seq(|filters|, i requires 0 <= i < |filters| => filters[i].value)
  }

  /** where, vals and valctr of the search functions; filters is what they stand for. */
  class Builder {
    var wher: seq<Token>
    var vals: seq<Value>
    var valctr: nat
    ghost var filters: seq<Filter>

    ghost predicate Valid() reads this {
      && wher == Tokens(filters)
      && vals == Values(filters)
      && valctr == |filters|
    }

    constructor ()
      ensures Valid() && filters == []
    {
      wher, vals, valctr, filters := [], [], 0, [];
    }

    method Compare(field: Field, op: Op, v: Value)
      requires Valid()
      modifies this
      ensures Valid() && filters == old(filters) + [Filter(field, op, v)]
    {
      if valctr > 0 {
        wher := wher + [And];
      }
      wher := wher + [Cmp(field, op, valctr + 1)];
      vals := vals + [v];
      valctr := valctr + 1;
      filters := filters + [Filter(field, op, v)];
      assert filters[..|filters| - 1] == old(filters);
    }

    method Within(field: Field, range: Range)
      requires Valid()
      modifies this
      ensures Valid() && filters == old(filters) + Bounds(field, range)
    {
      if valctr > 0 {
        wher := wher + [And];
      }
      wher := wher + [Cmp(field, AtLeast, valctr + 1), And, Cmp(field, AtMost, valctr + 2)];
      vals := vals + [Num(range.min), Num(range.max)];
      valctr := valctr + 2;
      ghost var lower, upper := Filter(field, AtLeast, Num(range.min)), Filter(field, AtMost, Num(range.max));
      ghost var mid := filters + [lower];
      assert mid[..|mid| - 1] == filters;
      filters := filters + [lower, upper];
      assert filters[..|filters| - 1] == mid;
    }
  }

  function Bounds(field: Field, range: Range): seq<Filter> {
    [Filter(field, AtLeast, Num(range.min)), Filter(field, AtMost, Num(range.max))]
  }

  // ----- what the caller supplied -----

  function IdFilter(id: string, field: Field, range: Range): seq<Filter> {
    if id != NO_ID then Bounds(field, range) else []
  }

  function NameFilter(pattern: string, field: Field): seq<Filter> {
    if pattern != ANY then [Filter(field, ILike, Text(pattern))] else []
  }

  function TimeFilters(p: Params, now: int, field: Field): seq<Filter> {
    (if T.Instant(p.before) < now + (WINDOW - HOUR) then [Filter(field, AtMost, Num(T.Instant(p.before)))] else [])
    + (if T.Instant(p.after) > now - (WINDOW - HOUR) then [Filter(field, AtLeast, Num(T.Instant(p.after)))] else [])
  }

  function AgentFilters(p: Params, ids: Ids): seq<Filter> {
    IdFilter(Wanted(p, P.AgentId), AgentId, ids.agent)
    + NameFilter(Wanted(p, P.AgentName), AgentName)
    + NameFilter(Wanted(p, P.AgentVersion), AgentVersion)
  }

  function ActionFilters(p: Params, ids: Ids): seq<Filter> {
    IdFilter(Wanted(p, P.ActionId), ActionId, ids.action)
    + NameFilter(Wanted(p, P.ActionName), ActionName)
    + NameFilter(Wanted(p, P.ThreatFamily), ActionFamily)
  }

  function InvestigatorFilters(p: Params, ids: Ids): seq<Filter> {
    IdFilter(Wanted(p, P.InvestigatorId), InvestigatorId, ids.investigator)
    + NameFilter(Wanted(p, P.InvestigatorName), InvestigatorName)
  }

  function CommandFilters(p: Params, ids: Ids): seq<Filter> {
    IdFilter(Wanted(p, P.CommandId), CommandId, ids.command)
  }

  /** The filters of a search, by the table they are about: the searched table's own, and those on
      commands, on actions, and on the table at the other end of the chain. */
  datatype Asked = Asked(own: seq<Filter>, commands: seq<Filter>, actions: seq<Filter>, others: seq<Filter>)

  function AgentAsked(p: Params, ids: Ids, now: int): Asked {
    Asked(TimeFilters(p, now, AgentHeartbeat) + AgentFilters(p, ids) + NameFilter(Wanted(p, P.Status), AgentStatus),
          CommandFilters(p, ids), ActionFilters(p, ids), InvestigatorFilters(p, ids))
  }

  function InvestigatorAsked(p: Params, ids: Ids, now: int): Asked {
    Asked(TimeFilters(p, now, InvestigatorModified) + InvestigatorFilters(p, ids)
          + NameFilter(Wanted(p, P.Status), InvestigatorStatus),
          CommandFilters(p, ids), ActionFilters(p, ids), AgentFilters(p, ids))
  }

  function AgentSearchFilters(asked: Asked): seq<Filter> {
    asked.own + asked.actions + asked.others + asked.commands
  }

  function InvestigatorSearchFilters(asked: Asked): seq<Filter> {
    asked.own + asked.actions + asked.commands + asked.others
  }

  // ----- the two searches -----

  method CompareTimes(b: Builder, p: Params, now: int, field: Field)
    requires b.Valid()
    modifies b
    ensures b.Valid() && b.filters == old(b.filters) + TimeFilters(p, now, field)
  {
    if T.Instant(p.before) < now + (WINDOW - HOUR) {
      b.Compare(field, AtMost, Num(T.Instant(p.before)));
    }
    if T.Instant(p.after) > now - (WINDOW - HOUR) {
      b.Compare(field, AtLeast, Num(T.Instant(p.after)));
    }
  }

  method CompareAgent(b: Builder, p: Params, ids: Ids) returns (join: bool)
    requires b.Valid()
    modifies b
    ensures b.Valid() && b.filters == old(b.filters) + AgentFilters(p, ids)
    ensures join <==> AgentFilters(p, ids) != []
  {
    join := false;
    if Wanted(p, P.AgentId) != NO_ID {
      b.Within(AgentId, ids.agent);
      join := true;
    }
    if Wanted(p, P.AgentName) != ANY {
      b.Compare(AgentName, ILike, Text(Wanted(p, P.AgentName)));
      join := true;
    }
    if Wanted(p, P.AgentVersion) != ANY {
      b.Compare(AgentVersion, ILike, Text(Wanted(p, P.AgentVersion)));
      join := true;
    }
  }

  method CompareAction(b: Builder, p: Params, ids: Ids) returns (join: bool)
    requires b.Valid()
    modifies b
    ensures b.Valid() && b.filters == old(b.filters) + ActionFilters(p, ids)
    ensures join <==> ActionFilters(p, ids) != []
  {
    join := false;
    if Wanted(p, P.ActionId) != NO_ID {
      b.Within(ActionId, ids.action);
      join := true;
    }
    if Wanted(p, P.ActionName) != ANY {
      b.Compare(ActionName, ILike, Text(Wanted(p, P.ActionName)));
      join := true;
    }
    if Wanted(p, P.ThreatFamily) != ANY {
      b.Compare(ActionFamily, ILike, Text(Wanted(p, P.ThreatFamily)));
      join := true;
    }
  }

  method CompareInvestigator(b: Builder, p: Params, ids: Ids) returns (join: bool)
    requires b.Valid()
    modifies b
    ensures b.Valid() && b.filters == old(b.filters) + InvestigatorFilters(p, ids)
    ensures join <==> InvestigatorFilters(p, ids) != []
  {
    join := false;
    if Wanted(p, P.InvestigatorId) != NO_ID {
      b.Within(InvestigatorId, ids.investigator);
      join := true;
    }
    if Wanted(p, P.InvestigatorName) != ANY {
      b.Compare(InvestigatorName, ILike, Text(Wanted(p, P.InvestigatorName)));
      join := true;
    }
  }

  method CompareCommand(b: Builder, p: Params, ids: Ids) returns (join: bool)
    requires b.Valid()
    modifies b
    ensures b.Valid() && b.filters == old(b.filters) + CommandFilters(p, ids)
    ensures join <==> CommandFilters(p, ids) != []
  {
    join := false;
    if Wanted(p, P.CommandId) != NO_ID {
      b.Within(CommandId, ids.command);
      join := true;
    }
  }

  method CompareStatus(b: Builder, p: Params, field: Field)
    requires b.Valid()
    modifies b
    ensures b.Valid() && b.filters == old(b.filters) + NameFilter(Wanted(p, P.Status), field)
  {
    if Wanted(p, P.Status) != ANY {
      b.Compare(field, ILike, Text(Wanted(p, P.Status)));
    }
  }

  method AgentConditions(b: Builder, p: Params, ids: Ids, now: int)
    returns (joinCommand: bool, joinAction: bool, joinInvestigator: bool)
    requires b.Valid() && b.filters == []
    modifies b
    ensures b.Valid() && b.filters == AgentSearchFilters(AgentAsked(p, ids, now))
    ensures joinInvestigator <==> InvestigatorFilters(p, ids) != []
    ensures joinAction <==> joinInvestigator || ActionFilters(p, ids) != []
    ensures joinCommand <==> joinAction || CommandFilters(p, ids) != []
  {
    CompareTimes(b, p, now, AgentHeartbeat);
    assert b.filters == TimeFilters(p, now, AgentHeartbeat);
    var _ := CompareAgent(b, p, ids);
    CompareStatus(b, p, AgentStatus);
    joinAction := CompareAction(b, p, ids);
    joinCommand := joinAction;
    joinInvestigator := CompareInvestigator(b, p, ids);
    if joinInvestigator {
      joinCommand, joinAction := true, true;
    }
    var commands := CompareCommand(b, p, ids);
    if commands {
      joinCommand := true;
    }
  }

  method JoinFromAgents(command: bool, action: bool, investigator: bool) returns (join: seq<Join>)
    requires (investigator ==> action) && (action ==> command)
    ensures join == AgentJoins(command, action, investigator)
  {
    join := [];
    if command {
      join := join + [Join(Commands, CommandAgent, AgentId)];
    }
    if action {
      join := join + [Join(Actions, CommandAction, ActionId)];
    }
    if investigator {
      join := join + [Join(Signatures, ActionId, SignatureAction),
                      Join(Investigators, SignatureInvestigator, InvestigatorId)];
    }
  }

  method SearchAgents(p: Params, now: int, parse: string -> Option<int>) returns (r: Result<Query>)
    ensures r.Ok? <==> MakeIds(p, parse).Ok?
    ensures r.Ok? ==> r.value == AgentQuery(AgentAsked(p, MakeIds(p, parse).value, now), p)
  {
    var made := MakeIds(p, parse);
    if made.Err? {
      return Err(made.message);
    }
    var b := new Builder();
    var joinCommand, joinAction, joinInvestigator := AgentConditions(b, p, made.value, now);
    var join := JoinFromAgents(joinCommand, joinAction, joinInvestigator);
    r := Ok(Query(Agents, join, b.wher, b.valctr + 1, b.valctr + 2, b.vals + [Num(p.limit), Num(p.offset)]));
  }

  method InvestigatorConditions(b: Builder, p: Params, ids: Ids, now: int)
    returns (joinAction: bool, joinCommand: bool, joinAgent: bool)
    requires b.Valid() && b.filters == []
    modifies b
    ensures b.Valid() && b.filters == InvestigatorSearchFilters(InvestigatorAsked(p, ids, now))
    ensures joinAgent <==> AgentFilters(p, ids) != []
    ensures joinCommand <==> joinAgent || CommandFilters(p, ids) != []
    ensures joinAction <==> joinCommand || ActionFilters(p, ids) != []
  {
    CompareTimes(b, p, now, InvestigatorModified);
    assert b.filters == TimeFilters(p, now, InvestigatorModified);
    var _ := CompareInvestigator(b, p, ids);
    CompareStatus(b, p, InvestigatorStatus);
    joinAction := CompareAction(b, p, ids);
    joinCommand := CompareCommand(b, p, ids);
    if joinCommand {
      joinAction := true;
    }
    joinAgent := CompareAgent(b, p, ids);
    if joinAgent {
      joinCommand, joinAction := true, true;
    }
  }

  method JoinFromInvestigators(action: bool, command: bool, agent: bool) returns (join: seq<Join>)
    requires (agent ==> command) && (command ==> action)
    ensures join == InvestigatorJoins(action, command, agent)
  {
    join := [];
    if action {
      join := join + [Join(Signatures, SignatureInvestigator, InvestigatorId),
                      Join(Actions, ActionId, SignatureAction)];
    }
    if command {
      join := join + [Join(Commands, CommandAction, ActionId)];
    }
    if agent {
      join := join + [Join(Agents, CommandAgent, AgentId)];
    }
  }

  method SearchInvestigators(p: Params, now: int, parse: string -> Option<int>) returns (r: Result<Query>)
    ensures r.Ok? <==> MakeIds(p, parse).Ok?
    ensures r.Ok? ==> r.value == InvestigatorQuery(InvestigatorAsked(p, MakeIds(p, parse).value, now), p)
  {
    var made := MakeIds(p, parse);
    if made.Err? {
      return Err(made.message);
    }
    var b := new Builder();
    var joinAction, joinCommand, joinAgent := InvestigatorConditions(b, p, made.value, now);
    var join := JoinFromInvestigators(joinAction, joinCommand, joinAgent);
    r := Ok(Query(Investigators, join, b.wher, b.valctr + 1, b.valctr + 2, b.vals + [Num(p.limit), Num(p.offset)]));
  }

  function Compiled(from: Table, joins: seq<Join>, filters: seq<Filter>, p: Params): Query {
    Query(from, joins, Tokens(filters), |filters| + 1, |filters| + 2, Values(filters) + [Num(p.limit), Num(p.offset)])
  }

  const AGENT_COMMAND := Join(Commands, CommandAgent, AgentId)
  const COMMAND_ACTION := Join(Actions, CommandAction, ActionId)
  const ACTION_SIGNATURE := Join(Signatures, ActionId, SignatureAction)
  const SIGNATURE_INVESTIGATOR := Join(Investigators, SignatureInvestigator, InvestigatorId)

  const AGENT_JOINS: seq<Join> := [AGENT_COMMAND, COMMAND_ACTION, ACTION_SIGNATURE, SIGNATURE_INVESTIGATOR]

  /** The later joins need the earlier ones. */
  function AgentJoins(command: bool, action: bool, investigator: bool): seq<Join>
    requires (investigator ==> action) && (action ==> command)
  {
    AGENT_JOINS[..if investigator then 4 else if action then 2 else if command then 1 else 0]
  }

  function AgentQuery(asked: Asked, p: Params): Query {
    var investigator := asked.others != [];
    var action := investigator || asked.actions != [];
    var command := action || asked.commands != [];
    Compiled(Agents, AgentJoins(command, action, investigator), AgentSearchFilters(asked), p)
  }

  const INVESTIGATOR_SIGNATURE := Join(Signatures, SignatureInvestigator, InvestigatorId)
  const SIGNATURE_ACTION := Join(Actions, ActionId, SignatureAction)
  const ACTION_COMMAND := Join(Commands, CommandAction, ActionId)
  const COMMAND_AGENT := Join(Agents, CommandAgent, AgentId)

  const INVESTIGATOR_JOINS: seq<Join> := [INVESTIGATOR_SIGNATURE, SIGNATURE_ACTION, ACTION_COMMAND, COMMAND_AGENT]

  function InvestigatorJoins(action: bool, command: bool, agent: bool): seq<Join>
    requires (agent ==> command) && (command ==> action)
  {
    INVESTIGATOR_JOINS[..if agent then 4 else if command then 3 else if action then 2 else 0]
  }

  function InvestigatorQuery(asked: Asked, p: Params): Query {
    var agent := asked.others != [];
    var command := agent || asked.commands != [];
    var action := command || asked.actions != [];
    Compiled(Investigators, InvestigatorJoins(action, command, agent), InvestigatorSearchFilters(asked), p)
  }
}
