/** The compiled searches are statements the database can run exactly when some filter was supplied. */
module SearchExecutable {
  import opened SearchQuery
  import opened SearchBuilder
  import P = SearchParameters
  import T = TextFormats
  import opened SearchMeaning
  import I = InvestigatorSearchMeaning

  ghost predicate Covered(filters: seq<Filter>, tables: set<Table>) {
    forall f | f in filters :: TableOf(f.field) in tables
  }

  lemma CompiledIsExecutable(from: Table, joins: seq<Join>, filters: seq<Filter>, p: Params)
    requires InScope(from, joins) && Covered(filters, JoinedTables(from, joins))
    ensures Executable(Compiled(from, joins, filters, p)) <==> filters != []
  {
    TokensOfFilters(filters);
    var q := Compiled(from, joins, filters, p);
    var cmps := Comparisons(q.wher);
    forall c | c in cmps ensures TableOf(c.field) in JoinedTables(from, joins) {
      var i :| 0 <= i < |cmps| && cmps[i] == c;
      assert filters[i] in filters;
    }
  }

  lemma {:induction false} PrefixInScope(from: Table, all: seq<Join>, k: nat)
    requires k <= |all| && InScope(from, all)
    ensures InScope(from, all[..k])
    decreases |all|
  {
    if k < |all| {
      var before := all[..|all| - 1];
      PrefixInScope(from, before, k);
      assert before[..k] == all[..k];
    } else {
      assert all[..k] == all;
    }
  }

  lemma OneMoreInScope(from: Table, all: seq<Join>, k: nat, tables: set<Table>)
    requires k < |all| && InScope(from, all[..k]) && JoinedTables(from, all[..k]) == tables
    requires {TableOf(all[k].left), TableOf(all[k].right)} <= tables + {all[k].table} && all[k].table !in tables
    ensures InScope(from, all[..k + 1]) && JoinedTables(from, all[..k + 1]) == tables + {all[k].table}
  {
    var more := all[..k + 1];
    assert more[..k] == all[..k];
  }

  lemma AgentJoinsInScope(command: bool, action: bool, investigator: bool)
    requires (investigator ==> action) && (action ==> command)
    ensures InScope(Agents, AgentJoins(command, action, investigator))
  {
    AllAgentJoinsInScope();
    PrefixInScope(Agents, AGENT_JOINS, |AgentJoins(command, action, investigator)|);
  }

  lemma AllAgentJoinsInScope()
    ensures InScope(Agents, AGENT_JOINS)
  {
    OneMoreInScope(Agents, AGENT_JOINS, 0, {Agents});
    OneMoreInScope(Agents, AGENT_JOINS, 1, {Agents, Commands});
    OneMoreInScope(Agents, AGENT_JOINS, 2, {Agents, Commands, Actions});
    OneMoreInScope(Agents, AGENT_JOINS, 3, {Agents, Commands, Actions, Signatures});
    assert AGENT_JOINS[..4] == AGENT_JOINS;
  }

  lemma AllInvestigatorJoinsInScope()
    ensures InScope(Investigators, INVESTIGATOR_JOINS)
  {
    OneMoreInScope(Investigators, INVESTIGATOR_JOINS, 0, {Investigators});
    OneMoreInScope(Investigators, INVESTIGATOR_JOINS, 1, {Investigators, Signatures});
    OneMoreInScope(Investigators, INVESTIGATOR_JOINS, 2, {Investigators, Signatures, Actions});
    OneMoreInScope(Investigators, INVESTIGATOR_JOINS, 3, {Investigators, Signatures, Actions, Commands});
    assert INVESTIGATOR_JOINS[..4] == INVESTIGATOR_JOINS;
  }

  lemma InvestigatorJoinsInScope(action: bool, command: bool, agent: bool)
    requires (agent ==> command) && (command ==> action)
    ensures InScope(Investigators, InvestigatorJoins(action, command, agent))
  {
    AllInvestigatorJoinsInScope();
    PrefixInScope(Investigators, INVESTIGATOR_JOINS, |InvestigatorJoins(action, command, agent)|);
  }

  lemma AskedIsCovered(asked: Asked, own: Table, others: Table, tables: set<Table>)
    requires About(asked, own, others) && own in tables
    requires asked.commands != [] ==> Commands in tables
    requires asked.actions != [] ==> Actions in tables
    requires asked.others != [] ==> others in tables
    ensures Covered(AgentSearchFilters(asked), tables) && Covered(InvestigatorSearchFilters(asked), tables)
  {
  }

  /** A condition on the caller's parameters: something was asked of an agent search. */
  predicate AsksForSomething(p: Params, now: int) {
    || T.Instant(p.before) < now + (WINDOW - HOUR) || T.Instant(p.after) > now - (WINDOW - HOUR)
    || Wanted(p, P.AgentId) != NO_ID || Wanted(p, P.ActionId) != NO_ID
    || Wanted(p, P.InvestigatorId) != NO_ID || Wanted(p, P.CommandId) != NO_ID
    || Wanted(p, P.AgentName) != ANY || Wanted(p, P.AgentVersion) != ANY
    || Wanted(p, P.ActionName) != ANY || Wanted(p, P.ThreatFamily) != ANY
    || Wanted(p, P.InvestigatorName) != ANY || Wanted(p, P.Status) != ANY
  }

  lemma AgentSearchRunsIffSomethingIsAsked(p: Params, ids: Ids, now: int)
    ensures Executable(AgentQuery(AgentAsked(p, ids, now), p)) <==> AsksForSomething(p, now)
  {
    var asked := AgentAsked(p, ids, now);
    AskedIsAbout(p, ids, now);
    AgentTables();
    var investigator := asked.others != [];
    var action := investigator || asked.actions != [];
    var command := action || asked.commands != [];
    var joins := AgentJoins(command, action, investigator);
    AgentJoinsInScope(command, action, investigator);
    AskedIsCovered(asked, Agents, Investigators, JoinedTables(Agents, joins));
    CompiledIsExecutable(Agents, joins, AgentSearchFilters(asked), p);
  }

  lemma InvestigatorSearchRunsIffSomethingIsAsked(p: Params, ids: Ids, now: int)
    ensures Executable(InvestigatorQuery(InvestigatorAsked(p, ids, now), p)) <==> AsksForSomething(p, now)
  {
    var asked := InvestigatorAsked(p, ids, now);
    AskedIsAbout(p, ids, now);
    I.InvestigatorTables();
    var agent := asked.others != [];
    var command := agent || asked.commands != [];
    var action := command || asked.actions != [];
    var joins := InvestigatorJoins(action, command, agent);
    InvestigatorJoinsInScope(action, command, agent);
    AskedIsCovered(asked, Investigators, Agents, JoinedTables(Investigators, joins));
    CompiledIsExecutable(Investigators, joins, InvestigatorSearchFilters(asked), p);
  }

  lemma DefaultsWantNothing(after: T.Time, before: T.Time, k: P.Key)
    requires P.IsText(k)
    ensures Wanted(P.Defaults(after, before), k) == P.Default(k)
  {
  }

  lemma DefaultsAskForNothingElse(after: T.Time, before: T.Time, now: int)
    ensures AsksForSomething(P.Defaults(after, before), now)
       <==> T.Instant(before) < now + (WINDOW - HOUR) || T.Instant(after) > now - (WINDOW - HOUR)
  {
    DefaultsWantNothing(after, before, P.AgentId);
    DefaultsWantNothing(after, before, P.ActionId);
    DefaultsWantNothing(after, before, P.InvestigatorId);
    DefaultsWantNothing(after, before, P.CommandId);
    DefaultsWantNothing(after, before, P.AgentName);
    DefaultsWantNothing(after, before, P.AgentVersion);
    DefaultsWantNothing(after, before, P.ActionName);
    DefaultsWantNothing(after, before, P.ThreatFamily);
    DefaultsWantNothing(after, before, P.InvestigatorName);
    DefaultsWantNothing(after, before, P.Status);
  }

  /** The parameters a caller starts from ask for nothing for an hour: until then the search sends a WHERE
      with nothing behind it. */
  lemma DefaultParametersCannotBeSearchedForAnHour(created: int, after: T.Time, before: T.Time, now: int, ids: Ids)
    requires T.Instant(after) == created - WINDOW && T.Instant(before) == created + WINDOW && created <= now
    ensures var p := P.Defaults(after, before);
      Executable(AgentQuery(AgentAsked(p, ids, now), p)) <==> now > created + HOUR
    ensures var p := P.Defaults(after, before);
      Executable(InvestigatorQuery(InvestigatorAsked(p, ids, now), p)) <==> now > created + HOUR
  {
    var p := P.Defaults(after, before);
    DefaultsAskForNothingElse(after, before, now);
    AgentSearchRunsIffSomethingIsAsked(p, ids, now);
    InvestigatorSearchRunsIffSomethingIsAsked(p, ids, now);
  }
}
