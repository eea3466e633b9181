/** What a caller of a search asks for, in terms of its parameters and the columns of the tables, and that the
    compiled searches find exactly that. */
module SearchAsked {
  import opened Common
  import opened SearchQuery
  import B = SearchBuilder
  import I = InvestigatorSearchMeaning
  import M = SearchMeaning
  import P = SearchParameters
  import T = TextFormats

  // ----- the statement -----

  /** "∞" asks for nothing; any other id asks for the number that it spells. */
  predicate HasId(parse: string -> Option<int>, id: string, column: Value) {
    id == "∞" || (parse(id).Some? && column == Num(parse(id).value))
  }

  /** "%" asks for nothing; any other pattern asks for a text that is like it. */
  predicate HasName(like: (string, string) -> bool, pattern: string, column: Value) {
    pattern == "%" || (column.Text? && like(column.s, pattern))
  }

  /** The times ask for nothing unless they are at least an hour inside the default window. */
  predicate HasTime(p: P.Parameters, now: int, column: Value) {
    && (T.Instant(p.before) < now + 39_599 * 3_600_000_000_000 ==> column.Num? && column.n <= T.Instant(p.before))
    && (T.Instant(p.after) > now - 39_599 * 3_600_000_000_000 ==> column.Num? && column.n >= T.Instant(p.after))
  }

  predicate IsAgent(like: (string, string) -> bool, parse: string -> Option<int>, p: P.Parameters, a: Row)
    requires P.IsComplete(p)
  {
    && HasId(parse, p.texts[P.AgentId], Col(a, AgentId))
    && HasName(like, p.texts[P.AgentName], Col(a, AgentName))
    && HasName(like, p.texts[P.AgentVersion], Col(a, AgentVersion))
  }

  predicate IsAction(like: (string, string) -> bool, parse: string -> Option<int>, p: P.Parameters, act: Row)
    requires P.IsComplete(p)
  {
    && HasId(parse, p.texts[P.ActionId], Col(act, ActionId))
    && HasName(like, p.texts[P.ActionName], Col(act, ActionName))
    && HasName(like, p.texts[P.ThreatFamily], Col(act, ActionFamily))
  }

  predicate IsInvestigator(like: (string, string) -> bool, parse: string -> Option<int>, p: P.Parameters, inv: Row)
    requires P.IsComplete(p)
  {
    && HasId(parse, p.texts[P.InvestigatorId], Col(inv, InvestigatorId))
    && HasName(like, p.texts[P.InvestigatorName], Col(inv, InvestigatorName))
  }

  predicate IsCommand(parse: string -> Option<int>, p: P.Parameters, c: Row)
    requires P.IsComplete(p)
  {
    HasId(parse, p.texts[P.CommandId], Col(c, CommandId))
  }

  predicate AsksForAgents(p: P.Parameters)
    requires P.IsComplete(p)
  {
    p.texts[P.AgentId] != "∞" || p.texts[P.AgentName] != "%" || p.texts[P.AgentVersion] != "%"
  }

  predicate AsksForActions(p: P.Parameters)
    requires P.IsComplete(p)
  {
    p.texts[P.ActionId] != "∞" || p.texts[P.ActionName] != "%" || p.texts[P.ThreatFamily] != "%"
  }

  predicate AsksForInvestigators(p: P.Parameters)
    requires P.IsComplete(p)
  {
    p.texts[P.InvestigatorId] != "∞" || p.texts[P.InvestigatorName] != "%"
  }

  predicate AsksForCommands(p: P.Parameters)
    requires P.IsComplete(p)
  {
    p.texts[P.CommandId] != "∞"
  }

  /** One row refers to another: both columns are set, to the same. */
  predicate Refers(a: Value, b: Value) {
    a != Null && b != Null && a == b
  }

  ghost predicate WantedAction(like: (string, string) -> bool, parse: string -> Option<int>, db: Database,
                               p: P.Parameters, act: Row)
    requires P.IsComplete(p)
  {
    && IsAction(like, parse, p, act)
    && (AsksForInvestigators(p) ==>
          exists sig, inv :: sig in db.signatures && inv in db.investigators
            && Refers(Col(sig, SignatureAction), Col(act, ActionId))
            && Refers(Col(sig, SignatureInvestigator), Col(inv, InvestigatorId))
            && IsInvestigator(like, parse, p, inv))
  }

  ghost predicate WantedCommand(like: (string, string) -> bool, parse: string -> Option<int>, db: Database,
                                p: P.Parameters, c: Row)
    requires P.IsComplete(p)
  {
    && IsCommand(parse, p, c)
    && (AsksForActions(p) || AsksForInvestigators(p) ==>
          exists act :: act in db.actions && Refers(Col(c, CommandAction), Col(act, ActionId))
            && WantedAction(like, parse, db, p, act))
  }

  /** An agent of that id, name, version and status, heard of in that time, and as far as that is asked for, with
      such a command, of such an action, signed by such an investigator. */
  ghost predicate WantedAgent(like: (string, string) -> bool, parse: string -> Option<int>, db: Database,
                              p: P.Parameters, now: int, a: Row)
    requires P.IsComplete(p)
  {
    && a in db.agents && IsAgent(like, parse, p, a)
    && HasTime(p, now, Col(a, AgentHeartbeat)) && HasName(like, p.texts[P.Status], Col(a, AgentStatus))
    && (AsksForCommands(p) || AsksForActions(p) || AsksForInvestigators(p) ==>
          exists c :: c in db.commands && Refers(Col(c, CommandAgent), Col(a, AgentId))
            && WantedCommand(like, parse, db, p, c))
  }

  ghost predicate WantedCommandBack(like: (string, string) -> bool, parse: string -> Option<int>, db: Database,
                                    p: P.Parameters, c: Row)
    requires P.IsComplete(p)
  {
    && IsCommand(parse, p, c)
    && (AsksForAgents(p) ==>
          exists a :: a in db.agents && Refers(Col(c, CommandAgent), Col(a, AgentId)) && IsAgent(like, parse, p, a))
  }

  ghost predicate WantedActionBack(like: (string, string) -> bool, parse: string -> Option<int>, db: Database,
                                   p: P.Parameters, act: Row)
    requires P.IsComplete(p)
  {
    && IsAction(like, parse, p, act)
    && (AsksForCommands(p) || AsksForAgents(p) ==>
          exists c :: c in db.commands && Refers(Col(c, CommandAction), Col(act, ActionId))
            && WantedCommandBack(like, parse, db, p, c))
  }

  ghost predicate SignedWanted(like: (string, string) -> bool, parse: string -> Option<int>, db: Database,
                               p: P.Parameters, inv: Row)
    requires P.IsComplete(p)
  {
    exists sig, act :: sig in db.signatures && act in db.actions
      && Refers(Col(sig, SignatureInvestigator), Col(inv, InvestigatorId))
      && Refers(Col(sig, SignatureAction), Col(act, ActionId))
      && WantedActionBack(like, parse, db, p, act)
  }

  /** An investigator of that id, name and status, changed in that time, and as far as that is asked for, who has
      signed such an action, with such a command, on such an agent. */
  ghost predicate WantedInvestigator(like: (string, string) -> bool, parse: string -> Option<int>, db: Database,
                                     p: P.Parameters, now: int, inv: Row)
    requires P.IsComplete(p)
  {
    && inv in db.investigators && IsInvestigator(like, parse, p, inv)
    && HasTime(p, now, Col(inv, InvestigatorModified)) && HasName(like, p.texts[P.Status], Col(inv, InvestigatorStatus))
    && (AsksForActions(p) || AsksForCommands(p) || AsksForAgents(p) ==> SignedWanted(like, parse, db, p, inv))
  }

  /** Every id that is given spells a number, whether or not the search would use it. */
  predicate IdsSpellNumbers(p: P.Parameters, parse: string -> Option<int>)
    requires P.IsComplete(p)
  {
    forall k | k in {P.ActionId, P.CommandId, P.AgentId, P.InvestigatorId, P.ManifestId, P.LoaderId} ::
      p.texts[k] == "∞" || parse(p.texts[k]).Some?
  }

  // ----- the filters -----

  lemma BothHold(like: (string, string) -> bool, some: seq<B.Filter>, more: seq<B.Filter>, row: Row)
    ensures M.RowHolds(like, some + more, row) <==> M.RowHolds(like, some, row) && M.RowHolds(like, more, row)
  {
    forall f ensures f in some + more <==> f in some || f in more {}
  }

  lemma IdHolds(like: (string, string) -> bool, parse: string -> Option<int>, id: string, field: Field, row: Row)
    requires B.RangeOf(id, parse).Some?
    ensures M.RowHolds(like, B.IdFilter(id, field, B.RangeOf(id, parse).value), row)
       <==> HasId(parse, id, Col(row, field))
  {
    var range := B.RangeOf(id, parse).value;
    var lower, upper := B.Filter(field, AtLeast, Num(range.min)), B.Filter(field, AtMost, Num(range.max));
    if id != "∞" {
      assert B.IdFilter(id, field, range) == [lower, upper];
      assert M.RowHolds(like, [lower, upper], row)
        <==> M.FilterHolds(like, lower, row) && M.FilterHolds(like, upper, row);
    }
  }

  lemma NameHolds(like: (string, string) -> bool, pattern: string, field: Field, row: Row)
    ensures M.RowHolds(like, B.NameFilter(pattern, field), row) <==> HasName(like, pattern, Col(row, field))
  {
    var f := B.Filter(field, ILike, Text(pattern));
    assert M.RowHolds(like, [f], row) <==> M.FilterHolds(like, f, row);
  }

  lemma TimeHolds(like: (string, string) -> bool, p: P.Parameters, now: int, field: Field, row: Row)
    ensures M.RowHolds(like, B.TimeFilters(p, now, field), row) <==> HasTime(p, now, Col(row, field))
  {
    var upper := B.Filter(field, AtMost, Num(T.Instant(p.before)));
    var lower := B.Filter(field, AtLeast, Num(T.Instant(p.after)));
    var uppers := if T.Instant(p.before) < now + (B.WINDOW - B.HOUR) then [upper] else [];
    var lowers := if T.Instant(p.after) > now - (B.WINDOW - B.HOUR) then [lower] else [];
    assert B.TimeFilters(p, now, field) == uppers + lowers;
    BothHold(like, uppers, lowers, row);
    assert M.RowHolds(like, [upper], row) <==> M.FilterHolds(like, upper, row);
    assert M.RowHolds(like, [lower], row) <==> M.FilterHolds(like, lower, row);
  }

  /** ids are those of the parameters. */
  ghost predicate AreIds(p: P.Parameters, parse: string -> Option<int>, ids: B.Ids) {
    B.MakeIds(p, parse) == Ok(ids)
  }

  lemma IdsMadeIff(p: P.Parameters, parse: string -> Option<int>)
    requires P.IsComplete(p)
    ensures B.MakeIds(p, parse).Ok? <==> IdsSpellNumbers(p, parse)
  {
    var keys := {P.ActionId, P.CommandId, P.AgentId, P.InvestigatorId, P.ManifestId, P.LoaderId};
    forall k | k in keys
      ensures B.RangeOf(B.Wanted(p, k), parse).Some? <==> p.texts[k] == "∞" || parse(p.texts[k]).Some?
    {
    }
  }

  lemma AgentHolds(like: (string, string) -> bool, parse: string -> Option<int>, p: P.Parameters, ids: B.Ids, a: Row)
    requires P.IsComplete(p) && AreIds(p, parse, ids)
    ensures M.RowHolds(like, B.AgentFilters(p, ids), a) <==> IsAgent(like, parse, p, a)
  {
    var id, name, version := p.texts[P.AgentId], p.texts[P.AgentName], p.texts[P.AgentVersion];
    var f1, f2 := B.IdFilter(id, AgentId, ids.agent), B.NameFilter(name, AgentName);
    IdHolds(like, parse, id, AgentId, a);
    NameHolds(like, name, AgentName, a);
    NameHolds(like, version, AgentVersion, a);
    BothHold(like, f1 + f2, B.NameFilter(version, AgentVersion), a);
    BothHold(like, f1, f2, a);
  }

  lemma ActionHolds(like: (string, string) -> bool, parse: string -> Option<int>, p: P.Parameters, ids: B.Ids, act: Row)
    requires P.IsComplete(p) && AreIds(p, parse, ids)
    ensures M.RowHolds(like, B.ActionFilters(p, ids), act) <==> IsAction(like, parse, p, act)
  {
    var id, name, family := p.texts[P.ActionId], p.texts[P.ActionName], p.texts[P.ThreatFamily];
    var f1, f2 := B.IdFilter(id, ActionId, ids.action), B.NameFilter(name, ActionName);
    IdHolds(like, parse, id, ActionId, act);
    NameHolds(like, name, ActionName, act);
    NameHolds(like, family, ActionFamily, act);
    BothHold(like, f1 + f2, B.NameFilter(family, ActionFamily), act);
    BothHold(like, f1, f2, act);
  }

  lemma InvestigatorHolds(like: (string, string) -> bool, parse: string -> Option<int>, p: P.Parameters, ids: B.Ids,
                          inv: Row)
    requires P.IsComplete(p) && AreIds(p, parse, ids)
    ensures M.RowHolds(like, B.InvestigatorFilters(p, ids), inv) <==> IsInvestigator(like, parse, p, inv)
  {
    var id, name := p.texts[P.InvestigatorId], p.texts[P.InvestigatorName];
    IdHolds(like, parse, id, InvestigatorId, inv);
    NameHolds(like, name, InvestigatorName, inv);
    BothHold(like, B.IdFilter(id, InvestigatorId, ids.investigator), B.NameFilter(name, InvestigatorName), inv);
  }

  lemma CommandHolds(like: (string, string) -> bool, parse: string -> Option<int>, p: P.Parameters, ids: B.Ids, c: Row)
    requires P.IsComplete(p) && AreIds(p, parse, ids)
    ensures M.RowHolds(like, B.CommandFilters(p, ids), c) <==> IsCommand(parse, p, c)
  {
    IdHolds(like, parse, p.texts[P.CommandId], CommandId, c);
  }

  lemma FiltersAreAsked(p: P.Parameters, ids: B.Ids)
    requires P.IsComplete(p)
    ensures B.AgentFilters(p, ids) != [] <==> AsksForAgents(p)
    ensures B.ActionFilters(p, ids) != [] <==> AsksForActions(p)
    ensures B.InvestigatorFilters(p, ids) != [] <==> AsksForInvestigators(p)
    ensures B.CommandFilters(p, ids) != [] <==> AsksForCommands(p)
  {
  }

  /** The filters on commands and actions are what the caller asks of them. */
  ghost predicate AsksRightly(like: (string, string) -> bool, parse: string -> Option<int>, p: P.Parameters,
                              asked: B.Asked)
    requires P.IsComplete(p)
  {
    && (forall c :: M.RowHolds(like, asked.commands, c) <==> IsCommand(parse, p, c))
    && (forall act :: M.RowHolds(like, asked.actions, act) <==> IsAction(like, parse, p, act))
    && (asked.commands != [] <==> AsksForCommands(p)) && (asked.actions != [] <==> AsksForActions(p))
  }

  ghost predicate AsksForInvestigatorsRightly(like: (string, string) -> bool, parse: string -> Option<int>,
                                              p: P.Parameters, asked: B.Asked)
    requires P.IsComplete(p)
  {
    && (forall inv :: M.RowHolds(like, asked.others, inv) <==> IsInvestigator(like, parse, p, inv))
    && (asked.others != [] <==> AsksForInvestigators(p))
  }

  ghost predicate AsksForAgentsRightly(like: (string, string) -> bool, parse: string -> Option<int>,
                                       p: P.Parameters, asked: B.Asked)
    requires P.IsComplete(p)
  {
    && (forall a :: M.RowHolds(like, asked.others, a) <==> IsAgent(like, parse, p, a))
    && (asked.others != [] <==> AsksForAgents(p))
  }

  lemma FiltersAskRightly(like: (string, string) -> bool, parse: string -> Option<int>, p: P.Parameters, ids: B.Ids,
                          now: int)
    requires P.IsComplete(p) && AreIds(p, parse, ids)
    ensures AsksRightly(like, parse, p, B.AgentAsked(p, ids, now))
    ensures AsksRightly(like, parse, p, B.InvestigatorAsked(p, ids, now))
    ensures AsksForInvestigatorsRightly(like, parse, p, B.AgentAsked(p, ids, now))
    ensures AsksForAgentsRightly(like, parse, p, B.InvestigatorAsked(p, ids, now))
  {
    FiltersAreAsked(p, ids);
    forall row
      ensures M.RowHolds(like, B.CommandFilters(p, ids), row) <==> IsCommand(parse, p, row)
      ensures M.RowHolds(like, B.ActionFilters(p, ids), row) <==> IsAction(like, parse, p, row)
      ensures M.RowHolds(like, B.InvestigatorFilters(p, ids), row) <==> IsInvestigator(like, parse, p, row)
      ensures M.RowHolds(like, B.AgentFilters(p, ids), row) <==> IsAgent(like, parse, p, row)
    {
      CommandHolds(like, parse, p, ids, row);
      ActionHolds(like, parse, p, ids, row);
      InvestigatorHolds(like, parse, p, ids, row);
      AgentHolds(like, parse, p, ids, row);
    }
  }

  // ----- agents -----

  lemma OwnAgentHolds(like: (string, string) -> bool, parse: string -> Option<int>, p: P.Parameters, ids: B.Ids,
                      now: int, a: Row)
    requires P.IsComplete(p) && AreIds(p, parse, ids)
    ensures M.RowHolds(like, B.AgentAsked(p, ids, now).own, a)
       <==> && IsAgent(like, parse, p, a) && HasTime(p, now, Col(a, AgentHeartbeat))
            && HasName(like, p.texts[P.Status], Col(a, AgentStatus))
  {
    var times, own := B.TimeFilters(p, now, AgentHeartbeat), B.AgentFilters(p, ids);
    TimeHolds(like, p, now, AgentHeartbeat, a);
    AgentHolds(like, parse, p, ids, a);
    NameHolds(like, p.texts[P.Status], AgentStatus, a);
    BothHold(like, times + own, B.NameFilter(p.texts[P.Status], AgentStatus), a);
    BothHold(like, times, own, a);
  }

  lemma ActionIsWanted(like: (string, string) -> bool, parse: string -> Option<int>, db: Database, p: P.Parameters,
                       asked: B.Asked, act: Row)
    requires P.IsComplete(p) && AsksRightly(like, parse, p, asked)
    requires AsksForInvestigatorsRightly(like, parse, p, asked) && act in db.actions
    ensures M.ActionMatches(like, db, asked, act) <==> WantedAction(like, parse, db, p, act)
  {
  }

  lemma CommandIsWanted(like: (string, string) -> bool, parse: string -> Option<int>, db: Database, p: P.Parameters,
                        asked: B.Asked, c: Row)
    requires P.IsComplete(p) && AsksRightly(like, parse, p, asked)
    requires AsksForInvestigatorsRightly(like, parse, p, asked) && c in db.commands
    ensures M.CommandMatches(like, db, asked, c) <==> WantedCommand(like, parse, db, p, c)
  {
    forall act | act in db.actions
      ensures M.ActionMatches(like, db, asked, act) <==> WantedAction(like, parse, db, p, act)
    {
      ActionIsWanted(like, parse, db, p, asked, act);
    }
  }

  lemma AgentIsWanted(like: (string, string) -> bool, parse: string -> Option<int>, db: Database, p: P.Parameters,
                      asked: B.Asked, now: int, a: Row)
    requires P.IsComplete(p) && AsksRightly(like, parse, p, asked)
    requires AsksForInvestigatorsRightly(like, parse, p, asked)
    requires M.RowHolds(like, asked.own, a)
        <==> && IsAgent(like, parse, p, a) && HasTime(p, now, Col(a, AgentHeartbeat))
             && HasName(like, p.texts[P.Status], Col(a, AgentStatus))
    ensures M.AgentMatches(like, db, asked, a) <==> WantedAgent(like, parse, db, p, now, a)
  {
    forall c | c in db.commands
      ensures M.CommandMatches(like, db, asked, c) <==> WantedCommand(like, parse, db, p, c)
    {
      CommandIsWanted(like, parse, db, p, asked, c);
    }
  }

  /** Over every database, and whatever ILIKE means, the compiled search for agents answers exactly those wanted. */
  lemma SearchAgentsFindsTheWanted(like: (string, string) -> bool, parse: string -> Option<int>, db: Database,
                                   p: P.Parameters, ids: B.Ids, now: int, a: Row)
    requires P.IsComplete(p) && AreIds(p, parse, ids)
    ensures Answers(B.AgentQuery(B.AgentAsked(p, ids, now), p), like, db, a)
       <==> WantedAgent(like, parse, db, p, now, a)
  {
    M.AgentSearchMeansWhatWasAsked(like, db, p, ids, now, a);
    FiltersAskRightly(like, parse, p, ids, now);
    OwnAgentHolds(like, parse, p, ids, now, a);
    AgentIsWanted(like, parse, db, p, B.AgentAsked(p, ids, now), now, a);
  }

  // ----- investigators -----

  lemma OwnInvestigatorHolds(like: (string, string) -> bool, parse: string -> Option<int>, p: P.Parameters, ids: B.Ids,
                             now: int, inv: Row)
    requires P.IsComplete(p) && AreIds(p, parse, ids)
    ensures M.RowHolds(like, B.InvestigatorAsked(p, ids, now).own, inv)
       <==> && IsInvestigator(like, parse, p, inv) && HasTime(p, now, Col(inv, InvestigatorModified))
            && HasName(like, p.texts[P.Status], Col(inv, InvestigatorStatus))
  {
    var times, own := B.TimeFilters(p, now, InvestigatorModified), B.InvestigatorFilters(p, ids);
    TimeHolds(like, p, now, InvestigatorModified, inv);
    InvestigatorHolds(like, parse, p, ids, inv);
    NameHolds(like, p.texts[P.Status], InvestigatorStatus, inv);
    BothHold(like, times + own, B.NameFilter(p.texts[P.Status], InvestigatorStatus), inv);
    BothHold(like, times, own, inv);
  }

  lemma CommandIsWantedBack(like: (string, string) -> bool, parse: string -> Option<int>, db: Database, p: P.Parameters,
                            asked: B.Asked, c: Row)
    requires P.IsComplete(p) && AsksRightly(like, parse, p, asked) && AsksForAgentsRightly(like, parse, p, asked)
    ensures I.CommandReaches(like, db, asked, c) <==> WantedCommandBack(like, parse, db, p, c)
  {
  }

  lemma ActionIsWantedBack(like: (string, string) -> bool, parse: string -> Option<int>, db: Database, p: P.Parameters,
                           asked: B.Asked, act: Row)
    requires P.IsComplete(p) && AsksRightly(like, parse, p, asked) && AsksForAgentsRightly(like, parse, p, asked)
    ensures I.ActionReaches(like, db, asked, act) <==> WantedActionBack(like, parse, db, p, act)
  {
    forall c ensures I.CommandReaches(like, db, asked, c) <==> WantedCommandBack(like, parse, db, p, c) {
      CommandIsWantedBack(like, parse, db, p, asked, c);
    }
  }

  lemma MatchHasSigned(like: (string, string) -> bool, parse: string -> Option<int>, db: Database, p: P.Parameters,
                       asked: B.Asked, inv: Row)
    requires P.IsComplete(p) && AsksRightly(like, parse, p, asked) && AsksForAgentsRightly(like, parse, p, asked)
    requires I.InvestigatorMatches(like, db, asked, inv)
    requires asked.actions != [] || asked.commands != [] || asked.others != []
    ensures SignedWanted(like, parse, db, p, inv)
  {
    var sig, act := I.Signed(like, db, asked, inv);
    ActionIsWantedBack(like, parse, db, p, asked, act);
    assert Refers(Col(sig, SignatureInvestigator), Col(inv, InvestigatorId));
  }

  lemma SignerMatches(like: (string, string) -> bool, parse: string -> Option<int>, db: Database, p: P.Parameters,
                      asked: B.Asked, inv: Row)
    requires P.IsComplete(p) && AsksRightly(like, parse, p, asked) && AsksForAgentsRightly(like, parse, p, asked)
    requires inv in db.investigators && M.RowHolds(like, asked.own, inv) && SignedWanted(like, parse, db, p, inv)
    ensures I.InvestigatorMatches(like, db, asked, inv)
  {
    var sig, act :| sig in db.signatures && act in db.actions
      && Refers(Col(sig, SignatureInvestigator), Col(inv, InvestigatorId))
      && Refers(Col(sig, SignatureAction), Col(act, ActionId))
      && WantedActionBack(like, parse, db, p, act);
    ActionIsWantedBack(like, parse, db, p, asked, act);
    assert sig in db.Rows(Signatures) && act in db.Rows(Actions);
  }

  /** What is asked of the actions of an investigator is satisfied by those who have signed one that is wanted. */
  lemma SignerIff(like: (string, string) -> bool, parse: string -> Option<int>, db: Database, p: P.Parameters,
                  ids: B.Ids, now: int, inv: Row)
    requires P.IsComplete(p) && AreIds(p, parse, ids) && inv in db.investigators
    requires M.RowHolds(like, B.InvestigatorAsked(p, ids, now).own, inv)
    requires AsksForActions(p) || AsksForCommands(p) || AsksForAgents(p)
    ensures I.InvestigatorMatches(like, db, B.InvestigatorAsked(p, ids, now), inv)
       <==> SignedWanted(like, parse, db, p, inv)
  {
    FiltersAskRightly(like, parse, p, ids, now);
    if I.InvestigatorMatches(like, db, B.InvestigatorAsked(p, ids, now), inv) {
      MatchHasSigned(like, parse, db, p, B.InvestigatorAsked(p, ids, now), inv);
    } else if SignedWanted(like, parse, db, p, inv) {
      SignerMatches(like, parse, db, p, B.InvestigatorAsked(p, ids, now), inv);
    }
  }

  lemma InvestigatorIsWanted(like: (string, string) -> bool, parse: string -> Option<int>, db: Database,
                             p: P.Parameters, ids: B.Ids, now: int, inv: Row)
    requires P.IsComplete(p) && AreIds(p, parse, ids)
    ensures I.InvestigatorMatches(like, db, B.InvestigatorAsked(p, ids, now), inv)
       <==> WantedInvestigator(like, parse, db, p, now, inv)
  {
    OwnInvestigatorHolds(like, parse, p, ids, now, inv);
    FiltersAreAsked(p, ids);
    if && inv in db.investigators && M.RowHolds(like, B.InvestigatorAsked(p, ids, now).own, inv)
       && (AsksForActions(p) || AsksForCommands(p) || AsksForAgents(p)) {
      SignerIff(like, parse, db, p, ids, now, inv);
    }
  }

  /** The same for investigators. */
  lemma SearchInvestigatorsFindsTheWanted(like: (string, string) -> bool, parse: string -> Option<int>, db: Database,
                                          p: P.Parameters, ids: B.Ids, now: int, inv: Row)
    requires P.IsComplete(p) && AreIds(p, parse, ids)
    ensures Answers(B.InvestigatorQuery(B.InvestigatorAsked(p, ids, now), p), like, db, inv)
       <==> WantedInvestigator(like, parse, db, p, now, inv)
  {
    I.InvestigatorSearchMeansWhatWasAsked(like, db, p, ids, now, inv);
    InvestigatorIsWanted(like, parse, db, p, ids, now, inv);
  }

  /** The page asked for: the values at the places of LIMIT and OFFSET. */
  predicate HasPage(q: Query, p: P.Parameters) {
    && q.limitAt >= 1 && q.offsetAt >= 1 && |q.vals| >= q.limitAt && |q.vals| >= q.offsetAt
    && q.vals[q.limitAt - 1] == Num(p.limit) && q.vals[q.offsetAt - 1] == Num(p.offset)
  }

  lemma CompiledHasPage(from: Table, joins: seq<Join>, filters: seq<B.Filter>, p: P.Parameters)
    ensures HasPage(B.Compiled(from, joins, filters, p), p)
  {
  }
}
