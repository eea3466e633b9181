/** The compiled searches mean what the caller asked for, and can be executed exactly when at least one
    filter was supplied. */
module SearchMeaning {
  import opened SearchQuery
  import opened SearchBuilder
  import P = SearchParameters

  // ----- tokens back to filters -----

  lemma {:induction false} ConjunctionGrows(tokens: seq<Token>, c: Token)
    requires IsConjunction(tokens) && c.Cmp?
    ensures IsConjunction(tokens + [And, c])
    decreases |tokens|
  {
    var all := tokens + [And, c];
    if |tokens| == 1 {
      assert all[2..] == [c];
    } else {
      assert all[2..] == tokens[2..] + [And, c];
      ConjunctionGrows(tokens[2..], c);
    }
  }

  lemma {:induction false} ComparisonsConcat(a: seq<Token>, b: seq<Token>)
    ensures Comparisons(a + b) == Comparisons(a) + Comparisons(b)
  {
    if a == [] {
      assert a + b == b;
    } else {
      assert (a + b)[1..] == a[1..] + b;
      ComparisonsConcat(a[1..], b);
    }
  }

  lemma {:induction false} TokensOfFilters(filters: seq<Filter>)
    ensures IsConjunction(Tokens(filters)) <==> filters != []
    ensures |Comparisons(Tokens(filters))| == |filters|
    ensures forall i | 0 <= i < |filters| ::
      Comparisons(Tokens(filters))[i] == Cmp(filters[i].field, filters[i].op, i + 1)
  {
    if filters != [] {
      var init, f := filters[..|filters| - 1], filters[|filters| - 1];
      TokensOfFilters(init);
      var c := Cmp(f.field, f.op, |filters|);
      assert Comparisons([c]) == [c] + Comparisons([c][1..]);
      if init == [] {
        assert Tokens(filters) == [c];
      } else {
        assert Tokens(filters) == Tokens(init) + [And, c];
        ConjunctionGrows(Tokens(init), c);
        ComparisonsConcat(Tokens(init), [And, c]);
        assert [And, c][1..] == [c];
      }
    }
  }

  // ----- what a filter asks of a row -----

  predicate FilterHolds(like: (string, string) -> bool, f: Filter, row: Row) {
    Compares(like, f.op, Col(row, f.field), f.value)
  }

  /** A column that was never set satisfies no filter and joins nothing. */
  lemma UnsetMatchesNothing(like: (string, string) -> bool, f: Filter, row: Row, v: Value)
    requires f.field !in row
    ensures !FilterHolds(like, f, row) && !Equal(Col(row, f.field), v) && !Equal(v, Col(row, f.field))
  {
  }

  ghost predicate RowHolds(like: (string, string) -> bool, filters: seq<Filter>, row: Row) {
    forall f | f in filters :: FilterHolds(like, f, row)
  }

  ghost predicate AllHold(like: (string, string) -> bool, filters: seq<Filter>, t: Tuple) {
    forall f | f in filters :: TableOf(f.field) in t && FilterHolds(like, f, t[TableOf(f.field)])
  }

  ghost predicate AllOn(filters: seq<Filter>, table: Table) {
    forall f | f in filters :: TableOf(f.field) == table
  }

  lemma ComparisonHolds(like: (string, string) -> bool, filters: seq<Filter>, vals: seq<Value>, t: Tuple, i: nat)
    requires i < |filters| && Values(filters) <= vals
    ensures i < |Comparisons(Tokens(filters))|
    ensures Satisfies(like, Comparisons(Tokens(filters))[i], vals, t)
       <==> TableOf(filters[i].field) in t && FilterHolds(like, filters[i], t[TableOf(filters[i].field)])
  {
    TokensOfFilters(filters);
    assert vals[i] == Values(filters)[i];
  }

  lemma ComparisonsHold(like: (string, string) -> bool, filters: seq<Filter>, vals: seq<Value>, t: Tuple)
    requires Values(filters) <= vals
    ensures (forall c | c in Comparisons(Tokens(filters)) :: Satisfies(like, c, vals, t)) <==> AllHold(like, filters, t)
  {
    var cmps := Comparisons(Tokens(filters));
    TokensOfFilters(filters);
    if forall c | c in cmps :: Satisfies(like, c, vals, t) {
      forall f | f in filters ensures TableOf(f.field) in t && FilterHolds(like, f, t[TableOf(f.field)]) {
        var i :| 0 <= i < |filters| && filters[i] == f;
        ComparisonHolds(like, filters, vals, t, i);
        assert cmps[i] in cmps;
      }
    }
    if AllHold(like, filters, t) {
      forall c | c in cmps ensures Satisfies(like, c, vals, t) {
        var i :| 0 <= i < |cmps| && cmps[i] == c;
        ComparisonHolds(like, filters, vals, t, i);
        assert filters[i] in filters;
      }
    }
  }

  /** The WHERE clause of the compiled query, evaluated with its values, is the conjunction of the filters. */
  lemma CompiledAnswers(from: Table, joins: seq<Join>, filters: seq<Filter>, p: Params,
                        like: (string, string) -> bool, db: Database, row: Row)
    ensures Answers(Compiled(from, joins, filters, p), like, db, row)
       <==> exists t: Tuple :: IsJoined(db, from, joins, t) && from in t && t[from] == row && AllHold(like, filters, t)
  {
    var q := Compiled(from, joins, filters, p);
    if Answers(q, like, db, row) {
      var t: Tuple :| && IsJoined(db, from, joins, t) && from in t && t[from] == row
        && forall c | c in Comparisons(q.wher) :: Satisfies(like, c, q.vals, t);
      ComparisonsHold(like, filters, q.vals, t);
    }
    if t: Tuple :| IsJoined(db, from, joins, t) && from in t && t[from] == row && AllHold(like, filters, t) {
      ComparisonsHold(like, filters, q.vals, t);
    }
  }

  lemma HoldOnOneTable(like: (string, string) -> bool, filters: seq<Filter>, table: Table, t: Tuple)
    requires AllOn(filters, table)
    ensures AllHold(like, filters, t) <==> filters == [] || (table in t && RowHolds(like, filters, t[table]))
  {
    if filters != [] {
      assert filters[0] in filters;
    }
  }

  lemma HoldOnBoth(like: (string, string) -> bool, some: seq<Filter>, more: seq<Filter>, t: Tuple)
    ensures AllHold(like, some + more, t) <==> AllHold(like, some, t) && AllHold(like, more, t)
  {
    forall f ensures f in some + more <==> f in some || f in more {}
  }

  lemma TimeAndStatusTables(p: Params, now: int)
    ensures AllOn(TimeFilters(p, now, AgentHeartbeat), Agents)
    ensures AllOn(NameFilter(Wanted(p, P.Status), AgentStatus), Agents)
    ensures AllOn(TimeFilters(p, now, InvestigatorModified), Investigators)
    ensures AllOn(NameFilter(Wanted(p, P.Status), InvestigatorStatus), Investigators)
  {
  }

  lemma ThreeOn(f1: seq<Filter>, f2: seq<Filter>, f3: seq<Filter>, table: Table)
    requires AllOn(f1, table) && AllOn(f2, table) && AllOn(f3, table)
    ensures AllOn(f1 + f2 + f3, table)
  {
  }

  lemma IdAndNameOn(id: string, pattern: string, field: Field, name: Field, range: Range)
    requires TableOf(field) == TableOf(name)
    ensures AllOn(IdFilter(id, field, range), TableOf(field)) && AllOn(NameFilter(pattern, name), TableOf(field))
  {
  }

  lemma AgentFiltersOn(p: Params, ids: Ids)
    ensures AllOn(AgentFilters(p, ids), Agents)
  {
    IdAndNameOn(Wanted(p, P.AgentId), Wanted(p, P.AgentName), AgentId, AgentName, ids.agent);
    IdAndNameOn(Wanted(p, P.AgentId), Wanted(p, P.AgentVersion), AgentId, AgentVersion, ids.agent);
    ThreeOn(IdFilter(Wanted(p, P.AgentId), AgentId, ids.agent),
            NameFilter(Wanted(p, P.AgentName), AgentName),
            NameFilter(Wanted(p, P.AgentVersion), AgentVersion),
            Agents);
  }

  lemma ActionFiltersOn(p: Params, ids: Ids)
    ensures AllOn(ActionFilters(p, ids), Actions)
  {
    IdAndNameOn(Wanted(p, P.ActionId), Wanted(p, P.ActionName), ActionId, ActionName, ids.action);
    IdAndNameOn(Wanted(p, P.ActionId), Wanted(p, P.ThreatFamily), ActionId, ActionFamily, ids.action);
    ThreeOn(IdFilter(Wanted(p, P.ActionId), ActionId, ids.action),
            NameFilter(Wanted(p, P.ActionName), ActionName),
            NameFilter(Wanted(p, P.ThreatFamily), ActionFamily),
            Actions);
  }

  lemma InvestigatorAndCommandFiltersOn(p: Params, ids: Ids)
    ensures AllOn(InvestigatorFilters(p, ids), Investigators) && AllOn(CommandFilters(p, ids), Commands)
  {
    IdAndNameOn(Wanted(p, P.InvestigatorId), Wanted(p, P.InvestigatorName),
                InvestigatorId, InvestigatorName, ids.investigator);
    IdAndNameOn(Wanted(p, P.CommandId), ANY, CommandId, CommandId, ids.command);
  }

  /** Each part of what was asked is about its own table. */
  ghost predicate About(asked: Asked, own: Table, others: Table) {
    && AllOn(asked.own, own) && AllOn(asked.commands, Commands)
    && AllOn(asked.actions, Actions) && AllOn(asked.others, others)
  }

  lemma AskedIsAbout(p: Params, ids: Ids, now: int)
    ensures About(AgentAsked(p, ids, now), Agents, Investigators)
    ensures About(InvestigatorAsked(p, ids, now), Investigators, Agents)
  {
    AgentFiltersOn(p, ids);
    ActionFiltersOn(p, ids);
    InvestigatorAndCommandFiltersOn(p, ids);
    TimeAndStatusTables(p, now);
    ThreeOn(TimeFilters(p, now, AgentHeartbeat),
            AgentFilters(p, ids),
            NameFilter(Wanted(p, P.Status), AgentStatus),
            Agents);
    ThreeOn(TimeFilters(p, now, InvestigatorModified),
            InvestigatorFilters(p, ids),
            NameFilter(Wanted(p, P.Status), InvestigatorStatus),
            Investigators);
  }

  /** All filters hold of a tuple iff each part holds of the row of its table. */
  ghost predicate PartsHold(like: (string, string) -> bool, asked: Asked, own: Table, others: Table, t: Tuple)
    requires own in t
  {
    && RowHolds(like, asked.own, t[own])
    && (asked.actions != [] ==> Actions in t && RowHolds(like, asked.actions, t[Actions]))
    && (asked.others != [] ==> others in t && RowHolds(like, asked.others, t[others]))
    && (asked.commands != [] ==> Commands in t && RowHolds(like, asked.commands, t[Commands]))
  }

  lemma FiltersSplit(like: (string, string) -> bool, asked: Asked, own: Table, others: Table, t: Tuple)
    requires own in t && About(asked, own, others)
    ensures AllHold(like, AgentSearchFilters(asked), t) <==> PartsHold(like, asked, own, others, t)
    ensures AllHold(like, InvestigatorSearchFilters(asked), t) <==> PartsHold(like, asked, own, others, t)
  {
    HoldOnBoth(like, asked.own + asked.actions + asked.others, asked.commands, t);
    HoldOnBoth(like, asked.own + asked.actions + asked.commands, asked.others, t);
    HoldOnBoth(like, asked.own + asked.actions, asked.others, t);
    HoldOnBoth(like, asked.own + asked.actions, asked.commands, t);
    HoldOnBoth(like, asked.own, asked.actions, t);
    HoldOnOneTable(like, asked.own, own, t);
    HoldOnOneTable(like, asked.actions, Actions, t);
    HoldOnOneTable(like, asked.others, others, t);
    HoldOnOneTable(like, asked.commands, Commands, t);
  }

  // ----- agents -----

  /** What was asked for: the agent satisfies its own filters, and as far as other filters were supplied,
      has a command that satisfies its filters, of an action that satisfies its filters, signed by an
      investigator that satisfies its filters. */
  ghost predicate AgentMatches(like: (string, string) -> bool, db: Database, asked: Asked, a: Row)
  {
    && a in db.Rows(Agents) && RowHolds(like, asked.own, a)
    && (asked.commands != [] || asked.actions != [] || asked.others != [] ==>
          exists c :: c in db.Rows(Commands) && Equal(Col(c, CommandAgent), Col(a, AgentId))
            && CommandMatches(like, db, asked, c))
  }

  ghost predicate CommandMatches(like: (string, string) -> bool, db: Database, asked: Asked, c: Row)
    requires c in db.Rows(Commands)
  {
    && RowHolds(like, asked.commands, c)
    && (asked.actions != [] || asked.others != [] ==>
          exists act :: act in db.Rows(Actions) && Equal(Col(c, CommandAction), Col(act, ActionId))
            && ActionMatches(like, db, asked, act))
  }

  ghost predicate ActionMatches(like: (string, string) -> bool, db: Database, asked: Asked, act: Row)
    requires act in db.Rows(Actions)
  {
    && RowHolds(like, asked.actions, act)
    && (asked.others != [] ==>
          exists sig, inv :: sig in db.Rows(Signatures) && inv in db.Rows(Investigators)
            && Equal(Col(act, ActionId), Col(sig, SignatureAction))
            && Equal(Col(sig, SignatureInvestigator), Col(inv, InvestigatorId))
            && RowHolds(like, asked.others, inv))
  }

  lemma PrefixTables(from: Table, all: seq<Join>, k: nat)
    requires k < |all|
    ensures JoinedTables(from, all[..k + 1]) == JoinedTables(from, all[..k]) + {all[k].table}
  {
    assert all[..k + 1][..k] == all[..k];
  }

  lemma AgentTables()
    ensures JoinedTables(Agents, AGENT_JOINS[..0]) == {Agents}
    ensures JoinedTables(Agents, AGENT_JOINS[..1]) == {Agents, Commands}
    ensures JoinedTables(Agents, AGENT_JOINS[..2]) == {Agents, Commands, Actions}
    ensures JoinedTables(Agents, AGENT_JOINS[..3]) == {Agents, Commands, Actions, Signatures}
    ensures JoinedTables(Agents, AGENT_JOINS[..4]) == {Agents, Commands, Actions, Signatures, Investigators}
  {
    PrefixTables(Agents, AGENT_JOINS, 0);
    PrefixTables(Agents, AGENT_JOINS, 1);
    PrefixTables(Agents, AGENT_JOINS, 2);
    PrefixTables(Agents, AGENT_JOINS, 3);
  }

  lemma JoinedAlone(db: Database, from: Table, all: seq<Join>, row: Row)
    requires row in db.Rows(from)
    ensures IsJoined(db, from, all[..0], map[from := row])
  {
  }

  lemma StillHolds(j: Join, t: Tuple, table: Table, row: Row)
    requires OnHolds(j, t) && table !in t
    ensures OnHolds(j, t[table := row])
  {
  }

  /** A tuple is extended along the next join. */
  lemma JoinedFurther(db: Database, from: Table, all: seq<Join>, k: nat, t: Tuple, row: Row)
    requires k < |all| && IsJoined(db, from, all[..k], t)
    requires all[k].table !in t && row in db.Rows(all[k].table) && OnHolds(all[k], t[all[k].table := row])
    ensures IsJoined(db, from, all[..k + 1], t[all[k].table := row])
  {
    PrefixTables(from, all, k);
    var more := all[..k + 1];
    forall i | 0 <= i < |more| ensures OnHolds(more[i], t[all[k].table := row]) {
      if i < k {
        StillHolds(all[..k][i], t, all[k].table, row);
      }
    }
  }

  ghost predicate FromTables(db: Database, t: Tuple) {
    forall table | table in t :: t[table] in db.Rows(table)
  }

  lemma ActionMatchesIn(like: (string, string) -> bool, db: Database, asked: Asked, t: Tuple)
    requires FromTables(db, t) && Actions in t && RowHolds(like, asked.actions, t[Actions])
    requires asked.others != [] ==>
      && OnHolds(ACTION_SIGNATURE, t) && OnHolds(SIGNATURE_INVESTIGATOR, t)
      && RowHolds(like, asked.others, t[Investigators])
    ensures ActionMatches(like, db, asked, t[Actions])
  {
    if asked.others != [] {
      var sig, inv := t[Signatures], t[Investigators];
      assert sig in db.Rows(Signatures) && inv in db.Rows(Investigators);
    }
  }

  lemma CommandMatchesIn(like: (string, string) -> bool, db: Database, asked: Asked, t: Tuple)
    requires FromTables(db, t) && Commands in t && RowHolds(like, asked.commands, t[Commands])
    requires asked.actions != [] || asked.others != [] ==>
      OnHolds(COMMAND_ACTION, t) && ActionMatches(like, db, asked, t[Actions])
    ensures CommandMatches(like, db, asked, t[Commands])
  {
  }

  lemma AgentMatchesIn(like: (string, string) -> bool, db: Database, asked: Asked, t: Tuple)
    requires FromTables(db, t) && Agents in t && RowHolds(like, asked.own, t[Agents])
    requires asked.commands != [] || asked.actions != [] || asked.others != [] ==>
      OnHolds(AGENT_COMMAND, t) && CommandMatches(like, db, asked, t[Commands])
    ensures AgentMatches(like, db, asked, t[Agents])
  {
    if asked.commands != [] || asked.actions != [] || asked.others != [] {
      assert t[Commands] in db.Rows(Commands);
    }
  }

  /** Every joined tuple that satisfies all filters is a chain of the kind asked for. */
  lemma AgentAnswerIsMatch(like: (string, string) -> bool, db: Database, asked: Asked, p: Params, t: Tuple)
    requires IsJoined(db, Agents, AgentQuery(asked, p).joins, t) && Agents in t
    requires PartsHold(like, asked, Agents, Investigators, t)
    ensures AgentMatches(like, db, asked, t[Agents])
  {
    var joins := AgentQuery(asked, p).joins;
    assert FromTables(db, t);
    if asked.others != [] {
      assert OnHolds(joins[2], t) && OnHolds(joins[3], t);
    }
    if asked.others != [] || asked.actions != [] {
      assert OnHolds(joins[1], t) && Actions in t;
      ActionMatchesIn(like, db, asked, t);
    }
    if asked.others != [] || asked.actions != [] || asked.commands != [] {
      assert OnHolds(joins[0], t) && Commands in t;
      CommandMatchesIn(like, db, asked, t);
    }
    AgentMatchesIn(like, db, asked, t);
  }

  ghost predicate IsAnswer(like: (string, string) -> bool, db: Database, asked: Asked, joins: seq<Join>, a: Row,
                           t: Tuple)
  {
    IsJoined(db, Agents, joins, t) && Agents in t && t[Agents] == a && PartsHold(like, asked, Agents, Investigators, t)
  }

  function AgentTuple(a: Row): Tuple {
    map[Agents := a]
  }

  function CommandTuple(a: Row, c: Row): Tuple {
    AgentTuple(a)[Commands := c]
  }

  function ActionTuple(a: Row, c: Row, act: Row): Tuple {
    CommandTuple(a, c)[Actions := act]
  }

  function SignatureTuple(a: Row, c: Row, act: Row, sig: Row): Tuple {
    ActionTuple(a, c, act)[Signatures := sig]
  }

  function InvestigatorTuple(a: Row, c: Row, act: Row, sig: Row, inv: Row): Tuple {
    SignatureTuple(a, c, act, sig)[Investigators := inv]
  }

  lemma JoinedToCommand(db: Database, a: Row, c: Row)
    requires a in db.agents && c in db.commands && Equal(Col(c, CommandAgent), Col(a, AgentId))
    ensures IsJoined(db, Agents, AGENT_JOINS[..1], CommandTuple(a, c))
  {
    JoinedAlone(db, Agents, AGENT_JOINS, a);
    JoinedFurther(db, Agents, AGENT_JOINS, 0, AgentTuple(a), c);
  }

  lemma JoinedToAction(db: Database, a: Row, c: Row, act: Row)
    requires a in db.agents && c in db.commands && Equal(Col(c, CommandAgent), Col(a, AgentId))
    requires act in db.actions && Equal(Col(c, CommandAction), Col(act, ActionId))
    ensures IsJoined(db, Agents, AGENT_JOINS[..2], ActionTuple(a, c, act))
  {
    JoinedToCommand(db, a, c);
    JoinedFurther(db, Agents, AGENT_JOINS, 1, CommandTuple(a, c), act);
  }

  lemma JoinedToSignature(db: Database, a: Row, c: Row, act: Row, sig: Row)
    requires a in db.agents && c in db.commands && Equal(Col(c, CommandAgent), Col(a, AgentId))
    requires act in db.actions && Equal(Col(c, CommandAction), Col(act, ActionId))
    requires sig in db.signatures && Equal(Col(act, ActionId), Col(sig, SignatureAction))
    ensures IsJoined(db, Agents, AGENT_JOINS[..3], SignatureTuple(a, c, act, sig))
  {
    JoinedToAction(db, a, c, act);
    JoinedFurther(db, Agents, AGENT_JOINS, 2, ActionTuple(a, c, act), sig);
  }

  lemma JoinedToInvestigator(db: Database, a: Row, c: Row, act: Row, sig: Row, inv: Row)
    requires a in db.agents && c in db.commands && Equal(Col(c, CommandAgent), Col(a, AgentId))
    requires act in db.actions && Equal(Col(c, CommandAction), Col(act, ActionId))
    requires sig in db.signatures && Equal(Col(act, ActionId), Col(sig, SignatureAction))
    requires inv in db.investigators && Equal(Col(sig, SignatureInvestigator), Col(inv, InvestigatorId))
    ensures IsJoined(db, Agents, AGENT_JOINS[..4], InvestigatorTuple(a, c, act, sig, inv))
  {
    JoinedToSignature(db, a, c, act, sig);
    JoinedFurther(db, Agents, AGENT_JOINS, 3, SignatureTuple(a, c, act, sig), inv);
  }

  lemma ActionOf(like: (string, string) -> bool, db: Database, asked: Asked, c: Row) returns (act: Row)
    requires c in db.Rows(Commands) && CommandMatches(like, db, asked, c) && (asked.actions != [] || asked.others != [])
    ensures act in db.actions && Equal(Col(c, CommandAction), Col(act, ActionId)) && ActionMatches(like, db, asked, act)
  {
    act :| act in db.Rows(Actions) && Equal(Col(c, CommandAction), Col(act, ActionId))
      && ActionMatches(like, db, asked, act);
  }

  lemma SignedBy(like: (string, string) -> bool, db: Database, asked: Asked, act: Row) returns (sig: Row, inv: Row)
    requires act in db.Rows(Actions) && ActionMatches(like, db, asked, act) && asked.others != []
    ensures sig in db.signatures && Equal(Col(act, ActionId), Col(sig, SignatureAction))
    ensures inv in db.investigators && Equal(Col(sig, SignatureInvestigator), Col(inv, InvestigatorId))
    ensures RowHolds(like, asked.others, inv)
  {
    sig, inv :| sig in db.Rows(Signatures) && inv in db.Rows(Investigators)
      && Equal(Col(act, ActionId), Col(sig, SignatureAction))
      && Equal(Col(sig, SignatureInvestigator), Col(inv, InvestigatorId))
      && RowHolds(like, asked.others, inv);
  }

  lemma ChainIsAnswer(like: (string, string) -> bool, db: Database, asked: Asked, p: Params, a: Row, c: Row, act: Row)
    returns (t: Tuple)
    requires a in db.agents && RowHolds(like, asked.own, a)
    requires c in db.commands && Equal(Col(c, CommandAgent), Col(a, AgentId)) && RowHolds(like, asked.commands, c)
    requires act in db.actions && Equal(Col(c, CommandAction), Col(act, ActionId))
    requires ActionMatches(like, db, asked, act)
    requires asked.actions != [] || asked.others != []
    ensures IsAnswer(like, db, asked, AgentQuery(asked, p).joins, a, t)
  {
    if asked.others == [] {
      t := ActionTuple(a, c, act);
      JoinedToAction(db, a, c, act);
    } else {
      var sig, inv := SignedBy(like, db, asked, act);
      t := InvestigatorTuple(a, c, act, sig, inv);
      JoinedToInvestigator(db, a, c, act, sig, inv);
    }
  }

  /** Every chain asked for is a joined tuple that satisfies all filters. */
  lemma AgentMatchIsAnswer(like: (string, string) -> bool, db: Database, asked: Asked, p: Params, a: Row)
    returns (t: Tuple)
    requires AgentMatches(like, db, asked, a)
    ensures IsAnswer(like, db, asked, AgentQuery(asked, p).joins, a, t)
  {
    if asked.others == [] && asked.actions == [] && asked.commands == [] {
      t := AgentTuple(a);
      JoinedAlone(db, Agents, AGENT_JOINS, a);
    } else {
      var c :| c in db.Rows(Commands) && Equal(Col(c, CommandAgent), Col(a, AgentId))
        && CommandMatches(like, db, asked, c);
      if asked.others == [] && asked.actions == [] {
        t := CommandTuple(a, c);
        JoinedToCommand(db, a, c);
      } else {
        var act := ActionOf(like, db, asked, c);
        t := ChainIsAnswer(like, db, asked, p, a, c, act);
      }
    }
  }

  /** SearchAgents preserves the meaning of its parameters, over every database. */
  lemma AgentSearchMeansWhatWasAsked(like: (string, string) -> bool, db: Database,
                                     p: Params, ids: Ids, now: int, a: Row)
    ensures Answers(AgentQuery(AgentAsked(p, ids, now), p), like, db, a)
       <==> AgentMatches(like, db, AgentAsked(p, ids, now), a)
  {
    AskedIsAbout(p, ids, now);
    AgentQueryMeans(like, db, AgentAsked(p, ids, now), p, a);
  }

  lemma AgentQueryMeans(like: (string, string) -> bool, db: Database, asked: Asked, p: Params, a: Row)
    requires About(asked, Agents, Investigators)
    ensures Answers(AgentQuery(asked, p), like, db, a) <==> AgentMatches(like, db, asked, a)
  {
    var q, filters := AgentQuery(asked, p), AgentSearchFilters(asked);
    CompiledAnswers(Agents, q.joins, filters, p, like, db, a);
    if AgentMatches(like, db, asked, a) {
      var t := AgentMatchIsAnswer(like, db, asked, p, a);
      FiltersSplit(like, asked, Agents, Investigators, t);
    }
    if Answers(q, like, db, a) {
      var t: Tuple :| IsJoined(db, Agents, q.joins, t) && Agents in t && t[Agents] == a && AllHold(like, filters, t);
      FiltersSplit(like, asked, Agents, Investigators, t);
      AgentAnswerIsMatch(like, db, asked, p, t);
    }
  }
}
