/** SearchInvestigators, whose joins run the other way: from investigators through signatures and actions
    to commands and agents. */
module InvestigatorSearchMeaning {
  import opened SearchQuery
  import opened SearchBuilder
  import opened SearchMeaning

  /** What was asked for: the investigator satisfies its own filters, and as far as other filters were
      supplied, has signed an action that satisfies its filters, with a command that satisfies its filters,
      on an agent that satisfies its filters. */
  ghost predicate InvestigatorMatches(like: (string, string) -> bool, db: Database, asked: Asked, inv: Row) {
    && inv in db.Rows(Investigators) && RowHolds(like, asked.own, inv)
    && (asked.actions != [] || asked.commands != [] || asked.others != [] ==>
          exists sig, act :: sig in db.Rows(Signatures) && act in db.Rows(Actions)
            && Equal(Col(sig, SignatureInvestigator), Col(inv, InvestigatorId))
            && Equal(Col(act, ActionId), Col(sig, SignatureAction))
            && ActionReaches(like, db, asked, act))
  }

  ghost predicate ActionReaches(like: (string, string) -> bool, db: Database, asked: Asked, act: Row) {
    && RowHolds(like, asked.actions, act)
    && (asked.commands != [] || asked.others != [] ==>
          exists c :: c in db.Rows(Commands) && Equal(Col(c, CommandAction), Col(act, ActionId))
            && CommandReaches(like, db, asked, c))
  }

  ghost predicate CommandReaches(like: (string, string) -> bool, db: Database, asked: Asked, c: Row) {
    && RowHolds(like, asked.commands, c)
    && (asked.others != [] ==>
          exists a :: a in db.Rows(Agents) && Equal(Col(c, CommandAgent), Col(a, AgentId))
            && RowHolds(like, asked.others, a))
  }

  lemma InvestigatorTables()
    ensures JoinedTables(Investigators, INVESTIGATOR_JOINS[..0]) == {Investigators}
    ensures JoinedTables(Investigators, INVESTIGATOR_JOINS[..1]) == {Investigators, Signatures}
    ensures JoinedTables(Investigators, INVESTIGATOR_JOINS[..2]) == {Investigators, Signatures, Actions}
    ensures JoinedTables(Investigators, INVESTIGATOR_JOINS[..3]) == {Investigators, Signatures, Actions, Commands}
    ensures JoinedTables(Investigators, INVESTIGATOR_JOINS[..4])
         == {Investigators, Signatures, Actions, Commands, Agents}
  {
    PrefixTables(Investigators, INVESTIGATOR_JOINS, 0);
    PrefixTables(Investigators, INVESTIGATOR_JOINS, 1);
    PrefixTables(Investigators, INVESTIGATOR_JOINS, 2);
    PrefixTables(Investigators, INVESTIGATOR_JOINS, 3);
  }

  // ----- answers are matches -----

  lemma CommandReachesIn(like: (string, string) -> bool, db: Database, asked: Asked, t: Tuple)
    requires FromTables(db, t) && Commands in t && RowHolds(like, asked.commands, t[Commands])
    requires asked.others != [] ==> OnHolds(COMMAND_AGENT, t) && RowHolds(like, asked.others, t[Agents])
    ensures CommandReaches(like, db, asked, t[Commands])
  {
    if asked.others != [] {
      assert t[Agents] in db.Rows(Agents);
    }
  }

  lemma ActionReachesIn(like: (string, string) -> bool, db: Database, asked: Asked, t: Tuple)
    requires FromTables(db, t) && Actions in t && RowHolds(like, asked.actions, t[Actions])
    requires (asked.commands != [] || asked.others != [] ==>
      OnHolds(ACTION_COMMAND, t) && CommandReaches(like, db, asked, t[Commands]))
    ensures ActionReaches(like, db, asked, t[Actions])
  {
    if asked.commands != [] || asked.others != [] {
      assert t[Commands] in db.Rows(Commands);
    }
  }

  lemma InvestigatorMatchesIn(like: (string, string) -> bool, db: Database, asked: Asked, t: Tuple)
    requires FromTables(db, t) && Investigators in t && RowHolds(like, asked.own, t[Investigators])
    requires (asked.actions != [] || asked.commands != [] || asked.others != [] ==>
      OnHolds(INVESTIGATOR_SIGNATURE, t) && OnHolds(SIGNATURE_ACTION, t) && ActionReaches(like, db, asked, t[Actions]))
    ensures InvestigatorMatches(like, db, asked, t[Investigators])
  {
    if asked.actions != [] || asked.commands != [] || asked.others != [] {
      var sig, act := t[Signatures], t[Actions];
      assert sig in db.Rows(Signatures) && act in db.Rows(Actions);
    }
  }

  /** Every joined tuple that satisfies all filters is a chain of the kind asked for. */
  lemma InvestigatorAnswerIsMatch(like: (string, string) -> bool, db: Database, asked: Asked, p: Params, t: Tuple)
    requires IsJoined(db, Investigators, InvestigatorQuery(asked, p).joins, t) && Investigators in t
    requires PartsHold(like, asked, Investigators, Agents, t)
    ensures InvestigatorMatches(like, db, asked, t[Investigators])
  {
    var joins := InvestigatorQuery(asked, p).joins;
    assert FromTables(db, t);
    if asked.others != [] {
      assert OnHolds(joins[3], t);
    }
    if asked.others != [] || asked.commands != [] {
      assert OnHolds(joins[2], t);
      CommandReachesIn(like, db, asked, t);
    }
    if asked.others != [] || asked.commands != [] || asked.actions != [] {
      assert OnHolds(joins[0], t) && OnHolds(joins[1], t);
      ActionReachesIn(like, db, asked, t);
    }
    InvestigatorMatchesIn(like, db, asked, t);
  }

  // ----- matches are answers -----

  ghost predicate IsAnswer(like: (string, string) -> bool, db: Database, asked: Asked, joins: seq<Join>, inv: Row,
                           t: Tuple)
  {
    IsJoined(db, Investigators, joins, t) && Investigators in t && t[Investigators] == inv
      && PartsHold(like, asked, Investigators, Agents, t)
  }

  lemma Signed(like: (string, string) -> bool, db: Database, asked: Asked, inv: Row) returns (sig: Row, act: Row)
    requires InvestigatorMatches(like, db, asked, inv)
    requires asked.actions != [] || asked.commands != [] || asked.others != []
    ensures sig in db.signatures && act in db.actions && ActionReaches(like, db, asked, act)
    ensures Equal(Col(sig, SignatureInvestigator), Col(inv, InvestigatorId))
    ensures Equal(Col(act, ActionId), Col(sig, SignatureAction))
  {
    sig, act :| sig in db.Rows(Signatures) && act in db.Rows(Actions)
      && Equal(Col(sig, SignatureInvestigator), Col(inv, InvestigatorId))
      && Equal(Col(act, ActionId), Col(sig, SignatureAction))
      && ActionReaches(like, db, asked, act);
  }

  lemma CommandOf(like: (string, string) -> bool, db: Database, asked: Asked, act: Row) returns (c: Row)
    requires ActionReaches(like, db, asked, act) && (asked.commands != [] || asked.others != [])
    ensures c in db.commands && Equal(Col(c, CommandAction), Col(act, ActionId)) && CommandReaches(like, db, asked, c)
  {
    c :| c in db.Rows(Commands) && Equal(Col(c, CommandAction), Col(act, ActionId))
      && CommandReaches(like, db, asked, c);
  }

  lemma AgentOf(like: (string, string) -> bool, db: Database, asked: Asked, c: Row) returns (a: Row)
    requires CommandReaches(like, db, asked, c) && asked.others != []
    ensures a in db.agents && Equal(Col(c, CommandAgent), Col(a, AgentId)) && RowHolds(like, asked.others, a)
  {
    a :| a in db.Rows(Agents) && Equal(Col(c, CommandAgent), Col(a, AgentId)) && RowHolds(like, asked.others, a);
  }

  function SignedTuple(inv: Row, sig: Row): Tuple {
    map[Investigators := inv][Signatures := sig]
  }

  function ActionTuple(inv: Row, sig: Row, act: Row): Tuple {
    SignedTuple(inv, sig)[Actions := act]
  }

  function CommandTuple(inv: Row, sig: Row, act: Row, c: Row): Tuple {
    ActionTuple(inv, sig, act)[Commands := c]
  }

  lemma JoinedToSignature(db: Database, inv: Row, sig: Row)
    requires inv in db.investigators
    requires sig in db.signatures && Equal(Col(sig, SignatureInvestigator), Col(inv, InvestigatorId))
    ensures IsJoined(db, Investigators, INVESTIGATOR_JOINS[..1], SignedTuple(inv, sig))
  {
    JoinedAlone(db, Investigators, INVESTIGATOR_JOINS, inv);
    JoinedFurther(db, Investigators, INVESTIGATOR_JOINS, 0, map[Investigators := inv], sig);
  }

  lemma JoinedToAction(db: Database, inv: Row, sig: Row, act: Row)
    requires inv in db.investigators
    requires sig in db.signatures && Equal(Col(sig, SignatureInvestigator), Col(inv, InvestigatorId))
    requires act in db.actions && Equal(Col(act, ActionId), Col(sig, SignatureAction))
    ensures IsJoined(db, Investigators, INVESTIGATOR_JOINS[..2], ActionTuple(inv, sig, act))
  {
    JoinedToSignature(db, inv, sig);
    JoinedFurther(db, Investigators, INVESTIGATOR_JOINS, 1, SignedTuple(inv, sig), act);
  }

  lemma JoinedToCommand(db: Database, inv: Row, sig: Row, act: Row, c: Row)
    requires inv in db.investigators
    requires sig in db.signatures && Equal(Col(sig, SignatureInvestigator), Col(inv, InvestigatorId))
    requires act in db.actions && Equal(Col(act, ActionId), Col(sig, SignatureAction))
    requires c in db.commands && Equal(Col(c, CommandAction), Col(act, ActionId))
    ensures IsJoined(db, Investigators, INVESTIGATOR_JOINS[..3], CommandTuple(inv, sig, act, c))
  {
    JoinedToAction(db, inv, sig, act);
    JoinedFurther(db, Investigators, INVESTIGATOR_JOINS, 2, ActionTuple(inv, sig, act), c);
  }

  lemma JoinedToAgent(db: Database, inv: Row, sig: Row, act: Row, c: Row, a: Row)
    requires inv in db.investigators
    requires sig in db.signatures && Equal(Col(sig, SignatureInvestigator), Col(inv, InvestigatorId))
    requires act in db.actions && Equal(Col(act, ActionId), Col(sig, SignatureAction))
    requires c in db.commands && Equal(Col(c, CommandAction), Col(act, ActionId))
    requires a in db.agents && Equal(Col(c, CommandAgent), Col(a, AgentId))
    ensures IsJoined(db, Investigators, INVESTIGATOR_JOINS[..4], CommandTuple(inv, sig, act, c)[Agents := a])
  {
    JoinedToCommand(db, inv, sig, act, c);
    JoinedFurther(db, Investigators, INVESTIGATOR_JOINS, 3, CommandTuple(inv, sig, act, c), a);
  }

  /** Every chain asked for is a joined tuple that satisfies all filters. */
  lemma InvestigatorMatchIsAnswer(like: (string, string) -> bool, db: Database, asked: Asked, p: Params, inv: Row)
    returns (t: Tuple)
    requires InvestigatorMatches(like, db, asked, inv)
    ensures IsAnswer(like, db, asked, InvestigatorQuery(asked, p).joins, inv, t)
  {
    if asked.others == [] && asked.commands == [] && asked.actions == [] {
      t := map[Investigators := inv];
      JoinedAlone(db, Investigators, INVESTIGATOR_JOINS, inv);
    } else {
      var sig, act := Signed(like, db, asked, inv);
      if asked.others == [] && asked.commands == [] {
        t := ActionTuple(inv, sig, act);
        JoinedToAction(db, inv, sig, act);
      } else {
        var c := CommandOf(like, db, asked, act);
        if asked.others == [] {
          t := CommandTuple(inv, sig, act, c);
          JoinedToCommand(db, inv, sig, act, c);
        } else {
          var a := AgentOf(like, db, asked, c);
          t := CommandTuple(inv, sig, act, c)[Agents := a];
          JoinedToAgent(db, inv, sig, act, c, a);
        }
      }
    }
  }

  lemma InvestigatorQueryMeans(like: (string, string) -> bool, db: Database, asked: Asked, p: Params, inv: Row)
    requires About(asked, Investigators, Agents)
    ensures Answers(InvestigatorQuery(asked, p), like, db, inv) <==> InvestigatorMatches(like, db, asked, inv)
  {
    var q, filters := InvestigatorQuery(asked, p), InvestigatorSearchFilters(asked);
    CompiledAnswers(Investigators, q.joins, filters, p, like, db, inv);
    if InvestigatorMatches(like, db, asked, inv) {
      var t := InvestigatorMatchIsAnswer(like, db, asked, p, inv);
      FiltersSplit(like, asked, Investigators, Agents, t);
    }
    if Answers(q, like, db, inv) {
      var t: Tuple :| IsJoined(db, Investigators, q.joins, t) && Investigators in t && t[Investigators] == inv
        && AllHold(like, filters, t);
      FiltersSplit(like, asked, Investigators, Agents, t);
      InvestigatorAnswerIsMatch(like, db, asked, p, t);
    }
  }

  /** SearchInvestigators preserves the meaning of its parameters, over every database. */
  lemma InvestigatorSearchMeansWhatWasAsked(like: (string, string) -> bool, db: Database, p: Params, ids: Ids,
                                            now: int, inv: Row)
    ensures Answers(InvestigatorQuery(InvestigatorAsked(p, ids, now), p), like, db, inv)
       <==> InvestigatorMatches(like, db, InvestigatorAsked(p, ids, now), inv)
  {
    AskedIsAbout(p, ids, now);
    InvestigatorQueryMeans(like, db, InvestigatorAsked(p, ids, now), p, inv);
  }
}
