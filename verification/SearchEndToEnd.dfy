/** A search from the client's parameters to the answers of the database. */
module SearchEndToEnd {
  import opened Common
  import opened QueryString
  import opened TextFormats
  import opened SearchRoundTrip
  import B = SearchBuilder
  import P = SearchParameters
  import Q = SearchQuery
  import W = SearchAsked

  /** Over every database, and whatever ILIKE means, the query answers exactly the agents asked for. */
  ghost predicate FindsAgents(q: Q.Query, parse: string -> Option<int>, p: P.Parameters, now: int)
    requires P.IsComplete(p)
  {
    forall like: (string, string) -> bool, db: Q.Database, a: Q.Row ::
      Q.Answers(q, like, db, a) <==> W.WantedAgent(like, parse, db, p, now, a)
  }

  ghost predicate FindsInvestigators(q: Q.Query, parse: string -> Option<int>, p: P.Parameters, now: int)
    requires P.IsComplete(p)
  {
    forall like: (string, string) -> bool, db: Q.Database, inv: Q.Row ::
      Q.Answers(q, like, db, inv) <==> W.WantedInvestigator(like, parse, db, p, now, inv)
  }

  /** No wildcard but '%' is used, and times are whole seconds: nothing is lost by printing. */
  predicate IsPlain(p: P.Parameters) {
    && (forall k | k in p.texts :: forall c | c in p.texts[k] :: c == '%' || !IsWildcard(c))
    && p.after.nanos == 0 && p.before.nanos == 0
  }

  predicate CanBeSent(p: P.Parameters) {
    Sendable(p.after) && Sendable(p.before)
  }

  lemma WildIsSame(s: string)
    requires forall c | c in s :: c == '%' || !IsWildcard(c)
    ensures Wild(s) == s
  {
  }

  lemma PlainWantsTheSame(p: P.Parameters, k: P.Key)
    requires P.IsComplete(p) && IsPlain(p) && P.IsText(k) && !k.Target?
    ensures B.Wanted(Normalised(p), k) == B.Wanted(p, k)
  {
    WildIsSame(p.texts[k]);
  }

  ghost predicate WantsTheSame(p: P.Parameters, q: P.Parameters) {
    && (forall k: P.Key | P.IsText(k) && !k.Target? :: B.Wanted(q, k) == B.Wanted(p, k))
    && q.before == p.before && q.after == p.after
  }

  lemma SameIds(p: P.Parameters, q: P.Parameters, parse: string -> Option<int>)
    requires WantsTheSame(p, q)
    ensures B.MakeIds(q, parse) == B.MakeIds(p, parse)
  {
    assert B.Wanted(q, P.ActionId) == B.Wanted(p, P.ActionId) && B.Wanted(q, P.CommandId) == B.Wanted(p, P.CommandId);
    assert B.Wanted(q, P.AgentId) == B.Wanted(p, P.AgentId);
    assert B.Wanted(q, P.InvestigatorId) == B.Wanted(p, P.InvestigatorId);
    assert B.Wanted(q, P.ManifestId) == B.Wanted(p, P.ManifestId) && B.Wanted(q, P.LoaderId) == B.Wanted(p, P.LoaderId);
  }

  lemma SameAgentAndActionFilters(p: P.Parameters, q: P.Parameters, ids: B.Ids)
    requires WantsTheSame(p, q)
    ensures B.AgentFilters(q, ids) == B.AgentFilters(p, ids) && B.ActionFilters(q, ids) == B.ActionFilters(p, ids)
  {
  }

  lemma SameOtherFilters(p: P.Parameters, q: P.Parameters, ids: B.Ids)
    requires WantsTheSame(p, q)
    ensures B.InvestigatorFilters(q, ids) == B.InvestigatorFilters(p, ids)
    ensures B.CommandFilters(q, ids) == B.CommandFilters(p, ids)
    ensures B.Wanted(q, P.Status) == B.Wanted(p, P.Status)
  {
  }

  lemma SameTimeFilters(p: P.Parameters, q: P.Parameters, now: int, field: Q.Field)
    requires q.before == p.before && q.after == p.after
    ensures B.TimeFilters(q, now, field) == B.TimeFilters(p, now, field)
  {
  }

  /** Plain parameters mean the same when they arrive. */
  lemma PlainAsksTheSame(p: P.Parameters, parse: string -> Option<int>, ids: B.Ids, now: int)
    requires P.IsComplete(p) && IsPlain(p)
    ensures B.MakeIds(Normalised(p), parse) == B.MakeIds(p, parse)
    ensures B.AgentAsked(Normalised(p), ids, now) == B.AgentAsked(p, ids, now)
    ensures B.InvestigatorAsked(Normalised(p), ids, now) == B.InvestigatorAsked(p, ids, now)
  {
    forall k: P.Key | P.IsText(k) && !k.Target? ensures B.Wanted(Normalised(p), k) == B.Wanted(p, k) {
      PlainWantsTheSame(p, k);
    }
    SameIds(p, Normalised(p), parse);
    AskTheSame(p, Normalised(p), ids, now);
  }

  lemma AskTheSame(p: P.Parameters, q: P.Parameters, ids: B.Ids, now: int)
    requires WantsTheSame(p, q)
    ensures B.AgentAsked(q, ids, now) == B.AgentAsked(p, ids, now)
    ensures B.InvestigatorAsked(q, ids, now) == B.InvestigatorAsked(p, ids, now)
  {
    SameAgentAndActionFilters(p, q, ids);
    SameOtherFilters(p, q, ids);
    SameTimeFilters(p, q, now, Q.AgentHeartbeat);
    SameTimeFilters(p, q, now, Q.InvestigatorModified);
  }

  lemma CompiledFindsAgents(p: P.Parameters, parse: string -> Option<int>, ids: B.Ids, now: int)
    requires P.IsComplete(p) && W.AreIds(p, parse, ids)
    ensures FindsAgents(B.AgentQuery(B.AgentAsked(p, ids, now), p), parse, p, now)
    ensures W.HasPage(B.AgentQuery(B.AgentAsked(p, ids, now), p), p)
  {
    forall like: (string, string) -> bool, db: Q.Database, a: Q.Row
      ensures Q.Answers(B.AgentQuery(B.AgentAsked(p, ids, now), p), like, db, a)
         <==> W.WantedAgent(like, parse, db, p, now, a)
    {
      W.SearchAgentsFindsTheWanted(like, parse, db, p, ids, now, a);
    }
  }

  lemma CompiledFindsInvestigators(p: P.Parameters, parse: string -> Option<int>, ids: B.Ids, now: int)
    requires P.IsComplete(p) && W.AreIds(p, parse, ids)
    ensures FindsInvestigators(B.InvestigatorQuery(B.InvestigatorAsked(p, ids, now), p), parse, p, now)
    ensures W.HasPage(B.InvestigatorQuery(B.InvestigatorAsked(p, ids, now), p), p)
  {
    forall like: (string, string) -> bool, db: Q.Database, inv: Q.Row
      ensures Q.Answers(B.InvestigatorQuery(B.InvestigatorAsked(p, ids, now), p), like, db, inv)
         <==> W.WantedInvestigator(like, parse, db, p, now, inv)
    {
      W.SearchInvestigatorsFindsTheWanted(like, parse, db, p, ids, now, inv);
    }
  }

  /** What is read is as complete as what was printed. */
  lemma NormalisedIsComplete(p: P.Parameters)
    requires P.IsComplete(p)
    ensures P.IsComplete(Normalised(p))
  {
  }

  /** The client prints its parameters, the API parses what arrives; order is the order in which it ranges
      over the names. */
  method Send(p: P.Parameters, order: seq<string>, after: Time, before: Time) returns (received: Result<P.Parameters>)
    requires P.IsComplete(p)
    requires forall name :: name in order <==> name in ParseQuery(P.Printed(p))
    ensures AllClean(p) && CanBeSent(p) ==> received == Ok(Normalised(p))
    ensures AllClean(p) && !CanBeSent(p) ==> received.Err?
    ensures !AllClean(p) ==> received != Ok(Normalised(p))
  {
    RoundTripIff(p, after, before);
    var query := P.String(p);
    var form := ParseQuery(query);
    var filterFound;
    received, filterFound := P.ParseSearchParameters(form, order, P.Defaults(after, before));
  }

  /** What the API answers a search for agents with is the query for exactly what the client asked, as far as
      it could be printed. */
  method FindAgents(p: P.Parameters, order: seq<string>, after: Time, before: Time, now: int,
                    parse: string -> Option<int>)
    returns (r: Result<Q.Query>)
    requires P.IsComplete(p) && AllClean(p)
    requires forall name :: name in order <==> name in ParseQuery(P.Printed(p))
    ensures P.IsComplete(Normalised(p))
    ensures r.Ok? <==> CanBeSent(p) && W.IdsSpellNumbers(Normalised(p), parse)
    ensures r.Ok? ==> FindsAgents(r.value, parse, Normalised(p), now) && W.HasPage(r.value, p)
  {
    NormalisedIsComplete(p);
    var received := Send(p, order, after, before);
    if received.Err? {
      return Err(received.message);
    }
    ghost var n := Normalised(p);
    W.IdsMadeIff(n, parse);
    r := B.SearchAgents(received.value, now, parse);
    if r.Ok? {
      assert FindsAgents(r.value, parse, n, now) && W.HasPage(r.value, n) by {
        CompiledFindsAgents(n, parse, B.MakeIds(n, parse).value, now);
      }
    }
  }

  method FindInvestigators(p: P.Parameters, order: seq<string>, after: Time, before: Time, now: int,
                           parse: string -> Option<int>)
    returns (r: Result<Q.Query>)
    requires P.IsComplete(p) && AllClean(p)
    requires forall name :: name in order <==> name in ParseQuery(P.Printed(p))
    ensures P.IsComplete(Normalised(p))
    ensures r.Ok? <==> CanBeSent(p) && W.IdsSpellNumbers(Normalised(p), parse)
    ensures r.Ok? ==> FindsInvestigators(r.value, parse, Normalised(p), now) && W.HasPage(r.value, p)
  {
    NormalisedIsComplete(p);
    var received := Send(p, order, after, before);
    if received.Err? {
      return Err(received.message);
    }
    ghost var n := Normalised(p);
    W.IdsMadeIff(n, parse);
    r := B.SearchInvestigators(received.value, now, parse);
    if r.Ok? {
      assert FindsInvestigators(r.value, parse, n, now) && W.HasPage(r.value, n) by {
        CompiledFindsInvestigators(n, parse, B.MakeIds(n, parse).value, now);
      }
    }
  }
}
