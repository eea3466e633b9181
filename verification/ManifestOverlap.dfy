/** Exactly when interleaved statements keep the quorum of the manifests. */
module ManifestOverlap {
  import opened ManifestStore
  import FiniteSets

  predicate IsCurrent(sh: Shared, id: int, required: int) {
    IsOpen(sh.store, id) ==> sh.store.manifests[id].status == StatusFor(|Signers(sh.store, id)|, required)
  }

  predicate IsWorking(sh: Shared, p: nat, id: int) {
    !At(sh, p).Idle? && At(sh, p).id == id
  }

  ghost predicate IsWorkedOn(sh: Shared, id: int) {
    exists p :: p in sh.processes && IsWorking(sh, p, id)
  }

  /** The statement takes effect on the signatures of id. */
  predicate Changes(sh: Shared, s: Statement, id: int) {
    match s
    case Insert(p, i, investigator, _) => i == id && At(sh, p).Idle? && CanSign(sh.store, i, investigator)
    case Clear(p, i) => i == id && At(sh, p).Idle? && Signers(sh.store, id) != {}
    case _ => false
  }

  predicate IsClosed(st: Store, id: int) {
    id in st.manifests && st.manifests[id].status.Disabled?
  }

  /** The statement changes the signatures of a manifest between the count of a process and its update, so
      that the status about to be set is wrong. */
  ghost predicate Disturbs(sh: Shared, s: Statement, required: int) {
    exists p :: p in sh.processes && sh.processes[p].Setting? && DisturbsAt(sh, s, sh.processes[p], required)
  }

  predicate DisturbsAt(sh: Shared, s: Statement, at: Process, required: int)
    requires at.Setting?
  {
    && !IsClosed(sh.store, at.id) && Changes(sh, s, at.id)
    && at.status != StatusFor(|Signers(Execute(sh, s, required).store, at.id)|, required)
  }

  ghost predicate AnotherWorksOn(sh: Shared, p: nat, id: int) {
    exists q :: q in sh.processes && q != p && IsWorking(sh, q, id)
  }

  /** A request fails halfway, and nobody else is at work to correct the status it leaves behind. */
  ghost predicate Abandons(sh: Shared, s: Statement, required: int) {
    && s.GiveUp? && !At(sh, s.p).Idle? && !AnotherWorksOn(sh, s.p, At(sh, s.p).id)
    && !IsCurrent(sh, At(sh, s.p).id, required)
  }

  ghost predicate Undisturbed(statements: seq<Statement>, required: int) {
    forall k | 0 <= k < |statements| ::
      && !Disturbs(Execution(statements[..k], required), statements[k], required)
      && !Abandons(Execution(statements[..k], required), statements[k], required)
  }

  // ----- undisturbed executions -----

  ghost predicate Inv(sh: Shared, required: int) {
    && IsConsistent(sh.store)
    && (forall p | p in sh.processes && sh.processes[p].Setting? && !IsClosed(sh.store, sh.processes[p].id) ::
          sh.processes[p].status == StatusFor(|Signers(sh.store, sh.processes[p].id)|, required))
    && (forall id | IsOpen(sh.store, id) && !IsWorkedOn(sh, id) :: IsCurrent(sh, id, required))
  }

  lemma SignersUnchanged(sh: Shared, s: Statement, id: int, required: int)
    requires IsConsistent(sh.store) && !Changes(sh, s, id)
    ensures Signers(Execute(sh, s, required).store, id) == Signers(sh.store, id)
  {
  }

  lemma StillWorkedOn(sh: Shared, s: Statement, id: int, required: int)
    requires IsWorkedOn(sh, id) && !s.GiveUp? && !(s.Set? && At(sh, s.p).Setting?)
    ensures IsWorkedOn(Execute(sh, s, required), id)
  {
    var p :| p in sh.processes && IsWorking(sh, p, id);
    assert p in Execute(sh, s, required).processes && IsWorking(Execute(sh, s, required), p, id);
  }

  lemma ClosedStays(sh: Shared, s: Statement, id: int, required: int)
    requires IsConsistent(sh.store) && IsClosed(sh.store, id)
    ensures IsClosed(Execute(sh, s, required).store, id)
  {
  }

  lemma SettingsStayCurrent(sh: Shared, s: Statement, required: int)
    requires Inv(sh, required) && !Disturbs(sh, s, required)
    ensures var sh' := Execute(sh, s, required);
      forall p | p in sh'.processes && sh'.processes[p].Setting? && !IsClosed(sh'.store, sh'.processes[p].id) ::
        sh'.processes[p].status == StatusFor(|Signers(sh'.store, sh'.processes[p].id)|, required)
  {
    var sh' := Execute(sh, s, required);
    forall p | p in sh'.processes && sh'.processes[p].Setting? && !IsClosed(sh'.store, sh'.processes[p].id)
      ensures sh'.processes[p].status == StatusFor(|Signers(sh'.store, sh'.processes[p].id)|, required)
    {
      var id := sh'.processes[p].id;
      if IsClosed(sh.store, id) {
        ClosedStays(sh, s, id, required);
      }
      if p in sh.processes && sh.processes[p] == sh'.processes[p] {
        assert !DisturbsAt(sh, s, sh.processes[p], required);
      }
      if !Changes(sh, s, id) {
        SignersUnchanged(sh, s, id, required);
      }
    }
  }

  lemma ChangeIsWorkedOn(sh: Shared, s: Statement, id: int, required: int)
    requires Changes(sh, s, id)
    ensures IsWorkedOn(Execute(sh, s, required), id)
  {
    assert s.p in Execute(sh, s, required).processes && IsWorking(Execute(sh, s, required), s.p, id);
  }

  lemma GiveUpIsCurrent(sh: Shared, p: nat, id: int, required: int)
    requires Inv(sh, required) && !Abandons(sh, GiveUp(p), required)
    requires !IsWorkedOn(Execute(sh, GiveUp(p), required), id)
    ensures IsCurrent(sh, id, required)
  {
    var sh' := Execute(sh, GiveUp(p), required);
    if IsWorkedOn(sh, id) {
      var q :| q in sh.processes && IsWorking(sh, q, id);
      assert q == p by {
        assert q in sh'.processes;
        assert q != p ==> IsWorking(sh', q, id);
      }
      if AnotherWorksOn(sh, p, id) {
        var r :| r in sh.processes && r != p && IsWorking(sh, r, id);
        assert r in sh'.processes && IsWorking(sh', r, id);
      }
    }
  }

  lemma StatementKeepsInv(sh: Shared, s: Statement, required: int)
    requires Inv(sh, required) && required >= 1 && !Disturbs(sh, s, required) && !Abandons(sh, s, required)
    ensures Inv(Execute(sh, s, required), required)
  {
    var sh' := Execute(sh, s, required);
    SettingsStayCurrent(sh, s, required);
    forall id | IsOpen(sh'.store, id) && !IsWorkedOn(sh', id) ensures IsCurrent(sh', id, required) {
      if Changes(sh, s, id) {
        ChangeIsWorkedOn(sh, s, id, required);
      }
      if s.Set? && At(sh, s.p).Setting? {
        SetIsCurrent(sh, s.p, id, required);
      } else if s.GiveUp? {
        GiveUpIsCurrent(sh, s.p, id, required);
      } else {
        if IsWorkedOn(sh, id) {
          StillWorkedOn(sh, s, id, required);
        }
        NotSetIsCurrent(sh, s, id, required);
      }
    }
  }

  lemma SetIsCurrent(sh: Shared, p: nat, id: int, required: int)
    requires Inv(sh, required) && At(sh, p).Setting? && !IsWorkedOn(Execute(sh, Set(p), required), id)
    requires IsOpen(Execute(sh, Set(p), required).store, id)
    ensures IsCurrent(Execute(sh, Set(p), required), id, required)
  {
    var sh' := Execute(sh, Set(p), required);
    if At(sh, p).id != id && IsWorkedOn(sh, id) {
      var q :| q in sh.processes && IsWorking(sh, q, id);
      assert q in sh'.processes && IsWorking(sh', q, id);
    }
  }

  lemma NotSetIsCurrent(sh: Shared, s: Statement, id: int, required: int)
    requires Inv(sh, required) && required >= 1 && !IsWorkedOn(sh, id) && !Changes(sh, s, id)
    requires !(s.Set? && At(sh, s.p).Setting?) && IsOpen(Execute(sh, s, required).store, id)
    ensures IsCurrent(Execute(sh, s, required), id, required)
  {
    SignersUnchanged(sh, s, id, required);
    if s.Whole? && s.r.Add? && id == sh.store.nextId {
      assert Signers(sh.store, id) == {};
    } else {
      assert IsCurrent(sh, id, required);
    }
  }

  /** Over every execution in which no change of a manifest's signatures falls between the count and the
      update of another process and makes its count wrong, and no failing request leaves a wrong status to
      nobody: each manifest that is not disabled, and that no
      process is working on, is active exactly when it has enough signatures. */
  lemma {:induction false} UndisturbedKeepsQuorum(statements: seq<Statement>, required: int)
    requires required >= 1 && Undisturbed(statements, required)
    ensures Inv(Execution(statements, required), required)
    ensures var sh := Execution(statements, required);
      forall id | IsOpen(sh.store, id) && !IsWorkedOn(sh, id) ::
        sh.store.manifests[id].status.Active? <==> |Signers(sh.store, id)| >= required
  {
    if statements != [] {
      var n := |statements| - 1;
      forall k | 0 <= k < n ensures statements[..n][..k] == statements[..k] {}
      UndisturbedKeepsQuorum(statements[..n], required);
      StatementKeepsInv(Execution(statements[..n], required), statements[n], required);
    }
    var sh := Execution(statements, required);
    forall id | IsOpen(sh.store, id) && !IsWorkedOn(sh, id)
      ensures sh.store.manifests[id].status.Active? <==> |Signers(sh.store, id)| >= required
    {
      assert IsCurrent(sh, id, required);
    }
  }

  // ----- disturbed executions -----

  lemma {:induction false} ThenConcat(sh: Shared, a: seq<Statement>, b: seq<Statement>, required: int)
    ensures Then(sh, a + b, required) == Then(Then(sh, a, required), b, required)
    decreases |a|
  {
    if a == [] {
      assert a + b == b;
    } else {
      assert (a + b)[0] == a[0] && (a + b)[1..] == a[1..] + b;
      ThenConcat(Execute(sh, a[0], required), a[1..], b, required);
    }
  }

  lemma {:induction false} ExecutionThen(before: seq<Statement>, after: seq<Statement>, required: int)
    ensures Execution(before + after, required) == Then(Execution(before, required), after, required)
    decreases |after|
  {
    if after == [] {
      assert before + after == before;
    } else {
      var longer := before + [after[0]];
      assert longer[..|longer| - 1] == before;
      assert before + after == longer + after[1..];
      ExecutionThen(longer, after[1..], required);
    }
  }

  lemma OneThen(sh: Shared, s: Statement, required: int)
    ensures Then(sh, [s], required) == Execute(sh, s, required)
  {
    var one: seq<Statement> := [s];
    assert one[1..] == [];
  }

  /** Nothing but the status of manifests that are not disabled has changed. */
  ghost predicate SameButStatus(st: Store, st': Store) {
    && st'.signatures == st.signatures && st'.manifests.Keys == st.manifests.Keys
    && forall id :: IsOpen(st', id) <==> IsOpen(st, id)
  }

  function Busy(sh: Shared): set<nat> {
    set p | p in sh.processes && !sh.processes[p].Idle?
  }

  predicate NoneSetsDisabled(sh: Shared) {
    forall p | p in sh.processes && sh.processes[p].Setting? :: !sh.processes[p].status.Disabled?
  }

  lemma FinishOne(sh: Shared, p: nat, required: int) returns (rest: seq<Statement>)
    requires p in Busy(sh) && NoneSetsDisabled(sh)
    ensures var sh' := Then(sh, rest, required);
      && NoneSetsDisabled(sh') && SameButStatus(sh.store, sh'.store) && Busy(sh') == Busy(sh) - {p}
      && forall q :: q != p ==> At(sh', q) == At(sh, q)
  {
    if At(sh, p).Setting? {
      rest := [Set(p)];
      OneThen(sh, Set(p), required);
    } else {
      rest := [Count(p)] + [Set(p)];
      ThenConcat(sh, [Count(p)], [Set(p)], required);
      OneThen(sh, Count(p), required);
      OneThen(Execute(sh, Count(p), required), Set(p), required);
    }
  }

  /** Everyone but p can be let finish. */
  lemma {:induction false} FinishOthers(sh: Shared, p: nat, required: int) returns (rest: seq<Statement>)
    requires p in Busy(sh) && NoneSetsDisabled(sh)
    ensures var sh' := Then(sh, rest, required);
      SameButStatus(sh.store, sh'.store) && Busy(sh') == {p} && At(sh', p) == At(sh, p)
    decreases |Busy(sh)|
  {
    if Busy(sh) == {p} {
      rest := [];
    } else {
      var q := FiniteSets.SomeMember(Busy(sh) - {p});
      var some := FinishOne(sh, q, required);
      var more := FinishOthers(Then(sh, some, required), p, required);
      rest := some + more;
      ThenConcat(sh, some, more, required);
    }
  }

  /** Nobody is working, and the manifest has the wrong status for its signatures. */
  ghost predicate IsBroken(sh: Shared, id: int, required: int) {
    Busy(sh) == {} && IsOpen(sh.store, id) && !IsCurrent(sh, id, required)
  }

  /** Only p is working: it has counted, and will set status. */
  ghost predicate IsAlone(sh: Shared, p: nat, id: int, status: Status) {
    Busy(sh) == {p} && At(sh, p) == Setting(id, status) && IsOpen(sh.store, id)
  }

  lemma SetLast(sh: Shared, p: nat, id: int, status: Status, required: int) returns (rest: seq<Statement>)
    requires IsAlone(sh, p, id, status) && status != StatusFor(|Signers(sh.store, id)|, required) && !status.Disabled?
    ensures IsBroken(Then(sh, rest, required), id, required)
  {
    rest := [Set(p)];
    OneThen(sh, Set(p), required);
    var sh' := Execute(sh, Set(p), required);
    assert Signers(sh'.store, id) == Signers(sh.store, id);
    forall q ensures q !in Busy(sh') {
      assert q in Busy(sh) <==> q == p;
    }
    assert Busy(sh') == {};
  }

  /** Another process clears the signatures, whole request and all. */
  lemma ClearMeanwhile(sh: Shared, p: nat, id: int, status: Status, required: int) returns (rest: seq<Statement>)
    requires IsAlone(sh, p, id, status)
    ensures IsAlone(Then(sh, rest, required), p, id, status) && Signers(Then(sh, rest, required).store, id) == {}
  {
    var q := p + 1;
    assert At(sh, q).Idle? by {
      assert q !in Busy(sh);
    }
    rest := [Clear(q, id), Count(q), Set(q)];
    ThreeSteps(sh, rest, required);
    var sh1 := Execute(sh, Clear(q, id), required);
    var sh2 := Execute(sh1, Count(q), required);
    var sh3 := Execute(sh2, Set(q), required);
    assert sh3.store.signatures == Cleared(sh.store, id).signatures;
  }

  lemma OneMoreSigner(st: Store, id: int, investigator: int)
    requires investigator !in Signers(st, id)
    ensures Signers(Signed(st, id, investigator, "s"), id) == Signers(st, id) + {investigator}
  {
    var more := Signed(st, id, investigator, "s");
    assert (id, investigator) in more.signatures;
  }

  lemma SignMeanwhile(sh: Shared, p: nat, id: int, status: Status, required: int) returns (rest: seq<Statement>)
    requires IsAlone(sh, p, id, status)
    ensures IsAlone(Then(sh, rest, required), p, id, status)
    ensures |Signers(Then(sh, rest, required).store, id)| == |Signers(sh.store, id)| + 1
  {
    var q := p + 1;
    assert At(sh, q).Idle? by {
      assert q !in Busy(sh);
    }
    var investigator := Newcomer(Signers(sh.store, id));
    assert CanSign(sh.store, id, investigator) by {
      assert (id, investigator) in sh.store.signatures ==> investigator in Signers(sh.store, id);
    }
    rest := [Insert(q, id, investigator, "s"), Count(q), Set(q)];
    ThreeSteps(sh, rest, required);
    OneMoreSigner(sh.store, id, investigator);
    var sh1 := Execute(sh, Insert(q, id, investigator, "s"), required);
    var sh2 := Execute(sh1, Count(q), required);
    var sh3 := Execute(sh2, Set(q), required);
    assert sh3.store.signatures == sh1.store.signatures;
  }

  lemma Newcomer(signers: set<int>) returns (investigator: int)
    ensures investigator !in signers
  {
    var candidates := FiniteSets.Below(|signers| + 1);
    if candidates <= signers {
      FiniteSets.SubsetIsNoLarger(candidates, signers);
      assert false;
    }
    investigator := FiniteSets.SomeMember(candidates - signers);
  }

  lemma {:induction false} SignUntilEnough(sh: Shared, p: nat, id: int, status: Status, required: int)
    returns (rest: seq<Statement>)
    requires IsAlone(sh, p, id, status)
    ensures IsAlone(Then(sh, rest, required), p, id, status)
    ensures |Signers(Then(sh, rest, required).store, id)| >= required
    decreases required - |Signers(sh.store, id)|
  {
    if |Signers(sh.store, id)| >= required {
      rest := [];
    } else {
      var some := SignMeanwhile(sh, p, id, status, required);
      var more := SignUntilEnough(Then(sh, some, required), p, id, status, required);
      rest := some + more;
      ThenConcat(sh, some, more, required);
    }
  }

  lemma BreakAlone(sh: Shared, p: nat, id: int, status: Status, required: int) returns (rest: seq<Statement>)
    requires IsAlone(sh, p, id, status) && required >= 1 && !status.Disabled?
    ensures IsBroken(Then(sh, rest, required), id, required)
  {
    var some;
    if status.Active? {
      some := ClearMeanwhile(sh, p, id, status, required);
    } else {
      some := SignUntilEnough(sh, p, id, status, required);
    }
    var last := SetLast(Then(sh, some, required), p, id, status, required);
    rest := some + last;
    ThenConcat(sh, some, last, required);
  }

  lemma {:induction false} NeverSetsDisabled(statements: seq<Statement>, required: int)
    ensures NoneSetsDisabled(Execution(statements, required))
  {
    if statements != [] {
      NeverSetsDisabled(statements[..|statements| - 1], required);
      OneNeverSetsDisabled(Execution(statements[..|statements| - 1], required), statements[|statements| - 1], required);
    }
  }

  lemma OneNeverSetsDisabled(sh: Shared, s: Statement, required: int)
    requires NoneSetsDisabled(sh)
    ensures NoneSetsDisabled(Execute(sh, s, required))
  {
    var sh' := Execute(sh, s, required);
    forall p | p in sh'.processes && sh'.processes[p].Setting? ensures !sh'.processes[p].status.Disabled? {
      if p in sh.processes && sh.processes[p] == sh'.processes[p] {
        assert !sh.processes[p].status.Disabled?;
      }
    }
  }

  /** The other half: while some process is between its count and its update of a manifest that is not
      disabled, other requests can still come in between so that in the end nobody is working and the status
      is wrong.  So only keeping them out keeps the quorum. */
  lemma OverlapCanBreakQuorum(before: seq<Statement>, p: nat, id: int, required: int)
    requires required >= 1
    requires At(Execution(before, required), p).Setting? && At(Execution(before, required), p).id == id
    requires IsOpen(Execution(before, required).store, id)
    ensures exists rest :: IsBroken(Execution(before + rest, required), id, required)
  {
    var sh := Execution(before, required);
    NeverSetsDisabled(before, required);
    assert p in Busy(sh);
    var some := FinishOthers(sh, p, required);
    var sh1 := Then(sh, some, required);
    var more := BreakAlone(sh1, p, id, At(sh, p).status, required);
    ThenConcat(sh, some, more, required);
    ExecutionThen(before, some + more, required);
  }

  /** And a request that fails with nobody else at work leaves the wrong status at once. */
  lemma AbandoningBreaksQuorum(sh: Shared, p: nat, required: int)
    requires Abandons(sh, GiveUp(p), required)
    ensures var sh' := Execute(sh, GiveUp(p), required);
      !IsWorkedOn(sh', At(sh, p).id) && !IsCurrent(sh', At(sh, p).id, required)
  {
    var sh', id := Execute(sh, GiveUp(p), required), At(sh, p).id;
    if IsWorkedOn(sh', id) {
      var q :| q in sh'.processes && IsWorking(sh', q, id);
      assert q != p && q in sh.processes && IsWorking(sh, q, id);
    }
  }
}
