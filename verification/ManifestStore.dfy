/** The manifest tables of the database and the API requests that change them. */
module ManifestStore {
  import opened Common
  import FiniteSets

  datatype Status = Staged | Active | Disabled
  datatype Manifest = Manifest(name: string, content: string, target: string, status: Status)

  /** signatures is keyed by its unique index: manifest and investigator. */
  datatype Store = Store(manifests: map<int, Manifest>, signatures: map<(int, int), string>, nextId: int)

  const EMPTY := Store(map[], map[], 1)

  datatype Request =
    | Add(name: string, content: string, target: string)
    | Sign(id: int, investigator: int, signature: string)
    | Stage(id: int)
    | Disable(id: int)

  function Signers(st: Store, id: int): set<int> {
    set k | k in st.signatures && k.0 == id :: k.1
  }

  /** Those under whose key the manifest has a signature. */
  lemma SignersHaveSigned(st: Store, id: int, investigator: int)
    ensures investigator in Signers(st, id) <==> (id, investigator) in st.signatures
  {
  }

  predicate IsOpen(st: Store, id: int) {
    id in st.manifests && !st.manifests[id].status.Disabled?
  }

  function WithStatus(st: Store, id: int, status: Status): Store
    requires id in st.manifests
  {
    st.(manifests := st.manifests[id := st.manifests[id].(status := status)])
  }

  function StatusFor(count: nat, required: int): Status {
    if count >= required then Active else Staged
  }

  function Refreshed(st: Store, id: int, required: int): Store {
    if IsOpen(st, id) then WithStatus(st, id, StatusFor(|Signers(st, id)|, required)) else st
  }

  function Signed(st: Store, id: int, investigator: int, signature: string): Store {
    st.(signatures := st.signatures[(id, investigator) := signature])
  }

  predicate CanSign(st: Store, id: int, investigator: int) {
    IsOpen(st, id) && (id, investigator) !in st.signatures
  }

  function Cleared(st: Store, id: int): Store {
    st.(signatures := map k | k in st.signatures && k.0 != id :: st.signatures[k])
  }

  /** What a request makes of the tables when nothing comes between its statements. */
  function Apply(st: Store, r: Request, required: int): Store {
    match r
    case Add(name, content, target) =>
      st.(manifests := st.manifests[st.nextId := Manifest(name, content, target, Staged)], nextId := st.nextId + 1)
    case Sign(id, investigator, signature) =>
      if !CanSign(st, id, investigator) then st
      else Refreshed(Signed(st, id, investigator, signature), id, required)
    case Stage(id) => Refreshed(Cleared(st, id), id, required)
    case Disable(id) => if id in st.manifests then WithStatus(st, id, Disabled) else st
  }

  class ManifestTables {
    /** Whether the database can fail. */
    const faulty: bool
    var manifests: map<int, Manifest>
    var signatures: map<(int, int), string>
    var nextId: int

    function Contents(): Store
      reads this
    {
      Store(manifests, signatures, nextId)
    }

    constructor (faulty: bool)
      ensures Contents() == EMPTY && this.faulty == faulty
    {
      this.faulty, manifests, signatures, nextId := faulty, map[], map[], 1;
    }

    method ManifestAdd(name: string, content: string, target: string) returns (ok: bool)
      modifies this
      ensures !faulty ==> ok
      ensures Contents() == if ok then Apply(old(Contents()), Add(name, content, target), 0) else old(Contents())
    {
      ok := Succeeds(faulty);
      if ok {
        manifests := manifests[nextId := Manifest(name, content, target, Staged)];
        nextId := nextId + 1;
      }
    }

    /** Two statements: if the second fails, the signature is there and the status is not refreshed. */
    method ManifestAddSignature(id: int, signature: string, investigator: int, required: int) returns (ok: bool)
      modifies this
      ensures ok ==> old(CanSign(Contents(), id, investigator))
      ensures !faulty ==> (ok <==> old(CanSign(Contents(), id, investigator)))
      ensures ok ==> Contents() == Apply(old(Contents()), Sign(id, investigator, signature), required)
      ensures ok ==> signatures == old(signatures)[(id, investigator) := signature]
      ensures ok ==> var count := |set k | k in signatures && k.0 == id :: k.1|;
        manifests == old(manifests)[id := old(manifests)[id].(status := if count >= required then Active else Staged)]
      ensures !ok && !faulty ==> Contents() == old(Contents())
      ensures !ok && old(!CanSign(Contents(), id, investigator)) ==> Contents() == old(Contents())
      ensures !ok ==> Contents() in {old(Contents()), Signed(old(Contents()), id, investigator, signature)}
    {
      ok := Succeeds(faulty);
      if !ok || (id, investigator) in signatures {
        return false;
      }
      if !(id in manifests && manifests[id].status != Disabled) {
        return false;
      }
      signatures := signatures[(id, investigator) := signature];
      ok := ManifestUpdateStatus(id, required);
    }

    method ManifestDisable(id: int) returns (ok: bool)
      modifies this
      ensures !faulty ==> ok
      ensures Contents() == if ok then Apply(old(Contents()), Disable(id), 0) else old(Contents())
    {
      ok := Succeeds(faulty);
      if ok && id in manifests {
        manifests := manifests[id := manifests[id].(status := Disabled)];
      }
    }

    method ManifestUpdateStatus(id: int, required: int) returns (ok: bool)
      modifies this`manifests
      ensures !faulty ==> ok
      ensures Contents() == if ok then Refreshed(old(Contents()), id, required) else old(Contents())
    {
      ok := Succeeds(faulty);
      if !ok {
        return;
      }
      var cnt := |set k | k in signatures && k.0 == id :: k.1|;
      var status := Staged;
      if cnt >= required {
        status := Active;
      }
      ok := Succeeds(faulty);
      if ok && id in manifests && manifests[id].status != Disabled {
        manifests := manifests[id := manifests[id].(status := status)];
      }
    }

    method ManifestClearSignatures(id: int) returns (ok: bool)
      modifies this`signatures
      ensures !faulty ==> ok
      ensures Contents() == if ok then Cleared(old(Contents()), id) else old(Contents())
    {
      ok := Succeeds(faulty);
      if ok {
        signatures := map k | k in signatures && k.0 != id :: signatures[k];
      }
    }

    /** The "staged" case of the status endpoint; it can stop between its two statements. */
    method StageManifest(id: int, required: int) returns (ok: bool)
      modifies this
      ensures !faulty ==> ok
      ensures ok ==> Contents() == Apply(old(Contents()), Stage(id), required)
      ensures ok ==> forall k :: k in signatures <==> k in old(signatures) && k.0 != id
      ensures ok ==> forall k | k in signatures :: signatures[k] == old(signatures)[k]
      ensures !ok ==> faulty && (Contents() == old(Contents()) || Contents() == Cleared(old(Contents()), id))
    {
      ok := ManifestClearSignatures(id);
      if ok {
        ok := ManifestUpdateStatus(id, required);
      }
    }
  }

  // ----- runs of whole requests -----

  function Run(requests: seq<Request>, required: int): Store {
    if requests == [] then EMPTY
    else Apply(Run(requests[..|requests| - 1], required), requests[|requests| - 1], required)
  }

  /** Signatures belong to manifests, and ids yet to be given out are unused. */
  ghost predicate IsConsistent(st: Store) {
    && (forall id | id in st.manifests :: id < st.nextId)
    && (forall k | k in st.signatures :: k.0 in st.manifests)
  }

  ghost predicate Quorum(st: Store, required: int) {
    forall id | IsOpen(st, id) :: st.manifests[id].status.Active? <==> |Signers(st, id)| >= required
  }

  lemma OtherSigners(st: Store, st': Store, r: Request, required: int, id: int)
    requires IsConsistent(st) && st' == Apply(st, r, required)
    requires r.Add? || r.id != id
    ensures id in st.manifests ==> Signers(st', id) == Signers(st, id)
    ensures r.Add? && id == st.nextId ==> Signers(st', id) == {}
  {
  }

  lemma RequestKeepsQuorum(st: Store, r: Request, required: int)
    requires IsConsistent(st) && Quorum(st, required) && required >= 1
    ensures IsConsistent(Apply(st, r, required)) && Quorum(Apply(st, r, required), required)
  {
    var st' := Apply(st, r, required);
    forall id | IsOpen(st', id) ensures st'.manifests[id].status.Active? <==> |Signers(st', id)| >= required {
      if r.Add? || r.id != id {
        OtherSigners(st, st', r, required, id);
      }
    }
  }

  /** Over every sequence of requests: a manifest that is not disabled is active exactly when enough
      distinct investigators have signed it. */
  lemma {:induction false} QuorumOverRuns(requests: seq<Request>, required: int)
    requires required >= 1
    ensures IsConsistent(Run(requests, required)) && Quorum(Run(requests, required), required)
  {
    if requests != [] {
      QuorumOverRuns(requests[..|requests| - 1], required);
      RequestKeepsQuorum(Run(requests[..|requests| - 1], required), requests[|requests| - 1], required);
    }
  }

  /** The requirement must be at least one: otherwise a new manifest has enough signatures and stays staged. */
  lemma QuorumNeedsARequirement(required: int)
    ensures (forall requests :: Quorum(Run(requests, required), required)) <==> required >= 1
  {
    if required >= 1 {
      forall requests ensures Quorum(Run(requests, required), required) {
        QuorumOverRuns(requests, required);
      }
    } else {
      var requests := StagedWithEnough(required);
      assert !Quorum(Run(requests, required), required);
    }
  }

  lemma StagedWithEnough(required: int) returns (requests: seq<Request>)
    requires required < 1
    ensures !Quorum(Run(requests, required), required)
  {
    requests := [Add("m", "c", "t")];
    var init, st := requests[..|requests| - 1], Run(requests, required);
    assert init == [] && Run(init, required) == EMPTY;
    assert st == Apply(EMPTY, requests[0], required);
    assert IsOpen(st, 1) && !st.manifests[1].status.Active? && |Signers(st, 1)| >= 0;
  }

  /** Once disabled, always disabled, and it takes no further signature. */
  lemma {:induction false} DisabledIsForever(before: seq<Request>, after: seq<Request>, required: int, id: int)
    requires id in Run(before, required).manifests && Run(before, required).manifests[id].status.Disabled?
    ensures id in Run(before + after, required).manifests
    ensures Run(before + after, required).manifests[id].status.Disabled?
    ensures Signers(Run(before + after, required), id) <= Signers(Run(before, required), id)
    decreases |after|
  {
    if after == [] {
      assert before + after == before;
    } else {
      var init, last := after[..|after| - 1], after[|after| - 1];
      DisabledIsForever(before, init, required, id);
      Consistent(before + init, required);
      var all := before + after;
      assert all[..|all| - 1] == before + init && all[|all| - 1] == last;
      var st := Run(before + init, required);
      assert id != st.nextId;
      if last.Add? || last.id != id {
        OtherSigners(st, Apply(st, last, required), last, required, id);
      }
    }
  }

  lemma {:induction false} Consistent(requests: seq<Request>, required: int)
    ensures IsConsistent(Run(requests, required))
  {
    if requests != [] {
      Consistent(requests[..|requests| - 1], required);
    }
  }

  // ----- runs of single statements -----

  /** Where one API process stands between the statements of a request. */
  datatype Process = Idle | Counting(id: int) | Setting(id: int, status: Status)

  datatype Statement =
    | Whole(r: Request)                                            // Add and Disable are one statement
    | Insert(p: nat, id: int, investigator: int, signature: string)
    | Clear(p: nat, id: int)
    | Count(p: nat)
    | Set(p: nat)
    | GiveUp(p: nat)                                               // a statement of p fails

  datatype Shared = Shared(store: Store, processes: map<nat, Process>)

  function At(sh: Shared, p: nat): Process {
    if p in sh.processes then sh.processes[p] else Idle
  }

  function Execute(sh: Shared, s: Statement, required: int): Shared {
    match s
    case Whole(r) => if r.Add? || r.Disable? then sh.(store := Apply(sh.store, r, required)) else sh
    case Insert(p, id, investigator, signature) =>
      if !At(sh, p).Idle? || !CanSign(sh.store, id, investigator) then sh
      else Shared(Signed(sh.store, id, investigator, signature), sh.processes[p := Counting(id)])
    case Clear(p, id) =>
      if !At(sh, p).Idle? then sh else Shared(Cleared(sh.store, id), sh.processes[p := Counting(id)])
    case Count(p) =>
      if !At(sh, p).Counting? then sh
      else
        var id := At(sh, p).id;
        sh.(processes := sh.processes[p := Setting(id, StatusFor(|Signers(sh.store, id)|, required))])
    case Set(p) =>
      if !At(sh, p).Setting? then sh
      else
        var id, status := At(sh, p).id, At(sh, p).status;
        Shared(if IsOpen(sh.store, id) then WithStatus(sh.store, id, status) else sh.store, sh.processes[p := Idle])
    case GiveUp(p) => sh.(processes := sh.processes[p := Idle])
  }

  function Execution(statements: seq<Statement>, required: int): Shared {
    if statements == [] then Shared(EMPTY, map[])
    else Execute(Execution(statements[..|statements| - 1], required), statements[|statements| - 1], required)
  }

  function Then(sh: Shared, statements: seq<Statement>, required: int): Shared
    decreases |statements|
  {
    if statements == [] then sh
    else Then(Execute(sh, statements[0], required), statements[1..], required)
  }

  /** Uninterrupted, the statements of a request make of the tables what the whole request does. */
  lemma UninterruptedIsWhole(sh: Shared, p: nat, id: int, investigator: int, signature: string, required: int)
    requires At(sh, p).Idle?
    ensures Then(sh, [Insert(p, id, investigator, signature), Count(p), Set(p)], required).store
         == Apply(sh.store, Sign(id, investigator, signature), required)
    ensures Then(sh, [Clear(p, id), Count(p), Set(p)], required).store == Apply(sh.store, Stage(id), required)
  {
    var sign := [Insert(p, id, investigator, signature), Count(p), Set(p)];
    var stage := [Clear(p, id), Count(p), Set(p)];
    ThreeSteps(sh, sign, required);
    ThreeSteps(sh, stage, required);
  }

  lemma ThreeSteps(sh: Shared, statements: seq<Statement>, required: int)
    requires |statements| == 3
    ensures Then(sh, statements, required)
         == Execute(Execute(Execute(sh, statements[0], required), statements[1], required), statements[2], required)
  {
    var two, one, none: seq<Statement> := statements[1..], statements[2..], statements[3..];
    assert two[1..] == one && one[1..] == none && none == [];
    var sh1 := Execute(sh, statements[0], required);
    var sh2 := Execute(sh1, statements[1], required);
    assert Then(sh, statements, required) == Then(sh1, two, required);
    assert Then(sh1, two, required) == Then(sh2, one, required);
    assert Then(sh2, one, required) == Then(Execute(sh2, statements[2], required), none, required);
  }

  ghost predicate OnceHadQuorum(statements: seq<Statement>, required: int, id: int) {
    exists n :: 0 <= n <= |statements| && |Signers(Execution(statements[..n], required).store, id)| >= required
  }

  lemma OnceMore(statements: seq<Statement>, last: Statement, required: int, id: int)
    requires OnceHadQuorum(statements, required, id)
    ensures OnceHadQuorum(statements + [last], required, id)
  {
    var n :| 0 <= n <= |statements| && |Signers(Execution(statements[..n], required).store, id)| >= required;
    assert (statements + [last])[..n] == statements[..n];
  }

  lemma OnceNow(statements: seq<Statement>, required: int, id: int)
    requires |Signers(Execution(statements, required).store, id)| >= required
    ensures OnceHadQuorum(statements, required, id)
  {
    assert statements[..|statements|] == statements;
  }

  /** In every interleaving of any number of API processes, a manifest is active, or about to be made so,
      only if at some moment it had enough signatures. */
  lemma {:induction false} ActiveOnceHadQuorum(statements: seq<Statement>, required: int)
    ensures var sh := Execution(statements, required);
      && (forall id | id in sh.store.manifests && sh.store.manifests[id].status.Active? ::
            OnceHadQuorum(statements, required, id))
      && (forall p | p in sh.processes && sh.processes[p].Setting? && sh.processes[p].status.Active? ::
            OnceHadQuorum(statements, required, sh.processes[p].id))
  {
    if statements != [] {
      var init, last := statements[..|statements| - 1], statements[|statements| - 1];
      ActiveOnceHadQuorum(init, required);
      assert statements == init + [last];
      var before, sh := Execution(init, required), Execution(statements, required);
      forall id | OnceHadQuorum(init, required, id) ensures OnceHadQuorum(statements, required, id) {
        OnceMore(init, last, required, id);
      }
      if last.Count? && At(before, last.p).Counting? && |Signers(before.store, At(before, last.p).id)| >= required {
        OnceNow(statements, required, At(before, last.p).id);
      }
    }
  }

  predicate AreUsed(st: Store) {
    forall id | id in st.manifests :: id < st.nextId
  }

  lemma {:induction false} IdsAreUsed(statements: seq<Statement>, required: int)
    ensures AreUsed(Execution(statements, required).store)
  {
    if statements != [] {
      IdsAreUsed(statements[..|statements| - 1], required);
      IdsStayUsed(Execution(statements[..|statements| - 1], required), statements[|statements| - 1], required);
    }
  }

  lemma IdsStayUsed(sh: Shared, s: Statement, required: int)
    requires AreUsed(sh.store)
    ensures AreUsed(Execute(sh, s, required).store)
  {
  }

  lemma StatementKeepsDisabled(sh: Shared, s: Statement, required: int, id: int)
    requires id in sh.store.manifests && sh.store.manifests[id].status.Disabled? && id < sh.store.nextId
    ensures var st := Execute(sh, s, required).store; id in st.manifests && st.manifests[id].status.Disabled?
    ensures Signers(Execute(sh, s, required).store, id) <= Signers(sh.store, id)
  {
  }

  /** In every interleaving too, a disabled manifest stays so and takes no further signature, also while processes that
      have counted its signatures before are about to set its status. */
  lemma {:induction false} DisabledInEveryInterleaving(before: seq<Statement>, after: seq<Statement>, required: int,
                                                       id: int)
    requires id in Execution(before, required).store.manifests
    requires Execution(before, required).store.manifests[id].status.Disabled?
    ensures id in Execution(before + after, required).store.manifests
    ensures Execution(before + after, required).store.manifests[id].status.Disabled?
    ensures Signers(Execution(before + after, required).store, id) <= Signers(Execution(before, required).store, id)
    decreases |after|
  {
    if after == [] {
      assert before + after == before;
    } else {
      var init, last, all := after[..|after| - 1], after[|after| - 1], before + after;
      DisabledInEveryInterleaving(before, init, required, id);
      IdsAreUsed(before + init, required);
      assert all[..|all| - 1] == before + init && all[|all| - 1] == last;
      StatementKeepsDisabled(Execution(before + init, required), last, required, id);
    }
  }

  /** Process 0 has inserted the only signature of manifest 1, and counted it. */
  lemma CountedOne() returns (counted: seq<Statement>)
    ensures Execution(counted, 1).store
         == Store(map[1 := Manifest("m", "c", "t", Staged)], map[(1, 7) := "sig"], 2)
    ensures Execution(counted, 1).processes == map[0 := Setting(1, Active)]
  {
    var added := Grow([], Whole(Add("m", "c", "t")));
    var signed := Grow(added, Insert(0, 1, 7, "sig"));
    assert Signers(Execution(signed, 1).store, 1) == {7};
    counted := Grow(signed, Count(0));
  }

  /** Then process 1 has cleared the signatures, and counted none. */
  lemma ClearedAndCounted() returns (recounted: seq<Statement>)
    ensures Execution(recounted, 1).store == Store(map[1 := Manifest("m", "c", "t", Staged)], map[], 2)
    ensures Execution(recounted, 1).processes == map[0 := Setting(1, Active), 1 := Setting(1, Staged)]
  {
    var counted := CountedOne();
    var cleared := Grow(counted, Clear(1, 1));
    recounted := Grow(cleared, Count(1));
  }

  /** But two processes can leave a manifest active with no signature: one has counted, the other clears. */
  lemma InterleavingBreaksQuorum()
    ensures exists statements ::
      var sh := Execution(statements, 1);
      && (forall p | p in sh.processes :: sh.processes[p].Idle?)
      && IsOpen(sh.store, 1) && sh.store.manifests[1].status.Active? && Signers(sh.store, 1) == {}
  {
    var recounted := ClearedAndCounted();
    var staged := Grow(recounted, Set(1));
    var activated := Grow(staged, Set(0));
    assert Signers(Execution(activated, 1).store, 1) == {};
  }

  lemma Grow(statements: seq<Statement>, s: Statement) returns (longer: seq<Statement>)
    ensures longer == statements + [s] && Execution(longer, 1) == Execute(Execution(statements, 1), s, 1)
  {
    longer := statements + [s];
    assert longer[..|longer| - 1] == statements;
  }
}
