/** The runner's results tracker: a list in memory, a file for each action in flight, and recovery of the
    one from the other. */
module Runner {
  import opened Common

  datatype Job = Job(entity: string, id: int, expireAfter: int)
  type Path = (string, int)
  datatype Fetch = Fetch(job: Job, time: int)

  function FlightPath(j: Job): Path {
    (j.entity, j.id)
  }

  /** What is on disk, and the history: the jobs marked in flight, and the attempts to fetch results. */
  datatype Moment = Moment(files: map<Path, Job>, registered: set<Job>, fetched: set<Fetch>)

  /** An unparsable delay is ignored. */
  datatype Delay = Unparsable | Delay(d: int)

  function Due(j: Job, delay: Delay): int {
    match delay
    case Unparsable => j.expireAfter
    case Delay(d) => j.expireAfter + d
  }

  ghost predicate WasFetched(m: Moment, j: Job, delay: Delay) {
    exists f :: f in m.fetched && f.job == j && f.time > Due(j, delay)
  }

  ghost predicate DistinctIds(jobs: set<Job>) {
    forall j, k | j in jobs && k in jobs && j.id == k.id :: j == k
  }

  /** The process can die here: every job in flight has its file, or its results were asked for in time. */
  ghost predicate Recoverable(m: Moment, delay: Delay) {
    && DistinctIds(m.registered)
    && (forall p | p in m.files :: m.files[p] in m.registered && FlightPath(m.files[p]) == p)
    && (forall j | j in m.registered :: FlightPath(j) in m.files || WasFetched(m, j, delay))
    && (forall f | f in m.fetched :: f.job in m.registered && f.time > Due(f.job, delay))
  }

  /** Every entry has its file, and action ids are distinct. */
  ghost predicate Tracked(list: seq<Job>, m: Moment, delay: Delay) {
    && Recoverable(m, delay)
    && (forall j | j in list :: FlightPath(j) in m.files && m.files[FlightPath(j)] == j)
    && DistinctList(list)
  }

  predicate DistinctList(list: seq<Job>) {
    forall i, k | 0 <= i < k < |list| :: list[i].id != list[k].id
  }

  predicate IsExpired(j: Job, time: int, delay: Delay) {
    time > Due(j, delay)
  }

  /** The functional filter: what is not yet due by its reading of the clock. */
  function Kept(list: seq<Job>, clock: seq<int>, delay: Delay): (kept: seq<Job>)
    requires |list| <= |clock|
    ensures |kept| <= |list|
    decreases |list|
  {
    if list == [] then []
    else
      var n := |list| - 1;
      Kept(list[..n], clock, delay) + if IsExpired(list[n], clock[n], delay) then [] else [list[n]]
  }

  function Fetches(list: seq<Job>, clock: seq<int>, delay: Delay): set<Fetch>
    requires |list| <= |clock|
  {
    set i | 0 <= i < |list| && IsExpired(list[i], clock[i], delay) :: Fetch(list[i], clock[i])
  }

  function Removed(list: seq<Job>, clock: seq<int>, delay: Delay): set<Path>
    requires |list| <= |clock|
  {
    set i | 0 <= i < |list| && IsExpired(list[i], clock[i], delay) :: FlightPath(list[i])
  }

  // ----- what the steps do to the values -----

  function Registered(m: Moment, nr: Job): Moment {
    Moment(m.files[FlightPath(nr) := nr], m.registered + {nr}, m.fetched)
  }

  lemma RegisteredIsTracked(list: seq<Job>, m: Moment, nr: Job, delay: Delay)
    requires Tracked(list, m, delay) && forall j | j in m.registered :: j.id != nr.id
    ensures Recoverable(Registered(m, nr), delay) && Tracked(list + [nr], Registered(m, nr), delay)
  {
    var m' := Registered(m, nr);
    forall j | j in m'.registered ensures FlightPath(j) in m'.files || WasFetched(m', j, delay) {
      if j != nr && FlightPath(j) !in m.files {
        var f :| f in m.fetched && f.job == j && f.time > Due(j, delay);
        assert f in m'.fetched;
      }
    }
    forall j | j in list ensures m'.files[FlightPath(j)] == j {
      assert m.files[FlightPath(j)] in m.registered;
    }
    forall i | 0 <= i < |list| ensures list[i].id != nr.id {
      assert list[i] in list && m.files[FlightPath(list[i])] in m.registered;
    }
  }

  lemma ScannedIsTracked(list: seq<Job>, m: Moment, p: Path, delay: Delay)
    requires Tracked(list, m, delay) && p in m.files
    ensures (forall j | j in list :: j.id != m.files[p].id) ==> Tracked(list + [m.files[p]], m, delay)
    ensures (exists j | j in list :: j.id == m.files[p].id) ==> m.files[p] in list
  {
    if j :| j in list && j.id == m.files[p].id {
      assert m.files[FlightPath(j)] in m.registered && m.files[p] in m.registered;
    }
  }

  lemma FetchedIsRecoverable(m: Moment, j: Job, time: int, delay: Delay)
    requires Recoverable(m, delay) && j in m.registered && IsExpired(j, time, delay)
    ensures Recoverable(m.(fetched := m.fetched + {Fetch(j, time)}), delay)
  {
    var m' := m.(fetched := m.fetched + {Fetch(j, time)});
    forall k | k in m'.registered ensures FlightPath(k) in m'.files || WasFetched(m', k, delay) {
      if FlightPath(k) !in m.files {
        var f :| f in m.fetched && f.job == k && f.time > Due(k, delay);
        assert f in m'.fetched;
      }
    }
  }

  lemma RemovedIsRecoverable(m: Moment, j: Job, delay: Delay)
    requires Recoverable(m, delay) && j in m.registered && WasFetched(m, j, delay)
    ensures Recoverable(m.(files := m.files - {FlightPath(j)}), delay)
  {
    var m' := m.(files := m.files - {FlightPath(j)});
    var fj :| fj in m.fetched && fj.job == j && fj.time > Due(j, delay);
    forall k | k in m'.registered ensures FlightPath(k) in m'.files || WasFetched(m', k, delay) {
      if FlightPath(k) == FlightPath(j) {
        assert k == j && fj in m'.fetched;
      } else if FlightPath(k) !in m.files {
        var f :| f in m.fetched && f.job == k && f.time > Due(k, delay);
        assert f in m'.fetched;
      }
    }
  }

  lemma {:induction false} KeptAre(list: seq<Job>, clock: seq<int>, delay: Delay)
    requires |list| <= |clock|
    ensures forall j | j in Kept(list, clock, delay) ::
      exists i :: 0 <= i < |list| && list[i] == j && !IsExpired(j, clock[i], delay)
    decreases |list|
  {
    if list != [] {
      KeptAre(list[..|list| - 1], clock, delay);
    }
  }

  lemma {:induction false} KeptHas(list: seq<Job>, clock: seq<int>, delay: Delay)
    requires |list| <= |clock|
    ensures forall i | 0 <= i < |list| && !IsExpired(list[i], clock[i], delay) :: list[i] in Kept(list, clock, delay)
    decreases |list|
  {
    if list != [] {
      var init := list[..|list| - 1];
      KeptHas(init, clock, delay);
      assert forall i | 0 <= i < |init| :: init[i] == list[i];
    }
  }

  lemma OneMoreDistinct(list: seq<Job>, j: Job)
    requires DistinctList(list) && forall k | k in list :: k.id != j.id
    ensures DistinctList(list + [j])
  {
  }

  lemma {:induction false} KeptDistinct(list: seq<Job>, clock: seq<int>, delay: Delay)
    requires |list| <= |clock| && DistinctList(list)
    ensures DistinctList(Kept(list, clock, delay))
    decreases |list|
  {
    if list != [] {
      var init, last := list[..|list| - 1], list[|list| - 1];
      KeptDistinct(init, clock, delay);
      KeptAre(init, clock, delay);
      var kept := Kept(init, clock, delay);
      forall k | k in kept ensures k.id != last.id {
        var i :| 0 <= i < |init| && init[i] == k;
        assert list[i].id != list[|init|].id;
      }
      OneMoreDistinct(kept, last);
      assert Kept(list, clock, delay) == kept || Kept(list, clock, delay) == kept + [last];
    }
  }

  lemma KeptIsTracked(list: seq<Job>, clock: seq<int>, delay: Delay, before: Moment, after: Moment)
    requires |list| <= |clock| && Tracked(list, before, delay) && Recoverable(after, delay)
    requires after.files == before.files - Removed(list, clock, delay)
    ensures Tracked(Kept(list, clock, delay), after, delay)
  {
    KeptDistinct(list, clock, delay);
    KeptAre(list, clock, delay);
    forall j | j in Kept(list, clock, delay) ensures FlightPath(j) in after.files {
      var i :| 0 <= i < |list| && list[i] == j && !IsExpired(j, clock[i], delay);
      forall k | 0 <= k < |list| && IsExpired(list[k], clock[k], delay) ensures FlightPath(list[k]) != FlightPath(j) {
        assert k != i;
      }
    }
  }

  /** Which entries of the list are kept and which are fetched and lose their file: by when they expire, put off by
      the delay if that parses. */
  lemma CollectsExactlyThePast(list: seq<Job>, clock: seq<int>, delay: Delay)
    requires |list| <= |clock| && DistinctList(list)
    ensures forall i | 0 <= i < |list| ::
      var past := clock[i] > list[i].expireAfter + (if delay.Delay? then delay.d else 0);
      && (list[i] in Kept(list, clock, delay) <==> !past)
      && (past <==> Fetch(list[i], clock[i]) in Fetches(list, clock, delay))
      && (past ==> (list[i].entity, list[i].id) in Removed(list, clock, delay))
  {
    KeptAre(list, clock, delay);
    KeptHas(list, clock, delay);
    forall i | 0 <= i < |list|
      ensures list[i] in Kept(list, clock, delay) ==> !IsExpired(list[i], clock[i], delay)
      ensures Fetch(list[i], clock[i]) in Fetches(list, clock, delay) <==> IsExpired(list[i], clock[i], delay)
    {
      if list[i] in Kept(list, clock, delay) {
        var k :| 0 <= k < |list| && list[k] == list[i] && !IsExpired(list[i], clock[k], delay);
        assert k == i;
      }
    }
  }

  class Tracker {
    const delay: Delay
    /** Whether file operations can fail. */
    const faulty: bool
    /** reslist is list[..count]; what lies beyond is stale. */
    var list: array<Job>
    var count: nat
    var files: map<Path, Job>
    ghost var registered: set<Job>
    ghost var fetched: set<Fetch>
    ghost var moments: seq<Moment>

    ghost function Now(): Moment
      reads this
    {
      Moment(files, registered, fetched)
    }

    function Reslist(): seq<Job>
      requires count <= list.Length
      reads this, list
    {
      list[..count]
    }

    ghost predicate Valid()
      reads this, list
    {
      count <= list.Length && Tracked(Reslist(), Now(), delay)
    }

    /** Also a restart after the process died at a moment m. */
    constructor (m: Moment, delay: Delay, faulty: bool)
      requires Recoverable(m, delay)
      ensures Valid() && fresh(list) && Reslist() == [] && Now() == m && moments == []
      ensures this.delay == delay && this.faulty == faulty
    {
      this.delay, this.faulty, list, count := delay, faulty, new Job[0], 0;
      files, registered, fetched, moments := m.files, m.registered, m.fetched, [];
    }

    /** append: in place while there is room, else into a larger array. */
    method Append(j: Job)
      requires count <= list.Length
      modifies this`list, this`count, list
      ensures count == old(count) + 1 <= list.Length && Reslist() == old(Reslist()) + [j]
      ensures list == old(list) || fresh(list)
    {
      if count == list.Length {
        var larger := new Job[2 * count + 1];
        for i := 0 to count
          invariant list == old(list) && count == old(count) == list.Length
          invariant forall k | 0 <= k < i :: larger[k] == list[k]
          invariant forall k | 0 <= k < count :: list[k] == old(list[k])
        {
          larger[i] := list[i];
        }
        list := larger;
      }
      list[count] := j;
      count := count + 1;
    }

    /** A result to monitor: the file is written before the list is extended. */
    method Monitor(nr: Job) returns (ok: bool)
      requires Valid() && forall j | j in registered :: j.id != nr.id
      modifies this, list
      ensures Valid() && (list == old(list) || fresh(list))
      ensures Reslist() == if ok then old(Reslist()) + [nr] else old(Reslist())
      ensures Now() == if ok then Registered(old(Now()), nr) else old(Now())
      ensures ok ==>
        && files == old(files)[(nr.entity, nr.id) := nr] && registered == old(registered) + {nr}
        && fetched == old(fetched)
      ensures !faulty ==> ok
      ensures forall m | m in moments :: m in old(moments) || Recoverable(m, delay)
    {
      ok := Succeeds(faulty);
      if !ok {
        return;
      }
      RegisteredIsTracked(Reslist(), Now(), nr, delay);
      files := files[FlightPath(nr) := nr];
      registered := registered + {nr};
      moments := moments + [Now()];
      Append(nr);
    }

    method IsKnown(rr: Job) returns (found: bool)
      requires count <= list.Length
      ensures found <==> exists j | j in Reslist() :: j.id == rr.id
    {
      found := false;
      for i := 0 to count
        invariant found <==> exists j | j in list[..i] :: j.id == rr.id
      {
        assert list[..i + 1] == list[..i] + [list[i]];
        if list[i].id == rr.id {
          found := true;
        }
      }
    }

    /** order is the order of the directory listing.  A file that cannot be read ends the scan. */
    method ScanInFlight(order: seq<Path>) returns (ok: bool)
      requires Valid() && forall p :: p in order <==> p in files
      modifies this`list, this`count, list
      ensures Valid() && (list == old(list) || fresh(list))
      ensures old(Reslist()) <= Reslist() && count <= old(count) + |order|
      ensures ok ==> forall p | p in files :: files[p] in Reslist()
      ensures !faulty ==> ok
    {
      for n := 0 to |order|
        invariant Valid() && (list == old(list) || fresh(list))
        invariant old(Reslist()) <= Reslist() && count <= old(count) + n
        invariant forall p | p in order[..n] :: files[p] in Reslist()
      {
        var p := order[n];
        assert p in order && order[..n + 1] == order[..n] + [p];
        ok := Succeeds(faulty);
        if !ok {
          return;
        }
        Readopt(p);
      }
      assert order[..|order|] == order;
      ok := true;
    }

    /** One file of the scan: its action is taken up unless it is in the list. */
    method Readopt(p: Path)
      requires Valid() && p in files
      modifies this`list, this`count, list
      ensures Valid() && (list == old(list) || fresh(list))
      ensures old(Reslist()) <= Reslist() && count <= old(count) + 1 && files[p] in Reslist()
    {
      var found := IsKnown(files[p]);
      ScannedIsTracked(Reslist(), Now(), p, delay);
      if !found {
        Append(files[p]);
      }
    }

    /** getResults, then actionComplete. */
    method Finish(x: Job, time: int) returns (alive: bool)
      requires Recoverable(Now(), delay) && x in registered && IsExpired(x, time, delay)
      modifies this`files, this`fetched, this`moments
      ensures fetched == old(fetched) + {Fetch(x, time)}
      ensures files == if alive then old(files) - {FlightPath(x)} else old(files)
      ensures !faulty ==> alive
      ensures Recoverable(Now(), delay)
      ensures forall m | m in moments :: m in old(moments) || Recoverable(m, delay)
    {
      FetchedIsRecoverable(Now(), x, time, delay);
      fetched := fetched + {Fetch(x, time)};
      moments := moments + [Now()];
      alive := Succeeds(faulty);
      if alive {
        assert Fetch(x, time) in Now().fetched;
        RemovedIsRecoverable(Now(), x, delay);
        files := files - {FlightPath(x)};
        moments := moments + [Now()];
      }
    }

    /** i elements of the old list, before, have been looked at; m is the moment this began. */
    ghost predicate Halfway(before: seq<Job>, clock: seq<int>, i: nat, m: Moment)
      requires |before| <= |clock|
      reads this, list
    {
      && count <= i <= |before| <= list.Length
      && list[..count] == Kept(before[..i], clock, delay)
      && list[i..|before|] == before[i..]
      && Now() == Moment(m.files - Removed(before[..i], clock, delay), m.registered,
                         m.fetched + Fetches(before[..i], clock, delay))
      && Recoverable(Now(), delay)
    }

    /** One turn of the loop: what is kept never passes what is read. */
    method Visit(time: int, i: nat, ghost before: seq<Job>, ghost clock: seq<int>, ghost m: Moment)
      returns (alive: bool)
      requires i < |before| <= |clock| && Halfway(before, clock, i, m) && clock[i] == time && before[i] in m.registered
      modifies this`count, this`files, this`fetched, this`moments, list
      ensures alive ==> Halfway(before, clock, i + 1, m)
      ensures !faulty ==> alive
      ensures Recoverable(Now(), delay) && registered == old(registered)
      ensures forall m | m in moments :: m in old(moments) || Recoverable(m, delay)
    {
      assert list[i] == list[i..|before|][0];
      if IsExpired(list[i], time, delay) {
        alive := Drop(i, time, before, clock, m);
      } else {
        Keep(i, before, clock, m);
        alive := true;
      }
    }

    method Drop(i: nat, time: int, ghost before: seq<Job>, ghost clock: seq<int>, ghost m: Moment) returns (alive: bool)
      requires i < |before| <= |clock| && Halfway(before, clock, i, m) && IsExpired(before[i], clock[i], delay)
      requires before[i] in m.registered && time == clock[i]
      modifies this`files, this`fetched, this`moments
      ensures alive ==> Halfway(before, clock, i + 1, m)
      ensures !faulty ==> alive
      ensures Recoverable(Now(), delay)
      ensures forall m | m in moments :: m in old(moments) || Recoverable(m, delay)
    {
      assert list[i] == list[i..|before|][0];
      assert list[i + 1..|before|] == list[i..|before|][1..] == before[i + 1..];
      OneMore(before, clock, delay, i);
      RemoveMore(m.files, Removed(before[..i], clock, delay), FlightPath(before[i]));
      alive := Finish(list[i], time);
    }

    method Keep(i: nat, ghost before: seq<Job>, ghost clock: seq<int>, ghost m: Moment)
      requires i < |before| <= |clock| && Halfway(before, clock, i, m) && !IsExpired(before[i], clock[i], delay)
      modifies this`count, list
      ensures Halfway(before, clock, i + 1, m)
    {
      assert list[i] == list[i..|before|][0];
      OneMore(before, clock, delay, i);
      ghost var rest := list[i + 1..|before|];
      assert rest == list[i..|before|][1..] == before[i + 1..];
      ghost var kept := list[..count];
      list[count] := list[i];
      count := count + 1;
      assert list[..count] == kept + [before[i]];
      assert list[i + 1..|before|] == rest;
    }

    /**
     The in-place rebuild: the list is cut to nothing and refilled from its own array while that is read.
     A fetch that fails is not repeated; a file that cannot be removed ends the process.
     */
    method Rebuild(clock: seq<int>) returns (alive: bool)
      requires Valid() && count <= |clock|
      modifies this`count, this`files, this`fetched, this`moments, list
      ensures !faulty ==> alive
      ensures alive ==> Valid() && Reslist() == Kept(old(Reslist()), clock, delay)
      ensures alive ==> Now() == Moment(old(files) - Removed(old(Reslist()), clock, delay), old(registered),
                                        old(fetched) + Fetches(old(Reslist()), clock, delay))
      ensures Recoverable(Now(), delay) && registered == old(registered)
      ensures forall m | m in moments :: m in old(moments) || Recoverable(m, delay)
    {
      ghost var before, m := Reslist(), Now();
      var n := count;
      count := 0;
      alive := true;
      for i := 0 to n
        invariant Halfway(before, clock, i, m) && registered == m.registered
        invariant forall m | m in moments :: m in old(moments) || Recoverable(m, delay)
      {
        assert before[i] in before && m.files[FlightPath(before[i])] in m.registered;
        alive := Visit(clock[i], i, before, clock, m);
        if !alive {
          return;
        }
      }
      assert before[..n] == before;
      KeptIsTracked(before, clock, delay, m, Now());
    }

    /** Exactly the entries past their expiry, put off by the delay, are fetched and leave the list. */
    method CollectExpired(clock: seq<int>) returns (alive: bool)
      requires Valid() && count <= |clock|
      modifies this`count, this`files, this`fetched, this`moments, list
      ensures !faulty ==> alive
      ensures alive ==> Valid() && Reslist() == Kept(old(Reslist()), clock, delay)
      ensures alive ==> fetched == old(fetched) + Fetches(old(Reslist()), clock, delay)
      ensures alive ==> forall i | 0 <= i < |old(Reslist())| ::
        var j := old(Reslist())[i];
        var past := clock[i] > j.expireAfter + (if delay.Delay? then delay.d else 0);
        (j in Reslist() <==> !past) && (past ==> Fetch(j, clock[i]) in fetched && FlightPath(j) !in files)
      ensures forall f | f in fetched :: f.time > f.job.expireAfter + (if delay.Delay? then delay.d else 0)
      ensures Recoverable(Now(), delay) && registered == old(registered)
      ensures forall m | m in moments :: m in old(moments) || Recoverable(m, delay)
    {
      ghost var before := Reslist();
      alive := Rebuild(clock);
      if alive {
        CollectsExactlyThePast(before, clock, delay);
      }
    }
  }

  /** After five quiet seconds: a scan, even an incomplete one, then the collection. */
  method OnQuiet(t: Tracker, order: seq<Path>, clock: seq<int>, ghost start: int) returns (scanned: bool, alive: bool)
    requires t.Valid() && forall p :: p in order <==> p in t.files
    requires t.count + |order| <= |clock| && forall c | c in clock :: c >= start
    modifies t, t.list
    ensures (alive ==> t.Valid()) && (!t.faulty ==> scanned && alive)
    ensures alive && scanned ==>
      forall j | j in t.registered && j.expireAfter + (if t.delay.Delay? then t.delay.d else 0) < start ::
        exists f :: f in t.fetched && f.job == j && f.time > j.expireAfter + if t.delay.Delay? then t.delay.d else 0
    ensures Recoverable(t.Now(), t.delay) && t.registered == old(t.registered)
    ensures forall m | m in t.moments :: m in old(t.moments) || Recoverable(m, t.delay)
  {
    scanned := t.ScanInFlight(order);
    ghost var list, before := t.Reslist(), t.Now();
    alive := t.CollectExpired(clock);
    if alive && scanned {
      forall j | j in t.registered && j.expireAfter + (if t.delay.Delay? then t.delay.d else 0) < start
        ensures exists f ::
          f in t.fetched && f.job == j && f.time > j.expireAfter + if t.delay.Delay? then t.delay.d else 0
      {
        DueIsFetched(list, clock, t.delay, before, t.Now(), j, start);
      }
    }
  }

  lemma DueIsFetched(list: seq<Job>, clock: seq<int>, delay: Delay, before: Moment, after: Moment, j: Job, start: int)
    requires |list| <= |clock| && Recoverable(before, delay) && j in before.registered
    requires j.expireAfter + (if delay.Delay? then delay.d else 0) < start
    requires (forall p | p in before.files :: before.files[p] in list) && forall c | c in clock :: c >= start
    requires after.fetched == before.fetched + Fetches(list, clock, delay)
    ensures exists f ::
      f in after.fetched && f.job == j && f.time > j.expireAfter + if delay.Delay? then delay.d else 0
  {
    if FlightPath(j) in before.files {
      assert before.files[FlightPath(j)] == j;
      var i :| 0 <= i < |list| && list[i] == j;
      assert clock[i] in clock;
      assert Fetch(j, clock[i]) in after.fetched;
    } else {
      var f :| f in before.fetched && f.job == j && f.time > Due(j, delay);
      assert f in after.fetched;
    }
  }

  lemma RemoveMore(files: map<Path, Job>, some: set<Path>, p: Path)
    ensures files - some - {p} == files - (some + {p})
  {
  }

  lemma OneMore(list: seq<Job>, clock: seq<int>, delay: Delay, i: nat)
    requires i < |list| <= |clock|
    ensures IsExpired(list[i], clock[i], delay) ==>
      && Kept(list[..i + 1], clock, delay) == Kept(list[..i], clock, delay)
      && Fetches(list[..i + 1], clock, delay) == Fetches(list[..i], clock, delay) + {Fetch(list[i], clock[i])}
      && Removed(list[..i + 1], clock, delay) == Removed(list[..i], clock, delay) + {FlightPath(list[i])}
    ensures !IsExpired(list[i], clock[i], delay) ==>
      && Kept(list[..i + 1], clock, delay) == Kept(list[..i], clock, delay) + [list[i]]
      && Fetches(list[..i + 1], clock, delay) == Fetches(list[..i], clock, delay)
      && Removed(list[..i + 1], clock, delay) == Removed(list[..i], clock, delay)
  {
    assert list[..i + 1][..i] == list[..i];
  }
}
