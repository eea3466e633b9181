/** The id generator, the batching loops between the scheduler's channels and its database, and the
    statement that inserts a batch. */
module Batching {
  import opened Common
  import FiniteSets

  // ----- GenID -----

  /** float64 counts in ones below this. */
  const EXACT: int := 0x20_0000_0000_0000

  function Succ(v: int): int {
    if v < EXACT then v + 1 else v
  }

  /** seconds is the clock since the inception of the program, plus one, truncated. */
  function NextId(value: int, seconds: int): int {
    if value < 1 then seconds * 0x1_0000 else Succ(value)
  }

  /** The ids handed out by one process, given what its clock showed at each call. */
  function IdsFrom(value: int, clock: seq<int>): (ids: seq<int>)
    ensures |ids| == |clock|
    decreases |clock|
  {
    if clock == [] then []
    else
      var id := NextId(value, clock[0]);
      [id] + IdsFrom(id, clock[1..])
  }

  ghost predicate Increasing(ids: seq<int>) {
    forall i, j | 0 <= i < j < |ids| :: ids[i] < ids[j]
  }

  /** The first reading of the clock is past the inception of the program, and the ids stay within what
      float64 counts exactly. */
  predicate CanCount(clock: seq<int>) {
    clock != [] ==> clock[0] >= 1 && clock[0] * 0x1_0000 + |clock| <= EXACT
  }

  /** value is the id handed out last, or 0; given and clock are a history. */
  class IdGenerator {
    var value: int
    ghost var given: seq<int>
    ghost var clock: seq<int>

    ghost predicate Valid()
      reads this
    {
      && |given| == |clock| && given == IdsFrom(0, clock)
      && value == if given == [] then 0 else given[|given| - 1]
    }

    constructor ()
      ensures Valid() && given == []
    {
      value, given, clock := 0, [], [];
    }

    /** The first id is the clock's reading shifted by 16 bits.  Whatever the clock shows later, each id is
        greater than all before, as long as the first reading and the number of ids allow for it. */
    method GenID(seconds: int) returns (id: int)
      requires Valid()
      modifies this
      ensures Valid() && given == old(given) + [id] && clock == old(clock) + [seconds]
      ensures old(given) == [] ==> id / 0x1_0000 == seconds && id % 0x1_0000 == 0
      ensures CanCount(clock) ==> forall i | 0 <= i < |old(given)| :: old(given)[i] < id
      ensures CanCount(clock) && old(given) != [] ==> id == old(given)[|old(given)| - 1] + 1
    {
      IdsSnoc(0, clock, seconds);
      given, clock := given + [NextId(value, seconds)], clock + [seconds];
      if CanCount(clock) {
        IdsIncrease(clock);
        assert Increasing(given);
        IdsAre(clock, |clock| - 1);
        if |clock| > 1 {
          IdsAre(clock, |clock| - 2);
        }
        assert forall i | 0 <= i < |old(given)| :: given[i] == old(given)[i] && given[i] < given[|given| - 1];
      }
      if value < 1 {
        var tmpid := seconds * 0x1_0000;
        value := tmpid;
        return value;
      }
      value := if value < EXACT then value + 1 else value;
      return value;
    }
  }

  lemma {:induction false} IdsSnoc(value: int, clock: seq<int>, seconds: int)
    ensures var ids, last := IdsFrom(value, clock), if clock == [] then value else IdsFrom(value, clock)[|clock| - 1];
      IdsFrom(value, clock + [seconds]) == ids + [NextId(last, seconds)]
    decreases |clock|
  {
    if clock == [] {
      assert [seconds][1..] == [];
    } else {
      assert (clock + [seconds])[1..] == clock[1..] + [seconds];
      IdsSnoc(NextId(value, clock[0]), clock[1..], seconds);
    }
  }

  lemma {:induction false} IdsCountUp(value: int, clock: seq<int>, i: nat)
    requires i < |clock| && 1 <= value && value + |clock| <= EXACT
    ensures IdsFrom(value, clock)[i] == value + i + 1
    decreases i
  {
    if i > 0 {
      IdsCountUp(value + 1, clock[1..], i - 1);
    }
  }

  lemma IdsAre(clock: seq<int>, i: nat)
    requires CanCount(clock) && i < |clock|
    ensures IdsFrom(0, clock)[i] == clock[0] * 0x1_0000 + i
  {
    if i > 0 {
      IdsCountUp(clock[0] * 0x1_0000, clock[1..], i - 1);
    }
  }

  /** Whatever the clock does after its first reading, ids only grow, provided that reading is past the
      inception and the ids stay within what float64 counts exactly. */
  lemma IdsIncrease(clock: seq<int>)
    requires CanCount(clock)
    ensures Increasing(IdsFrom(0, clock))
  {
    forall i | 0 <= i < |clock| ensures IdsFrom(0, clock)[i] == clock[0] * 0x1_0000 + i {
      IdsAre(clock, i);
    }
  }

  /** Two calls in the same second give different ids exactly when the generator has been started and
      float64 can still count two up, or is started now by a clock that is past the inception and not too
      far in the future. */
  lemma TwoIdsDifferIff(value: int, seconds: int)
    ensures var ids := IdsFrom(value, [seconds, seconds]);
      ids[0] != ids[1] <==> if value < 1 then 1 <= seconds < EXACT / 0x1_0000 else value + 1 < EXACT
  {
    var clock := [seconds, seconds];
    assert clock[1..] == [seconds] && IdsFrom(value, clock)[1] == IdsFrom(NextId(value, seconds), clock[1..])[0];
  }

  // ----- the batching loops -----

  /** What the pending map holds of the arrivals since the last hand-over: the last value under each key. */
  function LastOf<K, V>(window: seq<(K, V)>): map<K, V> {
    if window == [] then map[]
    else
      var (k, v) := window[|window| - 1];
      LastOf(window[..|window| - 1])[k := v]
  }

  /** list holds the values of m, one for each key, in some order. */
  ghost predicate Lists<K(!new), V>(list: seq<V>, m: map<K, V>) {
    exists keys: seq<K> :: ListsBy(list, m, keys)
  }

  ghost predicate ListsBy<K(!new), V>(list: seq<V>, m: map<K, V>, keys: seq<K>) {
    && |keys| == |list| && DistinctKeys(keys) && (forall k :: k in keys <==> k in m)
    && forall i | 0 <= i < |list| :: list[i] == m[keys[i]]
  }

  predicate DistinctKeys<K(==)>(keys: seq<K>) {
    forall i, j | 0 <= i < j < |keys| :: keys[i] != keys[j]
  }

  function Concat<T>(parts: seq<seq<T>>): seq<T> {
    if parts == [] then [] else Concat(parts[..|parts| - 1]) + parts[|parts| - 1]
  }

  /**
   One select loop: arrivals go into a map and a counter, and the map is handed over when 1024 have
   arrived or a second passes without any.  readyCmd and doneCmd are keyed by command id, returnedCmd by
   the counter.  received, windows and sent are a history.
   */
  class Batcher<K(==, !new), V(==)> {
    var pending: map<K, V>
    var ctr: nat
    ghost var received: seq<(K, V)>
    ghost var windows: seq<seq<(K, V)>>
    ghost var window: seq<(K, V)>
    ghost var sent: seq<seq<V>>

    /** Every arrival is in exactly one window, in order; every closed window of 1 to 1024 arrivals was
        handed over as one list of its last values; the pending map holds the open window's. */
    ghost predicate Valid()
      reads this
    {
      && ctr == |window| < BATCH
      && pending == LastOf(window)
      && received == Concat(windows) + window
      && |sent| == |windows|
      && forall i | 0 <= i < |windows| ::
        1 <= |windows[i]| <= BATCH && sent[i] != [] && Lists(sent[i], LastOf(windows[i]))
    }

    constructor ()
      ensures Valid() && received == [] && sent == []
    {
      pending, ctr, received, windows, window, sent := map[], 0, [], [], [], [];
    }

    method OnArrival(k: K, v: V)
      requires Valid()
      modifies this
      ensures Valid() && received == old(received) + [(k, v)]
      ensures if |old(window)| + 1 < 1024 then window == old(window) + [(k, v)] && windows == old(windows)
              else window == [] && windows == old(windows) + [old(window) + [(k, v)]]
    {
      ctr := ctr + 1;
      pending := pending[k := v];
      received := received + [(k, v)];
      window := window + [(k, v)];
      assert window[..|window| - 1] == old(window);
      if ctr >= BATCH {
        HandOver();
        ctr := 0;
      }
    }

    method OnQuiet()
      requires Valid()
      modifies this
      ensures Valid() && received == old(received) && window == []
      ensures windows == if old(window) == [] then old(windows) else old(windows) + [old(window)]
    {
      if ctr > 0 {
        HandOver();
      }
      ctr := 0;
    }

    /** sendFunction, returnFunc or updateFunc: ranges over the map into a list. */
    method HandOver()
      requires 1 <= |window| <= BATCH && pending == LastOf(window) && received == Concat(windows) + window
      requires |sent| == |windows|
      requires forall i | 0 <= i < |windows| ::
        1 <= |windows[i]| <= BATCH && sent[i] != [] && Lists(sent[i], LastOf(windows[i]))
      modifies this`pending, this`windows, this`window, this`sent
      ensures pending == map[] && window == [] && windows == old(windows) + [old(window)]
      ensures received == Concat(windows) && |sent| == |windows| && sent[..|old(sent)|] == old(sent)
      ensures forall i | 0 <= i < |windows| ::
        1 <= |windows[i]| <= BATCH && sent[i] != [] && Lists(sent[i], LastOf(windows[i]))
    {
      var list: seq<V> := [];
      var rest := pending;
      ghost var keys: seq<K> := [];
      while rest.Keys != {}
        invariant |keys| == |list| && DistinctKeys(keys)
        invariant forall k :: k in pending <==> k in keys || k in rest
        invariant forall k | k in rest :: k !in keys && rest[k] == pending[k]
        invariant forall i | 0 <= i < |list| :: keys[i] in pending && list[i] == pending[keys[i]]
        decreases |rest|
      {
        var k :| k in rest.Keys;
        list := list + [rest[k]];
        keys := keys + [k];
        rest := rest - {k};
      }
      assert ListsBy(list, pending, keys);
      assert window[|window| - 1].0 in pending;
      sent := sent + [list];
      windows := windows + [window];
      assert windows[..|windows| - 1] == old(windows);
      pending := map[];
      window := [];
    }
  }

  function KeysOf<K, V>(window: seq<(K, V)>): seq<K> {
    seq(|window|, i requires 0 <= i < |window| => window[i].0)
  }

  function ValuesOf<K, V>(window: seq<(K, V)>): seq<V> {
    seq(|window|, i requires 0 <= i < |window| => window[i].1)
  }

  /** The returned-commands loop: the key is the counter itself. */
  method OnFile<V(==)>(loop: Batcher<nat, V>, file: V)
    requires loop.Valid() && AllCounted(loop.windows) && Counted(loop.window)
    modifies loop
    ensures loop.Valid() && AllCounted(loop.windows) && Counted(loop.window)
    ensures ValuesOf(loop.received) == old(ValuesOf(loop.received)) + [file]
  {
    loop.OnArrival(loop.ctr + 1, file);
  }

  /** Numbered 1, 2, 3 and so on. */
  ghost predicate Counted<V>(window: seq<(nat, V)>) {
    forall i | 0 <= i < |window| :: window[i].0 == i + 1
  }

  ghost predicate AllCounted<V>(windows: seq<seq<(nat, V)>>) {
    forall w | w in windows :: Counted(w)
  }

  // ----- what the loops conserve -----

  /** Under a key that has come, the map holds the value that came with it last. */
  lemma {:induction false} LastOfIsLast<K, V>(window: seq<(K, V)>, i: nat)
    requires i < |window| && forall j | i < j < |window| :: window[j].0 != window[i].0
    ensures window[i].0 in LastOf(window) && LastOf(window)[window[i].0] == window[i].1
    decreases |window|
  {
    var init := window[..|window| - 1];
    if i < |init| {
      assert init[i] == window[i] && window[|init|].0 != window[i].0;
      LastOfIsLast(init, i);
    }
  }

  lemma {:induction false} LastOfDistinct<K, V>(window: seq<(K, V)>)
    requires DistinctKeys(KeysOf(window))
    ensures forall k :: k in LastOf(window) <==> k in KeysOf(window)
    ensures forall i | 0 <= i < |window| :: window[i].0 in LastOf(window) && LastOf(window)[window[i].0] == window[i].1
  {
    if window != [] {
      var init, last := window[..|window| - 1], window[|window| - 1];
      assert KeysOf(window) == KeysOf(init) + [last.0];
      forall i, j | 0 <= i < j < |init| ensures KeysOf(init)[i] != KeysOf(init)[j] {
        assert KeysOf(window)[i] != KeysOf(window)[j];
      }
      LastOfDistinct(init);
      forall i | 0 <= i < |init| ensures window[i].0 != last.0 {
        assert KeysOf(window)[i] != KeysOf(window)[|init|];
      }
    }
  }

  lemma {:induction false} SameKeysSameValues<K(!new), V>(m: map<K, V>, keys: seq<K>, list: seq<V>, keys': seq<K>,
                                                list': seq<V>)
    requires ListsBy(list, m, keys) && ListsBy(list', m, keys')
    ensures multiset(list) == multiset(list')
    decreases |keys|
  {
    ListSize(list, m, keys);
    ListSize(list', m, keys');
    if keys == [] {
      assert list == [] && list' == [];
    } else {
      var n := |keys| - 1;
      assert keys[n] in keys;
      var j :| 0 <= j < |keys'| && keys'[j] == keys[n];
      WithoutOne(m, keys, list, n);
      WithoutOne(m, keys', list', j);
      SameKeysSameValues(m - {keys[n]}, Without(keys, n), Without(list, n), Without(keys', j), Without(list', j));
      WithAndWithout(list, n);
      WithAndWithout(list', j);
    }
  }

  function Without<T>(s: seq<T>, j: nat): seq<T>
    requires j < |s|
  {
    s[..j] + s[j + 1..]
  }

  lemma WithAndWithout<T>(s: seq<T>, j: nat)
    requires j < |s|
    ensures multiset(s) == multiset(Without(s, j)) + multiset{s[j]}
  {
    assert s == s[..j] + [s[j]] + s[j + 1..];
  }

  lemma WithoutOne<K(!new), V>(m: map<K, V>, keys: seq<K>, list: seq<V>, j: nat)
    requires ListsBy(list, m, keys) && j < |keys|
    ensures ListsBy(Without(list, j), m - {keys[j]}, Without(keys, j))
  {
    var fewer := Without(keys, j);
    forall k ensures k in fewer <==> k in m - {keys[j]} {
      if k in m - {keys[j]} {
        var i :| 0 <= i < |keys| && keys[i] == k;
        assert fewer[if i < j then i else i - 1] == k;
      }
    }
  }

  lemma {:induction false} LastOfSize<K, V>(window: seq<(K, V)>)
    ensures |LastOf(window)| <= |window|
    ensures |LastOf(window)| == |window| ==> DistinctKeys(KeysOf(window))
    ensures forall k :: k in LastOf(window) <==> k in KeysOf(window)
  {
    if window != [] {
      var init, k := window[..|window| - 1], window[|window| - 1].0;
      LastOfSize(init);
      assert KeysOf(window) == KeysOf(init) + [k];
      assert LastOf(window).Keys == LastOf(init).Keys + {k};
    }
  }

  lemma ListSize<K(!new), V>(list: seq<V>, m: map<K, V>, keys: seq<K>)
    requires ListsBy(list, m, keys)
    ensures |list| == |m|
  {
    FiniteSets.DistinctSize(keys);
    assert FiniteSets.Elements(keys) == m.Keys;
  }

  /** A window is handed over complete, each value as often as it arrived, exactly when no key came twice;
      otherwise something is missing. */
  lemma HandedOverIff<K(!new), V>(window: seq<(K, V)>, list: seq<V>)
    requires Lists(list, LastOf(window))
    ensures multiset(list) == multiset(ValuesOf(window)) <==> DistinctKeys(KeysOf(window))
    ensures |list| <= |window| && (|list| == |window| <==> DistinctKeys(KeysOf(window)))
  {
    var keys :| ListsBy(list, LastOf(window), keys);
    ListSize(list, LastOf(window), keys);
    LastOfSize(window);
    assert |multiset(list)| == |list| && |multiset(ValuesOf(window))| == |window|;
    if DistinctKeys(KeysOf(window)) {
      DistinctAreHandedOver(window, list, keys);
    }
  }

  lemma DistinctAreHandedOver<K(!new), V>(window: seq<(K, V)>, list: seq<V>, keys: seq<K>)
    requires ListsBy(list, LastOf(window), keys) && DistinctKeys(KeysOf(window))
    ensures multiset(list) == multiset(ValuesOf(window)) && |list| == |window|
  {
    LastOfDistinct(window);
    assert ListsBy(ValuesOf(window), LastOf(window), KeysOf(window));
    SameKeysSameValues(LastOf(window), keys, list, KeysOf(window), ValuesOf(window));
    assert |multiset(list)| == |list| && |multiset(ValuesOf(window))| == |window|;
  }

  /** Over the whole life of a loop: what was handed over and what is pending make up what was received,
      exactly when no key came twice within a window. */
  lemma {:induction false} StreamConservedIff<K(!new), V>(windows: seq<seq<(K, V)>>, sent: seq<seq<V>>)
    requires |sent| == |windows|
    requires forall i | 0 <= i < |windows| :: Lists(sent[i], LastOf(windows[i]))
    ensures |Concat(sent)| <= |Concat(windows)|
    ensures (multiset(Concat(sent)) == multiset(ValuesOf(Concat(windows)))
       <==> forall w | w in windows :: DistinctKeys(KeysOf(w)))
    ensures |Concat(sent)| == |Concat(windows)| <==> forall w | w in windows :: DistinctKeys(KeysOf(w))
  {
    if windows != [] {
      var n := |windows| - 1;
      var init, last := windows[..n], windows[n];
      StreamConservedIff(init, sent[..n]);
      HandedOverIff(last, sent[n]);
      assert windows == init + [last];
      assert ValuesOf(Concat(windows)) == ValuesOf(Concat(init)) + ValuesOf(last);
      assert |multiset(Concat(sent))| == |Concat(sent)| && |multiset(ValuesOf(Concat(windows)))| == |Concat(windows)|;
    }
  }

  lemma {:induction false} ConcatKeys<K, V>(windows: seq<seq<(K, V)>>, i: nat)
    requires DistinctKeys(KeysOf(Concat(windows))) && i < |windows|
    ensures DistinctKeys(KeysOf(windows[i]))
    decreases |windows|
  {
    var n := |windows| - 1;
    var init, last := windows[..n], windows[n];
    var all := KeysOf(Concat(windows));
    assert all == KeysOf(Concat(init)) + KeysOf(last);
    if i < n {
      assert KeysOf(Concat(init)) == all[..|Concat(init)|];
      ConcatKeys(init, i);
    } else {
      assert KeysOf(last) == all[|Concat(init)|..];
    }
  }

  /** Commands with distinct ids are conserved. */
  lemma CommandsWithFreshIdsAreConserved<V>(windows: seq<seq<(int, V)>>, window: seq<(int, V)>, sent: seq<seq<V>>)
    requires |sent| == |windows|
    requires forall i | 0 <= i < |windows| :: Lists(sent[i], LastOf(windows[i]))
    requires DistinctKeys(KeysOf(Concat(windows) + window))
    ensures multiset(Concat(sent)) + multiset(ValuesOf(window)) == multiset(ValuesOf(Concat(windows) + window))
  {
    EachWindowIsDistinct(windows, window);
    StreamConservedIff(windows, sent);
    ValuesConcat(Concat(windows), window);
  }

  lemma EachWindowIsDistinct<V>(windows: seq<seq<(int, V)>>, window: seq<(int, V)>)
    requires DistinctKeys(KeysOf(Concat(windows) + window))
    ensures forall w | w in windows :: DistinctKeys(KeysOf(w))
  {
    assert KeysOf(Concat(windows)) == KeysOf(Concat(windows) + window)[..|Concat(windows)|];
    forall w | w in windows ensures DistinctKeys(KeysOf(w)) {
      var i :| 0 <= i < |windows| && windows[i] == w;
      ConcatKeys(windows, i);
    }
  }

  lemma ValuesConcat<K, V>(a: seq<(K, V)>, b: seq<(K, V)>)
    ensures ValuesOf(a + b) == ValuesOf(a) + ValuesOf(b)
  {
  }

  /** Keys that are ids of one process, each from a call of its own. */
  ghost predicate AreIdsOf(keys: seq<int>, clock: seq<int>, calls: seq<nat>) {
    && |calls| == |keys| && DistinctKeys(calls)
    && forall i | 0 <= i < |keys| :: calls[i] < |clock| && keys[i] == IdsFrom(0, clock)[calls[i]]
  }

  /** Commands keyed by ids of one process are conserved, whatever its other goroutines take ids for: those
      received so far are those handed over and those pending, each once. */
  lemma CommandsOfOneProcessAreConserved<V>(clock: seq<int>, calls: seq<nat>,
                                            windows: seq<seq<(int, V)>>, window: seq<(int, V)>, sent: seq<seq<V>>)
    requires CanCount(clock) && AreIdsOf(KeysOf(Concat(windows) + window), clock, calls)
    requires |sent| == |windows|
    requires forall i | 0 <= i < |windows| :: Lists(sent[i], LastOf(windows[i]))
    ensures multiset(Concat(sent)) + multiset(ValuesOf(window)) == multiset(ValuesOf(Concat(windows) + window))
  {
    var keys := KeysOf(Concat(windows) + window);
    IdsIncrease(clock);
    forall i, j | 0 <= i < j < |keys| ensures keys[i] != keys[j] {
      assert calls[i] != calls[j];
    }
    CommandsWithFreshIdsAreConserved(windows, window, sent);
  }

  /** Returned files are keyed by the counter, so none is ever lost. */
  lemma ReturnedFilesAreConserved<V>(windows: seq<seq<(nat, V)>>, sent: seq<seq<V>>)
    requires |sent| == |windows| && AllCounted(windows)
    requires forall i | 0 <= i < |windows| :: Lists(sent[i], LastOf(windows[i]))
    ensures multiset(Concat(sent)) == multiset(ValuesOf(Concat(windows)))
  {
    StreamConservedIff(windows, sent);
  }
}
