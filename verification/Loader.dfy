/** The loader's comparison of the installed bundle with the manifest, and its staged file replacement. */
module Loader {
  import opened Common

  datatype File = File(data: string, perm: nat)
  type Disk = map<string, File>

  datatype ManifestEntry = ManifestEntry(name: string, sha256: string)
  datatype BundleEntry = BundleEntry(name: string, path: string, sha256: string, perm: nat)

  function Staged(path: string): string {
    path + ".loader"
  }

  function Former(path: string): string {
    path + ".old"
  }

  predicate IsFirst(entries: seq<ManifestEntry>, name: string, i: int) {
    0 <= i < |entries| && entries[i].name == name && forall j | 0 <= j < i :: entries[j].name != name
  }

  /** The first manifest entry of that name. */
  function Find(entries: seq<ManifestEntry>, name: string): (found: Option<ManifestEntry>)
    ensures found.None? <==> forall x | x in entries :: x.name != name
    ensures found.Some? ==> exists i :: IsFirst(entries, name, i) && entries[i] == found.value
  {
    if entries == [] then None
    else if entries[0].name == name then
      assert IsFirst(entries, name, 0);
      Some(entries[0])
    else
      var found := Find(entries[1..], name);
      assert forall i :: IsFirst(entries[1..], name, i) ==> IsFirst(entries, name, i + 1);
      found
  }

  // ----- what holds at every moment of a replacement -----

  predicate Same(before: Disk, now: Disk, path: string) {
    (path in before <==> path in now) && (path in before ==> before[path].data == now[path].data)
  }

  /** The path holds its former file or verified new content, or else the former file is beside it. */
  predicate Safe(hash: string -> string, before: Disk, now: Disk, path: string, sha256: string) {
    || Same(before, now, path)
    || (path in now && hash(now[path].data) == sha256)
    || (path !in now && path in before && Former(path) in now && now[Former(path)].data == before[path].data)
  }

  ghost predicate OnlyBeside(before: Disk, now: Disk, path: string) {
    forall p | p !in {path, Staged(path), Former(path)} :: Same(before, now, p)
  }

  /** A moment of the replacement of path. */
  ghost predicate Moment(hash: string -> string, before: Disk, now: Disk, path: string, sha256: string) {
    Safe(hash, before, now, path, sha256) && OnlyBeside(before, now, path)
  }

  /** Nothing but the staged file has changed. */
  predicate OnlyStaged(before: Disk, now: Disk, path: string) {
    && (forall p | p in before && p != Staged(path) :: p in now && now[p] == before[p])
    && (forall p | p in now && p != Staged(path) :: p in before)
  }

  lemma ThreePaths(path: string)
    ensures path != Staged(path) && path != Former(path) && Staged(path) != Former(path)
  {
    assert Staged(path)[|path| + 1] != Former(path)[|path| + 1];
  }

  lemma StagingIsSafe(hash: string -> string, before: Disk, now: Disk, path: string, sha256: string)
    requires OnlyStaged(before, now, path)
    ensures Moment(hash, before, now, path, sha256)
  {
    ThreePaths(path);
    forall p | p !in {path, Staged(path), Former(path)} ensures Same(before, now, p) {
      assert p in before <==> p in now;
    }
  }

  lemma SafeAfterStaging(hash: string -> string, before: Disk, staged: Disk, now: Disk, path: string, sha256: string)
    requires OnlyStaged(before, staged, path) && Moment(hash, staged, now, path, sha256)
    ensures Moment(hash, before, now, path, sha256)
  {
    ThreePaths(path);
    forall p | p !in {path, Staged(path), Former(path)} ensures Same(before, now, p) {
      assert Same(staged, now, p);
    }
  }

  class Machine {
    var disk: Disk
    var haveChanges: bool
    /** Whether system calls can fail for reasons of their own. */
    const faulty: bool
    const hash: string -> string
    const manifest: seq<ManifestEntry>
    /** Every state the disk has been in. */
    ghost var moments: seq<Disk>

    constructor (disk: Disk, hash: string -> string, manifest: seq<ManifestEntry>, faulty: bool)
      ensures this.disk == disk && this.hash == hash && this.manifest == manifest && this.faulty == faulty
      ensures !haveChanges && moments == [disk]
    {
      this.disk, this.hash, this.manifest, this.faulty := disk, hash, manifest, faulty;
      this.haveChanges, this.moments := false, [disk];
    }

    // ----- system calls -----

    method OpenTruncated(path: string, perm: nat) returns (ok: bool)
      modifies this`disk, this`moments
      ensures ok ==> disk == old(disk)[path := File("", if path in old(disk) then old(disk)[path].perm else perm)]
      ensures !ok ==> disk == old(disk)
      ensures moments == old(moments) + [disk] && (!faulty ==> ok)
    {
      ok := Succeeds(faulty);
      if ok {
        disk := disk[path := File("", if path in disk then disk[path].perm else perm)];
      }
      moments := moments + [disk];
    }

    /** Writes all of data, or fails after some of it; either way some of it is there first. */
    method Write(path: string, data: string) returns (ok: bool)
      requires path in disk
      modifies this`disk, this`moments
      ensures path in disk && disk == old(disk)[path := disk[path]] && disk[path].perm == old(disk)[path].perm
      ensures (ok ==> disk[path].data == data) && (!faulty ==> ok)
      ensures |moments| > |old(moments)| && moments[..|old(moments)|] == old(moments)
      ensures forall i | |old(moments)| <= i < |moments| ::
        path in moments[i] && moments[i] == old(disk)[path := moments[i][path]]
    {
      var some: int := *;
      disk := disk[path := disk[path].(data := if 0 <= some <= |data| then data[..some] else data)];
      moments := moments + [disk];
      ok := Succeeds(faulty);
      if ok {
        disk := disk[path := disk[path].(data := data)];
        moments := moments + [disk];
      }
    }

    method ReadAll(path: string) returns (data: Option<string>)
      ensures data.Some? ==> path in disk && data.value == disk[path].data
      ensures !faulty && path in disk ==> data.Some?
    {
      var readable := Succeeds(faulty);
      data := if readable && path in disk then Some(disk[path].data) else None;
    }

    method Rename(from: string, to: string) returns (ok: bool)
      requires from != to
      modifies this`disk, this`moments
      ensures ok ==> from in old(disk) && disk == old(disk)[to := old(disk)[from]] - {from}
      ensures !ok ==> disk == old(disk)
      ensures moments == old(moments) + [disk] && (!faulty && from in old(disk) ==> ok)
    {
      ok := Succeeds(faulty);
      ok := ok && from in disk;
      if ok {
        disk := disk[to := disk[from]] - {from};
      }
      moments := moments + [disk];
    }

    // ----- fetchAndReplace -----

    /** The new content is written beside the path and read back: nothing else changes. */
    method Stage(entry: BundleEntry, sha256: string, content: string) returns (ok: bool)
      modifies this`disk, this`moments
      ensures ok ==> Staged(entry.path) in disk && disk[Staged(entry.path)].data == content && hash(content) == sha256
      ensures ok ==> disk[Staged(entry.path)].perm == NewPerm(old(disk), entry)
      ensures |moments| >= |old(moments)| && moments[..|old(moments)|] == old(moments)
      ensures OnlyStaged(old(disk), disk, entry.path) && (!faulty ==> (ok <==> hash(content) == sha256))
      ensures forall i | |old(moments)| <= i < |moments| :: OnlyStaged(old(disk), moments[i], entry.path)
    {
      var reppath := Staged(entry.path);
      ok := OpenTruncated(reppath, entry.perm);
      if !ok {
        return;
      }
      ok := Write(reppath, content);
      if !ok {
        return;
      }
      var staged := ReadAll(reppath);
      ok := staged.Some? && sha256 == hash(staged.value);
    }

    /** The two renames; the outcome of the first is not looked at. */
    method Install(path: string, sha256: string) returns (ok: bool)
      requires Staged(path) in disk && hash(disk[Staged(path)].data) == sha256
      modifies this`disk, this`moments
      ensures ok ==> path in disk && disk[path] == old(disk)[Staged(path)]
      ensures !faulty ==> ok && Staged(path) !in disk
      ensures !faulty && path in old(disk) ==> Former(path) in disk && disk[Former(path)] == old(disk)[path]
      ensures |moments| >= |old(moments)| && moments[..|old(moments)|] == old(moments)
      ensures Moment(hash, old(disk), disk, path, sha256)
      ensures forall i | |old(moments)| <= i < |moments| :: Moment(hash, old(disk), moments[i], path, sha256)
    {
      ThreePaths(path);
      var _ := Rename(path, Former(path));
      ok := Rename(Staged(path), path);
    }

    /** fetched is whatever the API served. */
    method FetchAndReplace(entry: BundleEntry, sha256: string, fetched: Option<string>) returns (ok: bool)
      modifies this`disk, this`moments
      ensures ok ==>
        && entry.path in disk && fetched.Some? && hash(fetched.value) == sha256
        && disk[entry.path] == File(fetched.value, NewPerm(old(disk), entry))
      ensures |moments| >= |old(moments)| && moments[..|old(moments)|] == old(moments)
      ensures Moment(hash, old(disk), disk, entry.path, sha256)
      ensures forall i | |old(moments)| <= i < |moments| :: Moment(hash, old(disk), moments[i], entry.path, sha256)
      ensures fetched.Some? && hash(fetched.value) != sha256 ==> OnlyStaged(old(disk), disk, entry.path)
      ensures !faulty ==> (ok <==> fetched.Some? && hash(fetched.value) == sha256)
      ensures (!faulty && ok && entry.path in old(disk) ==>
        Former(entry.path) in disk && disk[Former(entry.path)].data == old(disk)[entry.path].data)
    {
      if fetched.None? {
        return false;
      }
      ThreePaths(entry.path);
      ghost var start, before := |moments|, disk;
      ok := Stage(entry, sha256, fetched.value);
      ghost var mid := |moments|;
      ghost var staged := disk;
      forall d | OnlyStaged(before, d, entry.path) ensures Moment(hash, before, d, entry.path, sha256) {
        StagingIsSafe(hash, before, d, entry.path, sha256);
      }
      if !ok {
        return;
      }
      ok := Install(entry.path, sha256);
      forall d | Moment(hash, staged, d, entry.path, sha256) ensures Moment(hash, before, d, entry.path, sha256) {
        SafeAfterStaging(hash, before, staged, d, entry.path, sha256);
      }
      forall i | start <= i < |moments| ensures Moment(hash, before, moments[i], entry.path, sha256) {
        if i < mid {
          assert moments[i] == moments[..mid][i];
        }
      }
    }

    // ----- HashBundle -----

    ghost function Checksum(e: BundleEntry): string
      reads this
    {
      if e.path in disk then hash(disk[e.path].data) else e.sha256
    }

    /** Fills in the checksums in place.  The entry of a missing file keeps the checksum it came with. */
    method HashBundle(b: array<BundleEntry>) returns (ok: bool)
      modifies b
      ensures ok ==> forall i | 0 <= i < b.Length :: b[i] == old(b[i]).(sha256 := Checksum(old(b[i])))
      ensures !faulty ==> ok
    {
      for i := 0 to b.Length
        invariant forall j | 0 <= j < i :: b[j] == old(b[j]).(sha256 := Checksum(old(b[j])))
        invariant forall j | i <= j < b.Length :: b[j] == old(b[j])
      {
        if b[i].path in disk {
          var data := ReadAll(b[i].path);
          if data.None? {
            return false;
          }
          b[i] := b[i].(sha256 := hash(data.value));
        }
      }
      ok := true;
    }

    // ----- checkEntry and compareManifest -----

    method EntryPermCheck(entry: BundleEntry) returns (ok: bool)
      modifies this`disk, this`moments
      ensures ok ==>
        entry.path in old(disk) && disk == old(disk)[entry.path := old(disk)[entry.path].(perm := entry.perm)]
      ensures !ok ==> disk == old(disk)
      ensures moments == old(moments) + [disk] && (!faulty && entry.path in old(disk) ==> ok)
    {
      ok := Succeeds(faulty);
      ok := ok && entry.path in disk;
      if ok && disk[entry.path].perm != entry.perm {
        disk := disk[entry.path := disk[entry.path].(perm := entry.perm)];
      }
      moments := moments + [disk];
    }

    /** served is what the API serves for the entry, should that be asked for. */
    method CheckEntry(entry: BundleEntry, served: Option<string>) returns (ok: bool)
      modifies this`disk, this`haveChanges, this`moments
      ensures |moments| >= |old(moments)| && moments[..|old(moments)|] == old(moments)
      ensures match Find(manifest, entry.name)
        case None => ok && disk == old(disk) && moments == old(moments) && haveChanges == old(haveChanges)
        case Some(m) =>
          && (ok ==> HasEntry(hash, old(disk), disk, entry, m))
          && haveChanges == (old(haveChanges) || m.sha256 != entry.sha256)
          && (!faulty ==> (ok <==> CanBeDone(hash, old(disk), entry, m, served)))
          && Moment(hash, old(disk), disk, entry.path, m.sha256)
          && forall i | |old(moments)| <= i < |moments| :: Moment(hash, old(disk), moments[i], entry.path, m.sha256)
    {
      var compare := ManifestEntry("", "");
      var found := false;
      for i := 0 to |manifest|
        invariant !found && Find(manifest, entry.name) == Find(manifest[i..], entry.name)
      {
        if manifest[i].name == entry.name {
          compare := manifest[i];
          found := true;
          break;
        }
        assert manifest[i..][1..] == manifest[i + 1..];
      }
      if !found {
        return true;
      }
      if entry.sha256 == compare.sha256 {
        ok := EntryPermCheck(entry);
        return;
      }
      haveChanges := true;
      ok := FetchAndReplace(entry, compare.sha256, served);
    }

    /** Brings every bundle entry the manifest names to the manifest's content, one after the other; without faults
        it fails only for a file that is not there, or not served with the manifest's checksum. */
    method CompareManifest(have: seq<BundleEntry>, served: seq<Option<string>>) returns (ok: bool)
      requires Separate(have) && Hashed(hash, disk, have) && |served| == |have|
      modifies this`disk, this`haveChanges, this`moments
      ensures ok ==> forall e | e in have :: UpToDate(hash, manifest, old(disk), disk, e)
      ensures !faulty ==>
        (ok <==> forall k | 0 <= k < |have| :: AllGoesWell(hash, manifest, old(disk), have[k], served[k]))
      ensures ok ==> (haveChanges <==> old(haveChanges) || exists e | e in have :: Differs(manifest, e))
      ensures |moments| >= |old(moments)| && moments[..|old(moments)|] == old(moments)
      ensures forall i | |old(moments)| <= i < |moments| :: AllSafe(hash, manifest, old(disk), moments[i], have)
      ensures AllSafe(hash, manifest, old(disk), disk, have)
      ensures forall p | IsElsewhere(have, p) :: Same(old(disk), disk, p)
    {
      ghost var start := disk;
      ghost var first := |moments|;
      for k := 0 to |have|
        invariant forall j | 0 <= j < k :: UpToDate(hash, manifest, start, disk, have[j])
        invariant forall j | k <= j < |have| :: Same(start, disk, have[j].path)
        invariant !faulty ==> forall j | 0 <= j < k :: AllGoesWell(hash, manifest, start, have[j], served[j])
        invariant haveChanges <==> old(haveChanges) || exists j | 0 <= j < k :: Differs(manifest, have[j])
        invariant |moments| >= first && moments[..first] == old(moments)
        invariant forall i | first <= i < |moments| :: AllSafe(hash, manifest, start, moments[i], have)
        invariant forall p | IsElsewhere(have, p) :: Same(start, disk, p)
      {
        ghost var before, reached := disk, |moments|;
        assert forall e | e in have :: Settled(hash, manifest, start, before, e);
        ok := CheckEntry(have[k], served[k]);
        CheckedEntry(hash, manifest, have, k, start, before, disk, ok);
        forall i | first <= i < |moments| ensures AllSafe(hash, manifest, start, moments[i], have) {
          if i < reached {
            assert moments[i] == moments[..reached][i];
          } else {
            var m := Find(manifest, have[k].name).value;
            SafeMeanwhile(hash, manifest, have, k, start, before, moments[i], m);
          }
        }
        if !ok {
          return;
        }
      }
      ok := true;
    }
  }

  // ----- a whole bundle -----

  /** After a check that succeeded. */
  predicate HasEntry(hash: string -> string, before: Disk, now: Disk, e: BundleEntry, m: ManifestEntry) {
    && e.path in now
    && if e.sha256 == m.sha256 then Same(before, now, e.path) && now[e.path].perm == e.perm
       else hash(now[e.path].data) == m.sha256 && now[e.path].perm == NewPerm(before, e)
  }

  /** A staged file left by an earlier run keeps its permissions. */
  function NewPerm(before: Disk, e: BundleEntry): nat {
    if e.path + ".loader" in before then before[e.path + ".loader"].perm else e.perm
  }

  /** What checking an entry needs to succeed, besides the system calls. */
  predicate CanBeDone(hash: string -> string, before: Disk, e: BundleEntry, m: ManifestEntry, served: Option<string>) {
    if e.sha256 == m.sha256 then e.path in before else served.Some? && hash(served.value) == m.sha256
  }

  predicate AllGoesWell(hash: string -> string, manifest: seq<ManifestEntry>, before: Disk, e: BundleEntry,
                        served: Option<string>)
  {
    match Find(manifest, e.name)
    case None => true
    case Some(m) => CanBeDone(hash, before, e, m, served)
  }

  predicate Separate(have: seq<BundleEntry>) {
    forall i, j | 0 <= i < |have| && 0 <= j < |have| && i != j ::
      have[i].path !in {have[j].path, Staged(have[j].path), Former(have[j].path)}
  }

  /** HashBundle has filled in the checksums: empty for a file that is not there. */
  predicate Hashed(hash: string -> string, disk: Disk, have: seq<BundleEntry>) {
    forall e | e in have :: e.sha256 == if e.path in disk then hash(disk[e.path].data) else ""
  }

  predicate Differs(manifest: seq<ManifestEntry>, e: BundleEntry) {
    Find(manifest, e.name).Some? && Find(manifest, e.name).value.sha256 != e.sha256
  }

  predicate UpToDate(hash: string -> string, manifest: seq<ManifestEntry>, before: Disk, now: Disk, e: BundleEntry) {
    match Find(manifest, e.name)
    case None => Same(before, now, e.path)
    case Some(m) => e.path in now && hash(now[e.path].data) == m.sha256
  }

  predicate EntrySafe(hash: string -> string, manifest: seq<ManifestEntry>, before: Disk, now: Disk, e: BundleEntry) {
    match Find(manifest, e.name)
    case None => Same(before, now, e.path)
    case Some(m) => Safe(hash, before, now, e.path, m.sha256)
  }

  predicate AllSafe(hash: string -> string, manifest: seq<ManifestEntry>, before: Disk, now: Disk,
                    have: seq<BundleEntry>)
  {
    forall e | e in have :: EntrySafe(hash, manifest, before, now, e)
  }

  /** Not touched yet, or done. */
  predicate Settled(hash: string -> string, manifest: seq<ManifestEntry>, before: Disk, now: Disk, e: BundleEntry) {
    Same(before, now, e.path) || UpToDate(hash, manifest, before, now, e)
  }

  predicate IsElsewhere(have: seq<BundleEntry>, p: string) {
    forall e | e in have :: p !in {e.path, Staged(e.path), Former(e.path)}
  }

  /** What checking entry k does to the bundle and to the rest of the disk. */
  lemma CheckedEntry(hash: string -> string, manifest: seq<ManifestEntry>, have: seq<BundleEntry>, k: nat,
                     start: Disk, before: Disk, now: Disk, ok: bool)
    requires Separate(have) && Hashed(hash, start, have) && k < |have|
    requires forall j | 0 <= j < k :: UpToDate(hash, manifest, start, before, have[j])
    requires forall j | k <= j < |have| :: Same(start, before, have[j].path)
    requires forall p | IsElsewhere(have, p) :: Same(start, before, p)
    requires match Find(manifest, have[k].name)
      case None => ok && now == before
      case Some(m) =>
        (ok ==> HasEntry(hash, before, now, have[k], m)) && Moment(hash, before, now, have[k].path, m.sha256)
    ensures AllSafe(hash, manifest, start, now, have)
    ensures forall p | IsElsewhere(have, p) :: Same(start, now, p)
    ensures ok ==> forall j | 0 <= j <= k :: UpToDate(hash, manifest, start, now, have[j])
    ensures ok ==> forall j | k < j < |have| :: Same(start, now, have[j].path)
  {
    assert have[k] in have;
    assert forall e | e in have :: Settled(hash, manifest, start, before, e);
    match Find(manifest, have[k].name)
    case None =>
    case Some(m) =>
      SafeMeanwhile(hash, manifest, have, k, start, before, now, m);
      forall p | IsElsewhere(have, p) ensures Same(start, now, p) {
        assert Same(before, now, p);
      }
  }

  /** While entry k is replaced, every entry stays safe. */
  lemma SafeMeanwhile(hash: string -> string, manifest: seq<ManifestEntry>, have: seq<BundleEntry>, k: nat,
                      start: Disk, before: Disk, now: Disk, m: ManifestEntry)
    requires Separate(have) && k < |have| && Find(manifest, have[k].name) == Some(m)
    requires forall e | e in have :: Settled(hash, manifest, start, before, e)
    requires Same(start, before, have[k].path)
    requires Moment(hash, before, now, have[k].path, m.sha256)
    ensures AllSafe(hash, manifest, start, now, have)
    ensures forall j | 0 <= j < |have| && j != k :: Same(before, now, have[j].path)
  {
    forall j | 0 <= j < |have| ensures EntrySafe(hash, manifest, start, now, have[j]) {
      assert have[j] in have;
      if j != k {
        assert Same(before, now, have[j].path);
      }
    }
  }

  /** The filled-in bundle describes the disk exactly when no missing file came with a checksum, so the
      dictionary is to be hashed once only. */
  lemma HashedIffFresh(hash: string -> string, disk: Disk, b: seq<BundleEntry>, filled: seq<BundleEntry>)
    requires |filled| == |b|
    requires forall i | 0 <= i < |b| ::
      filled[i] == b[i].(sha256 := if b[i].path in disk then hash(disk[b[i].path].data) else b[i].sha256)
    ensures Hashed(hash, disk, filled) <==> forall i | 0 <= i < |b| && b[i].path !in disk :: b[i].sha256 == ""
  {
    if Hashed(hash, disk, filled) {
      forall i | 0 <= i < |b| && b[i].path !in disk ensures b[i].sha256 == "" {
        assert filled[i] in filled;
      }
    }
  }

  /** Neither ".loader" nor ".old" ends the path. */
  predicate IsPlain(path: string) {
    |path| >= 7 && path[|path| - 7] != '.' && (path[|path| - 4] != '.' || path[|path| - 1] != 'd')
  }

  /** Different paths without those endings, such as the bundle dictionaries list, do not interfere. */
  lemma PlainIsSeparate(have: seq<BundleEntry>)
    requires forall e | e in have :: IsPlain(e.path)
    requires forall i, j | 0 <= i < j < |have| :: have[i].path != have[j].path
    ensures Separate(have)
  {
    forall i, j | 0 <= i < |have| && 0 <= j < |have| && i != j
      ensures have[i].path !in {have[j].path, Staged(have[j].path), Former(have[j].path)}
    {
      var p, q := have[i].path, have[j].path;
      assert have[i] in have && have[j] in have;
      assert Staged(q)[|q|] == '.' && |Staged(q)| == |q| + 7;
      assert Former(q)[|q|] == '.' && |Former(q)| == |q| + 4 && Former(q)[|q| + 3] == 'd';
      assert p != q by {
        if i < j {
        } else {
          assert have[j].path != have[i].path;
        }
      }
    }
  }
}
