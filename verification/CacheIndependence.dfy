/** What one asset's lookups, stores and invalidations leave alone: everything of the others. So what
    was stored stays there until something is done about it. */
module CacheIndependence {
  import opened Common
  import opened TransferSettings
  import opened CacheState
  import opened CacheIntegrity

  // ---- what the cache holds of one key ----

  function FileAt(disk: Disk, p: Path): Option<File> { if p in disk then Some(disk[p]) else None }

  function RecordAt(assets: Assets, k: Key): Option<Asset> { if k in assets then Some(assets[k]) else None }

  datatype View = View(record: Option<Asset>, standard: Option<File>, wav: Option<File>)

  function ViewOf(c: Cache, k: Key): View {
    View(RecordAt(Load(c).assets, k), FileAt(c.disk, AssetPath(k, false)), FileAt(c.disk, AssetPath(k, true)))
  }

  predicate OwnRecords(assets: Assets) { forall k :: k in assets ==> OwnPath(k, assets[k].path) }

  // Records use their own key's file names, and the manifest holds those of the index that it can.
  predicate Tidy(c: Cache) {
    && OwnRecords(Flatten(c.manifest)) && OwnRecords(Load(c).assets)
    && (c.loaded ==> Flatten(c.manifest) == NamedKinds(c.assets))
  }

  lemma EmptyIsTidy()
    ensures Tidy(EMPTY_CACHE)
  {
  }

  lemma LoadTidy(c: Cache)
    requires Tidy(c)
    ensures Tidy(Load(c)) && Load(c).loaded && Load(Load(c)) == Load(c)
  {
    hide Nest, OwnPath, Offers, ModelOf;
    assert !c.loaded ==> NamedKinds(Flatten(c.manifest)) == Flatten(c.manifest) by {
      FlattenIsNamed(c.manifest);
    }
    hide Flatten;
  }

  lemma FlattenIsNamed(m: Manifest)
    ensures NamedKinds(Flatten(m)) == Flatten(m)
  {
    hide KindOf, ModelOf, ParseModelId, NameOf;
    forall k | k in Flatten(m)
      ensures KindOf(k) <= 7
    {
      FlattenAt(m, k);
      var text :| text in Offered(m, k);
      assert Offers(m, text, k);
    }
  }

  lemma SaveTidy(c: Cache)
    requires c.loaded && OwnRecords(c.assets)
    ensures Tidy(Save(c))
  {
    hide Nest, Flatten, OwnPath, KindOf;
    ManifestRoundTrip(c.assets);
  }

  lemma DiskTidy(c: Cache, disk: Disk)
    requires Tidy(c)
    ensures Tidy(c.(disk := disk))
  {
    hide Flatten, OwnRecords, NamedKinds;
  }

  // A lookup sees no more than that.
  lemma SameViewSameLookup(hash: Hash, cfg: Settings, c: Cache, c': Cache, k: Key, expected: string, now: int,
                           locked: set<Path>, readable: bool)
    requires Tidy(c) && Tidy(c') && ViewOf(c, k) == ViewOf(c', k)
    ensures
      var r, r' := TryGet(hash, cfg, c, k, expected, now, locked, readable),
                   TryGet(hash, cfg, c', k, expected, now, locked, readable);
      && r'.path == r.path
      && (r.path.Some? ==>
            && OwnPath(k, r.path.value)
            && FileAt(r'.cache.disk, r.path.value) == FileAt(r.cache.disk, r.path.value))
  {
    hide Nest, Flatten, AssetPath, SameIgnoringCase, KindOf, NamedKinds;
    assert k in Load(c).assets ==> OwnPath(k, Load(c).assets[k].path);
  }

  // ---- operations on another key ----

  // Only files of k's own names differ.
  ghost predicate TouchesOnly(k: Key, disk: Disk, disk': Disk) {
    forall p :: !OwnPath(k, p) ==> FileAt(disk', p) == FileAt(disk, p)
  }

  // Only k's record and files differ.
  ghost predicate Local(k: Key, c: Cache, c': Cache) {
    && TouchesOnly(k, c.disk, c'.disk)
    && forall j :: j != k ==> RecordAt(Load(c').assets, j) == RecordAt(Load(c).assets, j)
  }

  lemma LocalKeepsViews(k: Key, c: Cache, c': Cache, j: Key)
    requires Local(k, c, c') && j != k
    ensures ViewOf(c', j) == ViewOf(c, j)
  {
    hide AssetPath, Load;
    OthersPath(k, j, AssetPath(j, false));
    OthersPath(k, j, AssetPath(j, true));
  }

  lemma OthersPath(k: Key, j: Key, p: Path)
    requires j != k && OwnPath(j, p)
    ensures !OwnPath(k, p)
  {
    hide AssetPath;
    if OwnPath(k, p) {
      OwnPathInjective(j, k, p);
    }
  }

  lemma GetIsLocal(hash: Hash, cfg: Settings, c: Cache, k: Key, expected: string, now: int, locked: set<Path>,
                   readable: bool)
    requires Tidy(c)
    ensures
      var c' := TryGet(hash, cfg, c, k, expected, now, locked, readable).cache;
      Local(k, c, c') && Tidy(c')
  {
    hide Nest, Flatten, AssetPath, SameIgnoringCase, KindOf, Tidy;
    LoadTidy(c);
    var c1 := Load(c);
    assert OwnRecords(c1.assets) by { TidyOwns(c1); }
    if cfg.cacheEnabled {
      if k in c1.assets {
        var c2 := c1.(disk := Remove(c1.disk, c1.assets[k].path, locked));
        SaveTidy(c2.(assets := c1.assets - {k}));
      } else {
        var p := FallbackPath(c1.disk, k);
        DiskTidy(c1, Remove(c1.disk, p, locked));
        if p in c1.disk {
          var bytes := c1.disk[p].bytes;
          SaveTidy(c1.(assets := c1.assets[k := Asset(hash(bytes), p, |bytes|, now)]));
        }
      }
    }
  }

  lemma TidyOwns(c: Cache)
    requires Tidy(c)
    ensures OwnRecords(Load(c).assets)
  {
  }

  lemma PutIsLocal(hash: Hash, cfg: Settings, c: Cache, k: Key, bytes: seq<byte>, sha: string, result: WriteResult,
                   now: int)
    requires Tidy(c)
    ensures
      var c' := Store(hash, cfg, c, k, bytes, sha, result, now).cache;
      Local(k, c, c') && Tidy(c')
  {
    hide Nest, Flatten, AssetPath, KindOf, Tidy, IsRiff;
    LoadTidy(c);
    var c1, p := Load(c), StorePath(k, bytes);
    assert OwnRecords(c1.assets) by { TidyOwns(c1); }
    DiskTidy(c1, c1.disk - {p});
    var a := Asset(if sha == "" then hash(bytes) else sha, p, |bytes|, now);
    SaveTidy(c1.(disk := c1.disk[p := File(bytes, now)], assets := c1.assets[k := a]));
  }

  lemma DropIsLocal(c: Cache, k: Key, locked: set<Path>)
    requires Tidy(c)
    ensures Local(k, c, Invalidate(c, k, locked)) && Tidy(Invalidate(c, k, locked))
  {
    hide Nest, Flatten, AssetPath, KindOf, Tidy;
    LoadTidy(c);
    var c1 := Load(c);
    assert OwnRecords(c1.assets) by { TidyOwns(c1); }
    var c2 := if k in c1.assets then Forget(c1.(disk := Remove(c1.disk, c1.assets[k].path, locked)), k) else c1;
    if k in c1.assets {
      SaveTidy(c1.(disk := c2.disk, assets := c1.assets - {k}));
    }
    DiskTidy(c2, Invalidate(c, k, locked).disk);
  }

  // The key that an operation is about, if it is about one.
  predicate Concerns(op: Op, k: Key) { (op.Get? || op.Put? || op.Drop?) && op.k == k }

  lemma OneKeyIsLocal(hash: Hash, cfg: Settings, c: Cache, op: Op, k: Key)
    requires Tidy(c) && Concerns(op, k)
    ensures Local(k, c, Apply(hash, cfg, c, op)) && Tidy(Apply(hash, cfg, c, op))
  {
    hide Local, Tidy, TryGet, Store, Invalidate;
    match op
    case Get(_, expected, now, locked, readable) => GetIsLocal(hash, cfg, c, k, expected, now, locked, readable);
    case Put(_, bytes, sha, result, now) => PutIsLocal(hash, cfg, c, k, bytes, sha, result, now);
    case Drop(_, locked) => DropIsLocal(c, k, locked);
  }

  /** A lookup, a store, whatever becomes of its write, or an invalidation of one key leaves every other
      key's record and files as they were; so a lookup of another key, under any hash, finds what it
      would have found before, and the same file there. */
  lemma OthersKeepTheirLookup(hash: Hash, cfg: Settings, c: Cache, op: Op, k: Key, j: Key, expected: string, now: int,
                              locked: set<Path>, readable: bool)
    requires Tidy(c) && Concerns(op, k) && j != k
    ensures
      var c' := Apply(hash, cfg, c, op);
      var r, r' := TryGet(hash, cfg, c, j, expected, now, locked, readable),
                   TryGet(hash, cfg, c', j, expected, now, locked, readable);
      && ViewOf(c', j) == ViewOf(c, j) && r'.path == r.path
      && (r.path.Some? ==> FileAt(r'.cache.disk, r.path.value) == FileAt(r.cache.disk, r.path.value))
  {
    hide Local, Tidy, ViewOf, TryGet, Apply;
    OneKeyIsLocal(hash, cfg, c, op, k);
    LocalKeepsViews(k, c, Apply(hash, cfg, c, op), j);
    SameViewSameLookup(hash, cfg, c, Apply(hash, cfg, c, op), j, expected, now, locked, readable);
  }

  // ---- what was stored stays ----

  // k's record names this path and hash, and the file is there.
  predicate Holds(c: Cache, k: Key, p: Path, sha: string, file: File) {
    && k in Load(c).assets && Load(c).assets[k].path == p && Load(c).assets[k].sha == sha
    && p in c.disk && c.disk[p] == file && file.bytes != []
  }

  predicate Matches(sha: string, expected: string) { expected == "" || SameIgnoringCase(sha, expected) }

  // The operation does nothing about k, whose file is p, but look it up under its own hash.
  predicate Spares(op: Op, k: Key, p: Path, sha: string) {
    match op
    case Get(j, expected, _, _, _) => j != k || Matches(sha, expected)
    case Put(j, _, _, _, _) => j != k
    case Drop(j, _) => j != k
    case Sweep(gone, _) => p !in gone
    case Reread => KindOf(k) <= 7
  }

  lemma HeldInView(c: Cache, c': Cache, k: Key, p: Path, sha: string, file: File)
    requires Tidy(c) && Holds(c, k, p, sha, file) && ViewOf(c', k) == ViewOf(c, k)
    ensures Holds(c', k, p, sha, file)
  {
    hide Flatten, AssetPath, NamedKinds;
    assert OwnPath(k, p);
  }

  lemma SweepHolds(cfg: Settings, c: Cache, gone: set<Path>, saves: bool, k: Key, p: Path, sha: string, file: File)
    requires Tidy(c) && Holds(c, k, p, sha, file) && p !in gone
    ensures Holds(SweepAway(cfg, c, gone, saves), k, p, sha, file) && Tidy(SweepAway(cfg, c, gone, saves))
  {
    hide Flatten, Nest, Tidy;
    LoadTidy(c);
    TidyOwns(Load(c));
    DiskTidy(Load(c), c.disk - gone);
    SaveTidy(Load(c).(disk := c.disk - gone));
  }

  lemma RereadHolds(c: Cache, k: Key, p: Path, sha: string, file: File)
    requires Tidy(c) && Holds(c, k, p, sha, file) && KindOf(k) <= 7
    ensures Holds(Reload(c), k, p, sha, file) && Tidy(Reload(c))
  {
    hide Flatten, Nest, OwnPath;
    assert Reload(c).assets == Flatten(c.manifest);
    FlattenIsNamed(c.manifest);
  }

  // A lookup under the recorded hash finds the file and changes nothing.
  lemma HeldIsFound(hash: Hash, cfg: Settings, c: Cache, k: Key, p: Path, sha: string, file: File, expected: string,
                    now: int, locked: set<Path>, readable: bool)
    requires Tidy(c) && Holds(c, k, p, sha, file) && Matches(sha, expected) && cfg.cacheEnabled
    ensures TryGet(hash, cfg, c, k, expected, now, locked, readable) == Lookup(Load(c), Some(p))
    ensures Holds(Load(c), k, p, sha, file) && Tidy(Load(c))
  {
    hide Flatten, Tidy;
    LoadTidy(c);
  }

  lemma SparedHolds(hash: Hash, cfg: Settings, c: Cache, op: Op, k: Key, p: Path, sha: string, file: File)
    requires Tidy(c) && Holds(c, k, p, sha, file) && Spares(op, k, p, sha) && cfg.cacheEnabled
    ensures Holds(Apply(hash, cfg, c, op), k, p, sha, file) && Tidy(Apply(hash, cfg, c, op))
  {
    hide Local, Tidy, ViewOf, Holds, TryGet, Store, Invalidate, SweepAway, Reload, Matches;
    if op.Sweep? {
      SweepHolds(cfg, c, op.gone, op.saves, k, p, sha, file);
    } else if op.Reread? {
      RereadHolds(c, k, p, sha, file);
    } else if op.k == k {
      HeldIsFound(hash, cfg, c, k, p, sha, file, op.expected, op.now, op.locked, op.readable);
    } else {
      OneKeyIsLocal(hash, cfg, c, op, op.k);
      LocalKeepsViews(op.k, c, Apply(hash, cfg, c, op), k);
      HeldInView(c, Apply(hash, cfg, c, op), k, p, sha, file);
    }
  }

  lemma {:induction false} RunHolds(hash: Hash, cfg: Settings, c: Cache, ops: seq<Op>, k: Key, p: Path, sha: string,
                                    file: File)
    requires Tidy(c) && Holds(c, k, p, sha, file) && cfg.cacheEnabled
    requires forall i | 0 <= i < |ops| :: Spares(ops[i], k, p, sha)
    ensures Holds(RunOps(hash, cfg, c, ops), k, p, sha, file) && Tidy(RunOps(hash, cfg, c, ops))
  {
    hide Tidy, Holds, Spares, Apply;
    if ops != [] {
      RunHolds(hash, cfg, c, ops[..|ops| - 1], k, p, sha, file);
      SparedHolds(hash, cfg, RunOps(hash, cfg, c, ops[..|ops| - 1]), ops[|ops| - 1], k, p, sha, file);
    }
  }

  lemma {:induction false} RunTidy(hash: Hash, cfg: Settings, c: Cache, ops: seq<Op>)
    requires Tidy(c)
    ensures Tidy(RunOps(hash, cfg, c, ops))
  {
    hide Tidy, Apply;
    if ops != [] {
      RunTidy(hash, cfg, c, ops[..|ops| - 1]);
      StepTidy(hash, cfg, RunOps(hash, cfg, c, ops[..|ops| - 1]), ops[|ops| - 1]);
    }
  }

  lemma StepTidy(hash: Hash, cfg: Settings, c: Cache, op: Op)
    requires Tidy(c)
    ensures Tidy(Apply(hash, cfg, c, op))
  {
    hide Tidy, Local, TryGet, Store, Invalidate, Flatten, Nest;
    if op.Sweep? {
      LoadTidy(c);
      TidyOwns(Load(c));
      DiskTidy(Load(c), c.disk - op.gone);
      SaveTidy(Load(c).(disk := c.disk - op.gone));
    } else if op.Reread? {
      RereadTidy(c);
    } else {
      OneKeyIsLocal(hash, cfg, c, op, op.k);
    }
  }

  lemma RereadTidy(c: Cache)
    requires Tidy(c)
    ensures Tidy(Reload(c))
  {
    hide Flatten, Nest, OwnPath;
    FlattenIsNamed(c.manifest);
  }

  /** Over every run from an empty cache: an asset stored is found under its hash, with its bytes, after
      any further operations that do not store or invalidate it, sweep its file or look it up under
      another hash; also after reloads, when its kind is 0 to 7. */
  lemma StoredStaysFound(hash: Hash, cfg: Settings, before: seq<Op>, k: Key, bytes: seq<byte>, sha: string, now: int,
                         after: seq<Op>, expected: string, later: int, locked: set<Path>, readable: bool)
    requires cfg.cacheEnabled && bytes != []
    requires
      var recorded := if sha == "" then hash(bytes) else sha;
      && Matches(recorded, expected)
      && forall i | 0 <= i < |after| :: Spares(after[i], k, StorePath(k, bytes), recorded)
    ensures
      var c0 := RunOps(hash, cfg, EMPTY_CACHE, before);
      var c := RunOps(hash, cfg, Apply(hash, cfg, c0, Put(k, bytes, sha, Written, now)), after);
      var r := TryGet(hash, cfg, c, k, expected, later, locked, readable);
      && r.path == Some(StorePath(k, bytes))
      && FileAt(r.cache.disk, StorePath(k, bytes)) == Some(File(bytes, now))
  {
    hide Tidy, RunOps, TryGet, Spares, Matches, StorePath;
    EmptyIsTidy();
    RunTidy(hash, cfg, EMPTY_CACHE, before);
    var c0, p := RunOps(hash, cfg, EMPTY_CACHE, before), StorePath(k, bytes);
    var c1, recorded := Apply(hash, cfg, c0, Put(k, bytes, sha, Written, now)), if sha == "" then hash(bytes) else sha;
    StepTidy(hash, cfg, c0, Put(k, bytes, sha, Written, now));
    assert Holds(c1, k, p, recorded, File(bytes, now));
    RunHolds(hash, cfg, c1, after, k, p, recorded, File(bytes, now));
    var c2 := RunOps(hash, cfg, c1, after);
    HeldIsFound(hash, cfg, c2, k, p, recorded, File(bytes, now), expected, later, locked, readable);
  }

  // ---- files without a record, and records under another hash ----

  /** A file that is there without a record is taken over if it has the hash asked for and can be read: it
      is returned, recorded, and found again, unread, under that hash. Otherwise nothing is found, and the
      file goes unless it is held open. The file is the standard one, or the wav where that is missing. */
  lemma UnrecordedFileIsAdoptedIff(hash: Hash, cfg: Settings, c: Cache, k: Key, p: Path, expected: string, now: int,
                                   locked: set<Path>, readable: bool, later: int)
    requires Tidy(c) && cfg.cacheEnabled && k !in Load(c).assets && p in c.disk
    requires
      || p == AssetPath(k, false)
      || (AssetPath(k, false) !in c.disk && IsAudio(KindOf(k)) && p == AssetPath(k, true))
    ensures
      var bytes := c.disk[p].bytes;
      var good := bytes != [] && expected != "" && readable && SameIgnoringCase(hash(bytes), expected);
      var r := TryGet(hash, cfg, c, k, expected, now, locked, readable);
      && r.path == (if good then Some(p) else None)
      && (good ==> Holds(r.cache, k, p, hash(bytes), c.disk[p]))
      && (good ==> TryGet(hash, cfg, r.cache, k, expected, later, locked, false).path == Some(p))
      && (!good ==> k !in Load(r.cache).assets && (p in r.cache.disk <==> p in locked))
  {
    hide Flatten, Nest, AssetPath, KindOf, SameIgnoringCase, Tidy;
  }

  /** A recorded asset is found exactly when it is looked up under its own hash or none, and its file is
      there with some content; and otherwise its record goes, and the file too unless it is held open. */
  lemma RecordStaysIff(hash: Hash, cfg: Settings, c: Cache, k: Key, expected: string, now: int, locked: set<Path>,
                       readable: bool)
    requires cfg.cacheEnabled && k in Load(c).assets
    ensures
      var a, r := Load(c).assets[k], TryGet(hash, cfg, c, k, expected, now, locked, readable);
      var good := Matches(a.sha, expected) && a.path in c.disk && c.disk[a.path].bytes != [];
      && r.path == (if good then Some(a.path) else None)
      && (k in Load(r.cache).assets <==> good)
      && (!good ==> (a.path in r.cache.disk <==> a.path in c.disk && a.path in locked))
  {
    hide Flatten, Nest, SameIgnoringCase;
  }

  /** A store whose write fails records nothing and forgets nothing, and the file it was to replace is there as it
      was, or gone where the failed write deleted it. */
  lemma FailedStoreRecordsNothing(hash: Hash, cfg: Settings, c: Cache, k: Key, bytes: seq<byte>, sha: string,
                                  result: WriteResult, now: int)
    requires !result.Written?
    ensures
      var r := Store(hash, cfg, c, k, bytes, sha, result, now);
      && !r.ok && r.cache.manifest == c.manifest && Load(r.cache).assets == Load(c).assets
      && (forall p :: p != StorePath(k, bytes) || result.Untouched? ==> FileAt(r.cache.disk, p) == FileAt(c.disk, p))
      && (result.Deleted? && cfg.cacheEnabled && bytes != [] ==> StorePath(k, bytes) !in r.cache.disk)
  {
    hide Flatten, StorePath;
  }
}
