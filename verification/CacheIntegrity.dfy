/** Every record of the index whose file exists has that file's hash, over whole runs. */
module CacheIntegrity {
  import opened Common
  import opened TransferSettings
  import opened CacheState

  // SHA-256 as text
  type Hash = seq<byte> -> string

  // Records use their own key's file names, and name the hash of the file they point to.
  predicate Intact(hash: Hash, assets: Assets, disk: Disk) {
    forall k :: k in assets ==>
      && OwnPath(k, assets[k].path)
      && (assets[k].path in disk ==> SameIgnoringCase(hash(disk[assets[k].path].bytes), assets[k].sha))
  }

  predicate Sound(hash: Hash, c: Cache) {
    && Intact(hash, Flatten(c.manifest), c.disk)
    && (c.loaded ==> Intact(hash, c.assets, c.disk))
  }

  const EMPTY_CACHE := Cache(map[], map[], map[], false)

  datatype Op =
    | Get(k: Key, expected: string, now: int, locked: set<Path>, readable: bool)
    | Put(k: Key, bytes: seq<byte>, sha: string, result: WriteResult, now: int)
    | Drop(k: Key, locked: set<Path>)
    | Sweep(gone: set<Path>, saves: bool)
    | Reread

  function Apply(hash: Hash, cfg: Settings, c: Cache, op: Op): Cache {
    match op
    case Get(k, expected, now, locked, readable) => TryGet(hash, cfg, c, k, expected, now, locked, readable).cache
    case Put(k, bytes, sha, result, now) => Store(hash, cfg, c, k, bytes, sha, result, now).cache
    case Drop(k, locked) => Invalidate(c, k, locked)
    case Sweep(gone, saves) => SweepAway(cfg, c, gone, saves)
    case Reread => Reload(c)
  }

  function RunOps(hash: Hash, cfg: Settings, c: Cache, ops: seq<Op>): Cache {
    if ops == [] then c else Apply(hash, cfg, RunOps(hash, cfg, c, ops[..|ops| - 1]), ops[|ops| - 1])
  }

  // What OnTransferEnd, the only caller of Store, has checked.
  predicate HonestPut(hash: Hash, op: Op) {
    op.Put? ==> op.sha == "" || SameIgnoringCase(hash(op.bytes), op.sha)
  }

  // ---- steps that keep it ----

  lemma IntactSubset(hash: Hash, assets: Assets, disk: Disk, fewer: Assets, disk': Disk)
    requires Intact(hash, assets, disk)
    requires forall k :: k in fewer ==> k in assets && fewer[k] == assets[k]
    requires forall p :: p in disk' ==> p in disk && disk'[p] == disk[p]
    ensures Intact(hash, fewer, disk')
  {
    hide OwnPath, SameIgnoringCase;
  }

  lemma NamedKindsIntact(hash: Hash, assets: Assets, disk: Disk)
    requires Intact(hash, assets, disk)
    ensures Intact(hash, Flatten(Nest(assets)), disk)
  {
    hide Nest, Flatten, Intact, KindOf;
    ManifestRoundTrip(assets);
    IntactSubset(hash, assets, disk, NamedKinds(assets), disk);
  }

  lemma SaveSound(hash: Hash, c: Cache)
    requires c.loaded && Intact(hash, c.assets, c.disk)
    ensures Sound(hash, Save(c))
  {
    hide Nest, Flatten, Intact;
    NamedKindsIntact(hash, c.assets, c.disk);
  }

  lemma LoadSound(hash: Hash, c: Cache)
    requires Sound(hash, c)
    ensures Sound(hash, Load(c)) && Load(c).loaded && Intact(hash, Load(c).assets, Load(c).disk)
  {
  }

  lemma RemoveSound(hash: Hash, c: Cache, disk': Disk)
    requires c.loaded && Sound(hash, c)
    requires forall p :: p in disk' ==> p in c.disk && disk'[p] == c.disk[p]
    ensures Sound(hash, c.(disk := disk'))
  {
    hide Nest, Flatten, Intact;
    IntactSubset(hash, c.assets, c.disk, c.assets, disk');
    IntactSubset(hash, Flatten(c.manifest), c.disk, Flatten(c.manifest), disk');
  }

  lemma ForgetSound(hash: Hash, c: Cache, k: Key, locked: set<Path>)
    requires c.loaded && Intact(hash, c.assets, c.disk) && k in c.assets
    ensures Sound(hash, Forget(c.(disk := Remove(c.disk, c.assets[k].path, locked)), k))
  {
    hide Nest, Flatten, Intact;
    var disk' := Remove(c.disk, c.assets[k].path, locked);
    IntactSubset(hash, c.assets, c.disk, c.assets - {k}, disk');
    SaveSound(hash, c.(disk := disk', assets := c.assets - {k}));
  }

  // A new or rewritten file belongs to one key only.
  lemma AddIntact(hash: Hash, assets: Assets, disk: Disk, k: Key, a: Asset, f: File)
    requires Intact(hash, assets, disk)
    requires OwnPath(k, a.path)
    ensures Intact(hash, assets[k := a], disk[a.path := f]) <==> SameIgnoringCase(hash(f.bytes), a.sha)
  {
    hide OwnPath, SameIgnoringCase;
    var assets', disk' := assets[k := a], disk[a.path := f];
    if Intact(hash, assets', disk') {
      assert k in assets' && assets'[k] == a && disk'[a.path] == f;
    }
    if SameIgnoringCase(hash(f.bytes), a.sha) {
      forall j | j in assets'
        ensures OwnPath(j, assets'[j].path)
        ensures assets'[j].path in disk' ==>
                  SameIgnoringCase(hash(disk'[assets'[j].path].bytes), assets'[j].sha)
      {
        if j != k && assets'[j].path == a.path {
          OwnPathInjective(j, k, a.path);
        }
      }
    }
  }

  lemma GetSound(hash: Hash, cfg: Settings, c0: Cache, k: Key, expected: string, now: int,
                 locked: set<Path>, readable: bool)
    requires Sound(hash, c0)
    ensures
      var r := TryGet(hash, cfg, c0, k, expected, now, locked, readable);
      && Sound(hash, r.cache)
      && (r.path.Some? ==>
            && r.path.value in r.cache.disk
            && r.cache.disk[r.path.value].bytes != []
            && (expected != "" ==> SameIgnoringCase(hash(r.cache.disk[r.path.value].bytes), expected)))
  {
    hide Nest, Flatten, Intact, AssetPath;
    LoadSound(hash, c0);
    var c := Load(c0);
    if k in c.assets {
      ForgetSound(hash, c, k, locked);
      RecordedHash(hash, c, k);
    } else {
      var p := FallbackPath(c.disk, k);
      RemoveSound(hash, c, Remove(c.disk, p, locked));
      if p in c.disk {
        var f := c.disk[p];
        assert c.disk[p := f] == c.disk;
        AddIntact(hash, c.assets, c.disk, k, Asset(hash(f.bytes), p, |f.bytes|, now), f);
        if cfg.cacheEnabled && f.bytes != [] && expected != "" && readable
           && SameIgnoringCase(hash(f.bytes), expected) {
          SaveSound(hash, c.(assets := c.assets[k := Asset(hash(f.bytes), p, |f.bytes|, now)]));
        }
      }
    }
  }

  lemma RecordedHash(hash: Hash, c: Cache, k: Key)
    requires Intact(hash, c.assets, c.disk) && k in c.assets
    ensures
      var p := c.assets[k].path;
      p in c.disk ==> SameIgnoringCase(hash(c.disk[p].bytes), c.assets[k].sha)
  {
  }

  /** Storing keeps the cache sound exactly when the given hash is the file's own, or absent. */
  lemma StoreSoundIff(hash: Hash, cfg: Settings, c0: Cache, k: Key, bytes: seq<byte>, sha: string, now: int)
    requires Sound(hash, c0) && cfg.cacheEnabled && bytes != []
    ensures Sound(hash, Store(hash, cfg, c0, k, bytes, sha, Written, now).cache)
       <==> sha == "" || SameIgnoringCase(hash(bytes), sha)
  {
    hide Nest, Flatten, Intact, AssetPath;
    LoadSound(hash, c0);
    var c := Load(c0);
    var a := Asset(if sha == "" then hash(bytes) else sha, StorePath(k, bytes), |bytes|, now);
    AddIntact(hash, c.assets, c.disk, k, a, File(bytes, now));
    var c1 := c.(disk := c.disk[a.path := File(bytes, now)], assets := c.assets[k := a]);
    if Intact(hash, c1.assets, c1.disk) {
      SaveSound(hash, c1);
    }
  }

  lemma StoreSound(hash: Hash, cfg: Settings, c0: Cache, k: Key, bytes: seq<byte>, sha: string,
                   result: WriteResult, now: int)
    requires Sound(hash, c0)
    requires sha == "" || SameIgnoringCase(hash(bytes), sha)
    ensures Sound(hash, Store(hash, cfg, c0, k, bytes, sha, result, now).cache)
  {
    hide Nest, Flatten, Intact, StorePath;
    LoadSound(hash, c0);
    var c := Load(c0);
    RemoveSound(hash, c, c.disk - {StorePath(k, bytes)});
    if cfg.cacheEnabled && bytes != [] && result.Written? {
      StoreSoundIff(hash, cfg, c0, k, bytes, sha, now);
    }
  }

  lemma InvalidateSound(hash: Hash, c0: Cache, k: Key, locked: set<Path>)
    requires Sound(hash, c0)
    ensures Sound(hash, Invalidate(c0, k, locked))
  {
    hide Nest, Flatten, Intact, AssetPath;
    LoadSound(hash, c0);
    var c1 := Load(c0);
    if k in c1.assets {
      ForgetSound(hash, c1, k, locked);
    }
    var c := if k in c1.assets
             then Forget(c1.(disk := Remove(c1.disk, c1.assets[k].path, locked)), k) else c1;
    RemoveSound(hash, c, Invalidate(c0, k, locked).disk);
  }

  lemma SweepSound(hash: Hash, cfg: Settings, c: Cache, gone: set<Path>, saves: bool)
    requires Sound(hash, c)
    ensures Sound(hash, SweepAway(cfg, c, gone, saves))
  {
    hide Nest, Flatten, Intact;
    LoadSound(hash, c);
    RemoveSound(hash, Load(c), Load(c).disk - gone);
    SaveSound(hash, Load(c).(disk := Load(c).disk - gone));
  }

  lemma StepSound(hash: Hash, cfg: Settings, c: Cache, op: Op)
    requires Sound(hash, c) && HonestPut(hash, op)
    ensures Sound(hash, Apply(hash, cfg, c, op))
  {
    hide Sound, TryGet, Store, Invalidate, SweepAway;
    match op
    case Get(k, expected, now, locked, readable) =>
      GetSound(hash, cfg, c, k, expected, now, locked, readable);
    case Put(k, bytes, sha, result, now) => StoreSound(hash, cfg, c, k, bytes, sha, result, now);
    case Drop(k, locked) => InvalidateSound(hash, c, k, locked);
    case Sweep(gone, saves) => SweepSound(hash, cfg, c, gone, saves);
    case Reread => ReloadSound(hash, c);
  }

  lemma ReloadSound(hash: Hash, c: Cache)
    requires Sound(hash, c)
    ensures Sound(hash, Reload(c))
  {
  }

  /** Over any run of lookups, stores (failed ones too), invalidations, sweeps and reloads, in which
      nobody else writes and stores carry checked hashes, every record whose file exists names
      that file's hash, in the index and in the saved manifest. */
  lemma {:induction false} CacheStaysSound(hash: Hash, cfg: Settings, c: Cache, ops: seq<Op>)
    requires Sound(hash, c)
    requires forall i | 0 <= i < |ops| :: HonestPut(hash, ops[i])
    ensures Sound(hash, RunOps(hash, cfg, c, ops))
  {
    hide Sound, Apply;
    if ops != [] {
      CacheStaysSound(hash, cfg, c, ops[..|ops| - 1]);
      StepSound(hash, cfg, RunOps(hash, cfg, c, ops[..|ops| - 1]), ops[|ops| - 1]);
    }
  }

  /** So, whatever came before, asking for a hash yields a non-empty file with that hash, or none. */
  lemma LookupReturnsTheHashAskedFor(hash: Hash, cfg: Settings, ops: seq<Op>, k: Key, expected: string, now: int,
                                     locked: set<Path>, readable: bool)
    requires forall i | 0 <= i < |ops| :: HonestPut(hash, ops[i])
    requires expected != ""
    ensures
      var r := TryGet(hash, cfg, RunOps(hash, cfg, EMPTY_CACHE, ops), k, expected, now, locked, readable);
      r.path.Some? ==>
        && r.path.value in r.cache.disk
        && r.cache.disk[r.path.value].bytes != []
        && SameIgnoringCase(hash(r.cache.disk[r.path.value].bytes), expected)
  {
    hide TryGet;
    assert Sound(hash, EMPTY_CACHE);
    CacheStaysSound(hash, cfg, EMPTY_CACHE, ops);
    GetSound(hash, cfg, RunOps(hash, cfg, EMPTY_CACHE, ops), k, expected, now, locked, readable);
  }

  /** A stored asset is found again under its hash, in this session and, when its kind is one of
      the eight with a name, after the manifest is read back. */
  lemma StoreThenGet(hash: Hash, cfg: Settings, c0: Cache, k: Key, bytes: seq<byte>, sha: string, now: int,
                     reload: bool, expected: string, later: int, locked: set<Path>, readable: bool)
    requires cfg.cacheEnabled && bytes != []
    requires expected == "" || SameIgnoringCase(if sha == "" then hash(bytes) else sha, expected)
    requires reload ==> KindOf(k) <= 7
    ensures
      var c1 := Store(hash, cfg, c0, k, bytes, sha, Written, now).cache;
      var c := if reload then Reload(c1) else c1;
      && TryGet(hash, cfg, c, k, expected, later, locked, readable) == Lookup(c, Some(StorePath(k, bytes)))
      && StorePath(k, bytes) in c.disk
      && c.disk[StorePath(k, bytes)] == File(bytes, now)
  {
    hide Nest, Flatten, StorePath, KindOf, SameIgnoringCase;
    ManifestRoundTrip(Store(hash, cfg, c0, k, bytes, sha, Written, now).cache.assets);
  }

  /** After an invalidation whose removals succeed, the key is found no more, under any hash: its
      record and every file it could have are gone. */
  lemma InvalidatedIsNotFound(hash: Hash, cfg: Settings, c0: Cache, k: Key, expected: string, now: int,
                              locked: set<Path>, readable: bool)
    ensures TryGet(hash, cfg, Invalidate(c0, k, {}), k, expected, now, locked, readable).path == None
  {
    hide Nest, Flatten, AssetPath, SameIgnoringCase;
    InvalidateLeavesNothing(c0, k);
  }

  lemma InvalidateLeavesNothing(c0: Cache, k: Key)
    ensures
      var c := Invalidate(c0, k, {});
      c.loaded && k !in c.assets && AssetPath(k, false) !in c.disk && AssetPath(k, true) !in c.disk
  {
    hide Nest, Flatten, Decimal, KindOf;
    assert IsAudio(KindOf(k)) || AssetPath(k, false) == AssetPath(k, true);
  }
}
