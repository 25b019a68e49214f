/** ModelCache itself: the index, the files and the manifest as fields that its methods update. */
module AssetCache {
  import opened Common
  import opened TransferSettings
  import opened CacheState
  import opened ManifestOrder
  import opened Eviction

  class ModelCache {
    const hash: seq<byte> -> string
    const cfg: Settings
    var assets: Assets
    var disk: Disk
    var manifest: Manifest
    var manifestLoaded: bool

    constructor (hash: seq<byte> -> string, cfg: Settings, disk: Disk, manifest: Manifest)
      ensures this.hash == hash && this.cfg == cfg
      ensures View() == Cache(map[], disk, manifest, false)
    {
      this.hash, this.cfg := hash, cfg;
      assets, this.disk, this.manifest, manifestLoaded := map[], disk, manifest, false;
    }

    function View(): Cache
      reads this
    {
      Cache(assets, disk, manifest, manifestLoaded)
    }

    method SaveManifest()
      modifies this`manifest
      ensures View() == Save(old(View()))
      ensures Canonical(manifest)
    {
      hide TextOf, NameOf, Mirrors, Nest, Flatten;
      assert Mirrors(map[], map[]) by { NothingMirrors(); }
      var models: Manifest := map[];
      var todo := assets.Keys;
      ghost var part: Assets := map[];
      while todo != {}
        invariant part.Keys !! todo && part.Keys + todo == assets.Keys
        invariant forall k :: k in part ==> part[k] == assets[k]
        invariant Mirrors(models, part)
      {
        var k :| k in todo;
        var text, name := TextOf(k), NameOf(k); // to_string(modelId), GetKindKey(kind)
        MirrorGrows(models, part, k, assets[k]);
        ghost var grown := Put(models, k, assets[k]);
        if text !in models {
          models := models[text := map[]];
        }
        models := models[text := models[text][name := assets[k]]];
        assert models == grown;
        todo, part := todo - {k}, part[k := assets[k]];
      }
      assert part == assets;
      MirrorIsNest(models, assets);
      manifest := models;
      ManifestRoundTrip(assets);
    }

    method EnsureServerInitialized()
      modifies this`assets, this`manifestLoaded
      ensures View() == Load(old(View()))
    {
      hide LoadedSoFar, Flatten, KindFromName, IsFirst, Below;
      if manifestLoaded {
        return;
      }
      assets := map[];
      var texts := manifest.Keys;
      ghost var read: set<string> := {};
      NothingLoaded(manifest);
      while texts != {}
        invariant read !! texts && read + texts == manifest.Keys
        invariant forall r, t :: r in read && t in texts ==> Below(r, t)
        invariant LoadedSoFar(manifest, assets, read, "", {})
      {
        ghost var first := FirstExists(texts);
        var text :| text in texts && IsFirst(texts, text); // in the order of the JSON object
        FirstIsBelow(texts, text);
        var id := ParseModelId(text);
        NextModel(manifest, assets, read, text);
        if id.Some? {
          var names := manifest[text].Keys;
          ghost var seen: set<string> := {};
          while names != {}
            invariant seen !! names && seen + names == manifest[text].Keys
            invariant LoadedSoFar(manifest, assets, read, text, seen)
          {
            var name :| name in names;
            var kind := KindFromName(name);
            LoadOne(manifest, assets, read, text, seen, name);
            if kind.Some? {
              assets := assets[KeyOf(id.value, kind.value) := manifest[text][name]];
            }
            names, seen := names - {name}, seen + {name};
          }
          LoadedModel(manifest, assets, read, text);
        }
        texts, read := texts - {text}, read + {text};
      }
      AllLoaded(manifest, assets);
      manifestLoaded := true;
    }

    method ReloadManifest()
      modifies this`assets, this`manifestLoaded
      ensures View() == Reload(old(View()))
    {
      manifestLoaded := false;
      EnsureServerInitialized();
    }

    method RemoveFile(p: Path, locked: set<Path>)
      modifies this`disk
      ensures disk == Remove(old(disk), p, locked)
    {
      if p !in locked {
        disk := disk - {p};
      }
    }

    method TryGet(k: Key, expected: string, now: int, locked: set<Path>, readable: bool) returns (path: Option<Path>)
      modifies this
      ensures Lookup(View(), path) == CacheState.TryGet(hash, cfg, old(View()), k, expected, now, locked, readable)
    {
      hide Nest, Flatten;
      if !cfg.cacheEnabled {
        return None;
      }
      EnsureServerInitialized();
      if k in assets {
        var p := assets[k].path;
        if expected != "" && !SameIgnoringCase(assets[k].sha, expected) {
          RemoveFile(p, locked);
          assets := assets - {k};
          SaveManifest();
          return None;
        }
        if p in disk && disk[p].bytes != [] {
          return Some(p);
        }
        if p in disk {
          RemoveFile(p, locked);
        }
        assert disk == Remove(old(disk), p, locked);
        assets := assets - {k};
        SaveManifest();
        return None;
      }
      var check := AssetPath(k, false);
      if check !in disk && IsAudio(KindOf(k)) {
        var wav := AssetPath(k, true);
        if wav in disk {
          check := wav;
        }
      }
      if check in disk {
        if disk[check].bytes != [] && expected != "" && readable {
          var sha := hash(disk[check].bytes);
          if SameIgnoringCase(sha, expected) {
            assets := assets[k := Asset(sha, check, |disk[check].bytes|, now)];
            SaveManifest();
            return Some(check);
          }
        }
        RemoveFile(check, locked);
      }
      return None;
    }

    method Invalidate(k: Key, locked: set<Path>)
      modifies this
      ensures View() == CacheState.Invalidate(old(View()), k, locked)
    {
      hide Nest, Flatten;
      EnsureServerInitialized();
      if k in assets {
        RemoveFile(assets[k].path, locked);
        assets := assets - {k};
        SaveManifest();
      }
      RemoveFile(AssetPath(k, false), locked);
      if IsAudio(KindOf(k)) {
        RemoveFile(AssetPath(k, true), locked);
      }
    }

    method Store(k: Key, bytes: seq<byte>, sha: string, result: WriteResult, now: int) returns (ok: bool)
      modifies this
      ensures Stored(View(), ok) == CacheState.Store(hash, cfg, old(View()), k, bytes, sha, result, now)
    {
      hide Nest, Flatten, AssetFileName, Decimal;
      if !cfg.cacheEnabled || bytes == [] {
        return false;
      }
      EnsureServerInitialized();
      var wav := false;
      if IsAudio(KindOf(k)) && |bytes| >= 4 {
        if bytes[0] == 0x52 && bytes[1] == 0x49 && bytes[2] == 0x46 && bytes[3] == 0x46 {
          wav := true;
        }
      }
      assert IsRiff(bytes) <==>
        (|bytes| >= 4 && bytes[0] == 0x52 && bytes[1] == 0x49 && bytes[2] == 0x46 && bytes[3] == 0x46);
      var p := AssetPath(k, wav);
      if result.Deleted? {
        disk := disk - {p};
      }
      if !result.Written? {
        return false;
      }
      disk := disk[p := File(bytes, now)];
      var finalSha := sha;
      if finalSha == "" {
        finalSha := hash(bytes);
      }
      assets := assets[k := Asset(finalSha, p, |bytes|, now)];
      SaveManifest();
      return true;
    }

    // Where the stored file is: PathFor on a key that has a record.
    method PathFor(k: Key) returns (p: Path)
      modifies this`assets, this`manifestLoaded
      ensures View() == Load(old(View()))
      ensures k in assets ==> p == assets[k].path
      ensures k !in assets ==> p == if AssetPath(k, true) in disk then AssetPath(k, true) else AssetPath(k, false)
    {
      EnsureServerInitialized();
      if k in assets {
        return assets[k].path;
      }
      if AssetPath(k, true) in disk {
        return AssetPath(k, true);
      }
      return AssetPath(k, false);
    }

    method Sweep(now: int, locked: set<Path>) returns (ghost plan: Plan)
      requires Valid(cfg)
      modifies this
      ensures cfg.cacheEnabled && locked == {} ==> Swept(cfg, old(disk), disk, now)
      ensures cfg.cacheEnabled ==> IsPlan(cfg, old(disk), now, plan)
      ensures cfg.cacheEnabled ==>
        View() == SweepAway(cfg, old(View()), Gone(cfg, old(disk), now, plan) - locked, plan.n > 0)
      ensures !cfg.cacheEnabled ==> View() == old(View())
    {
      hide Nest, Flatten, Sort, Sorted, Lists, Gone, Limit, TotalSize, Swept;
      plan := Plan([], 0);
      if !cfg.cacheEnabled {
        return;
      }
      EnsureServerInitialized();
      ghost var all := disk;
      var entries := Collect(now, locked);
      NothingEvicted(cfg, all, now, entries);
      var total := Sum(entries);
      assert entries[0..] == entries;
      plan := Plan(entries, 0);
      if total <= Limit(cfg) {
        UnlockedSweeps(cfg, all, now, plan, locked);
        return;
      }
      SortLists(cfg, all, now, entries);
      entries := Sort(entries);
      NothingEvicted(cfg, all, now, entries);
      assert entries[0..] == entries;
      var i := 0;
      while i < |entries| && total > Limit(cfg)
        invariant 0 <= i <= |entries|
        invariant total == TotalSize(entries[i..])
        invariant i > 0 ==> TotalSize(entries[i - 1..]) > Limit(cfg)
        invariant i == 0 ==> total > Limit(cfg)
        invariant View() == Load(old(View())).(disk := all - (Gone(cfg, all, now, Plan(entries, i)) - locked))
      {
        TotalSizeTail(entries, i);
        OneMoreGone(cfg, all, now, entries, i);
        RemoveFile(entries[i].path, locked);
        total := total - entries[i].size;
        i := i + 1;
      }
      TotalSizeEnds(cfg, entries);
      plan := Plan(entries, i);
      UnlockedSweeps(cfg, all, now, plan, locked);
      SaveManifest();
    }

    // The directory walk: expired files go, the others are listed.
    method Collect(now: int, locked: set<Path>) returns (entries: seq<Entry>)
      modifies this`disk
      ensures Lists(cfg, old(disk), now, entries)
      ensures disk == old(disk) - ((set p | p in old(disk) && Expired(cfg, old(disk)[p], now)) - locked)
    {
      entries := [];
      ghost var all := disk;
      var todo := disk.Keys;
      ghost var seen: set<Path> := {};
      while todo != {}
        invariant seen !! todo && seen + todo == all.Keys
        invariant disk == all - ((set p | p in seen && Expired(cfg, all[p], now)) - locked)
        invariant forall e :: e in entries ==>
          e.path in seen && !Expired(cfg, all[e.path], now) && e == EntryOf(all, e.path)
        invariant forall p :: p in seen && !Expired(cfg, all[p], now) ==> EntryOf(all, p) in entries
        invariant forall e :: e in entries ==> multiset(entries)[e] == 1
      {
        var p :| p in todo;
        assert p in disk && disk[p] == all[p];
        if Expired(cfg, disk[p], now) {
          RemoveFile(p, locked);
        } else {
          assert EntryOf(disk, p) !in entries;
          entries := entries + [EntryOf(disk, p)];
        }
        todo, seen := todo - {p}, seen + {p};
      }
    }
  }

  method Sum(entries: seq<Entry>) returns (total: nat)
    ensures total == TotalSize(entries)
  {
    total := 0;
    var i := 0;
    while i < |entries|
      invariant 0 <= i <= |entries|
      invariant total == TotalSize(entries[..i])
    {
      assert entries[..i + 1] == entries[..i] + [entries[i]];
      TotalSizeSplits(entries[..i], [entries[i]]);
      total := total + entries[i].size;
      i := i + 1;
    }
    assert entries[..i] == entries;
  }

  lemma TotalSizeTail(entries: seq<Entry>, i: nat)
    requires i < |entries|
    ensures TotalSize(entries[i..]) == entries[i].size + TotalSize(entries[i + 1..])
  {
    assert entries[i..][1..] == entries[i + 1..];
  }

  lemma TotalSizeEnds(cfg: Settings, entries: seq<Entry>)
    requires Valid(cfg)
    ensures TotalSize(entries[|entries|..]) <= Limit(cfg)
  {
  }

  lemma NothingEvicted(cfg: Settings, disk: Disk, now: int, entries: seq<Entry>)
    ensures Gone(cfg, disk, now, Plan(entries, 0)) == set p | p in disk && Expired(cfg, disk[p], now)
  {
    assert PathsOf(entries[..0]) == {};
  }

  lemma SortLists(cfg: Settings, disk: Disk, now: int, entries: seq<Entry>)
    requires Lists(cfg, disk, now, entries)
    ensures Lists(cfg, disk, now, Sort(entries)) && Sorted(Sort(entries))
    ensures TotalSize(Sort(entries)) == TotalSize(entries)
  {
    hide Sort, Sorted, Expired, TotalSize;
    SortSorts(entries);
    SortTotal(entries);
    forall e
      ensures e in Sort(entries) <==> e in entries
    {
      assert e in multiset(Sort(entries)) <==> e in multiset(entries);
    }
  }

  lemma OneMoreGone(cfg: Settings, disk: Disk, now: int, entries: seq<Entry>, i: nat)
    requires i < |entries|
    ensures Gone(cfg, disk, now, Plan(entries, i + 1)) == Gone(cfg, disk, now, Plan(entries, i)) + {entries[i].path}
  {
    assert entries[..i + 1] == entries[..i] + [entries[i]];
  }

  // ---- what the two manifest loops build ----

  // The nested map holds the records of assets and nothing else.
  ghost predicate Mirrors(m: Manifest, assets: Assets) {
    && (forall k :: k in assets ==> Holds(m, k, assets[k]))
    && (forall text :: text in m ==> HasModel(assets, text))
    && (forall text, name :: text in m && name in m[text] ==> HasRecord(assets, text, name))
  }

  ghost predicate Holds(m: Manifest, k: Key, a: Asset) {
    TextOf(k) in m && NameOf(k) in m[TextOf(k)] && m[TextOf(k)][NameOf(k)] == a
  }

  ghost predicate HasModel(assets: Assets, text: string) {
    exists k :: k in assets && TextOf(k) == text
  }

  ghost predicate HasRecord(assets: Assets, text: string, name: string) {
    exists k :: k in assets && TextOf(k) == text && NameOf(k) == name
  }

  function Put(m: Manifest, k: Key, a: Asset): Manifest {
    m[TextOf(k) := (if TextOf(k) in m then m[TextOf(k)] else map[])[NameOf(k) := a]]
  }

  lemma MoreHasModel(assets: Assets, k: Key, a: Asset, text: string)
    requires HasModel(assets, text) || text == TextOf(k)
    ensures HasModel(assets[k := a], text)
  {
    hide TextOf;
    assert k in assets[k := a];
    if HasModel(assets, text) {
      var j :| j in assets && TextOf(j) == text;
      assert j in assets[k := a];
    }
  }

  lemma MoreHasRecord(assets: Assets, k: Key, a: Asset, text: string, name: string)
    requires HasRecord(assets, text, name) || (text == TextOf(k) && name == NameOf(k))
    ensures HasRecord(assets[k := a], text, name)
  {
    hide TextOf, NameOf;
    assert k in assets[k := a];
    if HasRecord(assets, text, name) {
      var j :| j in assets && TextOf(j) == text && NameOf(j) == name;
      assert j in assets[k := a];
    }
  }

  lemma StillHolds(m: Manifest, j: Key, b: Asset, k: Key, a: Asset)
    requires Holds(m, j, b) && j != k
    ensures Holds(Put(m, k, a), j, b)
  {
    hide TextOf, NameOf;
    if TextOf(j) == TextOf(k) && NameOf(j) == NameOf(k) {
      PlaceInjective(j, k);
    }
  }

  lemma MirrorGrows(m: Manifest, assets: Assets, k: Key, a: Asset)
    requires k !in assets && Mirrors(m, assets)
    ensures Mirrors(Put(m, k, a), assets[k := a])
  {
    hide TextOf, NameOf, HasModel, HasRecord;
    var m', assets' := Put(m, k, a), assets[k := a];
    forall j | j in assets'
      ensures Holds(m', j, assets'[j])
    {
      if j != k {
        hide Holds, Put;
        StillHolds(m, j, assets[j], k, a);
      }
    }
    forall text | text in m'
      ensures HasModel(assets', text)
    {
      MoreHasModel(assets, k, a, text);
    }
    forall text, name | text in m' && name in m'[text]
      ensures HasRecord(assets', text, name)
    {
      MoreHasRecord(assets, k, a, text, name);
    }
  }

  lemma NothingMirrors()
    ensures Mirrors(map[], map[])
  {
  }

  lemma KindsExplained(assets: Assets, j: Key, name: string)
    requires name in KindsOf(assets, ModelOf(j))
    ensures HasRecord(assets, TextOf(j), name)
  {
    hide NameOf, KindNamed, ModelOf, KindOf, KeyOf, Decimal;
    var k :| k in assets && ModelOf(k) == ModelOf(j) && NameOf(k) == name;
    assert TextOf(k) == TextOf(j);
  }

  lemma NestMirrors(assets: Assets)
    ensures Mirrors(Nest(assets), assets)
  {
    hide TextOf, NameOf, KindsOf, KindNamed, IdNamed, ModelOf, KindOf, KeyOf, HasRecord;
    var m := Nest(assets);
    forall k | k in assets
      ensures Holds(m, k, assets[k])
    {
      NestHolds(assets, k);
    }
    forall text, name | text in m && name in m[text]
      ensures HasRecord(assets, text, name)
    {
      var j :| j in assets && TextOf(j) == text;
      PlaceReadsBack(j);
      KindsExplained(assets, j, name);
    }
  }

  lemma SameModels(m: Manifest, m': Manifest, assets: Assets, text: string)
    requires Mirrors(m, assets) && Mirrors(m', assets) && text in m
    ensures text in m'
  {
    hide TextOf, NameOf;
    assert HasModel(assets, text);
    var k :| k in assets && TextOf(k) == text;
    assert Holds(m', k, assets[k]);
  }

  lemma SameRecord(m: Manifest, m': Manifest, assets: Assets, text: string, name: string)
    requires Mirrors(m, assets) && Mirrors(m', assets) && text in m && name in m[text]
    ensures text in m' && name in m'[text] && m'[text][name] == m[text][name]
  {
    hide TextOf, NameOf;
    assert HasRecord(assets, text, name);
    var k :| k in assets && TextOf(k) == text && NameOf(k) == name;
    assert Holds(m, k, assets[k]) && Holds(m', k, assets[k]);
  }

  lemma MirrorIsNest(m: Manifest, assets: Assets)
    requires Mirrors(m, assets)
    ensures m == Nest(assets)
  {
    hide Mirrors, Nest;
    NestMirrors(assets);
    var m' := Nest(assets);
    forall text
      ensures text in m <==> text in m'
    {
      if text in m { SameModels(m, m', assets, text); }
      if text in m' { SameModels(m', m, assets, text); }
    }
    forall text | text in m
      ensures m[text] == m'[text]
    {
      forall name
        ensures name in m[text] <==> name in m'[text]
        ensures name in m[text] ==> m[text][name] == m'[text][name]
      {
        if name in m[text] { SameRecord(m, m', assets, text, name); }
        if name in m'[text] { SameRecord(m', m, assets, text, name); }
      }
    }
  }

  // The names that have offered a record for k so far: those of `read`, and `text` if it is a kind of `seen`.
  function Heard(m: Manifest, read: set<string>, text: string, seen: set<string>, k: Key): set<string> {
    set t | t in m && Offers(m, t, k) && (t in read || (t == text && NameOf(k) in seen))
  }

  // The index holds the last record of each.
  ghost predicate LoadedSoFar(m: Manifest, assets: Assets, read: set<string>, text: string, seen: set<string>) {
    forall k :: HoldsLast(m, assets, Heard(m, read, text, seen, k), k)
  }

  ghost predicate HoldsLast(m: Manifest, assets: Assets, heard: set<string>, k: Key) {
    && (k in assets <==> heard != {})
    && (k in assets ==> exists t :: t in m && NameOf(k) in m[t] && IsLast(heard, t) && assets[k] == m[t][NameOf(k)])
  }

  lemma NothingLoaded(m: Manifest)
    ensures LoadedSoFar(m, map[], {}, "", {})
  {
    hide Offers, NameOf;
  }

  lemma FirstIsBelow(texts: set<string>, text: string)
    requires IsFirst(texts, text)
    ensures forall t :: t in texts - {text} ==> Below(text, t)
  {
  }

  lemma NextModel(m: Manifest, assets: Assets, read: set<string>, text: string)
    requires LoadedSoFar(m, assets, read, "", {}) && text in m
    ensures LoadedSoFar(m, assets, read, text, {})
    ensures ParseModelId(text).None? ==> LoadedSoFar(m, assets, read + {text}, "", {})
  {
    hide HoldsLast, ParseModelId, NameOf, KindOf, ModelOf;
    forall k: Key
      ensures Heard(m, read, text, {}, k) == Heard(m, read, "", {}, k)
      ensures ParseModelId(text).None? ==> Heard(m, read + {text}, "", {}, k) == Heard(m, read, "", {}, k)
    {
    }
  }

  lemma LoadedModel(m: Manifest, assets: Assets, read: set<string>, text: string)
    requires text in m && LoadedSoFar(m, assets, read, text, m[text].Keys)
    ensures LoadedSoFar(m, assets, read + {text}, "", {})
  {
    hide HoldsLast, ParseModelId, NameOf, KindOf, ModelOf;
    forall k: Key
      ensures Heard(m, read + {text}, "", {}, k) == Heard(m, read, text, m[text].Keys, k)
    {
    }
  }

  lemma AllLoaded(m: Manifest, assets: Assets)
    requires LoadedSoFar(m, assets, m.Keys, "", {})
    ensures assets == Flatten(m)
  {
    hide Offers, NameOf, Flatten, IsLast;
    forall k: Key
      ensures k in assets <==> k in Flatten(m)
      ensures k in assets ==> assets[k] == Flatten(m)[k]
    {
      assert Heard(m, m.Keys, "", {}, k) == Offered(m, k);
      assert HoldsLast(m, assets, Offered(m, k), k);
      FlattenAt(m, k);
      if k in assets {
        var t :| t in m && NameOf(k) in m[t] && IsLast(Offered(m, k), t) && assets[k] == m[t][NameOf(k)];
        LastIs(Offered(m, k), t);
      }
    }
  }

  lemma NamedKind(name: string)
    ensures
      var kind := KindFromName(name);
      kind.Some? ==> kind.value <= 7 && KindName(kind.value) == name
  {
  }

  // Under one model id a name is read for one key, if it is the name of a kind.
  lemma OnlyKey(id: uint32, name: string, k: Key)
    requires ModelOf(k) == id
    ensures NameOf(k) == name && KindOf(k) <= 7
       <==> KindFromName(name).Some? && k == KeyOf(id, KindFromName(name).value)
  {
    hide KindName, KindFromName;
    NamedKind(name);
    KindNameReadsBack(KindOf(k));
    if KindFromName(name).Some? {
      KeyUnpacks(id, KindFromName(name).value);
    }
  }

  lemma LoadOne(m: Manifest, assets: Assets, read: set<string>, text: string, seen: set<string>, name: string)
    requires text in m && name in m[text] && ParseModelId(text).Some?
    requires forall r :: r in read ==> Below(r, text)
    requires LoadedSoFar(m, assets, read, text, seen)
    ensures
      var id, kind := ParseModelId(text).value, KindFromName(name);
      LoadedSoFar(m, if kind.Some? then assets[KeyOf(id, kind.value) := m[text][name]] else assets,
                  read, text, seen + {name})
  {
    hide NameOf, ParseModelId, KindFromName, ModelOf, KindOf, KeyOf, Below;
    var id, kind := ParseModelId(text).value, KindFromName(name);
    var assets' := if kind.Some? then assets[KeyOf(id, kind.value) := m[text][name]] else assets;
    forall k: Key
      ensures HoldsLast(m, assets', Heard(m, read, text, seen + {name}, k), k)
    {
      assert HoldsLast(m, assets, Heard(m, read, text, seen, k), k);
      if kind.Some? && k == KeyOf(id, kind.value) {
        NewRecord(m, read, text, seen, name);
      } else {
        SameHeard(m, read, text, seen, name, k);
      }
    }
  }

  // The record just read is the last one heard for its key.
  lemma NewRecord(m: Manifest, read: set<string>, text: string, seen: set<string>, name: string)
    requires text in m && name in m[text] && ParseModelId(text).Some? && KindFromName(name).Some?
    requires forall r :: r in read ==> Below(r, text)
    ensures
      var k := KeyOf(ParseModelId(text).value, KindFromName(name).value);
      NameOf(k) == name && IsLast(Heard(m, read, text, seen + {name}, k), text)
  {
    hide KindName, KindFromName, ParseModelId, KeyOf, ModelOf, KindOf, Below;
    var id, kind := ParseModelId(text).value, KindFromName(name).value;
    KeyUnpacks(id, kind);
    NamedKind(name);
    assert NameOf(KeyOf(id, kind)) == name && Offers(m, text, KeyOf(id, kind));
  }

  lemma SameHeard(m: Manifest, read: set<string>, text: string, seen: set<string>, name: string, k: Key)
    requires ParseModelId(text).Some?
    requires !(KindFromName(name).Some? && k == KeyOf(ParseModelId(text).value, KindFromName(name).value))
    ensures Heard(m, read, text, seen + {name}, k) == Heard(m, read, text, seen, k)
  {
    hide NameOf, ParseModelId, KindFromName, ModelOf, KindOf, KeyOf;
    if Offers(m, text, k) {
      OnlyKey(ParseModelId(text).value, name, k);
    }
  }
}
