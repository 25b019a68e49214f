/** ModelCache for one server: the index, the files below the server's directory, and the saved
    manifest. Each operation as a function of the state; what the file system decides is a
    parameter. */
module CacheState {
  import opened Common
  import opened ManifestOrder
  import opened TransferSettings

  // <modelId>/<name>, relative to the server's cache directory
  datatype Path = Path(dir: string, name: string)

  datatype File = File(bytes: seq<byte>, writeTime: int)

  datatype Asset = Asset(sha: string, path: Path, size: nat, timestamp: int)

  type Disk = map<Path, File>
  type Assets = map<Key, Asset>
  // cache.json: "models" -> model id -> kind name -> record
  type Manifest = map<string, map<string, Asset>>

  datatype Cache = Cache(assets: Assets, disk: Disk, manifest: Manifest, loaded: bool)

  // ---- names ----

  function KindName(kind: byte): string {
    match kind
    case 0 => "dff"
    case 1 => "txd"
    case 2 => "col"
    case 3 => "engine"
    case 4 => "acceleration"
    case 5 => "deacceleration"
    case 6 => "brake"
    case 7 => "crash"
    case _ => "kind_" + Decimal(kind)
  }

  // EnsureServerInitialized knows only the eight names.
  function KindFromName(name: string): Option<byte> {
    if name == "dff" then Some(0)
    else if name == "txd" then Some(1)
    else if name == "col" then Some(2)
    else if name == "engine" then Some(3)
    else if name == "acceleration" then Some(4)
    else if name == "deacceleration" then Some(5)
    else if name == "brake" then Some(6)
    else if name == "crash" then Some(7)
    else None
  }

  function AssetFileName(kind: byte, wav: bool): string {
    match kind
    case 0 => "model.dff"
    case 1 => "model.txd"
    case 2 => "model.col"
    case 3 => if wav then "engine.wav" else "engine.ogg"
    case 4 => if wav then "acceleration.wav" else "acceleration.ogg"
    case 5 => if wav then "deacceleration.wav" else "deacceleration.ogg"
    case 6 => if wav then "brake.wav" else "brake.ogg"
    case 7 => if wav then "crash.wav" else "crash.ogg"
    case _ => "asset_" + Decimal(kind) + ".bin"
  }

  predicate IsAudio(kind: byte) { 3 <= kind <= 7 }

  function AssetPath(k: Key, wav: bool): Path {
    Path(Decimal(ModelOf(k)), AssetFileName(KindOf(k), wav))
  }

  predicate OwnPath(k: Key, p: Path) { p == AssetPath(k, false) || p == AssetPath(k, true) }

  lemma KindNameReadsBack(kind: byte)
    ensures KindFromName(KindName(kind)) == if kind <= 7 then Some(kind) else None
  {
    if kind > 7 {
      assert KindName(kind)[0] == 'k';
    }
  }

  /** The file names say what kind they are of: a model's parts by their extension, a sound by its stem. */
  lemma ModelFilesTellTheKind(kind: byte, wav: bool)
    ensures KindName(0) == "dff" && KindName(1) == "txd" && KindName(2) == "col"
    ensures kind <= 2 ==> AssetFileName(kind, wav) == "model." + KindName(kind)
  {
  }

  lemma SoundFilesTellTheKind(kind: byte, wav: bool)
    requires IsAudio(kind)
    ensures AssetFileName(kind, wav) == KindName(kind) + (if wav then ".wav" else ".ogg")
  {
  }

  lemma KindNameInjective(a: byte, b: byte)
    requires KindName(a) == KindName(b)
    ensures a == b
  {
    KindNameReadsBack(a);
    KindNameReadsBack(b);
    if a >= 8 && b >= 8 {
      assert KindName(a)[5..] == Decimal(a) && KindName(b)[5..] == Decimal(b);
      DecimalInjective(a, b);
    }
  }

  lemma AssetFileNameInjective(a: byte, v: bool, b: byte, w: bool)
    requires AssetFileName(a, v) == AssetFileName(b, w)
    ensures a == b
  {
    var s, t := AssetFileName(a, v), AssetFileName(b, w);
    if a >= 8 && b >= 8 {
      assert s[6..|s| - 4] == Decimal(a) && t[6..|t| - 4] == Decimal(b);
      DecimalInjective(a, b);
    } else if a < 8 && b < 8 {
      assert (s[0], s[1], s[6]) == (t[0], t[1], t[6]);
    }
  }

  lemma OwnPathInjective(a: Key, b: Key, p: Path)
    requires OwnPath(a, p) && OwnPath(b, p)
    ensures a == b
  {
    DecimalInjective(ModelOf(a), ModelOf(b));
    AssetFileNameInjective(KindOf(a), p == AssetPath(a, true), KindOf(b), p == AssetPath(b, true));
  }

  // ---- manifest ----

  function LeadingDigits(s: string): string {
    if s == [] || !IsDigit(s[0]) then [] else [s[0]] + LeadingDigits(s[1..])
  }

  lemma {:induction false} LeadingDigitsAreDigits(s: string)
    ensures forall c :: c in LeadingDigits(s) ==> IsDigit(c)
    ensures (forall c :: c in s ==> IsDigit(c)) ==> LeadingDigits(s) == s
  {
    if s != [] {
      LeadingDigitsAreDigits(s[1..]);
    }
  }

  predicate IsSpace(c: char) { c == ' ' || '\t' <= c <= '\r' }

  function SkipSpaces(s: string): string { if s == [] || !IsSpace(s[0]) then s else SkipSpaces(s[1..]) }

  // std::stoul: white space, a sign, digits. Without digits or past 32 bits it throws; a minus
  // negates modulo 2^32.
  function ParseModelId(s: string): Option<uint32> {
    var text := SkipSpaces(s);
    var signed, minus := text != [] && (text[0] == '+' || text[0] == '-'), text != [] && text[0] == '-';
    var rest := if signed then text[1..] else text;
    var digits := LeadingDigits(rest);
    LeadingDigitsAreDigits(rest);
    if digits == [] || DigitsValue(digits) >= TWO32 then None
    else Some(if minus then (TWO32 - DigitsValue(digits)) % TWO32 else DigitsValue(digits))
  }

  lemma ModelIdReadsBack(modelId: uint32)
    ensures ParseModelId(Decimal(modelId)) == Some(modelId)
  {
    DecimalReadsBack(modelId);
    LeadingDigitsAreDigits(Decimal(modelId));
    assert IsDigit(Decimal(modelId)[0]);
    assert SkipSpaces(Decimal(modelId)) == Decimal(modelId);
  }

  // The id and the kind that a manifest key stands for, 0 when it stands for none.
  function IdNamed(text: string): uint32 {
    match ParseModelId(text) case None => 0 case Some(id) => id
  }

  function KindNamed(name: string): byte {
    match KindFromName(name)
    case Some(kind) => kind
    case None =>
      var digits := if |name| < 5 then [] else LeadingDigits(name[5..]);
      LeadingDigitsAreDigits(if |name| < 5 then [] else name[5..]);
      if DigitsValue(digits) < 0x100 then DigitsValue(digits) else 0
  }

  lemma KindNamedReadsBack(kind: byte)
    ensures KindNamed(KindName(kind)) == kind
  {
    KindNameReadsBack(kind);
    if kind > 7 {
      assert KindName(kind)[5..] == Decimal(kind);
      DecimalReadsBack(kind);
      LeadingDigitsAreDigits(Decimal(kind));
    }
  }

  // Where key k goes in the manifest.
  function TextOf(k: Key): string { Decimal(ModelOf(k)) }

  function NameOf(k: Key): string { KindName(KindOf(k)) }

  lemma PlaceInjective(j: Key, k: Key)
    requires TextOf(j) == TextOf(k) && NameOf(j) == NameOf(k)
    ensures j == k
  {
    DecimalInjective(ModelOf(j), ModelOf(k));
    KindNameInjective(KindOf(j), KindOf(k));
  }

  lemma PlaceReadsBack(k: Key)
    ensures IdNamed(TextOf(k)) == ModelOf(k) && KindNamed(NameOf(k)) == KindOf(k)
    ensures KeyOf(ModelOf(k), KindOf(k)) == k
  {
    ModelIdReadsBack(ModelOf(k));
    KindNamedReadsBack(KindOf(k));
  }

  function KindsOf(assets: Assets, modelId: uint32): map<string, Asset> {
    var names := set k | k in assets && ModelOf(k) == modelId :: NameOf(k);
    map name | name in names && KeyOf(modelId, KindNamed(name)) in assets
      :: assets[KeyOf(modelId, KindNamed(name))]
  }

  // What SaveManifest writes.
  function Nest(assets: Assets): Manifest {
    var texts := set k | k in assets :: TextOf(k);
    map text | text in texts :: KindsOf(assets, IdNamed(text))
  }

  // The model ids of a manifest that SaveManifest wrote.
  predicate Canonical(m: Manifest) {
    forall text :: text in m ==> exists id: uint32 :: text == Decimal(id)
  }

  // The record under `text` is one that loading takes for the key k.
  predicate Offers(m: Manifest, text: string, k: Key) {
    text in m && ParseModelId(text) == Some(ModelOf(k)) && KindOf(k) <= 7 && NameOf(k) in m[text]
  }

  function Offered(m: Manifest, k: Key): set<string> { set text | text in m && Offers(m, text, k) }

  // What loading puts in the index: the models are read in the order of their names, and where several
  // names stand for one model id, as may be when someone else wrote them, the last record read stays.
  function Flatten(m: Manifest): Assets {
    map k: Key | 0 <= k < 0x100_0000_0000 && Offered(m, k) != {} :: m[LastOf(Offered(m, k))][NameOf(k)]
  }

  lemma FlattenAt(m: Manifest, k: Key)
    ensures k in Flatten(m) <==> Offered(m, k) != {}
    ensures k in Flatten(m) ==> Flatten(m)[k] == m[LastOf(Offered(m, k))][NameOf(k)]
  {
  }

  lemma CanonicalOffers(m: Manifest, k: Key)
    requires Canonical(m)
    ensures Offered(m, k) == if TextOf(k) in m && KindOf(k) <= 7 && NameOf(k) in m[TextOf(k)] then {TextOf(k)} else {}
  {
    hide KindName, Decimal, ModelOf, KindOf;
    ModelIdReadsBack(ModelOf(k));
    forall text | Offers(m, text, k)
      ensures text == TextOf(k)
    {
      var id: uint32 :| text == Decimal(id);
      ModelIdReadsBack(id);
    }
  }

  // From a manifest with canonical names: the one record that is under the key's own name.
  lemma CanonicalFlatten(m: Manifest, k: Key)
    requires Canonical(m)
    ensures k in Flatten(m) <==> TextOf(k) in m && KindOf(k) <= 7 && NameOf(k) in m[TextOf(k)]
    ensures k in Flatten(m) ==> Flatten(m)[k] == m[TextOf(k)][NameOf(k)]
  {
    hide Canonical, Flatten, TextOf, NameOf, KindOf;
    CanonicalOffers(m, k);
    FlattenAt(m, k);
    if Offered(m, k) != {} {
      LastIs(Offered(m, k), TextOf(k));
    }
  }

  // Records of the eight kinds that have a name.
  function NamedKinds(assets: Assets): Assets {
    map k | k in assets && KindOf(k) <= 7 :: assets[k]
  }

  lemma NestHolds(assets: Assets, k: Key)
    ensures
      var m, text, name := Nest(assets), TextOf(k), NameOf(k);
      && (k in assets <==> text in m && name in m[text])
      && (k in assets ==> m[text][name] == assets[k])
  {
    hide TextOf, NameOf, KindNamed, IdNamed, ModelOf, KindOf, KeyOf;
    PlaceReadsBack(k);
  }

  /** Loading what SaveManifest wrote gives back every record of the eight named kinds, and only
      those: records of kinds 8 and up do not survive. */
  lemma ManifestRoundTrip(assets: Assets)
    ensures Canonical(Nest(assets))
    ensures Flatten(Nest(assets)) == NamedKinds(assets)
  {
    hide NameOf, KindsOf, KindOf, KeyOf, Decimal, Flatten;
    var m := Nest(assets);
    forall k: Key
      ensures k in Flatten(m) <==> k in NamedKinds(assets)
      ensures k in Flatten(m) ==> Flatten(m)[k] == assets[k]
    {
      NestHolds(assets, k);
      CanonicalFlatten(m, k);
    }
  }

  /** So the round trip is exact exactly when no record has a kind above 7. */
  lemma ManifestIsWholeIff(assets: Assets)
    ensures Flatten(Nest(assets)) == assets <==> forall k :: k in assets ==> KindOf(k) <= 7
  {
    hide Nest, Flatten, KindOf;
    ManifestRoundTrip(assets);
    if forall k :: k in assets ==> KindOf(k) <= 7 {
      assert NamedKinds(assets) == assets;
    }
  }

  // ---- operations ----

  // fs::remove, which fails on a path another process keeps open
  function Remove(disk: Disk, p: Path, locked: set<Path>): Disk {
    if p in locked then disk else disk - {p}
  }

  function Load(c: Cache): Cache {
    if c.loaded then c else c.(assets := Flatten(c.manifest), loaded := true)
  }

  function Reload(c: Cache): Cache { Load(c.(loaded := false)) }

  function Save(c: Cache): Cache { c.(manifest := Nest(c.assets)) }

  function Forget(c: Cache, k: Key): Cache { Save(c.(assets := c.assets - {k})) }

  // The file TryGet looks at when the index has no record.
  function FallbackPath(disk: Disk, k: Key): Path {
    var ogg, wav := AssetPath(k, false), AssetPath(k, true);
    if ogg !in disk && IsAudio(KindOf(k)) && wav in disk then wav else ogg
  }

  datatype Lookup = Lookup(cache: Cache, path: Option<Path>)

  // `readable` is whether ComputeFileSHA256 can read the fallback file.
  function TryGet(hash: seq<byte> -> string, cfg: Settings, c0: Cache, k: Key, expected: string,
                  now: int, locked: set<Path>, readable: bool): Lookup
  {
    if !cfg.cacheEnabled then Lookup(c0, None)
    else
      var c := Load(c0);
      if k in c.assets then
        var a := c.assets[k];
        if expected != "" && !SameIgnoringCase(a.sha, expected) then
          Lookup(Forget(c.(disk := Remove(c.disk, a.path, locked)), k), None)
        else if a.path in c.disk && c.disk[a.path].bytes != [] then
          Lookup(c, Some(a.path))
        else
          Lookup(Forget(c.(disk := Remove(c.disk, a.path, locked)), k), None)
      else
        var p := FallbackPath(c.disk, k);
        if p !in c.disk then Lookup(c, None)
        else
          var bytes := c.disk[p].bytes;
          if bytes != [] && expected != "" && readable && SameIgnoringCase(hash(bytes), expected) then
            Lookup(Save(c.(assets := c.assets[k := Asset(hash(bytes), p, |bytes|, now)])), Some(p))
          else
            Lookup(c.(disk := Remove(c.disk, p, locked)), None)
  }

  function Invalidate(c0: Cache, k: Key, locked: set<Path>): Cache {
    var c1 := Load(c0);
    var c := if k in c1.assets
             then Forget(c1.(disk := Remove(c1.disk, c1.assets[k].path, locked)), k) else c1;
    var d := Remove(c.disk, AssetPath(k, false), locked);
    c.(disk := if IsAudio(KindOf(k)) then Remove(d, AssetPath(k, true), locked) else d)
  }

  // A failed write leaves the old file or none.
  datatype WriteResult = Written | Untouched | Deleted

  predicate IsRiff(bytes: seq<byte>) { 4 <= |bytes| && bytes[..4] == [0x52, 0x49, 0x46, 0x46] }

  function StorePath(k: Key, bytes: seq<byte>): Path {
    AssetPath(k, IsAudio(KindOf(k)) && IsRiff(bytes))
  }

  /** A sound that starts with the letters RIFF is stored as a wav file, and every other file under the standard
      name of its kind. */
  lemma StoredAsWavIff(k: Key, bytes: seq<byte>)
    ensures
      var wav := 3 <= KindOf(k) <= 7 && 4 <= |bytes|
                 && bytes[0] == 0x52 && bytes[1] == 0x49 && bytes[2] == 0x46 && bytes[3] == 0x46;
      && StorePath(k, bytes).dir == Decimal(ModelOf(k))
      && StorePath(k, bytes).name == AssetFileName(KindOf(k), wav)
  {
  }

  datatype Stored = Stored(cache: Cache, ok: bool)

  function Store(hash: seq<byte> -> string, cfg: Settings, c0: Cache, k: Key, bytes: seq<byte>, sha: string,
                 result: WriteResult, now: int): Stored
  {
    if !cfg.cacheEnabled || bytes == [] then Stored(c0, false)
    else
      var c := Load(c0);
      var p := StorePath(k, bytes);
      match result
      case Untouched => Stored(c, false)
      case Deleted => Stored(c.(disk := c.disk - {p}), false)
      case Written =>
        var a := Asset(if sha == "" then hash(bytes) else sha, p, |bytes|, now);
        Stored(Save(c.(disk := c.disk[p := File(bytes, now)], assets := c.assets[k := a])), true)
  }

  // Sweep, once it is settled which files go. It saves the manifest only after evicting for size.
  function SweepAway(cfg: Settings, c: Cache, gone: set<Path>, saves: bool): Cache {
    if !cfg.cacheEnabled then c
    else
      var swept := Load(c).(disk := c.disk - gone);
      if saves then Save(swept) else swept
  }
}
