/** TransferConfig: the numeric settings, their defaults and their range checks. */
module TransferSettings {
  import opened Common

  datatype Settings = Settings(
    expireTimeMs: int,
    maxCacheSizeMB: int,
    cacheEnabled: bool,
    retryMaxAttempts: int,
    retryInitialBackoffMs: int,
    retryMaxBackoffMs: int,
    retryResponseTimeoutMs: int,
    clientMaxUncompressedSize: int,
    clientMaxCompressedSize: int)

  const DEFAULTS := Settings(86400000, 512, true, 5, 500, 60000, 30000, 209715200, 167772160)

  // What the protocol and the cache rely on.
  predicate Valid(s: Settings) {
    && 60000 <= s.expireTimeMs <= 365 * 86400000
    && 16 <= s.maxCacheSizeMB <= 1048576
    && 1 <= s.retryMaxAttempts <= 50
    && 50 <= s.retryInitialBackoffMs <= 60000
    && s.retryInitialBackoffMs <= s.retryMaxBackoffMs <= 600000
    && 15000 <= s.retryResponseTimeoutMs <= 120000
    && 1048576 <= s.clientMaxUncompressedSize <= 1073741824
    && 1048576 <= s.clientMaxCompressedSize <= 1073741824
  }

  // The numeric settings by name; names are matched without regard to case.
  datatype Name =
    | ExpireTimeMs | MaxCacheSizeMB | RetryMaxAttempts | RetryInitialBackoffMs | RetryMaxBackoffMs
    | RetryResponseTimeoutMs | ClientMaxUncompressedSize | ClientMaxCompressedSize

  // m_entries: None when the whole value is not one number.
  type Entries = map<Name, Option<int>>

  predicate Accepted(entries: Entries, key: Name, lo: int, hi: int) {
    key in entries && entries[key].Some? && lo <= entries[key].value <= hi
  }

  function GetRangedInt64(entries: Entries, key: Name, fallback: int, lo: int, hi: int): (r: int)
    ensures Accepted(entries, key, lo, hi) ==> lo <= r <= hi && entries[key] == Some(r)
    ensures !Accepted(entries, key, lo, hi) ==> r == fallback
  {
    if key !in entries then fallback
    else match entries[key]
      case None => fallback
      case Some(v) => if v < lo || v > hi then fallback else v
  }

  function Loaded(old_: Settings, entries: Entries, cacheEnabled: bool): Settings {
    var initial := GetRangedInt64(entries, RetryInitialBackoffMs, old_.retryInitialBackoffMs, 50, 60000);
    Settings(
      GetRangedInt64(entries, ExpireTimeMs, old_.expireTimeMs, 60000, 365 * 86400000),
      GetRangedInt64(entries, MaxCacheSizeMB, old_.maxCacheSizeMB, 16, 1048576),
      cacheEnabled,
      GetRangedInt64(entries, RetryMaxAttempts, old_.retryMaxAttempts, 1, 50),
      initial,
      GetRangedInt64(entries, RetryMaxBackoffMs, old_.retryMaxBackoffMs, initial, 600000),
      GetRangedInt64(entries, RetryResponseTimeoutMs, old_.retryResponseTimeoutMs, 15000, 120000),
      GetRangedInt64(entries, ClientMaxUncompressedSize, old_.clientMaxUncompressedSize, 1048576, 1073741824),
      GetRangedInt64(entries, ClientMaxCompressedSize, old_.clientMaxCompressedSize, 1048576, 1073741824))
  }

  /** Loading any file over the built-in defaults gives settings the other modules may rely on. */
  lemma FirstLoadIsValid(entries: Entries, cacheEnabled: bool)
    ensures Valid(Loaded(DEFAULTS, entries, cacheEnabled))
  {
  }

  /** Over arbitrary valid settings that is false in one way only: a new initial back-off above
      an old maximum that the file does not replace. */
  lemma LoadIsValidIff(old_: Settings, entries: Entries, cacheEnabled: bool)
    requires Valid(old_)
    ensures
      var initial := GetRangedInt64(entries, RetryInitialBackoffMs, old_.retryInitialBackoffMs, 50, 60000);
      Valid(Loaded(old_, entries, cacheEnabled)) <==>
        (Accepted(entries, RetryMaxBackoffMs, initial, 600000) || initial <= old_.retryMaxBackoffMs)
  {
  }

  /** Two loads that do: a file that lowers the maximum, then one that only raises the initial
      back-off above it. */
  lemma TwoLoadsCanBreakTheOrder()
    ensures
      var once := Loaded(DEFAULTS, map[RetryMaxBackoffMs := Some(1000)], true);
      var twice := Loaded(once, map[RetryInitialBackoffMs := Some(5000)], true);
      Valid(once) && !Valid(twice) && twice.retryInitialBackoffMs == 5000 && twice.retryMaxBackoffMs == 1000
  {
    var first: Entries := map[RetryMaxBackoffMs := Some(1000)];
    var second: Entries := map[RetryInitialBackoffMs := Some(5000)];
    assert Accepted(first, RetryMaxBackoffMs, 500, 600000) && Accepted(second, RetryInitialBackoffMs, 50, 60000);
  }

  // ---- each line its own setting ----

  function SettingOf(s: Settings, key: Name): int {
    match key
    case ExpireTimeMs => s.expireTimeMs
    case MaxCacheSizeMB => s.maxCacheSizeMB
    case RetryMaxAttempts => s.retryMaxAttempts
    case RetryInitialBackoffMs => s.retryInitialBackoffMs
    case RetryMaxBackoffMs => s.retryMaxBackoffMs
    case RetryResponseTimeoutMs => s.retryResponseTimeoutMs
    case ClientMaxUncompressedSize => s.clientMaxUncompressedSize
    case ClientMaxCompressedSize => s.clientMaxCompressedSize
  }

  // The least and the most a file may set; the maximum back-off also not below the initial one.
  function Range(key: Name): (int, int) {
    match key
    case ExpireTimeMs => (60000, 31536000000)
    case MaxCacheSizeMB => (16, 1048576)
    case RetryMaxAttempts => (1, 50)
    case RetryInitialBackoffMs => (50, 60000)
    case RetryMaxBackoffMs => (0, 600000)
    case RetryResponseTimeoutMs => (15000, 120000)
    case ClientMaxUncompressedSize => (1048576, 1073741824)
    case ClientMaxCompressedSize => (1048576, 1073741824)
  }

  /** A line sets its own setting, if its value is in that setting's range, and no other: one for which the
      file has no good line stays as it was. */
  lemma LineSetsItsOwn(old_: Settings, entries: Entries, cacheEnabled: bool, key: Name)
    ensures
      var s, (lo, hi) := Loaded(old_, entries, cacheEnabled), Range(key);
      var least := if key == RetryMaxBackoffMs then s.retryInitialBackoffMs else lo;
      && SettingOf(s, key) == (if Accepted(entries, key, least, hi) then entries[key].value else SettingOf(old_, key))
      && s.cacheEnabled == cacheEnabled
  {
  }

  // ---- the loader ----

  // A line that gives a setting a value.
  datatype Line = Line(key: Name, value: Option<int>)

  // m_entries after these lines: the last one of each key counts.
  function EntriesOf(lines: seq<Line>): Entries {
    if lines == [] then map[]
    else EntriesOf(lines[..|lines| - 1])[lines[|lines| - 1].key := lines[|lines| - 1].value]
  }

  class TransferConfig {
    var entries: Entries
    var expireTimeMs: int
    var maxCacheSizeMB: int
    var cacheEnabled: bool
    var retryMaxAttempts: int
    var retryInitialBackoffMs: int
    var retryMaxBackoffMs: int
    var retryResponseTimeoutMs: int
    var clientMaxUncompressedSize: int
    var clientMaxCompressedSize: int

    constructor ()
      ensures View() == DEFAULTS
    {
      entries := map[];
      expireTimeMs, maxCacheSizeMB, cacheEnabled := 86400000, 512, true;
      retryMaxAttempts, retryInitialBackoffMs, retryMaxBackoffMs, retryResponseTimeoutMs := 5, 500, 60000, 30000;
      clientMaxUncompressedSize, clientMaxCompressedSize := 209715200, 167772160;
    }

    function View(): Settings
      reads this
    {
      Settings(expireTimeMs, maxCacheSizeMB, cacheEnabled, retryMaxAttempts, retryInitialBackoffMs, retryMaxBackoffMs,
               retryResponseTimeoutMs, clientMaxUncompressedSize, clientMaxCompressedSize)
    }

    method ReadLines(lines: seq<Line>)
      modifies this`entries
      ensures entries == EntriesOf(lines)
    {
      entries := map[];
      for i := 0 to |lines|
        invariant entries == EntriesOf(lines[..i])
      {
        assert lines[..i + 1][..i] == lines[..i];
        entries := entries[lines[i].key := lines[i].value];
      }
      assert lines[..|lines|] == lines;
    }

    // `enabled`: what GetValidatedBool makes of CacheEnabled
    method Load(lines: seq<Line>, enabled: bool)
      modifies this
      ensures entries == EntriesOf(lines)
      ensures View() == Loaded(old(View()), EntriesOf(lines), enabled)
      ensures old(View()) == DEFAULTS ==> Valid(View())
    {
      hide Valid, GetRangedInt64, Accepted, EntriesOf;
      ReadLines(lines);
      FirstLoadIsValid(entries, enabled);
      expireTimeMs := GetRangedInt64(entries, ExpireTimeMs, expireTimeMs, 60000, 365 * 86400000);
      maxCacheSizeMB := GetRangedInt64(entries, MaxCacheSizeMB, maxCacheSizeMB, 16, 1048576);
      cacheEnabled := enabled;
      retryMaxAttempts := GetRangedInt64(entries, RetryMaxAttempts, retryMaxAttempts, 1, 50);
      retryInitialBackoffMs := GetRangedInt64(entries, RetryInitialBackoffMs, retryInitialBackoffMs, 50, 60000);
      retryMaxBackoffMs := GetRangedInt64(entries, RetryMaxBackoffMs, retryMaxBackoffMs, retryInitialBackoffMs, 600000);
      retryResponseTimeoutMs := GetRangedInt64(entries, RetryResponseTimeoutMs, retryResponseTimeoutMs, 15000, 120000);
      clientMaxUncompressedSize :=
        GetRangedInt64(entries, ClientMaxUncompressedSize, clientMaxUncompressedSize, 1048576, 1073741824);
      clientMaxCompressedSize :=
        GetRangedInt64(entries, ClientMaxCompressedSize, clientMaxCompressedSize, 1048576, 1073741824);
    }
  }
}
