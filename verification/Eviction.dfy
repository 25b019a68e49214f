/** Sweep's plan: which files expire, and which of the rest are evicted for size. */
module Eviction {
  import opened Common
  import opened TransferSettings
  import opened CacheState

  datatype Entry = Entry(path: Path, writeTime: int, size: nat)

  predicate Expired(cfg: Settings, f: File, now: int) { now - f.writeTime > cfg.expireTimeMs }

  function EntryOf(disk: Disk, p: Path): Entry
    requires p in disk
  {
    Entry(p, disk[p].writeTime, |disk[p].bytes|)
  }

  function Limit(cfg: Settings): nat
    requires Valid(cfg)
  {
    cfg.maxCacheSizeMB * 1024 * 1024
  }

  function TotalSize(entries: seq<Entry>): nat {
    if entries == [] then 0 else entries[0].size + TotalSize(entries[1..])
  }

  // ---- std::sort by writeTime ----

  predicate Sorted(entries: seq<Entry>) {
    forall i, j :: 0 <= i < j < |entries| ==> entries[i].writeTime <= entries[j].writeTime
  }

  function Insert(e: Entry, entries: seq<Entry>): (r: seq<Entry>) {
    if entries == [] || e.writeTime <= entries[0].writeTime then [e] + entries
    else [entries[0]] + Insert(e, entries[1..])
  }

  function Sort(entries: seq<Entry>): seq<Entry> {
    if entries == [] then [] else Insert(entries[0], Sort(entries[1..]))
  }

  lemma {:induction false} InsertPermutes(e: Entry, entries: seq<Entry>)
    ensures multiset(Insert(e, entries)) == multiset(entries) + multiset{e}
  {
    if entries != [] && e.writeTime > entries[0].writeTime {
      InsertPermutes(e, entries[1..]);
      assert entries == [entries[0]] + entries[1..];
    }
  }

  lemma {:induction false} InsertSorts(e: Entry, entries: seq<Entry>)
    requires Sorted(entries)
    ensures Sorted(Insert(e, entries))
  {
    if entries != [] && e.writeTime > entries[0].writeTime {
      var rest := Insert(e, entries[1..]);
      InsertSorts(e, entries[1..]);
      InsertPermutes(e, entries[1..]);
      forall i | 0 <= i < |rest|
        ensures entries[0].writeTime <= rest[i].writeTime
      {
        assert rest[i] in multiset(rest);
        assert rest[i] == e || rest[i] in entries[1..];
      }
    }
  }

  lemma {:induction false} SortSorts(entries: seq<Entry>)
    ensures Sorted(Sort(entries)) && multiset(Sort(entries)) == multiset(entries)
  {
    if entries != [] {
      SortSorts(entries[1..]);
      InsertSorts(entries[0], Sort(entries[1..]));
      InsertPermutes(entries[0], Sort(entries[1..]));
      assert entries == [entries[0]] + entries[1..];
    }
  }

  lemma {:induction false} TotalSizeSplits(a: seq<Entry>, b: seq<Entry>)
    ensures TotalSize(a + b) == TotalSize(a) + TotalSize(b)
  {
    if a == [] {
      assert a + b == b;
    } else {
      assert (a + b)[1..] == a[1..] + b;
      TotalSizeSplits(a[1..], b);
    }
  }

  // The total does not depend on the order.
  lemma {:induction false} InsertTotal(e: Entry, entries: seq<Entry>)
    ensures TotalSize(Insert(e, entries)) == e.size + TotalSize(entries)
  {
    if entries != [] && e.writeTime > entries[0].writeTime {
      InsertTotal(e, entries[1..]);
    }
  }

  lemma {:induction false} SortTotal(entries: seq<Entry>)
    ensures TotalSize(Sort(entries)) == TotalSize(entries)
  {
    if entries != [] {
      SortTotal(entries[1..]);
      InsertTotal(entries[0], Sort(entries[1..]));
    }
  }

  // ---- the plan ----

  // order lists each unexpired file once; the first n of them are evicted.
  datatype Plan = Plan(order: seq<Entry>, n: nat)

  predicate Lists(cfg: Settings, disk: Disk, now: int, entries: seq<Entry>) {
    && (forall e :: e in entries ==> e.path in disk && !Expired(cfg, disk[e.path], now) && e == EntryOf(disk, e.path))
    && (forall p :: p in disk && !Expired(cfg, disk[p], now) ==> EntryOf(disk, p) in entries)
    && (forall e :: e in entries ==> multiset(entries)[e] == 1)
  }

  predicate IsPlan(cfg: Settings, disk: Disk, now: int, plan: Plan)
    requires Valid(cfg)
  {
    && Lists(cfg, disk, now, plan.order)
    && plan.n <= |plan.order|
    && TotalSize(plan.order[plan.n..]) <= Limit(cfg)
    && (plan.n > 0 ==> Sorted(plan.order) && TotalSize(plan.order[plan.n - 1..]) > Limit(cfg))
  }

  function PathsOf(entries: seq<Entry>): set<Path> { set e | e in entries :: e.path }

  // The files the plan removes.
  function Gone(cfg: Settings, disk: Disk, now: int, plan: Plan): set<Path>
    requires plan.n <= |plan.order|
  {
    (set p | p in disk && Expired(cfg, disk[p], now)) + PathsOf(plan.order[..plan.n])
  }

  lemma KeptPaths(cfg: Settings, disk: Disk, now: int, plan: Plan)
    requires Lists(cfg, disk, now, plan.order) && plan.n <= |plan.order|
    ensures (disk - Gone(cfg, disk, now, plan)).Keys == PathsOf(plan.order[plan.n..])
  {
    var front, back := plan.order[..plan.n], plan.order[plan.n..];
    assert plan.order == front + back;
    forall p
      ensures p in disk - Gone(cfg, disk, now, plan) <==> p in PathsOf(back)
    {
      if p in disk && !Expired(cfg, disk[p], now) {
        assert EntryOf(disk, p) in front || EntryOf(disk, p) in back;
      }
    }
  }

  lemma KeptEntries(cfg: Settings, disk: Disk, now: int, plan: Plan, e: Entry)
    requires Lists(cfg, disk, now, plan.order) && plan.n <= |plan.order| && e in plan.order[plan.n..]
    ensures e.path in disk - Gone(cfg, disk, now, plan) && e == EntryOf(disk, e.path)
  {
    KeptPaths(cfg, disk, now, plan);
    assert e in plan.order && e.path in PathsOf(plan.order[plan.n..]);
  }

  lemma SortedSplit(entries: seq<Entry>, n: nat, d: Entry, e: Entry)
    requires Sorted(entries) && n <= |entries| && d in entries[..n] && e in entries[n..]
    ensures d.writeTime <= e.writeTime
  {
    var i :| 0 <= i < n && entries[..n][i] == d;
    var j :| 0 <= j < |entries| - n && entries[n..][j] == e;
    assert entries[i] == d && entries[n + j] == e;
  }

  lemma EvictedAreOlder(cfg: Settings, disk: Disk, now: int, plan: Plan, e: Entry, p: Path)
    requires Lists(cfg, disk, now, plan.order) && plan.n <= |plan.order| && Sorted(plan.order)
    requires e in plan.order[..plan.n] && p in disk - Gone(cfg, disk, now, plan)
    ensures e.writeTime <= disk[p].writeTime
  {
    hide Gone, Lists, Sorted;
    KeptPaths(cfg, disk, now, plan);
    var d :| d in plan.order[plan.n..] && d.path == p;
    KeptEntries(cfg, disk, now, plan, d);
    SortedSplit(plan.order, plan.n, e, d);
  }

  /** After a sweep whose removals succeed: nothing expired is left; the files left are those of
      order[n..] and fit the limit together; every file evicted for size is no newer than every
      file left; and leaving the last one evicted in place would have exceeded the limit. */
  lemma SweepMeetsTheLimit(cfg: Settings, disk: Disk, now: int, plan: Plan)
    requires Valid(cfg) && IsPlan(cfg, disk, now, plan)
    ensures
      var left, kept := disk - Gone(cfg, disk, now, plan), plan.order[plan.n..];
      && (forall p :: p in left ==> !Expired(cfg, left[p], now))
      && left.Keys == PathsOf(kept)
      && (forall e :: e in kept ==> e == EntryOf(left, e.path))
      && TotalSize(kept) <= Limit(cfg)
      && (forall e, p :: e in plan.order[..plan.n] && p in left ==> e.writeTime <= left[p].writeTime)
      && (plan.n > 0 ==> plan.order[plan.n - 1].size + TotalSize(kept) > Limit(cfg))
  {
    hide Lists, Sorted, PathsOf, Expired, Limit;
    KeptPaths(cfg, disk, now, plan);
    var left, order, n := disk - Gone(cfg, disk, now, plan), plan.order, plan.n;
    var kept := order[n..];
    forall e | e in kept
      ensures e.path in left && e == EntryOf(left, e.path)
    {
      KeptEntries(cfg, disk, now, plan, e);
    }
    forall e, p | e in order[..n] && p in left
      ensures e.writeTime <= left[p].writeTime
    {
      EvictedAreOlder(cfg, disk, now, plan, e, p);
    }
    if n > 0 {
      assert order[n - 1..] == [order[n - 1]] + kept;
    }
  }

  // ---- what a sweep does to the disk ----

  ghost function DiskSize(disk: Disk): nat {
    if disk == map[] then 0
    else
      assert disk.Keys != {};
      var p :| p in disk;
      |disk[p].bytes| + DiskSize(disk - {p})
  }

  // The size does not depend on the order in which the files are counted.
  lemma {:induction false} DiskSizeWithout(disk: Disk, p: Path)
    requires p in disk
    ensures DiskSize(disk) == |disk[p].bytes| + DiskSize(disk - {p})
    decreases |disk|
  {
    var q :| q in disk && DiskSize(disk) == |disk[q].bytes| + DiskSize(disk - {q});
    if p != q {
      DiskSizeWithout(disk - {q}, p);
      DiskSizeWithout(disk - {p}, q);
      assert disk - {q} - {p} == disk - {p} - {q};
    }
  }

  lemma {:induction false} ListingSize(disk: Disk, entries: seq<Entry>)
    requires forall e :: e in entries ==> e.path in disk && e == EntryOf(disk, e.path) && multiset(entries)[e] == 1
    requires disk.Keys == PathsOf(entries)
    ensures TotalSize(entries) == DiskSize(disk)
  {
    if entries == [] {
      assert disk == map[];
    } else {
      var e, rest := entries[0], entries[1..];
      var disk' := disk - {e.path};
      assert entries == [e] + rest;
      forall d | d in rest
        ensures d.path in disk' && d == EntryOf(disk', d.path) && multiset(rest)[d] == 1
      {
        assert d in entries && multiset(entries)[e] == 1;
      }
      assert disk'.Keys == PathsOf(rest);
      DiskSizeWithout(disk, e.path);
      ListingSize(disk', rest);
    }
  }

  // p was unexpired and is gone.
  predicate Evicted(cfg: Settings, before: Disk, after: Disk, now: int, p: Path) {
    p in before && p !in after && !Expired(cfg, before[p], now)
  }

  // The last file evicted: none evicted is newer, and with it the rest would not fit.
  ghost predicate Needed(cfg: Settings, before: Disk, after: Disk, now: int, p: Path)
    requires Valid(cfg)
  {
    && Evicted(cfg, before, after, now, p)
    && (forall q :: Evicted(cfg, before, after, now, q) ==> before[q].writeTime <= before[p].writeTime)
    && |before[p].bytes| + DiskSize(after) > Limit(cfg)
  }

  /** What a sweep does: the files left are untouched and not expired, and they fit the limit; every
      file evicted is no newer than every file left; and nothing is evicted but out of need. */
  ghost predicate Swept(cfg: Settings, before: Disk, after: Disk, now: int)
    requires Valid(cfg)
  {
    && (forall p :: p in after ==> p in before && after[p] == before[p] && !Expired(cfg, after[p], now))
    && DiskSize(after) <= Limit(cfg)
    && (forall p, k :: Evicted(cfg, before, after, now, p) && k in after ==> before[p].writeTime <= after[k].writeTime)
    && (forall q :: Evicted(cfg, before, after, now, q) ==> exists p :: Needed(cfg, before, after, now, p))
  }

  // The files evicted are those of the first n entries.
  lemma EvictedAre(cfg: Settings, disk: Disk, now: int, plan: Plan, p: Path)
    requires Lists(cfg, disk, now, plan.order) && plan.n <= |plan.order|
    ensures
      Evicted(cfg, disk, disk - Gone(cfg, disk, now, plan), now, p) <==>
        p in disk && !Expired(cfg, disk[p], now) && EntryOf(disk, p) in plan.order[..plan.n]
  {
    if p in disk && !Expired(cfg, disk[p], now) && p in PathsOf(plan.order[..plan.n]) {
      var e :| e in plan.order[..plan.n] && e.path == p;
      assert e in plan.order;
    }
  }

  lemma KeptSize(cfg: Settings, disk: Disk, now: int, plan: Plan)
    requires Valid(cfg) && IsPlan(cfg, disk, now, plan)
    ensures DiskSize(disk - Gone(cfg, disk, now, plan)) == TotalSize(plan.order[plan.n..])
  {
    hide Gone, Expired, TotalSize, DiskSize, Sorted;
    SweepMeetsTheLimit(cfg, disk, now, plan);
    var order, n := plan.order, plan.n;
    forall e | e in order[n..]
      ensures multiset(order[n..])[e] == 1
    {
      assert order == order[..n] + order[n..] && e in order;
      assert multiset(order) == multiset(order[..n]) + multiset(order[n..]);
    }
    ListingSize(disk - Gone(cfg, disk, now, plan), order[n..]);
  }

  /** The plan's removals make such a sweep. */
  lemma PlanSweeps(cfg: Settings, disk: Disk, now: int, plan: Plan)
    requires Valid(cfg) && IsPlan(cfg, disk, now, plan)
    ensures Swept(cfg, disk, disk - Gone(cfg, disk, now, plan), now)
  {
    hide Gone, Expired, TotalSize, DiskSize, Evicted, Limit;
    var left, order, n := disk - Gone(cfg, disk, now, plan), plan.order, plan.n;
    SweepMeetsTheLimit(cfg, disk, now, plan);
    KeptSize(cfg, disk, now, plan);
    forall q | Evicted(cfg, disk, left, now, q)
      ensures q in disk && EntryOf(disk, q) in order[..n]
    {
      EvictedAre(cfg, disk, now, plan, q);
    }
    if n > 0 {
      LastIsNeeded(cfg, disk, now, plan);
    }
  }

  lemma LastIsNeeded(cfg: Settings, disk: Disk, now: int, plan: Plan)
    requires Valid(cfg) && IsPlan(cfg, disk, now, plan) && plan.n > 0
    ensures Needed(cfg, disk, disk - Gone(cfg, disk, now, plan), now, plan.order[plan.n - 1].path)
  {
    hide Gone, TotalSize, DiskSize, Evicted, Limit, Expired;
    var left, order, n := disk - Gone(cfg, disk, now, plan), plan.order, plan.n;
    SweepMeetsTheLimit(cfg, disk, now, plan);
    KeptSize(cfg, disk, now, plan);
    var last := order[n - 1];
    assert last in order && last in order[..n];
    EvictedAre(cfg, disk, now, plan, last.path);
    forall q | Evicted(cfg, disk, left, now, q)
      ensures q in disk && disk[q].writeTime <= disk[last.path].writeTime
    {
      EvictedAre(cfg, disk, now, plan, q);
      var i :| 0 <= i < n && order[i] == EntryOf(disk, q);
    }
  }

  lemma UnlockedSweeps(cfg: Settings, disk: Disk, now: int, plan: Plan, locked: set<Path>)
    requires Valid(cfg) && IsPlan(cfg, disk, now, plan)
    ensures locked == {} ==> Swept(cfg, disk, disk - (Gone(cfg, disk, now, plan) - locked), now)
  {
    hide Swept, Gone;
    PlanSweeps(cfg, disk, now, plan);
    assert locked == {} ==> Gone(cfg, disk, now, plan) - locked == Gone(cfg, disk, now, plan);
  }
}
