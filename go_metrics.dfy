/**
 * The process collector of the Go monitor (`Collector.Snapshot`).  Each call
 * reads one sample per process, derives CPU% from how much CPU time the
 * process used since it was last seen, keeps a per-PID cache of those times,
 * orders the result by CPU% and drops cache entries of processes that are
 * gone.  What gopsutil reports is an input: a list of per-process samples
 * whose fields are `None` where the lookup failed.  The `float64`/`float32`
 * values are `real`; times are integer nanoseconds.
 */
module GoMetrics {
  import opened Wrappers
  import opened Text
  import Seqs

  const NanosPerSecond: real := 1000000000.0

  /** User and system CPU seconds of one process (`TimesWithContext`). */
  datatype CpuTimes = CpuTimes(user: real, system: real)

  /** One process as gopsutil describes it; `None` is a lookup that returned an error. */
  datatype ProcSample = ProcSample(
    pid: int,
    name: Option<seq<byte>>,
    memRss: Option<nat>,
    memPercent: Option<real>,
    times: Option<CpuTimes>,
    createTime: int)

  /** `ProcessInfo`: one row of the snapshot. */
  datatype ProcessInfo = ProcessInfo(
    pid: int,
    name: seq<byte>,
    cpuPercent: real,
    memRss: nat,
    memPercent: real,
    createTime: int)

  /** `cpuCache`: CPU seconds and wall-clock time of the last reading. */
  datatype CpuCache = CpuCache(total: real, ts: int)

  /** The fields of `Collector` (the mutex is not modelled). */
  datatype CollectorState = CollectorState(cache: map<int, CpuCache>, lastTs: Option<int>, numCpu: int)

  function Lookup(cache: map<int, CpuCache>, pid: int): (r: Option<CpuCache>)
    ensures r.Some? <==> pid in cache
    ensures r.Some? ==> r.value == cache[pid]
  {
    if pid in cache then Some(cache[pid]) else None
  }

  function Total(t: CpuTimes): real {
    t.user + t.system
  }

  /**
   * CPU% of one process: the CPU seconds used since the cached reading over
   * the wall seconds elapsed times the number of CPUs, in percent; zero
   * without a cached reading or unless both deltas and the CPU count are
   * positive, and never negative.
   */
  function CpuPercent(prev: Option<CpuCache>, curTotal: real, now: int, numCpu: int): real {
    match prev
    case None => 0.0
    case Some(c) =>
      var deltaProc := curTotal - c.total;
      var deltaWall := (now - c.ts) as real / NanosPerSecond;
      if deltaProc > 0.0 && deltaWall > 0.0 && numCpu > 0 then
        var pct := (deltaProc / (deltaWall * numCpu as real)) * 100.0;
        if pct < 0.0 then 0.0 else pct
      else 0.0
  }

  /** A process is listed only when its name lookup succeeded with a non-empty name. */
  predicate Named(p: ProcSample) {
    p.name.Some? && p.name.value != []
  }

  /** A listed process whose CPU times were read: its cache entry is rewritten. */
  predicate Timed(p: ProcSample) {
    Named(p) && p.times.Some?
  }

  /** The row built for a listed process; failed memory lookups read as zero. */
  function InfoOf(p: ProcSample, cpu: real): ProcessInfo
    requires Named(p)
  {
    ProcessInfo(p.pid, p.name.value,
                cpu,
                if p.memRss.Some? then p.memRss.value else 0,
                if p.memPercent.Some? then p.memPercent.value else 0.0,
                p.createTime)
  }

  /** The rows gathered so far and the cache as the sampling loop has left it. */
  datatype Pass = Pass(infos: seq<ProcessInfo>, cache: map<int, CpuCache>)

  /** One iteration of the sampling loop. */
  function Visit(acc: Pass, p: ProcSample, numCpu: int, now: int): Pass {
    if !Named(p) then acc
    else if p.times.None? then Pass(acc.infos + [InfoOf(p, 0.0)], acc.cache)
    else
      var cur := Total(p.times.value);
      var cpu := CpuPercent(Lookup(acc.cache, p.pid), cur, now, numCpu);
      Pass(acc.infos + [InfoOf(p, cpu)], acc.cache[p.pid := CpuCache(cur, now)])
  }

  /** The sampling loop over `ps`, in order, starting from `cache`. */
  function Visited(cache: map<int, CpuCache>, ps: seq<ProcSample>, numCpu: int, now: int): Pass
    decreases |ps|
  {
    if ps == [] then Pass([], cache)
    else Visit(Visited(cache, ps[..|ps| - 1], numCpu, now), ps[|ps| - 1], numCpu, now)
  }

  /** The comparator of the final `sort.Slice`: higher CPU% first. */
  function CpuNotLess(a: ProcessInfo, b: ProcessInfo): bool {
    a.cpuPercent >= b.cpuPercent
  }

  lemma CpuNotLessIsTotalPreorder()
    ensures Seqs.TotalPreorder(CpuNotLess)
  {
  }

  function Pids(infos: seq<ProcessInfo>): set<int> {
    set i | 0 <= i < |infos| :: infos[i].pid
  }

  /** The cache with every PID outside `alive` deleted. */
  function Pruned(cache: map<int, CpuCache>, alive: set<int>): map<int, CpuCache> {
    map k | k in cache && k in alive :: cache[k]
  }

  /** What `Snapshot` returns, and the collector it leaves behind. */
  datatype Snap = Snap(result: Result<seq<ProcessInfo>, string>, collector: CollectorState)

  function Snapshotted(c: CollectorState, procs: Result<seq<ProcSample>, string>, now: int): Snap {
    match procs
    case Err(e) => Snap(Err(e), c)
    case Ok(ps) =>
      var pass := Visited(c.cache, ps, c.numCpu, now);
      var sorted := Seqs.StableSort(pass.infos, CpuNotLess);
      Snap(Ok(sorted), c.(cache := Pruned(pass.cache, Pids(sorted)), lastTs := Some(now)))
  }

  // ---------------------------------------------------------------------
  // Properties
  // ---------------------------------------------------------------------

  /** CPU% is never negative, and positive only after a reading with positive deltas. */
  lemma CpuPercentSpec(prev: Option<CpuCache>, curTotal: real, now: int, numCpu: int)
    ensures CpuPercent(prev, curTotal, now, numCpu) >= 0.0
    ensures prev.None? ==> CpuPercent(prev, curTotal, now, numCpu) == 0.0
    ensures prev.Some? && (curTotal <= prev.value.total || now <= prev.value.ts || numCpu <= 0) ==>
              CpuPercent(prev, curTotal, now, numCpu) == 0.0
  {
  }

  /** The rows are exactly the named samples, in input order, with their own fields. */
  lemma {:induction false} VisitedListsNamed(cache: map<int, CpuCache>, ps: seq<ProcSample>, numCpu: int, now: int)
    ensures var infos := Visited(cache, ps, numCpu, now).infos;
      var named := Seqs.Filter(ps, Named);
      && |infos| == |named|
      && forall i :: 0 <= i < |named| ==> infos[i] == InfoOf(named[i], infos[i].cpuPercent)
  {
    if ps != [] {
      var init, p := ps[..|ps| - 1], ps[|ps| - 1];
      assert ps == init + [p];
      VisitedListsNamed(cache, init, numCpu, now);
      Seqs.FilterSnoc(init, p, Named);
      var acc := Visited(cache, init, numCpu, now);
      VisitAppends(acc, p, numCpu, now);
    }
  }

  /** One step of the loop appends a row for a named process and nothing otherwise. */
  lemma VisitAppends(acc: Pass, p: ProcSample, numCpu: int, now: int)
    ensures var infos := Visit(acc, p, numCpu, now).infos;
      && (Named(p) ==> |infos| == |acc.infos| + 1 && infos[..|acc.infos|] == acc.infos
                       && infos[|acc.infos|] == InfoOf(p, infos[|acc.infos|].cpuPercent))
      && (!Named(p) ==> infos == acc.infos)
  {
    if Named(p) {
      var infos := Visit(acc, p, numCpu, now).infos;
      assert infos[..|acc.infos|] == acc.infos;
    }
  }

  /** No row has a negative CPU%; a row whose times could not be read shows zero. */
  lemma {:induction false} VisitedCpuNonNegative(cache: map<int, CpuCache>, ps: seq<ProcSample>, numCpu: int, now: int)
    ensures forall i :: 0 <= i < |Visited(cache, ps, numCpu, now).infos| ==>
              Visited(cache, ps, numCpu, now).infos[i].cpuPercent >= 0.0
    ensures var infos := Visited(cache, ps, numCpu, now).infos;
      var named := Seqs.Filter(ps, Named);
      forall i :: 0 <= i < |named| && named[i].times.None? ==> i < |infos| && infos[i].cpuPercent == 0.0
  {
    VisitedUntimedShowZero(cache, ps, numCpu, now);
    if ps != [] {
      var init := ps[..|ps| - 1];
      VisitedCpuNonNegative(cache, init, numCpu, now);
      var acc := Visited(cache, init, numCpu, now);
      var p := ps[|ps| - 1];
      if Timed(p) {
        CpuPercentSpec(Lookup(acc.cache, p.pid), Total(p.times.value), now, numCpu);
      }
    }
  }

  /** The `i`-th listed process shows 0% when its times could not be read. */
  lemma {:induction false} VisitedUntimedShowZero(cache: map<int, CpuCache>, ps: seq<ProcSample>, numCpu: int, now: int)
    ensures var infos := Visited(cache, ps, numCpu, now).infos;
      var named := Seqs.Filter(ps, Named);
      forall i :: 0 <= i < |named| && named[i].times.None? ==> i < |infos| && infos[i].cpuPercent == 0.0
  {
    VisitedListsNamed(cache, ps, numCpu, now);
    if ps != [] {
      var init, p := ps[..|ps| - 1], ps[|ps| - 1];
      assert ps == init + [p];
      VisitedUntimedShowZero(cache, init, numCpu, now);
      VisitedListsNamed(cache, init, numCpu, now);
      Seqs.FilterSnoc(init, p, Named);
      VisitAppends(Visited(cache, init, numCpu, now), p, numCpu, now);
    }
  }

  /** A PID seen with readable times gets a fresh entry; all other entries are left alone. */
  lemma {:induction false} VisitedCacheKeys(cache: map<int, CpuCache>, ps: seq<ProcSample>, numCpu: int, now: int, k: int)
    ensures var out := Visited(cache, ps, numCpu, now).cache;
      && (k in out <==> k in cache || exists i :: 0 <= i < |ps| && Timed(ps[i]) && ps[i].pid == k)
      && ((forall i :: 0 <= i < |ps| && Timed(ps[i]) ==> ps[i].pid != k) && k in cache ==> out[k] == cache[k])
  {
    if ps != [] {
      var init := ps[..|ps| - 1];
      VisitedCacheKeys(cache, init, numCpu, now, k);
      var p := ps[|ps| - 1];
      if exists i :: 0 <= i < |init| && Timed(init[i]) && init[i].pid == k {
        var i :| 0 <= i < |init| && Timed(init[i]) && init[i].pid == k;
        assert ps[i] == init[i];
      }
      if exists i :: 0 <= i < |ps| && Timed(ps[i]) && ps[i].pid == k {
        var i :| 0 <= i < |ps| && Timed(ps[i]) && ps[i].pid == k;
        if i < |init| { assert init[i] == ps[i]; }
      }
    }
  }

  /** The entry of a PID is the reading of the last listed sample of it whose times were read. */
  lemma {:induction false} VisitedCacheOverwritten(cache: map<int, CpuCache>, ps: seq<ProcSample>, numCpu: int, now: int, i: nat)
    requires i < |ps| && Timed(ps[i])
    requires forall j :: i < j < |ps| && Timed(ps[j]) ==> ps[j].pid != ps[i].pid
    ensures var out := Visited(cache, ps, numCpu, now).cache;
      ps[i].pid in out && out[ps[i].pid] == CpuCache(Total(ps[i].times.value), now)
  {
    var init := ps[..|ps| - 1];
    if i < |init| {
      assert init[i] == ps[i];
      VisitedCacheOverwritten(cache, init, numCpu, now, i);
    }
  }

  /** A failed enumeration returns the error and leaves the collector as it was. */
  lemma SnapshotErrorLeavesCollector(c: CollectorState, e: string, now: int)
    ensures Snapshotted(c, Err(e), now) == Snap(Err(e), c)
  {
  }

  /** The rows are the sampled rows reordered, by CPU% from highest to lowest; `lastTs` is `now`. */
  lemma SnapshotOrdered(c: CollectorState, ps: seq<ProcSample>, now: int)
    ensures var s := Snapshotted(c, Ok(ps), now);
      && s.result.Ok?
      && multiset(s.result.value) == multiset(Visited(c.cache, ps, c.numCpu, now).infos)
      && (forall i, j :: 0 <= i < j < |s.result.value| ==>
            s.result.value[i].cpuPercent >= s.result.value[j].cpuPercent)
      && s.collector.lastTs == Some(now)
      && s.collector.numCpu == c.numCpu
  {
    CpuNotLessIsTotalPreorder();
    Seqs.StableSortSpec(Visited(c.cache, ps, c.numCpu, now).infos, CpuNotLess);
  }

  lemma PidsOfPermutation(a: seq<ProcessInfo>, b: seq<ProcessInfo>)
    requires multiset(a) == multiset(b)
    ensures Pids(a) == Pids(b)
  {
    forall k | k in Pids(a) ensures k in Pids(b) {
      var i :| 0 <= i < |a| && a[i].pid == k;
      assert a[i] in multiset(b);
      assert a[i] in b;
      var j :| 0 <= j < |b| && b[j] == a[i];
    }
    forall k | k in Pids(b) ensures k in Pids(a) {
      var i :| 0 <= i < |b| && b[i].pid == k;
      assert b[i] in multiset(a);
      assert b[i] in a;
      var j :| 0 <= j < |a| && a[j] == b[i];
    }
  }

  /**
   * After a snapshot the cache holds exactly the entries of returned PIDs that
   * the sampling loop left: stale entries are deleted and nothing else.
   */
  lemma SnapshotPrunesStale(c: CollectorState, ps: seq<ProcSample>, now: int)
    ensures var s := Snapshotted(c, Ok(ps), now);
      var pass := Visited(c.cache, ps, c.numCpu, now);
      && s.result.Ok?
      && (forall k :: k in s.collector.cache <==> k in pass.cache && k in Pids(pass.infos))
      && (forall k :: k in s.collector.cache ==> s.collector.cache[k] == pass.cache[k])
      && (forall k :: k in s.collector.cache ==> exists i :: 0 <= i < |s.result.value| && s.result.value[i].pid == k)
  {
    var pass := Visited(c.cache, ps, c.numCpu, now);
    Seqs.StableSortPermutes(pass.infos, CpuNotLess);
    PidsOfPermutation(Seqs.StableSort(pass.infos, CpuNotLess), pass.infos);
  }

  /** The `alive` set: the PIDs of the returned rows. */
  method AlivePids(infos: seq<ProcessInfo>) returns (alive: set<int>)
    ensures alive == Pids(infos)
  {
    alive := {};
    var j := 0;
    while j < |infos|
      invariant 0 <= j <= |infos|
      invariant alive == Pids(infos[..j])
    {
      assert infos[..j + 1][..j] == infos[..j];
      alive := alive + {infos[j].pid};
      j := j + 1;
    }
    assert infos[..|infos|] == infos;
  }

  // ---------------------------------------------------------------------
  // The collector
  // ---------------------------------------------------------------------

  class Collector {
    var cache: map<int, CpuCache>
    var lastTs: Option<int>
    var numCpu: int

    function Model(): CollectorState
      reads this
    {
      CollectorState(cache, lastTs, numCpu)
    }

    /** `NewCollector`; `numCpu` is what `runtime.NumCPU` reports. */
    constructor (numCpu: int)
      ensures Model() == CollectorState(map[], None, numCpu)
    {
      cache := map[];
      lastTs := None;
      this.numCpu := numCpu;
    }

    /** `Snapshot`: `procs` is what the process enumeration returned, `now` the wall clock. */
    method Snapshot(procs: Result<seq<ProcSample>, string>, now: int) returns (r: Result<seq<ProcessInfo>, string>)
      modifies this
      ensures Snap(r, Model()) == Snapshotted(old(Model()), procs, now)
    {
      if procs.Err? {
        return Err(procs.error);
      }
      var ps := procs.value;
      var infos: seq<ProcessInfo> := [];
      var i := 0;
      while i < |ps|
        invariant 0 <= i <= |ps|
        invariant numCpu == old(numCpu) && lastTs == old(lastTs)
        invariant Pass(infos, cache) == Visited(old(cache), ps[..i], numCpu, now)
      {
        var p := ps[i];
        assert ps[..i + 1][..i] == ps[..i];
        if p.name.Some? && p.name.value != [] {
          var cpuPct := 0.0;
          if p.times.Some? {
            var curTotal := Total(p.times.value);
            cpuPct := CpuPercent(Lookup(cache, p.pid), curTotal, now, numCpu);
            cache := cache[p.pid := CpuCache(curTotal, now)];
          }
          infos := infos + [InfoOf(p, cpuPct)];
        }
        i := i + 1;
      }
      assert ps[..|ps|] == ps;
      infos := Seqs.StableSort(infos, CpuNotLess);

      var alive := AlivePids(infos);
      PruneCache(alive);
      lastTs := Some(now);
      r := Ok(infos);
    }

    /**
     * The clean-up loop: every cached PID outside `alive` is deleted.  The
     * keys are visited in no particular order, so the loop's effect is
     * written as one map comprehension.
     */
    method PruneCache(alive: set<int>)
      modifies this
      ensures cache == Pruned(old(cache), alive)
      ensures lastTs == old(lastTs) && numCpu == old(numCpu)
    {
      cache := map k | k in cache && k in alive :: cache[k];
    }
  }
}
