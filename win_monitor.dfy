/**
 * The engine of the Windows Rust process monitor: the `App` state, the
 * refresh pipeline (histories, sort, filter, selection repair), refresh
 * scheduling and the three-mode key handler.  The sysinfo sample, the clock
 * and the kill call are inputs; drawing is not modelled.
 *
 * CPU figures are integers in tenths of a percent (the source compares and
 * clamps `f32` values; nothing else is done with them).
 */
module WinMonitor {
  import opened Wrappers
  import opened Text
  import Seqs

  const HistCapacity: nat := 120
  const InitialIntervalMs: nat := 1000
  const MinIntervalMs: nat := 200
  const MaxIntervalMs: nat := 5000
  const IntervalStepMs: nat := 200
  const PageStep: nat := 10

  datatype SortKey = Cpu | Mem | Pid | Name

  /** One table row. `cpu` is in tenths of a percent. */
  datatype ProcRow = ProcRow(pid: nat, name: string, cpu: int, memMb: nat)

  /** One process as sysinfo reports it; memory in KiB. */
  datatype ProcSample = ProcSample(pid: nat, name: string, cpu: int, memoryKiB: nat)

  /** What one round of `refresh_cpu` / `refresh_memory` / `refresh_processes` yields. */
  datatype Snapshot = Snapshot(cpuUsage: int, totalMemoryKiB: nat, usedMemoryKiB: nat, processes: seq<ProcSample>)

  /** The key codes the handler distinguishes. */
  datatype Key = Char(c: char) | Esc | Enter | Backspace | Up | Down | PageUp | PageDown | Home | End | F(n: nat) | Other

  /** The system figures of `App`: `cpu_usage`, `mem_used`, `mem_total` (MiB) and the two histories. */
  datatype Stats = Stats(cpuUsage: int, memUsedMb: nat, memTotalMb: nat, cpuHist: seq<nat>, memHist: seq<nat>)

  /** The filter fields of `App`: `filter_text` (applied), `filter_input` (being edited), `filter_active`. */
  datatype FilterState = FilterState(text: Option<string>, input: string, active: bool)

  /** Every field of `App` that the engine reads or writes (`selected` is the table state). */
  datatype State = State(
    rows: seq<ProcRow>,
    selected: Option<nat>,
    sortKey: SortKey,
    sortDesc: bool,
    lastRefresh: int,
    stats: Stats,
    shouldQuit: bool,
    filter: FilterState,
    paused: bool,
    refreshIntervalMs: nat,
    showDetails: bool)

  /** The result of `handle_key`: the new state and whether to quit. */
  datatype Step = Step(state: State, quit: bool)

  // ---------------------------------------------------------------------
  // Building, sorting and filtering rows
  // ---------------------------------------------------------------------

  /** KiB to MiB by integer division, as the row builder does. */
  function RowOf(p: ProcSample): (r: ProcRow)
    ensures r.pid == p.pid && r.name == p.name && r.cpu == p.cpu
    ensures r.memMb * 1024 <= p.memoryKiB < (r.memMb + 1) * 1024
  {
    ProcRow(p.pid, p.name, p.cpu, p.memoryKiB / 1024)
  }

  function RowsOf(ps: seq<ProcSample>): (r: seq<ProcRow>)
    ensures |r| == |ps|
    ensures forall i :: 0 <= i < |ps| ==> r[i] == RowOf(ps[i])
  {
    seq(|ps|, i requires 0 <= i < |ps| => RowOf(ps[i]))
  }

  /** The comparator of `sort_rows` for each key, as "a does not sort after b". */
  function NotAfter(key: SortKey): (ProcRow, ProcRow) -> bool {
    match key
    case Cpu => (a: ProcRow, b: ProcRow) => a.cpu <= b.cpu
    case Mem => (a: ProcRow, b: ProcRow) => a.memMb <= b.memMb
    case Pid => (a: ProcRow, b: ProcRow) => a.pid <= b.pid
    case Name => (a: ProcRow, b: ProcRow) => !LexLt(Lower(b.name), Lower(a.name), CharLt)
  }

  lemma NotAfterIsTotalPreorder(key: SortKey)
    ensures Seqs.TotalPreorder(NotAfter(key))
  {
    if key == Name {
      var le := NotAfter(Name);
      CharAndByteOrdersAreStrictTotal();
      forall a: ProcRow, b: ProcRow ensures le(a, b) || le(b, a) {
        LexLeIsTotalPreorder(Lower(a.name), Lower(b.name), Lower(a.name), CharLt);
      }
      forall a: ProcRow, b: ProcRow, c: ProcRow | le(a, b) && le(b, c) ensures le(a, c) {
        LexLeIsTotalPreorder(Lower(a.name), Lower(b.name), Lower(c.name), CharLt);
      }
    }
  }

  /** `sort_rows`: the library's stable ascending sort by the key, then reversed when descending. */
  function SortRows(rows: seq<ProcRow>, key: SortKey, desc: bool): seq<ProcRow> {
    var asc := Seqs.StableSort(rows, NotAfter(key));
    if desc then Seqs.Reverse(asc) else asc
  }

  /**
   * The sorted rows are a permutation, ordered by the key; tied rows keep
   * their input order when ascending and come out in exactly the reverse
   * input order when descending.
   */
  lemma SortRowsSpec(rows: seq<ProcRow>, key: SortKey, desc: bool)
    ensures multiset(SortRows(rows, key, desc)) == multiset(rows)
    ensures !desc ==> Seqs.SortedBy(SortRows(rows, key, desc), NotAfter(key))
    ensures desc ==> forall i, j :: 0 <= i < j < |rows| ==>
                       NotAfter(key)(SortRows(rows, key, desc)[j], SortRows(rows, key, desc)[i])
    ensures !desc ==> forall x :: Seqs.TiedWith(SortRows(rows, key, desc), x, NotAfter(key))
                               == Seqs.TiedWith(rows, x, NotAfter(key))
    ensures desc ==> forall x :: Seqs.TiedWith(SortRows(rows, key, desc), x, NotAfter(key))
                              == Seqs.Reverse(Seqs.TiedWith(rows, x, NotAfter(key)))
  {
    NotAfterIsTotalPreorder(key);
    if desc {
      Seqs.ReversedStableSortSpec(rows, NotAfter(key));
    } else {
      Seqs.StableSortSpec(rows, NotAfter(key));
    }
  }

  /** The filter test; `q` is the lowercased filter text. */
  predicate Matches(r: ProcRow, q: string) {
    Contains(Lower(r.name), q) || Contains(NatToDecimal(r.pid), q)
  }

  /** The `retain` closure for the lowercased query `q`. */
  function MatchesQuery(q: string): ProcRow -> bool {
    (r: ProcRow) => Matches(r, q)
  }

  /** The `retain` step: no filter keeps every row. */
  function FilterRows(rows: seq<ProcRow>, filterText: Option<string>): seq<ProcRow> {
    match filterText
    case None => rows
    case Some(ft) => Seqs.Filter(rows, MatchesQuery(Lower(ft)))
  }

  /** With a filter, exactly the matching rows survive and in their order; no filter keeps all. */
  lemma FilterRowsSpec(rows: seq<ProcRow>, filterText: Option<string>)
    ensures filterText.None? ==> FilterRows(rows, filterText) == rows
    ensures filterText.Some? ==> forall r :: r in FilterRows(rows, filterText) <==>
                                   r in rows && Matches(r, Lower(filterText.value))
    ensures Seqs.IsSubsequence(FilterRows(rows, filterText), rows)
    ensures multiset(FilterRows(rows, filterText)) <= multiset(rows)
    ensures filterText.Some? ==> forall r :: multiset(FilterRows(rows, filterText))[r] ==
                                   if Matches(r, Lower(filterText.value)) then multiset(rows)[r] else 0
  {
    match filterText
    case None => Seqs.SubsequenceReflexive(rows);
    case Some(ft) =>
      Seqs.FilterIsSubsequence(rows, MatchesQuery(Lower(ft)));
      Seqs.FilterShrinksMultiset(rows, MatchesQuery(Lower(ft)));
      forall r ensures multiset(FilterRows(rows, filterText))[r] ==
                       if Matches(r, Lower(ft)) then multiset(rows)[r] else 0 {
        Seqs.FilterCounts(rows, MatchesQuery(Lower(ft)), r);
      }
  }

  /** The sampled processes as rows, sorted, then filtered. */
  function TableRows(procs: seq<ProcSample>, key: SortKey, desc: bool, filterText: Option<string>): seq<ProcRow> {
    FilterRows(SortRows(RowsOf(procs), key, desc), filterText)
  }

  /** The row pipeline of `refresh_data`: collect, `sort_rows`, then `retain` when a filter is set. */
  method BuildRows(procs: seq<ProcSample>, key: SortKey, desc: bool, filterText: Option<string>)
    returns (rows: seq<ProcRow>)
    ensures rows == TableRows(procs, key, desc, filterText)
  {
    rows := RowsOf(procs);
    rows := SortRows(rows, key, desc);
    if filterText.Some? {
      var q := Lower(filterText.value);
      rows := Seqs.Filter(rows, MatchesQuery(q));
    }
  }

  // ---------------------------------------------------------------------
  // Samples and histories
  // ---------------------------------------------------------------------

  /** `cpu_usage.max(0.0).min(100.0) as u64`, from tenths of a percent. */
  function CpuPercent(tenths: int): (r: nat)
    ensures r <= 100
    ensures tenths <= 0 ==> r == 0
    ensures tenths >= 1000 ==> r == 100
    ensures 0 <= tenths <= 1000 ==> r * 10 <= tenths < r * 10 + 10
  {
    if tenths <= 0 then 0 else if tenths >= 1000 then 100 else tenths / 10
  }

  lemma DivBounds(a: nat, b: nat)
    requires b > 0
    ensures (a / b) * b <= a < (a / b + 1) * b
  {
    assert a == (a / b) * b + a % b;
  }

  lemma MulMonotone(p: int, q: int, t: nat)
    requires t > 0 && p * t < q * t
    ensures p < q
  {
    assert p * t - q * t == (p - q) * t;
  }

  /** The memory sample (`(used * 100) / total`, at most 100, and 0 without a total). */
  function MemPercent(usedMb: nat, totalMb: nat): (r: nat)
    ensures r <= 100
    ensures totalMb == 0 ==> r == 0
  {
    if totalMb == 0 then 0
    else
      var p := (usedMb * 100) / totalMb;
      if p < 100 then p else 100
  }

  /** The memory sample is the used share of the total in whole percent, rounded down and capped at 100. */
  lemma MemPercentIsShare(usedMb: nat, totalMb: nat)
    requires totalMb > 0
    ensures usedMb <= totalMb ==>
              MemPercent(usedMb, totalMb) * totalMb <= usedMb * 100 < (MemPercent(usedMb, totalMb) + 1) * totalMb
    ensures usedMb >= totalMb ==> MemPercent(usedMb, totalMb) == 100
  {
    var p := (usedMb * 100) / totalMb;
    DivBounds(usedMb * 100, totalMb);
    if usedMb <= totalMb {
      MulMonotone(p, 101, totalMb);
    }
    if usedMb >= totalMb {
      MulMonotone(100, p + 1, totalMb);
    }
  }

  /** A history after its oldest samples are dropped down to `cap`. */
  function KeepNewest(h: seq<nat>, cap: nat): (r: seq<nat>)
    ensures |r| == if |h| > cap then cap else |h|
    ensures r == h[|h| - |r|..]
  {
    if |h| > cap then h[|h| - cap..] else h
  }

  /** The `pop_front` loop of `refresh_data`. */
  method DropOldest(h: seq<nat>, cap: nat) returns (r: seq<nat>)
    ensures r == KeepNewest(h, cap)
  {
    r := h;
    while |r| > cap
      invariant r == h[|h| - |r|..]
      invariant |r| < |h| ==> |r| >= cap
    {
      r := r[1..];
    }
  }

  /** The history and figure updates of `refresh_data`. */
  method Sample(s: Stats, snap: Snapshot) returns (r: Stats)
    ensures r == Sampled(s, snap)
  {
    var totalMb := snap.totalMemoryKiB / 1024;
    var usedMb := snap.usedMemoryKiB / 1024;
    var cpuHist := DropOldest(s.cpuHist + [CpuPercent(snap.cpuUsage)], HistCapacity);
    var memHist := DropOldest(s.memHist + [MemPercent(usedMb, totalMb)], HistCapacity);
    r := Stats(snap.cpuUsage, usedMb, totalMb, cpuHist, memHist);
  }

  /** Pushing a sample keeps at most `cap` entries, the new one last and the rest the newest of the old. */
  lemma PushKeepsNewest(h: seq<nat>, x: nat, cap: nat)
    requires cap > 0
    ensures |KeepNewest(h + [x], cap)| <= cap
    ensures KeepNewest(h + [x], cap)[|KeepNewest(h + [x], cap)| - 1] == x
    ensures |h| < cap ==> KeepNewest(h + [x], cap) == h + [x]
    ensures |h| >= cap ==> KeepNewest(h + [x], cap) == h[|h| - cap + 1..] + [x]
  {
    if |h| >= cap {
      assert (h + [x])[|h| + 1 - cap..] == h[|h| - cap + 1..] + [x];
    }
  }

  // ---------------------------------------------------------------------
  // Selection
  // ---------------------------------------------------------------------

  /** The selection points at a row, or nothing is selected. */
  predicate ValidSelection(st: State) {
    st.selected.Some? ==> st.selected.value < |st.rows|
  }

  /**
   * What every transition keeps: the selection points at a row, is empty, or
   * is row 0 (which Up and Down select even on an empty table).
   */
  predicate SelectionNearRows(st: State) {
    st.selected.Some? ==> st.selected.value < |st.rows| || st.selected.value == 0
  }

  /** The repair after a refresh: dropped on an empty table, moved to the last row if past it. */
  function ClampSelection(sel: Option<nat>, len: nat): (r: Option<nat>)
    ensures sel.None? ==> r.None?
    ensures sel.Some? && len == 0 ==> r.None?
    ensures r.Some? ==> r.value < len
    ensures sel.Some? && sel.value < len ==> r == sel
    ensures sel.Some? && sel.value >= len > 0 ==> r == Some(len - 1)
  {
    match sel
    case None => None
    case Some(i) => if len == 0 then None else if i >= len then Some(len - 1) else sel
  }

  /** `unwrap_or(0)` on the selection. */
  function Current(sel: Option<nat>): nat {
    if sel.Some? then sel.value else 0
  }

  /** `page_down`: ten rows further, stopping at the last row. */
  function PageDownSelection(sel: Option<nat>, len: nat): (r: Option<nat>)
    ensures r.None? <==> len == 0
    ensures r.Some? ==> r.value < len
    ensures r.Some? ==> r.value <= Current(sel) + PageStep
    ensures r.Some? && Current(sel) + PageStep < len ==> r.value == Current(sel) + PageStep
    ensures r.Some? && Current(sel) + PageStep >= len ==> r.value == len - 1
  {
    if len == 0 then None
    else
      var i := Current(sel) + PageStep;
      Some(if i < len - 1 then i else len - 1)
  }

  /** `page_up`: ten rows back, stopping at the first row. */
  function PageUpSelection(sel: Option<nat>, len: nat): (r: Option<nat>)
    ensures r.None? <==> len == 0
    ensures r.Some? && Current(sel) >= PageStep ==> r.value == Current(sel) - PageStep
    ensures r.Some? && Current(sel) < PageStep ==> r.value == 0
  {
    if len == 0 then None
    else Some(if Current(sel) >= PageStep then Current(sel) - PageStep else 0)
  }

  function HomeSelection(len: nat): (r: Option<nat>)
    ensures r.None? <==> len == 0
    ensures r.Some? ==> r.value == 0 && r.value < len
  {
    if len == 0 then None else Some(0)
  }

  function EndSelection(len: nat): (r: Option<nat>)
    ensures r.None? <==> len == 0
    ensures r.Some? ==> r.value == len - 1
  {
    if len == 0 then None else Some(len - 1)
  }

  /** `select_next`: one row further, stopping at the last; from nothing, row 0 (even on an empty table). */
  function NextSelection(sel: Option<nat>, len: nat): (r: Option<nat>)
    ensures r.Some?
    ensures sel.None? ==> r.value == 0
    ensures sel.Some? && sel.value + 1 < len ==> r.value == sel.value + 1
    ensures sel.Some? && len > 0 && sel.value + 1 >= len ==> r.value == len - 1
    ensures sel.Some? && len == 0 ==> r.value == 0
  {
    match sel
    case None => Some(0)
    case Some(i) =>
      var last := if len > 0 then len - 1 else 0;
      Some(if i + 1 < last then i + 1 else last)
  }

  /** `select_prev`: one row back, stopping at 0; from nothing, row 0. */
  function PrevSelection(sel: Option<nat>): (r: Option<nat>)
    ensures r.Some?
    ensures sel.Some? && sel.value > 0 ==> r.value == sel.value - 1
    ensures sel.None? || sel.value == 0 ==> r.value == 0
  {
    match sel
    case None => Some(0)
    case Some(i) => Some(if i > 0 then i - 1 else 0)
  }

  /** `selected_pid`: the PID of the selected row, if the selection points at one. */
  function SelectedPid(st: State): (r: Option<nat>)
    ensures r.Some? <==> st.selected.Some? && st.selected.value < |st.rows|
    ensures r.Some? ==> r.value == st.rows[st.selected.value].pid
  {
    match st.selected
    case None => None
    case Some(i) => if i < |st.rows| then Some(st.rows[i].pid) else None
  }

  // ---------------------------------------------------------------------
  // Refresh interval and scheduling
  // ---------------------------------------------------------------------

  predicate IntervalInRange(ms: nat) {
    MinIntervalMs <= ms <= MaxIntervalMs
  }

  /** `set_interval_faster`: 200 ms shorter, never below 200 ms. */
  function Faster(ms: nat): (r: nat)
    ensures r >= MinIntervalMs
    ensures ms >= MinIntervalMs + IntervalStepMs ==> r == ms - IntervalStepMs
    ensures ms < MinIntervalMs + IntervalStepMs ==> r == MinIntervalMs
    ensures IntervalInRange(ms) ==> IntervalInRange(r) && r <= ms
  {
    if ms >= MinIntervalMs + IntervalStepMs then ms - IntervalStepMs else MinIntervalMs
  }

  /** `set_interval_slower`: 200 ms longer, never above 5000 ms. */
  function Slower(ms: nat): (r: nat)
    ensures r <= MaxIntervalMs
    ensures ms + IntervalStepMs <= MaxIntervalMs ==> r == ms + IntervalStepMs
    ensures ms + IntervalStepMs > MaxIntervalMs ==> r == MaxIntervalMs
    ensures IntervalInRange(ms) ==> IntervalInRange(r) && r >= ms
  {
    if ms + IntervalStepMs <= MaxIntervalMs then ms + IntervalStepMs else MaxIntervalMs
  }

  /** `Instant::elapsed` for a clock reading `now`; a clock behind `last` reads as zero. */
  function Elapsed(last: int, now: int): nat {
    if now >= last then now - last else 0
  }

  function NextSortKey(k: SortKey): SortKey {
    match k
    case Cpu => Mem
    case Mem => Pid
    case Pid => Name
    case Name => Cpu
  }

  /** `cycle_sort_key` visits all four keys and returns after four presses. */
  lemma NextSortKeyCycles(k: SortKey)
    ensures NextSortKey(NextSortKey(NextSortKey(NextSortKey(k)))) == k
    ensures NextSortKey(k) != k && NextSortKey(NextSortKey(k)) != k && NextSortKey(NextSortKey(NextSortKey(k))) != k
    ensures NextSortKey(Cpu) == Mem && NextSortKey(Mem) == Pid && NextSortKey(Pid) == Name && NextSortKey(Name) == Cpu
  {
  }

  // ---------------------------------------------------------------------
  // The state transitions
  // ---------------------------------------------------------------------

  /** The figures after `snap`: the new readings, one sample pushed onto each history, at most 120 kept. */
  function Sampled(s: Stats, snap: Snapshot): Stats {
    var totalMb := snap.totalMemoryKiB / 1024;
    var usedMb := snap.usedMemoryKiB / 1024;
    Stats(snap.cpuUsage, usedMb, totalMb,
          KeepNewest(s.cpuHist + [CpuPercent(snap.cpuUsage)], HistCapacity),
          KeepNewest(s.memHist + [MemPercent(usedMb, totalMb)], HistCapacity))
  }

  /** `refresh_data` with the sample `snap` taken at time `now`. */
  function Refreshed(st: State, snap: Snapshot, now: int): State {
    var rows := TableRows(snap.processes, st.sortKey, st.sortDesc, st.filter.text);
    st.(stats := Sampled(st.stats, snap), rows := rows, selected := ClampSelection(st.selected, |rows|),
        lastRefresh := now)
  }

  /** `on_tick`: refreshes only when not paused and the interval has elapsed. */
  function Ticked(st: State, snap: Snapshot, now: int): State {
    if st.paused then st
    else if Elapsed(st.lastRefresh, now) >= st.refreshIntervalMs then Refreshed(st, snap, now)
    else st
  }

  /** The field initialisers of `App::new`, before its first refresh. */
  function Defaults(now: int): State {
    State([], None, Cpu, true, now, Stats(0, 0, 0, [], []), false, FilterState(None, [], false),
          false, InitialIntervalMs, false)
  }

  /** The state right after `App::new`. */
  function Initial(snap: Snapshot, now: int): State {
    var r := Refreshed(Defaults(now), snap, now);
    if r.rows != [] then r.(selected := Some(0)) else r
  }

  /**
   * What a key does: the fields it sets, whether it ends with `refresh_data`
   * (every refreshing branch of `handle_key` refreshes last) and whether
   * `handle_key` returns true.
   */
  datatype Effect = Effect(state: State, refresh: bool, quit: bool)

  function Apply(e: Effect, snap: Snapshot, now: int): State {
    if e.refresh then Refreshed(e.state, snap, now) else e.state
  }

  predicate ClosesDetails(key: Key) {
    key == Esc || key == Enter || key == Char('i')
  }

  /** The details popup swallows every key; Esc, Enter and 'i' close it. */
  function DetailsKey(st: State, key: Key): Effect {
    Effect(if ClosesDetails(key) then st.(showDetails := false) else st, false, false)
  }

  /** Filter editing: Esc cancels, Enter applies the trimmed input, Backspace and characters edit it. */
  function FilterKey(st: State, key: Key): Effect {
    match key
    case Esc => Effect(st.(filter := st.filter.(active := false)), false, false)
    case Enter =>
      var t := Trim(st.filter.input);
      Effect(st.(filter := st.filter.(text := if t == [] then None else Some(t), active := false)), true, false)
    case Backspace => Effect(st.(filter := st.filter.(input := DropLast(st.filter.input))), false, false)
    case Char(c) => Effect(st.(filter := st.filter.(input := st.filter.input + [c])), false, false)
    case _ => Effect(st, false, false)
  }

  predicate IsNavigationKey(key: Key) {
    key.Down? || key.Up? || key.PageDown? || key.PageUp? || key.Home? || key.End?
  }

  predicate IsRefreshingKey(key: Key) {
    key == Char('s') || key == Char('r') || key == Char('k') || key == F(5)
  }

  /** The arrow, paging, Home and End bindings: they move the selection only. */
  function Navigated(st: State, key: Key): State
    requires IsNavigationKey(key)
  {
    var len := |st.rows|;
    match key
    case Down => st.(selected := NextSelection(st.selected, len))
    case Up => st.(selected := PrevSelection(st.selected))
    case PageDown => st.(selected := PageDownSelection(st.selected, len))
    case PageUp => st.(selected := PageUpSelection(st.selected, len))
    case Home => st.(selected := HomeSelection(len))
    case End => st.(selected := EndSelection(len))
  }

  /** 's' and 'r' change the order, 'k' kills the selected process; all three, and F5, then refresh. */
  function RefreshingKey(st: State, key: Key): Effect
    requires IsRefreshingKey(key)
  {
    if key == Char('s') then Effect(st.(sortKey := NextSortKey(st.sortKey)), true, false)
    else if key == Char('r') then Effect(st.(sortDesc := !st.sortDesc), true, false)
    else if key == Char('k') then Effect(st, st.selected.Some?, false)
    else Effect(st, true, false)
  }

  /** The remaining bindings: quit, details, filter, pause and the interval; none refreshes. */
  function SettingKey(st: State, key: Key): Effect {
    match key
    case Char(c) =>
      if c == 'q' then Effect(st.(shouldQuit := true), false, true)
      else if c == 'i' then Effect(if SelectedPid(st).Some? then st.(showDetails := true) else st, false, false)
      else if c == '/' then
        var seed := if st.filter.text.Some? then st.filter.text.value else [];
        Effect(st.(filter := st.filter.(active := true, input := seed)), false, false)
      else if c == 'p' then Effect(st.(paused := !st.paused), false, false)
      else if c == '+' || c == '=' then Effect(st.(refreshIntervalMs := Faster(st.refreshIntervalMs)), false, false)
      else if c == '-' then Effect(st.(refreshIntervalMs := Slower(st.refreshIntervalMs)), false, false)
      else Effect(st, false, false)
    case _ => Effect(st, false, false)
  }

  /** The normal-mode bindings. */
  function NormalKey(st: State, key: Key): Effect {
    if IsNavigationKey(key) then Effect(Navigated(st, key), false, false)
    else if IsRefreshingKey(key) then RefreshingKey(st, key)
    else SettingKey(st, key)
  }

  /** The mode dispatch of `handle_key`: details popup first, then filter editing, then normal mode. */
  function KeyEffect(st: State, key: Key): Effect {
    if st.showDetails then DetailsKey(st, key)
    else if st.filter.active then FilterKey(st, key)
    else NormalKey(st, key)
  }

  /** `handle_key`, with `snap` and `now` standing for the sample and clock of the refresh it may do. */
  function Handled(st: State, key: Key, snap: Snapshot, now: int): Step {
    var e := KeyEffect(st, key);
    Step(Apply(e, snap, now), e.quit)
  }

  // ---------------------------------------------------------------------
  // Properties of the transitions
  // ---------------------------------------------------------------------

  /**
   * The rows a refresh installs: every sampled process, or exactly those the
   * filter matches; as a multiset, never more than the sample.
   */
  lemma TableRowsSpec(procs: seq<ProcSample>, key: SortKey, desc: bool, filterText: Option<string>)
    ensures multiset(TableRows(procs, key, desc, filterText)) <= multiset(RowsOf(procs))
    ensures filterText.None? ==> multiset(TableRows(procs, key, desc, filterText)) == multiset(RowsOf(procs))
    ensures forall row :: row in TableRows(procs, key, desc, filterText) <==>
              row in RowsOf(procs) && (filterText.None? || Matches(row, Lower(filterText.value)))
    ensures forall row :: multiset(TableRows(procs, key, desc, filterText))[row] ==
              if filterText.None? || Matches(row, Lower(filterText.value)) then multiset(RowsOf(procs))[row] else 0
  {
    var all := RowsOf(procs);
    var sorted := SortRows(all, key, desc);
    SortRowsSpec(all, key, desc);
    FilterRowsSpec(sorted, filterText);
    forall row ensures row in sorted <==> row in all {
      assert row in sorted <==> row in multiset(sorted);
      assert row in all <==> row in multiset(all);
    }
  }

  /**
   * A sample: the readings are the snapshot's (memory in MiB), and both
   * histories hold at most 120 samples with the new one last and the older
   * ones in their order.
   */
  lemma SampledSpec(s: Stats, snap: Snapshot)
    ensures var r := Sampled(s, snap);
      && r.cpuUsage == snap.cpuUsage
      && r.memUsedMb == snap.usedMemoryKiB / 1024 && r.memTotalMb == snap.totalMemoryKiB / 1024
      && 0 < |r.cpuHist| <= HistCapacity && 0 < |r.memHist| <= HistCapacity
      && r.cpuHist[|r.cpuHist| - 1] == CpuPercent(snap.cpuUsage)
      && r.memHist[|r.memHist| - 1] == MemPercent(r.memUsedMb, r.memTotalMb)
      && (|s.cpuHist| < HistCapacity ==> r.cpuHist == s.cpuHist + [CpuPercent(snap.cpuUsage)])
      && (|s.memHist| < HistCapacity ==> r.memHist == s.memHist + [MemPercent(r.memUsedMb, r.memTotalMb)])
      && (|s.cpuHist| >= HistCapacity ==> r.cpuHist == s.cpuHist[|s.cpuHist| - HistCapacity + 1..] + [CpuPercent(snap.cpuUsage)])
      && (|s.memHist| >= HistCapacity ==> r.memHist == s.memHist[|s.memHist| - HistCapacity + 1..] + [MemPercent(r.memUsedMb, r.memTotalMb)])
  {
    PushKeepsNewest(s.cpuHist, CpuPercent(snap.cpuUsage), HistCapacity);
    PushKeepsNewest(s.memHist, MemPercent(snap.usedMemoryKiB / 1024, snap.totalMemoryKiB / 1024), HistCapacity);
  }

  /**
   * After a refresh: new figures (see `SampledSpec`), the rows rebuilt from the
   * sample, the selection repaired and the refresh time `now`; ordering,
   * filter and scheduling settings are kept.
   */
  lemma RefreshSpec(st: State, snap: Snapshot, now: int)
    ensures var r := Refreshed(st, snap, now);
      && r.stats == Sampled(st.stats, snap)
      && r.rows == TableRows(snap.processes, st.sortKey, st.sortDesc, st.filter.text)
      && ValidSelection(r)
      && (st.selected.None? ==> r.selected.None?)
      && (st.selected.Some? && st.selected.value < |r.rows| ==> r.selected == st.selected)
      && r.lastRefresh == now
      && r.sortKey == st.sortKey && r.sortDesc == st.sortDesc && r.filter == st.filter
      && r.paused == st.paused && r.refreshIntervalMs == st.refreshIntervalMs
      && r.showDetails == st.showDetails && r.shouldQuit == st.shouldQuit
  {
  }

  /** A paused monitor never refreshes on a tick; otherwise it refreshes exactly when the interval has elapsed. */
  lemma TickSpec(st: State, snap: Snapshot, now: int)
    ensures st.paused ==> Ticked(st, snap, now) == st
    ensures !st.paused && Elapsed(st.lastRefresh, now) >= st.refreshIntervalMs ==>
              Ticked(st, snap, now) == Refreshed(st, snap, now)
    ensures Elapsed(st.lastRefresh, now) < st.refreshIntervalMs ==> Ticked(st, snap, now) == st
  {
  }

  /** Paging, Home and End keep the selection on a row, and clear it exactly when the table is empty. */
  lemma PagingKeepsSelectionValid(st: State, key: Key, snap: Snapshot, now: int)
    requires SelectionNearRows(st) && !st.showDetails && !st.filter.active
    requires key == PageDown || key == PageUp || key == Home || key == End
    ensures ValidSelection(Handled(st, key, snap, now).state)
    ensures Handled(st, key, snap, now).state.selected.None? <==> st.rows == []
    ensures Handled(st, key, snap, now).state.rows == st.rows
  {
    assert !KeyEffect(st, key).refresh;
  }

  /** Up and Down do not keep the selection valid: on an empty table they select row 0. */
  lemma ArrowsSelectOnEmptyTable(st: State, snap: Snapshot, now: int)
    requires !st.showDetails && !st.filter.active && st.rows == [] && st.selected.None?
    ensures Handled(st, Down, snap, now).state.selected == Some(0)
    ensures Handled(st, Up, snap, now).state.selected == Some(0)
    ensures !ValidSelection(Handled(st, Down, snap, now).state)
  {
    assert !KeyEffect(st, Down).refresh && !KeyEffect(st, Up).refresh;
  }

  /** A key never moves the selection further from the rows than row 0 of an empty table; a refresh repairs it. */
  lemma KeyKeepsSelectionNearRows(st: State, key: Key)
    requires SelectionNearRows(st)
    ensures SelectionNearRows(KeyEffect(st, key).state)
  {
    if !st.showDetails && !st.filter.active {
      if IsNavigationKey(key) {
        NavigationKeepsSelectionNearRows(st, key);
      } else if !IsRefreshingKey(key) {
        SettingKeyKeepsTable(st, key);
      }
    }
  }

  lemma NavigationKeepsSelectionNearRows(st: State, key: Key)
    requires SelectionNearRows(st) && IsNavigationKey(key)
    ensures SelectionNearRows(Navigated(st, key))
  {
  }

  /** The settings bindings leave the rows and the selection alone. */
  lemma SettingKeyKeepsTable(st: State, key: Key)
    ensures SettingKey(st, key).state.rows == st.rows
    ensures SettingKey(st, key).state.selected == st.selected
  {
    if key.Char? && key.c == '/' {
      var seed := if st.filter.text.Some? then st.filter.text.value else [];
      assert SettingKey(st, key).state == st.(filter := st.filter.(active := true, input := seed));
    }
  }

  /** No key and no tick breaks `SelectionNearRows`. */
  lemma SelectionStaysNearRows(st: State, key: Key, snap: Snapshot, now: int)
    requires SelectionNearRows(st)
    ensures SelectionNearRows(Handled(st, key, snap, now).state)
    ensures SelectionNearRows(Ticked(st, snap, now))
  {
    var e := KeyEffect(st, key);
    KeyKeepsSelectionNearRows(st, key);
    RefreshSpec(e.state, snap, now);
    RefreshSpec(st, snap, now);
  }

  /** Only 'q' in normal mode ends the program. */
  lemma OnlyQuitKeyQuits(st: State, key: Key, snap: Snapshot, now: int)
    ensures Handled(st, key, snap, now).quit <==> !st.showDetails && !st.filter.active && key == Char('q')
    ensures Handled(st, key, snap, now).quit ==> Handled(st, key, snap, now).state.shouldQuit
  {
  }

  /** With the details popup open, only Esc, Enter and 'i' act, and they only close it. */
  lemma DetailsModeOnlyCloses(st: State, key: Key, snap: Snapshot, now: int)
    requires st.showDetails
    ensures !Handled(st, key, snap, now).quit
    ensures ClosesDetails(key) ==> Handled(st, key, snap, now).state == st.(showDetails := false)
    ensures !ClosesDetails(key) ==> Handled(st, key, snap, now).state == st
  {
  }

  /** Filter editing: Esc keeps the applied filter; Enter applies the trimmed input, or clears it when blank. */
  lemma FilterEditing(st: State, key: Key, snap: Snapshot, now: int)
    requires !st.showDetails && st.filter.active
    ensures !Handled(st, key, snap, now).quit
    ensures key == Esc ==> Handled(st, key, snap, now).state == st.(filter := st.filter.(active := false))
    ensures key.Char? ==> Handled(st, key, snap, now).state == st.(filter := st.filter.(input := st.filter.input + [key.c]))
    ensures key == Backspace && st.filter.input != [] ==>
              Handled(st, key, snap, now).state.filter.input + [st.filter.input[|st.filter.input| - 1]] == st.filter.input
    ensures key == Backspace ==> Handled(st, key, snap, now).state.filter.text == st.filter.text
  {
  }

  /** Enter in the filter editor applies the trimmed input (none when it is blank) and refreshes. */
  lemma FilterEnterApplies(st: State, snap: Snapshot, now: int)
    requires !st.showDetails && st.filter.active
    ensures var r := Handled(st, Enter, snap, now).state;
      && !r.filter.active
      && (r.filter.text.None? <==> forall k :: 0 <= k < |st.filter.input| ==> IsWhitespace(st.filter.input[k]))
      && (r.filter.text.Some? ==> r.filter.text.value == Trim(st.filter.input) && !IsWhitespace(r.filter.text.value[0]))
      && r.rows == TableRows(snap.processes, st.sortKey, st.sortDesc, r.filter.text)
      && r.lastRefresh == now
  {
    var e := KeyEffect(st, Enter);
    RefreshSpec(e.state, snap, now);
  }

  /** '/' opens the filter editor with the applied filter as its starting text. */
  lemma SlashSeedsFilterInput(st: State, snap: Snapshot, now: int)
    requires !st.showDetails && !st.filter.active
    ensures var r := Handled(st, Char('/'), snap, now).state;
      && r.filter.active
      && (st.filter.text.Some? ==> r.filter.input == st.filter.text.value)
      && (st.filter.text.None? ==> r.filter.input == [])
      && r.filter.text == st.filter.text
  {
  }

  /** 'i' opens the details popup exactly when a row is selected. */
  lemma InfoNeedsSelection(st: State, snap: Snapshot, now: int)
    requires !st.showDetails && !st.filter.active
    ensures Handled(st, Char('i'), snap, now).state.showDetails <==> SelectedPid(st).Some?
  {
  }

  /** F5 refreshes whether or not the monitor is paused. */
  lemma RefreshKeys(st: State, snap: Snapshot, now: int)
    requires !st.showDetails && !st.filter.active
    ensures Handled(st, F(5), snap, now).state == Refreshed(st, snap, now)
  {
  }

  /** 's' moves to the next sort key and 'r' flips the direction; both then refresh. */
  lemma SortKeysRefresh(st: State, snap: Snapshot, now: int)
    requires !st.showDetails && !st.filter.active
    ensures Handled(st, Char('s'), snap, now).state == Refreshed(st.(sortKey := NextSortKey(st.sortKey)), snap, now)
    ensures Handled(st, Char('r'), snap, now).state == Refreshed(st.(sortDesc := !st.sortDesc), snap, now)
  {
  }

  /** 'k' refreshes exactly when a row is selected, and changes nothing otherwise. */
  lemma KillKeyRefreshes(st: State, snap: Snapshot, now: int)
    requires !st.showDetails && !st.filter.active
    ensures st.selected.Some? ==> Handled(st, Char('k'), snap, now).state == Refreshed(st, snap, now)
    ensures st.selected.None? ==> Handled(st, Char('k'), snap, now).state == st
  {
  }

  /** The interval keys change only the interval: no refresh, no other field. */
  lemma IntervalKeysDoNotRefresh(st: State, c: char, snap: Snapshot, now: int)
    requires !st.showDetails && !st.filter.active
    requires c == '+' || c == '=' || c == '-'
    ensures c == '-' ==> Handled(st, Char(c), snap, now).state == st.(refreshIntervalMs := Slower(st.refreshIntervalMs))
    ensures c != '-' ==> Handled(st, Char(c), snap, now).state == st.(refreshIntervalMs := Faster(st.refreshIntervalMs))
  {
    var e := SettingKey(st, Char(c));
    assert KeyEffect(st, Char(c)) == e;
    assert e == Effect(st.(refreshIntervalMs := if c == '-' then Slower(st.refreshIntervalMs)
                                                else Faster(st.refreshIntervalMs)), false, false);
  }

  /** A refresh leaves the interval alone. */
  lemma RefreshKeepsInterval(st: State, snap: Snapshot, now: int)
    ensures Refreshed(st, snap, now).refreshIntervalMs == st.refreshIntervalMs
  {
  }

  /** Starting from 1000 ms, the interval stays in [200, 5000] whatever keys arrive. */
  lemma IntervalStaysInRange(st: State, key: Key, snap: Snapshot, now: int)
    requires IntervalInRange(st.refreshIntervalMs)
    ensures IntervalInRange(Handled(st, key, snap, now).state.refreshIntervalMs)
  {
    var e := KeyEffect(st, key);
    if !st.showDetails && !st.filter.active && !IsNavigationKey(key) && !IsRefreshingKey(key) {
      SettingKeyKeepsInterval(st, key);
    }
    assert IntervalInRange(e.state.refreshIntervalMs);
    RefreshKeepsInterval(e.state, snap, now);
  }

  lemma SettingKeyKeepsInterval(st: State, key: Key)
    requires IntervalInRange(st.refreshIntervalMs)
    ensures IntervalInRange(SettingKey(st, key).state.refreshIntervalMs)
  {
    var ms := SettingKey(st, key).state.refreshIntervalMs;
    assert ms == st.refreshIntervalMs || ms == Faster(st.refreshIntervalMs) || ms == Slower(st.refreshIntervalMs);
  }

  /** Ticks never change the interval. */
  lemma TickKeepsInterval(st: State, snap: Snapshot, now: int)
    ensures Ticked(st, snap, now).refreshIntervalMs == st.refreshIntervalMs
  {
    RefreshKeepsInterval(st, snap, now);
  }

  /** The settings right after `App::new`: CPU order descending, no filter, not paused, 1000 ms. */
  lemma InitialSettings(snap: Snapshot, now: int)
    ensures var r := Initial(snap, now);
      && r.sortKey == Cpu && r.sortDesc && !r.paused && !r.showDetails && !r.shouldQuit
      && r.filter == FilterState(None, [], false)
      && r.refreshIntervalMs == InitialIntervalMs && IntervalInRange(r.refreshIntervalMs)
      && r.lastRefresh == now
  {
  }

  /** The table right after `App::new`: every sampled process, and the first row selected if there is one. */
  lemma InitialTable(snap: Snapshot, now: int)
    ensures var r := Initial(snap, now);
      && r.rows == TableRows(snap.processes, Cpu, true, None)
      && ValidSelection(r)
      && (r.selected.Some? <==> r.rows != [])
      && (r.selected.Some? ==> r.selected.value == 0)
  {
  }

  /** The histories right after `App::new`: one sample each. */
  lemma InitialHistories(snap: Snapshot, now: int)
    ensures var r := Initial(snap, now);
      && r.stats.cpuHist == [CpuPercent(snap.cpuUsage)]
      && r.stats.memHist == [MemPercent(snap.usedMemoryKiB / 1024, snap.totalMemoryKiB / 1024)]
  {
  }

  // ---------------------------------------------------------------------
  // The App object
  // ---------------------------------------------------------------------

  class App {
    var rows: seq<ProcRow>
    var selected: Option<nat>
    var sortKey: SortKey
    var sortDesc: bool
    var lastRefresh: int
    var stats: Stats
    var shouldQuit: bool
    var filter: FilterState
    var paused: bool
    var refreshIntervalMs: nat
    var showDetails: bool

    function Model(): State
      reads this
    {
      State(rows, selected, sortKey, sortDesc, lastRefresh, stats, shouldQuit, filter, paused,
            refreshIntervalMs, showDetails)
    }

    /** `App::new`: default settings, one refresh, then the first row selected if there is one. */
    constructor (snap: Snapshot, now: int)
      ensures Model() == Initial(snap, now)
    {
      rows := [];
      selected := None;
      sortKey := Cpu;
      sortDesc := true;
      lastRefresh := now;
      stats := Stats(0, 0, 0, [], []);
      shouldQuit := false;
      filter := FilterState(None, [], false);
      paused := false;
      refreshIntervalMs := InitialIntervalMs;
      showDetails := false;
      new;
      assert Model() == Defaults(now);
      RefreshData(snap, now);
      if rows != [] {
        selected := Some(0);
      }
    }

    /** `refresh_data`: new figures and histories, the rows rebuilt, the selection repaired. */
    method RefreshData(snap: Snapshot, now: int)
      modifies this
      ensures Model() == Refreshed(old(Model()), snap, now)
    {
      var newStats := Sample(stats, snap);
      var newRows := BuildRows(snap.processes, sortKey, sortDesc, filter.text);
      var sel := ClampSelection(selected, |newRows|);
      stats, rows, selected, lastRefresh := newStats, newRows, sel, now;
    }

    method OnTick(snap: Snapshot, now: int)
      modifies this
      ensures Model() == Ticked(old(Model()), snap, now)
    {
      if paused {
        return;
      }
      if Elapsed(lastRefresh, now) >= refreshIntervalMs {
        RefreshData(snap, now);
      }
    }

    method CycleSortKey(snap: Snapshot, now: int)
      modifies this
      ensures Model() == Refreshed(old(Model()).(sortKey := NextSortKey(old(sortKey))), snap, now)
    {
      sortKey := NextSortKey(sortKey);
      RefreshData(snap, now);
    }

    method ToggleSortOrder(snap: Snapshot, now: int)
      modifies this
      ensures Model() == Refreshed(old(Model()).(sortDesc := !old(sortDesc)), snap, now)
    {
      sortDesc := !sortDesc;
      RefreshData(snap, now);
    }

    method PageDown()
      modifies this
      ensures Model() == old(Model()).(selected := PageDownSelection(old(selected), |rows|))
    {
      if |rows| == 0 {
        selected := None;
        return;
      }
      var cur := Current(selected);
      var i := cur + PageStep;
      selected := Some(if i < |rows| - 1 then i else |rows| - 1);
    }

    method PageUp()
      modifies this
      ensures Model() == old(Model()).(selected := PageUpSelection(old(selected), |rows|))
    {
      if |rows| == 0 {
        selected := None;
        return;
      }
      var cur := Current(selected);
      selected := Some(if cur >= PageStep then cur - PageStep else 0);
    }

    method GoHome()
      modifies this
      ensures Model() == old(Model()).(selected := HomeSelection(|rows|))
    {
      if |rows| == 0 {
        selected := None;
      } else {
        selected := Some(0);
      }
    }

    method GoEnd()
      modifies this
      ensures Model() == old(Model()).(selected := EndSelection(|rows|))
    {
      if |rows| == 0 {
        selected := None;
      } else {
        selected := Some(|rows| - 1);
      }
    }

    method ForceRefresh(snap: Snapshot, now: int)
      modifies this
      ensures Model() == Refreshed(old(Model()), snap, now)
    {
      RefreshData(snap, now);
    }

    method SetIntervalFaster()
      modifies this
      ensures Model() == old(Model()).(refreshIntervalMs := Faster(old(refreshIntervalMs)))
    {
      var cur := refreshIntervalMs as int;
      var next := if cur - 200 > 200 then cur - 200 else 200;
      refreshIntervalMs := next;
    }

    method SetIntervalSlower()
      modifies this
      ensures Model() == old(Model()).(refreshIntervalMs := Slower(old(refreshIntervalMs)))
    {
      var cur := refreshIntervalMs as int;
      var next := if cur + 200 < 5000 then cur + 200 else 5000;
      refreshIntervalMs := next;
    }

    method SelectNext()
      modifies this
      ensures Model() == old(Model()).(selected := NextSelection(old(selected), |rows|))
    {
      var last := if |rows| > 0 then |rows| - 1 else 0;
      var i := match selected
        case Some(i) => if i + 1 < last then i + 1 else last
        case None => 0;
      selected := Some(i);
    }

    method SelectPrev()
      modifies this
      ensures Model() == old(Model()).(selected := PrevSelection(old(selected)))
    {
      var i := match selected
        case Some(i) => if i > 0 then i - 1 else 0
        case None => 0;
      selected := Some(i);
    }

    /** `kill_selected`; the kill itself is an OS call whose result the source discards. */
    method KillSelected(snap: Snapshot, now: int)
      modifies this
      ensures old(selected).Some? ==> Model() == Refreshed(old(Model()), snap, now)
      ensures old(selected).None? ==> Model() == old(Model())
    {
      if selected.Some? {
        RefreshData(snap, now);
      }
    }

    method HandleKey(key: Key, snap: Snapshot, now: int) returns (quit: bool)
      modifies this
      ensures Model() == Handled(old(Model()), key, snap, now).state
      ensures quit == Handled(old(Model()), key, snap, now).quit
    {
      if showDetails {
        quit := HandleDetailsKey(key);
      } else if filter.active {
        quit := HandleFilterKey(key, snap, now);
      } else {
        quit := HandleNormalKey(key, snap, now);
      }
    }

    /** The details-popup block of `handle_key`. */
    method HandleDetailsKey(key: Key) returns (quit: bool)
      requires showDetails
      modifies this
      ensures Model() == DetailsKey(old(Model()), key).state
      ensures !quit
    {
      if key == Esc || key == Enter || key == Char('i') {
        showDetails := false;
      }
      return false;
    }

    /** The filter-input block of `handle_key`. */
    method HandleFilterKey(key: Key, snap: Snapshot, now: int) returns (quit: bool)
      requires filter.active
      modifies this
      ensures Model() == Apply(FilterKey(old(Model()), key), snap, now)
      ensures !quit
    {
      if key == Esc {
        filter := filter.(active := false);
      } else if key == Enter {
        ApplyFilterInput(snap, now);
      } else if key == Backspace {
        if filter.input != [] {
          filter := filter.(input := filter.input[..|filter.input| - 1]);
        }
      } else if key.Char? {
        filter := filter.(input := filter.input + [key.c]);
      }
      return false;
    }

    /** Enter while editing the filter: the trimmed input becomes the filter (blank clears it), then a refresh. */
    method ApplyFilterInput(snap: Snapshot, now: int)
      modifies this
      ensures Model() == Apply(FilterKey(old(Model()), Enter), snap, now)
    {
      ghost var entered := FilterKey(Model(), Enter);
      var trimmed := Trim(filter.input);
      filter := filter.(text := if trimmed == [] then None else Some(trimmed), active := false);
      assert Model() == entered.state && entered.refresh;
      RefreshData(snap, now);
    }

    /** The normal-mode bindings of `handle_key`. */
    method HandleNormalKey(key: Key, snap: Snapshot, now: int) returns (quit: bool)
      modifies this
      ensures Model() == Apply(NormalKey(old(Model()), key), snap, now)
      ensures quit == NormalKey(old(Model()), key).quit
    {
      quit := false;
      if IsNavigationKey(key) {
        HandleNavigationKey(key);
      } else if IsRefreshingKey(key) {
        HandleRefreshingKey(key, snap, now);
      } else {
        quit := HandleSettingKey(key);
      }
    }

    /** The arrow, paging, Home and End bindings. */
    method HandleNavigationKey(key: Key)
      requires IsNavigationKey(key)
      modifies this
      ensures Model() == Navigated(old(Model()), key)
    {
      if key == Down {
        SelectNext();
      } else if key == Up {
        SelectPrev();
      } else if key.PageDown? {
        PageDown();
      } else if key.PageUp? {
        PageUp();
      } else if key == Home {
        GoHome();
      } else {
        GoEnd();
      }
    }

    /** The bindings that end with a refresh: 's', 'r', 'k' and F5. */
    method HandleRefreshingKey(key: Key, snap: Snapshot, now: int)
      requires IsRefreshingKey(key)
      modifies this
      ensures Model() == Apply(RefreshingKey(old(Model()), key), snap, now)
    {
      if key == Char('s') {
        CycleSortKey(snap, now);
      } else if key == Char('r') {
        ToggleSortOrder(snap, now);
      } else if key == Char('k') {
        KillSelected(snap, now);
      } else {
        ForceRefresh(snap, now);
      }
    }

    /** The remaining bindings: quit, details, filter, pause and the interval; none refreshes. */
    method HandleSettingKey(key: Key) returns (quit: bool)
      modifies this
      ensures Model() == SettingKey(old(Model()), key).state
      ensures quit == SettingKey(old(Model()), key).quit
    {
      quit := false;
      if key == Char('q') {
        shouldQuit := true;
        quit := true;
      } else if key == Char('i') {
        if SelectedPid(Model()).Some? {
          showDetails := true;
        }
      } else if key == Char('/') {
        filter := filter.(active := true, input := if filter.text.Some? then filter.text.value else []);
      } else if key == Char('p') {
        paused := !paused;
      } else if key == Char('+') || key == Char('=') {
        SetIntervalFaster();
      } else if key == Char('-') {
        SetIntervalSlower();
      }
    }
  }
}
