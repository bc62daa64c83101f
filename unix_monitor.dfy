/**
 * The engine of the Unix Rust process monitor: the `App` state (sort key and
 * order, selection index, process list, filter, input mode, pause, status
 * line, details flag), the sort and filter pipeline, and the key dispatch and
 * tick logic of the `run_app` loop.  The locals that loop keeps besides
 * `app` (tick rate, time of the last tick, and the process table the sysinfo
 * `System` currently holds) are the value `Loop`.  Samples, the clock and the
 * kill call are inputs; drawing and terminal set-up are not modelled.
 *
 * CPU usage is an integer standing for the `f32` value, which the engine
 * only compares.
 */
module UnixMonitor {
  import opened Wrappers
  import opened Text
  import Seqs

  const InitialTickMs: nat := 500
  const MinTickMs: nat := 100
  const MaxTickMs: nat := 5000
  const TickStepMs: nat := 100
  const PageStep: nat := 10
  const NotSupported: string := "kill not supported on this platform in this build"

  datatype SortKey = Cpu | Mem | Pid

  datatype InputMode = Normal | Searching

  /** One process as `collect_processes` copies it out of the sysinfo table. */
  datatype ProcRow = ProcRow(pid: int, name: string, cpu: int, memKb: nat)

  /** The key codes the loop distinguishes. */
  datatype KeyCode = Char(c: char) | Up | Down | PageUp | PageDown | Home | End | Enter | Esc | Backspace | F(n: nat) | Other

  datatype KeyKind = Press | Repeat | Release

  datatype KeyEvent = KeyEvent(code: KeyCode, kind: KeyKind)

  /** The fields of `App`. */
  datatype State = State(
    sort: SortKey,
    desc: bool,
    selected: nat,
    processes: seq<ProcRow>,
    filter: string,
    mode: InputMode,
    paused: bool,
    status: string,
    showDetails: bool)

  /** The other locals of `run_app`: `tick_rate`, `last_tick` and the processes `sys` last sampled. */
  datatype Loop = Loop(tickRateMs: nat, lastTick: int, sys: seq<ProcRow>)

  /** One pass of the loop: the new `app`, the new locals, and whether `run_app` returns. */
  datatype Outcome = Outcome(app: State, loop: Loop, quit: bool)

  // ---------------------------------------------------------------------
  // Arithmetic helpers
  // ---------------------------------------------------------------------

  /** `usize::saturating_sub`. */
  function SatSub(a: nat, b: nat): (r: nat)
    ensures a >= b ==> r == a - b
    ensures a < b ==> r == 0
  {
    if a >= b then a - b else 0
  }

  /** `Ord::clamp`. */
  function Clamp(x: nat, lo: nat, hi: nat): (r: nat)
    requires lo <= hi
    ensures lo <= r <= hi
    ensures lo <= x <= hi ==> r == x
    ensures x < lo ==> r == lo
    ensures x > hi ==> r == hi
  {
    if x < lo then lo else if x > hi then hi else x
  }

  /** `Instant::elapsed` for a clock reading `now`; a clock behind `last` reads as zero. */
  function Elapsed(last: int, now: int): nat {
    if now >= last then now - last else 0
  }

  // ---------------------------------------------------------------------
  // Sorting
  // ---------------------------------------------------------------------

  /** `cycle_sort`. */
  function NextSort(k: SortKey): SortKey {
    match k
    case Cpu => Mem
    case Mem => Pid
    case Pid => Cpu
  }

  /** `cycle_sort` visits the three keys and returns after three presses. */
  lemma NextSortCycles(k: SortKey)
    ensures NextSort(NextSort(NextSort(k))) == k
    ensures NextSort(k) != k && NextSort(NextSort(k)) != k
    ensures NextSort(Cpu) == Mem && NextSort(Mem) == Pid && NextSort(Pid) == Cpu
  {
  }

  /** The comparators of `sort_processes`, as "a does not sort after b". */
  function NotAfter(key: SortKey): (ProcRow, ProcRow) -> bool {
    match key
    case Cpu => (a: ProcRow, b: ProcRow) => a.cpu <= b.cpu
    case Mem => (a: ProcRow, b: ProcRow) => a.memKb <= b.memKb
    case Pid => (a: ProcRow, b: ProcRow) => a.pid <= b.pid
  }

  lemma NotAfterIsTotalPreorder(key: SortKey)
    ensures Seqs.TotalPreorder(NotAfter(key))
  {
  }

  /** The order `sort_processes` leaves: the stable ascending sort, reversed when descending. */
  function SortedRows(ps: seq<ProcRow>, key: SortKey, desc: bool): seq<ProcRow> {
    var asc := Seqs.StableSort(ps, NotAfter(key));
    if desc then Seqs.Reverse(asc) else asc
  }

  /** The sorted list is a permutation ordered by the key; tied rows keep their input order ascending and are exactly reversed descending. */
  lemma SortedRowsSpec(ps: seq<ProcRow>, key: SortKey, desc: bool)
    ensures multiset(SortedRows(ps, key, desc)) == multiset(ps)
    ensures |SortedRows(ps, key, desc)| == |ps|
    ensures !desc ==> Seqs.SortedBy(SortedRows(ps, key, desc), NotAfter(key))
    ensures desc ==> forall i, j :: 0 <= i < j < |ps| ==>
                       NotAfter(key)(SortedRows(ps, key, desc)[j], SortedRows(ps, key, desc)[i])
    ensures !desc ==> forall x :: Seqs.TiedWith(SortedRows(ps, key, desc), x, NotAfter(key))
                               == Seqs.TiedWith(ps, x, NotAfter(key))
    ensures desc ==> forall x :: Seqs.TiedWith(SortedRows(ps, key, desc), x, NotAfter(key))
                              == Seqs.Reverse(Seqs.TiedWith(ps, x, NotAfter(key)))
  {
    NotAfterIsTotalPreorder(key);
    if desc {
      Seqs.ReversedStableSortSpec(ps, NotAfter(key));
    } else {
      Seqs.StableSortSpec(ps, NotAfter(key));
    }
  }

  /** The selection points at a row, or is 0 on an empty list. */
  predicate SelectionValid(selected: nat, len: nat) {
    selected < len || (len == 0 && selected == 0)
  }

  /** The clamp at the end of `sort_processes`. */
  function ClampSelected(selected: nat, len: nat): (r: nat)
    ensures SelectionValid(r, len)
    ensures selected < len ==> r == selected
    ensures selected >= len ==> r == SatSub(len, 1)
  {
    if selected >= len then SatSub(len, 1) else selected
  }

  /** `sort_processes`. */
  function Sorted(st: State): State {
    var ps := SortedRows(st.processes, st.sort, st.desc);
    st.(processes := ps, selected := ClampSelected(st.selected, |ps|))
  }

  /**
   * After `sort_processes` the list is the old one reordered by the key, the
   * selection is valid, and a selection that was valid before is kept.
   */
  lemma SortedSpec(st: State)
    ensures Sorted(st).processes == SortedRows(st.processes, st.sort, st.desc)
    ensures multiset(Sorted(st).processes) == multiset(st.processes)
    ensures SelectionValid(Sorted(st).selected, |Sorted(st).processes|)
    ensures st.selected < |st.processes| ==> Sorted(st).selected == st.selected
    ensures Sorted(st) == st.(processes := Sorted(st).processes, selected := Sorted(st).selected)
  {
    SortedRowsSpec(st.processes, st.sort, st.desc);
  }

  // ---------------------------------------------------------------------
  // Filtering and refreshing
  // ---------------------------------------------------------------------

  /** The `filter` closure of `filter_processes` for the lowercased needle. */
  function NameMatches(needle: string): ProcRow -> bool {
    (p: ProcRow) => Contains(Lower(p.name), needle)
  }

  /** `filter_processes`. */
  function FilterProcesses(v: seq<ProcRow>, filter: string): seq<ProcRow> {
    if filter == [] then v else Seqs.Filter(v, NameMatches(Lower(filter)))
  }

  /**
   * An empty filter keeps the list; otherwise exactly the rows whose
   * lowercased name contains the lowercased filter survive, in their order.
   */
  lemma FilterProcessesSpec(v: seq<ProcRow>, filter: string)
    ensures filter == [] ==> FilterProcesses(v, filter) == v
    ensures filter != [] ==> forall p :: p in FilterProcesses(v, filter) <==>
                               p in v && Contains(Lower(p.name), Lower(filter))
    ensures Seqs.IsSubsequence(FilterProcesses(v, filter), v)
    ensures filter != [] ==> forall p :: multiset(FilterProcesses(v, filter))[p] ==
                               if Contains(Lower(p.name), Lower(filter)) then multiset(v)[p] else 0
  {
    if filter == [] {
      Seqs.SubsequenceReflexive(v);
    } else {
      Seqs.FilterIsSubsequence(v, NameMatches(Lower(filter)));
      forall p ensures multiset(FilterProcesses(v, filter))[p] ==
                       if Contains(Lower(p.name), Lower(filter)) then multiset(v)[p] else 0 {
        Seqs.FilterCounts(v, NameMatches(Lower(filter)), p);
      }
    }
  }

  /** The filter looks at names only: changing a row's PID does not change whether it is kept. */
  lemma FilterIgnoresPid(p: ProcRow, pid: int, filter: string)
    ensures FilterProcesses([p], filter) == [p] <==> FilterProcesses([p.(pid := pid)], filter) == [p.(pid := pid)]
  {
    var q := p.(pid := pid);
    if filter != [] {
      assert Seqs.Filter([p], NameMatches(Lower(filter))) == (if NameMatches(Lower(filter))(p) then [p] else []);
      assert Seqs.Filter([q], NameMatches(Lower(filter))) == (if NameMatches(Lower(filter))(q) then [q] else []);
    }
  }

  /** `do_refresh` on the freshly sampled table `sampled`. */
  function Refreshed(st: State, sampled: seq<ProcRow>): State {
    Sorted(st.(processes := FilterProcesses(sampled, st.filter)))
  }

  /** A refresh shows the filtered new sample in the current order, and keeps a valid selection. */
  lemma RefreshedSpec(st: State, sampled: seq<ProcRow>)
    ensures Refreshed(st, sampled).processes == SortedRows(FilterProcesses(sampled, st.filter), st.sort, st.desc)
    ensures SelectionValid(Refreshed(st, sampled).selected, |Refreshed(st, sampled).processes|)
    ensures st.selected < |Refreshed(st, sampled).processes| ==> Refreshed(st, sampled).selected == st.selected
    ensures Refreshed(st, sampled).filter == st.filter && Refreshed(st, sampled).mode == st.mode
    ensures Refreshed(st, sampled).paused == st.paused && Refreshed(st, sampled).status == st.status
  {
    SortedSpec(st.(processes := FilterProcesses(sampled, st.filter)));
  }

  // ---------------------------------------------------------------------
  // Killing a process
  // ---------------------------------------------------------------------

  /** What running `taskkill` gave: it could not be started, or it exited with a status. */
  datatype Spawned = SpawnFailed(error: string) | Exited(success: bool, code: Option<int>)

  /** `{:?}` of an `Option<i32>` exit code. */
  function DebugCode(code: Option<int>): string {
    match code
    case None => "None"
    case Some(n) => "Some(" + IntToDecimal(n) + ")"
  }

  /**
   * `kill_process`.  On Windows `first` and `forced` are the results of
   * `taskkill /PID n` and `taskkill /PID n /F` (the second is only run when
   * the first exited unsuccessfully; a failure to start the first returns
   * at once); other builds always fail.
   */
  function KillProcess(windows: bool, first: Spawned, forced: Spawned): (r: Result<(), string>)
    ensures !windows ==> r == Err(NotSupported)
    ensures r.Ok? <==> windows && first.Exited? && (first.success || (forced.Exited? && forced.success))
    ensures windows && first.SpawnFailed? ==> r == Err("spawn taskkill failed: " + first.error)
    ensures windows && first.Exited? && !first.success && forced.SpawnFailed? ==>
              r == Err("spawn taskkill /F failed: " + forced.error)
    ensures windows && first.Exited? && !first.success && forced.Exited? && !forced.success ==>
              r == Err("taskkill exit code " + DebugCode(forced.code))
  {
    if !windows then Err(NotSupported)
    else match first
      case SpawnFailed(e) => Err("spawn taskkill failed: " + e)
      case Exited(ok, _) =>
        if ok then Ok(())
        else match forced
          case SpawnFailed(e) => Err("spawn taskkill /F failed: " + e)
          case Exited(ok2, code) => if ok2 then Ok(()) else Err("taskkill exit code " + DebugCode(code))
  }

  /** The status line `k` leaves for the process `pid`. */
  function KillStatus(pid: int, r: Result<(), string>): string {
    match r
    case Ok(_) => "killed PID " + IntToDecimal(pid)
    case Err(e) => "kill PID " + IntToDecimal(pid) + " failed: " + e
  }

  // ---------------------------------------------------------------------
  // The key dispatch
  // ---------------------------------------------------------------------

  predicate IsNavigation(code: KeyCode) {
    code.Up? || code.Down? || code.PageUp? || code.PageDown? || code.Home? || code.End?
  }

  /** The selection after a navigation key on a list of `len` rows. */
  function Navigated(selected: nat, len: nat, code: KeyCode): nat
    requires IsNavigation(code)
  {
    match code
    case Up => SatSub(selected, 1)
    case Down => if selected + 1 < len then selected + 1 else selected
    case PageUp => SatSub(selected, PageStep)
    case PageDown => if selected + PageStep < SatSub(len, 1) then selected + PageStep else SatSub(len, 1)
    case Home => 0
    case End => SatSub(len, 1)
  }

  /** Navigation never breaks a valid selection. */
  lemma NavigationKeepsSelectionValid(selected: nat, len: nat, code: KeyCode)
    requires IsNavigation(code) && SelectionValid(selected, len)
    ensures SelectionValid(Navigated(selected, len, code), len)
  {
  }

  /** '-': 100 ms shorter (saturating), then clamped into [100, 5000]. */
  function TickRateDown(ms: nat): (r: nat)
    ensures MinTickMs <= r <= MaxTickMs
  {
    Clamp(SatSub(ms, TickStepMs), MinTickMs, MaxTickMs)
  }

  /** '+' and '=': 100 ms longer, then clamped into [100, 5000]. */
  function TickRateUp(ms: nat): (r: nat)
    ensures MinTickMs <= r <= MaxTickMs
  {
    Clamp(ms + TickStepMs, MinTickMs, MaxTickMs)
  }

  /** The exact tick-rate steps inside the range. */
  lemma TickRateSteps(ms: nat)
    requires MinTickMs <= ms <= MaxTickMs
    ensures TickRateDown(ms) == if ms >= MinTickMs + TickStepMs then ms - TickStepMs else MinTickMs
    ensures TickRateUp(ms) == if ms + TickStepMs <= MaxTickMs then ms + TickStepMs else MaxTickMs
    ensures TickRateDown(ms) <= ms <= TickRateUp(ms)
  {
  }

  /** 'k': kill the selected process; `kill` is what `kill_process` returned for it. */
  function KillKey(st: State, lp: Loop, sampled: seq<ProcRow>, kill: Result<(), string>): Outcome {
    if st.selected < |st.processes| then
      var pid := st.processes[st.selected].pid;
      var st1 := st.(status := KillStatus(pid, kill));
      if kill.Ok? then Outcome(Refreshed(st1, sampled), lp.(sys := sampled), false)
      else Outcome(st1, lp, false)
    else Outcome(st, lp, false)
  }

  /** Esc in normal mode: a non-empty filter is dropped and the full table shown again from the top. */
  function ClearFilter(st: State, lp: Loop): State {
    if st.filter != [] then Sorted(st.(filter := [], selected := 0, processes := lp.sys)) else st
  }

  /** The normal-mode commands that rebuild or reorder the list: 's', 'r', F5, 'k' and Esc. */
  predicate IsListKey(code: KeyCode) {
    code == Char('s') || code == Char('r') || code == F(5) || code == Char('k') || code == Esc
  }

  function ListKey(st: State, lp: Loop, code: KeyCode, sampled: seq<ProcRow>, kill: Result<(), string>): Outcome
    requires IsListKey(code)
  {
    if code == Char('s') then Outcome(Sorted(st.(sort := NextSort(st.sort))), lp, false)
    else if code == Char('r') then Outcome(Sorted(st.(desc := !st.desc)), lp, false)
    else if code == F(5) then Outcome(Refreshed(st, sampled), lp.(sys := sampled), false)
    else if code == Char('k') then KillKey(st, lp, sampled, kill)
    else Outcome(ClearFilter(st, lp), lp, false)
  }

  /** The other commands: quit, search, pause, tick rate and details; none touches the list. */
  function SettingKey(st: State, lp: Loop, code: KeyCode): Outcome {
    match code
    case Enter => Outcome(st.(showDetails := !st.showDetails), lp, false)
    case Char(c) =>
      if c == 'q' then Outcome(st, lp, true)
      else if c == '/' then Outcome(st.(mode := Searching), lp, false)
      else if c == 'p' then Outcome(st.(paused := !st.paused), lp, false)
      else if c == '-' then Outcome(st, lp.(tickRateMs := TickRateDown(lp.tickRateMs)), false)
      else if c == '+' || c == '=' then Outcome(st, lp.(tickRateMs := TickRateUp(lp.tickRateMs)), false)
      else if c == 'd' then Outcome(st.(showDetails := !st.showDetails), lp, false)
      else Outcome(st, lp, false)
    case _ => Outcome(st, lp, false)
  }

  /** Normal mode: navigation, or a command. */
  function NormalKey(st: State, lp: Loop, code: KeyCode, sampled: seq<ProcRow>, kill: Result<(), string>): Outcome {
    if IsNavigation(code) then Outcome(st.(selected := Navigated(st.selected, |st.processes|, code)), lp, false)
    else if IsListKey(code) then ListKey(st, lp, code, sampled, kill)
    else SettingKey(st, lp, code)
  }

  /** The edit a key makes to the search (Esc already re-lists and re-sorts, as the source does). */
  function SearchEdit(st: State, lp: Loop, code: KeyCode): State {
    match code
    case Enter => st.(mode := Normal)
    case Esc => Sorted(st.(filter := [], mode := Normal, selected := 0, processes := lp.sys))
    case Backspace => st.(filter := DropLast(st.filter))
    case Char(c) => if !IsControl(c) then st.(filter := st.filter + [c]) else st
    case _ => st
  }

  /** Searching mode: the edit, then always back to the top of the re-filtered, re-sorted table. */
  function SearchKey(st: State, lp: Loop, code: KeyCode): State {
    var st1 := SearchEdit(st, lp, code);
    Sorted(st1.(selected := 0, processes := FilterProcesses(lp.sys, st1.filter)))
  }

  /** One key event: releases are skipped, the rest go to the handler of the current mode. */
  function Stepped(st: State, lp: Loop, ev: KeyEvent, sampled: seq<ProcRow>, kill: Result<(), string>): Outcome {
    if ev.kind == Release then Outcome(st, lp, false)
    else if st.mode == Normal then NormalKey(st, lp, ev.code, sampled, kill)
    else Outcome(SearchKey(st, lp, ev.code), lp, false)
  }

  /** The top of the loop at time `now`: a refresh from `sampled` when the tick is due, unless paused. */
  function Ticked(st: State, lp: Loop, now: int, sampled: seq<ProcRow>): Outcome {
    if Elapsed(lp.lastTick, now) >= lp.tickRateMs then
      if !st.paused then Outcome(Refreshed(st, sampled), lp.(lastTick := now, sys := sampled), false)
      else Outcome(st, lp.(lastTick := now), false)
    else Outcome(st, lp, false)
  }

  /** The `poll` timeout at time `now`: what is left of the tick, saturating at zero. */
  function PollTimeout(lp: Loop, now: int): (r: nat)
    ensures r <= lp.tickRateMs
    ensures Elapsed(lp.lastTick, now) >= lp.tickRateMs <==> r == 0 || lp.tickRateMs == 0
  {
    SatSub(lp.tickRateMs, Elapsed(lp.lastTick, now))
  }

  /** The row the table widget highlights. */
  function TableSelection(st: State): (r: Option<nat>)
    ensures r.None? <==> st.processes == []
    ensures SelectionValid(st.selected, |st.processes|) && r.Some? ==> r.value < |st.processes|
  {
    if st.processes == [] then None else Some(st.selected)
  }

  /** `App::new`. */
  function InitialApp(): State {
    State(Cpu, true, 0, [], [], Normal, false, [], false)
  }

  /** The loop locals before the first pass, with `sys` as `refresh_all` left it at time `start`. */
  function InitialLoop(start: int, sys: seq<ProcRow>): Loop {
    Loop(InitialTickMs, start, sys)
  }

  // ---------------------------------------------------------------------
  // Properties of the loop
  // ---------------------------------------------------------------------

  /** The loop starts with a valid selection and a tick rate in range. */
  lemma InitialSpec(start: int, sys: seq<ProcRow>)
    ensures SelectionValid(InitialApp().selected, |InitialApp().processes|)
    ensures MinTickMs <= InitialLoop(start, sys).tickRateMs <= MaxTickMs
    ensures InitialApp().filter == [] && InitialApp().mode == Normal && !InitialApp().paused
  {
  }

  /** A key in searching mode never breaks a valid selection. */
  lemma SearchKeepsSelectionValid(st: State, lp: Loop, code: KeyCode)
    ensures SearchKey(st, lp, code).selected == 0
    ensures SelectionValid(SearchKey(st, lp, code).selected, |SearchKey(st, lp, code).processes|)
  {
    var st1 := SearchEdit(st, lp, code);
    SortedSpec(st1.(selected := 0, processes := FilterProcesses(lp.sys, st1.filter)));
  }

  /** The list commands never break a valid selection. */
  lemma ListKeyKeepsSelectionValid(st: State, lp: Loop, code: KeyCode, sampled: seq<ProcRow>, kill: Result<(), string>)
    requires IsListKey(code) && SelectionValid(st.selected, |st.processes|)
    ensures var o := ListKey(st, lp, code, sampled, kill);
      SelectionValid(o.app.selected, |o.app.processes|)
  {
    if code == Char('s') {
      SortedSpec(st.(sort := NextSort(st.sort)));
    } else if code == Char('r') {
      SortedSpec(st.(desc := !st.desc));
    } else if code == F(5) {
      RefreshedSpec(st, sampled);
    } else if code == Char('k') {
      if st.selected < |st.processes| {
        RefreshedSpec(st.(status := KillStatus(st.processes[st.selected].pid, kill)), sampled);
      }
    } else {
      SortedSpec(st.(filter := [], selected := 0, processes := lp.sys));
    }
  }

  /** The setting commands leave the list and the selection alone. */
  lemma SettingKeyKeepsList(st: State, lp: Loop, code: KeyCode)
    ensures SettingKey(st, lp, code).app.processes == st.processes
    ensures SettingKey(st, lp, code).app.selected == st.selected
  {
  }

  /** Every event keeps `selected < len`, or `selected == 0` on an empty list. */
  lemma SelectionStaysValid(st: State, lp: Loop, ev: KeyEvent, sampled: seq<ProcRow>, kill: Result<(), string>)
    requires SelectionValid(st.selected, |st.processes|)
    ensures var o := Stepped(st, lp, ev, sampled, kill);
      SelectionValid(o.app.selected, |o.app.processes|)
  {
    if ev.kind != Release {
      if st.mode == Normal {
        if IsNavigation(ev.code) {
          NavigationKeepsSelectionValid(st.selected, |st.processes|, ev.code);
        } else if IsListKey(ev.code) {
          ListKeyKeepsSelectionValid(st, lp, ev.code, sampled, kill);
        } else {
          SettingKeyKeepsList(st, lp, ev.code);
        }
      } else {
        SearchKeepsSelectionValid(st, lp, ev.code);
      }
    }
  }

  /** So does every tick. */
  lemma TickKeepsSelectionValid(st: State, lp: Loop, now: int, sampled: seq<ProcRow>)
    requires SelectionValid(st.selected, |st.processes|)
    ensures var o := Ticked(st, lp, now, sampled);
      SelectionValid(o.app.selected, |o.app.processes|)
  {
    RefreshedSpec(st, sampled);
  }

  /** Starting from 500 ms, the tick rate stays in [100, 5000] whatever events and ticks arrive. */
  lemma TickRateStaysInRange(st: State, lp: Loop, ev: KeyEvent, sampled: seq<ProcRow>, kill: Result<(), string>, now: int)
    requires MinTickMs <= lp.tickRateMs <= MaxTickMs
    ensures MinTickMs <= Stepped(st, lp, ev, sampled, kill).loop.tickRateMs <= MaxTickMs
    ensures Ticked(st, lp, now, sampled).loop.tickRateMs == lp.tickRateMs
  {
  }

  /** Released keys change nothing. */
  lemma ReleaseIgnored(st: State, lp: Loop, code: KeyCode, sampled: seq<ProcRow>, kill: Result<(), string>)
    ensures Stepped(st, lp, KeyEvent(code, Release), sampled, kill) == Outcome(st, lp, false)
  {
  }

  /** Only 'q' in normal mode ends the loop. */
  lemma OnlyQuitKeyQuits(st: State, lp: Loop, ev: KeyEvent, sampled: seq<ProcRow>, kill: Result<(), string>)
    ensures Stepped(st, lp, ev, sampled, kill).quit <==> ev.kind != Release && st.mode == Normal && ev.code == Char('q')
  {
  }

  /** The normal-mode navigation keys, on a list of `len` rows. */
  lemma NavigationSpec(selected: nat, len: nat)
    ensures Navigated(selected, len, Up) == SatSub(selected, 1)
    ensures Navigated(selected, len, PageUp) == SatSub(selected, PageStep)
    ensures Navigated(selected, len, Down) == if selected + 1 < len then selected + 1 else selected
    ensures Navigated(selected, len, PageDown) == if selected + PageStep < SatSub(len, 1) then selected + PageStep else SatSub(len, 1)
    ensures Navigated(selected, len, Home) == 0
    ensures Navigated(selected, len, End) == SatSub(len, 1)
  {
  }

  /** F5 refreshes even while paused; a tick refreshes only when due and not paused, and a due tick always restarts. */
  lemma RefreshScheduling(st: State, lp: Loop, sampled: seq<ProcRow>, kill: Result<(), string>, now: int)
    requires st.mode == Normal
    ensures Stepped(st, lp, KeyEvent(F(5), Press), sampled, kill) == Outcome(Refreshed(st, sampled), lp.(sys := sampled), false)
    ensures st.paused || Elapsed(lp.lastTick, now) < lp.tickRateMs ==> Ticked(st, lp, now, sampled).app == st
    ensures !st.paused && Elapsed(lp.lastTick, now) >= lp.tickRateMs ==> Ticked(st, lp, now, sampled).app == Refreshed(st, sampled)
    ensures Elapsed(lp.lastTick, now) >= lp.tickRateMs ==> Ticked(st, lp, now, sampled).loop.lastTick == now
    ensures Elapsed(lp.lastTick, now) < lp.tickRateMs ==> Ticked(st, lp, now, sampled).loop == lp
  {
  }

  /** In normal mode a pressed 'k' is `KillKey`. */
  lemma KillKeyDispatch(st: State, lp: Loop, sampled: seq<ProcRow>, kill: Result<(), string>)
    requires st.mode == Normal
    ensures Stepped(st, lp, KeyEvent(Char('k'), Press), sampled, kill) == KillKey(st, lp, sampled, kill)
  {
  }

  /** 'k': success reports the PID and refreshes; failure only sets the status; no valid row does nothing. */
  lemma KillSpec(st: State, lp: Loop, sampled: seq<ProcRow>, kill: Result<(), string>)
    ensures var o := KillKey(st, lp, sampled, kill);
      && (st.selected >= |st.processes| ==> o == Outcome(st, lp, false))
      && (st.selected < |st.processes| && kill.Ok? ==>
            o.app == Refreshed(st.(status := "killed PID " + IntToDecimal(st.processes[st.selected].pid)), sampled)
            && o.loop == lp.(sys := sampled))
      && (st.selected < |st.processes| && kill.Err? ==>
            o == Outcome(st.(status := "kill PID " + IntToDecimal(st.processes[st.selected].pid) + " failed: " + kill.error),
                         lp, false))
  {
  }

  /** Off Windows every kill fails with the "not supported" message. */
  lemma KillUnsupportedOffWindows(st: State, lp: Loop, sampled: seq<ProcRow>, first: Spawned, forced: Spawned)
    requires st.selected < |st.processes|
    ensures KillKey(st, lp, sampled, KillProcess(false, first, forced)).app
         == st.(status := "kill PID " + IntToDecimal(st.processes[st.selected].pid) + " failed: " + NotSupported)
  {
  }

  /** Esc in normal mode: with a filter it is dropped and the whole sampled table shown from the top; else nothing. */
  lemma NormalEscSpec(st: State, lp: Loop, sampled: seq<ProcRow>, kill: Result<(), string>)
    requires st.mode == Normal
    ensures var o := Stepped(st, lp, KeyEvent(Esc, Press), sampled, kill);
      && (st.filter == [] ==> o == Outcome(st, lp, false))
      && (st.filter != [] ==> o.app.filter == [] && o.app.selected == 0
                               && o.app.processes == SortedRows(lp.sys, st.sort, st.desc))
  {
    if st.filter != [] {
      SortedSpec(st.(filter := [], selected := 0, processes := lp.sys));
    }
  }

  /**
   * Searching mode: printable characters extend the filter, Backspace drops
   * its last character, Enter keeps it and Esc clears it; both of those
   * return to normal mode.
   */
  lemma SearchSpec(st: State, lp: Loop, code: KeyCode)
    requires st.mode == Searching
    ensures var r := SearchKey(st, lp, code);
      && (code.Char? && !IsControl(code.c) ==> r.filter == st.filter + [code.c] && r.mode == Searching)
      && (code.Char? && IsControl(code.c) ==> r.filter == st.filter)
      && (code == Backspace ==> r.filter == DropLast(st.filter))
      && (code == Enter ==> r.filter == st.filter && r.mode == Normal)
      && (code == Esc ==> r.filter == [] && r.mode == Normal)
  {
    SearchKeyKeepsEdit(st, lp, code);
    if code == Esc {
      SortedSpec(st.(filter := [], mode := Normal, selected := 0, processes := lp.sys));
    }
  }

  /** After any search key the table is the sampled table under the new filter, sorted, from the top. */
  lemma SearchRelists(st: State, lp: Loop, code: KeyCode)
    ensures var r := SearchKey(st, lp, code);
      && r.selected == 0
      && r.processes == SortedRows(FilterProcesses(lp.sys, r.filter), st.sort, st.desc)
  {
    var st1 := SearchEdit(st, lp, code);
    SearchEditKeepsOrder(st, lp, code);
    SortedSpec(st1.(selected := 0, processes := FilterProcesses(lp.sys, st1.filter)));
  }

  /** No search key changes the sort key or its direction. */
  lemma SearchEditKeepsOrder(st: State, lp: Loop, code: KeyCode)
    ensures SearchEdit(st, lp, code).sort == st.sort && SearchEdit(st, lp, code).desc == st.desc
  {
    if code == Esc {
      SortedSpec(st.(filter := [], mode := Normal, selected := 0, processes := lp.sys));
    }
  }

  /** The re-listing after the edit changes neither the filter nor the mode. */
  lemma SearchKeyKeepsEdit(st: State, lp: Loop, code: KeyCode)
    ensures SearchKey(st, lp, code).filter == SearchEdit(st, lp, code).filter
    ensures SearchKey(st, lp, code).mode == SearchEdit(st, lp, code).mode
  {
    var st1 := SearchEdit(st, lp, code);
    SortedSpec(st1.(selected := 0, processes := FilterProcesses(lp.sys, st1.filter)));
  }

  // ---------------------------------------------------------------------
  // The App object and the loop body
  // ---------------------------------------------------------------------

  class App {
    var sort: SortKey
    var desc: bool
    var selected: nat
    var processes: seq<ProcRow>
    var filter: string
    var mode: InputMode
    var paused: bool
    var status: string
    var showDetails: bool

    function Model(): State
      reads this
    {
      State(sort, desc, selected, processes, filter, mode, paused, status, showDetails)
    }

    constructor ()
      ensures Model() == InitialApp()
    {
      sort := Cpu;
      desc := true;
      selected := 0;
      processes := [];
      filter := [];
      mode := Normal;
      paused := false;
      status := [];
      showDetails := false;
    }

    method CycleSort()
      modifies this
      ensures Model() == old(Model()).(sort := NextSort(old(sort)))
    {
      sort := NextSort(sort);
    }

    /** `sort_processes`: the library sort, reversed when descending, then the selection clamped. */
    method SortProcesses()
      modifies this
      ensures Model() == Sorted(old(Model()))
    {
      processes := Seqs.StableSort(processes, NotAfter(sort));
      if desc {
        processes := Seqs.Reverse(processes);
      }
      if selected >= |processes| {
        selected := SatSub(|processes|, 1);
      }
    }

    /** `do_refresh`, with `sampled` the table that `refresh_processes` sampled. */
    method DoRefresh(sampled: seq<ProcRow>)
      modifies this
      ensures Model() == Refreshed(old(Model()), sampled)
    {
      processes := if filter == [] then sampled else FilterProcesses(sampled, filter);
      SortProcesses();
    }

    /** The top of the loop: refresh when the tick is due and not paused; a due tick restarts the tick. */
    method Tick(lp: Loop, now: int, sampled: seq<ProcRow>) returns (next: Loop)
      modifies this
      ensures Outcome(Model(), next, false) == Ticked(old(Model()), lp, now, sampled)
    {
      next := lp;
      if Elapsed(lp.lastTick, now) >= lp.tickRateMs {
        if !paused {
          DoRefresh(sampled);
          next := next.(sys := sampled);
        }
        next := next.(lastTick := now);
      }
    }

    /**
     * The event part of the loop body.  `sampled` is what a refresh during this
     * event samples and `kill` what `kill_process` returns for the selected row.
     */
    method Step(lp: Loop, ev: KeyEvent, sampled: seq<ProcRow>, kill: Result<(), string>)
      returns (next: Loop, quit: bool)
      modifies this
      ensures Outcome(Model(), next, quit) == Stepped(old(Model()), lp, ev, sampled, kill)
    {
      if ev.kind == Release {
        return lp, false;
      }
      if mode == Normal {
        if IsNavigation(ev.code) {
          Navigate(ev.code);
          next, quit := lp, false;
        } else if IsListKey(ev.code) {
          next := ListCommand(lp, ev.code, sampled, kill);
          quit := false;
        } else {
          next, quit := SettingCommand(lp, ev.code);
        }
      } else {
        Search(lp, ev.code);
        next, quit := lp, false;
      }
    }

    method Navigate(code: KeyCode)
      requires IsNavigation(code)
      modifies this
      ensures Model() == old(Model()).(selected := Navigated(old(selected), |old(processes)|, code))
    {
      var len := |processes|;
      match code
      case Up => selected := SatSub(selected, 1);
      case Down =>
        if selected + 1 < len {
          selected := selected + 1;
        }
      case PageUp => selected := SatSub(selected, PageStep);
      case PageDown =>
        var last := SatSub(len, 1);
        selected := if selected + PageStep < last then selected + PageStep else last;
      case Home => selected := 0;
      case End => selected := SatSub(len, 1);
    }

    /** The list commands: 's', 'r', F5, 'k' and Esc. */
    method ListCommand(lp: Loop, code: KeyCode, sampled: seq<ProcRow>, kill: Result<(), string>)
      returns (next: Loop)
      requires IsListKey(code)
      modifies this
      ensures Outcome(Model(), next, false) == ListKey(old(Model()), lp, code, sampled, kill)
    {
      next := lp;
      if code == Char('s') {
        CycleSort();
        SortProcesses();
      } else if code == Char('r') {
        desc := !desc;
        SortProcesses();
      } else if code == F(5) {
        DoRefresh(sampled);
        next := lp.(sys := sampled);
      } else if code == Char('k') {
        next := Kill(lp, sampled, kill);
      } else {
        ClearFilterCommand(lp);
      }
    }

    /** Esc in normal mode: a set filter is cleared and the full table re-listed and sorted. */
    method ClearFilterCommand(lp: Loop)
      modifies this
      ensures Model() == ClearFilter(old(Model()), lp)
    {
      if filter != [] {
        filter := [];
        selected := 0;
        processes := lp.sys;
        SortProcesses();
      }
    }

    /** The other commands: quit, search, pause, tick rate and details. */
    method SettingCommand(lp: Loop, code: KeyCode) returns (next: Loop, quit: bool)
      modifies this
      ensures Outcome(Model(), next, quit) == SettingKey(old(Model()), lp, code)
    {
      next, quit := lp, false;
      if code == Char('q') {
        quit := true;
      } else if code == Char('/') {
        mode := Searching;
      } else if code == Char('p') {
        paused := !paused;
      } else if code == Char('-') {
        next := lp.(tickRateMs := TickRateDown(lp.tickRateMs));
      } else if code == Char('+') || code == Char('=') {
        next := lp.(tickRateMs := TickRateUp(lp.tickRateMs));
      } else if code == Enter || code == Char('d') {
        showDetails := !showDetails;
      }
    }

    /** 'k' on the selected row. */
    method Kill(lp: Loop, sampled: seq<ProcRow>, kill: Result<(), string>) returns (next: Loop)
      modifies this
      ensures Outcome(Model(), next, false) == KillKey(old(Model()), lp, sampled, kill)
    {
      next := lp;
      if selected < |processes| {
        var pid := processes[selected].pid;
        match kill
        case Ok(_) =>
          status := "killed PID " + IntToDecimal(pid);
          DoRefresh(sampled);
          next := lp.(sys := sampled);
        case Err(e) =>
          status := "kill PID " + IntToDecimal(pid) + " failed: " + e;
      }
    }

    /** Searching mode: the edit, then the table re-listed from `sys`, filtered and sorted, from the top. */
    method Search(lp: Loop, code: KeyCode)
      modifies this
      ensures Model() == SearchKey(old(Model()), lp, code)
    {
      SearchEditStep(lp, code);
      Relist(lp);
    }

    /** The end of every search key: the table re-listed from `sys`, filtered, sorted, from the top. */
    method Relist(lp: Loop)
      modifies this
      ensures Model() == Sorted(old(Model()).(selected := 0, processes := FilterProcesses(lp.sys, old(filter))))
    {
      selected := 0;
      processes := lp.sys;
      if filter != [] {
        processes := FilterProcesses(processes, filter);
      }
      SortProcesses();
    }

    /** Esc in searching mode: the filter cleared, the full table re-listed and sorted. */
    method ClearSearch(lp: Loop)
      modifies this
      ensures Model() == SearchEdit(old(Model()), lp, Esc)
    {
      filter := [];
      mode := Normal;
      selected := 0;
      processes := lp.sys;
      SortProcesses();
    }

    method SearchEditStep(lp: Loop, code: KeyCode)
      modifies this
      ensures Model() == SearchEdit(old(Model()), lp, code)
    {
      match code
      case Enter => mode := Normal;
      case Esc => ClearSearch(lp);
      case Backspace =>
        if filter != [] {
          filter := filter[..|filter| - 1];
        }
      case Char(c) =>
        if !IsControl(c) {
          filter := filter + [c];
        }
      case _ =>
    }
  }
}
