/**
 * The ordering and table logic of the Go monitor's terminal UI: the four
 * comparator chains handed to `sort.SliceStable`, the sort-key bindings, the
 * footer label, the colour thresholds, `truncate`, and the part of `refresh`
 * that rebuilds the process table below its header row.  Drawing, the
 * ticker goroutine and the text formatting of cells are not modelled; a
 * table row holds the values its cells show.
 */
module GoUi {
  import opened Wrappers
  import opened Text
  import Seqs
  import GoMetrics

  type ProcessInfo = GoMetrics.ProcessInfo

  const MaxRows: nat := 100
  const NameWidth: nat := 40
  /** "…" in UTF-8. */
  const Ellipsis: seq<byte> := [0xE2, 0x80, 0xA6]

  /** `sortMode`; `New` starts in `ByCpu`. */
  datatype SortMode = ByCpu | ByMem | ByPid | ByName

  /** `sortMode.label`, shown in the footer. */
  function Label(m: SortMode): string {
    match m
    case ByMem => "Mem%"
    case ByPid => "PID"
    case ByName => "Name"
    case ByCpu => "CPU%"
  }

  /** Each mode is named differently in the footer. */
  lemma LabelsDistinct(m: SortMode, n: SortMode)
    ensures Label(m) == Label(n) <==> m == n
  {
  }

  /** `colorByPercent`: the colour of a gauge bar. */
  function ColorByPercent(p: real): string {
    if p >= 85.0 then "red" else if p >= 60.0 then "yellow" else "green"
  }

  lemma ColorThresholds(p: real)
    ensures ColorByPercent(p) == "red" <==> p >= 85.0
    ensures ColorByPercent(p) == "yellow" <==> 60.0 <= p < 85.0
    ensures ColorByPercent(p) == "green" <==> p < 60.0
  {
  }

  /**
   * `truncate` on the bytes of a Go string.  The source slices `s[:max-1]`,
   * which panics for `max == 0` on a non-empty string; the precondition
   * excludes exactly that.
   */
  function Truncate(s: seq<byte>, max: nat): (r: seq<byte>)
    requires |s| <= max || max >= 1
    ensures |s| <= max ==> r == s
    ensures |s| > max ==> |r| == max + 2 && r[..max - 1] == s[..max - 1] && r[max - 1..] == Ellipsis
  {
    if |s| <= max then s else s[..max - 1] + Ellipsis
  }

  /** Truncating a truncated name changes nothing. */
  lemma TruncateIdempotent(s: seq<byte>, max: nat)
    requires |s| <= max || max >= 1
    ensures Truncate(Truncate(s, max), max) == Truncate(s, max)
  {
    if |s| > max {
      var r := Truncate(s, max);
      assert r[..max - 1] + Ellipsis == r;
    }
  }

  // ---------------------------------------------------------------------
  // Sorting
  // ---------------------------------------------------------------------

  /** The `less` closure of `sortProcesses` for each mode. */
  function Less(m: SortMode, a: ProcessInfo, b: ProcessInfo): bool {
    match m
    case ByMem =>
      if a.memPercent == b.memPercent then a.cpuPercent > b.cpuPercent else a.memPercent > b.memPercent
    case ByPid =>
      if a.pid == b.pid then a.cpuPercent > b.cpuPercent else a.pid < b.pid
    case ByName =>
      var la, lb := LowerBytes(a.name), LowerBytes(b.name);
      if la == lb then a.cpuPercent > b.cpuPercent else LexLt(la, lb, ByteLt)
    case ByCpu =>
      if a.cpuPercent == b.cpuPercent then a.pid < b.pid else a.cpuPercent > b.cpuPercent
  }

  /** `a` may stay before `b`: `b` is not less than `a`. */
  function NotAfter(m: SortMode): (ProcessInfo, ProcessInfo) -> bool {
    (a: ProcessInfo, b: ProcessInfo) => !Less(m, b, a)
  }

  lemma NotAfterIsTotalPreorder(m: SortMode)
    ensures Seqs.TotalPreorder(NotAfter(m))
  {
    if m == ByName {
      var le := NotAfter(ByName);
      CharAndByteOrdersAreStrictTotal();
      forall a: ProcessInfo, b: ProcessInfo ensures le(a, b) || le(b, a) {
        LexLeIsTotalPreorder(LowerBytes(a.name), LowerBytes(b.name), LowerBytes(a.name), ByteLt);
      }
      forall a: ProcessInfo, b: ProcessInfo, c: ProcessInfo | le(a, b) && le(b, c) ensures le(a, c) {
        var la, lb, lc := LowerBytes(a.name), LowerBytes(b.name), LowerBytes(c.name);
        LexLeIsTotalPreorder(la, lb, lc, ByteLt);
        LexLtTrichotomy(la, lb, ByteLt);
        LexLtTrichotomy(lb, lc, ByteLt);
        LexLtTrichotomy(la, lc, ByteLt);
      }
    }
  }

  /** `sortProcesses`: `sort.SliceStable` with the mode's comparator. */
  function SortedProcesses(m: SortMode, list: seq<ProcessInfo>): seq<ProcessInfo> {
    Seqs.StableSort(list, NotAfter(m))
  }

  /** A permutation, ordered by the mode, with tied processes in their input order. */
  lemma SortedProcessesSpec(m: SortMode, list: seq<ProcessInfo>)
    ensures multiset(SortedProcesses(m, list)) == multiset(list)
    ensures Seqs.SortedBy(SortedProcesses(m, list), NotAfter(m))
    ensures forall x :: Seqs.TiedWith(SortedProcesses(m, list), x, NotAfter(m)) == Seqs.TiedWith(list, x, NotAfter(m))
  {
    NotAfterIsTotalPreorder(m);
    Seqs.StableSortSpec(list, NotAfter(m));
  }

  /** The default order: CPU% from highest, equal CPU% by PID from lowest. */
  lemma CpuOrder(list: seq<ProcessInfo>)
    ensures var r := SortedProcesses(ByCpu, list);
      forall i, j :: 0 <= i < j < |r| ==>
        r[i].cpuPercent > r[j].cpuPercent || (r[i].cpuPercent == r[j].cpuPercent && r[i].pid <= r[j].pid)
  {
    SortedProcessesSpec(ByCpu, list);
  }

  /** Memory order: Mem% from highest, equal Mem% by CPU% from highest. */
  lemma MemOrder(list: seq<ProcessInfo>)
    ensures var r := SortedProcesses(ByMem, list);
      forall i, j :: 0 <= i < j < |r| ==>
        r[i].memPercent > r[j].memPercent || (r[i].memPercent == r[j].memPercent && r[i].cpuPercent >= r[j].cpuPercent)
  {
    SortedProcessesSpec(ByMem, list);
  }

  /** PID order: PID from lowest, equal PIDs by CPU% from highest. */
  lemma PidOrder(list: seq<ProcessInfo>)
    ensures var r := SortedProcesses(ByPid, list);
      forall i, j :: 0 <= i < j < |r| ==>
        r[i].pid < r[j].pid || (r[i].pid == r[j].pid && r[i].cpuPercent >= r[j].cpuPercent)
  {
    SortedProcessesSpec(ByPid, list);
  }

  /** Name order: lowercased names bytewise ascending, equal names by CPU% from highest. */
  lemma NameOrder(list: seq<ProcessInfo>)
    ensures var r := SortedProcesses(ByName, list);
      forall i, j :: 0 <= i < j < |r| ==>
        LexLt(LowerBytes(r[i].name), LowerBytes(r[j].name), ByteLt)
        || (LowerBytes(r[i].name) == LowerBytes(r[j].name) && r[i].cpuPercent >= r[j].cpuPercent)
  {
    SortedProcessesSpec(ByName, list);
    CharAndByteOrdersAreStrictTotal();
    var r := SortedProcesses(ByName, list);
    forall i, j | 0 <= i < j < |r|
      ensures LexLt(LowerBytes(r[i].name), LowerBytes(r[j].name), ByteLt)
              || (LowerBytes(r[i].name) == LowerBytes(r[j].name) && r[i].cpuPercent >= r[j].cpuPercent)
    {
      assert NotAfter(ByName)(r[i], r[j]);
      LexLtTrichotomy(LowerBytes(r[i].name), LowerBytes(r[j].name), ByteLt);
    }
  }

  // ---------------------------------------------------------------------
  // Key bindings
  // ---------------------------------------------------------------------

  /** `event.Key()`: Escape, a printable rune, or any other key. */
  datatype Key = Escape | RuneKey | OtherKey

  /** A tcell key event: its key and its rune. */
  datatype KeyEvent = KeyEvent(key: Key, rune: char)

  /** What the input capture does with an event. */
  datatype Binding = Quit | SetSortMode(mode: SortMode) | PassThrough

  /** `bindKeys`: Escape quits; otherwise the lowercased rune picks a binding. */
  function BindingOf(ev: KeyEvent): Binding {
    if ev.key == Escape then Quit
    else
      var c := LowerChar(ev.rune);
      if c == 'q' then Quit
      else if c == 'c' then SetSortMode(ByCpu)
      else if c == 'm' then SetSortMode(ByMem)
      else if c == 'p' then SetSortMode(ByPid)
      else if c == 'n' then SetSortMode(ByName)
      else PassThrough
  }

  /** The bindings by rune, in either case. */
  lemma BindingSpec(ev: KeyEvent)
    ensures BindingOf(ev) == Quit <==> ev.key == Escape || ev.rune == 'q' || ev.rune == 'Q'
    ensures ev.key != Escape ==>
              && (BindingOf(ev) == SetSortMode(ByCpu) <==> ev.rune == 'c' || ev.rune == 'C')
              && (BindingOf(ev) == SetSortMode(ByMem) <==> ev.rune == 'm' || ev.rune == 'M')
              && (BindingOf(ev) == SetSortMode(ByPid) <==> ev.rune == 'p' || ev.rune == 'P')
              && (BindingOf(ev) == SetSortMode(ByName) <==> ev.rune == 'n' || ev.rune == 'N')
    ensures BindingOf(ev) == PassThrough <==>
              ev.key != Escape && ev.rune !in {'q', 'Q', 'c', 'C', 'm', 'M', 'p', 'P', 'n', 'N'}
  {
  }

  // ---------------------------------------------------------------------
  // The process table
  // ---------------------------------------------------------------------

  /** A table row: the header, or the cells of one process. */
  datatype TableRow = HeaderRow | ProcessRow(pid: int, name: seq<byte>, cpuPercent: real, memRss: nat, memPercent: real, createTime: int)

  /** The cells `refresh` writes for one process; the name is cut to 40 bytes. */
  function RowOf(p: ProcessInfo): TableRow {
    ProcessRow(p.pid, Truncate(p.name, NameWidth), p.cpuPercent, p.memRss, p.memPercent, p.createTime)
  }

  function RowsOf(ps: seq<ProcessInfo>): (r: seq<TableRow>)
    ensures |r| == |ps|
    ensures forall i :: 0 <= i < |ps| ==> r[i] == RowOf(ps[i])
  {
    if ps == [] then [] else RowsOf(ps[..|ps| - 1]) + [RowOf(ps[|ps| - 1])]
  }

  function Min(a: nat, b: nat): nat {
    if a < b then a else b
  }

  /** The table after `refresh`: row 0 kept, then the first 100 processes in the current order. */
  function RefreshedTable(table: seq<TableRow>, m: SortMode, procs: seq<ProcessInfo>): seq<TableRow>
    requires table != []
  {
    [table[0]] + RowsOf(SortedProcesses(m, procs)[..Min(MaxRows, |procs|)])
  }

  /**
   * The header stays and exactly min(100, n) process rows follow, the rows of
   * the first processes in the mode's order.
   */
  lemma RefreshedTableShape(table: seq<TableRow>, m: SortMode, procs: seq<ProcessInfo>)
    requires table != []
    ensures var t := RefreshedTable(table, m, procs);
      && |t| == 1 + Min(MaxRows, |procs|)
      && t[0] == table[0]
      && (forall i :: 1 <= i < |t| ==> t[i] == RowOf(SortedProcesses(m, procs)[i - 1]))
  {
    var rows := SortedProcesses(m, procs)[..Min(MaxRows, |procs|)];
    assert RowsOf(rows)[0..] == RefreshedTable(table, m, procs)[1..];
  }

  /**
   * Every process row is the row of some sampled process, and with at most
   * 100 processes the row of every one of them is shown.
   */
  lemma RefreshedTableShowsProcesses(table: seq<TableRow>, m: SortMode, procs: seq<ProcessInfo>)
    requires table != []
    ensures var t := RefreshedTable(table, m, procs);
      && (forall i :: 1 <= i < |t| ==> t[i] in RowsOf(procs))
      && (|procs| <= MaxRows ==> forall p :: p in procs ==> RowOf(p) in t[1..])
  {
    var rows := SortedProcesses(m, procs);
    SortedProcessesSpec(m, procs);
    var t := RefreshedTable(table, m, procs);
    forall i | 1 <= i < |t| ensures t[i] in RowsOf(procs) {
      assert t[i] == RowOf(rows[i - 1]);
      assert rows[i - 1] in multiset(procs);
      RowOfMember(rows[i - 1], procs);
    }
    if |procs| <= MaxRows {
      assert t[1..] == RowsOf(rows);
      forall p | p in procs ensures RowOf(p) in t[1..] {
        assert p in multiset(rows);
        RowOfMember(p, rows);
      }
    }
  }

  /** The row of a member of `ps` is among the rows of `ps`. */
  lemma RowOfMember(p: ProcessInfo, ps: seq<ProcessInfo>)
    requires p in ps
    ensures RowOf(p) in RowsOf(ps)
  {
    var k :| 0 <= k < |ps| && ps[k] == p;
    assert RowsOf(ps)[k] == RowOf(p);
  }

  class UI {
    var sort: SortMode
    var table: seq<TableRow>

    /** Row 0 is the header `initTableHeader` wrote. */
    predicate Valid()
      reads this
    {
      table != [] && table[0] == HeaderRow
    }

    /** `New`: CPU order and a table holding only the header row. */
    constructor ()
      ensures Valid() && sort == ByCpu && table == [HeaderRow]
    {
      sort := ByCpu;
      table := [HeaderRow];
    }

    /** `setSort`: a new mode replaces the old one and starts a refresh; the same mode does nothing. */
    method SetSort(mode: SortMode) returns (refresh: bool)
      modifies this
      ensures sort == mode && table == old(table)
      ensures refresh <==> old(sort) != mode
    {
      if sort == mode {
        return false;
      }
      sort := mode;
      refresh := true;
    }

    /**
     * The input capture of `bindKeys`: returns the event when it is passed on,
     * whether the application stops, and whether a refresh was started.
     */
    method HandleKey(ev: KeyEvent) returns (passed: Option<KeyEvent>, quit: bool, refresh: bool)
      modifies this
      ensures quit <==> BindingOf(ev) == Quit
      ensures passed == (if BindingOf(ev) == PassThrough then Some(ev) else None)
      ensures sort == (if BindingOf(ev).SetSortMode? then BindingOf(ev).mode else old(sort))
      ensures refresh <==> BindingOf(ev).SetSortMode? && BindingOf(ev).mode != old(sort)
      ensures table == old(table)
    {
      passed, quit, refresh := None, false, false;
      var b := BindingOf(ev);
      match b
      case Quit => quit := true;
      case SetSortMode(mode) => refresh := SetSort(mode);
      case PassThrough => passed := Some(ev);
    }

    /** The table part of `refresh`, given what `Collector.Snapshot` returned (empty on error). */
    method Refresh(procs: seq<ProcessInfo>)
      requires Valid()
      modifies this
      ensures Valid() && sort == old(sort)
      ensures table == RefreshedTable(old(table), sort, procs)
    {
      RemoveDataRows();
      var rows := SortedProcesses(sort, procs);
      var maxRows := MaxRows;
      if |rows| < maxRows {
        maxRows := |rows|;
      }
      AppendRows(rows, maxRows);
    }

    /** The first loop of `refresh`: rows are removed from the bottom up to the header. */
    method RemoveDataRows()
      requires table != []
      modifies this
      ensures table == [old(table)[0]] && sort == old(sort)
    {
      var r := |table| - 1;
      while r >= 1
        invariant 0 <= r < |old(table)|
        invariant table == old(table)[..r + 1] && sort == old(sort)
      {
        table := table[..r];
        r := r - 1;
      }
      assert old(table)[..1] == [old(table)[0]];
    }

    /** The second loop of `refresh`: row i+1 gets the cells of `rows[i]`, for i below `n`. */
    method AppendRows(rows: seq<ProcessInfo>, n: nat)
      requires |table| == 1 && n <= |rows|
      modifies this
      ensures table == [old(table)[0]] + RowsOf(rows[..n]) && sort == old(sort)
    {
      var i := 0;
      while i < n
        invariant 0 <= i <= n
        invariant table == [old(table)[0]] + RowsOf(rows[..i]) && sort == old(sort)
      {
        assert rows[..i + 1][..i] == rows[..i];
        table := table + [RowOf(rows[i])];
        i := i + 1;
      }
    }
  }
}
