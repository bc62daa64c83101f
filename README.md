# Build-Your-Own-Utils: a verified model of the utilities' core logic

This project models, in Dafny, the deterministic logic of five small utilities from one repository. It proves properties of that model.

- **The Windows Rust process monitor** (`WinMonitor`, `win_monitor.dfy`). Its `App` is a class with the fields the source mutates:
  - the refresh pipeline: the CPU and memory histories capped at 120 samples, a stable sort by one of four keys (reversed when descending), the case-insensitive filter on name or PID, and selection repair;
  - pause and the refresh interval, clamped to [200, 5000] ms;
  - the three-mode key handler: details popup, filter editing, normal mode.
- **The Unix Rust process monitor** (`UnixMonitor`, `unix_monitor.dfy`):
  - `App` with `cycle_sort` and `sort_processes`, plus `filter_processes` and `do_refresh`;
  - the key dispatch and tick logic of the `run_app` loop, lifted into `App.Step` and `App.Tick`. The loop locals (tick rate, last tick, the table `sys` holds) are the value `Loop`.
- **The Go Windows monitor**:
  - the UI's comparator chains, key bindings, `truncate`, `label`, `colorByPercent` and the table rebuild of `refresh` (`GoUi`, `go_ui.dfy`);
  - `Collector.Snapshot`, with its in-place per-PID CPU cache (`GoMetrics`, `go_metrics.dfy`).
- **dos2unix** (`Dos2Unix`, `dos2unix.dfy`): the CRLF→LF scan, the `has_crlf` decision, the argument loop, per-file processing, the lines printed on stdout for each input, and the exit code.
- **gzip**:
  - the Rust library's level clamp, default output names, overwrite check and path equality (`GzipLib`, `gzip_lib.dfy`);
  - the Go CLI's input collection over a modelled file system, destination naming, the per-input worker body and the exit rules (`GzipCli`, `gzip_cli.dfy`).

Shared modules:
- `Wrappers` holds `Option` and `Result`.
- `Text` holds ASCII lowercasing, substring and suffix tests, `trim`, decimal rendering and lexicographic order.
- `Seqs` holds the library operations the sources call: filtering, reversal, and a stable sort with its permutation, ordering and stability lemmas.

How stateful code is modelled: each class has a `Model()` function returning a datatype of all its fields. Each method states its new state as a pure function of the old one (`ensures Model() == Refreshed(old(Model()), snap, now)`). The lemmas prove what the source promises about those functions. Loops in the source are `while` loops with invariants in the model (`ConvertCrlfToLf`, `DropOldest`, `Walk`, `CollectInputs`, `ProcessAll`, `RemoveDataRows`, `AppendRows`, `AlivePids`, `HadError`).

Inputs that the sources read from the outside world become parameters:
- the sysinfo or gopsutil sample, as a `Snapshot` or a sequence of samples;
- the clock, as `now` in milliseconds;
- the result of a kill;
- the contents of files and whether reads and writes succeed;
- what `os.Stat` finds, as a `FileSystem` map;
- the set of destinations that already exist;
- the set of inputs whose compression fails.

Behaviour of the code worth noting:
- On a `Collector.Snapshot` error, the Go UI's `refresh` goes on with a nil process slice, so the table is left with its header row only (`htop/win/go/internal/ui/ui.go:224-260`).
- The Windows monitor's `kill_selected` refreshes whenever a row index is selected, whatever the kill returned. The kill result is discarded (`htop/win/rust/src/main.rs:314-326`).
- The Unix monitor toggles its details flag with Enter or 'd' whether or not a row is selected (`htop/unix/rust/src/main.rs:250-252`).
- Both Rust monitors repair the selection by index, not by identity (`ClampSelection`, `ClampSelected`).
- The Rust gzip library reads a path as `std::path` does on Unix. `same_path` compares components, so doubled separators, inner `.` segments and a trailing `/` do not matter, while a leading `.` and `..` do (`gzip/rust/src/lib.rs:127-129`).
- A nameless input has its whole text pushed as the new name: "out/.." compresses to "out/../out/...gz". An input named ".gz" decompresses to its directory: "x/.gz" gives "x/" (`gzip/rust/src/lib.rs:86-108`).

## Model

| member | source | states |
|---|---|---|
| WinMonitor.RowOf | htop/win/rust/src/main.rs:178-183 | A row keeps the process's PID, name and CPU; its memory is the KiB figure in whole MiB, rounded down |
| WinMonitor.NotAfterIsTotalPreorder | htop/win/rust/src/main.rs:208-214 | Each of the four comparators (CPU, memory, PID, lowercased name) is total and transitive, so the library sort is well defined |
| WinMonitor.SortRowsSpec | htop/win/rust/src/main.rs:208-218 | `sort_rows` permutes the rows. Ascending, they are ordered by the key with tied rows in input order. Descending, they are ordered the other way and tied rows come out in exactly the reverse of their input order |
| WinMonitor.FilterRowsSpec | htop/win/rust/src/main.rs:187-193 | Without a filter every row is kept. With one, a row survives iff its lowercased name or decimal PID contains the lowercased filter; each matching row keeps its multiplicity and survivors keep their relative order |
| WinMonitor.TableRowsSpec | htop/win/rust/src/main.rs:174-194 | The installed rows are exactly the sampled processes the filter matches (all of them without a filter), each exactly as often as sampled |
| WinMonitor.BuildRows | htop/win/rust/src/main.rs:174-194 | The collect / `sort_rows` / `retain` pipeline yields the sorted, filtered table |
| WinMonitor.CpuPercent | htop/win/rust/src/main.rs:163 | The CPU history sample is the reading clamped to [0, 100] and truncated to a whole percent |
| WinMonitor.MemPercent | htop/win/rust/src/main.rs:164 | The memory sample is at most 100 and is 0 when the total is 0 |
| WinMonitor.MemPercentIsShare | htop/win/rust/src/main.rs:164 | With a non-zero total, the memory sample is the used share in whole percent rounded down, and 100 once used reaches the total |
| WinMonitor.KeepNewest | htop/win/rust/src/main.rs:167-172 | A trimmed history is the newest `cap` entries (all of them when shorter), in order |
| WinMonitor.DropOldest | htop/win/rust/src/main.rs:167-172 | The `pop_front` loop leaves exactly the newest `cap` entries |
| WinMonitor.PushKeepsNewest | htop/win/rust/src/main.rs:165-172 | After a push and trim, a history holds at most `cap` entries, the new sample last. A full history loses exactly its oldest entry |
| WinMonitor.Sample | htop/win/rust/src/main.rs:158-172 | The figure and history updates of `refresh_data` produce the sampled statistics |
| WinMonitor.SampledSpec | htop/win/rust/src/main.rs:158-172 | After a sample: CPU and memory readings in MiB from the snapshot, both histories non-empty and at most 120 long, the new samples at the back. A history below capacity keeps every older sample; a full one drops exactly its oldest, for CPU and memory alike |
| WinMonitor.ClampSelection | htop/win/rust/src/main.rs:197-203 | After a refresh: no selection stays none; an empty table clears it; an index past the end moves to the last row; an index in range is kept |
| WinMonitor.PageDownSelection | htop/win/rust/src/main.rs:242-251 | PageDown is none on an empty table, else `min(cur + 10, len - 1)` with no selection read as 0 |
| WinMonitor.PageUpSelection | htop/win/rust/src/main.rs:253-262 | PageUp is none on an empty table, else `cur - 10` saturating at 0 |
| WinMonitor.HomeSelection | htop/win/rust/src/main.rs:264-270 | Home selects row 0, or nothing on an empty table |
| WinMonitor.EndSelection | htop/win/rust/src/main.rs:272-278 | End selects the last row, or nothing on an empty table |
| WinMonitor.NextSelection | htop/win/rust/src/main.rs:298-304 | Down always selects something: row 0 from no selection, else one further, stopping at the last row. It selects 0 even on an empty table |
| WinMonitor.PrevSelection | htop/win/rust/src/main.rs:306-312 | Up always selects something: one row back, saturating at 0, or 0 from no selection |
| WinMonitor.SelectedPid | htop/win/rust/src/main.rs:235-240 | There is a selected PID iff the selection points at an existing row, and it is that row's PID |
| WinMonitor.Faster | htop/win/rust/src/main.rs:284-289 | The faster interval is `max(cur - 200, 200)`. It stays in [200, 5000] if the old one was, and never grows |
| WinMonitor.Slower | htop/win/rust/src/main.rs:291-296 | The slower interval is `min(cur + 200, 5000)`. It stays in [200, 5000] if the old one was, and never shrinks |
| WinMonitor.NextSortKeyCycles | htop/win/rust/src/main.rs:220-226 | `cycle_sort_key` goes Cpu→Mem→Pid→Name→Cpu and returns after exactly four presses |
| WinMonitor.RefreshSpec | htop/win/rust/src/main.rs:152-206 | A refresh installs the new statistics and the rebuilt rows, leaves a valid selection (kept when still in range, none stays none) and sets the refresh time. Order, filter, pause, interval and popup settings are unchanged |
| WinMonitor.TickSpec | htop/win/rust/src/main.rs:138-150 | A paused monitor never refreshes on a tick. Otherwise it refreshes iff the elapsed time has reached the interval |
| WinMonitor.PagingKeepsSelectionValid | htop/win/rust/src/main.rs:383-398 | PageDown, PageUp, Home and End leave the selection on a row. They clear it iff the table is empty, and do not touch the rows |
| WinMonitor.ArrowsSelectOnEmptyTable | htop/win/rust/src/main.rs:375-382 | On an empty table, Down and Up select row 0, so they do not keep the selection valid |
| WinMonitor.KeyKeepsSelectionNearRows | htop/win/rust/src/main.rs:329-442 | No key moves the selection anywhere but onto a row, to nothing, or to row 0 |
| WinMonitor.NavigationKeepsSelectionNearRows | htop/win/rust/src/main.rs:375-398 | The six navigation keys keep the selection on a row, empty, or at row 0 |
| WinMonitor.SettingKeyKeepsTable | htop/win/rust/src/main.rs:411-435 | Quit, details, filter, pause and interval keys change neither the rows nor the selection |
| WinMonitor.SelectionStaysNearRows | htop/win/rust/src/main.rs:329-442 | Every key, including those that refresh, and every tick preserve the selection invariant |
| WinMonitor.OnlyQuitKeyQuits | htop/win/rust/src/main.rs:370-374 | `handle_key` returns true iff the monitor is in normal mode and the key is 'q', and then `should_quit` is set |
| WinMonitor.DetailsModeOnlyCloses | htop/win/rust/src/main.rs:331-339 | With the popup open, Esc, Enter and 'i' only close it, every other key changes nothing, and no key quits |
| WinMonitor.FilterEditing | htop/win/rust/src/main.rs:341-368 | In filter editing: Esc leaves the applied filter as it was, characters are appended, Backspace drops the last one, and no key quits |
| WinMonitor.FilterEnterApplies | htop/win/rust/src/main.rs:348-358 | Enter applies the trimmed input: none iff the input is all whitespace, else a text starting with a non-space character. Editing ends and the table is rebuilt under the new filter |
| WinMonitor.SlashSeedsFilterInput | htop/win/rust/src/main.rs:418-423 | '/' starts editing with the applied filter (or an empty text) as the input, and keeps the applied filter |
| WinMonitor.InfoNeedsSelection | htop/win/rust/src/main.rs:411-417 | 'i' opens the details popup iff a row is selected |
| WinMonitor.RefreshKeys | htop/win/rust/src/main.rs:436-439 | F5 refreshes even while paused |
| WinMonitor.SortKeysRefresh | htop/win/rust/src/main.rs:399-406 | 's' moves to the next sort key and 'r' flips the direction. Both then refresh |
| WinMonitor.KillKeyRefreshes | htop/win/rust/src/main.rs:407-410 | 'k' refreshes iff a row index is selected, and changes nothing otherwise |
| WinMonitor.IntervalKeysDoNotRefresh | htop/win/rust/src/main.rs:428-435 | '+' and '=' make the interval faster and '-' slower. They change nothing else and do not refresh |
| WinMonitor.RefreshKeepsInterval | htop/win/rust/src/main.rs:152-206 | A refresh does not change the interval |
| WinMonitor.SettingKeyKeepsInterval | htop/win/rust/src/main.rs:424-435 | The settings keys keep an in-range interval in range |
| WinMonitor.IntervalStaysInRange | htop/win/rust/src/main.rs:284-296 | From an interval in [200, 5000], every key leaves it in [200, 5000] |
| WinMonitor.TickKeepsInterval | htop/win/rust/src/main.rs:138-150 | Ticks never change the interval |
| WinMonitor.InitialSettings | htop/win/rust/src/main.rs:108-128 | A new monitor sorts by CPU descending, has no filter, is not paused, shows no popup, and has a 1000 ms interval (in range) |
| WinMonitor.InitialTable | htop/win/rust/src/main.rs:129-134 | A new monitor shows every sampled process and selects row 0 iff there is a row |
| WinMonitor.InitialHistories | htop/win/rust/src/main.rs:125-130 | A new monitor's histories hold one sample each |
| WinMonitor.App.constructor | htop/win/rust/src/main.rs:104-136 | `App::new`: defaults, one refresh, then row 0 selected when the table is not empty |
| WinMonitor.App.RefreshData | htop/win/rust/src/main.rs:152-206 | The new state is the refreshed state of the old one |
| WinMonitor.App.OnTick | htop/win/rust/src/main.rs:138-150 | The new state is the ticked state (a refresh only when not paused and due) |
| WinMonitor.App.CycleSortKey | htop/win/rust/src/main.rs:220-228 | The next sort key, then a refresh |
| WinMonitor.App.ToggleSortOrder | htop/win/rust/src/main.rs:230-233 | The direction flipped, then a refresh |
| WinMonitor.App.PageDown | htop/win/rust/src/main.rs:242-251 | Only the selection changes, to the PageDown selection |
| WinMonitor.App.PageUp | htop/win/rust/src/main.rs:253-262 | Only the selection changes, to the PageUp selection |
| WinMonitor.App.GoHome | htop/win/rust/src/main.rs:264-270 | Only the selection changes, to the first row |
| WinMonitor.App.GoEnd | htop/win/rust/src/main.rs:272-278 | Only the selection changes, to the last row |
| WinMonitor.App.ForceRefresh | htop/win/rust/src/main.rs:280-282 | A refresh regardless of pause |
| WinMonitor.App.SetIntervalFaster | htop/win/rust/src/main.rs:284-289 | Only the interval changes, to the faster one |
| WinMonitor.App.SetIntervalSlower | htop/win/rust/src/main.rs:291-296 | Only the interval changes, to the slower one |
| WinMonitor.App.SelectNext | htop/win/rust/src/main.rs:298-304 | Only the selection changes, one row down |
| WinMonitor.App.SelectPrev | htop/win/rust/src/main.rs:306-312 | Only the selection changes, one row up |
| WinMonitor.App.KillSelected | htop/win/rust/src/main.rs:314-326 | With a selection, a refresh; without one, nothing changes |
| WinMonitor.App.HandleKey | htop/win/rust/src/main.rs:329-442 | The new state and the returned flag are those of the three-mode key function |
| WinMonitor.App.HandleDetailsKey | htop/win/rust/src/main.rs:331-339 | The details-popup branch; it never quits |
| WinMonitor.App.HandleFilterKey | htop/win/rust/src/main.rs:341-369 | The filter-editing branch; it never quits |
| WinMonitor.App.ApplyFilterInput | htop/win/rust/src/main.rs:348-358 | Enter while editing: the trimmed input applied, then a refresh |
| WinMonitor.App.HandleNormalKey | htop/win/rust/src/main.rs:370-441 | The normal-mode bindings |
| WinMonitor.App.HandleNavigationKey | htop/win/rust/src/main.rs:375-398 | The six navigation bindings |
| WinMonitor.App.HandleRefreshingKey | htop/win/rust/src/main.rs:399-410 | The bindings that end with a refresh ('s', 'r', 'k'; F5 at lines 436-439) |
| WinMonitor.App.HandleSettingKey | htop/win/rust/src/main.rs:411-435 | The remaining bindings; only 'q' returns true |
| UnixMonitor.NextSortCycles | htop/unix/rust/src/main.rs:139-145 | `cycle_sort` goes Cpu→Mem→Pid→Cpu and returns after exactly three presses |
| UnixMonitor.NotAfterIsTotalPreorder | htop/unix/rust/src/main.rs:148-152 | The three comparators are total and transitive |
| UnixMonitor.SortedRowsSpec | htop/unix/rust/src/main.rs:147-155 | The sorted list is a permutation ordered by the key. Tied rows keep their input order when ascending and come out in exactly the reverse input order when `desc` |
| UnixMonitor.ClampSelected | htop/unix/rust/src/main.rs:156-158 | After sorting, `selected < len`, or 0 on an empty list. An index in range is kept; one past the end becomes `len - 1` saturating at 0 |
| UnixMonitor.SortedSpec | htop/unix/rust/src/main.rs:147-159 | `sort_processes` permutes the list, leaves a valid selection (kept if in range) and touches no other field |
| UnixMonitor.FilterProcessesSpec | htop/unix/rust/src/main.rs:309-315 | An empty filter keeps every row. Otherwise a row is kept iff its lowercased name contains the lowercased filter, with its multiplicity, and kept rows stay in order |
| UnixMonitor.FilterIgnoresPid | htop/unix/rust/src/main.rs:313 | The filter does not look at PIDs: changing a row's PID never changes whether it is kept |
| UnixMonitor.RefreshedSpec | htop/unix/rust/src/main.rs:317-324 | `do_refresh` shows the new sample filtered and sorted, keeps a valid selection (unchanged if in range), and keeps filter, mode, pause and status |
| UnixMonitor.KillProcess | htop/unix/rust/src/main.rs:62-83 | Off Windows a kill always fails with the "not supported" message. On Windows it succeeds iff the first `taskkill` starts and either exits successfully or, after it exits unsuccessfully, the forced one starts and exits successfully. If the first cannot start, `/F` is never tried. Each failure carries its message: either spawn error, or the forced exit code |
| UnixMonitor.NavigationKeepsSelectionValid | htop/unix/rust/src/main.rs:212-221 | Navigation keys keep `selected < len`, or 0 on an empty list |
| UnixMonitor.TickRateDown | htop/unix/rust/src/main.rs:240-244 | '-' gives a tick rate in [100, 5000] |
| UnixMonitor.TickRateUp | htop/unix/rust/src/main.rs:245-249 | '+' and '=' give a tick rate in [100, 5000] |
| UnixMonitor.TickRateSteps | htop/unix/rust/src/main.rs:240-249 | Inside the range, '-' is 100 ms shorter (floored at 100) and '+' 100 ms longer (capped at 5000) |
| Text.DropLast | htop/unix/rust/src/main.rs:274 | `String::pop` removes the last character and leaves an empty string empty; the Windows monitor uses it for filter Backspace too (htop/win/rust/src/main.rs:360) |
| UnixMonitor.PollTimeout | htop/unix/rust/src/main.rs:204 | The poll timeout never exceeds the tick rate. It is 0 exactly when the tick is due (or the rate is 0) |
| UnixMonitor.TableSelection | htop/unix/rust/src/main.rs:201 | The table highlights nothing iff the list is empty; with a valid selection the highlight is on a row |
| UnixMonitor.InitialSpec | htop/unix/rust/src/main.rs:181-189 | The loop starts with a valid selection, a 500 ms tick rate in range, no filter, normal mode, and not paused |
| UnixMonitor.SearchKeepsSelectionValid | htop/unix/rust/src/main.rs:282-288 | After a search key the selection is 0 and valid |
| UnixMonitor.ListKeyKeepsSelectionValid | htop/unix/rust/src/main.rs:222-260 | 's', 'r', F5, 'k' and Esc keep the selection valid |
| UnixMonitor.SettingKeyKeepsList | htop/unix/rust/src/main.rs:224-252 | Quit, search, pause, tick-rate and details keys change neither the list nor the selection |
| UnixMonitor.SelectionStaysValid | htop/unix/rust/src/main.rs:207-290 | Every key event preserves `selected < len`, or 0 on an empty list |
| UnixMonitor.TickKeepsSelectionValid | htop/unix/rust/src/main.rs:193-198 | Every tick preserves the same invariant |
| UnixMonitor.TickRateStaysInRange | htop/unix/rust/src/main.rs:240-249 | From a tick rate in [100, 5000], every event keeps it there and ticks do not change it |
| UnixMonitor.ReleaseIgnored | htop/unix/rust/src/main.rs:207 | Key-release events change nothing |
| UnixMonitor.OnlyQuitKeyQuits | htop/unix/rust/src/main.rs:211 | The loop returns iff 'q' is pressed (not released) in normal mode |
| UnixMonitor.NavigationSpec | htop/unix/rust/src/main.rs:212-221 | Up and PageUp subtract 1 and 10, saturating. Down moves only while another row follows. PageDown and End clamp to `len - 1` saturating at 0; Home is 0 |
| UnixMonitor.RefreshScheduling | htop/unix/rust/src/main.rs:193-198 | F5 refreshes regardless of pause. A tick refreshes only when due and not paused. A due tick restarts the tick even when paused; one not due changes nothing |
| UnixMonitor.KillKeyDispatch | htop/unix/rust/src/main.rs:227-239 | A pressed 'k' in normal mode runs the kill command |
| UnixMonitor.KillSpec | htop/unix/rust/src/main.rs:227-239 | With no row at `selected`, nothing changes. On success the status is "killed PID n" and the list refreshes. On failure only the status changes, to the failure message |
| UnixMonitor.KillUnsupportedOffWindows | htop/unix/rust/src/main.rs:78-82 | Off Windows, 'k' on a row only sets the "not supported" failure status |
| UnixMonitor.NormalEscSpec | htop/unix/rust/src/main.rs:253-260 | Esc with a filter clears it, selects 0 and shows the whole table sorted. With no filter it changes nothing |
| UnixMonitor.SearchSpec | htop/unix/rust/src/main.rs:264-281 | In search mode: a printable character is appended, control characters are ignored, Backspace pops, Enter keeps the filter, and Esc clears it. Enter and Esc return to normal mode |
| UnixMonitor.SearchRelists | htop/unix/rust/src/main.rs:282-288 | After any search key the list is the current table under the new filter, sorted in the current order, with selection 0 |
| UnixMonitor.SearchEditKeepsOrder | htop/unix/rust/src/main.rs:264-280 | No search key changes the sort key or direction |
| UnixMonitor.SearchKeyKeepsEdit | htop/unix/rust/src/main.rs:282-288 | Re-listing after a search edit changes neither the filter nor the mode |
| UnixMonitor.App.constructor | htop/unix/rust/src/main.rs:125-137 | `App::new`: CPU order descending, selection 0, empty list and filter, normal mode |
| UnixMonitor.App.CycleSort | htop/unix/rust/src/main.rs:139-145 | Only the sort key changes, to the next one |
| UnixMonitor.App.SortProcesses | htop/unix/rust/src/main.rs:147-159 | The new state is the sorted state (list reordered, selection clamped) |
| UnixMonitor.App.DoRefresh | htop/unix/rust/src/main.rs:317-324 | The new state is the refreshed state over the sampled table |
| UnixMonitor.App.Tick | htop/unix/rust/src/main.rs:193-198 | The new app and loop locals are those of the tick function |
| UnixMonitor.App.Step | htop/unix/rust/src/main.rs:207-290 | The new app, the new loop locals and whether the loop returns are those of the event function |
| UnixMonitor.App.Navigate | htop/unix/rust/src/main.rs:212-221 | Only the selection changes |
| UnixMonitor.App.ListCommand | htop/unix/rust/src/main.rs:222-260 | The list commands as the list-key function states |
| UnixMonitor.App.ClearFilterCommand | htop/unix/rust/src/main.rs:253-260 | Esc in normal mode as the clear-filter function states |
| UnixMonitor.App.SettingCommand | htop/unix/rust/src/main.rs:224-252 | The setting commands as the setting-key function states |
| UnixMonitor.App.Kill | htop/unix/rust/src/main.rs:227-239 | 'k' as the kill-key function states |
| UnixMonitor.App.Search | htop/unix/rust/src/main.rs:264-289 | A search-mode key: the edit, then the re-listing |
| UnixMonitor.App.Relist | htop/unix/rust/src/main.rs:282-288 | Selection 0, the table under the current filter, sorted |
| UnixMonitor.App.ClearSearch | htop/unix/rust/src/main.rs:267-273 | Esc in search mode: filter cleared, normal mode, full table sorted |
| UnixMonitor.App.SearchEditStep | htop/unix/rust/src/main.rs:265-280 | The edit a search-mode key makes |
| GoUi.LabelsDistinct | htop/win/go/internal/ui/ui.go:309-320 | The footer labels "CPU%", "Mem%", "PID", "Name" name the four modes one-to-one |
| GoUi.ColorThresholds | htop/win/go/internal/ui/ui.go:37-45 | Red iff at least 85, yellow iff in [60, 85), green iff below 60 |
| GoUi.Truncate | htop/win/go/internal/ui/ui.go:340-345 | A string of at most `max` bytes is unchanged. A longer one becomes its first `max - 1` bytes followed by the three-byte "…" |
| GoUi.TruncateIdempotent | htop/win/go/internal/ui/ui.go:340-345 | Truncating a truncated string changes nothing |
| GoUi.NotAfterIsTotalPreorder | htop/win/go/internal/ui/ui.go:274-307 | Each mode's `less` closure induces a total preorder, so `sort.SliceStable` is well defined |
| GoUi.SortedProcessesSpec | htop/win/go/internal/ui/ui.go:274-307 | `sortProcesses` permutes the list, orders it by the mode's comparator and keeps tied processes in input order |
| GoUi.CpuOrder | htop/win/go/internal/ui/ui.go:299-305 | The default order is CPU% descending, ties by PID ascending |
| GoUi.MemOrder | htop/win/go/internal/ui/ui.go:276-282 | Mem order is Mem% descending, ties by CPU% descending |
| GoUi.PidOrder | htop/win/go/internal/ui/ui.go:283-289 | PID order is PID ascending, ties by CPU% descending |
| GoUi.NameOrder | htop/win/go/internal/ui/ui.go:290-298 | Name order is lowercased name ascending (bytewise), ties by CPU% descending |
| GoUi.BindingSpec | htop/win/go/internal/ui/ui.go:143-175 | Escape or 'q'/'Q' quit. 'c', 'm', 'p', 'n' in either case pick CPU, Mem, PID, Name. Every other event is passed through |
| GoUi.RowsOf | htop/win/go/internal/ui/ui.go:252-260 | One table row per process, in order |
| GoUi.RefreshedTableShape | htop/win/go/internal/ui/ui.go:241-260 | After `refresh` the header row is kept and exactly `min(100, len(procs))` data rows follow, the i-th being the i-th process in the mode's order |
| GoUi.RefreshedTableShowsProcesses | htop/win/go/internal/ui/ui.go:245-260 | Every data row shows one of the given processes. With at most 100 processes, every process is shown |
| GoUi.UI.constructor | htop/win/go/internal/ui/ui.go:78-141 | `New`: CPU order and a table holding only the header row |
| GoUi.UI.SetSort | htop/win/go/internal/ui/ui.go:177-183 | The mode becomes the requested one. A refresh is started iff it changed; the table is untouched |
| GoUi.UI.HandleKey | htop/win/go/internal/ui/ui.go:143-175 | Quits iff the event's binding is quit, passes through exactly the unbound events, and switches to a new mode |
| GoUi.UI.Refresh | htop/win/go/internal/ui/ui.go:219-264 | The table becomes the refreshed table for the current mode and the snapshot's processes; the mode is kept |
| GoUi.UI.RemoveDataRows | htop/win/go/internal/ui/ui.go:241-243 | The removal loop leaves only the header row |
| GoUi.UI.AppendRows | htop/win/go/internal/ui/ui.go:252-260 | The set loop writes the first `n` processes' rows after the header |
| GoMetrics.CpuNotLessIsTotalPreorder | htop/win/go/internal/metrics/processes.go:113 | The snapshot's comparator (CPU% descending) is a total preorder |
| GoMetrics.CpuPercentSpec | htop/win/go/internal/metrics/processes.go:82-95 | CPU% is never negative. It is 0 without a prior reading, and 0 when the process-time delta, the wall delta or the CPU count is not positive |
| GoMetrics.VisitedListsNamed | htop/win/go/internal/metrics/processes.go:62-110 | The loop lists exactly the processes with a non-empty name, in input order, each with its own PID, name and figures |
| GoMetrics.VisitAppends | htop/win/go/internal/metrics/processes.go:65-109 | One iteration appends one row for a named process and leaves the rows alone otherwise |
| GoMetrics.VisitedCpuNonNegative | htop/win/go/internal/metrics/processes.go:82-98 | No row has a negative CPU%, and the row of a listed process whose times could not be read shows 0 |
| GoMetrics.VisitedUntimedShowZero | htop/win/go/internal/metrics/processes.go:82-83 | The i-th listed process gets 0% whenever its CPU times were not read |
| GoMetrics.VisitedCacheKeys | htop/win/go/internal/metrics/processes.go:83-98 | The loop's cache holds the old keys plus the listed PIDs whose times were read. Entries of PIDs not read are untouched |
| GoMetrics.VisitedCacheOverwritten | htop/win/go/internal/metrics/processes.go:96-97 | A PID's entry is the current total and timestamp of its last listed, timed sample |
| GoMetrics.SnapshotErrorLeavesCollector | htop/win/go/internal/metrics/processes.go:51-54 | A failed enumeration returns the error and leaves cache and `lastTS` as they were |
| GoMetrics.SnapshotOrdered | htop/win/go/internal/metrics/processes.go:113-126 | The returned rows are the listed rows reordered, CPU% non-increasing, and `lastTS` is the snapshot time |
| GoMetrics.PidsOfPermutation | htop/win/go/internal/metrics/processes.go:113-119 | Reordering the rows does not change the alive set |
| GoMetrics.SnapshotPrunesStale | htop/win/go/internal/metrics/processes.go:115-124 | After a snapshot, every cache key is the PID of a returned row, and every entry for a returned PID that the loop left is kept |
| GoMetrics.AlivePids | htop/win/go/internal/metrics/processes.go:116-119 | The alive set is exactly the PIDs of the rows |
| GoMetrics.Collector.constructor | htop/win/go/internal/metrics/processes.go:37-42 | `NewCollector`: an empty cache and the given CPU count |
| GoMetrics.Collector.Snapshot | htop/win/go/internal/metrics/processes.go:50-128 | The result and the new collector are those of the snapshot function |
| GoMetrics.Collector.PruneCache | htop/win/go/internal/metrics/processes.go:120-124 | The cache loses exactly the entries of PIDs outside `alive`; the other fields are kept |
| Dos2Unix.ConvertCrlfToLf | dos2unix/src/main.rs:34-47 | The index loop computes the left-to-right CRLF→LF conversion |
| Dos2Unix.ConvertedDropsCrBeforeLf | dos2unix/src/main.rs:34-47 | The conversion deletes exactly the CRs that stand right before an LF and copies every other byte |
| Dos2Unix.ConvertedLength | dos2unix/src/main.rs:34-47 | Output length is input length minus the number of CRLF pairs, so the output is never longer |
| Dos2Unix.ChangedIffHasCrlf | dos2unix/src/main.rs:73-74 | `has_crlf` (`converted != input`) holds iff the input contains a CRLF pair. Input without one is unchanged |
| Dos2Unix.NoPairUnchanged | dos2unix/src/main.rs:37-45 | Input without a CRLF pair is copied unchanged |
| Dos2Unix.SourceUnitTests | dos2unix/src/main.rs:192-215 | The five unit tests of the source hold of the model |
| Dos2Unix.NotIdempotent | dos2unix/src/main.rs:38-44 | "\r\r\n" becomes "\r\n", which converts again to "\n": the output need not be CRLF-free |
| Dos2Unix.ProcessFile | dos2unix/src/main.rs:71-92 | A read error fails. `has_crlf` is reported. A file is rewritten only outside check mode when it holds CRLF, and then with the converted bytes. Failure iff the read fails or that rewrite fails |
| Dos2Unix.ProcessStdin | dos2unix/src/main.rs:49-69 | Check mode writes nothing. Otherwise the converted bytes always go to stdout. Failure iff the read fails or, outside check mode, the write fails |
| Dos2Unix.ParseArgs | dos2unix/src/main.rs:100-128 | The argument loop yields the classified arguments |
| Dos2Unix.PlainArgumentsAreFiles | dos2unix/src/main.rs:116-126 | Without options ("-" included), every argument becomes a file, in order |
| Dos2Unix.StopsAndSeparator | dos2unix/src/main.rs:100-115 | "-h" and "--version" stop parsing whatever follows, and "--" takes every later argument as a file |
| Dos2Unix.ExitCode | dos2unix/src/main.rs:179-185 | Exit 1 iff some input errored. Otherwise 2 iff check mode found CRLF, else 0 |
| Dos2Unix.ProcessAll | dos2unix/src/main.rs:147-177 | `had_error` iff some input failed and `found_crlf` iff some input held CRLF. Writes are the converted contents of CRLF files, and none in check mode. The lines printed are the per-input report, in input order |
| Dos2Unix.TallyFlags | dos2unix/src/main.rs:150-177 | After any prefix of the inputs, `had_error` holds iff one of them failed and `found_crlf` iff one held CRLF |
| Dos2Unix.TallyWrites | dos2unix/src/main.rs:147-177 | Every write is what some input's processing wrote, and check mode writes nothing |
| Dos2Unix.TallyReport | dos2unix/src/main.rs:147-177 | The lines the loop prints are the concatenated per-input report |
| Dos2Unix.TallyMeaning | dos2unix/src/main.rs:147-177 | The loop's final state means: error iff an input failed, CRLF iff one held it, writes from outcomes, the report printed |
| Dos2Unix.ReportedSpec | dos2unix/src/main.rs:55-91 | At most one line per input and none under `-q` or on a read error. Check mode prints the input's name (or "-") iff it holds CRLF. Otherwise stdin prints none, and a file prints its converted line after a successful rewrite or its unchanged line when it holds no CRLF |
| Dos2Unix.QuietReportsNothing | dos2unix/src/main.rs:55-91 | With `-q` no input prints a line |
| Dos2Unix.CheckReportListsCrlfInputs | dos2unix/src/main.rs:55-80 | In check mode without `-q`, the lines printed are exactly the names of the inputs whose contents hold CRLF, in argument order |
| Dos2Unix.MainExitCode | dos2unix/src/main.rs:130-185 | Help and version exit 0 and an unknown option 2. No files: stdin, with 1 on error and 2 for CRLF in check mode. Files: the exit-code rule over all inputs. The per-input lines printed are those of stdin or of the file loop |
| GzipLib.SanitizeLevel | gzip/rust/src/lib.rs:13-15 | The level lands in [0, 9]: the identity on in-range values and 9 above |
| GzipLib.EncoderLevel | gzip/rust/src/lib.rs:19 | The encoder never receives a level above 9, even though the level is sanitized twice |
| GzipLib.SanitizeIdempotent | gzip/rust/src/main.rs:58 | Sanitizing in the CLI and again in the library equals sanitizing once |
| GzipLib.Parent | gzip/rust/src/lib.rs:118 | `Path::parent` is a prefix of the path's text |
| GzipLib.FileNameIsLastComponent | gzip/rust/src/lib.rs:88 | `file_name` is the last component when that is a normal name (none after `..`, the root or nothing), and is a plain name: non-empty, with no `/`, neither `.` nor `..` |
| GzipLib.ParentComponents | gzip/rust/src/lib.rs:118 | `parent` is None exactly when the components are empty or the root alone; otherwise the parent's components are all but the last |
| GzipLib.PushPlain | gzip/rust/src/lib.rs:92 | Pushing a plain name onto any path adds exactly that name as one more component, and it becomes the file name |
| GzipLib.PushEmpty | gzip/rust/src/lib.rs:106 | Pushing the empty name adds no component |
| GzipLib.SetFileNameSpec | gzip/rust/src/lib.rs:92 | `set_file_name` with a plain name replaces the last component when the path has a name and appends it when it has none; with the empty name it removes the named last component |
| GzipLib.CompressOutputSpec | gzip/rust/src/lib.rs:86-94 | A named input keeps its directory components, and its name gets ".gz"; a nameless absolute input has ".gz" appended to its text |
| GzipLib.DecompressOutputSpec | gzip/rust/src/lib.rs:97-108 | A named input keeps its directory components. A name ending in ".gz" loses exactly that ".gz" ("x.gz" becomes "x"; ".gz" alone leaves the directory), any other name gets ".out"; a nameless absolute input has ".out" appended |
| GzipLib.DecompressUndoesCompress | gzip/rust/src/lib.rs:86-108 | For a path with a file name, the decompress default of the compress default is the same path (`==` on `Path`) with the same file name |
| GzipLib.CompressUndoesDecompress | gzip/rust/src/lib.rs:86-108 | For a name ending in ".gz" over a plain stem, the compress default of the decompress default is the same path |
| GzipLib.StripsOneSuffix | gzip/rust/src/lib.rs:100-102 | "a.gz.gz" decompresses to "a.gz": one ".gz" is stripped |
| GzipLib.AppendsOutSuffix | gzip/rust/src/lib.rs:103 | "a" decompresses to "a.out" |
| GzipLib.KeepsDirectory | gzip/rust/src/lib.rs:97-108 | "d/a.gz" decompresses to "d/a" |
| GzipLib.EmptyStemOutput | gzip/rust/src/lib.rs:97-108 | "x/.gz" decompresses to "x/", whose file name is "x" and whose parent is the empty path |
| GzipLib.NamelessCompressOutput | gzip/rust/src/lib.rs:86-94 | The nameless "out/.." compresses to "out/../out/...gz": its whole text is pushed as a relative name |
| GzipLib.NamelessOutputParent | gzip/rust/src/lib.rs:118 | The parent of "out/../out/...gz" is "out/../out" |
| GzipLib.RootCompressOutput | gzip/rust/src/lib.rs:86-94 | "/" compresses to "/.gz": the pushed name is absolute and replaces the path |
| GzipLib.EnsureWritable | gzip/rust/src/lib.rs:111-124 | AlreadyExists iff the output exists and `force` is off. Otherwise it fails only when a non-empty parent (as `Path::parent` gives it) is not created |
| GzipLib.OutDotDotParent | gzip/rust/src/lib.rs:118 | The parent of "out/.." is "out" |
| GzipLib.DotDotParent | gzip/rust/src/lib.rs:118 | The parent of ".." is the empty path, and so is the parent of "." |
| GzipLib.RootDotDotParent | gzip/rust/src/lib.rs:118 | The parent of "/.." is the root |
| GzipLib.RootHasNoParent | gzip/rust/src/lib.rs:118 | "/", "//" and the empty path have no parent |
| GzipLib.EnsureWritableCreatesParentOfDotDot | gzip/rust/src/lib.rs:111-124 | Writing "out/.." attempts to create "out", and a failing `create_dir_all` is reported |
| GzipLib.EnsureWritableEmptyStem | gzip/rust/src/lib.rs:111-124 | The output "x/" of the input "x/.gz" has an empty parent, so nothing is created and the check succeeds |
| GzipLib.SamePath | gzip/rust/src/lib.rs:127-129 | `==` on `Path` compares components: paths that are the same have the same file name, and both have parents with the same components or neither has one |
| GzipLib.DoubledSeparatorIgnored | gzip/rust/src/lib.rs:127-129 | For any non-empty `d` and plain name `m`, `d//m` is the same path as `d/m` |
| GzipLib.InnerDotIgnored | gzip/rust/src/lib.rs:127-129 | For any non-empty `d` and plain name `m`, `d/./m` is the same path as `d/m` |
| GzipLib.TrailingSeparatorIgnored | gzip/rust/src/lib.rs:127-129 | For any non-empty `p`, `p/` is the same path as `p` |
| GzipLib.LeadingDotKept | gzip/rust/src/lib.rs:127-129 | "./a" is not the same path as "a": a leading `.` is a component |
| GzipLib.DotDotKept | gzip/rust/src/lib.rs:127-129 | "a/../b" is not the same path as "b": `..` is not resolved |
| GzipLib.NamesDiffer | gzip/rust/src/lib.rs:127-129 | Pushing different plain names onto any two paths gives paths that are not the same |
| GzipCli.JoinSuffix | gzip/go/cmd/gzip-go/main.go:191-193 | A walked path ends in ".gz" iff its entry name does |
| GzipCli.BaseNameSuffix | gzip/go/cmd/gzip-go/main.go:212 | For a path without a trailing slash, `info.Name()` ends in ".gz" iff the path does |
| GzipCli.Walk | gzip/go/cmd/gzip-go/main.go:183-203 | The walk appends exactly the walked file paths that pass the suffix rule, in walk order |
| GzipCli.WalkEntry | gzip/go/cmd/gzip-go/main.go:183-203 | One entry adds its own path (a file) or the walk below it (a readable directory) |
| GzipCli.CollectedErrorPersists | gzip/go/cmd/gzip-go/main.go:174-177 | Once a stat fails, later arguments do not change the result |
| GzipCli.CollectInputs | gzip/go/cmd/gzip-go/main.go:171-226 | The argument loop computes the collection or the first stat error |
| GzipCli.AddArgument | gzip/go/cmd/gzip-go/main.go:178-223 | One argument: a directory is skipped without `-r` and walked with it; a file is kept by the suffix rule |
| GzipCli.CollectedFailsIffMissing | gzip/go/cmd/gzip-go/main.go:174-177 | Collection fails iff some argument fails to stat |
| GzipCli.CollectedErrorNamesMissing | gzip/go/cmd/gzip-go/main.go:174-177 | The error is that of an argument that failed to stat |
| GzipCli.CollectedWithoutRecursion | gzip/go/cmd/gzip-go/main.go:210-223 | Without `-r`, the inputs are the plain-file arguments that pass the suffix rule, in argument order |
| GzipCli.WalkedFollowsSuffixRule | gzip/go/cmd/gzip-go/main.go:191-201 | Inside a walk, decompression keeps only ".gz" files and compression only others |
| GzipCli.WalkedIsFilteredFiles | gzip/go/cmd/gzip-go/main.go:183-203 | The walk collects exactly the regular files below the directory that pass the suffix rule, in visiting order: every file that passes is collected and none that fails |
| GzipCli.EntryPathsIsFilteredFiles | gzip/go/cmd/gzip-go/main.go:183-203 | One entry contributes exactly its files below that pass the suffix rule |
| GzipCli.CollectedFollowsSuffixRule | gzip/go/cmd/gzip-go/main.go:178-223 | Every collected input ends in ".gz" when decompressing and does not when compressing |
| GzipCli.DecompressDestSpec | gzip/go/cmd/gzip-go/main.go:111-115 | A decompression destination exists iff the source ends in ".gz", and it is the source without that suffix |
| GzipCli.DestinationRoundTrip | gzip/go/cmd/gzip-go/main.go:111-128 | Decompression naming undoes compression naming, and compression naming undoes decompression naming |
| GzipCli.WorkSpec | gzip/go/cmd/gzip-go/main.go:110-140 | A worker can't infer a name iff decompressing a non-".gz" source. An existing destination without `-f` stops it. It writes `src + ".gz"` or the trimmed name iff none of these errors happens |
| GzipCli.CollectedInputsHaveDestinations | gzip/go/cmd/gzip-go/main.go:111-115 | In decompression mode, no collected input reaches the "cannot infer destination" error |
| GzipCli.GzSourceHasDestination | gzip/go/cmd/gzip-go/main.go:111-115 | A ".gz" source always has a decompression destination |
| GzipCli.PoolSize | gzip/go/cmd/gzip-go/main.go:94-96 | A worker count below 1 becomes 1; others are kept |
| GzipCli.HadError | gzip/go/cmd/gzip-go/main.go:147-153 | The error loop reports an error iff some worker did |
| GzipCli.Run | gzip/go/cmd/gzip-go/main.go:26-157 | `main` after flag parsing ends with the modelled exit code |
| GzipCli.RunBatch | gzip/go/cmd/gzip-go/main.go:84-156 | Collection, one worker per input, and the error loop end with the batch exit code |
| GzipCli.NoArgumentsStreams | gzip/go/cmd/gzip-go/main.go:30-34 | With no arguments, the tool streams stdin and exits 1 iff streaming fails |
| GzipCli.StdoutTakesOneInput | gzip/go/cmd/gzip-go/main.go:37-40 | `-stdout` with more than one input exits 2 |
| GzipCli.BatchExitRule | gzip/go/cmd/gzip-go/main.go:147-156 | Outside streaming and stdout mode, the exit code is 0 or 1, and 1 iff collection fails or some input is not written |
| GzipCli.ExitCodeRange | gzip/go/cmd/gzip-go/main.go:26-157 | Every run exits with 0, 1 or 2 |
| Seqs.ReverseSortedDescends | htop/win/rust/src/main.rs:215-217 | Reversing a list sorted ascending gives one sorted descending |
| Seqs.ReversedStableSortSpec | htop/win/rust/src/main.rs:215-217 | Sorting stably and reversing is a permutation, ordered descending, with tied elements in exactly the reverse input order |
| Seqs.FilterReverse | htop/unix/rust/src/main.rs:154-156 | Filtering a reversed sequence is reversing the filtered one |
| Text.TrimSuffix | gzip/go/cmd/gzip-go/main.go:111 | With the suffix present, the result followed by the suffix is the input; without it, the input is returned unchanged |
| Text.NatToDecimal | htop/win/rust/src/main.rs:191 | A PID renders as a non-empty string of digits whose decimal value is the PID, with a leading '0' only for the PID 0 |
| Text.LexLeIsTotalPreorder | htop/win/rust/src/main.rs:214 | String comparison built on a strict total order of characters is total and transitive |
| GzipCli.AfterLastSlash | gzip/go/cmd/gzip-go/main.go:212 | The base name is a slash-free suffix of the path, preceded by a slash when shorter than the path |
| Seqs.StableSortSpec | htop/win/go/internal/ui/ui.go:277 | The library's stable sort is a permutation, sorted by the comparator, with tied elements in input order |
| Text.Trim | htop/win/rust/src/main.rs:349 | `trim` removes exactly the leading and trailing whitespace. The result is empty iff the input is all whitespace; otherwise it starts and ends with non-whitespace |
| Text.Lower | htop/win/rust/src/main.rs:189 | ASCII lowercasing changes upper-case letters only |

## Left out

- Terminal drawing, widgets, terminal set-up and restore, and event polling in all three monitors. Key events are a datatype, and the poll timeout is a function.
- Concurrency: the Go UI's update loop, `QueueUpdateDraw` and `go u.refresh()`, the `Collector` mutex, and the gzip-go worker pool, semaphore and error channel. The per-input worker body is modelled, run sequentially in input order.
- Process sampling (sysinfo, gopsutil, `GetSystemStats`). It is an input: a `Snapshot`, or a sequence of `ProcSample` or `Proc` records with optional fields. sysinfo's `HashMap` iteration order is taken as the order of that input sequence.
- Floating point. The Rust monitors' CPU figures are integers (tenths of a percent on Windows), since the engine only clamps and compares them. The `partial_cmp(...).unwrap_or(Equal)` NaN fallback is not modelled. Go's percentages are `real`, with no rounding.
- Unicode case folding. `to_lowercase` and `strings.ToLower` are ASCII lowercasing; `trim` uses ASCII whitespace.
- Integer widths. `u64`/`usize`/`int32` overflow is not modelled (the sums involved are far below the limits); the Go CPU% formula is computed exactly.
- The kill system calls (`proc_.kill`, `taskkill`). Their results are inputs; `kill_selected` discards its result, so it takes none.
- DEFLATE compression and decompression (flate2, `compress/gzip`), `io::copy`, file creation, `os.Chtimes` and mtimes. The model keeps only whether each compression fails (the `fails` set); that also covers `compress/gzip` rejecting an invalid `-l` level.
- `gzip/rust/src/main.rs` (the clap CLI over the library). Only line 58, the double sanitizing, is used.
- Go's `flag` parsing. `Options` are given already parsed.
- dos2unix's messages other than the per-input report are not modelled: the stdin hint (`dos2unix/src/main.rs:63`) and the error messages (120-121, 140, 159, 172) on standard error, and the help and version text (31, 107) on standard output. The standard-output line each input prints is modelled (`Reported`).
- WinMonitor.App: `sys` and `hist_capacity` are not fields; the capacity is the constant 120. The CPU and memory figures and histories are grouped as `stats`, and the three filter fields as `filter`. `table_state` is `selected`.
- WinMonitor.App.KillSelected: the kill is not modelled, only the refresh that follows it.
- UnixMonitor.App.Step: the loop's `table_state` is the function `TableSelection`, not a field.
- GoUi.UI.Refresh: the table is a sequence of rows, and six `SetCell` calls per row are one row value. The footer, bars and title are not modelled, and the CPU%, Mem RSS and time cells are their numbers rather than formatted text.
- GoUi.Truncate: requires `max >= 1` when the string is longer, as slicing `s[:max-1]` does (Go panics otherwise).
- GoMetrics.Collector.Snapshot: the final `sort.Slice` is not stable in Go. The method's contract fixes the order of the model's stable sort (`Snapshotted`); `SnapshotOrdered`, a permutation ordered by CPU% descending, is the only claim made about the order Go produces.
- GoMetrics.Collector.PruneCache: the deletion loop over the map is modelled by its net effect, a map comprehension. The order in which keys are deleted is not observable.
- GoMetrics.Collector: the clock `now` is a parameter, and `numCpu` is given to the constructor.
- GzipCli: the file system maps each argument path to what `os.Stat` finds. Directories carry their entries in `WalkDir` order (lexical). `WalkDir` callback errors for unreadable directories are skipped, as the source does; symlinks are not modelled.
- GzipCli.Join: `filepath.Join` cleaning (`.`, `..`, doubled slashes) is not modelled; it joins with one `/`.
- GzipCli.Work: `present` is the set of destinations existing when the workers run. A destination written by another worker during the run is not seen.
- GzipCli.PoolSize: the pool size has no effect in a sequential model.
- GzipLib: paths follow Rust's Unix rules only. Windows prefixes and `\` separators are not modelled.
- GzipLib: a path is its text, so `file_name().and_then(to_str)` never fails on a non-UTF-8 name, and `display()` is the text itself.
- GzipLib.EnsureWritable: `output.exists()` and the outcome of `create_dir_all` are parameters; the error message text is not modelled.
- GzipLib.CompressOutputSpec: states the output's components only when the new name is plain. A nameless relative input such as "out/.." is covered by the lemmas about it, not in general.
- GzipLib.DecompressOutputSpec: does not characterise stems "." and ".." (inputs named "..gz" or "...gz"), or nameless relative inputs; the function computes them as the source does.
