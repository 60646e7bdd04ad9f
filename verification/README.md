# A verified model of the aw-qt process supervisor

This project models the supervisor at the heart of aw-qt. The supervisor
finds the activity-watcher modules (executables named `aw-*`) bundled next
to it or on the executable search path. It starts and stops them, records
each module's pid and status in a shared `process.ini` file, and reports
which modules died unexpectedly. Three small pieces of the desktop client
are modelled alongside it:

- the environment the tray icon gives to `xdg-open`;
- the colour cycle, name truncation and duplicate suppression of the
  dashboard's event list;
- the check on the working hours of the week schedule.

Layout, one Dafny module per file:

| file | module | what it holds |
|---|---|---|
| `common.dfy` | `Common` | Option/Result, `startswith`/`endswith`, iteration over a set in unspecified order |
| `ini_store.dfy` | `IniStore` | `process.ini` as a map from section to a field map; `int`/`str` of pids; class `ProcessIni` |
| `processes.dfy` | `Processes` | the operating system as an oracle over pids (class `Os`) |
| `lifecycle.dfy` | `Lifecycle` | what `start`, `stop` and `is_alive` of one module mean, as functions over the store and the OS |
| `module_descriptor.dfy` | `Descriptor` | class `Module`, proved against `Lifecycle` |
| `discovery.dfy` | `Discovery` | `is_executable`, `_filename_to_name`, bundled and system discovery over an abstract file tree |
| `manager.dfy` | `Supervisor` | class `Manager`, each operation proved against a function of the world before the call |
| `tray_env.dfy` | `TrayEnv` | `get_env` |
| `sundial_text.dfy` | `SundialText` | Python's `str.split`, the twenty-word cut and the tooltip rule |
| `sundial.dfy` | `Sundial` | `get_next_color`, the `refreshData` de-duplication, `week_schedule` and `compare_times` |

The "world" the supervisor acts on is the `process.ini` file, the OS
oracle and each module's in-memory `started` flag. `Supervisor.Manager.Snapshot`
reads it. `Start`, `Stop`, `StopAll` and `Autostart` state their effect as
a function of the world before the call (`StartEffect`, `StopEffect`,
`StopAllWorld`, `StartRun`). The lemmas prove the rules the program relies
on about those functions.

The OS oracle has four sets:

- `alive`: pids psutil reports running;
- `signalable`: pids `os.kill(pid, 0)` accepts;
- `termRefused`: pids whose SIGTERM raises;
- `runnable`: paths `subprocess.Popen` can launch.

A spawn hands out any pid no probe knows (`Processes.FreshIn`). A delivered
SIGTERM is modelled as the process exiting.

## Model

| member | source | states |
|---|---|---|
| IniStore.BaselineSections | aw_qt/manager.py:42-55 | a fresh file holds exactly `aw-server`, `aw-watcher-afk`, `aw-watcher-window`, each with `status=False`, `pid=0` |
| IniStore.Initialized | aw_qt/manager.py:42-55 | the file is written only when absent; an existing file is left exactly as it is |
| IniStore.ProcessIni.InitializeIniFile | aw_qt/manager.py:42-55 | the file after the call is `Initialized` of the file before |
| IniStore.SetField | aw_qt/manager.py:193-210 | the section is created when missing; exactly the one field is set; every other section and field is unchanged |
| IniStore.GetField | aw_qt/manager.py:187-188 | a value exactly when the section and key exist, and it is the stored one |
| IniStore.GetAfterSet | aw_qt/manager.py:193-210 | reading after a write gives the written value for that field and the old answer for every other field |
| IniStore.ParseFormatRoundTrip | aw_qt/manager.py:188 | `int(str(pid)) == pid` for every integer, so a written pid reads back unchanged |
| IniStore.ParseInt | aw_qt/manager.py:188 | `int(text)` of the stored pid: an optional sign and ASCII digits give a value, anything else (the empty text included) gives None, where the original raises ValueError |
| IniStore.ProcessIni.ReadUpdateIniFile | aw_qt/manager.py:146-171 | missing section or key raise before anything is written; otherwise the old value is returned and the new one, if given, is stored; without one the file is unchanged |
| Processes.WithSpawned | aw_qt/manager.py:228 | a launched pid is alive and signalable; every other pid is alive or signalable exactly as before, and the refusing pids and launchable paths are unchanged |
| Processes.WithTerminated | aw_qt/manager.py:236 | a terminated pid is neither alive nor signalable; every other pid is as before |
| Processes.FreshPid | aw_qt/manager.py:228 | the pid handed out is positive and unused |
| Processes.Os.Spawn | aw_qt/manager.py:228 | an unlaunchable path raises and changes nothing; otherwise a fresh pid is launched |
| Processes.Os.Terminate | aw_qt/manager.py:236 | SIGTERM fails exactly for the refusing pids and then changes nothing; otherwise that process exits |
| Lifecycle.PersistedPidAfterWrite | aw_qt/manager.py:184-201 | after `_write_pid(p)`, also after a status write on either side, `_read_pid` returns `p` |
| Lifecycle.StopOutcomeOf | aw_qt/manager.py:232-244 | `stop` attempts no signal exactly when the persisted pid is 0, unreadable or not signalable |
| Lifecycle.StopEnv | aw_qt/manager.py:232-244 | a stop whose signal is not delivered changes neither the file nor the OS |
| Lifecycle.StartPersists | aw_qt/manager.py:220-230 | after a start that launched a process, `pid` holds its pid and `status` is "True"; the module is running and alive |
| Lifecycle.StartIsAtMostOnce | aw_qt/manager.py:220-224 | a second start after a launching start returns early and changes nothing: two starts spawn once |
| Lifecycle.StartThenStop | aw_qt/manager.py:220-244 | a launching start then a delivered stop leave `pid=0`, `status=False`, `started` false and the module not alive |
| Lifecycle.StopIsIdempotent | aw_qt/manager.py:232-244 | after a delivered stop, stopping again does nothing |
| Lifecycle.DeadWithoutPid | aw_qt/manager.py:246-249 | `is_alive` is false whenever the persisted pid is 0 or unreadable |
| Lifecycle.RestartKeepsLiveness | aw_qt/manager.py:182 | re-running `initialize_ini_file` never changes what `is_alive` answers |
| Descriptor.Module.constructor | aw_qt/manager.py:174-182 | fields recorded, `started` false, and the store is `Initialized` |
| Descriptor.Module.ReadPid | aw_qt/manager.py:184-191 | returns the persisted pid, or None for a missing section/field or non-integer text |
| Descriptor.Module.WritePid | aw_qt/manager.py:193-201 | the store becomes `WithPid` of the old store |
| Descriptor.Module.UpdateStatusInIni | aw_qt/manager.py:203-210 | the store becomes `WithStatus` of the old store |
| Descriptor.Module.Start | aw_qt/manager.py:220-230 | the outcome is one `start` can have; the store and OS change as `StartEnv` says; `started` is set unless it returned early, also when Popen raises |
| Descriptor.Module.Stop | aw_qt/manager.py:232-244 | the store and OS change as `StopEnv` says; `started` is cleared only when the signal was delivered |
| Descriptor.Module.IsAlive | aw_qt/manager.py:246-261 | true exactly when the persisted pid is nonzero and reported running |
| Descriptor.Module.Toggle | aw_qt/manager.py:263-267 | decided by the in-memory `started` flag alone: stop when set, start otherwise |
| Descriptor.DescribeAppend | aw_qt/manager.py:103-104 | the descriptors of a concatenation are the concatenated descriptors |
| Discovery.IsExecutable | aw_qt/manager.py:58-71 | false for non-files; on Windows true exactly for names ending in `.exe`; elsewhere true exactly for X_OK files not ending in `.desktop` |
| Discovery.FilenameToName | aw_qt/manager.py:90-91 | `str.replace(".exe", "")`: every occurrence is removed, so the name is never longer than the file name |
| Discovery.FilenameWithoutExe | aw_qt/manager.py:90-91 | a filename without `.exe` in it is its own module name |
| Discovery.FilenameStripsExe | aw_qt/manager.py:90-91 | a trailing `.exe` is removed from a name that has no other `.exe` |
| Discovery.InnerExeRemoved | aw_qt/manager.py:90-91 | every `.exe` is removed, including inner ones, not only a suffix |
| Discovery.NameKeepsPrefix | aw_qt/manager.py:81-82 | a module found under the `aw-` pattern keeps the `aw-` prefix in its name |
| Discovery.GlobEntries | aw_qt/manager.py:77 | the glob returns exactly the `aw-` entries of the directory |
| Discovery.InDirectory | aw_qt/manager.py:74-87 | the descriptors `_discover_modules_in_directory` builds, in glob order; all are bundled, named `aw-…` and have a path under the searched directory |
| Discovery.ScanMatches | aw_qt/manager.py:77-86 | the first `k` matches of that loop; all bundled, named `aw-…` and under the directory |
| Discovery.EntryFound | aw_qt/manager.py:79-86 | one match: an `aw-` executable gives one bundled module, an enterable directory its recursive result, anything else nothing; all bundled, named `aw-…` and under the directory |
| Discovery.BundledSearchPaths | aw_qt/manager.py:96-99 | the module directory and its parent, plus the `MacOS` directory on macOS only |
| Discovery.BundledFound | aw_qt/manager.py:102-104 | the directories' results concatenated in search-path order; all bundled and named `aw-…` |
| Discovery.DiscoverInDirectory | aw_qt/manager.py:74-87 | the modules built are exactly `InDirectory`: executables become bundled modules, enterable `aw-` subdirectories are searched, all else skipped; only the store's initialisation is written |
| Discovery.ScanMatch | aw_qt/manager.py:78-86 | one pass of that loop appends the modules `EntryFound` gives for the match |
| Discovery.DiscoverEntry | aw_qt/manager.py:79-86 | one match of that loop, as `EntryFound` |
| Discovery.SearchBundled | aw_qt/manager.py:103-104 | one pass of that loop appends the modules of the next search path |
| Discovery.DiscoverBundled | aw_qt/manager.py:94-109 | collects `BundledFound` over the search paths; the result is exactly the collected modules whose names are not ignored, each once |
| Discovery.RemoveFirst | aw_qt/manager.py:117-118 | only the first occurrence of the parent directory leaves the search path |
| Discovery.ExistingDirs | aw_qt/manager.py:122 | exactly the search-path entries that are directories |
| Discovery.FirstsAreEarliest | aw_qt/manager.py:136-138 | system results have pairwise-distinct names, each is the first match of its name in path order, and every matched name has a result |
| Discovery.SystemFound | aw_qt/manager.py:112-138 | the first match of each name over the listable search-path directories in order; all of kind "system", names pairwise distinct |
| Discovery.ScanEntry | aw_qt/manager.py:130-138 | one listing entry becomes a system module when it is an `aw-` executable whose name is new |
| Discovery.ScanListing | aw_qt/manager.py:130-138 | the modules after one listing are the first-per-name of all matches so far |
| Discovery.SearchSystem | aw_qt/manager.py:123-138 | one pass of the outer loop: an unlistable directory adds nothing, a listable one extends the first-per-name result by its listing |
| Discovery.DiscoverSystem | aw_qt/manager.py:112-143 | collects `SystemFound` (unlistable directories contribute nothing); the result is exactly the collected modules whose names are not ignored, with distinct names |
| Discovery.FilterModules | aw_qt/manager.py:36-39 | exactly the modules whose name is not in `ignored_filenames` |
| Discovery.DiscoverAll | aw_qt/manager.py:294-298 | the union of the bundled and system results, filtered: exactly the collected modules whose names are not ignored, all new, not started and sharing the store and OS |
| Supervisor.Manager.constructor | aw_qt/manager.py:279-284 | the list holds exactly the non-ignored modules of `BundledFound` and `SystemFound`, each once, none started; only the store's initialisation is written; `auto_start_modules` is `["aw-server"]` |
| Supervisor.Manager.DiscoverModules | aw_qt/manager.py:294-303 | old modules kept in place; the appended ones are exactly the new, non-ignored bundled and system modules, de-duplicated by identity, none started |
| Supervisor.Manager.Register | aw_qt/manager.py:301-303 | a module is appended exactly when it is found and not already in the list |
| Supervisor.FirstIndex | aw_qt/manager.py:343-346 | the first position whose module matches the name (and kind), or none when no module matches |
| Supervisor.StartTarget | aw_qt/manager.py:308-318 | a bundled module of that name wins over any system one, and the first of its kind is taken; none exactly when no module has the name |
| Supervisor.Manager.Start | aw_qt/manager.py:308-318 | the target's start outcome and effect; an unknown name changes nothing |
| Supervisor.Manager.StartAt | aw_qt/manager.py:314-316 | starting one listed module changes only its flag, the store and the OS |
| Supervisor.Manager.Stop | aw_qt/manager.py:342-348 | stops the first module of that name; an unknown name changes nothing |
| Supervisor.Manager.StopModules | aw_qt/manager.py:397-403 | as `stop`, with the message telling whether the module existed |
| Supervisor.Manager.StopAt | aw_qt/manager.py:345 | stopping one listed module is `StopEffect` at its position |
| Supervisor.LastServer | aw_qt/manager.py:355-357 | the position of the last `aw-server`: every later module has another name |
| Supervisor.SweepStopsAliveNonServers | aw_qt/manager.py:356-359 | the loop stops exactly the modules not named `aw-server` that are alive when it reaches them |
| Supervisor.StopAllWorld | aw_qt/manager.py:350-363 | the world after `stop_all`: the sweep over the non-servers, then `StopEffect` of the last `aw-server` when it is alive; one flag per module |
| Supervisor.StopAllStopsServerLast | aw_qt/manager.py:350-363 | every stop but the last is of a non-server; a server stop is the last one and of the last `aw-server`; no module is stopped twice |
| Supervisor.Manager.StopAll | aw_qt/manager.py:350-363 | the world after the call is `StopAllWorld` and the stopped positions are `StopAllStopped` |
| Supervisor.Manager.SweepVisit | aw_qt/manager.py:355-359 | one loop pass: a server is only remembered, any other module stopped when alive |
| Supervisor.Manager.StopRemembered | aw_qt/manager.py:361-363 | the remembered server is stopped at the end only if it is alive |
| Supervisor.FirstCall | aw_qt/manager.py:329-333 | `aw-server-rust` when requested, else `aw-server` when requested and allowed, else nothing |
| Supervisor.TraceExtend | aw_qt/manager.py:320-340 | a run of starts extended by one allowed start is a run |
| Supervisor.RestTraceCall | aw_qt/manager.py:338-340 | a start in the last loop is of a requested, allowed name other than `aw-server`, never repeated, and none happens with the shipped allow-list |
| Supervisor.AutostartStartsAtMostOne | aw_qt/manager.py:33 | with `auto_start_modules == ["aw-server"]`, at most one start; `aw-server-rust` when requested, else `aw-server` exactly when requested |
| Supervisor.Manager.Autostart | aw_qt/manager.py:320-340 | the calls form a run of `Manager.start` from the old world to the new, whose first call is `FirstCall` and the rest as `RestEnd` |
| Supervisor.Manager.AutostartRest | aw_qt/manager.py:335-340 | the last loop extends the run as `RestEnd` says |
| Supervisor.Manager.GetUnexpectedStops | aw_qt/manager.py:305-306 | exactly the modules with `started` set that are not alive, in list order |
| Supervisor.Manager.Status | aw_qt/manager.py:385-395 | one entry per module, in order, with its name and whether it is alive |
| TrayEnv.GetEnv | sd_qt/trayicon.py:26-34 | `LD_LIBRARY_PATH` restored from `LD_LIBRARY_PATH_ORIG` when present, absent otherwise; every other key, the saved one included, is unchanged |
| TrayEnv.GetEnvIgnoresLibraryPath | sd_qt/trayicon.py:29-33 | the original `LD_LIBRARY_PATH` never reaches the child environment |
| TrayEnv.GetEnvIdempotent | sd_qt/trayicon.py:26-34 | rewriting an already rewritten environment changes nothing |
| Sundial.ColorIndexAfter | sd_qt/sd_desktop/sundial.py:1331 | the cursor stays within the seven colours |
| Sundial.ColorCycle | sd_qt/sd_desktop/sundial.py:28-29 | colours repeat with period seven, consecutive calls never repeat a colour, and from cursor 0 the first call gives `colors[1]` |
| Sundial.Palette.constructor | sd_qt/sd_desktop/sundial.py:29 | the cursor starts at 0 |
| Sundial.Palette.NextColor | sd_qt/sd_desktop/sundial.py:1329-1332 | the cursor advances by one modulo seven and the colour under the new cursor is returned |
| Sundial.CursorStep | sd_qt/sd_desktop/sundial.py:1331 | one more call after `k` calls is `k + 1` calls |
| Sundial.ShownOnce | sd_qt/sd_desktop/sundial.py:942-944 | within one refresh no `app + time` key is shown twice, every row comes from the list, and every key of the list is shown |
| Sundial.RowsForSnoc | sd_qt/sd_desktop/sundial.py:944 | a new row takes the next colour of the cycle |
| Sundial.EventList.RefreshData | sd_qt/sd_desktop/sundial.py:925-993 | rows and the key set are emptied first; afterwards the rows are the first event of each key in list order, coloured by consecutive `get_next_color` calls, and the set holds every key |
| Sundial.EventList.ShowEvents | sd_qt/sd_desktop/sundial.py:941-991 | the loop over the events, from an empty list and set, as `RefreshData` states |
| Sundial.EventList.ShowEvent | sd_qt/sd_desktop/sundial.py:942-944 | one pass: a row only when the key is new, and the key is then remembered |
| SundialText.Words | sd_qt/sd_desktop/sundial.py:963 | `str.split()` with no separator: the maximal runs of non-whitespace, in order (no contract; `WordsAreWords` and `WordsCount` state its properties) |
| SundialText.Truncate | sd_qt/sd_desktop/sundial.py:962-967 | more than twenty words: the first twenty joined by `-` plus " ..."; otherwise the name itself (no contract; `TruncatedWords` and `TruncateIdempotent`) |
| SundialText.LabelFor | sd_qt/sd_desktop/sundial.py:962-970 | the cut text, with the full name as tooltip exactly when the text is longer than fifteen characters (no contract; `NothingHiddenWithoutTooltip`, `CutLabelHasTooltip`) |
| SundialText.WordsAreWords | sd_qt/sd_desktop/sundial.py:963 | the split gives nonempty words without whitespace |
| SundialText.TruncatedWords | sd_qt/sd_desktop/sundial.py:964-965 | a name of more than twenty words becomes its first twenty words joined by `-`, then " ...": exactly two words |
| SundialText.TruncateIdempotent | sd_qt/sd_desktop/sundial.py:962-967 | every label has at most twenty words, and cutting it again changes nothing |
| SundialText.CutLabelHasTooltip | sd_qt/sd_desktop/sundial.py:969-970 | a cut label is longer than fifteen characters, so it always carries the full name as tooltip |
| SundialText.NothingHiddenWithoutTooltip | sd_qt/sd_desktop/sundial.py:962-970 | a label without tooltip shows the whole name, and a tooltip is always the whole name |
| SundialText.ShortNameShownPlain | sd_qt/sd_desktop/sundial.py:966-970 | a name of at most fifteen characters is shown as it is, without tooltip |
| SundialText.WordsCount | sd_qt/sd_desktop/sundial.py:963 | a string has no more words than characters |
| Sundial.FormatParseRoundTrip | sd_qt/sd_desktop/sundial.py:1023-1024 | an "h:mm AP" string reads back as the hour and minute it was made from |
| Sundial.AcceptedTimesOrdered | sd_qt/sd_desktop/sundial.py:1020-1024 | the hours `compare_times` stores read back with the start no later than the end |
| Sundial.DefaultHours | sd_qt/sd_desktop/sundial.py:33-37 | the shipped "9:30 AM" and "6:30 PM" are in the stored format and in order |
| Sundial.WeekSchedule.constructor | sd_qt/sd_desktop/sundial.py:33-37 | every day on, 9:30 AM to 6:30 PM, which is in order |
| Sundial.WeekSchedule.CompareTimes | sd_qt/sd_desktop/sundial.py:1017-1024 | a from-time later than the to-time only sets the warning and leaves the schedule alone; otherwise both hours are overwritten; the days are never touched and ordered hours stay ordered |

## Left out

- Process spawning and signalling are an oracle (`Processes.Os`), not real OS semantics. Which fresh pid a launch receives is left open.
- The configparser text format, file I/O, and key case-folding are left out. The store is a map, and a missing file reads as empty.
- Logging (`_log_modules`, every `logger` call), `print_status`, `_print_status_module` and `Module.read_log` are left out. They only write logs or read log files.
- The `modules_bundled` and `modules_system` properties are not separate members. `Supervisor.StartTarget` states what `Manager.start` takes from them.
- The real file-system walk (`glob`, `os.listdir`, `os.access`, `os.path.isdir`) is an abstract tree (`Discovery.Host`). Only the decision rules are kept.
- The order `filter_modules` and `discover_modules` leave is whatever Python's set iteration gives. The model picks elements in an unspecified order and promises no order.
- IniStore.ParseInt: `int()` also accepts surrounding whitespace, `_` between digits and non-ASCII decimal digits; these are not modelled. The pid text is only ever written by `str(pid)` (`IniStore.ParseFormatRoundTrip`), so those forms arise only from a hand-edited file.
- IniStore.ParseInt: a pid outside the platform's range makes `os.kill` raise OverflowError, which the original does not catch. The model's integers are unbounded and it does not model that exception.
- Discovery.InDirectory: a symbolic link cycle among `aw-*` directories makes `_discover_modules_in_directory` recurse until RecursionError. The file tree is finite and acyclic, so the model cannot express that case.
- Discovery.GlobEntries: the `aw-*` match is case-sensitive, as `glob` is on POSIX. On Windows `glob` ignores case, and that is not modelled.
- The first loop of `autostart` only logs names that are not found, and is not modelled.
- Supervisor.Manager.Autostart: a launch failure is an exception in the original, and the call ends there. The model ends the call the same way and reports the outcome in the trace; the exception itself is not modelled.
- Supervisor.Manager.Status: the `Watcher_location` field, `str(m)`, is the object's default text and is not modelled.
- Sundial.EventList.RefreshData: the HTTP request, the date range and `listView`'s time formatting are parameters.
  - The model receives the list `listView` produced, or None for an empty answer.
  - A row records its event and colour. Its label is derived from the event (`Sundial.Caption`) rather than stored.
  - Widget geometry, fonts and style sheets are not modelled.
- Sundial.EventList.ShowEvents: the colour cursor is shared with every other caller of `get_next_color`. The model keeps it in a `Palette` object. No other caller runs during a refresh.
- Sundial.WeekSchedule.CompareTimes: `QTime` is a value of hours, minutes, seconds and milliseconds. `toString("h:mm AP")` is modelled with the English AM/PM markers.
- Every other Qt widget, the threads started by the dashboard, the onboarding screens and the tray menu are left out. Network helpers, lock files and start-up plumbing are left out too.
