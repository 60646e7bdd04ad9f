/** The meaning of one module's `start`, `stop` and `is_alive`, stated as
    functions over the shared environment: the process.ini file and the OS
    oracle. The class `Module` is proved against these. */
module Lifecycle {
  import opened Common
  import opened IniStore
  import opened Processes

  /** Everything outside the module object that its operations read or write. */
  datatype Env = Env(ini: IniFile, os: OsState)

  const PidKey := "pid"
  const StatusKey := "status"

  /** `_read_pid`: the section's pid parsed as an integer, or None where the
      section or field is missing or the text is not an integer. */
  function PersistedPid(ini: IniFile, name: string): Option<int>
  {
    var text := GetField(Loaded(ini), name, PidKey);
    if text.Some? then ParseInt(text.value) else None
  }

  /** `_write_pid`: re-read the file, create the section if needed, set `pid`. */
  function WithPid(ini: IniFile, name: string, pid: int): IniFile
  {
    IniFile(true, SetField(Loaded(ini), name, PidKey, FormatInt(pid)))
  }

  /** `_update_status_in_ini`: the same for `status`, as "True" or "False". */
  function WithStatus(ini: IniFile, name: string, status: bool): IniFile
  {
    IniFile(true, SetField(Loaded(ini), name, StatusKey, if status then "True" else "False"))
  }

  /** The guard `pid and self._is_process_running(pid)` of start and stop. */
  predicate Running(e: Env, name: string)
  {
    var pid := PersistedPid(e.ini, name);
    pid.Some? && pid.value != 0 && pid.value in e.os.signalable
  }

  /** `is_alive`: a nonzero persisted pid that psutil reports running. It does
      not look at the in-memory `started` flag. */
  predicate AliveIn(e: Env, name: string)
  {
    var pid := PersistedPid(e.ini, name);
    pid.Some? && pid.value != 0 && pid.value in e.os.alive
  }

  /** How a call of `start` ended: it returned early, Popen raised, or a
      process was launched with the given pid. */
  datatype StartOutcome = AlreadyRunning | SpawnFailed | Spawned(pid: int)

  /** The outcomes `start` may have from `e`; only the pid is the OS's choice. */
  predicate ValidStart(e: Env, name: string, path: string, o: StartOutcome)
  {
    match o
    case AlreadyRunning => Running(e, name)
    case SpawnFailed => !Running(e, name) && path !in e.os.runnable
    case Spawned(pid) => !Running(e, name) && path in e.os.runnable && FreshIn(e.os, pid)
  }

  /** The environment after `start` with outcome `o`. */
  function StartEnv(e: Env, name: string, o: StartOutcome): Env
  {
    match o
    case Spawned(pid) => Env(WithStatus(WithPid(e.ini, name, pid), name, true), WithSpawned(e.os, pid))
    case _ => e
  }

  /** The `started` flag after `start`: set before Popen, so also when it raises. */
  function StartedAfterStart(started: bool, o: StartOutcome): bool
  {
    if o.AlreadyRunning? then started else true
  }

  /** How a call of `stop` ended. */
  datatype StopOutcome = NotRunning | SignalFailed | Signalled

  function StopOutcomeOf(e: Env, name: string): (r: StopOutcome)
    ensures r == NotRunning <==> !Running(e, name)
  {
    if !Running(e, name) then NotRunning
    else if PersistedPid(e.ini, name).value in e.os.termRefused then SignalFailed
    else Signalled
  }

  /** The environment after `stop`: on a delivered SIGTERM, status "False"
      then pid "0" are written; otherwise nothing changes. */
  function StopEnv(e: Env, name: string): (r: Env)
    ensures StopOutcomeOf(e, name) != Signalled ==> r == e
  {
    if StopOutcomeOf(e, name) == Signalled then
      Env(WithPid(WithStatus(e.ini, name, false), name, 0), WithTerminated(e.os, PersistedPid(e.ini, name).value))
    else e
  }

  function StartedAfterStop(started: bool, e: Env, name: string): bool
  {
    if StopOutcomeOf(e, name) == Signalled then false else started
  }

  // ---------------------------------------------------------------------
  // Properties of a single module's lifecycle.

  lemma {:induction false} PersistedPidAfterWrite(ini: IniFile, name: string, pid: int)
    ensures PersistedPid(WithPid(ini, name, pid), name) == Some(pid)
    ensures PersistedPid(WithStatus(WithPid(ini, name, pid), name, true), name) == Some(pid)
    ensures PersistedPid(WithPid(WithStatus(ini, name, false), name, pid), name) == Some(pid)
  {
    ParseFormatRoundTrip(pid);
  }

  /** After a start that launched a process, the module reads as running and
      as alive, with `pid` and `status` persisted. */
  lemma {:induction false} StartPersists(e: Env, name: string, path: string, pid: int)
    requires ValidStart(e, name, path, Spawned(pid))
    ensures var e' := StartEnv(e, name, Spawned(pid));
      && GetField(e'.ini.sections, name, PidKey) == Some(FormatInt(pid))
      && GetField(e'.ini.sections, name, StatusKey) == Some("True")
      && Running(e', name) && AliveIn(e', name)
  {
    PersistedPidAfterWrite(e.ini, name, pid);
  }

  /** Two consecutive starts spawn once: whatever the second start does, it
      returns early and changes nothing. */
  lemma {:induction false} StartIsAtMostOnce(e: Env, name: string, path: string, pid: int, o: StartOutcome)
    requires ValidStart(e, name, path, Spawned(pid))
    requires ValidStart(StartEnv(e, name, Spawned(pid)), name, path, o)
    ensures o == AlreadyRunning
    ensures StartEnv(StartEnv(e, name, Spawned(pid)), name, o) == StartEnv(e, name, Spawned(pid))
  {
    StartPersists(e, name, path, pid);
  }

  /** A start that launched a process followed by a stop whose signal is
      delivered leaves `pid=0, status=False`, `started` false, and the module
      no longer alive. */
  lemma {:induction false} StartThenStop(e: Env, name: string, path: string, pid: int, started: bool)
    requires ValidStart(e, name, path, Spawned(pid))
    requires pid !in e.os.termRefused
    ensures var e1 := StartEnv(e, name, Spawned(pid));
      var e2 := StopEnv(e1, name);
      && StopOutcomeOf(e1, name) == Signalled
      && GetField(e2.ini.sections, name, PidKey) == Some("0")
      && GetField(e2.ini.sections, name, StatusKey) == Some("False")
      && !StartedAfterStop(StartedAfterStart(started, Spawned(pid)), e1, name)
      && !AliveIn(e2, name)
  {
    var e1 := StartEnv(e, name, Spawned(pid));
    PersistedPidAfterWrite(e.ini, name, pid);
    PersistedPidAfterWrite(WithStatus(e1.ini, name, false), name, 0);
  }

  /** A stop whose signal was delivered makes every later stop a no-op. */
  lemma {:induction false} StopIsIdempotent(e: Env, name: string)
    requires StopOutcomeOf(e, name) == Signalled
    ensures StopOutcomeOf(StopEnv(e, name), name) == NotRunning
    ensures StopEnv(StopEnv(e, name), name) == StopEnv(e, name)
  {
    PersistedPidAfterWrite(WithStatus(e.ini, name, false), name, 0);
  }

  /** `is_alive` is false whenever the persisted pid is 0 or cannot be read. */
  lemma {:induction false} DeadWithoutPid(e: Env, name: string)
    requires PersistedPid(e.ini, name) == None || PersistedPid(e.ini, name) == Some(0)
    ensures !AliveIn(e, name) && !Running(e, name)
  {
  }

  /** Liveness survives a restart of the supervisor: re-creating module
      objects re-runs `initialize_ini_file`, which never changes what
      `is_alive` answers for any name. */
  lemma {:induction false} RestartKeepsLiveness(e: Env, name: string)
    ensures AliveIn(Env(Initialized(e.ini), e.os), name) == AliveIn(e, name)
  {
    if !e.ini.present {
      assert ParseInt("0") == Some(0) by { ParseFormatRoundTrip(0); }
      assert Loaded(e.ini) == map[];
    }
  }
}
