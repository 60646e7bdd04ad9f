/** The module descriptor: one discoverable executable, its provenance, the
    in-memory `started` flag, and the operations that start, stop and probe it
    through the shared process.ini file and the OS. */
module Descriptor {
  import opened Common
  import opened IniStore
  import opened Processes
  import opened Lifecycle

  /** The `type` string of a module: "bundled" or "system". */
  datatype Kind = Bundled | System

  /** What identifies a module apart from its object identity. */
  datatype Descr = Descr(name: string, path: string, kind: Kind)

  class Module {
    const name: string
    const path: string
    const kind: Kind
    /** The process.ini file at `config_file_path`, shared by all modules. */
    const store: ProcessIni
    /** The operating system. */
    const os: Os
    var started: bool

    ghost function Env(): Env
      reads store, os
    {
      Lifecycle.Env(store.File(), os.State())
    }

    /** `Module.__init__`: records the fields and runs `initialize_ini_file`. */
    constructor (name: string, path: string, kind: Kind, store: ProcessIni, os: Os)
      modifies store
      ensures this.name == name && this.path == path && this.kind == kind
      ensures this.store == store && this.os == os && !started
      ensures store.File() == Initialized(old(store.File()))
    {
      this.name := name;
      this.path := path;
      this.kind := kind;
      this.store := store;
      this.os := os;
      started := false;
      new;
      store.InitializeIniFile();
    }

    /** `_read_pid`. */
    method ReadPid() returns (pid: Option<int>)
      ensures pid == PersistedPid(store.File(), name)
    {
      var secs := if store.present then store.sections else map[];
      if name in secs && PidKey in secs[name] {
        pid := ParseInt(secs[name][PidKey]);
      } else {
        pid := None;
      }
    }

    /** `_write_pid`. */
    method WritePid(pid: int)
      modifies store
      ensures store.File() == WithPid(old(store.File()), name, pid)
    {
      var secs := if store.present then store.sections else map[];
      store.sections := SetField(secs, name, PidKey, FormatInt(pid));
      store.present := true;
    }

    /** `_update_status_in_ini`. */
    method UpdateStatusInIni(status: bool)
      modifies store
      ensures store.File() == WithStatus(old(store.File()), name, status)
    {
      var secs := if store.present then store.sections else map[];
      store.sections := SetField(secs, name, StatusKey, if status then "True" else "False");
      store.present := true;
    }

    /** `start`: return early if the persisted pid is a running process;
        otherwise set `started`, launch the executable, persist its pid and
        status "True". A launch failure is reported as SpawnFailed after
        `started` was already set, as the exception leaves it. */
    method Start() returns (o: StartOutcome)
      modifies this, store, os
      ensures ValidStart(old(Env()), name, path, o)
      ensures Env() == StartEnv(old(Env()), name, o)
      ensures started == StartedAfterStart(old(started), o)
    {
      var pid := ReadPid();
      if pid.Some? && pid.value != 0 && os.CanSignal(pid.value) {
        return AlreadyRunning;
      }
      started := true;
      var spawned := os.Spawn(path);
      if spawned.None? {
        return SpawnFailed;
      }
      WritePid(spawned.value);
      UpdateStatusInIni(true);
      o := Spawned(spawned.value);
    }

    /** `stop`: when the persisted pid is a running process, send SIGTERM; if
        it is delivered, clear `started` and persist status "False" and pid 0.
        A refused signal, a zero or unreadable pid change nothing. */
    method Stop()
      modifies this, store, os
      ensures Env() == StopEnv(old(Env()), name)
      ensures started == StartedAfterStop(old(started), old(Env()), name)
    {
      var pid := ReadPid();
      if pid.Some? && pid.value != 0 && os.CanSignal(pid.value) {
        var ok := os.Terminate(pid.value);
        if ok {
          started := false;
          UpdateStatusInIni(false);
          WritePid(0);
        }
      }
    }

    /** `is_alive`: decided from the persisted pid and the OS alone. */
    method IsAlive() returns (alive: bool)
      ensures alive == AliveIn(Env(), name)
    {
      var pid := ReadPid();
      if pid.None? || pid.value == 0 {
        return false;
      }
      alive := os.PidRunning(pid.value);
    }

    /** `toggle`: trusts the in-memory flag, not `is_alive`. The start outcome
        is returned when it started. */
    method Toggle(testing: bool) returns (o: Option<StartOutcome>)
      modifies this, store, os
      ensures old(started) ==> o.None? && Env() == StopEnv(old(Env()), name) && started == StartedAfterStop(true, old(Env()), name)
      ensures !old(started) ==> o.Some? && ValidStart(old(Env()), name, path, o.value) && Env() == StartEnv(old(Env()), name, o.value) && started == StartedAfterStart(false, o.value)
    {
      if started {
        Stop();
        o := None;
      } else {
        var r := Start();
        o := Some(r);
      }
    }
  }

  /** The descriptors of a list of modules, in order. */
  function Describe(ms: seq<Module>): (r: seq<Descr>)
    ensures |r| == |ms|
    ensures forall i :: 0 <= i < |ms| ==> r[i] == Descr(ms[i].name, ms[i].path, ms[i].kind)
  {
    if ms == [] then [] else Describe(ms[..|ms| - 1]) + [Descr(ms[|ms| - 1].name, ms[|ms| - 1].path, ms[|ms| - 1].kind)]
  }

  lemma DescribeAppend(a: seq<Module>, b: seq<Module>)
    ensures Describe(a + b) == Describe(a) + Describe(b)
  {
    var l, r := Describe(a + b), Describe(a) + Describe(b);
    assert |l| == |r|;
    forall i | 0 <= i < |l|
      ensures l[i] == r[i]
    {
      if i >= |a| {
        assert (a + b)[i] == b[i - |a|];
      }
    }
  }
}
