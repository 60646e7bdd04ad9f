/** The operating system as the supervisor sees it, reduced to an oracle over
    process ids. Nothing here models real process semantics: the sets say what
    the three probes the supervisor uses would answer. */
module Processes {
  import opened Common

  /** - `alive`: pids for which psutil reports an existing, running process;
      - `signalable`: pids for which `os.kill(pid, 0)` succeeds;
      - `termRefused`: pids for which `os.kill(pid, SIGTERM)` raises OSError;
      - `runnable`: executable paths `subprocess.Popen` can launch. */
  datatype OsState = OsState(alive: set<int>, signalable: set<int>, termRefused: set<int>, runnable: set<string>)

  /** A pid no probe has ever heard of: what a spawn may hand out. */
  predicate FreshIn(os: OsState, pid: int)
  {
    pid > 0 && pid !in os.alive && pid !in os.signalable && pid !in os.termRefused
  }

  /** The OS after launching a process that received `pid`. */
  function WithSpawned(os: OsState, pid: int): (r: OsState)
    ensures pid in r.alive && pid in r.signalable
    ensures forall p :: p != pid ==> (p in r.alive <==> p in os.alive) && (p in r.signalable <==> p in os.signalable)
    ensures r.termRefused == os.termRefused && r.runnable == os.runnable
  {
    os.(alive := os.alive + {pid}, signalable := os.signalable + {pid})
  }

  /** The OS after `pid` honoured a SIGTERM and exited. */
  function WithTerminated(os: OsState, pid: int): (r: OsState)
    ensures pid !in r.alive && pid !in r.signalable
    ensures forall p :: p != pid ==> (p in r.alive <==> p in os.alive) && (p in r.signalable <==> p in os.signalable)
    ensures r.termRefused == os.termRefused && r.runnable == os.runnable
  {
    os.(alive := os.alive - {pid}, signalable := os.signalable - {pid})
  }

  /** A positive pid larger than every pid in `used`. */
  method FreshPid(used: set<int>) returns (pid: int)
    ensures pid > 0 && pid !in used
  {
    pid := 1;
    var rest := used;
    while rest != {}
      invariant rest <= used
      invariant pid > 0
      invariant forall p :: p in used && p !in rest ==> p < pid
      decreases rest
    {
      var x := Choose(rest);
      if x >= pid {
        pid := x + 1;
      }
      rest := rest - {x};
    }
  }

  class Os {
    var alive: set<int>
    var signalable: set<int>
    var termRefused: set<int>
    var runnable: set<string>

    ghost function State(): OsState
      reads this
    {
      OsState(alive, signalable, termRefused, runnable)
    }

    constructor (init: OsState)
      ensures State() == init
    {
      alive, signalable, termRefused, runnable := init.alive, init.signalable, init.termRefused, init.runnable;
    }

    /** `os.kill(pid, 0)` did not raise. */
    predicate CanSignal(pid: int)
      reads this
    {
      pid in signalable
    }

    /** `psutil.pid_exists(pid)` and `psutil.Process(pid).is_running()`. */
    predicate PidRunning(pid: int)
      reads this
    {
      pid in alive
    }

    /** `subprocess.Popen([path], start_new_session=True)`: a fresh pid, or
        None where Popen raises. Which fresh pid is chosen is up to the OS. */
    method Spawn(path: string) returns (pid: Option<int>)
      modifies this
      ensures path !in old(runnable) ==> pid.None? && State() == old(State())
      ensures path in old(runnable) ==> pid.Some? && FreshIn(old(State()), pid.value) && State() == WithSpawned(old(State()), pid.value)
    {
      if path !in runnable {
        return None;
      }
      var p := FreshPid(alive + signalable + termRefused);
      alive := alive + {p};
      signalable := signalable + {p};
      pid := Some(p);
    }

    /** `os.kill(pid, signal.SIGTERM)`: false where it raises OSError. */
    method Terminate(pid: int) returns (ok: bool)
      modifies this
      ensures ok == (pid !in old(termRefused))
      ensures State() == if ok then WithTerminated(old(State()), pid) else old(State())
    {
      ok := pid !in termRefused;
      if ok {
        alive := alive - {pid};
        signalable := signalable - {pid};
      }
    }
  }

}
