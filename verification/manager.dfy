/** The supervisor: the list of discovered modules and the operations that
    start, stop and report on them by name. Every operation is proved
    against a function of the modules' descriptors and the world before the
    call: the shared process.ini file, the OS, and each module's `started`
    flag. */
module Supervisor {
  import opened Common
  import opened IniStore
  import opened Processes
  import opened Lifecycle
  import opened Descriptor
  import opened Discovery

  const ServerName := "aw-server"
  const RustServerName := "aw-server-rust"

  /** `auto_start_modules`: the only names the autostart loop may start. */
  const DefaultAutoStart: seq<string> := ["aw-server"]

  /** The `started` flags of a list of modules, in order. */
  function FlagsOf(ms: seq<Module>): (r: seq<bool>)
    reads set m | m in ms
    ensures |r| == |ms| && forall i :: 0 <= i < |ms| ==> r[i] == ms[i].started
  {
    if ms == [] then [] else FlagsOf(ms[..|ms| - 1]) + [ms[|ms| - 1].started]
  }

  /** Everything the supervisor's operations change: the shared environment
      and the `started` flag of each module, by position. */
  datatype World = World(env: Env, flags: seq<bool>)

  // ---------------------------------------------------------------------
  // Choosing a module by name

  /** The first module of the given name (and kind, when one is given). */
  function FirstIndex(ds: seq<Descr>, name: string, kind: Option<Kind>): (r: Option<nat>)
    ensures r.Some? ==> r.value < |ds| && ds[r.value].name == name && (kind.Some? ==> ds[r.value].kind == kind.value)
    ensures r.Some? ==> forall j :: 0 <= j < r.value ==> !(ds[j].name == name && (kind.Some? ==> ds[j].kind == kind.value))
    ensures r.None? ==> forall j :: 0 <= j < |ds| ==> !(ds[j].name == name && (kind.Some? ==> ds[j].kind == kind.value))
  {
    if ds == [] then None
    else if ds[0].name == name && (kind.Some? ==> ds[0].kind == kind.value) then Some(0)
    else
      var r := FirstIndex(ds[1..], name, kind);
      if r.Some? then Some(r.value + 1) else None
  }

  /** The module `Manager.start` picks: the first bundled module of that
      name, else the first system module of that name, else none. */
  function StartTarget(ds: seq<Descr>, name: string): (r: Option<nat>)
    ensures r.Some? ==> r.value < |ds| && ds[r.value].name == name
    ensures r.None? <==> forall j :: 0 <= j < |ds| ==> ds[j].name != name
    ensures (exists j :: 0 <= j < |ds| && ds[j].name == name && ds[j].kind == Bundled) ==>
      r.Some? && ds[r.value].kind == Bundled
    ensures r.Some? ==> forall j :: 0 <= j < r.value ==> !(ds[j].name == name && ds[j].kind == ds[r.value].kind)
  {
    var b := FirstIndex(ds, name, Some(Bundled));
    if b.Some? then b
    else
      var s := FirstIndex(ds, name, Some(System));
      if s.None? then
        assert forall j :: 0 <= j < |ds| ==> ds[j].name != name by {
          forall j | 0 <= j < |ds| ensures ds[j].name != name {
            if ds[j].kind == Bundled {
            } else {
              assert ds[j].kind == System;
            }
          }
        }
        s
      else s
  }

  // ---------------------------------------------------------------------
  // The effect of starting and stopping one module

  /** Whether outcome `o` is one `Manager.start(name)` can have from `w`: no
      outcome when no module carries the name, otherwise one of the target's
      start outcomes. */
  predicate StartAllowed(w: World, ds: seq<Descr>, name: string, o: Option<StartOutcome>)
  {
    var t := StartTarget(ds, name);
    if t.None? then o.None? else o.Some? && ValidStart(w.env, name, ds[t.value].path, o.value)
  }

  /** The world after `Manager.start(name)` ended with outcome `o`. */
  function StartEffect(w: World, ds: seq<Descr>, name: string, o: Option<StartOutcome>): (r: World)
    ensures |r.flags| == |w.flags|
  {
    var t := StartTarget(ds, name);
    if t.None? || o.None? || t.value >= |w.flags| then w
    else World(StartEnv(w.env, name, o.value), w.flags[t.value := StartedAfterStart(w.flags[t.value], o.value)])
  }

  /** The world after `stop` on the module at position `k`. */
  function StopEffect(w: World, ds: seq<Descr>, k: nat): (r: World)
    requires k < |ds| && |w.flags| == |ds|
    ensures |r.flags| == |ds|
  {
    World(StopEnv(w.env, ds[k].name), w.flags[k := StartedAfterStop(w.flags[k], w.env, ds[k].name)])
  }

  // ---------------------------------------------------------------------
  // stop_all

  /** Whether the loop of `stop_all` stops the module at position `i` when
      it reaches it in world `w`: it is not named `aw-server` and is alive. */
  predicate SweepStops(w: World, ds: seq<Descr>, i: nat)
    requires i < |ds|
  {
    ds[i].name != ServerName && AliveIn(w.env, ds[i].name)
  }

  /** The world after the loop of `stop_all` has visited the first `n`
      modules. */
  function SweepWorld(w: World, ds: seq<Descr>, n: nat): (r: World)
    requires n <= |ds| && |w.flags| == |ds|
    ensures |r.flags| == |ds|
  {
    if n == 0 then w
    else
      var p := SweepWorld(w, ds, n - 1);
      if SweepStops(p, ds, n - 1) then StopEffect(p, ds, n - 1) else p
  }

  /** The positions the loop of `stop_all` has stopped among the first `n`
      modules, in order. */
  function SweepStopped(w: World, ds: seq<Descr>, n: nat): (r: seq<nat>)
    requires n <= |ds| && |w.flags| == |ds|
    ensures forall a :: 0 <= a < |r| ==> r[a] < n && ds[r[a]].name != ServerName
  {
    if n == 0 then []
    else
      var s := SweepStopped(w, ds, n - 1);
      if SweepStops(SweepWorld(w, ds, n - 1), ds, n - 1) then s + [n - 1] else s
  }

  /** The position of the last `aw-server` among the first `n` modules: the
      one `stop_all` remembers, each later one replacing the earlier. */
  function LastServer(ds: seq<Descr>, n: nat): (r: Option<nat>)
    requires n <= |ds|
    ensures r.Some? ==> r.value < n && ds[r.value].name == ServerName
    ensures r.Some? ==> forall j :: r.value < j < n ==> ds[j].name != ServerName
    ensures r.None? ==> forall j :: 0 <= j < n ==> ds[j].name != ServerName
  {
    if n == 0 then None
    else if ds[n - 1].name == ServerName then Some(n - 1)
    else LastServer(ds, n - 1)
  }

  /** Whether `stop_all` ends by stopping the remembered `aw-server`. */
  predicate StopsServer(w: World, ds: seq<Descr>)
    requires |w.flags| == |ds|
  {
    LastServer(ds, |ds|).Some? && AliveIn(SweepWorld(w, ds, |ds|).env, ServerName)
  }

  /** The world after `stop_all`. */
  function StopAllWorld(w: World, ds: seq<Descr>): (r: World)
    requires |w.flags| == |ds|
    ensures |r.flags| == |ds|
  {
    var p := SweepWorld(w, ds, |ds|);
    if StopsServer(w, ds) then StopEffect(p, ds, LastServer(ds, |ds|).value) else p
  }

  /** The positions `stop_all` stops, in order. */
  function StopAllStopped(w: World, ds: seq<Descr>): (r: seq<nat>)
    requires |w.flags| == |ds|
    ensures forall a :: 0 <= a < |r| ==> r[a] < |ds|
  {
    var s := SweepStopped(w, ds, |ds|);
    if StopsServer(w, ds) then s + [LastServer(ds, |ds|).value] else s
  }

  /** Positions in strictly ascending order, so each at most once. */
  predicate Increasing(s: seq<nat>)
  {
    forall a, b :: 0 <= a < b < |s| ==> s[a] < s[b]
  }

  lemma {:induction false} SweepIncreasing(w: World, ds: seq<Descr>, n: nat)
    requires n <= |ds| && |w.flags| == |ds|
    ensures Increasing(SweepStopped(w, ds, n))
  {
    if n > 0 {
      SweepIncreasing(w, ds, n - 1);
      var prev := SweepStopped(w, ds, n - 1);
      var cur := SweepStopped(w, ds, n);
      if cur != prev {
        assert cur == prev + [n - 1];
        forall a, b | 0 <= a < b < |cur|
          ensures cur[a] < cur[b]
        {
          assert cur[a] == prev[a];
          if b < |prev| {
            assert cur[b] == prev[b];
          } else {
            assert cur[b] == n - 1;
          }
        }
      }
    }
  }

  /** The sweep stops exactly the modules not named `aw-server` that are
      alive at the moment the loop reaches them. */
  lemma {:induction false} SweepStopsAliveNonServers(w: World, ds: seq<Descr>, n: nat)
    requires n <= |ds| && |w.flags| == |ds|
    ensures forall i :: 0 <= i < n ==>
      (i in SweepStopped(w, ds, n) <==> ds[i].name != ServerName && AliveIn(SweepWorld(w, ds, i).env, ds[i].name))
  {
    if n > 0 {
      var i := n - 1;
      var prev := SweepStopped(w, ds, i);
      var stops := SweepStops(SweepWorld(w, ds, i), ds, i);
      assert SweepStopped(w, ds, n) == if stops then prev + [i] else prev;
      assert i !in prev by {
        assert forall a :: 0 <= a < |prev| ==> prev[a] < i;
      }
      forall j | 0 <= j < i
        ensures j in SweepStopped(w, ds, n) <==> j in prev
      {
      }
      SweepStopsAliveNonServers(w, ds, i);
    }
  }

  /** `stop_all` stops the server last, and at most one server: the last
      module named `aw-server`. Every other module it stops is not named
      `aw-server`, so earlier `aw-server` modules are never stopped. No
      module is stopped twice. */
  lemma {:induction false} StopAllStopsServerLast(w: World, ds: seq<Descr>)
    requires |w.flags| == |ds|
    ensures var s := StopAllStopped(w, ds);
      && (forall a :: 0 <= a < |s| - 1 ==> ds[s[a]].name != ServerName)
      && (forall a :: 0 <= a < |s| && ds[s[a]].name == ServerName ==> a == |s| - 1 && Some(s[a]) == LastServer(ds, |ds|))
      && (forall a, b :: 0 <= a < b < |s| ==> s[a] != s[b])
  {
    SweepIncreasing(w, ds, |ds|);
    var sweep := SweepStopped(w, ds, |ds|);
    var s := StopAllStopped(w, ds);
    if StopsServer(w, ds) {
      assert s == sweep + [LastServer(ds, |ds|).value];
      forall a, b | 0 <= a < b < |s|
        ensures s[a] != s[b]
      {
        if b < |sweep| {
          assert s[a] == sweep[a] && s[b] == sweep[b];
        } else {
          assert s[a] == sweep[a] && ds[sweep[a]].name != ServerName;
        }
      }
    } else {
      assert s == sweep;
      forall a, b | 0 <= a < b < |sweep|
        ensures sweep[a] != sweep[b]
      {
      }
    }
  }

  // ---------------------------------------------------------------------
  // autostart

  /** The one start before the loop of `autostart`: aw-server-rust when it is
      requested, otherwise aw-server when it is requested and allowed. */
  function FirstCall(request: seq<string>, allow: seq<string>): (r: seq<string>)
    ensures |r| <= 1
    ensures RustServerName in request ==> r == [RustServerName]
    ensures RustServerName !in request ==> (r == [ServerName] <==> ServerName in request && ServerName in allow)
    ensures RustServerName !in request && !(ServerName in request && ServerName in allow) ==> r == []
  {
    if RustServerName in request then [RustServerName]
    else if ServerName in request && ServerName in allow then [ServerName]
    else []
  }

  /** Step `i` of a sequence of `Manager.start` calls: its outcome is one
      the call could have, and it leads from world `i` to world `i + 1`. */
  ghost predicate StartTrace(worlds: seq<World>, ds: seq<Descr>, calls: seq<string>, outs: seq<Option<StartOutcome>>, i: nat)
  {
    i < |calls| && i < |outs| && i + 1 < |worlds| &&
    StartAllowed(worlds[i], ds, calls[i], outs[i]) && worlds[i + 1] == StartEffect(worlds[i], ds, calls[i], outs[i])
  }

  /** A run of `Manager.start` calls: `worlds[i]` is the world before call
      `i` and the last world the one after all of them. */
  ghost predicate StartRun(worlds: seq<World>, ds: seq<Descr>, calls: seq<string>, outs: seq<Option<StartOutcome>>)
  {
    |outs| == |calls| && |worlds| == |calls| + 1 &&
    forall i :: 0 <= i < |calls| ==> StartTrace(worlds, ds, calls, outs, i)
  }

  lemma TraceExtend(worlds: seq<World>, ds: seq<Descr>, calls: seq<string>, outs: seq<Option<StartOutcome>>,
                    c: string, o: Option<StartOutcome>, w: World)
    requires StartRun(worlds, ds, calls, outs)
    requires StartAllowed(worlds[|calls|], ds, c, o) && w == StartEffect(worlds[|calls|], ds, c, o)
    ensures StartRun(worlds + [w], ds, calls + [c], outs + [o])
  {
    forall i | 0 <= i < |calls| + 1
      ensures StartTrace(worlds + [w], ds, calls + [c], outs + [o], i)
    {
      assert (worlds + [w])[i] == worlds[i] && (worlds + [w])[i + 1] == (if i < |calls| then worlds[i + 1] else w);
      assert (calls + [c])[i] == if i < |calls| then calls[i] else c;
      assert (outs + [o])[i] == if i < |calls| then outs[i] else o;
      if i < |calls| {
        assert StartTrace(worlds, ds, calls, outs, i);
      }
    }
  }

  /** What the last loop of `autostart` has done so far, after the calls
      `calls0` made before it, with `rest` the names still to visit: no
      launch failed, every new call is a requested and allowed name other
      than aw-server already visited, no name is started twice, and with the
      shipped `auto_start_modules` nothing was started. */
  ghost predicate RestTrace(request: seq<string>, allow: seq<string>, calls0: seq<string>,
                            calls: seq<string>, outs: seq<Option<StartOutcome>>, rest: set<string>)
  {
    && |calls0| <= |calls| && calls[..|calls0|] == calls0 && |outs| == |calls|
    && (forall i :: 0 <= i < |outs| ==> outs[i] != Some(SpawnFailed))
    && (forall i :: |calls0| <= i < |calls| ==>
          calls[i] in request && calls[i] in allow && calls[i] != ServerName && calls[i] !in rest)
    && (forall n :: n in rest ==> n in request && n != ServerName)
    && (forall i, j :: |calls0| <= i < j < |calls| ==> calls[i] != calls[j])
    && (allow == DefaultAutoStart ==> calls == calls0)
  }

  /** Visiting a name the loop does not start. */
  lemma RestTraceSkip(request: seq<string>, allow: seq<string>, calls0: seq<string>,
                      calls: seq<string>, outs: seq<Option<StartOutcome>>, rest: set<string>, name: string)
    requires RestTrace(request, allow, calls0, calls, outs, rest) && name in rest
    ensures RestTrace(request, allow, calls0, calls, outs, rest - {name})
  {
  }

  /** Visiting a name the loop starts, with outcome `o`. */
  lemma {:induction false} RestTraceCall(request: seq<string>, allow: seq<string>, calls0: seq<string>,
                      calls: seq<string>, outs: seq<Option<StartOutcome>>, rest: set<string>, name: string,
                      o: Option<StartOutcome>)
    requires RestTrace(request, allow, calls0, calls, outs, rest) && name in rest && name in allow
    ensures o != Some(SpawnFailed) ==> RestTrace(request, allow, calls0, calls + [name], outs + [o], rest - {name})
    ensures RestEnd(request, allow, calls0, calls + [name], outs + [o])
  {
    var calls', outs' := calls + [name], outs + [o];
    assert calls'[..|calls0|] == calls0 by {
      assert calls'[..|calls0|] == calls[..|calls0|];
    }
    forall i | |calls0| <= i < |calls'|
      ensures calls'[i] in request && calls'[i] in allow && calls'[i] != ServerName && calls'[i] !in rest - {name}
    {
      if i < |calls| {
        assert calls'[i] == calls[i];
      }
    }
    forall i, j | |calls0| <= i < j < |calls'|
      ensures calls'[i] != calls'[j]
    {
      assert calls'[i] == calls[i];
    }
    if allow == DefaultAutoStart {
      assert false;
    }
  }

  /** What `autostart`'s last loop promises once it returns. */
  ghost predicate RestEnd(request: seq<string>, allow: seq<string>, calls0: seq<string>,
                          calls: seq<string>, outs: seq<Option<StartOutcome>>)
  {
    && |calls0| <= |calls| && calls[..|calls0|] == calls0 && |outs| == |calls|
    && (forall i :: 0 <= i < |outs| - 1 ==> outs[i] != Some(SpawnFailed))
    && (forall i :: |calls0| <= i < |calls| ==> calls[i] in request && calls[i] in allow && calls[i] != ServerName)
    && (forall i, j :: |calls0| <= i < j < |calls| ==> calls[i] != calls[j])
    && (allow == DefaultAutoStart ==> calls == calls0)
  }

  /** With the shipped `auto_start_modules`, autostart starts at most one
      module, and aw-server-rust whenever it is requested. */
  lemma AutostartStartsAtMostOne(request: seq<string>, calls: seq<string>, outs: seq<Option<StartOutcome>>)
    requires RestEnd(request, DefaultAutoStart, FirstCall(request, DefaultAutoStart), calls, outs)
    ensures |calls| <= 1
    ensures RustServerName in request ==> calls == [RustServerName]
    ensures RustServerName !in request ==> (calls == [ServerName] <==> ServerName in request)
  {
  }

  lemma RestTraceEnd(request: seq<string>, allow: seq<string>, calls0: seq<string>,
                     calls: seq<string>, outs: seq<Option<StartOutcome>>)
    requires RestTrace(request, allow, calls0, calls, outs, {})
    ensures RestEnd(request, allow, calls0, calls, outs)
  {
  }

  /** What `status` reports for one module. The `Watcher_location` entry,
      `str(m)`, is the object's default text and is not modelled. */
  datatype ModuleStatus = ModuleStatus(name: string, alive: bool)

  function StopMessage(name: string, found: bool): string
  {
    if found then "Module " + name + " is stopped" else "Manager tried to stop nonexistent module " + name
  }

  class Manager {
    var modules: seq<Module>
    /** The process.ini file all modules share. */
    const store: ProcessIni
    /** The operating system. */
    const os: Os
    const testing: bool
    /** `auto_start_modules`. */
    const autoStart: seq<string>

    ghost predicate Valid()
      reads this
    {
      Attached(modules, store, os) && Distinct(modules)
    }

    ghost function Snapshot(): World
      reads this, store, os, set m | m in modules
    {
      World(Lifecycle.Env(store.File(), os.State()), FlagsOf(modules))
    }

    /** `Manager.__init__`: an empty list, then `discover_modules`. */
    constructor (h: Host, store: ProcessIni, os: Os, testing: bool)
      modifies store
      ensures Valid() && this.store == store && this.os == os && this.testing == testing
      ensures autoStart == DefaultAutoStart
      ensures exists bundled: seq<Module>, system: seq<Module> ::
        Describe(bundled) == BundledFound(h, BundledSearchPaths(h)) && Describe(system) == SystemFound(h) &&
        forall m :: m in modules <==> (m in bundled || m in system) && m.name !in IgnoredFilenames
      ensures forall m :: m in modules ==> fresh(m) && !m.started
      ensures StoreInitOnly(old(store.File()), store.File())
    {
      modules := [];
      this.store := store;
      this.os := os;
      this.testing := testing;
      autoStart := DefaultAutoStart;
      new;
      ghost var bundled, system := DiscoverModules(h);
      assert modules[0..] == modules;
    }

    /** `discover_modules`: the bundled and the system modules, filtered,
        appended in an unspecified order when not already in the list. The
        test is object identity, so a bundled and a system module of the same
        name are both kept. */
    method DiscoverModules(h: Host) returns (ghost bundled: seq<Module>, ghost system: seq<Module>)
      requires Valid()
      modifies this, store
      ensures Valid()
      ensures Describe(bundled) == BundledFound(h, BundledSearchPaths(h))
      ensures Describe(system) == SystemFound(h)
      ensures |old(modules)| <= |modules| && modules[..|old(modules)|] == old(modules)
      ensures forall m :: m in modules[|old(modules)|..] <==> (m in bundled || m in system) && m.name !in IgnoredFilenames
      ensures forall m :: m in modules[|old(modules)|..] ==> fresh(m) && !m.started
      ensures StoreInitOnly(old(store.File()), store.File())
    {
      var found;
      found, bundled, system := DiscoverAll(h, store, os);
      ghost var added := Register(found);
      assert modules[|old(modules)|..] == added;
    }

    /** The loop of `discover_modules`: each module of `found`, taken in an
        unspecified order, is appended unless already in the list. */
    method Register(found: set<Module>) returns (ghost added: seq<Module>)
      requires Valid()
      requires forall m :: m in found ==> m.store == store && m.os == os
      modifies this
      ensures Valid()
      ensures modules == old(modules) + added
      ensures forall m :: m in added <==> m in found && m !in old(modules)
    {
      var rest := found;
      added := [];
      while rest != {}
        invariant rest <= found
        invariant modules == old(modules) + added
        invariant forall m :: m in added <==> m in found && m !in rest && m !in old(modules)
        invariant Valid()
        decreases rest
      {
        var m := Choose(rest);
        if m !in modules {
          DistinctAppend(modules, [m]);
          modules := modules + [m];
          added := added + [m];
        }
        rest := rest - {m};
      }
    }

    /** `Manager.start`: prefers a bundled module of that name over a system
        one; logs an error when there is none. */
    method Start(name: string) returns (o: Option<StartOutcome>)
      requires Valid()
      modifies store, os, set m | m in modules
      ensures StartAllowed(old(Snapshot()), Describe(modules), name, o)
      ensures Snapshot() == StartEffect(old(Snapshot()), Describe(modules), name, o)
    {
      var t := StartTarget(Describe(modules), name);
      if t.None? {
        return None;
      }
      var r := StartAt(t.value);
      o := Some(r);
    }

    /** `modules[i].start()`, seen from the supervisor. */
    method StartAt(i: nat) returns (r: StartOutcome)
      requires Valid() && i < |modules|
      modifies store, os, modules[i]
      ensures ValidStart(old(Snapshot()).env, modules[i].name, modules[i].path, r)
      ensures Snapshot() == World(StartEnv(old(Snapshot()).env, modules[i].name, r),
                                  old(Snapshot()).flags[i := StartedAfterStart(old(Snapshot()).flags[i], r)])
    {
      ghost var flags := FlagsOf(modules);
      var m := modules[i];
      assert m in modules;
      r := m.Start();
      assert FlagsOf(modules) == flags[i := m.started] by {
        forall j | 0 <= j < |modules| && j != i
          ensures modules[j] != m
        {
        }
      }
    }

    /** `Manager.stop`: stops the first module of that name, if any. `k` is
        its position. */
    method Stop(name: string) returns (ghost k: Option<nat>)
      requires Valid()
      modifies store, os, set m | m in modules
      ensures k == FirstIndex(Describe(modules), name, None)
      ensures k.None? ==> Snapshot() == old(Snapshot())
      ensures k.Some? ==> Snapshot() == StopEffect(old(Snapshot()), Describe(modules), k.value)
    {
      k := FirstIndex(Describe(modules), name, None);
      for i := 0 to |modules|
        invariant FirstIndex(Describe(modules), name, None) == k
        invariant forall j :: 0 <= j < i ==> modules[j].name != name
        invariant Snapshot() == old(Snapshot())
      {
        if modules[i].name == name {
          StopAt(i);
          return;
        }
      }
    }

    /** `stop_modules`: as `stop`, reporting the result as a message. */
    method StopModules(name: string) returns (msg: string, ghost k: Option<nat>)
      requires Valid()
      modifies store, os, set m | m in modules
      ensures k == FirstIndex(Describe(modules), name, None)
      ensures msg == StopMessage(name, k.Some?)
      ensures k.None? ==> Snapshot() == old(Snapshot())
      ensures k.Some? ==> Snapshot() == StopEffect(old(Snapshot()), Describe(modules), k.value)
    {
      k := FirstIndex(Describe(modules), name, None);
      for i := 0 to |modules|
        invariant FirstIndex(Describe(modules), name, None) == k
        invariant forall j :: 0 <= j < i ==> modules[j].name != name
        invariant Snapshot() == old(Snapshot())
      {
        if modules[i].name == name {
          StopAt(i);
          return "Module " + name + " is stopped", k;
        }
      }
      msg := "Manager tried to stop nonexistent module " + name;
    }

    /** `modules[i].stop()`, seen from the supervisor. */
    method StopAt(i: nat)
      requires Valid() && i < |modules|
      modifies store, os, modules[i]
      ensures Snapshot() == StopEffect(old(Snapshot()), Describe(modules), i)
    {
      ghost var flags := FlagsOf(modules);
      var m := modules[i];
      m.Stop();
      assert FlagsOf(modules) == flags[i := m.started] by {
        forall j | 0 <= j < |modules| && j != i
          ensures modules[j] != m
        {
        }
      }
    }

    /** `stop_all`: stops every alive module not named `aw-server` in list
        order, remembering the last `aw-server`, which is stopped at the end
        if it is alive. `stopped` lists the positions stopped, in order. */
    method StopAll() returns (ghost stopped: seq<nat>)
      requires Valid()
      modifies store, os, set m | m in modules
      ensures Snapshot() == StopAllWorld(old(Snapshot()), Describe(modules))
      ensures stopped == StopAllStopped(old(Snapshot()), Describe(modules))
    {
      ghost var ds := Describe(modules);
      ghost var w0 := Snapshot();
      var serverAt: Option<nat> := None;
      stopped := [];
      for i := 0 to |modules|
        invariant Snapshot() == SweepWorld(w0, ds, i) && stopped == SweepStopped(w0, ds, i)
        invariant serverAt == LastServer(ds, i)
      {
        var isServer;
        isServer, stopped := SweepVisit(i, w0, ds, stopped);
        if isServer {
          serverAt := Some(i);
        }
      }
      stopped := StopRemembered(serverAt, w0, ds, stopped);
    }

    /** The end of `stop_all`: the remembered `aw-server` is stopped if it
        is alive. */
    method StopRemembered(serverAt: Option<nat>, ghost w0: World, ghost ds: seq<Descr>, ghost stopped: seq<nat>)
      returns (ghost stopped': seq<nat>)
      requires Valid() && ds == Describe(modules) && |w0.flags| == |ds|
      requires serverAt == LastServer(ds, |ds|)
      requires Snapshot() == SweepWorld(w0, ds, |ds|) && stopped == SweepStopped(w0, ds, |ds|)
      modifies store, os, set m | m in modules
      ensures Snapshot() == StopAllWorld(w0, ds) && stopped' == StopAllStopped(w0, ds)
    {
      stopped' := stopped;
      if serverAt.Some? {
        var alive := modules[serverAt.value].IsAlive();
        if alive {
          StopAt(serverAt.value);
          stopped' := stopped + [serverAt.value];
        }
      }
    }

    /** One pass of the loop of `stop_all`: an `aw-server` module is only
        reported, any other is stopped when it is alive. */
    method SweepVisit(i: nat, ghost w0: World, ghost ds: seq<Descr>, ghost stopped: seq<nat>)
      returns (isServer: bool, ghost stopped': seq<nat>)
      requires Valid() && i < |modules| && ds == Describe(modules) && |w0.flags| == |ds|
      requires Snapshot() == SweepWorld(w0, ds, i) && stopped == SweepStopped(w0, ds, i)
      modifies store, os, modules[i]
      ensures isServer == (ds[i].name == ServerName)
      ensures Snapshot() == SweepWorld(w0, ds, i + 1) && stopped' == SweepStopped(w0, ds, i + 1)
    {
      var mod := modules[i];
      isServer := mod.name == ServerName;
      stopped' := stopped;
      if !isServer {
        var alive := mod.IsAlive();
        if alive {
          StopAt(i);
          stopped' := stopped + [i];
        }
      }
    }

    /** `autostart`: the first start, then a start of every requested name
        other than aw-server that `auto_start_modules` allows, in an
        unspecified order. A launch failure raises, which ends the call.
        `calls` lists the names passed to `Manager.start`, `outs` their
        outcomes and `worlds` the world before each call and after the last.
        The first loop of the original only logs, and is not modelled. */
    method Autostart(request: seq<string>)
      returns (ghost calls: seq<string>, ghost outs: seq<Option<StartOutcome>>, ghost worlds: seq<World>)
      requires Valid()
      modifies store, os, set m | m in modules
      ensures StartRun(worlds, Describe(modules), calls, outs)
      ensures worlds[0] == old(Snapshot()) && worlds[|calls|] == Snapshot()
      ensures RestEnd(request, autoStart, FirstCall(request, autoStart), calls, outs)
    {
      calls, outs, worlds := [], [], [Snapshot()];
      var first := FirstCall(request, autoStart);
      if first != [] {
        var o;
        o, worlds, calls, outs := StartTraced(first[0], worlds, calls, outs);
        assert [] + [first[0]] == first;
        if o == Some(SpawnFailed) {
          assert calls[..1] == first;
          return;
        }
      }
      calls, outs, worlds := AutostartRest(request, calls, outs, worlds);
    }

    /** One `Manager.start` call of `autostart`, appended to the trace. */
    method StartTraced(name: string, ghost worlds: seq<World>, ghost calls: seq<string>, ghost outs: seq<Option<StartOutcome>>)
      returns (o: Option<StartOutcome>, ghost worlds': seq<World>, ghost calls': seq<string>, ghost outs': seq<Option<StartOutcome>>)
      requires Valid()
      requires StartRun(worlds, Describe(modules), calls, outs) && worlds[|calls|] == Snapshot()
      modifies store, os, set m | m in modules
      ensures StartRun(worlds', Describe(modules), calls', outs') && worlds'[|calls'|] == Snapshot()
      ensures calls' == calls + [name] && outs' == outs + [o] && worlds'[0] == worlds[0]
    {
      o := Start(name);
      TraceExtend(worlds, Describe(modules), calls, outs, name, o, Snapshot());
      calls', outs', worlds' := calls + [name], outs + [o], worlds + [Snapshot()];
    }

    /** The loop at the end of `autostart`, after the calls made so far. */
    method AutostartRest(request: seq<string>, ghost calls0: seq<string>, ghost outs0: seq<Option<StartOutcome>>, ghost worlds0: seq<World>)
      returns (ghost calls: seq<string>, ghost outs: seq<Option<StartOutcome>>, ghost worlds: seq<World>)
      requires Valid()
      requires StartRun(worlds0, Describe(modules), calls0, outs0) && worlds0[|calls0|] == Snapshot()
      requires forall i :: 0 <= i < |outs0| ==> outs0[i] != Some(SpawnFailed)
      modifies store, os, set m | m in modules
      ensures StartRun(worlds, Describe(modules), calls, outs)
      ensures worlds[0] == worlds0[0] && worlds[|calls|] == Snapshot()
      ensures RestEnd(request, autoStart, calls0, calls, outs)
    {
      calls, outs, worlds := calls0, outs0, worlds0;
      var rest := (set n | n in request) - {ServerName};
      while rest != {}
        invariant StartRun(worlds, Describe(modules), calls, outs)
        invariant worlds[0] == worlds0[0] && worlds[|calls|] == Snapshot()
        invariant RestTrace(request, autoStart, calls0, calls, outs, rest)
        decreases rest
      {
        var name := Choose(rest);
        if name in autoStart {
          ghost var calls1, outs1 := calls, outs;
          var o;
          o, worlds, calls, outs := StartTraced(name, worlds, calls, outs);
          RestTraceCall(request, autoStart, calls0, calls1, outs1, rest, name, o);
          if o == Some(SpawnFailed) {
            return;
          }
        } else {
          RestTraceSkip(request, autoStart, calls0, calls, outs, rest, name);
        }
        rest := rest - {name};
      }
      RestTraceEnd(request, autoStart, calls0, calls, outs);
    }

    /** `get_unexpected_stops`: the modules marked started that are not
        alive, in list order; `idx` gives their positions. */
    method GetUnexpectedStops() returns (r: seq<Module>, ghost idx: seq<nat>)
      requires Valid()
      ensures forall m :: m in r <==> m in modules && m.started && !AliveIn(Snapshot().env, m.name)
      ensures |r| == |idx|
      ensures forall k :: 0 <= k < |idx| ==> idx[k] < |modules| && r[k] == modules[idx[k]]
      ensures forall a, b :: 0 <= a < b < |idx| ==> idx[a] < idx[b]
      ensures forall i :: 0 <= i < |modules| ==>
        (i in idx <==> modules[i].started && !AliveIn(Snapshot().env, modules[i].name))
    {
      ghost var e := Snapshot().env;
      r, idx := [], [];
      for i := 0 to |modules|
        invariant |r| == |idx|
        invariant forall k :: 0 <= k < |idx| ==> idx[k] < i && r[k] == modules[idx[k]]
        invariant forall a, b :: 0 <= a < b < |idx| ==> idx[a] < idx[b]
        invariant forall j :: 0 <= j < i ==> (j in idx <==> modules[j].started && !AliveIn(e, modules[j].name))
        invariant forall j :: j in idx ==> j < i
      {
        var m := modules[i];
        assert m in modules;
        if m.started {
          var alive := m.IsAlive();
          assert alive == AliveIn(e, m.name);
          if !alive {
            r, idx := r + [m], idx + [i];
          }
        }
      }
    }

    /** `status`: each module's name and whether it is alive, in list order. */
    method Status() returns (r: seq<ModuleStatus>)
      requires Valid()
      ensures |r| == |modules|
      ensures forall i :: 0 <= i < |modules| ==>
        r[i].name == modules[i].name && (r[i].alive <==> AliveIn(Snapshot().env, modules[i].name))
    {
      r := [];
      for i := 0 to |modules|
        invariant |r| == i
        invariant forall j :: 0 <= j < i ==>
          r[j].name == modules[j].name && (r[j].alive <==> AliveIn(Snapshot().env, modules[j].name))
      {
        var alive := modules[i].IsAlive();
        r := r + [ModuleStatus(modules[i].name, alive)];
      }
    }
  }
}
