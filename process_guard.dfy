/**
 * The supervision of one configured entry (`class ProcessGuard`): a tracked PID list
 * and a guarding flag, updated by `guard()` in three steps — prune the PIDs that fail
 * the liveness probe, rediscover by name when none is left (adopting what is found and
 * enrolling the entry for guarding), and otherwise launch the command when guarding.
 *
 * The liveness probe `kill(pid, 0) != -1` is the parameter `isAlive`; what `pidof`
 * prints is the parameter `pidof`; launching (the double fork of `startProcess`) and
 * running `pidof` are the effects recorded in `log`.
 */
module Guard {
  import opened Seqs
  import opened LibC
  import opened PidScan

  /** What `guard()` records: the `pidof` lookups and the launches. The `kill(pid, 0)`
      probes are the input `isAlive` and are not recorded. */
  datatype Effect =
    | Lookup(name: string)                 // popen("pidof <name>")
    | Launch(cmdline: string, cwd: string)  // startProcess(): `sh -c cmdline` detached, in cwd

  predicate IsLaunch(f: Effect)
  {
    f.Launch?
  }

  /** Number of launches among the effects. */
  function Launches(effects: seq<Effect>): nat
  {
    |Filter(effects, IsLaunch)|
  }

  /** The configuration of an entry: process name, working directory, command line. */
  datatype Entry = Entry(name: string, cwd: string, cmdline: string)

  /** The tracking state of an entry. */
  datatype State = State(pids: seq<int>, guarding: bool)

  /** The state after one `guard()` call and the effects of that call, in order. */
  datatype Outcome = Outcome(next: State, effects: seq<Effect>)

  /** What the environment shows one `guard()` call: which PIDs are alive, and what
      `pidof` would print if it were run. */
  datatype Probe = Probe(isAlive: int -> bool, pidof: PidofOutput)

  /** Valid PID values: positive and representable in `pid_t`. */
  predicate ValidPids(pids: seq<int>)
  {
    forall p :: p in pids ==> 0 < p <= INT_MAX
  }

  /** One `guard()` call as a function of the state before it. */
  function Check(e: Entry, s: State, isAlive: int -> bool, pidof: PidofOutput): (o: Outcome)
    ensures o.effects == [] <==> Filter(s.pids, isAlive) != []
    ensures o.effects != [] ==> o.effects[0] == Lookup(e.name) && |o.effects| <= 2
  {
    var live := Filter(s.pids, isAlive);
    if live != [] then Outcome(State(live, s.guarding), [])
    else
      var found := Discovered(pidof);
      if found != [] then Outcome(State(found, true), [Lookup(e.name)])
      else if s.guarding then Outcome(State([], true), [Lookup(e.name), Launch(e.cmdline, e.cwd)])
      else Outcome(State([], false), [Lookup(e.name)])
  }

  class ProcessGuard {
    const name: string
    const cwd: string
    const cmdline: string
    var guarding: bool
    var pids: seq<int>
    /** The lookups and launches this guard has made, oldest first (probes are not
        logged). */
    var log: seq<Effect>

    /** Only valid PIDs are ever tracked. */
    predicate Valid()
      reads this
    {
      ValidPids(pids)
    }

    function Config(): Entry
    {
      Entry(name, cwd, cmdline)
    }

    function Tracking(): State
      reads this
    {
      State(pids, guarding)
    }

    /** A new guard tracks nothing and guards exactly when auto-run is configured. */
    constructor (n: string, wd: string, cmd: string, autoRun: bool)
      ensures Valid()
      ensures name == n && cwd == wd && cmdline == cmd
      ensures guarding == autoRun && pids == [] && log == []
    {
      name, cwd, cmdline := n, wd, cmd;
      guarding := autoRun;
      pids := [];
      log := [];
    }

    /** The first step of `guard()`: erase, in place, every PID whose probe fails. */
    method PruneDead(isAlive: int -> bool)
      modifies this`pids
      ensures pids == Filter(old(pids), isAlive)
    {
      ghost var before := pids;
      ghost var done := 0;
      var it := 0;
      while it < |pids|
        invariant 0 <= done <= |before|
        invariant it <= |pids|
        invariant pids[..it] == Filter(before[..done], isAlive)
        invariant pids[it..] == before[done..]
        decreases |pids| - it
      {
        FilterStep(before, done, isAlive);
        assert pids[it] == before[done];
        ghost var prev := pids;
        if !isAlive(pids[it]) {
          pids := pids[..it] + pids[it + 1..];
          assert pids[..it] == prev[..it];
          assert pids[it..] == prev[it + 1..] == before[done + 1..];
        } else {
          assert pids[..it + 1] == pids[..it] + [before[done]];
          assert pids[it + 1..] == before[done + 1..];
          it := it + 1;
        }
        done := done + 1;
      }
      assert before[..|before|] == before;
    }

    /** `getPidsByName`: run `pidof processName` and read the PIDs it prints. */
    method GetPidsByName(processName: string, pidof: PidofOutput) returns (result: seq<int>)
      modifies this`log
      ensures result == Discovered(pidof)
      ensures log == old(log) + [Lookup(processName)]
    {
      log := log + [Lookup(processName)];
      result := ReadPids(pidof);
    }

    /** `startProcess`: launch the command line, detached, in the working directory. */
    method StartProcess()
      modifies this`log
      ensures log == old(log) + [Launch(cmdline, cwd)]
    {
      log := log + [Launch(cmdline, cwd)];
    }

    /** `guard()`: one supervision step for this entry. */
    method Guard(isAlive: int -> bool, pidof: PidofOutput)
      requires Valid()
      modifies this
      ensures Valid()
      ensures var o := Check(Config(), old(Tracking()), isAlive, pidof);
        Tracking() == o.next && log == old(log) + o.effects
    {
      PruneDead(isAlive);
      if pids == [] {
        var newPids := GetPidsByName(name, pidof);
        if newPids != [] {
          pids := newPids;
          if !guarding {
            guarding := true;
          }
          return;
        }
        if guarding {
          StartProcess();
        }
      }
    }
  }

  // -------------------------------------------------- properties of one call

  /** While some tracked PID survives the probe, the call only prunes: no lookup, no
      launch, the guarding flag untouched. */
  lemma TrackingIsQuiet(e: Entry, s: State, isAlive: int -> bool, pidof: PidofOutput)
    requires Filter(s.pids, isAlive) != []
    ensures Check(e, s, isAlive, pidof) == Outcome(State(Filter(s.pids, isAlive), s.guarding), [])
  {
  }

  /** In particular nothing is relaunched while one tracked PID is still alive. */
  lemma NoRelaunchWhileAlive(e: Entry, s: State, isAlive: int -> bool, pidof: PidofOutput, p: int)
    requires p in s.pids && isAlive(p)
    ensures Check(e, s, isAlive, pidof).effects == []
    ensures p in Check(e, s, isAlive, pidof).next.pids
  {
    FilterKeeps(s.pids, isAlive, p);
  }

  /** When everything tracked is gone and pidof finds instances, they are adopted as
      they are and the entry is enrolled for guarding, without a launch. */
  lemma DiscoveryAdopts(e: Entry, s: State, isAlive: int -> bool, pidof: PidofOutput)
    requires Filter(s.pids, isAlive) == [] && Discovered(pidof) != []
    ensures Check(e, s, isAlive, pidof) == Outcome(State(Discovered(pidof), true), [Lookup(e.name)])
  {
  }

  /** When everything tracked is gone, nothing is found and the entry is guarded, the
      command is launched exactly once and nothing is tracked. */
  lemma RestartWhenGone(e: Entry, s: State, isAlive: int -> bool, pidof: PidofOutput)
    requires Filter(s.pids, isAlive) == [] && Discovered(pidof) == [] && s.guarding
    ensures Check(e, s, isAlive, pidof) == Outcome(State([], true), [Lookup(e.name), Launch(e.cmdline, e.cwd)])
    ensures Launches(Check(e, s, isAlive, pidof).effects) == 1
  {
    var effects := [Lookup(e.name), Launch(e.cmdline, e.cwd)];
    assert effects[..1] == [Lookup(e.name)];
    assert effects[..1][..0] == [];
    assert !IsLaunch(effects[0]) && IsLaunch(effects[1]);
    assert Filter(effects[..1], IsLaunch) == [];
    assert Filter(effects, IsLaunch) == [effects[1]];
  }

  /** An unguarded entry whose process is not found stays dormant. */
  lemma DormantStays(e: Entry, s: State, isAlive: int -> bool, pidof: PidofOutput)
    requires Filter(s.pids, isAlive) == [] && Discovered(pidof) == [] && !s.guarding
    ensures Check(e, s, isAlive, pidof) == Outcome(State([], false), [Lookup(e.name)])
    ensures Launches(Check(e, s, isAlive, pidof).effects) == 0
  {
  }

  /** A call launches exactly when nothing tracked survives, nothing is found and the
      entry is guarded; it never launches twice. */
  lemma LaunchExactlyWhen(e: Entry, s: State, isAlive: int -> bool, pidof: PidofOutput)
    ensures var n := Launches(Check(e, s, isAlive, pidof).effects);
      n <= 1 &&
      (n == 1 <==> Filter(s.pids, isAlive) == [] && Discovered(pidof) == [] && s.guarding)
  {
    var o := Check(e, s, isAlive, pidof);
    if Filter(s.pids, isAlive) == [] && Discovered(pidof) == [] && s.guarding {
      RestartWhenGone(e, s, isAlive, pidof);
    } else if o.effects != [] {
      assert o.effects == [Lookup(e.name)];
    }
  }

  /** The guarding flag never falls, and it rises exactly on discovery. */
  lemma GuardingMonotone(e: Entry, s: State, isAlive: int -> bool, pidof: PidofOutput)
    ensures var g := Check(e, s, isAlive, pidof).next.guarding;
      (s.guarding ==> g) &&
      (g <==> s.guarding || (Filter(s.pids, isAlive) == [] && Discovered(pidof) != []))
  {
  }

  /** Only valid PIDs are ever tracked, and PIDs kept by the prune passed the probe. */
  lemma CheckTracksValidPids(e: Entry, s: State, isAlive: int -> bool, pidof: PidofOutput)
    requires ValidPids(s.pids)
    ensures ValidPids(Check(e, s, isAlive, pidof).next.pids)
    ensures Filter(s.pids, isAlive) != [] ==>
      forall p :: p in Check(e, s, isAlive, pidof).next.pids ==> isAlive(p)
  {
  }

  /** In an unchanging environment, where every PID pidof reports passes the probe, a
      second call tracks what the first one tracked. */
  lemma CheckIdempotent(e: Entry, s: State, isAlive: int -> bool, pidof: PidofOutput)
    requires forall p :: p in Discovered(pidof) ==> isAlive(p)
    ensures var once := Check(e, s, isAlive, pidof).next;
      Check(e, once, isAlive, pidof).next == once
  {
    var live := Filter(s.pids, isAlive);
    if live != [] {
      FilterIdempotent(s.pids, isAlive);
    } else {
      var found := Discovered(pidof);
      if found != [] {
        FilterUnchanged(found, isAlive);
      }
    }
  }

  // -------------------------------------------------- successive calls

  /** Successive `guard()` calls on one entry, one per sweep. */
  function Run(e: Entry, s: State, probes: seq<Probe>): (o: Outcome)
    ensures |o.effects| <= 2 * |probes|
    ensures Launches(o.effects) <= |probes|
    decreases |probes|
  {
    if probes == [] then Outcome(s, [])
    else
      var first := Check(e, s, probes[0].isAlive, probes[0].pidof);
      var rest := Run(e, first.next, probes[1..]);
      LaunchExactlyWhen(e, s, probes[0].isAlive, probes[0].pidof);
      FilterAppend(first.effects, rest.effects, IsLaunch);
      Outcome(rest.next, first.effects + rest.effects)
  }

  /** Once guarding, always guarding. */
  lemma {:induction false} RunKeepsGuarding(e: Entry, s: State, probes: seq<Probe>)
    requires s.guarding
    ensures Run(e, s, probes).next.guarding
    decreases |probes|
  {
    if probes != [] {
      GuardingMonotone(e, s, probes[0].isAlive, probes[0].pidof);
      RunKeepsGuarding(e, Check(e, s, probes[0].isAlive, probes[0].pidof).next, probes[1..]);
    }
  }

  /** A guarded entry whose process is never found is launched once per sweep. */
  lemma {:induction false} RunRestartsEverySweep(e: Entry, s: State, probes: seq<Probe>)
    requires s.pids == [] && s.guarding
    requires forall k :: 0 <= k < |probes| ==> Discovered(probes[k].pidof) == []
    ensures Run(e, s, probes).next == State([], true)
    ensures Launches(Run(e, s, probes).effects) == |probes|
    decreases |probes|
  {
    if probes != [] {
      var p := probes[0];
      RestartWhenGone(e, s, p.isAlive, p.pidof);
      var first := Check(e, s, p.isAlive, p.pidof);
      RunRestartsEverySweep(e, first.next, probes[1..]);
      FilterAppend(first.effects, Run(e, first.next, probes[1..]).effects, IsLaunch);
    }
  }

  /** An unguarded entry whose process is never found is never launched and is never
      enrolled. */
  lemma {:induction false} RunNeverLaunchesDormant(e: Entry, s: State, probes: seq<Probe>)
    requires !s.guarding
    requires forall k :: 0 <= k < |probes| ==> Discovered(probes[k].pidof) == []
    ensures !Run(e, s, probes).next.guarding
    ensures Launches(Run(e, s, probes).effects) == 0
    decreases |probes|
  {
    if probes != [] {
      var p := probes[0];
      var first := Check(e, s, p.isAlive, p.pidof);
      LaunchExactlyWhen(e, s, p.isAlive, p.pidof);
      RunNeverLaunchesDormant(e, first.next, probes[1..]);
      FilterAppend(first.effects, Run(e, first.next, probes[1..]).effects, IsLaunch);
    }
  }

  // -------------------------------------------------- an end-to-end run

  /** An auto-run entry whose process is not running is launched; once pidof reports
      PID 4242 it is adopted without a launch; once 4242 dies it is launched again. */
  lemma EchoServiceScenario(anyProbe: int -> bool, killed: int -> bool)
    requires !killed(4242)
    ensures var e := Entry("echosvc", "/tmp", "echosvc --port 9000");
      var first := Check(e, State([], true), anyProbe, Output(""));
      var second := Check(e, first.next, anyProbe, Output("4242\n"));
      var third := Check(e, second.next, killed, Output(""));
      && first == Outcome(State([], true), [Lookup("echosvc"), Launch("echosvc --port 9000", "/tmp")])
      && second == Outcome(State([4242], true), [Lookup("echosvc")])
      && third == Outcome(State([], true), [Lookup("echosvc"), Launch("echosvc --port 9000", "/tmp")])
  {
    assert Decimal(4) == "4";
    assert Decimal(42) == "42";
    assert Decimal(424) == "424";
    assert Decimal(4242) == "4242";
    assert Words([4242]) == ["4242"];
    assert PidofText([4242]) == "4242\n";
    PidofRoundTrip([4242]);
    assert Filter([4242], killed) == [];
  }
}
