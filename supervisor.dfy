/**
 * The parts of `main` around the guards: the scan interval taken from the
 * configuration, the construction of one guard per configured process, and one sweep
 * of the endless supervision loop, which calls `guard()` on every entry in order.
 */
module Supervisor {
  import opened Guard
  import opened PidScan

  /** How reading `scan_interval` from the configuration turned out: the key is absent,
      its value does not convert to `int`, or it converts to `value`. */
  datatype IntSetting = Absent | NotAnInt | Given(value: int)

  /** The scan interval in seconds: 1 by default, and 1 for any configured value below 1. */
  function ScanInterval(setting: IntSetting): (seconds: int)
    ensures seconds >= 1
    ensures setting.Given? && setting.value >= 1 ==> seconds == setting.value
    ensures !(setting.Given? && setting.value >= 1) ==> seconds == 1
  {
    match setting
    case Absent => 1
    case NotAnInt => 1
    case Given(v) => if v < 1 then 1 else v
  }

  /** One entry of the `processes` array. */
  datatype ProcessConfig = ProcessConfig(name: string, cwd: string, cmdline: string, autorun: bool)

  predicate Distinct(guards: seq<ProcessGuard>)
  {
    forall j, k :: 0 <= j < k < |guards| ==> guards[j] != guards[k]
  }

  /** One new guard per configured process, in configuration order. */
  method CreateGuards(processes: seq<ProcessConfig>) returns (guards: seq<ProcessGuard>)
    ensures |guards| == |processes| && Distinct(guards)
    ensures forall k :: 0 <= k < |guards| ==>
      && fresh(guards[k]) && guards[k].Valid()
      && guards[k].Config() == Entry(processes[k].name, processes[k].cwd, processes[k].cmdline)
      && guards[k].Tracking() == State([], processes[k].autorun)
      && guards[k].log == []
  {
    guards := [];
    for i := 0 to |processes|
      invariant |guards| == i && Distinct(guards)
      invariant forall k :: 0 <= k < i ==>
        && fresh(guards[k]) && guards[k].Valid()
        && guards[k].Config() == Entry(processes[k].name, processes[k].cwd, processes[k].cmdline)
        && guards[k].Tracking() == State([], processes[k].autorun)
        && guards[k].log == []
    {
      var item := processes[i];
      var g := new ProcessGuard(item.name, item.cwd, item.cmdline, item.autorun);
      guards := guards + [g];
    }
  }

  /** One sweep: `guard()` on every entry in order, each against what the operating
      system shows it at its turn. */
  method Sweep(guards: seq<ProcessGuard>, probes: seq<Probe>)
    requires |probes| == |guards| && Distinct(guards)
    requires forall k :: 0 <= k < |guards| ==> guards[k].Valid()
    modifies set k | 0 <= k < |guards| :: guards[k]
    ensures forall k :: 0 <= k < |guards| ==> guards[k].Valid()
    ensures forall k :: 0 <= k < |guards| ==>
      var o := Check(guards[k].Config(), old(guards[k].Tracking()), probes[k].isAlive, probes[k].pidof);
      guards[k].Tracking() == o.next && guards[k].log == old(guards[k].log) + o.effects
  {
    for i := 0 to |guards|
      invariant forall k :: 0 <= k < |guards| ==> guards[k].Valid()
      invariant forall k :: 0 <= k < i ==>
        var o := Check(guards[k].Config(), old(guards[k].Tracking()), probes[k].isAlive, probes[k].pidof);
        guards[k].Tracking() == o.next && guards[k].log == old(guards[k].log) + o.effects
      invariant forall k :: i <= k < |guards| ==>
        guards[k].Tracking() == old(guards[k].Tracking()) && guards[k].log == old(guards[k].log)
    {
      label before:
      guards[i].Guard(probes[i].isAlive, probes[i].pidof);
      assert forall k :: 0 <= k < |guards| && k != i ==>
        guards[k].Tracking() == old@before(guards[k].Tracking()) && guards[k].log == old@before(guards[k].log);
    }
  }
}
