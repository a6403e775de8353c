/**
 * The installer's `main`: resolve the hostname; if the recommendation
 * differs, rename, report that a reboot is required and stop; otherwise run
 * upgrade, Docker installation, swarm set-up, image pull and service launch
 * in that order. A run is the trace of steps taken and how it ended.
 */
module Bootstrap {
  import opened Wrappers
  import opened Text
  import opened Commands
  import opened Prober
  import opened Resolver
  import Swarm
  import Workload

  /** What one run observes of its host: the hostname, which names answer a
      ping, and the output of the commands whose output is used. */
  datatype Host = Host(
    hostname: string,
    reachable: string -> bool,
    getentStdout: string,
    tokenStdout: string,
    imagesStdout: string)

  /** The steps of `main`, each with the commands it issued where they carry
      a decision. */
  datatype Step =
    | SetHostname(command: Command)
    | UpgradeOs
    | InstallDocker
    | InitOrJoinSwarm(commands: seq<Command>)
    | PullMainInstaller(commands: seq<Command>)
    | RunMainInstaller(command: Command)

  datatype Fault =
    | NoNameAvailable       // `set_hostname(None)` raises before running anything
    | MasterAddressMissing  // `split()[0]` on an empty `getent` output raises

  datatype Outcome = RebootRequired | Bootstrapped | Failed(fault: Fault)

  /** The names pinged, the steps taken, and how the run ended. */
  datatype Run = Run(probed: seq<string>, steps: seq<Step>, outcome: Outcome)

  function RenameCommand(name: string): Command
  {
    RunCommand(["hostnamectl", "set-hostname", name], true)
  }

  /** The steps `main` runs once the hostname is final, in order: upgrade,
      install, swarm, pull, launch. */
  predicate FollowsPipeline(steps: seq<Step>)
  {
    && |steps| == 5
    && steps[0] == UpgradeOs
    && steps[1] == InstallDocker
    && steps[2].InitOrJoinSwarm?
    && steps[3].PullMainInstaller?
    && steps[4].RunMainInstaller?
  }

  /** The part of `main` after the hostname check: `upgrade_os()`,
      `install_docker()`, `init_or_join_swarm()`, `pull_main_installer()`
      and `run_main_installer()`, in that order. The swarm step carries the
      host's role decision, the pull step its image decision. */
  function Proceed(host: Host): (run: Run)
    ensures run.probed == []
    ensures run.outcome != RebootRequired && run.outcome != Failed(NoNameAvailable)
    ensures |run.steps| >= 3 && run.steps[..2] == [UpgradeOs, InstallDocker]
    ensures run.steps[2] == InitOrJoinSwarm(Swarm.InitOrJoinSwarm(host.hostname, host.getentStdout, host.tokenStdout).commands)
    ensures run.outcome.Bootstrapped? ==> FollowsPipeline(run.steps)
    ensures run.outcome.Bootstrapped? ==>
      (Swarm.InitCommand in run.steps[2].commands <==> host.hostname == MasterName)
    ensures run.outcome.Bootstrapped? ==>
      run.steps[3] == PullMainInstaller(Workload.PullMainInstaller(host.imagesStdout))
    ensures run.outcome.Bootstrapped? ==>
      (Workload.PullCommand in run.steps[3].commands <==> !Contains(host.imagesStdout, Workload.LocalImage))
    ensures run.outcome.Bootstrapped? ==> run.steps[4] == RunMainInstaller(Workload.ServiceCreateCommand)
  {
    var swarm := Swarm.InitOrJoinSwarm(host.hostname, host.getentStdout, host.tokenStdout);
    var prepared := [UpgradeOs, InstallDocker, InitOrJoinSwarm(swarm.commands)];
    if !swarm.completed then
      Run([], prepared, Failed(MasterAddressMissing))
    else
      var launched := [
        PullMainInstaller(Workload.PullMainInstaller(host.imagesStdout)),
        RunMainInstaller(Workload.ServiceCreateCommand)];
      Run([], prepared + launched, Bootstrapped)
  }

  /** `main()` on the given host. */
  function Main(host: Host): (run: Run)
    ensures run.outcome == RebootRequired ==> |run.steps| == 1 && run.steps[0].SetHostname?
    ensures run.outcome != RebootRequired ==> forall k :: 0 <= k < |run.steps| ==> !run.steps[k].SetHostname?
    ensures run.outcome.Bootstrapped? ==> FollowsPipeline(run.steps)
  {
    var probed := if Conformant(host.hostname) then [] else ProbeOrder(WorkerPrefix, FirstOrdinal, LastOrdinal);
    var recommended := RecommendWithScan(host.hostname, host.reachable);
    if recommended != Some(host.hostname) then
      match recommended
      case None => Run(probed, [], Failed(NoNameAvailable))
      case Some(name) => Run(probed, [SetHostname(RenameCommand(name))], RebootRequired)
    else
      var rest := Proceed(host);
      Run(probed, rest.steps, rest.outcome)
  }

  /** `main` renames and stops exactly when the recommendation is a name other
      than the current one, and the rename is the only step. */
  lemma RenamesIffChanged(host: Host)
    ensures var r := RecommendWithScan(host.hostname, host.reachable);
      Main(host).outcome == RebootRequired <==> r.Some? && r.value != host.hostname
    ensures var r := RecommendWithScan(host.hostname, host.reachable);
      Main(host).outcome == RebootRequired ==> Main(host).steps == [SetHostname(RenameCommand(r.value))]
  {
  }

  /** As the installer composes it, a run renames exactly the non-conformant
      hosts, always to the coordinator name, and never fails for want of a
      free name; only those runs ping the network. */
  lemma RenamesIffNonConformant(host: Host)
    ensures Main(host).outcome == RebootRequired <==> !Conformant(host.hostname)
    ensures Main(host).outcome == RebootRequired ==> Main(host).steps == [SetHostname(RenameCommand(MasterName))]
    ensures Main(host).outcome != Failed(NoNameAvailable)
    ensures Main(host).probed != [] <==> !Conformant(host.hostname)
  {
    if !Conformant(host.hostname) {
      NonConformantAlwaysMaster(host.hostname, host.reachable);
    }
  }

  /** A conformant host goes through the pipeline; it stops after the swarm
      step, with no join issued, exactly when it is a member whose `getent`
      lookup printed nothing. */
  lemma ConformantProceeds(host: Host)
    requires Conformant(host.hostname)
    ensures Main(host) == Proceed(host)
    ensures Main(host).outcome == Failed(MasterAddressMissing) <==>
      host.hostname != MasterName && AllSpace(host.getentStdout)
    ensures Main(host).outcome == Failed(MasterAddressMissing) ==>
      Main(host).steps == [UpgradeOs, InstallDocker, InitOrJoinSwarm([Swarm.LookupCommand])]
    ensures Main(host).outcome.Bootstrapped? <==>
      host.hostname == MasterName || !AllSpace(host.getentStdout)
  {
  }

  /** After a rename, the next run with the new name proceeds: it neither
      renames again nor pings the network. */
  lemma RenameThenProceed(host: Host, rebooted: Host)
    requires Main(host).outcome == RebootRequired
    requires rebooted.hostname == Main(host).steps[0].command[3]
    ensures Main(rebooted).outcome != RebootRequired
    ensures Main(rebooted).probed == []
    ensures Main(rebooted).steps[..2] == [UpgradeOs, InstallDocker]
  {
    var r := RecommendWithScan(host.hostname, host.reachable);
    RenamesIffChanged(host);
    assert rebooted.hostname == r.value;
    RecommendIdempotent(host.hostname, Probed(WorkerPrefix, FirstOrdinal, LastOrdinal, host.reachable),
      Probed(WorkerPrefix, FirstOrdinal, LastOrdinal, rebooted.reachable));
  }
}
