/**
 * Concrete runs: a fresh node powering on into a fleet, a sixth worker, a
 * member with and without a coordinator to join, and the input
 * that shows the default scan overlooking a live coordinator.
 */
module Scenarios {
  import opened Wrappers
  import opened Text
  import opened Prober
  import opened Resolver
  import opened Bootstrap
  import Swarm

  const FreshHostname := "raspberrypi"

  lemma FreshHostnameNotConformant()
    ensures !Conformant(FreshHostname)
  {
    assert FreshHostname[0] != ConventionPrefix[0];
  }

  /** A fresh node on an empty network takes the coordinator name, renames,
      and stops for a reboot. */
  lemma FreshNodeOnEmptyNetwork(getent: string, token: string, images: string)
    ensures var host := Host(FreshHostname, (h: string) => false, getent, token, images);
      && Main(host).outcome == RebootRequired
      && Main(host).steps == [SetHostname(RenameCommand(MasterName))]
  {
    FreshHostnameNotConformant();
    RenamesIffNonConformant(Host(FreshHostname, (h: string) => false, getent, token, images));
  }

  /** With the coordinator and workers 1 to 5 among the peers, the next
      worker name is the sixth. */
  lemma SixthWorker()
    ensures RecommendName(FreshHostname,
      {MasterName, WorkerName(1), WorkerName(2), WorkerName(3), WorkerName(4), WorkerName(5)})
      == Some(WorkerName(6))
  {
    var peers := {MasterName, WorkerName(1), WorkerName(2), WorkerName(3), WorkerName(4), WorkerName(5)};
    FreshHostnameNotConformant();
    forall j | 1 <= j <= 5
      ensures WorkerName(j) != WorkerName(6)
    {
      NodeNameInjective(WorkerPrefix, j, 6);
    }
    assert WorkerName(6) != MasterName by {
      MasterNeverScanned(6, 6, (h: string) => true);
    }
    FirstFreeWorker(FreshHostname, peers, 6);
  }

  /** A member whose lookup of the coordinator prints nothing stops after the
      lookup: no token request, no join, no pull, no service. */
  lemma MemberWithoutCoordinator(reachable: string -> bool, token: string, images: string)
    ensures var host := Host(WorkerName(3), reachable, "", token, images);
      && Main(host).outcome == Failed(MasterAddressMissing)
      && Main(host).steps == [UpgradeOs, InstallDocker, InitOrJoinSwarm([Swarm.LookupCommand])]
  {
    var host := Host(WorkerName(3), reachable, "", token, images);
    assert WorkerName(3) != MasterName by {
      MasterNeverScanned(3, 3, (h: string) => true);
    }
    ConformantProceeds(host);
  }

  /** A worker whose lookup prints an address, whitespace and the
      coordinator's name joins that address on port 2377 with the token it
      was given, then pulls and launches. */
  lemma MemberJoinsCoordinator(k: int, reachable: string -> bool, ip: string, token: string, images: string)
    requires ip != [] && NoSpace(ip)
    requires token != [] && !IsSpace(token[0]) && !IsSpace(token[|token| - 1])
    ensures var host := Host(WorkerName(k), reachable, ip + " " + MasterName, token, images);
      && Main(host).outcome == Bootstrapped
      && Main(host).steps[2] == InitOrJoinSwarm([Swarm.LookupCommand, Swarm.TokenCommand,
           Swarm.JoinCommand(token, ip + Swarm.ManagerPort)])
  {
    var host := Host(WorkerName(k), reachable, ip + " " + MasterName, token, images);
    MemberJoinPhase(k, ip, token);
    ConformantKept(host.hostname, Probed(WorkerPrefix, FirstOrdinal, LastOrdinal, reachable));
    assert Main(host) == Proceed(host);
  }

  lemma MemberJoinPhase(k: int, ip: string, token: string)
    requires ip != [] && NoSpace(ip)
    requires token != [] && !IsSpace(token[0]) && !IsSpace(token[|token| - 1])
    ensures Swarm.InitOrJoinSwarm(WorkerName(k), ip + " " + MasterName, token)
      == Swarm.Phase([Swarm.LookupCommand, Swarm.TokenCommand, Swarm.JoinCommand(token, ip + Swarm.ManagerPort)], true)
  {
    var getent := ip + " " + MasterName;
    assert getent == ip + (" " + MasterName);
    Swarm.AddressBeforeSpace(ip, " " + MasterName);
    StripUnchanged(token);
    assert WorkerName(k) != MasterName by {
      MasterNeverScanned(k, k, (h: string) => true);
    }
  }

  /** Every name answers, the coordinator included: the installer's scan
      still hands out the coordinator name, while the scan that also pings
      the coordinator finds all names taken. */
  lemma LiveCoordinatorOverlooked()
    ensures RecommendWithScan(FreshHostname, (h: string) => true) == Some(MasterName)
    ensures RecommendWithFullScan(FreshHostname, (h: string) => true) == None
  {
    var everyone := (h: string) => true;
    FreshHostnameNotConformant();
    NonConformantAlwaysMaster(FreshHostname, everyone);
    var peers := DiscoverPeers(everyone);
    forall j | FirstOrdinal <= j <= LastOrdinal
      ensures WorkerName(j) in peers
    {
      assert WorkerName(j) in Probed(WorkerPrefix, FirstOrdinal, LastOrdinal, everyone);
    }
    NoneIffFull(FreshHostname, peers);
  }
}
