/**
 * The identity resolver (`recommend_name`). The peer set is a parameter;
 * `RecommendWithScan` composes it with the default scan, which is what the
 * installer actually runs.
 */
module Resolver {
  import opened Wrappers
  import opened Text
  import opened Decimal
  import opened Prober

  /** The prefix every hostname of the fleet carries. */
  const ConventionPrefix := "dins-"
  /** The reserved coordinator name. */
  const MasterName := "dins-master"
  /** The prefix of worker names, followed by a two-digit ordinal. */
  const WorkerPrefix := "dins-node"
  /** Worker ordinals run from 1 to 99. */
  const FirstOrdinal := 1
  const LastOrdinal := 99

  /** The only conformance test the installer makes: `startswith("dins-")`. */
  predicate Conformant(hostname: string)
  {
    StartsWith(hostname, ConventionPrefix)
  }

  function WorkerName(k: int): string
  {
    NodeName(WorkerPrefix, k)
  }

  /** The smallest ordinal in `from..99` whose worker name is not taken. */
  function FirstFreeOrdinal(peers: set<string>, from: int): (r: Option<int>)
    ensures r.Some? ==> from <= r.value <= LastOrdinal && WorkerName(r.value) !in peers
    ensures r.Some? ==> forall j :: from <= j < r.value ==> WorkerName(j) in peers
    ensures r.None? <==> forall j :: from <= j <= LastOrdinal ==> WorkerName(j) in peers
    decreases LastOrdinal + 1 - from
  {
    if from > LastOrdinal then None
    else if WorkerName(from) !in peers then Some(from)
    else FirstFreeOrdinal(peers, from + 1)
  }

  /** `recommend_name(current_hostname)` with the scanned peers passed in. */
  function RecommendName(current: string, peers: set<string>): (r: Option<string>)
    ensures r.Some? ==> Conformant(r.value)
    ensures r.Some? && r.value != current ==> r.value !in peers
  {
    if Conformant(current) then Some(current)
    else if MasterName !in peers then Some(MasterName)
    else match FirstFreeOrdinal(peers, FirstOrdinal)
      case Some(k) => Some(WorkerName(k))
      case None => None
  }

  /** A conformant hostname is kept, whatever the peers are. */
  lemma ConformantKept(current: string, peers: set<string>)
    requires Conformant(current)
    ensures RecommendName(current, peers) == Some(current)
  {
  }

  /** With no coordinator among the peers, a non-conformant node becomes the
      coordinator, whichever worker names are taken. */
  lemma MasterWhenAbsent(current: string, peers: set<string>)
    requires !Conformant(current) && MasterName !in peers
    ensures RecommendName(current, peers) == Some(MasterName)
  {
  }

  /** With the coordinator present, a non-conformant node gets the worker
      name of the smallest free ordinal in 1..99. */
  lemma FirstFreeWorker(current: string, peers: set<string>, k: int)
    requires !Conformant(current) && MasterName in peers
    requires FirstOrdinal <= k <= LastOrdinal && WorkerName(k) !in peers
    requires forall j :: FirstOrdinal <= j < k ==> WorkerName(j) in peers
    ensures RecommendName(current, peers) == Some(WorkerName(k))
  {
    var r := FirstFreeOrdinal(peers, FirstOrdinal);
    assert r.Some?;
  }

  /** Resolution fails exactly when the coordinator and all 99 worker names
      are taken (and the hostname is not already conformant). */
  lemma NoneIffFull(current: string, peers: set<string>)
    ensures RecommendName(current, peers).None? <==>
      && !Conformant(current)
      && MasterName in peers
      && forall j :: FirstOrdinal <= j <= LastOrdinal ==> WorkerName(j) in peers
  {
  }

  /** Resolving a recommendation again keeps it, against any peer set. */
  lemma RecommendIdempotent(current: string, peers: set<string>, later: set<string>)
    requires RecommendName(current, peers).Some?
    ensures RecommendName(RecommendName(current, peers).value, later) == RecommendName(current, peers)
  {
  }

  /** `recommend_name` as the installer runs it: the peers come from the
      default scan, `scan_network_for()` over `dins-node01`..`dins-node99`. */
  function RecommendWithScan(current: string, reachable: string -> bool): Option<string>
  {
    RecommendName(current, Probed(WorkerPrefix, FirstOrdinal, LastOrdinal, reachable))
  }

  /** A scan under the worker prefix never reports the coordinator name. */
  lemma MasterNeverScanned(start: int, end: int, reachable: string -> bool)
    ensures MasterName !in Probed(WorkerPrefix, start, end, reachable)
  {
    forall i | start <= i <= end
      ensures NodeName(WorkerPrefix, i) != MasterName
    {
      assert NodeName(WorkerPrefix, i)[5] == 'n' != MasterName[5];
    }
  }

  /** As composed in the installer, every non-conformant hostname resolves to
      the coordinator name, even when a coordinator answers on the network. */
  lemma NonConformantAlwaysMaster(current: string, reachable: string -> bool)
    requires !Conformant(current)
    ensures RecommendWithScan(current, reachable) == Some(MasterName)
  {
    MasterNeverScanned(FirstOrdinal, LastOrdinal, reachable);
  }

  /** The peers a scan that also pings the coordinator name would see. */
  function DiscoverPeers(reachable: string -> bool): set<string>
  {
    Probed(WorkerPrefix, FirstOrdinal, LastOrdinal, reachable)
      + (if reachable(MasterName) then {MasterName} else {})
  }

  /** Resolution against the peers of a scan that includes the coordinator name. */
  function RecommendWithFullScan(current: string, reachable: string -> bool): Option<string>
  {
    RecommendName(current, DiscoverPeers(reachable))
  }

  /** With the coordinator name probed too, a new name is never one that
      answered during the scan. */
  lemma FullScanAvoidsReachable(current: string, reachable: string -> bool)
    ensures var r := RecommendWithFullScan(current, reachable);
      r.Some? && r.value != current ==> !reachable(r.value)
  {
    var f := FirstFreeOrdinal(DiscoverPeers(reachable), FirstOrdinal);
    if f.Some? {
      var name := WorkerName(f.value);
      assert reachable(name) ==> name in Probed(WorkerPrefix, FirstOrdinal, LastOrdinal, reachable);
    }
  }
}
