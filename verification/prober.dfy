/**
 * The peer prober (`scan_network_for`): for each ordinal of an inclusive
 * range it synthesizes `prefix + f"{i:02d}"`, pings that name once and keeps
 * the names that answered. The ping outcome is an input, `reachable`: the
 * answer each name would give during this one pass.
 */
module Prober {
  import opened Text
  import opened Decimal

  /** `f"{prefix}{i:02d}"` */
  function NodeName(prefix: string, i: int): string
  {
    prefix + Pad2(i)
  }

  /** Every node name carries the prefix it was built from, followed by at
      least two characters. */
  lemma NodeNameHasPrefix(prefix: string, i: int)
    ensures StartsWith(NodeName(prefix, i), prefix)
    ensures |NodeName(prefix, i)| >= |prefix| + 2
  {
    assert NodeName(prefix, i)[..|prefix|] == prefix;
  }

  /** Under one prefix, distinct ordinals give distinct names. */
  lemma NodeNameInjective(prefix: string, i: int, j: int)
    ensures NodeName(prefix, i) == NodeName(prefix, j) ==> i == j
  {
    if NodeName(prefix, i) == NodeName(prefix, j) {
      assert Pad2(i) == NodeName(prefix, i)[|prefix|..];
      assert Pad2(j) == NodeName(prefix, j)[|prefix|..];
      Pad2Injective(i, j);
    }
  }

  /** Every name the scan may ping: `range(start, end + 1)`, so `end` is included. */
  function Candidates(prefix: string, start: int, end: int): set<string>
  {
    set i | start <= i <= end :: NodeName(prefix, i)
  }

  /** The names of the range that answer. */
  function Probed(prefix: string, start: int, end: int, reachable: string -> bool): set<string>
  {
    set i | start <= i <= end && reachable(NodeName(prefix, i)) :: NodeName(prefix, i)
  }

  /** The names pinged, in the order the scan pings them. */
  function ProbeOrder(prefix: string, start: int, end: int): seq<string>
  {
    seq(if start <= end then end - start + 1 else 0, k => NodeName(prefix, start + k))
  }

  /** `scan_network_for(prefix, start, end)`. */
  method ScanNetworkFor(prefix: string, start: int, end: int, reachable: string -> bool)
    returns (found: set<string>)
    ensures found == Probed(prefix, start, end, reachable)
  {
    found := {};
    var i := start;
    while i <= end
      invariant start <= i <= if start <= end then end + 1 else start
      invariant found == Probed(prefix, start, i - 1, reachable)
    {
      var host := NodeName(prefix, i);
      if reachable(host) {
        found := found + {host};
      }
      i := i + 1;
    }
    if start > end {
      ProbedEmpty(prefix, start, i - 1, reachable);
      ProbedEmpty(prefix, start, end, reachable);
    }
  }

  /** An empty range answers nothing. */
  lemma ProbedEmpty(prefix: string, start: int, end: int, reachable: string -> bool)
    requires end < start
    ensures Probed(prefix, start, end, reachable) == {}
  {
  }

  /** The scan returns exactly the candidates that answered: nothing outside
      the range, and nothing that did not answer. */
  lemma ProbedIsReachableCandidates(prefix: string, start: int, end: int, reachable: string -> bool)
    ensures Probed(prefix, start, end, reachable) <= Candidates(prefix, start, end)
    ensures forall h :: h in Probed(prefix, start, end, reachable) <==> h in Candidates(prefix, start, end) && reachable(h)
  {
  }

  /** No name is pinged twice in one scan. */
  lemma ProbeOrderDistinct(prefix: string, start: int, end: int)
    ensures forall j, k :: 0 <= j < k < |ProbeOrder(prefix, start, end)| ==>
      ProbeOrder(prefix, start, end)[j] != ProbeOrder(prefix, start, end)[k]
  {
    forall j, k | 0 <= j < k < |ProbeOrder(prefix, start, end)|
      ensures ProbeOrder(prefix, start, end)[j] != ProbeOrder(prefix, start, end)[k]
    {
      NodeNameInjective(prefix, start + j, start + k);
    }
  }

  /** The scan pings exactly the candidates. */
  lemma ProbeOrderCoversCandidates(prefix: string, start: int, end: int)
    ensures forall h :: h in ProbeOrder(prefix, start, end) <==> h in Candidates(prefix, start, end)
  {
    var order := ProbeOrder(prefix, start, end);
    forall h | h in Candidates(prefix, start, end)
      ensures h in order
    {
      var i :| start <= i <= end && h == NodeName(prefix, i);
      assert order[i - start] == h;
    }
    forall h | h in order
      ensures h in Candidates(prefix, start, end)
    {
      var k :| 0 <= k < |order| && order[k] == h;
      assert h == NodeName(prefix, start + k);
    }
  }
}
