/**
 * The data-center fabric: planes of spine switches, and pods holding fabric switches and racks,
 * each rack a top-of-rack switch (ToR) with its hosts. Links are stored with the level they join.
 * `Nodes` and `Links` fix the enumeration order every other component relies on.
 */
module Fabric {
  import opened Net

  /** The capacity of a pod, in racks. */
  const NR_RACKS_PER_POD: nat := 48

  datatype Rack = Rack(tor: Node, hosts: seq<Node>, host2tor: seq<Link>)

  datatype Pod = Pod(fabs: seq<Node>, racks: seq<Rack>, tor2fab: seq<Link>)

  /** A plane is the sequence of its spine switches. */
  datatype Cluster = Cluster(planes: seq<seq<Node>>, pods: seq<Pod>, fab2spine: seq<Link>)

  function NrPods(c: Cluster): nat { |c.pods| }

  /** The number of racks of the first pod, or 0 when there is no pod. */
  function NrTorsPerPod(c: Cluster): nat { if c.pods == [] then 0 else |c.pods[0].racks| }

  // ---------------------------------------------------------------- enumeration order

  /** Every spine, plane by plane. */
  function PlaneNodes(planes: seq<seq<Node>>): seq<Node>
  {
    if planes == [] then [] else PlaneNodes(planes[..|planes| - 1]) + planes[|planes| - 1]
  }

  /** A rack's ToR, then its hosts. */
  function RackNodes(r: Rack): seq<Node> { [r.tor] + r.hosts }

  function RacksNodes(racks: seq<Rack>): seq<Node>
  {
    if racks == [] then [] else RacksNodes(racks[..|racks| - 1]) + RackNodes(racks[|racks| - 1])
  }

  /** A pod's fabric switches, then each of its racks' nodes. */
  function PodNodes(p: Pod): seq<Node> { p.fabs + RacksNodes(p.racks) }

  function PodsNodes(pods: seq<Pod>): seq<Node>
  {
    if pods == [] then [] else PodsNodes(pods[..|pods| - 1]) + PodNodes(pods[|pods| - 1])
  }

  /** `nodes()`: the spines plane by plane, then every pod's nodes in pod order. */
  function Nodes(c: Cluster): seq<Node> { PlaneNodes(c.planes) + PodsNodes(c.pods) }

  function RacksLinks(racks: seq<Rack>): seq<Link>
  {
    if racks == [] then [] else RacksLinks(racks[..|racks| - 1]) + racks[|racks| - 1].host2tor
  }

  /** A pod's ToR-to-fabric links, then each rack's host-to-ToR links. */
  function PodLinks(p: Pod): seq<Link> { p.tor2fab + RacksLinks(p.racks) }

  function PodsLinks(pods: seq<Pod>): seq<Link>
  {
    if pods == [] then [] else PodsLinks(pods[..|pods| - 1]) + PodLinks(pods[|pods| - 1])
  }

  /** `links()`: the fabric-to-spine links, then every pod's links in pod order. */
  function Links(c: Cluster): seq<Link> { c.fab2spine + PodsLinks(c.pods) }

  // ---------------------------------------------------------------- counting

  function SumPlaneSizes(planes: seq<seq<Node>>): nat
  {
    if planes == [] then 0 else |planes[0]| + SumPlaneSizes(planes[1..])
  }

  /** One ToR plus the hosts, for every rack. */
  function RacksSize(racks: seq<Rack>): nat
  {
    if racks == [] then 0 else 1 + |racks[0].hosts| + RacksSize(racks[1..])
  }

  function PodsSize(pods: seq<Pod>): nat
  {
    if pods == [] then 0 else |pods[0].fabs| + RacksSize(pods[0].racks) + PodsSize(pods[1..])
  }

  function SumLinks(pods: seq<Pod>): nat
  {
    if pods == [] then 0
    else |pods[0].tor2fab| + SumRackLinks(pods[0].racks) + SumLinks(pods[1..])
  }

  function SumRackLinks(racks: seq<Rack>): nat
  {
    if racks == [] then 0 else |racks[0].host2tor| + SumRackLinks(racks[1..])
  }

  /**
   * The enumeration visits every node once: the sum of the plane sizes plus, for every pod, its
   * fabric switches and one ToR and the hosts for every rack.
   */
  lemma NodeCount(c: Cluster)
    ensures |Nodes(c)| == SumPlaneSizes(c.planes) + PodsSize(c.pods)
  {
    PlaneNodesCount(c.planes);
    PodsNodesCount(c.pods);
  }

  /** The enumeration visits every link once, level by level. */
  lemma LinkCount(c: Cluster)
    ensures |Links(c)| == |c.fab2spine| + SumLinks(c.pods)
  {
    PodsLinksCount(c.pods);
  }

  // The counts are defined front to back and the enumerations back to front, so these
  // lemmas move one pod, rack or plane from the front to the back of the sum.

  lemma {:induction false} PlaneNodesCount(planes: seq<seq<Node>>)
    ensures |PlaneNodes(planes)| == SumPlaneSizes(planes)
    decreases |planes|
  {
    if planes != [] {
      var n := |planes| - 1;
      PlaneNodesCount(planes[..n]);
      SumPlaneSizesSnoc(planes[..n], planes[n]);
      assert planes[..n] + [planes[n]] == planes;
    }
  }

  lemma {:induction false} SumPlaneSizesSnoc(planes: seq<seq<Node>>, pl: seq<Node>)
    ensures SumPlaneSizes(planes + [pl]) == SumPlaneSizes(planes) + |pl|
    decreases |planes|
  {
    if planes != [] {
      assert (planes + [pl])[1..] == planes[1..] + [pl];
      SumPlaneSizesSnoc(planes[1..], pl);
    }
  }

  lemma {:induction false} RacksNodesCount(racks: seq<Rack>)
    ensures |RacksNodes(racks)| == RacksSize(racks)
    decreases |racks|
  {
    if racks != [] {
      var n := |racks| - 1;
      RacksNodesCount(racks[..n]);
      RacksSizeSnoc(racks[..n], racks[n]);
      assert racks[..n] + [racks[n]] == racks;
    }
  }

  lemma {:induction false} RacksSizeSnoc(racks: seq<Rack>, r: Rack)
    ensures RacksSize(racks + [r]) == RacksSize(racks) + 1 + |r.hosts|
    decreases |racks|
  {
    if racks != [] {
      assert (racks + [r])[1..] == racks[1..] + [r];
      RacksSizeSnoc(racks[1..], r);
    }
  }

  lemma {:induction false} PodsNodesCount(pods: seq<Pod>)
    ensures |PodsNodes(pods)| == PodsSize(pods)
    decreases |pods|
  {
    if pods != [] {
      var n := |pods| - 1;
      PodsNodesCount(pods[..n]);
      RacksNodesCount(pods[n].racks);
      PodsSizeSnoc(pods[..n], pods[n]);
      assert pods[..n] + [pods[n]] == pods;
    }
  }

  lemma {:induction false} PodsSizeSnoc(pods: seq<Pod>, p: Pod)
    ensures PodsSize(pods + [p]) == PodsSize(pods) + |p.fabs| + RacksSize(p.racks)
    decreases |pods|
  {
    if pods != [] {
      assert (pods + [p])[1..] == pods[1..] + [p];
      PodsSizeSnoc(pods[1..], p);
    }
  }

  lemma {:induction false} RacksLinksCount(racks: seq<Rack>)
    ensures |RacksLinks(racks)| == SumRackLinks(racks)
    decreases |racks|
  {
    if racks != [] {
      var n := |racks| - 1;
      RacksLinksCount(racks[..n]);
      SumRackLinksSnoc(racks[..n], racks[n]);
      assert racks[..n] + [racks[n]] == racks;
    }
  }

  lemma {:induction false} SumRackLinksSnoc(racks: seq<Rack>, r: Rack)
    ensures SumRackLinks(racks + [r]) == SumRackLinks(racks) + |r.host2tor|
    decreases |racks|
  {
    if racks != [] {
      assert (racks + [r])[1..] == racks[1..] + [r];
      SumRackLinksSnoc(racks[1..], r);
    }
  }

  lemma {:induction false} PodsLinksCount(pods: seq<Pod>)
    ensures |PodsLinks(pods)| == SumLinks(pods)
    decreases |pods|
  {
    if pods != [] {
      var n := |pods| - 1;
      PodsLinksCount(pods[..n]);
      RacksLinksCount(pods[n].racks);
      SumLinksSnoc(pods[..n], pods[n]);
      assert pods[..n] + [pods[n]] == pods;
    }
  }

  lemma {:induction false} SumLinksSnoc(pods: seq<Pod>, p: Pod)
    ensures SumLinks(pods + [p]) == SumLinks(pods) + |p.tor2fab| + SumRackLinks(p.racks)
    decreases |pods|
  {
    if pods != [] {
      assert (pods + [p])[1..] == pods[1..] + [p];
      SumLinksSnoc(pods[1..], p);
    }
  }
}
