/**
 * Shape accessors of a cluster and `contiguousify`, which renumbers every node so that hosts, then
 * ToRs, then fabric switches, then spines take consecutive ids from 0, and rewrites every link
 * endpoint through the same old-to-new map.
 */
module FabricCluster {
  import opened Wrappers
  import opened Net
  import opened Fabric

  // ---------------------------------------------------------------- accessors

  /** The first pod's fabric switch count, or 0 when there is no pod. */
  function NrFabsPerPod(c: Cluster): nat { if c.pods == [] then 0 else |c.pods[0].fabs| }

  /** The first plane's spine count, or 0 when there is no plane. */
  function NrSpinesPerPlane(c: Cluster): nat { if c.planes == [] then 0 else |c.planes[0]| }

  /** The host count of a pod's first rack, or 0 when the pod has no rack. */
  function PodNrHostsPerRack(p: Pod): nat { if p.racks == [] then 0 else |p.racks[0].hosts| }

  function NrHostsPerRack(c: Cluster): nat
  {
    if c.pods == [] then 0 else PodNrHostsPerRack(c.pods[0])
  }

  /** The id of a pod's first ToR, or 0 when the pod has no rack. */
  function PodTorBase(p: Pod): nat { if p.racks == [] then 0 else p.racks[0].tor.id }

  function TorBase(c: Cluster): nat { if c.pods == [] then 0 else PodTorBase(c.pods[0]) }

  /** The id of a pod's first fabric switch, or 0 when it has none. */
  function PodFabricBase(p: Pod): nat { if p.fabs == [] then 0 else p.fabs[0].id }

  function FabricBase(c: Cluster): nat { if c.pods == [] then 0 else PodFabricBase(c.pods[0]) }

  /** The id of the first plane's first spine, or 0 when there is none. */
  function SpineBase(c: Cluster): nat
  {
    if c.planes == [] || c.planes[0] == [] then 0 else c.planes[0][0].id
  }

  /** Every plane, pod and rack has the size the accessors read off the first one. */
  ghost predicate Symmetric(c: Cluster) {
    && (forall i | 0 <= i < |c.planes| :: |c.planes[i]| == NrSpinesPerPlane(c))
    && (forall p | 0 <= p < |c.pods| :: |c.pods[p].fabs| == NrFabsPerPod(c)
                                       && |c.pods[p].racks| == NrTorsPerPod(c))
    && (forall p, k | 0 <= p < |c.pods| && 0 <= k < |c.pods[p].racks| ::
          |c.pods[p].racks[k].hosts| == NrHostsPerRack(c))
  }

  /**
   * On a symmetric cluster the accessors describe the whole fabric: it has
   * planes × spines + pods × (fabs + ToRs × (1 + hosts)) nodes.
   */
  lemma SymmetricNodeCount(c: Cluster)
    requires Symmetric(c)
    ensures |Nodes(c)| == |c.planes| * NrSpinesPerPlane(c)
                          + NrPods(c) * (NrFabsPerPod(c) + NrTorsPerPod(c) * (1 + NrHostsPerRack(c)))
  {
    NodeCount(c);
    SymmetricPlanes(c.planes, NrSpinesPerPlane(c));
    SymmetricPods(c.pods, NrFabsPerPod(c), NrTorsPerPod(c), NrHostsPerRack(c));
  }

  lemma {:induction false} SymmetricPlanes(planes: seq<seq<Node>>, s: nat)
    requires forall i | 0 <= i < |planes| :: |planes[i]| == s
    ensures SumPlaneSizes(planes) == |planes| * s
    decreases |planes|
  {
    if planes != [] {
      SymmetricPlanes(planes[1..], s);
    }
  }

  lemma {:induction false} SymmetricRacks(racks: seq<Rack>, h: nat)
    requires forall k | 0 <= k < |racks| :: |racks[k].hosts| == h
    ensures RacksSize(racks) == |racks| * (1 + h)
    decreases |racks|
  {
    if racks != [] {
      SymmetricRacks(racks[1..], h);
    }
  }

  lemma {:induction false} SymmetricPods(pods: seq<Pod>, f: nat, r: nat, h: nat)
    requires forall p | 0 <= p < |pods| :: |pods[p].fabs| == f && |pods[p].racks| == r
    requires forall p, k | 0 <= p < |pods| && 0 <= k < |pods[p].racks| :: |pods[p].racks[k].hosts| == h
    ensures PodsSize(pods) == |pods| * (f + r * (1 + h))
    decreases |pods|
  {
    if pods != [] {
      SymmetricRacks(pods[0].racks, h);
      SymmetricPods(pods[1..], f, r, h);
    }
  }

  /** `nodes()` seen from the front: the spines, then the first pod's nodes, then the other pods'. */
  lemma NodesOrder(c: Cluster)
    requires c.pods != []
    ensures Nodes(c) == PlaneNodes(c.planes) + c.pods[0].fabs + RacksNodes(c.pods[0].racks)
                        + PodsNodes(c.pods[1..])
  {
    PodsNodesCons(c.pods);
  }

  lemma {:induction false} PodsNodesCons(pods: seq<Pod>)
    requires pods != []
    ensures PodsNodes(pods) == PodNodes(pods[0]) + PodsNodes(pods[1..])
    decreases |pods|
  {
    var n := |pods| - 1;
    if n > 0 {
      PodsNodesCons(pods[..n]);
      assert pods[..n][1..] == pods[1..][..n - 1];
      assert pods[..n][0] == pods[0];
    }
  }

  /** `links()` seen from the front: fabric-to-spine links, the first pod's links, the other pods'. */
  lemma LinksOrder(c: Cluster)
    requires c.pods != []
    ensures Links(c) == c.fab2spine + c.pods[0].tor2fab + RacksLinks(c.pods[0].racks)
                        + PodsLinks(c.pods[1..])
  {
    PodsLinksCons(c.pods);
  }

  lemma {:induction false} PodsLinksCons(pods: seq<Pod>)
    requires pods != []
    ensures PodsLinks(pods) == PodLinks(pods[0]) + PodsLinks(pods[1..])
    decreases |pods|
  {
    var n := |pods| - 1;
    if n > 0 {
      PodsLinksCons(pods[..n]);
      assert pods[..n][1..] == pods[1..][..n - 1];
      assert pods[..n][0] == pods[0];
    }
  }

  // ---------------------------------------------------------------- the canonical order

  function RacksHosts(racks: seq<Rack>): seq<Node>
  {
    if racks == [] then [] else RacksHosts(racks[..|racks| - 1]) + racks[|racks| - 1].hosts
  }

  function RacksTors(racks: seq<Rack>): seq<Node>
  {
    if racks == [] then [] else RacksTors(racks[..|racks| - 1]) + [racks[|racks| - 1].tor]
  }

  /** Every host, pod by pod and rack by rack. */
  function Hosts(pods: seq<Pod>): seq<Node>
  {
    if pods == [] then [] else Hosts(pods[..|pods| - 1]) + RacksHosts(pods[|pods| - 1].racks)
  }

  /** Every ToR, pod by pod. */
  function Tors(pods: seq<Pod>): seq<Node>
  {
    if pods == [] then [] else Tors(pods[..|pods| - 1]) + RacksTors(pods[|pods| - 1].racks)
  }

  /** Every fabric switch, pod by pod. */
  function Fabs(pods: seq<Pod>): seq<Node>
  {
    if pods == [] then [] else Fabs(pods[..|pods| - 1]) + pods[|pods| - 1].fabs
  }

  /** The order `contiguousify` numbers nodes in: hosts, ToRs, fabric switches, spines. */
  function CanonOrder(c: Cluster): seq<Node>
  {
    Hosts(c.pods) + Tors(c.pods) + Fabs(c.pods) + PlaneNodes(c.planes)
  }

  /**
   * The map from each node's id to its position: `enumerate().map(..).collect()` into a hash
   * map, where a repeated id keeps the position of its last occurrence.
   */
  function Old2New(order: seq<Node>): map<nat, nat>
  {
    if order == [] then map[]
    else Old2New(order[..|order| - 1])[order[|order| - 1].id := |order| - 1]
  }

  /** No two nodes share an id. */
  ghost predicate DistinctIds(ns: seq<Node>) {
    forall i, j | 0 <= i < j < |ns| :: ns[i].id != ns[j].id
  }

  /** The ids of the nodes of `ns`. */
  ghost function IdSet(ns: seq<Node>): set<nat> { set n | n in ns :: n.id }

  /** A cluster is contiguous when each node's id is its position in the canonical order. */
  ghost predicate Contiguous(c: Cluster) {
    forall i | 0 <= i < |CanonOrder(c)| :: CanonOrder(c)[i].id == i
  }

  /** Every link endpoint is the id of one of the cluster's nodes. */
  ghost predicate EndpointsAreNodes(c: Cluster) {
    forall i | 0 <= i < |Links(c)| :: Links(c)[i].a in IdSet(Nodes(c)) && Links(c)[i].b in IdSet(Nodes(c))
  }

  // ---------------------------------------------------------------- renaming

  ghost predicate Covers(m: map<nat, nat>, ns: seq<Node>) {
    forall i | 0 <= i < |ns| :: ns[i].id in m
  }

  ghost predicate LinksKnown(m: map<nat, nat>, ls: seq<Link>) {
    forall i | 0 <= i < |ls| :: ls[i].a in m && ls[i].b in m
  }

  ghost predicate RackKnown(m: map<nat, nat>, r: Rack) {
    r.tor.id in m && Covers(m, r.hosts) && LinksKnown(m, r.host2tor)
  }

  ghost predicate PodKnown(m: map<nat, nat>, p: Pod) {
    && Covers(m, p.fabs)
    && (forall k | 0 <= k < |p.racks| :: RackKnown(m, p.racks[k]))
    && LinksKnown(m, p.tor2fab)
  }

  /** Every node id and link endpoint stored anywhere in `c` is a key of `m`. */
  ghost predicate ClusterKnown(m: map<nat, nat>, c: Cluster) {
    && (forall i | 0 <= i < |c.planes| :: Covers(m, c.planes[i]))
    && (forall p | 0 <= p < |c.pods| :: PodKnown(m, c.pods[p]))
    && LinksKnown(m, c.fab2spine)
  }

  function RenameNode(n: Node, m: map<nat, nat>): Node
    requires n.id in m
  {
    n.(id := m[n.id])
  }

  function RenameNodes(ns: seq<Node>, m: map<nat, nat>): (r: seq<Node>)
    requires Covers(m, ns)
  {
    seq(|ns|, i requires 0 <= i < |ns| => RenameNode(ns[i], m))
  }

  function RenameLink(l: Link, m: map<nat, nat>): Link
    requires l.a in m && l.b in m
  {
    l.(a := m[l.a], b := m[l.b])
  }

  function RenameLinks(ls: seq<Link>, m: map<nat, nat>): seq<Link>
    requires LinksKnown(m, ls)
  {
    seq(|ls|, i requires 0 <= i < |ls| => RenameLink(ls[i], m))
  }

  function RenameRack(r: Rack, m: map<nat, nat>): Rack
    requires RackKnown(m, r)
  {
    Rack(RenameNode(r.tor, m), RenameNodes(r.hosts, m), RenameLinks(r.host2tor, m))
  }

  function RenameRacks(racks: seq<Rack>, m: map<nat, nat>): seq<Rack>
    requires forall k | 0 <= k < |racks| :: RackKnown(m, racks[k])
  {
    seq(|racks|, k requires 0 <= k < |racks| => RenameRack(racks[k], m))
  }

  function RenamePod(p: Pod, m: map<nat, nat>): Pod
    requires PodKnown(m, p)
  {
    Pod(RenameNodes(p.fabs, m), RenameRacks(p.racks, m), RenameLinks(p.tor2fab, m))
  }

  function RenamePods(pods: seq<Pod>, m: map<nat, nat>): seq<Pod>
    requires forall p | 0 <= p < |pods| :: PodKnown(m, pods[p])
  {
    seq(|pods|, p requires 0 <= p < |pods| => RenamePod(pods[p], m))
  }

  function RenamePlanes(planes: seq<seq<Node>>, m: map<nat, nat>): seq<seq<Node>>
    requires forall i | 0 <= i < |planes| :: Covers(m, planes[i])
  {
    seq(|planes|, i requires 0 <= i < |planes| => RenameNodes(planes[i], m))
  }

  /** `c` with every node id and link endpoint sent through `m`. */
  function Renamed(c: Cluster, m: map<nat, nat>): Cluster
    requires ClusterKnown(m, c)
  {
    Cluster(RenamePlanes(c.planes, m), RenamePods(c.pods, m), RenameLinks(c.fab2spine, m))
  }

  // ---------------------------------------------------------------- contiguousify

  /**
   * `contiguousify`: collect the nodes in canonical order, number them, and rename every node and
   * link endpoint. `None` stands for the panic of a lookup of an id that is not in the map.
   */
  method Contiguousify(c: Cluster) returns (r: Option<Cluster>)
    ensures r.Some? <==> ClusterKnown(Old2New(CanonOrder(c)), c)
    ensures r.Some? ==> r.value == Renamed(c, Old2New(CanonOrder(c)))
  {
    var hosts, tors, fabs := CollectTiers(c.pods);
    var spines := CollectSpines(c.planes);
    var old2new := Number(hosts + tors + fabs + spines);
    var planes := RenamePlanesIn(c.planes, old2new);
    if planes.None? {
      return None;
    }
    var pods := RenamePodsIn(c.pods, old2new);
    if pods.None? {
      return None;
    }
    var fab2spine := RenameLinkSeq(c.fab2spine, old2new);
    if fab2spine.None? {
      return None;
    }
    r := Some(Cluster(planes.value, pods.value, fab2spine.value));
  }

  /** The nested loops over pods and racks that gather the hosts, ToRs and fabric switches. */
  method CollectTiers(pods: seq<Pod>) returns (hosts: seq<Node>, tors: seq<Node>, fabs: seq<Node>)
    ensures hosts == Hosts(pods) && tors == Tors(pods) && fabs == Fabs(pods)
  {
    fabs, tors, hosts := [], [], [];
    for p := 0 to |pods|
      invariant fabs == Fabs(pods[..p])
      invariant tors == Tors(pods[..p])
      invariant hosts == Hosts(pods[..p])
    {
      assert pods[..p + 1][..p] == pods[..p];
      fabs := AppendEach(fabs, pods[p].fabs);
      tors, hosts := AppendRacks(tors, hosts, pods[p].racks);
    }
    assert pods[..|pods|] == pods;
  }

  /** The loop over one pod's racks: each rack's ToR, then its hosts, appended in order. */
  method AppendRacks(tors0: seq<Node>, hosts0: seq<Node>, racks: seq<Rack>) returns (tors: seq<Node>, hosts: seq<Node>)
    ensures tors == tors0 + RacksTors(racks) && hosts == hosts0 + RacksHosts(racks)
  {
    tors, hosts := tors0, hosts0;
    for k := 0 to |racks|
      invariant tors == tors0 + RacksTors(racks[..k])
      invariant hosts == hosts0 + RacksHosts(racks[..k])
    {
      assert racks[..k + 1][..k] == racks[..k];
      tors := tors + [racks[k].tor];
      hosts := AppendEach(hosts, racks[k].hosts);
    }
    assert racks[..|racks|] == racks;
  }

  /** The innermost loops: the nodes of `ys` pushed one at a time onto `xs`. */
  method AppendEach(xs: seq<Node>, ys: seq<Node>) returns (zs: seq<Node>)
    ensures zs == xs + ys
  {
    zs := xs;
    for i := 0 to |ys|
      invariant zs == xs + ys[..i]
    {
      zs := zs + [ys[i]];
      assert ys[..i + 1] == ys[..i] + [ys[i]];
    }
    assert ys[..|ys|] == ys;
  }

  /** The spines, plane by plane. */
  method CollectSpines(planes: seq<seq<Node>>) returns (spines: seq<Node>)
    ensures spines == PlaneNodes(planes)
  {
    spines := [];
    for i := 0 to |planes|
      invariant spines == PlaneNodes(planes[..i])
    {
      assert planes[..i + 1][..i] == planes[..i];
      spines := spines + planes[i];
    }
    assert planes[..|planes|] == planes;
  }

  /** The old-to-new map: each node's id to its position, later positions overwriting earlier. */
  method Number(nodes: seq<Node>) returns (old2new: map<nat, nat>)
    ensures old2new == Old2New(nodes)
  {
    old2new := map[];
    for i := 0 to |nodes|
      invariant old2new == Old2New(nodes[..i])
    {
      assert nodes[..i + 1][..i] == nodes[..i];
      old2new := old2new[nodes[i].id := i];
    }
    assert nodes[..|nodes|] == nodes;
  }

  method RenamePlanesIn(planes: seq<seq<Node>>, m: map<nat, nat>) returns (r: Option<seq<seq<Node>>>)
    ensures r.Some? <==> forall i | 0 <= i < |planes| :: Covers(m, planes[i])
    ensures r.Some? ==> r.value == RenamePlanes(planes, m)
  {
    var out: seq<seq<Node>> := [];
    for i := 0 to |planes|
      invariant forall j | 0 <= j < i :: Covers(m, planes[j])
      invariant out == RenamePlanes(planes[..i], m)
    {
      var plane := RenameNodeSeq(planes[i], m);
      if plane.None? {
        return None;
      }
      out := out + [plane.value];
    }
    assert planes[..|planes|] == planes;
    r := Some(out);
  }

  method RenamePodsIn(pods: seq<Pod>, m: map<nat, nat>) returns (r: Option<seq<Pod>>)
    ensures r.Some? <==> forall p | 0 <= p < |pods| :: PodKnown(m, pods[p])
    ensures r.Some? ==> r.value == RenamePods(pods, m)
  {
    var out: seq<Pod> := [];
    for p := 0 to |pods|
      invariant forall q | 0 <= q < p :: PodKnown(m, pods[q])
      invariant out == RenamePods(pods[..p], m)
    {
      var pod := RenamePodIn(pods[p], m);
      if pod.None? {
        return None;
      }
      out := out + [pod.value];
    }
    assert pods[..|pods|] == pods;
    r := Some(out);
  }

  /** `Pod::rename`: its fabric switches, then each rack, then its ToR-to-fabric links. */
  method RenamePodIn(p: Pod, m: map<nat, nat>) returns (r: Option<Pod>)
    ensures r.Some? <==> PodKnown(m, p)
    ensures r.Some? ==> r.value == RenamePod(p, m)
  {
    var fabs := RenameNodeSeq(p.fabs, m);
    if fabs.None? {
      return None;
    }
    var racks: seq<Rack> := [];
    for k := 0 to |p.racks|
      invariant forall j | 0 <= j < k :: RackKnown(m, p.racks[j])
      invariant racks == RenameRacks(p.racks[..k], m)
    {
      var rack := RenameRackIn(p.racks[k], m);
      if rack.None? {
        return None;
      }
      racks := racks + [rack.value];
    }
    assert p.racks[..|p.racks|] == p.racks;
    var tor2fab := RenameLinkSeq(p.tor2fab, m);
    if tor2fab.None? {
      return None;
    }
    r := Some(Pod(fabs.value, racks, tor2fab.value));
  }

  /** `Rack::rename`: its ToR, its hosts, then its host-to-ToR links. */
  method RenameRackIn(rack: Rack, m: map<nat, nat>) returns (r: Option<Rack>)
    ensures r.Some? <==> RackKnown(m, rack)
    ensures r.Some? ==> r.value == RenameRack(rack, m)
  {
    if rack.tor.id !in m {
      return None;
    }
    var hosts := RenameNodeSeq(rack.hosts, m);
    if hosts.None? {
      return None;
    }
    var host2tor := RenameLinkSeq(rack.host2tor, m);
    if host2tor.None? {
      return None;
    }
    r := Some(Rack(RenameNode(rack.tor, m), hosts.value, host2tor.value));
  }

  /** `rename_node` over a sequence, stopping at the first id the map lacks. */
  method RenameNodeSeq(ns: seq<Node>, m: map<nat, nat>) returns (r: Option<seq<Node>>)
    ensures r.Some? <==> Covers(m, ns)
    ensures r.Some? ==> r.value == RenameNodes(ns, m)
  {
    var out: seq<Node> := [];
    for i := 0 to |ns|
      invariant Covers(m, ns[..i])
      invariant out == RenameNodes(ns[..i], m)
    {
      if ns[i].id !in m {
        return None;
      }
      out := out + [ns[i].(id := m[ns[i].id])];
    }
    assert ns[..|ns|] == ns;
    r := Some(out);
  }

  /** `rename_link` over a sequence, stopping at the first endpoint the map lacks. */
  method RenameLinkSeq(ls: seq<Link>, m: map<nat, nat>) returns (r: Option<seq<Link>>)
    ensures r.Some? <==> LinksKnown(m, ls)
    ensures r.Some? ==> r.value == RenameLinks(ls, m)
  {
    var out: seq<Link> := [];
    for i := 0 to |ls|
      invariant LinksKnown(m, ls[..i])
      invariant out == RenameLinks(ls[..i], m)
    {
      if ls[i].a !in m || ls[i].b !in m {
        return None;
      }
      out := out + [ls[i].(a := m[ls[i].a], b := m[ls[i].b])];
    }
    assert ls[..|ls|] == ls;
    r := Some(out);
  }

  // ---------------------------------------------------------------- the old-to-new map

  /** The map's keys are exactly the ids that occur in the order. */
  lemma {:induction false} Old2NewKeys(order: seq<Node>)
    ensures Old2New(order).Keys == IdSet(order)
    decreases |order|
  {
    if order != [] {
      var n := |order| - 1;
      Old2NewKeys(order[..n]);
      assert order == order[..n] + [order[n]];
      assert IdSet(order) == IdSet(order[..n]) + {order[n].id} by {
        forall x | x in IdSet(order) ensures x in IdSet(order[..n]) + {order[n].id} {
          var y :| y in order && y.id == x;
          var i :| 0 <= i < |order| && order[i] == y;
          if i < n { assert order[..n][i] == y; }
        }
      }
    }
  }

  /** Each id maps to the position of its last occurrence. */
  lemma {:induction false} Old2NewValue(order: seq<Node>, id: nat)
    requires id in Old2New(order)
    ensures var v := Old2New(order)[id];
            v < |order| && order[v].id == id && forall j | v < j < |order| :: order[j].id != id
    decreases |order|
  {
    var n := |order| - 1;
    if order[n].id != id {
      Old2NewValue(order[..n], id);
    }
  }

  /** With distinct ids, every node maps to its own position. */
  lemma Old2NewDistinct(order: seq<Node>, i: nat)
    requires DistinctIds(order) && i < |order|
    ensures order[i].id in Old2New(order) && Old2New(order)[order[i].id] == i
  {
    Old2NewKeys(order);
    assert order[i] in order;
    Old2NewValue(order, order[i].id);
  }

  // ---------------------------------------------------------------- the canonical order is a permutation

  lemma {:induction false} RacksNodesSplit(racks: seq<Rack>)
    ensures multiset(RacksNodes(racks)) == multiset(RacksHosts(racks)) + multiset(RacksTors(racks))
    decreases |racks|
  {
    if racks != [] {
      RacksNodesSplit(racks[..|racks| - 1]);
    }
  }

  lemma {:induction false} PodsNodesSplit(pods: seq<Pod>)
    ensures multiset(PodsNodes(pods)) == multiset(Hosts(pods)) + multiset(Tors(pods)) + multiset(Fabs(pods))
    decreases |pods|
  {
    if pods != [] {
      PodsNodesSplit(pods[..|pods| - 1]);
      RacksNodesSplit(pods[|pods| - 1].racks);
    }
  }

  /** `contiguousify` numbers every node of `nodes()` exactly once: the orders are permutations. */
  lemma CanonPermutation(c: Cluster)
    ensures multiset(CanonOrder(c)) == multiset(Nodes(c))
    ensures IdSet(CanonOrder(c)) == IdSet(Nodes(c))
    ensures |CanonOrder(c)| == |Nodes(c)|
    ensures DistinctIds(Nodes(c)) ==> DistinctIds(CanonOrder(c))
  {
    PodsNodesSplit(c.pods);
    var a, b := CanonOrder(c), Nodes(c);
    assert |a| == |multiset(a)| == |multiset(b)| == |b|;
    forall x ensures x in a <==> x in b {
      assert x in a <==> x in multiset(a);
      assert x in b <==> x in multiset(b);
    }
    if DistinctIds(b) {
      DistinctTransfer(b, a);
    }
  }

  lemma DistinctTransfer(a: seq<Node>, b: seq<Node>)
    requires DistinctIds(a) && multiset(a) == multiset(b)
    ensures DistinctIds(b)
  {
    forall i, j | 0 <= i < j < |b| ensures b[i].id != b[j].id {
      var p := PositionOf(a, b[i]);
      var q := PositionOf(a, b[j]);
      if p == q {
        assert b == b[..j] + [b[j]] + b[j + 1..];
        assert b[i] in b[..j];
        var p2, q2 := TwoPositions(a, b[j]);
        assert false;
      }
    }
  }

  /** A position of `x` in `s`, which holds `x` since a permutation of it does. */
  lemma PositionOf(s: seq<Node>, x: Node) returns (p: nat)
    requires x in multiset(s)
    ensures p < |s| && s[p] == x
  {
    assert x in s;
    p :| p < |s| && s[p] == x;
  }

  /** An element occurring at least twice has two distinct positions. */
  lemma {:induction false} TwoPositions(s: seq<Node>, x: Node) returns (p: nat, q: nat)
    requires multiset(s)[x] >= 2
    ensures p < q < |s| && s[p] == x && s[q] == x
    decreases |s|
  {
    var n := |s| - 1;
    assert s == s[..n] + [s[n]];
    if s[n] == x {
      assert multiset(s[..n])[x] >= 1;
      assert x in s[..n];
      var i :| 0 <= i < n && s[..n][i] == x;
      p, q := i, n;
    } else {
      p, q := TwoPositions(s[..n], x);
    }
  }

  /**
   * With distinct original ids the old-to-new map is a bijection from the ids of the cluster's
   * nodes onto 0..N-1, N the number of nodes.
   */
  lemma ContiguousifyBijection(c: Cluster)
    requires DistinctIds(Nodes(c))
    ensures var m := Old2New(CanonOrder(c));
            && m.Keys == IdSet(Nodes(c))
            && (forall v: nat :: v in m.Values <==> v < |Nodes(c)|)
            && forall x, y | x in m && y in m && x != y :: m[x] != m[y]
  {
    var order := CanonOrder(c);
    var m := Old2New(order);
    CanonPermutation(c);
    Old2NewKeys(order);
    forall x, y | x in m && y in m && x != y ensures m[x] != m[y] {
      Old2NewValue(order, x);
      Old2NewValue(order, y);
    }
    forall v: nat ensures v in m.Values <==> v < |Nodes(c)| {
      if v in m.Values {
        var x :| x in m && m[x] == v;
        Old2NewValue(order, x);
      }
      if v < |Nodes(c)| {
        Old2NewDistinct(order, v);
      }
    }
  }

  // ---------------------------------------------------------------- when renaming succeeds

  lemma CoversConcat(m: map<nat, nat>, a: seq<Node>, b: seq<Node>)
    ensures Covers(m, a + b) <==> Covers(m, a) && Covers(m, b)
  {
    if Covers(m, a) && Covers(m, b) {
      forall i | 0 <= i < |a + b| ensures (a + b)[i].id in m {
        if i >= |a| { assert (a + b)[i] == b[i - |a|]; }
      }
    }
    if Covers(m, a + b) {
      forall i | 0 <= i < |a| ensures a[i].id in m {
        assert (a + b)[i] == a[i];
      }
      forall i | 0 <= i < |b| ensures b[i].id in m {
        assert (a + b)[|a| + i] == b[i];
      }
    }
  }

  lemma LinksKnownConcat(m: map<nat, nat>, a: seq<Link>, b: seq<Link>)
    ensures LinksKnown(m, a + b) <==> LinksKnown(m, a) && LinksKnown(m, b)
  {
    if LinksKnown(m, a) && LinksKnown(m, b) {
      forall i | 0 <= i < |a + b| ensures (a + b)[i].a in m && (a + b)[i].b in m {
        if i >= |a| { assert (a + b)[i] == b[i - |a|]; }
      }
    }
    if LinksKnown(m, a + b) {
      forall i | 0 <= i < |a| ensures a[i].a in m && a[i].b in m {
        assert (a + b)[i] == a[i];
      }
      forall i | 0 <= i < |b| ensures b[i].a in m && b[i].b in m {
        assert (a + b)[|a| + i] == b[i];
      }
    }
  }

  lemma {:induction false} PlanesKnown(m: map<nat, nat>, planes: seq<seq<Node>>)
    ensures Covers(m, PlaneNodes(planes)) <==> forall i | 0 <= i < |planes| :: Covers(m, planes[i])
    decreases |planes|
  {
    if planes != [] {
      var n := |planes| - 1;
      PlanesKnown(m, planes[..n]);
      CoversConcat(m, PlaneNodes(planes[..n]), planes[n]);
      assert forall i | 0 <= i < n :: planes[..n][i] == planes[i];
    }
  }

  lemma {:induction false} RacksKnown(m: map<nat, nat>, racks: seq<Rack>)
    ensures (Covers(m, RacksNodes(racks)) && LinksKnown(m, RacksLinks(racks)))
            <==> forall k | 0 <= k < |racks| :: RackKnown(m, racks[k])
    decreases |racks|
  {
    if racks != [] {
      var n := |racks| - 1;
      var r := racks[n];
      RacksKnown(m, racks[..n]);
      CoversConcat(m, RacksNodes(racks[..n]), RackNodes(r));
      CoversConcat(m, [r.tor], r.hosts);
      LinksKnownConcat(m, RacksLinks(racks[..n]), r.host2tor);
      assert [r.tor][0] == r.tor;
      assert racks == racks[..n] + [r];
      AllSnoc(m, racks[..n], r);
    }
  }

  lemma AllSnoc(m: map<nat, nat>, pre: seq<Rack>, r: Rack)
    ensures (forall k | 0 <= k < |pre + [r]| :: RackKnown(m, (pre + [r])[k]))
            <==> (forall k | 0 <= k < |pre| :: RackKnown(m, pre[k])) && RackKnown(m, r)
  {
    assert forall k | 0 <= k < |pre| :: (pre + [r])[k] == pre[k];
    assert (pre + [r])[|pre|] == r;
  }

  lemma {:induction false} PodsKnown(m: map<nat, nat>, pods: seq<Pod>)
    ensures (Covers(m, PodsNodes(pods)) && LinksKnown(m, PodsLinks(pods)))
            <==> forall p | 0 <= p < |pods| :: PodKnown(m, pods[p])
    decreases |pods|
  {
    if pods != [] {
      var n := |pods| - 1;
      var pod := pods[n];
      PodsKnown(m, pods[..n]);
      PodKnownIff(m, pod);
      CoversConcat(m, PodsNodes(pods[..n]), PodNodes(pod));
      LinksKnownConcat(m, PodsLinks(pods[..n]), PodLinks(pod));
      assert pods == pods[..n] + [pod];
      PodsSnoc(m, pods[..n], pod);
    }
  }

  lemma PodKnownIff(m: map<nat, nat>, pod: Pod)
    ensures (Covers(m, PodNodes(pod)) && LinksKnown(m, PodLinks(pod))) <==> PodKnown(m, pod)
  {
    RacksKnown(m, pod.racks);
    CoversConcat(m, pod.fabs, RacksNodes(pod.racks));
    LinksKnownConcat(m, pod.tor2fab, RacksLinks(pod.racks));
  }

  lemma PodsSnoc(m: map<nat, nat>, pre: seq<Pod>, pod: Pod)
    ensures (forall p | 0 <= p < |pre + [pod]| :: PodKnown(m, (pre + [pod])[p]))
            <==> (forall p | 0 <= p < |pre| :: PodKnown(m, pre[p])) && PodKnown(m, pod)
  {
    assert forall p | 0 <= p < |pre| :: (pre + [pod])[p] == pre[p];
    assert (pre + [pod])[|pre|] == pod;
  }

  /** Renaming succeeds exactly when every id of `nodes()` and every endpoint of `links()` is mapped. */
  lemma ClusterKnownIff(m: map<nat, nat>, c: Cluster)
    ensures ClusterKnown(m, c) <==> Covers(m, Nodes(c)) && LinksKnown(m, Links(c))
  {
    PlanesKnown(m, c.planes);
    PodsKnown(m, c.pods);
    CoversConcat(m, PlaneNodes(c.planes), PodsNodes(c.pods));
    LinksKnownConcat(m, c.fab2spine, PodsLinks(c.pods));
  }

  /**
   * `contiguousify` completes exactly when every link endpoint is the id of a node of the
   * cluster; otherwise a lookup of a missing id panics.
   */
  lemma ContiguousifySucceedsIff(c: Cluster)
    ensures ClusterKnown(Old2New(CanonOrder(c)), c) <==> EndpointsAreNodes(c)
  {
    var m := Old2New(CanonOrder(c));
    Old2NewKeys(CanonOrder(c));
    CanonPermutation(c);
    ClusterKnownIff(m, c);
    forall i | 0 <= i < |Nodes(c)| ensures Nodes(c)[i].id in m {
      assert Nodes(c)[i] in Nodes(c);
    }
  }

  // ---------------------------------------------------------------- renaming commutes with enumeration

  lemma RenameNodesConcat(m: map<nat, nat>, a: seq<Node>, b: seq<Node>)
    requires Covers(m, a) && Covers(m, b)
    ensures Covers(m, a + b)
    ensures RenameNodes(a + b, m) == RenameNodes(a, m) + RenameNodes(b, m)
  {
    CoversConcat(m, a, b);
    assert forall i | 0 <= i < |a| :: (a + b)[i] == a[i];
    assert forall i | |a| <= i < |a + b| :: (a + b)[i] == b[i - |a|];
  }

  lemma RenameLinksConcat(m: map<nat, nat>, a: seq<Link>, b: seq<Link>)
    requires LinksKnown(m, a) && LinksKnown(m, b)
    ensures LinksKnown(m, a + b)
    ensures RenameLinks(a + b, m) == RenameLinks(a, m) + RenameLinks(b, m)
  {
    LinksKnownConcat(m, a, b);
    assert forall i | 0 <= i < |a| :: (a + b)[i] == a[i];
    assert forall i | |a| <= i < |a + b| :: (a + b)[i] == b[i - |a|];
  }

  lemma {:induction false} RenamedRacks(m: map<nat, nat>, racks: seq<Rack>)
    requires forall k | 0 <= k < |racks| :: RackKnown(m, racks[k])
    ensures Covers(m, RacksHosts(racks)) && RacksHosts(RenameRacks(racks, m)) == RenameNodes(RacksHosts(racks), m)
    ensures Covers(m, RacksTors(racks)) && RacksTors(RenameRacks(racks, m)) == RenameNodes(RacksTors(racks), m)
    ensures Covers(m, RacksNodes(racks)) && RacksNodes(RenameRacks(racks, m)) == RenameNodes(RacksNodes(racks), m)
    ensures LinksKnown(m, RacksLinks(racks))
            && RacksLinks(RenameRacks(racks, m)) == RenameLinks(RacksLinks(racks), m)
    decreases |racks|
  {
    if racks != [] {
      var n := |racks| - 1;
      var r := racks[n];
      var rn := RenameRacks(racks, m);
      assert rn[..n] == RenameRacks(racks[..n], m);
      assert rn[n] == RenameRack(r, m);
      RenamedRacks(m, racks[..n]);
      assert Covers(m, [r.tor]) by { assert [r.tor][0] == r.tor; }
      assert RenameNodes([r.tor], m) == [rn[n].tor];
      RenameNodesConcat(m, RacksHosts(racks[..n]), r.hosts);
      RenameNodesConcat(m, RacksTors(racks[..n]), [r.tor]);
      RenameNodesConcat(m, [r.tor], r.hosts);
      RenameNodesConcat(m, RacksNodes(racks[..n]), RackNodes(r));
      RenameLinksConcat(m, RacksLinks(racks[..n]), r.host2tor);
    }
  }

  lemma {:induction false} RenamedPods(m: map<nat, nat>, pods: seq<Pod>)
    requires forall p | 0 <= p < |pods| :: PodKnown(m, pods[p])
    ensures Covers(m, Hosts(pods)) && Hosts(RenamePods(pods, m)) == RenameNodes(Hosts(pods), m)
    ensures Covers(m, Tors(pods)) && Tors(RenamePods(pods, m)) == RenameNodes(Tors(pods), m)
    ensures Covers(m, Fabs(pods)) && Fabs(RenamePods(pods, m)) == RenameNodes(Fabs(pods), m)
    ensures Covers(m, PodsNodes(pods)) && PodsNodes(RenamePods(pods, m)) == RenameNodes(PodsNodes(pods), m)
    ensures LinksKnown(m, PodsLinks(pods))
            && PodsLinks(RenamePods(pods, m)) == RenameLinks(PodsLinks(pods), m)
    decreases |pods|
  {
    if pods != [] {
      var n := |pods| - 1;
      var pod := pods[n];
      var pn := RenamePods(pods, m);
      assert pn[..n] == RenamePods(pods[..n], m);
      assert pn[n] == RenamePod(pod, m);
      RenamedPods(m, pods[..n]);
      RenamedRacks(m, pod.racks);
      RenameNodesConcat(m, Hosts(pods[..n]), RacksHosts(pod.racks));
      RenameNodesConcat(m, Tors(pods[..n]), RacksTors(pod.racks));
      RenameNodesConcat(m, Fabs(pods[..n]), pod.fabs);
      RenameNodesConcat(m, pod.fabs, RacksNodes(pod.racks));
      RenameNodesConcat(m, PodsNodes(pods[..n]), PodNodes(pod));
      RenameLinksConcat(m, pod.tor2fab, RacksLinks(pod.racks));
      RenameLinksConcat(m, PodsLinks(pods[..n]), PodLinks(pod));
    }
  }

  lemma {:induction false} RenamedPlanes(m: map<nat, nat>, planes: seq<seq<Node>>)
    requires forall i | 0 <= i < |planes| :: Covers(m, planes[i])
    ensures Covers(m, PlaneNodes(planes))
    ensures PlaneNodes(RenamePlanes(planes, m)) == RenameNodes(PlaneNodes(planes), m)
    decreases |planes|
  {
    if planes != [] {
      var n := |planes| - 1;
      var pn := RenamePlanes(planes, m);
      assert pn[..n] == RenamePlanes(planes[..n], m);
      RenamedPlanes(m, planes[..n]);
      RenameNodesConcat(m, PlaneNodes(planes[..n]), planes[n]);
    }
  }

  /**
   * Renaming rewrites nodes and links through the same map: `nodes()`, `links()` and the
   * canonical order of the renamed cluster are the old ones with every id sent through `m`, so
   * each link joins the renamed versions of the nodes it joined before.
   */
  lemma RenamedEnumerations(m: map<nat, nat>, c: Cluster)
    requires ClusterKnown(m, c)
    ensures Covers(m, Nodes(c)) && Nodes(Renamed(c, m)) == RenameNodes(Nodes(c), m)
    ensures LinksKnown(m, Links(c)) && Links(Renamed(c, m)) == RenameLinks(Links(c), m)
    ensures Covers(m, CanonOrder(c)) && CanonOrder(Renamed(c, m)) == RenameNodes(CanonOrder(c), m)
  {
    RenamedPods(m, c.pods);
    RenamedPlanes(m, c.planes);
    RenameNodesConcat(m, PlaneNodes(c.planes), PodsNodes(c.pods));
    RenameLinksConcat(m, c.fab2spine, PodsLinks(c.pods));
    RenameNodesConcat(m, Hosts(c.pods), Tors(c.pods));
    RenameNodesConcat(m, Hosts(c.pods) + Tors(c.pods), Fabs(c.pods));
    RenameNodesConcat(m, Hosts(c.pods) + Tors(c.pods) + Fabs(c.pods), PlaneNodes(c.planes));
  }

  // ---------------------------------------------------------------- contiguous tiers

  lemma {:induction false} RacksTorsHead(racks: seq<Rack>)
    requires racks != []
    ensures |RacksTors(racks)| == |racks| && RacksTors(racks)[0] == racks[0].tor
    decreases |racks|
  {
    var n := |racks| - 1;
    if n > 0 {
      RacksTorsHead(racks[..n]);
    }
  }

  lemma {:induction false} TorsHead(pods: seq<Pod>)
    requires pods != [] && pods[0].racks != []
    ensures |Tors(pods)| > 0 && Tors(pods)[0] == pods[0].racks[0].tor
    decreases |pods|
  {
    var n := |pods| - 1;
    if n > 0 {
      TorsHead(pods[..n]);
    } else {
      RacksTorsHead(pods[0].racks);
    }
  }

  lemma {:induction false} FabsHead(pods: seq<Pod>)
    requires pods != [] && pods[0].fabs != []
    ensures |Fabs(pods)| > 0 && Fabs(pods)[0] == pods[0].fabs[0]
    decreases |pods|
  {
    var n := |pods| - 1;
    if n > 0 {
      FabsHead(pods[..n]);
    }
  }

  lemma {:induction false} PlaneNodesHead(planes: seq<seq<Node>>)
    requires planes != [] && planes[0] != []
    ensures |PlaneNodes(planes)| > 0 && PlaneNodes(planes)[0] == planes[0][0]
    decreases |planes|
  {
    var n := |planes| - 1;
    if n > 0 {
      PlaneNodesHead(planes[..n]);
    }
  }

  /** After `contiguousify` (distinct ids, every endpoint a node) each node's id is its canonical position. */
  lemma ContiguousifyContiguous(c: Cluster)
    requires DistinctIds(Nodes(c)) && EndpointsAreNodes(c)
    ensures ClusterKnown(Old2New(CanonOrder(c)), c)
    ensures Contiguous(Renamed(c, Old2New(CanonOrder(c))))
  {
    var m := Old2New(CanonOrder(c));
    ContiguousifySucceedsIff(c);
    var r := Renamed(c, m);
    RenamedEnumerations(m, c);
    CanonPermutation(c);
    forall i | 0 <= i < |CanonOrder(r)| ensures CanonOrder(r)[i].id == i {
      Old2NewDistinct(CanonOrder(c), i);
    }
  }

  /**
   * After `contiguousify` hosts hold ids 0..H-1, ToRs H..H+T-1, fabric switches H+T..H+T+F-1 and
   * spines the rest: each tier occupies a contiguous range, in canonical order.
   */
  lemma ContiguousTiers(c: Cluster)
    requires DistinctIds(Nodes(c)) && EndpointsAreNodes(c)
    ensures ClusterKnown(Old2New(CanonOrder(c)), c)
    ensures var r := Renamed(c, Old2New(CanonOrder(c)));
            var H, T, F := |Hosts(c.pods)|, |Tors(c.pods)|, |Fabs(c.pods)|;
            && |Hosts(r.pods)| == H && |Tors(r.pods)| == T && |Fabs(r.pods)| == F
            && |PlaneNodes(r.planes)| == |PlaneNodes(c.planes)|
            && (forall i | 0 <= i < H :: Hosts(r.pods)[i].id == i)
            && (forall i | 0 <= i < T :: Tors(r.pods)[i].id == H + i)
            && (forall i | 0 <= i < F :: Fabs(r.pods)[i].id == H + T + i)
            && (forall i | 0 <= i < |PlaneNodes(r.planes)| :: PlaneNodes(r.planes)[i].id == H + T + F + i)
  {
    var m := Old2New(CanonOrder(c));
    ContiguousifyContiguous(c);
    var r := Renamed(c, m);
    RenamedPods(m, c.pods);
    RenamedPlanes(m, c.planes);
    assert CanonOrder(r) == Hosts(r.pods) + Tors(r.pods) + Fabs(r.pods) + PlaneNodes(r.planes);
    TiersInOrder(Hosts(r.pods), Tors(r.pods), Fabs(r.pods), PlaneNodes(r.planes));
  }

  /** Four consecutive parts of a sequence numbered by position are numbered from their offsets. */
  lemma TiersInOrder(a: seq<Node>, b: seq<Node>, c: seq<Node>, d: seq<Node>)
    requires forall i | 0 <= i < |a + b + c + d| :: (a + b + c + d)[i].id == i
    ensures forall i | 0 <= i < |a| :: a[i].id == i
    ensures forall i | 0 <= i < |b| :: b[i].id == |a| + i
    ensures forall i | 0 <= i < |c| :: c[i].id == |a| + |b| + i
    ensures forall i | 0 <= i < |d| :: d[i].id == |a| + |b| + |c| + i
  {
    var s := a + b + c + d;
    forall i | 0 <= i < |a| ensures a[i].id == i { assert s[i] == a[i]; }
    forall i | 0 <= i < |b| ensures b[i].id == |a| + i { assert s[|a| + i] == b[i]; }
    forall i | 0 <= i < |c| ensures c[i].id == |a| + |b| + i { assert s[|a| + |b| + i] == c[i]; }
    forall i | 0 <= i < |d| ensures d[i].id == |a| + |b| + |c| + i { assert s[|a| + |b| + |c| + i] == d[i]; }
  }

  /**
   * After `contiguousify` on a cluster with a rack, a fabric switch and a spine, `tor_base` is the
   * host count H, `fabric_base` is H plus the ToR count T, and `spine_base` is H + T plus the
   * fabric switch count.
   */
  lemma ContiguousBases(c: Cluster)
    requires DistinctIds(Nodes(c)) && EndpointsAreNodes(c)
    ensures ClusterKnown(Old2New(CanonOrder(c)), c)
    ensures var r := Renamed(c, Old2New(CanonOrder(c)));
            var H, T, F := |Hosts(c.pods)|, |Tors(c.pods)|, |Fabs(c.pods)|;
            && (c.pods != [] && c.pods[0].racks != [] ==> TorBase(r) == H)
            && (c.pods != [] && c.pods[0].fabs != [] ==> FabricBase(r) == H + T)
            && (c.planes != [] && c.planes[0] != [] ==> SpineBase(r) == H + T + F)
  {
    var m := Old2New(CanonOrder(c));
    ContiguousTiers(c);
    var r := Renamed(c, m);
    if c.pods != [] && c.pods[0].racks != [] {
      assert r.pods[0] == RenamePod(c.pods[0], m);
      TorsHead(r.pods);
    }
    if c.pods != [] && c.pods[0].fabs != [] {
      assert r.pods[0] == RenamePod(c.pods[0], m);
      FabsHead(r.pods);
    }
    if c.planes != [] && c.planes[0] != [] {
      assert r.planes[0] == RenameNodes(c.planes[0], m);
      PlaneNodesHead(r.planes);
    }
  }

  // ---------------------------------------------------------------- only ids change

  /** A node with its id forgotten. */
  function EraseNode(n: Node): Node { n.(id := 0) }

  function EraseNodes(ns: seq<Node>): seq<Node>
  {
    seq(|ns|, i requires 0 <= i < |ns| => EraseNode(ns[i]))
  }

  /** A link with its endpoints forgotten: only bandwidth and delay remain. */
  function EraseLinks(ls: seq<Link>): seq<Link>
  {
    seq(|ls|, i requires 0 <= i < |ls| => ls[i].(a := 0, b := 0))
  }

  function EraseRack(r: Rack): Rack
  {
    Rack(EraseNode(r.tor), EraseNodes(r.hosts), EraseLinks(r.host2tor))
  }

  function ErasePod(p: Pod): Pod
  {
    Pod(EraseNodes(p.fabs), seq(|p.racks|, k requires 0 <= k < |p.racks| => EraseRack(p.racks[k])),
        EraseLinks(p.tor2fab))
  }

  /** The cluster with every id forgotten: its shape, node kinds, bandwidths and delays. */
  function Erase(c: Cluster): Cluster
  {
    Cluster(seq(|c.planes|, i requires 0 <= i < |c.planes| => EraseNodes(c.planes[i])),
            seq(|c.pods|, p requires 0 <= p < |c.pods| => ErasePod(c.pods[p])),
            EraseLinks(c.fab2spine))
  }

  lemma EraseRenamedNodes(m: map<nat, nat>, ns: seq<Node>)
    requires Covers(m, ns)
    ensures EraseNodes(RenameNodes(ns, m)) == EraseNodes(ns)
  {
  }

  lemma EraseRenamedLinks(m: map<nat, nat>, ls: seq<Link>)
    requires LinksKnown(m, ls)
    ensures EraseLinks(RenameLinks(ls, m)) == EraseLinks(ls)
  {
  }

  lemma EraseRenamedPod(m: map<nat, nat>, p: Pod)
    requires PodKnown(m, p)
    ensures ErasePod(RenamePod(p, m)) == ErasePod(p)
  {
    var q := RenamePod(p, m);
    forall k | 0 <= k < |p.racks| ensures EraseRack(q.racks[k]) == EraseRack(p.racks[k]) {
      EraseRenamedNodes(m, p.racks[k].hosts);
      EraseRenamedLinks(m, p.racks[k].host2tor);
    }
    EraseRenamedNodes(m, p.fabs);
    EraseRenamedLinks(m, p.tor2fab);
  }

  /**
   * Renaming changes ids only: the numbers of planes, spines, pods, fabric switches, racks, hosts
   * and links, every node's kind and every link's bandwidth and delay are unchanged.
   */
  lemma RenamePreservesShape(m: map<nat, nat>, c: Cluster)
    requires ClusterKnown(m, c)
    ensures Erase(Renamed(c, m)) == Erase(c)
  {
    var r := Renamed(c, m);
    forall i | 0 <= i < |c.planes| ensures EraseNodes(r.planes[i]) == EraseNodes(c.planes[i]) {
      EraseRenamedNodes(m, c.planes[i]);
    }
    forall p | 0 <= p < |c.pods| ensures ErasePod(r.pods[p]) == ErasePod(c.pods[p]) {
      EraseRenamedPod(m, c.pods[p]);
    }
    EraseRenamedLinks(m, c.fab2spine);
  }

  // ---------------------------------------------------------------- idempotence

  lemma RenameIdentity(m: map<nat, nat>, c: Cluster)
    requires ClusterKnown(m, c)
    requires forall x | x in m :: m[x] == x
    ensures Renamed(c, m) == c
  {
    var r := Renamed(c, m);
    forall i | 0 <= i < |c.planes| ensures r.planes[i] == c.planes[i] {
      assert RenameNodes(c.planes[i], m) == c.planes[i];
    }
    forall p | 0 <= p < |c.pods| ensures r.pods[p] == c.pods[p] {
      var pod := c.pods[p];
      forall k | 0 <= k < |pod.racks| ensures RenameRack(pod.racks[k], m) == pod.racks[k] {
        var rack := pod.racks[k];
        assert RenameNodes(rack.hosts, m) == rack.hosts;
        assert RenameLinks(rack.host2tor, m) == rack.host2tor;
      }
      assert RenameRacks(pod.racks, m) == pod.racks;
      assert RenameNodes(pod.fabs, m) == pod.fabs;
      assert RenameLinks(pod.tor2fab, m) == pod.tor2fab;
    }
    assert RenameLinks(c.fab2spine, m) == c.fab2spine;
  }

  /** On a contiguous cluster whose links join its nodes, the old-to-new map is the identity. */
  lemma ContiguousFixed(c: Cluster)
    requires Contiguous(c) && EndpointsAreNodes(c)
    ensures ClusterKnown(Old2New(CanonOrder(c)), c)
    ensures Renamed(c, Old2New(CanonOrder(c))) == c
  {
    var m := Old2New(CanonOrder(c));
    ContiguousifySucceedsIff(c);
    forall x | x in m ensures m[x] == x {
      Old2NewValue(CanonOrder(c), x);
    }
    RenameIdentity(m, c);
  }

  /**
   * `contiguousify` is idempotent: its result is contiguous, its links still join its nodes, and
   * renumbering it again changes nothing.
   */
  lemma ContiguousifyIdempotent(c: Cluster)
    requires DistinctIds(Nodes(c)) && EndpointsAreNodes(c)
    ensures ClusterKnown(Old2New(CanonOrder(c)), c)
    ensures var r := Renamed(c, Old2New(CanonOrder(c)));
            && Contiguous(r) && EndpointsAreNodes(r)
            && ClusterKnown(Old2New(CanonOrder(r)), r)
            && Renamed(r, Old2New(CanonOrder(r))) == r
  {
    var m := Old2New(CanonOrder(c));
    ContiguousifyContiguous(c);
    var r := Renamed(c, m);
    RenamedEnumerations(m, c);
    CanonPermutation(c);
    CanonPermutation(r);
    ContiguousifyBijection(c);
    forall v: nat | v < |Nodes(c)| ensures v in IdSet(Nodes(r)) {
      assert CanonOrder(r)[v] in CanonOrder(r);
    }
    forall i | 0 <= i < |Links(r)| ensures Links(r)[i].a in IdSet(Nodes(r)) && Links(r)[i].b in IdSet(Nodes(r)) {
      assert m[Links(c)[i].a] in m.Values && m[Links(c)[i].b] in m.Values;
    }
    ContiguousFixed(r);
  }
}
