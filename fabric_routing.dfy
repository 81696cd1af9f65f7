/**
 * Closed-form next-hop arithmetic over a contiguously numbered fabric: a host's ToR and a ToR's
 * fabric switches are computed by division and offset from the tier bases, with no graph. Only
 * the branches the routing table implements are modelled; the others are excluded by
 * `Implemented`, the precondition of `NextHopsUnchecked`.
 */
module FabricRouting {
  import opened Arith

  /** The tier of a node, indexed by node id. */
  datatype FabricNode = Host | TopOfRack | Fabric | Spine

  datatype Routes = Routes(
    nrPods: nat,
    nrFabsPerPod: nat,
    nrHostsPerRack: nat,
    torBase: nat,
    fabricBase: nat,
    nodes: seq<FabricNode>)

  /** `tor_of_host`: asserts that `host` is a host, then divides its id by the rack size. */
  function TorOfHost(rt: Routes, host: nat): nat
    requires host < |rt.nodes| && rt.nodes[host] == Host
    requires rt.nrHostsPerRack > 0
  {
    rt.torBase + host / rt.nrHostsPerRack
  }

  /**
   * `fabrics_of_tor` as written: asserts that `tor` is a ToR, then takes `nr_fabs_per_pod`
   * consecutive ids from `fabric_base + (tor / nr_pods) * nr_fabs_per_pod`, dividing the
   * absolute ToR id by the pod count.
   */
  function FabricsOfTor(rt: Routes, tor: nat): seq<nat>
    requires tor < |rt.nodes| && rt.nodes[tor] == TopOfRack
    requires rt.nrPods > 0
  {
    var start: nat := rt.fabricBase + (tor / rt.nrPods) * rt.nrFabsPerPod;
    seq(rt.nrFabsPerPod, i => start + i)
  }

  /**
   * The inputs on which `next_hops_unchecked` returns: equal endpoints; a host source; or a ToR
   * source whose target is not a host of its own rack. Every other case reaches `todo!()`, an
   * out-of-range index, a failed tier assertion or a division by zero.
   */
  ghost predicate Implemented(rt: Routes, from: nat, to: nat) {
    || from == to
    || (from < |rt.nodes| && rt.nodes[from] == Host && rt.nrHostsPerRack > 0)
    || (&& from < |rt.nodes| && rt.nodes[from] == TopOfRack && to < |rt.nodes| && rt.nrPods > 0
        && (rt.nodes[to] == Host ==> rt.nrHostsPerRack > 0 && TorOfHost(rt, to) != from))
  }

  function NextHopsUnchecked(rt: Routes, from: nat, to: nat): (hops: seq<nat>)
    requires Implemented(rt, from, to)
  {
    if from == to then [from]
    else if rt.nodes[from] == Host then [TorOfHost(rt, from)]
    else FabricsOfTor(rt, from)
  }

  /** Routing to oneself goes nowhere else: the only hop is the node itself. */
  lemma NextHopsSelf(rt: Routes, x: nat)
    ensures Implemented(rt, x, x) && NextHopsUnchecked(rt, x, x) == [x]
  {
  }

  /**
   * `tor_of_host` without division: the ToR `t` serves exactly the hosts h with
   * (t - tor_base) * nr_hosts_per_rack <= h < (t - tor_base + 1) * nr_hosts_per_rack.
   */
  lemma TorOfHostIff(rt: Routes, host: nat, t: nat)
    requires host < |rt.nodes| && rt.nodes[host] == Host && rt.nrHostsPerRack > 0
    ensures TorOfHost(rt, host) == t
            <==> rt.torBase <= t
                 && (t - rt.torBase) * rt.nrHostsPerRack <= host < (t - rt.torBase + 1) * rt.nrHostsPerRack
  {
    var k := rt.nrHostsPerRack;
    DivBlock(host, k);
    if rt.torBase <= t && (t - rt.torBase) * k <= host < (t - rt.torBase + 1) * k {
      DivBlockUnique(host, k, t - rt.torBase);
    }
  }

  /** Two hosts share a ToR exactly when they fall in the same block of `nr_hosts_per_rack` ids. */
  lemma SameTorIff(rt: Routes, h1: nat, h2: nat)
    requires h1 < |rt.nodes| && rt.nodes[h1] == Host
    requires h2 < |rt.nodes| && rt.nodes[h2] == Host
    requires rt.nrHostsPerRack > 0
    ensures TorOfHost(rt, h1) == TorOfHost(rt, h2) <==> h1 / rt.nrHostsPerRack == h2 / rt.nrHostsPerRack
  {
  }

  /**
   * From a host, the only next hop is its ToR: the one whose host block contains the source.
   */
  lemma NextHopsFromHost(rt: Routes, from: nat, to: nat)
    requires from != to && from < |rt.nodes| && rt.nodes[from] == Host && rt.nrHostsPerRack > 0
    ensures Implemented(rt, from, to)
    ensures var hops := NextHopsUnchecked(rt, from, to);
            && |hops| == 1 && rt.torBase <= hops[0]
            && (hops[0] - rt.torBase) * rt.nrHostsPerRack <= from
            && from < (hops[0] - rt.torBase + 1) * rt.nrHostsPerRack
  {
    TorOfHostIff(rt, from, TorOfHost(rt, from));
  }

  // ---------------------------------------------------------------- the pod of a ToR

  /**
   * A routing table over a contiguous fabric: hosts 0..H-1 in racks of `nr_hosts_per_rack`,
   * ToRs from `tor_base`, `torsPerPod` to a pod, then fabric switches from `fabric_base`,
   * `nr_fabs_per_pod` to a pod.
   */
  ghost predicate ContiguousRoutes(rt: Routes, torsPerPod: nat) {
    && rt.nrPods > 0 && torsPerPod > 0 && rt.nrHostsPerRack > 0
    && rt.torBase == rt.nrPods * torsPerPod * rt.nrHostsPerRack
    && rt.fabricBase == rt.torBase + rt.nrPods * torsPerPod
    && |rt.nodes| >= rt.fabricBase + rt.nrPods * rt.nrFabsPerPod
    && (forall i | 0 <= i < rt.torBase :: rt.nodes[i] == Host)
    && (forall i | rt.torBase <= i < rt.fabricBase :: rt.nodes[i] == TopOfRack)
    && (forall i | rt.fabricBase <= i < rt.fabricBase + rt.nrPods * rt.nrFabsPerPod :: rt.nodes[i] == Fabric)
  }

  /** The fabric switches of a ToR's own pod: the pod index is its offset from `tor_base` over the ToRs per pod. */
  function PodFabricsOfTor(rt: Routes, torsPerPod: nat, tor: nat): seq<nat>
    requires torsPerPod > 0 && rt.torBase <= tor
  {
    var start: nat := rt.fabricBase + ((tor - rt.torBase) / torsPerPod) * rt.nrFabsPerPod;
    seq(rt.nrFabsPerPod, i => start + i)
  }

  /** Every fabric switch the corrected computation returns is a fabric switch of the ToR's own pod. */
  lemma PodFabricsOfTorInPod(rt: Routes, torsPerPod: nat, tor: nat)
    requires ContiguousRoutes(rt, torsPerPod) && rt.torBase <= tor < rt.fabricBase
    ensures var pod := (tor - rt.torBase) / torsPerPod;
            && pod < rt.nrPods
            && forall i | 0 <= i < |PodFabricsOfTor(rt, torsPerPod, tor)| ::
                 var f := PodFabricsOfTor(rt, torsPerPod, tor)[i];
                 && rt.fabricBase + pod * rt.nrFabsPerPod <= f < rt.fabricBase + (pod + 1) * rt.nrFabsPerPod
                 && f < |rt.nodes| && rt.nodes[f] == Fabric
  {
    var pod := (tor - rt.torBase) / torsPerPod;
    DivModBound(tor - rt.torBase, torsPerPod, rt.nrPods);
    forall i | 0 <= i < |PodFabricsOfTor(rt, torsPerPod, tor)|
      ensures var f := PodFabricsOfTor(rt, torsPerPod, tor)[i];
              && rt.fabricBase + pod * rt.nrFabsPerPod <= f < rt.fabricBase + (pod + 1) * rt.nrFabsPerPod
              && f < |rt.nodes| && rt.nodes[f] == Fabric
    {
      PodFabricAt(rt, torsPerPod, pod, i);
    }
  }

  /** The i-th fabric switch of pod `pod` lies in that pod's block and is a fabric switch. */
  lemma PodFabricAt(rt: Routes, torsPerPod: nat, pod: nat, i: nat)
    requires ContiguousRoutes(rt, torsPerPod) && pod < rt.nrPods && i < rt.nrFabsPerPod
    ensures var f := rt.fabricBase + pod * rt.nrFabsPerPod + i;
            && rt.fabricBase + pod * rt.nrFabsPerPod <= f < rt.fabricBase + (pod + 1) * rt.nrFabsPerPod
            && f < |rt.nodes| && rt.nodes[f] == Fabric
  {
    BlockIndex(pod, rt.nrPods, rt.nrFabsPerPod, i);
  }

  /**
   * From a ToR towards anything but a host of its own rack, on a contiguous fabric: the
   * `nr_fabs_per_pod` next hops are the fabric switches of the ToR's own pod when the absolute
   * ToR id over the pod count happens to name that pod, and otherwise not one of them is.
   */
  lemma NextHopsFromTor(rt: Routes, torsPerPod: nat, from: nat, to: nat)
    requires ContiguousRoutes(rt, torsPerPod) && rt.torBase <= from < rt.fabricBase
    requires from != to && Implemented(rt, from, to)
    ensures var hops := NextHopsUnchecked(rt, from, to);
            var pod := (from - rt.torBase) / torsPerPod;
            && |hops| == rt.nrFabsPerPod
            && (from / rt.nrPods == pod ==> hops == PodFabricsOfTor(rt, torsPerPod, from))
            && (from / rt.nrPods != pod ==>
                  forall i | 0 <= i < |hops| ::
                    !(rt.fabricBase + pod * rt.nrFabsPerPod <= hops[i] < rt.fabricBase + (pod + 1) * rt.nrFabsPerPod))
  {
    var hops := NextHopsUnchecked(rt, from, to);
    var pod := (from - rt.torBase) / torsPerPod;
    var q, k := from / rt.nrPods, rt.nrFabsPerPod;
    assert rt.nodes[from] == TopOfRack;
    if q != pod {
      forall i | 0 <= i < |hops|
        ensures !(rt.fabricBase + pod * k <= hops[i] < rt.fabricBase + (pod + 1) * k)
      {
        assert hops[i] == rt.fabricBase + q * k + i;
        OtherBlock(q, pod, k, i);
      }
    }
  }

  /** Offset i < k inside block q of k ids lies outside every other block. */
  lemma OtherBlock(q: nat, p: nat, k: nat, i: nat)
    requires q != p && i < k
    ensures !(p * k <= q * k + i < (p + 1) * k)
  {
    assert (q + 1) * k == q * k + k;
    assert (p + 1) * k == p * k + k;
    if q < p {
      MulMono(q + 1, p, k);
    } else {
      MulMono(p + 1, q, k);
    }
  }

  /** The smallest contiguous fabric where the two computations differ: 2 pods, 2 ToRs, 2 hosts, 2 fabs. */
  function SmallFabric(): Routes
  {
    Routes(2, 2, 2, 8, 12, seq(8, _ => Host) + seq(4, _ => TopOfRack) + seq(4, _ => Fabric))
  }

  /**
   * As written, the first ToR (id 8, pod 0) is sent to ids 20 and 21, which lie past the last
   * fabric switch (15) and are not nodes at all; its own pod's fabric switches are 12 and 13.
   */
  lemma FabricsOfTorLeavesFabric()
    ensures ContiguousRoutes(SmallFabric(), 2)
    ensures FabricsOfTor(SmallFabric(), 8) == [20, 21]
    ensures forall f | f in FabricsOfTor(SmallFabric(), 8) :: f >= |SmallFabric().nodes|
    ensures PodFabricsOfTor(SmallFabric(), 2, 8) == [12, 13]
  {
    var rt := SmallFabric();
    assert FabricsOfTor(rt, 8) == [20, 21];
    assert PodFabricsOfTor(rt, 2, 8) == [12, 13];
  }
}
