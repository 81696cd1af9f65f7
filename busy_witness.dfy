/**
 * Two event sequences on which the sweep as written stops with a `KeyError` while the repaired
 * sweep finishes, whatever order the loops visit sets in.
 *
 * Overwritten graph: flow 1 on link (1, 2) from 1 to 30, flow 2 on the same link from 2 to 3 and
 * flow 3 on link (2, 3) from 4 to 40. Flow 2's start merges flow 1's graph into graph 1; its end
 * leaves graph 1 alive but sets the counter back to 1, so flow 3's start replaces graph 1 with a
 * graph of its own, and flow 1's end then finds graph 1 without link (1, 2).
 *
 * Stale mapping: flow 1 on links (0, 1) and (1, 2) from 0 to 10, flow 2 on (1, 2) and (2, 3) from
 * 1 to 20, and flow 3 on (0, 1) from 2 to 5. Flow 2's start merges graph 0 into graph 1 but remaps
 * only its own links, so link (0, 1) still names the dropped graph 0 when flow 3 starts.
 */
module BusyWitness {
  import opened Wrappers
  import opened Counting
  import opened BusyLogs
  import opened BusySweep
  import opened BusyFixed

  /** A listing of a set of one element is that element. */
  lemma SingletonOrder<T(!new)>(order: set<T> -> seq<T>, x: T)
    requires Enumerates(order)
    ensures order({x}) == [x]
  {
    DistinctCount(order({x}));
    assert order({x})[0] in Elements(order({x}));
  }

  /** A listing of the empty set is empty. */
  lemma EmptyOrder<T(!new)>(order: set<T> -> seq<T>)
    requires Enumerates(order)
    ensures order({}) == []
  {
    DistinctCount(order({}));
  }

  const L01: Link := (0, 1)
  const L12: Link := (1, 2)
  const L23: Link := (2, 3)

  /** The events of the overwritten-graph example, in sorted order. */
  const Overwrite: seq<Event> := [
    Event(1, Start, 1, {L12}), Event(2, Start, 2, {L12}), Event(3, End, 2, {L12}),
    Event(4, Start, 3, {L23}), Event(30, End, 1, {L12}), Event(40, End, 3, {L23})]

  /** The events of the stale-mapping example, in sorted order. */
  const Stale: seq<Event> := [
    Event(0, Start, 1, {L01, L12}), Event(1, Start, 2, {L12, L23}), Event(2, Start, 3, {L01}),
    Event(5, End, 3, {L01}), Event(10, End, 1, {L01, L12}), Event(20, End, 2, {L12, L23})]

  /** The sweep over one more event of a prefix. */
  lemma NextSweep(ev: seq<Event>, k: nat, linkOrder: set<Link> -> seq<Link>, idOrder: set<int> -> seq<int>, v: Variant)
    requires k < |ev|
    ensures Sweep(ev[..k + 1], linkOrder, idOrder, v) ==
              if Sweep(ev[..k], linkOrder, idOrder, v).Ok? then Step(Sweep(ev[..k], linkOrder, idOrder, v).value, ev[k], linkOrder, idOrder, v)
              else Sweep(ev[..k], linkOrder, idOrder, v)
  {
    assert ev[..k + 1][..k] == ev[..k];
  }

  /** The started and active flows after one more event of a prefix. */
  lemma NextFlows(ev: seq<Event>, k: nat)
    requires k < |ev|
    ensures Active(ev[..k + 1]) == if ev[k].kind == Start then Active(ev[..k])[ev[k].flowId := ev[k].links] else Active(ev[..k]) - {ev[k].flowId}
    ensures Started(ev[..k + 1]) == Started(ev[..k]) + if ev[k].kind == Start then {ev[k].flowId} else {}
  {
    assert ev[..k + 1][..k] == ev[..k];
  }

  /** Event k is admissible after the flows `st` started and `act` active before it, which it moves on. */
  lemma AdmissibleAt(ev: seq<Event>, k: nat, st: set<int>, act: map<int, set<Link>>)
    requires k < |ev| && Started(ev[..k]) == st && Active(ev[..k]) == act
    requires if ev[k].kind == Start then ev[k].flowId !in st else ev[k].flowId in act && act[ev[k].flowId] == ev[k].links
    ensures Admissible(ev[..k], ev[k])
    ensures Started(ev[..k + 1]) == st + if ev[k].kind == Start then {ev[k].flowId} else {}
    ensures Active(ev[..k + 1]) == if ev[k].kind == Start then act[ev[k].flowId := ev[k].links] else act - {ev[k].flowId}
  {
    NextFlows(ev, k);
  }

  lemma OverwriteWellFormed()
    ensures WellFormed(Overwrite)
  {
    var ev := Overwrite;
    assert ev[..0] == [];
    AdmissibleAt(ev, 0, {}, map[]);
    AdmissibleAt(ev, 1, {1}, map[1 := {L12}]);
    AdmissibleAt(ev, 2, {1, 2}, map[1 := {L12}, 2 := {L12}]);
    AdmissibleAt(ev, 3, {1, 2}, map[1 := {L12}]);
    AdmissibleAt(ev, 4, {1, 2, 3}, map[1 := {L12}, 3 := {L23}]);
    AdmissibleAt(ev, 5, {1, 2, 3}, map[3 := {L23}]);
  }

  lemma StaleWellFormed()
    ensures WellFormed(Stale)
  {
    var ev := Stale;
    assert ev[..0] == [];
    AdmissibleAt(ev, 0, {}, map[]);
    AdmissibleAt(ev, 1, {1}, map[1 := {L01, L12}]);
    AdmissibleAt(ev, 2, {1, 2}, map[1 := {L01, L12}, 2 := {L12, L23}]);
    AdmissibleAt(ev, 3, {1, 2, 3}, map[1 := {L01, L12}, 2 := {L12, L23}, 3 := {L01}]);
    AdmissibleAt(ev, 4, {1, 2, 3}, map[1 := {L01, L12}, 2 := {L12, L23}]);
    AdmissibleAt(ev, 5, {1, 2, 3}, map[2 := {L12, L23}]);
  }

  // The as-written sweep over the overwritten-graph example, one event at a time.

  lemma OverwriteStart1(linkOrder: set<Link> -> seq<Link>, idOrder: set<int> -> seq<int>)
    requires Enumerates(idOrder)
    ensures var r := Sweep(Overwrite[..1], linkOrder, idOrder, AsWritten);
            && r.Ok? && r.value.graphs.Keys == {0} && r.value.linkToGraph == map[L12 := 0] && r.value.graphId == 1
            && r.value.graphs[0].activeFlows == {1}
  {
    assert Overwrite[..0] == [];
    NextSweep(Overwrite, 0, linkOrder, idOrder, AsWritten);
    assert Involved(Init, {L12}) == {};
    StartStepAlone(Init, Overwrite[0], idOrder, AsWritten);
    StartStepGraphs(Init, Overwrite[0], idOrder, AsWritten);
  }

  /** As written, a start whose links touch the one live graph replaces it with a graph at the counter's id. */
  lemma MergeInto(s: State, e: Event, idOrder: set<int> -> seq<int>, gid: int)
    requires Enumerates(idOrder)
    requires s.graphs.Keys == {gid} && Involved(s, e.links) == {gid} && s.graphId != gid
    ensures StartStep(s, e, idOrder, AsWritten).Ok?
    ensures var t := StartStep(s, e, idOrder, AsWritten).value;
            && t.graphs.Keys == {s.graphId}
            && t.linkToGraph.Keys == s.linkToGraph.Keys + e.links
            && (forall l | l in s.linkToGraph && l !in e.links :: t.linkToGraph[l] == s.linkToGraph[l])
            && (forall l | l in e.links :: t.linkToGraph[l] == s.graphId)
            && t.graphs[s.graphId].activeFlows == s.graphs[gid].activeFlows + {e.flowId}
            && (forall l | l in e.links :: l in t.graphs[s.graphId].activeLinks && e.flowId in t.graphs[s.graphId].activeLinks[l])
  {
    StartStepFails(s, e, idOrder, AsWritten);
    StartStepGraphs(s, e, idOrder, AsWritten);
    StartStepNewGraph(s, e, idOrder, AsWritten);
    MergedState(s, e, gid, StartStep(s, e, idOrder, AsWritten).value);
  }

  /** The state an as-written start reaches from one live graph `gid` that its links touch. */
  lemma MergedState(s: State, e: Event, gid: int, t: State)
    requires s.graphs.Keys == {gid} && Involved(s, e.links) == {gid} && s.graphId != gid
    requires t.graphs.Keys == s.graphs.Keys - Involved(s, e.links) + {s.graphId}
    requires t.linkToGraph == s.linkToGraph + (map l | l in e.links :: s.graphId)
    requires t.graphs[s.graphId].activeFlows == ActiveOf(s.graphs, Involved(s, e.links)) + {e.flowId}
    requires t.graphs[s.graphId].activeLinks.Keys == LinksOf(s.graphs, Involved(s, e.links)) + e.links
    requires forall l | l in e.links :: e.flowId in t.graphs[s.graphId].activeLinks[l]
    ensures && t.graphs.Keys == {s.graphId}
            && t.linkToGraph.Keys == s.linkToGraph.Keys + e.links
            && (forall l | l in s.linkToGraph && l !in e.links :: t.linkToGraph[l] == s.linkToGraph[l])
            && (forall l | l in e.links :: t.linkToGraph[l] == s.graphId)
            && t.graphs[s.graphId].activeFlows == s.graphs[gid].activeFlows + {e.flowId}
            && (forall l | l in e.links :: l in t.graphs[s.graphId].activeLinks && e.flowId in t.graphs[s.graphId].activeLinks[l])
  {
    assert gid in s.graphs.Keys;
    forall f | f in s.graphs[gid].activeFlows ensures f in ActiveOf(s.graphs, {gid}) {
      assert gid in {gid};
    }
    assert ActiveOf(s.graphs, {gid}) == s.graphs[gid].activeFlows;
  }

  lemma OverwriteStart2(s: State, idOrder: set<int> -> seq<int>)
    requires Enumerates(idOrder)
    requires s.graphs.Keys == {0} && s.linkToGraph == map[L12 := 0] && s.graphId == 1
    requires s.graphs[0].activeFlows == {1}
    ensures var r := StartStep(s, Overwrite[1], idOrder, AsWritten);
            && r.Ok? && r.value.graphs.Keys == {1} && r.value.linkToGraph == map[L12 := 1]
            && r.value.graphs[1].activeFlows == {1, 2}
            && L12 in r.value.graphs[1].activeLinks && 2 in r.value.graphs[1].activeLinks[L12]
  {
    var e := Overwrite[1];
    assert e.links == {L12} && e.flowId == 2;
    assert Involved(s, {L12}) == {0};
    MergeInto(s, e, idOrder, 0);
  }

  lemma OverwriteEnd3(s: State, linkOrder: set<Link> -> seq<Link>)
    requires Enumerates(linkOrder)
    requires s.graphs.Keys == {1} && s.linkToGraph == map[L12 := 1]
    requires s.graphs[1].activeFlows == {1, 2} && L12 in s.graphs[1].activeLinks && 2 in s.graphs[1].activeLinks[L12]
    ensures var r := EndStep(s, Overwrite[2], linkOrder, AsWritten);
            && r.Ok? && r.value.graphs.Keys == {1} && r.value.linkToGraph == map[L12 := 1] && r.value.graphId == 1
  {
    var e := Overwrite[2];
    assert e.links == {L12} && e.flowId == 2;
    EndTargetMeaning(s, e, linkOrder);
    assert EndTarget(s, e, linkOrder) == Some(1);
    assert {1, 2} != {2} by {
      assert 1 in {1, 2};
    }
    EndStepMeaning(s, e, linkOrder, AsWritten);
  }

  lemma OverwriteStart4(s: State, idOrder: set<int> -> seq<int>)
    requires Enumerates(idOrder)
    requires s.graphs.Keys == {1} && s.linkToGraph == map[L12 := 1] && s.graphId == 1
    ensures var r := StartStep(s, Overwrite[3], idOrder, AsWritten);
            && r.Ok? && r.value.graphs.Keys == {1} && L12 in r.value.linkToGraph && r.value.linkToGraph[L12] == 1
            && L12 !in r.value.graphs[1].activeLinks
  {
    var e := Overwrite[3];
    assert Involved(s, {L23}) == {};
    StartStepAlone(s, e, idOrder, AsWritten);
    StartStepGraphs(s, e, idOrder, AsWritten);
  }

  lemma OverwriteEnd5(s: State, linkOrder: set<Link> -> seq<Link>)
    requires Enumerates(linkOrder)
    requires s.graphs.Keys == {1} && L12 in s.linkToGraph && s.linkToGraph[L12] == 1 && L12 !in s.graphs[1].activeLinks
    ensures EndStep(s, Overwrite[4], linkOrder, AsWritten) == Err(KeyError)
  {
    var e := Overwrite[4];
    EndTargetMeaning(s, e, linkOrder);
    SingletonOrder(linkOrder, L12);
    assert EndTarget(s, e, linkOrder) == Some(1);
  }

  /**
   * As written, the overwritten-graph example stops with a `KeyError` at flow 1's end; repaired,
   * it finishes.
   */
  lemma OverwriteFails(linkOrder: set<Link> -> seq<Link>, idOrder: set<int> -> seq<int>)
    requires Enumerates(linkOrder) && Enumerates(idOrder)
    ensures Sweep(Overwrite, linkOrder, idOrder, AsWritten) == Err(KeyError)
    ensures Sweep(Overwrite, linkOrder, idOrder, Corrected).Ok?
  {
    OverwriteStops(linkOrder, idOrder);
    OverwriteWellFormed();
    CorrectedSweepOk(Overwrite, linkOrder, idOrder);
  }

  /** The as-written half of `OverwriteFails`: flow 1's end finds graph 1 without link (1, 2). */
  lemma OverwriteStops(linkOrder: set<Link> -> seq<Link>, idOrder: set<int> -> seq<int>)
    requires Enumerates(linkOrder) && Enumerates(idOrder)
    ensures Sweep(Overwrite, linkOrder, idOrder, AsWritten) == Err(KeyError)
  {
    var ev := Overwrite;
    OverwriteStart1(linkOrder, idOrder);
    NextSweep(ev, 1, linkOrder, idOrder, AsWritten);
    NextSweep(ev, 2, linkOrder, idOrder, AsWritten);
    NextSweep(ev, 3, linkOrder, idOrder, AsWritten);
    NextSweep(ev, 4, linkOrder, idOrder, AsWritten);
    var s1 := Sweep(ev[..1], linkOrder, idOrder, AsWritten).value;
    OverwriteStart2(s1, idOrder);
    var s2 := StartStep(s1, ev[1], idOrder, AsWritten).value;
    OverwriteEnd3(s2, linkOrder);
    var s3 := EndStep(s2, ev[2], linkOrder, AsWritten).value;
    OverwriteStart4(s3, idOrder);
    var s4 := StartStep(s3, ev[3], idOrder, AsWritten).value;
    OverwriteEnd5(s4, linkOrder);
    SweepStops(ev, 5, linkOrder, idOrder, AsWritten);
  }

  // The as-written sweep over the stale-mapping example, one event at a time.

  lemma StaleStart1(linkOrder: set<Link> -> seq<Link>, idOrder: set<int> -> seq<int>)
    requires Enumerates(idOrder)
    ensures var r := Sweep(Stale[..1], linkOrder, idOrder, AsWritten);
            && r.Ok? && r.value.graphs.Keys == {0} && r.value.linkToGraph == map[L01 := 0, L12 := 0] && r.value.graphId == 1
  {
    assert Stale[..0] == [];
    NextSweep(Stale, 0, linkOrder, idOrder, AsWritten);
    assert Involved(Init, {L01, L12}) == {};
    StartStepAlone(Init, Stale[0], idOrder, AsWritten);
    StartStepGraphs(Init, Stale[0], idOrder, AsWritten);
    var t := StartStep(Init, Stale[0], idOrder, AsWritten).value;
    assert t.linkToGraph == map[L01 := 0, L12 := 0];
  }

  lemma StaleStart2(s: State, idOrder: set<int> -> seq<int>)
    requires Enumerates(idOrder)
    requires s.graphs.Keys == {0} && s.linkToGraph == map[L01 := 0, L12 := 0] && s.graphId == 1
    ensures var r := StartStep(s, Stale[1], idOrder, AsWritten);
            && r.Ok? && 0 !in r.value.graphs && L01 in r.value.linkToGraph && r.value.linkToGraph[L01] == 0
  {
    var e := Stale[1];
    assert e.links == {L12, L23};
    assert Involved(s, {L12, L23}) == {0};
    MergeInto(s, e, idOrder, 0);
    assert L01 !in e.links;
  }

  lemma StaleStart3(s: State, idOrder: set<int> -> seq<int>)
    requires Enumerates(idOrder)
    requires 0 !in s.graphs && L01 in s.linkToGraph && s.linkToGraph[L01] == 0
    ensures StartStep(s, Stale[2], idOrder, AsWritten) == Err(KeyError)
  {
    var e := Stale[2];
    assert Involved(s, {L01}) == {0};
    StartStepFails(s, e, idOrder, AsWritten);
  }

  /**
   * As written, the stale-mapping example stops with a `KeyError` at flow 3's start; repaired, it
   * finishes.
   */
  lemma StaleFails(linkOrder: set<Link> -> seq<Link>, idOrder: set<int> -> seq<int>)
    requires Enumerates(linkOrder) && Enumerates(idOrder)
    ensures Sweep(Stale, linkOrder, idOrder, AsWritten) == Err(KeyError)
    ensures Sweep(Stale, linkOrder, idOrder, Corrected).Ok?
  {
    StaleStops(linkOrder, idOrder);
    StaleWellFormed();
    CorrectedSweepOk(Stale, linkOrder, idOrder);
  }

  /** The as-written half of `StaleFails`: flow 3's start finds link (0, 1) still naming graph 0. */
  lemma StaleStops(linkOrder: set<Link> -> seq<Link>, idOrder: set<int> -> seq<int>)
    requires Enumerates(linkOrder) && Enumerates(idOrder)
    ensures Sweep(Stale, linkOrder, idOrder, AsWritten) == Err(KeyError)
  {
    var ev := Stale;
    StaleStart1(linkOrder, idOrder);
    NextSweep(ev, 1, linkOrder, idOrder, AsWritten);
    NextSweep(ev, 2, linkOrder, idOrder, AsWritten);
    var s1 := Sweep(ev[..1], linkOrder, idOrder, AsWritten).value;
    StaleStart2(s1, idOrder);
    var s2 := StartStep(s1, ev[1], idOrder, AsWritten).value;
    StaleStart3(s2, idOrder);
    SweepStops(ev, 3, linkOrder, idOrder, AsWritten);
  }
}
