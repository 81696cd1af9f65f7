/**
 * The repaired sweep never fails. Each starting flow's links become the merged graph's links
 * (all of them are remapped to the new graph) and the id counter is never overwritten by an end
 * event. For any event sequence in which a flow starts at most once and ends only while it is
 * active and with the links it started with, the repaired sweep keeps every link mapped to the
 * live graph that holds it and every active flow in exactly one live graph, so no lookup misses.
 */
module BusyFixed {
  import opened Wrappers
  import opened Counting
  import opened BusyLogs
  import opened BusySweep
  import opened Sorting

  // ---------------------------------------------------------------- admissible event sequences

  /** The flows that have started during `evs`. */
  function Started(evs: seq<Event>): set<int>
  {
    if evs == [] then {}
    else
      var e := evs[|evs| - 1];
      Started(evs[..|evs| - 1]) + (if e.kind == Start then {e.flowId} else {})
  }

  /** The flows active after `evs`, each with the links it started with. */
  function Active(evs: seq<Event>): map<int, set<Link>>
  {
    if evs == [] then map[]
    else
      var e := evs[|evs| - 1];
      var before := Active(evs[..|evs| - 1]);
      if e.kind == Start then before[e.flowId := e.links] else before - {e.flowId}
  }

  /** After `evs`, event `e` may come: a start of a new flow, or the end of an active flow on its own links. */
  predicate Admissible(evs: seq<Event>, e: Event)
  {
    if e.kind == Start then e.flowId !in Started(evs)
    else e.flowId in Active(evs) && Active(evs)[e.flowId] == e.links
  }

  /** Every event is admissible after the ones before it. */
  predicate WellFormed(events: seq<Event>)
  {
    forall i | 0 <= i < |events| :: Admissible(events[..i], events[i])
  }

  // ---------------------------------------------------------------- the invariant

  /** Every mapped link points to a live graph that holds it. */
  predicate LinksLive(s: State)
  {
    forall l | l in s.linkToGraph :: s.linkToGraph[l] in s.graphs && l in s.graphs[s.linkToGraph[l]].activeLinks
  }

  /** Every link of a live graph is mapped to that graph. */
  predicate LinksOwned(s: State)
  {
    forall gid, l | gid in s.graphs && l in s.graphs[gid].activeLinks :: l in s.linkToGraph && s.linkToGraph[l] == gid
  }

  /** Live graph ids lie below the counter. */
  predicate IdsBelow(s: State)
  {
    forall gid | gid in s.graphs :: gid < s.graphId
  }

  /** No flow is active in two live graphs. */
  predicate FlowsApart(s: State)
  {
    forall g1, g2, f | g1 in s.graphs && g2 in s.graphs && f in s.graphs[g1].activeFlows && f in s.graphs[g2].activeFlows :: g1 == g2
  }

  /** Only started flows are active, in the graphs and in `active`. */
  predicate FlowsStarted(s: State, started: set<int>, active: map<int, set<Link>>)
  {
    && (forall gid, f | gid in s.graphs && f in s.graphs[gid].activeFlows :: f in started)
    && active.Keys <= started
  }

  /** Each link of an active flow is mapped to a live graph where the flow is active, on that link too. */
  predicate FlowsPlaced(s: State, active: map<int, set<Link>>)
  {
    forall f, l | f in active && l in active[f] ::
      && l in s.linkToGraph && s.linkToGraph[l] in s.graphs
      && f in s.graphs[s.linkToGraph[l]].activeFlows
      && l in s.graphs[s.linkToGraph[l]].activeLinks
      && f in s.graphs[s.linkToGraph[l]].activeLinks[l]
  }

  predicate Holds(s: State, started: set<int>, active: map<int, set<Link>>)
  {
    LinksLive(s) && LinksOwned(s) && IdsBelow(s) && FlowsApart(s) && FlowsStarted(s, started, active) && FlowsPlaced(s, active)
  }

  // ---------------------------------------------------------------- a start keeps the invariant

  /**
   * The state `t` the repaired start reaches from `s`, with `order` the touched graphs in
   * iteration order: the touched graphs give way to one new graph under the next id, holding their
   * active flows and the new one, their links with the new flow added on its own links, and every
   * one of its links is mapped to it.
   */
  ghost predicate StartReaches(s: State, e: Event, order: seq<int>, t: State)
  {
    var inv := Involved(s, e.links);
    && Elements(order) == inv
    && (forall k | 0 <= k < |order| :: order[k] in s.graphs)
    && s.graphId in t.graphs
    && t.graphs == (s.graphs - inv)[s.graphId := t.graphs[s.graphId]]
    && t.linkToGraph == s.linkToGraph + (map l | l in t.graphs[s.graphId].activeLinks.Keys :: s.graphId)
    && t.graphId == s.graphId + 1
    && t.graphs[s.graphId].activeFlows == ActiveOf(s.graphs, inv) + {e.flowId}
    && t.graphs[s.graphId].activeLinks.Keys == LinksOf(s.graphs, inv) + e.links
    && t.graphs[s.graphId].activeLinks == WithFlow(Merge(order, s.graphs).0, e.links, e.flowId)
  }

  /** The repaired start succeeds whenever every mapped link's graph is live, and reaches that state. */
  lemma StartShape(s: State, e: Event, idOrder: set<int> -> seq<int>)
    requires Enumerates(idOrder) && LinksLive(s)
    ensures StartStep(s, e, idOrder, Corrected).Ok?
    ensures StartReaches(s, e, idOrder(Involved(s, e.links)), StartStep(s, e, idOrder, Corrected).value)
  {
    StartStepFails(s, e, idOrder, Corrected);
    StartStepNewGraph(s, e, idOrder, Corrected);
    assert Elements(idOrder(Involved(s, e.links))) == Involved(s, e.links);
  }

  /** In a merge of graphs that own their links, a link keeps the flows of its own graph. */
  lemma MergeOwnValue(s: State, ids: seq<int>, l: Link, h: int)
    requires LinksOwned(s) && forall k | 0 <= k < |ids| :: ids[k] in s.graphs
    requires h in Elements(ids) && l in s.graphs[h].activeLinks
    ensures l in Merge(ids, s.graphs).0 && Merge(ids, s.graphs).0[l] == s.graphs[h].activeLinks[l]
  {
    var m := Merge(ids, s.graphs).0;
    MergeMeaning(ids, s.graphs);
    assert l in LinksOf(s.graphs, Elements(ids));
    MergeValues(ids, s.graphs);
    var k :| 0 <= k < |ids| && l in s.graphs[ids[k]].activeLinks && m[l] == s.graphs[ids[k]].activeLinks[l];
    assert s.linkToGraph[l] == ids[k];
  }

  /** A link of a graph the flow's links do not touch is neither one of those links nor a link of a touched graph. */
  lemma Untouched(s: State, links: set<Link>, gid: int, l: Link)
    requires LinksOwned(s) && gid in s.graphs && gid !in Involved(s, links) && l in s.graphs[gid].activeLinks
    ensures l !in links && l !in LinksOf(s.graphs, Involved(s, links))
  {
    assert s.linkToGraph[l] == gid;
  }

  /** A mapped link whose graph is touched is a link of the touched graphs. */
  lemma TouchedLink(s: State, links: set<Link>, l: Link)
    requires LinksLive(s) && l in s.linkToGraph
    ensures s.linkToGraph[l] in Involved(s, links) ==> l in LinksOf(s.graphs, Involved(s, links))
  {
    var h := s.linkToGraph[l];
    assert h in s.graphs && l in s.graphs[h].activeLinks;
  }

  /** A flow active in an untouched graph is active in none of the touched ones. */
  lemma ApartFromTouched(s: State, inv: set<int>)
    requires FlowsApart(s)
    ensures forall gid, f | gid in s.graphs && gid !in inv && f in s.graphs[gid].activeFlows :: f !in ActiveOf(s.graphs, inv)
  {
  }

  /** A start keeps every mapped link on a live graph that holds it. */
  lemma StartKeepsLive(s: State, e: Event, order: seq<int>, t: State)
    requires LinksLive(s) && IdsBelow(s) && StartReaches(s, e, order, t)
    ensures LinksLive(t)
  {
    forall l | l in t.linkToGraph
      ensures t.linkToGraph[l] in t.graphs && l in t.graphs[t.linkToGraph[l]].activeLinks
    {
      if l in s.linkToGraph {
        TouchedLink(s, e.links, l);
      }
    }
  }

  /** A start keeps every link of a live graph mapped to it, and every live id below the counter. */
  lemma StartKeepsOwned(s: State, e: Event, order: seq<int>, t: State)
    requires LinksOwned(s) && IdsBelow(s) && StartReaches(s, e, order, t)
    ensures LinksOwned(t) && IdsBelow(t)
  {
    forall gid, l | gid in t.graphs && l in t.graphs[gid].activeLinks
      ensures l in t.linkToGraph && t.linkToGraph[l] == gid
    {
      if gid != s.graphId {
        Untouched(s, e.links, gid, l);
      }
    }
  }

  /** A start of a new flow keeps each active flow in one live graph. */
  lemma StartKeepsApart(s: State, e: Event, order: seq<int>, t: State, started: set<int>, active: map<int, set<Link>>)
    requires FlowsApart(s) && FlowsStarted(s, started, active) && e.flowId !in started && StartReaches(s, e, order, t)
    ensures FlowsApart(t)
  {
    ApartFromTouched(s, Involved(s, e.links));
  }

  /** A start of a new flow keeps only started flows active. */
  lemma StartKeepsStarted(s: State, e: Event, order: seq<int>, t: State, started: set<int>, active: map<int, set<Link>>)
    requires FlowsStarted(s, started, active) && StartReaches(s, e, order, t)
    ensures FlowsStarted(t, started + {e.flowId}, active[e.flowId := e.links])
  {
    var inv := Involved(s, e.links);
    forall gid, f | gid in t.graphs && f in t.graphs[gid].activeFlows
      ensures f in started + {e.flowId}
    {
      if gid == s.graphId && f != e.flowId {
        var h :| h in inv && h in s.graphs && f in s.graphs[h].activeFlows;
      }
    }
  }

  /** After a start, each link of each active flow, the new one included, leads to a graph holding the flow there. */
  lemma StartKeepsPlaced(s: State, e: Event, order: seq<int>, t: State, started: set<int>, active: map<int, set<Link>>)
    requires Holds(s, started, active) && StartReaches(s, e, order, t)
    ensures FlowsPlaced(t, active[e.flowId := e.links])
  {
    var act := active[e.flowId := e.links];
    forall f, l | f in act && l in act[f]
      ensures && l in t.linkToGraph && t.linkToGraph[l] in t.graphs
              && f in t.graphs[t.linkToGraph[l]].activeFlows
              && l in t.graphs[t.linkToGraph[l]].activeLinks
              && f in t.graphs[t.linkToGraph[l]].activeLinks[l]
    {
      if f == e.flowId {
        WithFlowAt(Merge(order, s.graphs).0, e.links, e.flowId, l);
      } else {
        StartPlacesOther(s, e, order, t, active, f, l);
      }
    }
  }

  /** A flow already active keeps each of its links on a graph holding it there. */
  lemma StartPlacesOther(s: State, e: Event, order: seq<int>, t: State, active: map<int, set<Link>>, f: int, l: Link)
    requires LinksOwned(s) && IdsBelow(s) && FlowsPlaced(s, active) && StartReaches(s, e, order, t)
    requires f in active && l in active[f] && f != e.flowId
    ensures && l in t.linkToGraph && t.linkToGraph[l] in t.graphs
            && f in t.graphs[t.linkToGraph[l]].activeFlows
            && l in t.graphs[t.linkToGraph[l]].activeLinks
            && f in t.graphs[t.linkToGraph[l]].activeLinks[l]
  {
    var inv := Involved(s, e.links);
    var h := s.linkToGraph[l];
    if h in inv {
      assert l in LinksOf(s.graphs, inv);
      assert f in ActiveOf(s.graphs, inv);
      MergeOwnValue(s, order, l, h);
      WithFlowAt(Merge(order, s.graphs).0, e.links, e.flowId, l);
    } else {
      Untouched(s, e.links, h, l);
    }
  }

  /** A start of a flow that has not started yet succeeds and keeps the invariant. */
  lemma StartPreserves(s: State, e: Event, idOrder: set<int> -> seq<int>, started: set<int>, active: map<int, set<Link>>)
    requires Enumerates(idOrder) && Holds(s, started, active) && e.flowId !in started
    ensures StartStep(s, e, idOrder, Corrected).Ok?
    ensures Holds(StartStep(s, e, idOrder, Corrected).value, started + {e.flowId}, active[e.flowId := e.links])
  {
    StartShape(s, e, idOrder);
    var order := idOrder(Involved(s, e.links));
    var t := StartStep(s, e, idOrder, Corrected).value;
    StartKeepsLive(s, e, order, t);
    StartKeepsOwned(s, e, order, t);
    StartKeepsApart(s, e, order, t, started, active);
    StartKeepsStarted(s, e, order, t, started, active);
    StartKeepsPlaced(s, e, order, t, started, active);
  }

  // ---------------------------------------------------------------- an end keeps the invariant

  /** The graph an active flow's end finds holds the flow as active and on each of its links. */
  lemma EndFinds(s: State, e: Event, linkOrder: set<Link> -> seq<Link>, started: set<int>, active: map<int, set<Link>>)
    requires Enumerates(linkOrder) && Holds(s, started, active)
    requires e.flowId in active && active[e.flowId] == e.links && e.links != {}
    ensures EndTarget(s, e, linkOrder).Some?
    ensures var gid := EndTarget(s, e, linkOrder).value;
            && gid in s.graphs && e.flowId in s.graphs[gid].activeFlows
            && forall l | l in e.links :: l in s.graphs[gid].activeLinks && e.flowId in s.graphs[gid].activeLinks[l]
  {
    EndTargetMeaning(s, e, linkOrder);
    var l0 :| l0 in e.links;
    assert l0 in s.linkToGraph;
    var gid := EndTarget(s, e, linkOrder).value;
    var l1 :| l1 in e.links && l1 in s.linkToGraph && s.linkToGraph[l1] == gid;
    assert e.flowId in s.graphs[gid].activeFlows;
    forall l | l in e.links ensures l in s.graphs[gid].activeLinks && e.flowId in s.graphs[gid].activeLinks[l] {
      var h := s.linkToGraph[l];
      assert e.flowId in s.graphs[h].activeFlows;
    }
  }

  /** The end of an active flow on its own links succeeds and keeps the invariant. */
  lemma EndPreserves(s: State, e: Event, linkOrder: set<Link> -> seq<Link>, started: set<int>, active: map<int, set<Link>>)
    requires Enumerates(linkOrder) && Holds(s, started, active)
    requires e.flowId in active && active[e.flowId] == e.links
    ensures EndStep(s, e, linkOrder, Corrected).Ok?
    ensures Holds(EndStep(s, e, linkOrder, Corrected).value, started, active - {e.flowId})
  {
    var f := e.flowId;
    if e.links == {} {
      EndTargetMeaning(s, e, linkOrder);
    } else {
      EndFinds(s, e, linkOrder, started, active);
      EndStepMeaning(s, e, linkOrder, Corrected);
      var gid := EndTarget(s, e, linkOrder).value;
      var g := s.graphs[gid];
      var t := EndStep(s, e, linkOrder, Corrected).value;
      if g.activeFlows == {f} {
        EndDropKeeps(s, gid, t, active, started, f);
      } else {
        EndShrinkKeeps(s, gid, t, active, started, e);
      }
    }
  }

  /** Dropping the graph whose only active flow ends keeps the invariant. */
  lemma EndDropKeeps(s: State, gid: int, t: State, active: map<int, set<Link>>, started: set<int>, f: int)
    requires Holds(s, started, active) && gid in s.graphs && s.graphs[gid].activeFlows == {f}
    requires t.graphs == s.graphs - {gid} && t.linkToGraph == s.linkToGraph - s.graphs[gid].activeLinks.Keys
    requires t.graphId == s.graphId
    ensures Holds(t, started, active - {f})
  {
    var g := s.graphs[gid];
    forall l | l in t.linkToGraph ensures t.linkToGraph[l] in t.graphs && l in t.graphs[t.linkToGraph[l]].activeLinks {
      assert l in s.graphs[s.linkToGraph[l]].activeLinks;
    }
    forall gid', l | gid' in t.graphs && l in t.graphs[gid'].activeLinks ensures l in t.linkToGraph && t.linkToGraph[l] == gid' {
      assert s.linkToGraph[l] == gid';
    }
    forall f', l | f' in active - {f} && l in (active - {f})[f']
      ensures && l in t.linkToGraph && t.linkToGraph[l] in t.graphs
              && f' in t.graphs[t.linkToGraph[l]].activeFlows
              && l in t.graphs[t.linkToGraph[l]].activeLinks
              && f' in t.graphs[t.linkToGraph[l]].activeLinks[l]
    {
      assert s.linkToGraph[l] != gid;
      assert l !in g.activeLinks;
    }
  }

  /** Removing an ending flow from a graph that keeps other active flows keeps the invariant. */
  lemma EndShrinkKeeps(s: State, gid: int, t: State, active: map<int, set<Link>>, started: set<int>, e: Event)
    requires Holds(s, started, active) && gid in s.graphs
    requires t.graphs.Keys == s.graphs.Keys && t.linkToGraph == s.linkToGraph && t.graphId == s.graphId
    requires forall other | other in s.graphs && other != gid :: t.graphs[other] == s.graphs[other]
    requires t.graphs[gid].activeFlows == s.graphs[gid].activeFlows - {e.flowId}
    requires t.graphs[gid].activeLinks.Keys == s.graphs[gid].activeLinks.Keys
    requires forall l | l in s.graphs[gid].activeLinks ::
               t.graphs[gid].activeLinks[l] == if l in e.links then s.graphs[gid].activeLinks[l] - {e.flowId} else s.graphs[gid].activeLinks[l]
    ensures Holds(t, started, active - {e.flowId})
  {
    forall l | l in t.linkToGraph ensures t.linkToGraph[l] in t.graphs && l in t.graphs[t.linkToGraph[l]].activeLinks {
      var h := s.linkToGraph[l];
      assert h in s.graphs;
    }
    forall gid', l | gid' in t.graphs && l in t.graphs[gid'].activeLinks ensures l in t.linkToGraph && t.linkToGraph[l] == gid' {
      assert l in s.graphs[gid'].activeLinks;
    }
    forall f, l | f in active - {e.flowId} && l in (active - {e.flowId})[f]
      ensures && l in t.linkToGraph && t.linkToGraph[l] in t.graphs
              && f in t.graphs[t.linkToGraph[l]].activeFlows
              && l in t.graphs[t.linkToGraph[l]].activeLinks
              && f in t.graphs[t.linkToGraph[l]].activeLinks[l]
    {
      var h := s.linkToGraph[l];
      assert f in s.graphs[h].activeFlows && f in s.graphs[h].activeLinks[l];
    }
    forall g1, g2, f | g1 in t.graphs && g2 in t.graphs && f in t.graphs[g1].activeFlows && f in t.graphs[g2].activeFlows
      ensures g1 == g2
    {
      assert f in s.graphs[g1].activeFlows && f in s.graphs[g2].activeFlows;
    }
    forall gid', f | gid' in t.graphs && f in t.graphs[gid'].activeFlows ensures f in started {
      assert f in s.graphs[gid'].activeFlows;
    }
  }

  // ---------------------------------------------------------------- the theorem

  lemma InitHolds()
    ensures Holds(Init, {}, map[])
  {
  }

  /**
   * On a well-formed event sequence the repaired sweep never fails, and it ends with the invariant
   * for the flows started and still active.
   */
  lemma {:induction false} CorrectedSweepOk(events: seq<Event>, linkOrder: set<Link> -> seq<Link>, idOrder: set<int> -> seq<int>)
    requires Enumerates(linkOrder) && Enumerates(idOrder) && WellFormed(events)
    ensures Sweep(events, linkOrder, idOrder, Corrected).Ok?
    ensures Holds(Sweep(events, linkOrder, idOrder, Corrected).value, Started(events), Active(events))
    decreases |events|
  {
    if events == [] {
      InitHolds();
    } else {
      var init := events[..|events| - 1];
      var e := events[|events| - 1];
      assert WellFormed(init) by {
        forall i | 0 <= i < |init| ensures Admissible(init[..i], init[i]) {
          assert init[..i] == events[..i];
          assert Admissible(events[..i], events[i]);
        }
      }
      assert Admissible(init, e) by {
        assert Admissible(events[..|events| - 1], events[|events| - 1]);
      }
      CorrectedSweepOk(init, linkOrder, idOrder);
      var s := Sweep(init, linkOrder, idOrder, Corrected).value;
      if e.kind == Start {
        StartPreserves(s, e, idOrder, Started(init), Active(init));
      } else {
        EndPreserves(s, e, linkOrder, Started(init), Active(init));
      }
    }
  }

  // ---------------------------------------------------------------- the events of a flow table

  /** A flow with no start event in `evs` has not started. */
  lemma {:induction false} NotStarted(evs: seq<Event>, id: int)
    requires forall k | 0 <= k < |evs| :: !(evs[k].kind == Start && evs[k].flowId == id)
    ensures id !in Started(evs)
    decreases |evs|
  {
    if evs != [] {
      NotStarted(evs[..|evs| - 1], id);
    }
  }

  /** A flow whose last event in `evs` is a start is active, with that start's links. */
  lemma {:induction false} ActiveSince(evs: seq<Event>, id: int, j: nat)
    requires j < |evs| && evs[j].kind == Start && evs[j].flowId == id
    requires forall k | j < k < |evs| :: evs[k].flowId != id
    ensures id in Active(evs) && Active(evs)[id] == evs[j].links
    decreases |evs|
  {
    if j < |evs| - 1 {
      var init := evs[..|evs| - 1];
      assert forall k | j < k < |init| :: init[k] == evs[k];
      ActiveSince(init, id, j);
    }
  }

  /**
   * The sorted events of a flow table whose every flow ends strictly after it starts are well
   * formed, so the repaired sweep over them never fails.
   */
  lemma EventsWellFormed(flows: map<int, FlowInfo>, events: seq<Event>, linkOrder: set<Link> -> seq<Link>, idOrder: set<int> -> seq<int>)
    requires forall id | id in flows :: flows[id].start < flows[id].end
    requires forall e :: e in events <==> IsEventOf(flows, e)
    requires Distinct(events) && SortedBy(events, EventLe())
    requires Enumerates(linkOrder) && Enumerates(idOrder)
    ensures WellFormed(events)
    ensures Sweep(events, linkOrder, idOrder, Corrected).Ok?
  {
    forall i | 0 <= i < |events| ensures Admissible(events[..i], events[i]) {
      var e := events[i];
      assert e in events;
      var id := e.flowId;
      var pre := events[..i];
      if e.kind == Start {
        forall k | 0 <= k < |pre| ensures !(pre[k].kind == Start && pre[k].flowId == id) {
          assert pre[k] == events[k] && events[k] in events;
          DistinctAt(events, k, i);
        }
        NotStarted(pre, id);
      } else {
        var st := StartEvent(id, flows[id]);
        assert st in events;
        var j :| 0 <= j < |events| && events[j] == st;
        EarlierFirst(events, j, i);
        forall k | j < k < |pre| ensures pre[k].flowId != id {
          assert pre[k] == events[k] && events[k] in events;
          DistinctAt(events, k, i);
          DistinctAt(events, k, j);
        }
        ActiveSince(pre, id, j);
      }
    }
    CorrectedSweepOk(events, linkOrder, idOrder);
  }

  /** In a sorted event list an event of an earlier time comes first. */
  lemma EarlierFirst(events: seq<Event>, a: nat, b: nat)
    requires SortedBy(events, EventLe()) && a < |events| && b < |events| && events[a].time < events[b].time
    ensures a < b
  {
  }

  /** Two positions of a sequence without repeats hold different elements. */
  lemma DistinctAt<T>(q: seq<T>, a: nat, b: nat)
    requires Distinct(q) && a < |q| && b < |q| && a != b
    ensures q[a] != q[b]
  {
  }
}
