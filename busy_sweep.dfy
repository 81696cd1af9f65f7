/**
 * The busy-period sweep. Every flow's start and end become events, sorted by time. The sweep keeps
 * one bipartite graph of links and active flows per group of flows that share links: a starting
 * flow merges every graph its links touch into a new one, and when the last active flow of a graph
 * ends, the graph is recorded as a busy period and dropped. Python set iteration orders are
 * inputs: `linkOrder` lists a set of links and `idOrder` a set of graph ids in the order the loops
 * visit them.
 */
module BusySweep {
  import opened Wrappers
  import opened Sorting
  import opened Counting
  import opened BusyLogs

  // ---------------------------------------------------------------- events

  /** The kind of an event; `End` sorts first, as the string 'end' sorts before 'start'. */
  datatype Kind = End | Start

  function KindRank(k: Kind): nat
  {
    if k == End then 0 else 1
  }

  /** An event: its time, its kind, the flow's id and the flow's links. */
  datatype Event = Event(time: int, kind: Kind, flowId: int, links: set<Link>)

  /**
   * Python's order on the event tuples: by time, then kind, then flow id. The fourth component
   * (the link set) is never compared, as no two events share time, kind and id.
   */
  function EventLe(): (Event, Event) -> bool
  {
    (a: Event, b: Event) =>
      a.time < b.time || (a.time == b.time && (KindRank(a.kind) < KindRank(b.kind) || (a.kind == b.kind && a.flowId <= b.flowId)))
  }

  /** The event order is a total preorder, and two events it ranks both ways share time, kind and id. */
  lemma EventLeTotal()
    ensures TotalPreorder(EventLe())
    ensures forall a, b | EventLe()(a, b) && EventLe()(b, a) :: a.time == b.time && a.kind == b.kind && a.flowId == b.flowId
  {
  }

  /** A flow's start event. */
  function StartEvent(id: int, f: FlowInfo): Event
  {
    Event(f.start, Start, id, f.links)
  }

  /** A flow's end event. */
  function EndEvent(id: int, f: FlowInfo): Event
  {
    Event(f.end, End, id, f.links)
  }

  /** `e` is the start or the end event of a flow of `flows`. */
  predicate IsEventOf(flows: map<int, FlowInfo>, e: Event)
  {
    e.flowId in flows && (e == StartEvent(e.flowId, flows[e.flowId]) || e == EndEvent(e.flowId, flows[e.flowId]))
  }

  /**
   * The event list of the sweep: both events of every flow, once each, sorted by time, kind and
   * id. The dictionary's own order does not matter, as no two events are ranked equal.
   */
  method BuildEvents(flows: map<int, FlowInfo>) returns (events: seq<Event>)
    ensures forall e :: e in events <==> IsEventOf(flows, e)
    ensures Distinct(events) && |events| == 2 * |flows.Keys|
    ensures SortedBy(events, EventLe())
  {
    var ids := Enumerate(flows.Keys);
    var raw: seq<Event> := [];
    for i := 0 to |ids|
      invariant |raw| == 2 * i && Distinct(raw)
      invariant forall e :: e in raw <==> e.flowId in Elements(ids[..i]) && IsEventOf(flows, e)
    {
      var id := ids[i];
      assert id !in Elements(ids[..i]);
      ElementsSnoc(ids[..i], id);
      assert ids[..i + 1] == ids[..i] + [id];
      raw := raw + [StartEvent(id, flows[id]), EndEvent(id, flows[id])];
    }
    assert ids[..|ids|] == ids;
    EventLeTotal();
    events := SortBy(raw, EventLe());
    SortByLength(raw, EventLe());
    DistinctPermutation(raw, events);
    assert forall e :: e in events <==> e in multiset(raw);
    DistinctCount(ids);
  }

  // ---------------------------------------------------------------- the sweep's state

  /** A bipartite graph: the flows still active on each link, the active flows, every flow it ever held, and when it began. */
  datatype Graph = Graph(activeLinks: map<Link, set<int>>, activeFlows: set<int>, allFlows: set<int>, startTime: int)

  /** A busy period: when it began and ended, its links and all its flows. */
  datatype Period = Period(start: int, end: int, links: set<Link>, flows: set<int>)

  /** The sweep's variables: the live graphs by id, the graph of each link, the id counter and the periods so far. */
  datatype State = State(graphs: map<int, Graph>, linkToGraph: map<Link, int>, graphId: int, periods: seq<Period>)

  /** The exception that stops the sweep: a dictionary lookup or set removal of a missing key. */
  datatype SweepError = KeyError

  /** The sweep as the source has it, or with the two repairs of the corrected model. */
  datatype Variant = AsWritten | Corrected

  /** Before the first event. */
  const Init: State := State(map[], map[], 0, [])

  /** `order` lists the elements of every set once each. */
  ghost predicate Enumerates<T(!new)>(order: set<T> -> seq<T>)
  {
    forall s :: Elements(order(s)) == s && Distinct(order(s))
  }

  /** The graph ids the mapped links of `links` point to. */
  function Involved(s: State, links: set<Link>): set<int>
  {
    set l | l in links && l in s.linkToGraph :: s.linkToGraph[l]
  }

  /**
   * The merge of the graphs `ids` in order: the link maps with later graphs replacing earlier
   * ones at a shared link (`dict.update`), and the unions of the flow sets.
   */
  function Merge(ids: seq<int>, graphs: map<int, Graph>): (map<Link, set<int>>, set<int>, set<int>)
    requires forall k | 0 <= k < |ids| :: ids[k] in graphs
  {
    if ids == [] then (map[], {}, {})
    else
      var m := Merge(ids[..|ids| - 1], graphs);
      var g := graphs[ids[|ids| - 1]];
      (m.0 + g.activeLinks, m.1 + g.activeFlows, m.2 + g.allFlows)
  }

  /** The link map `links` with flow `f` added on each of `ls` (a `defaultdict(set)` update). */
  function WithFlow(links: map<Link, set<int>>, ls: set<Link>, f: int): map<Link, set<int>>
  {
    map l | l in links.Keys + ls :: FlowsAt(links, l) + (if l in ls then {f} else {})
  }

  /**
   * A start event: every graph the flow's links touch is removed and merged into a new graph with
   * the next id, holding the flow on its links and beginning now; with no graph touched, the new
   * graph holds the flow alone. The flow's links are mapped to the new graph (as written), or
   * every link of the new graph is (corrected). A touched id with no live graph is a `KeyError`.
   */
  function StartStep(s: State, e: Event, idOrder: set<int> -> seq<int>, v: Variant): Result<State, SweepError>
  {
    var order := idOrder(Involved(s, e.links));
    if exists k | 0 <= k < |order| :: order[k] !in s.graphs then Err(KeyError)
    else
      var m := Merge(order, s.graphs);
      var links := WithFlow(m.0, e.links, e.flowId);
      var g := Graph(links, m.1 + {e.flowId}, m.2 + {e.flowId}, e.time);
      var remapped := if v == AsWritten then e.links else links.Keys;
      Ok(State((s.graphs - Elements(order))[s.graphId := g],
               s.linkToGraph + map l | l in remapped :: s.graphId,
               s.graphId + 1, s.periods))
  }

  /** The index of the first of `order` that `m` maps, or `|order|` when there is none. */
  function FirstMapped<K, V>(order: seq<K>, m: map<K, V>): (i: nat)
    ensures i <= |order| && (i < |order| ==> order[i] in m)
    ensures forall k | 0 <= k < i :: order[k] !in m
  {
    if order == [] || order[0] in m then 0 else 1 + FirstMapped(order[1..], m)
  }

  /** The graph id an end event looks up: that of its first mapped link, if any. */
  function EndTarget(s: State, e: Event, linkOrder: set<Link> -> seq<Link>): Option<int>
  {
    var order := linkOrder(e.links);
    var i := FirstMapped(order, s.linkToGraph);
    if i == |order| then None else Some(s.linkToGraph[order[i]])
  }

  /**
   * An end event: the graph of the flow's first mapped link (in iteration order) loses the flow
   * on each of its links and from its active flows; when no active flow remains, the graph is
   * recorded as a busy period from its start to now and dropped, with the mappings of all its
   * links. A flow none of whose links is mapped changes nothing. The id counter is set to the
   * graph's id (as written) or kept (corrected). A missing graph, link entry or flow is a `KeyError`.
   */
  function EndStep(s: State, e: Event, linkOrder: set<Link> -> seq<Link>, v: Variant): Result<State, SweepError>
  {
    match EndTarget(s, e, linkOrder)
    case None => Ok(s)
    case Some(gid) =>
      var f := e.flowId;
      if gid !in s.graphs then Err(KeyError)
      else
        var g := s.graphs[gid];
        if (exists l | l in e.links :: l !in g.activeLinks || f !in g.activeLinks[l]) || f !in g.activeFlows then Err(KeyError)
        else
          var counter := if v == AsWritten then gid else s.graphId;
          var links := map l | l in g.activeLinks :: if l in e.links then g.activeLinks[l] - {f} else g.activeLinks[l];
          var flows := g.activeFlows - {f};
          if flows == {} then
            Ok(State(s.graphs - {gid}, s.linkToGraph - g.activeLinks.Keys, counter,
                     s.periods + [Period(g.startTime, e.time, g.activeLinks.Keys, g.allFlows)]))
          else
            Ok(State(s.graphs[gid := Graph(links, flows, g.allFlows, g.startTime)], s.linkToGraph, counter, s.periods))
  }

  /** One event. */
  function Step(s: State, e: Event, linkOrder: set<Link> -> seq<Link>, idOrder: set<int> -> seq<int>, v: Variant): Result<State, SweepError>
  {
    if e.kind == Start then StartStep(s, e, idOrder, v) else EndStep(s, e, linkOrder, v)
  }

  /** The events in order from the initial state, stopping at the first error. */
  function Sweep(events: seq<Event>, linkOrder: set<Link> -> seq<Link>, idOrder: set<int> -> seq<int>, v: Variant): Result<State, SweepError>
  {
    if events == [] then Ok(Init)
    else
      match Sweep(events[..|events| - 1], linkOrder, idOrder, v)
      case Err(err) => Err(err)
      case Ok(s) => Step(s, events[|events| - 1], linkOrder, idOrder, v)
  }

  /** The busy periods of a finished sweep, or its error. */
  function PeriodsOf(r: Result<State, SweepError>): Result<seq<Period>, SweepError>
  {
    match r
    case Ok(s) => Ok(s.periods)
    case Err(err) => Err(err)
  }

  /** One more event runs one more step from the state the prefix reached. */
  lemma SweepSnoc(events: seq<Event>, i: nat, s: State, linkOrder: set<Link> -> seq<Link>, idOrder: set<int> -> seq<int>, v: Variant)
    requires i < |events| && Sweep(events[..i], linkOrder, idOrder, v) == Ok(s)
    ensures Sweep(events[..i + 1], linkOrder, idOrder, v) == Step(s, events[i], linkOrder, idOrder, v)
  {
    assert events[..i + 1][..i] == events[..i];
  }

  /** Once a prefix of the events fails, the whole sweep fails the same way. */
  lemma {:induction false} SweepStops(events: seq<Event>, n: nat, linkOrder: set<Link> -> seq<Link>, idOrder: set<int> -> seq<int>, v: Variant)
    requires n <= |events| && Sweep(events[..n], linkOrder, idOrder, v).Err?
    ensures Sweep(events, linkOrder, idOrder, v) == Sweep(events[..n], linkOrder, idOrder, v)
    decreases |events| - n
  {
    if n < |events| {
      assert events[..n + 1][..n] == events[..n];
      SweepStops(events, n + 1, linkOrder, idOrder, v);
    } else {
      assert events[..n] == events;
    }
  }

  // ---------------------------------------------------------------- what a step does

  /** The active flows of the graphs `ids`. */
  function ActiveOf(graphs: map<int, Graph>, ids: set<int>): set<int>
  {
    set gid, f | gid in ids && gid in graphs && f in graphs[gid].activeFlows :: f
  }

  /** Every flow the graphs `ids` ever held. */
  function AllOf(graphs: map<int, Graph>, ids: set<int>): set<int>
  {
    set gid, f | gid in ids && gid in graphs && f in graphs[gid].allFlows :: f
  }

  /** The links of the graphs `ids`. */
  function LinksOf(graphs: map<int, Graph>, ids: set<int>): set<Link>
  {
    set gid, l | gid in ids && gid in graphs && l in graphs[gid].activeLinks :: l
  }

  lemma ActiveOfAdd(graphs: map<int, Graph>, ids: set<int>, gid: int)
    requires gid in graphs
    ensures ActiveOf(graphs, ids + {gid}) == ActiveOf(graphs, ids) + graphs[gid].activeFlows
  {
    forall f | f in ActiveOf(graphs, ids + {gid}) ensures f in ActiveOf(graphs, ids) + graphs[gid].activeFlows {
      var h :| h in ids + {gid} && h in graphs && f in graphs[h].activeFlows;
    }
    forall f | f in ActiveOf(graphs, ids) + graphs[gid].activeFlows ensures f in ActiveOf(graphs, ids + {gid}) {
      if f !in graphs[gid].activeFlows {
        var h :| h in ids && h in graphs && f in graphs[h].activeFlows;
        assert h in ids + {gid};
      }
    }
  }

  lemma AllOfAdd(graphs: map<int, Graph>, ids: set<int>, gid: int)
    requires gid in graphs
    ensures AllOf(graphs, ids + {gid}) == AllOf(graphs, ids) + graphs[gid].allFlows
  {
    forall f | f in AllOf(graphs, ids + {gid}) ensures f in AllOf(graphs, ids) + graphs[gid].allFlows {
      var h :| h in ids + {gid} && h in graphs && f in graphs[h].allFlows;
    }
    forall f | f in AllOf(graphs, ids) + graphs[gid].allFlows ensures f in AllOf(graphs, ids + {gid}) {
      if f !in graphs[gid].allFlows {
        var h :| h in ids && h in graphs && f in graphs[h].allFlows;
        assert h in ids + {gid};
      }
    }
  }

  lemma LinksOfAdd(graphs: map<int, Graph>, ids: set<int>, gid: int)
    requires gid in graphs
    ensures LinksOf(graphs, ids + {gid}) == LinksOf(graphs, ids) + graphs[gid].activeLinks.Keys
  {
    forall l | l in LinksOf(graphs, ids + {gid}) ensures l in LinksOf(graphs, ids) + graphs[gid].activeLinks.Keys {
      var h :| h in ids + {gid} && h in graphs && l in graphs[h].activeLinks;
    }
    forall l | l in LinksOf(graphs, ids) + graphs[gid].activeLinks.Keys ensures l in LinksOf(graphs, ids + {gid}) {
      if l !in graphs[gid].activeLinks {
        var h :| h in ids && h in graphs && l in graphs[h].activeLinks;
        assert h in ids + {gid};
      }
    }
  }

  /** A merge holds the links, the active flows and all the flows of the merged graphs. */
  lemma {:induction false} MergeMeaning(ids: seq<int>, graphs: map<int, Graph>)
    requires forall k | 0 <= k < |ids| :: ids[k] in graphs
    ensures Merge(ids, graphs).0.Keys == LinksOf(graphs, Elements(ids))
    ensures Merge(ids, graphs).1 == ActiveOf(graphs, Elements(ids))
    ensures Merge(ids, graphs).2 == AllOf(graphs, Elements(ids))
    decreases |ids|
  {
    if ids != [] {
      var init := ids[..|ids| - 1];
      var gid := ids[|ids| - 1];
      assert ids == init + [gid];
      MergeMeaning(init, graphs);
      ElementsSnoc(init, gid);
      ActiveOfAdd(graphs, Elements(init), gid);
      AllOfAdd(graphs, Elements(init), gid);
      LinksOfAdd(graphs, Elements(init), gid);
    }
  }

  /** Each link's flows in a merge are that link's flows in one of the merged graphs. */
  lemma {:induction false} MergeValues(ids: seq<int>, graphs: map<int, Graph>)
    requires forall k | 0 <= k < |ids| :: ids[k] in graphs
    ensures forall l | l in Merge(ids, graphs).0 ::
              exists k | 0 <= k < |ids| :: l in graphs[ids[k]].activeLinks && Merge(ids, graphs).0[l] == graphs[ids[k]].activeLinks[l]
    decreases |ids|
  {
    if ids != [] {
      var init := ids[..|ids| - 1];
      var gid := ids[|ids| - 1];
      MergeValues(init, graphs);
      var m := Merge(ids, graphs);
      forall l | l in m.0
        ensures exists k | 0 <= k < |ids| :: l in graphs[ids[k]].activeLinks && m.0[l] == graphs[ids[k]].activeLinks[l]
      {
        if l !in graphs[gid].activeLinks {
          assert m.0 == Merge(init, graphs).0 + graphs[gid].activeLinks;
          assert l in Merge(init, graphs).0;
          var k :| 0 <= k < |init| && l in graphs[init[k]].activeLinks && Merge(init, graphs).0[l] == graphs[init[k]].activeLinks[l];
          assert ids[k] == init[k];
        }
      }
    }
  }

  /** A start fails exactly when one of the graphs its links touch is not live. */
  lemma StartStepFails(s: State, e: Event, idOrder: set<int> -> seq<int>, v: Variant)
    requires Enumerates(idOrder)
    ensures StartStep(s, e, idOrder, v).Ok? <==> Involved(s, e.links) <= s.graphs.Keys
  {
    var order := idOrder(Involved(s, e.links));
    assert Elements(order) == Involved(s, e.links);
    if !StartStep(s, e, idOrder, v).Ok? {
      var k :| 0 <= k < |order| && order[k] !in s.graphs;
      assert order[k] in Involved(s, e.links);
    }
  }

  /**
   * A successful start replaces the touched graphs by one graph at the counter's id, keeps every
   * other graph, moves the counter on, maps each of the flow's links to the new graph and records
   * no period. As written, only the flow's own links are remapped; corrected, every link of the new
   * graph is.
   */
  lemma StartStepGraphs(s: State, e: Event, idOrder: set<int> -> seq<int>, v: Variant)
    requires Enumerates(idOrder)
    ensures StartStep(s, e, idOrder, v).Ok? ==>
              var inv := Involved(s, e.links);
              var t := StartStep(s, e, idOrder, v).value;
              && t.graphs.Keys == s.graphs.Keys - inv + {s.graphId}
              && (forall gid | gid in s.graphs && gid !in inv && gid != s.graphId :: t.graphs[gid] == s.graphs[gid])
              && (forall l | l in e.links :: t.linkToGraph[l] == s.graphId)
              && (v == AsWritten ==> t.linkToGraph == s.linkToGraph + (map l | l in e.links :: s.graphId))
              && (v == Corrected ==> t.linkToGraph == s.linkToGraph + (map l | l in t.graphs[s.graphId].activeLinks :: s.graphId))
              && t.graphId == s.graphId + 1 && t.periods == s.periods
  {
    var order := idOrder(Involved(s, e.links));
    assert Elements(order) == Involved(s, e.links);
  }

  /**
   * The graph a successful start creates holds the active flows, all the flows and the links of the
   * touched graphs, plus the new flow on each of its links, and begins now.
   */
  lemma StartStepNewGraph(s: State, e: Event, idOrder: set<int> -> seq<int>, v: Variant)
    requires Enumerates(idOrder)
    ensures StartStep(s, e, idOrder, v).Ok? ==>
              var inv := Involved(s, e.links);
              var g := StartStep(s, e, idOrder, v).value.graphs[s.graphId];
              && g.activeFlows == ActiveOf(s.graphs, inv) + {e.flowId}
              && g.allFlows == AllOf(s.graphs, inv) + {e.flowId}
              && g.activeLinks.Keys == LinksOf(s.graphs, inv) + e.links
              && (forall l | l in e.links :: e.flowId in g.activeLinks[l])
              && g.startTime == e.time
  {
    var order := idOrder(Involved(s, e.links));
    assert Elements(order) == Involved(s, e.links);
    if StartStep(s, e, idOrder, v).Ok? {
      MergeMeaning(order, s.graphs);
    }
  }

  /** A start that touches no graph creates a graph holding the new flow alone, on each of its links. */
  lemma StartStepAlone(s: State, e: Event, idOrder: set<int> -> seq<int>, v: Variant)
    requires Enumerates(idOrder) && Involved(s, e.links) == {}
    ensures StartStep(s, e, idOrder, v).Ok?
    ensures StartStep(s, e, idOrder, v).value.graphs[s.graphId] == Graph(map l | l in e.links :: {e.flowId}, {e.flowId}, {e.flowId}, e.time)
  {
    var order := idOrder(Involved(s, e.links));
    assert Elements(order) == {};
    DistinctCount(order);
    assert order == [];
    WithFlowAlone(e.links, e.flowId);
  }

  /** Adding a flow to no links yet gives each of its links that flow alone. */
  lemma WithFlowAlone(ls: set<Link>, f: int)
    ensures WithFlow(map[], ls, f) == map l | l in ls :: {f}
  {
    var w := WithFlow(map[], ls, f);
    assert w.Keys == ls;
    forall l | l in ls ensures w[l] == {f} {
      assert FlowsAt(map[], l) == {};
    }
  }

  /** The end event finds a graph exactly when one of the flow's links is mapped, and then it is that link's graph. */
  lemma EndTargetMeaning(s: State, e: Event, linkOrder: set<Link> -> seq<Link>)
    requires Enumerates(linkOrder)
    ensures EndTarget(s, e, linkOrder).None? <==> forall l | l in e.links :: l !in s.linkToGraph
    ensures EndTarget(s, e, linkOrder).Some? ==>
              exists l | l in e.links :: l in s.linkToGraph && s.linkToGraph[l] == EndTarget(s, e, linkOrder).value
  {
    var order := linkOrder(e.links);
    assert Elements(order) == e.links;
    var i := FirstMapped(order, s.linkToGraph);
    if i < |order| {
      assert order[i] in e.links;
    } else {
      forall l | l in e.links ensures l !in s.linkToGraph {
        var k :| 0 <= k < |order| && order[k] == l;
      }
    }
  }

  /**
   * What an end does: with none of the flow's links mapped, nothing; otherwise it succeeds exactly
   * when the graph found is live, holds the flow as active and holds it on every one of its links.
   * Then, when the flow was the graph's last active flow, the graph is recorded as a busy period
   * from its start to now with its links and all its flows, and is dropped with every mapping of
   * its links; otherwise the graph loses the flow from its active flows and from each of its links'
   * sets. As written, the counter becomes the graph's id; corrected, it is kept.
   */
  lemma EndStepMeaning(s: State, e: Event, linkOrder: set<Link> -> seq<Link>, v: Variant)
    requires Enumerates(linkOrder)
    ensures (forall l | l in e.links :: l !in s.linkToGraph) ==> EndStep(s, e, linkOrder, v) == Ok(s)
    ensures EndTarget(s, e, linkOrder).Some? ==>
              var gid := EndTarget(s, e, linkOrder).value;
              var f := e.flowId;
              && (EndStep(s, e, linkOrder, v).Ok? <==>
                    gid in s.graphs && f in s.graphs[gid].activeFlows
                    && forall l | l in e.links :: l in s.graphs[gid].activeLinks && f in s.graphs[gid].activeLinks[l])
              && (EndStep(s, e, linkOrder, v).Ok? ==>
                    var g := s.graphs[gid];
                    var t := EndStep(s, e, linkOrder, v).value;
                    && t.graphId == (if v == AsWritten then gid else s.graphId)
                    && (g.activeFlows == {f} ==>
                          && t.periods == s.periods + [Period(g.startTime, e.time, g.activeLinks.Keys, g.allFlows)]
                          && t.graphs == s.graphs - {gid}
                          && t.linkToGraph == s.linkToGraph - g.activeLinks.Keys)
                    && (g.activeFlows != {f} ==>
                          && t.periods == s.periods && t.linkToGraph == s.linkToGraph
                          && t.graphs.Keys == s.graphs.Keys
                          && (forall other | other in s.graphs && other != gid :: t.graphs[other] == s.graphs[other])
                          && t.graphs[gid].activeFlows == g.activeFlows - {f}
                          && t.graphs[gid].activeLinks.Keys == g.activeLinks.Keys
                          && (forall l | l in g.activeLinks ::
                                t.graphs[gid].activeLinks[l] == if l in e.links then g.activeLinks[l] - {f} else g.activeLinks[l])))
  {
    EndTargetMeaning(s, e, linkOrder);
    if EndTarget(s, e, linkOrder).Some? {
      var gid := EndTarget(s, e, linkOrder).value;
      if gid in s.graphs {
        var g := s.graphs[gid];
        if g.activeFlows == {e.flowId} {
          assert g.activeFlows - {e.flowId} == {};
        }
      }
    }
  }

  /** All periods so far begin no later than they end and end by `now`; every live graph began by `now`. */
  ghost predicate TimesBy(s: State, now: int)
  {
    && (forall gid | gid in s.graphs :: s.graphs[gid].startTime <= now)
    && (forall k | 0 <= k < |s.periods| :: s.periods[k].start <= s.periods[k].end <= now)
  }

  /** A step at a time no earlier than `now` keeps the times in order. */
  lemma StepKeepsTimes(s: State, e: Event, linkOrder: set<Link> -> seq<Link>, idOrder: set<int> -> seq<int>, v: Variant, now: int)
    requires TimesBy(s, now) && now <= e.time
    ensures Step(s, e, linkOrder, idOrder, v).Ok? ==> TimesBy(Step(s, e, linkOrder, idOrder, v).value, e.time)
  {
  }

  /**
   * With events in non-decreasing time order, every busy period the sweep records begins no later
   * than it ends, whichever variant.
   */
  lemma {:induction false} SweepPeriodsOrdered(events: seq<Event>, linkOrder: set<Link> -> seq<Link>, idOrder: set<int> -> seq<int>, v: Variant)
    requires forall i, j | 0 <= i < j < |events| :: events[i].time <= events[j].time
    ensures Sweep(events, linkOrder, idOrder, v).Ok? ==>
              forall k | 0 <= k < |Sweep(events, linkOrder, idOrder, v).value.periods| ::
                Sweep(events, linkOrder, idOrder, v).value.periods[k].start <= Sweep(events, linkOrder, idOrder, v).value.periods[k].end
    ensures events != [] && Sweep(events, linkOrder, idOrder, v).Ok? ==>
              TimesBy(Sweep(events, linkOrder, idOrder, v).value, events[|events| - 1].time)
  {
    if events != [] {
      SweepTimesBy(events, linkOrder, idOrder, v);
    }
  }

  /** The induction behind `SweepPeriodsOrdered`: a successful sweep keeps its times by its last event's. */
  lemma {:induction false} SweepTimesBy(events: seq<Event>, linkOrder: set<Link> -> seq<Link>, idOrder: set<int> -> seq<int>, v: Variant)
    requires events != [] && forall i, j | 0 <= i < j < |events| :: events[i].time <= events[j].time
    ensures Sweep(events, linkOrder, idOrder, v).Ok? ==> TimesBy(Sweep(events, linkOrder, idOrder, v).value, events[|events| - 1].time)
    decreases |events|
  {
    var init := events[..|events| - 1];
    var e := events[|events| - 1];
    var r := Sweep(init, linkOrder, idOrder, v);
    if r.Ok? {
      var now := e.time;
      if init == [] {
        assert r == Ok(Init);
      } else {
        assert forall i, j | 0 <= i < j < |init| :: init[i].time <= init[j].time by {
          assert forall i | 0 <= i < |init| :: init[i] == events[i];
        }
        SweepTimesBy(init, linkOrder, idOrder, v);
        assert init[|init| - 1] == events[|events| - 2];
        now := init[|init| - 1].time;
      }
      StepKeepsTimes(r.value, e, linkOrder, idOrder, v, now);
      assert Sweep(events, linkOrder, idOrder, v) == Step(r.value, e, linkOrder, idOrder, v);
    }
  }

  // ---------------------------------------------------------------- the source's loops

  /** The start branch of the sweep loop, as written. */
  method StartFlow(s: State, e: Event, linkOrder: set<Link> -> seq<Link>, idOrder: set<int> -> seq<int>)
    returns (r: Result<State, SweepError>)
    requires Enumerates(linkOrder) && Enumerates(idOrder)
    ensures r == StartStep(s, e, idOrder, AsWritten)
  {
    var links := linkOrder(e.links);
    var involved := InvolvedIds(s.linkToGraph, links);
    assert involved == Involved(s, e.links) by {
      assert Elements(links) == e.links;
    }
    var gids := idOrder(involved);
    var merged := MergeGraphs(s.graphs, gids);
    if merged.None? {
      return Err(KeyError);
    }
    var (newLinks, newFlows, newAll, graphs) := merged.value;
    var linkToGraph;
    newLinks, linkToGraph := AddFlowOnLinks(newLinks, s.linkToGraph, links, e.flowId, s.graphId);
    graphs := graphs[s.graphId := Graph(newLinks, newFlows + {e.flowId}, newAll + {e.flowId}, e.time)];
    r := Ok(State(graphs, linkToGraph, s.graphId + 1, s.periods));
  }

  /** Adding the flow on one more link updates that link's set. */
  lemma WithFlowAdd(m: map<Link, set<int>>, ls: set<Link>, l: Link, f: int)
    ensures WithFlow(m, ls + {l}, f) == WithFlow(m, ls, f)[l := FlowsAt(WithFlow(m, ls, f), l) + {f}]
  {
    var a := WithFlow(m, ls + {l}, f);
    var w := WithFlow(m, ls, f);
    var b := w[l := FlowsAt(w, l) + {f}];
    assert a.Keys == b.Keys;
    forall k | k in a ensures a[k] == b[k] {
      WithFlowAt(m, ls + {l}, f, k);
      if k != l {
        WithFlowAt(m, ls, f, k);
      } else if k in w {
        WithFlowAt(m, ls, f, k);
      }
    }
  }

  /** The set of one link after adding the flow. */
  lemma WithFlowAt(m: map<Link, set<int>>, ls: set<Link>, f: int, k: Link)
    requires k in m || k in ls
    ensures k in WithFlow(m, ls, f) && WithFlow(m, ls, f)[k] == FlowsAt(m, k) + (if k in ls then {f} else {})
  {
  }

  /** Adding the flow on no link changes nothing. */
  lemma WithFlowNone(m: map<Link, set<int>>, f: int)
    ensures WithFlow(m, {}, f) == m
  {
    var a := WithFlow(m, {}, f);
    assert a.Keys == m.Keys;
    forall k | k in a ensures a[k] == m[k] {
    }
  }

  /** Mapping one more link to `gid`. */
  lemma MapToAdd(m: map<Link, int>, ls: set<Link>, l: Link, gid: int)
    ensures m + (map k | k in ls + {l} :: gid) == (m + map k | k in ls :: gid)[l := gid]
  {
    var a := m + (map k | k in ls + {l} :: gid);
    var b := (m + map k | k in ls :: gid)[l := gid];
    assert a.Keys == b.Keys;
  }

  /** The first loop of the start branch: the graph ids of the mapped links. */
  method InvolvedIds(linkToGraph: map<Link, int>, links: seq<Link>) returns (involved: set<int>)
    ensures involved == set l | l in Elements(links) && l in linkToGraph :: linkToGraph[l]
  {
    involved := {};
    for i := 0 to |links|
      invariant involved == set k | 0 <= k < i && links[k] in linkToGraph :: linkToGraph[links[k]]
    {
      if links[i] in linkToGraph {
        involved := involved + {linkToGraph[links[i]]};
      }
    }
    assert forall l | l in Elements(links) :: exists k | 0 <= k < |links| :: links[k] == l;
  }

  /** The last loop of the start branch: the flow joins the set of each of its links, which map to graph `gid`. */
  method AddFlowOnLinks(linkMap: map<Link, set<int>>, linkToGraph: map<Link, int>, links: seq<Link>, f: int, gid: int)
    returns (newLinks: map<Link, set<int>>, newLinkToGraph: map<Link, int>)
    ensures newLinks == WithFlow(linkMap, Elements(links), f)
    ensures newLinkToGraph == linkToGraph + map l | l in Elements(links) :: gid
  {
    newLinks, newLinkToGraph := linkMap, linkToGraph;
    ghost var seen: set<Link> := {};
    WithFlowNone(linkMap, f);
    assert linkToGraph + (map l | l in seen :: gid) == linkToGraph;
    for i := 0 to |links|
      invariant seen == Elements(links[..i])
      invariant newLinks == WithFlow(linkMap, seen, f)
      invariant newLinkToGraph == linkToGraph + map l | l in seen :: gid
    {
      ElementsPrefixStep(links, i);
      WithFlowAdd(linkMap, seen, links[i], f);
      MapToAdd(linkToGraph, seen, links[i], gid);
      newLinks := newLinks[links[i] := FlowsAt(newLinks, links[i]) + {f}];
      newLinkToGraph := newLinkToGraph[links[i] := gid];
      seen := seen + {links[i]};
    }
    assert links[..|links|] == links;
  }

  /**
   * The merge loop of the start branch: each involved graph in turn is folded in and deleted;
   * `None` at the first id with no live graph.
   */
  method MergeGraphs(graphs: map<int, Graph>, gids: seq<int>)
    returns (r: Option<(map<Link, set<int>>, set<int>, set<int>, map<int, Graph>)>)
    requires Distinct(gids)
    ensures r.None? <==> exists k | 0 <= k < |gids| :: gids[k] !in graphs
    ensures r.Some? ==> (r.value.0, r.value.1, r.value.2) == Merge(gids, graphs) && r.value.3 == graphs - Elements(gids)
  {
    var live := graphs;
    var newLinks: map<Link, set<int>> := map[];
    var newFlows: set<int> := {};
    var newAll: set<int> := {};
    for k := 0 to |gids|
      invariant forall j | 0 <= j < k :: gids[j] in graphs
      invariant (newLinks, newFlows, newAll) == Merge(gids[..k], graphs)
      invariant live == graphs - Elements(gids[..k])
    {
      assert gids[k] !in Elements(gids[..k]);
      if gids[k] !in live {
        return None;
      }
      assert gids[..k + 1][..k] == gids[..k];
      ElementsSnoc(gids[..k], gids[k]);
      assert gids[..k + 1] == gids[..k] + [gids[k]];
      var g := live[gids[k]];
      newLinks := newLinks + g.activeLinks;
      newFlows := newFlows + g.activeFlows;
      newAll := newAll + g.allFlows;
      live := live - {gids[k]};
    }
    assert gids[..|gids|] == gids;
    r := Some((newLinks, newFlows, newAll, live));
  }

  /** The end branch of the sweep loop, as written. */
  method EndFlow(s: State, e: Event, linkOrder: set<Link> -> seq<Link>)
    returns (r: Result<State, SweepError>)
    requires Enumerates(linkOrder)
    ensures r == EndStep(s, e, linkOrder, AsWritten)
  {
    var links := linkOrder(e.links);
    var f := e.flowId;
    var i := 0;
    while i < |links| && links[i] !in s.linkToGraph
      invariant i <= |links| && forall k | 0 <= k < i :: links[k] !in s.linkToGraph
    {
      i := i + 1;
    }
    FirstMappedUnique(links, s.linkToGraph, i);
    if i == |links| {
      return Ok(s);
    }
    var graphId := s.linkToGraph[links[i]];
    if graphId !in s.graphs {
      return Err(KeyError);
    }
    var g := s.graphs[graphId];
    var active := RemoveFlow(g, links, f);
    assert Elements(links) == e.links;
    if active.None? || f !in g.activeFlows {
      return Err(KeyError);
    }
    var flows := g.activeFlows - {f};
    if flows == {} {
      var linkToGraph := s.linkToGraph;
      var keys := linkOrder(g.activeLinks.Keys);
      for k := 0 to |keys|
        invariant linkToGraph == s.linkToGraph - Elements(keys[..k])
      {
        ElementsSnoc(keys[..k], keys[k]);
        assert keys[..k + 1] == keys[..k] + [keys[k]];
        if keys[k] in linkToGraph {
          linkToGraph := linkToGraph - {keys[k]};
        }
      }
      assert keys[..|keys|] == keys;
      r := Ok(State(s.graphs - {graphId}, linkToGraph, graphId,
                    s.periods + [Period(g.startTime, e.time, g.activeLinks.Keys, g.allFlows)]));
    } else {
      r := Ok(State(s.graphs[graphId := Graph(active.value, flows, g.allFlows, g.startTime)], s.linkToGraph, graphId, s.periods));
    }
  }

  /** The loop bounds fix the first mapped index. */
  lemma FirstMappedUnique<K, V>(order: seq<K>, m: map<K, V>, i: nat)
    requires i <= |order| && (i < |order| ==> order[i] in m) && forall k | 0 <= k < i :: order[k] !in m
    ensures FirstMapped(order, m) == i
  {
  }

  /**
   * The removal loop of the end branch: the flow leaves the set of each of its links in turn;
   * `None` at the first link the graph lacks or whose set lacks the flow.
   */
  method RemoveFlow(g: Graph, links: seq<Link>, f: int) returns (r: Option<map<Link, set<int>>>)
    requires Distinct(links)
    ensures r.None? <==> exists l | l in Elements(links) :: l !in g.activeLinks || f !in g.activeLinks[l]
    ensures r.Some? ==> r.value == map l | l in g.activeLinks :: if l in Elements(links) then g.activeLinks[l] - {f} else g.activeLinks[l]
  {
    var active := g.activeLinks;
    for k := 0 to |links|
      invariant active == map l | l in g.activeLinks :: if l in Elements(links[..k]) then g.activeLinks[l] - {f} else g.activeLinks[l]
      invariant forall j | 0 <= j < k :: links[j] in g.activeLinks && f in g.activeLinks[links[j]]
    {
      var l := links[k];
      assert l !in Elements(links[..k]);
      if l !in active || f !in active[l] {
        assert l in Elements(links);
        return None;
      }
      ElementsSnoc(links[..k], l);
      assert links[..k + 1] == links[..k] + [l];
      active := active[l := active[l] - {f}];
    }
    assert links[..|links|] == links;
    r := Some(active);
  }

  /**
   * `update_bipartite_graph_and_calculate_busy_periods`: the events are built and sorted, then
   * the loop runs every event through its branch; the busy periods, or the `KeyError` that stops
   * the loop, are exactly those of the as-written sweep of the events.
   */
  method UpdateBipartiteGraph(flows: map<int, FlowInfo>, linkOrder: set<Link> -> seq<Link>, idOrder: set<int> -> seq<int>)
    returns (events: seq<Event>, r: Result<seq<Period>, SweepError>)
    requires Enumerates(linkOrder) && Enumerates(idOrder)
    ensures forall e :: e in events <==> IsEventOf(flows, e)
    ensures Distinct(events) && |events| == 2 * |flows.Keys| && SortedBy(events, EventLe())
    ensures r == PeriodsOf(Sweep(events, linkOrder, idOrder, AsWritten))
  {
    events := BuildEvents(flows);
    var s := Init;
    for i := 0 to |events|
      invariant Sweep(events[..i], linkOrder, idOrder, AsWritten) == Ok(s)
    {
      var e := events[i];
      var next: Result<State, SweepError>;
      if e.kind == Start {
        next := StartFlow(s, e, linkOrder, idOrder);
      } else {
        next := EndFlow(s, e, linkOrder);
      }
      SweepSnoc(events, i, s, linkOrder, idOrder, AsWritten);
      if next.Err? {
        SweepStops(events, i + 1, linkOrder, idOrder, AsWritten);
        return events, Err(next.error);
      }
      s := next.value;
    }
    assert events[..|events|] == events;
    r := Ok(s.periods);
  }
}
