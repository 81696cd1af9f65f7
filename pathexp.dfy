/**
 * The in-memory part of the path experiment: sample paths in proportion to their flows, count
 * and order the sampled paths, then for one path cut every flow that crosses it into the
 * segments of the path it travels on, and expand the flow set accordingly. The random draws and
 * hash-set iteration orders are inputs.
 */
module PathExperiment {
  import opened Wrappers
  import opened Net
  import opened Sorting
  import opened Counting

  /** The number of path draws. */
  const NR_PATHS_SAMPLED: nat := 500

  /** Ids from here on are free for the copies that expansion creates. */
  const NR_FLOWS: nat := 20_000_000

  /** A directed channel between two nodes, and a path as its list of channels. */
  type Channel = (nat, nat)
  type Path = seq<Channel>

  // ---------------------------------------------------------------- path sampling

  /** The paths that the draws pick, in draw order. */
  function Drawn(iter: seq<Path>, draws: seq<nat>): seq<Path>
    requires forall k | 0 <= k < |draws| :: draws[k] < |iter|
  {
    seq(|draws|, k requires 0 <= k < |draws| => iter[draws[k]])
  }

  /** The number of flows on a path, or 0 for a path the route map does not hold. */
  function NrFlowsOn(pathFlows: map<Path, set<nat>>, p: Path): nat
  {
    if p in pathFlows then |pathFlows[p]| else 0
  }

  /** The order of the sampled paths: longer paths first, then paths with more flows first. */
  function ByLengthThenFlows(pathFlows: map<Path, set<nat>>): (Path, Path) -> bool
  {
    (x: Path, y: Path) => |x| > |y| || (|x| == |y| && NrFlowsOn(pathFlows, x) >= NrFlowsOn(pathFlows, y))
  }

  lemma ByLengthThenFlowsTotal(pathFlows: map<Path, set<nat>>)
    ensures TotalPreorder(ByLengthThenFlows(pathFlows))
  {
  }

  /**
   * Path sampling: every draw picks a path of the route map through its iteration order `iter`
   * (a draw lands only on a path with flows, as the sampler weighs paths by their flow counts);
   * the draws are counted per path, and the distinct sampled paths, listed in the count map's
   * iteration order `keyOrder`, are sorted longest first and then by flow count.
   */
  method SamplePaths(pathFlows: map<Path, set<nat>>, iter: seq<Path>, draws: seq<nat>, keyOrder: seq<Path>)
    returns (counts: map<Path, nat>, pathList: seq<Path>)
    requires forall k | 0 <= k < |iter| :: iter[k] in pathFlows
    requires |draws| == NR_PATHS_SAMPLED
    requires forall k | 0 <= k < |draws| :: draws[k] < |iter| && |pathFlows[iter[draws[k]]]| > 0
    requires Distinct(keyOrder)
    requires Elements(keyOrder) == Elements(Drawn(iter, draws))
    ensures counts.Keys <= pathFlows.Keys
    ensures forall p | p in counts :: counts[p] == Occurrences(Drawn(iter, draws), p) && |pathFlows[p]| > 0
    ensures SumOccurrences(keyOrder, Drawn(iter, draws)) == NR_PATHS_SAMPLED
    ensures multiset(pathList) == multiset(keyOrder) && Elements(pathList) == counts.Keys
    ensures SortedBy(pathList, ByLengthThenFlows(pathFlows))
  {
    var drawn := Drawn(iter, draws);
    counts := Tally(drawn);
    forall k | 0 <= k < |drawn| ensures drawn[k] in keyOrder {
      assert drawn[k] in Elements(drawn);
    }
    SumOfCounts(keyOrder, drawn);
    ByLengthThenFlowsTotal(pathFlows);
    pathList := SortBy(keyOrder, ByLengthThenFlows(pathFlows));
    forall p ensures p in Elements(pathList) <==> p in Elements(keyOrder) {
      assert p in pathList <==> p in multiset(pathList);
      assert p in keyOrder <==> p in multiset(keyOrder);
    }
  }

  // ---------------------------------------------------------------- segments of one path

  /** A stretch of the path, from one counted hop to another: a flow's simulated source and destination. */
  type Segment = (nat, nat)

  /** The channels after the first one: the hops the segment computation walks over. */
  function Hops(path: Path): seq<Channel>
  {
    if path == [] then [] else path[1..]
  }

  /** The number of hops that carry flows according to the channel map. */
  function CountedHops(hops: seq<Channel>, cf: map<Channel, set<nat>>): nat
  {
    if hops == [] then 0
    else CountedHops(hops[..|hops| - 1], cf) + if hops[|hops| - 1] in cf then 1 else 0
  }

  /** The flows on the counted hops. */
  function FlowsOn(hops: seq<Channel>, cf: map<Channel, set<nat>>): set<nat>
  {
    if hops == [] then {}
    else
      var h := hops[|hops| - 1];
      FlowsOn(hops[..|hops| - 1], cf) + if h in cf then cf[h] else {}
  }

  /** The positions (counted-hop numbers, from 0) of the hops that carry flow `f`. */
  function Positions(hops: seq<Channel>, cf: map<Channel, set<nat>>, f: nat): seq<nat>
  {
    if hops == [] then []
    else
      var init, h := hops[..|hops| - 1], hops[|hops| - 1];
      if h in cf && f in cf[h] then Positions(init, cf, f) + [CountedHops(init, cf)]
      else Positions(init, cf, f)
  }

  /**
   * A flow seen on the hop that brings the path length to `len`: it extends its last segment
   * when that segment ended at the previous hop, and otherwise opens a new one-hop segment.
   */
  function Extend(segs: seq<Segment>, len: nat): seq<Segment>
    requires len >= 1
  {
    if segs == [] then [(len - 1, len)]
    else if segs[|segs| - 1].1 != len - 1 then segs + [(len - 1, len)]
    else segs[..|segs| - 1] + [(segs[|segs| - 1].0, len)]
  }

  /** The segments built from a flow's positions, one `Extend` per position. */
  function SegmentsOf(ps: seq<nat>): seq<Segment>
  {
    if ps == [] then [] else Extend(SegmentsOf(ps[..|ps| - 1]), ps[|ps| - 1] + 1)
  }

  predicate StrictlyIncreasing(ps: seq<nat>) {
    forall i, j | 0 <= i < j < |ps| :: ps[i] < ps[j]
  }

  /** Segments are non-empty, in order, and never touch: a gap separates any two. */
  predicate WellSeparated(segs: seq<Segment>) {
    && (forall k | 0 <= k < |segs| :: segs[k].0 < segs[k].1)
    && (forall k | 0 < k < |segs| :: segs[k - 1].1 < segs[k].0)
  }

  /** Whether position `p` lies in one of the segments. */
  predicate Covered(segs: seq<Segment>, p: nat) {
    exists k | 0 <= k < |segs| :: segs[k].0 <= p < segs[k].1
  }

  /** `segs` are the runs of consecutive positions of `ps`. */
  ghost predicate Runs(ps: seq<nat>, segs: seq<Segment>) {
    && (segs == [] <==> ps == [])
    && WellSeparated(segs)
    && (ps != [] ==> segs[|segs| - 1].1 == ps[|ps| - 1] + 1)
    && forall p: nat :: p in ps <==> Covered(segs, p)
  }

  lemma RunsOpen(x: nat)
    ensures Runs([x], Extend([], x + 1))
  {
    var r := Extend([], x + 1);
    assert r == [(x, x + 1)];
    forall p: nat ensures p in [x] <==> Covered(r, p) {
      if p == x {
        assert r[0].0 <= p < r[0].1;
      }
    }
  }

  lemma RunsGap(init: seq<nat>, x: nat, s: seq<Segment>)
    requires Runs(init, s) && init != [] && init[|init| - 1] < x && s[|s| - 1].1 != x
    ensures Runs(init + [x], Extend(s, x + 1))
  {
    var r := Extend(s, x + 1);
    var ps := init + [x];
    assert r == s + [(x, x + 1)];
    forall p: nat ensures p in ps <==> Covered(r, p) {
      if p in init {
        var k :| 0 <= k < |s| && s[k].0 <= p < s[k].1;
        assert r[k] == s[k];
      } else if p == x {
        assert r[|s|].0 <= p < r[|s|].1;
      }
    }
  }

  lemma RunsJoin(init: seq<nat>, x: nat, s: seq<Segment>)
    requires Runs(init, s) && init != [] && init[|init| - 1] < x && s[|s| - 1].1 == x
    ensures Runs(init + [x], Extend(s, x + 1))
  {
    var n := |s| - 1;
    var r := s[..n] + [(s[n].0, x + 1)];
    assert Extend(s, x + 1) == r;
    assert WellSeparated(r) by {
      forall k | 0 < k < |r| ensures r[k - 1].1 < r[k].0 {
        assert r[k - 1] == s[k - 1];
        if k < n {
          assert r[k] == s[k];
        }
      }
    }
    JoinCovers(init, x, s);
  }

  /** Lengthening the last run by `x` covers exactly the old positions and `x`. */
  lemma JoinCovers(init: seq<nat>, x: nat, s: seq<Segment>)
    requires (forall p: nat :: p in init <==> Covered(s, p)) && s != [] && s[|s| - 1].1 == x
    requires forall k | 0 <= k < |s| :: s[k].0 < s[k].1
    ensures forall p: nat :: p in init + [x] <==> Covered(s[..|s| - 1] + [(s[|s| - 1].0, x + 1)], p)
  {
    var n := |s| - 1;
    var r := s[..n] + [(s[n].0, x + 1)];
    forall p: nat ensures p in init + [x] <==> Covered(r, p) {
      if p in init {
        var k :| 0 <= k < |s| && s[k].0 <= p < s[k].1;
        assert r[k].0 <= p < r[k].1;
      } else if p == x {
        assert r[n].0 <= p < r[n].1;
      }
    }
  }

  /** Dropping the last position keeps the positions increasing, all below the last. */
  lemma IncreasingInit(ps: seq<nat>)
    requires StrictlyIncreasing(ps) && ps != []
    ensures var init := ps[..|ps| - 1];
            && ps == init + [ps[|ps| - 1]]
            && StrictlyIncreasing(init)
            && (init != [] ==> init[|init| - 1] < ps[|ps| - 1])
  {
    assert ps == ps[..|ps| - 1] + [ps[|ps| - 1]];
  }

  /**
   * The segments of a flow are its runs of consecutive positions: they are well separated, end
   * right after the last position, and cover exactly the positions.
   */
  lemma {:induction false} SegmentsAreRuns(ps: seq<nat>)
    requires StrictlyIncreasing(ps)
    ensures Runs(ps, SegmentsOf(ps))
    decreases |ps|
  {
    if ps != [] {
      var init, x := ps[..|ps| - 1], ps[|ps| - 1];
      IncreasingInit(ps);
      SegmentsAreRuns(init);
      var s := SegmentsOf(init);
      SegmentsOfSnoc(init, x);
      if s == [] {
        assert init == [];
        RunsOpen(x);
      } else if s[|s| - 1].1 != x {
        RunsGap(init, x, s);
      } else {
        RunsJoin(init, x, s);
      }
    }
  }

  /** The positions of a flow are increasing and below the number of counted hops. */
  lemma {:induction false} PositionsBounded(hops: seq<Channel>, cf: map<Channel, set<nat>>, f: nat)
    ensures StrictlyIncreasing(Positions(hops, cf, f))
    ensures forall k | 0 <= k < |Positions(hops, cf, f)| :: Positions(hops, cf, f)[k] < CountedHops(hops, cf)
    ensures Positions(hops, cf, f) != [] <==> f in FlowsOn(hops, cf)
    decreases |hops|
  {
    if hops != [] {
      PositionsBounded(hops[..|hops| - 1], cf, f);
    }
  }

  /** The entry of a flow, empty for a flow not yet seen. */
  function Get(segs: map<nat, seq<Segment>>, f: nat): seq<Segment>
  {
    if f in segs then segs[f] else []
  }

  /** One counted hop: every flow on it gets the hop added to its segments, the other entries stay. */
  method AddHop(segs: map<nat, seq<Segment>>, flowsOnHop: set<nat>, pathLength: nat)
    returns (r: map<nat, seq<Segment>>)
    requires pathLength >= 1
    ensures r.Keys == segs.Keys + flowsOnHop
    ensures forall f | f in flowsOnHop :: r[f] == Extend(Get(segs, f), pathLength)
    ensures forall f | f in segs && f !in flowsOnHop :: r[f] == segs[f]
  {
    r := segs;
    var todo := flowsOnHop;
    ghost var done: set<nat> := {};
    while todo != {}
      invariant done + todo == flowsOnHop && done !! todo
      invariant forall f :: f in r <==> f in segs || f in done
      invariant forall f | f in done :: r[f] == Extend(Get(segs, f), pathLength)
      invariant forall f | f in segs && f !in done :: r[f] == segs[f]
      decreases todo
    {
      var f :| f in todo;
      assert Get(r, f) == Get(segs, f);
      r := r[f := Extend(Get(r, f), pathLength)];
      todo, done := todo - {f}, done + {f};
    }
  }

  /** What one more hop does to the counted hops, the flow set and a flow's positions. */
  lemma HopStep(hops: seq<Channel>, h: Channel, cf: map<Channel, set<nat>>, f: nat)
    ensures CountedHops(hops + [h], cf) == CountedHops(hops, cf) + if h in cf then 1 else 0
    ensures FlowsOn(hops + [h], cf) == FlowsOn(hops, cf) + if h in cf then cf[h] else {}
    ensures Positions(hops + [h], cf, f) ==
              if h in cf && f in cf[h] then Positions(hops, cf, f) + [CountedHops(hops, cf)] else Positions(hops, cf, f)
  {
    assert (hops + [h])[..|hops|] == hops;
  }

  /** Adding a position after all others extends the segments built so far. */
  lemma SegmentsOfSnoc(ps: seq<nat>, x: nat)
    ensures SegmentsOf(ps + [x]) == Extend(SegmentsOf(ps), x + 1)
  {
    assert (ps + [x])[..|ps|] == ps;
  }

  /**
   * The walk over the path after its first channel: each hop the channel map holds adds its
   * flows to the flow set, extends their segments and lengthens the path by one.
   */
  method Segments(path: Path, cf: map<Channel, set<nat>>)
    returns (segs: map<nat, seq<Segment>>, fPrime: set<nat>, pathLength: nat)
    ensures pathLength == 1 + CountedHops(Hops(path), cf)
    ensures fPrime == FlowsOn(Hops(path), cf) && segs.Keys == fPrime
    ensures forall f | f in segs :: segs[f] == SegmentsOf(Positions(Hops(path), cf, f))
  {
    var hops := Hops(path);
    segs, fPrime, pathLength := map[], {}, 1;
    for i := 0 to |hops|
      invariant Walked(segs, fPrime, pathLength, hops[..i], cf)
    {
      var h := hops[i];
      assert hops[..i + 1] == hops[..i] + [h];
      if h in cf {
        var next := AddHop(segs, cf[h], pathLength);
        WalkStep(segs, next, fPrime, pathLength, hops[..i], h, cf);
        segs, fPrime, pathLength := next, fPrime + cf[h], pathLength + 1;
      } else {
        WalkStep(segs, segs, fPrime, pathLength, hops[..i], h, cf);
      }
    }
    assert hops[..|hops|] == hops;
  }

  /** The state of the walk after the hops `hops`: the counted length, the flow set and every flow's segments. */
  ghost predicate Walked(segs: map<nat, seq<Segment>>, fPrime: set<nat>, pathLength: nat,
                         hops: seq<Channel>, cf: map<Channel, set<nat>>)
  {
    && pathLength == 1 + CountedHops(hops, cf)
    && fPrime == FlowsOn(hops, cf) && segs.Keys == fPrime
    && SegmentsUpTo(segs, hops, cf)
  }

  /** One hop of the walk, counted (the entries of its flows extended) or skipped, keeps the walk's state. */
  lemma WalkStep(segs: map<nat, seq<Segment>>, next: map<nat, seq<Segment>>, fPrime: set<nat>, pathLength: nat,
                 pre: seq<Channel>, h: Channel, cf: map<Channel, set<nat>>)
    requires Walked(segs, fPrime, pathLength, pre, cf)
    requires h in cf ==>
               && next.Keys == segs.Keys + cf[h]
               && (forall f | f in cf[h] :: next[f] == Extend(Get(segs, f), pathLength))
               && (forall f | f in segs && f !in cf[h] :: next[f] == segs[f])
    requires h !in cf ==> next == segs
    ensures Walked(next, fPrime + (if h in cf then cf[h] else {}), pathLength + (if h in cf then 1 else 0), pre + [h], cf)
  {
    HopStep(pre, h, cf, 0);
    if h in cf {
      SegmentsCountedStep(segs, next, pre, h, cf);
    } else {
      SegmentsSkippedStep(segs, pre, h, cf);
    }
  }

  /** Every flow's entry holds the segments built from its positions on `hops`. */
  ghost predicate SegmentsUpTo(segs: map<nat, seq<Segment>>, hops: seq<Channel>, cf: map<Channel, set<nat>>)
  {
    forall f | f in segs :: segs[f] == SegmentsOf(Positions(hops, cf, f))
  }

  /** A counted hop, applied to the entries of every flow on it, keeps the entries in step with the positions. */
  lemma SegmentsCountedStep(segs: map<nat, seq<Segment>>, next: map<nat, seq<Segment>>,
                            pre: seq<Channel>, h: Channel, cf: map<Channel, set<nat>>)
    requires h in cf && SegmentsUpTo(segs, pre, cf) && segs.Keys == FlowsOn(pre, cf)
    requires next.Keys == segs.Keys + cf[h]
    requires forall f | f in cf[h] :: next[f] == Extend(Get(segs, f), 1 + CountedHops(pre, cf))
    requires forall f | f in segs && f !in cf[h] :: next[f] == segs[f]
    ensures SegmentsUpTo(next, pre + [h], cf)
  {
    forall f | f in next ensures next[f] == SegmentsOf(Positions(pre + [h], cf, f)) {
      if f in cf[h] {
        SegmentsOnHop(Get(segs, f), pre, h, cf, f);
      } else {
        HopStep(pre, h, cf, f);
      }
    }
  }

  /** A flow on a counted hop: extending what it had by the hop gives the segments of its positions so far. */
  lemma SegmentsOnHop(had: seq<Segment>, pre: seq<Channel>, h: Channel, cf: map<Channel, set<nat>>, f: nat)
    requires h in cf && f in cf[h]
    requires had == SegmentsOf(Positions(pre, cf, f)) || (f !in FlowsOn(pre, cf) && had == [])
    ensures Extend(had, 1 + CountedHops(pre, cf)) == SegmentsOf(Positions(pre + [h], cf, f))
  {
    var ps, c := Positions(pre, cf, f), CountedHops(pre, cf);
    PositionsOnHop(pre, h, cf, f);
    SegmentsOfSnoc(ps, c);
    if f !in FlowsOn(pre, cf) {
      PositionsOffPath(pre, cf, f);
    }
  }

  /** A counted hop carrying `f` adds the hop's number to `f`'s positions. */
  lemma PositionsOnHop(pre: seq<Channel>, h: Channel, cf: map<Channel, set<nat>>, f: nat)
    requires h in cf && f in cf[h]
    ensures Positions(pre + [h], cf, f) == Positions(pre, cf, f) + [CountedHops(pre, cf)]
  {
    assert (pre + [h])[..|pre|] == pre;
  }

  /** A flow on none of the counted hops has no positions. */
  lemma PositionsOffPath(hops: seq<Channel>, cf: map<Channel, set<nat>>, f: nat)
    requires f !in FlowsOn(hops, cf)
    ensures Positions(hops, cf, f) == []
  {
    PositionsBounded(hops, cf, f);
  }

  /** A hop the channel map does not hold changes no flow's positions. */
  lemma SegmentsSkippedStep(segs: map<nat, seq<Segment>>, pre: seq<Channel>, h: Channel, cf: map<Channel, set<nat>>)
    requires h !in cf && SegmentsUpTo(segs, pre, cf)
    ensures SegmentsUpTo(segs, pre + [h], cf)
  {
    forall f | f in segs ensures segs[f] == SegmentsOf(Positions(pre + [h], cf, f)) {
      HopStep(pre, h, cf, f);
    }
  }

  /** Every flow on the path has segments, all within the path and well separated, covering exactly its hops. */
  lemma SegmentsWithinPath(path: Path, cf: map<Channel, set<nat>>, f: nat)
    requires f in FlowsOn(Hops(path), cf)
    ensures var segs := SegmentsOf(Positions(Hops(path), cf, f));
            && segs != [] && WellSeparated(segs)
            && (forall k | 0 <= k < |segs| :: segs[k].1 <= CountedHops(Hops(path), cf))
            && (forall p: nat :: p in Positions(Hops(path), cf, f) <==> Covered(segs, p))
  {
    var ps := Positions(Hops(path), cf, f);
    PositionsBounded(Hops(path), cf, f);
    SegmentsAreRuns(ps);
    var segs := SegmentsOf(ps);
    forall k | 0 <= k < |segs| ensures segs[k].1 <= CountedHops(Hops(path), cf) {
      SegmentsEndBelow(segs, k);
    }
  }

  lemma {:induction false} SegmentsEndBelow(segs: seq<Segment>, k: nat)
    requires WellSeparated(segs) && k < |segs|
    ensures segs[k].1 <= segs[|segs| - 1].1
    decreases |segs| - k
  {
    if k < |segs| - 1 {
      SegmentsEndBelow(segs, k + 1);
    }
  }

  // ---------------------------------------------------------------- flow expansion

  /**
   * The flows to simulate for the path: the flow at position `id` of the trace for each id of the
   * flow set, taken in the set's iteration order `order`; ids past the end of the trace are skipped.
   */
  function Remaining(flows: seq<Flow>, order: seq<nat>): (r: seq<Flow>)
    ensures |r| <= |order|
  {
    if order == [] then []
    else
      var init, id := order[..|order| - 1], order[|order| - 1];
      var rest := Remaining(flows, init);
      if id < |flows| then rest + [flows[id]] else rest
  }

  /** Every flow to simulate is the trace flow of some id of the set that lies within the trace. */
  lemma {:induction false} RemainingPicked(flows: seq<Flow>, order: seq<nat>)
    ensures forall k | 0 <= k < |Remaining(flows, order)| ::
              exists j | 0 <= j < |order| :: order[j] < |flows| && Remaining(flows, order)[k] == flows[order[j]]
    decreases |order|
  {
    if order != [] {
      var init, id := order[..|order| - 1], order[|order| - 1];
      var rest := Remaining(flows, init);
      var r := Remaining(flows, order);
      RemainingPicked(flows, init);
      assert r == if id < |flows| then rest + [flows[id]] else rest;
      forall k | 0 <= k < |r| ensures exists j | 0 <= j < |order| :: order[j] < |flows| && r[k] == flows[order[j]] {
        if k < |rest| {
          assert exists j | 0 <= j < |init| :: init[j] < |flows| && Remaining(flows, init)[k] == flows[init[j]];
          var j :| 0 <= j < |init| && init[j] < |flows| && rest[k] == flows[init[j]];
          assert order[j] == init[j] && r[k] == rest[k];
        } else {
          assert r[k] == flows[order[|order| - 1]];
        }
      }
    } else {
      assert Remaining(flows, order) == [];
    }
  }

  /** A flow with segments simulates its first segment: its source and destination become that segment's ends. */
  function Rewrite(f: Flow, segs: map<nat, seq<Segment>>): Flow
  {
    if f.id in segs && segs[f.id] != [] then f.(src := segs[f.id][0].0, dst := segs[f.id][0].1) else f
  }

  /** The copies of a flow for the segments after the first, numbered from `base`. */
  function CopiesOf(f: Flow, s: seq<Segment>, base: nat): (r: seq<Flow>)
    requires s != []
    ensures |r| == |s| - 1
  {
    seq(|s| - 1, i requires 0 <= i < |s| - 1 => Flow(base + i, s[i + 1].0, s[i + 1].1, f.size, f.start))
  }

  /** The copies of a flow with segments; none for a flow without. */
  function Copies(f: Flow, segs: map<nat, seq<Segment>>, base: nat): (r: seq<Flow>)
    ensures |r| == if f.id in segs && segs[f.id] != [] then |segs[f.id]| - 1 else 0
  {
    if f.id in segs && segs[f.id] != [] then CopiesOf(f, segs[f.id], base) else []
  }

  /** All the copies, numbered consecutively from the first free id. */
  function Extras(rs: seq<Flow>, segs: map<nat, seq<Segment>>): seq<Flow>
  {
    if rs == [] then []
    else
      var e := Extras(rs[..|rs| - 1], segs);
      e + Copies(rs[|rs| - 1], segs, NR_FLOWS + |e|)
  }

  /** The number of flows to simulate: one per segment of a flow with segments, one for any other flow. */
  function NrSimulated(rs: seq<Flow>, segs: map<nat, seq<Segment>>): nat
  {
    if rs == [] then 0
    else
      var f := rs[|rs| - 1];
      NrSimulated(rs[..|rs| - 1], segs) + if f.id in segs && segs[f.id] != [] then |segs[f.id]| else 1
  }

  /** The copies of the first k + 1 flows: those of the first k, then those of flow k. */
  lemma ExtrasStep(rs: seq<Flow>, segs: map<nat, seq<Segment>>, k: nat)
    requires k < |rs|
    ensures Extras(rs[..k + 1], segs) == Extras(rs[..k], segs) + Copies(rs[k], segs, NR_FLOWS + |Extras(rs[..k], segs)|)
  {
    assert rs[..k + 1][..k] == rs[..k];
  }

  /** The inner loop of the expansion: one copy per segment after the first, with the next free ids. */
  method PushCopies(extra: seq<Flow>, flow: Flow, countVec: seq<Segment>) returns (r: seq<Flow>)
    requires countVec != []
    ensures r == extra + CopiesOf(flow, countVec, NR_FLOWS + |extra|)
  {
    r := extra;
    for i := 1 to |countVec|
      invariant r == extra + CopiesOf(flow, countVec, NR_FLOWS + |extra|)[..i - 1]
    {
      var tmp := flow.(src := countVec[i].0, dst := countVec[i].1, id := |r| + NR_FLOWS);
      r := r + [tmp];
    }
  }

  /** The body of the expansion loop for flow k: rewrite it in place and push its copies. */
  method ExpandOne(rem: seq<Flow>, extra: seq<Flow>, k: nat, segs: map<nat, seq<Segment>>)
    returns (rem': seq<Flow>, extra': seq<Flow>)
    requires k < |rem|
    requires forall g | g in segs :: segs[g] != []
    ensures rem' == rem[k := Rewrite(rem[k], segs)]
    ensures extra' == extra + Copies(rem[k], segs, NR_FLOWS + |extra|)
  {
    rem', extra' := rem, extra;
    var flow := rem[k];
    if flow.id in segs {
      var countVec := segs[flow.id];
      flow := flow.(src := countVec[0].0, dst := countVec[0].1);
      rem' := rem[k := flow];
      extra' := PushCopies(extra, flow, countVec);
    }
  }

  /**
   * The expansion: every flow is rewritten to its first segment, and a copy with a fresh id is
   * made for each further segment; the copies follow the rewritten flows.
   */
  method Expand(remaining: seq<Flow>, segs: map<nat, seq<Segment>>) returns (out: seq<Flow>)
    requires forall g | g in segs :: segs[g] != []
    ensures |out| == |remaining| + |Extras(remaining, segs)|
    ensures forall k | 0 <= k < |remaining| :: out[k] == Rewrite(remaining[k], segs)
    ensures out[|remaining|..] == Extras(remaining, segs)
  {
    var rem := remaining;
    var extra: seq<Flow> := [];
    for k := 0 to |rem|
      invariant |rem| == |remaining|
      invariant forall j | 0 <= j < k :: rem[j] == Rewrite(remaining[j], segs)
      invariant forall j | k <= j < |rem| :: rem[j] == remaining[j]
      invariant extra == Extras(remaining[..k], segs)
    {
      ExtrasStep(remaining, segs, k);
      rem, extra := ExpandOne(rem, extra, k, segs);
    }
    assert remaining[..|remaining|] == remaining;
    out := rem + extra;
  }

  /** The copies carry the ids from the first free id on, one after the other, so they are distinct and clash with no trace id. */
  lemma {:induction false} ExtrasIds(rs: seq<Flow>, segs: map<nat, seq<Segment>>)
    ensures forall k | 0 <= k < |Extras(rs, segs)| :: Extras(rs, segs)[k].id == NR_FLOWS + k
    decreases |rs|
  {
    if rs != [] {
      ExtrasIds(rs[..|rs| - 1], segs);
    }
  }

  /** The rewritten flows and the copies together are one flow per segment (or per flow without segments). */
  lemma {:induction false} ExpandCount(rs: seq<Flow>, segs: map<nat, seq<Segment>>)
    ensures |rs| + |Extras(rs, segs)| == NrSimulated(rs, segs)
    decreases |rs|
  {
    if rs != [] {
      ExpandCount(rs[..|rs| - 1], segs);
    }
  }

  /** `c` runs flow `f` over segment `seg`: the segment's ends, the flow's size and start. */
  predicate RunsOver(c: Flow, seg: Segment, f: Flow)
  {
    c.src == seg.0 && c.dst == seg.1 && c.size == f.size && c.start == f.start
  }

  /**
   * Every segment of every flow is simulated: a copy of the flow (same size and start) runs
   * between the segment's ends, the first segment by the rewritten flow itself.
   */
  lemma {:induction false} ExtrasCoverSegments(rs: seq<Flow>, segs: map<nat, seq<Segment>>, j: nat, i: nat)
    requires j < |rs| && rs[j].id in segs && 1 <= i < |segs[rs[j].id]|
    ensures exists k | 0 <= k < |Extras(rs, segs)| :: RunsOver(Extras(rs, segs)[k], segs[rs[j].id][i], rs[j])
    decreases |rs|
  {
    var init := rs[..|rs| - 1];
    var e := Extras(init, segs);
    var all := Extras(rs, segs);
    var cs := Copies(rs[|rs| - 1], segs, NR_FLOWS + |e|);
    assert all == e + cs;
    if j < |rs| - 1 {
      ExtrasCoverSegments(init, segs, j, i);
      assert init[j] == rs[j];
      var k :| 0 <= k < |e| && RunsOver(e[k], segs[rs[j].id][i], rs[j]);
      assert all[k] == e[k];
    } else {
      CopyRunsOver(rs[j], segs, NR_FLOWS + |e|, i);
      assert all[|e| + i - 1] == cs[i - 1];
    }
  }

  /** The copy for segment `i` of a flow runs the flow over that segment. */
  lemma CopyRunsOver(f: Flow, segs: map<nat, seq<Segment>>, base: nat, i: nat)
    requires f.id in segs && 1 <= i < |segs[f.id]|
    ensures RunsOver(Copies(f, segs, base)[i - 1], segs[f.id][i], f)
  {
  }

  /** Flows are handed to the simulator by start time, equal starts keeping their order. */
  function ByStart(): (Flow, Flow) -> bool
  {
    (a: Flow, b: Flow) => a.start <= b.start
  }

  /** The segments of every flow on the path. */
  function SegmentMap(path: Path, cf: map<Channel, set<nat>>): map<nat, seq<Segment>>
  {
    map f | f in FlowsOn(Hops(path), cf) :: SegmentsOf(Positions(Hops(path), cf, f))
  }

  /** Every flow of the segment map has at least one segment. */
  lemma SegmentMapNonEmpty(path: Path, cf: map<Channel, set<nat>>)
    ensures forall g | g in SegmentMap(path, cf) :: SegmentMap(path, cf)[g] != []
  {
    forall g | g in SegmentMap(path, cf) ensures SegmentMap(path, cf)[g] != [] {
      PositionsBounded(Hops(path), cf, g);
      SegmentsAreRuns(Positions(Hops(path), cf, g));
    }
  }

  /** The flows of one path, rewritten and expanded, before sorting. */
  function Expanded(flows: seq<Flow>, path: Path, cf: map<Channel, set<nat>>, order: seq<nat>): seq<Flow>
  {
    var segs := SegmentMap(path, cf);
    var rs := Remaining(flows, order);
    seq(|rs|, k requires 0 <= k < |rs| => Rewrite(rs[k], segs)) + Extras(rs, segs)
  }

  /**
   * The flows one path's simulation gets, and the path length it is given: the segments are
   * computed, the trace flows of the flow set are rewritten and expanded, and the result is
   * sorted by start time.
   */
  method PreparePath(flows: seq<Flow>, path: Path, cf: map<Channel, set<nat>>, order: seq<nat>)
    returns (simFlows: seq<Flow>, pathLength: nat)
    requires Distinct(order) && Elements(order) == FlowsOn(Hops(path), cf)
    ensures pathLength == 1 + CountedHops(Hops(path), cf)
    ensures simFlows == SortBy(Expanded(flows, path, cf, order), ByStart())
    ensures multiset(simFlows) == multiset(Expanded(flows, path, cf, order))
    ensures SortedBy(simFlows, ByStart())
    ensures forall z :: Equivalents(simFlows, z, ByStart()) == Equivalents(Expanded(flows, path, cf, order), z, ByStart())
  {
    var segs, fPrime;
    segs, fPrime, pathLength := Segments(path, cf);
    assert segs == SegmentMap(path, cf);
    SegmentMapNonEmpty(path, cf);
    var rs := Remaining(flows, order);
    var expanded := Expand(rs, segs);
    assert expanded == Expanded(flows, path, cf, order);
    simFlows := SortBy(expanded, ByStart());
    forall z ensures Equivalents(simFlows, z, ByStart()) == Equivalents(expanded, z, ByStart()) {
      SortByStable(expanded, z, ByStart());
    }
  }

  // ---------------------------------------------------------------- simulation kinds

  /** The simulations of the path experiment. */
  datatype SimKind = Ns3 | Pmn | PmnM | PmnMC | Mlsys

  /** The name a simulation kind displays as, used in file names. */
  function Name(k: SimKind): string
  {
    match k
    case Ns3 => "ns3-config"
    case Pmn => "pmn"
    case PmnM => "pmn-m"
    case PmnMC => "pmn-mc"
    case Mlsys => "mlsys"
  }

  /** The kind a name stands for: an inverse of the display names for stating their injectivity; the source has no such parser. */
  function KindOfName(s: string): (r: Option<SimKind>)
    ensures r.Some? ==> Name(r.value) == s
  {
    if s == "ns3-config" then Some(Ns3)
    else if s == "pmn" then Some(Pmn)
    else if s == "pmn-m" then Some(PmnM)
    else if s == "pmn-mc" then Some(PmnMC)
    else if s == "mlsys" then Some(Mlsys)
    else None
  }

  /** Every name reads back as its kind, so no two kinds share a name. */
  lemma KindOfNameOfKind(a: SimKind, b: SimKind)
    ensures KindOfName(Name(a)) == Some(a)
    ensures Name(a) == Name(b) ==> a == b
  {
    assert KindOfName(Name(a)) == Some(a);
  }
}
