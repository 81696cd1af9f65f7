/**
 * The in-memory part of the mix experiment's path simulations: the busiest source-destination
 * pair, the span of the chosen path each flow travels, the grouping of flows by path for the
 * all-paths run, the path file of the single-path run, and the comparison of workload features.
 * Hash-map iteration orders are inputs; the routes of the simulator library are given as the
 * flow sets of the chosen path's channels.
 */
module MixExperiment {
  import opened Wrappers
  import opened Text
  import opened Net
  import opened Sorting
  import opened Counting

  type Channel = (nat, nat)

  // ---------------------------------------------------------------- busiest pair

  /** The (source, destination) pairs of the flows, in flow order. */
  function Pairs(flows: seq<Flow>): seq<Channel>
  {
    seq(|flows|, k requires 0 <= k < |flows| => (flows[k].src, flows[k].dst))
  }

  /**
   * The pair counts: one per flow for its (source, destination) pair, so the counts of the
   * distinct pairs add up to the number of flows.
   */
  method PairCounts(flows: seq<Flow>, keyOrder: seq<Channel>) returns (counts: map<Channel, nat>)
    requires Distinct(keyOrder) && Elements(keyOrder) == Elements(Pairs(flows))
    ensures counts.Keys == Elements(Pairs(flows))
    ensures forall p | p in counts :: counts[p] == Occurrences(Pairs(flows), p)
    ensures SumOccurrences(keyOrder, Pairs(flows)) == |flows|
  {
    counts := Tally(Pairs(flows));
    forall k | 0 <= k < |flows| ensures Pairs(flows)[k] in keyOrder {
      assert Pairs(flows)[k] in Elements(Pairs(flows));
    }
    SumOfCounts(keyOrder, Pairs(flows));
  }

  /**
   * `max_by` over a map in iteration order `order`: the key with the largest value, the last
   * one among equals; a map with no entries has no maximum and the source stops there.
   */
  method SelectMax<K(==)>(counts: map<K, nat>, order: seq<K>) returns (best: K, at: nat)
    requires order != [] && Elements(order) == counts.Keys
    ensures at < |order| && best == order[at] && best in counts
    ensures forall q | q in counts :: counts[q] <= counts[best]
    ensures forall j | at < j < |order| :: counts[order[j]] < counts[best]
  {
    assert order[0] in Elements(order);
    best, at := order[0], 0;
    for i := 1 to |order|
      invariant at < i && best == order[at] && best in counts
      invariant forall j | 0 <= j < i :: counts[order[j]] <= counts[best]
      invariant forall j | at < j < i :: counts[order[j]] < counts[best]
    {
      assert order[i] in Elements(order);
      if counts[order[i]] >= counts[best] {
        best, at := order[i], i;
      }
    }
    forall q | q in counts ensures counts[q] <= counts[best] {
      var j :| 0 <= j < |order| && order[j] == q;
    }
  }

  // ---------------------------------------------------------------- spans on the chosen path

  /** The flows on any of the channels. */
  function UnionOf(chans: seq<set<nat>>): set<nat>
  {
    if chans == [] then {} else UnionOf(chans[..|chans| - 1]) + chans[|chans| - 1]
  }

  /** `UnionOf` holds exactly the flows some channel carries. */
  lemma {:induction false} UnionOfMembers(chans: seq<set<nat>>, f: nat)
    ensures f in UnionOf(chans) <==> exists j | 0 <= j < |chans| :: f in chans[j]
    decreases |chans|
  {
    if chans != [] {
      var init := chans[..|chans| - 1];
      UnionOfMembers(init, f);
      if f in UnionOf(init) {
        var j :| 0 <= j < |init| && f in init[j];
        assert f in chans[j];
      }
      if exists j | 0 <= j < |chans| :: f in chans[j] {
        var j :| 0 <= j < |chans| && f in chans[j];
        if j < |init| {
          assert f in init[j];
        }
      }
    }
  }

  /** `span` runs from the first channel that carries `f` to just past the last one. */
  ghost predicate IsSpan(chans: seq<set<nat>>, f: nat, span: (nat, nat)) {
    && span.0 < span.1 <= |chans|
    && f in chans[span.0] && f in chans[span.1 - 1]
    && forall j | 0 <= j < |chans| && f in chans[j] :: span.0 <= j < span.1
  }

  /**
   * One channel of the chosen path: a flow seen before keeps its start and ends here, a new flow
   * starts and ends here; the path length is the channel's number plus one.
   */
  method AddChannel(spans: map<nat, (nat, nat)>, flowsOnChannel: set<nat>, pathLength: nat)
    returns (r: map<nat, (nat, nat)>)
    requires pathLength >= 1
    ensures r.Keys == spans.Keys + flowsOnChannel
    ensures forall f | f in flowsOnChannel ::
              r[f] == if f in spans then (spans[f].0, pathLength) else (pathLength - 1, pathLength)
    ensures forall f | f in spans && f !in flowsOnChannel :: r[f] == spans[f]
  {
    r := spans;
    var todo := flowsOnChannel;
    ghost var done: set<nat> := {};
    while todo != {}
      invariant done + todo == flowsOnChannel && done !! todo
      invariant forall f :: f in r <==> f in spans || f in done
      invariant forall f | f in done :: r[f] == if f in spans then (spans[f].0, pathLength) else (pathLength - 1, pathLength)
      invariant forall f | f in spans && f !in done :: r[f] == spans[f]
      decreases todo
    {
      var f :| f in todo;
      if f in r {
        r := r[f := (r[f].0, pathLength)];
      } else {
        r := r[f := (pathLength - 1, pathLength)];
      }
      todo, done := todo - {f}, done + {f};
    }
  }

  /** What one more channel does to the spans: a flow on it now ends there. */
  lemma SpanStep(chans: seq<set<nat>>, i: nat, f: nat, old_: (nat, nat))
    requires i < |chans| && IsSpan(chans[..i], f, old_) && f in chans[i]
    ensures IsSpan(chans[..i + 1], f, (old_.0, i + 1))
  {
    assert chans[..i + 1][..i] == chans[..i];
  }

  /** A flow first seen on channel i spans that channel alone. */
  lemma SpanNew(chans: seq<set<nat>>, i: nat, f: nat)
    requires i < |chans| && f !in UnionOf(chans[..i]) && f in chans[i]
    ensures IsSpan(chans[..i + 1], f, (i, i + 1))
  {
    UnionOfMembers(chans[..i], f);
    forall j | 0 <= j < i ensures f !in chans[j] {
      assert chans[j] == chans[..i][j];
    }
  }

  /** A flow not on channel i keeps its span. */
  lemma SpanKeep(chans: seq<set<nat>>, i: nat, f: nat, span: (nat, nat))
    requires i < |chans| && IsSpan(chans[..i], f, span) && f !in chans[i]
    ensures IsSpan(chans[..i + 1], f, span)
  {
    assert forall j | 0 <= j < i :: chans[..i + 1][j] == chans[..i][j];
  }

  /**
   * The span map of `run_flowsim`: the chosen path's channels are walked in order, and each flow
   * gets the span from the first to just past the last channel carrying it. The path length
   * ends one above the number of channels.
   */
  method FlowSpans(chans: seq<set<nat>>) returns (spans: map<nat, (nat, nat)>, pathLength: nat)
    ensures pathLength == |chans| + 1
    ensures spans.Keys == UnionOf(chans)
    ensures forall f | f in spans :: IsSpan(chans, f, spans[f])
  {
    spans, pathLength := map[], 1;
    for i := 0 to |chans|
      invariant pathLength == i + 1
      invariant spans.Keys == UnionOf(chans[..i])
      invariant forall f | f in spans :: IsSpan(chans[..i], f, spans[f])
    {
      assert chans[..i + 1][..i] == chans[..i];
      var next := AddChannel(spans, chans[i], pathLength);
      forall f | f in next ensures IsSpan(chans[..i + 1], f, next[f]) {
        if f in chans[i] && f in spans {
          SpanStep(chans, i, f, spans[f]);
        } else if f in chans[i] {
          SpanNew(chans, i, f);
        } else {
          SpanKeep(chans, i, f, spans[f]);
        }
      }
      spans, pathLength := next, pathLength + 1;
    }
    assert chans[..|chans|] == chans;
  }

  /** The flows whose ids are in `ids`, in trace order. */
  function KeepIds(flows: seq<Flow>, ids: set<nat>): (r: seq<Flow>)
    ensures forall f :: f in r <==> f in flows && f.id in ids
  {
    if flows == [] then []
    else
      var init, f := flows[..|flows| - 1], flows[|flows| - 1];
      assert flows == init + [f];
      if f.id in ids then KeepIds(init, ids) + [f] else KeepIds(init, ids)
  }

  /** Keeping distributes over concatenation: the kept flows of each part stay in their order. */
  lemma {:induction false} KeepIdsAppend(a: seq<Flow>, b: seq<Flow>, ids: set<nat>)
    ensures KeepIds(a + b, ids) == KeepIds(a, ids) + KeepIds(b, ids)
    decreases |b|
  {
    if b == [] {
      assert a + b == a;
    } else {
      var init := b[..|b| - 1];
      KeepIdsAppend(a, init, ids);
      assert (a + b)[..|a + b| - 1] == a + init;
      assert (a + b)[|a + b| - 1] == b[|b| - 1];
    }
  }

  /** Keeping is a filter in trace order: a flow is kept in front of the rest exactly when its id is listed. */
  lemma KeepIdsCons(f: Flow, rest: seq<Flow>, ids: set<nat>)
    ensures KeepIds([f] + rest, ids) == (if f.id in ids then [f] else []) + KeepIds(rest, ids)
  {
    KeepIdsAppend([f], rest, ids);
    assert [f][..0] == [];
  }

  /** Every remaining flow is rewritten to run over its span; a flow without one stops the source. */
  method RewriteSpans(remaining: seq<Flow>, spans: map<nat, (nat, nat)>) returns (out: seq<Flow>)
    requires forall k | 0 <= k < |remaining| :: remaining[k].id in spans
    ensures |out| == |remaining|
    ensures forall k | 0 <= k < |out| ::
              out[k] == remaining[k].(src := spans[remaining[k].id].0, dst := spans[remaining[k].id].1)
  {
    out := remaining;
    for idx := 0 to |out|
      invariant |out| == |remaining|
      invariant forall k | 0 <= k < idx ::
                  out[k] == remaining[k].(src := spans[remaining[k].id].0, dst := spans[remaining[k].id].1)
      invariant forall k | idx <= k < |out| :: out[k] == remaining[k]
    {
      var flow := out[idx];
      var src, dst := spans[flow.id].0, spans[flow.id].1;
      out := out[idx := flow.(src := src, dst := dst)];
    }
  }

  /**
   * The flows `run_flowsim` simulates: the trace flows on the chosen path, each running from the
   * first channel it uses to just past the last one, and the path length it passes on.
   */
  method PrepareFlowsim(flows: seq<Flow>, chans: seq<set<nat>>) returns (out: seq<Flow>, pathLength: nat)
    ensures pathLength == |chans| + 1
    ensures |out| == |KeepIds(flows, UnionOf(chans))|
    ensures forall k | 0 <= k < |out| ::
              var f := KeepIds(flows, UnionOf(chans))[k];
              && out[k].id == f.id && out[k].size == f.size && out[k].start == f.start
              && IsSpan(chans, f.id, (out[k].src, out[k].dst))
  {
    var remaining := KeepIds(flows, UnionOf(chans));
    var spans;
    spans, pathLength := FlowSpans(chans);
    forall k | 0 <= k < |remaining| ensures remaining[k].id in spans {
      assert remaining[k] in remaining;
    }
    out := RewriteSpans(remaining, spans);
  }

  /** The busiest (source, destination) pair: the one with the most flows, the last such in the count map's iteration order. */
  method BusiestPair(flows: seq<Flow>, keyOrder: seq<Channel>) returns (pair: Channel)
    requires flows != []
    requires Distinct(keyOrder) && Elements(keyOrder) == Elements(Pairs(flows))
    ensures pair in Pairs(flows)
    ensures forall k | 0 <= k < |flows| :: Occurrences(Pairs(flows), Pairs(flows)[k]) <= Occurrences(Pairs(flows), pair)
  {
    var counts := PairCounts(flows, keyOrder);
    assert Pairs(flows)[0] in Elements(Pairs(flows));
    var at;
    pair, at := SelectMax(counts, keyOrder);
    assert pair in Elements(Pairs(flows));
    forall k | 0 <= k < |flows| ensures Occurrences(Pairs(flows), Pairs(flows)[k]) <= Occurrences(Pairs(flows), pair) {
      assert Pairs(flows)[k] in Elements(Pairs(flows));
    }
  }

  // ---------------------------------------------------------------- grouping by path (all-paths run)

  /**
   * A line of the flow-path file, already read as numbers: positions 1 and 2 name a channel and
   * positions 4 on are the ids of the flows on it.
   */
  predicate WellFormedLine(line: seq<nat>) { |line| >= 4 }

  function ChannelOf(line: seq<nat>): Channel
    requires WellFormedLine(line)
  {
    (line[1], line[2])
  }

  /** The channels the file puts flow `f` on. */
  function ChannelsOf(lines: seq<seq<nat>>, f: nat): set<Channel>
    requires forall k | 0 <= k < |lines| :: WellFormedLine(lines[k])
  {
    if lines == [] then {}
    else
      var last := lines[|lines| - 1];
      assert WellFormedLine(last);
      ChannelsOf(lines[..|lines| - 1], f) + if f in last[4..] then {ChannelOf(last)} else {}
  }

  /** The flows the file puts on channel `ch`. */
  function FlowsOfChannel(lines: seq<seq<nat>>, ch: Channel): set<nat>
    requires forall k | 0 <= k < |lines| :: WellFormedLine(lines[k])
  {
    if lines == [] then {}
    else
      var last := lines[|lines| - 1];
      FlowsOfChannel(lines[..|lines| - 1], ch) + if ChannelOf(last) == ch then Elements(last[4..]) else {}
  }

  /** The two maps the file is read into are transposes of each other. */
  lemma {:induction false} ChannelsTranspose(lines: seq<seq<nat>>, f: nat, ch: Channel)
    requires forall k | 0 <= k < |lines| :: WellFormedLine(lines[k])
    ensures ch in ChannelsOf(lines, f) <==> f in FlowsOfChannel(lines, ch)
    decreases |lines|
  {
    if lines != [] {
      var last := lines[|lines| - 1];
      ChannelsTranspose(lines[..|lines| - 1], f, ch);
      assert f in last[4..] <==> f in Elements(last[4..]) by {
        if f in last[4..] {
          var j :| 0 <= j < |last[4..]| && last[4..][j] == f;
        }
      }
    }
  }

  function GetChannels(m: map<nat, set<Channel>>, f: nat): set<Channel> { if f in m then m[f] else {} }
  function GetFlows(m: map<Channel, set<nat>>, ch: Channel): set<nat> { if ch in m then m[ch] else {} }

  /** `ftp'` is `ftp` with channel `key` added for each flow of `seen`. */
  ghost predicate FlowsGot(ftp': map<nat, set<Channel>>, ftp: map<nat, set<Channel>>, key: Channel, seen: set<nat>)
  {
    && (forall f :: f in ftp' <==> f in ftp || f in seen)
    && (forall f | f in ftp' :: ftp'[f] == GetChannels(ftp, f) + if f in seen then {key} else {})
  }

  /** `ctf'` is `ctf` with the flows of `seen` added on channel `key`, which is present once `some` holds. */
  ghost predicate ChannelGot(ctf': map<Channel, set<nat>>, ctf: map<Channel, set<nat>>, key: Channel, seen: set<nat>, some: bool)
  {
    && (!some ==> seen == {})
    && (forall ch :: ch in ctf' <==> ch in ctf || (ch == key && some))
    && (forall ch | ch in ctf' :: ctf'[ch] == GetFlows(ctf, ch) + if ch == key then seen else {})
  }

  lemma FlowsGotStep(ftp': map<nat, set<Channel>>, ftp: map<nat, set<Channel>>, key: Channel, seen: set<nat>, val: nat)
    requires FlowsGot(ftp', ftp, key, seen)
    ensures FlowsGot(ftp'[val := GetChannels(ftp', val) + {key}], ftp, key, seen + {val})
  {
    var m := ftp'[val := GetChannels(ftp', val) + {key}];
    forall f | f in m ensures m[f] == GetChannels(ftp, f) + if f in seen + {val} then {key} else {} {
      if f != val {
        assert m[f] == ftp'[f];
      }
    }
  }

  lemma ChannelGotStep(ctf': map<Channel, set<nat>>, ctf: map<Channel, set<nat>>, key: Channel, seen: set<nat>, some: bool, val: nat)
    requires ChannelGot(ctf', ctf, key, seen, some)
    ensures ChannelGot(ctf'[key := GetFlows(ctf', key) + {val}], ctf, key, seen + {val}, true)
  {
  }

  /** One line: each listed flow gets the channel, and the channel gets each listed flow. */
  method AddLine(ftp: map<nat, set<Channel>>, ctf: map<Channel, set<nat>>, key: Channel, vals: seq<nat>)
    returns (ftp': map<nat, set<Channel>>, ctf': map<Channel, set<nat>>)
    ensures forall f :: f in ftp' <==> f in ftp || f in vals
    ensures forall f | f in ftp' :: ftp'[f] == GetChannels(ftp, f) + if f in vals then {key} else {}
    ensures forall ch :: ch in ctf' <==> ch in ctf || (ch == key && vals != [])
    ensures forall ch | ch in ctf' :: ctf'[ch] == GetFlows(ctf, ch) + if ch == key then Elements(vals) else {}
  {
    ftp', ctf' := ftp, ctf;
    ghost var seen: set<nat> := {};
    for j := 0 to |vals|
      invariant seen == Elements(vals[..j])
      invariant FlowsGot(ftp', ftp, key, seen)
      invariant ChannelGot(ctf', ctf, key, seen, j > 0)
    {
      assert vals[..j + 1] == vals[..j] + [vals[j]];
      ElementsSnoc(vals[..j], vals[j]);
      var val := vals[j];
      FlowsGotStep(ftp', ftp, key, seen, val);
      ChannelGotStep(ctf', ctf, key, seen, j > 0, val);
      ftp' := ftp'[val := GetChannels(ftp', val) + {key}];
      ctf' := ctf'[key := GetFlows(ctf', key) + {val}];
      seen := seen + {val};
    }
    assert vals[..|vals|] == vals;
    ElementsIn(vals);
  }

  /**
   * Reading the flow-path file of `run_ns3_path_all`: for every line, each listed flow is put on
   * the line's channel in both the flow-to-channels and the channel-to-flows map.
   */
  method BuildMaps(lines: seq<seq<nat>>) returns (ftp: map<nat, set<Channel>>, ctf: map<Channel, set<nat>>)
    requires forall k | 0 <= k < |lines| :: WellFormedLine(lines[k])
    ensures ReadsFlows(lines, ftp) && ReadsChannels(lines, ctf)
  {
    ftp, ctf := map[], map[];
    for i := 0 to |lines|
      invariant forall f :: f in ftp <==> ChannelsOf(lines[..i], f) != {}
      invariant forall f | f in ftp :: ftp[f] == ChannelsOf(lines[..i], f)
      invariant forall ch :: ch in ctf <==> FlowsOfChannel(lines[..i], ch) != {}
      invariant forall ch | ch in ctf :: ctf[ch] == FlowsOfChannel(lines[..i], ch)
    {
      assert lines[..i + 1][..i] == lines[..i];
      var tmp := lines[i];
      var key := (tmp[1], tmp[2]);
      if tmp[4..] != [] {
        assert tmp[4..][0] in Elements(tmp[4..]);
      }
      ftp, ctf := AddLine(ftp, ctf, key, tmp[4..]);
    }
    assert lines[..|lines|] == lines;
  }

  /** Lexicographic order on channels, the order of `sort` on pairs of node ids. */
  function ChannelLe(): (Channel, Channel) -> bool
  {
    (x: Channel, y: Channel) => x.0 < y.0 || (x.0 == y.0 && x.1 <= y.1)
  }

  lemma ChannelLeTotal()
    ensures TotalPreorder(ChannelLe())
  {
  }

  /**
   * A flow's path key: its (source, destination) pair followed by its channels in sorted order;
   * `iterOrder` is the iteration order of a set of channels.
   */
  function PathKey(flows: seq<Flow>, f: nat, chs: set<Channel>, iterOrder: set<Channel> -> seq<Channel>): seq<Channel>
    requires f < |flows|
  {
    ChannelLeTotal();
    [(flows[f].src, flows[f].dst)] + SortBy(iterOrder(chs), ChannelLe())
  }

  lemma FirstElement<T>(s: seq<T>)
    ensures s != [] ==> s[0] in Elements(s)
  {
  }

  /** Sorted sequences without repetitions holding the same channels are equal: the key does not depend on the iteration order. */
  lemma {:induction false} SortedUnique(a: seq<Channel>, b: seq<Channel>)
    requires SortedBy(a, ChannelLe()) && SortedBy(b, ChannelLe()) && Distinct(a) && Distinct(b)
    requires Elements(a) == Elements(b)
    ensures a == b
    decreases |a|
  {
    FirstElement(a);
    FirstElement(b);
    if a != [] && b != [] {
      assert a[0] in Elements(b) && b[0] in Elements(a);
      assert a[0] == b[0];
      forall x ensures x in Elements(a[1..]) <==> x in Elements(b[1..]) {
        if x in Elements(a[1..]) {
          var i :| 0 <= i < |a[1..]| && a[1..][i] == x;
          assert x in Elements(b);
          var j :| 0 <= j < |b| && b[j] == x;
          assert j != 0;
          assert b[1..][j - 1] == x;
        }
        if x in Elements(b[1..]) {
          var i :| 0 <= i < |b[1..]| && b[1..][i] == x;
          assert x in Elements(a);
          var j :| 0 <= j < |a| && a[j] == x;
          assert j != 0;
          assert a[1..][j - 1] == x;
        }
      }
      SortedUnique(a[1..], b[1..]);
    }
  }

  /**
   * `p` is the path key of flow `f` with channel set `chs`: the flow's (source, destination) pair,
   * then every channel of the set once, in sorted order.
   */
  ghost predicate IsKey(flows: seq<Flow>, f: nat, chs: set<Channel>, p: seq<Channel>)
    requires f < |flows|
  {
    ChannelLeTotal();
    && |p| >= 1 && p[0] == (flows[f].src, flows[f].dst)
    && SortedBy(p[1..], ChannelLe()) && Distinct(p[1..]) && Elements(p[1..]) == chs
  }

  /** A flow has a single path key, whatever order its channel set is iterated in. */
  lemma KeyUnique(flows: seq<Flow>, f: nat, chs: set<Channel>, p: seq<Channel>, q: seq<Channel>)
    requires f < |flows|
    requires IsKey(flows, f, chs, p) && IsKey(flows, f, chs, q)
    ensures p == q
  {
    SortedUnique(p[1..], q[1..]);
    assert p == [p[0]] + p[1..] && q == [q[0]] + q[1..];
  }

  /** Building the key: the channel set collected into a vector, sorted, and the pair put in front. */
  method SortedKey(flows: seq<Flow>, f: nat, chs: set<Channel>) returns (p: seq<Channel>)
    requires f < |flows|
    ensures IsKey(flows, f, chs, p)
  {
    var keyVec := Enumerate(chs);
    ChannelLeTotal();
    var sorted := SortBy(keyVec, ChannelLe());
    DistinctPermutation(keyVec, sorted);
    forall x ensures x in Elements(sorted) <==> x in Elements(keyVec) {
      assert x in Elements(sorted) <==> x in multiset(sorted);
      assert x in Elements(keyVec) <==> x in multiset(keyVec);
    }
    p := [(flows[f].src, flows[f].dst)] + sorted;
    assert p[1..] == sorted;
  }

  /** The flows among `among` whose path key is `p`. */
  ghost function FlowsWithKey(flows: seq<Flow>, ftp: map<nat, set<Channel>>, p: seq<Channel>, among: set<nat>): set<nat>
  {
    set f | f in among && f in ftp && f < |flows| && IsKey(flows, f, ftp[f], p)
  }

  lemma GroupStep(flows: seq<Flow>, ftp: map<nat, set<Channel>>, done: set<nat>, f: nat, key: seq<Channel>)
    requires f in ftp && f < |flows| && IsKey(flows, f, ftp[f], key)
    ensures forall p :: FlowsWithKey(flows, ftp, p, done + {f}) ==
                        FlowsWithKey(flows, ftp, p, done) + if p == key then {f} else {}
  {
    forall p ensures FlowsWithKey(flows, ftp, p, done + {f}) ==
                     FlowsWithKey(flows, ftp, p, done) + if p == key then {f} else {} {
      if IsKey(flows, f, ftp[f], p) {
        KeyUnique(flows, f, ftp[f], p, key);
      }
    }
  }

  function GetIds(m: map<seq<Channel>, set<nat>>, p: seq<Channel>): set<nat> { if p in m then m[p] else {} }

  /** Grouping the flows by path key, visiting the flow-to-channels map in its iteration order. */
  method GroupByPath(flows: seq<Flow>, ftp: map<nat, set<Channel>>) returns (ptf: map<seq<Channel>, set<nat>>)
    requires forall f | f in ftp :: f < |flows|
    ensures forall p :: p in ptf <==> FlowsWithKey(flows, ftp, p, ftp.Keys) != {}
    ensures forall p | p in ptf :: ptf[p] == FlowsWithKey(flows, ftp, p, ftp.Keys)
    ensures ftp != map[] ==> ptf != map[]
  {
    ptf := map[];
    var todo := ftp.Keys;
    ghost var done: set<nat> := {};
    while todo != {}
      invariant todo + done == ftp.Keys && todo !! done
      invariant Grouped(flows, ftp, done, ptf)
      invariant done != {} ==> ptf != map[]
      decreases todo
    {
      var f :| f in todo;
      var key := SortedKey(flows, f, ftp[f]);
      GroupedStep(flows, ftp, done, ptf, f, key);
      ptf := ptf[key := GetIds(ptf, key) + {f}];
      todo, done := todo - {f}, done + {f};
    }
  }

  /** `ptf` maps exactly the keys of the flows of `among`, each to the flows with that key. */
  ghost predicate Grouped(flows: seq<Flow>, ftp: map<nat, set<Channel>>, among: set<nat>, ptf: map<seq<Channel>, set<nat>>)
  {
    && (forall p :: p in ptf <==> FlowsWithKey(flows, ftp, p, among) != {})
    && (forall p | p in ptf :: ptf[p] == FlowsWithKey(flows, ftp, p, among))
  }

  /** Adding one more flow to its key's group keeps the grouping exact. */
  lemma GroupedStep(flows: seq<Flow>, ftp: map<nat, set<Channel>>, done: set<nat>, ptf: map<seq<Channel>, set<nat>>, f: nat, key: seq<Channel>)
    requires Grouped(flows, ftp, done, ptf)
    requires f in ftp && f < |flows| && IsKey(flows, f, ftp[f], key)
    ensures Grouped(flows, ftp, done + {f}, ptf[key := GetIds(ptf, key) + {f}])
  {
    GroupStep(flows, ftp, done, f, key);
  }

  /** The path with the most flows: `max_by_key` over the map's iteration order, keeping the last maximum. */
  method ChoosePath(ptf: map<seq<Channel>, set<nat>>) returns (path: seq<Channel>)
    requires ptf != map[]
    ensures path in ptf
    ensures forall p | p in ptf :: |ptf[p]| <= |ptf[path]|
  {
    var order := Enumerate(ptf.Keys);
    var sizes := map p | p in ptf :: |ptf[p]|;
    var p0 :| p0 in ptf;
    assert p0 in Elements(order);
    var at;
    path, at := SelectMax(sizes, order);
  }

  /** The flows the file puts on any channel of `path`. */
  ghost predicate OnPath(lines: seq<seq<nat>>, path: seq<Channel>, f: nat)
    requires forall k | 0 <= k < |lines| :: WellFormedLine(lines[k])
  {
    exists j | 0 <= j < |path| :: f in FlowsOfChannel(lines, path[j])
  }

  /** `f'`: the union of the channel-to-flows entries of the path's pairs, those the map holds. */
  method FlowsOnPath(path: seq<Channel>, ctf: map<Channel, set<nat>>) returns (fPrime: set<nat>)
    ensures forall f :: f in fPrime <==> exists j | 0 <= j < |path| :: f in GetFlows(ctf, path[j])
  {
    fPrime := {};
    for i := 0 to |path|
      invariant forall f :: f in fPrime <==> exists j | 0 <= j < i :: f in GetFlows(ctf, path[j])
    {
      var pair := path[i];
      if pair in ctf {
        fPrime := fPrime + ctf[pair];
      }
    }
  }

  /** A line whose listed flow ids all index the flow list. */
  predicate IdsBelow(line: seq<nat>, n: nat) {
    |line| >= 4 && forall v | v in line[4..] :: v < n
  }

  lemma {:induction false} ChannelsOfBounded(lines: seq<seq<nat>>, n: nat, f: nat)
    requires forall k | 0 <= k < |lines| :: WellFormedLine(lines[k])
    requires forall k | 0 <= k < |lines| :: IdsBelow(lines[k], n)
    ensures ChannelsOf(lines, f) != {} ==> f < n
    decreases |lines|
  {
    if lines != [] {
      ChannelsOfBounded(lines[..|lines| - 1], n, f);
    }
  }

  lemma {:induction false} ChannelsOfLine(lines: seq<seq<nat>>, k: nat)
    requires forall k | 0 <= k < |lines| :: WellFormedLine(lines[k])
    requires k < |lines| && |lines[k]| > 4
    ensures ChannelOf(lines[k]) in ChannelsOf(lines, lines[k][4])
    decreases |lines|
  {
    if k < |lines| - 1 {
      ChannelsOfLine(lines[..|lines| - 1], k);
    } else {
      assert lines[k][4..][0] == lines[k][4];
    }
  }

  /** The flow-to-channels map holds what the file says of each flow. */
  ghost predicate ReadsFlows(lines: seq<seq<nat>>, ftp: map<nat, set<Channel>>)
    requires forall k | 0 <= k < |lines| :: WellFormedLine(lines[k])
  {
    && (forall f :: f in ftp <==> ChannelsOf(lines, f) != {})
    && (forall f | f in ftp :: ftp[f] == ChannelsOf(lines, f))
  }

  /** The channel-to-flows map holds what the file says of each channel. */
  ghost predicate ReadsChannels(lines: seq<seq<nat>>, ctf: map<Channel, set<nat>>)
    requires forall k | 0 <= k < |lines| :: WellFormedLine(lines[k])
  {
    && (forall ch :: ch in ctf <==> FlowsOfChannel(lines, ch) != {})
    && (forall ch | ch in ctf :: ctf[ch] == FlowsOfChannel(lines, ch))
  }

  /** The flows with path key `p`, from the file alone. */
  ghost function FlowsOfKey(lines: seq<seq<nat>>, flows: seq<Flow>, p: seq<Channel>): set<nat>
    requires forall k | 0 <= k < |lines| :: WellFormedLine(lines[k])
  {
    set f | 0 <= f < |flows| && ChannelsOf(lines, f) != {} && IsKey(flows, f, ChannelsOf(lines, f), p)
  }

  /** Grouping the map read from the file gives the same flows per key as the file itself. */
  lemma GroupsOfFile(lines: seq<seq<nat>>, flows: seq<Flow>, ftp: map<nat, set<Channel>>)
    requires forall k | 0 <= k < |lines| :: WellFormedLine(lines[k])
    requires forall k | 0 <= k < |lines| :: IdsBelow(lines[k], |flows|)
    requires ReadsFlows(lines, ftp)
    ensures forall f | f in ftp :: f < |flows|
    ensures forall p :: FlowsWithKey(flows, ftp, p, ftp.Keys) == FlowsOfKey(lines, flows, p)
  {
    forall g | g in ftp ensures g < |flows| {
      ChannelsOfBounded(lines, |flows|, g);
    }
  }

  /** `f'` read off the channel-to-flows map is the set of flows the file puts on the path. */
  lemma FPrimeOfFile(lines: seq<seq<nat>>, ctf: map<Channel, set<nat>>, path: seq<Channel>, fPrime: set<nat>)
    requires forall k | 0 <= k < |lines| :: WellFormedLine(lines[k])
    requires ReadsChannels(lines, ctf)
    requires forall f :: f in fPrime <==> exists j | 0 <= j < |path| :: f in GetFlows(ctf, path[j])
    ensures forall g :: g in fPrime <==> OnPath(lines, path, g)
  {
    forall g ensures g in fPrime <==> OnPath(lines, path, g) {
      if g in fPrime {
        var j :| 0 <= j < |path| && g in GetFlows(ctf, path[j]);
      }
      if OnPath(lines, path, g) {
        var j :| 0 <= j < |path| && g in FlowsOfChannel(lines, path[j]);
        assert g in GetFlows(ctf, path[j]);
      }
    }
  }

  /** Every flow grouped under a path sits on some channel of that path. */
  lemma GroupedFlowsOnPath(lines: seq<seq<nat>>, flows: seq<Flow>, path: seq<Channel>, f: nat)
    requires forall k | 0 <= k < |lines| :: WellFormedLine(lines[k])
    requires f in FlowsOfKey(lines, flows, path)
    ensures exists j | 1 <= j < |path| :: f in FlowsOfChannel(lines, path[j])
  {
    var chs := ChannelsOf(lines, f);
    var ch :| ch in chs;
    assert ch in Elements(path[1..]);
    var j :| 0 <= j < |path[1..]| && path[1..][j] == ch;
    ChannelsTranspose(lines, f, ch);
    assert path[j + 1] == ch;
  }

  /** The flows of a path key are among the flows on that path's pairs: `f` is contained in `f'`. */
  lemma FlowsOfKeyOnPath(lines: seq<seq<nat>>, flows: seq<Flow>, path: seq<Channel>)
    requires forall k | 0 <= k < |lines| :: WellFormedLine(lines[k])
    ensures forall g | g in FlowsOfKey(lines, flows, path) :: OnPath(lines, path, g)
  {
    forall g | g in FlowsOfKey(lines, flows, path) ensures OnPath(lines, path, g) {
      GroupedFlowsOnPath(lines, flows, path, g);
    }
  }

  /**
   * `run_ns3_path_all`: the file's lines are read into the two maps, the flows are grouped by path
   * key, the path with the most flows is chosen, and `f'` collects every flow on any of its
   * pairs. The chosen flows `f` are exactly those with the chosen key, no key has more, and `f`
   * is contained in `f'`.
   */
  method RunNs3PathAll(lines: seq<seq<nat>>, flows: seq<Flow>) returns (path: seq<Channel>, f: set<nat>, fPrime: set<nat>)
    requires forall k | 0 <= k < |lines| :: WellFormedLine(lines[k])
    requires forall k | 0 <= k < |lines| :: IdsBelow(lines[k], |flows|)
    requires exists k | 0 <= k < |lines| :: |lines[k]| > 4
    ensures f == FlowsOfKey(lines, flows, path) && f != {}
    ensures forall p :: |FlowsOfKey(lines, flows, p)| <= |f|
    ensures forall g :: g in fPrime <==> OnPath(lines, path, g)
    ensures f <= fPrime
  {
    var ftp, ctf := BuildMaps(lines);
    GroupsOfFile(lines, flows, ftp);
    var k :| 0 <= k < |lines| && |lines[k]| > 4;
    ChannelsOfLine(lines, k);
    assert lines[k][4] in ftp;
    var ptf := GroupByPath(flows, ftp);
    path := ChoosePath(ptf);
    f := ptf[path];
    ChosenIsLargest(lines, flows, ftp, ptf, path);
    fPrime := FlowsOnPath(path, ctf);
    FPrimeOfFile(lines, ctf, path, fPrime);
    FlowsOfKeyOnPath(lines, flows, path);
  }

  /** The largest group of the grouping is the largest set of flows sharing a path in the file. */
  lemma ChosenIsLargest(lines: seq<seq<nat>>, flows: seq<Flow>, ftp: map<nat, set<Channel>>, ptf: map<seq<Channel>, set<nat>>, path: seq<Channel>)
    requires forall k | 0 <= k < |lines| :: WellFormedLine(lines[k])
    requires forall p :: FlowsWithKey(flows, ftp, p, ftp.Keys) == FlowsOfKey(lines, flows, p)
    requires forall p :: p in ptf <==> FlowsWithKey(flows, ftp, p, ftp.Keys) != {}
    requires forall p | p in ptf :: ptf[p] == FlowsWithKey(flows, ftp, p, ftp.Keys)
    requires path in ptf && forall p | p in ptf :: |ptf[p]| <= |ptf[path]|
    ensures ptf[path] == FlowsOfKey(lines, flows, path) && ptf[path] != {}
    ensures forall p :: |FlowsOfKey(lines, flows, p)| <= |ptf[path]|
  {
    forall p ensures |FlowsOfKey(lines, flows, p)| <= |ptf[path]| {
      if p !in ptf {
        assert FlowsOfKey(lines, flows, p) == {};
      }
    }
  }

  // ---------------------------------------------------------------- the chosen-path file (single-path run)

  /** A header line: at least three comma-separated numbers, of which the first three are read. */
  function HeaderOf(line: string): Option<(nat, nat, nat)>
  {
    var h := SplitOn(line, ',');
    if |h| >= 3 && ParseU64(h[0]).Some? && ParseU64(h[1]).Some? && ParseU64(h[2]).Some?
    then Some((ParseU64(h[0]).value, ParseU64(h[1]).value, ParseU64(h[2]).value))
    else None
  }

  /** A flow-id line: one number, surrounding whitespace ignored. */
  function IdOf(line: string): Option<nat>
  {
    ParseU64(Trim(line))
  }

  /**
   * The chosen-path file read by `run_ns3_path` is well formed: its first line is a header and
   * every further line a flow id.
   */
  predicate PathFileOk(text: string)
  {
    var ls := Lines(text);
    && (ls != [] ==> HeaderOf(ls[0]).Some?)
    && forall k | 1 <= k < |ls| :: IdOf(ls[k]).Some?
  }

  /**
   * Reading the chosen-path file: the header gives the chosen row and column and the size of
   * `f'`, which stay zero for an empty file; each further line gives one flow id, in order.
   */
  method ReadPathFile(text: string) returns (maxRow: nat, maxCol: nat, nrFPrime: nat, ids: seq<nat>)
    requires PathFileOk(text)
    ensures var ls := Lines(text);
            && (ls == [] ==> maxRow == 0 && maxCol == 0 && nrFPrime == 0 && ids == [])
            && (ls != [] ==> HeaderOf(ls[0]) == Some((maxRow, maxCol, nrFPrime)) && |ids| == |ls| - 1)
            && forall k | 0 <= k < |ids| :: IdOf(ls[k + 1]) == Some(ids[k])
  {
    var ls := Lines(text);
    maxRow, maxCol, nrFPrime, ids := 0, 0, 0, [];
    if ls == [] {
      return;
    }
    // Line 0 is the header.
    var tmp := SplitOn(ls[0], ',');
    maxRow := ParseU64(tmp[0]).value;
    maxCol := ParseU64(tmp[1]).value;
    nrFPrime := ParseU64(tmp[2]).value;
    ids := ParseEach(ls[1..], IdOf);
  }

  /** Each line parsed in turn, every parse unwrapped. */
  method ParseEach<V>(ls: seq<string>, parse: string -> Option<V>) returns (vs: seq<V>)
    requires forall k | 0 <= k < |ls| :: parse(ls[k]).Some?
    ensures |vs| == |ls|
    ensures forall k | 0 <= k < |vs| :: parse(ls[k]) == Some(vs[k])
  {
    vs := [];
    for i := 0 to |ls|
      invariant |vs| == i
      invariant forall k | 0 <= k < i :: parse(ls[k]) == Some(vs[k])
    {
      vs := vs + [parse(ls[i]).value];
    }
  }

  /** The chosen-path file for a row, a column, the size of `f'` and the ids of the chosen flows. */
  function PathFileText(maxRow: nat, maxCol: nat, nrFPrime: nat, ids: seq<nat>): string
  {
    Join([Join([NatToString(maxRow), NatToString(maxCol), NatToString(nrFPrime)], ",")] + IdLines(ids), "\n")
  }

  /** One rendered id per line. */
  function IdLines(ids: seq<nat>): (ls: seq<string>)
    ensures |ls| == |ids|
  {
    if ids == [] then [] else IdLines(ids[..|ids| - 1]) + [NatToString(ids[|ids| - 1])]
  }

  lemma {:induction false} IdLinesRead(ids: seq<nat>)
    requires forall k | 0 <= k < |ids| :: ids[k] <= U64_MAX
    ensures forall k | 0 <= k < |ids| :: IsLine(IdLines(ids)[k]) && IdLines(ids)[k] != "" && IdOf(IdLines(ids)[k]) == Some(ids[k])
    decreases |ids|
  {
    if ids != [] {
      var init := ids[..|ids| - 1];
      IdLinesRead(init);
      assert IdLines(ids) == IdLines(init) + [NatToString(ids[|ids| - 1])];
      forall k | 0 <= k < |ids| ensures IsLine(IdLines(ids)[k]) && IdLines(ids)[k] != "" && IdOf(IdLines(ids)[k]) == Some(ids[k]) {
        if k < |ids| - 1 {
          assert IdLines(ids)[k] == IdLines(init)[k] && ids[k] == init[k];
        } else {
          IdLine(ids[k]);
        }
      }
    }
  }

  lemma DigitsAreClean(n: nat)
    ensures NoneOf(NatToString(n), IsWhitespace) && ',' !in NatToString(n) && '\n' !in NatToString(n)
    ensures IsLine(NatToString(n))
  {
    var t := NatToString(n);
    forall i | 0 <= i < |t| ensures !IsWhitespace(t[i]) && t[i] != ',' && t[i] != '\n' {
      assert IsDigit(t[i]);
    }
    assert IsDigit(t[|t| - 1]);
  }

  /** Three numbers joined by commas make one line that splits at its commas back into them. */
  lemma HeaderPieces(ts: seq<string>)
    requires |ts| == 3
    requires forall k | 0 <= k < 3 :: ts[k] != "" && ',' !in ts[k] && IsLine(ts[k])
    ensures IsLine(Join(ts, ",")) && Join(ts, ",") != "" && SplitOn(Join(ts, ","), ',') == ts
  {
    SplitOnOfJoin(ts, ',');
    JoinKeepsOut(ts, ",", '\n');
    var h := Join(ts, ",");
    assert ts[1..][1..] == [ts[2]];
    assert Join(ts[1..], ",") == ts[1] + "," + ts[2];
    assert h == ts[0] + "," + (ts[1] + "," + ts[2]);
    assert h[|h| - 1] == ts[2][|ts[2]| - 1];
  }

  /** A header line of three numbers is one line whose header reads them back. */
  lemma HeaderLine(maxRow: nat, maxCol: nat, nrFPrime: nat)
    requires maxRow <= U64_MAX && maxCol <= U64_MAX && nrFPrime <= U64_MAX
    ensures var h := Join([NatToString(maxRow), NatToString(maxCol), NatToString(nrFPrime)], ",");
            IsLine(h) && h != "" && HeaderOf(h) == Some((maxRow, maxCol, nrFPrime))
  {
    DigitsAreClean(maxRow);
    DigitsAreClean(maxCol);
    DigitsAreClean(nrFPrime);
    HeaderPieces([NatToString(maxRow), NatToString(maxCol), NatToString(nrFPrime)]);
    ParseU64OfNatToString(maxRow);
    ParseU64OfNatToString(maxCol);
    ParseU64OfNatToString(nrFPrime);
  }

  lemma TrimOfDigits(n: nat)
    ensures Trim(NatToString(n)) == NatToString(n)
  {
    DigitsAreClean(n);
    StripOfClean(NatToString(n), IsWhitespace);
  }

  /** A number on a line of its own is read back as a flow id. */
  lemma IdLine(id: nat)
    requires id <= U64_MAX
    ensures IsLine(NatToString(id)) && NatToString(id) != "" && IdOf(NatToString(id)) == Some(id)
  {
    DigitsAreClean(id);
    TrimOfDigits(id);
    ParseU64OfNatToString(id);
  }

  /**
   * The file written for numbers no wider than 64 bits is well formed and reads back: its first
   * line gives the row, the column and the size of `f'`, and its further lines the ids, in order.
   */
  lemma PathFileRoundTrip(maxRow: nat, maxCol: nat, nrFPrime: nat, ids: seq<nat>)
    requires maxRow <= U64_MAX && maxCol <= U64_MAX && nrFPrime <= U64_MAX
    requires forall k | 0 <= k < |ids| :: ids[k] <= U64_MAX
    ensures PathFileOk(PathFileText(maxRow, maxCol, nrFPrime, ids))
    ensures var ls := Lines(PathFileText(maxRow, maxCol, nrFPrime, ids));
            && |ls| == |ids| + 1
            && HeaderOf(ls[0]) == Some((maxRow, maxCol, nrFPrime))
            && forall k | 0 <= k < |ids| :: IdOf(ls[k + 1]) == Some(ids[k])
  {
    var header := Join([NatToString(maxRow), NatToString(maxCol), NatToString(nrFPrime)], ",");
    var body := IdLines(ids);
    var ls := [header] + body;
    HeaderLine(maxRow, maxCol, nrFPrime);
    IdLinesRead(ids);
    forall k | 0 <= k < |ls| ensures IsLine(ls[k]) && ls[k] != "" {
      if k > 0 {
        assert ls[k] == body[k - 1];
      }
    }
    LinesOfJoin(ls);
    assert Lines(PathFileText(maxRow, maxCol, nrFPrime, ids)) == ls;
    forall k | 0 <= k < |ids| ensures IdOf(ls[k + 1]) == Some(ids[k]) {
      assert ls[k + 1] == body[k];
    }
  }

  /** The ids that the lines after the header hold. */
  function ListedIds(ls: seq<string>): set<nat>
  {
    set k | 1 <= k < |ls| && IdOf(ls[k]).Some? :: IdOf(ls[k]).value
  }

  /**
   * `run_ns3_path`: the chosen-path file is read and the flows whose ids it lists are kept, in
   * their order in the workload (`KeepIds`, an order-keeping filter by KeepIdsCons).
   */
  method RunNs3Path(text: string, flows: seq<Flow>) returns (maxRow: nat, maxCol: nat, nrFPrime: nat, kept: seq<Flow>)
    requires PathFileOk(text)
    ensures kept == KeepIds(flows, ListedIds(Lines(text)))
    ensures var ls := Lines(text);
            forall f :: f in kept <==> f in flows && exists k | 1 <= k < |ls| :: IdOf(ls[k]) == Some(f.id)
  {
    var ids;
    maxRow, maxCol, nrFPrime, ids := ReadPathFile(text);
    IdsListed(Lines(text), ids, IdOf);
    assert Elements(ids) == ListedIds(Lines(text));
    kept := KeepIds(flows, Elements(ids));
  }

  /** The ids read from the lines after the header are exactly the ids those lines hold. */
  lemma IdsListed<T>(ls: seq<T>, ids: seq<nat>, read: T -> Option<nat>)
    requires ls == [] ==> ids == []
    requires ls != [] ==> |ids| == |ls| - 1
    requires forall k | 0 <= k < |ids| :: read(ls[k + 1]) == Some(ids[k])
    ensures forall id: nat :: id in Elements(ids) <==> exists k | 1 <= k < |ls| :: read(ls[k]) == Some(id)
  {
    forall id: nat ensures id in Elements(ids) <==> exists k | 1 <= k < |ls| :: read(ls[k]) == Some(id) {
      if id in Elements(ids) {
        var j :| 0 <= j < |ids| && ids[j] == id;
        assert read(ls[j + 1]) == Some(id);
      }
      if exists k | 1 <= k < |ls| :: read(ls[k]) == Some(id) {
        var k :| 1 <= k < |ls| && read(ls[k]) == Some(id);
        assert ids[k - 1] == id;
      }
    }
  }

  // ---------------------------------------------------------------- clustering similarity

  /**
   * The features clustering compares: the size and inter-arrival distributions of a channel's
   * flows and its load. Floating point is modelled by `real`.
   */
  datatype DistsAndLoad = DistsAndLoad(sizes: seq<real>, deltas: seq<real>, load: real)

  function Abs(x: real): real { if x < 0.0 then -x else x }

  function MaxReal(x: real, y: real): real { if y >= x then y else x }

  /**
   * `is_close_enough`: two absent feature sets match, an absent and a present one never do, and
   * two present ones match when the larger of the two distribution errors is below 0.1 and the
   * loads differ by less than 0.005. The error measure `wmape` is a parameter.
   */
  function IsCloseEnough(a: Option<DistsAndLoad>, b: Option<DistsAndLoad>, wmape: (seq<real>, seq<real>) -> real): (r: bool)
    ensures a.None? && b.None? ==> r
    ensures a.None? != b.None? ==> !r
    ensures a.Some? && b.Some? ==>
              (r <==> && wmape(a.value.sizes, b.value.sizes) < 0.1
                      && wmape(a.value.deltas, b.value.deltas) < 0.1
                      && -0.005 < a.value.load - b.value.load < 0.005)
  {
    match (a, b)
    case (None, None) => true
    case (None, Some(_)) => false
    case (Some(_), None) => false
    case (Some(feat1), Some(feat2)) =>
      var szWmape := wmape(feat1.sizes, feat2.sizes);
      var arrWmape := wmape(feat1.deltas, feat2.deltas);
      MaxReal(szWmape, arrWmape) < 0.1 && Abs(feat1.load - feat2.load) < 0.005
  }

  /** With a symmetric error measure the relation is symmetric. */
  lemma IsCloseEnoughSymmetric(a: Option<DistsAndLoad>, b: Option<DistsAndLoad>, wmape: (seq<real>, seq<real>) -> real)
    requires forall x, y :: wmape(x, y) == wmape(y, x)
    ensures IsCloseEnough(a, b, wmape) == IsCloseEnough(b, a, wmape)
  {
    if a.Some? && b.Some? {
      assert wmape(a.value.sizes, b.value.sizes) == wmape(b.value.sizes, a.value.sizes);
      assert wmape(a.value.deltas, b.value.deltas) == wmape(b.value.deltas, a.value.deltas);
    }
  }

  /** With an error measure that is zero on equal inputs, every feature set is close to itself. */
  lemma IsCloseEnoughReflexive(a: Option<DistsAndLoad>, wmape: (seq<real>, seq<real>) -> real)
    requires forall x :: wmape(x, x) == 0.0
    ensures IsCloseEnough(a, a, wmape)
  {
    if a.Some? {
      assert wmape(a.value.sizes, a.value.sizes) == 0.0;
      assert wmape(a.value.deltas, a.value.deltas) == 0.0;
    }
  }

  // ---------------------------------------------------------------- simulation kinds

  /** The simulations this experiment runs. */
  datatype SimKind = Ns3 | Pmn | PmnM | PmnMC | Ns3Path | Ns3PathAll | PmnMPath | Flowsim

  /** The name a simulation kind displays as, used in file names. */
  function Name(k: SimKind): string
  {
    match k
    case Ns3 => "ns3"
    case Pmn => "pmn"
    case PmnM => "pmn-m"
    case PmnMC => "pmn-mc"
    case Ns3Path => "ns3-path"
    case Ns3PathAll => "ns3-path-all"
    case PmnMPath => "pmn-m-path"
    case Flowsim => "flowsim"
  }

  /** The kind a name stands for: an inverse of the display names for stating their injectivity; the source has no such parser. */
  function KindOfName(s: string): (r: Option<SimKind>)
    ensures r.Some? ==> Name(r.value) == s
  {
    if s == "ns3" then Some(Ns3)
    else if s == "pmn" then Some(Pmn)
    else if s == "pmn-m" then Some(PmnM)
    else if s == "pmn-mc" then Some(PmnMC)
    else if s == "ns3-path" then Some(Ns3Path)
    else if s == "ns3-path-all" then Some(Ns3PathAll)
    else if s == "pmn-m-path" then Some(PmnMPath)
    else if s == "flowsim" then Some(Flowsim)
    else None
  }

  /** Every name reads back as its kind, so no two kinds share a name. */
  lemma KindOfNameOfKind(a: SimKind, b: SimKind)
    ensures KindOfName(Name(a)) == Some(a)
    ensures Name(a) == Name(b) ==> a == b
  {
    assert KindOfName(Name(a)) == Some(a);
  }
}
