/**
 * The flow stream: endpoint pairs, sizes and inter-arrival gaps are drawn until either the clock
 * passes the end of the window or enough flows were emitted. The three samplers are given as
 * functions from the draw number to the value drawn; times are in nanoseconds.
 */
module FlowGen {
  import opened Net
  import opened Fabric
  import opened Text

  /** The largest `usize`, the flow limit of a time-bounded stream. */
  const USIZE_MAX: nat := 0xFFFF_FFFF_FFFF_FFFF

  /** When to stop: after a duration (in nanoseconds), or after a number of flows. */
  datatype StopWhen = Elapsed(duration: nat) | NrFlows(n: nat)

  /** The clock bound: the end of the window, or the largest nanosecond count when counting flows. */
  function End(startTime: nat, stop: StopWhen): nat
  {
    match stop
    case Elapsed(d) => startTime + d
    case NrFlows(_) => U64_MAX
  }

  /** The flow limit: unbounded up to `usize::MAX` for a window, the count otherwise. */
  function MaxFlows(stop: StopWhen): nat
  {
    match stop
    case Elapsed(_) => USIZE_MAX
    case NrFlows(n) => n
  }

  /** The start of flow k: the start time plus the first k gaps. */
  function Clock(startTime: nat, deltas: nat -> nat, k: nat): nat
  {
    if k == 0 then startTime else Clock(startTime, deltas, k - 1) + deltas(k - 1)
  }

  /**
   * `do_generate`: flow k takes id `idStart + k`, the k-th endpoint pair and size, and starts at
   * `Clock(k)`; flows are emitted while the clock is before the end and the limit is not reached.
   */
  method DoGenerate(pairs: nat -> (nat, nat), sizes: nat -> nat, deltas: nat -> nat,
                    startTime: nat, stop: StopWhen, idStart: nat)
    returns (flows: seq<Flow>)
    ensures |flows| <= MaxFlows(stop)
    ensures forall k | 0 <= k < |flows| ::
              flows[k] == Flow(idStart + k, pairs(k).0, pairs(k).1, sizes(k), Clock(startTime, deltas, k))
    ensures forall k | 0 <= k < |flows| :: Clock(startTime, deltas, k) < End(startTime, stop)
    ensures |flows| == MaxFlows(stop) || Clock(startTime, deltas, |flows|) >= End(startTime, stop)
  {
    flows := [];
    var nrFlows := 0;
    var cur := startTime;
    var end, maxNrFlows := End(startTime, stop), MaxFlows(stop);
    while cur < end && nrFlows < maxNrFlows
      invariant nrFlows == |flows| <= maxNrFlows
      invariant cur == Clock(startTime, deltas, nrFlows)
      invariant Emitted(flows, pairs, sizes, deltas, startTime, idStart, end)
      decreases maxNrFlows - nrFlows
    {
      var (src, dst) := pairs(nrFlows);
      var size := sizes(nrFlows);
      var delta := deltas(nrFlows);
      var flow := Flow(idStart + |flows|, src, dst, size, cur);
      EmittedStep(flows, pairs, sizes, deltas, startTime, idStart, end);
      flows := flows + [flow];
      nrFlows := nrFlows + 1;
      cur := cur + delta;
    }
  }

  /** Flow k of `flows` is the k-th draw, started at `Clock(k)` before `end`. */
  ghost predicate Emitted(flows: seq<Flow>, pairs: nat -> (nat, nat), sizes: nat -> nat, deltas: nat -> nat,
                          startTime: nat, idStart: nat, end: nat)
  {
    forall k | 0 <= k < |flows| ::
      && flows[k] == Flow(idStart + k, pairs(k).0, pairs(k).1, sizes(k), Clock(startTime, deltas, k))
      && Clock(startTime, deltas, k) < end
  }

  lemma EmittedStep(flows: seq<Flow>, pairs: nat -> (nat, nat), sizes: nat -> nat, deltas: nat -> nat,
                    startTime: nat, idStart: nat, end: nat)
    requires Emitted(flows, pairs, sizes, deltas, startTime, idStart, end)
    requires Clock(startTime, deltas, |flows|) < end
    ensures var n := |flows|;
            Emitted(flows + [Flow(idStart + n, pairs(n).0, pairs(n).1, sizes(n), Clock(startTime, deltas, n))],
                    pairs, sizes, deltas, startTime, idStart, end)
  {
    var n := |flows|;
    var next := flows + [Flow(idStart + n, pairs(n).0, pairs(n).1, sizes(n), Clock(startTime, deltas, n))];
    forall k | 0 <= k < |next|
      ensures next[k] == Flow(idStart + k, pairs(k).0, pairs(k).1, sizes(k), Clock(startTime, deltas, k))
      ensures Clock(startTime, deltas, k) < end
    {
      if k < n {
        assert next[k] == flows[k];
      }
    }
  }

  /** The clock never runs backwards: flow starts are non-decreasing. */
  lemma {:induction false} ClockMonotone(startTime: nat, deltas: nat -> nat, j: nat, k: nat)
    requires j <= k
    ensures startTime <= Clock(startTime, deltas, j) <= Clock(startTime, deltas, k)
    decreases k
  {
    if j < k {
      ClockMonotone(startTime, deltas, j, k - 1);
    } else if k > 0 {
      ClockMonotone(startTime, deltas, 0, k - 1);
    }
  }

  /**
   * The guarantees of a generated stream: sequential ids, non-decreasing starts from the start
   * time, endpoints distinct when the pair sampler never repeats a host, exactly n flows when
   * counting (unless the clock reaches the largest nanosecond count), and starts inside the
   * window when timing.
   */
  lemma StreamProperties(pairs: nat -> (nat, nat), sizes: nat -> nat, deltas: nat -> nat,
                         startTime: nat, stop: StopWhen, idStart: nat, flows: seq<Flow>)
    requires |flows| <= MaxFlows(stop)
    requires forall k | 0 <= k < |flows| ::
               flows[k] == Flow(idStart + k, pairs(k).0, pairs(k).1, sizes(k), Clock(startTime, deltas, k))
    requires forall k | 0 <= k < |flows| :: Clock(startTime, deltas, k) < End(startTime, stop)
    requires |flows| == MaxFlows(stop) || Clock(startTime, deltas, |flows|) >= End(startTime, stop)
    ensures forall k | 0 <= k < |flows| :: flows[k].id == idStart + k
    ensures forall j, k | 0 <= j <= k < |flows| :: startTime <= flows[j].start <= flows[k].start
    ensures (forall k :: pairs(k).0 != pairs(k).1) ==> forall k | 0 <= k < |flows| :: flows[k].src != flows[k].dst
    ensures stop.NrFlows? ==> |flows| == stop.n || Clock(startTime, deltas, |flows|) >= U64_MAX
    ensures stop.Elapsed? ==>
              && (forall k | 0 <= k < |flows| :: startTime <= flows[k].start < startTime + stop.duration)
              && (|flows| == USIZE_MAX || Clock(startTime, deltas, |flows|) >= startTime + stop.duration)
  {
    forall j, k | 0 <= j <= k < |flows| ensures startTime <= flows[j].start <= flows[k].start {
      ClockMonotone(startTime, deltas, j, k);
    }
    forall k | 0 <= k < |flows| ensures startTime <= flows[k].start {
      ClockMonotone(startTime, deltas, k, k);
    }
  }

  /** The number of probe flows `generate` samples to find the most loaded channel. */
  function NrTestFlows(c: Cluster, stop: StopWhen): nat
  {
    match stop
    case Elapsed(_) => |Links(c)| * 10_000
    case NrFlows(n) => n
  }

  /** Under a window, ten thousand probe flows per link of the cluster, counted level by level. */
  lemma NrTestFlowsElapsed(c: Cluster, d: nat)
    ensures NrTestFlows(c, Elapsed(d)) == (|c.fab2spine| + SumLinks(c.pods)) * 10_000
  {
    LinkCount(c);
  }
}
