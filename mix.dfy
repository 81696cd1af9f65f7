/**
 * The parameter space of the sensitivity experiment and the mixes drawn from it. Each mix picks
 * a spatial pattern, a size distribution, a burstiness, a load bound and a cluster from the first
 * random stream, and buffer size, window, PFC switch and the two protocol parameters from the
 * second; the congestion-control protocol goes round-robin over the listed ones. Paths are
 * strings, `f64` is `real`, and each random stream is given as the values its draws return.
 */
module Mix {
  import opened Wrappers
  import Ns3

  /** An inclusive range of reals to draw from. */
  datatype Range = Range(low: real, high: real)

  datatype MixSpace = MixSpace(
    spatials: seq<string>,
    sizeDists: seq<string>,
    lognormSigmas: seq<real>,
    maxLoads: Range,
    clusters: seq<string>,
    bfszs: Range,
    windows: Range,
    pfcs: seq<real>,
    ccs: seq<Ns3.CcKind>,
    params: seq<Range>)

  datatype Mix = Mix(
    id: nat,
    spatial: string,
    sizeDist: string,
    lognormSigma: real,
    maxLoad: real,
    cluster: string,
    bfsz: real,
    window: real,
    enablePfc: real,
    cc: Ns3.CcKind,
    param1: real,
    param2: real)

  /**
   * A random stream, by the values it returns: `choose(k, n)` is the index the k-th draw picks in
   * a slice of n elements, and `between(k, lo, hi)` the value the k-th draw takes in `[lo, hi]`.
   */
  datatype Rng = Rng(choose: (nat, nat) -> nat, between: (nat, real, real) -> real)

  /** A stream whose draws stay inside what they are drawn from. */
  ghost predicate Sound(rng: Rng)
  {
    && (forall k, n | n > 0 :: rng.choose(k, n) < n)
    && (forall k, lo, hi | lo <= hi :: lo <= rng.between(k, lo, hi) <= hi)
  }

  function InRange(x: real, r: Range): bool { r.low <= x <= r.high }

  /** The index of the parameter ranges of mix i's protocol: two per protocol, in protocol order. */
  function ParamIndex(i: nat, nrCcs: nat): nat
    requires nrCcs > 0
  {
    i % nrCcs * 2
  }

  function Min(a: nat, b: nat): nat { if a <= b then a else b }

  /**
   * What drawing `count` mixes demands of the space: a non-empty list to choose from and a
   * non-empty range for every draw, at least one protocol, and two parameter ranges for each
   * protocol a mix is given. Nothing is demanded when no mix is drawn.
   */
  predicate Drawable(space: MixSpace, count: nat)
  {
    count > 0 ==>
      && space.spatials != [] && space.sizeDists != [] && space.lognormSigmas != []
      && space.clusters != [] && space.pfcs != [] && space.ccs != []
      && space.maxLoads.low <= space.maxLoads.high
      && space.bfszs.low <= space.bfszs.high
      && space.windows.low <= space.windows.high
      && 2 * Min(count, |space.ccs|) <= |space.params|
      && forall j | 0 <= j < 2 * Min(count, |space.ccs|) :: space.params[j].low <= space.params[j].high
  }

  /**
   * Mix i: the first stream makes draws 5i to 5i + 4 (spatial, size distribution, burstiness,
   * load, cluster), the second makes draws 5i to 5i + 4 (buffer, window, PFC, the two protocol
   * parameters).
   */
  function DrawMix(space: MixSpace, i: nat, rng: Rng, rng2: Rng): Mix
    requires space.ccs != [] && ParamIndex(i, |space.ccs|) + 1 < |space.params|
  {
    var k := 5 * i;
    var p := ParamIndex(i, |space.ccs|);
    Mix(
      i,
      Pick(space.spatials, rng.choose(k, |space.spatials|), ""),
      Pick(space.sizeDists, rng.choose(k + 1, |space.sizeDists|), ""),
      Pick(space.lognormSigmas, rng.choose(k + 2, |space.lognormSigmas|), 0.0),
      rng.between(k + 3, space.maxLoads.low, space.maxLoads.high),
      Pick(space.clusters, rng.choose(k + 4, |space.clusters|), ""),
      rng2.between(k, space.bfszs.low, space.bfszs.high),
      rng2.between(k + 1, space.windows.low, space.windows.high),
      Pick(space.pfcs, rng2.choose(k + 2, |space.pfcs|), 0.0),
      CcOfMix(space.ccs, i),
      rng2.between(k + 3, space.params[p].low, space.params[p].high),
      rng2.between(k + 4, space.params[p + 1].low, space.params[p + 1].high))
  }

  /** The element a draw picks; a draw outside the slice never happens with a sound stream. */
  function Pick<T>(s: seq<T>, j: nat, otherwise: T): T
  {
    if j < |s| then s[j] else otherwise
  }

  /** The parameter ranges a mix uses lie among the first two per protocol handed out. */
  lemma ParamIndexBound(count: nat, nrCcs: nat)
    requires nrCcs > 0
    ensures forall i | 0 <= i < count :: ParamIndex(i, nrCcs) + 1 < 2 * Min(count, nrCcs)
  {
    forall i | 0 <= i < count ensures ParamIndex(i, nrCcs) + 1 < 2 * Min(count, nrCcs) {
      if count <= nrCcs {
        assert i % nrCcs == i;
      }
    }
  }

  /**
   * `to_mixes`: `count` mixes with ids 0 to count - 1. Every choice comes from its list and every
   * range draw from its range, the protocol goes round-robin over the listed protocols, and the
   * two protocol parameters come from that protocol's pair of ranges.
   */
  function ToMixes(space: MixSpace, count: nat, rng: Rng, rng2: Rng): (r: seq<Mix>)
    requires Drawable(space, count)
    requires Sound(rng) && Sound(rng2)
    ensures |r| == count
    ensures forall i | 0 <= i < count ::
              && r[i].id == i
              && r[i].spatial in space.spatials && r[i].sizeDist in space.sizeDists
              && r[i].lognormSigma in space.lognormSigmas && r[i].cluster in space.clusters
              && r[i].enablePfc in space.pfcs
              && InRange(r[i].maxLoad, space.maxLoads)
              && InRange(r[i].bfsz, space.bfszs) && InRange(r[i].window, space.windows)
              && r[i].cc == CcOfMix(space.ccs, i)
              && InRange(r[i].param1, space.params[ParamIndex(i, |space.ccs|)])
              && InRange(r[i].param2, space.params[ParamIndex(i, |space.ccs|) + 1])
  {
    if count == 0 then []
    else
      ParamIndexBound(count, |space.ccs|);
      seq(count, i requires 0 <= i < count => DrawMix(space, i, rng, rng2))
  }

  /** Mix i's protocol: the listed protocols in turn. */
  function CcOfMix(ccs: seq<Ns3.CcKind>, i: nat): Ns3.CcKind
    requires ccs != []
  {
    ccs[i % |ccs|]
  }

  /**
   * The protocols go round-robin: mixes whose ids differ by the number of protocols run the same
   * one, the first mixes take the protocols in list order, and so every listed protocol is used
   * once there are at least as many mixes as protocols.
   */
  lemma CcRoundRobin(ccs: seq<Ns3.CcKind>, i: nat)
    requires ccs != []
    ensures CcOfMix(ccs, i + |ccs|) == CcOfMix(ccs, i)
    ensures i < |ccs| ==> CcOfMix(ccs, i) == ccs[i]
    ensures forall c | c in ccs :: exists j | 0 <= j < |ccs| :: CcOfMix(ccs, j) == c
  {
    ModShift(i, |ccs|);
    forall c | c in ccs ensures exists j | 0 <= j < |ccs| :: CcOfMix(ccs, j) == c {
      var j :| 0 <= j < |ccs| && ccs[j] == c;
      ModSmall(j, |ccs|);
      assert CcOfMix(ccs, j) == c;
    }
    if i < |ccs| {
      ModSmall(i, |ccs|);
    }
  }

  lemma ModShift(i: nat, n: nat)
    requires n > 0
    ensures (i + n) % n == i % n
  {
    var q, r := i / n, i % n;
    var q2, r2 := (i + n) / n, (i + n) % n;
    assert (q + 1) * n == q * n + n;
    assert (q + 1) * n + r == q2 * n + r2;
    assert (q + 2) * n == (q + 1) * n + n;
    if q2 > q + 1 {
      MulMono(q + 2, q2, n);
    } else if q2 < q + 1 {
      MulMono(q2, q, n);
    }
  }

  lemma {:induction false} MulMono(a: nat, b: nat, n: nat)
    requires a <= b
    ensures a * n <= b * n
    decreases b - a
  {
    if a < b {
      MulMono(a, b - 1, n);
      assert b * n == (b - 1) * n + n;
    }
  }

  lemma ModSmall(i: nat, n: nat)
    requires i < n
    ensures i % n == i
  {
  }

  // ---------------------------------------------------------------- reading a mix

  const DEFAULT_BFSZ: real := 30.0
  const DEFAULT_WINDOW: real := 18.0
  const DEFAULT_ENABLE_PFC: real := 1.0
  const DEFAULT_PARAM_CC: real := 30.0

  /** A stored mix as its serialised fields: the last six may be absent. */
  datatype MixDoc = MixDoc(
    id: nat,
    spatial: string,
    sizeDist: string,
    lognormSigma: real,
    maxLoad: real,
    cluster: string,
    bfsz: Option<real>,
    window: Option<real>,
    enablePfc: Option<real>,
    cc: Option<Ns3.CcKind>,
    param1: Option<real>,
    param2: Option<real>)

  function OrElse<T>(o: Option<T>, d: T): T { if o.Some? then o.value else d }

  /**
   * Reading a stored mix: an absent buffer size reads as 30, window as 18, PFC switch as 1,
   * protocol as DCTCP and either protocol parameter as 30.
   */
  function ReadMix(doc: MixDoc): (m: Mix)
    ensures m.id == doc.id && m.spatial == doc.spatial && m.sizeDist == doc.sizeDist
    ensures m.lognormSigma == doc.lognormSigma && m.maxLoad == doc.maxLoad && m.cluster == doc.cluster
    ensures m.bfsz == if doc.bfsz.Some? then doc.bfsz.value else DEFAULT_BFSZ
    ensures m.window == if doc.window.Some? then doc.window.value else DEFAULT_WINDOW
    ensures m.enablePfc == if doc.enablePfc.Some? then doc.enablePfc.value else DEFAULT_ENABLE_PFC
    ensures m.cc == if doc.cc.Some? then doc.cc.value else Ns3.DEFAULT_CC
    ensures m.param1 == if doc.param1.Some? then doc.param1.value else DEFAULT_PARAM_CC
    ensures m.param2 == if doc.param2.Some? then doc.param2.value else DEFAULT_PARAM_CC
  {
    Mix(doc.id, doc.spatial, doc.sizeDist, doc.lognormSigma, doc.maxLoad, doc.cluster,
        OrElse(doc.bfsz, DEFAULT_BFSZ), OrElse(doc.window, DEFAULT_WINDOW),
        OrElse(doc.enablePfc, DEFAULT_ENABLE_PFC), OrElse(doc.cc, Ns3.DEFAULT_CC),
        OrElse(doc.param1, DEFAULT_PARAM_CC), OrElse(doc.param2, DEFAULT_PARAM_CC))
  }

  /** Writing a mix: every field present. */
  function WriteMix(m: Mix): MixDoc
  {
    MixDoc(m.id, m.spatial, m.sizeDist, m.lognormSigma, m.maxLoad, m.cluster,
           Some(m.bfsz), Some(m.window), Some(m.enablePfc), Some(m.cc), Some(m.param1), Some(m.param2))
  }

  /** A written mix reads back as itself. */
  lemma ReadWriteMix(m: Mix)
    ensures ReadMix(WriteMix(m)) == m
  {
  }

  /**
   * A stored mix with only its first six fields reads with every default: DCTCP, a 30 buffer, an
   * 18 window, PFC on, and 30 for both protocol parameters, whose protocol code is 0.
   */
  lemma ReadLegacyMix(doc: MixDoc)
    requires doc.bfsz.None? && doc.window.None? && doc.enablePfc.None?
    requires doc.cc.None? && doc.param1.None? && doc.param2.None?
    ensures var m := ReadMix(doc);
            && m.cc == Ns3.Dctcp && Ns3.IntValue(m.cc) == 0
            && m.bfsz == 30.0 && m.window == 18.0 && m.enablePfc == 1.0
            && m.param1 == 30.0 && m.param2 == 30.0
  {
  }
}
