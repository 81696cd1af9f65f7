/**
 * The spatial side of a workload: a rack-to-rack traffic matrix counted from trace entries, its
 * placement onto a cluster, weighted sampling of endpoint pairs from it, and its restriction to
 * a subset of racks. Hash-map and hash-set iteration orders, and every random choice, are explicit
 * inputs.
 */
module Spatial {
  import opened Wrappers
  import opened Fabric
  import opened TraceEntry
  import opened Arith
  import opened Net

  /** The number of matrix slots reserved for each pod. */
  const NR_TORS_PER_POD: nat := 48

  datatype Error = TooManyRacks | WorkloadClusterMismatch

  /** `inner[i][j]` counts traffic from rack `idx2name[i]` to rack `idx2name[j]`. */
  datatype Tor2TorMatrix = Tor2TorMatrix(inner: seq<seq<nat>>, idx2name: seq<string>)

  /** `pod2tors` lists each pod's rack names, in the iteration order of the set they came from. */
  datatype SpatialData = SpatialData(
    matrix: Tor2TorMatrix,
    pod2tors: map<string, seq<string>>,
    nrPods: nat,
    nrRacks: nat)

  /** `dim`, the running sum of the flattened matrix, and the hosts behind each matrix index. */
  datatype SpatialWorkload = SpatialWorkload(dim: nat, cumsum: seq<nat>, idx2hosts: seq<seq<nat>>)

  // ---------------------------------------------------------------- sums

  function Sum(s: seq<nat>): nat
  {
    if s == [] then 0 else Sum(s[..|s| - 1]) + s[|s| - 1]
  }

  /** `inner_sum`: the sum of every entry of the matrix. */
  function InnerSum(rows: seq<seq<nat>>): nat
  {
    if rows == [] then 0 else InnerSum(rows[..|rows| - 1]) + Sum(rows[|rows| - 1])
  }

  /** `dim`: the number of rows. */
  function Dim(m: Tor2TorMatrix): nat { |m.inner| }

  lemma {:induction false} SumBump(s: seq<nat>, j: nat)
    requires j < |s|
    ensures Sum(s[j := s[j] + 1]) == Sum(s) + 1
    decreases |s|
  {
    var n := |s| - 1;
    var t := s[j := s[j] + 1];
    if j < n {
      assert t[..n] == s[..n][j := s[j] + 1];
      SumBump(s[..n], j);
    } else {
      assert t[..n] == s[..n];
    }
  }

  lemma {:induction false} InnerSumUpdate(rows: seq<seq<nat>>, i: nat, row: seq<nat>)
    requires i < |rows|
    ensures InnerSum(rows[i := row]) + Sum(rows[i]) == InnerSum(rows) + Sum(row)
    decreases |rows|
  {
    var n := |rows| - 1;
    var t := rows[i := row];
    if i < n {
      assert t[..n] == rows[..n][i := row];
      InnerSumUpdate(rows[..n], i, row);
    } else {
      assert t[..n] == rows[..n];
    }
  }

  lemma {:induction false} SumZero(s: seq<nat>)
    requires forall j | 0 <= j < |s| :: s[j] == 0
    ensures Sum(s) == 0
    decreases |s|
  {
    if s != [] {
      SumZero(s[..|s| - 1]);
    }
  }

  lemma {:induction false} InnerSumZero(rows: seq<seq<nat>>)
    requires forall i, j | 0 <= i < |rows| && 0 <= j < |rows[i]| :: rows[i][j] == 0
    ensures InnerSum(rows) == 0
    decreases |rows|
  {
    if rows != [] {
      InnerSumZero(rows[..|rows| - 1]);
      SumZero(rows[|rows| - 1]);
    }
  }

  // ---------------------------------------------------------------- from_csv

  /** The set of rack names seen for each pod, as source or as destination. */
  function Pod2Tors(entries: seq<Entry>): map<string, set<string>>
  {
    if entries == [] then map[]
    else
      var m := Pod2Tors(entries[..|entries| - 1]);
      var e := entries[|entries| - 1];
      var m1 := m[e.srcpod := (if e.srcpod in m then m[e.srcpod] else {}) + {e.srcrack}];
      m1[e.dstpod := (if e.dstpod in m1 then m1[e.dstpod] else {}) + {e.dstrack}]
  }

  /** `s` lists the elements of `xs`, each once: the iteration order of a hash set or map. */
  ghost predicate OrderOf<T(!new)>(s: seq<T>, xs: set<T>) {
    && (forall i, j | 0 <= i < j < |s| :: s[i] != s[j])
    && (forall x :: x in s <==> x in xs)
  }

  /** The rack names of the pods in `podOrder`, pod after pod: the matrix index order. */
  function Racks(podOrder: seq<string>, rackOrder: map<string, seq<string>>): seq<string>
    requires forall i | 0 <= i < |podOrder| :: podOrder[i] in rackOrder
  {
    if podOrder == [] then []
    else Racks(podOrder[..|podOrder| - 1], rackOrder) + rackOrder[podOrder[|podOrder| - 1]]
  }

  /** The index of each name: `enumerate` collected into a map, a repeated name keeping its last index. */
  function Name2Idx(names: seq<string>): map<string, nat>
  {
    if names == [] then map[]
    else Name2Idx(names[..|names| - 1])[names[|names| - 1] := |names| - 1]
  }

  /** Every rack of every entry has an index below `n`. */
  ghost predicate Indexed(entries: seq<Entry>, idx: map<string, nat>, n: nat) {
    forall k | 0 <= k < |entries| ::
      && entries[k].srcrack in idx && idx[entries[k].srcrack] < n
      && entries[k].dstrack in idx && idx[entries[k].dstrack] < n
  }

  /** Add one to cell (i, j). */
  function Bump(m: seq<seq<nat>>, i: nat, j: nat): seq<seq<nat>>
    requires i < |m| && j < |m[i]|
  {
    m[i := m[i][j := m[i][j] + 1]]
  }

  /** The n × n matrix counting, for each cell, the entries whose racks index it. */
  function Tally(entries: seq<Entry>, idx: map<string, nat>, n: nat): (m: seq<seq<nat>>)
    requires Indexed(entries, idx, n)
    ensures |m| == n && forall i | 0 <= i < n :: |m[i]| == n
  {
    if entries == [] then seq(n, _ => seq(n, _ => 0))
    else
      var e := entries[|entries| - 1];
      Bump(Tally(entries[..|entries| - 1], idx, n), idx[e.srcrack], idx[e.dstrack])
  }

  /** The number of entries whose source rack has index `i` and destination rack index `j`. */
  function CountCell(entries: seq<Entry>, idx: map<string, nat>, i: nat, j: nat): nat
    requires forall k | 0 <= k < |entries| :: entries[k].srcrack in idx && entries[k].dstrack in idx
  {
    if entries == [] then 0
    else
      var e := entries[|entries| - 1];
      CountCell(entries[..|entries| - 1], idx, i, j)
        + (if idx[e.srcrack] == i && idx[e.dstrack] == j then 1 else 0)
  }

  /** Each entry adds exactly one to the matrix: its total is the number of entries. */
  lemma {:induction false} TallyTotal(entries: seq<Entry>, idx: map<string, nat>, n: nat)
    requires Indexed(entries, idx, n)
    ensures InnerSum(Tally(entries, idx, n)) == |entries|
    decreases |entries|
  {
    if entries == [] {
      InnerSumZero(Tally(entries, idx, n));
    } else {
      var k := |entries| - 1;
      var e := entries[k];
      assert Indexed(entries[..k], idx, n);
      var m := Tally(entries[..k], idx, n);
      var i, j := idx[e.srcrack], idx[e.dstrack];
      assert Tally(entries, idx, n) == m[i := m[i][j := m[i][j] + 1]];
      TallyTotal(entries[..k], idx, n);
      SumBump(m[i], j);
      InnerSumUpdate(m, i, m[i][j := m[i][j] + 1]);
    }
  }

  /** Cell (i, j) counts exactly the entries from a rack with index i to a rack with index j. */
  lemma {:induction false} TallyCell(entries: seq<Entry>, idx: map<string, nat>, n: nat, i: nat, j: nat)
    requires Indexed(entries, idx, n) && i < n && j < n
    ensures Tally(entries, idx, n)[i][j] == CountCell(entries, idx, i, j)
    decreases |entries|
  {
    if entries != [] {
      TallyCell(entries[..|entries| - 1], idx, n, i, j);
    }
  }

  /** Rows and columns at or beyond `b` stay zero when every index is below `b`. */
  lemma {:induction false} TallyZeroBeyond(entries: seq<Entry>, idx: map<string, nat>, n: nat, b: nat)
    requires Indexed(entries, idx, b) && b <= n
    ensures forall i, j | 0 <= i < n && 0 <= j < n && (i >= b || j >= b) :: Tally(entries, idx, n)[i][j] == 0
    decreases |entries|
  {
    if entries != [] {
      TallyZeroBeyond(entries[..|entries| - 1], idx, n, b);
    }
  }

  lemma {:induction false} Name2IdxKeys(names: seq<string>)
    ensures forall x :: x in Name2Idx(names) <==> x in names
    ensures forall x | x in Name2Idx(names) :: Name2Idx(names)[x] < |names|
    decreases |names|
  {
    if names != [] {
      var n := |names| - 1;
      Name2IdxKeys(names[..n]);
      assert names == names[..n] + [names[n]];
    }
  }

  /** Every rack of an entry belongs to the set of its pod. */
  lemma {:induction false} Pod2TorsHas(entries: seq<Entry>, k: nat)
    requires k < |entries|
    ensures var m := Pod2Tors(entries);
            && entries[k].srcpod in m && entries[k].srcrack in m[entries[k].srcpod]
            && entries[k].dstpod in m && entries[k].dstrack in m[entries[k].dstpod]
    decreases |entries|
  {
    var n := |entries| - 1;
    if k < n {
      Pod2TorsHas(entries[..n], k);
      Pod2TorsGrows(entries);
    }
  }

  /** Sets only grow as entries are added. */
  lemma Pod2TorsGrows(entries: seq<Entry>)
    requires entries != []
    ensures var before := Pod2Tors(entries[..|entries| - 1]);
            forall pod | pod in before :: pod in Pod2Tors(entries) && before[pod] <= Pod2Tors(entries)[pod]
  {
  }

  lemma {:induction false} RacksHas(podOrder: seq<string>, rackOrder: map<string, seq<string>>, p: nat, x: string)
    requires forall i | 0 <= i < |podOrder| :: podOrder[i] in rackOrder
    requires p < |podOrder| && x in rackOrder[podOrder[p]]
    ensures x in Racks(podOrder, rackOrder)
    decreases |podOrder|
  {
    var n := |podOrder| - 1;
    if p < n {
      RacksHas(podOrder[..n], rackOrder, p, x);
    }
  }

  /** With every pod holding at most `cap` racks, there are at most `cap` racks per pod overall. */
  lemma {:induction false} RacksLength(podOrder: seq<string>, rackOrder: map<string, seq<string>>, cap: nat)
    requires forall i | 0 <= i < |podOrder| :: podOrder[i] in rackOrder && |rackOrder[podOrder[i]]| <= cap
    ensures |Racks(podOrder, rackOrder)| <= |podOrder| * cap
    decreases |podOrder|
  {
    if podOrder != [] {
      RacksLength(podOrder[..|podOrder| - 1], rackOrder, cap);
    }
  }

  lemma {:induction false} DistinctCard<T(!new)>(s: seq<T>, xs: set<T>)
    requires OrderOf(s, xs)
    ensures |xs| == |s|
    decreases |s|
  {
    if s != [] {
      var n := |s| - 1;
      assert OrderOf(s[..n], xs - {s[n]}) by {
        forall x ensures x in s[..n] <==> x in xs - {s[n]} {
          if x in s[..n] {
            var i :| 0 <= i < n && s[..n][i] == x;
            assert s[i] == x;
          }
          if x in xs - {s[n]} {
            assert x in s;
            var i :| 0 <= i < |s| && s[i] == x;
            assert s[..n][i] == x;
          }
        }
      }
      DistinctCard(s[..n], xs - {s[n]});
    }
  }

  /** The pod-to-racks map returned: each pod's racks in the iteration order of its set. */
  function Pod2TorLists(sets: map<string, set<string>>, rackOrder: map<string, seq<string>>): map<string, seq<string>>
    requires forall pod | pod in sets :: pod in rackOrder
  {
    map pod | pod in sets :: rackOrder[pod]
  }

  /** The first loop of `from_csv`: the rack set of every pod. */
  method CollectPods(entries: seq<Entry>) returns (pod2tors: map<string, set<string>>)
    ensures pod2tors == Pod2Tors(entries)
  {
    pod2tors := map[];
    for k := 0 to |entries|
      invariant pod2tors == Pod2Tors(entries[..k])
    {
      var e := entries[k];
      assert entries[..k + 1][..k] == entries[..k];
      pod2tors := pod2tors[e.srcpod := (if e.srcpod in pod2tors then pod2tors[e.srcpod] else {}) + {e.srcrack}];
      pod2tors := pod2tors[e.dstpod := (if e.dstpod in pod2tors then pod2tors[e.dstpod] else {}) + {e.dstrack}];
    }
    assert entries[..|entries|] == entries;
  }

  /** The capacity check: does any pod, visited in `podOrder`, hold more than 48 racks? */
  method AnyPodOverfull(pod2tors: map<string, set<string>>, podOrder: seq<string>) returns (over: bool)
    requires OrderOf(podOrder, pod2tors.Keys)
    ensures over <==> exists pod | pod in pod2tors :: |pod2tors[pod]| > NR_TORS_PER_POD
  {
    for i := 0 to |podOrder|
      invariant forall j | 0 <= j < i :: |pod2tors[podOrder[j]]| <= NR_TORS_PER_POD
    {
      assert podOrder[i] in podOrder;
      if |pod2tors[podOrder[i]]| > NR_TORS_PER_POD {
        return true;
      }
    }
    over := false;
    forall pod | pod in pod2tors ensures |pod2tors[pod]| <= NR_TORS_PER_POD {
      assert pod in podOrder;
    }
  }

  /** Flatten the rack lists pod by pod. */
  method FlattenRacks(podOrder: seq<string>, rackOrder: map<string, seq<string>>) returns (racks: seq<string>)
    requires forall i | 0 <= i < |podOrder| :: podOrder[i] in rackOrder
    ensures racks == Racks(podOrder, rackOrder)
  {
    racks := [];
    for i := 0 to |podOrder|
      invariant racks == Racks(podOrder[..i], rackOrder)
    {
      assert podOrder[..i + 1][..i] == podOrder[..i];
      racks := racks + rackOrder[podOrder[i]];
    }
    assert podOrder[..|podOrder|] == podOrder;
  }

  /** Index every name by its position, a later position overwriting an earlier one. */
  method IndexNames(names: seq<string>) returns (name2idx: map<string, nat>)
    ensures name2idx == Name2Idx(names)
  {
    name2idx := map[];
    for i := 0 to |names|
      invariant name2idx == Name2Idx(names[..i])
    {
      assert names[..i + 1][..i] == names[..i];
      name2idx := name2idx[names[i] := i];
    }
    assert names[..|names|] == names;
  }

  /**
   * Fill an n × n zero matrix, one increment per entry. The source first counts each (source
   * rack, destination rack) pair in a hash map and then writes each count into its cell; adding
   * one per entry gives the same cells, since each cell's count is the number of its entries.
   */
  method FillMatrix(entries: seq<Entry>, name2idx: map<string, nat>, n: nat) returns (inner: seq<seq<nat>>)
    requires Indexed(entries, name2idx, n)
    ensures inner == Tally(entries, name2idx, n)
  {
    inner := seq(n, _ => seq(n, _ => 0));
    for k := 0 to |entries|
      invariant inner == Tally(entries[..k], name2idx, n)
    {
      var e := entries[k];
      assert entries[..k + 1][..k] == entries[..k];
      var i, j := name2idx[e.srcrack], name2idx[e.dstrack];
      inner := inner[i := inner[i][j := inner[i][j] + 1]];
    }
    assert entries[..|entries|] == entries;
  }

  /** Once no pod is over capacity, every rack of every entry is indexed within the flattened racks. */
  lemma EntriesIndexed(entries: seq<Entry>, podOrder: seq<string>, rackOrder: map<string, seq<string>>)
    requires OrderOf(podOrder, Pod2Tors(entries).Keys)
    requires forall pod | pod in Pod2Tors(entries) :: pod in rackOrder && OrderOf(rackOrder[pod], Pod2Tors(entries)[pod])
    requires forall pod | pod in Pod2Tors(entries) :: |Pod2Tors(entries)[pod]| <= NR_TORS_PER_POD
    ensures forall i | 0 <= i < |podOrder| :: podOrder[i] in rackOrder
    ensures |Racks(podOrder, rackOrder)| <= |podOrder| * NR_TORS_PER_POD
    ensures Indexed(entries, Name2Idx(Racks(podOrder, rackOrder)), |Racks(podOrder, rackOrder)|)
  {
    var pod2tors := Pod2Tors(entries);
    forall i | 0 <= i < |podOrder|
      ensures podOrder[i] in rackOrder && |rackOrder[podOrder[i]]| <= NR_TORS_PER_POD
    {
      assert podOrder[i] in podOrder;
      DistinctCard(rackOrder[podOrder[i]], pod2tors[podOrder[i]]);
    }
    RacksLength(podOrder, rackOrder, NR_TORS_PER_POD);
    var racks := Racks(podOrder, rackOrder);
    Name2IdxKeys(racks);
    forall k | 0 <= k < |entries|
      ensures entries[k].srcrack in racks && entries[k].dstrack in racks
    {
      Pod2TorsHas(entries, k);
      var e := entries[k];
      assert e.srcpod in podOrder && e.dstpod in podOrder;
      var p :| 0 <= p < |podOrder| && podOrder[p] == e.srcpod;
      var q :| 0 <= q < |podOrder| && podOrder[q] == e.dstpod;
      RacksHas(podOrder, rackOrder, p, e.srcrack);
      RacksHas(podOrder, rackOrder, q, e.dstrack);
    }
  }

  /**
   * `from_csv` on an already decoded sequence of entries. `podOrder` is the iteration order of
   * the pod map and `rackOrder[pod]` that of the pod's rack set.
   */
  method FromCsv(entries: seq<Entry>, podOrder: seq<string>, rackOrder: map<string, seq<string>>)
    returns (r: Result<SpatialData, Error>)
    requires OrderOf(podOrder, Pod2Tors(entries).Keys)
    requires forall pod | pod in Pod2Tors(entries) :: pod in rackOrder && OrderOf(rackOrder[pod], Pod2Tors(entries)[pod])
    ensures r.Err? <==> exists pod | pod in Pod2Tors(entries) :: |Pod2Tors(entries)[pod]| > NR_TORS_PER_POD
    ensures r.Err? ==> r.error == TooManyRacks
    ensures r.Ok? ==>
              && (forall i | 0 <= i < |podOrder| :: podOrder[i] in rackOrder)
              && |Racks(podOrder, rackOrder)| <= |podOrder| * NR_TORS_PER_POD
              && Indexed(entries, Name2Idx(Racks(podOrder, rackOrder)), |Racks(podOrder, rackOrder)|)
              && r.value == SpatialData(
                   Tor2TorMatrix(Tally(entries, Name2Idx(Racks(podOrder, rackOrder)), |podOrder| * NR_TORS_PER_POD),
                                 Racks(podOrder, rackOrder)),
                   Pod2TorLists(Pod2Tors(entries), rackOrder), |podOrder|, |Racks(podOrder, rackOrder)|)
  {
    var pod2tors := CollectPods(entries);
    var over := AnyPodOverfull(pod2tors, podOrder);
    if over {
      return Err(TooManyRacks);
    }
    EntriesIndexed(entries, podOrder, rackOrder);
    var racks := FlattenRacks(podOrder, rackOrder);
    var n := |podOrder| * NR_TORS_PER_POD;
    var name2idx := IndexNames(racks);
    var inner := FillMatrix(entries, name2idx, n);
    r := Ok(SpatialData(Tor2TorMatrix(inner, racks), Pod2TorLists(pod2tors, rackOrder), |podOrder|, |racks|));
  }

  /**
   * What `from_csv` returns: a square matrix of dimension pods × 48 whose total is the number of
   * entries, with one name per counted rack and every row and column past the last rack zero.
   */
  lemma FromCsvShape(entries: seq<Entry>, podOrder: seq<string>, rackOrder: map<string, seq<string>>)
    requires forall i | 0 <= i < |podOrder| :: podOrder[i] in rackOrder
    requires |Racks(podOrder, rackOrder)| <= |podOrder| * NR_TORS_PER_POD
    requires Indexed(entries, Name2Idx(Racks(podOrder, rackOrder)), |Racks(podOrder, rackOrder)|)
    ensures var racks := Racks(podOrder, rackOrder);
            var n := |podOrder| * NR_TORS_PER_POD;
            var m := Tally(entries, Name2Idx(racks), n);
            && |m| == n && (forall i | 0 <= i < n :: |m[i]| == n)
            && InnerSum(m) == |entries|
            && (forall i, j | 0 <= i < n && 0 <= j < n && (i >= |racks| || j >= |racks|) :: m[i][j] == 0)
  {
    var racks := Racks(podOrder, rackOrder);
    var n := |podOrder| * NR_TORS_PER_POD;
    TallyTotal(entries, Name2Idx(racks), n);
    TallyZeroBeyond(entries, Name2Idx(racks), n, |racks|);
  }

  // ---------------------------------------------------------------- map_to

  /** The row-major flattening of a matrix. */
  function Flatten(rows: seq<seq<nat>>): seq<nat>
  {
    if rows == [] then [] else Flatten(rows[..|rows| - 1]) + rows[|rows| - 1]
  }

  /** The running sum: element k accumulates the first k + 1 elements. */
  function Scan(xs: seq<nat>): (c: seq<nat>)
    ensures |c| == |xs|
  {
    if xs == [] then [] else Scan(xs[..|xs| - 1]) + [Sum(xs)]
  }

  ghost predicate NonDecreasing(c: seq<nat>) {
    forall i, j | 0 <= i <= j < |c| :: c[i] <= c[j]
  }

  /** The running sum before index k: the lower end of cell k's interval. */
  function Before(c: seq<nat>, k: nat): nat
    requires k <= |c|
  {
    if k == 0 then 0 else c[k - 1]
  }

  /** The ToR ids of a pod, rack by rack. */
  function TorIds(p: Pod): seq<nat>
  {
    seq(|p.racks|, j requires 0 <= j < |p.racks| => p.racks[j].tor.id)
  }

  /** The host ids of a rack. */
  function HostIds(r: Rack): seq<nat>
  {
    seq(|r.hosts|, j requires 0 <= j < |r.hosts| => r.hosts[j].id)
  }

  /** `perm` reorders `0..n`: the effect of a shuffle on a sequence of length n. */
  ghost predicate IsPermutation(perm: seq<nat>, n: nat) {
    && |perm| == n
    && (forall j | 0 <= j < n :: perm[j] < n)
    && (forall i, j | 0 <= i < j < n :: perm[i] != perm[j])
  }

  function Shuffle(ids: seq<nat>, perm: seq<nat>): seq<nat>
    requires IsPermutation(perm, |ids|)
  {
    seq(|ids|, j requires 0 <= j < |ids| => ids[perm[j]])
  }

  /** `zip` collected into a map: pairs up to the shorter length, a repeated name keeping its last ToR. */
  function Zip(names: seq<string>, tors: seq<nat>): map<string, nat>
    decreases |names|
  {
    var m := if |names| < |tors| then |names| else |tors|;
    if m == 0 then map[]
    else Zip(names[..m - 1], tors[..m - 1])[names[m - 1] := tors[m - 1]]
  }

  /**
   * The ToR given to each rack name: pod by pod in `podOrder` (its position is the cluster pod
   * index), the pod's names zipped with its shuffled ToR ids; a name seen again keeps the later ToR.
   */
  function Name2Tor(pod2tors: map<string, seq<string>>, podOrder: seq<string>, pods: seq<Pod>, perms: seq<seq<nat>>)
    : map<string, nat>
    requires forall i | 0 <= i < |podOrder| :: podOrder[i] in pod2tors
    requires |podOrder| <= |pods| && |podOrder| <= |perms|
    requires forall i | 0 <= i < |podOrder| :: IsPermutation(perms[i], |pods[i].racks|)
    decreases |podOrder|
  {
    if podOrder == [] then map[]
    else
      var i := |podOrder| - 1;
      Name2Tor(pod2tors, podOrder[..i], pods, perms)
        + Zip(pod2tors[podOrder[i]], Shuffle(TorIds(pods[i]), perms[i]))
  }

  function RacksTor2Hosts(racks: seq<Rack>): map<nat, seq<nat>>
  {
    if racks == [] then map[]
    else RacksTor2Hosts(racks[..|racks| - 1])[racks[|racks| - 1].tor.id := HostIds(racks[|racks| - 1])]
  }

  /** The hosts of every ToR of the cluster, a repeated ToR id keeping its last rack. */
  function Tor2Hosts(pods: seq<Pod>): map<nat, seq<nat>>
  {
    if pods == [] then map[] else Tor2Hosts(pods[..|pods| - 1]) + RacksTor2Hosts(pods[|pods| - 1].racks)
  }

  /** The ToR is some rack's ToR of pod `i`. */
  ghost predicate TorOfPod(pods: seq<Pod>, i: nat, t: nat) {
    i < |pods| && exists j | 0 <= j < |pods[i].racks| :: pods[i].racks[j].tor.id == t
  }

  /**
   * The inputs `map_to` runs on without panicking: `podOrder` is the iteration order of the pod
   * map; when the pod counts agree, `perms[i]` is the shuffle of cluster pod i's ToRs and every
   * rack name of the matrix received a ToR.
   */
  ghost predicate MapToInputs(d: SpatialData, c: Cluster, podOrder: seq<string>, perms: seq<seq<nat>>) {
    && OrderOf(podOrder, d.pod2tors.Keys)
    && (forall i | 0 <= i < |podOrder| :: podOrder[i] in d.pod2tors)
    && (|podOrder| == |c.pods| ==>
          && |perms| == |c.pods|
          && (forall i | 0 <= i < |c.pods| :: IsPermutation(perms[i], |c.pods[i].racks|))
          && (forall i | 0 <= i < |d.matrix.idx2name| ::
                d.matrix.idx2name[i] in Name2Tor(d.pod2tors, podOrder, c.pods, perms)))
  }

  /**
   * `map_to`: the matrix's running sum in row-major order, and for every matrix index the hosts of
   * the ToR its rack name was placed on; an error when the trace and the cluster have different
   * numbers of pods.
   */
  function MapTo(d: SpatialData, c: Cluster, podOrder: seq<string>, perms: seq<seq<nat>>)
    : (r: Result<SpatialWorkload, Error>)
    requires MapToInputs(d, c, podOrder, perms)
    ensures r.Err? <==> |d.pod2tors| != |c.pods|
    ensures r.Err? ==> r.error == WorkloadClusterMismatch
    ensures r.Ok? ==> r.value.dim == |d.matrix.inner| && |r.value.idx2hosts| == |d.matrix.idx2name|
  {
    DistinctCard(podOrder, d.pod2tors.Keys);
    if |d.pod2tors| != |c.pods| then Err(WorkloadClusterMismatch)
    else
      var name2tor := Name2Tor(d.pod2tors, podOrder, c.pods, perms);
      var tor2hosts := Tor2Hosts(c.pods);
      var names := d.matrix.idx2name;
      Name2TorIsTor(d.pod2tors, podOrder, c.pods, perms);
      Tor2HostsKeys(c.pods);
      Ok(SpatialWorkload(
           |d.matrix.inner|,
           Scan(Flatten(d.matrix.inner)),
           seq(|names|, i requires 0 <= i < |names| => tor2hosts[name2tor[names[i]]])))
  }

  lemma {:induction false} SumConcat(a: seq<nat>, b: seq<nat>)
    ensures Sum(a + b) == Sum(a) + Sum(b)
    decreases |b|
  {
    if b == [] {
      assert a + b == a;
    } else {
      var n := |b| - 1;
      assert (a + b)[..|a + b| - 1] == a + b[..n];
      SumConcat(a, b[..n]);
    }
  }

  lemma {:induction false} FlattenSum(rows: seq<seq<nat>>)
    ensures Sum(Flatten(rows)) == InnerSum(rows)
    decreases |rows|
  {
    if rows != [] {
      var n := |rows| - 1;
      FlattenSum(rows[..n]);
      SumConcat(Flatten(rows[..n]), rows[n]);
    }
  }

  lemma {:induction false} FlattenLength(rows: seq<seq<nat>>, n: nat)
    requires forall i | 0 <= i < |rows| :: |rows[i]| == n
    ensures |Flatten(rows)| == |rows| * n
    decreases |rows|
  {
    if rows != [] {
      FlattenLength(rows[..|rows| - 1], n);
    }
  }

  /** Cell (i, j) of a matrix with rows of length n sits at i·n + j of its flattening. */
  lemma {:induction false} FlattenCell(rows: seq<seq<nat>>, n: nat, i: nat, j: nat)
    requires forall r | 0 <= r < |rows| :: |rows[r]| == n
    requires i < |rows| && j < n
    ensures i * n + j < |Flatten(rows)| && Flatten(rows)[i * n + j] == rows[i][j]
    decreases |rows|
  {
    var m := |rows| - 1;
    var pre := Flatten(rows[..m]);
    assert Flatten(rows) == pre + rows[m];
    var p := i * n + j;
    if i < m {
      FlattenCell(rows[..m], n, i, j);
      assert rows[..m][i] == rows[i];
      assert Flatten(rows)[p] == pre[p];
    } else {
      FlattenLength(rows[..m], n);
      assert p == |pre| + j;
    }
  }

  /** The running sum: each element adds its cell's count to the one before, so it never decreases. */
  lemma {:induction false} ScanFacts(xs: seq<nat>)
    ensures forall k | 0 <= k < |xs| :: Scan(xs)[k] == Before(Scan(xs), k) + xs[k]
    ensures forall k | 0 <= k < |xs| :: Scan(xs)[k] <= Sum(xs)
    ensures NonDecreasing(Scan(xs))
    ensures |xs| > 0 ==> Scan(xs)[|xs| - 1] == Sum(xs)
    decreases |xs|
  {
    if xs != [] {
      var n := |xs| - 1;
      var c := Scan(xs);
      var p := Scan(xs[..n]);
      ScanFacts(xs[..n]);
      assert c == p + [Sum(xs)];
      assert Sum(xs) == Sum(xs[..n]) + xs[n];
      assert n > 0 ==> p[n - 1] == Sum(xs[..n]);
      forall k | 0 <= k < |xs| ensures c[k] == Before(c, k) + xs[k] && c[k] <= Sum(xs) {
        if k < n {
          assert c[k] == p[k] && xs[..n][k] == xs[k];
          assert Before(c, k) == Before(p, k);
        }
      }
      forall i, j | 0 <= i <= j < |c| ensures c[i] <= c[j] {
        if j < n {
          assert c[i] == p[i] && c[j] == p[j];
        }
      }
    }
  }

  /**
   * The `cumsum` of `map_to` is the running sum of the row-major matrix: it has one element per
   * cell, never decreases, each element adds its cell to the previous, and the last is the total.
   */
  lemma MapToCumsum(d: SpatialData, c: Cluster, podOrder: seq<string>, perms: seq<seq<nat>>)
    requires MapToInputs(d, c, podOrder, perms) && MapTo(d, c, podOrder, perms).Ok?
    ensures var cs := MapTo(d, c, podOrder, perms).value.cumsum;
            var xs := Flatten(d.matrix.inner);
            && |cs| == |xs|
            && NonDecreasing(cs)
            && (forall k | 0 <= k < |cs| :: cs[k] == Before(cs, k) + xs[k])
            && (|cs| > 0 ==> cs[|cs| - 1] == InnerSum(d.matrix.inner))
  {
    ScanFacts(Flatten(d.matrix.inner));
    FlattenSum(d.matrix.inner);
  }

  /** For an n × n matrix, `cumsum` has n² elements. */
  lemma MapToCumsumLength(d: SpatialData, c: Cluster, podOrder: seq<string>, perms: seq<seq<nat>>)
    requires MapToInputs(d, c, podOrder, perms) && MapTo(d, c, podOrder, perms).Ok?
    requires forall i | 0 <= i < |d.matrix.inner| :: |d.matrix.inner[i]| == |d.matrix.inner|
    ensures |MapTo(d, c, podOrder, perms).value.cumsum| == |d.matrix.inner| * |d.matrix.inner|
  {
    FlattenLength(d.matrix.inner, |d.matrix.inner|);
  }

  lemma {:induction false} ZipValues(names: seq<string>, tors: seq<nat>)
    ensures forall x | x in Zip(names, tors) :: Zip(names, tors)[x] in tors
    ensures forall x | x in Zip(names, tors) :: x in names
    decreases |names|
  {
    var m := if |names| < |tors| then |names| else |tors|;
    if m > 0 {
      ZipValues(names[..m - 1], tors[..m - 1]);
      assert forall t | t in tors[..m - 1] :: t in tors;
      assert forall x | x in names[..m - 1] :: x in names;
    }
  }

  lemma {:induction false} Name2TorIsTor(pod2tors: map<string, seq<string>>, podOrder: seq<string>, pods: seq<Pod>, perms: seq<seq<nat>>)
    requires forall i | 0 <= i < |podOrder| :: podOrder[i] in pod2tors
    requires |podOrder| <= |pods| && |podOrder| <= |perms|
    requires forall i | 0 <= i < |podOrder| :: IsPermutation(perms[i], |pods[i].racks|)
    ensures forall x | x in Name2Tor(pod2tors, podOrder, pods, perms) ::
              exists i | 0 <= i < |podOrder| :: TorOfPod(pods, i, Name2Tor(pod2tors, podOrder, pods, perms)[x])
    decreases |podOrder|
  {
    if podOrder != [] {
      var i := |podOrder| - 1;
      var ids := Shuffle(TorIds(pods[i]), perms[i]);
      var z := Zip(pod2tors[podOrder[i]], ids);
      Name2TorIsTor(pod2tors, podOrder[..i], pods, perms);
      ZipValues(pod2tors[podOrder[i]], ids);
      forall x | x in z ensures TorOfPod(pods, i, z[x]) {
        var a :| 0 <= a < |ids| && ids[a] == z[x];
        assert pods[i].racks[perms[i][a]].tor.id == z[x];
      }
    }
  }

  lemma {:induction false} RacksTor2HostsKeys(racks: seq<Rack>)
    ensures forall j | 0 <= j < |racks| :: racks[j].tor.id in RacksTor2Hosts(racks)
    ensures forall t | t in RacksTor2Hosts(racks) ::
              exists j | 0 <= j < |racks| :: racks[j].tor.id == t && RacksTor2Hosts(racks)[t] == HostIds(racks[j])
    decreases |racks|
  {
    if racks != [] {
      var n := |racks| - 1;
      RacksTor2HostsKeys(racks[..n]);
      forall t | t in RacksTor2Hosts(racks)
        ensures exists j | 0 <= j < |racks| :: racks[j].tor.id == t && RacksTor2Hosts(racks)[t] == HostIds(racks[j])
      {
        if t != racks[n].tor.id {
          var j :| 0 <= j < n && racks[..n][j].tor.id == t && RacksTor2Hosts(racks[..n])[t] == HostIds(racks[..n][j]);
          assert racks[j] == racks[..n][j];
        }
      }
      forall j | 0 <= j < |racks| ensures racks[j].tor.id in RacksTor2Hosts(racks) {
        if j < n {
          assert racks[j] == racks[..n][j];
        }
      }
    }
  }

  /** Every ToR of the cluster has an entry, holding the hosts of a rack with that ToR. */
  lemma {:induction false} Tor2HostsKeys(pods: seq<Pod>)
    ensures forall i, t | TorOfPod(pods, i, t) :: t in Tor2Hosts(pods)
    ensures forall t | t in Tor2Hosts(pods) ::
              exists i, j | 0 <= i < |pods| && 0 <= j < |pods[i].racks| ::
                pods[i].racks[j].tor.id == t && Tor2Hosts(pods)[t] == HostIds(pods[i].racks[j])
    decreases |pods|
  {
    if pods != [] {
      var n := |pods| - 1;
      Tor2HostsKeys(pods[..n]);
      RacksTor2HostsKeys(pods[n].racks);
      forall i: nat, t: nat | TorOfPod(pods, i, t) ensures t in Tor2Hosts(pods) {
        var j :| 0 <= j < |pods[i].racks| && pods[i].racks[j].tor.id == t;
        if i < n {
          assert TorOfPod(pods[..n], i, t) by { assert pods[..n][i] == pods[i]; }
        }
      }
      forall t | t in Tor2Hosts(pods)
        ensures exists i, j | 0 <= i < |pods| && 0 <= j < |pods[i].racks| ::
                  pods[i].racks[j].tor.id == t && Tor2Hosts(pods)[t] == HostIds(pods[i].racks[j])
      {
        if t in RacksTor2Hosts(pods[n].racks) {
          var j :| 0 <= j < |pods[n].racks| && pods[n].racks[j].tor.id == t
                   && RacksTor2Hosts(pods[n].racks)[t] == HostIds(pods[n].racks[j]);
          assert Tor2Hosts(pods)[t] == HostIds(pods[n].racks[j]);
        } else {
          var i, j :| 0 <= i < n && 0 <= j < |pods[..n][i].racks|
                      && pods[..n][i].racks[j].tor.id == t && Tor2Hosts(pods[..n])[t] == HostIds(pods[..n][i].racks[j]);
          assert pods[..n][i] == pods[i];
        }
      }
    }
  }

  /**
   * `idx2hosts[i]` is the host list of a rack of the cluster whose ToR is the one the rack name
   * `idx2name[i]` was placed on.
   */
  lemma MapToHosts(d: SpatialData, c: Cluster, podOrder: seq<string>, perms: seq<seq<nat>>, i: nat)
    requires MapToInputs(d, c, podOrder, perms) && MapTo(d, c, podOrder, perms).Ok?
    requires i < |d.matrix.idx2name|
    ensures |podOrder| == |c.pods|
    ensures var t := Name2Tor(d.pod2tors, podOrder, c.pods, perms)[d.matrix.idx2name[i]];
            exists p, j | 0 <= p < |c.pods| && 0 <= j < |c.pods[p].racks| ::
              c.pods[p].racks[j].tor.id == t
              && MapTo(d, c, podOrder, perms).value.idx2hosts[i] == HostIds(c.pods[p].racks[j])
  {
    DistinctCard(podOrder, d.pod2tors.Keys);
    Name2TorIsTor(d.pod2tors, podOrder, c.pods, perms);
    Tor2HostsKeys(c.pods);
    var name2tor := Name2Tor(d.pod2tors, podOrder, c.pods, perms);
    var t := name2tor[d.matrix.idx2name[i]];
    assert MapTo(d, c, podOrder, perms).value.idx2hosts[i] == Tor2Hosts(c.pods)[t];
    var p, j :| 0 <= p < |c.pods| && 0 <= j < |c.pods[p].racks|
                && c.pods[p].racks[j].tor.id == t && Tor2Hosts(c.pods)[t] == HostIds(c.pods[p].racks[j]);
  }

  /** No two positions of `s` hold the same element. */
  ghost predicate Distinct<T>(s: seq<T>) {
    forall a, b | 0 <= a < b < |s| :: s[a] != s[b]
  }

  /** The racks of a pod have distinct ToR ids. */
  ghost predicate DistinctTors(p: Pod) {
    forall a, b | 0 <= a < b < |p.racks| :: p.racks[a].tor.id != p.racks[b].tor.id
  }

  /** No rack name belongs to two pods. */
  ghost predicate DisjointPods(pod2tors: map<string, seq<string>>) {
    forall p, q, x | p in pod2tors && q in pod2tors && p != q && x in pod2tors[p] :: x !in pod2tors[q]
  }

  lemma {:induction false} ZipAt(names: seq<string>, tors: seq<nat>, a: nat)
    requires Distinct(names) && a < |names| && a < |tors|
    ensures names[a] in Zip(names, tors) && Zip(names, tors)[names[a]] == tors[a]
    decreases |names|
  {
    var m := if |names| < |tors| then |names| else |tors|;
    if a < m - 1 {
      ZipAt(names[..m - 1], tors[..m - 1], a);
    }
  }

  /** A name of pod i that no later pod lists keeps the ToR it was zipped with in pod i. */
  lemma {:induction false} Name2TorAt(pod2tors: map<string, seq<string>>, podOrder: seq<string>, pods: seq<Pod>,
                                      perms: seq<seq<nat>>, i: nat, x: string)
    requires forall k | 0 <= k < |podOrder| :: podOrder[k] in pod2tors
    requires |podOrder| <= |pods| && |podOrder| <= |perms|
    requires forall k | 0 <= k < |podOrder| :: IsPermutation(perms[k], |pods[k].racks|)
    requires i < |podOrder|
    requires x in Zip(pod2tors[podOrder[i]], Shuffle(TorIds(pods[i]), perms[i]))
    requires forall k | i < k < |podOrder| :: x !in pod2tors[podOrder[k]]
    ensures x in Name2Tor(pod2tors, podOrder, pods, perms)
    ensures Name2Tor(pod2tors, podOrder, pods, perms)[x] == Zip(pod2tors[podOrder[i]], Shuffle(TorIds(pods[i]), perms[i]))[x]
    decreases |podOrder|
  {
    var n := |podOrder| - 1;
    if i < n {
      var last := pod2tors[podOrder[n]];
      ZipValues(last, Shuffle(TorIds(pods[n]), perms[n]));
      Name2TorAt(pod2tors, podOrder[..n], pods, perms, i, x);
    }
  }

  /**
   * Shuffle then zip: two distinct rack names of one trace pod are placed on two distinct ToRs
   * of the same cluster pod, when names are not shared between pods and the pod's ToR ids are
   * distinct.
   */
  lemma MapToDistinctTors(d: SpatialData, c: Cluster, podOrder: seq<string>, perms: seq<seq<nat>>,
                          i: nat, a: nat, b: nat)
    requires MapToInputs(d, c, podOrder, perms) && |podOrder| == |c.pods|
    requires DisjointPods(d.pod2tors) && i < |podOrder|
    requires Distinct(d.pod2tors[podOrder[i]]) && DistinctTors(c.pods[i])
    requires a < b < |d.pod2tors[podOrder[i]]| && b < |c.pods[i].racks|
    ensures var names := d.pod2tors[podOrder[i]];
            var m := Name2Tor(d.pod2tors, podOrder, c.pods, perms);
            && names[a] in m && names[b] in m
            && m[names[a]] != m[names[b]]
            && TorOfPod(c.pods, i, m[names[a]]) && TorOfPod(c.pods, i, m[names[b]])
  {
    var names := d.pod2tors[podOrder[i]];
    var ids := Shuffle(TorIds(c.pods[i]), perms[i]);
    ZipAt(names, ids, a);
    ZipAt(names, ids, b);
    forall k | i < k < |podOrder| ensures names[a] !in d.pod2tors[podOrder[k]] && names[b] !in d.pod2tors[podOrder[k]] {
      assert podOrder[i] != podOrder[k];
    }
    Name2TorAt(d.pod2tors, podOrder, c.pods, perms, i, names[a]);
    Name2TorAt(d.pod2tors, podOrder, c.pods, perms, i, names[b]);
    assert ids[a] == c.pods[i].racks[perms[i][a]].tor.id;
    assert ids[b] == c.pods[i].racks[perms[i][b]].tor.id;
  }

  // ---------------------------------------------------------------- sample

  /** The total weight: the last running sum. */
  function Total(w: SpatialWorkload): nat
    requires |w.cumsum| > 0
  {
    w.cumsum[|w.cumsum| - 1]
  }

  /**
   * A workload `sample` can draw from: a positive total over a non-decreasing running sum, and
   * both matrix indices of every cell of positive weight naming a non-empty host list.
   */
  ghost predicate Valid(w: SpatialWorkload) {
    && w.dim > 0 && |w.cumsum| > 0 && NonDecreasing(w.cumsum) && Total(w) > 0
    && forall k | 0 <= k < |w.cumsum| && Before(w.cumsum, k) < w.cumsum[k] ::
         && Row(w, k) < |w.idx2hosts| && Column(w, k) < |w.idx2hosts|
         && w.idx2hosts[Row(w, k)] != [] && w.idx2hosts[Column(w, k)] != []
  }

  /** The matrix row of flat index k: the source rack. */
  function Row(w: SpatialWorkload, k: nat): nat
    requires w.dim > 0
  {
    k / w.dim
  }

  /** The matrix column of flat index k: the destination rack. */
  function Column(w: SpatialWorkload, k: nat): nat
    requires w.dim > 0
  {
    k % w.dim
  }

  /** The first index whose running sum exceeds `r`, or the length when there is none. */
  function FirstAbove(c: seq<nat>, r: nat): (k: nat)
    ensures k <= |c|
    ensures forall j | 0 <= j < k :: c[j] <= r
    ensures k < |c| ==> c[k] > r
  {
    if c == [] then 0
    else if c[0] > r then 0
    else
      var k := 1 + FirstAbove(c[1..], r);
      assert forall j | 1 <= j < k :: c[j] == c[1..][j - 1];
      k
  }

  /**
   * Inverse-CDF selection: over a non-decreasing running sum, cell k is chosen exactly for the
   * draws in [Before(k), cumsum[k]), so each cell is chosen for as many draws as its weight.
   */
  lemma CellChosenIff(c: seq<nat>, r: nat, k: nat)
    requires NonDecreasing(c) && k < |c|
    ensures FirstAbove(c, r) == k <==> Before(c, k) <= r < c[k]
  {
    if Before(c, k) <= r < c[k] {
      assert forall j | 0 <= j < k :: c[j] <= r;
    }
  }

  /** `binary_search` over a sorted slice: a position holding `x`, or where `x` would be inserted. */
  method BinarySearch(c: seq<nat>, x: nat) returns (res: Result<nat, nat>)
    requires NonDecreasing(c)
    ensures res.Ok? ==> res.value < |c| && c[res.value] == x
    ensures res.Err? ==> && res.error <= |c|
                         && (forall j | 0 <= j < res.error :: c[j] < x)
                         && (forall j | res.error <= j < |c| :: c[j] > x)
  {
    var lo, hi := 0, |c|;
    while lo < hi
      invariant 0 <= lo <= hi <= |c|
      invariant forall j | 0 <= j < lo :: c[j] < x
      invariant forall j | hi <= j < |c| :: c[j] > x
      decreases hi - lo
    {
      var mid := lo + (hi - lo) / 2;
      if c[mid] < x {
        lo := mid + 1;
      } else if c[mid] > x {
        hi := mid;
      } else {
        return Ok(mid);
      }
    }
    return Err(lo);
  }

  /** The flat index `sample` chooses for the draw `r`. */
  function Cell(w: SpatialWorkload, r: nat): (k: nat)
    requires Valid(w) && r < Total(w)
    ensures k < |w.cumsum| && Before(w.cumsum, k) <= r < w.cumsum[k]
    ensures Row(w, k) < |w.idx2hosts| && Column(w, k) < |w.idx2hosts|
    ensures w.idx2hosts[Row(w, k)] != [] && w.idx2hosts[Column(w, k)] != []
  {
    var k := FirstAbove(w.cumsum, r);
    assert k < |w.cumsum|;
    assert Before(w.cumsum, k) <= r;
    k
  }

  /** The host a draw picks from a non-empty list: `choose` is modelled as an index reduced modulo the length. */
  function Pick(hosts: seq<nat>, draw: nat): (h: nat)
    requires hosts != []
    ensures h in hosts
  {
    hosts[draw % |hosts|]
  }

  /** The (source, destination) pair one round of the rejection loop picks. */
  function Draw(w: SpatialWorkload, r: nat, d: (nat, nat)): (nat, nat)
    requires Valid(w) && r < Total(w)
  {
    var k := Cell(w, r);
    (Pick(w.idx2hosts[Row(w, k)], d.0), Pick(w.idx2hosts[Column(w, k)], d.1))
  }

  /**
   * `sample` with the range draw `r` and the host draws given: the cell whose interval holds `r`,
   * source hosts from its row's rack and destination hosts from its column's rack, redrawn while
   * they coincide. It returns the first pair of distinct hosts; `None` stands for a loop that has
   * not stopped within the draws given.
   */
  method Sample(w: SpatialWorkload, r: nat, draws: seq<(nat, nat)>) returns (res: Option<(nat, nat)>)
    requires Valid(w) && r < Total(w)
    ensures res.Some? ==>
              && res.value.0 != res.value.1
              && res.value.0 in w.idx2hosts[Row(w, Cell(w, r))]
              && res.value.1 in w.idx2hosts[Column(w, Cell(w, r))]
              && exists i | 0 <= i < |draws| ::
                   && res.value == Draw(w, r, draws[i])
                   && forall j | 0 <= j < i :: Draw(w, r, draws[j]).0 == Draw(w, r, draws[j]).1
    ensures res.None? <==> forall j | 0 <= j < |draws| :: Draw(w, r, draws[j]).0 == Draw(w, r, draws[j]).1
  {
    var index := FindCell(w, r);
    var srcChoices, dstChoices := w.idx2hosts[Row(w, index)], w.idx2hosts[Column(w, index)];
    var src, dst := 0, 0;
    var n := 0;
    while src == dst
      invariant n <= |draws|
      invariant forall j | 0 <= j < n - 1 :: Draw(w, r, draws[j]).0 == Draw(w, r, draws[j]).1
      invariant n == 0 ==> src == dst
      invariant n > 0 ==> (src, dst) == Draw(w, r, draws[n - 1])
      decreases |draws| - n
    {
      if n == |draws| {
        return None;
      }
      src, dst := Pick(srcChoices, draws[n].0), Pick(dstChoices, draws[n].1);
      n := n + 1;
    }
    res := Some((src, dst));
    assert res.value == Draw(w, r, draws[n - 1]);
  }

  /** The search part of `sample`: binary search, then past every running sum equal to the draw. */
  method FindCell(w: SpatialWorkload, r: nat) returns (index: nat)
    requires Valid(w) && r < Total(w)
    ensures index == Cell(w, r)
  {
    var found := BinarySearch(w.cumsum, r);
    match found
    case Ok(i) =>
      index := i;
      while r >= w.cumsum[index]
        invariant i <= index < |w.cumsum|
        invariant forall j | 0 <= j < index :: w.cumsum[j] <= r
        decreases |w.cumsum| - index
      {
        index := index + 1;
      }
    case Err(i) =>
      index := i;
      assert index < |w.cumsum|;
    CellChosenIff(w.cumsum, r, index);
  }

  /** Every rack of the cluster has at least one host. */
  ghost predicate RacksHaveHosts(c: Cluster) {
    forall p, j | 0 <= p < |c.pods| && 0 <= j < |c.pods[p].racks| :: c.pods[p].racks[j].hosts != []
  }

  /**
   * What `from_csv` produces, placed by `map_to` on a cluster whose racks all have hosts, is a
   * workload `sample` can draw from, as soon as the trace holds at least one entry.
   */
  lemma MapToValid(d: SpatialData, c: Cluster, podOrder: seq<string>, perms: seq<seq<nat>>)
    requires MapToInputs(d, c, podOrder, perms) && MapTo(d, c, podOrder, perms).Ok?
    requires |d.matrix.inner| > 0 && forall i | 0 <= i < |d.matrix.inner| :: |d.matrix.inner[i]| == |d.matrix.inner|
    requires |d.matrix.idx2name| <= |d.matrix.inner|
    requires forall i, j | 0 <= i < |d.matrix.inner| && 0 <= j < |d.matrix.inner|
                           && (i >= |d.matrix.idx2name| || j >= |d.matrix.idx2name|) :: d.matrix.inner[i][j] == 0
    requires InnerSum(d.matrix.inner) > 0
    requires RacksHaveHosts(c)
    ensures Valid(MapTo(d, c, podOrder, perms).value)
  {
    var w := MapTo(d, c, podOrder, perms).value;
    var inner := d.matrix.inner;
    var n := |inner|;
    MapToCumsum(d, c, podOrder, perms);
    FlattenLength(inner, n);
    MulMono(1, n, n);
    forall k | 0 <= k < |w.cumsum| && Before(w.cumsum, k) < w.cumsum[k]
      ensures && Row(w, k) < |w.idx2hosts| && Column(w, k) < |w.idx2hosts|
              && w.idx2hosts[Row(w, k)] != [] && w.idx2hosts[Column(w, k)] != []
    {
      var i, j := Row(w, k), Column(w, k);
      DivModBound(k, n, n);
      FlattenCell(inner, n, i, j);
      assert inner[i][j] > 0;
      MapToHosts(d, c, podOrder, perms, i);
      MapToHosts(d, c, podOrder, perms, j);
    }
  }

  // ---------------------------------------------------------------- downsample

  function Min(a: nat, b: nat): nat { if a < b then a else b }

  /**
   * The random choices of `downsample`: `choose_multiple` gives min(nr_pods, pod count) distinct
   * pods and, for each, min(nr_tors_per_pod, its rack count) of its rack names.
   */
  ghost predicate Chosen(d: SpatialData, nrPods: nat, nrTorsPerPod: nat, chosen: seq<(string, seq<string>)>) {
    && |chosen| == Min(nrPods, |d.pod2tors|)
    && (forall a, b | 0 <= a < b < |chosen| :: chosen[a].0 != chosen[b].0)
    && (forall a | 0 <= a < |chosen| ::
          && chosen[a].0 in d.pod2tors
          && |chosen[a].1| == Min(nrTorsPerPod, |d.pod2tors[chosen[a].0]|)
          && (forall x | x in chosen[a].1 :: x in d.pod2tors[chosen[a].0]))
  }

  /** Every rack name chosen, from any pod. */
  function ChosenNames(chosen: seq<(string, seq<string>)>): set<string>
  {
    if chosen == [] then {}
    else
      var l := chosen[|chosen| - 1].1;
      ChosenNames(chosen[..|chosen| - 1]) + (set i | 0 <= i < |l| :: l[i])
  }

  function ChosenMap(chosen: seq<(string, seq<string>)>): map<string, seq<string>>
  {
    if chosen == [] then map[]
    else ChosenMap(chosen[..|chosen| - 1])[chosen[|chosen| - 1].0 := chosen[|chosen| - 1].1]
  }

  /** The matrix indices whose rack name is kept. */
  function KeepIndices(names: seq<string>, tors: set<string>): set<nat>
  {
    set i | 0 <= i < |names| && names[i] in tors
  }

  /** The indices below n that `keep` holds, in ascending order. */
  function Kept(n: nat, keep: set<nat>): seq<nat>
  {
    if n == 0 then [] else Kept(n - 1, keep) + (if n - 1 in keep then [n - 1] else [])
  }

  /** A row with the entries at indices outside `keep` removed. */
  function FilterIdx(row: seq<nat>, keep: set<nat>): seq<nat>
  {
    if row == [] then []
    else FilterIdx(row[..|row| - 1], keep) + (if |row| - 1 in keep then [row[|row| - 1]] else [])
  }

  /** The rows at indices in `keep`, each restricted to the columns in `keep`. */
  function FilterRows(rows: seq<seq<nat>>, keep: set<nat>): seq<seq<nat>>
  {
    if rows == [] then []
    else FilterRows(rows[..|rows| - 1], keep)
         + (if |rows| - 1 in keep then [FilterIdx(rows[|rows| - 1], keep)] else [])
  }

  /**
   * `downsample` as written: rows and columns are filtered in ascending index order, while the
   * new names follow `keepOrder`, the iteration order of the hash set of kept indices.
   */
  function Downsample(d: SpatialData, nrPods: nat, nrTorsPerPod: nat,
                      chosen: seq<(string, seq<string>)>, keepOrder: seq<nat>): (r: SpatialData)
    requires Chosen(d, nrPods, nrTorsPerPod, chosen)
    requires |ChosenNames(chosen)| == nrPods * nrTorsPerPod
    requires OrderOf(keepOrder, KeepIndices(d.matrix.idx2name, ChosenNames(chosen)))
    ensures r.nrPods == nrPods && r.nrRacks == nrPods * nrTorsPerPod
    ensures |r.matrix.idx2name| == |KeepIndices(d.matrix.idx2name, ChosenNames(chosen))|
    ensures forall a | 0 <= a < |r.matrix.idx2name| :: r.matrix.idx2name[a] in ChosenNames(chosen)
  {
    var tors := ChosenNames(chosen);
    var keep := KeepIndices(d.matrix.idx2name, tors);
    DistinctCard(keepOrder, keep);
    assert forall a | 0 <= a < |keepOrder| :: keepOrder[a] in keep;
    SpatialData(
      Tor2TorMatrix(FilterRows(d.matrix.inner, keep),
                    seq(|keepOrder|, a requires 0 <= a < |keepOrder| => d.matrix.idx2name[keepOrder[a]])),
      ChosenMap(chosen), nrPods, |tors|)
  }

  /** `Kept` lists, in strictly ascending order, exactly the indices below n that `keep` holds. */
  lemma {:induction false} KeptFacts(n: nat, keep: set<nat>)
    ensures forall a, b | 0 <= a < b < |Kept(n, keep)| :: Kept(n, keep)[a] < Kept(n, keep)[b]
    ensures forall a | 0 <= a < |Kept(n, keep)| :: Kept(n, keep)[a] < n && Kept(n, keep)[a] in keep
    ensures forall i | 0 <= i < n && i in keep :: i in Kept(n, keep)
    decreases n
  {
    if n > 0 {
      KeptFacts(n - 1, keep);
    }
  }

  /** Filtering a row keeps the entries at the kept indices, in ascending order. */
  lemma {:induction false} FilterIdxGather(row: seq<nat>, keep: set<nat>)
    ensures var k := Kept(|row|, keep);
            && |FilterIdx(row, keep)| == |k|
            && forall a | 0 <= a < |k| :: k[a] < |row| && FilterIdx(row, keep)[a] == row[k[a]]
    decreases |row|
  {
    KeptFacts(|row|, keep);
    if row != [] {
      var m := |row| - 1;
      FilterIdxGather(row[..m], keep);
      KeptFacts(m, keep);
      var k := Kept(m, keep);
      forall a | 0 <= a < |k| ensures row[..m][k[a]] == row[k[a]] { }
    }
  }

  /** Filtering the rows keeps the rows at the kept indices, in ascending order. */
  lemma {:induction false} FilterRowsGather(rows: seq<seq<nat>>, keep: set<nat>)
    ensures var k := Kept(|rows|, keep);
            && |FilterRows(rows, keep)| == |k|
            && forall a | 0 <= a < |k| :: k[a] < |rows| && FilterRows(rows, keep)[a] == FilterIdx(rows[k[a]], keep)
    decreases |rows|
  {
    KeptFacts(|rows|, keep);
    if rows != [] {
      var m := |rows| - 1;
      FilterRowsGather(rows[..m], keep);
      KeptFacts(m, keep);
      var k := Kept(m, keep);
      forall a | 0 <= a < |k| ensures rows[..m][k[a]] == rows[k[a]] { }
    }
  }

  /** Below the first index past `keep`, enumerating more indices adds none. */
  lemma {:induction false} KeptBeyond(n: nat, m: nat, keep: set<nat>)
    requires m <= n && forall i | i in keep :: i < m
    ensures Kept(n, keep) == Kept(m, keep)
    decreases n
  {
    if n > m {
      KeptBeyond(n - 1, m, keep);
    }
  }

  /** The kept indices of the names in `tors`, ascending, list each such index once. */
  lemma KeptOrder(names: seq<string>, tors: set<string>)
    ensures var keep := KeepIndices(names, tors);
            var k := Kept(|names|, keep);
            && OrderOf(k, keep) && |k| == |keep|
            && (forall a, b | 0 <= a < b < |k| :: k[a] < k[b])
            && (forall a | 0 <= a < |k| :: k[a] < |names|)
  {
    var keep := KeepIndices(names, tors);
    var k := Kept(|names|, keep);
    KeptFacts(|names|, keep);
    assert OrderOf(k, keep) by {
      forall i ensures i in k <==> i in keep { }
    }
    DistinctCard(k, keep);
  }

  /**
   * Restricting a square matrix to the indices in `keep`, all below n <= its size, gives the
   * matrix whose cell (a, b) is the old cell (K[a], K[b]), K the kept indices in ascending order.
   */
  lemma FilterRowsRestrict(inner: seq<seq<nat>>, keep: set<nat>, n: nat)
    requires forall i | 0 <= i < |inner| :: |inner[i]| == |inner|
    requires n <= |inner| && forall i | i in keep :: i < n
    ensures var k := Kept(n, keep);
            var m := FilterRows(inner, keep);
            && |m| == |k|
            && (forall a | 0 <= a < |k| :: k[a] < n && |m[a]| == |k|)
            && (forall a, b | 0 <= a < |k| && 0 <= b < |k| :: m[a][b] == inner[k[a]][k[b]])
  {
    var k := Kept(n, keep);
    KeptBeyond(|inner|, n, keep);
    KeptFacts(n, keep);
    FilterRowsGather(inner, keep);
    forall a | 0 <= a < |k| ensures k[a] < |inner| && Kept(|inner[k[a]]|, keep) == k {
      KeptBeyond(|inner[k[a]]|, n, keep);
    }
    forall a | 0 <= a < |k|
      ensures var row := inner[k[a]]; FilterIdx(row, keep) == seq(|k|, b requires 0 <= b < |k| => row[k[b]])
    {
      FilterIdxGather(inner[k[a]], keep);
    }
  }

  /**
   * The matrix `downsample` builds is the old one restricted to the kept indices: with K the kept
   * indices in ascending order, new cell (a, b) is old cell (K[a], K[b]).
   */
  lemma DownsampleRestricts(d: SpatialData, nrPods: nat, nrTorsPerPod: nat,
                            chosen: seq<(string, seq<string>)>, keepOrder: seq<nat>)
    requires Chosen(d, nrPods, nrTorsPerPod, chosen)
    requires |ChosenNames(chosen)| == nrPods * nrTorsPerPod
    requires OrderOf(keepOrder, KeepIndices(d.matrix.idx2name, ChosenNames(chosen)))
    requires forall i | 0 <= i < |d.matrix.inner| :: |d.matrix.inner[i]| == |d.matrix.inner|
    requires |d.matrix.idx2name| <= |d.matrix.inner|
    ensures var keep := KeepIndices(d.matrix.idx2name, ChosenNames(chosen));
            var k := Kept(|d.matrix.idx2name|, keep);
            var m := Downsample(d, nrPods, nrTorsPerPod, chosen, keepOrder).matrix.inner;
            && |m| == |k| == |keep|
            && (forall a, b | 0 <= a < b < |k| :: k[a] < k[b])
            && (forall a | 0 <= a < |k| :: k[a] in keep)
            && (forall a | 0 <= a < |k| :: |m[a]| == |k|)
            && (forall a, b | 0 <= a < |k| && 0 <= b < |k| :: m[a][b] == d.matrix.inner[k[a]][k[b]])
  {
    var keep := KeepIndices(d.matrix.idx2name, ChosenNames(chosen));
    KeptOrder(d.matrix.idx2name, ChosenNames(chosen));
    FilterRowsRestrict(d.matrix.inner, keep, |d.matrix.idx2name|);
  }

  /**
   * The new names are the kept rack names, each kept index contributing its name once, at the
   * position its index takes in `keepOrder`.
   */
  lemma DownsampleNames(d: SpatialData, nrPods: nat, nrTorsPerPod: nat,
                        chosen: seq<(string, seq<string>)>, keepOrder: seq<nat>)
    requires Chosen(d, nrPods, nrTorsPerPod, chosen)
    requires |ChosenNames(chosen)| == nrPods * nrTorsPerPod
    requires OrderOf(keepOrder, KeepIndices(d.matrix.idx2name, ChosenNames(chosen)))
    ensures var names := Downsample(d, nrPods, nrTorsPerPod, chosen, keepOrder).matrix.idx2name;
            forall i | 0 <= i < |d.matrix.idx2name| && d.matrix.idx2name[i] in ChosenNames(chosen) ::
              exists a | 0 <= a < |names| :: keepOrder[a] == i && names[a] == d.matrix.idx2name[i]
  {
    var keep := KeepIndices(d.matrix.idx2name, ChosenNames(chosen));
    forall i | 0 <= i < |d.matrix.idx2name| && d.matrix.idx2name[i] in ChosenNames(chosen)
      ensures exists a | 0 <= a < |keepOrder| :: keepOrder[a] == i
    {
      assert i in keep;
    }
  }

  /**
   * `downsample` with the kept indices visited in ascending order: the new names then follow the
   * same order as the new rows and columns.
   */
  function DownsampleAligned(d: SpatialData, nrPods: nat, nrTorsPerPod: nat,
                             chosen: seq<(string, seq<string>)>): (r: SpatialData)
    requires Chosen(d, nrPods, nrTorsPerPod, chosen)
    requires |ChosenNames(chosen)| == nrPods * nrTorsPerPod
    ensures r.nrPods == nrPods && r.nrRacks == nrPods * nrTorsPerPod
  {
    var keep := KeepIndices(d.matrix.idx2name, ChosenNames(chosen));
    KeptOrder(d.matrix.idx2name, ChosenNames(chosen));
    Downsample(d, nrPods, nrTorsPerPod, chosen, Kept(|d.matrix.idx2name|, keep))
  }

  /**
   * With ascending order, the same index sequence K gives both the rows and the names: new row a
   * is the traffic of the rack `new_idx2name[a]`, towards the rack `new_idx2name[b]` in column b.
   */
  lemma DownsampleAlignedRows(d: SpatialData, nrPods: nat, nrTorsPerPod: nat, chosen: seq<(string, seq<string>)>)
    requires Chosen(d, nrPods, nrTorsPerPod, chosen)
    requires |ChosenNames(chosen)| == nrPods * nrTorsPerPod
    requires forall i | 0 <= i < |d.matrix.inner| :: |d.matrix.inner[i]| == |d.matrix.inner|
    requires |d.matrix.idx2name| <= |d.matrix.inner|
    ensures var k := Kept(|d.matrix.idx2name|, KeepIndices(d.matrix.idx2name, ChosenNames(chosen)));
            var r := DownsampleAligned(d, nrPods, nrTorsPerPod, chosen).matrix;
            && |r.inner| == |r.idx2name| == |k|
            && (forall a | 0 <= a < |k| :: k[a] < |d.matrix.idx2name| && r.idx2name[a] == d.matrix.idx2name[k[a]])
            && (forall a | 0 <= a < |k| :: |r.inner[a]| == |k|)
            && (forall a, b | 0 <= a < |k| && 0 <= b < |k| :: r.inner[a][b] == d.matrix.inner[k[a]][k[b]])
  {
    var keep := KeepIndices(d.matrix.idx2name, ChosenNames(chosen));
    KeptOrder(d.matrix.idx2name, ChosenNames(chosen));
    DownsampleRestricts(d, nrPods, nrTorsPerPod, chosen, Kept(|d.matrix.idx2name|, keep));
  }

  /** Two racks of one pod, with five units of traffic from r0 to r1 and none back. */
  function TwoRacks(): SpatialData
  {
    SpatialData(Tor2TorMatrix([[0, 5], [0, 0]], ["r0", "r1"]), map["p" := ["r0", "r1"]], 1, 2)
  }

  /** Both racks of pod `p` chosen. */
  function BothRacks(): seq<(string, seq<string>)> { [("p", ["r0", "r1"])] }

  lemma BothRacksNames()
    ensures ChosenNames(BothRacks()) == {"r0", "r1"}
  {
    var l := ["r0", "r1"];
    assert BothRacks()[..0] == [];
    assert (set i | 0 <= i < |l| :: l[i]) == {"r0", "r1"} by {
      assert l[0] == "r0" && l[1] == "r1";
    }
  }

  lemma BothRacksKeep()
    ensures KeepIndices(["r0", "r1"], {"r0", "r1"}) == {0, 1}
  {
    var keep := KeepIndices(["r0", "r1"], {"r0", "r1"});
    assert 0 in keep && 1 in keep;
  }

  lemma BothRacksFilter()
    ensures FilterRows([[0, 5], [0, 0]], {0, 1}) == [[0, 5], [0, 0]]
    ensures Kept(2, {0, 1}) == [0, 1]
  {
    var keep: set<nat> := {0, 1};
    FilterRowsKeepAll([[0, 5], [0, 0]], keep);
    KeptAll(2, keep);
    assert seq(2, i => i) == [0, 1];
  }

  /** Keeping every index of a row keeps the row. */
  lemma {:induction false} FilterIdxKeepAll(row: seq<nat>, keep: set<nat>)
    requires forall i | 0 <= i < |row| :: i in keep
    ensures FilterIdx(row, keep) == row
    decreases |row|
  {
    if row != [] {
      var n := |row| - 1;
      FilterIdxKeepAll(row[..n], keep);
      assert row[..n] + [row[n]] == row;
    }
  }

  /** Keeping every index of a square matrix keeps the matrix. */
  lemma {:induction false} FilterRowsKeepAll(rows: seq<seq<nat>>, keep: set<nat>)
    requires forall i | 0 <= i < |rows| :: i in keep && forall j | 0 <= j < |rows[i]| :: j in keep
    ensures FilterRows(rows, keep) == rows
    decreases |rows|
  {
    if rows != [] {
      var n := |rows| - 1;
      FilterRowsKeepAll(rows[..n], keep);
      FilterIdxKeepAll(rows[n], keep);
      assert rows[..n] + [rows[n]] == rows;
    }
  }

  /** Keeping every index below n lists them all in order. */
  lemma {:induction false} KeptAll(n: nat, keep: set<nat>)
    requires forall i | 0 <= i < n :: i in keep
    ensures Kept(n, keep) == seq(n, i => i)
    decreases n
  {
    if n > 0 {
      KeptAll(n - 1, keep);
      assert seq(n - 1, i => i) + [n - 1] == seq(n, i => i);
    }
  }

  /**
   * As written, keeping both racks with the hash set visiting index 1 before index 0 names row 0
   * `r1` while it still holds r0's traffic: the result claims five units from r1 to r0. The aligned
   * version keeps the names `r0`, `r1`.
   */
  lemma DownsampleMisaligned()
    ensures Chosen(TwoRacks(), 1, 2, BothRacks())
    ensures |ChosenNames(BothRacks())| == 2
    ensures OrderOf([1, 0], KeepIndices(TwoRacks().matrix.idx2name, ChosenNames(BothRacks())))
    ensures var m := Downsample(TwoRacks(), 1, 2, BothRacks(), [1, 0]).matrix;
            m.idx2name == ["r1", "r0"] && m.inner == [[0, 5], [0, 0]]
    ensures DownsampleAligned(TwoRacks(), 1, 2, BothRacks()).matrix.idx2name == ["r0", "r1"]
  {
    BothRacksNames();
    BothRacksKeep();
    BothRacksFilter();
    assert OrderOf([1, 0], {0, 1});
  }
}
