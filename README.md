# parsimon-eval workload and harness core, in Dafny

This project models the computational core of the parsimon-eval evaluation repository: the
data-centre topology and its renumbering, closed-form routing, the traffic matrix and endpoint
sampling built from a trace, flow-stream generation, empirical distributions, the text formats
exchanged with the ns-3, flowsim and mlsys simulators, the in-memory parts of the experiment
harnesses of figures 7 and 8, the experiment mixes, and the busy-period analysis script.

One module per source file, plus shared helpers:

- `Fabric` (`fabric.dfy`), `FabricCluster` (`fabric_cluster.dfy`) and `FabricRouting`
  (`fabric_routing.dfy`): the cluster of spine planes, pods, racks, ToRs and hosts; the fixed
  `nodes()`/`links()` enumeration orders; `contiguousify`, which renumbers hosts, then ToRs, then
  fabric switches, then spines to consecutive ids and rewrites every node and link endpoint; and
  the three implemented branches of `next_hops_unchecked` with `tor_of_host` and `fabrics_of_tor`.
- `TraceEntry` (`entry.dfy`) and `Spatial` (`spatial.dfy`): trace filtering (`into_entry`), the
  rack-by-rack count matrix of `from_csv` with its 48-racks-per-pod limit, `map_to` (pod check,
  ToR assignment by a shuffle, prefix sums), `sample` (binary search over the prefix sums, then
  rejection of equal endpoints) and `downsample`.
- `FlowGen` (`flowgen.dfy`): the `do_generate` loop with its two stop conditions and the probe
  count chosen by `generate`.
- `EmpiricalCdf` (`ecdf.dfy`): curve validation, construction from values, the trapezoid mean,
  inverse-CDF sampling with interpolation, and `read_ecdf`'s line format.
- `SimText`, `Ns3`, `Flowsim`, `Mlsys`, `MlsysFeatures` (`simtext.dfy`, `ns3.dfy`, `flowsim.dfy`,
  `mlsys.dfy`, `features.dfy`): topology and flow files written for the simulators, the
  fixed-field record parsers with their field-count errors, protocol names and codes, and the
  feature-vector parser with its running-maximum fix-up.
- `PathExperiment` (`pathexp.dfy`, figure 7 `experiment.rs`): path sampling and ordering,
  per-flow segments along a path and the expansion of multi-segment flows into copies.
- `MixExperiment` (`mixexp.dfy`, figure 8 `experiment.rs`): busiest (src, dst) pair, per-flow
  spans on a path and the src/dst rewrite, grouping of flows by path key in `run_ns3_path_all`,
  the path file of `run_ns3_path`, and `is_close_enough`.
- `Mix` (`mix.dfy`): `to_mixes` and the defaults of a stored mix.
- `BusyLogs`, `BusySweep`, `BusyFixed`, `BusyWitness` (`busy_*.dfy`, `busy_period.py`): the two
  log parsers, the link assignment, and the event sweep that computes busy periods, as written
  and repaired (see Findings).
- Helpers: `Wrappers` (Option, Result, collecting), `Text` (decimal rendering, `u64` and Python
  `int` parsing, splitting, trimming, lines), `Sorting` (a stable sort by a total preorder),
  `Counting` (hash-map counting, enumerations of sets), `Arith`, `Net` (the parsimon node, link,
  flow and record shapes the core uses).

Modelling conventions. Random draws, hash-map and hash-set iteration orders, and shuffles are
inputs: a sequence or function of the values drawn, or an `order` function that lists each set
once (`Enumerates`). `f64`/`f32` values are `real`; the rendering of a duration in seconds and the
parsing of a float are parameters (`secs`, `parse`, `show`) with the properties the proofs need.
A Rust `unwrap`, index or `assert!` that panics, or a Python exception the script does not catch on malformed input (`ValueError`, `IndexError`), becomes a `requires`, whether it guards an internal invariant or the input data; the members whose `requires` exclude malformed input are listed under "## Left out"; an error the source
returns (`WrongNrFields`, `TooManyRacks`, `WorkloadClusterMismatch`, `NoValues`, a Python
`KeyError` or `AssertionError`) is a `Result`/`Option` case. Python dictionaries are maps,
Python sets are sets, and loops that mutate them are methods proved equal to a specification
function, whose properties are then proved as lemmas.

Where the repository's tests disagree with the code, the model follows the code:

- `flowsim.rs` `translate_flows` writes no count line, while its snapshot test
  (`expts/fig_8/src/flowsim.rs:291-296`) expects one; `Flowsim.TranslateFlowsHasNoCount` states
  the difference.
- `expts/fig_8/src/bin/gen_mixes.rs:27` calls `to_mixes` with four arguments, but it takes three
  (a count and two random streams); `Mix.ToMixes` follows the three-argument definition.
- The helper `mix_param_serde` in `mix.rs` (not marked as a test) expects protocol codes 1 for
  DCTCP and 3 for DCQCN, while `get_int_value` in `ns3.rs` gives 0 and 1;
  `Ns3.IntValueBijective` and `Mix.ReadLegacyMix` follow `get_int_value`.

## Model

| member | source | states |
|---|---|---|
| Fabric.NodeCount | workload/src/fabric.rs:23-28 | `nodes()` of the older cluster type has one element per node: the sum of the plane sizes plus, for each pod, its fabric switches and, for each rack, one ToR and its hosts |
| Fabric.LinkCount | workload/src/fabric.rs:30-35 | `links()` has one element per stored link: the fabric-to-spine links plus, per pod, its ToR-to-fabric links and each rack's host-to-ToR links |
| FabricCluster.SymmetricNodeCount | workload/src/fabric/cluster.rs:19-40 | on a cluster where every plane, pod and rack has the size the first-element accessors read, the node count is planes × spines + pods × (fabs + ToRs × (1 + hosts)) |
| FabricCluster.NodesOrder | workload/src/fabric/cluster.rs:57-62 | `nodes()` is the spines plane by plane, then the first pod's fabric switches and racks (ToR before its hosts), then the remaining pods |
| FabricCluster.LinksOrder | workload/src/fabric/cluster.rs:64-68 | `links()` is the fabric-to-spine links, then the first pod's ToR-to-fabric and host-to-ToR links, then the remaining pods |
| FabricCluster.Contiguousify | workload/src/fabric/cluster.rs:70-109 | succeeds exactly when every node id and link endpoint is a key of the old-to-new map built from the canonical order, and then returns the cluster renamed through that map; `None` stands for the `unwrap` panic |
| FabricCluster.CollectTiers | workload/src/fabric/cluster.rs:74-87 | the nested pod/rack loops return the hosts, ToRs and fabric switches, each pod-major and rack-major |
| FabricCluster.CollectSpines | workload/src/fabric/cluster.rs:73 | the spines are the planes flattened in order |
| FabricCluster.Number | workload/src/fabric/cluster.rs:93-97 | the enumerate-and-collect loop builds exactly the old-to-new map of the order |
| FabricCluster.RenamePlanesIn | workload/src/fabric/cluster.rs:98-102 | renaming the spines succeeds exactly when every spine id is mapped, and then rewrites each id |
| FabricCluster.RenamePodsIn | workload/src/fabric/cluster.rs:103-105 | renaming the pods succeeds exactly when every pod's nodes and links are mapped |
| FabricCluster.RenamePodIn | workload/src/fabric/cluster.rs:146-156 | `Pod::rename` succeeds exactly when its fabric switches, racks and ToR-to-fabric links are mapped, and then rewrites them |
| FabricCluster.RenameRackIn | workload/src/fabric/cluster.rs:175-183 | `Rack::rename` succeeds exactly when its ToR, hosts and host-to-ToR link endpoints are mapped, and then rewrites them |
| FabricCluster.RenameNodeSeq | workload/src/fabric/cluster.rs:186-188 | `rename_node` over a sequence succeeds exactly when every id is a key, and replaces each id by its image |
| FabricCluster.RenameLinkSeq | workload/src/fabric/cluster.rs:190-193 | `rename_link` over a sequence succeeds exactly when both endpoints of every link are keys, and rewrites both |
| FabricCluster.Old2NewKeys | workload/src/fabric/cluster.rs:93-97 | the map's keys are exactly the ids occurring in the order |
| FabricCluster.Old2NewValue | workload/src/fabric/cluster.rs:93-97 | each id maps to the position of its last occurrence (later entries overwrite earlier ones on collect) |
| FabricCluster.Old2NewDistinct | workload/src/fabric/cluster.rs:93-97 | with distinct ids every node maps to its own position |
| FabricCluster.CanonPermutation | workload/src/fabric/cluster.rs:88-90 | the hosts-ToRs-fabrics-spines order is a permutation of `nodes()` |
| FabricCluster.ContiguousifyBijection | workload/src/fabric/cluster.rs:88-97 | with distinct ids the old-to-new map is a bijection from the cluster's node ids onto 0..N-1 |
| FabricCluster.ClusterKnownIff | workload/src/fabric/cluster.rs:98-108 | renaming the whole cluster succeeds exactly when every id of `nodes()` and every endpoint of `links()` is mapped |
| FabricCluster.ContiguousifySucceedsIff | workload/src/fabric/cluster.rs:186-193 | `contiguousify` completes exactly when every link endpoint is the id of a node of the cluster |
| FabricCluster.RenamedEnumerations | workload/src/fabric/cluster.rs:98-108 | `nodes()`, `links()` and the canonical order of the renamed cluster are the old ones with every id and endpoint passed through the same map |
| FabricCluster.ContiguousifyContiguous | workload/src/fabric/cluster.rs:88-109 | with distinct ids and known endpoints, each node's new id is its position in the hosts-ToRs-fabrics-spines order |
| FabricCluster.ContiguousTiers | workload/src/fabric/cluster.rs:71-72 | after renumbering, hosts hold 0..H-1, ToRs H..H+T-1, fabric switches H+T..H+T+F-1 and spines the rest |
| FabricCluster.ContiguousBases | workload/src/fabric/cluster.rs:42-55 | after renumbering, `tor_base` is H, `fabric_base` is H+T and `spine_base` is H+T+F |
| FabricCluster.RenamePreservesShape | workload/src/fabric/cluster.rs:98-108 | renaming changes ids only: the numbers of planes, spines, pods, fabric switches, racks, hosts and links, each node's kind and each link's bandwidth and delay are kept |
| FabricCluster.ContiguousFixed | workload/src/fabric/cluster.rs:93-97 | on a contiguous cluster whose links join its nodes the old-to-new map is the identity |
| FabricCluster.ContiguousifyIdempotent | workload/src/fabric/cluster.rs:70-109 | the result is contiguous, its links still join its nodes, and renumbering it again returns it unchanged |
| FabricRouting.NextHopsSelf | workload/src/fabric/routing.rs:17-19 | routing from a node to itself is implemented and yields exactly `[x]` |
| FabricRouting.TorOfHostIff | workload/src/fabric/routing.rs:44-47 | `tor_of_host(h) == t` exactly when (t - tor_base) · hosts-per-rack ≤ h < (t - tor_base + 1) · hosts-per-rack |
| FabricRouting.SameTorIff | workload/src/fabric/routing.rs:44-47 | two hosts share a ToR exactly when their quotients by hosts-per-rack agree |
| FabricRouting.NextHopsFromHost | workload/src/fabric/routing.rs:22-25 | from a host to another node the result is implemented and is the single ToR whose host block holds the source |
| FabricRouting.NextHopsFromTor | workload/src/fabric/routing.rs:26-31 | on a contiguous fabric, from a ToR to anything but a host of its own rack: `nr_fabs_per_pod` hops, which are the fabric switches of the ToR's own pod when `from / nr_pods` is that pod's index, and otherwise none of that pod's fabric switches |
| FabricRouting.PodFabricsOfTorInPod | workload/src/fabric/routing.rs:49-53 | the corrected computation (pod index from the ToR's offset) returns only fabric switches of the ToR's own pod |
| FabricRouting.FabricsOfTorLeavesFabric | workload/src/fabric/routing.rs:51 | on a 2-pod contiguous fabric the first ToR (id 8) is sent to ids 20 and 21, which are not nodes, while its pod's fabric switches are 12 and 13 |
| TraceEntry.IntoEntry | workload/src/entry.rs:21-45 | `Some` exactly when neither flag is set and none of the six address/rack/pod fields is `\N`; then the seven kept fields are copied unchanged |
| TraceEntry.IntoEntryIgnoresOtherFields | workload/src/entry.rs:37-57 | rows differing only in packet length, ports, protocol and host prefixes give the same result |
| TraceEntry.EitherFlagRejects | workload/src/entry.rs:33-35 | either flag alone rejects the row |
| TraceEntry.IntoEntryOnto | workload/src/entry.rs:21-31 | every entry without a `\N` field is the result for any intra-cluster row carrying its fields |
| Spatial.Tally | workload/src/spatial.rs:61-68 | the filled matrix is n × n |
| Spatial.TallyTotal | workload/src/spatial.rs:35-40 | each entry adds exactly one to the matrix: its total is the number of entries |
| Spatial.TallyCell | workload/src/spatial.rs:62-67 | cell (i, j) counts exactly the entries whose source rack has index i and destination rack index j |
| Spatial.TallyZeroBeyond | workload/src/spatial.rs:61-68 | rows and columns at or past the number of indexed racks stay zero |
| Spatial.Name2IdxKeys | workload/src/spatial.rs:54-58 | the name-to-index map holds exactly the listed names, each at an index below the list's length |
| Spatial.Pod2TorsHas | workload/src/spatial.rs:27-34 | every entry's source and destination racks are in the rack sets of their pods |
| Spatial.Pod2TorsGrows | workload/src/spatial.rs:27-34 | the pod map's rack sets only grow as entries are added |
| Spatial.RacksLength | workload/src/spatial.rs:47-50 | with at most `cap` racks per pod the flattened rack list has at most pods × cap names |
| Spatial.CollectPods | workload/src/spatial.rs:25-41 | the entry loop builds the rack set of every pod the entries name |
| Spatial.AnyPodOverfull | workload/src/spatial.rs:42-46 | the capacity check answers true exactly when some pod holds more than 48 racks |
| Spatial.FlattenRacks | workload/src/spatial.rs:47-50 | the rack list is the rack sets laid out pod by pod in iteration order |
| Spatial.IndexNames | workload/src/spatial.rs:54-58 | the name index maps every name to its position, a later position overwriting an earlier one |
| Spatial.FillMatrix | workload/src/spatial.rs:60-68 | filling from zero adds one to each entry's cell, giving the tally; the source first counts each (source rack, destination rack) pair in a hash map and then writes each count into its cell, which yields the same cells |
| Spatial.EntriesIndexed | workload/src/spatial.rs:47-65 | once no pod exceeds 48 racks, every entry's racks are indexed below the number of racks, so the `unwrap`s cannot fail |
| Spatial.FromCsv | workload/src/spatial.rs:21-82 | `TooManyRacks` exactly when some pod has more than 48 distinct racks; otherwise the matrix is the tally over the rack list, of dimension pods × 48, with the rack list as names and the pod count and rack count alongside |
| Spatial.FromCsvShape | workload/src/spatial.rs:53-71 | the matrix is square of dimension pods × 48, its total is the number of entries, and every row and column from the rack count on is zero |
| Spatial.Scan | workload/src/spatial.rs:92-95 | the running sum has one element per input and never decreases |
| Spatial.FlattenCell | workload/src/spatial.rs:87-91 | cell (i, j) of a matrix with rows of length n is element i·n + j of its row-major flattening |
| Spatial.ScanFacts | workload/src/spatial.rs:92-95 | each running-sum element adds its own value to the one before, never exceeds the total, never decreases, and the last one is the total |
| Spatial.MapTo | workload/src/spatial.rs:84-154 | on inputs where every rack name of the matrix receives a ToR (otherwise the `unwrap` at line 143 panics): `WorkloadClusterMismatch` exactly when the trace and the cluster have different pod counts, and otherwise the dimension is the matrix's and there is one host list per rack name |
| Spatial.MapToCumsum | workload/src/spatial.rs:86-96 | `cumsum` has one element per cell of the row-major matrix, never decreases, adds each cell to the previous element, and ends at the matrix total |
| Spatial.MapToCumsumLength | workload/src/spatial.rs:86-96 | for an n × n matrix `cumsum` has n² elements |
| Spatial.ZipValues | workload/src/spatial.rs:122 | zipping names with ToR ids maps only listed names, each to one of the ids |
| Spatial.Tor2HostsKeys | workload/src/spatial.rs:127-135 | every ToR of the cluster has an entry, and each entry is the host list of a rack with that ToR |
| Spatial.MapToHosts | workload/src/spatial.rs:137-147 | `idx2hosts[i]` is the host list of a rack of the cluster whose ToR is the one the name `idx2name[i]` was placed on |
| Spatial.Name2TorAt | workload/src/spatial.rs:111-124 | a name of pod i that no later pod lists keeps the ToR it was zipped with in pod i |
| Spatial.MapToDistinctTors | workload/src/spatial.rs:110-124 | shuffle then zip: two distinct rack names of one trace pod land on two distinct ToRs of the same cluster pod |
| Spatial.FirstAbove | workload/src/spatial.rs:268-283 | the chosen index is the first whose running sum exceeds the draw, or the length when none does |
| Spatial.CellChosenIff | workload/src/spatial.rs:268-284 | over a non-decreasing running sum, cell k is chosen exactly for the draws in [cumsum[k-1], cumsum[k]), so only cells with positive weight are chosen |
| Spatial.BinarySearch | workload/src/spatial.rs:270 | on a sorted slice, `Ok(i)` holds the value and `Err(i)` is the insertion point: everything before is smaller and everything from it on larger |
| Spatial.Cell | workload/src/spatial.rs:268-285 | the chosen cell holds the draw in its interval, and its row and column index non-empty host lists |
| Spatial.Pick | workload/src/spatial.rs:289-290 | a pick from a non-empty list is an element of the list |
| Spatial.Sample | workload/src/spatial.rs:267-293 | a returned pair has distinct hosts, the source from the chosen cell's row and the destination from its column, and is the first draw pair that differs; `None` exactly when every given draw pair repeats one host |
| Spatial.FindCell | workload/src/spatial.rs:268-283 | binary search plus the skip past equal running sums lands on the first index whose running sum exceeds the draw |
| Spatial.MapToValid | workload/src/spatial.rs:84-154 | the result of `from_csv` placed by `map_to` on a cluster whose racks all have hosts is a workload `sample` can draw from, when the trace holds an entry |
| Spatial.Downsample | workload/src/spatial.rs:156-216 | the result has the requested pod count and nr_pods × nr_tors_per_pod racks, one name per kept index, each a chosen rack |
| Spatial.KeptFacts | workload/src/spatial.rs:182-188 | the kept indices, listed in ascending order, are exactly the indices below n in the keep set |
| Spatial.FilterIdxGather | workload/src/spatial.rs:197-201 | filtering a row keeps the entries at the kept indices in ascending order |
| Spatial.FilterRowsGather | workload/src/spatial.rs:191-203 | filtering the rows keeps the rows at the kept indices in ascending order |
| Spatial.DownsampleRestricts | workload/src/spatial.rs:191-203 | new cell (a, b) is old cell (K[a], K[b]), K the kept indices in ascending order |
| Spatial.DownsampleNames | workload/src/spatial.rs:204-207 | every chosen rack name of the old matrix appears in the new names at the position its index takes in the hash-set order |
| Spatial.DownsampleAligned | workload/src/spatial.rs:156-216 | the corrected `downsample` has the requested pod and rack counts |
| Spatial.DownsampleAlignedRows | workload/src/spatial.rs:191-207 | with ascending order the same index list K gives rows, columns and names: new row a is the traffic of rack `new_idx2name[a]` |
| Spatial.DownsampleMisaligned | workload/src/spatial.rs:204-207 | with two kept racks and the hash set visiting index 1 first, new row 0 holds r0's traffic but is named `r1` |
| FlowGen.DoGenerate | workload/src/flowgen.rs:105-138 | flow k has id `id_start + k`, the k-th endpoint pair and size, and starts at the start time plus the first k gaps; every start is before the end, and the loop stops at the flow limit or once the clock reaches the end |
| FlowGen.ClockMonotone | workload/src/flowgen.rs:117-135 | the clock never runs backwards and never falls below the start time |
| FlowGen.StreamProperties | workload/src/flowgen.rs:114-136 | sequential ids; non-decreasing starts from the start time; src ≠ dst when the sampler never repeats a host; exactly n flows under `NrFlows(n)` unless the clock reaches the largest nanosecond count; under `Elapsed(d)` every start lies in [start, start + d) and the loop ends once the clock reaches start + d |
| FlowGen.NrTestFlowsElapsed | workload/src/flowgen.rs:37-40 | under a window the probe count is ten thousand times the number of links, counted level by level |
| EmpiricalCdf.AdjacentIncreasing | crates/utils/src/lib.rs:22-26 | neighbours increasing in both coordinates makes the whole curve strictly increasing in both |
| EmpiricalCdf.FromEcdf | crates/utils/src/lib.rs:14-28 | `Ok` exactly when the curve is non-empty, ends at percentile 100 and every neighbour increases in both coordinates; then it is stored unchanged; otherwise `InvalidEcdf` |
| EmpiricalCdf.Sorted | crates/utils/src/lib.rs:34-38 | the sorted samples are a permutation of the input, in ascending order |
| EmpiricalCdf.MapInsertLast | crates/utils/src/lib.rs:44-48 | inserting a key no smaller than every key replaces the last entry when equal and appends otherwise |
| EmpiricalCdf.PercentileIncreasing | crates/utils/src/lib.rs:42 | a larger rank gives a strictly larger percentile |
| EmpiricalCdf.InsertStep | crates/utils/src/lib.rs:45-48 | one insertion of the next sample in ascending order keeps the map's ranking invariant |
| EmpiricalCdf.PercentOfInserted | crates/utils/src/lib.rs:49-53 | the read-out of the rank map after all samples is a valid curve ranked from the samples |
| EmpiricalCdf.FromValues | crates/utils/src/lib.rs:30-54 | `NoValues` exactly for no samples; otherwise a valid curve whose points are the distinct sample values, each with percentile 100 · (rank of its last copy) / n |
| EmpiricalCdf.RankMap | crates/utils/src/lib.rs:44-48 | the insertion loop over the sorted samples gives each distinct value the 1-based rank of its last copy |
| EmpiricalCdf.Mean | crates/utils/src/lib.rs:56-65 | the loop computes the trapezoid sum over the curve divided by 100 |
| EmpiricalCdf.TrapezoidAbove | crates/utils/src/lib.rs:56-65 | on an increasing curve the trapezoid sum is at least the first x times the percentile span |
| EmpiricalCdf.TrapezoidBelow | crates/utils/src/lib.rs:56-65 | on an increasing curve the trapezoid sum is at most the last x times the percentile span |
| EmpiricalCdf.TrapezoidBounds | crates/utils/src/lib.rs:56-65 | on an increasing curve the trapezoid sum lies between first x and last x times the percentile span |
| EmpiricalCdf.MeanOfSinglePoint | crates/utils/src/lib.rs:56-65 | a single-point curve has mean 0 |
| EmpiricalCdf.FirstAtLeast | crates/utils/src/lib.rs:80-83 | the scan stops at the first index whose percentile is at least the draw |
| EmpiricalCdf.Sample | crates/utils/src/lib.rs:78-92 | for a draw in [0, 100] on a valid curve the loop stays in bounds and returns the inverse of the curve at the draw |
| EmpiricalCdf.Lerp | crates/utils/src/lib.rs:87-89 | interpolation lies in (x0, x1] when the percentile lies in (y0, y1] |
| EmpiricalCdf.InverseBounds | crates/utils/src/lib.rs:84-91 | the sampled value lies in [first x, last x], and past the first point between the two neighbours that bracket the draw |
| EmpiricalCdf.InverseAtPoint | crates/utils/src/lib.rs:84-91 | at a point's own percentile the sample is exactly that point's value |
| EmpiricalCdf.ParseLine | crates/utils/src/lib.rs:99-105 | a line is accepted exactly when it has two whitespace-separated words that both parse; any other word count is `InvalidCdfFile` |
| EmpiricalCdf.ReadEcdf | crates/utils/src/lib.rs:95-108 | a line error is returned as is; otherwise the result is `from_ecdf` of the parsed points |
| EmpiricalCdf.PointLine | crates/utils/src/lib.rs:99-104 | one rendered point is a line that parses back to the point |
| EmpiricalCdf.ParseLinesOfRender | crates/utils/src/lib.rs:97-106 | a curve rendered one point per line reads back as the curve, for any number rendering the parser inverts |
| EmpiricalCdf.ReadEcdfNeedsTwoWords | crates/utils/src/lib.rs:100-101 | a file with a line of other than two words is rejected |
| SimText.FlowFieldsAreWords | expts/fig_8/src/ns3.rs:254-261 | every field of a flow's line is one non-empty word without white space |
| SimText.JoinedWordsAreLine | expts/fig_8/src/ns3.rs:254-255 | one-word pieces joined by spaces make one line without a line break |
| SimText.FlowLineWords | expts/fig_8/src/ns3.rs:254-261 | a flow's line is one non-empty line that splits back into its seven fields |
| SimText.FlowLineFields | expts/fig_8/src/ns3.rs:254-261 | reading a flow's line back gives seven words: the id, endpoints and size read back as the flow's numbers, then 3 and 100 in fourth and fifth place, and the start time last |
| SimText.FlowLinesLines | expts/fig_8/src/flowsim.rs:164-177 | the headerless file has exactly one line per flow, each that flow's line, in order |
| SimText.CountedFlowsLines | expts/fig_8/src/ns3.rs:247-265 | the counted file's first line is the flow count and each further line is one flow's line, in order; with no flows the file is exactly "0" |
| Ns3.Switches | expts/fig_8/src/ns3.rs:220-223 | the filtered nodes are exactly the switches among the nodes |
| Ns3.HeaderLine | expts/fig_8/src/ns3.rs:224-225 | the header is one line of three words: the node count, the switch count and the link count |
| Ns3.SwitchLine | expts/fig_8/src/ns3.rs:226-232 | the second line is one line whose words are the switch ids in node order |
| Ns3.LinkLine | expts/fig_8/src/ns3.rs:236-243 | a link's line is one line whose words are its endpoints, bandwidth, delay and 0 |
| Ns3.TopologyLines | expts/fig_8/src/ns3.rs:218-245 | the topology file reads back line by line: the three counts, the switch ids, then one line per link in link order |
| Ns3.SwitchCount | expts/fig_8/src/ns3.rs:220-223 | a host is never counted as a switch |
| Ns3.TranslateFlowsLines | expts/fig_8/src/ns3.rs:247-265 | the flow file is the flow count followed by one line per flow in input order; with no flows it is exactly "0" |
| Ns3.ParseRecord | expts/fig_8/src/ns3.rs:271-289 | `WrongNrFields{9, got}` exactly when the line does not have nine words; otherwise `Ok` exactly when words 0, 5, 6, 7 and 8 parse as u64, and they become id, size, start, fct and ideal |
| Ns3.ParseRecordLine | expts/fig_8/src/ns3.rs:282-288 | a record's line reads back as the record, whatever the four skipped words hold |
| Ns3.ParseRecordsOfLines | expts/fig_8/src/ns3.rs:267-269 | a file of record lines reads back as the records, in order |
| Ns3.IntValueBijective | expts/fig_8/src/ns3.rs:334-347 | the integer codes of the four protocols are 0 to 3, one per protocol, and read back as it |
| Ns3.AsStrInjective | expts/fig_8/src/ns3.rs:325-332 | distinct protocols have distinct names |
| Flowsim.TranslateFlowsLines | expts/fig_8/src/flowsim.rs:164-177 | one line per flow holding id, src, dst, 3, 100, size and start, with no count line; no flows give the empty string |
| Flowsim.TranslateFlowsHasNoCount | expts/fig_8/src/flowsim.rs:291-296 | the file has one line fewer than the counted file the snapshot test expects |
| Flowsim.ParseRecord | expts/fig_8/src/flowsim.rs:184-202 | `WrongNrFields{5, got}` exactly when the line does not have five words; otherwise `Ok` exactly when all five parse, read in order as id, size, start, fct and ideal |
| Flowsim.ParseRecordLine | expts/fig_8/src/flowsim.rs:195-201 | a record's line reads back as the record |
| Flowsim.ParseRecordsOfLines | expts/fig_8/src/flowsim.rs:180-182 | a file of record lines reads back as the records, in order |
| Flowsim.CcOfStr | expts/fig_8/src/flowsim.rs:236-242 | the model's own inverse of `as_str` (the source has no such parser): a recognised name is the name of the protocol returned |
| Flowsim.CcOfAsStr | expts/fig_8/src/flowsim.rs:236-242 | every protocol's name reads back as that protocol, so distinct protocols have distinct names |
| Mlsys.TranslateFlowsLines | expts/fig_8/src/mlsys.rs:139-170 | the flow count, then one line per flow in input order; with no flows exactly "0" |
| MlsysFeatures.RunningMax | expts/fig_7/src/mlsys.rs:129-133 | the fixed-up row has the input's length |
| MlsysFeatures.FixUp | expts/fig_7/src/mlsys.rs:128-133 | the in-place loop leaves the running maximum of the old row in the array |
| MlsysFeatures.RunningMaxIsPrefixMax | expts/fig_7/src/mlsys.rs:129-133 | each output value is one of the values up to its position and no smaller than any of them |
| MlsysFeatures.RunningMaxShape | expts/fig_7/src/mlsys.rs:129-133 | the output never decreases, lies pointwise at or above the input, and keeps the first value |
| MlsysFeatures.RunningMaxOfNonDecreasing | expts/fig_7/src/mlsys.rs:129-133 | a row that never decreases is left unchanged |
| MlsysFeatures.RunningMaxIdempotent | expts/fig_7/src/mlsys.rs:129-133 | fixing a row twice is fixing it once |
| MlsysFeatures.InterpolateValues | expts/fig_7/src/mlsys.rs:120-138 | with as many rows as size buckets (the assert), row k of the result is the running maximum of input row k |
| MlsysFeatures.ChunksExact | expts/fig_7/src/mlsys.rs:151 | b · w values fall into exactly b pieces of width w that put back together give the values |
| MlsysFeatures.Values | expts/fig_7/src/mlsys.rs:142 | one value per whitespace-separated word, each the parse of its word |
| MlsysFeatures.ParseRecord | expts/fig_7/src/mlsys.rs:140-154 | `WrongNrFields` exactly when the word count is not buckets × percentiles; otherwise one non-decreasing row per bucket, each the running maximum of the consecutive chunk of values |
| MlsysFeatures.TranslateFlowsLines | expts/fig_7/src/mlsys.rs:180-198 | the flow count, then one line per flow in input order |
| PathExperiment.ByLengthThenFlowsTotal | expts/fig_7/src/experiment.rs:161 | the path order (longer first, then more flows first) is a total preorder |
| PathExperiment.SamplePaths | expts/fig_7/src/experiment.rs:145-161 | the count map holds only paths with flows, each counted as often as it was drawn, the counts add up to the number of draws, and the path list holds each counted path once, sorted longer first and then by more flows |
| PathExperiment.SegmentsAreRuns | expts/fig_7/src/experiment.rs:179-185 | the segments built from increasing positions are their runs of consecutive positions |
| PathExperiment.PositionsBounded | expts/fig_7/src/experiment.rs:174-193 | a flow's positions increase, lie below the number of counted hops, and exist exactly for the flows on some counted hop |
| PathExperiment.AddHop | expts/fig_7/src/experiment.rs:176-191 | one counted hop: every flow on it has its segments extended to the current length, a new flow opens one segment, other entries stay |
| PathExperiment.HopStep | expts/fig_7/src/experiment.rs:174-193 | one more hop adds one counted hop and its flows when the channel map holds it, and nothing otherwise |
| PathExperiment.SegmentsOfSnoc | expts/fig_7/src/experiment.rs:179-185 | a position past all others extends the segments built so far |
| PathExperiment.Segments | expts/fig_7/src/experiment.rs:170-194 | the path length is one plus the counted hops, f' is the flows on them, and each flow's segments are the runs of its positions |
| PathExperiment.SegmentsWithinPath | expts/fig_7/src/experiment.rs:172-193 | every flow on the path has a non-empty, well-separated list of segments within the path that covers exactly its hops |
| PathExperiment.RemainingPicked | expts/fig_7/src/experiment.rs:197-200 | the flows to simulate are trace flows picked through the set's iteration order, ids past the trace skipped |
| PathExperiment.CopiesOf | expts/fig_7/src/experiment.rs:208-214 | one copy per segment after the first |
| PathExperiment.Copies | expts/fig_7/src/experiment.rs:205-215 | a flow with segments gets one copy fewer than its segments; one without gets none |
| PathExperiment.ExtrasStep | expts/fig_7/src/experiment.rs:204-216 | the copies of k + 1 flows are those of k flows followed by flow k's, numbered from the next free id |
| PathExperiment.PushCopies | expts/fig_7/src/experiment.rs:208-214 | the inner loop appends the flow's copies with the next free ids |
| PathExperiment.ExpandOne | expts/fig_7/src/experiment.rs:205-215 | flow k is rewritten to its first segment in place and its copies are appended |
| PathExperiment.Expand | expts/fig_7/src/experiment.rs:202-217 | every flow is rewritten to its first segment, and the copies follow the rewritten flows |
| PathExperiment.ExtrasIds | expts/fig_7/src/experiment.rs:212 | the copies carry ids NR_FLOWS, NR_FLOWS + 1, … in order |
| PathExperiment.ExpandCount | expts/fig_7/src/experiment.rs:202-217 | rewritten flows plus copies make one flow per segment (or per flow without segments) |
| PathExperiment.ExtrasCoverSegments | expts/fig_7/src/experiment.rs:208-214 | every segment after the first of every flow has a copy with that segment's ends and the flow's size and start |
| PathExperiment.SegmentMapNonEmpty | expts/fig_7/src/experiment.rs:186-190 | every flow of the segment map has at least one segment, so `count_vec[0]` exists |
| PathExperiment.PreparePath | expts/fig_7/src/experiment.rs:168-219 | the path length is one plus the counted hops, and the flows handed over are the rewritten flows and their copies, sorted by start time with flows of equal start time kept in their order |
| Sorting.SortByStable | expts/fig_7/src/experiment.rs:219 | sorting keeps elements that compare equal in their input order: for every z, the elements equivalent to z appear in the sorted sequence as in the input |
| PathExperiment.KindOfName | expts/fig_7/src/experiment.rs:640-651 | the model's own inverse of the `Display` names (the source has no such parser): a recognised name is the display name of the kind returned |
| PathExperiment.KindOfNameOfKind | expts/fig_7/src/experiment.rs:640-651 | every kind's display name reads back as that kind, so no two kinds share a name |
| MixExperiment.PairCounts | expts/fig_8/src/experiment.rs:447-458 | the count map holds exactly the (src, dst) pairs of the flows, each with its number of flows, and the counts add up to the number of flows |
| MixExperiment.SelectMax | expts/fig_8/src/experiment.rs:459-463 | `max_by` over the map in its iteration order returns a key with the largest count, and no later key in that order has as large a count (the last maximum wins) |
| MixExperiment.BusiestPair | expts/fig_8/src/experiment.rs:447-466 | the chosen pair is the pair of some flow and no pair has more flows |
| MixExperiment.UnionOfMembers | expts/fig_8/src/experiment.rs:475-478 | the flow-id set holds exactly the flows some channel of the path carries |
| MixExperiment.AddChannel | expts/fig_8/src/experiment.rs:488-500 | one channel: a flow seen before keeps its start and now ends at the current length, a new flow gets (length - 1, length), other entries stay |
| MixExperiment.SpanStep | expts/fig_8/src/experiment.rs:490-499 | a flow on one more channel has its span extended to end there |
| MixExperiment.FlowSpans | expts/fig_8/src/experiment.rs:484-503 | the path length is the channel count plus one, and every flow on the path gets the span from the first channel carrying it to just past the last one |
| MixExperiment.KeepIds | expts/fig_8/src/experiment.rs:479-482 | the kept flows are exactly the trace flows whose ids are in the set |
| MixExperiment.KeepIdsCons | expts/fig_8/src/experiment.rs:168-171 | keeping is an order-preserving filter: a flow is kept in front of the kept rest exactly when its id is listed |
| MixExperiment.RewriteSpans | expts/fig_8/src/experiment.rs:504-510 | every flow is rewritten in place to run from its span's start to its end, nothing else changing |
| MixExperiment.PrepareFlowsim | expts/fig_8/src/experiment.rs:473-510 | the simulated flows are the trace flows on the path, in trace order, with id, size and start kept and their endpoints set to their span on the path |
| MixExperiment.ChannelsTranspose | expts/fig_8/src/experiment.rs:218-226 | a channel is among a flow's channels exactly when the flow is among the channel's flows |
| MixExperiment.AddLine | expts/fig_8/src/experiment.rs:220-225 | one line: each listed flow gains the line's channel, and the channel gains every listed flow |
| MixExperiment.BuildMaps | expts/fig_8/src/experiment.rs:218-226 | the two maps read from the file hold, for each flow, the channels of the lines listing it and, for each channel, the flows its lines list |
| MixExperiment.ChannelLeTotal | expts/fig_8/src/experiment.rs:229 | the tuple order on channels is a total preorder |
| MixExperiment.SortedUnique | expts/fig_8/src/experiment.rs:228-229 | two sorted sequences without repeats holding the same channels are equal |
| MixExperiment.KeyUnique | expts/fig_8/src/experiment.rs:227-231 | a flow has one path key whatever order its channel set is iterated in |
| MixExperiment.SortedKey | expts/fig_8/src/experiment.rs:228-230 | the key is the flow's (src, dst) pair followed by its channels, sorted and without repeats |
| MixExperiment.GroupStep | expts/fig_8/src/experiment.rs:231 | adding one flow to the grouping adds it under its own key only |
| MixExperiment.GroupByPath | expts/fig_8/src/experiment.rs:227-232 | the path map holds exactly the keys some flow has, each with the flows whose key it is |
| MixExperiment.ChoosePath | expts/fig_8/src/experiment.rs:234 | the chosen key is in the map and no key has more flows |
| MixExperiment.FlowsOnPath | expts/fig_8/src/experiment.rs:237-241 | f' holds exactly the flows the channel map lists for some pair of the path |
| MixExperiment.GroupsOfFile | expts/fig_8/src/experiment.rs:218-232 | grouping the map read from the file gives, for each key, the flows the file gives that key |
| MixExperiment.FPrimeOfFile | expts/fig_8/src/experiment.rs:237-241 | f' is exactly the set of flows the file puts on some channel of the path |
| MixExperiment.FlowsOfKeyOnPath | expts/fig_8/src/experiment.rs:227-241 | every flow grouped under a path key sits on a channel of that path, so f ⊆ f' |
| MixExperiment.RunNs3PathAll | expts/fig_8/src/experiment.rs:200-252 | the chosen path's flow set f is non-empty and no path key has more flows; f' holds exactly the flows on its channels, and f ⊆ f' |
| MixExperiment.ReadPathFile | expts/fig_8/src/experiment.rs:141-162 | the header line gives row, column and size of f' (zero for an empty file) and each later line gives one flow id, in order |
| MixExperiment.ParseEach | expts/fig_8/src/experiment.rs:159-161 | one parsed value per line, each the parse of its line |
| MixExperiment.IdLinesRead | expts/fig_8/src/experiment.rs:160 | each id on a line of its own reads back as that id |
| MixExperiment.HeaderPieces | expts/fig_8/src/experiment.rs:154 | three numbers joined by commas form one line that splits back into them |
| MixExperiment.HeaderLine | expts/fig_8/src/experiment.rs:153-158 | a header of three numbers reads back as them |
| MixExperiment.IdLine | expts/fig_8/src/experiment.rs:160 | a number on its own line reads back as a flow id |
| MixExperiment.PathFileRoundTrip | expts/fig_8/src/experiment.rs:151-162 | a file written for numbers within 64 bits is accepted and reads back: the header gives row, column and size of f', and each further line one id in order |
| MixExperiment.RunNs3Path | expts/fig_8/src/experiment.rs:135-171 | the kept flows are the trace flows whose id the file lists on a line after the header, in their workload order |
| MixExperiment.IsCloseEnough | expts/fig_8/src/experiment.rs:714-728 | two absent feature sets match, absent and present never do, and two present ones match exactly when both distribution errors are below 0.1 and the loads differ by less than 0.005 |
| MixExperiment.IsCloseEnoughSymmetric | expts/fig_8/src/experiment.rs:714-728 | with a symmetric error measure the relation is symmetric |
| MixExperiment.IsCloseEnoughReflexive | expts/fig_8/src/experiment.rs:714-728 | with an error measure that is zero on equal inputs every feature set is close to itself |
| MixExperiment.KindOfName | expts/fig_8/src/experiment.rs:743-757 | the model's own inverse of the `Display` names (the source has no such parser): a recognised name is the display name of the kind returned |
| MixExperiment.KindOfNameOfKind | expts/fig_8/src/experiment.rs:743-757 | every kind's display name reads back as that kind, so no two kinds share a name |
| Mix.ParamIndexBound | expts/fig_8/src/mix.rs:34-35 | the parameter ranges mix i uses, at `2 * (i % #ccs)` and the one after, lie among the first two per protocol handed out |
| Mix.ToMixes | expts/fig_8/src/mix.rs:21-38 | `count` mixes with ids 0 to count - 1; every choice comes from its list, every draw from its range, the protocol goes round-robin and the two protocol parameters come from that protocol's pair of ranges |
| Mix.CcRoundRobin | expts/fig_8/src/mix.rs:33 | mixes whose ids differ by the number of protocols run the same one, the first mixes take the protocols in list order, and every listed protocol is used |
| Mix.ReadMix | expts/fig_8/src/mix.rs:62-91 | a stored mix reads with its given fields and, for absent ones, buffer 30, window 18, PFC 1, DCTCP and 30 for each protocol parameter |
| Mix.ReadWriteMix | expts/fig_8/src/mix.rs:54-75 | a mix written with every field reads back as itself |
| Mix.ReadLegacyMix | expts/fig_8/src/mix.rs:102-107 | a mix stored with only its first six fields reads with every default, DCTCP among them, whose protocol code is 0 |
| BusyLogs.IntsOfIntStrings | expts/fig_8/analysis/busy_period.py:23-24 | `int` reads back every integer `str` renders, piece by piece |
| BusyLogs.ParseFlowInfoLog | expts/fig_8/analysis/busy_period.py:4-15 | the flow table holds, for each line's id, the flow of the last line naming it: start from the seventh word, end at start plus the eighth, no links |
| BusyLogs.FlowsOfLastWins | expts/fig_8/analysis/busy_period.py:7-14 | the table's ids are exactly the ids of the lines, and each holds the flow of the last line naming it |
| BusyLogs.FieldsOfWords | expts/fig_8/analysis/busy_period.py:8 | words joined by single spaces split back into those words |
| BusyLogs.ParseFlowLineOfWords | expts/fig_8/analysis/busy_period.py:8-13 | a line whose first, seventh and eighth words render an id, a start and a completion time reads as that flow, ending at start plus completion time |
| BusyLogs.ParseLinkLines | expts/fig_8/analysis/busy_period.py:23-24 | a link line and its ids line read as a record only when the link line has at least four integers, so its link `(info[1], info[2])` exists |
| BusyLogs.Records | expts/fig_8/analysis/busy_period.py:21-24 | a readable log gives as many records as its first line announces |
| BusyLogs.ParseLinkInfoLog | expts/fig_8/analysis/busy_period.py:18-28 | the link map read is the fold of the log's records |
| BusyLogs.AddRecords | expts/fig_8/analysis/busy_period.py:22-27 | the record loop computes the fold: each record's count is checked, then its ids join its link's set |
| BusyLogs.LinkFlowsStops | expts/fig_8/analysis/busy_period.py:25 | once a record fails its count, reading the rest fails the same way |
| BusyLogs.LinkFlowsMeaning | expts/fig_8/analysis/busy_period.py:22-27 | reading succeeds exactly when every record's count equals its number of ids, fails at the first that does not, and on success maps exactly the records' links, each to the ids of all its records |
| BusyLogs.ParseLinkLinesOfRecord | expts/fig_8/analysis/busy_period.py:23-24 | a record's two lines, as the link log writes them (ids each followed by a comma), read back as that record |
| BusyLogs.LinkLogRoundTrip | expts/fig_8/analysis/busy_period.py:18-28 | a written link log is readable and gives back its records |
| BusyLogs.AddLink | expts/fig_8/analysis/busy_period.py:33-35 | one link: every listed flow of the table gains it, no other flow changes and the ids stay |
| BusyLogs.AssignLinksToFlows | expts/fig_8/analysis/busy_period.py:31-36 | each flow gains exactly the links whose flow set names it; ids not in the table are ignored, times and ids are unchanged |
| BusySweep.EventLeTotal | expts/fig_8/analysis/busy_period.py:49 | the tuple order on events is a total preorder that ranks two events equal only when they share time, kind and id |
| BusySweep.BuildEvents | expts/fig_8/analysis/busy_period.py:44-49 | the events are exactly the start and end events of every flow, each once, 2 per flow, sorted by time, kind and id |
| BusySweep.SweepStops | expts/fig_8/analysis/busy_period.py:54 | once an event raises, the whole sweep raises the same way |
| BusySweep.MergeMeaning | expts/fig_8/analysis/busy_period.py:68-73 | a merge holds the links, the active flows and all the flows of the merged graphs |
| BusySweep.MergeValues | expts/fig_8/analysis/busy_period.py:70 | each link's flows in a merge are that link's flows in one of the merged graphs |
| BusySweep.StartStepFails | expts/fig_8/analysis/busy_period.py:57-69 | a start raises exactly when one of the graph ids its links map to has no live graph |
| BusySweep.StartStepGraphs | expts/fig_8/analysis/busy_period.py:55-105 | a start that succeeds replaces the touched graphs by one graph at the counter's id, keeps the others, moves the counter on and maps the flow's links (as written) or all the new graph's links (repaired) to it |
| BusySweep.StartStepNewGraph | expts/fig_8/analysis/busy_period.py:62-86 | the new graph holds the links, active flows and all flows of the touched graphs plus the new flow on each of its links, and begins now |
| BusySweep.StartStepAlone | expts/fig_8/analysis/busy_period.py:89-105 | a start touching no graph succeeds and creates a graph holding the flow alone on each of its links |
| BusySweep.EndTargetMeaning | expts/fig_8/analysis/busy_period.py:108-113 | an end finds a graph exactly when one of the flow's links is mapped, and then it is that link's graph |
| BusySweep.EndStepMeaning | expts/fig_8/analysis/busy_period.py:107-124 | an end with no mapped link changes nothing; otherwise it succeeds exactly when the graph found is live and holds the flow as active on each of its links, records and drops the graph when the flow was its last, and sets the counter to the graph's id (as written) or keeps it (repaired) |
| BusySweep.StepKeepsTimes | expts/fig_8/analysis/busy_period.py:85-120 | an event no earlier than the last keeps every period and live graph within time order |
| BusySweep.SweepPeriodsOrdered | expts/fig_8/analysis/busy_period.py:49-126 | with events in time order every recorded busy period begins no later than it ends |
| BusySweep.StartFlow | expts/fig_8/analysis/busy_period.py:55-105 | the start branch's loops compute the start step as written |
| BusySweep.InvolvedIds | expts/fig_8/analysis/busy_period.py:57-60 | the involved ids are exactly the graphs the flow's mapped links point to |
| BusySweep.AddFlowOnLinks | expts/fig_8/analysis/busy_period.py:75-77 | the flow joins each of its links' sets and each of its links maps to the new graph |
| BusySweep.MergeGraphs | expts/fig_8/analysis/busy_period.py:68-73 | the merge loop raises exactly when an involved id has no live graph, and otherwise yields the merge and the graphs left |
| BusySweep.EndFlow | expts/fig_8/analysis/busy_period.py:107-124 | the end branch's loops compute the end step as written |
| BusySweep.RemoveFlow | expts/fig_8/analysis/busy_period.py:116-117 | removal raises exactly when one of the flow's links does not hold it, and otherwise takes the flow out of exactly its links' sets |
| BusySweep.UpdateBipartiteGraph | expts/fig_8/analysis/busy_period.py:39-126 | the events are all flows' starts and ends, sorted, and the result is the busy periods of the sweep as written over them, or its `KeyError` |
| BusyFixed.StartPreserves | expts/fig_8/analysis/busy_period.py:55-105 | repaired, a start of a flow not yet started succeeds and keeps every link mapped to the live graph holding it and every active flow in one graph |
| BusyFixed.EndPreserves | expts/fig_8/analysis/busy_period.py:107-124 | repaired, the end of an active flow on its own links succeeds and keeps that invariant |
| BusyFixed.CorrectedSweepOk | expts/fig_8/analysis/busy_period.py:54-126 | repaired, the sweep over any event sequence where flows start once and end while active never raises |
| BusyFixed.EventsWellFormed | expts/fig_8/analysis/busy_period.py:44-49 | the sorted events of a flow table whose flows end after they start are such a sequence, so the repaired sweep over them never raises |
| BusyWitness.OverwriteFails | expts/fig_8/analysis/busy_period.py:111 | a six-event trace on which the sweep as written raises `KeyError` because an end resets the id counter, while the repaired sweep finishes |
| BusyWitness.StaleFails | expts/fig_8/analysis/busy_period.py:75-77 | a six-event trace on which the sweep as written raises `KeyError` because a merge leaves a link mapped to a dropped graph, while the repaired sweep finishes |

## Left out

- Process and file I/O: running the simulators (`invoke_ns3`, `invoke_flowsim`, `invoke_mlsys`,
  `ns3_clean`), reading and writing files and directories, JSON and CSV decoding; files are given
  as their lines, and CSV rows as already-decoded records.
- `parsimon`'s network, routing tables, link loads and simulators, and `FabricRoutes`, which no
  file of the repository defines; only the node, link, flow and record shapes are modelled.
- Parallel iteration (`par_iter`) and logging: the model is sequential, which does not change the
  results computed.
- Floating-point rounding: `f64`/`f32` are reals. The `EPSILON` tolerance of `from_ecdf` on the
  last percentile is exact equality. The decimal formatting of seconds and float parsing are
  parameters.
- `rand`: every draw is an input. The model states which value each draw is used for, not the
  distribution of the draws.
- Hash-map and hash-set iteration orders are inputs (`Enumerates`, explicit orders), so every
  property is proved for every order.
- `busy_period.py` builds lists of a period's links and flows from dictionary keys and a set;
  they are sets in the model, so their order is not modelled. Python `int` parsing is ASCII
  decimal only: underscores between digits and non-ASCII Unicode decimal digits (for example
  Arabic-Indic digits), which `int()` accepts, are not modelled.
- `most_loaded_channel`, rate computations, the weights of the feature vectors
  (`row_weights`, `col_weights`, `diag_weight`), `MixParam`, and `path_str`/`put_path`: floating
  point or pure I/O.
- The ToR-to-own-rack, fabric and spine branches of `next_hops_unchecked` are `todo!()` in the
  source and are excluded by precondition.
- Spatial.Sample: the rejection loop reads host draws from a finite list and returns `None` when
  they run out; the source loops until it draws two different hosts, forever when both racks hold
  the same single host.
- Spatial.Downsample: requires the chosen racks to number exactly nr_pods × nr_tors_per_pod, the
  `assert_eq!` at workload/src/spatial.rs:179; it panics when a chosen pod has fewer racks than
  nr_tors_per_pod (`choose_multiple` then returns fewer), and that input is excluded.
- MixExperiment.BusiestPair: requires a non-empty flow list; with no flows the pair-count map is
  empty and the `unwrap` after `max_by` at expts/fig_8/src/experiment.rs:458-462 panics.
- FlowGen.DoGenerate: the clock is an unbounded natural, so the `u64` overflow of the clock is not
  modelled.
- Spatial.MapTo: requires every rack name of the matrix to receive a ToR. `zip` stops at the shorter
  list, so a trace pod with more racks than its cluster pod has ToRs leaves names without one, and
  the `unwrap` of `name2tor.get(name)` at workload/src/spatial.rs:143 panics; that input is excluded
  rather than modelled.
- MlsysFeatures.ParseRecord: requires every token to parse as a number (the source's parse
  `unwrap` panics otherwise) and excludes the line with no tokens when there are no percentiles
  (`chunks_mut(0)` panics).
- BusyLogs.ParseFlowInfoLog: requires `FlowLogOk`, every line having the fields read and each
  parsing as an integer; on other logs the script raises `ValueError` or `IndexError`.
- BusyLogs.ParseLinkInfoLog: requires `LinkLogOk`, a count line, at least that many pairs of
  lines and every pair well formed. On most other logs the script raises `ValueError`,
  `IndexError` or `AssertionError`. One malformed log is accepted by the script but excluded
  here: a log that ends right after a link line whose count is 0 (`readline()` then returns `''`,
  whose split and `[:-1]` give no ids, so the assert holds).
- MixExperiment.ReadPathFile: requires `PathFileOk`, a parsable header and one parsable id per
  further line; the source's parse `unwrap`s panic otherwise.
- MixExperiment.RunNs3Path: requires `PathFileOk` for the same `unwrap`s.
- MixExperiment.RunNs3PathAll: requires every line to hold at least four numbers (a shorter one
  panics on indexing), flow ids below the number of flows (the source indexes the flow list with
  them) and at least one line listing a flow (otherwise the path map is empty and the `unwrap`
  after `max_by_key` panics).
- Mix.ToMixes: requires `Drawable`, non-empty lists to `choose` from and non-empty ranges for
  `gen_range`; the source panics otherwise.
- FabricRouting.Implemented: besides the `todo!()` branches, excludes a zero `nr_pods` or
  `nr_hosts_per_rack` (division by zero), node ids past the node list (out-of-range index) and
  the failed tier `assert!`s.
- BusyFixed.EventsWellFormed: requires every flow to end strictly after it starts; a flow with a
  completion time of 0 has its end event sorted before its start, which the repaired-sweep
  guarantee does not cover.

## Findings

| source | as written | input that shows it | evidently intended | confidence | as-written member | corrected member |
|---|---|---|---|---|---|---|
| workload/src/fabric/routing.rs:51 | the fabric switches of ToR `t` start at `fabric_base + (t / nr_pods) * nr_fabs_per_pod`, with the absolute ToR id | two pods of two racks with two hosts each and two fabric switches each (ids 0-15, ToRs 8-11, fabric switches 12-15): ToR 8, in pod 0, is sent to ids 20 and 21, which are not nodes | the ToR's pod, `(t - tor_base) / nr_tors_per_pod`, selecting that pod's fabric switches | not executed | FabricRouting.FabricsOfTorLeavesFabric | FabricRouting.PodFabricsOfTorInPod |
| workload/src/spatial.rs:204-207 | `new_idx2name` lists the kept rack names in hash-set order while the new matrix rows follow ascending old index | two kept racks whose set order is the reverse of their index order: row 0 is labelled with the name of row 1 | names listed in the same ascending order as the rows | not executed | Spatial.DownsampleMisaligned | Spatial.DownsampleAlignedRows |
| expts/fig_8/analysis/busy_period.py:111 | the end branch assigns the looked-up graph id to the fresh-id counter `graph_id` | flow 1 on link (1,2) over [1,30], flow 2 on (1,2) over [2,3], flow 3 on (2,3) over [4,40]: flow 3's graph takes the id of the graph still holding flow 1, and flow 1's end raises `KeyError` | a separate variable for the found graph, leaving the counter fresh | not executed | BusyWitness.OverwriteFails | BusyFixed.CorrectedSweepOk |
| expts/fig_8/analysis/busy_period.py:75-77 | after a merge only the new flow's links are mapped to the merged graph | flow 1 on (0,1),(1,2) over [0,10], flow 2 on (1,2),(2,3) over [1,20], flow 3 on (0,1) over [2,5]: link (0,1) still names the deleted graph 0 and flow 3's start raises `KeyError` | every link of the merged graph remapped to the new id | not executed | BusyWitness.StaleFails | BusyFixed.CorrectedSweepOk |
