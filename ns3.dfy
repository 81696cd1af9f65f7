/**
 * The ns-3 interface: the topology and flow files written for the simulator, the per-flow
 * completion records read back from it, and the congestion-control names and codes passed on
 * its command line.
 */
module Ns3 {
  import opened Wrappers
  import opened Text
  import opened Net
  import opened SimText

  // ---------------------------------------------------------------- topology file

  /** The switches among `nodes`, in node order. */
  function Switches(nodes: seq<Node>): (sw: seq<Node>)
    ensures forall k | 0 <= k < |sw| :: sw[k].kind == Switch && sw[k] in nodes
    ensures forall k | 0 <= k < |nodes| :: nodes[k].kind == Switch ==> nodes[k] in sw
    ensures |sw| <= |nodes|
  {
    if nodes == [] then []
    else
      var rest := Switches(nodes[..|nodes| - 1]);
      var n := nodes[|nodes| - 1];
      assert forall k | 0 <= k < |nodes| - 1 :: nodes[..|nodes| - 1][k] == nodes[k];
      if n.kind == Switch then rest + [n] else rest
  }

  /** The first line: node count, switch count and link count. */
  function TopologyHeader(nodes: seq<Node>, links: seq<Link>): string
  {
    Join([NatToString(|nodes|), NatToString(|Switches(nodes)|), NatToString(|links|)], " ")
  }

  /** The switch ids, in node order, separated by single spaces. */
  function SwitchIds(nodes: seq<Node>): seq<string>
  {
    var sw := Switches(nodes);
    seq(|sw|, k requires 0 <= k < |sw| => NatToString(sw[k].id))
  }

  /**
   * A link's line: its endpoints, its bandwidth and delay as the simulator library displays them
   * (with the units `bps` and `ns`), and an error rate of 0.
   */
  function LinkFields(l: Link): seq<string>
  {
    [NatToString(l.a), NatToString(l.b), NatToString(l.bandwidth) + "bps", NatToString(l.delay) + "ns", "0"]
  }

  /** `translate_topology`: the header, the switch ids, then one line per link, each line ended by a line feed. */
  function TranslateTopology(nodes: seq<Node>, links: seq<Link>): string
  {
    Terminated([TopologyHeader(nodes, links), Join(SwitchIds(nodes), " ")]
               + seq(|links|, k requires 0 <= k < |links| => Join(LinkFields(links[k]), " ")))
  }

  lemma UnitIsWord(d: string, unit: string)
    requires |d| > 0 && AllDigits(d) && |unit| > 0 && NoneOf(unit, IsWhitespace)
    ensures d + unit != [] && NoneOf(d + unit, IsWhitespace)
  {
    DigitsAreOneWord(d);
    forall i | 0 <= i < |d + unit| ensures !IsWhitespace((d + unit)[i]) {
      if i >= |d| {
        assert (d + unit)[i] == unit[i - |d|];
      }
    }
  }

  lemma LinkFieldsAreWords(l: Link)
    ensures forall k | 0 <= k < 5 :: LinkFields(l)[k] != [] && NoneOf(LinkFields(l)[k], IsWhitespace)
  {
    var fs := LinkFields(l);
    DigitsAreOneWord(fs[0]);
    DigitsAreOneWord(fs[1]);
    UnitIsWord(NatToString(l.bandwidth), "bps");
    UnitIsWord(NatToString(l.delay), "ns");
    assert IsDigit('0');
    DigitsAreOneWord(fs[4]);
  }

  lemma SwitchIdsAreWords(nodes: seq<Node>)
    ensures forall k | 0 <= k < |SwitchIds(nodes)| :: SwitchIds(nodes)[k] != [] && NoneOf(SwitchIds(nodes)[k], IsWhitespace)
  {
    forall k | 0 <= k < |SwitchIds(nodes)| ensures SwitchIds(nodes)[k] != [] && NoneOf(SwitchIds(nodes)[k], IsWhitespace) {
      DigitsAreOneWord(SwitchIds(nodes)[k]);
    }
  }

  /** The header is one line of three numbers. */
  lemma HeaderLine(nodes: seq<Node>, links: seq<Link>)
    ensures IsLine(TopologyHeader(nodes, links))
    ensures SplitWhitespace(TopologyHeader(nodes, links)) == [NatToString(|nodes|), NatToString(|Switches(nodes)|), NatToString(|links|)]
  {
    var header := [NatToString(|nodes|), NatToString(|Switches(nodes)|), NatToString(|links|)];
    DigitsAreOneWord(header[0]);
    DigitsAreOneWord(header[1]);
    DigitsAreOneWord(header[2]);
    WordsOfJoin(header, ' ', IsWhitespace);
    JoinedWordsAreLine(header);
  }

  /** The switch line is one line whose words are the switch ids. */
  lemma SwitchLine(nodes: seq<Node>)
    ensures IsLine(Join(SwitchIds(nodes), " "))
    ensures SplitWhitespace(Join(SwitchIds(nodes), " ")) == SwitchIds(nodes)
  {
    SwitchIdsAreWords(nodes);
    JoinedWordsAreLine(SwitchIds(nodes));
    if |SwitchIds(nodes)| > 0 {
      WordsOfJoin(SwitchIds(nodes), ' ', IsWhitespace);
    }
  }

  /** A link's line is one line whose words are the link's fields. */
  lemma LinkLine(l: Link)
    ensures IsLine(Join(LinkFields(l), " "))
    ensures SplitWhitespace(Join(LinkFields(l), " ")) == LinkFields(l)
  {
    LinkFieldsAreWords(l);
    WordsOfJoin(LinkFields(l), ' ', IsWhitespace);
    JoinedWordsAreLine(LinkFields(l));
  }

  /**
   * The topology file reads back line by line: first the three counts (nodes, switches, links),
   * then the switch ids in node order, then for each link in order its endpoints, bandwidth,
   * delay and error rate 0.
   */
  lemma TopologyLines(nodes: seq<Node>, links: seq<Link>)
    ensures var ls := Lines(TranslateTopology(nodes, links));
            && |ls| == 2 + |links|
            && SplitWhitespace(ls[0]) == [NatToString(|nodes|), NatToString(|Switches(nodes)|), NatToString(|links|)]
            && SplitWhitespace(ls[1]) == SwitchIds(nodes)
            && forall k | 0 <= k < |links| :: SplitWhitespace(ls[k + 2]) == LinkFields(links[k])
  {
    HeaderLine(nodes, links);
    SwitchLine(nodes);
    var body := seq(|links|, k requires 0 <= k < |links| => Join(LinkFields(links[k]), " "));
    forall k | 0 <= k < |links| ensures IsLine(body[k]) && SplitWhitespace(body[k]) == LinkFields(links[k]) {
      LinkLine(links[k]);
    }
    var ls := [TopologyHeader(nodes, links), Join(SwitchIds(nodes), " ")] + body;
    assert forall k | 0 <= k < |links| :: ls[k + 2] == body[k];
    assert forall k | 0 <= k < |ls| :: IsLine(ls[k]);
    LinesOfTerminated(ls);
  }

  /** The switch count in the header counts exactly the nodes of kind switch. */
  lemma SwitchCount(nodes: seq<Node>, k: nat)
    requires k < |nodes| && nodes[k].kind == Host
    ensures nodes[k] !in Switches(nodes)
  {
  }

  // ---------------------------------------------------------------- flow file

  /** `translate_flows`: the flow count, then one line per flow, joined by line feeds. */
  function TranslateFlows(flows: seq<Flow>, secs: nat -> string): string
  {
    CountedFlows(flows, secs)
  }

  /**
   * The flow file reads back as the flow count followed by one line per flow in input order, each
   * holding id, src, dst, 3, 100, size and start; with no flows it is the single character `0`.
   */
  lemma TranslateFlowsLines(flows: seq<Flow>, secs: nat -> string)
    requires OneWord(secs)
    ensures var ls := Lines(TranslateFlows(flows, secs));
            && |ls| == |flows| + 1
            && ls[0] == NatToString(|flows|)
            && forall k | 0 <= k < |flows| :: SplitWhitespace(ls[k + 1]) == FlowFields(flows[k], secs)
    ensures flows == [] ==> TranslateFlows(flows, secs) == "0"
  {
    CountedFlowsLines(flows, secs);
    forall k | 0 <= k < |flows| ensures SplitWhitespace(FlowLine(flows[k], secs)) == FlowFields(flows[k], secs) {
      FlowLineWords(flows[k], secs);
    }
  }

  // ---------------------------------------------------------------- completion records

  /** The errors of record parsing: a line with the wrong number of fields, or a field that is not a number. */
  datatype ParseError = WrongNrFields(expected: nat, got: nat) | ParseInt

  /** A completion line holds addresses, ports, size, start, completion time and ideal time. */
  const NR_NS3_FIELDS: nat := 9

  /**
   * `parse_ns3_record`: nine fields, of which the first (the id) and the last four (size, start,
   * completion time, ideal time) are read as numbers; the addresses and ports are skipped.
   */
  function ParseRecord(line: string): (r: Result<FctRecord, ParseError>)
    ensures |SplitWhitespace(line)| != NR_NS3_FIELDS <==> r == Err(WrongNrFields(NR_NS3_FIELDS, |SplitWhitespace(line)|))
    ensures r.Ok? <==> var w := SplitWhitespace(line);
                       && |w| == NR_NS3_FIELDS
                       && ParseU64(w[0]).Some?
                       && ParseU64(w[5]).Some?
                       && ParseU64(w[6]).Some?
                       && ParseU64(w[7]).Some?
                       && ParseU64(w[8]).Some?
    ensures r.Ok? ==> var w := SplitWhitespace(line);
                      && Some(r.value.id) == ParseU64(w[0]) && Some(r.value.size) == ParseU64(w[5])
                      && Some(r.value.start) == ParseU64(w[6]) && Some(r.value.fct) == ParseU64(w[7])
                      && Some(r.value.ideal) == ParseU64(w[8])
  {
    var fields := SplitWhitespace(line);
    if |fields| != NR_NS3_FIELDS then Err(WrongNrFields(NR_NS3_FIELDS, |fields|))
    else
      var id, size, start, fct, ideal :=
        ParseU64(fields[0]), ParseU64(fields[5]), ParseU64(fields[6]), ParseU64(fields[7]), ParseU64(fields[8]);
      if id.None? || size.None? || start.None? || fct.None? || ideal.None? then Err(ParseInt)
      else Ok(FctRecord(id.value, size.value, start.value, fct.value, ideal.value))
  }

  /** `parse_ns3_records`: one record per line, in order, or the first line's error. */
  function ParseRecords(s: string): Result<seq<FctRecord>, ParseError>
  {
    CollectMap(Lines(s), ParseRecord)
  }

  /** A record line as the simulator writes it, with any four words for addresses and ports. */
  function RecordLine(r: FctRecord, middle: seq<string>): string
    requires |middle| == 4
  {
    Join([NatToString(r.id)] + middle + [NatToString(r.size), NatToString(r.start), NatToString(r.fct), NatToString(r.ideal)], " ")
  }

  /** Each record line reads back as its record, whatever the four skipped words are. */
  lemma ParseRecordLine(r: FctRecord, middle: seq<string>)
    requires |middle| == 4 && forall k | 0 <= k < 4 :: middle[k] != [] && NoneOf(middle[k], IsWhitespace)
    requires Fits(r)
    ensures IsLine(RecordLine(r, middle))
    ensures ParseRecord(RecordLine(r, middle)) == Ok(r)
  {
    var ws := [NatToString(r.id)] + middle + [NatToString(r.size), NatToString(r.start), NatToString(r.fct), NatToString(r.ideal)];
    DigitsAreOneWord(ws[0]);
    DigitsAreOneWord(ws[5]);
    DigitsAreOneWord(ws[6]);
    DigitsAreOneWord(ws[7]);
    DigitsAreOneWord(ws[8]);
    assert ws[1] == middle[0] && ws[2] == middle[1] && ws[3] == middle[2] && ws[4] == middle[3];
    WordsOfJoin(ws, ' ', IsWhitespace);
    JoinedWordsAreLine(ws);
    ParseU64OfNatToString(r.id);
    ParseU64OfNatToString(r.size);
    ParseU64OfNatToString(r.start);
    ParseU64OfNatToString(r.fct);
    ParseU64OfNatToString(r.ideal);
  }

  /** A file of record lines, each ended by a line feed, reads back as the records in order. */
  lemma ParseRecordsOfLines(rs: seq<FctRecord>, middle: seq<string>)
    requires |middle| == 4 && forall k | 0 <= k < 4 :: middle[k] != [] && NoneOf(middle[k], IsWhitespace)
    requires forall k | 0 <= k < |rs| :: Fits(rs[k])
    ensures ParseRecords(Terminated(seq(|rs|, k requires 0 <= k < |rs| => RecordLine(rs[k], middle)))) == Ok(rs)
  {
    var ls := seq(|rs|, k requires 0 <= k < |rs| => RecordLine(rs[k], middle));
    forall k | 0 <= k < |rs| ensures IsLine(ls[k]) && ParseRecord(ls[k]) == Ok(rs[k]) {
      ParseRecordLine(rs[k], middle);
    }
    LinesOfTerminated(ls);
    CollectMapOfAll(ls, ParseRecord, rs);
  }

  // ---------------------------------------------------------------- congestion control

  /** The congestion-control protocols the ns-3 scripts know; the default is DCTCP. */
  datatype CcKind = Dctcp | Dcqcn | Hp | Timely

  const DEFAULT_CC: CcKind := Dctcp

  /** The protocol's name in the simulator's configuration. */
  function AsStr(cc: CcKind): string
  {
    match cc
    case Dctcp => "dctcp"
    case Dcqcn => "dcqcn_paper_vwin"
    case Hp => "hp"
    case Timely => "timely_vwin"
  }

  /** `get_int_value`: the protocol's code on the simulator's command line. */
  function IntValue(cc: CcKind): nat
  {
    match cc
    case Dctcp => 0
    case Dcqcn => 1
    case Hp => 2
    case Timely => 3
  }

  /** The protocol a code stands for. */
  function CcOfInt(n: nat): Option<CcKind>
  {
    if n == 0 then Some(Dctcp)
    else if n == 1 then Some(Dcqcn)
    else if n == 2 then Some(Hp)
    else if n == 3 then Some(Timely)
    else None
  }

  /** Codes and protocols correspond one to one: the codes are exactly 0 to 3. */
  lemma IntValueBijective(cc: CcKind, n: nat)
    ensures CcOfInt(IntValue(cc)) == Some(cc)
    ensures CcOfInt(n) == Some(cc) <==> IntValue(cc) == n
    ensures IntValue(cc) < 4
  {
  }

  /** Distinct protocols have distinct names. */
  lemma AsStrInjective(a: CcKind, b: CcKind)
    requires AsStr(a) == AsStr(b)
    ensures a == b
  {
  }
}
