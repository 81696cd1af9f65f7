/**
 * The flow-level simulator interface: the flow file written for it (one line per flow, with no
 * count line), the completion records read back from it, and its congestion-control names.
 */
module Flowsim {
  import opened Wrappers
  import opened Text
  import opened Net
  import opened SimText

  // ---------------------------------------------------------------- flow file

  /** `translate_flows`: one line per flow, joined by line feeds; unlike ns-3 there is no count line. */
  function TranslateFlows(flows: seq<Flow>, secs: nat -> string): string
  {
    FlowLines(flows, secs)
  }

  /**
   * The file has exactly one line per flow and each line holds the seven fields id, src, dst, 3,
   * 100, size and start, in that order; so a non-empty file's first line is a flow, not a count.
   */
  lemma TranslateFlowsLines(flows: seq<Flow>, secs: nat -> string)
    requires OneWord(secs)
    ensures var ls := Lines(TranslateFlows(flows, secs));
            && |ls| == |flows|
            && forall k | 0 <= k < |flows| :: SplitWhitespace(ls[k]) == FlowFields(flows[k], secs)
    ensures flows == [] ==> TranslateFlows(flows, secs) == ""
  {
    FlowLinesLines(flows, secs);
    forall k | 0 <= k < |flows| ensures SplitWhitespace(FlowLine(flows[k], secs)) == FlowFields(flows[k], secs) {
      FlowLineWords(flows[k], secs);
    }
  }

  /** The file is never the counted file of the other simulators: it has one line fewer. */
  lemma TranslateFlowsHasNoCount(flows: seq<Flow>, secs: nat -> string)
    requires OneWord(secs)
    ensures |Lines(TranslateFlows(flows, secs))| + 1 == |Lines(CountedFlows(flows, secs))|
  {
    TranslateFlowsLines(flows, secs);
    CountedFlowsLines(flows, secs);
  }

  // ---------------------------------------------------------------- completion records

  /** The errors of record parsing: a line with the wrong number of fields, or a field that is not a number. */
  datatype ParseError = WrongNrFields(expected: nat, got: nat) | ParseInt

  /** A completion line holds id, size, start, completion time and ideal time. */
  const NR_FLOWSIM_FIELDS: nat := 5

  /** `parse_flowsim_record`: exactly five fields, read in order as id, size, start, completion time and ideal time. */
  function ParseRecord(line: string): (r: Result<FctRecord, ParseError>)
    ensures |SplitWhitespace(line)| != NR_FLOWSIM_FIELDS <==> r == Err(WrongNrFields(NR_FLOWSIM_FIELDS, |SplitWhitespace(line)|))
    ensures r.Ok? <==> var w := SplitWhitespace(line);
                       && |w| == NR_FLOWSIM_FIELDS
                       && ParseU64(w[0]).Some?
                       && ParseU64(w[1]).Some?
                       && ParseU64(w[2]).Some?
                       && ParseU64(w[3]).Some?
                       && ParseU64(w[4]).Some?
    ensures r.Ok? ==> var w := SplitWhitespace(line);
                      && Some(r.value.id) == ParseU64(w[0]) && Some(r.value.size) == ParseU64(w[1])
                      && Some(r.value.start) == ParseU64(w[2]) && Some(r.value.fct) == ParseU64(w[3])
                      && Some(r.value.ideal) == ParseU64(w[4])
  {
    var fields := SplitWhitespace(line);
    if |fields| != NR_FLOWSIM_FIELDS then Err(WrongNrFields(NR_FLOWSIM_FIELDS, |fields|))
    else
      var id, size, start, fct, ideal :=
        ParseU64(fields[0]), ParseU64(fields[1]), ParseU64(fields[2]), ParseU64(fields[3]), ParseU64(fields[4]);
      if id.None? || size.None? || start.None? || fct.None? || ideal.None? then Err(ParseInt)
      else Ok(FctRecord(id.value, size.value, start.value, fct.value, ideal.value))
  }

  /** `parse_flowsim_records`: one record per line, in order, or the first failing line's error. */
  function ParseRecords(s: string): Result<seq<FctRecord>, ParseError>
  {
    CollectMap(Lines(s), ParseRecord)
  }

  /** A record line as the simulator writes it: the five numbers separated by spaces. */
  function RecordLine(r: FctRecord): string
  {
    Join([NatToString(r.id), NatToString(r.size), NatToString(r.start), NatToString(r.fct), NatToString(r.ideal)], " ")
  }

  /** Each record line reads back as its record. */
  lemma ParseRecordLine(r: FctRecord)
    requires Fits(r)
    ensures IsLine(RecordLine(r))
    ensures ParseRecord(RecordLine(r)) == Ok(r)
  {
    var ws := [NatToString(r.id), NatToString(r.size), NatToString(r.start), NatToString(r.fct), NatToString(r.ideal)];
    forall k | 0 <= k < 5 ensures ws[k] != [] && NoneOf(ws[k], IsWhitespace) {
      DigitsAreOneWord(ws[k]);
    }
    WordsOfJoin(ws, ' ', IsWhitespace);
    JoinedWordsAreLine(ws);
    ParseU64OfNatToString(r.id);
    ParseU64OfNatToString(r.size);
    ParseU64OfNatToString(r.start);
    ParseU64OfNatToString(r.fct);
    ParseU64OfNatToString(r.ideal);
  }

  /** A file of record lines, each ended by a line feed, reads back as the records in order. */
  lemma ParseRecordsOfLines(rs: seq<FctRecord>)
    requires forall k | 0 <= k < |rs| :: Fits(rs[k])
    ensures ParseRecords(Terminated(seq(|rs|, k requires 0 <= k < |rs| => RecordLine(rs[k])))) == Ok(rs)
  {
    var ls := seq(|rs|, k requires 0 <= k < |rs| => RecordLine(rs[k]));
    forall k | 0 <= k < |rs| ensures IsLine(ls[k]) && ParseRecord(ls[k]) == Ok(rs[k]) {
      ParseRecordLine(rs[k]);
    }
    LinesOfTerminated(ls);
    CollectMapOfAll(ls, ParseRecord, rs);
  }

  // ---------------------------------------------------------------- congestion control

  /** The congestion-control protocols the flow-level and learned-model simulators know; the default is DCTCP. */
  datatype CcKind = Dctcp | Timely | Dcqcn

  const DEFAULT_CC: CcKind := Dctcp

  /** The protocol's name in the simulator's configuration. */
  function AsStr(cc: CcKind): string
  {
    match cc
    case Dctcp => "dctcp"
    case Timely => "timely_vwin"
    case Dcqcn => "dcqcn_paper_vwin"
  }

  /** The protocol a configuration name stands for: an inverse of `as_str` for stating its injectivity; the source has no such parser. */
  function CcOfStr(s: string): (r: Option<CcKind>)
    ensures r.Some? ==> AsStr(r.value) == s
  {
    if s == "dctcp" then Some(Dctcp)
    else if s == "timely_vwin" then Some(Timely)
    else if s == "dcqcn_paper_vwin" then Some(Dcqcn)
    else None
  }

  /** Every name reads back as its protocol, so distinct protocols have distinct names. */
  lemma CcOfAsStr(a: CcKind, b: CcKind)
    ensures CcOfStr(AsStr(a)) == Some(a)
    ensures AsStr(a) == AsStr(b) ==> a == b
  {
    assert CcOfStr(AsStr(a)) == Some(a);
  }
}
