/**
 * The learned-model simulator interface of the mix experiments: the flow file it reads (the flow
 * count, then one line per flow). Its congestion-control enumeration is the flow-level
 * simulator's, `Flowsim.CcKind`.
 */
module Mlsys {
  import opened Text
  import opened Net
  import opened SimText

  /** `translate_flows`: the flow count on its own line, then one line per flow, joined by line feeds. */
  function TranslateFlows(flows: seq<Flow>, secs: nat -> string): string
  {
    CountedFlows(flows, secs)
  }

  /**
   * The flow file reads back as the flow count followed by one line per flow in input order, each
   * holding id, src, dst, 3, 100, size and start; with no flows it is the single character `0`.
   */
  lemma TranslateFlowsLines(flows: seq<Flow>, secs: nat -> string)
    requires OneWord(secs)
    ensures var ls := Lines(TranslateFlows(flows, secs));
            && |ls| == |flows| + 1
            && ls[0] == NatToString(|flows|)
            && forall k | 0 <= k < |flows| :: SplitWhitespace(ls[k + 1]) == FlowFields(flows[k], secs)
    ensures flows == [] ==> TranslateFlows(flows, secs) == "0"
  {
    CountedFlowsLines(flows, secs);
    forall k | 0 <= k < |flows| ensures SplitWhitespace(FlowLine(flows[k], secs)) == FlowFields(flows[k], secs) {
      FlowLineWords(flows[k], secs);
    }
  }
}
