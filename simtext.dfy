/**
 * The flow file every simulator interface writes: one line per flow holding its id, endpoints,
 * the fixed priority group 3 and destination port 100, its size and its start time in seconds,
 * separated by single spaces; the ns-3 and learned-model interfaces put the flow count on a
 * line of its own first. The start time's rendering in seconds is floating-point formatting and
 * is a parameter `secs` of the model.
 */
module SimText {
  import opened Wrappers
  import opened Text
  import opened Net

  /** The words of a flow's line. */
  function FlowFields(f: Flow, secs: nat -> string): seq<string>
  {
    [NatToString(f.id), NatToString(f.src), NatToString(f.dst), "3", "100", NatToString(f.size), secs(f.start)]
  }

  /** A flow's line: its fields separated by single spaces. */
  function FlowLine(f: Flow, secs: nat -> string): string
  {
    Join(FlowFields(f, secs), " ")
  }

  /** The flows' lines joined by line feeds, with no count line and no final line feed. */
  function FlowLines(flows: seq<Flow>, secs: nat -> string): string
  {
    Join(seq(|flows|, k requires 0 <= k < |flows| => FlowLine(flows[k], secs)), "\n")
  }

  /** The flow count on a line of its own, then the flows' lines, joined by line feeds. */
  function CountedFlows(flows: seq<Flow>, secs: nat -> string): string
  {
    Join([NatToString(|flows|)] + seq(|flows|, k requires 0 <= k < |flows| => FlowLine(flows[k], secs)), "\n")
  }

  /** A completion record whose numbers are no wider than 64 bits. */
  predicate Fits(r: FctRecord) {
    r.id <= U64_MAX && r.size <= U64_MAX && r.start <= U64_MAX && r.fct <= U64_MAX && r.ideal <= U64_MAX
  }

  /** A rendering of seconds that yields one word. */
  ghost predicate OneWord(secs: nat -> string) {
    forall t {:trigger secs(t)} :: secs(t) != [] && NoneOf(secs(t), IsWhitespace)
  }

  lemma DigitsAreOneWord(s: string)
    requires |s| > 0 && AllDigits(s)
    ensures s != [] && NoneOf(s, IsWhitespace)
  {
    forall i | 0 <= i < |s| ensures !IsWhitespace(s[i]) {
      assert IsDigit(s[i]);
    }
  }

  /** Every field of a flow's line is one non-empty word. */
  lemma FlowFieldsAreWords(f: Flow, secs: nat -> string)
    requires OneWord(secs)
    ensures forall k | 0 <= k < 7 :: FlowFields(f, secs)[k] != [] && NoneOf(FlowFields(f, secs)[k], IsWhitespace)
  {
    var fs := FlowFields(f, secs);
    DigitsAreOneWord(fs[0]);
    DigitsAreOneWord(fs[1]);
    DigitsAreOneWord(fs[2]);
    DigitsAreOneWord(fs[5]);
    assert IsDigit('3') && IsDigit('1') && IsDigit('0');
    DigitsAreOneWord(fs[3]);
    DigitsAreOneWord(fs[4]);
    var t := f.start;
    assert fs[6] == secs(t);
  }

  /** A string made of one-word pieces joined by spaces holds no line break. */
  lemma {:induction false} JoinedWordsAreLine(ws: seq<string>)
    requires forall k | 0 <= k < |ws| :: ws[k] != [] && NoneOf(ws[k], IsWhitespace)
    ensures IsLine(Join(ws, " "))
    ensures |ws| > 0 ==> Join(ws, " ") != ""
    decreases |ws|
  {
    assert IsWhitespace('\n') && IsWhitespace('\r');
    if |ws| == 1 {
      assert ws[0][|ws[0]| - 1] !in "\r";
    } else if |ws| > 1 {
      JoinedWordsAreLine(ws[1..]);
      var rest := Join(ws[1..], " ");
      var s := ws[0] + " " + rest;
      assert Join(ws, " ") == s;
      forall i | 0 <= i < |s| ensures s[i] != '\n' {
        if i < |ws[0]| {
          assert s[i] == ws[0][i];
        } else if i > |ws[0]| {
          assert s[i] == rest[i - |ws[0]| - 1];
        }
      }
      assert s[|s| - 1] == rest[|rest| - 1];
    }
  }

  /** A flow's line is one non-empty line that splits back into its seven fields. */
  lemma FlowLineWords(f: Flow, secs: nat -> string)
    requires OneWord(secs)
    ensures IsLine(FlowLine(f, secs)) && FlowLine(f, secs) != ""
    ensures SplitWhitespace(FlowLine(f, secs)) == FlowFields(f, secs)
  {
    FlowFieldsAreWords(f, secs);
    WordsOfJoin(FlowFields(f, secs), ' ', IsWhitespace);
    JoinedWordsAreLine(FlowFields(f, secs));
  }

  /**
   * Reading a flow's line back: seven words, the id, endpoints and size read back as the flow's
   * own numbers, the two constants as 3 and 100, and the last word is the start in seconds.
   */
  lemma FlowLineFields(f: Flow, secs: nat -> string)
    requires OneWord(secs)
    requires f.id <= U64_MAX && f.src <= U64_MAX && f.dst <= U64_MAX && f.size <= U64_MAX
    ensures var w := SplitWhitespace(FlowLine(f, secs));
            && |w| == 7
            && ParseU64(w[0]) == Some(f.id) && ParseU64(w[1]) == Some(f.src) && ParseU64(w[2]) == Some(f.dst)
            && ParseU64(w[3]) == Some(3) && ParseU64(w[4]) == Some(100)
            && ParseU64(w[5]) == Some(f.size) && w[6] == secs(f.start)
  {
    FlowLineWords(f, secs);
    var w := FlowFields(f, secs);
    ParseU64OfNatToString(f.id);
    ParseU64OfNatToString(f.src);
    ParseU64OfNatToString(f.dst);
    ParseU64OfNatToString(f.size);
    assert w[3] == NatToString(3);
    assert w[4] == NatToString(100) by {
      assert NatToString(100) == NatToString(10) + [DigitChar(0)];
      assert NatToString(10) == NatToString(1) + [DigitChar(0)];
    }
    ParseU64OfNatToString(3);
    ParseU64OfNatToString(100);
  }

  /** The headerless file has exactly one line per flow, each the flow's line, in order. */
  lemma FlowLinesLines(flows: seq<Flow>, secs: nat -> string)
    requires OneWord(secs)
    ensures Lines(FlowLines(flows, secs)) == seq(|flows|, k requires 0 <= k < |flows| => FlowLine(flows[k], secs))
  {
    var ls := seq(|flows|, k requires 0 <= k < |flows| => FlowLine(flows[k], secs));
    forall k | 0 <= k < |ls| ensures IsLine(ls[k]) && ls[k] != "" {
      FlowLineWords(flows[k], secs);
    }
    LinesOfJoin(ls);
  }

  /**
   * The counted file's first line is the flow count and each further line is one flow's line, in
   * order; with no flows the whole file is the single character `0`.
   */
  lemma CountedFlowsLines(flows: seq<Flow>, secs: nat -> string)
    requires OneWord(secs)
    ensures var ls := Lines(CountedFlows(flows, secs));
            && |ls| == |flows| + 1
            && ls[0] == NatToString(|flows|)
            && forall k | 0 <= k < |flows| :: ls[k + 1] == FlowLine(flows[k], secs)
    ensures flows == [] ==> CountedFlows(flows, secs) == "0"
  {
    var body := seq(|flows|, k requires 0 <= k < |flows| => FlowLine(flows[k], secs));
    var ls := [NatToString(|flows|)] + body;
    DigitsAreOneWord(ls[0]);
    JoinedWordsAreLine([ls[0]]);
    assert Join([ls[0]], " ") == ls[0];
    forall k | 0 <= k < |ls| ensures IsLine(ls[k]) && ls[k] != "" {
      if k > 0 {
        FlowLineWords(flows[k - 1], secs);
      }
    }
    LinesOfJoin(ls);
  }
}
