/**
 * The two logs the busy-period analysis reads. The flow log holds one flow per line in
 * whitespace-separated fields: the flow id first, the start time seventh and the completion time
 * eighth. The link log holds a link count on its first line, then two lines per link: a
 * comma-separated line of integers whose second and third are the link's endpoints and whose
 * fourth is a flow count, and a line of flow ids each followed by a comma. Reading the files is
 * left out: each log is given as its sequence of lines.
 */
module BusyLogs {
  import opened Wrappers
  import opened Text
  import opened Counting

  /** A link, named by its two endpoints. */
  type Link = (int, int)

  /** A flow: its start and end time and the links it crosses. */
  datatype FlowInfo = FlowInfo(start: int, end: int, links: set<Link>)

  /** Python's `int` on every piece: the values in order, or `None` when some piece is no integer. */
  function Ints(pieces: seq<string>): Option<seq<int>>
  {
    CollectSome(pieces, PyInt)
  }

  /** The decimal renderings of `vs`, in order. */
  function IntStrings(vs: seq<int>): (r: seq<string>)
    ensures |r| == |vs|
  {
    seq(|vs|, k requires 0 <= k < |vs| => IntToString(vs[k]))
  }

  /** Python reads back the integers it prints, piece by piece. */
  lemma IntsOfIntStrings(vs: seq<int>)
    ensures Ints(IntStrings(vs)) == Some(vs)
  {
    var ss := IntStrings(vs);
    forall k | 0 <= k < |vs| ensures PyInt(ss[k]) == Some(vs[k]) {
      PyIntOfIntToString(vs[k]);
    }
    var got := CollectSome(ss, PyInt);
    assert got.Some?;
    assert got.value == vs;
  }

  // ---------------------------------------------------------------- the flow log

  /** `line.strip().split()`. */
  function Fields(line: string): seq<string>
  {
    Words(Strip(line, IsPyWhitespace), IsPyWhitespace)
  }

  /**
   * The fields of a flow line read as the flow's id and its flow, ending at the start time plus
   * the completion time and crossing no link yet; `None` where Python raises (fewer than eight
   * fields, or the first, seventh or eighth no integer).
   */
  function FlowOfFields(p: seq<string>): Option<(int, FlowInfo)>
  {
    if |p| < 8 then None
    else
      var id, start, fct := PyInt(p[0]), PyInt(p[6]), PyInt(p[7]);
      if id.None? || start.None? || fct.None? then None
      else Some((id.value, FlowInfo(start.value, start.value + fct.value, {})))
  }

  /** One line of the flow log, read as a flow. */
  function ParseFlowLine(line: string): Option<(int, FlowInfo)>
  {
    FlowOfFields(Fields(line))
  }

  /** Every line of the log reads as a flow. */
  predicate FlowLogOk(lines: seq<string>)
  {
    forall k | 0 <= k < |lines| :: ParseFlowLine(lines[k]).Some?
  }

  /** The id and flow of every line, in order. */
  function FlowRecords(lines: seq<string>): seq<(int, FlowInfo)>
    requires FlowLogOk(lines)
  {
    seq(|lines|, k requires 0 <= k < |lines| && ParseFlowLine(lines[k]).Some? => ParseFlowLine(lines[k]).value)
  }

  /** The flows of the records, read in order: a later record for the same id replaces an earlier one. */
  function FlowsOf(recs: seq<(int, FlowInfo)>): map<int, FlowInfo>
  {
    if recs == [] then map[]
    else
      var rec := recs[|recs| - 1];
      FlowsOf(recs[..|recs| - 1])[rec.0 := rec.1]
  }

  /** `parse_flow_info_log`: the line loop filling the dictionary. */
  method ParseFlowInfoLog(lines: seq<string>) returns (flows: map<int, FlowInfo>)
    requires FlowLogOk(lines)
    ensures flows == FlowsOf(FlowRecords(lines))
  {
    ghost var recs := FlowRecords(lines);
    flows := map[];
    for i := 0 to |lines|
      invariant flows == FlowsOf(recs[..i])
    {
      var rec := ParseFlowLine(lines[i]).value;
      assert rec == recs[i];
      FlowsOfSnoc(recs, i);
      flows := flows[rec.0 := rec.1];
    }
    assert recs[..|lines|] == recs;
  }

  /** One more record replaces its id's flow. */
  lemma FlowsOfSnoc(recs: seq<(int, FlowInfo)>, i: nat)
    requires i < |recs|
    ensures FlowsOf(recs[..i + 1]) == FlowsOf(recs[..i])[recs[i].0 := recs[i].1]
  {
    assert recs[..i + 1][..i] == recs[..i];
  }

  /**
   * The flows read are exactly the ids of the records, and each id holds the flow of the last
   * record naming it.
   */
  lemma {:induction false} FlowsOfLastWins(recs: seq<(int, FlowInfo)>)
    ensures forall id :: id in FlowsOf(recs) <==> exists k | 0 <= k < |recs| :: recs[k].0 == id
    ensures forall k | 0 <= k < |recs| && (forall j | k < j < |recs| :: recs[j].0 != recs[k].0) ::
              FlowsOf(recs)[recs[k].0] == recs[k].1
    decreases |recs|
  {
    if recs != [] {
      var init := recs[..|recs| - 1];
      assert forall k | 0 <= k < |init| :: init[k] == recs[k];
      FlowsOfLastWins(init);
    }
  }

  /** `s` neither starts nor ends with a character of `sep`, so stripping keeps it. */
  lemma StripOfInner(s: string, sep: char -> bool)
    requires s != [] && !sep(s[0]) && !sep(s[|s| - 1])
    ensures Strip(s, sep) == s
  {
    assert TrimStart(s, sep) == s;
  }

  /** A join of non-empty pieces starts with the first piece's first character and ends with the last one's last. */
  lemma {:induction false} JoinEnds(ts: seq<string>, sep: string)
    requires |ts| >= 1 && forall k | 0 <= k < |ts| :: ts[k] != []
    ensures var s := Join(ts, sep); s != [] && s[0] == ts[0][0] && s[|s| - 1] == ts[|ts| - 1][|ts[|ts| - 1]| - 1]
    decreases |ts|
  {
    if |ts| > 1 {
      JoinEnds(ts[1..], sep);
    }
  }

  /** Words joined by single spaces split back into those words. */
  lemma FieldsOfWords(ws: seq<string>)
    requires |ws| >= 1 && forall k | 0 <= k < |ws| :: ws[k] != [] && NoneOf(ws[k], IsPyWhitespace)
    ensures Fields(Join(ws, " ")) == ws
  {
    var s := Join(ws, " ");
    JoinEnds(ws, " ");
    var last := ws[|ws| - 1];
    assert !IsPyWhitespace(ws[0][0]) && !IsPyWhitespace(last[|last| - 1]);
    StripOfInner(s, IsPyWhitespace);
    WordsOfJoin(ws, ' ', IsPyWhitespace);
  }

  /**
   * Reading back a flow line: words joined by spaces whose first, seventh and eighth words are an
   * id, a start and a completion time read as that flow, ending at start plus completion time.
   */
  lemma ParseFlowLineOfWords(ws: seq<string>, id: int, start: int, fct: int)
    requires |ws| >= 8 && forall k | 0 <= k < |ws| :: ws[k] != [] && NoneOf(ws[k], IsPyWhitespace)
    requires ws[0] == IntToString(id) && ws[6] == IntToString(start) && ws[7] == IntToString(fct)
    ensures ParseFlowLine(Join(ws, " ")) == Some((id, FlowInfo(start, start + fct, {})))
  {
    FieldsOfWords(ws);
    FlowOfRenderedFields(ws, id, start, fct);
  }

  lemma FlowOfRenderedFields(ws: seq<string>, id: int, start: int, fct: int)
    requires |ws| >= 8 && ws[0] == IntToString(id) && ws[6] == IntToString(start) && ws[7] == IntToString(fct)
    ensures FlowOfFields(ws) == Some((id, FlowInfo(start, start + fct, {})))
  {
    PyIntOfIntToString(id);
    PyIntOfIntToString(start);
    PyIntOfIntToString(fct);
    FlowOfIntFields(ws, id, start, fct);
  }

  /** Fields whose first, seventh and eighth read as integers read as that flow. */
  lemma FlowOfIntFields(p: seq<string>, id: int, start: int, fct: int)
    requires |p| >= 8 && PyInt(p[0]) == Some(id) && PyInt(p[6]) == Some(start) && PyInt(p[7]) == Some(fct)
    ensures FlowOfFields(p) == Some((id, FlowInfo(start, start + fct, {})))
  {
    var r := FlowOfFields(p);
    assert r.Some? && r.value.0 == id;
    assert r.value.1 == FlowInfo(start, start + fct, {});
  }

  // ---------------------------------------------------------------- the link log

  /** A link's two lines: the integers of its link line and the flow ids of the line after it. */
  datatype LinkRecord = LinkRecord(info: seq<int>, ids: seq<int>)

  /** The link line holds at least the four integers the analysis reads. */
  predicate RecordOk(r: LinkRecord) { |r.info| >= 4 }

  /** The link a record describes: the second and third integers of its link line. */
  function LinkOf(r: LinkRecord): Link
    requires RecordOk(r)
  {
    (r.info[1], r.info[2])
  }

  /**
   * A link line and the ids line after it: every comma-separated piece of the stripped link line
   * an integer, at least four of them, and every piece of the ids line but the last (the one after
   * the final comma) an integer; `None` where Python raises.
   */
  function ParseLinkLines(linkLine: string, idsLine: string): (r: Option<LinkRecord>)
    ensures r.Some? ==> RecordOk(r.value)
  {
    var info := Ints(SplitOn(Strip(linkLine, IsPyWhitespace), ','));
    var pieces := SplitOn(Strip(idsLine, IsPyWhitespace), ',');
    var ids := Ints(pieces[..|pieces| - 1]);
    if info.None? || ids.None? || |info.value| < 4 then None
    else Some(LinkRecord(info.value, ids.value))
  }

  /** The link count of the first line; Python's `range` of a negative count is empty. */
  function NrLinks(lines: seq<string>): Option<nat>
  {
    if lines == [] then None
    else
      match PyInt(Strip(lines[0], IsPyWhitespace))
      case None => None
      case Some(n) => Some(if n < 0 then 0 else n)
  }

  /** The pairs of lines after the count, one pair per link the count announces. */
  function LinePairs(lines: seq<string>, n: nat): (ps: seq<(string, string)>)
    requires |lines| >= 1 + 2 * n
    ensures |ps| == n
  {
    seq(n, t requires 0 <= t < n => (lines[1 + 2 * t], lines[2 + 2 * t]))
  }

  /** A pair of lines read as a record. */
  function ParseLinkPair(p: (string, string)): Option<LinkRecord>
  {
    ParseLinkLines(p.0, p.1)
  }

  /** The count reads, the log holds both lines of every link, and each pair of lines reads. */
  predicate LinkLogOk(lines: seq<string>)
  {
    && NrLinks(lines).Some?
    && |lines| >= 1 + 2 * NrLinks(lines).value
    && CollectSome(LinePairs(lines, NrLinks(lines).value), ParseLinkPair).Some?
  }

  /** The records of the log, in order. */
  function Records(lines: seq<string>): (rs: seq<LinkRecord>)
    requires LinkLogOk(lines)
    ensures |rs| == NrLinks(lines).value
    ensures forall t | 0 <= t < |rs| :: RecordOk(rs[t])
  {
    var ps := LinePairs(lines, NrLinks(lines).value);
    var rs := CollectSome(ps, ParseLinkPair).value;
    assert forall t | 0 <= t < |rs| :: ParseLinkPair(ps[t]) == Some(rs[t]);
    rs
  }

  /** Why reading the link log stopped: the record at this index declares a flow count its ids line does not have. */
  datatype LogError = CountMismatch(index: nat)

  /** The flow set of `l` in `m`, empty when `l` is absent: a `defaultdict(set)` read. */
  function FlowsAt(m: map<Link, set<int>>, l: Link): set<int>
  {
    if l in m then m[l] else {}
  }

  /** The ids of `s` as a set. */
  function IdSet(s: seq<int>): set<int>
  {
    set k | 0 <= k < |s| :: s[k]
  }

  /**
   * The link map of the records, read in order: each record's ids join its link's set, and the
   * first record whose count disagrees with its ids stops the reading.
   */
  function LinkFlows(rs: seq<LinkRecord>): Result<map<Link, set<int>>, LogError>
    requires forall t | 0 <= t < |rs| :: RecordOk(rs[t])
  {
    if rs == [] then Ok(map[])
    else
      var r := rs[|rs| - 1];
      assert RecordOk(r);
      match LinkFlows(rs[..|rs| - 1])
      case Err(e) => Err(e)
      case Ok(m) =>
        if r.info[3] != |r.ids| then Err(CountMismatch(|rs| - 1))
        else Ok(m[LinkOf(r) := FlowsAt(m, LinkOf(r)) + IdSet(r.ids)])
  }

  /** `parse_link_info_log`: the records read from the log, then folded into the link map. */
  method ParseLinkInfoLog(lines: seq<string>) returns (r: Result<map<Link, set<int>>, LogError>)
    requires LinkLogOk(lines)
    ensures r == LinkFlows(Records(lines))
  {
    var rs := Records(lines);
    r := AddRecords(rs);
  }

  /** The loop over the records: each one's count is checked, then its ids join its link's set. */
  method AddRecords(rs: seq<LinkRecord>) returns (r: Result<map<Link, set<int>>, LogError>)
    requires forall t | 0 <= t < |rs| :: RecordOk(rs[t])
    ensures r == LinkFlows(rs)
  {
    var linkFlows: map<Link, set<int>> := map[];
    for t := 0 to |rs|
      invariant LinkFlows(rs[..t]) == Ok(linkFlows)
    {
      assert rs[..t + 1][..t] == rs[..t];
      var rec := rs[t];
      if rec.info[3] != |rec.ids| {
        assert LinkFlows(rs[..t + 1]) == Err(CountMismatch(t));
        LinkFlowsStops(rs, t + 1);
        assert rs[..|rs|] == rs;
        return Err(CountMismatch(t));
      }
      var link := (rec.info[1], rec.info[2]);
      linkFlows := linkFlows[link := FlowsAt(linkFlows, link) + IdSet(rec.ids)];
    }
    assert rs[..|rs|] == rs;
    r := Ok(linkFlows);
  }

  /** Once a prefix of the records fails, reading all of them fails the same way. */
  lemma {:induction false} LinkFlowsStops(rs: seq<LinkRecord>, n: nat)
    requires forall t | 0 <= t < |rs| :: RecordOk(rs[t])
    requires n <= |rs| && LinkFlows(rs[..n]).Err?
    ensures LinkFlows(rs[..|rs|]) == LinkFlows(rs[..n])
    decreases |rs| - n
  {
    if n < |rs| {
      assert rs[..n + 1][..n] == rs[..n];
      LinkFlowsStops(rs, n + 1);
    }
  }

  /**
   * What the link map means: reading succeeds exactly when every record's count matches its ids,
   * fails at the first record that does not, and on success maps exactly the records' links, each
   * to the ids of all records of that link.
   */
  lemma LinkFlowsMeaning(rs: seq<LinkRecord>)
    requires forall t | 0 <= t < |rs| :: RecordOk(rs[t])
    ensures LinkFlows(rs).Ok? <==> forall t | 0 <= t < |rs| :: rs[t].info[3] == |rs[t].ids|
    ensures LinkFlows(rs).Err? ==>
              var t := LinkFlows(rs).error.index;
              t < |rs| && rs[t].info[3] != |rs[t].ids| && forall u | 0 <= u < t :: rs[u].info[3] == |rs[u].ids|
    ensures LinkFlows(rs).Ok? ==>
              var m := LinkFlows(rs).value;
              && (forall l :: l in m <==> exists t | 0 <= t < |rs| :: LinkOf(rs[t]) == l)
              && (forall l, f | l in m :: f in m[l] <==> exists t | 0 <= t < |rs| :: LinkOf(rs[t]) == l && f in rs[t].ids)
  {
    LinkFlowsChecks(rs);
    if LinkFlows(rs).Ok? {
      LinkFlowsMaps(rs);
    }
  }

  /** Every record's count matches its number of ids. */
  ghost predicate CountsMatch(rs: seq<LinkRecord>)
    requires forall t | 0 <= t < |rs| :: |rs[t].info| >= 4
  {
    forall t | 0 <= t < |rs| :: rs[t].info[3] == |rs[t].ids|
  }

  /** Record t is the first whose count does not match. */
  ghost predicate FirstMismatch(rs: seq<LinkRecord>, t: int)
    requires forall t | 0 <= t < |rs| :: |rs[t].info| >= 4
  {
    0 <= t < |rs| && rs[t].info[3] != |rs[t].ids| && forall u | 0 <= u < t :: rs[u].info[3] == |rs[u].ids|
  }

  /** `m` maps exactly the records' links, each to the ids of all records of that link. */
  ghost predicate MapsRecords(rs: seq<LinkRecord>, m: map<Link, set<int>>)
    requires forall t | 0 <= t < |rs| :: RecordOk(rs[t])
  {
    && (forall l :: l in m <==> exists t | 0 <= t < |rs| :: LinkOf(rs[t]) == l)
    && (forall l, f | l in m :: f in m[l] <==> exists t | 0 <= t < |rs| :: LinkOf(rs[t]) == l && f in rs[t].ids)
  }

  /** Reading succeeds exactly when every count matches, and otherwise fails at the first mismatch. */
  lemma {:induction false} LinkFlowsChecks(rs: seq<LinkRecord>)
    requires forall t | 0 <= t < |rs| :: RecordOk(rs[t])
    ensures LinkFlows(rs).Ok? <==> CountsMatch(rs)
    ensures LinkFlows(rs).Err? ==> FirstMismatch(rs, LinkFlows(rs).error.index)
    decreases |rs|
  {
    if rs != [] {
      var init := rs[..|rs| - 1];
      assert forall t | 0 <= t < |init| :: init[t] == rs[t];
      LinkFlowsChecks(init);
      if !CountsMatch(init) {
        var t :| 0 <= t < |init| && init[t].info[3] != |init[t].ids|;
        assert rs[t] == init[t];
      }
    }
  }

  /** On success, the link map holds exactly the records' links and ids. */
  lemma {:induction false} LinkFlowsMaps(rs: seq<LinkRecord>)
    requires forall t | 0 <= t < |rs| :: RecordOk(rs[t])
    requires LinkFlows(rs).Ok?
    ensures MapsRecords(rs, LinkFlows(rs).value)
    decreases |rs|
  {
    if rs != [] {
      var init := rs[..|rs| - 1];
      assert forall t | 0 <= t < |init| :: init[t] == rs[t];
      LinkFlowsMaps(init);
      MapsRecordsStep(rs, LinkFlows(init).value);
    }
  }

  /** One more record adds its ids to its link's set. */
  lemma MapsRecordsStep(rs: seq<LinkRecord>, m0: map<Link, set<int>>)
    requires rs != [] && forall t | 0 <= t < |rs| :: RecordOk(rs[t])
    requires MapsRecords(rs[..|rs| - 1], m0)
    ensures var r := rs[|rs| - 1];
            MapsRecords(rs, m0[LinkOf(r) := FlowsAt(m0, LinkOf(r)) + IdSet(r.ids)])
  {
    var init := rs[..|rs| - 1];
    var r := rs[|rs| - 1];
    var m := m0[LinkOf(r) := FlowsAt(m0, LinkOf(r)) + IdSet(r.ids)];
    forall l ensures l in m <==> exists t | 0 <= t < |rs| :: LinkOf(rs[t]) == l {
      if l in m0 {
        var t :| 0 <= t < |init| && LinkOf(init[t]) == l;
        assert rs[t] == init[t];
      }
      if exists t | 0 <= t < |rs| :: LinkOf(rs[t]) == l {
        var t :| 0 <= t < |rs| && LinkOf(rs[t]) == l;
        if t < |init| {
          assert LinkOf(init[t]) == l;
        }
      }
    }
    forall l, f | l in m
      ensures f in m[l] <==> exists t | 0 <= t < |rs| :: LinkOf(rs[t]) == l && f in rs[t].ids
    {
      if f in m[l] && !(l == LinkOf(r) && f in r.ids) {
        assert l in m0 && f in m0[l];
        var t :| 0 <= t < |init| && LinkOf(init[t]) == l && f in init[t].ids;
        assert rs[t] == init[t];
      }
      if exists t | 0 <= t < |rs| :: LinkOf(rs[t]) == l && f in rs[t].ids {
        var t :| 0 <= t < |rs| && LinkOf(rs[t]) == l && f in rs[t].ids;
        if t < |init| {
          assert LinkOf(init[t]) == l && f in init[t].ids;
        } else {
          assert f in IdSet(r.ids);
        }
      }
    }
  }

  /** The ids line of `ids`: every id followed by a comma. */
  function IdsLine(ids: seq<int>): string
  {
    Join(IntStrings(ids) + [""], ",")
  }

  /** The link line of `info`: the integers separated by commas. */
  function InfoLine(info: seq<int>): string
  {
    Join(IntStrings(info), ",")
  }

  /** An integer's rendering holds neither a comma nor white space. */
  lemma IntStringClean(n: int)
    ensures ',' !in IntToString(n) && NoneOf(IntToString(n), IsPyWhitespace)
  {
    var s := IntToString(n);
    if n >= 0 {
      assert forall i | 0 <= i < |s| :: IsDigit(s[i]);
    } else {
      var d := NatToString(-n);
      assert s == "-" + d;
      assert forall i | 1 <= i < |s| :: s[i] == d[i - 1] && IsDigit(s[i]);
    }
  }

  /** Pieces free of `p` joined by a separator free of `p` are free of `p`. */
  lemma {:induction false} JoinNoneOf(ts: seq<string>, sep: string, p: char -> bool)
    requires NoneOf(sep, p) && forall k | 0 <= k < |ts| :: NoneOf(ts[k], p)
    ensures NoneOf(Join(ts, sep), p)
    decreases |ts|
  {
    if |ts| > 1 {
      JoinNoneOf(ts[1..], sep, p);
      var rest := Join(ts[1..], sep);
      var s := ts[0] + sep + rest;
      forall i | 0 <= i < |s| ensures !p(s[i]) {
        if i < |ts[0]| {
          assert s[i] == ts[0][i];
        } else if i < |ts[0]| + |sep| {
          assert s[i] == sep[i - |ts[0]|];
        } else {
          assert s[i] == rest[i - |ts[0]| - |sep|];
        }
      }
    }
  }

  /** Renderings of integers joined by commas split back into those renderings. */
  lemma SplitIntStrings(vs: seq<int>, tail: seq<string>)
    requires tail == [] || tail == [""]
    requires |vs| + |tail| >= 1
    ensures var ts := IntStrings(vs) + tail;
            && NoneOf(Join(ts, ","), IsPyWhitespace)
            && SplitOn(Join(ts, ","), ',') == ts
  {
    var ts := IntStrings(vs) + tail;
    forall k | 0 <= k < |ts| ensures ',' !in ts[k] && NoneOf(ts[k], IsPyWhitespace) {
      if k < |vs| {
        IntStringClean(vs[k]);
      }
    }
    JoinNoneOf(ts, ",", IsPyWhitespace);
    SplitOnOfJoin(ts, ',');
  }

  /** A link line as written reads back as its integers. */
  lemma InfoLineReads(info: seq<int>)
    requires |info| >= 1
    ensures Ints(SplitOn(Strip(InfoLine(info), IsPyWhitespace), ',')) == Some(info)
  {
    SplitIntStrings(info, []);
    assert IntStrings(info) + [] == IntStrings(info);
    StripOfClean(InfoLine(info), IsPyWhitespace);
    IntsOfIntStrings(info);
  }

  /** An ids line as written splits into the ids' renderings and one empty piece. */
  lemma IdsLineReads(ids: seq<int>)
    ensures var pieces := SplitOn(Strip(IdsLine(ids), IsPyWhitespace), ',');
            |pieces| >= 1 && Ints(pieces[..|pieces| - 1]) == Some(ids)
  {
    SplitIntStrings(ids, [""]);
    StripOfClean(IdsLine(ids), IsPyWhitespace);
    var pieces := IntStrings(ids) + [""];
    assert pieces[..|pieces| - 1] == IntStrings(ids);
    IntsOfIntStrings(ids);
  }

  /** A record's two lines, as the link log writes them, read back as that record. */
  lemma ParseLinkLinesOfRecord(r: LinkRecord)
    requires RecordOk(r)
    ensures ParseLinkLines(InfoLine(r.info), IdsLine(r.ids)) == Some(r)
  {
    InfoLineReads(r.info);
    IdsLineReads(r.ids);
  }

  /** The lines after the count: each record's link line, then its ids line. */
  function RecordLines(rs: seq<LinkRecord>): (ls: seq<string>)
    ensures |ls| == 2 * |rs|
  {
    Unpair(RecordPairs(rs))
  }

  /** Each record's link line and ids line. */
  function RecordPairs(rs: seq<LinkRecord>): (ps: seq<(string, string)>)
    ensures |ps| == |rs|
  {
    seq(|rs|, t requires 0 <= t < |rs| => (InfoLine(rs[t].info), IdsLine(rs[t].ids)))
  }

  /** The pairs laid out one after the other: first, second, first, second, ... */
  function Unpair<T>(ps: seq<(T, T)>): (ls: seq<T>)
    ensures |ls| == 2 * |ps|
  {
    if ps == [] then [] else [ps[0].0, ps[0].1] + Unpair(ps[1..])
  }

  /** Pair t sits at positions 2t and 2t + 1. */
  lemma {:induction false} UnpairAt<T>(ps: seq<(T, T)>, t: nat)
    requires t < |ps|
    ensures Unpair(ps)[2 * t] == ps[t].0 && Unpair(ps)[2 * t + 1] == ps[t].1
    decreases t
  {
    if t > 0 {
      UnpairAt(ps[1..], t - 1);
      var rest := Unpair(ps[1..]);
      assert Unpair(ps) == [ps[0].0, ps[0].1] + rest;
      assert Unpair(ps)[2 * t] == rest[2 * (t - 1)];
    }
  }

  /** A link log as written: the record count, then every record's two lines. */
  function LinkLog(rs: seq<LinkRecord>): seq<string>
  {
    [IntToString(|rs|)] + RecordLines(rs)
  }

  /** The pairs of lines of a written link log are the records' two lines. */
  lemma LinePairsOfLog(rs: seq<LinkRecord>)
    ensures |LinkLog(rs)| == 1 + 2 * |rs|
    ensures LinePairs(LinkLog(rs), |rs|) == RecordPairs(rs)
  {
    LinePairsOfUnpair(IntToString(|rs|), RecordPairs(rs));
  }

  /** Any head line followed by the laid-out pairs pairs up again as those pairs. */
  lemma LinePairsOfUnpair(head: string, ps: seq<(string, string)>)
    ensures |[head] + Unpair(ps)| == 1 + 2 * |ps|
    ensures LinePairs([head] + Unpair(ps), |ps|) == ps
  {
    var log := [head] + Unpair(ps);
    assert |log| == 1 + 2 * |ps|;
    forall t | 0 <= t < |ps| ensures LinePairs(log, |ps|)[t] == ps[t] {
      UnpairAt(ps, t);
      assert LinePairs(log, |ps|)[t] == (log[1 + 2 * t], log[2 + 2 * t]);
      assert log[1 + 2 * t] == Unpair(ps)[2 * t];
      assert log[2 + 2 * t] == Unpair(ps)[2 * t + 1];
    }
  }

  /** The count line of a written link log reads as the number of records. */
  lemma NrLinksOfLog(rs: seq<LinkRecord>)
    ensures NrLinks(LinkLog(rs)) == Some(|rs|)
  {
    var l0 := IntToString(|rs|);
    assert LinkLog(rs)[0] == l0;
    IntStringClean(|rs|);
    StripOfClean(l0, IsPyWhitespace);
    PyIntOfIntToString(|rs|);
    assert PyInt(Strip(l0, IsPyWhitespace)) == Some(|rs|);
  }

  /** Every pair of lines of a written link log reads as its record. */
  lemma PairsOfLogRead(rs: seq<LinkRecord>)
    requires forall t | 0 <= t < |rs| :: RecordOk(rs[t])
    requires |LinkLog(rs)| == 1 + 2 * |rs|
    ensures CollectSome(LinePairs(LinkLog(rs), |rs|), ParseLinkPair) == Some(rs)
  {
    var ps := LinePairs(LinkLog(rs), |rs|);
    LinePairsOfLog(rs);
    forall t | 0 <= t < |rs| ensures ParseLinkPair(ps[t]) == Some(rs[t]) {
      ParseLinkLinesOfRecord(rs[t]);
    }
    CollectSomeOfAll(ps, ParseLinkPair, rs);
  }

  /** Reading a written link log gives back its records. */
  lemma LinkLogRoundTrip(rs: seq<LinkRecord>)
    requires forall t | 0 <= t < |rs| :: RecordOk(rs[t])
    ensures LinkLogOk(LinkLog(rs)) && Records(LinkLog(rs)) == rs
  {
    LinePairsOfLog(rs);
    NrLinksOfLog(rs);
    PairsOfLogRead(rs);
  }

  // ---------------------------------------------------------------- joining the logs

  /** The links whose flow set names `f`. */
  function LinksOfFlow(linkFlows: map<Link, set<int>>, f: int): set<Link>
  {
    set l | l in linkFlows && f in linkFlows[l]
  }

  /** Adds `l` to every flow of `flows` named in `ids`. */
  method AddLink(flows: map<int, FlowInfo>, l: Link, ids: set<int>) returns (out: map<int, FlowInfo>)
    ensures out.Keys == flows.Keys
    ensures forall f | f in out :: out[f] == if f in ids then flows[f].(links := flows[f].links + {l}) else flows[f]
  {
    out := flows;
    var todo := ids;
    while todo != {}
      invariant todo <= ids
      invariant out.Keys == flows.Keys
      invariant forall f | f in out ::
                  out[f] == if f in ids - todo then flows[f].(links := flows[f].links + {l}) else flows[f]
      decreases todo
    {
      var f := Pick(todo);
      if f in out {
        out := out[f := out[f].(links := out[f].links + {l})];
      }
      todo := todo - {f};
    }
  }

  /**
   * `assign_links_to_flows`: each flow gains the links whose flow set names it; ids not in the
   * flow map are ignored, and ids, start and end times are unchanged.
   */
  method AssignLinksToFlows(flows: map<int, FlowInfo>, linkFlows: map<Link, set<int>>) returns (out: map<int, FlowInfo>)
    ensures out.Keys == flows.Keys
    ensures forall f | f in out ::
              && out[f].start == flows[f].start && out[f].end == flows[f].end
              && out[f].links == flows[f].links + LinksOfFlow(linkFlows, f)
  {
    out := flows;
    var todo := linkFlows.Keys;
    ghost var done: set<Link> := {};
    while todo != {}
      invariant todo <= linkFlows.Keys && done == linkFlows.Keys - todo
      invariant out.Keys == flows.Keys
      invariant forall f | f in out ::
                  && out[f].start == flows[f].start && out[f].end == flows[f].end
                  && out[f].links == flows[f].links + LinksIn(linkFlows, done, f)
      decreases todo
    {
      var l := Pick(todo);
      ghost var before := out;
      out := AddLink(out, l, linkFlows[l]);
      forall f | f in out
        ensures out[f].links == flows[f].links + LinksIn(linkFlows, done + {l}, f)
      {
        LinksInAdd(linkFlows, done, l, f);
      }
      todo := todo - {l};
      done := done + {l};
    }
    forall f | f in out ensures LinksIn(linkFlows, done, f) == LinksOfFlow(linkFlows, f) {
    }
  }

  /** The links among `done` whose flow set names `f`. */
  ghost function LinksIn(linkFlows: map<Link, set<int>>, done: set<Link>, f: int): set<Link>
    requires done <= linkFlows.Keys
  {
    set l | l in done && f in linkFlows[l]
  }

  /** One more link joins the links of `f` exactly when its flow set names `f`. */
  lemma LinksInAdd(linkFlows: map<Link, set<int>>, done: set<Link>, l: Link, f: int)
    requires done <= linkFlows.Keys && l in linkFlows
    ensures LinksIn(linkFlows, done + {l}, f) == LinksIn(linkFlows, done, f) + (if f in linkFlows[l] then {l} else {})
  {
  }
}
