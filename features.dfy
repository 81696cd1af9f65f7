/**
 * The learned-model simulator interface of the path experiments: its output line of feature
 * values is cut into one row per flow-size bucket, and each row is made non-decreasing by a
 * running maximum; its flow file is the counted one of the other simulators. The simulator writes 32-bit floats; values are reals here, and a token that
 * does not parse as a number stops the program, so the parser's success is a precondition.
 */
module MlsysFeatures {
  import opened Wrappers
  import opened Text
  import opened Net
  import opened SimText

  // ---------------------------------------------------------------- running maximum

  function Max(x: real, y: real): real {
    if y < x then x else y
  }

  lemma MaxBounds(x: real, y: real)
    ensures x <= Max(x, y) && y <= Max(x, y)
    ensures Max(x, y) == x || Max(x, y) == y
  {
  }

  /** Each value replaced by the largest value up to and including it. */
  function RunningMax(s: seq<real>): (r: seq<real>)
    ensures |r| == |s|
  {
    if |s| <= 1 then s
    else
      var p := RunningMax(s[..|s| - 1]);
      p + [Max(p[|p| - 1], s[|s| - 1])]
  }

  /** `s` never decreases. */
  predicate NonDecreasing(s: seq<real>) {
    forall i, j | 0 <= i < j < |s| :: s[i] <= s[j]
  }

  /**
   * The fix-up loop of `interpolate_values` on one row: from the second value on, a value
   * smaller than its (already fixed) predecessor is raised to it.
   */
  method FixUp(a: array<real>)
    modifies a
    ensures a[..] == RunningMax(old(a[..]))
  {
    ghost var s := a[..];
    if a.Length == 0 {
      return;
    }
    for i := 1 to a.Length
      invariant a[..i] == RunningMax(s[..i])
      invariant forall k | i <= k < a.Length :: a[k] == s[k]
    {
      assert s[..i + 1][..i] == s[..i];
      assert a[i] == s[i];
      if a[i] < a[i - 1] {
        a[i] := a[i - 1];
      }
      assert a[..i + 1] == a[..i] + [a[i]];
    }
    assert a[..] == a[..a.Length] && s == s[..a.Length];
  }

  /**
   * The running maximum is the prefix maximum: each output value is one of the values up to its
   * position and no smaller than any of them.
   */
  lemma RunningMaxIsPrefixMax(s: seq<real>)
    ensures Attained(s, RunningMax(s)) && Dominates(s, RunningMax(s))
  {
    RunningMaxAttained(s);
    RunningMaxDominates(s);
  }

  /** Each value of `r` is one of the values of `s` up to its position. */
  ghost predicate Attained(s: seq<real>, r: seq<real>)
    requires |r| == |s|
  {
    forall i | 0 <= i < |s| :: exists j | 0 <= j <= i :: s[j] == r[i]
  }

  /** Each value of `r` is no smaller than any value of `s` up to its position. */
  ghost predicate Dominates(s: seq<real>, r: seq<real>)
    requires |r| == |s|
  {
    forall i, j | 0 <= j <= i < |s| :: s[j] <= r[i]
  }

  lemma {:induction false} RunningMaxAttained(s: seq<real>)
    ensures Attained(s, RunningMax(s))
    decreases |s|
  {
    if |s| > 1 {
      RunningMaxAttained(s[..|s| - 1]);
      AttainedStep(s);
    } else if |s| == 1 {
      assert s[0] == RunningMax(s)[0];
    }
  }

  lemma AttainedStep(s: seq<real>)
    requires |s| > 1 && Attained(s[..|s| - 1], RunningMax(s[..|s| - 1]))
    ensures Attained(s, RunningMax(s))
  {
    forall i | 0 <= i < |s| ensures exists j | 0 <= j <= i :: s[j] == RunningMax(s)[i] {
      AttainedAt(s, i);
    }
  }

  lemma AttainedAt(s: seq<real>, i: nat)
    requires |s| > 1 && Attained(s[..|s| - 1], RunningMax(s[..|s| - 1])) && i < |s|
    ensures exists j | 0 <= j <= i :: s[j] == RunningMax(s)[i]
  {
    var n := |s| - 1;
    var init := s[..n];
    var p := RunningMax(init);
    RunningMaxAt(s, i);
    if i < n {
      var j :| 0 <= j <= i && init[j] == p[i];
      assert s[j] == init[j];
    } else {
      MaxBounds(p[n - 1], s[n]);
      if RunningMax(s)[i] == p[n - 1] {
        var j :| 0 <= j <= n - 1 && init[j] == p[n - 1];
        assert s[j] == init[j];
      }
    }
  }

  /** Entry i of the running maximum: the earlier running maximum before the last, the larger of its last value and the new one at the last. */
  lemma RunningMaxAt(s: seq<real>, i: nat)
    requires |s| > 1 && i < |s|
    ensures var n := |s| - 1;
            var p := RunningMax(s[..n]);
            RunningMax(s)[i] == if i < n then p[i] else Max(p[n - 1], s[n])
  {
  }

  lemma {:induction false} RunningMaxDominates(s: seq<real>)
    ensures Dominates(s, RunningMax(s))
    decreases |s|
  {
    if |s| > 1 {
      RunningMaxDominates(s[..|s| - 1]);
      DominatesStep(s);
    }
  }

  lemma DominatesStep(s: seq<real>)
    requires |s| > 1 && Dominates(s[..|s| - 1], RunningMax(s[..|s| - 1]))
    ensures Dominates(s, RunningMax(s))
  {
    var n := |s| - 1;
    var init := s[..n];
    var p, r := RunningMax(init), RunningMax(s);
    assert r == p + [Max(p[n - 1], s[n])];
    forall i, j | 0 <= j <= i < |s| ensures s[j] <= r[i] {
      if i < n {
        assert r[i] == p[i] && s[j] == init[j];
        assert init[j] <= p[i];
        assert s[j] <= r[i];
      } else {
        assert i == n;
        assert r[n] == Max(p[n - 1], s[n]);
        if j < n {
          assert s[j] == init[j];
          assert init[j] <= p[n - 1];
          assert s[j] <= r[i];
        } else {
          assert j == n;
          MaxBounds(p[n - 1], s[n]);
        }
      }
    }
  }

  /** The output never decreases, lies pointwise above the input, and starts with the input's first value. */
  lemma RunningMaxShape(s: seq<real>)
    ensures NonDecreasing(RunningMax(s))
    ensures forall i | 0 <= i < |s| :: s[i] <= RunningMax(s)[i]
    ensures |s| > 0 ==> RunningMax(s)[0] == s[0]
  {
    RunningMaxIsPrefixMax(s);
    var r := RunningMax(s);
    forall i, j | 0 <= i < j < |s| ensures r[i] <= r[j] {
      var w :| 0 <= w <= i && s[w] == r[i];
      assert s[w] <= r[j];
    }
  }

  /** A row that already never decreases is left as it is. */
  lemma {:induction false} RunningMaxOfNonDecreasing(s: seq<real>)
    requires NonDecreasing(s)
    ensures RunningMax(s) == s
    decreases |s|
  {
    if |s| > 1 {
      var init := s[..|s| - 1];
      RunningMaxOfNonDecreasing(init);
      assert RunningMax(s) == init + [Max(init[|init| - 1], s[|s| - 1])];
      assert init + [s[|s| - 1]] == s;
    }
  }

  /** Fixing a row twice is fixing it once. */
  lemma RunningMaxIdempotent(s: seq<real>)
    ensures RunningMax(RunningMax(s)) == RunningMax(s)
  {
    RunningMaxShape(s);
    RunningMaxOfNonDecreasing(RunningMax(s));
  }

  /**
   * `interpolate_values`: each row is copied and fixed up; the number of rows must be the
   * number of flow-size buckets (the source asserts it).
   */
  method InterpolateValues(input: seq<seq<real>>, nrSizeBuckets: nat) returns (result: seq<seq<real>>)
    requires |input| == nrSizeBuckets
    ensures |result| == |input|
    ensures forall k | 0 <= k < |input| :: result[k] == RunningMax(input[k])
  {
    result := [];
    for k := 0 to |input|
      invariant |result| == k
      invariant forall j | 0 <= j < k :: result[j] == RunningMax(input[j])
    {
      var row := new real[|input[k]|](i requires 0 <= i < |input[k]| => input[k][i]);
      assert row[..] == input[k];
      FixUp(row);
      result := result + [row[..]];
    }
  }

  // ---------------------------------------------------------------- record parsing

  /** `chunks`: consecutive pieces of width `w`, the last one possibly shorter. */
  function Chunks<T>(s: seq<T>, w: nat): seq<seq<T>>
    requires w > 0
    decreases |s|
  {
    if s == [] then []
    else if |s| <= w then [s]
    else [s[..w]] + Chunks(s[w..], w)
  }

  /** The pieces laid end to end. */
  function Flatten<T>(ss: seq<seq<T>>): seq<T> {
    if ss == [] then [] else ss[0] + Flatten(ss[1..])
  }

  /**
   * A sequence of `b` times `w` values falls into exactly `b` pieces of width `w` that put back
   * together give the sequence again.
   */
  lemma {:induction false} ChunksExact<T>(s: seq<T>, w: nat, b: nat)
    requires w > 0 && |s| == b * w
    ensures |Chunks(s, w)| == b
    ensures forall k | 0 <= k < b :: |Chunks(s, w)[k]| == w
    ensures Flatten(Chunks(s, w)) == s
    decreases b
  {
    if b == 1 {
      assert Chunks(s, w) == [s];
      assert Flatten([s]) == s + Flatten([s][1..]);
    } else if b > 1 {
      assert |s[w..]| == (b - 1) * w;
      ChunksExact(s[w..], w, b - 1);
      var c := Chunks(s, w);
      assert c == [s[..w]] + Chunks(s[w..], w);
      assert c[1..] == Chunks(s[w..], w);
      assert s[..w] + s[w..] == s;
    }
  }

  /** The errors of record parsing; a value that is not a number never gets here (see the module comment). */
  datatype ParseError = WrongNrFields(expected: nat, got: nat) | ParseInt

  /** The numbers of a line, one per whitespace-separated token. */
  function Values(line: string, parse: string -> Option<real>): (vs: seq<real>)
    requires forall k | 0 <= k < |SplitWhitespace(line)| :: parse(SplitWhitespace(line)[k]).Some?
    ensures |vs| == |SplitWhitespace(line)|
    ensures forall k | 0 <= k < |vs| :: parse(SplitWhitespace(line)[k]) == Some(vs[k])
  {
    var tokens := SplitWhitespace(line);
    seq(|tokens|, k requires 0 <= k < |tokens| => parse(tokens[k]).value)
  }

  /**
   * `parse_mlsys_record`: the line must hold one value per flow-size bucket and input
   * percentile; the values are cut in order into one row per bucket and each row is fixed up.
   * With no percentiles and no tokens the chunking itself fails, so that case is excluded.
   */
  method ParseRecord(line: string, parse: string -> Option<real>, nrSizeBuckets: nat, nrPercentiles: nat)
    returns (r: Result<seq<seq<real>>, ParseError>)
    requires forall k | 0 <= k < |SplitWhitespace(line)| :: parse(SplitWhitespace(line)[k]).Some?
    requires nrPercentiles > 0 || |SplitWhitespace(line)| > 0
    ensures |SplitWhitespace(line)| != nrSizeBuckets * nrPercentiles <==>
              r == Err(WrongNrFields(nrSizeBuckets * nrPercentiles, |SplitWhitespace(line)|))
    ensures r.Ok? ==>
              && |r.value| == nrSizeBuckets
              && (forall k | 0 <= k < nrSizeBuckets :: |r.value[k]| == nrPercentiles && NonDecreasing(r.value[k]))
              && exists rows: seq<seq<real>> | Flatten(rows) == Values(line, parse) && |rows| == nrSizeBuckets ::
                   forall k | 0 <= k < nrSizeBuckets :: |rows[k]| == nrPercentiles && r.value[k] == RunningMax(rows[k])
  {
    var fields := Values(line, parse);
    var expected := nrSizeBuckets * nrPercentiles;
    if |fields| != expected {
      return Err(WrongNrFields(expected, |fields|));
    }
    ChunksExact(fields, nrPercentiles, nrSizeBuckets);
    var chunks := Chunks(fields, nrPercentiles);
    var rows := InterpolateValues(chunks, nrSizeBuckets);
    forall k | 0 <= k < nrSizeBuckets ensures |rows[k]| == nrPercentiles && NonDecreasing(rows[k]) {
      RunningMaxShape(chunks[k]);
    }
    r := Ok(rows);
  }

  // ---------------------------------------------------------------- flow file

  /** `translate_flows`: the flow count on its own line, then one line per flow, joined by line feeds. */
  function TranslateFlows(flows: seq<Flow>, secs: nat -> string): string
  {
    CountedFlows(flows, secs)
  }

  /** The flow file reads back as the flow count followed by one line per flow, in input order. */
  lemma TranslateFlowsLines(flows: seq<Flow>, secs: nat -> string)
    requires OneWord(secs)
    ensures var ls := Lines(TranslateFlows(flows, secs));
            && |ls| == |flows| + 1
            && ls[0] == NatToString(|flows|)
            && forall k | 0 <= k < |flows| :: SplitWhitespace(ls[k + 1]) == FlowFields(flows[k], secs)
  {
    CountedFlowsLines(flows, secs);
    forall k | 0 <= k < |flows| ensures SplitWhitespace(FlowLine(flows[k], secs)) == FlowFields(flows[k], secs) {
      FlowLineWords(flows[k], secs);
    }
  }
}
