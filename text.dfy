/**
 * Text as the harness reads and writes it: decimal rendering of integers, Rust's `u64` and
 * Python's `int` parsing, `split_whitespace`/`split()`, `split(c)`, `lines()`, `trim()` and `join`.
 * Strings are sequences of Unicode scalar values (`char`).
 */
module Text {
  import opened Wrappers

  /** The largest `u64` (also `usize` on the 64-bit targets the harness runs on). */
  const U64_MAX: nat := 0xFFFF_FFFF_FFFF_FFFF

  predicate IsDigit(c: char) { '0' <= c <= '9' }

  predicate AllDigits(s: string) { forall i | 0 <= i < |s| :: IsDigit(s[i]) }

  /** Rust's `char::is_whitespace`: the Unicode White_Space property. */
  predicate IsWhitespace(c: char) {
    var n := c as int;
    (9 <= n <= 13) || n == 32 || n == 0x85 || n == 0xA0 || n == 0x1680
    || (0x2000 <= n <= 0x200A) || n == 0x2028 || n == 0x2029 || n == 0x202F
    || n == 0x205F || n == 0x3000
  }

  /** Python's `str.isspace` for one character (also splits on the separators 0x1C-0x1F). */
  predicate IsPyWhitespace(c: char) {
    IsWhitespace(c) || (0x1C <= c as int <= 0x1F)
  }

  /** True when no character of `s` satisfies `sep`. */
  predicate NoneOf(s: string, sep: char -> bool) { forall i | 0 <= i < |s| :: !sep(s[i]) }

  // ---------------------------------------------------------------- decimal rendering

  function DigitChar(d: nat): (c: char)
    requires d < 10
    ensures IsDigit(c) && c as int - '0' as int == d
  {
    ('0' as int + d) as char
  }

  function DigitValue(c: char): nat
    requires IsDigit(c)
  {
    c as int - '0' as int
  }

  /** `Display` of an unsigned integer: its decimal digits, no sign, no leading zero. */
  function NatToString(n: nat): (s: string)
    ensures |s| > 0 && AllDigits(s)
    ensures |s| > 1 ==> s[0] != '0'
    decreases n
  {
    if n < 10 then [DigitChar(n)] else NatToString(n / 10) + [DigitChar(n % 10)]
  }

  /** The number a non-empty run of decimal digits denotes. */
  function DigitsValue(s: string): nat
    requires AllDigits(s)
  {
    if s == [] then 0 else DigitsValue(s[..|s| - 1]) * 10 + DigitValue(s[|s| - 1])
  }

  lemma {:induction false} DigitsValueOfNatToString(n: nat)
    ensures DigitsValue(NatToString(n)) == n
    decreases n
  {
    if n >= 10 {
      var s := NatToString(n);
      assert s[..|s| - 1] == NatToString(n / 10);
      DigitsValueOfNatToString(n / 10);
    }
  }

  /** Decimal rendering is injective: two numbers print the same only if they are equal. */
  lemma NatToStringInjective(m: nat, n: nat)
    requires NatToString(m) == NatToString(n)
    ensures m == n
  {
    DigitsValueOfNatToString(m);
    DigitsValueOfNatToString(n);
  }

  /**
   * Rust's `u64::from_str` (and `usize`'s): an optional leading `+`, then one or more ASCII
   * digits whose value fits in 64 bits; anything else is a `ParseIntError`.
   */
  function ParseU64(s: string): (r: Option<nat>)
    ensures r.Some? ==> r.value <= U64_MAX
    ensures r.Some? ==> |s| > 0 && (IsDigit(s[0]) || s[0] == '+')
  {
    var digits := if |s| > 0 && s[0] == '+' then s[1..] else s;
    if digits == [] || !AllDigits(digits) then None
    else
      var v := DigitsValue(digits);
      if v <= U64_MAX then Some(v) else None
  }

  /** Parsing what `Display` printed gives the number back. */
  lemma ParseU64OfNatToString(n: nat)
    requires n <= U64_MAX
    ensures ParseU64(NatToString(n)) == Some(n)
  {
    DigitsValueOfNatToString(n);
  }

  /**
   * Python's `int(s)` on a decimal string: surrounding whitespace is ignored, then an optional
   * sign and one or more digits. (Digit-group underscores are not modelled.)
   */
  function PyInt(s: string): (r: Option<int>)
  {
    SignedDecimal(Strip(s, IsPyWhitespace))
  }

  /** An optional sign followed by one or more decimal digits. */
  function SignedDecimal(t: string): (r: Option<int>)
  {
    var neg := |t| > 0 && t[0] == '-';
    var digits := if |t| > 0 && (t[0] == '+' || t[0] == '-') then t[1..] else t;
    if digits == [] || !AllDigits(digits) then None
    else
      var v: int := DigitsValue(digits);
      Some(if neg then -v else v)
  }

  /** Python's `str(n)` for an integer. */
  function IntToString(n: int): (s: string)
    ensures |s| > 0 && NoneOf(s, IsPyWhitespace)
  {
    if n < 0 then "-" + NatToString(-n) else NatToString(n)
  }

  lemma SignedDecimalOfIntToString(n: int)
    ensures SignedDecimal(IntToString(n)) == Some(n)
  {
    var s := IntToString(n);
    if n < 0 {
      var d := NatToString(-n);
      assert s == "-" + d && s[0] == '-' && s[1..] == d;
      DigitsValueOfNatToString(-n);
    } else {
      var d := NatToString(n);
      assert s == d && IsDigit(s[0]);
      DigitsValueOfNatToString(n);
    }
  }

  /** Python reads back the integers it prints. */
  lemma PyIntOfIntToString(n: int)
    ensures PyInt(IntToString(n)) == Some(n)
  {
    StripOfClean(IntToString(n), IsPyWhitespace);
    SignedDecimalOfIntToString(n);
  }

  // ---------------------------------------------------------------- searching and trimming

  /** Index of the first `c` in `s`, or `|s|` when there is none. */
  function IndexOf(s: string, c: char): (i: nat)
    ensures i <= |s|
    ensures i < |s| ==> s[i] == c
    ensures forall j | 0 <= j < i :: s[j] != c
  {
    if s == [] then 0 else if s[0] == c then 0 else 1 + IndexOf(s[1..], c)
  }

  /** `s` with its leading characters satisfying `sep` removed. */
  function TrimStart(s: string, sep: char -> bool): (t: string)
    ensures |t| <= |s| && t == s[|s| - |t|..]
    ensures t != [] ==> !sep(t[0])
  {
    if s != [] && sep(s[0]) then TrimStart(s[1..], sep) else s
  }

  /** `s` with its trailing characters satisfying `sep` removed. */
  function TrimEnd(s: string, sep: char -> bool): (t: string)
    ensures |t| <= |s| && t == s[..|t|]
    ensures t != [] ==> !sep(t[|t| - 1])
  {
    if s != [] && sep(s[|s| - 1]) then TrimEnd(s[..|s| - 1], sep) else s
  }

  /** Rust's `str::trim` (with `IsWhitespace`) and Python's `str.strip()` (with `IsPyWhitespace`). */
  function Strip(s: string, sep: char -> bool): string
  {
    TrimEnd(TrimStart(s, sep), sep)
  }

  function Trim(s: string): string { Strip(s, IsWhitespace) }

  lemma StripOfClean(s: string, sep: char -> bool)
    requires NoneOf(s, sep)
    ensures Strip(s, sep) == s
  {
  }

  // ---------------------------------------------------------------- splitting into words

  /** The longest prefix of `s` containing no separator. */
  function Word(s: string, sep: char -> bool): (w: string)
    ensures |w| <= |s| && w == s[..|w|] && NoneOf(w, sep)
    ensures s != [] && !sep(s[0]) ==> |w| > 0
    ensures |w| < |s| ==> sep(s[|w|])
  {
    if s == [] || sep(s[0]) then [] else [s[0]] + Word(s[1..], sep)
  }

  /** The maximal separator-free runs of `s`, in order: `split_whitespace()` / Python's `split()`. */
  function Words(s: string, sep: char -> bool): (ws: seq<string>)
    ensures forall k | 0 <= k < |ws| :: |ws[k]| > 0 && NoneOf(ws[k], sep)
    decreases |s|
  {
    if s == [] then []
    else if sep(s[0]) then Words(s[1..], sep)
    else
      var w := Word(s, sep);
      [w] + Words(s[|w|..], sep)
  }

  /** Rust's `str::split_whitespace`. */
  function SplitWhitespace(s: string): seq<string> { Words(s, IsWhitespace) }

  /** `ss` joined with `sep` between consecutive elements: Rust's `join`, Python's `str.join`. */
  function Join(ss: seq<string>, sep: string): string
  {
    if |ss| == 0 then "" else if |ss| == 1 then ss[0] else ss[0] + sep + Join(ss[1..], sep)
  }

  lemma {:induction false} WordOfPrefix(t: string, r: string, sep: char -> bool)
    requires t != [] && NoneOf(t, sep)
    requires r == [] || sep(r[0])
    ensures Word(t + r, sep) == t
    decreases |t|
  {
    if |t| > 1 {
      assert (t + r)[1..] == t[1..] + r;
      WordOfPrefix(t[1..], r, sep);
    } else {
      assert (t + r)[1..] == r;
    }
  }

  /** Splitting words joined by one separator character gives the words back. */
  lemma {:induction false} WordsOfJoin(ts: seq<string>, c: char, sep: char -> bool)
    requires sep(c)
    requires forall k | 0 <= k < |ts| :: ts[k] != [] && NoneOf(ts[k], sep)
    ensures Words(Join(ts, [c]), sep) == ts
    decreases |ts|
  {
    if |ts| == 1 {
      WordOfPrefix(ts[0], [], sep);
      assert ts[0] + [] == ts[0];
      assert ts[0][|ts[0]|..] == [];
    } else if |ts| > 1 {
      var rest := Join(ts[1..], [c]);
      var s := ts[0] + [c] + rest;
      assert s == ts[0] + ([c] + rest);
      WordOfPrefix(ts[0], [c] + rest, sep);
      assert s[|ts[0]|..] == [c] + rest;
      assert ([c] + rest)[1..] == rest;
      WordsOfJoin(ts[1..], c, sep);
    }
  }

  // ---------------------------------------------------------------- splitting on a character

  /** Rust's `str::split(c)` and Python's `str.split(c)`: always at least one piece. */
  function SplitOn(s: string, c: char): (r: seq<string>)
    ensures |r| >= 1
    decreases |s|
  {
    var i := IndexOf(s, c);
    if i == |s| then [s] else [s[..i]] + SplitOn(s[i + 1..], c)
  }

  /** A character found in neither the pieces nor the separator is not in their join. */
  lemma {:induction false} JoinKeepsOut(ts: seq<string>, sep: string, x: char)
    requires x !in sep && forall k | 0 <= k < |ts| :: x !in ts[k]
    ensures x !in Join(ts, sep)
    decreases |ts|
  {
    if |ts| > 1 {
      JoinKeepsOut(ts[1..], sep, x);
    }
  }

  /** Pieces without `c` joined by `c` split back at `c` into the same pieces. */
  lemma {:induction false} SplitOnOfJoin(ts: seq<string>, c: char)
    requires |ts| >= 1
    requires forall k | 0 <= k < |ts| :: c !in ts[k]
    ensures SplitOn(Join(ts, [c]), c) == ts
    decreases |ts|
  {
    if |ts| == 1 {
      NoneFound(ts[0], c);
    } else {
      var rest := Join(ts[1..], [c]);
      assert Join(ts, [c]) == ts[0] + ([c] + rest);
      SplitOnFirst(ts[0], rest, c);
      assert forall k | 0 <= k < |ts[1..]| :: c !in ts[1..][k];
      SplitOnOfJoin(ts[1..], c);
      assert ts == [ts[0]] + ts[1..];
    }
  }

  /** Splitting a piece free of `c`, then `c`, then the rest splits off that piece. */
  lemma SplitOnFirst(t: string, rest: string, c: char)
    requires c !in t
    ensures SplitOn(t + ([c] + rest), c) == [t] + SplitOn(rest, c)
  {
    var s := t + ([c] + rest);
    IndexOfPrefix(t, [c] + rest, c);
    assert s[..|t|] == t;
    assert s[|t| + 1..] == rest;
  }

  lemma NoneFound(t: string, c: char)
    requires c !in t
    ensures SplitOn(t, c) == [t]
  {
    assert IndexOf(t, c) == |t|;
  }

  // ---------------------------------------------------------------- lines

  predicate EndsWithCr(l: string) { |l| > 0 && l[|l| - 1] == '\r' }

  /** `l` is a single line: it holds no line feed and does not end in a carriage return. */
  predicate IsLine(l: string) { '\n' !in l && !EndsWithCr(l) }

  /**
   * Rust's `str::lines`: split at `\n` (a `\r` just before it is dropped as well); a final empty
   * piece after the last `\n` is not a line.
   */
  function Lines(s: string): seq<string>
    decreases |s|
  {
    if s == [] then []
    else
      var i := IndexOf(s, '\n');
      if i == |s| then [s]
      else [if EndsWithCr(s[..i]) then s[..i - 1] else s[..i]] + Lines(s[i + 1..])
  }

  /** Lines joined by `\n` split back into the same lines, provided the last one is not empty. */
  lemma {:induction false} LinesOfJoin(ls: seq<string>)
    requires forall k | 0 <= k < |ls| :: IsLine(ls[k])
    requires ls == [] || ls[|ls| - 1] != ""
    ensures Lines(Join(ls, "\n")) == ls
    decreases |ls|
  {
    if |ls| == 1 {
      NoLineFeed(ls[0]);
    } else if |ls| > 1 {
      var rest := Join(ls[1..], "\n");
      assert Join(ls, "\n") == ls[0] + "\n" + rest;
      LinesCons(ls[0], rest);
      LinesOfJoin(ls[1..]);
    }
  }

  lemma NoLineFeed(l: string)
    requires '\n' !in l
    ensures IndexOf(l, '\n') == |l|
  {
  }

  /** Lines each followed by `\n` (as `writeln!` produces them) split back into the same lines. */
  lemma {:induction false} LinesOfTerminated(ls: seq<string>)
    requires forall k | 0 <= k < |ls| :: IsLine(ls[k])
    ensures Lines(Terminated(ls)) == ls
    decreases |ls|
  {
    if |ls| > 0 {
      LinesCons(ls[0], Terminated(ls[1..]));
      LinesOfTerminated(ls[1..]);
    }
  }

  /** A line followed by `\n` is the first line of what it starts. */
  lemma LinesCons(l: string, rest: string)
    requires IsLine(l)
    ensures Lines(l + "\n" + rest) == [l] + Lines(rest)
  {
    var s := l + "\n" + rest;
    IndexOfPrefix(l, "\n" + rest, '\n');
    assert s == l + ("\n" + rest);
    assert s[..|l|] == l;
    assert s[|l| + 1..] == rest;
  }

  /** Every line followed by `\n`. */
  function Terminated(ls: seq<string>): string
  {
    if ls == [] then "" else ls[0] + "\n" + Terminated(ls[1..])
  }

  lemma IndexOfPrefix(t: string, r: string, c: char)
    requires c !in t && r != [] && r[0] == c
    ensures IndexOf(t + r, c) == |t|
  {
    var s := t + r;
    assert s[|t|] == c;
    assert forall j | 0 <= j < |t| :: s[j] == t[j] && s[j] != c;
  }
}
