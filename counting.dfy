/**
 * Counting occurrences, as the experiment harnesses do with hash maps of counters, and the fact
 * that the counts add up to the number of elements counted.
 */
module Counting {

  /** How often `x` occurs in `s`. */
  function Occurrences<T(==)>(s: seq<T>, x: T): nat
  {
    if s == [] then 0
    else Occurrences(s[..|s| - 1], x) + if s[|s| - 1] == x then 1 else 0
  }

  /** No element occurs twice. */
  predicate Distinct<T(==)>(s: seq<T>) {
    forall i, j | 0 <= i < j < |s| :: s[i] != s[j]
  }

  /** The elements of a sequence. */
  function Elements<T>(s: seq<T>): set<T> {
    set k | 0 <= k < |s| :: s[k]
  }

  /**
   * Counting into a hash map: each element adds one to its entry, which starts from zero for a
   * key not seen before.
   */
  method Tally<T(==)>(drawn: seq<T>) returns (counts: map<T, nat>)
    ensures counts.Keys == Elements(drawn)
    ensures forall p | p in counts :: counts[p] == Occurrences(drawn, p) && counts[p] > 0
  {
    counts := map[];
    for i := 0 to |drawn|
      invariant counts.Keys == set k | 0 <= k < i :: drawn[k]
      invariant forall p | p in counts :: counts[p] == Occurrences(drawn[..i], p) && counts[p] > 0
      invariant forall p | p !in counts :: Occurrences(drawn[..i], p) == 0
    {
      assert drawn[..i + 1][..i] == drawn[..i];
      var key := drawn[i];
      var c := if key in counts then counts[key] else 0;
      counts := counts[key := c + 1];
    }
    assert drawn[..|drawn|] == drawn;
  }

  /** The sum over `keys` of their occurrences in `drawn`. */
  function SumOccurrences<T(==)>(keys: seq<T>, drawn: seq<T>): nat
  {
    if keys == [] then 0
    else SumOccurrences(keys[..|keys| - 1], drawn) + Occurrences(drawn, keys[|keys| - 1])
  }

  lemma {:induction false} OccurrencesAbsent<T>(s: seq<T>, x: T)
    requires forall k | 0 <= k < |s| :: s[k] != x
    ensures Occurrences(s, x) == 0
    decreases |s|
  {
    if s != [] {
      OccurrencesAbsent(s[..|s| - 1], x);
    }
  }

  /** An element of a sequence without repetitions occurs in it once. */
  lemma {:induction false} OccurrencesDistinct<T>(s: seq<T>, k: nat)
    requires Distinct(s) && k < |s|
    ensures Occurrences(s, s[k]) == 1
    decreases |s|
  {
    var init := s[..|s| - 1];
    if k == |s| - 1 {
      OccurrencesAbsent(init, s[k]);
    } else {
      OccurrencesDistinct(init, k);
    }
  }

  /** One more draw of `x` adds the occurrences of `x` among the keys. */
  lemma {:induction false} SumOccurrencesSnoc<T>(keys: seq<T>, d: seq<T>, x: T)
    ensures SumOccurrences(keys, d + [x]) == SumOccurrences(keys, d) + Occurrences(keys, x)
    decreases |keys|
  {
    if keys != [] {
      var init, last := keys[..|keys| - 1], keys[|keys| - 1];
      SumOccurrencesSnoc(init, d, x);
      assert (d + [x])[..|d|] == d;
    }
  }

  /**
   * The counts add up to the number of elements counted: summing the occurrences over keys
   * without repetitions that include every element gives the length.
   */
  lemma {:induction false} SumOfCounts<T>(keys: seq<T>, drawn: seq<T>)
    requires Distinct(keys)
    requires forall k | 0 <= k < |drawn| :: drawn[k] in keys
    ensures SumOccurrences(keys, drawn) == |drawn|
    decreases |drawn|
  {
    if drawn == [] {
      ZeroSum(keys, drawn);
    } else {
      var d, x := drawn[..|drawn| - 1], drawn[|drawn| - 1];
      SumOfCounts(keys, d);
      assert drawn == d + [x];
      SumOccurrencesSnoc(keys, d, x);
      var k :| 0 <= k < |keys| && keys[k] == x;
      OccurrencesDistinct(keys, k);
    }
  }

  lemma {:induction false} ZeroSum<T>(keys: seq<T>, drawn: seq<T>)
    requires drawn == []
    ensures SumOccurrences(keys, drawn) == 0
    decreases |keys|
  {
    if keys != [] {
      ZeroSum(keys[..|keys| - 1], drawn);
    }
  }

  /** An element repeated twice in a sequence without repetitions cannot be: each element has multiplicity one. */
  lemma {:induction false} DistinctMultiplicity<T>(s: seq<T>, x: T)
    requires Distinct(s)
    ensures multiset(s)[x] <= 1
    decreases |s|
  {
    if s != [] {
      var init := s[..|s| - 1];
      assert s == init + [s[|s| - 1]];
      DistinctMultiplicity(init, x);
      if s[|s| - 1] == x {
        assert x !in init by {
          forall k | 0 <= k < |init| ensures init[k] != x {
            assert s[k] != s[|s| - 1];
          }
        }
      }
    }
  }

  /** A permutation of a sequence without repetitions has none either. */
  lemma DistinctPermutation<T>(q: seq<T>, r: seq<T>)
    requires Distinct(q) && multiset(q) == multiset(r)
    ensures Distinct(r)
  {
    forall i, j | 0 <= i < j < |r| ensures r[i] != r[j] {
      if r[i] == r[j] {
        var x := r[i];
        assert r == r[..j] + [r[j]] + r[j + 1..];
        assert multiset(r) == multiset(r[..j]) + multiset{x} + multiset(r[j + 1..]);
        assert x in r[..j];
        DistinctMultiplicity(q, x);
        assert false;
      }
    }
  }

  /** Membership in a sequence is membership in its set of elements. */
  lemma ElementsIn<T>(q: seq<T>)
    ensures forall x :: x in q <==> x in Elements(q)
  {
    forall x | x in q ensures x in Elements(q) {
      var k :| 0 <= k < |q| && q[k] == x;
    }
  }

  /** One more element of a prefix adds that element to the prefix's elements. */
  lemma ElementsPrefixStep<T>(q: seq<T>, i: nat)
    requires i < |q|
    ensures Elements(q[..i + 1]) == Elements(q[..i]) + {q[i]}
  {
    assert q[..i + 1] == q[..i] + [q[i]];
    ElementsSnoc(q[..i], q[i]);
  }

  lemma ElementsSnoc<T>(q: seq<T>, x: T)
    ensures Elements(q + [x]) == Elements(q) + {x}
  {
    var r := q + [x];
    assert r[|q|] == x;
    forall y | y in Elements(q) ensures y in Elements(r) {
      var k :| 0 <= k < |q| && q[k] == y;
      assert r[k] == y;
    }
  }

  /** A sequence without repeats has as many elements as its set. */
  lemma {:induction false} DistinctCount<T>(q: seq<T>)
    requires Distinct(q)
    ensures |Elements(q)| == |q|
    decreases |q|
  {
    if q != [] {
      var init := q[..|q| - 1];
      var x := q[|q| - 1];
      assert q == init + [x];
      DistinctCount(init);
      ElementsSnoc(init, x);
      assert x !in Elements(init);
    }
  }

  /** Some element of a non-empty set: the next one a hash-set iteration visits. */
  method Pick<T>(s: set<T>) returns (x: T)
    requires s != {}
    ensures x in s
  {
    x :| x in s;
  }

  method Enumerate<T>(s: set<T>) returns (q: seq<T>)
    ensures Elements(q) == s && Distinct(q)
  {
    q := [];
    var todo := s;
    while todo != {}
      invariant Elements(q) + todo == s && Elements(q) !! todo
      invariant Distinct(q)
      decreases todo
    {
      var x :| x in todo;
      ElementsSnoc(q, x);
      q := q + [x];
      todo := todo - {x};
    }
  }
}
