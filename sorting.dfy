/**
 * Stable sorting by a comparator: Rust's `slice::sort_by` and Python's `list.sort`, both of which
 * keep elements the comparator deems equal in their original order.
 */
module Sorting {

  /** `le` is a total preorder: any two elements compare, and comparison is transitive. */
  ghost predicate TotalPreorder<T(!new)>(le: (T, T) -> bool) {
    && (forall a, b :: le(a, b) || le(b, a))
    && (forall a, b, c :: le(a, b) && le(b, c) ==> le(a, c))
  }

  /** Every element is `le` every later element. */
  ghost predicate SortedBy<T>(s: seq<T>, le: (T, T) -> bool) {
    forall i, j | 0 <= i < j < |s| :: le(s[i], s[j])
  }

  /**
   * `x` inserted into sorted `t` in front of the first element it is `le`: in front of its
   * equals, and after every element it is not `le`.
   */
  function Insert<T(!new)>(x: T, t: seq<T>, le: (T, T) -> bool): (r: seq<T>)
    requires TotalPreorder(le) && SortedBy(t, le)
    ensures multiset(r) == multiset(t) + multiset{x}
    ensures SortedBy(r, le)
  {
    if t == [] || le(x, t[0]) then
      InsertFront(x, t, le);
      [x] + t
    else
      var rest := Insert(x, t[1..], le);
      InsertBehind(x, t, rest, le);
      [t[0]] + rest
  }

  /** An element `le` the head of a sorted sequence can go in front of it. */
  lemma InsertFront<T(!new)>(x: T, t: seq<T>, le: (T, T) -> bool)
    requires TotalPreorder(le) && SortedBy(t, le) && (t == [] || le(x, t[0]))
    ensures SortedBy([x] + t, le)
  {
    var s := [x] + t;
    forall i, j | 0 <= i < j < |s| ensures le(s[i], s[j]) {
      if i == 0 && j > 1 {
        assert le(t[0], t[j - 1]);
      }
    }
  }

  /** The head of a sorted sequence goes in front of any sorted arrangement of its tail and an element it is `le`. */
  lemma InsertBehind<T(!new)>(x: T, t: seq<T>, rest: seq<T>, le: (T, T) -> bool)
    requires TotalPreorder(le) && SortedBy(t, le) && t != [] && !le(x, t[0])
    requires SortedBy(rest, le) && multiset(rest) == multiset(t[1..]) + multiset{x}
    ensures SortedBy([t[0]] + rest, le)
    ensures multiset([t[0]] + rest) == multiset(t) + multiset{x}
  {
    assert t == [t[0]] + t[1..];
    var s := [t[0]] + rest;
    forall i, j | 0 <= i < j < |s| ensures le(s[i], s[j]) {
      if i == 0 {
        var y := rest[j - 1];
        assert y in multiset(rest);
        if y != x {
          assert y in multiset(t[1..]);
          var k :| 0 <= k < |t[1..]| && t[1..][k] == y;
          assert t[k + 1] == y;
        }
      }
    }
  }

  /**
   * The stable sort of `s`: elements are inserted last to first, each one in front of the
   * elements it is equivalent to, so equivalent elements keep their input order.
   */
  function SortBy<T(!new)>(s: seq<T>, le: (T, T) -> bool): (r: seq<T>)
    requires TotalPreorder(le)
    ensures multiset(r) == multiset(s)
    ensures SortedBy(r, le)
  {
    if s == [] then []
    else
      assert s == [s[0]] + s[1..];
      Insert(s[0], SortBy(s[1..], le), le)
  }

  /** `a` and `b` compare equal: each is `le` the other. */
  predicate Equivalent<T>(a: T, b: T, le: (T, T) -> bool) {
    le(a, b) && le(b, a)
  }

  /** The elements of `s` equivalent to `z`, in their order in `s`. */
  function Equivalents<T>(s: seq<T>, z: T, le: (T, T) -> bool): seq<T>
  {
    if s == [] then []
    else (if Equivalent(s[0], z, le) then [s[0]] else []) + Equivalents(s[1..], z, le)
  }

  /** Inserting `x` puts it in front of every element equivalent to it and leaves the others' order alone. */
  lemma {:induction false} InsertStable<T(!new)>(x: T, t: seq<T>, z: T, le: (T, T) -> bool)
    requires TotalPreorder(le) && SortedBy(t, le)
    ensures Equivalents(Insert(x, t, le), z, le)
            == (if Equivalent(x, z, le) then [x] else []) + Equivalents(t, z, le)
    decreases |t|
  {
    var ex := if Equivalent(x, z, le) then [x] else [];
    if t == [] || le(x, t[0]) {
      assert Insert(x, t, le) == [x] + t;
      EquivalentsCons(x, t, z, le);
    } else {
      var rest := Insert(x, t[1..], le);
      var e0 := if Equivalent(t[0], z, le) then [t[0]] else [];
      var tail := Equivalents(t[1..], z, le);
      InsertCons(x, t, le);
      InsertStable(x, t[1..], z, le);
      EquivalentsCons(t[0], rest, z, le);
      NotBothEquivalent(x, t[0], z, le);
      calc {
        Equivalents(Insert(x, t, le), z, le);
        Equivalents([t[0]] + rest, z, le);
        e0 + Equivalents(rest, z, le);
        e0 + (ex + tail);
        { SwapEmpty(e0, ex, tail); }
        ex + (e0 + tail);
        ex + Equivalents(t, z, le);
      }
    }
  }

  /** Behind a head it is not `le`, `x` is inserted into the tail. */
  lemma InsertCons<T(!new)>(x: T, t: seq<T>, le: (T, T) -> bool)
    requires TotalPreorder(le) && SortedBy(t, le) && t != [] && !le(x, t[0])
    ensures Insert(x, t, le) == [t[0]] + Insert(x, t[1..], le)
  {
  }

  /** The equivalents of a sequence with a head are the head's, then the tail's. */
  lemma EquivalentsCons<T>(a: T, rest: seq<T>, z: T, le: (T, T) -> bool)
    ensures Equivalents([a] + rest, z, le) == (if Equivalent(a, z, le) then [a] else []) + Equivalents(rest, z, le)
  {
    assert ([a] + rest)[1..] == rest;
  }

  /** In front of `c`, the order of `a` and `b` does not matter when one of them is empty. */
  lemma SwapEmpty<T>(a: seq<T>, b: seq<T>, c: seq<T>)
    requires a == [] || b == []
    ensures a + (b + c) == b + (a + c)
  {
    if a == [] {
      assert b + (a + c) == b + c;
    } else {
      assert a + (b + c) == a + c;
    }
  }

  /** Of two elements where the first is not `le` the second, at most one is equivalent to any z. */
  lemma NotBothEquivalent<T(!new)>(x: T, y: T, z: T, le: (T, T) -> bool)
    requires TotalPreorder(le) && !le(x, y)
    ensures !(Equivalent(x, z, le) && Equivalent(y, z, le))
  {
  }

  /**
   * The sort is stable: for every z, the elements equivalent to z appear in the result in the
   * same order as in the input.
   */
  lemma {:induction false} SortByStable<T(!new)>(s: seq<T>, z: T, le: (T, T) -> bool)
    requires TotalPreorder(le)
    ensures Equivalents(SortBy(s, le), z, le) == Equivalents(s, z, le)
    decreases |s|
  {
    if s != [] {
      SortByStable(s[1..], z, le);
      InsertStable(s[0], SortBy(s[1..], le), z, le);
    }
  }

  /** Sorting keeps the number of elements. */
  lemma SortByLength<T(!new)>(s: seq<T>, le: (T, T) -> bool)
    requires TotalPreorder(le)
    ensures |SortBy(s, le)| == |s|
  {
    var r := SortBy(s, le);
    assert |multiset(r)| == |multiset(s)|;
  }
}
