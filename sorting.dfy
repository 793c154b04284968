/** Python's `list.sort(key=..., reverse=...)` and `list.reverse()` as
    functions on sequences. A sort key together with its direction is
    given as a strict "comes before" relation `less`; the sort is a stable
    insertion sort, so elements that neither comes before keep their
    input order, as Python's sort promises (also with `reverse=True`). */
module Sorting {

  /** `less` is a strict weak order: irreflexive, transitive, and "neither
      comes before the other" is transitive too. Every key-based order
      used by the model is one. */
  ghost predicate StrictWeakOrder<T(!new)>(less: (T, T) -> bool) {
    && (forall a :: !less(a, a))
    && (forall a, b, c :: less(a, b) && less(b, c) ==> less(a, c))
    && (forall a, b, c :: !less(a, b) && !less(b, c) ==> !less(a, c))
  }

  /** No element comes before an element to its left. */
  ghost predicate Sorted<T>(s: seq<T>, less: (T, T) -> bool) {
    forall i, j :: 0 <= i < j < |s| ==> !less(s[j], s[i])
  }

  /** Neither of `a`, `b` comes before the other: a tie under the key. */
  predicate Tied<T>(a: T, b: T, less: (T, T) -> bool) {
    !less(a, b) && !less(b, a)
  }

  /** The elements of `s` tied with `x`, in the order they occur in `s`. */
  ghost function TiedWith<T>(s: seq<T>, x: T, less: (T, T) -> bool): seq<T> {
    if s == [] then []
    else (if Tied(s[0], x, less) then [s[0]] else []) + TiedWith(s[1..], x, less)
  }

  /** Puts `x` in front of the first element of `s` that does not come before it. */
  function Insert<T>(x: T, s: seq<T>, less: (T, T) -> bool): (r: seq<T>)
    ensures multiset(r) == multiset(s) + multiset{x}
  {
    if s == [] || !less(s[0], x) then [x] + s
    else
      assert s == [s[0]] + s[1..];
      [s[0]] + Insert(x, s[1..], less)
  }

  /** Stable sort of `s`. */
  function Sort<T>(s: seq<T>, less: (T, T) -> bool): (r: seq<T>)
    ensures multiset(r) == multiset(s)
    ensures |r| == |s|
  {
    if s == [] then []
    else
      assert s == [s[0]] + s[1..];
      Insert(s[0], Sort(s[1..], less), less)
  }

  /** `x` moves past a first element that comes before it. */
  lemma InsertPast<T>(x: T, y: T, t: seq<T>, less: (T, T) -> bool)
    requires less(y, x)
    ensures Insert(x, [y] + t, less) == [y] + Insert(x, t, less)
  {
    assert ([y] + t)[0] == y && ([y] + t)[1..] == t;
  }

  lemma SortCons<T>(x: T, t: seq<T>, less: (T, T) -> bool)
    ensures Sort([x] + t, less) == Insert(x, Sort(t, less), less)
  {
    assert ([x] + t)[0] == x && ([x] + t)[1..] == t;
  }

  /** `list.reverse()`. */
  function Reverse<T>(s: seq<T>): (r: seq<T>)
    ensures |r| == |s|
    ensures forall i :: 0 <= i < |s| ==> r[i] == s[|s| - 1 - i]
  {
    if s == [] then [] else [s[|s| - 1]] + Reverse(s[..|s| - 1])
  }

  lemma {:induction false} InsertSorted<T(!new)>(x: T, s: seq<T>, less: (T, T) -> bool)
    requires StrictWeakOrder(less) && Sorted(s, less)
    ensures Sorted(Insert(x, s, less), less)
  {
    if s == [] || !less(s[0], x) {
    } else {
      var t := Insert(x, s[1..], less);
      InsertSorted(x, s[1..], less);
      assert Insert(x, s, less) == [s[0]] + t;
      forall j | 0 <= j < |t| ensures !less(t[j], s[0]) {
        assert t[j] in multiset(t);
        assert t[j] == x || t[j] in s[1..];
      }
    }
  }

  lemma {:induction false} SortSorted<T(!new)>(s: seq<T>, less: (T, T) -> bool)
    requires StrictWeakOrder(less)
    ensures Sorted(Sort(s, less), less)
  {
    if s != [] {
      SortSorted(s[1..], less);
      InsertSorted(s[0], Sort(s[1..], less), less);
    }
  }

  lemma {:induction false} InsertTiedWith<T(!new)>(y: T, t: seq<T>, x: T, less: (T, T) -> bool)
    requires StrictWeakOrder(less)
    ensures TiedWith(Insert(y, t, less), x, less)
         == (if Tied(y, x, less) then [y] else []) + TiedWith(t, x, less)
  {
    var r := Insert(y, t, less);
    if t == [] || !less(t[0], y) {
      assert r == [y] + t;
      assert r[1..] == t;
    } else {
      var r' := Insert(y, t[1..], less);
      assert r == [t[0]] + r';
      assert r[1..] == r';
      InsertTiedWith(y, t[1..], x, less);
      // t[0] comes before y, so y and t[0] cannot both be tied with x
      assert !(Tied(y, x, less) && Tied(t[0], x, less));
      assert TiedWith(r, x, less)
          == (if Tied(t[0], x, less) then [t[0]] else []) + TiedWith(r', x, less);
      assert TiedWith(t, x, less)
          == (if Tied(t[0], x, less) then [t[0]] else []) + TiedWith(t[1..], x, less);
    }
  }

  /** Stability: the elements tied with any `x` keep their relative order. */
  lemma {:induction false} SortStable<T(!new)>(s: seq<T>, x: T, less: (T, T) -> bool)
    requires StrictWeakOrder(less)
    ensures TiedWith(Sort(s, less), x, less) == TiedWith(s, x, less)
  {
    if s != [] {
      SortStable(s[1..], x, less);
      InsertTiedWith(s[0], Sort(s[1..], less), x, less);
    }
  }

  /** A reversed sorted sequence is sorted the other way round. */
  lemma ReverseOfSorted<T>(s: seq<T>, less: (T, T) -> bool)
    requires Sorted(s, less)
    ensures forall i, j :: 0 <= i < j < |s| ==> !less(Reverse(s)[i], Reverse(s)[j])
  {
  }

  lemma {:induction false} ReversePermutes<T>(s: seq<T>)
    ensures multiset(Reverse(s)) == multiset(s)
  {
    if s != [] {
      ReversePermutes(s[..|s| - 1]);
      assert s == s[..|s| - 1] + [s[|s| - 1]];
    }
  }
}
