/** Stable sorting by a comparison function, as `sort.SliceStable` does it: the
    function `Sort` is a reference definition, and `StableSortIsUnique` shows that
    every correct stable sort returns exactly its result. */
module StableSorting {
  import opened Sums

  ghost predicate StrictWeakOrder<T(!new)>(less: (T, T) -> bool)
  {
    && (forall x :: !less(x, x))
    && (forall x, y, z :: less(x, y) && less(y, z) ==> less(x, z))
    && (forall x, y, z :: !less(x, y) && !less(y, z) ==> !less(x, z))
  }

  predicate Tied<T>(less: (T, T) -> bool, x: T, y: T)
  {
    !less(x, y) && !less(y, x)
  }

  ghost predicate Sorted<T>(less: (T, T) -> bool, s: seq<T>)
  {
    forall i, j :: 0 <= i < j < |s| ==> !less(s[j], s[i])
  }

  /** The rows of `s` that tie with `x`, in the order `s` lists them. */
  function Class<T>(less: (T, T) -> bool, x: T, s: seq<T>): seq<T>
  {
    if s == [] then []
    else if Tied(less, x, s[0]) then [s[0]] + Class(less, x, s[1..])
    else Class(less, x, s[1..])
  }

  /** Rows tie only with rows they are equal to. */
  ghost predicate TiesAreEqual<T(!new)>(less: (T, T) -> bool, s: seq<T>)
  {
    forall x, y {:trigger Tied(less, x, y)} :: x in s && y in s && Tied(less, x, y) ==> x == y
  }

  lemma {:induction false} ClassAppend<T>(less: (T, T) -> bool, x: T, a: seq<T>, b: seq<T>)
    ensures Class(less, x, a + b) == Class(less, x, a) + Class(less, x, b)
  {
    if a == [] {
      assert a + b == b;
    } else {
      assert (a + b)[1..] == a[1..] + b;
      ClassAppend(less, x, a[1..], b);
    }
  }

  lemma {:induction false} ClassMembers<T(!new)>(less: (T, T) -> bool, x: T, s: seq<T>)
    ensures forall y :: y in Class(less, x, s) <==> y in s && Tied(less, x, y)
  {
    if s != [] {
      ClassMembers(less, x, s[1..]);
    }
  }

  /** The ties of a finer order, taken within the ties of a coarser one. */
  lemma {:induction false} ClassOfClass<T(!new)>(fine: (T, T) -> bool, coarse: (T, T) -> bool, x: T, s: seq<T>)
    requires forall y :: Tied(fine, x, y) ==> Tied(coarse, x, y)
    ensures Class(fine, x, Class(coarse, x, s)) == Class(fine, x, s)
  {
    if s != [] {
      ClassOfClass(fine, coarse, x, s[1..]);
    }
  }

  function Insert<T>(less: (T, T) -> bool, x: T, s: seq<T>): (r: seq<T>)
    ensures multiset(r) == multiset{x} + multiset(s)
  {
    if s == [] then [x]
    else if less(s[0], x) then
      assert s == [s[0]] + s[1..];
      [s[0]] + Insert(less, x, s[1..])
    else [x] + s
  }

  function Sort<T>(less: (T, T) -> bool, s: seq<T>): (r: seq<T>)
    ensures multiset(r) == multiset(s)
  {
    if s == [] then []
    else
      assert s == [s[0]] + s[1..];
      Insert(less, s[0], Sort(less, s[1..]))
  }

  lemma {:induction false} InsertKeepsSorted<T(!new)>(less: (T, T) -> bool, x: T, s: seq<T>)
    requires StrictWeakOrder(less) && Sorted(less, s)
    ensures Sorted(less, Insert(less, x, s))
  {
    if s != [] {
      if less(s[0], x) {
        InsertKeepsSorted(less, x, s[1..]);
        var r := Insert(less, x, s[1..]);
        forall k | 0 <= k < |r| ensures !less(r[k], s[0]) {
          assert r[k] in multiset{x} + multiset(s[1..]);
          if r[k] in s[1..] {
            var m :| 0 <= m < |s[1..]| && s[1..][m] == r[k];
            assert s[m + 1] == r[k];
          }
        }
      } else {
        forall k | 0 <= k < |s| ensures !less(s[k], x) {
          assert !less(s[k], s[0]);
        }
      }
    }
  }

  lemma {:induction false} SortIsSorted<T(!new)>(less: (T, T) -> bool, s: seq<T>)
    requires StrictWeakOrder(less)
    ensures Sorted(less, Sort(less, s))
  {
    if s != [] {
      SortIsSorted(less, s[1..]);
      InsertKeepsSorted(less, s[0], Sort(less, s[1..]));
    }
  }

  lemma OrderedNeverBothTie<T(!new)>(less: (T, T) -> bool, k: T, x: T, y: T)
    requires StrictWeakOrder(less) && less(x, y)
    ensures !(Tied(less, k, x) && Tied(less, k, y))
  {
  }

  lemma {:induction false} InsertIsStable<T(!new)>(less: (T, T) -> bool, x: T, s: seq<T>, k: T)
    requires StrictWeakOrder(less)
    ensures Class(less, k, Insert(less, x, s)) == Class(less, k, [x] + s)
  {
    if s != [] && less(s[0], x) {
      InsertIsStable(less, x, s[1..], k);
      assert ([x] + s)[1..] == s;
      assert ([x] + s[1..])[1..] == s[1..];
      OrderedNeverBothTie(less, k, s[0], x);
    }
  }

  /** Rows that tie keep the order they came in. */
  lemma {:induction false} SortIsStable<T(!new)>(less: (T, T) -> bool, s: seq<T>, k: T)
    requires StrictWeakOrder(less)
    ensures Class(less, k, Sort(less, s)) == Class(less, k, s)
  {
    if s != [] {
      SortIsStable(less, s[1..], k);
      InsertIsStable(less, s[0], Sort(less, s[1..]), k);
      assert ([s[0]] + Sort(less, s[1..]))[1..] == Sort(less, s[1..]);
    }
  }

  lemma HeadsTie<T(!new)>(less: (T, T) -> bool, s: seq<T>, t: seq<T>)
    requires s != [] && t != [] && Sorted(less, s) && Sorted(less, t)
    requires s[0] in t && t[0] in s && !less(s[0], s[0]) && !less(t[0], t[0])
    ensures Tied(less, s[0], t[0])
  {
    var m :| 0 <= m < |t| && t[m] == s[0];
    var n :| 0 <= n < |s| && s[n] == t[0];
    assert m == 0 || !less(t[m], t[0]);
    assert n == 0 || !less(s[n], s[0]);
  }

  lemma ClassOfHead<T(!new)>(less: (T, T) -> bool, s: seq<T>)
    requires s != [] && !less(s[0], s[0])
    ensures Class(less, s[0], s) != [] && Class(less, s[0], s)[0] == s[0]
  {
  }

  lemma SameClassesSameHead<T(!new)>(less: (T, T) -> bool, s: seq<T>, t: seq<T>)
    requires s != [] && Sorted(less, s) && Sorted(less, t)
    requires forall x :: !less(x, x)
    requires forall x :: Class(less, x, s) == Class(less, x, t)
    ensures t != [] && s[0] == t[0]
  {
    ClassMembers(less, s[0], s);
    assert s[0] in Class(less, s[0], t);
    ClassMembers(less, s[0], t);
    ClassMembers(less, t[0], t);
    assert t[0] in Class(less, t[0], s);
    ClassMembers(less, t[0], s);
    HeadsTie(less, s, t);
    assert Class(less, s[0], s)[0] == s[0];
    assert Class(less, s[0], t)[0] == t[0];
  }

  /** Two sorted arrangements that list every tie class alike are the same. */
  lemma {:induction false} SortedByClassesIsUnique<T(!new)>(less: (T, T) -> bool, s: seq<T>, t: seq<T>)
    requires Sorted(less, s) && Sorted(less, t)
    requires forall x :: !less(x, x)
    requires forall x :: Class(less, x, s) == Class(less, x, t)
    ensures s == t
  {
    if s == [] {
      if t != [] {
        ClassOfHead(less, t);
        assert false;
      }
    } else {
      SameClassesSameHead(less, s, t);
      assert s == [s[0]] + s[1..] && t == [s[0]] + t[1..];
      forall x ensures Class(less, x, s[1..]) == Class(less, x, t[1..]) {
        assert Class(less, x, s) == Class(less, x, t);
        var head := Class(less, x, [s[0]]);
        ClassAppend(less, x, [s[0]], s[1..]);
        ClassAppend(less, x, [s[0]], t[1..]);
        assert Class(less, x, s[1..]) == Class(less, x, s)[|head|..];
        assert Class(less, x, t[1..]) == Class(less, x, t)[|head|..];
      }
      SortedByClassesIsUnique(less, s[1..], t[1..]);
    }
  }

  /** Any algorithm that returns `t` sorted, with every tie class in its original
      order, has returned `Sort(less, s)`. */
  lemma StableSortIsUnique<T(!new)>(less: (T, T) -> bool, s: seq<T>, t: seq<T>)
    requires StrictWeakOrder(less) && Sorted(less, t)
    requires forall x :: Class(less, x, t) == Class(less, x, s)
    ensures t == Sort(less, s)
  {
    SortIsSorted(less, s);
    forall x ensures Class(less, x, Sort(less, s)) == Class(less, x, t) {
      SortIsStable(less, s, x);
    }
    SortedByClassesIsUnique(less, t, Sort(less, s));
  }

  /** Rows that `outer` ties stand in an order that `inner` allows. */
  ghost predicate InnerSorted<T>(outer: (T, T) -> bool, inner: (T, T) -> bool, s: seq<T>)
  {
    forall i, j :: 0 <= i < j < |s| && Tied(outer, s[i], s[j]) ==> !inner(s[j], s[i])
  }

  lemma {:induction false} InsertKeepsInnerOrder<T(!new)>(
      outer: (T, T) -> bool, inner: (T, T) -> bool, x: T, s: seq<T>)
    requires InnerSorted(outer, inner, s)
    requires forall y :: y in s ==> !inner(y, x)
    ensures InnerSorted(outer, inner, Insert(outer, x, s))
  {
    if s != [] && outer(s[0], x) {
      var rest := Insert(outer, x, s[1..]);
      InsertKeepsInnerOrder(outer, inner, x, s[1..]);
      forall k | 0 <= k < |rest| && Tied(outer, s[0], rest[k]) ensures !inner(rest[k], s[0]) {
        assert rest[k] in multiset{x} + multiset(s[1..]);
        if rest[k] != x {
          var m :| 0 <= m < |s[1..]| && s[1..][m] == rest[k];
          assert s[m + 1] == rest[k];
        }
      }
    } else {
      forall k | 0 <= k < |s| ensures !inner(s[k], x) {
      }
    }
  }

  /** A stable sort of rows that arrive sorted by `inner` leaves its ties sorted by `inner`. */
  lemma {:induction false} SortKeepsInnerOrder<T(!new)>(outer: (T, T) -> bool, inner: (T, T) -> bool, s: seq<T>)
    requires Sorted(inner, s)
    ensures InnerSorted(outer, inner, Sort(outer, s))
  {
    if s != [] {
      var rest := Sort(outer, s[1..]);
      SortKeepsInnerOrder(outer, inner, s[1..]);
      forall y | y in rest ensures !inner(y, s[0]) {
        assert y in multiset(rest);
        var m :| 0 <= m < |s[1..]| && s[1..][m] == y;
        assert s[m + 1] == y;
      }
      InsertKeepsInnerOrder(outer, inner, s[0], rest);
    }
  }

  /** How many rows of `s` come strictly before `x`. */
  function Before<T>(less: (T, T) -> bool, x: T, s: seq<T>): (n: nat)
    ensures n <= |s|
  {
    if s == [] then 0 else (if less(s[0], x) then 1 else 0) + Before(less, x, s[1..])
  }

  lemma {:induction false} BeforeAppend<T>(less: (T, T) -> bool, x: T, a: seq<T>, b: seq<T>)
    ensures Before(less, x, a + b) == Before(less, x, a) + Before(less, x, b)
  {
    if a == [] {
      assert a + b == b;
    } else {
      assert (a + b)[1..] == a[1..] + b;
      BeforeAppend(less, x, a[1..], b);
    }
  }

  lemma {:induction false} BeforePermutation<T>(less: (T, T) -> bool, x: T, a: seq<T>, b: seq<T>)
    requires multiset(a) == multiset(b)
    ensures Before(less, x, a) == Before(less, x, b)
  {
    if a == [] {
      assert |multiset(b)| == 0;
    } else {
      var k := FindHead(a, b);
      BeforePermutation(less, x, a[1..], b[..k] + b[k + 1..]);
      BeforeAppend(less, x, b[..k], b[k + 1..]);
      BeforeAppend(less, x, b[..k], [a[0]] + b[k + 1..]);
      BeforeAppend(less, x, [a[0]], b[k + 1..]);
      assert a == [a[0]] + a[1..];
    }
  }

  lemma {:induction false} AllBefore<T>(less: (T, T) -> bool, x: T, s: seq<T>)
    ensures (forall i :: 0 <= i < |s| ==> less(s[i], x)) ==> Before(less, x, s) == |s|
    ensures (forall i :: 0 <= i < |s| ==> !less(s[i], x)) ==> Before(less, x, s) == 0
  {
    if s != [] {
      AllBefore(less, x, s[1..]);
    }
  }

  lemma NotEarlierThanItsPlace<T(!new)>(less: (T, T) -> bool, s: seq<T>, t: seq<T>, i: nat)
    requires StrictWeakOrder(less) && Sorted(less, s) && Sorted(less, t)
    requires multiset(s) == multiset(t) && i < |s| && i < |t|
    ensures !less(s[i], t[i])
  {
    if less(s[i], t[i]) {
      hide Before;
      forall k | 0 <= k <= i ensures less(s[k], t[i]) {
        assert k == i || !less(s[i], s[k]);
      }
      AtLeastBefore(less, t[i], s, i + 1);
      AtMostBefore(less, t[i], t, i);
      BeforePermutation(less, t[i], s, t);
      assert false;
    }
  }

  lemma AtLeastBefore<T>(less: (T, T) -> bool, x: T, s: seq<T>, n: nat)
    requires n <= |s| && forall k :: 0 <= k < n ==> less(s[k], x)
    ensures Before(less, x, s) >= n
  {
    AllBefore(less, x, s[..n]);
    BeforeAppend(less, x, s[..n], s[n..]);
    assert s == s[..n] + s[n..];
  }

  lemma AtMostBefore<T>(less: (T, T) -> bool, x: T, s: seq<T>, n: nat)
    requires n <= |s| && forall k :: n <= k < |s| ==> !less(s[k], x)
    ensures Before(less, x, s) <= n
  {
    AllBefore(less, x, s[n..]);
    BeforeAppend(less, x, s[..n], s[n..]);
    assert s == s[..n] + s[n..];
  }

  /** Two sorted arrangements of the same rows tie position by position. */
  lemma SortedPermutationsTiePointwise<T(!new)>(less: (T, T) -> bool, s: seq<T>, t: seq<T>)
    requires StrictWeakOrder(less) && Sorted(less, s) && Sorted(less, t)
    requires multiset(s) == multiset(t)
    ensures |s| == |t|
    ensures forall i :: 0 <= i < |s| ==> Tied(less, s[i], t[i])
  {
    assert |s| == |multiset(s)| == |multiset(t)| == |t|;
    forall i | 0 <= i < |s| ensures Tied(less, s[i], t[i]) {
      NotEarlierThanItsPlace(less, s, t, i);
      NotEarlierThanItsPlace(less, t, s, i);
    }
  }

  /** When rows tie only if they are equal, the multiset fixes the sorted order. */
  lemma SortedPermutationIsUnique<T(!new)>(less: (T, T) -> bool, s: seq<T>, t: seq<T>)
    requires StrictWeakOrder(less) && Sorted(less, s) && Sorted(less, t)
    requires multiset(s) == multiset(t) && TiesAreEqual(less, s)
    ensures s == t
  {
    SortedPermutationsTiePointwise(less, s, t);
    forall i | 0 <= i < |s| ensures s[i] == t[i] {
      assert t[i] in multiset(t);
    }
  }

  /** The rows with the ones at `i` and `j` exchanged. */
  function Swap<T>(s: seq<T>, i: nat, j: nat): (r: seq<T>)
    requires i < j < |s|
  {
    s[..i] + [s[j]] + s[i + 1..j] + [s[i]] + s[j + 1..]
  }

  lemma SwapIsPermutation<T>(s: seq<T>, i: nat, j: nat)
    requires i < j < |s|
    ensures multiset(Swap(s, i, j)) == multiset(s)
  {
    assert s == s[..i] + [s[i]] + s[i + 1..j] + [s[j]] + s[j + 1..];
  }

  lemma ClassSplit<T(!new)>(less: (T, T) -> bool, x: T, a: seq<T>, y: T, b: seq<T>)
    requires Tied(less, x, y)
    ensures Class(less, x, a + [y] + b) == Class(less, x, a) + [y] + Class(less, x, b)
  {
    ClassAppend(less, x, a + [y], b);
    ClassAppend(less, x, a, [y]);
  }

  lemma SwapChangesClass<T(!new)>(less: (T, T) -> bool, s: seq<T>, i: nat, j: nat)
    requires i < j < |s| && Tied(less, s[i], s[i])
    requires Tied(less, s[i], s[j]) && s[i] != s[j]
    ensures Class(less, s[i], Swap(s, i, j)) != Class(less, s[i], s)
  {
    var x, rest, rest' := s[i], s[i + 1..], s[i + 1..j] + [s[i]] + s[j + 1..];
    assert s == s[..i] + [s[i]] + rest;
    assert Swap(s, i, j) == s[..i] + [s[j]] + rest';
    ClassSplit(less, x, s[..i], s[i], rest);
    ClassSplit(less, x, s[..i], s[j], rest');
    var m := |Class(less, x, s[..i])|;
    assert Class(less, x, s)[m] == s[i] && Class(less, x, Swap(s, i, j))[m] == s[j];
  }

  /** Exchanging two different rows that tie changes what the stable sort returns. */
  lemma SwappedTieChangesSort<T(!new)>(less: (T, T) -> bool, s: seq<T>, i: nat, j: nat)
    requires StrictWeakOrder(less) && i < j < |s|
    requires Tied(less, s[i], s[j]) && s[i] != s[j]
    ensures Sort(less, Swap(s, i, j)) != Sort(less, s)
  {
    SwapChangesClass(less, s, i, j);
    SortIsStable(less, s, s[i]);
    SortIsStable(less, Swap(s, i, j), s[i]);
  }

  lemma UntiedSortAgrees<T(!new)>(less: (T, T) -> bool, s: seq<T>, p: seq<T>)
    requires StrictWeakOrder(less) && TiesAreEqual(less, s) && multiset(p) == multiset(s)
    ensures Sort(less, p) == Sort(less, s)
  {
    SortIsSorted(less, p);
    SortIsSorted(less, s);
    forall x ensures x in Sort(less, s) <==> x in s {
      assert x in multiset(Sort(less, s)) <==> x in multiset(s);
    }
    SortedPermutationIsUnique(less, Sort(less, s), Sort(less, p));
  }

  lemma TiedSortDiffers<T(!new)>(less: (T, T) -> bool, s: seq<T>) returns (p: seq<T>)
    requires StrictWeakOrder(less) && !TiesAreEqual(less, s)
    ensures multiset(p) == multiset(s) && Sort(less, p) != Sort(less, s)
  {
    hide StrictWeakOrder, Sort;
    var x, y :| x in s && y in s && Tied(less, x, y) && x != y;
    var i :| 0 <= i < |s| && s[i] == x;
    var j :| 0 <= j < |s| && s[j] == y;
    var lo, hi := if i < j then i else j, if i < j then j else i;
    SwapIsPermutation(s, lo, hi);
    SwappedTieChangesSort(less, s, lo, hi);
    p := Swap(s, lo, hi);
  }

  /** The stable sort is independent of the order it is handed its rows in exactly
      when no two different rows tie. */
  lemma OrderIndependentIffNoTies<T(!new)>(less: (T, T) -> bool, s: seq<T>)
    requires StrictWeakOrder(less)
    ensures (forall p :: multiset(p) == multiset(s) ==> Sort(less, p) == Sort(less, s))
       <==> TiesAreEqual(less, s)
  {
    hide StrictWeakOrder, Sort, TiesAreEqual;
    if TiesAreEqual(less, s) {
      forall p | multiset(p) == multiset(s) ensures Sort(less, p) == Sort(less, s) {
        UntiedSortAgrees(less, s, p);
      }
    } else {
      var p := TiedSortDiffers(less, s);
    }
  }
}
