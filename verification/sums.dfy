/** Sums over sequences of rows, and the fact the whole project leans on: a sum
    depends on the rows it covers and not on their order. */
module Sums {
  function SumInt<T>(f: T -> int, s: seq<T>): int
  {
    if s == [] then 0 else f(s[0]) + SumInt(f, s[1..])
  }

  function SumReal<T>(f: T -> real, s: seq<T>): real
  {
    if s == [] then 0.0 else f(s[0]) + SumReal(f, s[1..])
  }

  /** The elements that satisfy `keep`, in order. */
  function Filter<T(!new)>(keep: T -> bool, s: seq<T>): (r: seq<T>)
    ensures forall x :: x in r <==> x in s && keep(x)
  {
    if s == [] then []
    else if keep(s[0]) then [s[0]] + Filter(keep, s[1..])
    else Filter(keep, s[1..])
  }

  lemma {:induction false} SumIntAppend<T>(f: T -> int, a: seq<T>, b: seq<T>)
    ensures SumInt(f, a + b) == SumInt(f, a) + SumInt(f, b)
  {
    if a == [] {
      assert a + b == b;
    } else {
      assert (a + b)[1..] == a[1..] + b;
      SumIntAppend(f, a[1..], b);
    }
  }

  lemma {:induction false} SumRealAppend<T>(f: T -> real, a: seq<T>, b: seq<T>)
    ensures SumReal(f, a + b) == SumReal(f, a) + SumReal(f, b)
  {
    if a == [] {
      assert a + b == b;
    } else {
      assert (a + b)[1..] == a[1..] + b;
      SumRealAppend(f, a[1..], b);
    }
  }

  lemma {:induction false} FilterAppend<T(!new)>(keep: T -> bool, a: seq<T>, b: seq<T>)
    ensures Filter(keep, a + b) == Filter(keep, a) + Filter(keep, b)
  {
    if a == [] {
      assert a + b == b;
    } else {
      assert (a + b)[1..] == a[1..] + b;
      FilterAppend(keep, a[1..], b);
    }
  }

  lemma {:induction false} FilterKeepsAll<T(!new)>(keep: T -> bool, s: seq<T>)
    requires forall x :: x in s ==> keep(x)
    ensures Filter(keep, s) == s
  {
    if s != [] {
      assert s[0] in s;
      FilterKeepsAll(keep, s[1..]);
    }
  }

  lemma {:induction false} FilterAgrees<T(!new)>(f: T -> bool, g: T -> bool, s: seq<T>)
    requires forall x :: x in s ==> f(x) == g(x)
    ensures Filter(f, s) == Filter(g, s)
  {
    if s != [] {
      assert s[0] in s;
      FilterAgrees(f, g, s[1..]);
    }
  }

  lemma {:induction false} SumIntAgrees<T>(f: T -> int, g: T -> int, s: seq<T>)
    requires forall x :: x in s ==> f(x) == g(x)
    ensures SumInt(f, s) == SumInt(g, s)
  {
    if s != [] {
      assert s[0] in s;
      SumIntAgrees(f, g, s[1..]);
    }
  }

  lemma {:induction false} SumRealAgrees<T>(f: T -> real, g: T -> real, s: seq<T>)
    requires forall x :: x in s ==> f(x) == g(x)
    ensures SumReal(f, s) == SumReal(g, s)
  {
    if s != [] {
      assert s[0] in s;
      SumRealAgrees(f, g, s[1..]);
    }
  }

  /** Adding up ones is counting. */
  lemma {:induction false} SumOfOnes<T(!new)>(f: T -> int, holds: T -> bool, s: seq<T>)
    requires forall x :: x in s ==> f(x) == if holds(x) then 1 else 0
    ensures SumInt(f, s) == |Filter(holds, s)|
  {
    if s != [] {
      SumOfOnes(f, holds, s[1..]);
      assert s[0] in s;
    }
  }

  lemma SumIntStep<T>(f: T -> int, s: seq<T>, x: T)
    ensures SumInt(f, s + [x]) == SumInt(f, s) + f(x)
  {
    SumIntAppend(f, s, [x]);
  }

  lemma SumRealHead<T>(f: T -> real, s: seq<T>)
    requires s != []
    ensures SumReal(f, s) == f(s[0]) + SumReal(f, s[1..])
  {
  }

  lemma SumRealStep<T>(f: T -> real, s: seq<T>, x: T)
    ensures SumReal(f, s + [x]) == SumReal(f, s) + f(x)
  {
    SumRealAppend(f, s, [x]);
    assert [x][1..] == [];
  }

  lemma FilterStep<T(!new)>(keep: T -> bool, s: seq<T>, x: T)
    ensures Filter(keep, s + [x]) == if keep(x) then Filter(keep, s) + [x] else Filter(keep, s)
  {
    FilterAppend(keep, s, [x]);
  }

  /** Where a permutation `b` of `a` keeps the first element of `a`. */
  lemma FindHead<T>(a: seq<T>, b: seq<T>) returns (k: nat)
    requires a != [] && multiset(a) == multiset(b)
    ensures k < |b| && b[k] == a[0] && b == b[..k] + ([a[0]] + b[k + 1..])
    ensures multiset(a[1..]) == multiset(b[..k] + b[k + 1..])
  {
    assert a[0] in multiset(b);
    k :| 0 <= k < |b| && b[k] == a[0];
    assert a == [a[0]] + a[1..];
    assert b == b[..k] + ([a[0]] + b[k + 1..]);
    assert multiset(a[1..]) == multiset(a) - multiset{a[0]};
    assert multiset(b[..k] + b[k + 1..]) == multiset(b) - multiset{a[0]};
  }

  lemma {:induction false} SumIntPermutation<T>(f: T -> int, a: seq<T>, b: seq<T>)
    requires multiset(a) == multiset(b)
    ensures SumInt(f, a) == SumInt(f, b)
  {
    if a == [] {
      assert |multiset(b)| == 0;
    } else {
      var k := FindHead(a, b);
      SumIntPermutation(f, a[1..], b[..k] + b[k + 1..]);
      SumIntAppend(f, b[..k], b[k + 1..]);
      SumIntAppend(f, b[..k], [a[0]] + b[k + 1..]);
      SumIntAppend(f, [a[0]], b[k + 1..]);
      assert a == [a[0]] + a[1..];
    }
  }

  lemma {:induction false} SumRealPermutation<T>(f: T -> real, a: seq<T>, b: seq<T>)
    requires multiset(a) == multiset(b)
    ensures SumReal(f, a) == SumReal(f, b)
  {
    if a == [] {
      assert |multiset(b)| == 0;
    } else {
      var k := FindHead(a, b);
      SumRealPermutation(f, a[1..], b[..k] + b[k + 1..]);
      SumRealAppend(f, b[..k], b[k + 1..]);
      SumRealAppend(f, b[..k], [a[0]] + b[k + 1..]);
      SumRealAppend(f, [a[0]], b[k + 1..]);
      assert a == [a[0]] + a[1..];
    }
  }

  lemma {:induction false} FilterPermutation<T(!new)>(keep: T -> bool, a: seq<T>, b: seq<T>)
    requires multiset(a) == multiset(b)
    ensures multiset(Filter(keep, a)) == multiset(Filter(keep, b))
  {
    if a == [] {
      assert |multiset(b)| == 0;
    } else {
      var k := FindHead(a, b);
      FilterPermutation(keep, a[1..], b[..k] + b[k + 1..]);
      FilterAppend(keep, b[..k], b[k + 1..]);
      FilterAppend(keep, b[..k], [a[0]] + b[k + 1..]);
      FilterAppend(keep, [a[0]], b[k + 1..]);
      assert a == [a[0]] + a[1..];
    }
  }

  /** A row-by-row bound bounds the sum. */
  lemma {:induction false} SumIntBound<T>(f: T -> int, g: T -> int, s: seq<T>)
    requires forall x :: x in s ==> f(x) <= g(x)
    ensures SumInt(f, s) <= SumInt(g, s)
  {
    if s != [] {
      SumIntBound(f, g, s[1..]);
    }
  }

  /** Sums add up row by row. */
  lemma {:induction false} SumIntPlus<T>(f: T -> int, g: T -> int, h: T -> int, s: seq<T>)
    requires forall x :: x in s ==> h(x) == f(x) + g(x)
    ensures SumInt(h, s) == SumInt(f, s) + SumInt(g, s)
  {
    if s != [] {
      assert s[0] in s;
      SumIntPlus(f, g, h, s[1..]);
    }
  }

  lemma {:induction false} SumIntNonNegative<T>(f: T -> int, s: seq<T>)
    requires forall x :: x in s ==> f(x) >= 0
    ensures SumInt(f, s) >= 0
  {
    if s != [] {
      SumIntNonNegative(f, s[1..]);
    }
  }

  /** Dropping rows whose share is non-negative does not raise the sum. */
  lemma {:induction false} FilterLowersSum<T(!new)>(f: T -> int, keep: T -> bool, s: seq<T>)
    requires forall x :: x in s && !keep(x) ==> f(x) >= 0
    ensures SumInt(f, Filter(keep, s)) <= SumInt(f, s)
  {
    if s != [] {
      FilterLowersSum(f, keep, s[1..]);
      SumIntAppend(f, Filter(keep, [s[0]]), Filter(keep, s[1..]));
      FilterAppend(keep, [s[0]], s[1..]);
      assert s == [s[0]] + s[1..];
    }
  }

  lemma {:induction false} FilterAgree<T(!new)>(p: T -> bool, q: T -> bool, s: seq<T>)
    requires forall x :: x in s ==> p(x) == q(x)
    ensures Filter(p, s) == Filter(q, s)
  {
    if s != [] {
      assert s[0] in s;
      FilterAgree(p, q, s[1..]);
    }
  }

  /** Splitting the kept rows in two splits their sum. */
  lemma {:induction false} SplitFilter<T(!new)>(f: T -> int, p: T -> bool, q: T -> bool, r: T -> bool, s: seq<T>)
    requires forall x :: x in s ==> p(x) == (q(x) || r(x)) && !(q(x) && r(x))
    ensures SumInt(f, Filter(p, s)) == SumInt(f, Filter(q, s)) + SumInt(f, Filter(r, s))
  {
    if s != [] {
      assert s[0] in s;
      SplitFilter(f, p, q, r, s[1..]);
      FilterHead(f, p, s);
      FilterHead(f, q, s);
      FilterHead(f, r, s);
    }
  }

  lemma FilterHead<T(!new)>(f: T -> int, keep: T -> bool, s: seq<T>)
    requires s != []
    ensures SumInt(f, Filter(keep, s)) == (if keep(s[0]) then f(s[0]) else 0) + SumInt(f, Filter(keep, s[1..]))
  {
  }

  // ---- Grouping into a map of sequences -------------------------------------------------

  function Listed<T>(m: map<string, seq<T>>, key: string): seq<T>
  {
    if key in m then m[key] else []
  }

  lemma ListedAfter<T>(m: map<string, seq<T>>, key: string, x: T, s: string)
    ensures Listed(m[key := Listed(m, key) + [x]], s) == if s == key then Listed(m, s) + [x] else Listed(m, s)
  {
  }
}
