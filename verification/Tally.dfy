/** Sums over maps and sequences, by an arbitrary weight: the arithmetic of "conserved". */
module Tally {

  ghost function Sum<K(!new), V(!new)>(m: map<K, V>, f: V -> int): int
    decreases |m|
  {
    if m == map[] then 0 else
    var k :| k in m;
    f(m[k]) + Sum(m - {k}, f)
  }

  /** The sum may be opened at any key, whichever one the definition picks. */
  lemma {:induction false} SumAt<K(!new), V(!new)>(m: map<K, V>, f: V -> int, k: K)
    requires k in m
    ensures Sum(m, f) == f(m[k]) + Sum(m - {k}, f)
    decreases |m|
  {
    var j :| j in m && Sum(m, f) == f(m[j]) + Sum(m - {j}, f);
    if j != k {
      SumAt(m - {j}, f, k);
      SumAt(m - {k}, f, j);
      assert m - {j} - {k} == m - {k} - {j};
    }
  }

  lemma SumPut<K(!new), V(!new)>(m: map<K, V>, f: V -> int, k: K, v: V)
    ensures Sum(m[k := v], f) == Sum(m - {k}, f) + f(v)
    ensures k in m ==> Sum(m[k := v], f) == Sum(m, f) - f(m[k]) + f(v)
    ensures k !in m ==> Sum(m[k := v], f) == Sum(m, f) + f(v)
  {
    SumAt(m[k := v], f, k);
    assert m[k := v] - {k} == m - {k};
    if k in m { SumAt(m, f, k); } else { assert m - {k} == m; }
  }

  lemma {:induction false} SumNonNegative<K(!new), V(!new)>(m: map<K, V>, f: V -> int)
    requires forall k | k in m :: f(m[k]) >= 0
    ensures Sum(m, f) >= 0
    ensures forall k | k in m :: f(m[k]) <= Sum(m, f)
    decreases |m|
  {
    forall k | k in m ensures 0 <= f(m[k]) <= Sum(m, f) {
      SumAt(m, f, k);
      SumNonNegative(m - {k}, f);
    }
    if m != map[] { var k :| k in m; assert f(m[k]) <= Sum(m, f); }
  }

  lemma {:induction false} SumZero<K(!new), V(!new)>(m: map<K, V>, f: V -> int)
    requires forall k | k in m :: f(m[k]) == 0
    ensures Sum(m, f) == 0
    decreases |m|
  {
    if m != map[] {
      var k :| k in m;
      SumAt(m, f, k);
      SumZero(m - {k}, f);
    }
  }

  /** A weight that is never above another sums to no more. */
  lemma {:induction false} SumMonotone<K(!new), V(!new)>(m: map<K, V>, f: V -> int, g: V -> int)
    requires forall k | k in m :: f(m[k]) <= g(m[k])
    ensures Sum(m, f) <= Sum(m, g)
    decreases |m|
  {
    if m != map[] {
      var k :| k in m;
      SumAt(m, f, k);
      SumAt(m, g, k);
      SumMonotone(m - {k}, f, g);
    }
  }

  ghost function Weigh<T>(s: seq<T>, w: T -> int): int {
    if s == [] then 0 else w(s[0]) + Weigh(s[1..], w)
  }

  lemma {:induction false} WeighConcat<T>(a: seq<T>, b: seq<T>, w: T -> int)
    ensures Weigh(a + b, w) == Weigh(a, w) + Weigh(b, w)
  {
    if a == [] {
      assert a + b == b;
    } else {
      assert (a + b)[1..] == a[1..] + b;
      WeighConcat(a[1..], b, w);
    }
  }

  /** A sequence may be weighed from its end. */
  lemma WeighLast<T>(s: seq<T>, x: T, w: T -> int)
    ensures Weigh(s + [x], w) == Weigh(s, w) + w(x)
  {
    WeighConcat(s, [x], w);
    assert [x][1..] == [];
  }

  lemma {:induction false} WeighNonNegative<T>(s: seq<T>, w: T -> int)
    requires forall x :: w(x) >= 0
    ensures Weigh(s, w) >= 0
  {
    if s != [] { WeighNonNegative(s[1..], w); }
  }

  lemma {:induction false} WeighOnes<T>(s: seq<T>, w: T -> int)
    requires forall x :: w(x) == 1
    ensures Weigh(s, w) == |s|
  {
    if s != [] { WeighOnes(s[1..], w); }
  }
}
