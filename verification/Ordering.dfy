/** Go's `sort.Strings`: the order of strings, a sort, and why any sort gives the same answer. */
module Ordering {

  /** Lexicographic order by code point, which is the order of the UTF-8 bytes Go compares. */
  predicate Le(a: string, b: string) {
    |a| == 0 || (|b| != 0 && (a[0] < b[0] || (a[0] == b[0] && Le(a[1..], b[1..]))))
  }

  predicate Lt(a: string, b: string) {
    Le(a, b) && a != b
  }

  ghost predicate Sorted(s: seq<string>) {
    forall i, j | 0 <= i < j < |s| :: Le(s[i], s[j])
  }

  ghost predicate StrictlySorted(s: seq<string>) {
    forall i, j | 0 <= i < j < |s| :: Lt(s[i], s[j])
  }

  ghost predicate Distinct<T>(s: seq<T>) {
    forall i, j | 0 <= i < j < |s| :: s[i] != s[j]
  }

  ghost function Elements<T>(s: seq<T>): set<T> {
    set x | x in s
  }

  /** At this place they differ for the first time, and `a` has the smaller character. */
  predicate SmallerAt(a: string, b: string, i: nat) { i < |a| && i < |b| && a[..i] == b[..i] && a[i] < b[i] }

  lemma SmallerAtLater(a: string, b: string, i: nat)
    requires |a| > 0 && |b| > 0 && a[0] == b[0]
    ensures SmallerAt(a[1..], b[1..], i) <==> SmallerAt(a, b, i + 1)
  {
    if i < |a| - 1 && i < |b| - 1 {
      assert a[..i + 1] == [a[0]] + a[1..][..i] && b[..i + 1] == [b[0]] + b[1..][..i];
      assert a[..i + 1][1..] == a[1..][..i] && b[..i + 1][1..] == b[1..][..i];
    }
  }

  lemma SmallerAtFirst(a: string, b: string, i: nat)
    requires |a| > 0 && |b| > 0 && a[0] != b[0]
    ensures SmallerAt(a, b, i) <==> i == 0 && a[0] < b[0]
  {
    if 0 < i < |a| && i < |b| { assert a[..i][0] != b[..i][0]; }
  }

  /** One comes no later than another exactly when it is a prefix of it, or has the smaller character at the first
      place where they differ. */
  lemma {:induction false} LeIsLexicographic(a: string, b: string)
    ensures Le(a, b) <==> a <= b || exists i: nat :: SmallerAt(a, b, i)
  {
    if |a| > 0 && |b| > 0 {
      assert a == [a[0]] + a[1..] && b == [b[0]] + b[1..];
      if a[0] == b[0] {
        LeIsLexicographic(a[1..], b[1..]);
        if i: nat :| SmallerAt(a[1..], b[1..], i) { SmallerAtLater(a, b, i); }
        if i: nat :| SmallerAt(a, b, i) { SmallerAtLater(a, b, i - 1); }
      } else {
        SmallerAtFirst(a, b, 0);
        if i: nat :| SmallerAt(a, b, i) { SmallerAtFirst(a, b, i); }
      }
    }
  }

  lemma {:induction false} LeTotal(a: string, b: string)
    ensures Le(a, b) || Le(b, a)
  {
    if |a| > 0 && |b| > 0 && a[0] == b[0] { LeTotal(a[1..], b[1..]); }
  }

  lemma {:induction false} LeAntisymmetric(a: string, b: string)
    requires Le(a, b) && Le(b, a)
    ensures a == b
  {
    if |a| > 0 && |b| > 0 {
      LeAntisymmetric(a[1..], b[1..]);
      assert a == [a[0]] + a[1..] && b == [b[0]] + b[1..];
    }
  }

  lemma {:induction false} LeTransitive(a: string, b: string, c: string)
    requires Le(a, b) && Le(b, c)
    ensures Le(a, c)
  {
    if |a| > 0 && a[0] == b[0] && b[0] == c[0] { LeTransitive(a[1..], b[1..], c[1..]); }
  }

  function Insert(x: string, s: seq<string>): (r: seq<string>)
    ensures |r| == |s| + 1
  {
    if s == [] || Le(x, s[0]) then [x] + s else [s[0]] + Insert(x, s[1..])
  }

  /** A sort; `SortedUnique` says it does not matter which one. */
  function Sort(s: seq<string>): (r: seq<string>)
    ensures |r| == |s|
  {
    if s == [] then [] else Insert(s[0], Sort(s[1..]))
  }

  lemma {:induction false} InsertSorts(x: string, s: seq<string>)
    requires Sorted(s)
    ensures Sorted(Insert(x, s))
    ensures multiset(Insert(x, s)) == multiset(s) + multiset{x}
  {
    if s == [] {
    } else if Le(x, s[0]) {
      forall j | 0 <= j < |s| ensures Le(x, s[j]) { if j > 0 { LeTransitive(x, s[0], s[j]); } }
    } else {
      LeTotal(x, s[0]);
      InsertSorts(x, s[1..]);
      var t := Insert(x, s[1..]);
      assert s == [s[0]] + s[1..];
      forall j | 0 <= j < |t| ensures Le(s[0], t[j]) {
        assert t[j] in multiset(t);
        if t[j] != x { assert t[j] in s[1..]; }
      }
    }
  }

  lemma {:induction false} SortSorts(s: seq<string>)
    ensures Sorted(Sort(s))
    ensures multiset(Sort(s)) == multiset(s)
  {
    if s != [] {
      SortSorts(s[1..]);
      InsertSorts(s[0], Sort(s[1..]));
      assert s == [s[0]] + s[1..];
    }
  }

  /** The least string of a sorted sequence comes first. */
  lemma FirstIsLeast(s: seq<string>, x: string)
    requires Sorted(s) && x in s
    ensures Le(s[0], x)
  {
    var i :| 0 <= i < |s| && s[i] == x;
    LeTotal(x, x);
  }

  /** Two sorted sequences of the same strings are the same sequence. */
  lemma {:induction false} SortedUnique(a: seq<string>, b: seq<string>)
    requires Sorted(a) && Sorted(b) && multiset(a) == multiset(b)
    ensures a == b
    decreases |a|
  {
    assert |multiset(a)| == |a| && |multiset(b)| == |b|;
    if a != [] {
      assert a[0] == b[0] by {
        assert a[0] in multiset(b) && b[0] in multiset(a);
        FirstIsLeast(a, b[0]);
        FirstIsLeast(b, a[0]);
        LeAntisymmetric(a[0], b[0]);
      }
      assert a == [a[0]] + a[1..] && b == [b[0]] + b[1..];
      assert multiset(a[1..]) == multiset(b[1..]) by {
        assert multiset(a[1..]) == multiset(a) - multiset{a[0]};
        assert multiset(b[1..]) == multiset(b) - multiset{b[0]};
      }
      SortedUnique(a[1..], b[1..]);
    }
  }

  lemma RepeatCounts<T>(s: seq<T>, i: nat, j: nat)
    requires i < j < |s| && s[i] == s[j]
    ensures multiset(s)[s[i]] >= 2
  {
    assert s == s[..j] + s[j..] && s[i] in s[..j] && s[j] in s[j..];
    assert multiset(s) == multiset(s[..j]) + multiset(s[j..]);
  }

  lemma {:induction false} DistinctCounts<T>(s: seq<T>)
    requires Distinct(s)
    ensures forall x :: multiset(s)[x] <= 1
  {
    if s != [] {
      DistinctCounts(s[1..]);
      assert s == [s[0]] + s[1..];
      assert s[0] !in s[1..];
    }
  }

  /** Sorting keeps the elements, and keeps duplicate-free sequences duplicate-free. */
  lemma SortOfDistinct(s: seq<string>)
    requires Distinct(s)
    ensures StrictlySorted(Sort(s)) && Distinct(Sort(s))
    ensures Elements(Sort(s)) == Elements(s)
  {
    SortSorts(s);
    DistinctCounts(s);
    var r := Sort(s);
    forall x ensures x in r <==> x in s {
      assert x in multiset(r) <==> x in multiset(s);
    }
    forall i, j | 0 <= i < j < |r| ensures Lt(r[i], r[j]) {
      if r[i] == r[j] { RepeatCounts(r, i, j); }
    }
  }

  lemma WithoutAt<T>(b: seq<T>, i: nat)
    requires i < |b|
    ensures multiset(b[..i] + b[i + 1..]) == multiset(b) - multiset{b[i]}
  {
    assert b == b[..i] + ([b[i]] + b[i + 1..]);
  }

  /** The last of one, and where it is in the other: without them both are permutations still. */
  lemma WithoutOne<T>(a: seq<T>, b: seq<T>, i: nat)
    requires a != [] && multiset(a) == multiset(b) && i < |b| && b[i] == a[|a| - 1]
    ensures multiset(a[..|a| - 1]) == multiset(b[..i] + b[i + 1..])
  {
    var n := |a| - 1;
    assert a[..n] + a[n + 1..] == a[..n];
    WithoutAt(a, n);
    WithoutAt(b, i);
  }

  /** The order a map is walked in does not matter once the keys are sorted. */
  lemma SortIgnoresOrder(s: seq<string>, t: seq<string>)
    requires Distinct(s) && Distinct(t) && Elements(s) == Elements(t)
    ensures Sort(s) == Sort(t)
  {
    SortSorts(s);
    SortSorts(t);
    DistinctCounts(s);
    DistinctCounts(t);
    forall x ensures multiset(s)[x] == multiset(t)[x] {
      assert x in Elements(s) <==> x in s;
      assert x in Elements(t) <==> x in t;
    }
    SortedUnique(Sort(s), Sort(t));
  }

  /** The keys of a map in some order: the order a `range` happens to walk them in. */
  ghost function Listing(ks: set<string>): (s: seq<string>)
    ensures Distinct(s) && Elements(s) == ks
  {
    if ks == {} then [] else
    var k :| k in ks;
    var rest := Listing(ks - {k});
    assert forall x :: x in rest <==> x in Elements(rest);
    assert Elements([k] + rest) == ks by { assert forall x :: x in [k] + rest <==> x == k || x in rest; }
    [k] + rest
  }

  /** The keys of a map, sorted. */
  ghost function SortedKeys(ks: set<string>): (s: seq<string>)
    ensures StrictlySorted(s) && Distinct(s) && Elements(s) == ks
  {
    SortOfDistinct(Listing(ks));
    Sort(Listing(ks))
  }

  lemma SortedKeysOf(s: seq<string>)
    requires Distinct(s)
    ensures Sort(s) == SortedKeys(Elements(s))
  {
    SortIgnoresOrder(s, Listing(Elements(s)));
  }

  /** The keys of a map, walked in whatever order, then sorted: what every loop over a map here starts with. */
  method KeysInOrder<V>(m: map<string, V>) returns (keys: seq<string>)
    ensures keys == SortedKeys(m.Keys)
  {
    keys := [];
    var left := m.Keys;
    while left != {}
      invariant left <= m.Keys && Distinct(keys) && forall k :: k in keys <==> k in m && k !in left
      decreases |left|
    {
      var k :| k in left;
      keys := keys + [k];
      left := left - {k};
    }
    assert Elements(keys) == m.Keys;
    SortedKeysOf(keys);
    keys := Sort(keys);
  }

  /** Something in a set that is not empty. */
  lemma OneOf<T>(ws: set<T>) returns (w: T)
    requires ws != {}
    ensures w in ws
  {
    w :| w in ws;
  }
}
