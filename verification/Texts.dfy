/** Taking concatenated texts apart. */
module Texts {
  lemma Regroup<T>(a: seq<T>, b: seq<T>, c: seq<T>)
    ensures (a + b) + c == a + (b + c)
  {
  }

  lemma Head<T>(a: seq<T>, x: seq<T>)
    requires a != []
    ensures (a + x)[0] == a[0]
  {
  }

  lemma Prefixed<T>(p: seq<T>, a: seq<T>, b: seq<T>)
    requires p + a == p + b
    ensures a == b
  {
    assert (p + a)[|p|..] == a && (p + b)[|p|..] == b;
  }

  lemma SameLength<T>(p: seq<T>, q: seq<T>, a: seq<T>, b: seq<T>)
    requires p + a == q + b && |p| == |q|
    ensures p == q && a == b
  {
    assert p == (p + a)[..|p|] == (q + b)[..|q|] == q;
    Prefixed(p, a, b);
  }

  lemma SameEnd<T>(a: seq<T>, b: seq<T>, x: seq<T>, y: seq<T>)
    requires a + x == b + y && |x| == |y|
    ensures a == b && x == y
  {
    SameLength(a, b, x, y);
  }

  lemma MarkOpens(c: char, p: string, x: string)
    requires c !in p
    ensures (p + [c] + x)[0] == c <==> p == ""
  {
  }

  /** A part free of the mark ends at the first one. */
  lemma {:induction false} FirstMark(c: char, p: string, q: string, x: string, y: string)
    requires c !in p && c !in q && p + [c] + x == q + [c] + y
    ensures p == q && x == y
  {
    MarkOpens(c, p, x);
    MarkOpens(c, q, y);
    if p == "" {
      assert p + [c] == [c] && q + [c] == [c];
      Prefixed([c], x, y);
    } else {
      Regroup([p[0]], p[1..] + [c], x);
      Regroup([q[0]], q[1..] + [c], y);
      assert p == [p[0]] + p[1..] && q == [q[0]] + q[1..];
      assert p + [c] + x == [p[0]] + (p[1..] + [c] + x) && q + [c] + y == [q[0]] + (q[1..] + [c] + y);
      SameLength([p[0]], [q[0]], p[1..] + [c] + x, q[1..] + [c] + y);
      FirstMark(c, p[1..], q[1..], x, y);
    }
  }
}
