/** The one-pass reduction and the group-then-aggregate form it stands for. */
module Reduction {
  import opened Outcomes
  import opened Selections
  import opened Texts

  /** A field's value; `Other` is any that is neither a number, a text nor a boolean. */
  datatype Value = Nil | Number(n: real) | Text(s: string) | Truth(on: bool) | Other(tag: nat)

  type Row = map<string, Value>

  function Get(row: Row, field: string): Value { if field in row then row[field] else Nil }

  datatype Accumulator<!S> =
    Accumulator(init: S, add: (S, Row) -> Result<S, string>, value: S -> Result<Value, string>)

  /** `fields` are the group fields, `agg` the computed columns, `asText` how a value is rendered in a key. */
  datatype Reduce<!S> = Reduce(fields: seq<string>, agg: map<string, Accumulator<S>>, asText: Value -> string)

  datatype Group<S> = Group(values: Row, states: map<string, S>)

  type Groups<S> = map<string, Group<S>>

  /** The rendered group fields, each after the first behind a zero character. */
  function Joined(parts: seq<string>): string {
    if parts == [] then "" else
    if |parts| == 1 then parts[0] else
    parts[0] + "\0" + Joined(parts[1..])
  }

  function Rendered<S>(d: Reduce<S>, row: Row): (parts: seq<string>)
    ensures |parts| == |d.fields|
  {
    seq(|d.fields|, i requires 0 <= i < |d.fields| => d.asText(Get(row, d.fields[i])))
  }

  function KeyOf<S>(d: Reduce<S>, row: Row): string { Joined(Rendered(d, row)) }

  function GroupValues<S>(d: Reduce<S>, row: Row): Row { map field | field in d.fields :: Get(row, field) }

  // ----- the specification: group, then aggregate ---------------------------------------------

  /** The rows of one group, in arrival order. */
  function Of<S>(d: Reduce<S>, rows: seq<Row>, key: string): seq<Row> {
    if rows == [] then [] else
    var n := |rows| - 1;
    Of(d, rows[..n], key) + (if KeyOf(d, rows[n]) == key then [rows[n]] else [])
  }

  ghost function Keys<S>(d: Reduce<S>, rows: seq<Row>): set<string> {
    set i | 0 <= i < |rows| :: KeyOf(d, rows[i])
  }

  /** One aggregator over the rows of one group. */
  function Over<S>(a: Accumulator<S>, rows: seq<Row>): Option<S> {
    if rows == [] then Some(a.init) else
    match Over(a, rows[..|rows| - 1])
    case None => None
    case Some(s) => match a.add(s, rows[|rows| - 1]) case Ok(t) => Some(t) case Err(_) => None
  }

  ghost predicate EveryOver<S>(d: Reduce<S>, rows: seq<Row>) {
    forall key, name | key in Keys(d, rows) && name in d.agg :: Over(d.agg[name], Of(d, rows, key)).Some?
  }

  /** What one group comes to. */
  ghost predicate IsGroup<S>(d: Reduce<S>, rows: seq<Row>, key: string, g: Group<S>) {
    && Of(d, rows, key) != [] && g.values == GroupValues(d, Of(d, rows, key)[0])
    && g.states.Keys == d.agg.Keys
    && forall name | name in d.agg :: Over(d.agg[name], Of(d, rows, key)) == Some(g.states[name])
  }

  ghost predicate GroupedBy<S>(d: Reduce<S>, rows: seq<Row>, groups: Groups<S>) {
    groups.Keys == Keys(d, rows) && forall key | key in groups :: IsGroup(d, rows, key, groups[key])
  }

  // ----- the fold, row by row -----------------------------------------------------------------

  function GroupFor<S>(d: Reduce<S>, groups: Groups<S>, row: Row): Group<S> {
    var key := KeyOf(d, row);
    if key in groups then groups[key] else Group(GroupValues(d, row), map name | name in d.agg :: d.agg[name].init)
  }

  function Added<S>(a: Accumulator<S>, states: map<string, S>, name: string, row: Row): Result<S, string> {
    if name in states then a.add(states[name], row) else Err(name)
  }

  function AddRow<S>(d: Reduce<S>, groups: Groups<S>, row: Row): Option<Groups<S>> {
    var g := GroupFor(d, groups, row);
    if forall name | name in d.agg :: Added(d.agg[name], g.states, name, row).Ok? then
      Some(groups[KeyOf(d, row) :=
        Group(g.values, map name | name in d.agg :: Added(d.agg[name], g.states, name, row).value)])
    else None
  }

  function Folded<S>(d: Reduce<S>, rows: seq<Row>): Option<Groups<S>> {
    if rows == [] then Some(map[]) else
    match Folded(d, rows[..|rows| - 1])
    case None => None
    case Some(groups) => AddRow(d, groups, rows[|rows| - 1])
  }

  lemma KeysStep<S>(d: Reduce<S>, front: seq<Row>, row: Row)
    ensures Keys(d, front + [row]) == Keys(d, front) + {KeyOf(d, row)}
  {
    var rows := front + [row];
    assert rows[|front|] == row && forall i | 0 <= i < |front| :: rows[i] == front[i];
    assert forall i | 0 <= i < |front| :: KeyOf(d, rows[i]) == KeyOf(d, front[i]);
  }

  lemma OfStep<S>(d: Reduce<S>, rows: seq<Row>, key: string)
    requires rows != []
    ensures var n := |rows| - 1;
      Of(d, rows, key) == if KeyOf(d, rows[n]) == key then Of(d, rows[..n], key) + [rows[n]] else Of(d, rows[..n], key)
    ensures Keys(d, rows) == Keys(d, rows[..|rows| - 1]) + {KeyOf(d, rows[|rows| - 1])}
  {
    var n := |rows| - 1;
    assert rows == rows[..n] + [rows[n]];
    KeysStep(d, rows[..n], rows[n]);
  }

  lemma OverStep<S>(a: Accumulator<S>, rows: seq<Row>, row: Row)
    ensures Over(a, rows + [row]) ==
            match Over(a, rows)
            case None => None
            case Some(s) => match a.add(s, row) case Ok(t) => Some(t) case Err(_) => None
  {
  }

  lemma {:induction false} NoRows<S>(d: Reduce<S>, rows: seq<Row>, key: string)
    ensures Of(d, rows, key) != [] <==> key in Keys(d, rows)
  {
    if rows != [] {
      NoRows(d, rows[..|rows| - 1], key);
      OfStep(d, rows, key);
    }
  }

  /** The rows of a group are the rows under its key, all of them, as they arrived. */
  lemma {:induction false} OfSelects<S>(d: Reduce<S>, rows: seq<Row>, key: string)
    ensures Selects(rows, Of(d, rows, key), set i: nat | i < |rows| && KeyOf(d, rows[i]) == key)
  {
    if rows == [] {
      SelectsNothing<Row>();
    } else {
      var n := |rows| - 1;
      var front, row := rows[..n], rows[n];
      OfSelects(d, front, key);
      var before := set i: nat | i < n && KeyOf(d, front[i]) == key;
      var all := set i: nat | i < |rows| && KeyOf(d, rows[i]) == key;
      assert rows == front + [row];
      if KeyOf(d, row) == key {
        assert all == before + {n};
        SelectsOneMore(front, Of(d, front, key), before, row);
      } else {
        assert all == before && Of(d, rows, key) == Of(d, front, key);
        SelectsNoMore(front, Of(d, front, key), before, row);
      }
    }
  }

  /** An aggregator over some rows: from where it starts, through a state a row, each the one before with the row. */
  ghost predicate Through<S>(a: Accumulator<S>, rows: seq<Row>, states: seq<S>) {
    && |states| == |rows| + 1 && states[0] == a.init
    && forall i | 0 <= i < |rows| :: a.add(states[i], rows[i]) == Ok(states[i + 1])
  }

  lemma {:induction false} OverIsThrough<S>(a: Accumulator<S>, rows: seq<Row>) returns (states: seq<S>)
    ensures Over(a, rows).Some? ==> Through(a, rows, states) && Over(a, rows).value == states[|rows|]
  {
    if rows == [] {
      states := [a.init];
    } else {
      states := OverIsThrough(a, rows[..|rows| - 1]);
      if Over(a, rows).Some? { states := states + [Over(a, rows).value]; }
    }
  }

  lemma {:induction false} ThroughIsOver<S>(a: Accumulator<S>, rows: seq<Row>, states: seq<S>)
    requires Through(a, rows, states)
    ensures Over(a, rows) == Some(states[|rows|])
  {
    if rows != [] { ThroughIsOver(a, rows[..|rows| - 1], states[..|rows|]); }
  }

  /** It comes to a state exactly when it can take every row in turn, and that is the state it comes to. */
  lemma OverExactly<S>(a: Accumulator<S>, rows: seq<Row>, s: S)
    ensures Over(a, rows) == Some(s) <==> exists states :: Through(a, rows, states) && states[|rows|] == s
  {
    var states := OverIsThrough(a, rows);
    if more :| Through(a, rows, more) && more[|rows|] == s { ThroughIsOver(a, rows, more); }
  }

  /** The group a row goes to, before the row: what aggregating its rows so far gives. */
  lemma GroupSoFar<S>(d: Reduce<S>, rows: seq<Row>, groups: Groups<S>, row: Row)
    requires GroupedBy(d, rows, groups)
    ensures var g, before := GroupFor(d, groups, row), Of(d, rows, KeyOf(d, row));
      && g.values == GroupValues(d, (before + [row])[0])
      && g.states.Keys == d.agg.Keys
      && forall name | name in d.agg :: Over(d.agg[name], before) == Some(g.states[name])
  {
    NoRows(d, rows, KeyOf(d, row));
  }

  lemma OldGroup<S>(d: Reduce<S>, rows: seq<Row>, key: string, g: Group<S>)
    requires rows != [] && KeyOf(d, rows[|rows| - 1]) != key && IsGroup(d, rows[..|rows| - 1], key, g)
    ensures IsGroup(d, rows, key, g)
  {
    OfStep(d, rows, key);
  }

  /** The row's own group: each aggregator takes the row exactly when it can, and is then the next state. */
  lemma NewGroup<S>(d: Reduce<S>, rows: seq<Row>, groups: Groups<S>, name: string)
    requires rows != [] && GroupedBy(d, rows[..|rows| - 1], groups) && name in d.agg
    ensures var row := rows[|rows| - 1];
      var next := Added(d.agg[name], GroupFor(d, groups, row).states, name, row);
      var over := Over(d.agg[name], Of(d, rows, KeyOf(d, row)));
      over == if next.Ok? then Some(next.value) else None
  {
    var front, row := rows[..|rows| - 1], rows[|rows| - 1];
    GroupSoFar(d, front, groups, row);
    OfStep(d, rows, KeyOf(d, row));
    OverStep(d.agg[name], Of(d, front, KeyOf(d, row)), row);
  }

  /** What adding a row makes of its group. */
  lemma AddRowIs<S>(d: Reduce<S>, groups: Groups<S>, row: Row)
    requires AddRow(d, groups, row).Some?
    ensures var was, g := GroupFor(d, groups, row), AddRow(d, groups, row).value[KeyOf(d, row)];
      && g.values == was.values && g.states.Keys == d.agg.Keys
      && forall name | name in d.agg :: Added(d.agg[name], was.states, name, row) == Ok(g.states[name])
  {
  }

  /** Its group is what aggregating its rows gives, this one included: the states, */
  lemma OwnStates<S>(d: Reduce<S>, rows: seq<Row>, groups: Groups<S>)
    requires rows != [] && GroupedBy(d, rows[..|rows| - 1], groups) && AddRow(d, groups, rows[|rows| - 1]).Some?
    ensures var key := KeyOf(d, rows[|rows| - 1]);
      var g := AddRow(d, groups, rows[|rows| - 1]).value[key];
      g.states.Keys == d.agg.Keys
      && forall name | name in d.agg :: Over(d.agg[name], Of(d, rows, key)) == Some(g.states[name])
  {
    var row := rows[|rows| - 1];
    var g := AddRow(d, groups, row).value[KeyOf(d, row)];
    AddRowIs(d, groups, row);
    forall name | name in d.agg ensures Over(d.agg[name], Of(d, rows, KeyOf(d, row))) == Some(g.states[name]) {
      NewGroup(d, rows, groups, name);
    }
  }

  /** and the values of its first row. */
  lemma OwnValues<S>(d: Reduce<S>, rows: seq<Row>, groups: Groups<S>)
    requires rows != [] && GroupedBy(d, rows[..|rows| - 1], groups) && AddRow(d, groups, rows[|rows| - 1]).Some?
    ensures var key := KeyOf(d, rows[|rows| - 1]);
      var g := AddRow(d, groups, rows[|rows| - 1]).value[key];
      Of(d, rows, key) != [] && g.values == GroupValues(d, Of(d, rows, key)[0])
  {
    var row := rows[|rows| - 1];
    GroupSoFar(d, rows[..|rows| - 1], groups, row);
    OfStep(d, rows, KeyOf(d, row));
  }

  lemma RowGoesIn<S>(d: Reduce<S>, rows: seq<Row>, groups: Groups<S>)
    requires rows != [] && GroupedBy(d, rows[..|rows| - 1], groups) && AddRow(d, groups, rows[|rows| - 1]).Some?
    ensures GroupedBy(d, rows, AddRow(d, groups, rows[|rows| - 1]).value)
  {
    var row := rows[|rows| - 1];
    var next, key := AddRow(d, groups, row).value, KeyOf(d, row);
    OwnStates(d, rows, groups);
    OwnValues(d, rows, groups);
    OfStep(d, rows, key);
    forall k | k in next ensures IsGroup(d, rows, k, next[k]) {
      if k != key { OldGroup(d, rows, k, groups[k]); }
    }
  }

  lemma AllGoOn<S>(d: Reduce<S>, rows: seq<Row>, groups: Groups<S>)
    requires rows != [] && GroupedBy(d, rows[..|rows| - 1], groups) && EveryOver(d, rows)
    ensures AddRow(d, groups, rows[|rows| - 1]).Some?
  {
    var row := rows[|rows| - 1];
    OfStep(d, rows, KeyOf(d, row));
    forall name | name in d.agg ensures Added(d.agg[name], GroupFor(d, groups, row).states, name, row).Ok? {
      NewGroup(d, rows, groups, name);
    }
  }

  lemma StaysFailed<S>(d: Reduce<S>, rows: seq<Row>)
    requires rows != [] && !EveryOver(d, rows[..|rows| - 1])
    ensures !EveryOver(d, rows)
  {
    var front, row := rows[..|rows| - 1], rows[|rows| - 1];
    var key, name :| key in Keys(d, front) && name in d.agg && Over(d.agg[name], Of(d, front, key)).None?;
    OfStep(d, rows, key);
    OverStep(d.agg[name], Of(d, front, key), row);
    assert key in Keys(d, rows);
  }

  /** The fold is group-then-aggregate: it succeeds exactly when every aggregator does over every group's rows in
      arrival order, with one group a key, the first row's group values, and each aggregator's state. */
  lemma {:induction false} FoldIsGroupBy<S>(d: Reduce<S>, rows: seq<Row>)
    ensures Folded(d, rows).Some? <==> EveryOver(d, rows)
    ensures Folded(d, rows).Some? ==> GroupedBy(d, rows, Folded(d, rows).value)
  {
    if rows != [] {
      var front := rows[..|rows| - 1];
      FoldIsGroupBy(d, front);
      if Folded(d, front).Some? {
        var groups := Folded(d, front).value;
        if EveryOver(d, rows) { AllGoOn(d, rows, groups); }
        if AddRow(d, groups, rows[|rows| - 1]).Some? { RowGoesIn(d, rows, groups); }
      } else {
        StaysFailed(d, rows);
      }
    }
  }

  // ----- the key tells groups apart -----------------------------------------------------------

  /** With no zero character in any rendered value, the key is one tuple's. */
  lemma {:induction false} JoinedSplits(a: seq<string>, b: seq<string>)
    requires |a| == |b| && Joined(a) == Joined(b)
    requires forall i | 0 <= i < |a| :: '\0' !in a[i] && '\0' !in b[i]
    ensures a == b
  {
    if |a| > 1 {
      FirstMark('\0', a[0], b[0], Joined(a[1..]), Joined(b[1..]));
      JoinedSplits(a[1..], b[1..]);
      assert a == [a[0]] + a[1..] && b == [b[0]] + b[1..];
    }
  }

  /** Two rows say the same of a field, rendered; an absent field is a null. */
  predicate AlikeIn(asText: Value -> string, a: Row, b: Row, field: string) {
    asText(if field in a then a[field] else Nil) == asText(if field in b then b[field] else Nil)
  }

  lemma RenderedAt<S>(d: Reduce<S>, row: Row, i: nat)
    requires i < |d.fields|
    ensures Rendered(d, row)[i] == d.asText(if d.fields[i] in row then row[d.fields[i]] else Nil)
  {
    var v := Get(row, d.fields[i]);
    assert v == if d.fields[i] in row then row[d.fields[i]] else Nil;
  }

  /** With no zero character in what their group fields render as, two rows share a group exactly when each of those
      fields renders alike in both. */
  lemma SameGroup<S>(d: Reduce<S>, a: Row, b: Row)
    requires forall field | field in d.fields :: '\0' !in d.asText(if field in a then a[field] else Nil)
    requires forall field | field in d.fields :: '\0' !in d.asText(if field in b then b[field] else Nil)
    ensures KeyOf(d, a) == KeyOf(d, b) <==> forall field | field in d.fields :: AlikeIn(d.asText, a, b, field)
  {
    forall i | 0 <= i < |d.fields|
      ensures AlikeIn(d.asText, a, b, d.fields[i]) <==> Rendered(d, a)[i] == Rendered(d, b)[i]
      ensures '\0' !in Rendered(d, a)[i] && '\0' !in Rendered(d, b)[i]
    {
      RenderedAt(d, a, i);
      RenderedAt(d, b, i);
      assert d.fields[i] in d.fields;
    }
    if KeyOf(d, a) == KeyOf(d, b) { JoinedSplits(Rendered(d, a), Rendered(d, b)); }
    if Rendered(d, a) == Rendered(d, b) { assert KeyOf(d, a) == KeyOf(d, b); }
    if forall field | field in d.fields :: AlikeIn(d.asText, a, b, field) {
      assert Rendered(d, a) == Rendered(d, b);
    }
  }

  // ----- exactly when it does -----------------------------------------------------------------

  function Zeros(s: string): nat { if s == "" then 0 else (if s[0] == '\0' then 1 else 0) + Zeros(s[1..]) }

  lemma {:induction false} ZerosBoth(a: string, b: string)
    ensures Zeros(a + b) == Zeros(a) + Zeros(b)
  {
    if a == "" {
      assert a + b == b;
    } else {
      assert (a + b)[0] == a[0] && (a + b)[1..] == a[1..] + b;
      ZerosBoth(a[1..], b);
    }
  }

  lemma {:induction false} ZerosNone(s: string)
    ensures Zeros(s) == 0 <==> '\0' !in s
  {
    if s != "" {
      ZerosNone(s[1..]);
      assert s == [s[0]] + s[1..];
    }
  }

  predicate NoZeros(parts: seq<string>) { forall i | 0 <= i < |parts| :: '\0' !in parts[i] }

  /** Joined, some parts have a zero between each two, and what they hold themselves. */
  lemma {:induction false} ZerosJoined(parts: seq<string>)
    requires parts != []
    ensures Zeros(Joined(parts)) >= |parts| - 1
    ensures Zeros(Joined(parts)) == |parts| - 1 <==> NoZeros(parts)
  {
    ZerosNone(parts[0]);
    if |parts| > 1 {
      ZerosJoined(parts[1..]);
      assert Zeros("\0") == 1;
      ZerosBoth(parts[0], "\0");
      ZerosBoth(parts[0] + "\0", Joined(parts[1..]));
      assert parts == [parts[0]] + parts[1..];
    }
  }

  /** Two neighbours may be split elsewhere. */
  lemma {:induction false} SamePair(pre: seq<string>, p: string, q: string, r: string, s: string, post: seq<string>)
    requires p + "\0" + q == r + "\0" + s
    ensures Joined(pre + [p, q] + post) == Joined(pre + [r, s] + post)
  {
    var a, b := pre + [p, q] + post, pre + [r, s] + post;
    if pre == [] {
      assert a[1..] == [q] + post && b[1..] == [s] + post;
      if post != [] {
        assert a[1..][1..] == post && b[1..][1..] == post;
        Regroup(p + "\0", q, "\0" + Joined(post));
        Regroup(r + "\0", s, "\0" + Joined(post));
        Regroup(q, "\0", Joined(post));
        Regroup(s, "\0", Joined(post));
      }
    } else {
      assert a[1..] == pre[1..] + [p, q] + post && b[1..] == pre[1..] + [r, s] + post;
      SamePair(pre[1..], p, q, r, s, post);
    }
  }

  lemma SplitAtZero(s: string) returns (x: string, y: string)
    requires '\0' in s
    ensures s == x + "\0" + y
  {
    var i :| 0 <= i < |s| && s[i] == '\0';
    x, y := s[..i], s[i + 1..];
  }

  /** Wherever a zero stands in one of two parts or more, other parts have the same key. */
  lemma AnotherSplit(parts: seq<string>, i: nat) returns (other: seq<string>)
    requires |parts| > 1 && i < |parts| && '\0' in parts[i]
    ensures |other| == |parts| && other != parts && Joined(other) == Joined(parts)
  {
    var x, y := SplitAtZero(parts[i]);
    var k := if i < |parts| - 1 then i else i - 1;
    var p, q := parts[k], parts[k + 1];
    var r, s := if k == i then x else p + "\0" + x, if k == i then y + "\0" + q else y;
    if k == i {
      Regroup(x + "\0", y, "\0" + q);
      Regroup(y, "\0", q);
      assert |r| < |p|;
    } else {
      Regroup(p + "\0", x, "\0" + y);
      Regroup(x, "\0", y);
      assert |s| < |q|;
    }
    SamePair(parts[..k], p, q, r, s, parts[k + 2..]);
    assert parts == parts[..k] + [p, q] + parts[k + 2..];
    other := parts[..k] + [r, s] + parts[k + 2..];
    assert other[k] == r && other[k + 1] == s;
  }

  /** A key is of one tuple alone exactly when the tuple is of one field at most, or none of its fields holds the
      zero. */
  lemma KeyIsItsOwn(parts: seq<string>)
    ensures (forall other | |other| == |parts| && Joined(other) == Joined(parts) :: other == parts) <==>
              |parts| <= 1 || NoZeros(parts)
  {
    if |parts| <= 1 || NoZeros(parts) {
      forall other | |other| == |parts| && Joined(other) == Joined(parts) ensures other == parts {
        if |parts| > 1 {
          ZerosJoined(parts);
          ZerosJoined(other);
          JoinedSplits(parts, other);
        }
      }
    } else {
      var i :| 0 <= i < |parts| && '\0' in parts[i];
      var other := AnotherSplit(parts, i);
    }
  }
}
