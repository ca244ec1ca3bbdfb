/** Min, Max, MinBy and MaxBy: when they fail, and which row's value they return. */
module Extremes {
  import opened Ordering
  import opened Outcomes
  import opened Reduction
  import opened Selections

  predicate Alike(a: Value, b: Value) { (a.Number? && b.Number?) || (a.Text? && b.Text?) }

  function CompareText(a: string, b: string): int {
    if a == b then 0 else if Le(a, b) then -1 else 1
  }

  /** `compare`: numbers by value, texts by character; anything else, and any mixture, is an error. */
  function Compare(a: Value, b: Value): Result<int, string> {
    if a.Number? && b.Number? then Ok(if a.n < b.n then -1 else if a.n > b.n then 1 else 0)
    else if a.Text? && b.Text? then Ok(CompareText(a.s, b.s))
    else Err("mixed")
  }

  /** The row that leads so far: what it was compared by, and what it returns. */
  datatype Leader = Leader(key: Value, value: Value)

  /** `porExtremo`: `sign` is -1 for the smallest and 1 for the largest. */
  function Lead(s: Option<Leader>, row: Row, value: string, key: string, sign: int): Result<Option<Leader>, string> {
    var k := Get(row, key);
    if k.Nil? then Ok(s)
    else if s.None? then Ok(Some(Leader(k, Get(row, value))))
    else
      match Compare(k, s.value.key)
      case Err(e) => Err(e)
      case Ok(cmp) => Ok(if cmp * sign > 0 then Some(Leader(k, Get(row, value))) else s)
  }

  function Leading(s: Option<Leader>): Result<Value, string> { Ok(if s.None? then Nil else s.value.value) }

  function ExtremeBy(value: string, key: string, sign: int): Accumulator<Option<Leader>> {
    Accumulator(None, (s: Option<Leader>, row: Row) => Lead(s, row, value, key, sign), Leading)
  }

  /** `extremo`: the value that leads is the one compared. */
  function LeadOwn(s: Option<Value>, row: Row, field: string, sign: int): Result<Option<Value>, string> {
    var v := Get(row, field);
    if v.Nil? then Ok(s)
    else if s.None? then Ok(Some(v))
    else
      match Compare(v, s.value)
      case Err(e) => Err(e)
      case Ok(cmp) => Ok(if cmp * sign > 0 then Some(v) else s)
  }

  function LeadingOwn(s: Option<Value>): Result<Value, string> { Ok(if s.None? then Nil else s.value) }

  function Extreme(field: string, sign: int): Accumulator<Option<Value>> {
    Accumulator(None, (s: Option<Value>, row: Row) => LeadOwn(s, row, field, sign), LeadingOwn)
  }

  // ----- what they compute --------------------------------------------------------------------

  /** The rows that are compared: those whose key is not null. */
  function Compared(rows: seq<Row>, key: string): seq<Row> {
    if rows == [] then [] else
    var n := |rows| - 1;
    Compared(rows[..n], key) + (if Get(rows[n], key).Nil? then [] else [rows[n]])
  }

  /** They can be put in one order: all numbers, or all texts. */
  predicate OneKind(rows: seq<Row>, key: string) {
    || (forall i | 0 <= i < |rows| :: Get(rows[i], key).Number?)
    || (forall i | 0 <= i < |rows| :: Get(rows[i], key).Text?)
  }

  /** `a` is beyond `b`, on the side asked for. */
  predicate Beyond(a: Value, b: Value, sign: int) { Compare(a, b).Ok? && Compare(a, b).value * sign > 0 }

  /** The earliest row that nothing is beyond. */
  predicate Attains(rows: seq<Row>, key: string, sign: int, i: nat) {
    && i < |rows|
    && (forall j | 0 <= j < |rows| :: !Beyond(Get(rows[j], key), Get(rows[i], key), sign))
    && (forall j | 0 <= j < i :: Beyond(Get(rows[i], key), Get(rows[j], key), sign))
  }

  predicate Side(sign: int) { sign == 1 || sign == -1 }

  lemma BeyondTransitive(a: Value, b: Value, c: Value, sign: int)
    requires Side(sign) && Alike(a, b) && Alike(b, c) && Beyond(a, b, sign) && !Beyond(c, b, sign)
    ensures Beyond(a, c, sign) && !Beyond(c, a, sign)
  {
    if a.Text? {
      LeTotal(a.s, c.s);
      LeTotal(a.s, b.s);
      LeTotal(b.s, c.s);
      if Le(a.s, b.s) && Le(b.s, c.s) { LeTransitive(a.s, b.s, c.s); }
      if Le(b.s, a.s) && Le(c.s, b.s) { LeTransitive(c.s, b.s, a.s); }
      if Le(a.s, b.s) && Le(b.s, a.s) { LeAntisymmetric(a.s, b.s); }
      if Le(a.s, c.s) && Le(c.s, a.s) { LeAntisymmetric(a.s, c.s); }
      if Le(c.s, b.s) && Le(b.s, c.s) { LeAntisymmetric(c.s, b.s); }
    }
  }

  lemma NotBeyondItself(a: Value, sign: int)
    ensures !Beyond(a, a, sign)
  {
  }

  /** One compared row more. */
  lemma LeadStep(rows: seq<Row>, key: string, sign: int, i: nat, row: Row)
    requires Side(sign) && Attains(rows, key, sign, i) && OneKind(rows + [row], key)
    ensures if Beyond(Get(row, key), Get(rows[i], key), sign) then Attains(rows + [row], key, sign, |rows|)
            else Attains(rows + [row], key, sign, i)
  {
    var all, k := rows + [row], Get(row, key);
    assert forall j | 0 <= j < |rows| :: all[j] == rows[j];
    assert all[|rows|] == row;
    NotBeyondItself(k, sign);
    if Beyond(k, Get(rows[i], key), sign) {
      forall j | 0 <= j < |rows|
        ensures Beyond(k, Get(rows[j], key), sign) && !Beyond(Get(rows[j], key), k, sign)
      {
        assert Alike(k, Get(all[i], key)) && Alike(Get(all[i], key), Get(all[j], key));
        BeyondTransitive(k, Get(rows[i], key), Get(rows[j], key), sign);
      }
    }
  }

  /** What a leader is: nobody of no rows, else the earliest row that attains the extreme. */
  ghost predicate Led(rows: seq<Row>, value: string, key: string, sign: int, s: Option<Leader>) {
    if rows == [] then s == None
    else exists i: nat :: Attains(rows, key, sign, i) && s == Some(Leader(Get(rows[i], key), Get(rows[i], value)))
  }

  /** They can be compared: there is at most one, or all are of one kind. */
  predicate Orderable(rows: seq<Row>, key: string) { |rows| <= 1 || OneKind(rows, key) }

  lemma KindsMix(rows: seq<Row>, key: string, row: Row, i: nat)
    requires Orderable(rows, key) && i < |rows|
    ensures Orderable(rows + [row], key) <==> Alike(Get(row, key), Get(rows[i], key))
  {
    var all := rows + [row];
    assert all[|rows|] == row && forall j | 0 <= j < |rows| :: all[j] == rows[j];
    if Alike(Get(row, key), Get(rows[i], key)) {
      if |rows| == 1 {
        assert OneKind(all, key);
      } else {
        assert Get(all[i], key).Number? || Get(all[i], key).Text?;
      }
    }
  }

  lemma NeverOrderable(rows: seq<Row>, key: string, row: Row)
    requires !Orderable(rows, key)
    ensures !Orderable(rows + [row], key)
  {
    var all := rows + [row];
    assert forall j | 0 <= j < |rows| :: all[j] == rows[j];
  }

  lemma LeadNext(rows: seq<Row>, row: Row, value: string, key: string, sign: int, s: Option<Leader>)
    requires Side(sign) && Orderable(rows, key) && Led(rows, value, key, sign, s) && !Get(row, key).Nil?
    ensures var next := Lead(s, row, value, key, sign);
      && (next.Ok? <==> Orderable(rows + [row], key))
      && (next.Ok? ==> Led(rows + [row], value, key, sign, next.value))
  {
    var all, next := rows + [row], Lead(s, row, value, key, sign);
    if rows == [] {
      NotBeyondItself(Get(row, key), sign);
      assert Attains(all, key, sign, 0);
    } else {
      var i: nat :| Attains(rows, key, sign, i) && s == Some(Leader(Get(rows[i], key), Get(rows[i], value)));
      KindsMix(rows, key, row, i);
      if next.Ok? {
        LeadStep(rows, key, sign, i, row);
        var at := if Beyond(Get(row, key), Get(rows[i], key), sign) then |rows| else i;
        assert Attains(all, key, sign, at) && next.value == Some(Leader(Get(all[at], key), Get(all[at], value)));
      }
    }
  }

  /** Each fails exactly when two compared values or more are neither all numbers nor all texts; else it returns the
      value of the earliest row that attains the extreme, or null when no row is compared. */
  lemma {:induction false} ExtremeByOver(rows: seq<Row>, value: string, key: string, sign: int)
    requires Side(sign)
    ensures var over := Over(ExtremeBy(value, key, sign), rows);
      && (over.Some? <==> Orderable(Compared(rows, key), key))
      && (over.Some? ==> Led(Compared(rows, key), value, key, sign, over.value))
  {
    if rows != [] {
      var front, row := rows[..|rows| - 1], rows[|rows| - 1];
      ExtremeByOver(front, value, key, sign);
      if Get(row, key).Nil? {
        assert Compared(rows, key) == Compared(front, key);
      } else {
        var over := Over(ExtremeBy(value, key, sign), front);
        if over.Some? {
          LeadNext(Compared(front, key), row, value, key, sign, over.value);
        } else {
          NeverOrderable(Compared(front, key), key, row);
        }
      }
    }
  }

  /** Min and Max are MinBy and MaxBy of a field by itself. */
  lemma {:induction false} ExtremeIsByItself(rows: seq<Row>, field: string, sign: int)
    ensures var own, other := Over(Extreme(field, sign), rows), Over(ExtremeBy(field, field, sign), rows);
      && (own.None? <==> other.None?)
      && (own.Some? ==> own.value == (if other.value.None? then None else Some(other.value.value.value)))
      && (own.Some? && other.value.Some? ==> other.value.value.key == other.value.value.value)
      && (own.Some? ==> Extreme(field, sign).value(own.value) == ExtremeBy(field, field, sign).value(other.value))
  {
    if rows != [] { ExtremeIsByItself(rows[..|rows| - 1], field, sign); }
  }

  // ----- on which side ------------------------------------------------------------------------

  lemma {:induction false} ComparedSelects(rows: seq<Row>, key: string)
    ensures Selects(rows, Compared(rows, key), set i: nat | i < |rows| && key in rows[i] && rows[i][key] != Nil)
  {
    if rows == [] {
      SelectsNothing<Row>();
    } else {
      var n := |rows| - 1;
      var front, row := rows[..n], rows[n];
      ComparedSelects(front, key);
      var before := set i: nat | i < n && key in front[i] && front[i][key] != Nil;
      var all := set i: nat | i < |rows| && key in rows[i] && rows[i][key] != Nil;
      assert rows == front + [row];
      if key in row && row[key] != Nil {
        assert all == before + {n};
        SelectsOneMore(front, Compared(front, key), before, row);
      } else {
        assert all == before && Compared(rows, key) == Compared(front, key);
        SelectsNoMore(front, Compared(front, key), before, row);
      }
    }
  }

  /** Of two values of one kind this is the smaller, with -1, or the larger, with 1; or they are equal. */
  predicate Leads(a: Value, b: Value, sign: int) {
    if a.Number? && b.Number? then (if sign == -1 then a.n <= b.n else a.n >= b.n)
    else a.Text? && b.Text? && (if sign == -1 then Le(a.s, b.s) else Le(b.s, a.s))
  }

  lemma NotBeyondLeads(a: Value, b: Value, sign: int)
    requires Side(sign) && Alike(a, b)
    ensures Leads(a, b, sign) <==> !Beyond(b, a, sign)
    ensures Beyond(a, b, sign) ==> a != b
  {
    if a.Text? {
      LeTotal(a.s, b.s);
      if Le(a.s, b.s) && Le(b.s, a.s) { LeAntisymmetric(a.s, b.s); }
    }
  }

  /** The row that leads: the first whose key is the smallest, with -1, or the largest, with 1, of the keys there
      are; and what is returned is its own value. */
  ghost predicate IsLeader(rows: seq<Row>, value: string, key: string, sign: int, i: nat, led: Value) {
    && i < |rows| && key in rows[i] && rows[i][key] != Nil
    && led == (if value in rows[i] then rows[i][value] else Nil)
    && forall j | 0 <= j < |rows| && j != i && key in rows[j] && rows[j][key] != Nil ::
         Leads(rows[i][key], rows[j][key], sign) && (j < i ==> rows[i][key] != rows[j][key])
  }

  lemma LeaderAmongAll(rows: seq<Row>, value: string, key: string, sign: int, some: seq<Row>, places: seq<nat>, at: nat)
    requires Side(sign) && Picks(rows, places, some) && Attains(some, key, sign, at) && Orderable(some, key)
    requires forall i: nat :: i in places <==> i < |rows| && key in rows[i] && rows[i][key] != Nil
    ensures IsLeader(rows, value, key, sign, places[at], Get(some[at], value))
  {
    var i := places[at];
    assert i in places;
    forall j | 0 <= j < |rows| && j != i && key in rows[j] && rows[j][key] != Nil
      ensures Leads(rows[i][key], rows[j][key], sign) && (j < i ==> rows[i][key] != rows[j][key])
    {
      assert j in places;
      var b :| 0 <= b < |places| && places[b] == j;
      assert Alike(Get(some[at], key), Get(some[b], key));
      NotBeyondLeads(rows[i][key], rows[j][key], sign);
    }
  }

  /** What MinBy returns, with -1, and MaxBy, with 1: the value of the row that leads; or nothing when no row has a
      key. */
  lemma ExtremeByIsLeader(rows: seq<Row>, value: string, key: string, sign: int)
    requires Side(sign) && Over(ExtremeBy(value, key, sign), rows).Some?
    ensures var led := ExtremeBy(value, key, sign).value(Over(ExtremeBy(value, key, sign), rows).value);
      && led.Ok?
      && if forall i | 0 <= i < |rows| :: key !in rows[i] || rows[i][key] == Nil then led.value == Nil
         else exists i: nat :: IsLeader(rows, value, key, sign, i, led.value)
  {
    var some := Compared(rows, key);
    ExtremeByOver(rows, value, key, sign);
    ComparedSelects(rows, key);
    var kept := set i: nat | i < |rows| && key in rows[i] && rows[i][key] != Nil;
    var places: seq<nat> :| Picks(rows, places, some) && forall i: nat :: i in places <==> i in kept;
    if some == [] {
      forall i | 0 <= i < |rows| ensures key !in rows[i] || rows[i][key] == Nil { assert i !in places; }
    } else {
      var at: nat :| Attains(some, key, sign, at) && Over(ExtremeBy(value, key, sign), rows).value ==
        Some(Leader(Get(some[at], key), Get(some[at], value)));
      LeaderAmongAll(rows, value, key, sign, some, places, at);
      assert places[at] in places && places[at] in kept;
    }
  }
}
