/** The fold and its close as the loops they are, over group objects found by key. */
module Reducing {
  import opened Ordering
  import opened Outcomes
  import opened Reduction

  class Cell<S> {
    const key: string
    const values: Row
    var states: map<string, S>

    constructor (key: string, values: Row, states: map<string, S>)
      ensures this.key == key && this.values == values && this.states == states
    {
      this.key, this.values, this.states := key, values, states;
    }

    function Read(): Group<S>
      reads this
    {
      Group(values, states)
    }
  }

  /** All but the aggregators `left` have taken the row. */
  ghost predicate FedBut<S>(d: Reduce<S>, before: map<string, S>, now: map<string, S>, left: set<string>, row: Row) {
    && now.Keys == before.Keys == d.agg.Keys && left <= d.agg.Keys
    && (forall name | name in left :: now[name] == before[name])
    && forall name | name in d.agg && name !in left :: Added(d.agg[name], before, name, row) == Ok(now[name])
  }

  lemma FedOne<S>(d: Reduce<S>, before: map<string, S>, now: map<string, S>, left: set<string>, row: Row,
                  name: string, next: S)
    requires FedBut(d, before, now, left, row) && name in left && Added(d.agg[name], before, name, row) == Ok(next)
    ensures FedBut(d, before, now[name := next], left - {name}, row)
  {
  }

  lemma FedAll<S>(d: Reduce<S>, before: map<string, S>, now: map<string, S>, row: Row)
    requires FedBut(d, before, now, {}, row)
    ensures now == map name | name in d.agg :: Added(d.agg[name], before, name, row).value
    ensures forall name | name in d.agg :: Added(d.agg[name], before, name, row).Ok?
  {
  }

  /** One aggregator takes the row, or cannot. */
  method FeedOne<S>(d: Reduce<S>, g: Cell<S>, row: Row, name: string, ghost left: set<string>,
                    ghost before: map<string, S>) returns (ok: bool)
    requires FedBut(d, before, g.states, left, row) && name in left
    modifies g`states
    ensures ok <==> Added(d.agg[name], before, name, row).Ok?
    ensures ok ==> FedBut(d, before, g.states, left - {name}, row)
  {
    var next := d.agg[name].add(g.states[name], row);
    if next.Err? { return false; }
    FedOne(d, before, g.states, left, row, name, next.value);
    g.states := g.states[name := next.value];
    ok := true;
  }

  /** Every aggregator takes the row, in whatever order; the first that cannot ends it. */
  method Feed<S>(d: Reduce<S>, g: Cell<S>, row: Row) returns (ok: bool)
    requires g.states.Keys == d.agg.Keys
    modifies g`states
    ensures ok <==> forall name | name in d.agg :: Added(d.agg[name], old(g.states), name, row).Ok?
    ensures ok ==> g.states == map name | name in d.agg :: Added(d.agg[name], old(g.states), name, row).value
  {
    ghost var before := g.states;
    var left := d.agg.Keys;
    while left != {}
      invariant left <= d.agg.Keys && g.states.Keys == d.agg.Keys && FedBut(d, before, g.states, left, row)
      decreases |left|
    {
      var name :| name in left;
      ok := FeedOne(d, g, row, name, left, before);
      if !ok { return; }
      left := left - {name};
    }
    FedAll(d, before, g.states, row);
    ok := true;
  }

  /** The groups found by key are the objects, each under its own. */
  ghost predicate Found<S>(byKey: map<string, Cell<S>>, groups: Groups<S>)
    reads byKey.Values
  {
    && byKey.Keys == groups.Keys
    && forall k | k in byKey :: byKey[k].key == k && byKey[k].Read() == groups[k]
  }

  ghost predicate Listed<S>(order: seq<Cell<S>>, keys: seq<string>, groups: Groups<S>)
    reads order
  {
    && |order| == |keys|
    && forall i | 0 <= i < |order| :: order[i].key == keys[i] && keys[i] in groups && order[i].Read() == groups[keys[i]]
  }

  /** The group of a row, found or made. */
  method FindOrMake<S>(d: Reduce<S>, byKey: map<string, Cell<S>>, ghost groups: Groups<S>, row: Row)
      returns (g: Cell<S>, byKey': map<string, Cell<S>>)
    requires Found(byKey, groups)
    ensures Found(byKey', groups[KeyOf(d, row) := GroupFor(d, groups, row)])
    ensures KeyOf(d, row) in byKey' && byKey'[KeyOf(d, row)] == g && fresh(byKey'.Values - byKey.Values)
  {
    var key := KeyOf(d, row);
    byKey' := byKey;
    if key in byKey {
      g := byKey[key];
      assert groups[key := groups[key]] == groups;
    } else {
      g := new Cell(key, GroupValues(d, row), map name | name in d.agg :: d.agg[name].init);
      byKey' := byKey[key := g];
    }
  }

  method FeedFound<S>(d: Reduce<S>, byKey: map<string, Cell<S>>, ghost groups: Groups<S>, g: Cell<S>, row: Row)
      returns (ok: bool)
    requires Found(byKey, groups) && KeyOf(d, row) in byKey && byKey[KeyOf(d, row)] == g && g.states.Keys == d.agg.Keys
    modifies g`states
    ensures ok <==> AddRow(d, groups, row).Some?
    ensures ok ==> Found(byKey, AddRow(d, groups, row).value)
  {
    assert g.Read() == GroupFor(d, groups, row);
    ok := Feed(d, g, row);
  }

  lemma AddRowFound<S>(d: Reduce<S>, groups: Groups<S>, row: Row)
    ensures AddRow(d, groups[KeyOf(d, row) := GroupFor(d, groups, row)], row) == AddRow(d, groups, row)
  {
    var key, g := KeyOf(d, row), GroupFor(d, groups, row);
    assert GroupFor(d, groups[key := g], row) == g;
    var next := AddRow(d, groups, row);
    if next.Some? { assert groups[key := g][key := next.value[key]] == groups[key := next.value[key]]; }
  }

  /** One row: its group is found, or made, and takes it. */
  method FoldRow<S>(d: Reduce<S>, byKey: map<string, Cell<S>>, ghost groups: Groups<S>, row: Row)
      returns (ok: bool, byKey': map<string, Cell<S>>)
    requires Found(byKey, groups) && forall k | k in groups :: groups[k].states.Keys == d.agg.Keys
    modifies byKey.Values
    ensures ok <==> AddRow(d, groups, row).Some?
    ensures ok ==> Found(byKey', AddRow(d, groups, row).value)
    ensures fresh(byKey'.Values - byKey.Values)
  {
    AddRowFound(d, groups, row);
    var g;
    g, byKey' := FindOrMake(d, byKey, groups, row);
    ok := FeedFound(d, byKey', groups[KeyOf(d, row) := GroupFor(d, groups, row)], g, row);
  }

  /** What comes in: a record, or what is none -- an error of the source, or a payload of another kind. */
  type Stream = seq<Option<Row>>

  /** The column that says which row a row is. */
  const IDENTITY: string := "ingestion_id"

  predicate Readable(item: Option<Row>, first: bool) {
    item.Some? && (first ==> IDENTITY !in item.value)
  }

  predicate AllReadable(stream: Stream) {
    forall i | 0 <= i < |stream| :: Readable(stream[i], i == 0)
  }

  function Rows(stream: Stream): seq<Row>
    requires AllReadable(stream)
  {
    seq(|stream|, i requires 0 <= i < |stream| => stream[i].value)
  }

  ghost function Fields(rows: seq<Row>): set<string> { set i, name | 0 <= i < |rows| && name in rows[i] :: name }

  lemma OneMoreRow(stream: Stream, i: nat)
    requires i < |stream| && AllReadable(stream[..i]) && Readable(stream[i], i == 0)
    ensures AllReadable(stream[..i + 1])
    ensures var rows := Rows(stream[..i + 1]);
      && rows[..i] == Rows(stream[..i]) && rows[i] == stream[i].value
      && Fields(rows) == Fields(Rows(stream[..i])) + rows[i].Keys
  {
    var rows := Rows(stream[..i + 1]);
    assert forall j | 0 <= j < i :: stream[..i + 1][j] == stream[..i][j] && rows[j] == Rows(stream[..i])[j];
  }

  lemma {:induction false} NeverRecovers<S>(d: Reduce<S>, rows: seq<Row>, i: nat, j: nat)
    requires i <= j <= |rows| && Folded(d, rows[..i]).None?
    ensures Folded(d, rows[..j]).None?
    ensures j == |rows| ==> Folded(d, rows).None?
  {
    if i < j {
      NeverRecovers(d, rows, i, j - 1);
      assert rows[..j][..j - 1] == rows[..j - 1];
    }
    assert rows[..|rows|] == rows;
  }

  lemma RowsSoFar<S>(d: Reduce<S>, rows: seq<Row>, i: nat)
    requires i < |rows| && Folded(d, rows[..i]).Some?
    ensures forall k | k in Folded(d, rows[..i]).value :: Folded(d, rows[..i]).value[k].states.Keys == d.agg.Keys
    ensures Folded(d, rows[..i + 1]) == AddRow(d, Folded(d, rows[..i]).value, rows[i])
    ensures Folded(d, rows[..i + 1]).None? ==> Folded(d, rows).None?
  {
    FoldIsGroupBy(d, rows[..i]);
    assert forall k | k in Folded(d, rows[..i]).value :: IsGroup(d, rows[..i], k, Folded(d, rows[..i]).value[k]);
    assert rows[..i + 1][..i] == rows[..i];
    if Folded(d, rows[..i + 1]).None? { NeverRecovers(d, rows, i + 1, |rows|); }
  }

  /** The fold of the rows before, and of this one. */
  lemma FoldSoFar<S>(d: Reduce<S>, stream: Stream, i: nat)
    requires i < |stream| && AllReadable(stream[..i + 1]) && AllReadable(stream[..i])
    requires Folded(d, Rows(stream[..i])).Some?
    ensures var groups := Folded(d, Rows(stream[..i])).value;
      && (forall k | k in groups :: groups[k].states.Keys == d.agg.Keys)
      && Folded(d, Rows(stream[..i + 1])) == AddRow(d, groups, stream[i].value)
    ensures AllReadable(stream) && Folded(d, Rows(stream[..i + 1])).None? ==> Folded(d, Rows(stream)).None?
  {
    OneMoreRow(stream, i);
    var rows := Rows(stream[..i + 1]);
    assert rows[..i + 1] == rows;
    RowsSoFar(d, rows, i);
    if AllReadable(stream) && Folded(d, rows).None? {
      assert Rows(stream)[..i + 1] == rows;
      NeverRecovers(d, Rows(stream), i + 1, |stream|);
    }
  }

  /** The pass over the stream: it fails exactly when something is not a record, the first already says which row it
      is, or the fold fails; and else finds the groups of the fold, one state an aggregator in each and nothing of the
      rows but the names of their fields. */
  method Pass<S>(d: Reduce<S>, stream: Stream) returns (ok: bool, byKey: map<string, Cell<S>>, seen: set<string>)
    ensures ok <==> AllReadable(stream) && Folded(d, Rows(stream)).Some?
    ensures ok ==> Found(byKey, Folded(d, Rows(stream)).value) && fresh(byKey.Values) && seen == Fields(Rows(stream))
    ensures ok ==> byKey.Keys == Keys(d, Rows(stream))
    ensures ok ==> forall k | k in byKey :: byKey[k].states.Keys == d.agg.Keys
  {
    byKey, seen := map[], {};
    var i := 0;
    while i < |stream|
      invariant 0 <= i <= |stream| && fresh(byKey.Values) && AllReadable(stream[..i])
      invariant Folded(d, Rows(stream[..i])).Some? && seen == Fields(Rows(stream[..i]))
      invariant Found(byKey, Folded(d, Rows(stream[..i])).value)
    {
      if !Readable(stream[i], i == 0) { return false, byKey, seen; }
      OneMoreRow(stream, i);
      FoldSoFar(d, stream, i);
      seen := seen + stream[i].value.Keys;
      ok, byKey := FoldRow(d, byKey, Folded(d, Rows(stream[..i])).value, stream[i].value);
      if !ok { return; }
      i := i + 1;
    }
    assert stream[..|stream|] == stream;
    FoldIsGroupBy(d, Rows(stream));
    assert forall k | k in byKey :: IsGroup(d, Rows(stream), k, byKey[k].Read());
    ok := true;
  }

  /** `sort.Slice`: the groups by key. */
  method SortCells<S>(byKey: map<string, Cell<S>>, ghost groups: Groups<S>) returns (order: seq<Cell<S>>)
    requires Found(byKey, groups)
    ensures Listed(order, SortedKeys(groups.Keys), groups) && forall i | 0 <= i < |order| :: order[i] in byKey.Values
  {
    var keys := KeysInOrder(byKey);
    assert forall i | 0 <= i < |keys| :: keys[i] in Elements(keys);
    order := seq(|keys|, i requires 0 <= i < |keys| => byKey[keys[i]]);
  }

  function ValueOf<S>(d: Reduce<S>, g: Group<S>, name: string): Result<Value, string> {
    if name in d.agg && name in g.states then d.agg[name].value(g.states[name]) else Err(name)
  }

  /** The row a group closes to: its group values, and each aggregator's value over them. */
  function Closed<S>(d: Reduce<S>, g: Group<S>): Option<Row> {
    if forall name | name in d.agg :: ValueOf(d, g, name).Ok?
    then Some(g.values + map name | name in d.agg :: ValueOf(d, g, name).value)
    else None
  }

  method CloseOne<S>(d: Reduce<S>, g: Cell<S>) returns (row: Option<Row>)
    requires g.states.Keys == d.agg.Keys
    ensures row == Closed(d, g.Read())
  {
    var columns: Row := map[];
    var left := d.agg.Keys;
    while left != {}
      invariant left <= d.agg.Keys && columns.Keys == d.agg.Keys - left
      invariant forall name | name in columns :: ValueOf(d, g.Read(), name) == Ok(columns[name])
      decreases |left|
    {
      var name :| name in left;
      var v := d.agg[name].value(g.states[name]);
      if v.Err? {
        assert ValueOf(d, g.Read(), name).Err?;
        return None;
      }
      columns := columns[name := v.value];
      left := left - {name};
    }
    assert columns == map name | name in d.agg :: ValueOf(d, g.Read(), name).value;
    row := Some(g.values + columns);
  }

  /** The rows of the groups under `keys`, or none when some group cannot close. */
  function ClosedAll<S>(d: Reduce<S>, groups: Groups<S>, keys: seq<string>): Option<seq<Row>> {
    if keys == [] then Some([]) else
    var n := |keys| - 1;
    var before := ClosedAll(d, groups, keys[..n]);
    if before.None? || keys[n] !in groups then None else
    var row := Closed(d, groups[keys[n]]);
    if row.None? then None else Some(before.value + [row.value])
  }

  lemma {:induction false} CloseFails<S>(d: Reduce<S>, groups: Groups<S>, keys: seq<string>, i: nat)
    requires i <= |keys| && ClosedAll(d, groups, keys[..i]).None?
    ensures ClosedAll(d, groups, keys).None?
    decreases |keys| - i
  {
    if i < |keys| {
      assert keys[..i + 1][..i] == keys[..i];
      CloseFails(d, groups, keys, i + 1);
    } else {
      assert keys[..i] == keys;
    }
  }

  lemma {:induction false} ClosesIff<S>(d: Reduce<S>, groups: Groups<S>, keys: seq<string>)
    ensures ClosedAll(d, groups, keys).Some? <==> forall k | k in keys :: k in groups && Closed(d, groups[k]).Some?
    ensures ClosedAll(d, groups, keys).Some? ==>
      && |ClosedAll(d, groups, keys).value| == |keys|
      && forall i | 0 <= i < |keys| ::
           keys[i] in groups && Closed(d, groups[keys[i]]) == Some(ClosedAll(d, groups, keys).value[i])
  {
    if keys != [] {
      var n := |keys| - 1;
      ClosesIff(d, groups, keys[..n]);
      assert forall k :: k in keys <==> k in keys[..n] || k == keys[n];
    }
  }

  /** One group more closes, or it ends here. */
  method CloseNext<S>(d: Reduce<S>, order: seq<Cell<S>>, i: nat, ghost keys: seq<string>, ghost groups: Groups<S>,
                      rows: seq<Row>) returns (ok: bool, rows': seq<Row>)
    requires Listed(order, keys, groups) && i < |order| && order[i].states.Keys == d.agg.Keys
    requires Some(rows) == ClosedAll(d, groups, keys[..i])
    ensures ok ==> Some(rows') == ClosedAll(d, groups, keys[..i + 1])
    ensures !ok ==> ClosedAll(d, groups, keys).None?
  {
    assert keys[..i + 1][..i] == keys[..i];
    var row := CloseOne(d, order[i]);
    ok, rows' := row.Some?, rows;
    if ok { rows' := rows + [row.value]; } else { CloseFails(d, groups, keys, i + 1); }
  }

  method CloseAll<S>(d: Reduce<S>, order: seq<Cell<S>>, ghost keys: seq<string>, ghost groups: Groups<S>)
      returns (out: Option<seq<Row>>)
    requires Listed(order, keys, groups) && forall i | 0 <= i < |order| :: order[i].states.Keys == d.agg.Keys
    ensures out == ClosedAll(d, groups, keys)
  {
    var rows, ok, i := [], true, 0;
    while i < |order|
      invariant 0 <= i <= |order| && Some(rows) == ClosedAll(d, groups, keys[..i])
    {
      ok, rows := CloseNext(d, order, i, keys, groups, rows);
      if !ok { return None; }
      i := i + 1;
    }
    assert keys[..|keys|] == keys;
    out := Some(rows);
  }

  ghost function Reduced<S>(d: Reduce<S>, rows: seq<Row>): Option<seq<Row>> {
    match Folded(d, rows)
    case None => None
    case Some(groups) => ClosedAll(d, groups, SortedKeys(groups.Keys))
  }

  /** The last pass: it sees the groups and their rows, never the records. */
  type Finisher = seq<(Row, Row)> -> Option<seq<Row>>

  /** A whole reduction: `uses` is the fields each aggregator says it reads. */
  datatype Whole<!S> = Whole(d: Reduce<S>, uses: map<string, seq<string>>, finish: Option<Finisher>)

  /** The fields it names, in the group key or in an aggregator. */
  ghost function Named<S>(r: Whole<S>): set<string> {
    Elements(r.d.fields) + set name, field | name in r.uses && field in r.uses[name] :: field
  }

  /** `checkFields`: with any field seen at all, every field named was. */
  method AllSeen<S>(r: Whole<S>, seen: set<string>) returns (ok: bool)
    ensures ok <==> seen == {} || Named(r) <= seen
  {
    if seen == {} { return true; }
    ok := forall field | field in r.d.fields :: field in seen;
    var left := r.uses.Keys;
    while left != {}
      invariant left <= r.uses.Keys
      invariant ok <==>
        && (forall field | field in r.d.fields :: field in seen)
        && forall name, field | name in r.uses && name !in left && field in r.uses[name] :: field in seen
      decreases |left|
    {
      var name :| name in left;
      ok := ok && forall field | field in r.uses[name] :: field in seen;
      left := left - {name};
    }
  }

  /** Each group's values with its row. */
  function Paired<S>(groups: Groups<S>, keys: seq<string>, rows: seq<Row>): seq<(Row, Row)>
    requires |keys| == |rows|
  {
    seq(|keys|, i requires 0 <= i < |keys| => (if keys[i] in groups then groups[keys[i]].values else map[], rows[i]))
  }

  /** The rows of the groups, through the last pass if there is one. */
  ghost function Concluded<S>(r: Whole<S>, groups: Groups<S>): Option<seq<Row>> {
    var keys := SortedKeys(groups.Keys);
    match ClosedAll(r.d, groups, keys)
    case None => None
    case Some(rows) =>
      if r.finish.None? || |keys| != |rows| then Some(rows) else r.finish.value(Paired(groups, keys, rows))
  }

  /** What the whole comes to. */
  ghost function Applied<S>(r: Whole<S>, stream: Stream): Option<seq<Row>> {
    if !AllReadable(stream) then None else
    var rows := Rows(stream);
    match Folded(r.d, rows)
    case None => None
    case Some(groups) => if Fields(rows) != {} && !(Named(r) <= Fields(rows)) then None else Concluded(r, groups)
  }

  /** `Finish`, if there is one, over each group's values and its row. */
  method Finish<S>(r: Whole<S>, order: seq<Cell<S>>, ghost keys: seq<string>, ghost groups: Groups<S>, rows: seq<Row>)
      returns (out: Option<seq<Row>>)
    requires Listed(order, keys, groups) && ClosedAll(r.d, groups, keys) == Some(rows)
    ensures |keys| == |rows|
    ensures out == if r.finish.None? then Some(rows) else r.finish.value(Paired(groups, keys, rows))
  {
    ClosesIff(r.d, groups, keys);
    if r.finish.None? { return Some(rows); }
    var pairs := seq(|order|, i requires 0 <= i < |order| => (order[i].values, rows[i]));
    assert forall i | 0 <= i < |order| :: order[i].Read() == groups[keys[i]];
    assert pairs == Paired(groups, keys, rows);
    out := r.finish.value(pairs);
  }

  /** The groups in order, closed, and what the last pass makes of them. */
  method Conclude<S>(r: Whole<S>, byKey: map<string, Cell<S>>, ghost groups: Groups<S>) returns (out: Option<seq<Row>>)
    requires Found(byKey, groups) && forall k | k in byKey :: byKey[k].states.Keys == r.d.agg.Keys
    ensures out == Concluded(r, groups)
  {
    var order := SortCells(byKey, groups);
    out := CloseAll(r.d, order, SortedKeys(groups.Keys), groups);
    if out.Some? { out := Finish(r, order, SortedKeys(groups.Keys), groups, out.value); }
  }

  /** `fold`, the check of the fields, and `closeIt`. */
  method Apply<S>(r: Whole<S>, stream: Stream) returns (out: Option<seq<Row>>)
    ensures out == Applied(r, stream)
  {
    var ok, byKey, seen := Pass(r.d, stream);
    if !ok { return None; }
    ghost var groups := Folded(r.d, Rows(stream)).value;
    FoldIsGroupBy(r.d, Rows(stream));
    assert forall k | k in groups :: IsGroup(r.d, Rows(stream), k, groups[k]);
    ok := AllSeen(r, seen);
    if !ok { return None; }
    out := Conclude(r, byKey, groups);
  }

  /** The row a group's own rows come to. */
  ghost predicate IsRowOf<S>(d: Reduce<S>, rows: seq<Row>, row: Row) {
    && rows != []
    && (forall name | name in d.agg :: Over(d.agg[name], rows).Some?)
    && (forall name | name in d.agg :: name in row && d.agg[name].value(Over(d.agg[name], rows).value) == Ok(row[name]))
    && (forall field | field in d.fields && field !in d.agg ::
          field in row && row[field] == if field in rows[0] then rows[0][field] else Nil)
    && row.Keys == d.agg.Keys + Elements(d.fields)
  }

  lemma ColumnOf<S>(d: Reduce<S>, rows: seq<Row>, key: string, g: Group<S>, name: string)
    requires IsGroup(d, rows, key, g) && Closed(d, g).Some? && name in d.agg
    ensures Over(d.agg[name], Of(d, rows, key)).Some? && name in Closed(d, g).value
    ensures d.agg[name].value(Over(d.agg[name], Of(d, rows, key)).value) == Ok(Closed(d, g).value[name])
  {
    assert ValueOf(d, g, name).Ok?;
  }

  lemma FieldsOf<S>(d: Reduce<S>, rows: seq<Row>, key: string, g: Group<S>)
    requires IsGroup(d, rows, key, g) && Closed(d, g).Some?
    ensures var row, first := Closed(d, g).value, Of(d, rows, key)[0];
      && row.Keys == d.agg.Keys + Elements(d.fields)
      && forall field | field in d.fields && field !in d.agg ::
           field in row && row[field] == if field in first then first[field] else Nil
  {
    assert g.values.Keys == Elements(d.fields);
  }

  lemma RowOfGroup<S>(d: Reduce<S>, rows: seq<Row>, key: string, g: Group<S>)
    requires IsGroup(d, rows, key, g) && Closed(d, g).Some?
    ensures IsRowOf(d, Of(d, rows, key), Closed(d, g).value)
  {
    FieldsOf(d, rows, key, g);
    forall name | name in d.agg
      ensures Over(d.agg[name], Of(d, rows, key)).Some? && name in Closed(d, g).value
      ensures d.agg[name].value(Over(d.agg[name], Of(d, rows, key)).value) == Ok(Closed(d, g).value[name])
    {
      ColumnOf(d, rows, key, g, name);
    }
  }

  /** One row per group, strictly increasing by key: the first row's group values, and what each aggregator makes of
      the group's rows in arrival order. */
  lemma ReducedIsGroupBy<S>(d: Reduce<S>, rows: seq<Row>)
    requires Reduced(d, rows).Some?
    ensures var out, keys := Reduced(d, rows).value, SortedKeys(Keys(d, rows));
      && StrictlySorted(keys) && |out| == |keys|
      && forall i | 0 <= i < |keys| :: IsRowOf(d, Of(d, rows, keys[i]), out[i])
  {
    FoldIsGroupBy(d, rows);
    var groups := Folded(d, rows).value;
    var keys := SortedKeys(groups.Keys);
    ClosesIff(d, groups, keys);
    forall i | 0 <= i < |keys| ensures IsRowOf(d, Of(d, rows, keys[i]), Reduced(d, rows).value[i]) {
      RowOfGroup(d, rows, keys[i], groups[keys[i]]);
    }
  }

  /** Every aggregator takes the group's rows, and closes over them. */
  ghost predicate Closes<S>(d: Reduce<S>, rows: seq<Row>) {
    forall name | name in d.agg :: Over(d.agg[name], rows).Some? && d.agg[name].value(Over(d.agg[name], rows).value).Ok?
  }

  lemma GroupCloses<S>(d: Reduce<S>, rows: seq<Row>, key: string, g: Group<S>)
    requires IsGroup(d, rows, key, g)
    ensures Closed(d, g).Some? <==> Closes(d, Of(d, rows, key))
  {
  }

  lemma EveryClosesOver<S>(d: Reduce<S>, rows: seq<Row>)
    requires forall key | key in Keys(d, rows) :: Closes(d, Of(d, rows, key))
    ensures EveryOver(d, rows)
  {
  }

  /** It fails exactly when an aggregator does, over the rows of some group or closing over them. */
  lemma ReducedUnlessOneFails<S>(d: Reduce<S>, rows: seq<Row>)
    ensures Reduced(d, rows).Some? <==> forall key | key in Keys(d, rows) :: Closes(d, Of(d, rows, key))
  {
    FoldIsGroupBy(d, rows);
    if Folded(d, rows).Some? {
      var groups := Folded(d, rows).value;
      var keys := SortedKeys(groups.Keys);
      ClosesIff(d, groups, keys);
      forall k ensures k in keys <==> k in Keys(d, rows) { assert k in keys <==> k in Elements(keys); }
      forall k | k in groups ensures Closed(d, groups[k]).Some? <==> Closes(d, Of(d, rows, k)) {
        GroupCloses(d, rows, k, groups[k]);
      }
    } else if forall key | key in Keys(d, rows) :: Closes(d, Of(d, rows, key)) {
      EveryClosesOver(d, rows);
    }
  }

  /** Some row has this field. */
  predicate SeenIn(rows: seq<Row>, field: string) { exists i | 0 <= i < |rows| :: field in rows[i] }

  /** The rows of a stream that holds nothing else, the first of which does not say yet which row it is. */
  predicate IsRows(stream: Stream, rows: seq<Row>) {
    && |rows| == |stream| && (forall i | 0 <= i < |rows| :: stream[i] == Some(rows[i]))
    && (rows != [] ==> "ingestion_id" !in rows[0])
  }

  /** Every field the group key or an aggregator names is in some row, unless no row has any field at all. */
  ghost predicate NamesSeen<S>(r: Whole<S>, rows: seq<Row>) {
    || (forall i | 0 <= i < |rows| :: rows[i] == map[])
    || (&& (forall field | field in r.d.fields :: SeenIn(rows, field))
        && forall name, field | name in r.uses && field in r.uses[name] :: SeenIn(rows, field))
  }

  lemma NamesSeenIs<S>(r: Whole<S>, rows: seq<Row>)
    ensures NamesSeen(r, rows) <==> Fields(rows) == {} || Named(r) <= Fields(rows)
  {
    forall field ensures field in Fields(rows) <==> SeenIn(rows, field) {}
    forall i | 0 <= i < |rows| ensures rows[i] == map[] <==> rows[i].Keys == {} {}
    if forall i | 0 <= i < |rows| :: rows[i] == map[] {
      assert Fields(rows) == {};
    } else {
      var i :| 0 <= i < |rows| && rows[i] != map[];
      var name :| name in rows[i];
      assert name in Fields(rows);
    }
    forall field | field in r.d.fields ensures field in Named(r) { assert field in Elements(r.d.fields); }
  }

  lemma IsRowsIs(stream: Stream, rows: seq<Row>)
    ensures IsRows(stream, rows) <==> AllReadable(stream) && rows == Rows(stream)
  {
    if IsRows(stream, rows) {
      forall i | 0 <= i < |stream| ensures Readable(stream[i], i == 0) { assert stream[i] == Some(rows[i]); }
    }
  }

  /** Without a last pass it comes to the rows of the groups, exactly when everything read is a record, the first does
      not say yet which row it is, no field is named that no row has, and no aggregator fails. */
  lemma AppliedExactly<S>(r: Whole<S>, stream: Stream)
    requires r.finish.None?
    ensures Applied(r, stream).Some? <==>
      exists rows :: IsRows(stream, rows) && NamesSeen(r, rows)
        && forall key | key in Keys(r.d, rows) :: Closes(r.d, Of(r.d, rows, key))
    ensures forall rows | IsRows(stream, rows) && Applied(r, stream).Some? :: Applied(r, stream) == Reduced(r.d, rows)
  {
    forall rows ensures IsRows(stream, rows) <==> AllReadable(stream) && rows == Rows(stream) {
      IsRowsIs(stream, rows);
    }
    if AllReadable(stream) {
      var rows := Rows(stream);
      NamesSeenIs(r, rows);
      ReducedUnlessOneFails(r.d, rows);
      assert IsRows(stream, rows);
    }
  }

  /** What a last pass is shown of one group: what the first of its rows says of the group fields, and its row. */
  ghost predicate Shown<S>(d: Reduce<S>, rows: seq<Row>, pair: (Row, Row), row: Row) {
    && rows != [] && pair.1 == row && pair.0.Keys == Elements(d.fields)
    && forall field | field in d.fields :: pair.0[field] == if field in rows[0] then rows[0][field] else Nil
  }

  lemma PairedIs<S>(d: Reduce<S>, rows: seq<Row>, keys: seq<string>, groups: Groups<S>, out: seq<Row>, i: nat)
    requires |keys| == |out| && i < |keys| && keys[i] in groups && IsGroup(d, rows, keys[i], groups[keys[i]])
    ensures Shown(d, Of(d, rows, keys[i]), Paired(groups, keys, out)[i], out[i])
  {
    assert Paired(groups, keys, out)[i] == (groups[keys[i]].values, out[i]);
  }

  lemma ConcludedIs<S>(r: Whole<S>, rows: seq<Row>, out: seq<Row>) returns (pairs: seq<(Row, Row)>)
    requires r.finish.Some? && Reduced(r.d, rows) == Some(out)
    ensures Concluded(r, Folded(r.d, rows).value) == r.finish.value(pairs)
    ensures var keys := SortedKeys(Keys(r.d, rows));
      |pairs| == |keys| == |out| && forall i | 0 <= i < |pairs| :: Shown(r.d, Of(r.d, rows, keys[i]), pairs[i], out[i])
  {
    FoldIsGroupBy(r.d, rows);
    var groups := Folded(r.d, rows).value;
    var keys := SortedKeys(groups.Keys);
    ClosesIff(r.d, groups, keys);
    pairs := Paired(groups, keys, out);
    forall i | 0 <= i < |pairs| ensures Shown(r.d, Of(r.d, rows, keys[i]), pairs[i], out[i]) {
      assert keys[i] in groups;
      PairedIs(r.d, rows, keys, groups, out, i);
    }
  }

  /** With one, it comes to what the last pass makes of the groups in key order: of each, what its first row says of
      the group fields, and its row. */
  lemma AppliedFinishes<S>(r: Whole<S>, stream: Stream, rows: seq<Row>, out: seq<Row>) returns (pairs: seq<(Row, Row)>)
    requires r.finish.Some? && IsRows(stream, rows) && NamesSeen(r, rows) && Reduced(r.d, rows) == Some(out)
    ensures Applied(r, stream) == r.finish.value(pairs)
    ensures var keys := SortedKeys(Keys(r.d, rows));
      |pairs| == |keys| == |out| && forall i | 0 <= i < |pairs| :: Shown(r.d, Of(r.d, rows, keys[i]), pairs[i], out[i])
  {
    IsRowsIs(stream, rows);
    NamesSeenIs(r, rows);
    pairs := ConcludedIs(r, rows, out);
  }
}
