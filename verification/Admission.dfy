/** Whether a request can be let in at all, as the workers go on while its section looks at the two atomics. */
module Admission {
  import opened Ordering
  import opened Tally
  import opened Buffering
  import opened PipeProtocol
  import opened PipeSafety
  import opened PipeGuarantees
  import opened Handoffs
  import opened Sections
  import opened SectionRuns
  import PipeRuns

  lemma {:induction false} IdlesReach(c: Settings, r: Track, acts: seq<Action>, t: Track)
    requires Reachable(c, r.s) && Idles(c, r, acts, t)
    ensures Reachable(c, t.s)
    decreases |acts|
  {
    if acts != [] {
      var n := PipeRuns.Goes(c, r.s, acts[0]);
      IdlesReach(c, Follow(c, r, acts[0]), acts[1..], t);
    }
  }

  lemma {:induction false} IdlesThen(c: Settings, r: Track, xs: seq<Action>, m: Track, a: Action)
    requires Idles(c, r, xs, m) && Enabled(c, m.s, a) && !a.ByHolder?
    ensures Idles(c, r, xs + [a], Follow(c, m, a))
    decreases |xs|
  {
    if xs == [] {
      assert [] + [a] == [a] && Idles(c, Follow(c, m, a), [], Follow(c, m, a));
    } else {
      assert (xs + [a])[1..] == xs[1..] + [a];
      IdlesThen(c, Follow(c, r, xs[0]), xs[1..], m, a);
    }
  }

  lemma Works(c: Settings, r: Track, m: Track, w: int, k: WorkerStep) returns (t: Track)
    requires Idling(c, r, m) && WorkerMay(m.s, w, k)
    ensures Idling(c, r, t) && t == m.(s := WorkerNext(m.s, w, k))
  {
    var acts :| Idles(c, r, acts, m);
    t := Follow(c, m, ByWorker(w, k));
    IdlesThen(c, r, acts, m, ByWorker(w, k));
  }

  // ----- the pool emptied ---------------------------------------------------------------------

  /** A worker sees its batch through. */
  lemma Finishes(c: Settings, r: Track, m: Track, w: int) returns (t: Track)
    requires Idling(c, r, m) && w in m.s.workers && Carrying(m.s.workers[w])
    ensures Idling(c, r, t) && t == m.(s := t.s) && t.s.holder == m.s.holder && t.s.closer == m.s.closer
    ensures t.s.workers == m.s.workers[w := Idle] && t.s.chan == m.s.chan && t.s.buf == m.s.buf
  {
    t := m;
    if t.s.workers[w].Delivering? { t := Works(c, r, t, w, Settle(Delivered)); }
    if t.s.workers[w].ReleasingRecords? { t := Works(c, r, t, w, ReleaseRecords); }
    t := Works(c, r, t, w, ReleaseBytes);
  }

  function Busy(ks: map<int, Worker>): set<int> { set w | w in ks && Carrying(ks[w]) }

  lemma {:induction false} AllFinish(c: Settings, r: Track, m: Track) returns (t: Track)
    requires Idling(c, r, m)
    ensures Idling(c, r, t) && t == m.(s := t.s) && t.s.holder == m.s.holder && t.s.closer == m.s.closer
    ensures Busy(t.s.workers) == {} && t.s.chan == m.s.chan && t.s.buf == m.s.buf
    ensures forall w | w in m.s.workers :: w in t.s.workers && (t.s.workers[w].Ended? ==> m.s.workers[w].Ended?)
    decreases |Busy(m.s.workers)|
  {
    t := m;
    var busy := Busy(m.s.workers);
    if busy != {} {
      var w := OneOf(busy);
      t := Finishes(c, r, m, w);
      assert Busy(t.s.workers) == busy - {w};
      t := AllFinish(c, r, t);
    }
  }

  lemma {:induction false} Empties(c: Settings, r: Track, m: Track, w: int) returns (t: Track)
    requires Idling(c, r, m) && w in m.s.workers && m.s.workers[w].Idle? && Busy(m.s.workers) == {}
    ensures Idling(c, r, t) && t == m.(s := t.s) && t.s.holder == m.s.holder && t.s.closer == m.s.closer
    ensures Busy(t.s.workers) == {} && t.s.chan.items == [] && t.s.buf == m.s.buf
    decreases |m.s.chan.items|
  {
    t := m;
    if m.s.chan.items != [] {
      t := Works(c, r, m, w, Receive);
      t := Finishes(c, r, t, w);
      assert t.s.workers == m.s.workers;
      t := Empties(c, r, t, w);
    }
  }

  /** With every batch seen through, both atomics are zero. */
  lemma EmptyPoolIsZero(c: Settings, s: State)
    requires Checked(c) && Reachable(c, s) && Busy(s.workers) == {} && s.chan.items == []
    requires UnaddedRecords(s.holder, s.closer) == [] && UnaddedBytes(s.holder, s.closer) == []
    ensures s.counts == Atomics(0, 0)
  {
    ReachableKept(c, s);
    forall w | w in s.workers
      ensures WorkerWeight(One, RecordsCounted)(s.workers[w]) == 0 == WorkerWeight(Bytes, BytesCounted)(s.workers[w])
    {
      assert w !in Busy(s.workers);
    }
    SumZero(s.workers, WorkerWeight(One, RecordsCounted));
    SumZero(s.workers, WorkerWeight(Bytes, BytesCounted));
  }

  lemma AtomicsNotNegative(c: Settings, s: State)
    requires Checked(c) && Reachable(c, s)
    requires UnaddedRecords(s.holder, s.closer) == [] && UnaddedBytes(s.holder, s.closer) == []
    ensures s.counts.pending >= 0 && s.counts.pendingBytes >= 0
  {
    ReachableKept(c, s);
    PoolIsNotNegative(s);
    forall w | w in s.workers ensures WorkerWeight(Bytes, BytesCounted)(s.workers[w]) >= 0 {
      WeighNonNegative(Carries(s.workers[w], BytesCounted), Bytes);
    }
    SumNonNegative(s.workers, WorkerWeight(Bytes, BytesCounted));
    forall x: Item ensures ItemWeight(Bytes)(x) >= 0 { WeighNonNegative(x.events, Bytes); }
    WeighNonNegative(s.chan.items, ItemWeight(Bytes));
  }

  // ----- the condition ------------------------------------------------------------------------

  /** The request fits with what is buffered, and nothing else. */
  ghost predicate FitsAlone(c: Settings, buf: Buffer, es: seq<Event>) {
    buf.held + |es| <= c.maxRecords && buf.bytes + Weigh(es, Bytes) <= c.maxBytes
  }

  lemma FitsIfAlone(c: Settings, r: Track, es: seq<Event>, w: int) returns (a: Track, b: Track)
    requires Checked(c) && Reachable(c, r.s) && r.s.holder == Checking(es) && r.s.closer.NotStarted?
    requires w in r.s.workers && !r.s.workers[w].Ended? && FitsAlone(c, r.s.buf, es)
    ensures Fits(c, r, es, a, b)
  {
    assert Idles(c, r, [], r);
    a := AllFinish(c, r, r);
    assert w !in Busy(a.s.workers);
    a := Empties(c, r, a, w);
    var acts :| Idles(c, r, acts, a);
    IdlesReach(c, r, acts, a);
    EmptyPoolIsZero(c, a.s);
    b := Follow(c, a, ByHolder(CheckRecords));
    assert Idles(c, b, [], b);
  }

  lemma AloneIfFits(c: Settings, r: Track, es: seq<Event>, a: Track, b: Track, w: int)
    requires Checked(c) && Reachable(c, r.s) && r.s.holder == Checking(es) && r.s.closer.NotStarted?
    requires w in r.s.workers && !r.s.workers[w].Ended? && !r.s.chan.closed && Fits(c, r, es, a, b)
    ensures FitsAlone(c, r.s.buf, es)
  {
    var m := Follow(c, a, ByHolder(CheckRecords));
    IdlingAside(c, r, a, w);
    IdlingAside(c, m, b, w);
    var xs, ys :| Idles(c, r, xs, a) && Idles(c, m, ys, b);
    IdlesReach(c, r, xs, a);
    AtomicsNotNegative(c, a.s);
    var n := PipeRuns.Goes(c, a.s, ByHolder(CheckRecords));
    IdlesReach(c, m, ys, b);
    AtomicsNotNegative(c, b.s);
  }

  /** A request that has the lock can be let in, by workers quick enough, exactly when it fits under both ceilings with
      what is buffered alone: then only what the pool still counts can have it refused. */
  lemma CanFitExactlyThen(c: Settings, s: State, went: seq<Item>, es: seq<Event>)
    requires Checked(c) && Reachable(c, s) && s.holder.Free? && s.closer.NotStarted?
    ensures (exists a, b :: Fits(c, Start(HolderNext(c, s, Request(es)), went), es, a, b)) <==> FitsAlone(c, s.buf, es)
  {
    var w := Working(c, s);
    var r := Start(HolderNext(c, s, Request(es)), went);
    var n := PipeRuns.Goes(c, s, ByHolder(Request(es)));
    if FitsAlone(c, s.buf, es) {
      var a, b := FitsIfAlone(c, r, es, w);
    }
    if a, b :| Fits(c, r, es, a, b) { AloneIfFits(c, r, es, a, b, w); }
  }
}
