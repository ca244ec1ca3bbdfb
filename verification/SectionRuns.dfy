/** And whatever the specification says, some section of the protocol comes to: the two say the same. */
module SectionRuns {
  import opened Ordering
  import opened Buffering
  import opened PipeProtocol
  import opened PipeSafety
  import opened PipeGuarantees
  import opened Handoffs
  import opened Sections

  ghost predicate Leads(c: Settings, r: Track, t: Track) { exists acts :: Steps(c, r, acts, t) }

  lemma {:induction false} StepsThen(c: Settings, r: Track, xs: seq<Action>, m: Track, ys: seq<Action>, t: Track)
    requires Steps(c, r, xs, m) && Steps(c, m, ys, t)
    ensures Steps(c, r, xs + ys, t)
    decreases |xs|
  {
    if xs == [] {
      assert xs + ys == ys;
    } else {
      assert (xs + ys)[1..] == xs[1..] + ys;
      StepsThen(c, Follow(c, r, xs[0]), xs[1..], m, ys, t);
    }
  }

  lemma LeadsOn(c: Settings, r: Track, m: Track, t: Track)
    requires Leads(c, r, m) && Leads(c, m, t)
    ensures Leads(c, r, t)
  {
    var xs, ys :| Steps(c, r, xs, m) && Steps(c, m, ys, t);
    StepsThen(c, r, xs, m, ys, t);
  }

  lemma Leap(c: Settings, r: Track, m: Track, a: Action) returns (t: Track)
    requires Leads(c, r, m) && Enabled(c, m.s, a) && Within(m.s)
    ensures Leads(c, r, t) && t == Follow(c, m, a)
  {
    t := Follow(c, m, a);
    assert Steps(c, t, [], t);
    assert Steps(c, m, [a], t);
    LeadsOn(c, r, m, t);
  }

  lemma Stays(c: Settings, r: Track)
    ensures Leads(c, r, r)
  {
    assert Steps(c, r, [], r);
  }

  // a worker between batches
  predicate Rested(s: State, w: int) { w in s.workers && s.workers[w].Idle? }

  /** The others did something, and left `n` batches on the queue. */
  ghost predicate Leaving(r: Track, t: Track, n: nat) {
    t == r.(s := t.s) && Aside(r.s, t.s) && |t.s.chan.items| == n && t.s.now == r.s.now
  }

  /** Time passes. */
  lemma Waits(c: Settings, r: Track, m: Track, to: Time) returns (t: Track)
    requires Leads(c, r, m) && Within(m.s) && m.s.now <= to
    ensures Leads(c, r, t) && t == m.(s := m.s.(now := to)) && Aside(m.s, t.s)
  {
    t := Leap(c, r, m, Tick(to));
  }

  lemma ByOne(c: Settings, r: Track, m: Track, w: int, k: WorkerStep) returns (t: Track)
    requires Leads(c, r, m) && WorkerMay(m.s, w, k) && Within(m.s)
    ensures Leads(c, r, t) && t == m.(s := WorkerNext(m.s, w, k)) && Aside(m.s, t.s) && t.s.now == m.s.now
  {
    t := Leap(c, r, m, ByWorker(w, k));
    WorkerStandsAside(m.s, w, k);
  }

  /** A worker comes to rest. */
  lemma Rests(c: Settings, r: Track, w: int) returns (t: Track)
    requires Within(r.s) && w in r.s.workers && !r.s.workers[w].Ended?
    ensures Leads(c, r, t) && Leaving(r, t, |r.s.chan.items|) && Rested(t.s, w)
  {
    Stays(c, r);
    t := r;
    if t.s.workers[w].Delivering? { t := ByOne(c, r, t, w, Settle(Delivered)); }
    if t.s.workers[w].ReleasingRecords? { t := ByOne(c, r, t, w, ReleaseRecords); }
    if t.s.workers[w].ReleasingBytes? { t := ByOne(c, r, t, w, ReleaseBytes); }
  }

  lemma Rest(c: Settings, r: Track, m: Track, w: int) returns (t: Track)
    requires Leads(c, r, m) && Within(m.s) && w in m.s.workers && !m.s.workers[w].Ended?
    ensures Leads(c, r, t) && Leaving(m, t, |m.s.chan.items|) && Rested(t.s, w)
  {
    t := Rests(c, m, w);
    LeadsOn(c, r, m, t);
  }

  lemma {:induction false} PullsTo(c: Settings, r: Track, w: int, n: nat) returns (t: Track)
    requires Within(r.s) && Rested(r.s, w) && n <= |r.s.chan.items|
    ensures Leads(c, r, t) && Leaving(r, t, n) && Rested(t.s, w)
    decreases |r.s.chan.items|
  {
    Stays(c, r);
    t := r;
    if n < |r.s.chan.items| {
      var m := ByOne(c, r, r, w, Receive);
      m := Rest(c, r, m, w);
      t := PullsTo(c, m, w, n);
      LeadsOn(c, r, m, t);
    }
  }

  lemma Attempts(c: Settings, p: Pass, r: Track, m: Track) returns (t: Track)
    requires Leads(c, r, m) && p.Going(c, m) && m.s.holder.Handing? && m.s.holder.keys != []
    ensures Leads(c, r, t) && p.Going(c, t) && SameReadings(m, t) && t.s.now == m.s.now
    ensures t.s.workers == m.s.workers && t.s.chan == m.s.chan
    ensures t.s.holder.Sending? <==> Goes(c, m.s)
    ensures if Goes(c, m.s) then t.asked == m.asked else t.s.holder.Handing? && t.asked == m.asked + [Here(m.s)]
  {
    AttemptGoes(p, c, m);
    t := Leap(c, r, m, ByHolder(Attempt));
  }

  /** The adds that follow a send that went. */
  lemma Counted(c: Settings, p: Pass, r: Track, m: Track) returns (t: Track)
    requires Leads(c, r, m) && p.Going(c, m) && (m.s.holder.Handing? || m.s.holder.CountingRecords?)
    ensures Leads(c, r, t) && p.Going(c, t) && t.s.holder.Handing?
    ensures t == m.(s := t.s) && t.s.chan == m.s.chan && t.s.workers == m.s.workers && t.s.now == m.s.now
  {
    t := m;
    if t.s.holder.CountingRecords? {
      StepGoes(p, c, t, ByHolder(CountRecords));
      t := Leap(c, r, t, ByHolder(CountRecords));
      StepGoes(p, c, t, ByHolder(CountBytes));
      t := Leap(c, r, t, ByHolder(CountBytes));
    }
  }

  lemma Sends(c: Settings, p: Pass, r: Track, m: Track) returns (t: Track)
    requires Leads(c, r, m) && p.Going(c, m) && m.s.holder.Sending?
    ensures Leads(c, r, t) && p.Going(c, t) && t.s.holder.Handing? && t.asked == m.asked + [Here(m.s)]
    ensures SameReadings(m, t) && t.s.workers == m.s.workers && t.s.now == m.s.now
    ensures |t.s.chan.items| == if |m.s.chan.items| < c.queue then |m.s.chan.items| + 1 else |m.s.chan.items|
  {
    StepGoes(p, c, m, ByHolder(Send));
    t := Leap(c, r, m, ByHolder(Send));
    t := Counted(c, p, r, t);
  }

  lemma Tries(c: Settings, p: Pass, r: Track, m: Track) returns (t: Track)
    requires Leads(c, r, m) && p.Going(c, m) && m.s.holder.Handing? && |m.asked| < |p.all|
    ensures Leads(c, r, t) && p.Going(c, t) && t.s.holder.Handing? && t.asked == m.asked + [Here(m.s)]
    ensures t.s.workers == m.s.workers && SameReadings(m, t) && t.s.now == m.s.now
    ensures |t.s.chan.items| == After(c, p.Done(c, m.asked), p.all[|m.asked|], |m.s.chan.items|, p.timed)
  {
    GoesIfLeaves(p, c, m);
    t := Attempts(c, p, r, m);
    if t.s.holder.Sending? { t := Sends(c, p, r, t); }
  }

  /** One key of a pass, with the queue drawn down to what it is to find there, at the time it is to look. */
  lemma KeyRuns(c: Settings, p: Pass, r: Track, w: int, look: Look) returns (t: Track)
    requires p.Going(c, r) && r.s.holder.Handing? && |r.asked| < |p.all|
    requires Rested(r.s, w) && look.queued <= |r.s.chan.items| && r.s.now <= look.at
    ensures Leads(c, r, t) && p.Going(c, t) && t.s.holder.Handing? && t.asked == r.asked + [look]
    ensures Rested(t.s, w) && SameReadings(r, t) && t.s.now == look.at
    ensures |t.s.chan.items| == After(c, p.Done(c, r.asked), p.all[|r.asked|], look.queued, p.timed)
  {
    var m := PullsTo(c, r, w, look.queued);
    OtherGoes(p, c, r, m.s);
    var n := Waits(c, r, m, look.at);
    OtherGoes(p, c, m, n.s);
    t := Tries(c, p, r, n);
  }

  /** What the next key is to find, the queue and the clock allow. */
  ghost predicate Allowed(c: Settings, p: Pass, done: seq<Look>, look: Look)
    requires |done| < |p.all|
  {
    && look.queued <= AfterAll(c, p.mid, p.all[..|done|], done, p.timed, p.found)
    && LastLook(p.since, done) <= look.at
    && AfterAll(c, p.mid, p.all[..|done| + 1], done + [look], p.timed, p.found) ==
       After(c, p.Done(c, done), p.all[|done|], look.queued, p.timed)
  }

  lemma {:induction false} FirstAnswers(c: Settings, p: Pass, asked: seq<Look>, i: nat)
    requires i < |asked| && Answers(c, p.mid, p.all, asked, p.timed, p.since, p.found)
    ensures asked[..i] + [asked[i]] == asked[..i + 1] && Allowed(c, p, asked[..i], asked[i])
    decreases |asked|
  {
    var n := |asked| - 1;
    assert p.all[..i + 1][..i] == p.all[..i] && asked[..i + 1][..i] == asked[..i];
    assert asked[..i] + [asked[i]] == asked[..i + 1];
    if i < n {
      var q := p.(all := p.all[..n]);
      assert q.all[..i] == p.all[..i] && asked[..n][..i] == asked[..i] && q.all[..i + 1] == p.all[..i + 1];
      FirstAnswers(c, q, asked[..n], i);
    }
  }

  lemma PassUnlocks(c: Settings, p: Pass, r: Track, now: Time) returns (t: Track)
    requires p.Going(c, r) && r.s.holder.Handing? && |r.asked| == |p.all| && r.s.now <= now
    ensures Leads(c, r, t) && p.Finished(c, t) && t.asked == r.asked && t.s.holder.Free? && t.s.closer.NotStarted?
    ensures SameReadings(r, t) && t.s.now == now
  {
    Stays(c, r);
    var m := Waits(c, r, r, now);
    OtherGoes(p, c, r, m.s);
    UnlockEnds(p, c, m);
    t := Leap(c, r, m, ByHolder(Unlock));
  }

  /** As far as a pass got, it found what it was to find, and nothing happened since. */
  ghost predicate OnCourse(c: Settings, p: Pass, r: Track, w: int, asked: seq<Look>) {
    && p.Going(c, r) && r.s.holder.Handing? && Rested(r.s, w)
    && |r.asked| <= |asked| && r.asked == asked[..|r.asked|] && r.s.now == LastLook(p.since, r.asked)
    && |r.asked| <= |p.all| && |r.s.chan.items| == AfterAll(c, p.mid, p.all[..|r.asked|], r.asked, p.timed, p.found)
  }

  lemma NextRuns(c: Settings, p: Pass, r: Track, w: int, asked: seq<Look>) returns (t: Track)
    requires OnCourse(c, p, r, w, asked) && |r.asked| < |p.all|
    requires Answers(c, p.mid, p.all, asked, p.timed, p.since, p.found)
    ensures Leads(c, r, t) && OnCourse(c, p, t, w, asked) && SameReadings(r, t) && |t.asked| == |r.asked| + 1
  {
    FirstAnswers(c, p, asked, |r.asked|);
    t := KeyRuns(c, p, r, w, asked[|r.asked|]);
  }

  /** A pass whose keys find what they are to find, and that ends when it is to end. */
  lemma {:induction false} PassRuns(c: Settings, p: Pass, r: Track, w: int, asked: seq<Look>, now: Time)
      returns (t: Track)
    requires OnCourse(c, p, r, w, asked) && LastLook(p.since, asked) <= now
    requires Answers(c, p.mid, p.all, asked, p.timed, p.since, p.found)
    ensures Leads(c, r, t) && p.Finished(c, t) && t.asked == asked && t.s.holder.Free? && t.s.closer.NotStarted?
    ensures SameReadings(r, t) && t.s.now == now
    decreases |asked| - |r.asked|
  {
    var i := |r.asked|;
    if i == |asked| {
      assert asked[..i] == asked;
      t := PassUnlocks(c, p, r, now);
    } else {
      var m := NextRuns(c, p, r, w, asked);
      t := PassRuns(c, p, m, w, asked, now);
      LeadsOn(c, r, m, t);
    }
  }

  function LastOf(since: Time, at: seq<Time>): Time { if at == [] then since else at[|at| - 1] }

  lemma {:induction false} AscendAt(since: Time, at: seq<Time>, ready: Time, k: nat)
    requires Ascend(since, at, ready) && k <= |at|
    ensures LastOf(since, at[..k]) <= if k < |at| then at[k] else ready
    decreases |at|
  {
    if k < |at| {
      var n := |at| - 1;
      assert at[..n][..k] == at[..k];
      AscendAt(since, at[..n], at[n], k);
    } else {
      assert at[..k] == at;
    }
  }

  lemma FillsOne(c: Settings, v: Visit, r: Track, to: Time) returns (t: Track)
    requires v.Entering(c, r) && r.s.holder.Filling? && r.s.holder.done < |v.es| && r.s.now <= to
    ensures Leads(c, r, t) && v.Entering(c, t) && t.s.holder == Filling(v.es, r.s.holder.done + 1) && t.s.now == to
    ensures t.records == r.records && t.size == r.size && t.at == r.at + [to]
    ensures t.asked == r.asked && t.s.chan == r.s.chan && t.s.workers == r.s.workers
  {
    Stays(c, r);
    var m := Waits(c, r, r, to);
    OtherEnters(v, c, r, m.s);
    FillEnters(v, c, m);
    t := Leap(c, r, m, ByHolder(Fill));
  }

  lemma FillsUp(c: Settings, v: Visit, r: Track, ready: Time) returns (t: Track)
    requires v.Entering(c, r) && r.s.holder.Filling? && r.s.holder.done == |v.es| && r.s.now <= ready
    ensures |r.at| == |v.es| && Leads(c, r, t) && v.Then(r.at, ready).Going(c, t) && t.s.holder.Handing?
    ensures t.records == r.records && t.size == r.size && t.at == r.at && t.ready == ready && t.s.now == ready
    ensures t.asked == [] && t.s.chan == r.s.chan && t.s.workers == r.s.workers
  {
    Stays(c, r);
    var m := Waits(c, r, r, ready);
    OtherEnters(v, c, r, m.s);
    FilledPasses(v, c, m);
    t := Leap(c, r, m, ByHolder(HolderStep.Filled));
  }

  /** As far as its events are appended, that was when they were to be. */
  ghost predicate OnTime(c: Settings, v: Visit, r: Track, at: seq<Time>) {
    && v.Entering(c, r) && r.s.holder.Filling? && r.s.holder.done <= |at| == |v.es|
    && r.at == at[..r.s.holder.done] && r.s.now == LastOf(v.since, r.at)
  }

  lemma FillsNext(c: Settings, v: Visit, r: Track, at: seq<Time>, ready: Time) returns (t: Track)
    requires OnTime(c, v, r, at) && Ascend(v.since, at, ready) && r.s.holder.done < |v.es|
    ensures Leads(c, r, t) && OnTime(c, v, t, at) && t.s.holder.done == r.s.holder.done + 1
    ensures t.records == r.records && t.size == r.size
    ensures t.asked == r.asked && t.s.chan == r.s.chan && t.s.workers == r.s.workers
  {
    var k := r.s.holder.done;
    AscendAt(v.since, at, ready, k);
    t := FillsOne(c, v, r, at[k]);
    assert at[..k] + [at[k]] == at[..k + 1];
  }

  /** A request appended event by event, at the times it is to be. */
  lemma {:induction false} FillRuns(c: Settings, v: Visit, r: Track, at: seq<Time>, ready: Time) returns (t: Track)
    requires OnTime(c, v, r, at) && Ascend(v.since, at, ready)
    ensures Leads(c, r, t) && v.Then(at, ready).Going(c, t) && t.s.holder.Handing?
    ensures t.records == r.records && t.size == r.size && t.at == at && t.ready == ready && t.s.now == ready
    ensures t.asked == [] && t.s.chan == r.s.chan && t.s.workers == r.s.workers
    decreases |v.es| - r.s.holder.done
  {
    var k := r.s.holder.done;
    if k < |v.es| {
      var m := FillsNext(c, v, r, at, ready);
      t := FillRuns(c, v, m, at, ready);
      LeadsOn(c, r, m, t);
    } else {
      assert at[..k] == at;
      AscendAt(v.since, at, ready, k);
      t := FillsUp(c, v, r, ready);
    }
  }

  // ----- what the two atomics say -------------------------------------------------------------

  /** Whatever the others do, the holder of the lock standing still. */
  ghost predicate Idles(c: Settings, r: Track, acts: seq<Action>, t: Track)
    decreases |acts|
  {
    if acts == [] then r == t else
    Enabled(c, r.s, acts[0]) && !acts[0].ByHolder? && Idles(c, Follow(c, r, acts[0]), acts[1..], t)
  }

  ghost predicate Idling(c: Settings, r: Track, t: Track) { exists acts :: Idles(c, r, acts, t) }

  /** A request that took the lock in `r` reads `pending` in `a` and `pendingBytes` in `b`, after whatever the others
      did, and fits. */
  ghost predicate Fits(c: Settings, r: Track, es: seq<Event>, a: Track, b: Track) {
    && Idling(c, r, a) && a.s.holder == Checking(es) && !RecordsOver(c, a.s, es)
    && Idling(c, Follow(c, a, ByHolder(CheckRecords)), b) && b.s.holder == RecordsFit(es) && !BytesOver(c, b.s, es)
  }

  lemma {:induction false} IdlesAside(c: Settings, r: Track, acts: seq<Action>, t: Track, w: int)
    requires Idles(c, r, acts, t) && Within(r.s) && r.s.closer.NotStarted? && !r.s.chan.closed
    requires w in r.s.workers && !r.s.workers[w].Ended?
    ensures Aside(r.s, t.s) && t == r.(s := t.s) && Steps(c, r, acts, t) && w in t.s.workers && !t.s.workers[w].Ended?
    decreases |acts|
  {
    if acts != [] {
      OthersStandAside(c, r.s, acts[0]);
      IdlesAside(c, Follow(c, r, acts[0]), acts[1..], t, w);
    }
  }

  lemma IdlingAside(c: Settings, r: Track, t: Track, w: int)
    requires Idling(c, r, t) && Within(r.s) && r.s.closer.NotStarted? && !r.s.chan.closed
    requires w in r.s.workers && !r.s.workers[w].Ended?
    ensures Aside(r.s, t.s) && t == r.(s := t.s) && Leads(c, r, t) && w in t.s.workers && !t.s.workers[w].Ended?
  {
    var acts :| Idles(c, r, acts, t);
    IdlesAside(c, r, acts, t, w);
  }

  /** The holder's first step, after whatever the others did before it. */
  lemma {:induction false} FirstOfHolder(c: Settings, r: Track, acts: seq<Action>, t: Track)
      returns (m: Track, rest: seq<Action>)
    requires Steps(c, r, acts, t) && !r.s.holder.Free? && r.s.closer.NotStarted? && t.s.holder.Free?
    ensures Idling(c, r, m) && rest != [] && rest[0].ByHolder? && Steps(c, m, rest, t)
    decreases |acts|
  {
    if acts[0].ByHolder? {
      m, rest := r, acts;
      assert Idles(c, r, [], m);
    } else {
      OthersStandAside(c, r.s, acts[0]);
      var n := Follow(c, r, acts[0]);
      m, rest := FirstOfHolder(c, n, acts[1..], t);
      var idle :| Idles(c, n, idle, m);
      assert ([acts[0]] + idle)[1..] == idle;
      assert Idles(c, r, [acts[0]] + idle, m);
    }
  }

  /** Where a request that fits stands before its first event is appended. */
  ghost function LetIn(c: Settings, b: Track): Track
    requires b.s.holder.RecordsFit?
  {
    Follow(c, b, ByHolder(CheckBytes))
  }

  /** It is let in with what the atomics said, and the desk as it was. */
  lemma FitsEnters(c: Settings, v: Visit, r: Track, a: Track, b: Track, w: int)
    requires Checked(c) && v.Entering(c, r) && r.s.holder.Checking? && Fits(c, r, v.es, a, b)
    requires w in r.s.workers && !r.s.workers[w].Ended?
    ensures Leads(c, r, LetIn(c, b)) && w in b.s.workers && !b.s.workers[w].Ended? && LetIn(c, b).at == []
    ensures LetIn(c, b).s.holder == Filling(v.es, 0) && LetIn(c, b).s == b.s.(holder := Filling(v.es, 0),
              past := b.s.past.(accepted := b.s.past.accepted + v.es))
    ensures v.(since := b.s.now, found := |b.s.chan.items|).Entering(c, LetIn(c, b))
  {
    IdlingAside(c, r, a, w);
    OtherEnters(v, c, r, a.s);
    CheckEnters(v, c, a, ByHolder(CheckRecords));
    var m := Leap(c, r, a, ByHolder(CheckRecords));
    IdlingAside(c, m, b, w);
    OtherEnters(v, c, m, b.s);
    LeadsOn(c, r, m, b);
    CheckEnters(v, c, b, ByHolder(CheckBytes));
    m := Leap(c, r, b, ByHolder(CheckBytes));
  }

  /** The steps of `enqueue` from there up to its handoffs, with a worker at rest. */
  lemma EntersRun(c: Settings, v: Visit, r: Track, w: int, at: seq<Time>, ready: Time) returns (t: Track)
    requires Checked(c) && v.Entering(c, r) && r.s.holder == Filling(v.es, 0) && r.s.now == v.since
    requires w in r.s.workers && !r.s.workers[w].Ended? && |at| == |v.es| && Ascend(v.since, at, ready)
    ensures Leads(c, r, t) && v.Then(at, ready).Going(c, t) && t.s.holder.Handing? && t.asked == [] && Rested(t.s, w)
    ensures !Over(c, v.d.buf, t.records, t.size, v.es) && |t.s.chan.items| == |r.s.chan.items|
    ensures t.at == at && t.ready == ready && t.s.now == ready
  {
    assert at[..0] == [] && r.at == [];
    var n := FillRuns(c, v, r, at, ready);
    t := Rest(c, r, n, w);
    OtherGoes(v.Then(at, ready), c, n, t.s);
  }

  /** Some section of `enqueue` admits the request, reads this on its way, and has left this behind by then. */
  ghost predicate Admits(c: Settings, s: State, went: seq<Item>, es: seq<Event>, read: Reading, e: Desk, now: Time)
    requires HolderMay(c, s, Request(es))
  {
    exists t ::
      && Leads(c, Start(HolderNext(c, s, Request(es)), went), t) && t.s.holder.Free? && t.s.closer.NotStarted?
      && !Over(c, s.buf, t.records, t.size, es) && ReadBy(t) == read && On(t) == e && t.s.now == now
  }

  /** The request can find the two atomics such that it fits, and goes on from there as the specification says. */
  ghost predicate Allows(c: Settings, s: State, went: seq<Item>, es: seq<Event>, read: Reading, e: Desk, now: Time)
    requires HolderMay(c, s, Request(es))
  {
    exists a, b :: Fits(c, Start(HolderNext(c, s, Request(es)), went), es, a, b)
      && Requested(c, DeskOf(s, went), es, read, b.s.now, |b.s.chan.items|, e, now)
  }

  /** Between sections there is a worker to take batches off the queue, and the books are right. */
  lemma Working(c: Settings, s: State) returns (w: int)
    requires Checked(c) && Reachable(c, s) && s.holder.Free? && s.closer.NotStarted?
    ensures w in s.workers && !s.workers[w].Ended? && !s.chan.closed && Books(s.buf, s.now)
  {
    ReachableKept(c, s);
    CrewIdle(c.workers, One, Unsettled);
    w := 0;
    assert 0 in Crew(c.workers).Keys;
  }

  lemma EnqueueRuns(c: Settings, s: State, went: seq<Item>, es: seq<Event>, w: int, a: Track, b: Track, read: Reading,
                    e: Desk, now: Time)
    requires Checked(c) && HolderMay(c, s, Request(es)) && s.closer.NotStarted? && !s.chan.closed
    requires w in s.workers && !s.workers[w].Ended? && Fits(c, Start(HolderNext(c, s, Request(es)), went), es, a, b)
    requires Requested(c, DeskOf(s, went), es, read, b.s.now, |b.s.chan.items|, e, now)
    ensures Admits(c, s, went, es, read, e, now)
  {
    var v := Visit(DeskOf(s, went), es, s.now, |s.chan.items|, s.past.accepted);
    var r := Start(HolderNext(c, s, Request(es)), went);
    FitsEnters(c, v, r, a, b, w);
    var u := v.(since := b.s.now, found := |b.s.chan.items|);
    var m := EntersRun(c, u, LetIn(c, b), w, read.at, read.ready);
    assert read.asked[..0] == [];
    var t := PassRuns(c, u.Then(read.at, read.ready), m, w, read.asked, now);
    LeadsOn(c, LetIn(c, b), m, t);
    LeadsOn(c, r, LetIn(c, b), t);
  }

  /** A section that has yet to append anything is where it was, whatever the others do. */
  lemma IdlingEnters(c: Settings, v: Visit, r: Track, t: Track, w: int)
    requires v.Entering(c, r) && Idling(c, r, t) && w in r.s.workers && !r.s.workers[w].Ended?
    ensures v.Entering(c, t) && t.s.holder == r.s.holder && w in t.s.workers && !t.s.workers[w].Ended?
    ensures t.s.closer.NotStarted?
  {
    IdlingAside(c, r, t, w);
    OtherEnters(v, c, r, t.s);
  }

  /** To the holder's next step, by way of whatever the others do before it. */
  lemma ComesTo(c: Settings, v: Visit, r: Track, acts: seq<Action>, t: Track, w: int)
      returns (m: Track, rest: seq<Action>)
    requires v.Entering(c, r) && Steps(c, r, acts, t) && t.s.holder.Free? && w in r.s.workers && !r.s.workers[w].Ended?
    ensures Idling(c, r, m) && v.Entering(c, m) && m.s.holder == r.s.holder && m.s.closer.NotStarted?
    ensures w in m.s.workers && !m.s.workers[w].Ended?
    ensures rest != [] && rest[0].ByHolder? && Enabled(c, m.s, rest[0]) && Steps(c, Follow(c, m, rest[0]), rest[1..], t)
  {
    m, rest := FirstOfHolder(c, r, acts, t);
    IdlingEnters(c, v, r, m, w);
  }

  /** With the lock let go a section is over. */
  lemma LetGoIsOver(c: Settings, r: Track, acts: seq<Action>, t: Track)
    requires Steps(c, r, acts, t) && !Within(r.s)
    ensures t == r
  {
  }

  /** A look at one of the atomics that ends in a section that admits the request finds that it fits. */
  lemma LooksOn(c: Settings, v: Visit, r: Track, a: Action, rest: seq<Action>, t: Track)
    requires Checked(c) && v.Entering(c, r) && Enabled(c, r.s, a) && Steps(c, Follow(c, r, a), rest, t)
    requires a == ByHolder(CheckRecords) || a == ByHolder(CheckBytes)
    requires !Over(c, v.d.buf, t.records, t.size, v.es)
    ensures v.Entering(c, Follow(c, r, a))
  {
    CheckEnters(v, c, r, a);
    var n := Follow(c, r, a);
    if n.s.holder.Free? { LetGoIsOver(c, n, rest, t); }
  }

  /** A section that admits a request reads `pending`, and the records fit. */
  lemma ReadsRecords(c: Settings, v: Visit, r: Track, acts: seq<Action>, t: Track, w: int)
      returns (a: Track, rest: seq<Action>)
    requires Checked(c) && v.Entering(c, r) && r.s.holder.Checking? && Steps(c, r, acts, t) && t.s.holder.Free?
    requires !Over(c, v.d.buf, t.records, t.size, v.es) && w in r.s.workers && !r.s.workers[w].Ended?
    ensures Idling(c, r, a) && a.s.holder == Checking(v.es) && !RecordsOver(c, a.s, v.es)
    ensures Steps(c, Follow(c, a, ByHolder(CheckRecords)), rest, t)
    ensures v.Entering(c, Follow(c, a, ByHolder(CheckRecords))) && w in a.s.workers && !a.s.workers[w].Ended?
  {
    a, rest := ComesTo(c, v, r, acts, t, w);
    assert rest[0] == ByHolder(CheckRecords);
    rest := rest[1..];
    LooksOn(c, v, a, ByHolder(CheckRecords), rest, t);
  }

  /** Then `pendingBytes`, and the bytes fit. */
  lemma ReadsBytes(c: Settings, v: Visit, r: Track, acts: seq<Action>, t: Track, w: int)
      returns (b: Track, rest: seq<Action>)
    requires Checked(c) && v.Entering(c, r) && r.s.holder.RecordsFit? && Steps(c, r, acts, t) && t.s.holder.Free?
    requires !Over(c, v.d.buf, t.records, t.size, v.es) && w in r.s.workers && !r.s.workers[w].Ended?
    ensures Idling(c, r, b) && b.s.holder == RecordsFit(v.es) && !BytesOver(c, b.s, v.es)
    ensures Steps(c, LetIn(c, b), rest, t)
  {
    b, rest := ComesTo(c, v, r, acts, t, w);
    assert rest[0] == ByHolder(CheckBytes);
    rest := rest[1..];
    LooksOn(c, v, b, ByHolder(CheckBytes), rest, t);
  }

  lemma AdmittedReads(c: Settings, s: State, went: seq<Item>, es: seq<Event>, acts: seq<Action>, t: Track, w: int)
      returns (a: Track, b: Track)
    requires Checked(c) && HolderMay(c, s, Request(es)) && s.closer.NotStarted? && !s.chan.closed
    requires w in s.workers && !s.workers[w].Ended?
    requires Steps(c, Start(HolderNext(c, s, Request(es)), went), acts, t) && t.s.holder.Free?
    requires t.s.closer.NotStarted? && !Over(c, s.buf, t.records, t.size, es)
    ensures Fits(c, Start(HolderNext(c, s, Request(es)), went), es, a, b)
    ensures Requested(c, DeskOf(s, went), es, ReadBy(t), b.s.now, |b.s.chan.items|, On(t), t.s.now)
  {
    var v := Visit(DeskOf(s, went), es, s.now, |s.chan.items|, s.past.accepted);
    var r := Start(HolderNext(c, s, Request(es)), went);
    var xs, ys;
    a, xs := ReadsRecords(c, v, r, acts, t, w);
    b, ys := ReadsBytes(c, v, Follow(c, a, ByHolder(CheckRecords)), xs, t, w);
    FitsEnters(c, v, r, a, b, w);
    RequestEnds(v.(since := b.s.now, found := |b.s.chan.items|), c, LetIn(c, b), ys, t);
  }

  /** What a section of `enqueue` can come to when it admits a request is what the specification of the method allows,
      from wherever the others have let the two atomics go, for whatever the queue and the clock can say: no more and
      no less. */
  lemma EnqueueExactly(c: Settings, s: State, went: seq<Item>, es: seq<Event>, read: Reading, e: Desk, now: Time)
    requires Checked(c) && Reachable(c, s) && s.holder.Free? && s.closer.NotStarted?
    ensures Admits(c, s, went, es, read, e, now) <==> Allows(c, s, went, es, read, e, now)
  {
    var w := Working(c, s);
    var r := Start(HolderNext(c, s, Request(es)), went);
    if Admits(c, s, went, es, read, e, now) {
      var t :| Leads(c, r, t) && t.s.holder.Free? && t.s.closer.NotStarted? && ReadBy(t) == read && On(t) == e
        && t.s.now == now && !Over(c, s.buf, t.records, t.size, es);
      var acts :| Steps(c, r, acts, t);
      var a, b := AdmittedReads(c, s, went, es, acts, t, w);
    }
    if Allows(c, s, went, es, read, e, now) {
      var a, b :| Fits(c, r, es, a, b) && Requested(c, DeskOf(s, went), es, read, b.s.now, |b.s.chan.items|, e, now);
      EnqueueRuns(c, s, went, es, w, a, b, read, e, now);
    }
  }

  /** Some section of `flush` chooses these and hands them off, reads this on its way, and has left this behind by
      then. */
  ghost predicate Flushes(c: Settings, s: State, went: seq<Item>, winners: seq<string>, read: Reading, e: Desk,
                          now: Time)
    requires HolderMay(c, s, HolderStep.Flush)
  {
    exists t ::
      && Leads(c, Start(HolderNext(c, s, HolderStep.Flush), went), t) && t.s.holder.Free? && t.s.closer.NotStarted?
      && t.keys == winners && ReadBy(t) == read && On(t) == e && t.s.now == now
  }

  lemma ChooseRuns(c: Settings, r: Track, d: Desk, since: Time, found: nat, accepted: seq<Event>, w: int,
                   winners: seq<string>, ready: Time) returns (t: Track)
    requires Seeking(r, d, since, found, accepted) && r.s.now <= ready && w in r.s.workers && !r.s.workers[w].Ended?
    requires MayHandOff(c, d.buf.shares, since, ready, winners) && |r.s.chan.items| == found
    ensures Leads(c, r, t) && t.keys == winners && t.at == [] && t.ready == ready
    ensures OnCourse(c, Pass(d.(timer := Off), winners, true, ready, found, accepted), t, w, t.asked) && t.asked == []
  {
    Stays(c, r);
    var m := Waits(c, r, r, ready);
    ChoosePasses(c, m, d, since, found, accepted, winners);
    var n := Leap(c, r, m, ByHolder(Choose(winners)));
    t := Rest(c, r, n, w);
    OtherGoes(Pass(d.(timer := Off), winners, true, ready, found, accepted), c, n, t.s);
  }

  lemma FlushRuns(c: Settings, s: State, went: seq<Item>, winners: seq<string>, w: int, read: Reading, e: Desk,
                  now: Time)
    requires HolderMay(c, s, HolderStep.Flush) && s.closer.NotStarted? && !s.chan.closed && s.buf.shares != map[]
    requires w in s.workers && !s.workers[w].Ended?
    requires Flushed(c, DeskOf(s, went), winners, read, s.now, |s.chan.items|, e, now)
    ensures Flushes(c, s, went, winners, read, e, now)
  {
    var d, r := DeskOf(s, went), Start(HolderNext(c, s, HolderStep.Flush), went);
    var m := ChooseRuns(c, r, d, s.now, |s.chan.items|, s.past.accepted, w, winners, read.ready);
    assert read.asked[..0] == [];
    var p := Pass(d.(timer := Off), winners, true, read.ready, |s.chan.items|, s.past.accepted);
    var t := PassRuns(c, p, m, w, read.asked, now);
    LeadsOn(c, r, m, t);
  }

  /** And the same of a flush with something to look at, for whichever keys it chose. */
  lemma FlushExactly(c: Settings, s: State, went: seq<Item>, winners: seq<string>, read: Reading, e: Desk, now: Time)
    requires Checked(c) && Reachable(c, s) && s.closer.NotStarted? && HolderMay(c, s, HolderStep.Flush)
    requires s.buf.shares != map[]
    ensures Flushes(c, s, went, winners, read, e, now) <==>
            Flushed(c, DeskOf(s, went), winners, read, s.now, |s.chan.items|, e, now)
  {
    var w := Working(c, s);
    var r := Start(HolderNext(c, s, HolderStep.Flush), went);
    if Flushes(c, s, went, winners, read, e, now) {
      var t :| Leads(c, r, t) && t.s.holder.Free? && t.s.closer.NotStarted? && t.keys == winners && ReadBy(t) == read
        && On(t) == e && t.s.now == now;
      var acts :| Steps(c, r, acts, t);
      FlushIsAsSpecified(c, s, went, acts, t);
    }
    if Flushed(c, DeskOf(s, went), winners, read, s.now, |s.chan.items|, e, now) {
      FlushRuns(c, s, went, winners, w, read, e, now);
    }
  }

  lemma GatherUnlocks(c: Settings, x: Shutting, r: Track) returns (t: Track)
    requires x.Gathers(r) && Books(x.d.buf, x.now) && r.s.holder.keys == []
    ensures Leads(c, r, t) && x.Shut(t) && t.s.chan == r.s.chan && t.s.workers == r.s.workers
    ensures t.s.closer == if x.Ready().events == [] then ClosingQueue else Offering(x.Ready())
  {
    Stays(c, r);
    UnlockShuts(x, c, r);
    t := Leap(c, r, r, ByHolder(UnlockForClose));
  }

  lemma Takes(c: Settings, r: Track) returns (t: Track)
    requires Within(r.s) && r.s.holder.Draining? && r.s.holder.keys != []
    ensures Leads(c, r, t) && t == r.(s := TakenForClose(r.s))
    ensures t.s.chan == r.s.chan && t.s.workers == r.s.workers && |t.s.holder.keys| == |r.s.holder.keys| - 1
  {
    Stays(c, r);
    t := Leap(c, r, r, ByHolder(TakeForClose));
  }

  /** Each bucket gathered in turn, and the lock let go. */
  lemma {:induction false} GatherRuns(c: Settings, x: Shutting, r: Track) returns (t: Track)
    requires x.Gathers(r) && Books(x.d.buf, x.now)
    ensures Leads(c, r, t) && x.Shut(t) && t.s.chan == r.s.chan && t.s.workers == r.s.workers
    ensures t.s.closer == if x.Ready().events == [] then ClosingQueue else Offering(x.Ready())
    decreases if r.s.holder.Draining? then |r.s.holder.keys| else 0
  {
    if r.s.holder.keys != [] {
      GatherGoes(x, r);
      var m := Takes(c, r);
      t := GatherRuns(c, x, m);
      LeadsOn(c, r, m, t);
    } else {
      t := GatherUnlocks(c, x, r);
    }
  }

  /** The batch put on the queue, once there is room. */
  lemma OfferRuns(c: Settings, x: Shutting, r: Track, m: Track, w: int) returns (t: Track)
    requires c.queue >= 1 && Leads(c, r, m) && x.Shut(m) && m.s.closer.Offering?
    requires w in m.s.workers && !m.s.workers[w].Ended?
    ensures Leads(c, r, t) && t.s.closer == ClosingQueue && t.went == x.d.went + [x.Ready()] && t.inline == NOTHING
  {
    t := Rest(c, r, m, w);
    var n := PullsTo(c, t, w, 0);
    LeadsOn(c, r, t, n);
    t := Leap(c, r, n, ByCloser(Offer));
    t := Leap(c, r, t, ByCloser(CountOffer));
    t := Leap(c, r, t, ByCloser(CountOfferBytes));
  }

  /** The batch kept, and delivered where it is. */
  lemma KeepRuns(c: Settings, x: Shutting, r: Track, m: Track) returns (t: Track)
    requires Leads(c, r, m) && x.Shut(m) && m.s.closer.Offering?
    ensures Leads(c, r, t) && t.s.closer == ClosingQueue && t.went == x.d.went && t.inline == x.Ready()
  {
    t := Leap(c, r, m, ByCloser(GiveUpOffer));
    t := Leap(c, r, t, ByCloser(SettleInline(Delivered)));
  }

  /** A `close` that starts so can end with this on the queue and this kept. */
  ghost predicate Closes(c: Settings, r: Track, went: seq<Item>, inline: Item) {
    exists t :: Leads(c, r, t) && t.s.chan.closed && t.went == went && t.inline == inline
  }

  lemma CloseRuns(c: Settings, s: State, before: seq<Item>, w: int, inTime: bool, room: bool, went: seq<Item>,
                  inline: Item)
    requires c.queue >= 1 && HolderMay(c, s, HolderStep.Close) && !s.chan.closed && Books(s.buf, s.now)
    requires w in s.workers && !s.workers[w].Ended?
    requires Left(before, Gathered(s.buf.shares, SortedKeys(s.buf.shares.Keys)), inTime, room, went, inline)
    ensures Closes(c, Start(HolderNext(c, s, HolderStep.Close), before), went, inline)
  {
    var x, r := Shutting(DeskOf(s, before), s.now), Start(HolderNext(c, s, HolderStep.Close), before);
    CloseGathers(x, c, s);
    GatheredExact(s.buf.shares, x.All(), s.now);
    var m := GatherRuns(c, x, r);
    if m.s.closer.Offering? {
      if went == before { m := KeepRuns(c, x, r, m); } else { m := OfferRuns(c, x, r, m, w); }
    }
    var t := Leap(c, r, m, ByCloser(CloserStep.CloseQueue));
  }

  /** And of `close`: what is on the queue when it is closed, and what `close` delivers itself. */
  lemma CloseExactly(c: Settings, s: State, before: seq<Item>, went: seq<Item>, inline: Item)
    requires Checked(c) && Reachable(c, s) && s.holder.Free? && s.closer.NotStarted?
    ensures Closes(c, Start(HolderNext(c, s, HolderStep.Close), before), went, inline) <==>
      Left(before, Gathered(s.buf.shares, SortedKeys(s.buf.shares.Keys)), went != before, true, went, inline)
  {
    var w := Working(c, s);
    var r := Start(HolderNext(c, s, HolderStep.Close), before);
    if Closes(c, r, went, inline) {
      var t :| Leads(c, r, t) && t.s.chan.closed && t.went == went && t.inline == inline;
      var acts :| Steps(c, r, acts, t);
      CloseIsAsSpecified(c, s, before, acts, t);
    }
    if Left(before, Gathered(s.buf.shares, SortedKeys(s.buf.shares.Keys)), went != before, true, went, inline) {
      CloseRuns(c, s, before, w, went != before, true, went, inline);
    }
  }
}
