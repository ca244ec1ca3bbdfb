/** What holds in every state of every interleaving of the pipe. */
module PipeSafety {
  import opened Ordering
  import opened Tally
  import opened Buffering
  import opened PipeProtocol

  // ----- the shape of every state -------------------------------------------------------------

  lemma AppendKept(bs: Shares, e: Event, now: Time)
    requires now > 0 && BucketShape(bs, now)
    ensures BucketShape(Append(bs, e, now), now)
  {
    assert [] + [e] == [e];
    WeighLast(if e.key in bs then bs[e.key].batch else [], e, Bytes);
  }

  lemma FilledKeys(req: seq<Event>, bs: Shares)
    requires forall i | 0 <= i < |req| :: req[i].key in bs
    ensures Keyed(Sort(Touched(req)), bs)
  {
    TouchedDistinct(req);
    SortOfDistinct(Touched(req));
    forall k | k in Sort(Touched(req)) ensures k in bs {
      assert k in Elements(Touched(req));
      var i :| 0 <= i < |req| && req[i].key == k;
    }
  }

  lemma DrainKeys(keys: seq<string>, bs: Shares)
    requires keys != [] && Distinct(keys) && Elements(keys) == bs.Keys
    ensures keys[0] in bs && Distinct(keys[1..]) && Elements(keys[1..]) == (bs - {keys[0]}).Keys
  {
  }

  lemma FillShape(c: Settings, s: State)
    requires Shape(s) && HolderMay(c, s, Fill)
    ensures Shape(HolderNext(c, s, Fill))
  {
    AppendKept(s.buf.shares, s.holder.req[s.holder.done], s.now);
  }

  lemma AttemptShape(c: Settings, s: State)
    requires Shape(s) && s.holder.Handing? && s.holder.keys != []
    ensures Shape(Attempted(c, s))
  {
  }

  lemma SendShape(c: Settings, s: State)
    requires Shape(s) && s.holder.Sending?
    ensures Shape(Sent(c, s))
  {
  }

  lemma TakeForCloseShape(s: State)
    requires Shape(s) && s.holder.Draining? && s.holder.keys != []
    ensures Shape(TakenForClose(s))
  {
    DrainKeys(s.holder.keys, s.buf.shares);
    WeighConcat(s.holder.ready.events, s.buf.shares[s.holder.keys[0]].batch, Bytes);
  }

  lemma HolderStepShape(c: Settings, s: State, h: HolderStep)
    requires Shape(s) && HolderMay(c, s, h)
    ensures Shape(HolderNext(c, s, h))
  {
    match h
    case Fill => FillShape(c, s);
    case Filled => FilledKeys(s.holder.req, s.buf.shares);
    case Attempt => AttemptShape(c, s);
    case Send => SendShape(c, s);
    case TakeForClose => TakeForCloseShape(s);
    case UnlockForClose => assert s.buf.shares.Keys == {};
    case _ =>
  }

  lemma WorkerStepShape(s: State, w: int, k: WorkerStep)
    requires Shape(s) && WorkerMay(s, w, k)
    ensures Shape(WorkerNext(s, w, k))
  {
  }

  lemma CloserStepShape(c: Settings, s: State, x: CloserStep)
    requires Shape(s) && CloserMay(c, s, x)
    ensures Shape(CloserNext(c, s, x))
  {
  }

  lemma StepShape(c: Settings, s: State, a: Action)
    requires Shape(s) && Enabled(c, s, a)
    ensures Shape(Apply(c, s, a))
  {
    match a
    case ByHolder(h) => HolderStepShape(c, s, h);
    case ByWorker(w, k) => WorkerStepShape(s, w, k);
    case ByCloser(x) => CloserStepShape(c, s, x);
    case _ =>
  }

  // ----- accounting: what one step moves, by an arbitrary weight ------------------------------

  lemma AppendWeight(bs: Shares, e: Event, now: Time, w: Event -> int)
    ensures InBuckets(Append(bs, e, now), w) == InBuckets(bs, w) + w(e)
  {
    SumPut(bs, ShareWeight(w), e.key, Append(bs, e, now)[e.key]);
    assert [] + [e] == [e];
    WeighLast(if e.key in bs then bs[e.key].batch else [], e, w);
  }

  lemma TakeWeight(bs: Shares, key: string, w: Event -> int)
    requires key in bs
    ensures InBuckets(bs - {key}, w) == InBuckets(bs, w) - Weigh(bs[key].batch, w)
  {
    SumAt(bs, ShareWeight(w), key);
  }

  lemma ReturnWeight(bs: Shares, key: string, b: Share, w: Event -> int)
    requires key !in bs
    ensures InBuckets(PutBack(bs, key, b), w) == InBuckets(bs, w) + Weigh(b.batch, w)
  {
    SumPut(bs, ShareWeight(w), key, b);
  }

  lemma QueuedWeight(q: Channel, item: Item, w: Event -> int)
    ensures InQueue(Queued(q, item), w) == InQueue(q, w) + Weigh(item.events, w)
  {
    WeighLast(q.items, item, ItemWeight(w));
  }

  /** The events a step admits. */
  ghost function Admitted(c: Settings, s: State, h: HolderStep): seq<Event>
    requires HolderMay(c, s, h)
  {
    if h == CheckBytes && !BytesOver(c, s, s.holder.req) then s.holder.req else []
  }

  lemma FillWeight(c: Settings, s: State, w: Event -> int, p: Phase)
    requires HolderMay(c, s, Fill)
    ensures Load(HolderNext(c, s, Fill), w, p) == Load(s, w, p)
  {
    var req, i := s.holder.req, s.holder.done;
    AppendWeight(s.buf.shares, req[i], s.now, w);
    assert req[i..][1..] == req[i + 1..];
  }

  lemma AttemptWeight(c: Settings, s: State, w: Event -> int, p: Phase)
    requires s.holder.Handing? && s.holder.keys != []
    ensures Load(Attempted(c, s), w, p) == Load(s, w, p)
  {
    if Goes(c, s) { TakeWeight(s.buf.shares, s.holder.keys[0], w); }
  }

  lemma SentWeight(c: Settings, s: State, w: Event -> int, p: Phase)
    requires Shape(s) && s.holder.Sending?
    ensures Load(Sent(c, s), w, p) == Load(s, w, p)
  {
    if Accepts(c, s.chan) {
      QueuedWeight(s.chan, ItemOf(s.holder.share), w);
    } else {
      ReturnWeight(s.buf.shares, s.holder.key, s.holder.share, w);
    }
  }

  lemma TakeForCloseWeight(s: State, w: Event -> int, p: Phase)
    requires Shape(s) && s.holder.Draining? && s.holder.keys != []
    ensures Load(TakenForClose(s), w, p) == Load(s, w, p)
  {
    DrainKeys(s.holder.keys, s.buf.shares);
    TakeWeight(s.buf.shares, s.holder.keys[0], w);
    WeighConcat(s.holder.ready.events, s.buf.shares[s.holder.keys[0]].batch, w);
  }

  lemma UnlockForCloseWeight(c: Settings, s: State, w: Event -> int, p: Phase)
    requires Shape(s) && HolderMay(c, s, UnlockForClose)
    ensures Load(HolderNext(c, s, UnlockForClose), w, p) == Load(s, w, p)
  {
  }

  /** Steps that touch neither the buckets nor the queue. */
  predicate Quiet(h: HolderStep) {
    h.Request? || h.CheckRecords? || h.Filled? || h.Flush? || h.Choose? || h.CountRecords? || h.CountBytes? ||
    h.Unlock? || h.Close?
  }

  lemma QuietLoad(c: Settings, s: State, h: HolderStep, w: Event -> int, p: Phase)
    requires Quiet(h) && HolderMay(c, s, h)
    ensures Load(HolderNext(c, s, h), w, p) == Load(s, w, p)
  {
  }

  lemma AdmitLoad(c: Settings, s: State, w: Event -> int, p: Phase)
    requires HolderMay(c, s, CheckBytes)
    ensures Load(HolderNext(c, s, CheckBytes), w, p) == Load(s, w, p) + Weigh(Admitted(c, s, CheckBytes), w)
  {
    assert s.holder.req[0..] == s.holder.req;
  }

  /** No step under the lock loses or invents an event: only admission adds. */
  lemma HolderLoad(c: Settings, s: State, h: HolderStep, w: Event -> int, p: Phase)
    requires Shape(s) && HolderMay(c, s, h)
    ensures Load(HolderNext(c, s, h), w, p) == Load(s, w, p) + Weigh(Admitted(c, s, h), w)
  {
    match h
    case CheckBytes => AdmitLoad(c, s, w, p);
    case Fill => FillWeight(c, s, w, p);
    case Attempt => AttemptWeight(c, s, w, p);
    case Send => SentWeight(c, s, w, p);
    case TakeForClose => TakeForCloseWeight(s, w, p);
    case UnlockForClose => UnlockForCloseWeight(c, s, w, p);
    case _ => QuietLoad(c, s, h, w, p);
  }

  /** The events a worker stops counting at this step, as `p` sees it. */
  function Dropped(s: State, w: int, k: WorkerStep, p: Phase): seq<Event>
    requires WorkerMay(s, w, k)
  {
    if (k.Settle? && p == Unsettled) || (k == ReleaseRecords && p == RecordsCounted) ||
       (k == ReleaseBytes && p == BytesCounted)
    then s.workers[w].item.events else []
  }

  lemma WorkerSwap(ks: map<int, Worker>, w: int, k: Worker, f: Event -> int, p: Phase)
    requires w in ks
    ensures InWorkers(ks[w := k], f, p) == InWorkers(ks, f, p) - Weigh(Carries(ks[w], p), f) + Weigh(Carries(k, p), f)
  {
    SumPut(ks, WorkerWeight(f, p), w, k);
  }

  /** A batch a worker receives stays counted until the step that drops it. */
  lemma WorkerLoad(s: State, w: int, k: WorkerStep, f: Event -> int, p: Phase)
    requires WorkerMay(s, w, k)
    ensures InPool(WorkerNext(s, w, k), f, p) == InPool(s, f, p) - Weigh(Dropped(s, w, k, p), f)
    ensures Load(WorkerNext(s, w, k), f, p) == Load(s, f, p) - Weigh(Dropped(s, w, k, p), f)
  {
    WorkerSwap(s.workers, w, WorkerNext(s, w, k).workers[w], f, p);
  }

  lemma CloserLoad(c: Settings, s: State, x: CloserStep, w: Event -> int, p: Phase)
    requires CloserMay(c, s, x)
    ensures Load(CloserNext(c, s, x), w, p) ==
      Load(s, w, p) - (if x.SettleInline? then Weigh(s.closer.item.events, w) else 0)
  {
    if x == Offer { QueuedWeight(s.chan, s.closer.item, w); }
  }

  // ----- conservation -------------------------------------------------------------------------

  /** Every accepted event is in memory or settled, by any weight; with the weight that counts one event,
      it is in exactly one place. */
  ghost predicate Conserved(s: State, w: Event -> int) {
    Weigh(s.past.accepted, w) == Load(s, w, Unsettled) + Weigh(s.past.settled, SettledWeight(w))
  }

  lemma SettledOne(past: seq<Settled>, d: Settled, w: Event -> int)
    ensures Weigh(past + [d], SettledWeight(w)) == Weigh(past, SettledWeight(w)) + Weigh(d.events, w)
  {
    WeighLast(past, d, SettledWeight(w));
  }

  lemma HolderPast(c: Settings, s: State, h: HolderStep)
    requires HolderMay(c, s, h)
    ensures HolderNext(c, s, h).past.settled == s.past.settled
    ensures HolderNext(c, s, h).past.accepted == s.past.accepted + Admitted(c, s, h)
  {
  }

  lemma HolderConserves(c: Settings, s: State, h: HolderStep, w: Event -> int)
    requires Shape(s) && HolderMay(c, s, h) && Conserved(s, w)
    ensures Conserved(HolderNext(c, s, h), w)
  {
    HolderPast(c, s, h);
    HolderLoad(c, s, h, w, Unsettled);
    WeighConcat(s.past.accepted, Admitted(c, s, h), w);
  }

  lemma WorkerConserves(s: State, i: int, k: WorkerStep, w: Event -> int)
    requires WorkerMay(s, i, k) && Conserved(s, w)
    ensures Conserved(WorkerNext(s, i, k), w)
  {
    WorkerLoad(s, i, k, w, Unsettled);
    if k.Settle? { SettledOne(s.past.settled, Settled(s.workers[i].item.events, k.outcome), w); }
  }

  lemma CloserConserves(c: Settings, s: State, x: CloserStep, w: Event -> int)
    requires CloserMay(c, s, x) && Conserved(s, w)
    ensures Conserved(CloserNext(c, s, x), w)
  {
    CloserLoad(c, s, x, w, Unsettled);
    if x.SettleInline? { SettledOne(s.past.settled, Settled(s.closer.item.events, x.outcome), w); }
  }

  lemma StepConserves(c: Settings, s: State, a: Action, w: Event -> int)
    requires Shape(s) && Enabled(c, s, a) && Conserved(s, w)
    ensures Conserved(Apply(c, s, a), w)
  {
    match a
    case ByHolder(h) => HolderConserves(c, s, h, w);
    case ByWorker(i, k) => WorkerConserves(s, i, k, w);
    case ByCloser(x) => CloserConserves(c, s, x, w);
    case _ =>
  }

  // ----- the counters -------------------------------------------------------------------------

  /** Sent, and not yet added to `pending` by the sender. */
  function UnaddedRecords(h: Holder, x: Closer): seq<Event> {
    (if h.CountingRecords? then h.item.events else []) + (if x.CountingOffer? then x.item.events else [])
  }

  /** Sent, and not yet added to `pendingBytes`. */
  function UnaddedBytes(h: Holder, x: Closer): seq<Event> {
    (if h.CountingRecords? || h.CountingBytes? then h.item.events else [])
    + (if x.CountingOffer? || x.CountingOfferBytes? then x.item.events else [])
  }

  /** Appended, and not yet added to `held` and `bytes`. */
  function Uncounted(h: Holder): seq<Event> {
    if h.Filling? && 0 <= h.done <= |h.req| then h.req[..h.done] else []
  }

  /** The redundant counters are exact, up to the adds their own goroutine has yet to make. `pending` may be
      below zero while a sender has not added what a worker already released. */
  ghost predicate Counted(s: State) {
    && s.buf.held + |Uncounted(s.holder)| == InBuckets(s.buf.shares, One)
    && s.buf.bytes + Weigh(Uncounted(s.holder), Bytes) == InBuckets(s.buf.shares, Bytes)
    && s.counts.pending + |UnaddedRecords(s.holder, s.closer)| == InPool(s, One, RecordsCounted)
    && s.counts.pendingBytes + Weigh(UnaddedBytes(s.holder, s.closer), Bytes) == InPool(s, Bytes, BytesCounted)
  }

  lemma AppendSums(bs: Shares, e: Event, now: Time)
    ensures InBuckets(Append(bs, e, now), One) == InBuckets(bs, One) + 1
    ensures InBuckets(Append(bs, e, now), Bytes) == InBuckets(bs, Bytes) + e.size
  {
    AppendWeight(bs, e, now, One);
    AppendWeight(bs, e, now, Bytes);
  }

  lemma OneMoreBytes(req: seq<Event>, i: nat)
    requires i < |req|
    ensures Weigh(req[..i + 1], Bytes) == Weigh(req[..i], Bytes) + req[i].size
  {
    assert req[..i + 1] == req[..i] + [req[i]];
    WeighLast(req[..i], req[i], Bytes);
  }

  lemma FillCounted(c: Settings, s: State)
    requires Shape(s) && Counted(s) && HolderMay(c, s, Fill)
    ensures Counted(HolderNext(c, s, Fill))
  {
    var req, i := s.holder.req, s.holder.done;
    AppendSums(s.buf.shares, req[i], s.now);
    OneMoreBytes(req, i);
  }

  lemma AttemptCounted(c: Settings, s: State)
    requires Shape(s) && Counted(s) && s.holder.Handing? && s.holder.keys != []
    ensures Counted(Attempted(c, s))
  {
    if Goes(c, s) {
      TakeWeight(s.buf.shares, s.holder.keys[0], One);
      TakeWeight(s.buf.shares, s.holder.keys[0], Bytes);
      WeighOnes(s.buf.shares[s.holder.keys[0]].batch, One);
    }
  }

  lemma SentCounted(c: Settings, s: State)
    requires Shape(s) && Counted(s) && s.holder.Sending?
    ensures Counted(Sent(c, s))
  {
    var b := s.holder.share;
    WeighOnes(b.batch, One);
    if Accepts(c, s.chan) {
      QueuedWeight(s.chan, ItemOf(b), One);
      QueuedWeight(s.chan, ItemOf(b), Bytes);
      assert b.batch + [] == b.batch;
    } else {
      ReturnWeight(s.buf.shares, s.holder.key, b, One);
      ReturnWeight(s.buf.shares, s.holder.key, b, Bytes);
    }
  }

  /** A bucket taken takes its share off both totals. */
  lemma TakeSums(buf: Buffer, key: string)
    requires key in buf.shares && Exact(ItemOf(buf.shares[key]))
    ensures InBuckets(Take(buf, key).shares, One) - Take(buf, key).held == InBuckets(buf.shares, One) - buf.held
    ensures InBuckets(Take(buf, key).shares, Bytes) - Take(buf, key).bytes == InBuckets(buf.shares, Bytes) - buf.bytes
  {
    TakeWeight(buf.shares, key, One);
    TakeWeight(buf.shares, key, Bytes);
    WeighOnes(buf.shares[key].batch, One);
  }

  lemma TakeForCloseCounted(s: State)
    requires Shape(s) && Counted(s) && s.holder.Draining? && s.holder.keys != []
    ensures Counted(TakenForClose(s))
  {
    DrainKeys(s.holder.keys, s.buf.shares);
    TakeSums(s.buf, s.holder.keys[0]);
  }

  lemma AddsCounted(c: Settings, s: State, h: HolderStep)
    requires Shape(s) && Counted(s) && (h == CountRecords || h == CountBytes) && HolderMay(c, s, h)
    ensures Counted(HolderNext(c, s, h))
  {
    assert s.holder.item.events + [] == s.holder.item.events;
  }

  lemma FilledCounted(c: Settings, s: State)
    requires Shape(s) && Counted(s) && HolderMay(c, s, Filled)
    ensures Counted(HolderNext(c, s, Filled))
  {
    assert s.holder.req[..s.holder.done] == s.holder.req;
  }

  lemma SameCounts(s: State, t: State)
    requires Counted(s) && t.buf == s.buf && t.counts == s.counts && t.chan == s.chan && t.workers == s.workers
    requires Uncounted(t.holder) == Uncounted(s.holder)
    requires UnaddedRecords(t.holder, t.closer) == UnaddedRecords(s.holder, s.closer)
    requires UnaddedBytes(t.holder, t.closer) == UnaddedBytes(s.holder, s.closer)
    ensures Counted(t)
  {
  }

  lemma AdmitCounted(c: Settings, s: State)
    requires Counted(s) && HolderMay(c, s, CheckBytes)
    ensures Counted(HolderNext(c, s, CheckBytes))
  {
    var t := HolderNext(c, s, CheckBytes);
    assert t.holder == (if BytesOver(c, s, s.holder.req) then Free else Filling(s.holder.req, 0));
    assert Uncounted(s.holder) == [] && s.holder.req[..0] == [];
    SameCounts(s, t);
  }

  lemma QuietCounted(c: Settings, s: State, h: HolderStep)
    requires Counted(s) && HolderMay(c, s, h)
    requires h.Request? || h.CheckRecords? || h.Flush? || h.Choose? || h.Unlock? || h.Close? || h.UnlockForClose?
    requires h.UnlockForClose? ==> s.closer == UnderLock
    ensures Counted(HolderNext(c, s, h))
  {
    SameCounts(s, HolderNext(c, s, h));
  }

  lemma HolderCounted(c: Settings, s: State, h: HolderStep)
    requires Shape(s) && Counted(s) && HolderMay(c, s, h)
    ensures Counted(HolderNext(c, s, h))
  {
    match h
    case CheckBytes => AdmitCounted(c, s);
    case Fill => FillCounted(c, s);
    case Filled => FilledCounted(c, s);
    case Attempt => AttemptCounted(c, s);
    case Send => SentCounted(c, s);
    case CountRecords => AddsCounted(c, s, h);
    case CountBytes => AddsCounted(c, s, h);
    case TakeForClose => TakeForCloseCounted(s);
    case _ => QuietCounted(c, s, h);
  }

  lemma WorkerCounted(s: State, w: int, k: WorkerStep)
    requires Shape(s) && Counted(s) && WorkerMay(s, w, k)
    ensures Counted(WorkerNext(s, w, k))
  {
    WorkerLoad(s, w, k, One, RecordsCounted);
    WorkerLoad(s, w, k, Bytes, BytesCounted);
    WeighOnes(Dropped(s, w, k, RecordsCounted), One);
  }

  lemma CloserCounted(c: Settings, s: State, x: CloserStep)
    requires Shape(s) && Counted(s) && CloserMay(c, s, x)
    ensures Counted(CloserNext(c, s, x))
  {
    match x
    case Offer =>
      QueuedWeight(s.chan, s.closer.item, One);
      QueuedWeight(s.chan, s.closer.item, Bytes);
      WeighOnes(s.closer.item.events, One);
      assert [] + s.closer.item.events == s.closer.item.events;
    case CountOfferBytes => assert [] + s.closer.item.events == s.closer.item.events;
    case _ =>
  }

  lemma StepCounted(c: Settings, s: State, a: Action)
    requires Shape(s) && Enabled(c, s, a) && Counted(s)
    ensures Counted(Apply(c, s, a))
  {
    match a
    case ByHolder(h) => HolderCounted(c, s, h);
    case ByWorker(i, k) => WorkerCounted(s, i, k);
    case ByCloser(x) => CloserCounted(c, s, x);
    case _ =>
  }

  // ----- the ceilings -------------------------------------------------------------------------

  /** Room promised to a request whose records were counted and whose bytes were not yet. */
  function Promised(h: Holder): int { if h.RecordsFit? then |h.req| else 0 }

  ghost predicate WithinCeilings(c: Settings, s: State) {
    && Load(s, One, RecordsCounted) + Promised(s.holder) <= c.maxRecords
    && Load(s, Bytes, BytesCounted) <= c.maxBytes
  }

  /** What `enqueue` adds up under the lock is everything resident: nothing is in a hand then, and the two
      atomics can only be above what they will be a moment later. */
  lemma ReadingIsLoad(s: State)
    requires Shape(s) && Counted(s) && (s.holder.Checking? || s.holder.RecordsFit?)
    ensures Load(s, One, RecordsCounted) == s.buf.held + s.counts.pending
    ensures Load(s, Bytes, BytesCounted) == s.buf.bytes + s.counts.pendingBytes
  {
  }

  lemma CheckRecordsCeilings(c: Settings, s: State)
    requires Shape(s) && Counted(s) && WithinCeilings(c, s) && HolderMay(c, s, CheckRecords)
    ensures WithinCeilings(c, HolderNext(c, s, CheckRecords))
  {
  }

  lemma CheckBytesCeilings(c: Settings, s: State)
    requires Checked(c) && Shape(s) && Counted(s) && WithinCeilings(c, s) && HolderMay(c, s, CheckBytes)
    ensures WithinCeilings(c, HolderNext(c, s, CheckBytes))
  {
    ReadingIsLoad(s);
    HolderLoad(c, s, CheckBytes, One, RecordsCounted);
    HolderLoad(c, s, CheckBytes, Bytes, BytesCounted);
    WeighOnes(s.holder.req, One);
  }

  lemma OnlyRequestsPromise(c: Settings, s: State, h: HolderStep)
    requires HolderMay(c, s, h) && h != CheckRecords && h != CheckBytes
    ensures Promised(HolderNext(c, s, h).holder) == 0 && Admitted(c, s, h) == []
  {
  }

  lemma NoMoreThan(c: Settings, s: State, t: State)
    requires WithinCeilings(c, s) && Promised(s.holder) >= 0 && Promised(t.holder) == 0
    requires Load(t, One, RecordsCounted) <= Load(s, One, RecordsCounted)
    requires Load(t, Bytes, BytesCounted) <= Load(s, Bytes, BytesCounted)
    ensures WithinCeilings(c, t)
  {
  }

  lemma HolderCeilings(c: Settings, s: State, h: HolderStep)
    requires Checked(c) && Shape(s) && Counted(s) && WithinCeilings(c, s) && HolderMay(c, s, h)
    ensures WithinCeilings(c, HolderNext(c, s, h))
  {
    if h == CheckRecords {
      CheckRecordsCeilings(c, s);
    } else if h == CheckBytes {
      CheckBytesCeilings(c, s);
    } else {
      HolderLoad(c, s, h, One, RecordsCounted);
      HolderLoad(c, s, h, Bytes, BytesCounted);
      OnlyRequestsPromise(c, s, h);
      NoMoreThan(c, s, HolderNext(c, s, h));
    }
  }

  lemma WorkerCeilings(c: Settings, s: State, i: int, k: WorkerStep)
    requires WithinCeilings(c, s) && WorkerMay(s, i, k)
    ensures WithinCeilings(c, WorkerNext(s, i, k))
  {
    WorkerLoad(s, i, k, One, RecordsCounted);
    WorkerLoad(s, i, k, Bytes, BytesCounted);
    WeighNonNegative(Dropped(s, i, k, RecordsCounted), One);
    WeighNonNegative(Dropped(s, i, k, BytesCounted), Bytes);
  }

  lemma CloserCeilings(c: Settings, s: State, x: CloserStep)
    requires WithinCeilings(c, s) && CloserMay(c, s, x)
    ensures WithinCeilings(c, CloserNext(c, s, x))
  {
    CloserLoad(c, s, x, One, RecordsCounted);
    CloserLoad(c, s, x, Bytes, BytesCounted);
    if x.SettleInline? {
      WeighNonNegative(s.closer.item.events, One);
      WeighNonNegative(s.closer.item.events, Bytes);
    }
  }

  lemma StepCeilings(c: Settings, s: State, a: Action)
    requires Checked(c) && Shape(s) && Counted(s) && WithinCeilings(c, s) && Enabled(c, s, a)
    ensures WithinCeilings(c, Apply(c, s, a))
  {
    match a
    case ByHolder(h) => HolderCeilings(c, s, h);
    case ByWorker(i, k) => WorkerCeilings(c, s, i, k);
    case ByCloser(x) => CloserCeilings(c, s, x);
    case _ =>
  }

  // ----- order --------------------------------------------------------------------------------

  /** Taken out of the buckets and not handed over yet. */
  function Hand(h: Holder, x: Closer): seq<Event> { if x.Offering? then x.item.events else HolderHand(h) }

  /** For each key: what was handed over, then what is in a hand, then its bucket, then what the request
      under way has yet to append, is that key's arrival order. */
  ghost predicate InOrder(s: State, key: string) {
    Only(s.past.accepted, key) ==
    Only(s.past.handed, key) +
      (Only(Hand(s.holder, s.closer), key) + (BatchOf(s.buf.shares, key) + Only(Unfilled(s.holder), key)))
  }

  lemma Associate<T>(a: seq<T>, b: seq<T>, c: seq<T>)
    ensures a + (b + c) == (a + b) + c
  {
  }

  /** The order is about four parts of the state, and what is in a hand meets its own bucket. */
  lemma SameOrder(s: State, t: State, key: string)
    requires InOrder(s, key)
    requires Only(t.past.accepted, key) == Only(s.past.accepted, key)
    requires Only(t.past.handed, key) == Only(s.past.handed, key)
    requires Only(Hand(t.holder, t.closer), key) + (BatchOf(t.buf.shares, key) + Only(Unfilled(t.holder), key)) ==
             Only(Hand(s.holder, s.closer), key) + (BatchOf(s.buf.shares, key) + Only(Unfilled(s.holder), key))
    ensures InOrder(t, key)
  {
  }

  lemma FillMoves(bs: Shares, req: seq<Event>, i: nat, now: Time, key: string)
    requires i < |req|
    ensures BatchOf(Append(bs, req[i], now), key) + Only(req[i + 1..], key) == BatchOf(bs, key) + Only(req[i..], key)
  {
    AppendOne(bs, req[i], now, key);
    assert req[i..] == [req[i]] + req[i + 1..];
    OnlyConcat([req[i]], req[i + 1..], key);
    Associate(BatchOf(bs, key), Only([req[i]], key), Only(req[i + 1..], key));
  }

  lemma FillInOrder(c: Settings, s: State, key: string)
    requires HolderMay(c, s, Fill) && InOrder(s, key)
    ensures InOrder(HolderNext(c, s, Fill), key)
  {
    FillMoves(s.buf.shares, s.holder.req, s.holder.done, s.now, key);
    SameOrder(s, HolderNext(c, s, Fill), key);
  }

  lemma NothingBetween<T>(a: seq<T>, b: seq<T>, c: seq<T>)
    ensures a + ([] + (b + [])) + c == a + ([] + (b + c))
    ensures a + ([] + (b + [])) == a + (b + ([] + []))
  {
  }

  lemma AdmitInOrder(c: Settings, s: State, key: string)
    requires Shape(s) && HolderMay(c, s, CheckBytes) && InOrder(s, key)
    ensures InOrder(HolderNext(c, s, CheckBytes), key)
  {
    var req := s.holder.req;
    assert req[0..] == req;
    OnlyConcat(s.past.accepted, req, key);
    assert Only(Unfilled(s.holder), key) == [] && Only(Hand(s.holder, s.closer), key) == [];
    NothingBetween(Only(s.past.handed, key), BatchOf(s.buf.shares, key), Only(req, key));
  }

  lemma TakenInOrder(bs: Shares, k: string, key: string, now: Time)
    requires k in bs && WellKept(k, bs[k], now)
    ensures Only(bs[k].batch, key) + (BatchOf(bs - {k}, key) + []) == [] + (BatchOf(bs, key) + [])
  {
    OnlyOwn(bs[k].batch, k, key);
  }

  lemma AttemptInOrder(c: Settings, s: State, key: string)
    requires Shape(s) && InOrder(s, key) && s.holder.Handing? && s.holder.keys != []
    ensures InOrder(Attempted(c, s), key)
  {
    if Goes(c, s) {
      TakenInOrder(s.buf.shares, s.holder.keys[0], key, s.now);
      SameOrder(s, Attempted(c, s), key);
    }
  }

  lemma HandedOver<T>(a: seq<T>, b: seq<T>, c: seq<T>)
    ensures a + (b + c) == (a + b) + ([] + c)
  {
  }

  lemma QueuedInOrder(c: Settings, s: State, key: string)
    requires Shape(s) && InOrder(s, key) && s.holder.Sending? && Accepts(c, s.chan)
    ensures InOrder(Sent(c, s), key)
  {
    var b := s.holder.share;
    OnlyConcat(s.past.handed, b.batch, key);
    HandedOver(Only(s.past.handed, key), Only(b.batch, key), BatchOf(s.buf.shares, key) + []);
  }

  lemma ReturnedInOrder(bs: Shares, k: string, b: Share, key: string, now: Time)
    requires k !in bs && WellKept(k, b, now)
    ensures [] + (BatchOf(PutBack(bs, k, b), key) + []) == Only(b.batch, key) + (BatchOf(bs, key) + [])
  {
    OnlyOwn(b.batch, k, key);
  }

  lemma SentInOrder(c: Settings, s: State, key: string)
    requires Shape(s) && InOrder(s, key) && s.holder.Sending?
    ensures InOrder(Sent(c, s), key)
  {
    if Accepts(c, s.chan) {
      QueuedInOrder(c, s, key);
    } else {
      ReturnedInOrder(s.buf.shares, s.holder.key, s.holder.share, key, s.now);
      SameOrder(s, Sent(c, s), key);
    }
  }

  lemma ReadyGrows(ready: seq<Event>, batch: seq<Event>, k: string, key: string)
    requires forall i | 0 <= i < |batch| :: batch[i].key == k
    ensures Only(ready + batch, key) == Only(ready, key) + (if k == key then batch else [])
  {
    OnlyConcat(ready, batch, key);
    OnlyOwn(batch, k, key);
  }

  lemma Joined<T>(a: seq<T>, b: seq<T>)
    ensures a + (b + []) == (a + b) + ([] + []) && a + [] == a
  {
  }

  lemma TakeForCloseInOrder(s: State, key: string)
    requires Shape(s) && InOrder(s, key) && s.holder.Draining? && s.holder.keys != []
    ensures InOrder(TakenForClose(s), key)
  {
    var k, ready := s.holder.keys[0], s.holder.ready.events;
    DrainKeys(s.holder.keys, s.buf.shares);
    assert WellKept(k, s.buf.shares[k], s.now);
    ReadyGrows(ready, s.buf.shares[k].batch, k, key);
    Joined(Only(ready, key), BatchOf(s.buf.shares, key));
    SameOrder(s, TakenForClose(s), key);
  }

  lemma FilledInOrder(c: Settings, s: State, key: string)
    requires Shape(s) && InOrder(s, key) && HolderMay(c, s, Filled)
    ensures InOrder(HolderNext(c, s, Filled), key)
  {
  }

  lemma QuietInOrder(c: Settings, s: State, h: HolderStep, key: string)
    requires Shape(s) && InOrder(s, key) && HolderMay(c, s, h)
    requires h.Request? || h.CheckRecords? || h.Flush? || h.Choose? || h.CountRecords? || h.CountBytes? || h.Unlock?
    ensures InOrder(HolderNext(c, s, h), key)
  {
    var t := HolderNext(c, s, h);
    assert t.closer == s.closer && t.buf == s.buf && t.past == s.past;
    assert HolderHand(t.holder) == [] == HolderHand(s.holder) && Unfilled(t.holder) == [] == Unfilled(s.holder);
    SameOrder(s, t, key);
  }

  /** `close` comes and goes with empty hands, or hands what it gathered on. */
  lemma CloseKeepsHands(c: Settings, s: State, h: HolderStep)
    requires Shape(s) && HolderMay(c, s, h) && (h == Close || h == UnlockForClose)
    ensures var t := HolderNext(c, s, h);
      && t.buf == s.buf && t.past == s.past && Unfilled(t.holder) == [] == Unfilled(s.holder)
      && Hand(t.holder, t.closer) == Hand(s.holder, s.closer)
  {
  }

  lemma CloseInOrder(c: Settings, s: State, h: HolderStep, key: string)
    requires Shape(s) && InOrder(s, key) && HolderMay(c, s, h) && (h == Close || h == UnlockForClose)
    ensures InOrder(HolderNext(c, s, h), key)
  {
    CloseKeepsHands(c, s, h);
    SameOrder(s, HolderNext(c, s, h), key);
  }

  lemma WorkerInOrder(s: State, w: int, k: WorkerStep, key: string)
    requires InOrder(s, key) && WorkerMay(s, w, k)
    ensures InOrder(WorkerNext(s, w, k), key)
  {
  }

  lemma HolderInOrder(c: Settings, s: State, h: HolderStep, key: string)
    requires Shape(s) && InOrder(s, key) && HolderMay(c, s, h)
    ensures InOrder(HolderNext(c, s, h), key)
  {
    match h
    case CheckBytes => AdmitInOrder(c, s, key);
    case Fill => FillInOrder(c, s, key);
    case Attempt => AttemptInOrder(c, s, key);
    case Send => SentInOrder(c, s, key);
    case TakeForClose => TakeForCloseInOrder(s, key);
    case Filled => FilledInOrder(c, s, key);
    case Close => CloseInOrder(c, s, h, key);
    case UnlockForClose => CloseInOrder(c, s, h, key);
    case _ => QuietInOrder(c, s, h, key);
  }

  lemma CloserInOrder(c: Settings, s: State, x: CloserStep, key: string)
    requires Shape(s) && InOrder(s, key) && CloserMay(c, s, x)
    ensures InOrder(CloserNext(c, s, x), key)
  {
    if x == Offer || x == GiveUpOffer {
      OnlyConcat(s.past.handed, s.closer.item.events, key);
      HandedOver(Only(s.past.handed, key), Only(s.closer.item.events, key), BatchOf(s.buf.shares, key) + []);
    }
  }

  lemma StepInOrder(c: Settings, s: State, a: Action, key: string)
    requires Shape(s) && InOrder(s, key) && Enabled(c, s, a)
    ensures InOrder(Apply(c, s, a), key)
  {
    match a
    case ByHolder(h) => HolderInOrder(c, s, h, key);
    case ByCloser(x) => CloserInOrder(c, s, x, key);
    case ByWorker(w, k) => WorkerInOrder(s, w, k, key);
    case _ => SameOrder(s, Apply(c, s, a), key);
  }

  // ----- the alarm ----------------------------------------------------------------------------

  /** The lock is free, or held by a request that has changed nothing yet. */
  predicate Untouched(h: Holder) { h.Free? || h.Checking? || h.RecordsFit? }

  ghost predicate Alarmed(c: Settings, s: State) {
    && (s.timer.Ringing? ==>
          && s.timer.armed <= s.now && s.timer.at <= s.timer.armed + Later(MILLISECOND, c.every)
          && (forall k | k in s.buf.shares :: Covers(c, s.timer.at, s.timer.armed, s.buf.shares[k]))
          && (s.holder.Sending? ==> Covers(c, s.timer.at, s.timer.armed, s.holder.share)))
    && (Untouched(s.holder) && !ShuttingDown(s.closer) && s.buf.shares != map[] ==> s.timer.Ringing?)
  }

  lemma ArmedCovers(c: Settings, s: State, bs: Shares)
    requires Checked(c) && BucketShape(bs, s.now) && !ShuttingDown(s.closer) && bs != map[]
    requires s.timer.Ringing? ==>
      && s.timer.armed <= s.now && s.timer.at <= s.timer.armed + Later(MILLISECOND, c.every)
      && (forall k | k in bs :: Covers(c, s.timer.at, s.timer.armed, bs[k]))
    ensures var t := Armed(c, s.timer, s.closer, bs, s.now);
      && t.Ringing? && t.armed <= s.now && t.at <= t.armed + Later(MILLISECOND, c.every)
      && (forall k | k in bs :: Covers(c, t.at, t.armed, bs[k]))
  {
  }

  lemma SentAlarmed(c: Settings, s: State)
    requires Checked(c) && Shape(s) && Alarmed(c, s) && s.holder.Sending?
    ensures Alarmed(c, Sent(c, s))
  {
    if !Accepts(c, s.chan) {
      var bs := PutBack(s.buf.shares, s.holder.key, s.holder.share);
      assert bs[s.holder.key] == s.holder.share;
      ArmedCovers(c, s, bs);
    }
  }

  lemma FillAlarmed(c: Settings, s: State)
    requires Checked(c) && Shape(s) && Alarmed(c, s) && HolderMay(c, s, Fill)
    ensures Alarmed(c, HolderNext(c, s, Fill))
  {
  }

  lemma HolderAlarmed(c: Settings, s: State, h: HolderStep)
    requires Checked(c) && Shape(s) && Alarmed(c, s) && HolderMay(c, s, h)
    ensures Alarmed(c, HolderNext(c, s, h))
  {
    match h
    case Fill => FillAlarmed(c, s);
    case Send => SentAlarmed(c, s);
    case Unlock => if s.buf.shares != map[] { ArmedCovers(c, s, s.buf.shares); }
    case _ =>
  }

  lemma StepAlarmed(c: Settings, s: State, a: Action)
    requires Checked(c) && Shape(s) && Alarmed(c, s) && Enabled(c, s, a)
    ensures Alarmed(c, Apply(c, s, a))
  {
    match a
    case ByHolder(h) => HolderAlarmed(c, s, h);
    case _ =>
  }

  // ----- every reachable state ----------------------------------------------------------------

  /** What close reported stays an upper bound on what the pool still counts. */
  ghost predicate Reported(s: State) {
    s.closer.Returned? && s.closer.undelivered.Some? ==> s.closer.undelivered.value >= InPool(s, One, RecordsCounted)
  }

  ghost predicate Kept(c: Settings, s: State) {
    && Shape(s) && Counted(s) && WithinCeilings(c, s) && Alarmed(c, s) && Reported(s)
    && s.workers.Keys == Crew(c.workers).Keys
    && (forall w: Event -> int :: Conserved(s, w))
    && (forall key: string :: InOrder(s, key))
  }

  lemma {:induction false} CrewIdle(n: int, w: Event -> int, p: Phase)
    ensures InWorkers(Crew(n), w, p) == 0
    ensures forall i :: i in Crew(n) <==> 0 <= i < n
    ensures forall i | i in Crew(n) :: Crew(n)[i] == Idle
    decreases if n < 0 then 0 else n
  {
    if n > 0 {
      CrewIdle(n - 1, w, p);
      SumPut(Crew(n - 1), WorkerWeight(w, p), n - 1, Idle);
    }
  }

  lemma InitConserved(c: Settings, s: State, w: Event -> int)
    requires Init(c, s)
    ensures Conserved(s, w)
  {
    CrewIdle(c.workers, w, Unsettled);
  }

  lemma InitCounted(c: Settings, s: State)
    requires Checked(c) && Init(c, s)
    ensures Counted(s) && WithinCeilings(c, s)
  {
    CrewIdle(c.workers, One, RecordsCounted);
    CrewIdle(c.workers, Bytes, BytesCounted);
  }

  lemma InitShape(c: Settings, s: State)
    requires Init(c, s)
    ensures Shape(s) && Alarmed(c, s) && Reported(s)
  {
    CrewIdle(c.workers, One, Unsettled);
  }

  lemma InitKept(c: Settings, s: State)
    requires Checked(c) && Init(c, s)
    ensures Kept(c, s)
  {
    InitShape(c, s);
    InitCounted(c, s);
    forall w: Event -> int ensures Conserved(s, w) { InitConserved(c, s, w); }
    forall key: string ensures InOrder(s, key) {}
  }

  lemma WorkerReported(s: State, i: int, k: WorkerStep)
    requires Reported(s) && WorkerMay(s, i, k)
    ensures Reported(WorkerNext(s, i, k))
  {
    WorkerLoad(s, i, k, One, RecordsCounted);
    WeighNonNegative(Dropped(s, i, k, RecordsCounted), One);
  }

  lemma HolderReported(c: Settings, s: State, h: HolderStep)
    requires Shape(s) && Reported(s) && HolderMay(c, s, h)
    ensures Reported(HolderNext(c, s, h))
  {
  }

  /** The count close reports is exact at the instant it is read. */
  lemma CloserReported(c: Settings, s: State, x: CloserStep)
    requires Shape(s) && Counted(s) && Reported(s) && CloserMay(c, s, x)
    ensures Reported(CloserNext(c, s, x))
  {
  }

  lemma StepReported(c: Settings, s: State, a: Action)
    requires Shape(s) && Counted(s) && Reported(s) && Enabled(c, s, a)
    ensures Reported(Apply(c, s, a))
  {
    match a
    case ByHolder(h) => HolderReported(c, s, h);
    case ByWorker(i, k) => WorkerReported(s, i, k);
    case ByCloser(x) => CloserReported(c, s, x);
    case _ =>
  }

  lemma CrewStays(c: Settings, s: State, a: Action)
    requires Enabled(c, s, a)
    ensures Apply(c, s, a).workers.Keys == s.workers.Keys
  {
  }

  lemma StepKept(c: Settings, s: State, a: Action)
    requires Checked(c) && Kept(c, s) && Enabled(c, s, a)
    ensures Kept(c, Apply(c, s, a))
  {
    StepShape(c, s, a);
    StepCounted(c, s, a);
    StepCeilings(c, s, a);
    StepAlarmed(c, s, a);
    StepReported(c, s, a);
    CrewStays(c, s, a);
    forall w: Event -> int ensures Conserved(Apply(c, s, a), w) { StepConserves(c, s, a, w); }
    forall key: string ensures InOrder(Apply(c, s, a), key) { StepInOrder(c, s, a, key); }
  }

  lemma {:induction false} RunKept(c: Settings, trace: seq<State>, i: nat)
    requires Checked(c) && Run(c, trace) && i < |trace|
    ensures Kept(c, trace[i])
  {
    if i == 0 {
      InitKept(c, trace[0]);
    } else {
      RunKept(c, trace, i - 1);
      assert Step(c, trace[i - 1], trace[i - 1 + 1]);
      var a :| Enabled(c, trace[i - 1], a) && trace[i] == Apply(c, trace[i - 1], a);
      StepKept(c, trace[i - 1], a);
    }
  }
}
