/** What the gateway promises of its buffer, over every run. */
module PipeGuarantees {
  import opened Outcomes
  import opened Tally
  import opened Buffering
  import opened PipeProtocol
  import opened PipeSafety

  ghost predicate Reachable(c: Settings, s: State) {
    exists trace, i: nat :: Run(c, trace) && i < |trace| && trace[i] == s
  }

  lemma ReachableKept(c: Settings, s: State)
    requires Checked(c) && Reachable(c, s)
    ensures Kept(c, s)
  {
    var trace, i: nat :| Run(c, trace) && i < |trace| && trace[i] == s;
    RunKept(c, trace, i);
  }

  /** And the parts of it that one result needs at a time. */
  lemma ReachableConserved(c: Settings, s: State, w: Event -> int)
    requires Checked(c) && Reachable(c, s)
    ensures Shape(s) && Conserved(s, w) && s.workers.Keys == Crew(c.workers).Keys
  {
    ReachableKept(c, s);
  }

  lemma ReachableReported(c: Settings, s: State)
    requires Checked(c) && Reachable(c, s)
    ensures Reported(s)
  {
    ReachableKept(c, s);
  }

  lemma ReachableAlarmed(c: Settings, s: State)
    requires Checked(c) && Reachable(c, s)
    ensures Alarmed(c, s)
  {
    ReachableKept(c, s);
  }

  /** The weight of one event: it counts the places that event is in. */
  ghost function Is(e: Event): Event -> int { (x: Event) => if x == e then 1 else 0 }

  ghost function EndedAs(past: seq<Settled>, o: Outcome, w: Event -> int): int {
    if past == [] then 0 else
    (if past[0].outcome == o then Weigh(past[0].events, w) else 0) + EndedAs(past[1..], o, w)
  }

  lemma {:induction false} EndsSplit(past: seq<Settled>, w: Event -> int)
    ensures Weigh(past, SettledWeight(w)) ==
            EndedAs(past, Delivered, w) + EndedAs(past, Buried, w) + EndedAs(past, Lost, w)
  {
    if past != [] { EndsSplit(past[1..], w); }
  }

  /** Each accepted event is in exactly one of a bucket, a hand, the queue, a worker's `send`, or one of the
      three ends -- as often as it was accepted. */
  lemma EveryEventInOnePlace(c: Settings, s: State, e: Event)
    requires Checked(c) && Reachable(c, s)
    ensures Weigh(s.past.accepted, Is(e)) ==
            InBuckets(s.buf.shares, Is(e)) + InHands(s.holder, s.closer, Is(e)) + InQueue(s.chan, Is(e))
            + InWorkers(s.workers, Is(e), Unsettled)
            + EndedAs(s.past.settled, Delivered, Is(e)) + EndedAs(s.past.settled, Buried, Is(e))
            + EndedAs(s.past.settled, Lost, Is(e))
  {
    ReachableKept(c, s);
    assert Conserved(s, Is(e));
    EndsSplit(s.past.settled, Is(e));
  }

  lemma HandsHoldSomething(h: Holder, x: Closer, w: Event -> int)
    requires forall e :: w(e) >= 0
    ensures InHands(h, x, w) >= 0
  {
    WeighNonNegative(HolderHand(h), w);
    WeighNonNegative(Unfilled(h), w);
    WeighNonNegative(CloserHand(x), w);
  }

  /** Records and bytes in the buckets, the queue and the workers never pass the two ceilings, at any point
      between two steps of any goroutine. */
  lemma CeilingsHold(c: Settings, s: State)
    requires Checked(c) && Reachable(c, s)
    ensures InBuckets(s.buf.shares, One) + InQueue(s.chan, One) + InWorkers(s.workers, One, RecordsCounted)
      <= c.maxRecords
    ensures InBuckets(s.buf.shares, Bytes) + InQueue(s.chan, Bytes) + InWorkers(s.workers, Bytes, BytesCounted)
      <= c.maxBytes
  {
    ReachableKept(c, s);
    HandsHoldSomething(s.holder, s.closer, One);
    HandsHoldSomething(s.holder, s.closer, Bytes);
  }

  lemma PhasesNest(ks: map<int, Worker>)
    ensures 0 <= InWorkers(ks, One, Unsettled) <= InWorkers(ks, One, RecordsCounted)
  {
    forall i | i in ks
      ensures 0 <= WorkerWeight(One, Unsettled)(ks[i]) <= WorkerWeight(One, RecordsCounted)(ks[i])
    {
      WeighNonNegative(Carries(ks[i], Unsettled), One);
      WeighNonNegative(Carries(ks[i], RecordsCounted), One);
    }
    SumNonNegative(ks, WorkerWeight(One, Unsettled));
    SumMonotone(ks, WorkerWeight(One, Unsettled), WorkerWeight(One, RecordsCounted));
  }

  /** With the lock free and no offer of close's uncounted, `pending` covers what is queued or in `send`. */
  lemma PendingCovers(c: Settings, s: State)
    requires Checked(c) && Reachable(c, s) && s.holder.Free? && !s.closer.CountingOffer?
    ensures s.counts.pending >= InQueue(s.chan, One) + InWorkers(s.workers, One, Unsettled) >= 0
  {
    ReachableKept(c, s);
    PhasesNest(s.workers);
    forall x: Item ensures ItemWeight(One)(x) >= 0 { WeighNonNegative(x.events, One); }
    WeighNonNegative(s.chan.items, ItemWeight(One));
  }

  /** `pending` is what the pool still counts, less what a send has put there and not added yet. */
  lemma PendingLags(c: Settings, s: State)
    requires Checked(c) && Reachable(c, s)
    ensures s.counts.pending == InPool(s, One, RecordsCounted) - |UnaddedRecords(s.holder, s.closer)|
  {
    ReachableKept(c, s);
  }

  lemma PoolIsNotNegative(s: State)
    ensures InPool(s, One, RecordsCounted) >= 0
  {
    PhasesNest(s.workers);
    forall x: Item ensures ItemWeight(One)(x) >= 0 { WeighNonNegative(x.events, One); }
    WeighNonNegative(s.chan.items, ItemWeight(One));
  }

  /** So it is below zero exactly while a send has yet to add more than the pool still counts: the workers are done
      with some of that batch's records or of others already. The sender has the lock then, or is `close`. */
  lemma PendingDipsExactlyThen(c: Settings, s: State)
    requires Checked(c) && Reachable(c, s)
    ensures s.counts.pending < 0 <==> InPool(s, One, RecordsCounted) < |UnaddedRecords(s.holder, s.closer)|
    ensures s.counts.pending < 0 ==> s.holder.CountingRecords? || s.closer.CountingOffer?
  {
    PendingLags(c, s);
    PoolIsNotNegative(s);
  }

  /** A refused batch goes back into an empty place: the bucket of its key cannot have been filled meanwhile,
      so the branch of `handoff` that merges into one is never taken. */
  lemma RefusedBucketIsAbsent(c: Settings, s: State)
    requires Checked(c) && Reachable(c, s) && s.holder.Sending?
    ensures s.holder.key !in s.buf.shares
    ensures PutBack(s.buf.shares, s.holder.key, s.holder.share) == s.buf.shares[s.holder.key := s.holder.share]
  {
    ReachableKept(c, s);
  }

  /** No run sends on the closed queue, and no run dereferences a bucket that is not there. */
  lemma NeverPanics(c: Settings, s: State)
    requires Checked(c) && Reachable(c, s)
    ensures !s.panicked
  {
    ReachableKept(c, s);
  }

  lemma EndedCarryNothing(ks: map<int, Worker>, w: Event -> int, p: Phase)
    requires forall i | i in ks :: ks[i].Ended?
    ensures InWorkers(ks, w, p) == 0
  {
    forall i | i in ks ensures WorkerWeight(w, p)(ks[i]) == 0 { assert Carries(ks[i], p) == []; }
    SumZero(ks, WorkerWeight(w, p));
  }

  /** `close` returning nil means the events left: nothing is buffered, queued or in hand, every worker has
      ended, and everything ever accepted was settled. */
  lemma CleanDrain(c: Settings, s: State, w: Event -> int)
    requires Checked(c) && Reachable(c, s) && s.closer == Returned(None)
    ensures s.buf.shares == map[] && s.chan == Channel([], true)
    ensures forall i | i in s.workers :: s.workers[i].Ended?
    ensures Weigh(s.past.accepted, w) == Weigh(s.past.settled, SettledWeight(w))
  {
    ReachableConserved(c, s, w);
    CrewIdle(c.workers, w, Unsettled);
    assert 0 in Crew(c.workers).Keys;
    assert s.workers[0].Ended?;
    EndedCarryNothing(s.workers, w, Unsettled);
  }

  /** `close` returning an error means no more than the number it reports is unsettled, and what is unsettled
      is queued or in a worker's `send`. */
  lemma LateDrain(c: Settings, s: State)
    requires Checked(c) && Reachable(c, s) && s.closer.Returned? && s.closer.undelivered.Some?
    ensures s.buf.shares == map[]
    ensures s.closer.undelivered.value >= InQueue(s.chan, One) + InWorkers(s.workers, One, Unsettled)
    ensures s.closer.undelivered.value >= |s.past.accepted| - Weigh(s.past.settled, SettledWeight(One))
  {
    ReachableConserved(c, s, One);
    ReachableReported(c, s);
    PhasesNest(s.workers);
    WeighOnes(s.past.accepted, One);
  }

  lemma NothingAround<T>(a: seq<T>, b: seq<T>)
    ensures a + ([] + (b + [])) == a + b
  {
  }

  /** Per key, what was handed over and what waits in the bucket are that key's arrivals, in order, however
      many handoffs were refused. */
  lemma ArrivalOrder(c: Settings, s: State, key: string)
    requires Checked(c) && Reachable(c, s) && s.holder.Free? && !s.closer.Offering?
    ensures Only(s.past.accepted, key) == Only(s.past.handed, key) + BatchOf(s.buf.shares, key)
  {
    ReachableKept(c, s);
    assert InOrder(s, key);
    assert Only(Hand(s.holder, s.closer), key) == [] && Only(Unfilled(s.holder), key) == [];
    NothingAround(Only(s.past.handed, key), BatchOf(s.buf.shares, key));
  }

  /** With the lock free, not shutting down and something held, an alarm is set, and it rings no later than
      each bucket was promised -- or a millisecond after it was armed. */
  lemma AlarmIsSet(c: Settings, s: State)
    requires Checked(c) && Reachable(c, s) && s.holder.Free? && !ShuttingDown(s.closer) && s.buf.shares != map[]
    ensures s.timer.Ringing? && s.timer.armed <= s.now
    ensures forall k | k in s.buf.shares ::
      && (c.maxAge > 0 ==> s.timer.at <= Later(s.timer.armed + MILLISECOND, s.buf.shares[k].oldest + c.maxAge))
      && (!c.claim ==> s.timer.at <= Later(s.timer.armed + MILLISECOND, s.buf.shares[k].oldest + c.every))
  {
    ReachableAlarmed(c, s);
    forall k | k in s.buf.shares ensures Covers(c, s.timer.at, s.timer.armed, s.buf.shares[k]) {}
  }

  /** Between requests the totals are exact. */
  lemma TotalsExact(c: Settings, s: State)
    requires Checked(c) && Reachable(c, s) && s.holder.Free?
    ensures s.buf.held == InBuckets(s.buf.shares, One) && s.buf.bytes == InBuckets(s.buf.shares, Bytes)
    ensures forall k | k in s.buf.shares :: s.buf.shares[k].bytes == Weigh(s.buf.shares[k].batch, Bytes)
  {
    ReachableKept(c, s);
  }
}
