/** The pipe as a step relation: requests, the flush timer, the workers and the stages of close interleave
    at every channel operation, every atomic and every clock reading. */
module PipeProtocol {
  import opened Ordering
  import opened Outcomes
  import opened Tally
  import opened Buffering

  /** A batch on the queue, with the bytes it holds in memory. */
  datatype Item = Item(events: seq<Event>, bytes: int)

  /** How `send` ends for a batch: the sink took it, the dead letter took it, or neither did. */
  datatype Outcome = Delivered | Buried | Lost

  datatype Settled = Settled(events: seq<Event>, outcome: Outcome)

  /** A worker: between batches, in `send`, and before each of its two atomic decrements. */
  datatype Worker =
    | Idle
    | Delivering(item: Item)
    | ReleasingRecords(item: Item)
    | ReleasingBytes(item: Item)
    | Ended

  datatype Timer = Off | Ringing(at: Time, armed: Time)

  /** Who holds the pipe's mutex, and where in the critical section. */
  datatype Holder =
    | Free
    | Checking(req: seq<Event>)
    | RecordsFit(req: seq<Event>)
    | Filling(req: seq<Event>, done: int)
    | Choosing(since: Time)
    | Handing(keys: seq<string>, timed: bool)
    | Sending(key: string, share: Share, keys: seq<string>, timed: bool)
    | CountingRecords(item: Item, keys: seq<string>, timed: bool)
    | CountingBytes(item: Item, keys: seq<string>, timed: bool)
    | Draining(keys: seq<string>, ready: Item)

  /** `close`: under the lock, offering the last batch, delivering it itself, and waiting. */
  datatype Closer =
    | NotStarted
    | UnderLock
    | Offering(item: Item)
    | CountingOffer(item: Item)
    | CountingOfferBytes(item: Item)
    | Inline(item: Item)
    | ClosingQueue
    | Waiting
    | Returned(undelivered: Option<int>)

  /** The buffer and its two totals. */
  datatype Buffer = Buffer(shares: Shares, held: int, bytes: int)

  /** The bounded queue; a send on it once closed panics. */
  datatype Channel = Channel(items: seq<Item>, closed: bool)

  /** The two atomics. */
  datatype Atomics = Atomics(pending: int, pendingBytes: int)

  /** What happened so far: events admitted, events given to the queue or to close's own `send`, and how
      each batch given to `send` ended. */
  datatype Past = Past(accepted: seq<Event>, handed: seq<Event>, settled: seq<Settled>)

  datatype State = State(
    now: Time, panicked: bool,
    buf: Buffer, timer: Timer, flushWaits: bool,
    holder: Holder, closer: Closer,
    chan: Channel, counts: Atomics, workers: map<int, Worker>, past: Past)

  /** The flag `close` sets first. */
  predicate ShuttingDown(x: Closer) { x != NotStarted }

  /** Steps taken with the mutex held, or to take it: a request, the flush, and the locked part of close. */
  datatype HolderStep =
    | Request(req: seq<Event>) | CheckRecords | CheckBytes | Fill | Filled
    | Flush | Choose(winners: seq<string>)
    | Attempt | Send | CountRecords | CountBytes | Unlock
    | Close | TakeForClose | UnlockForClose

  datatype WorkerStep = Receive | Settle(outcome: Outcome) | ReleaseRecords | ReleaseBytes | End

  /** Steps of close after it let the mutex go. */
  datatype CloserStep =
    | Offer | CountOffer | CountOfferBytes | GiveUpOffer | SettleInline(outcome: Outcome)
    | CloseQueue | ReturnClean | ReturnLate

  datatype Action =
    | Tick(to: Time)
    | Ring
    | ByHolder(h: HolderStep)
    | ByWorker(w: int, k: WorkerStep)
    | ByCloser(x: CloserStep)

  /** What a flush that began at `since` and has chosen by `now` may hand off: of the keys due by now, without the
      claim every one that was due when it began, with it any duplicate-free part that holds each that was past its
      ceiling. */
  ghost predicate MayHandOff(c: Settings, bs: Shares, since: Time, now: Time, keys: seq<string>) {
    && Distinct(keys)
    && (forall k | k in keys :: k in bs && Due(c, Some(bs[k]), now))
    && (forall k | k in bs && PastCeiling(c, bs[k], since) :: k in keys)
    && (!c.claim ==> forall k | k in bs && Due(c, Some(bs[k]), since) :: k in keys)
  }

  ghost predicate HolderMay(c: Settings, s: State, h: HolderStep) {
    match h
    case Request(_) => s.holder.Free?
    case CheckRecords => s.holder.Checking?
    case CheckBytes => s.holder.RecordsFit?
    case Fill => s.holder.Filling? && 0 <= s.holder.done < |s.holder.req|
    case Filled => s.holder.Filling? && s.holder.done >= |s.holder.req|
    case Flush => s.flushWaits && s.holder.Free?
    case Choose(winners) => s.holder.Choosing? && MayHandOff(c, s.buf.shares, s.holder.since, s.now, winners)
    case Attempt => s.holder.Handing? && s.holder.keys != []
    case Send => s.holder.Sending?
    case CountRecords => s.holder.CountingRecords?
    case CountBytes => s.holder.CountingBytes?
    case Unlock => s.holder.Handing? && s.holder.keys == []
    case Close => s.holder.Free? && s.closer.NotStarted?
    case TakeForClose => s.holder.Draining? && s.holder.keys != []
    case UnlockForClose => s.holder.Draining? && s.holder.keys == []
  }

  predicate WorkerMay(s: State, w: int, k: WorkerStep) {
    && w in s.workers
    && match k
       case Receive => s.workers[w].Idle? && s.chan.items != []
       case Settle(_) => s.workers[w].Delivering?
       case ReleaseRecords => s.workers[w].ReleasingRecords?
       case ReleaseBytes => s.workers[w].ReleasingBytes?
       case End => s.workers[w].Idle? && s.chan == Channel([], true)
  }

  /** A send proceeds when there is room -- and on a closed channel, to its panic. */
  predicate Accepts(c: Settings, q: Channel) { |q.items| < c.queue || q.closed }

  ghost predicate CloserMay(c: Settings, s: State, x: CloserStep) {
    match x
    case Offer => s.closer.Offering? && Accepts(c, s.chan)
    case CountOffer => s.closer.CountingOffer?
    case CountOfferBytes => s.closer.CountingOfferBytes?
    case GiveUpOffer => s.closer.Offering?
    case SettleInline(_) => s.closer.Inline?
    case CloseQueue => s.closer.ClosingQueue?
    case ReturnClean => s.closer.Waiting? && forall w | w in s.workers :: s.workers[w].Ended?
    case ReturnLate => s.closer.Waiting?
  }

  ghost predicate Enabled(c: Settings, s: State, a: Action) {
    match a
    case Tick(to) => to >= s.now
    case Ring => s.timer.Ringing? && s.timer.at <= s.now && !s.flushWaits
    case ByHolder(h) => HolderMay(c, s, h)
    case ByWorker(w, k) => WorkerMay(s, w, k)
    case ByCloser(x) => CloserMay(c, s, x)
  }

  /** `arm`: nothing while a timer runs, while shutting down, or with nothing held. */
  ghost function Armed(c: Settings, timer: Timer, closer: Closer, bs: Shares, now: Time): Timer {
    if timer.Ringing? || ShuttingDown(closer) || bs == map[] then timer
    else Ringing(Alarm(c, bs, now), now)
  }

  /** `take`: the bucket leaves the buffer and the totals. */
  function Take(buf: Buffer, key: string): Buffer
    requires key in buf.shares
  {
    Buffer(buf.shares - {key}, buf.held - |buf.shares[key].batch|, buf.bytes - buf.shares[key].bytes)
  }

  /** `handoff`'s refusal: the bucket and the totals come back. */
  function Return(buf: Buffer, key: string, b: Share): Buffer {
    Buffer(PutBack(buf.shares, key, b), buf.held + |b.batch|, buf.bytes + b.bytes)
  }

  function ItemOf(b: Share): Item { Item(b.batch, b.bytes) }

  function Queued(q: Channel, item: Item): Channel { q.(items := q.items + [item]) }

  /** One key of `handoff`'s callers: `enqueue` asks whether a trigger was crossed, `flush` does not. */
  predicate Goes(c: Settings, s: State)
    requires s.holder.Handing? && s.holder.keys != []
  {
    var key := s.holder.keys[0];
    !ShuttingDown(s.closer) && key in s.buf.shares && (s.holder.timed || Crossed(c, s.buf.shares[key]))
  }

  function Attempted(c: Settings, s: State): State
    requires s.holder.Handing? && s.holder.keys != []
  {
    var key, rest, timed := s.holder.keys[0], s.holder.keys[1..], s.holder.timed;
    if Goes(c, s)
    then s.(buf := Take(s.buf, key), holder := Sending(key, s.buf.shares[key], rest, timed))
    // `enqueue` reads the bucket of every key it touched: a missing one would be a nil dereference.
    else s.(holder := Handing(rest, timed), panicked := s.panicked || (!timed && key !in s.buf.shares))
  }

  /** The send never waits: a batch the queue has no room for goes back where it was. */
  ghost function Sent(c: Settings, s: State): State
    requires s.holder.Sending?
  {
    var h, item := s.holder, ItemOf(s.holder.share);
    if Accepts(c, s.chan) then
      s.(chan := Queued(s.chan, item), past := s.past.(handed := s.past.handed + item.events),
         panicked := s.panicked || s.chan.closed, holder := CountingRecords(item, h.keys, h.timed))
    else
      var buf := Return(s.buf, h.key, h.share);
      s.(buf := buf, timer := Armed(c, s.timer, s.closer, buf.shares, s.now), holder := Handing(h.keys, h.timed))
  }

  function TakenForClose(s: State): State
    requires s.holder.Draining? && s.holder.keys != []
  {
    var key, rest, ready := s.holder.keys[0], s.holder.keys[1..], s.holder.ready;
    if key !in s.buf.shares then s.(holder := Draining(rest, ready)) else
    var b := s.buf.shares[key];
    s.(buf := Take(s.buf, key), holder := Draining(rest, Item(ready.events + b.batch, ready.bytes + b.bytes)))
  }

  /** The two ceilings, as `enqueue` reads them one after the other. */
  predicate RecordsOver(c: Settings, s: State, req: seq<Event>) {
    s.buf.held + s.counts.pending + |req| > c.maxRecords
  }

  ghost predicate BytesOver(c: Settings, s: State, req: seq<Event>) {
    c.maxBytes > 0 && s.buf.bytes + s.counts.pendingBytes + Weigh(req, Bytes) > c.maxBytes
  }

  ghost function HolderNext(c: Settings, s: State, h: HolderStep): State
    requires HolderMay(c, s, h)
  {
    match h
    case Request(req) => s.(holder := if ShuttingDown(s.closer) then Free else Checking(req))
    case CheckRecords => s.(holder := if RecordsOver(c, s, s.holder.req) then Free else RecordsFit(s.holder.req))
    case CheckBytes =>
      var req := s.holder.req;
      if BytesOver(c, s, req) then s.(holder := Free)
      else s.(holder := Filling(req, 0), past := s.past.(accepted := s.past.accepted + req))
    case Fill =>
      s.(buf := s.buf.(shares := Append(s.buf.shares, s.holder.req[s.holder.done], s.now)),
         holder := s.holder.(done := s.holder.done + 1))
    case Filled =>
      var req := s.holder.req;
      s.(buf := Buffer(s.buf.shares, s.buf.held + |req|, s.buf.bytes + Weigh(req, Bytes)),
         holder := Handing(Sort(Touched(req)), false))
    case Flush =>
      s.(flushWaits := false, timer := Off, holder := if s.buf.shares == map[] then Free else Choosing(s.now))
    case Choose(winners) => s.(holder := Handing(winners, true))
    case Attempt => Attempted(c, s)
    case Send => Sent(c, s)
    case CountRecords =>
      s.(counts := s.counts.(pending := s.counts.pending + |s.holder.item.events|),
         holder := CountingBytes(s.holder.item, s.holder.keys, s.holder.timed))
    case CountBytes =>
      s.(counts := s.counts.(pendingBytes := s.counts.pendingBytes + s.holder.item.bytes),
         holder := Handing(s.holder.keys, s.holder.timed))
    case Unlock => s.(timer := Armed(c, s.timer, s.closer, s.buf.shares, s.now), holder := Free)
    case Close => s.(closer := UnderLock, holder := Draining(SortedKeys(s.buf.shares.Keys), Item([], 0)))
    case TakeForClose => TakenForClose(s)
    case UnlockForClose =>
      s.(timer := Off, holder := Free,
         closer := if s.holder.ready.events != [] then Offering(s.holder.ready) else ClosingQueue)
  }

  function WorkerNext(s: State, w: int, k: WorkerStep): State
    requires WorkerMay(s, w, k)
  {
    match k
    case Receive =>
      s.(chan := s.chan.(items := s.chan.items[1..]), workers := s.workers[w := Delivering(s.chan.items[0])])
    case Settle(outcome) =>
      var item := s.workers[w].item;
      s.(workers := s.workers[w := ReleasingRecords(item)],
         past := s.past.(settled := s.past.settled + [Settled(item.events, outcome)]))
    case ReleaseRecords =>
      var item := s.workers[w].item;
      s.(workers := s.workers[w := ReleasingBytes(item)],
         counts := s.counts.(pending := s.counts.pending - |item.events|))
    case ReleaseBytes =>
      s.(workers := s.workers[w := Idle],
         counts := s.counts.(pendingBytes := s.counts.pendingBytes - s.workers[w].item.bytes))
    case End => s.(workers := s.workers[w := Ended])
  }

  ghost function CloserNext(c: Settings, s: State, x: CloserStep): State
    requires CloserMay(c, s, x)
  {
    match x
    case Offer =>
      s.(chan := Queued(s.chan, s.closer.item), past := s.past.(handed := s.past.handed + s.closer.item.events),
         panicked := s.panicked || s.chan.closed, closer := CountingOffer(s.closer.item))
    case CountOffer =>
      s.(counts := s.counts.(pending := s.counts.pending + |s.closer.item.events|),
         closer := CountingOfferBytes(s.closer.item))
    case CountOfferBytes =>
      s.(counts := s.counts.(pendingBytes := s.counts.pendingBytes + s.closer.item.bytes), closer := ClosingQueue)
    case GiveUpOffer =>
      s.(past := s.past.(handed := s.past.handed + s.closer.item.events), closer := Inline(s.closer.item))
    case SettleInline(outcome) =>
      s.(past := s.past.(settled := s.past.settled + [Settled(s.closer.item.events, outcome)]), closer := ClosingQueue)
    case CloseQueue => s.(chan := s.chan.(closed := true), closer := Waiting)
    case ReturnClean => s.(closer := Returned(None))
    case ReturnLate => s.(closer := Returned(Some(s.counts.pending)))
  }

  ghost function Apply(c: Settings, s: State, a: Action): State
    requires Enabled(c, s, a)
  {
    match a
    case Tick(to) => s.(now := to)
    case Ring => s.(flushWaits := true)
    case ByHolder(h) => HolderNext(c, s, h)
    case ByWorker(w, k) => WorkerNext(s, w, k)
    case ByCloser(x) => CloserNext(c, s, x)
  }

  /** The pool `newPipe` starts. */
  function Crew(n: int): map<int, Worker> {
    if n <= 0 then map[] else Crew(n - 1)[n - 1 := Idle]
  }

  ghost predicate Init(c: Settings, s: State) {
    && s.now > 0
    && s == State(s.now, false, Buffer(map[], 0, 0), Off, false, Free, NotStarted,
                  Channel([], false), Atomics(0, 0), Crew(c.workers), Past([], [], []))
  }

  ghost predicate Step(c: Settings, s: State, t: State) {
    exists a :: Enabled(c, s, a) && t == Apply(c, s, a)
  }

  /** A run: a start, and one step after another, of whichever goroutine goes next. */
  ghost predicate Run(c: Settings, trace: seq<State>) {
    && trace != [] && Init(c, trace[0])
    && forall i | 0 <= i < |trace| - 1 :: Step(c, trace[i], trace[i + 1])
  }

  // ----- where events are ---------------------------------------------------------------------

  /** Which of its batches a worker still counts: until `send` returns, until it lowers `pending`, or
      until it lowers `pendingBytes`. */
  datatype Phase = Unsettled | RecordsCounted | BytesCounted

  function Carries(k: Worker, p: Phase): seq<Event> {
    match k
    case Delivering(item) => item.events
    case ReleasingRecords(item) => if p == Unsettled then [] else item.events
    case ReleasingBytes(item) => if p == BytesCounted then item.events else []
    case _ => []
  }

  ghost function ShareWeight(w: Event -> int): Share -> int { (b: Share) => Weigh(b.batch, w) }
  ghost function ItemWeight(w: Event -> int): Item -> int { (i: Item) => Weigh(i.events, w) }
  ghost function SettledWeight(w: Event -> int): Settled -> int { (d: Settled) => Weigh(d.events, w) }
  ghost function WorkerWeight(w: Event -> int, p: Phase): Worker -> int { (k: Worker) => Weigh(Carries(k, p), w) }

  /** Held by whoever has the lock, outside the buckets. */
  function HolderHand(h: Holder): seq<Event> {
    match h
    case Sending(_, b, _, _) => b.batch
    case Draining(_, ready) => ready.events
    case _ => []
  }

  /** Held by `close` after it let the lock go. */
  function CloserHand(x: Closer): seq<Event> {
    match x
    case Offering(item) => item.events
    case Inline(item) => item.events
    case _ => []
  }

  /** Admitted and not yet appended. */
  function Unfilled(h: Holder): seq<Event> {
    if h.Filling? && 0 <= h.done <= |h.req| then h.req[h.done..] else []
  }

  ghost function InBuckets(bs: Shares, w: Event -> int): int { Sum(bs, ShareWeight(w)) }
  ghost function InQueue(q: Channel, w: Event -> int): int { Weigh(q.items, ItemWeight(w)) }
  ghost function InWorkers(ks: map<int, Worker>, w: Event -> int, p: Phase): int { Sum(ks, WorkerWeight(w, p)) }
  ghost function InHands(h: Holder, x: Closer, w: Event -> int): int {
    Weigh(HolderHand(h), w) + Weigh(Unfilled(h), w) + Weigh(CloserHand(x), w)
  }

  /** Handed to the pool and still counted. */
  ghost function InPool(s: State, w: Event -> int, p: Phase): int {
    InQueue(s.chan, w) + InWorkers(s.workers, w, p)
  }

  /** Everything accepted and still in memory, weighed. */
  ghost function Load(s: State, w: Event -> int, p: Phase): int {
    InBuckets(s.buf.shares, w) + InHands(s.holder, s.closer, w) + InPool(s, w, p)
  }

  // ----- the shape of every reachable state ---------------------------------------------------

  predicate WellKept(k: string, b: Share, now: Time) {
    && b.batch != [] && (forall i | 0 <= i < |b.batch| :: b.batch[i].key == k)
    && 0 < b.oldest <= now
  }

  ghost predicate Exact(item: Item) { item.bytes == Weigh(item.events, Bytes) }

  ghost predicate BucketShape(bs: Shares, now: Time) {
    forall k | k in bs :: WellKept(k, bs[k], now) && Exact(ItemOf(bs[k]))
  }

  ghost predicate Keyed(keys: seq<string>, bs: Shares) {
    Distinct(keys) && forall k | k in keys :: k in bs
  }

  ghost predicate HolderShape(h: Holder, x: Closer, bs: Shares, now: Time) {
    && (h.Draining? <==> x == UnderLock)
    && (ShuttingDown(x) && x != UnderLock ==> h.Free?)
    && match h
       case Filling(req, done) => 0 <= done <= |req| && forall i | 0 <= i < done :: req[i].key in bs
       case Handing(keys, _) => Keyed(keys, bs)
       case Sending(key, b, keys, _) =>
         key !in bs && key !in keys && Keyed(keys, bs) && WellKept(key, b, now) && Exact(ItemOf(b))
       case CountingRecords(item, keys, _) => Exact(item) && Keyed(keys, bs)
       case CountingBytes(item, keys, _) => Exact(item) && Keyed(keys, bs)
       case Draining(keys, ready) => Exact(ready) && Distinct(keys) && Elements(keys) == bs.Keys
       case _ => true
  }

  ghost predicate CloserShape(x: Closer, closed: bool) {
    && (x.Offering? ==> Exact(x.item))
    && (x.CountingOffer? ==> Exact(x.item))
    && (x.CountingOfferBytes? ==> Exact(x.item))
    && (closed <==> x.Waiting? || x.Returned?)
  }

  predicate Carrying(k: Worker) { k.Delivering? || k.ReleasingRecords? || k.ReleasingBytes? }

  ghost predicate PoolShape(q: Channel, ks: map<int, Worker>, x: Closer) {
    && (forall i | 0 <= i < |q.items| :: Exact(q.items[i]))
    && (forall w | w in ks && Carrying(ks[w]) :: Exact(ks[w].item))
    && (forall w | w in ks && ks[w].Ended? :: q == Channel([], true))
    && (x == Returned(None) ==> forall w | w in ks :: ks[w].Ended?)
  }

  ghost predicate Shape(s: State) {
    && s.now > 0 && !s.panicked
    && BucketShape(s.buf.shares, s.now)
    && HolderShape(s.holder, s.closer, s.buf.shares, s.now)
    && CloserShape(s.closer, s.chan.closed)
    && PoolShape(s.chan, s.workers, s.closer)
    && (ShuttingDown(s.closer) && s.closer != UnderLock ==> s.buf.shares == map[] && s.timer == Off)
  }
}
