/** Each section of the protocol under the lock, from the step that takes it to the step that lets it go, against the
    specification the methods of `Gateway.Pipe` are proved by: whatever interleaves, it comes to what that says. */
module Sections {
  import opened Ordering
  import opened Tally
  import opened Buffering
  import opened PipeProtocol
  import opened Handoffs

  /** A state, with what was seen on the way there: the batches that went on the queue, what the clock said as events
      were appended and when the pass was ready to begin, what each key of the pass found, the keys a flush chose, the
      two atomics as they were read, and what `close` kept to deliver itself. */
  datatype Track = Track(
    s: State, went: seq<Item>, at: seq<Time>, ready: Time, asked: seq<Look>, keys: seq<string>,
    records: int, size: int, inline: Item)

  function ReadBy(r: Track): Reading { Reading(r.at, r.ready, r.asked) }

  /** What there is to be found now. */
  function Here(s: State): Look { Look(|s.chan.items|, s.now) }

  ghost function On(r: Track): Desk { DeskOf(r.s, r.went) }

  ghost function Tried(c: Settings, r: Track): Track
    requires r.s.holder.Handing? && r.s.holder.keys != []
  {
    r.(s := Attempted(c, r.s), asked := if Goes(c, r.s) then r.asked else r.asked + [Here(r.s)])
  }

  ghost function Parted(c: Settings, r: Track): Track
    requires r.s.holder.Sending?
  {
    r.(s := Sent(c, r.s), asked := r.asked + [Here(r.s)],
       went := if Accepts(c, r.s.chan) then r.went + [ItemOf(r.s.holder.share)] else r.went)
  }

  ghost function Follow(c: Settings, r: Track, a: Action): Track
    requires Enabled(c, r.s, a)
  {
    var t := Apply(c, r.s, a);
    match a
    case ByHolder(CheckRecords) => r.(s := t, records := r.s.counts.pending)
    case ByHolder(CheckBytes) => r.(s := t, size := r.s.counts.pendingBytes)
    case ByHolder(Fill) => r.(s := t, at := r.at + [r.s.now])
    case ByHolder(Filled) => r.(s := t, ready := r.s.now)
    case ByHolder(Choose(winners)) => r.(s := t, ready := r.s.now, keys := winners)
    case ByHolder(Attempt) => Tried(c, r)
    case ByHolder(Send) => Parted(c, r)
    case ByCloser(Offer) => r.(s := t, went := r.went + [r.s.closer.item])
    case ByCloser(GiveUpOffer) => r.(s := t, inline := r.s.closer.item)
    case _ => r.(s := t)
  }

  /** A section lasts until the lock is let go; from the moment `close` begins there is no next section to keep out. */
  predicate Within(s: State) { ShuttingDown(s.closer) || !s.holder.Free? }

  /** Steps of any goroutine while a section lasts. */
  ghost predicate Steps(c: Settings, r: Track, acts: seq<Action>, t: Track)
    decreases |acts|
  {
    if acts == [] then r == t else
    && Enabled(c, r.s, acts[0]) && Within(r.s)
    && Steps(c, Follow(c, r, acts[0]), acts[1..], t)
  }

  /** Nothing closes while a section lasts, and no other request is let in. */
  predicate Open(s: State, accepted: seq<Event>) {
    s.closer.NotStarted? && !s.chan.closed && s.past.accepted == accepted
  }

  /** What the holder of the lock may see of the others: the queue grows shorter, and time passes. */
  predicate Aside(s: State, t: State) {
    && t.buf == s.buf && t.timer == s.timer && t.holder == s.holder && t.closer == s.closer && t.now >= s.now
    && t.past.accepted == s.past.accepted && t.past.handed == s.past.handed
    && t.chan.closed == s.chan.closed && |t.chan.items| <= |s.chan.items|
  }

  lemma WorkerStandsAside(s: State, w: int, k: WorkerStep)
    requires WorkerMay(s, w, k)
    ensures Aside(s, WorkerNext(s, w, k))
  {
  }

  lemma OthersStandAside(c: Settings, s: State, a: Action)
    requires Enabled(c, s, a) && s.closer.NotStarted? && !a.ByHolder?
    ensures Aside(s, Apply(c, s, a))
  {
    if a.ByWorker? { WorkerStandsAside(s, a.w, a.k); }
  }

  predicate SameReadings(r: Track, t: Track) {
    t.records == r.records && t.size == r.size && t.at == r.at && t.ready == r.ready && t.keys == r.keys
  }

  // ----- a pass -------------------------------------------------------------------------------

  /** A pass over `all`, which began at `since` with `mid` on the desk and `found` batches on the queue. */
  datatype Pass = Pass(mid: Desk, all: seq<string>, timed: bool, since: Time, found: nat, accepted: seq<Event>)
  {
    ghost function Done(c: Settings, asked: seq<Look>): Desk
      requires |asked| <= |all|
    {
      HandAll(c, mid, all[..|asked|], asked, timed)
    }

    ghost predicate Asked(c: Settings, asked: seq<Look>, queued: nat, now: Time) {
      Answering(c, mid, all, asked, timed, since, found, queued, now)
    }

    /** Between two keys. */
    ghost predicate Between(c: Settings, r: Track, keys: seq<string>, t: bool) {
      && |r.asked| <= |all| && keys == all[|r.asked|..] && t == timed
      && On(r) == Done(c, r.asked) && Asked(c, r.asked, |r.s.chan.items|, r.s.now)
    }

    /** With the bucket of a key in hand. */
    ghost predicate InHand(c: Settings, r: Track, key: string, b: Share, keys: seq<string>, t: bool) {
      && |r.asked| < |all| && key == all[|r.asked|] && keys == all[|r.asked| + 1..] && t == timed
      && Asked(c, r.asked, |r.s.chan.items|, r.s.now)
      && var d := Done(c, r.asked);
         && Leaves(c, d.buf.shares, key, timed) && b == d.buf.shares[key]
         && On(r) == d.(buf := PipeProtocol.Take(d.buf, key))
    }

    ghost predicate Going(c: Settings, r: Track) {
      && Open(r.s, accepted)
      && match r.s.holder
         case Handing(keys, t) => Between(c, r, keys, t)
         case Sending(key, b, keys, t) => InHand(c, r, key, b, keys, t)
         case CountingRecords(item, keys, t) => Between(c, r, keys, t)
         case CountingBytes(item, keys, t) => Between(c, r, keys, t)
         case _ => false
    }

    ghost predicate Finished(c: Settings, r: Track) {
      Passed(c, mid, all, r.asked, timed, since, found, On(r), r.s.now)
    }
  }

  lemma OneMoreKey(p: Pass, c: Settings, asked: seq<Look>, look: Look)
    requires |asked| < |p.all| && p.Asked(c, asked, look.queued, look.at)
    ensures p.Done(c, asked + [look]) ==
            HandOne(c, p.Done(c, asked), p.all[|asked|], look.queued, p.timed, look.at)
    ensures p.Asked(c, asked + [look], After(c, p.Done(c, asked), p.all[|asked|], look.queued, p.timed), look.at)
  {
    NextIsDone(c, p.mid, p.all, asked, look, p.timed);
    NextAnswers(c, p.mid, p.all, asked, look, p.timed, p.since, p.found);
  }

  lemma GoesIfLeaves(p: Pass, c: Settings, r: Track)
    requires p.Going(c, r) && r.s.holder.Handing? && |r.asked| < |p.all|
    ensures r.s.holder.keys != [] && p.all[|r.asked|] == r.s.holder.keys[0]
    ensures Goes(c, r.s) <==> Leaves(c, p.Done(c, r.asked).buf.shares, p.all[|r.asked|], p.timed)
  {
  }

  lemma SkipsKey(p: Pass, c: Settings, asked: seq<Look>, look: Look)
    requires |asked| < |p.all| && p.Asked(c, asked, look.queued, look.at)
    requires !Leaves(c, p.Done(c, asked).buf.shares, p.all[|asked|], p.timed)
    ensures p.Done(c, asked + [look]) == p.Done(c, asked) && p.Asked(c, asked + [look], look.queued, look.at)
    ensures p.all[|asked|..][1..] == p.all[|asked + [look]|..]
  {
    OneMoreKey(p, c, asked, look);
  }

  lemma AttemptSkips(p: Pass, c: Settings, r: Track)
    requires p.Going(c, r) && r.s.holder.Handing? && r.s.holder.keys != [] && !Goes(c, r.s)
    ensures p.Going(c, Tried(c, r))
  {
    SkipsKey(p, c, r.asked, Here(r.s));
  }

  lemma AttemptTakes(p: Pass, c: Settings, r: Track)
    requires p.Going(c, r) && r.s.holder.Handing? && r.s.holder.keys != [] && Goes(c, r.s)
    ensures p.Going(c, Tried(c, r))
  {
    assert p.all[|r.asked|..][1..] == p.all[|r.asked| + 1..];
  }

  lemma AttemptGoes(p: Pass, c: Settings, r: Track)
    requires p.Going(c, r) && r.s.holder.Handing? && r.s.holder.keys != []
    ensures p.Going(c, Tried(c, r))
  {
    if Goes(c, r.s) { AttemptTakes(p, c, r); } else { AttemptSkips(p, c, r); }
  }

  /** A batch in hand, once offered: what the pass has done, and where it stands. */
  lemma OfferIsDone(p: Pass, c: Settings, r: Track)
    requires p.Going(c, r) && r.s.holder.Sending?
    ensures var n := Parted(c, r); On(n) == p.Done(c, n.asked) && p.Asked(c, n.asked, |n.s.chan.items|, n.s.now)
  {
    OneMoreKey(p, c, r.asked, Here(r.s));
    RefusedIsKept(c, p.Done(c, r.asked), r.s.holder.key, |r.s.chan.items|, p.timed, r.s.now);
  }

  lemma SendGoes(p: Pass, c: Settings, r: Track)
    requires p.Going(c, r) && r.s.holder.Sending?
    ensures p.Going(c, Parted(c, r))
  {
    OfferIsDone(p, c, r);
  }

  lemma OtherGoes(p: Pass, c: Settings, r: Track, t: State)
    requires p.Going(c, r) && Aside(r.s, t)
    ensures p.Going(c, r.(s := t))
  {
  }

  lemma UnlockEnds(p: Pass, c: Settings, r: Track)
    requires p.Going(c, r) && Enabled(c, r.s, ByHolder(Unlock))
    ensures p.Finished(c, Follow(c, r, ByHolder(Unlock))) && Open(Follow(c, r, ByHolder(Unlock)).s, p.accepted)
  {
    assert p.all[..|p.all|] == p.all;
  }

  lemma StepGoes(p: Pass, c: Settings, r: Track, a: Action)
    requires p.Going(c, r) && Enabled(c, r.s, a) && a != ByHolder(Unlock)
    ensures p.Going(c, Follow(c, r, a)) && SameReadings(r, Follow(c, r, a))
  {
    if a == ByHolder(Attempt) { AttemptGoes(p, c, r); }
    else if a == ByHolder(Send) { SendGoes(p, c, r); }
    else if !a.ByHolder? {
      OthersStandAside(c, r.s, a);
      OtherGoes(p, c, r, Apply(c, r.s, a));
    }
  }

  /** A pass, whoever interleaves, comes to the handoffs of its keys with what the queue held at each. */
  lemma {:induction false} PassEnds(p: Pass, c: Settings, r: Track, acts: seq<Action>, t: Track)
    requires p.Going(c, r) && Steps(c, r, acts, t) && t.s.holder.Free? && t.s.closer.NotStarted?
    ensures p.Finished(c, t) && Open(t.s, p.accepted) && SameReadings(r, t)
    decreases |acts|
  {
    var n := Follow(c, r, acts[0]);
    if acts[0] == ByHolder(Unlock) {
      UnlockEnds(p, c, r);
      assert Steps(c, n, acts[1..], t);
    } else {
      StepGoes(p, c, r, acts[0]);
      PassEnds(p, c, n, acts[1..], t);
    }
  }

  // ----- a request ----------------------------------------------------------------------------

  /** A request `es` that took the lock at `since` with `d` on the desk and `found` batches on the queue. */
  datatype Visit = Visit(d: Desk, es: seq<Event>, since: Time, found: nat, accepted: seq<Event>)
  {
    /** The pass it comes to, its events appended at those instants. */
    ghost function Then(at: seq<Time>, ready: Time): Pass
      requires |at| == |es|
    {
      Pass(d.(buf := Added(d.buf, es, at)), Sort(Touched(es)), false, ready, found, accepted + es)
    }

    ghost predicate Untouched(r: Track) {
      Open(r.s, accepted) && r.s.buf == d.buf
    }

    ghost predicate Appended(r: Track, k: int) {
      && 0 <= k <= |es| && |r.at| == k && Open(r.s, accepted + es)
      && r.s.buf == d.buf.(shares := AppendAll(d.buf.shares, es[..k], r.at))
    }

    ghost predicate Entering(c: Settings, r: Track) {
      && |r.s.chan.items| <= found && r.asked == [] && r.went == d.went && r.s.timer == d.timer
      && Ascend(since, r.at, r.s.now)
      && match r.s.holder
         case Checking(req) => req == es && r.at == [] && Untouched(r)
         case RecordsFit(req) =>
           req == es && r.at == [] && Untouched(r) && d.buf.held + r.records + |es| <= c.maxRecords
         case Filling(req, k) => req == es && !Over(c, d.buf, r.records, r.size, es) && Appended(r, k)
         case _ => false
    }

    /** Refused over a ceiling, as the two atomics were read, and nothing changed; or let in. */
    ghost predicate Answered(c: Settings, r: Track) {
      if Over(c, d.buf, r.records, r.size, es) then On(r) == d && Open(r.s, accepted)
      else
        && |r.at| == |es| && Ascend(since, r.at, r.ready)
        && Then(r.at, r.ready).Finished(c, r) && Open(r.s, accepted + es)
    }
  }

  lemma CheckEnters(v: Visit, c: Settings, r: Track, a: Action)
    requires Checked(c) && v.Entering(c, r) && Enabled(c, r.s, a)
    requires a == ByHolder(CheckRecords) || a == ByHolder(CheckBytes)
    ensures var n := Follow(c, r, a);
      if n.s.holder.Free? then Over(c, v.d.buf, n.records, n.size, v.es) && v.Answered(c, n) else v.Entering(c, n)
  {
  }

  lemma FillEnters(v: Visit, c: Settings, r: Track)
    requires v.Entering(c, r) && HolderMay(c, r.s, Fill)
    ensures v.Entering(c, r.(s := HolderNext(c, r.s, Fill), at := r.at + [r.s.now]))
  {
    FillIsAppend(c, r.s, v.d.buf.shares, r.at);
    assert (r.at + [r.s.now])[..|r.at|] == r.at;
  }

  lemma FilledPasses(v: Visit, c: Settings, r: Track)
    requires v.Entering(c, r) && HolderMay(c, r.s, HolderStep.Filled)
    ensures |r.at| == |v.es|
    ensures v.Then(r.at, r.s.now).Going(c, r.(s := HolderNext(c, r.s, HolderStep.Filled), ready := r.s.now))
  {
    assert v.es[..|v.es|] == v.es;
    FilledIsAdded(c, r.s, v.d.buf, r.at);
    var all := Sort(Touched(v.es));
    assert all[..0] == [] && all[0..] == all;
  }

  lemma OtherEnters(v: Visit, c: Settings, r: Track, t: State)
    requires v.Entering(c, r) && Aside(r.s, t)
    ensures v.Entering(c, r.(s := t))
  {
  }

  lemma StepEnters(v: Visit, c: Settings, r: Track, a: Action)
    requires Checked(c) && v.Entering(c, r) && Enabled(c, r.s, a) && a != ByHolder(HolderStep.Filled)
    ensures var n := Follow(c, r, a);
      if n.s.holder.Free? then v.Answered(c, n) else v.Entering(c, n)
  {
    if a == ByHolder(CheckRecords) || a == ByHolder(CheckBytes) { CheckEnters(v, c, r, a); }
    else if a == ByHolder(Fill) { FillEnters(v, c, r); }
    else { OthersStandAside(c, r.s, a); OtherEnters(v, c, r, Apply(c, r.s, a)); }
  }

  /** A request, whoever interleaves, is answered as the specification of `enqueue` says. */
  lemma {:induction false} RequestEnds(v: Visit, c: Settings, r: Track, acts: seq<Action>, t: Track)
    requires Checked(c) && v.Entering(c, r) && Steps(c, r, acts, t) && t.s.holder.Free? && t.s.closer.NotStarted?
    ensures v.Answered(c, t)
    decreases |acts|
  {
    var n := Follow(c, r, acts[0]);
    if acts[0] == ByHolder(HolderStep.Filled) {
      FilledPasses(v, c, r);
      PassEnds(v.Then(n.at, n.ready), c, n, acts[1..], t);
    } else {
      StepEnters(v, c, r, acts[0]);
      if n.s.holder.Free? { assert Steps(c, n, acts[1..], t); } else { RequestEnds(v, c, n, acts[1..], t); }
    }
  }

  // ----- close --------------------------------------------------------------------------------

  const NOTHING: Item := Item([], 0)

  lemma {:induction false} GatheredExact(bs: Shares, keys: seq<string>, now: Time)
    requires BucketShape(bs, now)
    ensures Exact(Gathered(bs, keys))
  {
    if keys != [] {
      var n := |keys| - 1;
      GatheredExact(bs, keys[..n], now);
      if keys[n] in bs {
        assert Exact(ItemOf(bs[keys[n]]));
        WeighConcat(Gathered(bs, keys[..n]).events, bs[keys[n]].batch, Bytes);
      }
    }
  }

  /** Where a section starts: `went` is what went on the queue before it. */
  ghost function Start(s: State, went: seq<Item>): Track { Track(s, went, [], 0, [], [], 0, 0, NOTHING) }

  lemma NextGathered(before: Buffer, all: seq<string>, i: nat, ready: Item, buf: Buffer, more: Item, less: Buffer)
    requires i < |all| && Gathering(before, all, i, ready, buf)
    requires more == Gathered(before.shares, all[..i + 1]) && less == Without(before, all[..i + 1])
    ensures Gathering(before, all, i + 1, more, less)
  {
  }

  lemma GatherAt(before: Buffer, all: seq<string>, i: nat, ready: Item, buf: Buffer)
    requires all == SortedKeys(before.shares.Keys) && i < |all| && Gathering(before, all, i, ready, buf)
    ensures all[i] in buf.shares
    ensures var b := buf.shares[all[i]];
      Gathering(before, all, i + 1, Item(ready.events + b.batch, ready.bytes + b.bytes), PipeProtocol.Take(buf, all[i]))
  {
    StillHeld(before, all, i);
    var b := buf.shares[all[i]];
    var more := Item(ready.events + b.batch, ready.bytes + b.bytes);
    NextGathered(before, all, i, ready, buf, more, PipeProtocol.Take(buf, all[i]));
  }

  lemma KeysLeft(all: seq<string>, keys: seq<string>)
    requires |keys| <= |all| && keys != [] && keys == all[|all| - |keys|..]
    ensures keys[0] == all[|all| - |keys|] && keys[1..] == all[|all| - |keys[1..]|..]
  {
  }

  /** A `close` that took the lock with `d` on the desk. */
  datatype Shutting = Shutting(d: Desk, now: Time)
  {
    ghost function All(): seq<string> { SortedKeys(d.buf.shares.Keys) }

    ghost function Ready(): Item { Gathered(d.buf.shares, All()) }

    /** All but the buckets of `keys` gathered. */
    ghost predicate Collected(all: seq<string>, keys: seq<string>, ready: Item, buf: Buffer) {
      && |keys| <= |all| && keys == all[|all| - |keys|..]
      && Gathering(d.buf, all, |all| - |keys|, ready, buf)
    }

    /** Under the lock. */
    ghost predicate Gathers(r: Track) {
      && r.s.closer == UnderLock && r.s.holder.Draining? && r.went == d.went && r.inline == NOTHING && !r.s.chan.closed
      && Collected(All(), r.s.holder.keys, r.s.holder.ready, r.s.buf)
    }

    /** The batch on its way, on the queue, or kept. */
    ghost predicate Placed(x: Closer, went: seq<Item>, inline: Item) {
      match x
      case Offering(item) => item == Ready() && item.events != [] && went == d.went && inline == NOTHING
      case CountingOffer(_) => Ready().events != [] && went == d.went + [Ready()] && inline == NOTHING
      case CountingOfferBytes(_) => Ready().events != [] && went == d.went + [Ready()] && inline == NOTHING
      case Inline(item) => went == d.went && inline == Ready()
      case NotStarted => false
      case UnderLock => false
      case _ => Left(d.went, Ready(), went != d.went, true, went, inline)
    }

    /** The lock is let go, and nothing is held any more. */
    ghost predicate Shut(r: Track) {
      && r.s.holder.Free? && r.s.buf == Buffer(map[], 0, 0) && r.s.timer == Off
      && Placed(r.s.closer, r.went, r.inline) && (r.s.chan.closed ==> r.s.closer.Waiting? || r.s.closer.Returned?)
    }
  }

  lemma CloseGathers(x: Shutting, c: Settings, s: State)
    requires HolderMay(c, s, HolderStep.Close) && !s.chan.closed && s.buf == x.d.buf
    ensures x.Gathers(Start(HolderNext(c, s, HolderStep.Close), x.d.went))
  {
    assert x.All()[..0] == [] && x.All()[0..] == x.All();
  }

  lemma GatherOne(x: Shutting, all: seq<string>, keys: seq<string>, ready: Item, buf: Buffer)
    requires all == SortedKeys(x.d.buf.shares.Keys) && x.Collected(all, keys, ready, buf) && keys != []
    ensures keys[0] in buf.shares
    ensures var b := buf.shares[keys[0]];
      x.Collected(all, keys[1..], Item(ready.events + b.batch, ready.bytes + b.bytes),
                  PipeProtocol.Take(buf, keys[0]))
  {
    var i := |all| - |keys|;
    KeysLeft(all, keys);
    GatherAt(x.d.buf, all, i, ready, buf);
  }

  lemma TakenIs(s: State)
    requires s.holder.Draining? && s.holder.keys != [] && s.holder.keys[0] in s.buf.shares
    ensures var h, b := s.holder, s.buf.shares[s.holder.keys[0]];
      TakenForClose(s) == s.(buf := PipeProtocol.Take(s.buf, h.keys[0]),
        holder := Draining(h.keys[1..], Item(h.ready.events + b.batch, h.ready.bytes + b.bytes)))
  {
  }

  lemma GatherGoes(x: Shutting, r: Track)
    requires x.Gathers(r) && r.s.holder.keys != []
    ensures x.Gathers(r.(s := TakenForClose(r.s)))
  {
    GatherOne(x, x.All(), r.s.holder.keys, r.s.holder.ready, r.s.buf);
    TakenIs(r.s);
  }

  lemma UnlockShuts(x: Shutting, c: Settings, r: Track)
    requires x.Gathers(r) && Books(x.d.buf, x.now) && HolderMay(c, r.s, UnlockForClose)
    ensures x.Shut(r.(s := HolderNext(c, r.s, UnlockForClose))) && r.s.holder.ready == x.Ready()
  {
    NothingHeld(x.d.buf, x.All(), x.now, r.s.holder.ready, r.s.buf);
    GatheredExact(x.d.buf.shares, x.All(), x.now);
  }

  lemma CloserShuts(x: Shutting, c: Settings, r: Track, k: CloserStep)
    requires x.Shut(r) && CloserMay(c, r.s, k)
    ensures x.Shut(Follow(c, r, ByCloser(k)))
  {
  }

  lemma HolderShuts(x: Shutting, c: Settings, r: Track, h: HolderStep)
    requires x.Shut(r) && HolderMay(c, r.s, h)
    ensures x.Shut(Follow(c, r, ByHolder(h)))
  {
  }

  lemma OtherShuts(x: Shutting, c: Settings, r: Track, a: Action)
    requires (x.Gathers(r) || x.Shut(r)) && Enabled(c, r.s, a) && (a.Tick? || a.Ring? || a.ByWorker?)
    ensures x.Gathers(Follow(c, r, a)) || x.Shut(Follow(c, r, a))
  {
    if a.ByWorker? { WorkerStandsAside(r.s, a.w, a.k); }
  }

  lemma HolderGathers(x: Shutting, c: Settings, r: Track, h: HolderStep)
    requires x.Gathers(r) && Books(x.d.buf, x.now) && HolderMay(c, r.s, h)
    ensures x.Gathers(Follow(c, r, ByHolder(h))) || x.Shut(Follow(c, r, ByHolder(h)))
  {
    if h == TakeForClose { GatherGoes(x, r); } else { UnlockShuts(x, c, r); }
  }

  lemma StepShuts(x: Shutting, c: Settings, r: Track, a: Action)
    requires (x.Gathers(r) || x.Shut(r)) && Books(x.d.buf, x.now) && Enabled(c, r.s, a)
    ensures x.Gathers(Follow(c, r, a)) || x.Shut(Follow(c, r, a))
  {
    if a.ByHolder? {
      if x.Shut(r) { HolderShuts(x, c, r, a.h); } else { HolderGathers(x, c, r, a.h); }
    } else if a.ByCloser? {
      CloserShuts(x, c, r, a.x);
    } else {
      OtherShuts(x, c, r, a);
    }
  }

  lemma ClosedIsLeft(x: Shutting, t: Track)
    requires (x.Gathers(t) || x.Shut(t)) && t.s.chan.closed
    ensures t.s.buf == Buffer(map[], 0, 0) && t.s.timer == Off
    ensures Left(x.d.went, Gathered(x.d.buf.shares, SortedKeys(x.d.buf.shares.Keys)), t.went != x.d.went, true, t.went,
                 t.inline)
  {
  }

  /** From `close` taking the lock on, whoever interleaves, the last batch is gathered and placed as `close`'s
      specification says. */
  lemma {:induction false} CloseEnds(x: Shutting, c: Settings, r: Track, acts: seq<Action>, t: Track)
    requires (x.Gathers(r) || x.Shut(r)) && Books(x.d.buf, x.now) && Steps(c, r, acts, t)
    ensures x.Gathers(t) || x.Shut(t)
    decreases |acts|
  {
    if acts != [] {
      StepShuts(x, c, r, acts[0]);
      CloseEnds(x, c, Follow(c, r, acts[0]), acts[1..], t);
    }
  }

  // ----- whatever interleaves -----------------------------------------------------------------

  /** `enqueue`: a request that takes the lock and lets it go is refused over a ceiling, as it read the two atomics,
      and changes nothing; or it is admitted, and the desk is as the specification says for what the queue held. */
  lemma EnqueueIsAsSpecified(c: Settings, s: State, went: seq<Item>, es: seq<Event>, acts: seq<Action>, t: Track)
    requires Checked(c) && HolderMay(c, s, Request(es)) && s.closer.NotStarted? && !s.chan.closed
    requires Steps(c, Start(HolderNext(c, s, Request(es)), went), acts, t) && t.s.holder.Free?
    requires t.s.closer.NotStarted?
    ensures if Over(c, s.buf, t.records, t.size, es)
      then On(t) == DeskOf(s, went) && t.s.past.accepted == s.past.accepted
      else && Requested(c, DeskOf(s, went), es, ReadBy(t), s.now, |s.chan.items|, On(t), t.s.now)
           && t.s.past.accepted == s.past.accepted + es
  {
    var v := Visit(DeskOf(s, went), es, s.now, |s.chan.items|, s.past.accepted);
    RequestEnds(v, c, Start(HolderNext(c, s, Request(es)), went), acts, t);
  }

  /** A flush that has spent the alarm, and looks for winners. */
  ghost predicate Seeking(r: Track, d: Desk, since: Time, found: nat, accepted: seq<Event>) {
    && r.s.holder == Choosing(since) && since <= r.s.now && On(r) == d.(timer := Off) && |r.s.chan.items| <= found
    && r.at == [] && r.asked == [] && Open(r.s, accepted)
  }

  lemma ChoosePasses(c: Settings, r: Track, d: Desk, since: Time, found: nat, accepted: seq<Event>,
                     winners: seq<string>)
    requires Seeking(r, d, since, found, accepted) && HolderMay(c, r.s, Choose(winners))
    ensures var n := Follow(c, r, ByHolder(Choose(winners)));
      && Pass(d.(timer := Off), winners, true, n.ready, found, accepted).Going(c, n)
      && n.keys == winners && since <= n.ready && MayHandOff(c, d.buf.shares, since, n.ready, winners)
  {
    assert winners[..0] == [] && winners[0..] == winners;
  }

  lemma {:induction false} FlushEnds(c: Settings, r: Track, d: Desk, since: Time, found: nat, accepted: seq<Event>,
                                     acts: seq<Action>, t: Track)
    requires Seeking(r, d, since, found, accepted) && Steps(c, r, acts, t)
    requires t.s.holder.Free? && t.s.closer.NotStarted?
    ensures Flushed(c, d, t.keys, ReadBy(t), since, found, On(t), t.s.now) && t.s.past.accepted == accepted
    decreases |acts|
  {
    var n := Follow(c, r, acts[0]);
    if acts[0].ByHolder? {
      ChoosePasses(c, r, d, since, found, accepted, acts[0].h.winners);
      PassEnds(Pass(d.(timer := Off), n.keys, true, n.ready, found, accepted), c, n, acts[1..], t);
    } else {
      OthersStandAside(c, r.s, acts[0]);
      FlushEnds(c, n, d, since, found, accepted, acts[1..], t);
    }
  }

  /** `flush`: the alarm is spent, and the winners it chose are handed off with what each found. */
  lemma FlushIsAsSpecified(c: Settings, s: State, went: seq<Item>, acts: seq<Action>, t: Track)
    requires HolderMay(c, s, HolderStep.Flush) && s.closer.NotStarted? && !s.chan.closed
    requires Steps(c, Start(HolderNext(c, s, HolderStep.Flush), went), acts, t) && t.s.holder.Free?
    requires t.s.closer.NotStarted?
    ensures t.s.past.accepted == s.past.accepted
    ensures if s.buf.shares == map[] then On(t) == DeskOf(s, went).(timer := Off)
            else Flushed(c, DeskOf(s, went), t.keys, ReadBy(t), s.now, |s.chan.items|, On(t), t.s.now)
  {
    var r := Start(HolderNext(c, s, HolderStep.Flush), went);
    if s.buf.shares != map[] {
      FlushEnds(c, r, DeskOf(s, went), s.now, |s.chan.items|, s.past.accepted, acts, t);
    }
  }

  /** `close`: once the queue is closed nothing is held, no timer runs, and the batch of every bucket in key order is
      the last on the queue or `close`'s own to deliver. */
  lemma CloseIsAsSpecified(c: Settings, s: State, went: seq<Item>, acts: seq<Action>, t: Track)
    requires HolderMay(c, s, HolderStep.Close) && !s.chan.closed && Books(s.buf, s.now)
    requires Steps(c, Start(HolderNext(c, s, HolderStep.Close), went), acts, t) && t.s.chan.closed
    ensures t.s.buf == Buffer(map[], 0, 0) && t.s.timer == Off
    ensures Left(went, Gathered(s.buf.shares, SortedKeys(s.buf.shares.Keys)), t.went != went, true, t.went, t.inline)
  {
    var x := Shutting(DeskOf(s, went), s.now);
    CloseGathers(x, c, s);
    CloseEnds(x, c, Start(HolderNext(c, s, HolderStep.Close), went), acts, t);
    ClosedIsLeft(x, t);
  }
}
