/** The pipe of one stream as the object it is: buckets updated in place under the lock, totals kept beside
    them, one timer, and a line to its workers. */
module Gateway {
  import opened Ordering
  import opened Outcomes
  import opened Tally
  import opened Buffering
  import opened PipeProtocol
  import opened Handoffs
  import opened PipeParts
  import opened ClaimKeys
  import opened Windows

  /** The earliest deadline of the keys no longer `left` to look at, or -1 before the first. */
  ghost predicate Earliest(c: Settings, bs: Shares, left: set<string>, now: Time, d: int) {
    && (d < 0 ==> d == -1 && left == bs.Keys)
    && (d >= 0 ==> exists k | k in bs && k !in left :: Deadline(c, Some(bs[k]), now) == d)
    && (forall k | k in bs && k !in left :: 0 <= d <= Deadline(c, Some(bs[k]), now))
  }

  lemma EarliestStep(c: Settings, bs: Shares, left: set<string>, now: Time, d: int, k: string)
    requires Earliest(c, bs, left, now, d) && k in left && left <= bs.Keys
    ensures var w := Deadline(c, Some(bs[k]), now);
      w >= 0 && Earliest(c, bs, left - {k}, now, if d < 0 || w < d then w else d)
  {
  }

  lemma EarliestIsNext(c: Settings, bs: Shares, now: Time, d: int)
    requires Earliest(c, bs, {}, now, d)
    ensures d < 0 <==> bs == map[]
    ensures d >= 0 ==> d == Next(c, bs, now)
  {
  }

  lemma FillStep(bs: Shares, es: seq<Event>, at: seq<Time>, e: Event, now: Time)
    requires |at| == |es|
    ensures AppendAll(bs, es + [e], at + [now]) == Append(AppendAll(bs, es, at), e, now)
    ensures Touched(es + [e]) == if e.key in Touched(es) then Touched(es) else Touched(es) + [e.key]
  {
  }

  /** A bucket found or opened, then appended to, is the event appended. */
  lemma InTwoSteps(bs: Shares, found: Shares, e: Event, now: Time)
    requires found == if e.key in bs then bs else bs[e.key := Share([], 0, now)]
    ensures Append(found, e, now) == Append(bs, e, now)
  {
    assert [] + [e] == [e];
  }

  lemma AscendOne(since: Time, at: seq<Time>, prior: Time, now: Time)
    requires Ascend(since, at, prior) && prior <= now
    ensures Ascend(since, at + [now], now)
  {
    assert (at + [now])[..|at|] == at;
  }

  lemma HeldSince(bs: Shares, now: Time)
    requires BucketShape(bs, now)
    ensures forall k | k in bs :: bs[k].oldest != 0
  {
  }

  lemma SameEmptiness<U, V>(a: map<string, U>, b: map<string, V>)
    requires a.Keys == b.Keys
    ensures a == map[] <==> b == map[]
  {
  }

  lemma EmptyFlush(c: Settings, d: Desk, now: Time)
    ensures d.timer == Off && d.buf.shares == map[] ==>
      forall found: nat :: Flushed(c, d, [], Reading([], now, []), now, found, d, now)
  {
  }

  lemma ChoiceMay(c: Settings, coordinated: bool, buf: Buffer, q: Survey, since: Time, now: Time, store: Store,
                  p: Place)
    requires Checked(c) && Books(buf, since) && since <= now
    requires Surveyed(c, buf.shares, SortedKeys(DueKeys(c, buf.shares, q.seen)), q, since, now)
    ensures Books(buf, now)
    ensures var due := SortedKeys(DueKeys(c, buf.shares, q.seen));
      MayHandOff(c, buf.shares, since, now, Winners(c, coordinated, buf.shares, due, q.at, store, p))
  {
    LaterBooks(buf, since, now);
    HeldSince(buf.shares, since);
    WinnersMayHandOff(c, coordinated, buf.shares, SortedKeys(DueKeys(c, buf.shares, q.seen)), q, since, now, store, p);
  }

  lemma NamesGrow(p: Place, ask: seq<string>, key: string)
    ensures Names(p, ask + [key]) == Names(p, ask) + [ClaimKey(p.gateway, p.stream, key, p.window)]
  {
  }

  class Pipe {
    const c: Settings
    const gateway: string
    const stream: string
    const coordinated: bool

    var buckets: map<string, Bucket>
    var held: int
    var bytes: int
    var gen: int
    var timer: Timer
    var closing: bool
    var now: Time
    const line: Line

    // the bucket objects this pipe made
    ghost var made: set<Bucket>

    // the buckets as values
    ghost var view: Shares

    /** Each bucket is its own object, with parallel slices, and `view` is what they hold. */
    ghost predicate Tied()
      reads `buckets, `made, `view, made`batch, made`sizes, made`bytes, made`oldest
    {
      && view.Keys == buckets.Keys
      && forall k | k in buckets ::
           && buckets[k] in made && buckets[k].key == k
           && |buckets[k].batch| == |buckets[k].sizes| && view[k] == buckets[k].At(k)
    }

    ghost function Held(): Buffer
      reads `view, `held, `bytes
    {
      Buffer(view, held, bytes)
    }

    /** No bucket carries a mark of a request to come. */
    ghost predicate Marks()
      reads `made, `gen, made`mark
    {
      forall b | b in made :: b.mark <= gen
    }

    /** What the handoffs of a pass work on. */
    ghost function OnDesk(): Desk
      reads `view, `held, `bytes, `timer, line`log
    {
      Desk(Held(), timer, line.log.sent)
    }

    /** What holds of the objects, whatever the buckets hold and whatever time it is. */
    ghost predicate Sound()
      reads `buckets, `view, `gen, `closing, `made, made, line
    {
      && Checked(c) && line.capacity == c.queue && gen >= 0 && Marks()
      && Tied() && line.Counted() && (line.closed ==> closing)
    }

    ghost predicate Valid()
      reads `buckets, `view, `held, `bytes, `gen, `closing, `now, `made, made, line
    {
      Sound() && now > 0 && Books(Held(), now) && (closing ==> view == map[])
    }

    constructor (c: Settings, gateway: string, stream: string, coordinated: bool, now: Time)
      requires Checked(c) && now > 0
      ensures Valid() && Watched(c, OnDesk(), now) && view == map[] && !closing && fresh(this) && fresh(line)
      ensures this.c == c && line.log.sent == [] && line.pending == 0 && line.pendingBytes == 0
    {
      this.c, this.gateway, this.stream, this.coordinated, this.now := c, gateway, stream, coordinated, now;
      buckets, held, bytes, gen, timer, closing := map[], 0, 0, 0, Off, false;
      made, view := {}, map[];
      line := new Line(c.queue);
    }

    method Take(key: string) returns (b: Bucket?)
      requires Sound()
      modifies `buckets, `held, `bytes, `view
      ensures Sound() && buckets == old(buckets) - {key}
      ensures if key in old(buckets) then b == old(buckets[key]) && Held() == PipeProtocol.Take(old(Held()), key)
              else b == null && Held() == old(Held())
    {
      if key !in buckets {
        assert buckets - {key} == buckets;
        return null;
      }
      b := buckets[key];
      buckets := buckets - {key};
      view := view - {key};
      held := held - |b.batch|;
      bytes := bytes - b.bytes;
    }

    /** The clock has not left the years whose instants can be printed, if it was in them. */
    ghost predicate Legible(since: Time)
      reads `now
    {
      c.claim && Printable(since, c.every) ==> Printable(now, c.every)
    }

    /** Time passes. */
    method Clock()
      modifies `now
      ensures now >= old(now) && Legible(old(now))
    {
      var later :| later >= now && (c.claim && Printable(now, c.every) ==> Printable(later, c.every));
      now := later;
    }

    method DeadlineOf(key: string) returns (d: int)
      requires Tied() && key in buckets
      ensures d == Deadline(c, Some(view[key]), now) >= 0
    {
      d := Deadline(c, Some(buckets[key].At(key)), now);
    }

    /** The earliest deadline, by a walk over the buckets in whatever order. */
    method NextDeadline() returns (d: int)
      requires Tied()
      ensures d == Next(c, view, now)
    {
      d := -1;
      var left := buckets.Keys;
      while left != {}
        invariant left <= view.Keys
        invariant Earliest(c, view, left, now, d)
        decreases |left|
      {
        var k :| k in left;
        var w := DeadlineOf(k);
        EarliestStep(c, view, left, now, d, k);
        if d < 0 || w < d { d := w; }
        left := left - {k};
      }
      EarliestIsNext(c, view, now, d);
      if d < 0 { d := Deadline(c, None, now); }
    }

    /** Whether an alarm is needed, and when it rings: a deadline already passed by a hair does not spin. */
    method WhenToRing() returns (needed: bool, at: Time)
      requires Tied()
      ensures (if closing then timer else Armed(c, timer, NotStarted, view, now)) ==
              if needed then Ringing(at, now) else timer
    {
      SameEmptiness(buckets, view);
      needed, at := !timer.Ringing? && !closing && buckets != map[], 0;
      if needed {
        var d := NextDeadline();
        at := now + (if d < MILLISECOND then MILLISECOND else d);
      }
    }

    method Start(at: Time)
      modifies `timer
      ensures timer == Ringing(at, now)
    {
      timer := Ringing(at, now);
    }

    /** `arm`: nothing while a timer runs, while closing, or with nothing held. */
    method Arm()
      requires Tied()
      modifies `timer, `now
      ensures timer == (if closing then old(timer) else Armed(c, old(timer), NotStarted, view, now)) && now >= old(now)
      ensures Held() == old(Held()) && line.log == old(line.log)
    {
      Clock();
      var needed, at := WhenToRing();
      if needed { Start(at); }
    }

    method AddBack(records: int, size: int)
      requires Sound()
      modifies `held, `bytes
      ensures Sound() && held == old(held) + records && bytes == old(bytes) + size
    {
      held := held + records;
      bytes := bytes + size;
    }

    method Restore(key: string, b: Bucket)
      requires Sound() && b in made && |b.batch| == |b.sizes| && key !in buckets && b.key == key
      modifies `buckets, `view
      ensures Sound() && view == Buffering.PutBack(old(view), key, b.At(key))
    {
      buckets := buckets[key := b];
      view := view[key := b.At(key)];
    }

    /** The default branch of `handoff`: the bucket goes back where it was taken from. Nothing can have filled
        its place meanwhile, so there is no bucket to merge it into. */
    method PutBack(key: string, b: Bucket)
      requires Sound() && b in made && |b.batch| == |b.sizes| && key !in buckets && b.key == key
      modifies `buckets, `held, `bytes, `view
      ensures Sound() && Held() == Return(old(Held()), key, b.At(key)) && timer == old(timer)
    {
      if key in buckets {
        assert false;
      } else {
        Restore(key, b);
      }
      AddBack(|b.batch|, b.bytes);
    }

    method Refuse(key: string, b: Bucket)
      requires Sound() && !closing && b in made && |b.batch| == |b.sizes| && key !in buckets && b.key == key
      modifies `buckets, `held, `bytes, `view, `timer, `now
      ensures Sound() && Held() == Return(old(Held()), key, b.At(key))
      ensures timer == Armed(c, old(timer), NotStarted, view, now) && now >= old(now)
    {
      PutBack(key, b);
      assert Sound() && !closing;
      Arm();
    }

    /** A bucket on its way: on the queue, or back where it was. */
    method Offer(key: string, b: Bucket) returns (ghost queued: nat)
      requires Sound() && !closing && b in made && |b.batch| == |b.sizes| && key !in buckets && b.key == key
      modifies `buckets, `held, `bytes, `view, `timer, `now,
        line`items, line`pending, line`pendingBytes, line`log
      ensures Sound()
      ensures OnDesk() == Offered(c, old(OnDesk()), key, b.At(key), queued, now) && now >= old(now)
      ensures old(line.log).Before(line.log)
      ensures queued <= |old(line.items)| && |line.items| <= if queued < c.queue then queued + 1 else queued
    {
      ghost var before, share := OnDesk(), b.At(key);
      var ok;
      ok, queued := line.TrySend(Item(Zip(key, b.batch, b.sizes), b.bytes));
      assert OnDesk() == if ok then Offered(c, before, key, share, queued, now) else before;
      if !ok { Refuse(key, b); }
    }

    /** `handoff`: the bucket of `key` goes on the queue or stays as it was; nothing happens while closing. */
    method Handoff(key: string) returns (ghost queued: nat)
      requires Sound()
      requires key in view ==> view[key].batch != []
      modifies `buckets, `held, `bytes, `view, `timer, `now,
        line`items, line`pending, line`pendingBytes, line`log
      ensures Sound()
      ensures OnDesk() == if closing then old(OnDesk()) else HandOne(c, old(OnDesk()), key, queued, true, now)
      ensures now >= old(now)
      ensures old(line.log).Before(line.log)
      ensures queued <= |old(line.items)|
      ensures |line.items| <= if !closing && key in old(view) && queued < c.queue then queued + 1 else queued
    {
      queued := |line.items|;
      if closing { return; }
      ghost var before := OnDesk();
      var b := Take(key);
      if b == null || |b.batch| == 0 {
        assert OnDesk() == before;
        return;
      }
      assert b.At(key) == before.buf.shares[key];
      queued := Offer(key, b);
      RefusedIsKept(c, before, key, queued, true, now);
    }

    /** What the filling of buckets leaves alone. */
    ghost function Aside(): (int, int, Timer, bool, Log)
      reads `held, `bytes, `timer, `closing, line`log
    {
      (held, bytes, timer, closing, line.log)
    }

    /** A new bucket: it goes from absent to held, so its wait starts now. */
    method NewBucket(key: string) returns (b: Bucket)
      requires Tied() && key !in buckets
      modifies `buckets, `view, `made, `now
      ensures Tied() && fresh(b) && made == old(made) + {b} && buckets == old(buckets)[key := b] && now >= old(now)
      ensures b.key == key && b.mark == 0 && view == old(view)[key := Share([], 0, now)]
    {
      Clock();
      b := new Bucket(key, now);
      buckets := buckets[key := b];
      view := view[key := b.At(key)];
      made := made + {b};
    }

    /** Which keys this request has reached, by the mark it leaves on their buckets. */
    ghost predicate Marked(touched: seq<string>)
      reads `buckets, `made, `gen, made`mark
      requires forall k | k in buckets :: buckets[k] in made
    {
      && (forall k | k in touched :: k in buckets)
      && (forall b {:trigger b.mark} | b in made :: b.mark <= gen)
      && forall k | k in buckets :: buckets[k].mark == gen <==> k in touched
    }

    method AppendOnly(key: string, b: Bucket, envelope: nat, size: nat)
      requires Tied() && key in buckets && buckets[key] == b
      modifies b`batch, b`sizes, b`bytes, `view
      ensures Tied() && view == Append(old(view), Event(envelope, key, size), now)
    {
      b.Add(envelope, size);
      view := view[key := b.At(key)];
    }

    method AppendTo(key: string, b: Bucket, envelope: nat, size: nat, ghost touched: seq<string>)
      requires Tied() && key in buckets && buckets[key] == b && Marked(touched)
      modifies b`batch, b`sizes, b`bytes, `view
      ensures Tied() && Marked(touched) && view == Append(old(view), Event(envelope, key, size), now)
    {
      AppendOnly(key, b, envelope, size);
    }

    /** The bucket of the event before, at hand. */
    ghost predicate AtHand(b: Bucket?, key: string)
      reads `buckets
    {
      b != null ==> key in buckets && buckets[key] == b
    }

    /** The bucket of an event's key: the last one again, the one there is, or a new one. */
    method Locate(key: string, last: Bucket?, lastKey: string, ghost touched: seq<string>) returns (b: Bucket)
      requires Tied() && AtHand(last, lastKey) && Marked(touched) && gen > 0
      modifies `buckets, `view, `made, `now
      ensures Tied() && Marked(touched) && fresh(made - old(made)) && old(made) <= made && AtHand(b, key)
      ensures now >= old(now) && Aside() == old(Aside())
      ensures key in old(buckets) ==> view == old(view)
      ensures key !in old(buckets) ==>
        view == old(view)[key := Share([], 0, now)]
    {
      if last != null && key == lastKey {
        b := last;
      } else if key in buckets {
        b := buckets[key];
      } else {
        b := NewBucket(key);
      }
    }

    /** A key is listed when its bucket does not carry this request's mark yet. */
    method Mark(key: string, b: Bucket, touched: seq<string>) returns (listed: seq<string>)
      requires Tied() && key in buckets && buckets[key] == b
      requires Marked(touched)
      modifies b`mark
      ensures Tied() && Marked(listed)
      ensures listed == if key in touched then touched else touched + [key]
    {
      listed := touched;
      if b.mark != gen {
        b.mark := gen;
        listed := touched + [key];
      }
    }

    method PutIn(key: string, b: Bucket, envelope: nat, size: nat, touched: seq<string>) returns (listed: seq<string>)
      requires Tied() && Marked(touched) && key in buckets && buckets[key] == b
      modifies b`batch, b`sizes, b`bytes, b`mark, `view
      ensures Tied() && Marked(listed) && view == Append(old(view), Event(envelope, key, size), now)
      ensures listed == if key in touched then touched else touched + [key]
    {
      listed := Mark(key, b, touched);
      AppendTo(key, b, envelope, size, listed);
    }

    method Put(key: string, b: Bucket, envelope: nat, size: nat, touched: seq<string>) returns (listed: seq<string>)
      requires Tied() && Marked(touched) && key in buckets && buckets[key] == b
      modifies b`batch, b`sizes, b`bytes, b`mark, `view
      ensures Tied() && Marked(listed) && view == Append(old(view), Event(envelope, key, size), now)
      ensures listed == if key in touched then touched else touched + [key]
      ensures Aside() == old(Aside()) && made == old(made) && buckets == old(buckets)
    {
      listed := PutIn(key, b, envelope, size, touched);
    }

    /** One event, with the bucket of the event before it at hand. */
    method FillOne(key: string, envelope: nat, size: nat, last: Bucket?, lastKey: string, touched: seq<string>)
        returns (b: Bucket, listed: seq<string>)
      requires Tied() && Marked(touched) && gen > 0
      requires AtHand(last, lastKey)
      modifies `buckets, `view, `made, `now,
        made`batch, made`sizes, made`bytes, made`mark
      ensures Tied() && fresh(made - old(made)) && old(made) <= made && Marked(listed)
      ensures AtHand(b, key) && now >= old(now) && Aside() == old(Aside())
      ensures view == Append(old(view), Event(envelope, key, size), now)
      ensures listed == if key in touched then touched else touched + [key]
    {
      ghost var before := view;
      b := Locate(key, last, lastKey, touched);
      InTwoSteps(before, view, Event(envelope, key, size), now);
      listed := Put(key, b, envelope, size, touched);
    }

    /** The loop of `enqueue` after `n` events, appended at the instants `at`: the buckets are what appending them one
        by one makes of them. */
    ghost predicate Filled(p: Prepared, n: nat, at: seq<Time>, before: Shares, touched: seq<string>, since: Time)
      reads `buckets, `made, `view, `gen, `now, made`batch, made`sizes, made`bytes, made`oldest, made`mark
    {
      && p.Aligned() && n <= |p.events| && |at| == n && Ascend(since, at, now)
      && Tied() && Marked(touched) && touched == Touched(p.Arrivals(n)) && view == AppendAll(before, p.Arrivals(n), at)
    }

    method FillNext(p: Prepared, i: nat, ghost at: seq<Time>, ghost before: Shares, ghost since: Time,
                    last: Bucket?, lastKey: string, touched: seq<string>) returns (b: Bucket, listed: seq<string>)
      requires gen > 0 && Filled(p, i, at, before, touched, since) && i < |p.events| && AtHand(last, lastKey)
      modifies `buckets, `view, `made, `now,
        made`batch, made`sizes, made`bytes, made`mark
      ensures forall b | b in made :: b in old(made) || fresh(b)
      ensures Filled(p, i + 1, at + [now], before, listed, since) && AtHand(b, p.KeyAt(i))
      ensures Aside() == old(Aside())
    {
      ghost var prior, e := now, Event(p.events[i], p.KeyAt(i), p.sizes[i]);
      b, listed := FillOne(p.KeyAt(i), p.events[i], p.sizes[i], last, lastKey, touched);
      FillStep(before, p.Arrivals(i), at, e, now);
      AscendOne(since, at, prior, now);
    }

    /** The cached bucket and the marks do what appending event by event does. */
    method FillAll(p: Prepared) returns (touched: seq<string>, ghost at: seq<Time>)
      requires Tied() && p.Aligned() && gen > 0 && forall b | b in made :: b.mark < gen
      modifies `buckets, `view, `made, `now,
        made`batch, made`sizes, made`bytes, made`mark
      ensures fresh(made - old(made)) && Filled(p, |p.events|, at, old(view), touched, old(now))
      ensures Aside() == old(Aside())
    {
      ghost var before, mine, since, aside := view, made, now, Aside();
      touched, at := [], [];
      var last: Bucket?, lastKey := null, "";
      var i := 0;
      while i < |p.events|
        invariant Filled(p, i, at, before, touched, since) && Aside() == aside
        invariant AtHand(last, lastKey) && forall b | b in made :: b in mine || fresh(b)
      {
        last, touched := FillNext(p, i, at, before, since, last, lastKey, touched);
        at := at + [now];
        lastKey, i := p.KeyAt(i), i + 1;
      }
    }

    /** One key of a pass: `enqueue` looks whether a trigger was crossed, a flush does not. */
    method HandoffOf(key: string, timed: bool) returns (ghost queued: nat)
      requires Sound() && !closing
      requires key in view && view[key].batch != []
      modifies `buckets, `held, `bytes, `view, `timer, `now,
        line`items, line`pending, line`pendingBytes, line`log
      ensures Sound() && !closing && OnDesk() == HandOne(c, old(OnDesk()), key, queued, timed, now) && now >= old(now)
      ensures old(line.log).Before(line.log)
      ensures queued <= |old(line.items)| && |line.items| <= After(c, old(OnDesk()), key, queued, timed)
    {
      queued := |line.items|;
      var b := buckets[key];
      if timed || |b.batch| >= c.records || (c.size > 0 && b.bytes >= c.size) {
        queued := Handoff(key);
      }
    }

    /** The same, with the books kept. */
    method HandoffNext(key: string, timed: bool) returns (ghost queued: nat)
      requires Valid() && !closing && key in view
      modifies `buckets, `held, `bytes, `view, `timer, `now,
        line`items, line`pending, line`pendingBytes, line`log
      ensures Valid() && OnDesk() == HandOne(c, old(OnDesk()), key, queued, timed, now) && now >= old(now)
      ensures old(line.log).Before(line.log)
      ensures queued <= |old(line.items)| && |line.items| <= After(c, old(OnDesk()), key, queued, timed)
    {
      ghost var before, prior := OnDesk(), now;
      queued := HandoffOf(key, timed);
      LaterBooks(before.buf, prior, now);
      HandOneKeepsBooks(c, before, key, queued, timed, now, now);
    }

    /** The next key of a pass under way. */
    method HandoffAt(keys: seq<string>, timed: bool, ghost desk: Desk, ghost asked: seq<Look>, ghost since: Time,
                     ghost found: nat, i: nat) returns (ghost asked': seq<Look>)
      requires Valid() && !closing && i == |asked| < |keys| && Distinct(keys) && keys[i] in desk.buf.shares
      requires Passing(c, desk, keys, asked, timed, since, found, OnDesk(), |line.items|, now)
      modifies `buckets, `held, `bytes, `view, `timer, `now,
        line`items, line`pending, line`pendingBytes, line`log
      ensures Valid() && |asked'| == i + 1
      ensures Passing(c, desk, keys, asked', timed, since, found, OnDesk(), |line.items|, now)
      ensures old(line.log).Before(line.log)
    {
      ghost var here := OnDesk();
      NextIsThere(c, desk, keys, i, asked, timed);
      ghost var queued := HandoffNext(keys[i], timed);
      asked' := asked + [Look(queued, now)];
      PassIsOn(c, desk, keys, asked, timed, since, found, here, Look(queued, now), OnDesk(), |line.items|);
    }

    /** A pass over the keys, in the order given. */
    method HandoffEach(keys: seq<string>, timed: bool, ghost desk: Desk, ghost since: Time, ghost found: nat)
        returns (ghost asked: seq<Look>)
      requires Valid() && !closing && Distinct(keys) && forall k | k in keys :: k in view
      requires desk == OnDesk() && since == now && found == |line.items|
      modifies `buckets, `held, `bytes, `view, `timer, `now,
        line`items, line`pending, line`pendingBytes, line`log
      ensures Valid() && |asked| == |keys| && old(line.log).Before(line.log)
      ensures Passing(c, desk, keys, asked, timed, since, found, OnDesk(), |line.items|, now)
    {
      ghost var was := line.log;
      asked := [];
      PassBegins(c, desk, keys, timed, since, found);
      var i := 0;
      while i < |keys|
        invariant 0 <= i == |asked| <= |keys| && Valid() && was.Before(line.log)
        invariant Passing(c, desk, keys, asked, timed, since, found, OnDesk(), |line.items|, now)
      {
        asked := HandoffAt(keys, timed, desk, asked, since, found, i);
        i := i + 1;
      }
    }

    /** The bytes of a request. */
    method TotalOf(p: Prepared) returns (total: int)
      requires p.Aligned()
      ensures total == Weigh(p.Arrivals(|p.events|), Bytes)
    {
      total := 0;
      var i := 0;
      while i < |p.sizes|
        invariant 0 <= i <= |p.sizes| && total == Total(p.sizes[..i])
      {
        assert p.sizes[..i + 1][..i] == p.sizes[..i];
        total := total + p.sizes[i];
        i := i + 1;
      }
      TotalIsWeight(p, |p.events|);
    }

    /** Both ceilings, against what is buffered and what the two atomics say is with the workers. */
    method ReadAtomics() returns (records: int, size: int)
      requires Valid()
      modifies line`items, line`pending, line`pendingBytes, line`log
      ensures Valid() && OnDesk() == old(OnDesk())
      ensures old(line.log).Read(old(line.pending), old(line.pendingBytes), line.log, records, size)
      ensures |line.items| <= |old(line.items)|
    {
      records, size := line.Load();
    }

    method Saturated(p: Prepared, total: int) returns (full: bool, ghost records: int, ghost size: int)
      requires Valid() && p.Aligned() && total == Weigh(p.Arrivals(|p.events|), Bytes)
      modifies line`items, line`pending, line`pendingBytes, line`log
      ensures Valid() && OnDesk() == old(OnDesk())
      ensures old(line.log).Read(old(line.pending), old(line.pendingBytes), line.log, records, size)
      ensures full <==> Over(c, Held(), records, size, p.Arrivals(|p.events|))
      ensures |line.items| <= |old(line.items)|
    {
      var n, b := ReadAtomics();
      records, size := n, b;
      full := held + n + |p.events| > c.maxRecords || (c.maxBytes > 0 && bytes + b + total > c.maxBytes);
    }

    method Fill(p: Prepared) returns (touched: seq<string>, ghost at: seq<Time>)
      requires Sound() && p.Aligned()
      modifies `buckets, `gen, `view, `made, `now,
        made`batch, made`sizes, made`bytes, made`mark
      ensures Sound() && fresh(made - old(made)) && |at| == |p.events| && Ascend(old(now), at, now)
      ensures touched == Touched(p.Arrivals(|p.events|)) && view == AppendAll(old(view), p.Arrivals(|p.events|), at)
      ensures Aside() == old(Aside())
    {
      gen := gen + 1;
      touched, at := FillAll(p);
    }

    /** The totals, once the events are in their buckets. */
    method AddUp(records: int, total: int, ghost after: Buffer)
      requires Sound() && now > 0 && !closing && Books(after, now)
      requires after == Buffer(view, held + records, bytes + total)
      modifies `held, `bytes
      ensures Valid() && OnDesk() == old(OnDesk()).(buf := after) && made == old(made) && closing == old(closing)
    {
      held, bytes := held + records, bytes + total;
      assert Held() == after;
    }

    /** The events are in their buckets, and the totals still as they were. */
    ghost predicate Placed(before: Desk, es: seq<Event>, since: Time, at: seq<Time>)
      reads `buckets, `view, `held, `bytes, `timer, `gen, `closing, `now, `made, made, line, line`log
    {
      && Sound() && !closing && |at| == |es| && Ascend(since, at, now)
      && OnDesk() == before.(buf := before.buf.(shares := AppendAll(before.buf.shares, es, at)))
    }

    /** The events are in, and counted. */
    ghost predicate Taken(before: Desk, es: seq<Event>, since: Time, at: seq<Time>)
      reads `buckets, `view, `held, `bytes, `timer, `gen, `closing, `now, `made, made, line, line`log
    {
      && Valid() && !closing && |at| == |es| && Ascend(since, at, now)
      && OnDesk() == before.(buf := Added(before.buf, es, at))
    }

    method SumUp(records: int, total: int, ghost before: Desk, ghost es: seq<Event>, ghost since: Time,
                 ghost at: seq<Time>)
      requires since > 0 && Books(before.buf, since) && Placed(before, es, since, at)
      requires records == |es| && total == Weigh(es, Bytes)
      modifies `held, `bytes
      ensures Taken(before, es, since, at) && made == old(made)
    {
      AddedBooks(before.buf, es, since, at, now);
      AddUp(records, total, Added(before.buf, es, at));
    }

    /** The events go to their buckets, and the rest of the desk stays. */
    method FillDesk(p: Prepared, ghost before: Desk, ghost since: Time, ghost es: seq<Event>)
        returns (touched: seq<string>, ghost at: seq<Time>)
      requires Valid() && !closing && p.Aligned() && before == OnDesk() && since == now
      requires es == p.Arrivals(|p.events|) && |es| == |p.events|
      modifies `buckets, `gen, `view, `made, `now, made`batch, made`sizes, made`bytes, made`mark
      ensures Placed(before, es, since, at) && fresh(made - old(made)) && touched == Touched(es)
    {
      touched, at := Fill(p);
    }

    /** The events go to their buckets, then the totals; what it returns is what to look at for a handoff. */
    method AddAll(p: Prepared, total: int, ghost before: Desk, ghost since: Time, ghost es: seq<Event>)
        returns (touched: seq<string>, ghost at: seq<Time>)
      requires Valid() && !closing && p.Aligned() && before == OnDesk() && since == now
      requires es == p.Arrivals(|p.events|) && |es| == |p.events| && total == Weigh(es, Bytes)
      modifies `buckets, `held, `bytes, `gen, `view, `made, `now, made`batch, made`sizes, made`bytes, made`mark
      ensures Taken(before, es, since, at) && fresh(made - old(made)) && touched == Touched(es)
    {
      touched, at := FillDesk(p, before, since, es);
      SumUp(|p.events|, total, before, es, since, at);
    }

    /** A pass ends with the alarm. */
    method EndPass(ghost desk: Desk, ghost keys: seq<string>, ghost asked: seq<Look>, ghost timed: bool,
                   ghost since: Time, ghost found: nat)
      requires Valid() && !closing && |asked| == |keys|
      requires Passing(c, desk, keys, asked, timed, since, found, OnDesk(), |line.items|, now)
      modifies `timer, `now
      ensures Valid() && Passed(c, desk, keys, asked, timed, since, found, OnDesk(), now) && line.log == old(line.log)
    {
      ghost var here, prior := OnDesk(), now;
      Arm();
      LaterBooks(here.buf, prior, now);
      assert OnDesk() == Rearmed(c, here, now);
      PassIsOver(c, desk, keys, asked, timed, since, found, here, |line.items|, prior, now);
    }

    /** What leaves leaves, and the alarm is set for the rest. */
    method Pass(keys: seq<string>, timed: bool, ghost desk: Desk, ghost since: Time, ghost found: nat)
        returns (ghost asked: seq<Look>)
      requires Valid() && !closing && Distinct(keys) && forall k | k in keys :: k in view
      requires desk == OnDesk() && since == now && found == |line.items|
      modifies `buckets, `held, `bytes, `view, `timer, `now,
        line`items, line`pending, line`pendingBytes, line`log
      ensures Valid() && old(line.log).Before(line.log)
      ensures Passed(c, desk, keys, asked, timed, since, found, OnDesk(), now)
    {
      asked := HandoffEach(keys, timed, desk, since, found);
      EndPass(desk, keys, asked, timed, since, found);
    }

    /** What the request filled leaves, in key order, and the alarm is set for the rest. */
    method PassTouched(touched: seq<string>, ghost before: Desk, ghost es: seq<Event>, ghost since: Time,
                       ghost at: seq<Time>, ghost found: nat) returns (ghost asked: seq<Look>)
      requires |line.items| <= found && Valid() && !closing && since > 0 && Books(before.buf, since)
      requires touched == Touched(es) && |at| == |es| && Ascend(since, at, now)
      requires OnDesk() == before.(buf := Added(before.buf, es, at))
      modifies `buckets, `held, `bytes, `view, `timer, `now,
        line`items, line`pending, line`pendingBytes, line`log
      ensures made == old(made) && Valid()
      ensures Requested(c, before, es, Reading(at, old(now), asked), since, found, OnDesk(), now)
      ensures old(line.log).Before(line.log)
    {
      RequestReady(c, before, es, since, at, now);
      ghost var mid, ready, queued := OnDesk(), now, |line.items|;
      var keys := Sort(touched);
      asked := Pass(keys, false, mid, ready, queued);
      ThatIsRequested(c, before, es, mid, keys, Reading(at, ready, asked), since, queued, found, OnDesk(), now);
    }

    /** A request under both ceilings. */
    method Admit(p: Prepared, total: int, ghost found: nat) returns (ghost read: Reading)
      requires |line.items| <= found && Valid() && !closing && p.Aligned()
      requires total == Weigh(p.Arrivals(|p.events|), Bytes)
      modifies `buckets, `held, `bytes, `gen, `view, `timer, `made, `now,
        made`batch, made`sizes, made`bytes, made`mark,
        line`items, line`pending, line`pendingBytes, line`log
      ensures Valid() && fresh(made - old(made))
      ensures Requested(c, old(OnDesk()), p.Arrivals(|p.events|), read, old(now), found, OnDesk(), now)
      ensures old(line.log).Before(line.log)
    {
      ghost var before, es, since := OnDesk(), p.Arrivals(|p.events|), now;
      var touched;
      ghost var at;
      touched, at := AddAll(p, total, before, since, es);
      ghost var ready := now;
      ghost var asked := PassTouched(touched, before, es, since, at, found);
      read := Reading(at, ready, asked);
    }

    /** `enqueue`: refused while closing or over a ceiling, and then nothing changes; otherwise the events are
        where appending them one by one puts them, less what was handed off. */
    method Enqueue(p: Prepared) returns (saturated: bool, ghost records: int, ghost size: int, ghost read: Reading)
      requires Valid() && p.Aligned()
      modifies `buckets, `held, `bytes, `gen, `view, `timer, `made, `now,
        made`batch, made`sizes, made`bytes, made`mark,
        line`items, line`pending, line`pendingBytes, line`log
      ensures Valid() && fresh(made - old(made))
      ensures old(line.log).Read(old(line.pending), old(line.pendingBytes), line.log, records, size)
      ensures saturated <==>
        || closing || old(held) + records + |p.events| > c.maxRecords
        || old(bytes) + size + Weigh(p.Arrivals(|p.events|), Bytes) > c.maxBytes
      ensures saturated ==> OnDesk() == old(OnDesk())
      ensures !saturated ==>
        Requested(c, old(OnDesk()), p.Arrivals(|p.events|), read, old(now), |old(line.items)|, OnDesk(), now)
    {
      ghost var found := |line.items|;
      read, records, size := Reading([], now, []), line.pending, line.pendingBytes;
      var total := TotalOf(p);
      if closing { return true, records, size, read; }
      saturated, records, size := Saturated(p, total);
      if !saturated { read := Admit(p, total, found); }
    }

    /** Where this pipe's claims are made, of the window that `t` is in. */
    ghost function Here(t: Time): Place
      requires c.every > 0 && (c.claim ==> Printable(t, c.every))
    {
      Place(gateway, stream, if c.claim then Window(t, c.every) else "")
    }

    method DueOne(k: string, due: seq<string>, ghost seen: map<string, Time>, ghost left: set<string>,
                  ghost since: Time) returns (due': seq<string>)
      requires Sound() && Walked(c, view, due, seen, left, since, now) && k in left && Legible(since)
      modifies `now
      ensures Sound() && Walked(c, view, due', seen[k := now], left - {k}, since, now) && Legible(since)
    {
      ghost var prior := now;
      due' := due;
      Clock();
      if Due(c, Some(buckets[k].At(k)), now) { due' := due + [k]; }
      WalkOn(c, view, due, seen, left, since, prior, now, k, due');
    }

    /** The due buckets, by a walk in whatever order. */
    method DueNow() returns (due: seq<string>, ghost seen: map<string, Time>)
      requires Sound()
      modifies `now
      ensures Sound() && Legible(old(now)) && Walked(c, view, due, seen, {}, old(now), now)
    {
      ghost var since := now;
      due, seen := [], map[];
      var left := buckets.Keys;
      while left != {}
        invariant Sound() && Walked(c, view, due, seen, left, since, now) && Legible(since)
        decreases |left|
      {
        var k :| k in left;
        due := DueOne(k, due, seen, left, since);
        seen := seen[k := now];
        left := left - {k};
      }
    }

    /** The first keys told apart by their deadlines, each as the clock was read for it. */
    ghost predicate Sifted(due: seq<string>, at: seq<Time>, won: seq<string>, ask: seq<string>, names: seq<string>,
                           place: Place, since: Time)
      reads `view, `now
    {
      && |at| <= |due| && since <= now && (forall j | 0 <= j < |at| :: since <= at[j] <= now)
      && won == Closed(c, view, due[..|at|], at) && ask == Open(c, view, due[..|at|], at)
      && names == Names(place, ask)
    }

    /** One key more, as its deadline says. */
    method SiftOne(due: seq<string>, window: string, won: seq<string>, ask: seq<string>, names: seq<string>,
                   i: nat, ghost at: seq<Time>, ghost place: Place, ghost since: Time)
        returns (won': seq<string>, ask': seq<string>, names': seq<string>)
      requires Sound() && i == |at| < |due| && due[i] in view && place == Place(gateway, stream, window)
      requires Sifted(due, at, won, ask, names, place, since)
      modifies `now
      ensures Sound() && now >= old(now) && Sifted(due, at + [now], won', ask', names', place, since)
    {
      Clock();
      assert due[..i + 1][..i] == due[..i] && (at + [now])[..i] == at;
      won', ask', names' := won, ask, names;
      var d := DeadlineOf(due[i]);
      if d <= 0 {
        won' := won + [due[i]];
      } else {
        NamesGrow(place, ask, due[i]);
        ask', names' := ask + [due[i]], names + [ClaimKey(gateway, stream, due[i], window)];
      }
    }

    method SiftEach(due: seq<string>, window: string, ghost since: Time, ghost place: Place)
        returns (won: seq<string>, ask: seq<string>, names: seq<string>, ghost at: seq<Time>)
      requires Sound() && since <= now && place == Place(gateway, stream, window) && forall k | k in due :: k in view
      modifies `now
      ensures Sound() && old(now) <= now && |at| == |due| && Sifted(due, at, won, ask, names, place, since)
    {
      ghost var prior := now;
      won, ask, names, at := [], [], [], [];
      var i := 0;
      while i < |due|
        invariant 0 <= i == |at| <= |due| && Sound() && prior <= now
        invariant Sifted(due, at, won, ask, names, place, since)
      {
        won, ask, names := SiftOne(due, window, won, ask, names, i, at, place, since);
        at := at + [now];
        i := i + 1;
      }
    }

    /** The keys past their ceiling, and those to ask about with the names to ask by. */
    method Sift(due: seq<string>)
        returns (won: seq<string>, ask: seq<string>, names: seq<string>, ghost at: seq<Time>, ghost named: Time)
      requires Sound() && c.claim && Printable(now, c.every) && forall k | k in due :: k in view
      modifies `now
      ensures Sound() && old(now) <= named <= now && Printable(named, c.every) && |at| == |due|
      ensures Sifted(due, at, won, ask, names, Here(named), old(now))
    {
      ghost var since := now;
      Clock();
      named := now;
      won, ask, names, at := SiftEach(due, Window(now, c.every), since, Here(now));
    }

    method Claimed(ask: seq<string>, bits: seq<bool>) returns (granted: seq<string>)
      requires |ask| == |bits|
      ensures granted == Granted(ask, bits)
    {
      granted := [];
      var i := 0;
      while i < |ask|
        invariant 0 <= i <= |ask| && granted == Granted(ask[..i], bits[..i])
      {
        assert ask[..i + 1][..i] == ask[..i] && bits[..i + 1][..i] == bits[..i];
        if bits[i] { granted := granted + [ask[i]]; }
        i := i + 1;
      }
      assert ask[..|ask|] == ask && bits[..|bits|] == bits;
    }

    /** The keys won without asking, and those the metastore grants. */
    method AskFor(closed: seq<string>, ask: seq<string>, names: seq<string>, store: Store) returns (won: seq<string>)
      requires |names| == |ask|
      ensures won == if ask == [] then closed else Granting(closed, ask, Asked(store, names))
    {
      won := closed;
      if ask == [] { return; }
      match Asked(store, names)
      case Err(_) => won := won + ask;
      case Ok(bits) =>
        var granted := Claimed(ask, bits);
        won := won + granted;
    }

    /** `winners`: with no claim, or nobody to ask, all of them; past the ceiling without asking; the rest by the
        metastore's answer, and all of them when it has none. */
    method WinnersOf(due: seq<string>, store: Store)
        returns (won: seq<string>, ghost at: seq<Time>, ghost named: Time)
      requires Sound() && (c.claim ==> Printable(now, c.every)) && forall k | k in due :: k in view
      modifies `now
      ensures Sound() && old(now) <= named <= now && (c.claim ==> Printable(named, c.every)) && |at| == |due|
      ensures forall i | 0 <= i < |at| :: old(now) <= at[i] <= now
      ensures won == Winners(c, coordinated, view, due, at, store,
                             Place(gateway, stream, if c.claim then Window(named, c.every) else ""))
    {
      ghost var since := now;
      at, named := seq(|due|, _ => since), now;
      if !c.claim || !coordinated || due == [] { return due, at, named; }
      var ask, names;
      won, ask, names, at, named := Sift(due);
      assert due[..|due|] == due;
      won := AskFor(won, ask, names, store);
    }

    /** The keys a flush chose by now: the winners among those due, in their order. */
    ghost predicate Chose(bs: Shares, keys: seq<string>, store: Store, q: Survey, since: Time, ready: Time) {
      var due := SortedKeys(DueKeys(c, bs, q.seen));
      && Surveyed(c, bs, due, q, since, ready) && c.every > 0 && (c.claim ==> Printable(q.named, c.every))
      && keys == Winners(c, coordinated, bs, due, q.at, store, Here(q.named))
    }

    /** Which keys a flush hands off, in which order. */
    method Choose(store: Store, ghost since: Time) returns (keys: seq<string>, ghost q: Survey)
      requires Sound() && (c.claim ==> Printable(now, c.every)) && since == now
      modifies `now
      ensures Sound() && now >= since && Chose(view, keys, store, q, since, now) && OnDesk() == old(OnDesk())
    {
      var due;
      ghost var seen, at, named;
      due, seen := DueNow();
      ghost var walked := now;
      WalkIsOver(c, view, due, seen, since, now);
      keys, at, named := WinnersOf(Sort(due), store);
      q := Survey(seen, at, named);
      ThatIsSurveyed(c, view, Sort(due), q, since, walked, now);
    }

    /** The alarm is spent. */
    method Ring()
      requires Valid()
      modifies `timer
      ensures Valid() && OnDesk() == old(OnDesk()).(timer := Off)
    {
      timer := Off;
    }

    method ChooseHeld(store: Store, ghost since: Time) returns (keys: seq<string>, ghost q: Survey)
      requires Valid() && (c.claim ==> Printable(now, c.every)) && since == now
      modifies `now
      ensures Valid() && now >= since && Chose(view, keys, store, q, since, now) && OnDesk() == old(OnDesk())
      ensures Distinct(keys) && (forall k | k in keys :: k in view) && MayHandOff(c, view, since, now, keys)
    {
      ghost var buf := Held();
      keys, q := Choose(store, since);
      ChoiceMay(c, coordinated, buf, q, since, now, store, Here(q.named));
    }

    method FlushHeld(store: Store, ghost before: Desk, ghost since: Time, ghost found: nat)
        returns (ghost keys: seq<string>, ghost q: Survey, ghost read: Reading)
      requires Valid() && !closing && timer == Off && (c.claim ==> Printable(now, c.every))
      requires before == OnDesk() && since == now && found == |line.items|
      modifies `buckets, `held, `bytes, `view, `timer, `now,
        line`items, line`pending, line`pendingBytes, line`log
      ensures Valid() && Chose(before.buf.shares, keys, store, q, since, read.ready)
      ensures Flushed(c, before, keys, read, since, found, OnDesk(), now)
    {
      var won;
      won, q := ChooseHeld(store, since);
      keys := won;
      ghost var ready := now;
      ghost var asked := Pass(won, true, before, ready, found);
      read := Reading([], ready, asked);
      ThatIsFlushed(c, before, keys, read, since, found, OnDesk(), now);
    }

    /** `flush`: the alarm is spent; what is due and won is handed off, and the alarm set for the rest. */
    method Flush(store: Store) returns (ghost keys: seq<string>, ghost q: Survey, ghost read: Reading)
      requires Valid() && (c.claim ==> Printable(now, c.every))
      modifies `buckets, `held, `bytes, `view, `timer, `now,
        line`items, line`pending, line`pendingBytes, line`log
      ensures Valid()
      ensures old(view) != map[] ==> Chose(old(view), keys, store, q, old(now), read.ready)
      ensures Flushed(c, old(OnDesk()), keys, read, old(now), |old(line.items)|, OnDesk(), now)
    {
      keys, q, read := [], Survey(map[], [], now), Reading([], now, []);
      Ring();
      EmptyFlush(c, OnDesk(), now);
      SameEmptiness(buckets, view);
      if buckets != map[] { keys, q, read := FlushHeld(store, OnDesk(), now, |line.items|); }
    }

    /** One bucket more of the last batch. */
    method TakeOne(key: string, ready: Item) returns (more: Item)
      requires Sound() && key in view
      modifies `buckets, `held, `bytes, `view
      ensures Sound() && Held() == PipeProtocol.Take(old(Held()), key)
      ensures more == Item(ready.events + old(view)[key].batch, ready.bytes + old(view)[key].bytes)
    {
      var b := Take(key);
      more := Item(ready.events + Zip(key, b.batch, b.sizes), ready.bytes + b.bytes);
    }

    method TakeAt(ghost before: Buffer, keys: seq<string>, i: nat, ready: Item) returns (more: Item)
      requires Sound() && keys == SortedKeys(before.shares.Keys) && i < |keys|
      requires Gathering(before, keys, i, ready, Held())
      modifies `buckets, `held, `bytes, `view
      ensures Sound() && Gathering(before, keys, i + 1, more, Held())
    {
      StillHeld(before, keys, i);
      more := TakeOne(keys[i], ready);
    }

    method TakeEach(keys: seq<string>, ghost before: Buffer) returns (ready: Item)
      requires Sound() && keys == SortedKeys(before.shares.Keys) && Gathering(before, keys, 0, Item([], 0), Held())
      modifies `buckets, `held, `bytes, `view
      ensures Sound() && Gathering(before, keys, |keys|, ready, Held())
    {
      ready := Item([], 0);
      var i := 0;
      while i < |keys|
        invariant 0 <= i <= |keys| && Sound() && Gathering(before, keys, i, ready, Held())
      {
        ready := TakeAt(before, keys, i, ready);
        i := i + 1;
      }
    }

    /** With every key gathered nothing is held. */
    method GatherAll(keys: seq<string>, ghost before: Buffer) returns (ready: Item)
      requires Sound() && before == Held() && Books(before, now) && keys == SortedKeys(before.shares.Keys)
      modifies `buckets, `held, `bytes, `view
      ensures Sound() && Held() == Buffer(map[], 0, 0) && closing == old(closing)
      ensures ready == Gathered(before.shares, keys)
    {
      ready := TakeEach(keys, before);
      NothingHeld(before, keys, now, ready, Held());
    }

    /** Every bucket in key order, as one batch. */
    method TakeAll() returns (ready: Item)
      requires Sound() && Books(Held(), now)
      modifies `buckets, `held, `bytes, `view
      ensures Sound() && Held() == Buffer(map[], 0, 0) && closing == old(closing)
      ensures ready == Gathered(old(view), SortedKeys(old(view).Keys))
    {
      ghost var before := Held();
      var keys := KeysInOrder(buckets);
      ready := GatherAll(keys, before);
    }

    /** From here on nothing is accepted and nothing is handed off. */
    method StartClosing()
      requires Valid()
      modifies `closing
      ensures Sound() && Books(Held(), now) && closing && view == old(view)
    {
      closing := true;
    }

    /** Closing, and nothing held. */
    ghost predicate Emptied()
      reads `buckets, `view, `held, `bytes, `gen, `closing, `now, `made, made, line
    {
      Sound() && now > 0 && closing && Held() == Buffer(map[], 0, 0)
    }

    method StopTimer()
      requires Emptied()
      modifies `timer
      ensures Valid() && Emptied() && timer == Off
    {
      NoBooks(now);
      timer := Off;
    }

    method TakeOver() returns (ready: Item)
      requires Valid() && !closing
      modifies `buckets, `held, `bytes, `view, `closing
      ensures Emptied() && ready == Gathered(old(view), SortedKeys(old(view).Keys))
    {
      StartClosing();
      ready := TakeAll();
    }

    /** The locked part of `close`: nothing is left to flush. */
    method Shut() returns (ready: Item)
      requires Valid() && !closing
      modifies `buckets, `held, `bytes, `view, `timer, `closing
      ensures Valid() && closing && Held() == Buffer(map[], 0, 0) && timer == Off
      ensures ready == Gathered(old(view), SortedKeys(old(view).Keys))
    {
      ready := TakeOver();
      StopTimer();
    }

    /** The last batch goes on the queue if there is room in time. */
    method SendLast(ready: Item, inTime: bool) returns (ok: bool, ghost queued: nat)
      requires Sound() && !line.closed
      modifies line`items, line`pending, line`pendingBytes, line`log
      ensures Sound() && Held() == old(Held()) && closing == old(closing)
      ensures (ok <==> inTime && queued < line.capacity) && queued <= |old(line.items)|
      ensures line.log.sent == if ok then old(line.log.sent) + [ready] else old(line.log.sent)
    {
      ok, queued := line.SendBefore(ready, inTime);
    }

    method Deliver(ready: Item, inTime: bool) returns (ok: bool, ghost queued: nat)
      requires Valid() && !line.closed
      modifies line`items, line`pending, line`pendingBytes, line`log
      ensures Valid() && (ok <==> inTime && queued < line.capacity) && queued <= |old(line.items)|
      ensures line.log.sent == if ok then old(line.log.sent) + [ready] else old(line.log.sent)
    {
      ok, queued := SendLast(ready, inTime);
    }

    method CloseQueue()
      requires Valid() && closing && !line.closed
      modifies line`closed
      ensures Valid() && line.closed
    {
      line.Close();
    }

    /** What is left once the lock is let go. */
    method Finish(ready: Item, inTime: bool) returns (inline: Item)
      requires Valid() && closing && !line.closed
      modifies line`items, line`pending, line`pendingBytes, line`log, line`closed
      ensures Valid() && closing && line.closed && Held() == old(Held()) && timer == old(timer)
      ensures Left(old(line.log.sent), ready, inTime, |old(line.items)| < line.capacity, line.log.sent, inline)
    {
      inline := ready;
      if ready.events != [] {
        var ok;
        ghost var queued;
        ok, queued := Deliver(ready, inTime);
        if ok { inline := Item([], 0); }
      }
      CloseQueue();
    }

    /** `close` up to where it waits for the workers: the last batch is on the queue, or it is `close`'s own to
        deliver; then the queue is closed, with nothing left that could send on it. */
    method Close(inTime: bool) returns (inline: Item)
      requires Valid() && !closing && !line.closed
      modifies `buckets, `held, `bytes, `view, `timer, `closing,
        line`items, line`pending, line`pendingBytes, line`log, line`closed
      ensures Valid() && closing && line.closed && Held() == Buffer(map[], 0, 0) && timer == Off
      ensures var ready, sent := Gathered(old(view), SortedKeys(old(view).Keys)), line.log.sent;
        if !inTime || ready.events == [] then inline == ready && sent == old(line.log.sent)
        else
          || (inline == Item([], 0) && sent == old(line.log.sent) + [ready])
          || (inline == ready && sent == old(line.log.sent) && |old(line.items)| >= c.queue)
    {
      inline := Shut();
      inline := Finish(inline, inTime);
    }
  }
}
