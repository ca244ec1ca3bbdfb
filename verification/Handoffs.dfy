/** What a run of handoffs does, as a function of what the queue answered: the specification of the loops of
    `enqueue` and `flush` over their keys, and what it keeps. */
module Handoffs {
  import opened Ordering
  import opened Outcomes
  import opened Tally
  import opened Buffering
  import opened PipeProtocol
  import opened PipeSafety

  /** What a handoff changes: the buffer, the timer, and what went on the queue. */
  datatype Desk = Desk(buf: Buffer, timer: Timer, went: seq<Item>)

  /** `enqueue` asks of a key it touched whether a trigger was crossed; a flush takes the bucket as it is. */
  predicate Leaves(c: Settings, bs: Shares, key: string, timed: bool) {
    key in bs && (timed || Crossed(c, bs[key]))
  }

  /** One handoff, when the send finds `queued` batches on the queue: the bucket leaves, or is as it was with the
      timer armed. */
  ghost function HandOne(c: Settings, d: Desk, key: string, queued: nat, timed: bool, now: Time): Desk {
    if !Leaves(c, d.buf.shares, key, timed) then d
    else if queued < c.queue
    then Desk(PipeProtocol.Take(d.buf, key), d.timer, d.went + [ItemOf(d.buf.shares[key])])
    else d.(timer := Armed(c, d.timer, NotStarted, d.buf.shares, now))
  }

  /** What a handoff found: how many batches were on the queue, and what the clock said. */
  datatype Look = Look(queued: nat, at: Time)

  /** A pass over `keys`, with what each found. */
  ghost function HandAll(c: Settings, d: Desk, keys: seq<string>, asked: seq<Look>, timed: bool): Desk
    requires |asked| == |keys|
  {
    if keys == [] then d else
    var n := |keys| - 1;
    HandOne(c, HandAll(c, d, keys[..n], asked[..n], timed), keys[n], asked[n].queued, timed, asked[n].at)
  }

  /** How many batches are on the queue once a key was tried with `queued` of them there. */
  function After(c: Settings, d: Desk, key: string, queued: nat, timed: bool): nat {
    if Leaves(c, d.buf.shares, key, timed) && queued < c.queue then queued + 1 else queued
  }

  /** The same after a pass that found `found` of them there. */
  ghost function AfterAll(c: Settings, d: Desk, keys: seq<string>, asked: seq<Look>, timed: bool, found: nat): nat
    requires |asked| == |keys|
  {
    if keys == [] then found else
    var n := |keys| - 1;
    After(c, HandAll(c, d, keys[..n], asked[..n], timed), keys[n], asked[n].queued, timed)
  }

  /** When the last of them looked, or when the pass began. */
  function LastLook(since: Time, asked: seq<Look>): Time {
    if asked == [] then since else asked[|asked| - 1].at
  }

  /** What a pass that began at `since` can find: from one key to the next the workers only take from the queue, and
      the clock does not go back. */
  ghost predicate Answers(c: Settings, d: Desk, keys: seq<string>, asked: seq<Look>, timed: bool, since: Time,
                          found: nat)
  {
    |asked| == |keys| &&
    (keys == [] ||
     var n := |keys| - 1;
     && Answers(c, d, keys[..n], asked[..n], timed, since, found)
     && asked[n].queued <= AfterAll(c, d, keys[..n], asked[..n], timed, found)
     && LastLook(since, asked[..n]) <= asked[n].at)
  }

  /** A queue that may have held more, sooner, may have answered the same. */
  lemma {:induction false} AnswersMore(c: Settings, d: Desk, keys: seq<string>, asked: seq<Look>, timed: bool,
                                       since: Time, found: nat, sooner: Time, more: nat)
    requires Answers(c, d, keys, asked, timed, since, found) && found <= more && sooner <= since
    ensures Answers(c, d, keys, asked, timed, sooner, more) && LastLook(sooner, asked) <= LastLook(since, asked)
    ensures AfterAll(c, d, keys, asked, timed, found) <= AfterAll(c, d, keys, asked, timed, more)
  {
    if keys != [] { AnswersMore(c, d, keys[..|keys| - 1], asked[..|keys| - 1], timed, since, found, sooner, more); }
  }

  /** A bucket taken from the desk and offered to the queue: gone, or put back with the timer armed. */
  ghost function Offered(c: Settings, d: Desk, key: string, b: Share, queued: nat, now: Time): Desk {
    if queued < c.queue then d.(went := d.went + [ItemOf(b)]) else
    var buf := Return(d.buf, key, b);
    Desk(buf, Armed(c, d.timer, NotStarted, buf.shares, now), d.went)
  }

  /** A refused handoff leaves the buffer as it found it. */
  lemma RefusedIsKept(c: Settings, d: Desk, key: string, queued: nat, timed: bool, now: Time)
    requires Leaves(c, d.buf.shares, key, timed)
    ensures Offered(c, d.(buf := PipeProtocol.Take(d.buf, key)), key, d.buf.shares[key], queued, now) ==
            HandOne(c, d, key, queued, timed, now)
  {
    assert (d.buf.shares - {key})[key := d.buf.shares[key]] == d.buf.shares;
  }

  function EventsOf(items: seq<Item>): seq<Event> {
    if items == [] then [] else EventsOf(items[..|items| - 1]) + items[|items| - 1].events
  }

  lemma {:induction false} OnlyShrinks(c: Settings, d: Desk, keys: seq<string>, asked: seq<Look>, timed: bool)
    requires |asked| == |keys|
    ensures var bs := HandAll(c, d, keys, asked, timed).buf.shares;
      && bs.Keys <= d.buf.shares.Keys
      && (forall k | k in bs :: bs[k] == d.buf.shares[k])
      && (forall k | k in d.buf.shares && k !in keys :: k in bs)
  {
    if keys != [] { OnlyShrinks(c, d, keys[..|keys| - 1], asked[..|keys| - 1], timed); }
  }

  /** A bucket is gone exactly when it was to leave and its own send found room; otherwise it is as it was. */
  lemma {:induction false} GoneIfSent(c: Settings, d: Desk, keys: seq<string>, asked: seq<Look>, timed: bool, i: nat)
    requires |asked| == |keys| && Distinct(keys) && i < |keys| && keys[i] in d.buf.shares
    ensures keys[i] !in HandAll(c, d, keys, asked, timed).buf.shares <==>
            Leaves(c, d.buf.shares, keys[i], timed) && asked[i].queued < c.queue
  {
    var n := |keys| - 1;
    OnlyShrinks(c, d, keys[..n], asked[..n], timed);
    assert keys[n] !in keys[..n];
    if i < n { GoneIfSent(c, d, keys[..n], asked[..n], timed, i); }
  }

  /** The totals are the sums of the buckets, and every bucket is in order. */
  ghost predicate Books(buf: Buffer, now: Time) {
    BucketShape(buf.shares, now) && buf.held == InBuckets(buf.shares, One) && buf.bytes == InBuckets(buf.shares, Bytes)
  }

  lemma LaterBooks(buf: Buffer, now: Time, later: Time)
    requires Books(buf, now) && now <= later
    ensures Books(buf, later)
  {
  }

  lemma TakeBooks(buf: Buffer, key: string, now: Time)
    requires Books(buf, now) && key in buf.shares
    ensures Books(PipeProtocol.Take(buf, key), now)
  {
    TakeWeight(buf.shares, key, One);
    TakeWeight(buf.shares, key, Bytes);
    WeighOnes(buf.shares[key].batch, One);
  }

  lemma HandOneKeepsBooks(c: Settings, d: Desk, key: string, queued: nat, timed: bool, at: Time, now: Time)
    requires Books(d.buf, now)
    ensures Books(HandOne(c, d, key, queued, timed, at).buf, now)
  {
    if key in d.buf.shares { TakeBooks(d.buf, key, now); }
  }

  lemma {:induction false} HandoffsKeepBooks(c: Settings, d: Desk, keys: seq<string>, asked: seq<Look>, timed: bool,
                                             now: Time)
    requires |asked| == |keys| && Books(d.buf, now)
    ensures Books(HandAll(c, d, keys, asked, timed).buf, now)
  {
    if keys != [] {
      var n := |keys| - 1;
      var before := HandAll(c, d, keys[..n], asked[..n], timed);
      HandoffsKeepBooks(c, d, keys[..n], asked[..n], timed, now);
      HandOneKeepsBooks(c, before, keys[n], asked[n].queued, timed, asked[n].at, now);
    }
  }

  lemma LastItem(went: seq<Item>, item: Item, key: string)
    ensures Only(EventsOf(went + [item]), key) == Only(EventsOf(went), key) + Only(item.events, key)
  {
    assert (went + [item])[..|went|] == went;
    OnlyConcat(EventsOf(went), item.events, key);
  }

  /** What one key's events amount to: those gone, then those held. */
  ghost function History(d: Desk, key: string): seq<Event> { Only(EventsOf(d.went), key) + BatchOf(d.buf.shares, key) }

  lemma SendKeepsOrder(d: Desk, sent: string, key: string)
    requires sent in d.buf.shares && forall e | e in d.buf.shares[sent].batch :: e.key == sent
    ensures var b := d.buf.shares[sent];
      History(Desk(PipeProtocol.Take(d.buf, sent), d.timer, d.went + [ItemOf(b)]), key) == History(d, key)
  {
    var b := d.buf.shares[sent];
    OnlyOwn(b.batch, sent, key);
    LastItem(d.went, ItemOf(b), key);
  }

  /** Per key, what went on the queue and what stays are one sequence, whatever the queue answered. */
  lemma {:induction false} HandoffsKeepOrder(c: Settings, d: Desk, keys: seq<string>, asked: seq<Look>, timed: bool,
                                             now: Time, key: string)
    requires |asked| == |keys| && BucketShape(d.buf.shares, now)
    ensures History(HandAll(c, d, keys, asked, timed), key) == History(d, key)
  {
    if keys != [] {
      var n := |keys| - 1;
      var before := HandAll(c, d, keys[..n], asked[..n], timed);
      HandoffsKeepOrder(c, d, keys[..n], asked[..n], timed, now, key);
      OnlyShrinks(c, d, keys[..n], asked[..n], timed);
      if keys[n] in before.buf.shares && asked[n].queued < c.queue {
        assert WellKept(keys[n], before.buf.shares[keys[n]], now);
        SendKeepsOrder(before, keys[n], key);
      }
    }
  }

  /** Instants that do not go back, from `since` to `now`. */
  predicate Ascend(since: Time, at: seq<Time>, now: Time) {
    since <= now &&
    (at == [] || (at[|at| - 1] <= now && Ascend(since, at[..|at| - 1], at[|at| - 1])))
  }

  lemma {:induction false} AscendFrom(since: Time, at: seq<Time>, now: Time)
    requires Ascend(since, at, now)
    ensures since <= now && forall i | 0 <= i < |at| :: since <= at[i] <= now
    decreases |at|
  {
    if at != [] { AscendFrom(since, at[..|at| - 1], at[|at| - 1]); }
  }

  lemma {:induction false} AppendAllKept(bs: Shares, es: seq<Event>, since: Time, at: seq<Time>, now: Time)
    requires |at| == |es| && since > 0 && BucketShape(bs, since) && Ascend(since, at, now)
    ensures BucketShape(AppendAll(bs, es, at), now)
    decreases |es|
  {
    if es != [] {
      var n := |es| - 1;
      AppendAllKept(bs, es[..n], since, at[..n], at[n]);
      AscendFrom(since, at[..n], at[n]);
      AppendKept(AppendAll(bs, es[..n], at[..n]), es[n], at[n]);
    }
  }

  lemma {:induction false} AppendAllWeight(bs: Shares, es: seq<Event>, at: seq<Time>, w: Event -> int)
    requires |at| == |es|
    ensures InBuckets(AppendAll(bs, es, at), w) == InBuckets(bs, w) + Weigh(es, w)
  {
    if es != [] {
      var n := |es| - 1;
      AppendAllWeight(bs, es[..n], at[..n], w);
      AppendWeight(AppendAll(bs, es[..n], at[..n]), es[n], at[n], w);
      assert es == es[..n] + [es[n]];
      WeighLast(es[..n], es[n], w);
    }
  }

  /** A whole request on the buffer: the events, then the totals. */
  ghost function Added(buf: Buffer, es: seq<Event>, at: seq<Time>): Buffer
    requires |at| == |es|
  {
    Buffer(AppendAll(buf.shares, es, at), buf.held + |es|, buf.bytes + Weigh(es, Bytes))
  }

  lemma AddedBooks(buf: Buffer, es: seq<Event>, since: Time, at: seq<Time>, now: Time)
    requires |at| == |es| && since > 0 && Books(buf, since) && Ascend(since, at, now)
    ensures since <= now && Books(Added(buf, es, at), now)
  {
    AppendAllKept(buf.shares, es, since, at, now);
    AppendAllWeight(buf.shares, es, at, One);
    AppendAllWeight(buf.shares, es, at, Bytes);
    WeighOnes(es, One);
  }

  /** A running alarm covers the buckets there are. */
  ghost predicate CoversAll(c: Settings, timer: Timer, bs: Shares, now: Time) {
    timer.Ringing? ==>
      && timer.armed <= now && timer.at <= timer.armed + Later(MILLISECOND, c.every)
      && forall k | k in bs :: Covers(c, timer.at, timer.armed, bs[k])
  }

  lemma ArmCoversAll(c: Settings, timer: Timer, bs: Shares, now: Time)
    requires Checked(c) && BucketShape(bs, now) && CoversAll(c, timer, bs, now)
    ensures CoversAll(c, Armed(c, timer, NotStarted, bs, now), bs, now)
    ensures bs != map[] ==> Armed(c, timer, NotStarted, bs, now).Ringing?
  {
    if !timer.Ringing? && bs != map[] { AlarmCovers(c, bs, now); }
  }

  /** Whatever a pass finds, the timer after it covers every bucket that is left. */
  lemma {:induction false} HandoffsCovered(c: Settings, d: Desk, keys: seq<string>, asked: seq<Look>, timed: bool,
                                           since: Time, found: nat)
    requires Checked(c) && Answers(c, d, keys, asked, timed, since, found)
    requires BucketShape(d.buf.shares, since) && CoversAll(c, d.timer, d.buf.shares, since)
    ensures since <= LastLook(since, asked)
    ensures var e := HandAll(c, d, keys, asked, timed); CoversAll(c, e.timer, e.buf.shares, LastLook(since, asked))
  {
    if keys != [] {
      var n := |keys| - 1;
      var before := HandAll(c, d, keys[..n], asked[..n], timed);
      HandoffsCovered(c, d, keys[..n], asked[..n], timed, since, found);
      OnlyShrinks(c, d, keys[..n], asked[..n], timed);
      ArmCoversAll(c, before.timer, before.buf.shares, asked[n].at);
    }
  }

  lemma AppendCovered(c: Settings, timer: Timer, bs: Shares, e: Event, at: Time)
    requires Checked(c) && CoversAll(c, timer, bs, at)
    ensures CoversAll(c, timer, Append(bs, e, at), at)
  {
    if timer.Ringing? && e.key !in bs { LateBucketCovered(c, timer.at, timer.armed, Share([e], e.size, at)); }
  }

  /** A running alarm covers what a request adds, because it was set before. */
  lemma {:induction false} AppendAllCovered(c: Settings, timer: Timer, bs: Shares, es: seq<Event>, since: Time,
                                            at: seq<Time>, now: Time)
    requires |at| == |es| && Checked(c) && CoversAll(c, timer, bs, since) && Ascend(since, at, now)
    ensures CoversAll(c, timer, AppendAll(bs, es, at), now)
    decreases |es|
  {
    if es != [] {
      var n := |es| - 1;
      AppendAllCovered(c, timer, bs, es[..n], since, at[..n], at[n]);
      AppendCovered(c, timer, AppendAll(bs, es[..n], at[..n]), es[n], at[n]);
    }
  }

  /** The next key has not been tried, so its bucket is as the pass found it. */
  lemma NextIsThere(c: Settings, d: Desk, keys: seq<string>, i: nat, asked: seq<Look>, timed: bool)
    requires i < |keys| && Distinct(keys) && keys[i] in d.buf.shares && |asked| == i
    ensures keys[i] in HandAll(c, d, keys[..i], asked, timed).buf.shares
  {
    OnlyShrinks(c, d, keys[..i], asked, timed);
    assert keys[i] !in keys[..i];
  }

  lemma NextIsDone(c: Settings, d: Desk, keys: seq<string>, asked: seq<Look>, look: Look, timed: bool)
    requires |asked| < |keys|
    ensures HandAll(c, d, keys[..|asked + [look]|], asked + [look], timed) ==
      HandOne(c, HandAll(c, d, keys[..|asked|], asked, timed), keys[|asked|], look.queued, timed, look.at)
  {
    assert keys[..|asked| + 1][..|asked|] == keys[..|asked|] && (asked + [look])[..|asked|] == asked;
  }

  /** After the first keys, what the queue may hold and the clock say. */
  ghost predicate Answering(c: Settings, d: Desk, keys: seq<string>, asked: seq<Look>, timed: bool, since: Time,
                            found: nat, queued: nat, now: Time)
  {
    && |asked| <= |keys|
    && Answers(c, d, keys[..|asked|], asked, timed, since, found)
    && queued <= AfterAll(c, d, keys[..|asked|], asked, timed, found)
    && LastLook(since, asked) <= now
  }

  lemma NextAnswers(c: Settings, d: Desk, keys: seq<string>, asked: seq<Look>, look: Look, timed: bool, since: Time,
                    found: nat)
    requires |asked| < |keys| && Answering(c, d, keys, asked, timed, since, found, look.queued, look.at)
    ensures var here := HandAll(c, d, keys[..|asked|], asked, timed);
      Answering(c, d, keys, asked + [look], timed, since, found,
                After(c, here, keys[|asked|], look.queued, timed), look.at)
  {
    assert keys[..|asked| + 1][..|asked|] == keys[..|asked|] && (asked + [look])[..|asked|] == asked;
  }

  /** A pass under way: what it did so far, and the `queued` batches there now. */
  ghost predicate Passing(c: Settings, d: Desk, keys: seq<string>, asked: seq<Look>, timed: bool, since: Time,
                          found: nat, here: Desk, queued: nat, now: Time)
  {
    && Answering(c, d, keys, asked, timed, since, found, queued, now)
    && here == HandAll(c, d, keys[..|asked|], asked, timed)
  }

  lemma PassIsOn(c: Settings, d: Desk, keys: seq<string>, asked: seq<Look>, timed: bool, since: Time, found: nat,
                 here: Desk, look: Look, next: Desk, left: nat)
    requires Passing(c, d, keys, asked, timed, since, found, here, look.queued, look.at) && |asked| < |keys|
    requires next == HandOne(c, here, keys[|asked|], look.queued, timed, look.at)
    requires left <= After(c, here, keys[|asked|], look.queued, timed)
    ensures Passing(c, d, keys, asked + [look], timed, since, found, next, left, look.at)
  {
    NextIsDone(c, d, keys, asked, look, timed);
    NextAnswers(c, d, keys, asked, look, timed, since, found);
  }

  lemma PassBegins(c: Settings, d: Desk, keys: seq<string>, timed: bool, since: Time, found: nat)
    ensures Passing(c, d, keys, [], timed, since, found, d, found, since)
  {
  }

  /** A pass of handoffs ends with the alarm. */
  ghost function Rearmed(c: Settings, d: Desk, now: Time): Desk {
    d.(timer := Armed(c, d.timer, NotStarted, d.buf.shares, now))
  }

  /** A pass over `keys` that began at `since` and found `found` batches on the queue, and the alarm at its end. */
  ghost predicate Passed(c: Settings, d: Desk, keys: seq<string>, asked: seq<Look>, timed: bool, since: Time,
                         found: nat, e: Desk, now: Time)
  {
    && Answers(c, d, keys, asked, timed, since, found) && LastLook(since, asked) <= now
    && e == Rearmed(c, HandAll(c, d, keys, asked, timed), now)
  }

  lemma PassIsOver(c: Settings, d: Desk, keys: seq<string>, asked: seq<Look>, timed: bool, since: Time, found: nat,
                   here: Desk, queued: nat, prior: Time, now: Time)
    requires Passing(c, d, keys, asked, timed, since, found, here, queued, prior) && |asked| == |keys| && prior <= now
    ensures Passed(c, d, keys, asked, timed, since, found, Rearmed(c, here, now), now)
  {
    assert keys[..|keys|] == keys;
  }

  /** The keys a request touched are there to be looked at. */
  lemma RequestReady(c: Settings, d: Desk, es: seq<Event>, since: Time, at: seq<Time>, now: Time)
    requires |at| == |es| && since > 0 && Books(d.buf, since) && Ascend(since, at, now)
    ensures var bs := Added(d.buf, es, at).shares;
      Distinct(Sort(Touched(es))) && forall k | k in Sort(Touched(es)) :: k in bs && bs[k].batch != []
  {
    AddedBooks(d.buf, es, since, at, now);
    AppendAllKeys(d.buf.shares, es, at);
    TouchedDistinct(es);
    SortOfDistinct(Touched(es));
  }

  /** With anything held an alarm is set, and it covers every bucket there is. */
  ghost predicate Watched(c: Settings, d: Desk, now: Time) {
    CoversAll(c, d.timer, d.buf.shares, now) && (d.buf.shares != map[] ==> d.timer.Ringing?)
  }

  lemma {:induction false} LooksFrom(c: Settings, d: Desk, keys: seq<string>, asked: seq<Look>, timed: bool,
                                     since: Time, found: nat)
    requires Answers(c, d, keys, asked, timed, since, found)
    ensures since <= LastLook(since, asked)
  {
    if keys != [] { LooksFrom(c, d, keys[..|keys| - 1], asked[..|keys| - 1], timed, since, found); }
  }

  /** A pass keeps the books, and leaves an alarm that covers every bucket there is. */
  lemma PassKept(c: Settings, d: Desk, keys: seq<string>, asked: seq<Look>, timed: bool, since: Time, found: nat,
                 e: Desk, now: Time)
    requires Checked(c) && Books(d.buf, since) && Passed(c, d, keys, asked, timed, since, found, e, now)
    ensures since <= now && Books(e.buf, now)
    ensures CoversAll(c, d.timer, d.buf.shares, since) ==> Watched(c, e, now)
  {
    HandoffsKeepBooks(c, d, keys, asked, timed, since);
    LooksFrom(c, d, keys, asked, timed, since, found);
    LaterBooks(e.buf, since, now);
    if CoversAll(c, d.timer, d.buf.shares, since) {
      HandoffsCovered(c, d, keys, asked, timed, since, found);
      var h := HandAll(c, d, keys, asked, timed);
      ArmCoversAll(c, h.timer, h.buf.shares, now);
    }
  }

  /** One of the two ceilings, against what is buffered and what was read of the two atomics. */
  ghost predicate Over(c: Settings, buf: Buffer, records: int, size: int, es: seq<Event>) {
    buf.held + records + |es| > c.maxRecords || buf.bytes + size + Weigh(es, Bytes) > c.maxBytes
  }

  /** What a section under the lock read on its way: the clock as the events were appended or the winners chosen, when
      that was done, and what each handoff found. */
  datatype Reading = Reading(at: seq<Time>, ready: Time, asked: seq<Look>)

  /** A request admitted from `since` to `now`: its events appended one by one, then a pass over the keys it touched,
      sorted. */
  ghost predicate Requested(c: Settings, d: Desk, es: seq<Event>, r: Reading, since: Time, found: nat, e: Desk,
                            now: Time)
  {
    && |r.at| == |es| && Ascend(since, r.at, r.ready)
    && Passed(c, d.(buf := Added(d.buf, es, r.at)), Sort(Touched(es)), r.asked, false, r.ready, found, e, now)
  }

  lemma ThatIsRequested(c: Settings, d: Desk, es: seq<Event>, mid: Desk, keys: seq<string>, r: Reading, since: Time,
                        found: nat, more: nat, e: Desk, now: Time)
    requires |r.at| == |es| && Ascend(since, r.at, r.ready) && mid == d.(buf := Added(d.buf, es, r.at))
    requires keys == Sort(Touched(es)) && found <= more
    requires Passed(c, mid, keys, r.asked, false, r.ready, found, e, now)
    ensures Requested(c, d, es, r, since, more, e, now)
  {
    AnswersMore(c, mid, keys, r.asked, false, r.ready, found, r.ready, more);
  }

  /** A request and its handoffs add to each key's history exactly its own events, in order. */
  lemma RequestKeepsOrder(c: Settings, d: Desk, es: seq<Event>, r: Reading, since: Time, found: nat, e: Desk, now: Time,
                          key: string)
    requires since > 0 && BucketShape(d.buf.shares, since) && Requested(c, d, es, r, since, found, e, now)
    ensures History(e, key) == History(d, key) + Only(es, key)
  {
    AppendAllKept(d.buf.shares, es, since, r.at, r.ready);
    HandoffsKeepOrder(c, d.(buf := Added(d.buf, es, r.at)), Sort(Touched(es)), r.asked, false, r.ready, key);
    AppendAllOrder(d.buf.shares, es, r.at, key);
    Associate(Only(EventsOf(d.went), key), BatchOf(d.buf.shares, key), Only(es, key));
  }

  /** Admitting a request keeps the books, adds to each key exactly its own events in order, and leaves an alarm
      that covers every bucket if there was one that did. */
  lemma RequestKept(c: Settings, d: Desk, es: seq<Event>, r: Reading, since: Time, found: nat, e: Desk, now: Time)
    requires Checked(c) && since > 0 && Books(d.buf, since) && Requested(c, d, es, r, since, found, e, now)
    ensures since <= now && Books(e.buf, now)
    ensures forall key :: History(e, key) == History(d, key) + Only(es, key)
    ensures Watched(c, d, since) ==> Watched(c, e, now)
  {
    var mid := d.(buf := Added(d.buf, es, r.at));
    AscendFrom(since, r.at, r.ready);
    AddedBooks(d.buf, es, since, r.at, r.ready);
    if CoversAll(c, d.timer, d.buf.shares, since) {
      AppendAllCovered(c, d.timer, d.buf.shares, es, since, r.at, r.ready);
    }
    PassKept(c, mid, Sort(Touched(es)), r.asked, false, r.ready, found, e, now);
    forall key ensures History(e, key) == History(d, key) + Only(es, key) {
      RequestKeepsOrder(c, d, es, r, since, found, e, now, key);
    }
  }

  /** A key among those a request touched has its place in the pass over them. */
  lemma TouchedAt(es: seq<Event>, key: string) returns (i: nat)
    requires key in Touched(es)
    ensures i < |Sort(Touched(es))| && Sort(Touched(es))[i] == key && Distinct(Sort(Touched(es)))
  {
    var keys := Sort(Touched(es));
    TouchedDistinct(es);
    SortOfDistinct(Touched(es));
    SortSorts(Touched(es));
    assert key in multiset(Touched(es));
    assert key in multiset(keys);
    i :| 0 <= i < |keys| && keys[i] == key;
  }

  /** After a request a bucket it touched has left exactly when it held `flush.records` events, or `flush.size` bytes
      where that is set, and its own send found room. Otherwise it is there with all it was given; and so is every
      bucket the request did not touch, as it was. */
  lemma LeavesExactly(c: Settings, d: Desk, es: seq<Event>, r: Reading, since: Time, found: nat, e: Desk, now: Time,
                      i: nat)
    requires since > 0 && Books(d.buf, since) && Requested(c, d, es, r, since, found, e, now)
    requires i < |r.asked|
    ensures var full, key := AppendAll(d.buf.shares, es, r.at), Sort(Touched(es))[i];
      && key in full
      && (key !in e.buf.shares <==>
            && (|full[key].batch| >= c.records || (c.size > 0 && full[key].bytes >= c.size))
            && r.asked[i].queued < c.queue)
      && (key in e.buf.shares ==> e.buf.shares[key] == full[key])
    ensures forall key | key in d.buf.shares && key !in Touched(es) ::
      key in e.buf.shares && e.buf.shares[key] == d.buf.shares[key]
  {
    var keys, mid := Sort(Touched(es)), d.(buf := Added(d.buf, es, r.at));
    RequestReady(c, d, es, since, r.at, r.ready);
    OnlyShrinks(c, mid, keys, r.asked, false);
    assert keys[i] in keys;
    GoneIfSent(c, mid, keys, r.asked, false, i);
    SortSorts(Touched(es));
    AppendAllKeys(d.buf.shares, es, r.at);
    TouchedDistinct(es);
    forall key | key in d.buf.shares && key !in Touched(es)
      ensures key in e.buf.shares && e.buf.shares[key] == d.buf.shares[key]
    {
      assert key !in multiset(keys);
      AppendAllElsewhere(d.buf.shares, es, r.at, key);
    }
  }

  /** Nothing the request left over a trigger is still there, unless its own send found the queue full. */
  lemma FullStaysOnlyIfRefused(c: Settings, d: Desk, es: seq<Event>, r: Reading, since: Time, found: nat, e: Desk,
                               now: Time, key: string)
    requires since > 0 && Books(d.buf, since) && Requested(c, d, es, r, since, found, e, now)
    requires key in Touched(es) && key in e.buf.shares
    requires |e.buf.shares[key].batch| >= c.records || (c.size > 0 && e.buf.shares[key].bytes >= c.size)
    ensures exists i | 0 <= i < |r.asked| :: Sort(Touched(es))[i] == key && r.asked[i].queued >= c.queue
  {
    var i := TouchedAt(es, key);
    LeavesExactly(c, d, es, r, since, found, e, now, i);
  }

  /** A batch is the whole bucket of one key, with its bytes. */
  predicate IsBucket(bs: Shares, item: Item) {
    && item.events != [] && item.events[0].key in bs
    && item == Item(bs[item.events[0].key].batch, bs[item.events[0].key].bytes)
  }

  /** What a pass puts on the queue are whole buckets, by increasing key. */
  lemma {:induction false} SendsInKeyOrder(c: Settings, d: Desk, keys: seq<string>, asked: seq<Look>, timed: bool,
                                           now: Time)
    requires |asked| == |keys| && StrictlySorted(keys) && BucketShape(d.buf.shares, now)
    ensures var went := HandAll(c, d, keys, asked, timed).went;
      && d.went <= went
      && (forall j | |d.went| <= j < |went| :: IsBucket(d.buf.shares, went[j]) && went[j].events[0].key in keys)
      && forall j, k | |d.went| <= j < k < |went| :: Lt(went[j].events[0].key, went[k].events[0].key)
  {
    if keys != [] {
      var n := |keys| - 1;
      var before := HandAll(c, d, keys[..n], asked[..n], timed);
      SendsInKeyOrder(c, d, keys[..n], asked[..n], timed, now);
      OnlyShrinks(c, d, keys[..n], asked[..n], timed);
      if keys[n] in before.buf.shares { assert WellKept(keys[n], before.buf.shares[keys[n]], now); }
    }
  }

  /** And so does a request. */
  lemma RequestSendsInKeyOrder(c: Settings, d: Desk, es: seq<Event>, r: Reading, since: Time, found: nat, e: Desk,
                               now: Time)
    requires since > 0 && Books(d.buf, since) && Requested(c, d, es, r, since, found, e, now)
    ensures var full := AppendAll(d.buf.shares, es, r.at);
      && d.went <= e.went
      && (forall j | |d.went| <= j < |e.went| :: IsBucket(full, e.went[j]) && e.went[j].events[0].key in Touched(es))
      && forall j, k | |d.went| <= j < k < |e.went| :: Lt(e.went[j].events[0].key, e.went[k].events[0].key)
  {
    var keys, mid := Sort(Touched(es)), d.(buf := Added(d.buf, es, r.at));
    TouchedDistinct(es);
    SortOfDistinct(Touched(es));
    SortSorts(Touched(es));
    AppendAllKept(d.buf.shares, es, since, r.at, r.ready);
    SendsInKeyOrder(c, mid, keys, r.asked, false, r.ready);
    forall k | k in keys ensures k in Touched(es) { assert k in multiset(keys); }
  }

  /** A flush from `since` to `now`: the alarm is spent, the winners are chosen, and a pass hands them off. */
  ghost predicate Flushed(c: Settings, d: Desk, keys: seq<string>, r: Reading, since: Time, found: nat, e: Desk,
                          now: Time)
  {
    && r.at == [] && since <= r.ready && MayHandOff(c, d.buf.shares, since, r.ready, keys)
    && Passed(c, d.(timer := Off), keys, r.asked, true, r.ready, found, e, now)
  }

  lemma ThatIsFlushed(c: Settings, d: Desk, keys: seq<string>, r: Reading, since: Time, found: nat, e: Desk, now: Time)
    requires d.timer == Off && r.at == [] && since <= r.ready && MayHandOff(c, d.buf.shares, since, r.ready, keys)
    requires Passed(c, d, keys, r.asked, true, r.ready, found, e, now)
    ensures Flushed(c, d, keys, r, since, found, e, now)
  {
    assert d.(timer := Off) == d;
  }

  /** A flush keeps the books and each key's order, and leaves an alarm that covers every bucket left, whatever
      the alarm before it covered. */
  lemma FlushKept(c: Settings, d: Desk, keys: seq<string>, r: Reading, since: Time, found: nat, e: Desk, now: Time)
    requires Checked(c) && Books(d.buf, since) && Flushed(c, d, keys, r, since, found, e, now)
    ensures since <= now && Books(e.buf, now) && Watched(c, e, now)
    ensures forall key :: History(e, key) == History(d, key)
  {
    LaterBooks(d.buf, since, r.ready);
    PassKept(c, d.(timer := Off), keys, r.asked, true, r.ready, found, e, now);
    forall key ensures History(e, key) == History(d, key) {
      HandoffsKeepOrder(c, d.(timer := Off), keys, r.asked, true, since, key);
    }
  }

  /** After a flush a bucket it chose has left exactly when its own send found room; every other is as it was. */
  lemma FlushLeavesExactly(c: Settings, d: Desk, keys: seq<string>, r: Reading, since: Time, found: nat, e: Desk,
                           now: Time)
    requires Flushed(c, d, keys, r, since, found, e, now)
    ensures |r.asked| == |keys|
    ensures forall i | 0 <= i < |keys| ::
      keys[i] in d.buf.shares && (keys[i] !in e.buf.shares <==> r.asked[i].queued < c.queue)
    ensures forall key | key in e.buf.shares :: key in d.buf.shares && e.buf.shares[key] == d.buf.shares[key]
    ensures forall key | key in d.buf.shares && key !in keys :: key in e.buf.shares
  {
    var mid := d.(timer := Off);
    OnlyShrinks(c, mid, keys, r.asked, true);
    forall i | 0 <= i < |keys|
      ensures keys[i] in d.buf.shares && (keys[i] !in e.buf.shares <==> r.asked[i].queued < c.queue)
    {
      assert keys[i] in keys;
      GoneIfSent(c, mid, keys, r.asked, true, i);
    }
  }

  /** `max_age` is kept: after any flush a bucket that was past its ceiling when it began is there only if its own send
      found the queue full; without the claim the same holds of every bucket that was due. */
  lemma CeilingIsKept(c: Settings, d: Desk, keys: seq<string>, r: Reading, since: Time, found: nat, e: Desk, now: Time,
                      key: string)
    requires Checked(c) && Books(d.buf, since) && Flushed(c, d, keys, r, since, found, e, now)
    requires key in e.buf.shares
    requires PastCeiling(c, e.buf.shares[key], since) || (!c.claim && Due(c, Some(e.buf.shares[key]), since))
    ensures exists i | 0 <= i < |keys| :: keys[i] == key && r.asked[i].queued >= c.queue
  {
    var mid := d.(timer := Off);
    OnlyShrinks(c, mid, keys, r.asked, true);
    assert key in keys;
    var i :| 0 <= i < |keys| && keys[i] == key;
    GoneIfSent(c, mid, keys, r.asked, true, i);
  }

  // ----- the last batch -----------------------------------------------------------------------

  /** What `close` gathers: the buckets of the keys, one after the other. */
  function Gathered(bs: Shares, keys: seq<string>): Item {
    if keys == [] then Item([], 0) else
    var n := |keys| - 1;
    var before := Gathered(bs, keys[..n]);
    if keys[n] !in bs then before
    else Item(before.events + bs[keys[n]].batch, before.bytes + bs[keys[n]].bytes)
  }

  function Without(buf: Buffer, keys: seq<string>): Buffer {
    if keys == [] then buf else
    var before := Without(buf, keys[..|keys| - 1]);
    if keys[|keys| - 1] in before.shares then PipeProtocol.Take(before, keys[|keys| - 1]) else before
  }

  lemma {:induction false} WithoutKeys(buf: Buffer, keys: seq<string>)
    ensures forall k :: k in Without(buf, keys).shares <==> k in buf.shares && k !in keys
    ensures forall k | k in Without(buf, keys).shares :: Without(buf, keys).shares[k] == buf.shares[k]
  {
    if keys != [] {
      var n := |keys| - 1;
      WithoutKeys(buf, keys[..n]);
      assert forall k :: k in keys <==> k in keys[..n] || k == keys[n];
    }
  }

  lemma GatherStep(buf: Buffer, keys: seq<string>, i: nat)
    requires i < |keys| && keys[i] in buf.shares && keys[i] in Without(buf, keys[..i]).shares
    ensures Without(buf, keys[..i + 1]) == PipeProtocol.Take(Without(buf, keys[..i]), keys[i])
    ensures var g := Gathered(buf.shares, keys[..i]); var b := buf.shares[keys[i]];
      Gathered(buf.shares, keys[..i + 1]) == Item(g.events + b.batch, g.bytes + b.bytes)
  {
    assert keys[..i + 1][..i] == keys[..i];
  }

  lemma KeyIsHeld(buf: Buffer, keys: seq<string>, i: nat)
    requires i < |keys| && Distinct(keys) && Elements(keys) == buf.shares.Keys
    ensures keys[i] in buf.shares && keys[i] !in keys[..i]
  {
  }

  lemma StillHeld(buf: Buffer, keys: seq<string>, i: nat)
    requires i < |keys| && keys == SortedKeys(buf.shares.Keys)
    ensures keys[i] in buf.shares && keys[i] in Without(buf, keys[..i]).shares
    ensures Without(buf, keys[..i]).shares[keys[i]] == buf.shares[keys[i]]
    ensures Without(buf, keys[..i + 1]) == PipeProtocol.Take(Without(buf, keys[..i]), keys[i])
    ensures var g := Gathered(buf.shares, keys[..i]); var b := buf.shares[keys[i]];
      Gathered(buf.shares, keys[..i + 1]) == Item(g.events + b.batch, g.bytes + b.bytes)
  {
    KeyIsHeld(buf, keys, i);
    WithoutKeys(buf, keys[..i]);
    GatherStep(buf, keys, i);
  }

  lemma {:induction false} GatheredBooks(buf: Buffer, keys: seq<string>, now: Time)
    requires Books(buf, now)
    ensures Books(Without(buf, keys), now)
  {
    if keys != [] {
      var n := |keys| - 1;
      GatheredBooks(buf, keys[..n], now);
      if keys[n] in Without(buf, keys[..n]).shares { TakeBooks(Without(buf, keys[..n]), keys[n], now); }
    }
  }

  /** After `n` of the keys: what was gathered, and what is still held. */
  ghost predicate Gathering(before: Buffer, keys: seq<string>, n: nat, ready: Item, buf: Buffer) {
    n <= |keys| && ready == Gathered(before.shares, keys[..n]) && buf == Without(before, keys[..n])
  }

  lemma NothingHeld(before: Buffer, keys: seq<string>, now: Time, ready: Item, buf: Buffer)
    requires Books(before, now) && keys == SortedKeys(before.shares.Keys) && Gathering(before, keys, |keys|, ready, buf)
    ensures buf == Buffer(map[], 0, 0) && ready == Gathered(before.shares, keys)
  {
    assert keys[..|keys|] == keys;
    GatheredBooks(before, keys, now);
    WithoutKeys(before, keys);
    forall k | k in before.shares ensures k in keys { assert k in Elements(keys); }
    assert buf.shares == map[];
  }

  /** The last batch is every event held, each key's in order. */
  lemma {:induction false} GatheredOrder(bs: Shares, keys: seq<string>, now: Time, key: string)
    requires BucketShape(bs, now) && Distinct(keys)
    ensures Only(Gathered(bs, keys).events, key) == if key in keys then BatchOf(bs, key) else []
  {
    if keys != [] {
      var n := |keys| - 1;
      assert keys[n] !in keys[..n] && forall k :: k in keys <==> k in keys[..n] || k == keys[n];
      GatheredOrder(bs, keys[..n], now, key);
      if keys[n] in bs {
        assert WellKept(keys[n], bs[keys[n]], now);
        OnlyConcat(Gathered(bs, keys[..n]).events, bs[keys[n]].batch, key);
        OnlyOwn(bs[keys[n]].batch, keys[n], key);
      }
    }
  }

  /** Events of these keys, by increasing key. */
  ghost predicate KeyOrder(es: seq<Event>, keys: seq<string>) {
    && (forall i | 0 <= i < |es| :: es[i].key in keys)
    && forall i, j | 0 <= i < j < |es| :: Le(es[i].key, es[j].key)
  }

  lemma KeyOrderStill(before: seq<Event>, batch: seq<Event>, keys: seq<string>, n: nat)
    requires StrictlySorted(keys) && n < |keys| && KeyOrder(before, keys[..n])
    requires forall i | 0 <= i < |batch| :: batch[i].key == keys[n]
    ensures KeyOrder(before + batch, keys[..n] + [keys[n]])
  {
    LeTotal(keys[n], keys[n]);
    forall i, j | 0 <= i < j < |before + batch| ensures Le((before + batch)[i].key, (before + batch)[j].key) {
      if i < |before| <= j {
        var k :| 0 <= k < n && keys[k] == before[i].key;
        assert Lt(keys[k], keys[n]);
      }
    }
  }

  /** It goes by increasing key. */
  lemma {:induction false} GatheredInKeyOrder(bs: Shares, keys: seq<string>, now: Time)
    requires BucketShape(bs, now) && StrictlySorted(keys)
    ensures KeyOrder(Gathered(bs, keys).events, keys)
  {
    if keys != [] {
      var n := |keys| - 1;
      var before := Gathered(bs, keys[..n]).events;
      GatheredInKeyOrder(bs, keys[..n], now);
      assert KeyOrder(before, keys[..n]) && keys[..n] + [keys[n]] == keys;
      if keys[n] in bs {
        assert WellKept(keys[n], bs[keys[n]], now);
        KeyOrderStill(before, bs[keys[n]].batch, keys, n);
      }
    }
  }

  lemma NoBooks(now: Time)
    ensures Books(Buffer(map[], 0, 0), now)
  {
  }

  /** Where the last batch went: on the queue, as it does when there is one and there is room in time; or to `close`
      itself. */
  ghost predicate Left(sent: seq<Item>, ready: Item, inTime: bool, room: bool, went: seq<Item>, inline: Item) {
    || (inline == ready && went == sent && (ready.events == [] || !inTime || !room))
    || (inTime && inline == Item([], 0) && ready.events != [] && went == sent + [ready])
  }

  /** Closing loses nothing and reorders no key: what went on the queue, then what `close` delivers itself. */
  lemma CloseKeepsOrder(d: Desk, now: Time, inTime: bool, room: bool, went: seq<Item>, inline: Item, key: string)
    requires BucketShape(d.buf.shares, now)
    requires Left(d.went, Gathered(d.buf.shares, SortedKeys(d.buf.shares.Keys)), inTime, room, went, inline)
    ensures Only(EventsOf(went), key) + Only(inline.events, key) == History(d, key)
  {
    var keys := SortedKeys(d.buf.shares.Keys);
    var ready := Gathered(d.buf.shares, keys);
    GatheredOrder(d.buf.shares, keys, now, key);
    assert key in keys <==> key in Elements(keys);
    if went == d.went + [ready] { LastItem(d.went, ready, key); }
  }

  // ----- the same steps -----------------------------------------------------------------------

  ghost function DeskOf(s: State, went: seq<Item>): Desk { Desk(s.buf, s.timer, went) }

  /** One handoff of a pass is the protocol's attempt and send: with room on an open queue the batch is the next on
      it, and the buffer and the timer are as `HandOne` says. */
  lemma HandoffIsSteps(c: Settings, s: State, went: seq<Item>)
    requires s.holder.Handing? && s.holder.keys != [] && s.closer.NotStarted? && !s.chan.closed
    requires s.holder.timed || s.holder.keys[0] in s.buf.shares
    ensures var h, a := s.holder, Apply(c, s, ByHolder(Attempt));
      var queued := |s.chan.items|;
      var d := HandOne(c, DeskOf(s, went), h.keys[0], queued, h.timed, s.now);
      if Leaves(c, s.buf.shares, h.keys[0], h.timed) then
        && a.holder.Sending?
        && var n := Apply(c, a, ByHolder(Send));
           && DeskOf(n, went + n.chan.items[queued..]) == d && n.chan.items[..queued] == s.chan.items
      else a == s.(holder := Handing(h.keys[1..], h.timed)) && d == DeskOf(s, went)
  {
    var key := s.holder.keys[0];
    if Leaves(c, s.buf.shares, key, s.holder.timed) {
      RefusedIsKept(c, DeskOf(s, went), key, |s.chan.items|, s.holder.timed, s.now);
    }
  }

  /** Filling a request event by event is appending it event by event, at the instants the clock said. */
  lemma FillIsAppend(c: Settings, s: State, bs: Shares, at: seq<Time>)
    requires HolderMay(c, s, Fill) && |at| == s.holder.done
    requires s.buf.shares == AppendAll(bs, s.holder.req[..s.holder.done], at)
    ensures var n := HolderNext(c, s, Fill);
      n.buf.shares == AppendAll(bs, n.holder.req[..n.holder.done], at + [s.now])
  {
    assert s.holder.req[..s.holder.done + 1][..s.holder.done] == s.holder.req[..s.holder.done];
    assert (at + [s.now])[..|at|] == at;
  }

  /** And the totals after it are the request's. */
  lemma FilledIsAdded(c: Settings, s: State, buf: Buffer, at: seq<Time>)
    requires HolderMay(c, s, HolderStep.Filled) && s.holder.done == |s.holder.req| == |at|
    requires s.buf == Buffer(AppendAll(buf.shares, s.holder.req, at), buf.held, buf.bytes)
    ensures var n := HolderNext(c, s, HolderStep.Filled);
      n.buf == Added(buf, s.holder.req, at) && n.holder == Handing(Sort(Touched(s.holder.req)), false)
  {
  }
}
