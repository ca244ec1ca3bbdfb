/** The gateway's stream buffer as values: what one event does to the buckets, and when a bucket is due.
    `Pipe` computes these in place; `PipeProtocol` takes steps made of them. */
module Buffering {
  import opened Ordering
  import opened Outcomes

  /** Nanoseconds since the zero time; 0 is the zero time itself, which `IsZero` recognises. */
  type Time = int

  const MILLISECOND: int := 1_000_000

  /** `buffer` and `buffer.flush` of one stream, with `listen.max_body`. */
  datatype Settings = Settings(
    every: int, maxAge: int, claim: bool, records: int, size: int,
    maxRecords: int, maxBytes: int, maxBody: int, queue: int, workers: int)

  /** What `Stream.check` leaves true, and a positive `every`. */
  predicate Checked(c: Settings) {
    && c.every > 0
    && c.maxAge >= 0 && (c.maxAge == 0 || c.maxAge >= c.every)
    && (c.claim ==> c.maxAge > 0)
    && 1 <= c.records <= c.maxRecords
    && 0 <= c.size <= c.maxBytes
    && 0 <= c.maxBody <= c.maxBytes && 0 < c.maxBytes
    && c.queue >= 1 && c.workers >= 1
  }

  /** An accepted event: its envelope, the routing key of its table, and its size as received. */
  datatype Event = Event(envelope: nat, key: string, size: nat)

  function One(e: Event): int { 1 }

  function Bytes(e: Event): int { e.size }

  /** One routing key's share of the buffer. */
  datatype Share = Share(batch: seq<Event>, bytes: int, oldest: Time)

  type Shares = map<string, Share>

  /** The events of one key, in order. */
  function Only(es: seq<Event>, key: string): seq<Event> {
    if es == [] then [] else
    (if es[0].key == key then [es[0]] else []) + Only(es[1..], key)
  }

  function BatchOf(bs: Shares, key: string): seq<Event> {
    if key in bs then bs[key].batch else []
  }

  // ----- what is done to the buckets ----------------------------------------------------------

  /** One event appended to its key's bucket, which is created with the event's instant if absent. */
  function Append(bs: Shares, e: Event, now: Time): Shares {
    if e.key in bs
    then bs[e.key := bs[e.key].(batch := bs[e.key].batch + [e], bytes := bs[e.key].bytes + e.size)]
    else bs[e.key := Share([e], e.size, now)]
  }

  /** A whole request appended event by event, each at its own instant: the naive form of the loop in `enqueue`. */
  function AppendAll(bs: Shares, es: seq<Event>, at: seq<Time>): Shares
    requires |at| == |es|
  {
    if es == [] then bs else
    var n := |es| - 1;
    Append(AppendAll(bs, es[..n], at[..n]), es[n], at[n])
  }

  /** The keys a request touches, each once, in the order it first meets them. */
  function Touched(es: seq<Event>): seq<string> {
    if es == [] then [] else
    var before := Touched(es[..|es| - 1]);
    if es[|es| - 1].key in before then before else before + [es[|es| - 1].key]
  }

  /** A refused batch goes back to the front of its own bucket, with the older of the two clocks. */
  function PutBack(bs: Shares, key: string, b: Share): Shares {
    if key in bs then
      var cur := bs[key];
      bs[key := Share(b.batch + cur.batch, cur.bytes + b.bytes,
                      if cur.oldest == 0 || b.oldest < cur.oldest then b.oldest else cur.oldest)]
    else bs[key := b]
  }

  /** Either flush trigger is crossed. */
  predicate Crossed(c: Settings, b: Share) {
    |b.batch| >= c.records || (c.size > 0 && b.bytes >= c.size)
  }

  // ----- when a bucket is due -----------------------------------------------------------------

  /** `now` rounded down to a multiple of `every` since the zero time. */
  function Truncate(now: Time, every: int): Time
    requires every > 0
  {
    now - now % every
  }

  function NotNegative(d: int): int { if d < 0 then 0 else d }

  function Deadline(c: Settings, b: Option<Share>, now: Time): int {
    var aged := b.Some? && b.value.oldest != 0;
    var target := if aged then b.value.oldest + c.every - now else c.every;
    var wait := if c.claim && c.every > 0 then Truncate(now, c.every) + c.every - now else target;
    if c.maxAge <= 0 || !aged then NotNegative(wait) else
    var left := b.value.oldest + c.maxAge - now;
    NotNegative(if left < wait then left else wait)
  }

  predicate Due(c: Settings, b: Option<Share>, now: Time) {
    || c.claim
    || b.None? || b.value.oldest == 0
    || c.every <= 0 || b.value.oldest + c.every <= now
    || (c.maxAge > 0 && b.value.oldest + c.maxAge <= now)
  }

  /** The ceiling has closed on a bucket: it leaves whatever another replica is doing. */
  predicate PastCeiling(c: Settings, b: Share, now: Time) {
    c.maxAge > 0 && b.oldest + c.maxAge <= now
  }

  /** Waking and being due agree without the claim, for a bucket that is held: an absent bucket is due
      at every instant and is never a reason to wake. */
  lemma DeadlineIsDue(c: Settings, b: Option<Share>, now: Time)
    requires Checked(c) && !c.claim
    ensures (Deadline(c, b, now) == 0 <==> Due(c, b, now)) <==> (b.Some? && b.value.oldest != 0)
  {
  }

  /** With the claim a wake is a window boundary, so the deadline is spent exactly when the ceiling is. */
  lemma SpentIsPastCeiling(c: Settings, b: Share, now: Time)
    requires Checked(c) && c.claim && b.oldest != 0
    ensures Deadline(c, Some(b), now) <= 0 <==> PastCeiling(c, b, now)
    ensures Due(c, Some(b), now)
  {
  }

  ghost predicate IsNext(c: Settings, bs: Shares, now: Time, d: int) {
    && (exists k | k in bs :: Deadline(c, Some(bs[k]), now) == d)
    && (forall k | k in bs :: d <= Deadline(c, Some(bs[k]), now))
  }

  lemma {:induction false} NextExists(c: Settings, bs: Shares, now: Time)
    requires bs != map[]
    ensures exists d :: IsNext(c, bs, now, d)
    decreases |bs|
  {
    var k :| k in bs;
    var d := Deadline(c, Some(bs[k]), now);
    if bs - {k} == map[] {
      assert bs == (bs - {k})[k := bs[k]];
      assert IsNext(c, bs, now, d);
    } else {
      NextExists(c, bs - {k}, now);
      var e :| IsNext(c, bs - {k}, now, e);
      var j :| j in bs - {k} && Deadline(c, Some(bs[j]), now) == e;
      assert forall i | i in bs && i != k :: i in bs - {k};
      assert IsNext(c, bs, now, if d < e then d else e);
    }
  }

  /** The earliest deadline across the buckets. */
  ghost function Next(c: Settings, bs: Shares, now: Time): int {
    if bs == map[] then Deadline(c, None, now) else
    NextExists(c, bs, now);
    var d :| IsNext(c, bs, now, d); d
  }

  function Later(a: int, b: int): int { if a < b then b else a }

  /** The alarm `arm` sets when none is running. */
  ghost function Alarm(c: Settings, bs: Shares, now: Time): Time {
    now + Later(MILLISECOND, Next(c, bs, now))
  }

  /** What an alarm set at `armed` to ring at `at` promises the bucket `b`. */
  predicate Covers(c: Settings, at: Time, armed: Time, b: Share) {
    && (!c.claim ==> at <= Later(armed + MILLISECOND, b.oldest + c.every))
    && (c.maxAge > 0 ==> at <= Later(armed + MILLISECOND, b.oldest + c.maxAge))
  }

  /** An alarm covers the buckets it was set for, and every bucket created after it. */
  lemma AlarmCovers(c: Settings, bs: Shares, now: Time)
    requires Checked(c) && bs != map[]
    requires forall k | k in bs :: 0 < bs[k].oldest <= now
    ensures forall k | k in bs :: Covers(c, Alarm(c, bs, now), now, bs[k])
    ensures now + MILLISECOND <= Alarm(c, bs, now) <= now + Later(MILLISECOND, c.every)
  {
  }

  /** The first boundary between windows after `now`. */
  function NextBoundary(every: int, now: Time): Time
    requires every > 0
  {
    (now / every + 1) * every
  }

  lemma BoundaryIsNext(every: int, now: Time)
    requires every > 0
    ensures now < NextBoundary(every, now) <= now + every
    ensures Truncate(now, every) + every == NextBoundary(every, now)
  {
  }

  /** With the claim a held bucket wakes the pipe at the next boundary between windows, or at its ceiling if that comes
      first; without it, when its target is up. */
  lemma DeadlineIsWake(c: Settings, b: Share, now: Time)
    requires Checked(c) && b.oldest != 0
    ensures now + Deadline(c, Some(b), now) ==
      if !c.claim then Later(now, b.oldest + c.every)
      else if b.oldest + c.maxAge < NextBoundary(c.every, now) then Later(now, b.oldest + c.maxAge)
      else NextBoundary(c.every, now)
  {
    BoundaryIsNext(c.every, now);
  }

  /** The alarm rings neither late nor early: with the claim at the next boundary, or at the first ceiling if that
      comes before; without it at the first target; and in no case sooner than a millisecond from now. */
  lemma AlarmExactly(c: Settings, bs: Shares, now: Time)
    requires Checked(c) && bs != map[] && forall k | k in bs :: 0 < bs[k].oldest <= now
    ensures !c.claim ==>
      && (exists k | k in bs :: Alarm(c, bs, now) == Later(now + MILLISECOND, bs[k].oldest + c.every))
      && forall k | k in bs :: Alarm(c, bs, now) <= Later(now + MILLISECOND, bs[k].oldest + c.every)
    ensures c.claim ==>
      && Alarm(c, bs, now) <= Later(now + MILLISECOND, NextBoundary(c.every, now))
      && (forall k | k in bs :: Alarm(c, bs, now) <= Later(now + MILLISECOND, bs[k].oldest + c.maxAge))
      && (|| Alarm(c, bs, now) == Later(now + MILLISECOND, NextBoundary(c.every, now))
          || exists k | k in bs :: Alarm(c, bs, now) == Later(now + MILLISECOND, bs[k].oldest + c.maxAge))
  {
    NextExists(c, bs, now);
    var k :| k in bs && Deadline(c, Some(bs[k]), now) == Next(c, bs, now);
    DeadlineIsWake(c, bs[k], now);
    forall j | j in bs
      ensures !c.claim ==> Alarm(c, bs, now) <= Later(now + MILLISECOND, bs[j].oldest + c.every)
      ensures c.claim ==> Alarm(c, bs, now) <= Later(now + MILLISECOND, bs[j].oldest + c.maxAge)
      ensures c.claim ==> Alarm(c, bs, now) <= Later(now + MILLISECOND, NextBoundary(c.every, now))
    {
      DeadlineIsWake(c, bs[j], now);
    }
  }

  lemma LateBucketCovered(c: Settings, at: Time, armed: Time, b: Share)
    requires Checked(c) && at <= armed + Later(MILLISECOND, c.every) && armed <= b.oldest
    ensures Covers(c, at, armed, b)
  {
  }

  // ----- what appending keeps -----------------------------------------------------------------

  lemma {:induction false} OnlyConcat(a: seq<Event>, b: seq<Event>, key: string)
    ensures Only(a + b, key) == Only(a, key) + Only(b, key)
  {
    if a == [] {
      assert a + b == b && Only(a, key) == [];
    } else {
      OnlyConcat(a[1..], b, key);
      var head := if a[0].key == key then [a[0]] else [];
      assert Only(a + b, key) == head + Only(a[1..] + b, key) by { assert (a + b)[1..] == a[1..] + b; }
      assert head + (Only(a[1..], key) + Only(b, key)) == (head + Only(a[1..], key)) + Only(b, key);
    }
  }

  lemma {:induction false} OnlyOwn(es: seq<Event>, key: string, k: string)
    requires forall i | 0 <= i < |es| :: es[i].key == key
    ensures Only(es, k) == if k == key then es else []
  {
    if es != [] {
      OnlyOwn(es[1..], key, k);
      assert es == [es[0]] + es[1..];
    }
  }

  /** Only the event's own bucket grows, at its end; a clock is set once and never moved. */
  lemma AppendOne(bs: Shares, e: Event, now: Time, key: string)
    ensures BatchOf(Append(bs, e, now), key) == BatchOf(bs, key) + Only([e], key)
    ensures key in bs ==> Append(bs, e, now)[key].oldest == bs[key].oldest
    ensures Append(bs, e, now).Keys == bs.Keys + {e.key}
  {
  }

  lemma OnlyLast(es: seq<Event>, key: string)
    requires es != []
    ensures Only(es, key) == Only(es[..|es| - 1], key) + Only([es[|es| - 1]], key)
  {
    var n := |es| - 1;
    assert es == es[..n] + [es[n]];
    OnlyConcat(es[..n], [es[n]], key);
  }

  /** A request adds to each bucket exactly its own events, in order. */
  lemma {:induction false} AppendAllOrder(bs: Shares, es: seq<Event>, at: seq<Time>, key: string)
    requires |at| == |es|
    ensures BatchOf(AppendAll(bs, es, at), key) == BatchOf(bs, key) + Only(es, key)
  {
    if es != [] {
      var n := |es| - 1;
      var before := AppendAll(bs, es[..n], at[..n]);
      AppendAllOrder(bs, es[..n], at[..n], key);
      AppendOne(before, es[n], at[n], key);
      OnlyLast(es, key);
      assert BatchOf(AppendAll(bs, es, at), key) == BatchOf(before, key) + Only([es[n]], key);
    }
  }

  lemma {:induction false} AppendAllKeys(bs: Shares, es: seq<Event>, at: seq<Time>)
    requires |at| == |es|
    ensures AppendAll(bs, es, at).Keys == bs.Keys + Elements(Touched(es))
    ensures forall k | k in bs :: AppendAll(bs, es, at)[k].oldest == bs[k].oldest
  {
    if es != [] { AppendAllKeys(bs, es[..|es| - 1], at[..|es| - 1]); }
  }

  /** A bucket no event of a request is for stays as it was. */
  lemma {:induction false} AppendAllElsewhere(bs: Shares, es: seq<Event>, at: seq<Time>, key: string)
    requires |at| == |es| && key in bs && key !in Touched(es)
    ensures key in AppendAll(bs, es, at) && AppendAll(bs, es, at)[key] == bs[key]
  {
    if es != [] { AppendAllElsewhere(bs, es[..|es| - 1], at[..|es| - 1], key); }
  }

  /** A bucket's clock starts when it goes from absent to held and is not moved by later events. */
  lemma {:induction false} AppendAllClocks(bs: Shares, es: seq<Event>, at: seq<Time>, i: nat)
    requires |at| == |es| && i < |es| && es[i].key !in bs && es[i].key !in Touched(es[..i])
    ensures es[i].key in AppendAll(bs, es, at) && AppendAll(bs, es, at)[es[i].key].oldest == at[i]
    ensures forall k | k in bs :: k in AppendAll(bs, es, at) && AppendAll(bs, es, at)[k].oldest == bs[k].oldest
  {
    var n := |es| - 1;
    AppendAllKeys(bs, es[..n], at[..n]);
    if i < n {
      assert es[..n][..i] == es[..i];
      AppendAllClocks(bs, es[..n], at[..n], i);
    }
  }

  lemma {:induction false} TouchedDistinct(es: seq<Event>)
    ensures Distinct(Touched(es))
    ensures forall key :: key in Touched(es) <==> exists i | 0 <= i < |es| :: es[i].key == key
  {
    if es != [] {
      var front, last := es[..|es| - 1], es[|es| - 1];
      TouchedDistinct(front);
      forall key ensures key in Touched(es) <==> exists i | 0 <= i < |es| :: es[i].key == key {
        if key in Touched(front) {
          var i :| 0 <= i < |front| && front[i].key == key;
          assert es[i].key == key;
        }
        if i :| 0 <= i < |es| && es[i].key == key && i < |front| { assert front[i].key == key; }
      }
    }
  }
}
