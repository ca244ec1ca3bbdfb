/** What a pipe is made of: a bucket, a request once prepared, and the line to its workers. */
module PipeParts {
  import opened Outcomes
  import opened Tally
  import opened Buffering
  import opened PipeProtocol
  import opened Handoffs

  /** A bucket's two parallel slices as the events of its key. */
  function Zip(key: string, batch: seq<nat>, sizes: seq<nat>): (es: seq<Event>)
    requires |batch| == |sizes|
    ensures |es| == |batch|
  {
    if batch == [] then [] else
    var n := |batch| - 1;
    Zip(key, batch[..n], sizes[..n]) + [Event(batch[n], key, sizes[n])]
  }

  /** Each event is the envelope and the size at one place of the two. */
  lemma {:induction false} ZipAt(key: string, batch: seq<nat>, sizes: seq<nat>, i: nat)
    requires |batch| == |sizes| && i < |batch|
    ensures Zip(key, batch, sizes)[i] == Event(batch[i], key, sizes[i])
    decreases |batch|
  {
    var n := |batch| - 1;
    if i < n { ZipAt(key, batch[..n], sizes[..n], i); }
  }

  class Bucket {
    var batch: seq<nat>
    var sizes: seq<nat>
    var bytes: int
    var oldest: Time
    var mark: int
    // the key it is kept under
    ghost const key: string

    constructor (ghost key: string, oldest: Time)
      ensures batch == [] && sizes == [] && bytes == 0 && mark == 0 && this.oldest == oldest && this.key == key
    {
      batch, sizes, bytes, mark := [], [], 0, 0;
      this.oldest := oldest;
      this.key := key;
    }

    function At(key: string): Share
      reads `batch, `sizes, `bytes, `oldest
      requires |batch| == |sizes|
    {
      Share(Zip(key, batch, sizes), bytes, oldest)
    }

    method Add(envelope: nat, size: nat)
      requires |batch| == |sizes|
      modifies `batch, `sizes, `bytes
      ensures |batch| == |sizes|
      ensures At(key) == Share(old(At(key)).batch + [Event(envelope, key, size)], old(bytes) + size, oldest)
    {
      ghost var n := |batch|;
      batch := batch + [envelope];
      sizes := sizes + [size];
      bytes := bytes + size;
      assert batch[..n] == old(batch) && sizes[..n] == old(sizes);
    }
  }

  /** What `prepare` left of a request; `keys` is absent for a sink with no routing key. */
  datatype Prepared = Prepared(events: seq<nat>, sizes: seq<nat>, keys: Option<seq<string>>)
  {
    predicate Aligned() { |sizes| == |events| && (keys.Some? ==> |keys.value| == |events|) }

    function KeyAt(i: nat): string
      requires Aligned() && i < |events|
    {
      if keys.Some? then keys.value[i] else ""
    }

    /** The request's first `n` events. */
    function Arrivals(n: nat): (es: seq<Event>)
      requires Aligned() && n <= |events|
      ensures |es| == n
    {
      if n == 0 then [] else Arrivals(n - 1) + [Event(events[n - 1], KeyAt(n - 1), sizes[n - 1])]
    }
  }

  /** The events a request brings, in order: each envelope with its size, under its key, or under none at all where the
      sink has no routing key. */
  lemma {:induction false} ArrivalAt(p: Prepared, n: nat, i: nat)
    requires p.Aligned() && i < n <= |p.events|
    ensures p.Arrivals(n)[i] == Event(p.events[i], if p.keys.Some? then p.keys.value[i] else "", p.sizes[i])
  {
    if i < n - 1 { ArrivalAt(p, n - 1, i); }
  }

  function Total(sizes: seq<nat>): int {
    if sizes == [] then 0 else Total(sizes[..|sizes| - 1]) + sizes[|sizes| - 1]
  }

  lemma {:induction false} TotalIsWeight(p: Prepared, n: nat)
    requires p.Aligned() && n <= |p.events|
    ensures Total(p.sizes[..n]) == Weigh(p.Arrivals(n), Bytes)
  {
    if n > 0 {
      TotalIsWeight(p, n - 1);
      assert p.sizes[..n][..n - 1] == p.sizes[..n - 1];
      var e := Event(p.events[n - 1], p.KeyAt(n - 1), p.sizes[n - 1]);
      WeighLast(p.Arrivals(n - 1), e, Bytes);
    }
  }

  function BytesOf(items: seq<Item>): int {
    if items == [] then 0 else BytesOf(items[..|items| - 1]) + items[|items| - 1].bytes
  }

  lemma OneMore(sent: seq<Item>, item: Item)
    ensures |EventsOf(sent + [item])| == |EventsOf(sent)| + |item.events|
    ensures BytesOf(sent + [item]) == BytesOf(sent) + item.bytes
  {
  }

  /** What happened on the line: every batch that went on the queue, in order, those the workers received, and
      what they took off the two atomics. */
  datatype Log = Log(sent: seq<Item>, received: seq<Item>, records: int, bytes: int)
  {
    /** The workers only ever take off. */
    predicate Before(later: Log) { records <= later.records && bytes <= later.bytes }

    /** Two readings of the atomics made between now and `later`: each is short of what it was by no more than the
        workers took off since. */
    predicate Read(pending: int, pendingBytes: int, later: Log, seen: int, seenBytes: int) {
      && pending - (later.records - records) <= seen <= pending
      && pendingBytes - (later.bytes - bytes) <= seenBytes <= pendingBytes
    }
  }

  /** What a pipe shares with its workers without the lock: the bounded queue and the two atomics. */
  class Line {
    const capacity: int
    var items: seq<Item>
    var closed: bool
    var pending: int
    var pendingBytes: int
    ghost var log: Log

    /** The queue is what went on it and was not received, and the atomics are what was counted in and not
        taken off. */
    ghost predicate Counted()
      reads this
    {
      && log.sent == log.received + items && |items| <= capacity
      && pending + log.records == |EventsOf(log.sent)| && pendingBytes + log.bytes == BytesOf(log.sent)
    }

    constructor (capacity: int)
      requires capacity >= 0
      ensures Counted() && !closed && log.sent == [] && pending == 0 && pendingBytes == 0 && this.capacity == capacity
    {
      this.capacity := capacity;
      items, closed, pending, pendingBytes, log := [], false, 0, 0, Log([], [], 0, 0);
    }

    /** The workers run: they may receive any batches from the front, and lower the two atomics. */
    method Interfere()
      modifies `items, `pending, `pendingBytes, `log
      ensures log.received + items == old(log.received + items) && |items| <= |old(items)| && log.sent == old(log.sent)
      ensures pending <= old(pending) && pending + log.records == old(pending + log.records)
      ensures pendingBytes <= old(pendingBytes) && pendingBytes + log.bytes == old(pendingBytes + log.bytes)
      ensures old(log).Before(log)
    {
      var n :| 0 <= n <= |items|;
      var records, bytes :| records >= 0 && bytes >= 0;
      log := log.(received := log.received + items[..n], records := log.records + records, bytes := log.bytes + bytes);
      items, pending, pendingBytes := items[n..], pending - records, pendingBytes - bytes;
    }

    /** Both atomics as one goroutine reads them, one after the other, while workers lower them. */
    method Load() returns (records: int, bytes: int)
      requires Counted()
      modifies `items, `pending, `pendingBytes, `log
      ensures Counted() && log.sent == old(log.sent)
      ensures old(log).Read(old(pending), old(pendingBytes), log, records, bytes)
      ensures old(log).Before(log)
      ensures |items| <= |old(items)|
    {
      Interfere();
      records := pending;
      Interfere();
      bytes := pendingBytes;
    }

    /** The two adds that follow a send that went, with workers running between them. */
    method Raise(item: Item)
      modifies `items, `pending, `pendingBytes, `log
      ensures log.received + items == old(log.received + items) && |items| <= |old(items)| && log.sent == old(log.sent)
      ensures pending + log.records == old(pending + log.records) + |item.events|
      ensures pendingBytes + log.bytes == old(pendingBytes + log.bytes) + item.bytes
      ensures old(log).Before(log)
    {
      Interfere();
      pending := pending + |item.events|;
      Interfere();
      pendingBytes := pendingBytes + item.bytes;
    }

    /** The `select` with a default: a send that never waits, and the adds that follow one that went. */
    method TrySend(item: Item) returns (ok: bool, ghost queued: nat)
      requires !closed && Counted()
      modifies `items, `pending, `pendingBytes, `log
      ensures Counted() && (ok <==> queued < capacity)
      ensures log.sent == if ok then old(log.sent) + [item] else old(log.sent)
      ensures old(log).Before(log)
      ensures queued <= |old(items)| && |items| <= if ok then queued + 1 else queued
    {
      Interfere();
      queued := |items|;
      ok := |items| < capacity;
      if ok {
        OneMore(log.sent, item);
        assert (log.received + items) + [item] == log.received + (items + [item]);
        items := items + [item];
        log := log.(sent := log.sent + [item]);
        Raise(item);
      }
    }

    /** `close`'s own send, which waits for room until its window ends. */
    method SendBefore(item: Item, inTime: bool) returns (ok: bool, ghost queued: nat)
      requires !closed && Counted()
      modifies `items, `pending, `pendingBytes, `log
      ensures Counted() && (ok <==> inTime && queued < capacity) && queued <= |old(items)|
      ensures log.sent == if ok then old(log.sent) + [item] else old(log.sent)
    {
      ok, queued := false, 0;
      if inTime { ok, queued := TrySend(item); }
    }

    /** `close(queue)`: what ends the workers. */
    method Close()
      requires !closed && Counted()
      modifies `closed
      ensures Counted() && closed
    {
      closed := true;
    }
  }
}
