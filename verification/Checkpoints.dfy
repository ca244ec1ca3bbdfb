/** A run's stream through its checkpoint: drained into a depot and read back, or carried on without it. */
module Checkpoints {
  import opened Outcomes

  /** What a stream delivers: a record, or an error in its place. */
  type Delivery<R> = Result<R, string>

  function Delivered<R>(rs: seq<R>): seq<Delivery<R>> {
    seq(|rs|, i requires 0 <= i < |rs| => Ok(rs[i]))
  }

  predicate Clean<R>(items: seq<Delivery<R>>) { forall i | 0 <= i < |items| :: items[i].Ok? }

  function Records<R>(items: seq<Delivery<R>>): (rs: seq<R>)
    requires Clean(items)
    ensures Delivered(rs) == items
  {
    seq(|items|, i requires 0 <= i < |items| => items[i].value)
  }

  /** As much of a stream as the consumer asks for before it stops. */
  function Taken<R>(items: seq<Delivery<R>>, appetite: nat): seq<Delivery<R>> {
    if |items| <= appetite then items else items[..appetite]
  }

  /** From one state of a consumer to the next: it was given a stream, or the part of it that it wanted. */
  predicate Gave<R(==)>(seen: seq<Delivery<R>>, appetite: nat, stream: seq<Delivery<R>>,
                             seen': seq<Delivery<R>>, appetite': nat) {
    seen' == seen + Taken(stream, appetite) && appetite' == appetite - |Taken(stream, appetite)|
  }

  lemma GaveBoth<R>(s0: seq<Delivery<R>>, a0: nat, x: seq<Delivery<R>>,
                    s1: seq<Delivery<R>>, a1: nat, y: seq<Delivery<R>>,
                    s2: seq<Delivery<R>>, a2: nat)
    requires Gave(s0, a0, x, s1, a1) && (if a1 > 0 then Gave(s1, a1, y, s2, a2) else s2 == s1 && a2 == a1)
    ensures Gave(s0, a0, x + y, s2, a2)
  {
  }

  lemma DeliveredBoth<R>(a: seq<R>, b: seq<R>)
    ensures Delivered(a + b) == Delivered(a) + Delivered(b)
  {
  }

  /** The source, pulled one delivery at a time. */
  class Source<R> {
    const items: seq<Delivery<R>>
    var at: nat

    constructor (items: seq<Delivery<R>>)
      ensures this.items == items && at == 0
    {
      this.items, at := items, 0;
    }

    method Next() returns (r: Option<Delivery<R>>)
      requires at <= |items|
      modifies this
      ensures if old(at) < |items| then r == Some(items[old(at)]) && at == old(at) + 1 else r == None && at == old(at)
    {
      if at == |items| { return None; }
      r, at := Some(items[at]), at + 1;
    }
  }

  /** The consumer: what it was given, and how much more it will take. */
  class Consumer<R> {
    var seen: seq<Delivery<R>>
    var appetite: nat

    constructor (appetite: nat)
      ensures seen == [] && this.appetite == appetite
    {
      seen, this.appetite := [], appetite;
    }

    method Yield(item: Delivery<R>) returns (more: bool)
      requires appetite > 0
      modifies this
      ensures Gave(old(seen), old(appetite), [item], seen, appetite) && (more <==> appetite > 0)
    {
      seen, appetite := seen + [item], appetite - 1;
      more := appetite > 0;
    }

    method YieldAll(records: seq<R>) returns (more: bool)
      requires appetite > 0
      modifies this
      ensures Gave(old(seen), old(appetite), Delivered(records), seen, appetite) && (more <==> appetite > 0)
    {
      var i := 0;
      more := true;
      while i < |records|
        invariant 0 <= i <= |records| && appetite > 0
        invariant seen == old(seen) + Delivered(records)[..i] && appetite == old(appetite) - i
      {
        more := Yield(Ok(records[i]));
        i := i + 1;
        assert Delivered(records)[..i] == Delivered(records)[..i - 1] + [Ok(records[i - 1])];
        if !more { return; }
      }
      assert Delivered(records)[..|records|] == Delivered(records);
    }
  }

  /** The depot's writer: what became parts, what waits in the buffer, and whether the manifest was tried. What it
      was given is always the two together, whatever failed. */
  class Writer<R> {
    var written: seq<R>
    var pending: seq<R>
    var tried: bool
    // one after another, what it took
    ghost var added: seq<R>

    ghost predicate Valid()
      reads this
    {
      added == written + pending
    }

    constructor ()
      ensures Valid() && added == [] && !tried
    {
      written, pending, tried, added := [], [], false, [];
    }

    /** It fails only on a record that does not serialise, and that record is not in. */
    method Add(r: R) returns (ok: bool)
      requires Valid()
      modifies `pending, `added
      ensures Valid() && added == if ok then old(added) + [r] else old(added)
    {
      ok := *;
      if ok {
        assert (written + pending) + [r] == written + (pending + [r]);
        pending, added := pending + [r], added + [r];
      }
    }

    method Full() returns (full: bool)
    {
      full := *;
    }

    /** A part written whole, or the buffer as it was. */
    method Flush() returns (ok: bool)
      requires Valid()
      modifies `written, `pending
      ensures Valid() && (ok ==> pending == []) && (!ok ==> written == old(written) && pending == old(pending))
    {
      ok := true;
      if pending != [] {
        ok := *;
        if ok { written, pending := written + pending, []; }
      }
    }

    /** What is left, then the manifest, last. */
    method Finish() returns (ok: bool)
      requires Valid() && !tried
      modifies `written, `pending, `tried
      ensures Valid() && (tried ==> pending == []) && (ok ==> tried)
    {
      ok := Flush();
      if ok {
        tried := true;
        ok := *;
      }
    }
  }

  /** The rest of the source, errors and all, as long as it is wanted. */
  method YieldRest<R>(source: Source<R>, consumer: Consumer<R>)
    requires source.at <= |source.items| && consumer.appetite > 0
    modifies source, consumer
    ensures Gave(old(consumer.seen), old(consumer.appetite), source.items[old(source.at)..],
                 consumer.seen, consumer.appetite)
  {
    ghost var from := source.at;
    while true
      invariant from <= source.at <= |source.items| && consumer.appetite > 0
      invariant Gave(old(consumer.seen), old(consumer.appetite), source.items[from..source.at],
                     consumer.seen, consumer.appetite)
      decreases |source.items| - source.at
    {
      ghost var seen, appetite := consumer.seen, consumer.appetite;
      var r := source.Next();
      if r.None? {
        assert source.items[from..source.at] == source.items[from..];
        return;
      }
      var more := consumer.Yield(r.value);
      GaveBoth(old(consumer.seen), old(consumer.appetite), source.items[from..source.at - 1], seen, appetite,
               [r.value], consumer.seen, consumer.appetite);
      assert source.items[from..source.at] == source.items[from..source.at - 1] + [r.value];
      if !more {
        assert source.items[from..] == source.items[from..source.at] + source.items[source.at..];
        GaveBoth(old(consumer.seen), old(consumer.appetite), source.items[from..source.at],
                 consumer.seen, consumer.appetite,
                 source.items[source.at..], consumer.seen, consumer.appetite);
        return;
      }
    }
  }

  /** The record that never got in, if there is one. */
  function Loose<R>(left: Option<R>): seq<R> { if left.Some? then [left.value] else [] }

  /** What became parts, then what waits in the buffer, then the loose record. */
  method YieldHeld<R>(consumer: Consumer<R>, w: Writer<R>, left: Option<R>) returns (more: bool)
    requires w.Valid() && consumer.appetite > 0
    modifies consumer
    ensures Gave(old(consumer.seen), old(consumer.appetite), Delivered(w.added + Loose(left)),
                 consumer.seen, consumer.appetite)
    ensures more <==> consumer.appetite > 0
  {
    ghost var s0, a0 := consumer.seen, consumer.appetite;
    more := consumer.YieldAll(w.written);
    ghost var s1, a1 := consumer.seen, consumer.appetite;
    if more { more := consumer.YieldAll(w.pending); }
    GaveBoth(s0, a0, Delivered(w.written), s1, a1, Delivered(w.pending), consumer.seen, consumer.appetite);
    DeliveredBoth(w.written, w.pending);
    ghost var s2, a2 := consumer.seen, consumer.appetite;
    if more && left.Some? { more := consumer.Yield(Ok(left.value)); }
    assert Delivered(Loose(left)) == if left.Some? then [Ok(left.value)] else [];
    GaveBoth(s0, a0, Delivered(w.added), s2, a2, Delivered(Loose(left)), consumer.seen, consumer.appetite);
    DeliveredBoth(w.added, Loose(left));
  }

  /** `degradar`: the depot is given up, the stream is not. */
  method Degrade<R>(source: Source<R>, consumer: Consumer<R>, w: Writer<R>, left: Option<R>)
    requires w.Valid() && source.at <= |source.items| && consumer.appetite > 0
    modifies source, consumer
    ensures Gave(old(consumer.seen), old(consumer.appetite),
                 Delivered(w.added + Loose(left)) + source.items[old(source.at)..], consumer.seen, consumer.appetite)
  {
    ghost var s0, a0, rest := consumer.seen, consumer.appetite, source.items[source.at..];
    var more := YieldHeld(consumer, w, left);
    ghost var s1, a1 := consumer.seen, consumer.appetite;
    if more { YieldRest(source, consumer); }
    GaveBoth(s0, a0, Delivered(w.added + Loose(left)), s1, a1, rest, consumer.seen, consumer.appetite);
  }

  datatype End = Whole | Degraded | Broken(at: nat)

  /** The drain into the depot: to the end of the source, or to the first thing that failed. */
  method Drain<R>(source: Source<R>, w: Writer<R>) returns (end: End, left: Option<R>)
    requires source.at == 0 && w.Valid() && w.added == [] && !w.tried
    modifies source, w
    ensures w.Valid() && source.at <= |source.items|
    ensures end.Whole? ==>
      left == None && Delivered(w.added) == source.items && source.at == |source.items| && !w.tried
    ensures end.Degraded? ==> Delivered(w.added + Loose(left)) == source.items[..source.at] && !w.tried
    ensures end.Broken? ==>
      && end.at < |source.items| && source.items[end.at].Err? && Clean(source.items[..end.at]) && !w.tried
  {
    left := None;
    while true
      invariant source.at <= |source.items| && w.Valid() && !w.tried
      invariant Delivered(w.added) == source.items[..source.at]
      decreases |source.items| - source.at
    {
      ghost var at := source.at;
      var r := source.Next();
      if r.None? { return Whole, None; }
      if r.value.Err? { return Broken(source.at - 1), None; }
      DeliveredBoth(w.added, [r.value.value]);
      assert Delivered([r.value.value]) == [r.value];
      assert source.items[..at + 1] == source.items[..at] + [r.value];
      var ok := w.Add(r.value.value);
      if !ok { return Degraded, Some(r.value.value); }
      var full := w.Full();
      if full {
        ok := w.Flush();
        if !ok {
          assert w.added + Loose<R>(None) == w.added;
          return Degraded, None;
        }
      }
    }
  }

  /** `materialize`: whatever fails on the depot's side, at any record, any part or the manifest, the consumer is given
      the source's own stream, once and in order, as far as it asks. Only a source that fails before the depot does
      is given as its error alone. The manifest is tried only once the source ended clean, with every record in
      the parts. */
  method Materialize<R>(source: Source<R>, consumer: Consumer<R>, w: Writer<R>) returns (end: End)
    requires source.at == 0 && w.Valid() && w.added == [] && !w.tried && consumer.appetite > 0
    modifies source, consumer, w
    ensures !end.Broken? ==>
      Gave(old(consumer.seen), old(consumer.appetite), source.items, consumer.seen, consumer.appetite)
    ensures end.Broken? ==>
      && end.at < |source.items| && source.items[end.at].Err? && Clean(source.items[..end.at])
      && Gave(old(consumer.seen), old(consumer.appetite), [source.items[end.at]], consumer.seen, consumer.appetite)
    ensures w.tried ==> Clean(source.items) && w.written == Records(source.items)
  {
    var left;
    end, left := Drain(source, w);
    assert forall i | 0 <= i < |w.added| :: Delivered(w.added)[i].Ok?;
    if end.Broken? {
      var _ := consumer.Yield(source.items[end.at]);
      return;
    }
    if end.Whole? {
      var ok := w.Finish();
      if !ok { end := Degraded; }
      assert w.added + Loose<R>(None) == w.added && w.written + [] == w.written;
    }
    if end.Degraded? {
      assert source.items[..source.at] + source.items[source.at..] == source.items;
      Degrade(source, consumer, w, left);
    } else {
      var _ := consumer.YieldAll(w.written);
    }
  }
}
