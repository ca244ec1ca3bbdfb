/** What a request's events go through before the buffer: the hook, the oversize archive, the measure, the sink's
    admission and the identity. */
module Preparing {
  import opened Outcomes
  import opened PipeParts
  import opened Selections

  /** One decoded event, and how many bytes it arrived as. */
  datatype Arrival = Arrival(event: nat, bytes: nat)

  /** A stage that may refuse an event, keep it out on purpose, or shape it. */
  type Shaper = nat -> Result<Option<nat>, string>

  /** The sink's measurer: the key an event goes by, and the event with its arrival size written over. */
  type Measurer = (nat, nat) -> (string, nat)

  datatype Stages = Stages(
    hook: Option<Shaper>, big: Option<Shaper>, measure: Option<Measurer>,
    admit: Option<nat -> Option<string>>, identify: nat -> Result<nat, string>)

  /** The one thing that becomes of an event. */
  datatype Fate = Rejected(why: string) | Dropped | Archived | Accepted(envelope: nat, key: string)

  function Shaped(stage: Option<Shaper>, e: nat): Result<Option<nat>, string> {
    match stage case None => Ok(Some(e)) case Some(f) => f(e)
  }

  function Measured(s: Stages, e: nat, bytes: nat): (string, nat) {
    match s.measure case None => ("", e) case Some(f) => f(e, bytes)
  }

  /** Admission and identity see the event as it was measured. */
  function Identified(s: Stages, measured: (string, nat)): Fate {
    var (key, e) := measured;
    if s.admit.Some? && s.admit.value(e).Some? then Rejected(s.admit.value(e).value) else
    match s.identify(e) case Err(why) => Rejected(why) case Ok(envelope) => Accepted(envelope, key)
  }

  function FateOf(s: Stages, a: Arrival): Fate {
    match Shaped(s.hook, a.event)
    case Err(why) => Rejected(why)
    case Ok(None) => Dropped
    case Ok(Some(e)) =>
      match Shaped(s.big, e)
      case Err(why) => Rejected(why)
      case Ok(None) => Archived
      case Ok(Some(kept)) => Identified(s, Measured(s, kept, a.bytes))
  }

  /** The arrivals that are accepted, in order. */
  function Kept(s: Stages, es: seq<Arrival>): seq<Arrival> {
    if es == [] then [] else
    var n := |es| - 1;
    Kept(s, es[..n]) + (if FateOf(s, es[n]).Accepted? then [es[n]] else [])
  }

  function Count(s: Stages, es: seq<Arrival>, which: Fate -> bool): nat {
    if es == [] then 0 else
    var n := |es| - 1;
    Count(s, es[..n], which) + (if which(FateOf(s, es[n])) then 1 else 0)
  }

  /** The refusals: which event of the request, and why. */
  function Refusals(s: Stages, es: seq<Arrival>): seq<(nat, string)> {
    if es == [] then [] else
    var n := |es| - 1;
    Refusals(s, es[..n]) + (match FateOf(s, es[n]) case Rejected(why) => [(n, why)] case _ => [])
  }

  function IsArchived(): Fate -> bool { (f: Fate) => f.Archived? }

  // ----- what becomes of an event, stage by stage ---------------------------------------------

  /** The stage is absent and leaves the event alone, or lets it through as this. */
  predicate Lets(stage: Option<Shaper>, e: nat, through: nat) {
    if stage.None? then through == e else stage.value(e) == Ok(Some(through))
  }

  predicate Refuses(stage: Option<Shaper>, e: nat, why: string) { stage.Some? && stage.value(e) == Err(why) }

  predicate KeepsOut(stage: Option<Shaper>, e: nat) { stage.Some? && stage.value(e) == Ok(None) }

  /** What the sink's admission and the identity see of an event, and the key it was measured by. */
  ghost predicate Reaches(s: Stages, a: Arrival, key: string, e: nat) {
    exists hooked: nat, kept: nat ::
      && Lets(s.hook, a.event, hooked) && Lets(s.big, hooked, kept)
      && (key, e) == if s.measure.Some? then s.measure.value(kept, a.bytes) else ("", kept)
  }

  /** What a stage lets through, if it does. */
  function Through(stage: Option<Shaper>, e: nat): Option<nat> {
    if stage.None? then Some(e) else match stage.value(e) case Ok(through) => through case Err(_) => None
  }

  lemma ThroughIs(stage: Option<Shaper>, e: nat)
    ensures forall through: nat :: Lets(stage, e, through) <==> Through(stage, e) == Some(through)
  {
  }

  lemma ReachesAll(s: Stages, a: Arrival) returns (reached: bool, key: string, e: nat)
    ensures reached <==> Through(s.hook, a.event).Some? && Through(s.big, Through(s.hook, a.event).value).Some?
    ensures reached ==> Reaches(s, a, key, e) && FateOf(s, a) == Identified(s, (key, e))
    ensures forall k, f: nat | Reaches(s, a, k, f) :: reached && k == key && f == e
  {
    reached, key, e := false, "", 0;
    ThroughIs(s.hook, a.event);
    if Through(s.hook, a.event).Some? {
      var hooked := Through(s.hook, a.event).value;
      ThroughIs(s.big, hooked);
      if Through(s.big, hooked).Some? {
        var kept := Through(s.big, hooked).value;
        var measured := if s.measure.Some? then s.measure.value(kept, a.bytes) else ("", kept);
        reached, key, e := true, measured.0, measured.1;
        assert Lets(s.hook, a.event, hooked) && Lets(s.big, hooked, kept) && (key, e) == measured;
      }
    }
  }

  /** An event is accepted exactly when the hook and the archive let it through, the sink's admission does not
      refuse it as it was measured, and it can be identified; under the key it was measured by. */
  lemma AcceptedExactlyThen(s: Stages, a: Arrival, envelope: nat, key: string)
    ensures FateOf(s, a) == Accepted(envelope, key) <==>
      exists e: nat ::
        Reaches(s, a, key, e) && (s.admit.None? || s.admit.value(e).None?) && s.identify(e) == Ok(envelope)
  {
    var reached, k, f := ReachesAll(s, a);
  }

  /** It is rejected exactly by the first of them that will not have it: the hook, the archive, the admission, the
      identity. */
  lemma RejectedExactlyThen(s: Stages, a: Arrival, why: string)
    ensures FateOf(s, a) == Rejected(why) <==>
      || Refuses(s.hook, a.event, why)
      || (exists hooked: nat :: Lets(s.hook, a.event, hooked) && Refuses(s.big, hooked, why))
      || (exists key, e: nat :: Reaches(s, a, key, e) &&
            if s.admit.Some? && s.admit.value(e).Some? then s.admit.value(e).value == why
            else s.identify(e) == Err(why))
  {
    var reached, k, f := ReachesAll(s, a);
    ThroughIs(s.hook, a.event);
    if Through(s.hook, a.event).Some? { assert Lets(s.hook, a.event, Through(s.hook, a.event).value); }
  }

  /** And it is kept out on purpose by the hook, or by the archive. */
  lemma KeptOutExactlyThen(s: Stages, a: Arrival)
    ensures FateOf(s, a) == Dropped <==> KeepsOut(s.hook, a.event)
    ensures FateOf(s, a) == Archived <==> exists hooked: nat :: Lets(s.hook, a.event, hooked) && KeepsOut(s.big, hooked)
  {
    if FateOf(s, a) == Archived {
      var hooked := if s.hook.None? then a.event else s.hook.value(a.event).value.value;
      assert Lets(s.hook, a.event, hooked);
    }
  }

  // ----- and of a request ---------------------------------------------------------------------

  /** The accepted are all of them, in the order they came. */
  lemma {:induction false} KeptSelects(s: Stages, es: seq<Arrival>)
    ensures Selects(es, Kept(s, es), set i: nat | i < |es| && FateOf(s, es[i]).Accepted?)
  {
    if es == [] {
      SelectsNothing<Arrival>();
    } else {
      var n := |es| - 1;
      var front, last := es[..n], es[n];
      KeptSelects(s, front);
      var before := set i: nat | i < n && FateOf(s, front[i]).Accepted?;
      var all := set i: nat | i < |es| && FateOf(s, es[i]).Accepted?;
      assert es == front + [last];
      if FateOf(s, last).Accepted? {
        assert all == before + {n};
        SelectsOneMore(front, Kept(s, front), before, last);
      } else {
        assert all == before && Kept(s, es) == Kept(s, front);
        SelectsNoMore(front, Kept(s, front), before, last);
      }
    }
  }

  /** The refusals are under the places of their events, by increasing place. */
  lemma {:induction false} RefusalsAre(s: Stages, es: seq<Arrival>)
    ensures forall i: nat, why :: (i, why) in Refusals(s, es) <==> i < |es| && FateOf(s, es[i]) == Rejected(why)
    ensures forall j, k | 0 <= j < k < |Refusals(s, es)| :: Refusals(s, es)[j].0 < Refusals(s, es)[k].0
  {
    if es != [] {
      var n := |es| - 1;
      RefusalsAre(s, es[..n]);
      var before := Refusals(s, es[..n]);
      forall j | 0 <= j < |before| ensures before[j].0 < n { assert (before[j].0, before[j].1) in before; }
    }
  }

  /** Those counted are those there are. */
  lemma {:induction false} CountIs(s: Stages, es: seq<Arrival>, which: Fate -> bool)
    ensures Count(s, es, which) == |set i: nat | i < |es| && which(FateOf(s, es[i]))|
  {
    if es != [] {
      var n := |es| - 1;
      CountIs(s, es[..n], which);
      var before := set i: nat | i < n && which(FateOf(s, es[..n][i]));
      var all := set i: nat | i < |es| && which(FateOf(s, es[i]));
      assert all == before + if which(FateOf(s, es[n])) then {n} else {};
    }
  }

  /** The survivors: an envelope, the bytes it arrived as and its key, at one place of three lists. */
  ghost predicate Survivors(s: Stages, kept: seq<Arrival>, p: Prepared) {
    && p.Aligned() && |p.events| == |kept| && (p.keys.Some? <==> s.measure.Some?)
    && forall i | 0 <= i < |kept| ::
         FateOf(s, kept[i]) == Accepted(p.events[i], p.KeyAt(i)) && p.sizes[i] == kept[i].bytes
  }

  lemma OneMoreSurvivor(s: Stages, kept: seq<Arrival>, p: Prepared, a: Arrival, q: Prepared)
    requires Survivors(s, kept, p) && FateOf(s, a).Accepted?
    requires q.events == p.events + [FateOf(s, a).envelope] && q.sizes == p.sizes + [a.bytes]
    requires q.keys == if p.keys.Some? then Some(p.keys.value + [FateOf(s, a).key]) else None
    ensures Survivors(s, kept + [a], q)
  {
    forall i | 0 <= i < |kept| + 1
      ensures FateOf(s, (kept + [a])[i]) == Accepted(q.events[i], q.KeyAt(i)) && q.sizes[i] == (kept + [a])[i].bytes
    {
      if i < |kept| { assert (kept + [a])[i] == kept[i] && q.KeyAt(i) == p.KeyAt(i); }
    }
  }

  /** One event through the stages, each of which may end it. */
  method Judge(s: Stages, a: Arrival) returns (fate: Fate)
    ensures fate == FateOf(s, a)
  {
    var e := a.event;
    if s.hook.Some? {
      var shaped := s.hook.value(e);
      if shaped.Err? { return Rejected(shaped.error); }
      if shaped.value.None? { return Dropped; }
      e := shaped.value.value;
    }
    if s.big.Some? {
      var kept := s.big.value(e);
      if kept.Err? { return Rejected(kept.error); }
      if kept.value.None? { return Archived; }
      e := kept.value.value;
    }
    var key := "";
    if s.measure.Some? {
      var measured := s.measure.value(e, a.bytes);
      key, e := measured.0, measured.1;
    }
    if s.admit.Some? {
      var refused := s.admit.value(e);
      if refused.Some? { return Rejected(refused.value); }
    }
    var envelope := s.identify(e);
    if envelope.Err? { return Rejected(envelope.error); }
    fate := Accepted(envelope.value, key);
  }

  /** `prepare`: a request leaves its accepted events with their sizes and keys side by side, in the order they came,
      and each refusal under the place of its event. */
  method Prepare(s: Stages, es: seq<Arrival>) returns (p: Prepared, rejected: seq<(nat, string)>, archived: nat)
    ensures Survivors(s, Kept(s, es), p)
    ensures rejected == Refusals(s, es) && archived == Count(s, es, IsArchived())
  {
    p := Prepared([], [], if s.measure.Some? then Some([]) else None);
    rejected, archived := [], 0;
    var i := 0;
    while i < |es|
      invariant 0 <= i <= |es| && Survivors(s, Kept(s, es[..i]), p)
      invariant rejected == Refusals(s, es[..i]) && archived == Count(s, es[..i], IsArchived())
    {
      assert es[..i + 1][..i] == es[..i];
      var fate := Judge(s, es[i]);
      match fate {
        case Rejected(why) => rejected := rejected + [(i, why)];
        case Dropped =>
        case Archived => archived := archived + 1;
        case Accepted(envelope, key) =>
          var q := Prepared(p.events + [envelope], p.sizes + [es[i].bytes],
                            if p.keys.Some? then Some(p.keys.value + [key]) else None);
          OneMoreSurvivor(s, Kept(s, es[..i]), p, es[i], q);
          p := q;
      }
      i := i + 1;
    }
    assert es[..|es|] == es;
  }
}
