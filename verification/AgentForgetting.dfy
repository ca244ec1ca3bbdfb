/** What a prune can do to a drain: when exactly an awaited execution gets out of everybody's reach. */
module AgentForgetting {
  import opened AgentProtocol
  import opened AgentGuarantees

  /** A drain awaits this one, and nobody has settled it. */
  predicate Owed(s: State, e: Exec) {
    s.table.draining && e !in s.settled && exists id | id in s.table.awaited :: s.table.awaited[id] == e
  }

  predicate Names(m: Execs, id: string, e: Exec) { id in m && m[id] == e }

  /** No id leads to it. */
  ghost predicate Unnamed(table: Table, e: Exec) {
    forall id: string :: !Names(table.runs, id, e) && !Names(table.finished, id, e)
  }

  /** This goroutine has it, and may come to settle it. */
  predicate About(pc: Pc, e: Exec) {
    && (Builds(pc) || pc.Reading? || pc.Settling? || pc.Marking? || pc.Marked? || pc.Waking? || pc.Closing?)
    && pc.e == e
  }

  /** Nobody can settle this one any more: no id leads to it, and no goroutine has it. */
  ghost predicate Forgotten(s: State, e: Exec) {
    Owed(s, e) && e in s.made && Unnamed(s.table, e) && forall t | t in s.threads :: !About(s.threads[t], e)
  }

  // ----- what the states it can happen in keep ------------------------------------------------

  /** A settler past the flag has set it; what a drain awaits is built, and no start still has it in hand. */
  ghost predicate Told(s: State) {
    && (forall t | t in s.threads && (s.threads[t].Marked? || s.threads[t].Waking? || s.threads[t].Closing?) ::
          s.threads[t].e in s.settled)
    && (forall id | id in s.table.awaited :: s.table.awaited[id] in s.made)
    && (forall t, id | t in s.threads && id in s.table.awaited && s.threads[t].Starting? ::
          s.threads[t].e != s.table.awaited[id])
  }

  lemma DrainTold(s: State, t: int, k: Choice)
    requires Kept(s) && Told(s) && May(s, t, k) && s.threads[t].ToDrain?
    ensures Told(Next(s, t, k))
  {
    forall id | id in s.table.runs
      ensures s.table.runs[id] in s.made
      ensures forall u | u in s.threads && s.threads[u].Starting? :: s.threads[u].e != s.table.runs[id]
    {
      var u :| u in s.threads && Owns(s.threads[u]) && s.threads[u].id == id && s.threads[u].e == s.table.runs[id];
    }
  }

  lemma NextTold(s: State, t: int, k: Choice)
    requires Told(s) && May(s, t, k) && !s.threads[t].ToDrain?
    ensures Told(Next(s, t, k))
  {
  }

  lemma StepTold(s: State, a: Action)
    requires Kept(s) && Told(s) && Enabled(s, a)
    ensures Told(Apply(s, a))
  {
    if a.Go? {
      if s.threads[a.t].ToDrain? { DrainTold(s, a.t, a.k); } else { NextTold(s, a.t, a.k); }
    }
  }

  lemma {:induction false} RunTold(trace: seq<State>, i: nat)
    requires Run(trace) && i < |trace|
    ensures Kept(trace[i]) && Told(trace[i])
  {
    RunKept(trace, i);
    if i > 0 {
      RunTold(trace, i - 1);
      var a := StepOf(trace, i - 1);
      StepTold(trace[i - 1], a);
    }
  }

  lemma ReachableTold(s: State)
    requires Reachable(s)
    ensures Kept(s) && Told(s)
  {
    var trace, i: nat :| Run(trace) && i < |trace| && trace[i] == s;
    RunTold(trace, i);
  }

  // ----- when exactly it happens --------------------------------------------------------------

  /** No other goroutine has it. */
  predicate Alone(threads: Threads, t: int, e: Exec) {
    forall u | u in threads && u != t :: !About(threads[u], e)
  }

  /** The prune of this step drops every id that would name it afterwards. */
  ghost predicate DropsItsNames(table: Table, pc: Pc, drop: set<string>, e: Exec) {
    && Prunes(pc)
    && (forall id | Names(table.runs, id, e) :: pc == Exited(id, e) && id in drop)
    && (forall id | Names(table.finished, id, e) :: id in drop)
  }

  /** Seen before the step: a prune takes its last name while nobody else has it, or the last reader of one that has
      no name any more gives up. */
  ghost predicate Forgets(s: State, t: int, k: Choice, e: Exec)
    requires t in s.threads
  {
    && Alone(s.threads, t, e)
    && (DropsItsNames(s.table, s.threads[t], k.drop, e) || (s.threads[t] == Reading(e) && !k.ok && Unnamed(s.table, e)))
  }

  lemma DroppedAllNames(s: State, t: int, k: Choice, e: Exec)
    requires Kept(s) && s.table.draining && May(s, t, k) && Prunes(s.threads[t]) && Unnamed(Next(s, t, k).table, e)
    ensures DropsItsNames(s.table, s.threads[t], k.drop, e)
  {
    var n, pc := Next(s, t, k), s.threads[t];
    forall id | Names(s.table.runs, id, e) ensures pc == Exited(id, e) && id in k.drop {
      assert !Names(n.table.runs, id, e);
      assert pc.Exited? && s.table.runs[pc.id] == pc.e;
      assert !Names(n.table.finished, id, e);
    }
    forall id | Names(s.table.finished, id, e) ensures id in k.drop { assert !Names(n.table.finished, id, e); }
  }

  lemma ForgetsIfForgotten(s: State, t: int, k: Choice, e: Exec)
    requires Kept(s) && Told(s) && Owed(s, e) && !Forgotten(s, e) && May(s, t, k) && Forgotten(Next(s, t, k), e)
    ensures Forgets(s, t, k, e)
  {
    var n, pc := Next(s, t, k), s.threads[t];
    forall u | u in s.threads && u != t ensures !About(s.threads[u], e) { assert n.threads[u] == s.threads[u]; }
    assert !About(n.threads[t], e);
    if Prunes(pc) {
      DroppedAllNames(s, t, k, e);
    } else {
      assert n.table.finished == s.table.finished;
      assert forall id :: Names(s.table.runs, id, e) ==> Names(n.table.runs, id, e);
      assert Unnamed(s.table, e);
    }
  }

  lemma ForgottenIfForgets(s: State, t: int, k: Choice, e: Exec)
    requires Kept(s) && Told(s) && Owed(s, e) && May(s, t, k) && Forgets(s, t, k, e)
    ensures Forgotten(Next(s, t, k), e)
  {
  }

  /** A goroutine that arrives forgets nothing. */
  lemma ArrivalsForgetNothing(s: State, t: int, pc: Pc, e: Exec)
    requires Told(s) && Owed(s, e) && Enabled(s, Arrive(t, pc)) && Forgotten(Apply(s, Arrive(t, pc)), e)
    ensures Forgotten(s, e)
  {
    var n := Apply(s, Arrive(t, pc));
    forall u | u in s.threads ensures !About(s.threads[u], e) { assert n.threads[u] == s.threads[u]; }
  }

  /** Whatever happens next, an awaited execution not settled yet gets out of reach exactly when it is a goroutine's
      step that forgets it. */
  lemma ForgottenExactlyThen(s: State, a: Action, e: Exec)
    requires Reachable(s) && Owed(s, e) && !Forgotten(s, e) && Enabled(s, a)
    ensures Forgotten(Apply(s, a), e) <==> a.Go? && Forgets(s, a.t, a.k, e)
  {
    ReachableTold(s);
    match a
    case Arrive(t, pc) => if Forgotten(Apply(s, a), e) { ArrivalsForgetNothing(s, t, pc, e); }
    case Go(t, k) =>
      if Forgotten(Next(s, t, k), e) { ForgetsIfForgotten(s, t, k, e); }
      if Forgets(s, t, k, e) { ForgottenIfForgets(s, t, k, e); }
  }

  // ----- once it has happened -----------------------------------------------------------------

  lemma ForgottenStep(s: State, a: Action, e: Exec)
    requires Forgotten(s, e) && Enabled(s, a)
    ensures Forgotten(Apply(s, a), e)
  {
    var n := Apply(s, a);
    forall id: string ensures !Names(n.table.runs, id, e) && !Names(n.table.finished, id, e) {
      assert !Names(s.table.runs, id, e) && !Names(s.table.finished, id, e);
    }
    if a.Go? && s.threads[a.t].Looking? {
      var id := s.threads[a.t].id;
      assert !Names(s.table.runs, id, e) && !Names(s.table.finished, id, e);
    }
    forall u | u in n.threads ensures !About(n.threads[u], e) {
      if u in s.threads { assert !About(s.threads[u], e); }
      if a.Go? { assert !About(s.threads[a.t], e); }
    }
  }

  lemma ForgottenIsNotReturned(s: State, e: Exec)
    requires Reachable(s) && Forgotten(s, e)
    ensures forall t | t in s.threads :: s.threads[t] != Returned({})
  {
    forall t | t in s.threads ensures s.threads[t] != Returned({}) {
      if s.threads[t] == Returned({}) { NilMeansSettled(s, t); }
    }
  }

  /** An execution out of reach keeps `Wait` from ever returning nil: from then on the drain can only be cut short. */
  lemma {:induction false} ForgottenIsWaitedForEver(trace: seq<State>, i: nat, j: nat, e: Exec)
    requires Run(trace) && i <= j < |trace| && Forgotten(trace[i], e)
    ensures Forgotten(trace[j], e)
    ensures forall t | t in trace[j].threads :: trace[j].threads[t] != Returned({})
  {
    if i < j {
      ForgottenIsWaitedForEver(trace, i, j - 1, e);
      var a := StepOf(trace, j - 1);
      ForgottenStep(trace[j - 1], a, e);
    }
    assert Reachable(trace[j]);
    ForgottenIsNotReturned(trace[j], e);
  }

  // ----- and that it takes a prune ------------------------------------------------------------

  /** An id leads to it, or a goroutine is on its way to settle it and cannot give up. */
  ghost predicate Held(s: State, e: Exec) {
    || (exists id :: Names(s.table.runs, id, e))
    || (exists id :: Names(s.table.finished, id, e))
    || (exists t | t in s.threads :: s.threads[t] == Settling(e) || s.threads[t] == Marking(e))
  }

  /** A prune that lets go of an id while it names this one. */
  predicate Drops(s: State, t: int, k: Choice, e: Exec) {
    && t in s.threads && Prunes(s.threads[t])
    && exists id | id in k.drop :: Names(s.table.finished, id, e) || s.threads[t] == Exited(id, e)
  }

  lemma NamedStaysHeld(s: State, t: int, k: Choice, e: Exec, id: string)
    requires Kept(s) && Owed(s, e) && May(s, t, k) && !Drops(s, t, k, e)
    requires Names(s.table.runs, id, e) || Names(s.table.finished, id, e)
    ensures Held(Next(s, t, k), e)
  {
    var n, pc := Next(s, t, k), s.threads[t];
    if Names(s.table.runs, id, e) && (pc == Exited(id, e) || pc == Abandoning(id, e)) {
      if pc.Exited? {
        assert Names(n.table.finished, id, e);
      } else {
        assert n.threads[t] == Settling(e);
      }
    } else if Names(s.table.runs, id, e) {
      assert Names(n.table.runs, id, e);
    } else {
      assert Names(n.table.finished, id, e);
    }
  }

  lemma HeldStep(s: State, t: int, k: Choice, e: Exec)
    requires Kept(s) && Owed(s, e) && Held(s, e) && May(s, t, k) && !Drops(s, t, k, e) && e !in Next(s, t, k).settled
    ensures Held(Next(s, t, k), e)
  {
    var n := Next(s, t, k);
    if id :| Names(s.table.runs, id, e) {
      NamedStaysHeld(s, t, k, e, id);
    } else if id :| Names(s.table.finished, id, e) {
      NamedStaysHeld(s, t, k, e, id);
    } else {
      var u :| u in s.threads && (s.threads[u] == Settling(e) || s.threads[u] == Marking(e));
      assert n.threads[u] == Settling(e) || n.threads[u] == Marking(e);
    }
  }

  /** What a drain comes to await is named. */
  lemma DrainHolds(s: State, t: int, k: Choice, e: Exec)
    requires Kept(s) && May(s, t, k) && !Owed(s, e) && Owed(Next(s, t, k), e)
    ensures Held(Next(s, t, k), e)
  {
    var n := Next(s, t, k);
    var id :| id in n.table.awaited && n.table.awaited[id] == e;
    assert s.threads[t].ToDrain? && Names(n.table.runs, id, e);
  }

  /** The step the run takes here is a prune that lets go of it, while the drain awaits it and nobody has settled
      it. */
  ghost predicate DroppedAt(trace: seq<State>, i: nat, e: Exec)
    requires i + 1 < |trace|
  {
    && Owed(trace[i], e)
    && exists t, k :: May(trace[i], t, k) && Drops(trace[i], t, k, e) && trace[i + 1] == Next(trace[i], t, k)
  }

  ghost predicate DroppedBefore(trace: seq<State>, j: nat, e: Exec)
    requires j < |trace|
  {
    exists i: nat | i < j :: DroppedAt(trace, i, e)
  }

  lemma HeldActionOrDrops(s: State, a: Action, e: Exec)
    requires Kept(s) && Owed(s, e) && Held(s, e) && Enabled(s, a) && Owed(Apply(s, a), e)
    ensures Held(Apply(s, a), e) || (a.Go? && Drops(s, a.t, a.k, e))
  {
    match a
    case Go(t, k) => if !Drops(s, t, k, e) { HeldStep(s, t, k, e); }
    case Arrive(t, pc) =>
      if u :| u in s.threads && (s.threads[u] == Settling(e) || s.threads[u] == Marking(e)) {
        assert Apply(s, a).threads[u] == s.threads[u];
      }
  }

  lemma {:induction false} HeldOrDropped(trace: seq<State>, j: nat, e: Exec)
    requires Run(trace) && j < |trace| && Owed(trace[j], e)
    ensures Held(trace[j], e) || DroppedBefore(trace, j, e)
  {
    if j > 0 {
      RunKept(trace, j - 1);
      var a := StepOf(trace, j - 1);
      var s := trace[j - 1];
      if !Owed(s, e) {
        DrainHolds(s, a.t, a.k, e);
      } else {
        HeldOrDropped(trace, j - 1, e);
        if Held(s, e) {
          HeldActionOrDrops(s, a, e);
          if !Held(trace[j], e) {
            assert trace[j - 1 + 1] == Next(s, a.t, a.k);
            assert DroppedAt(trace, j - 1, e);
          }
        }
      }
    }
  }

  /** No execution is ever forgotten unless a prune the run made let go of it while the drain awaited it and it was
      unsettled: with retention that outlasts the drain, none is. */
  lemma ForgettingTakesADrop(trace: seq<State>, j: nat, e: Exec)
    requires Run(trace) && j < |trace| && Forgotten(trace[j], e)
    ensures DroppedBefore(trace, j, e)
  {
    HeldOrDropped(trace, j, e);
    assert !Held(trace[j], e);
  }
}
