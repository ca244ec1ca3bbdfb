/** What the agent promises, on every run of any number of goroutines. */
module AgentGuarantees {
  import opened Outcomes
  import opened AgentProtocol

  ghost predicate Reachable(s: State) {
    exists trace, i: nat :: Run(trace) && i < |trace| && trace[i] == s
  }

  lemma ReachableKept(s: State)
    requires Reachable(s)
    ensures Kept(s)
  {
    var trace, i: nat :| Run(trace) && i < |trace| && trace[i] == s;
    RunKept(trace, i);
  }

  lemma StepOf(trace: seq<State>, i: nat) returns (a: Action)
    requires Run(trace) && i + 1 < |trace|
    ensures Enabled(trace[i], a) && trace[i + 1] == Apply(trace[i], a)
  {
    assert Step(trace[i], trace[i + 1]);
    a :| Enabled(trace[i], a) && trace[i + 1] == Apply(trace[i], a);
  }

  // ----- the table ----------------------------------------------------------------------------

  /** An id has at most one reservation, so at most one process, and a process is always in `runs`, where a resume
      or a cancel finds it. */
  lemma OneProcessPerId(s: State)
    requires Reachable(s)
    ensures s.table.runs.Keys !! s.table.finished.Keys
    ensures forall t, u | t in s.threads && u in s.threads && Owns(s.threads[t]) && Owns(s.threads[u]) ::
      s.threads[t].id == s.threads[u].id ==> t == u
    ensures forall e | e in s.live :: exists id | id in s.table.runs :: s.table.runs[id] == e
  {
    ReachableKept(s);
    forall e | e in s.live ensures exists id | id in s.table.runs :: s.table.runs[id] == e {
      var t :| t in s.threads && s.threads[t].Running? && s.threads[t].e == e;
      assert s.table.runs[s.threads[t].id] == e;
    }
  }

  /** The id of a spawned execution names it at every instant up to the end of its exit goroutine, whoever else
      starts, resumes, cancels or prunes: only the prune of that last step can leave it out. */
  lemma SpawnedIsNamed(s: State, u: int, t: int, k: Choice)
    requires Reachable(s) && u in s.threads && (s.threads[u].Running? || s.threads[u].Exited?) && May(s, t, k)
    ensures Named(s.table, s.threads[u].id) == Some(s.threads[u].e)
    ensures Named(Next(s, t, k).table, s.threads[u].id) != Some(s.threads[u].e) ==>
              t == u && s.threads[u].Exited? && s.threads[u].id in k.drop
  {
    ReachableKept(s);
    NextTabled(s, t, k);
  }

  predicate Reserves(table: Table, pc: Pc, id: string) {
    pc.Starting? && pc.id == id && !table.draining && id !in table.runs
  }

  /** A step that lets go of an id: its prune drops it, and it does not reserve the id itself; or it gives up the start
      that reserved it. */
  predicate GivesUp(table: Table, pc: Pc, drop: set<string>, id: string, e: Exec) {
    || (Prunes(pc) && id in drop && (id in table.finished || pc == Exited(id, e)) && !Reserves(table, pc, id))
    || pc == Abandoning(id, e)
  }

  lemma NamedNext(table: Table, pc: Pc, k: Choice, id: string, e: Exec)
    requires Named(table, id) == Some(e) && table.runs.Keys !! table.finished.Keys
    requires Owns(pc) ==> pc.id in table.runs && table.runs[pc.id] == pc.e
    ensures Named(TableNext(table, pc, k), id) ==
      if GivesUp(table, pc, k.drop, id, e) then None else if Reserves(table, pc, id) then Some(pc.e) else Some(e)
  {
  }

  /** What an id names after any step: nothing exactly when the step lets go of the id, the new execution exactly when
      it reserves it, and otherwise what it named. */
  lemma NamedUntilLetGo(s: State, a: Action, id: string, e: Exec)
    requires Reachable(s) && Enabled(s, a) && Named(s.table, id) == Some(e)
    ensures Named(Apply(s, a).table, id) ==
      if a.Go? && GivesUp(s.table, s.threads[a.t], a.k.drop, id, e) then None
      else if a.Go? && Reserves(s.table, s.threads[a.t], id) then Some(s.threads[a.t].e)
      else Some(e)
  {
    ReachableKept(s);
    if a.Go? { NamedNext(s.table, s.threads[a.t], a.k, id, e); }
  }

  // ----- the drain ----------------------------------------------------------------------------

  /** What `Drain` fixes stays fixed, and nothing joins `runs` after it. */
  lemma {:induction false} AwaitedIsFixed(trace: seq<State>, i: nat, j: nat)
    requires Run(trace) && i <= j < |trace| && trace[i].table.draining
    ensures trace[j].table.draining && trace[j].table.awaited == trace[i].table.awaited
    ensures trace[j].table.runs.Keys <= trace[i].table.runs.Keys
  {
    if i < j {
      AwaitedIsFixed(trace, i, j - 1);
      assert Step(trace[j - 1], trace[j - 1 + 1]);
    }
  }

  /** `Wait` returns nil only when every execution awaited is settled. */
  lemma NilMeansSettled(s: State, t: int)
    requires Reachable(s) && t in s.threads && s.threads[t] == Returned({})
    ensures s.table.draining
    ensures forall id | id in s.table.awaited :: s.table.awaited[id] in s.settled
  {
    ReachableKept(s);
    assert Looked(s.table.awaited, s.settled, s.threads[t]);
  }

  /** No lost wake-up: a waiter that found an execution unsettled wakes once it is settled. Its channel is closed by
      then, unless the one goroutine that flipped the flag has not reached the close yet -- a second settler, which
      finds the flag set, may return before that. */
  lemma NoLostWakeup(s: State, w: int, id: string)
    requires Reachable(s) && w in s.threads && s.threads[w].Blocked? && id in s.threads[w].ids
    ensures id in s.table.awaited
    ensures s.table.awaited[id] in s.settled && !OnItsWay(s.threads, s.table.awaited[id]) ==>
              s.threads[w].channel in s.bell.shut && forall k: Choice :: May(s, w, k)
  {
    ReachableKept(s);
    assert Captures(s.threads[w]) && Heard(s.table.awaited, s.settled, s.bell.shut, s.threads, s.threads[w]);
  }

  /** Exactly when a waiter is still asleep though something it found unsettled is settled: the settler that flipped
      that flag has not closed the channel yet, nobody has since the scan, and nobody is about to replace it. */
  lemma AsleepExactlyThen(s: State, w: int, id: string)
    requires Reachable(s) && w in s.threads && s.threads[w].Blocked? && id in s.threads[w].ids
    requires id in s.table.awaited && s.table.awaited[id] in s.settled
    ensures s.threads[w].channel !in s.bell.shut <==>
      && OnItsWay(s.threads, s.table.awaited[id])
      && s.threads[w].channel == s.bell.changed
      && forall t | t in s.threads :: !s.threads[t].Replacing?
  {
    ReachableKept(s);
    NoLostWakeup(s, w, id);
  }

  /** With everything awaited settled and every settle past its close, no waiter is left blocked. */
  lemma AllSettledWakes(s: State, w: int)
    requires Reachable(s) && w in s.threads && s.threads[w].Blocked?
    requires forall id | id in s.table.awaited ::
      s.table.awaited[id] in s.settled && !OnItsWay(s.threads, s.table.awaited[id])
    ensures s.threads[w].channel in s.bell.shut
  {
    ReachableKept(s);
    assert Looked(s.table.awaited, s.settled, s.threads[w]);
    var id :| id in s.threads[w].ids;
    NoLostWakeup(s, w, id);
  }

  /** The channel is never closed twice. */
  lemma NeverPanics(s: State)
    requires Reachable(s)
    ensures !s.bell.panicked
  {
    ReachableKept(s);
  }

  predicate Holds(pc: Pc) { HoldsAgent(pc) || HoldsExec(pc) }

  /** The lock order has no cycle: whenever a lock is held, some goroutine holding one can go on. */
  lemma SomeHolderGoesOn(s: State, t: int)
    requires Reachable(s) && t in s.threads && Holds(s.threads[t])
    ensures exists u, k :: May(s, u, k) && Holds(s.threads[u])
  {
    ReachableKept(s);
    var pc := s.threads[t];
    var k := Choice({}, true, "", 0);
    if pc.Scanning? && pc.left != {} {
      assert Looked(s.table.awaited, s.settled, pc);
      var id :| id in pc.left;
      var e := s.table.awaited[id];
      if e in s.locks.execs {
        var u := s.locks.execs[e];
        assert !s.threads[u].Peeking?;
        assert May(s, u, k);
      } else {
        assert May(s, t, k.(id := id));
      }
    } else {
      assert May(s, t, k);
    }
  }
}
