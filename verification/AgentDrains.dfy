/** What can still happen: an execution a drain awaits can still be settled, and the drain can still end, exactly as
    long as nothing it awaits has been forgotten. */
module AgentDrains {
  import opened Outcomes
  import opened AgentProtocol
  import opened AgentGuarantees
  import opened AgentForgetting

  /** Steps of any goroutines lead from one state to the other. */
  ghost predicate Leads(s: State, n: State) {
    exists trace, i: nat, j: nat :: Run(trace) && i <= j < |trace| && trace[i] == s && trace[j] == n
  }

  lemma Stays(s: State)
    requires Reachable(s)
    ensures Leads(s, s)
  {
  }

  lemma LeadsThere(s: State, n: State)
    requires Leads(s, n)
    ensures Reachable(s) && Reachable(n)
  {
  }

  lemma OneStepOn(s: State, m: State, a: Action)
    requires Leads(s, m) && Enabled(m, a)
    ensures Leads(s, Apply(m, a))
  {
    var trace, i: nat, j: nat :| Run(trace) && i <= j < |trace| && trace[i] == s && trace[j] == m;
    var longer := trace[..j + 1] + [Apply(m, a)];
    forall k | 0 <= k < |longer| - 1 ensures Step(longer[k], longer[k + 1]) {
      if k < j { assert Step(trace[k], trace[k + 1]); }
    }
    assert Run(longer) && longer[i] == s && longer[j + 1] == Apply(m, a);
  }

  // ----- the runs of the proof: nothing dropped, and the outside world kind -------------------

  predicate Awaited(s: State, e: Exec) {
    s.table.draining && exists id | id in s.table.awaited :: s.table.awaited[id] == e
  }

  /** In `Wait`, and not given up. */
  predicate Hoping(pc: Pc) { Waits(pc) && (pc.Returned? ==> pc.ids == {}) }

  /** On the way nothing is forgotten, and no waiter gives up. */
  ghost predicate Well(s: State, n: State) {
    && Leads(s, n) && n.table.draining && n.table.awaited == s.table.awaited && s.settled <= n.settled
    && (forall e | Awaited(s, e) && !Forgotten(s, e) :: !Forgotten(n, e))
    && (forall w | w in s.threads && Hoping(s.threads[w]) :: w in n.threads && Hoping(n.threads[w]))
  }

  predicate Kind(a: Action) { a.Go? ==> a.k.ok && a.k.drop == {} }

  lemma WellStays(s: State)
    requires Reachable(s) && s.table.draining
    ensures Well(s, s)
  {
    Stays(s);
  }

  lemma NotForgottenByKindness(m: State, a: Action, e: Exec)
    requires Reachable(m) && Awaited(m, e) && !Forgotten(m, e) && Enabled(m, a) && Kind(a)
    ensures !Forgotten(Apply(m, a), e)
  {
    ReachableTold(m);
    if e !in m.settled {
      ForgottenExactlyThen(m, a, e);
      if a.Go? && Forgets(m, a.t, a.k, e) {
        assert Unnamed(m.table, e);
      }
    }
  }

  lemma LeadsOn(s: State, m: State, n: State)
    requires Leads(s, m) && Leads(m, n)
    ensures Leads(s, n)
  {
    var xs, i: nat, j: nat :| Run(xs) && i <= j < |xs| && xs[i] == s && xs[j] == m;
    var ys, k: nat, l: nat :| Run(ys) && k <= l < |ys| && ys[k] == m && ys[l] == n;
    var zs := xs[..j + 1] + ys[k + 1..];
    forall h | 0 <= h < |zs| - 1 ensures Step(zs[h], zs[h + 1]) {
      if h < j { assert Step(xs[h], xs[h + 1]); } else { assert Step(ys[h - j + k], ys[h - j + k + 1]); }
    }
    assert Run(zs) && zs[i] == s && zs[j + l - k] == n;
  }

  lemma WellOn(s: State, m: State, n: State)
    requires Well(s, m) && Well(m, n)
    ensures Well(s, n)
  {
    LeadsOn(s, m, n);
    LeadsThere(s, m);
    ReachableKept(s);
    forall e | Awaited(s, e) && !Forgotten(s, e) ensures !Forgotten(n, e) { assert Awaited(m, e); }
  }

  /** One more kind step. */
  lemma Goes(s: State, m: State, a: Action) returns (n: State)
    requires Well(s, m) && Enabled(m, a) && Kind(a)
    ensures n == Apply(m, a) && Well(s, n)
  {
    n := Apply(m, a);
    OneStepOn(s, m, a);
    LeadsThere(s, m);
    forall e | Awaited(s, e) && !Forgotten(s, e) ensures !Forgotten(n, e) {
      NotForgottenByKindness(m, a, e);
    }
  }

  function Easy(t: int): Action { Go(t, Choice({}, true, "", 0)) }

  // ----- locks are let go ---------------------------------------------------------------------

  lemma LetsExecGo(s: State, m: State, e: Exec) returns (n: State)
    requires Well(s, m) && e in m.locks.execs
    ensures Well(s, n) && n.locks.execs == m.locks.execs - {e}
  {
    LeadsThere(s, m);
    ReachableKept(m);
    var t := m.locks.execs[e];
    n := m;
    if n.threads[t].Marking? { n := Goes(s, n, Easy(t)); }
    n := Goes(s, n, Easy(t));
  }

  lemma {:induction false} LetsExecsGo(s: State, m: State) returns (n: State)
    requires Well(s, m)
    ensures Well(s, n) && n.locks.execs == map[]
    decreases |m.locks.execs|
  {
    n := m;
    if e :| e in m.locks.execs {
      n := LetsExecGo(s, m, e);
      assert n.locks.execs.Keys == m.locks.execs.Keys - {e};
      n := LetsExecsGo(s, n);
    }
  }

  /** One execution looked at. */
  lemma Peeks(s: State, m: State, t: int, id: string) returns (n: State)
    requires Well(s, m) && t in m.threads && m.threads[t].Scanning? && id in m.threads[t].left
    requires m.locks.execs == map[] && id in m.table.awaited
    ensures Well(s, n) && n.locks == m.locks && n.table == m.table && n.settled == m.settled && t in n.threads
    ensures n.threads[t] == Scanning(m.threads[t].channel, m.threads[t].left - {id},
      if m.table.awaited[id] in m.settled then m.threads[t].ids else m.threads[t].ids + {id})
  {
    n := Goes(s, m, Go(t, Choice({}, true, id, 0)));
    n := Goes(s, n, Easy(t));
  }

  lemma {:induction false} Scans(s: State, m: State, t: int) returns (n: State)
    requires Well(s, m) && t in m.threads && m.threads[t].Scanning? && m.locks.execs == map[]
    ensures Well(s, n) && n.locks == m.locks && n.table == m.table && n.settled == m.settled && t in n.threads
    ensures n.threads[t].Scanning? && n.threads[t].left == {}
    ensures (forall id | id in m.table.awaited :: m.table.awaited[id] in m.settled) ==>
              n.threads[t].ids == m.threads[t].ids
    decreases |m.threads[t].left|
  {
    LeadsThere(s, m);
    ReachableKept(m);
    assert Looked(m.table.awaited, m.settled, m.threads[t]);
    n := m;
    if id :| id in m.threads[t].left {
      n := Peeks(s, m, t, id);
      n := Scans(s, n, t);
    }
  }

  lemma ScannerLetsGo(s: State, m: State, t: int) returns (n: State)
    requires Well(s, m) && m.locks == Locks(Some(t), map[]) && t in m.threads
    requires m.threads[t].Scanning? || m.threads[t].Scanned?
    ensures Well(s, n) && n.locks == Locks(None, map[])
  {
    n := m;
    if n.threads[t].Scanning? {
      n := Scans(s, n, t);
      n := Goes(s, n, Easy(t));
    }
    n := Goes(s, n, Easy(t));
  }

  lemma RingerLetsGo(s: State, m: State, t: int) returns (n: State)
    requires Well(s, m) && m.locks == Locks(Some(t), map[]) && t in m.threads
    requires m.threads[t].Closing? || m.threads[t].Replacing? || m.threads[t].Unlocking?
    ensures Well(s, n) && n.locks == Locks(None, map[])
  {
    n := m;
    if n.threads[t].Closing? { n := Goes(s, n, Easy(t)); }
    if n.threads[t].Replacing? { n := Goes(s, n, Easy(t)); }
    n := Goes(s, n, Easy(t));
  }

  lemma LetsAgentGo(s: State, m: State) returns (n: State)
    requires Well(s, m) && m.locks.execs == map[]
    ensures Well(s, n) && n.locks == Locks(None, map[])
  {
    LeadsThere(s, m);
    ReachableKept(m);
    n := m;
    if m.locks.agent.Some? {
      var t := m.locks.agent.value;
      assert !HoldsExec(m.threads[t]);
      if m.threads[t].Scanning? || m.threads[t].Scanned? {
        n := ScannerLetsGo(s, m, t);
      } else {
        n := RingerLetsGo(s, m, t);
      }
    }
  }

  /** Nobody has a lock. */
  predicate Calm(s: State) { s.locks == Locks(None, map[]) }

  lemma Calms(s: State, m: State) returns (n: State)
    requires Well(s, m)
    ensures Well(s, n) && Calm(n) && m.settled <= n.settled
  {
    LeadsThere(s, m);
    WellStays(m);
    n := LetsExecsGo(m, m);
    n := LetsAgentGo(m, n);
    WellOn(s, m, n);
  }

  // ----- an execution settled -----------------------------------------------------------------

  /** What a drain awaits is in `runs` still, or its exit is in its ring, or it was given up. */
  ghost predicate Gone(s: State) {
    && (forall t | t in s.threads && s.threads[t].Exited? :: s.threads[t].e in s.ends.exited)
    && (forall id | id in s.table.awaited ::
          || Names(s.table.runs, id, s.table.awaited[id])
          || s.table.awaited[id] in s.ends.exited || s.table.awaited[id] in s.ends.abandoned)
  }

  lemma NextGone(s: State, t: int, k: Choice)
    requires Kept(s) && Gone(s) && May(s, t, k)
    ensures Gone(Next(s, t, k))
  {
  }

  lemma StepGone(s: State, a: Action)
    requires Kept(s) && Gone(s) && Enabled(s, a)
    ensures Gone(Apply(s, a))
  {
    if a.Go? { NextGone(s, a.t, a.k); }
  }

  lemma {:induction false} RunGone(trace: seq<State>, i: nat)
    requires Run(trace) && i < |trace|
    ensures Gone(trace[i])
  {
    if i > 0 {
      RunGone(trace, i - 1);
      RunKept(trace, i - 1);
      var a := StepOf(trace, i - 1);
      StepGone(trace[i - 1], a);
    }
  }

  lemma ReachableGone(s: State)
    requires Reachable(s)
    ensures Gone(s)
  {
    var trace, i: nat :| Run(trace) && i < |trace| && trace[i] == s;
    RunGone(trace, i);
  }

  lemma {:induction false} Above(ts: set<int>) returns (b: int)
    ensures forall t | t in ts :: t < b
  {
    b := 0;
    if t :| t in ts {
      b := Above(ts - {t});
      b := if b <= t then t + 1 else b;
      assert forall u | u in ts :: u == t || u in ts - {t};
    }
  }

  /** From the execution's own lock on. */
  lemma SettlingSettles(s: State, m: State, t: int) returns (n: State)
    requires Well(s, m) && Calm(m) && t in m.threads && m.threads[t].Settling?
    ensures Well(s, n) && m.settled <= n.settled && m.threads[t].e in n.settled
  {
    n := Goes(s, m, Easy(t));
    n := Goes(s, n, Easy(t));
  }

  /** A cancel comes for what an id names. */
  lemma CancelSettles(s: State, m: State, id: string) returns (n: State)
    requires Well(s, m) && Calm(m) && Named(m.table, id).Some?
    ensures Well(s, n) && m.settled <= n.settled && Named(m.table, id).value in n.settled
  {
    var t := Above(m.threads.Keys);
    assert t !in m.threads;
    n := Goes(s, m, Arrive(t, Looking(id, true)));
    assert m.table.finished - {} == m.table.finished;
    n := Goes(s, n, Easy(t));
    n := SettlingSettles(s, n, t);
  }

  /** With no id left to ask for it by, whoever has it settles it: a reader comes to the end of its ring. */
  lemma HolderSettles(s: State, m: State, e: Exec) returns (n: State)
    requires Well(s, m) && Calm(m) && Awaited(m, e) && e !in m.settled && Unnamed(m.table, e)
    requires exists t | t in m.threads :: About(m.threads[t], e)
    ensures Well(s, n) && m.settled <= n.settled && e in n.settled
  {
    LeadsThere(s, m);
    ReachableTold(m);
    ReachableGone(m);
    n := m;
    var t :| t in m.threads && About(m.threads[t], e);
    assert Owns(m.threads[t]) ==> Names(m.table.runs, m.threads[t].id, e);
    assert !HoldsExec(m.threads[t]) && !HoldsAgent(m.threads[t]);
    if m.threads[t].Reading? { n := Goes(s, m, Easy(t)); }
    n := SettlingSettles(s, n, t);
  }

  /** Somebody can settle what is not forgotten: a cancel if an id names it, and otherwise whoever has it. */
  lemma Settles(s: State, m: State, e: Exec) returns (n: State)
    requires Well(s, m) && Calm(m) && Awaited(m, e) && !Forgotten(m, e)
    ensures Well(s, n) && m.settled <= n.settled && e in n.settled
  {
    LeadsThere(s, m);
    ReachableTold(m);
    n := m;
    if e !in m.settled {
      if id :| Names(m.table.runs, id, e) || Names(m.table.finished, id, e) {
        n := CancelSettles(s, m, id);
      } else {
        n := HolderSettles(s, m, e);
      }
    }
  }

  /** An execution a drain awaits can still be settled exactly when it is not forgotten. */
  lemma SettledUnlessForgotten(s: State, e: Exec)
    requires Reachable(s) && Owed(s, e)
    ensures (exists n :: Leads(s, n) && e in n.settled) <==> !Forgotten(s, e)
  {
    if !Forgotten(s, e) {
      WellStays(s);
      var n := Calms(s, s);
      n := Settles(s, n, e);
    } else if n :| Leads(s, n) && e in n.settled {
      var trace, i: nat, j: nat :| Run(trace) && i <= j < |trace| && trace[i] == s && trace[j] == n;
      ForgottenIsWaitedForEver(trace, i, j, e);
    }
  }

  // ----- a drain ended ------------------------------------------------------------------------

  /** The executions a drain awaits that nobody has settled. */
  function Unsettled(awaited: Execs, settled: set<Exec>): set<Exec> { awaited.Values - settled }

  lemma {:induction false} SubsetIsSmaller(a: set<Exec>, b: set<Exec>)
    requires a <= b
    ensures |a| <= |b|
  {
    if e :| e in a { SubsetIsSmaller(a - {e}, b - {e}); }
  }

  lemma SmallerSet(a: set<Exec>, b: set<Exec>, e: Exec)
    requires a <= b && e in b && e !in a
    ensures |a| < |b|
  {
    SubsetIsSmaller(a, b - {e});
  }

  lemma {:induction false} AllSettle(s: State, m: State) returns (n: State)
    requires Well(s, m) && forall id | id in s.table.awaited :: !Forgotten(s, s.table.awaited[id])
    requires s.table.draining
    ensures Well(s, n) && forall id | id in n.table.awaited :: n.table.awaited[id] in n.settled
    decreases |Unsettled(s.table.awaited, m.settled)|
  {
    n := m;
    if e :| e in Unsettled(s.table.awaited, m.settled) {
      n := Calms(s, m);
      n := Settles(s, n, e);
      SmallerSet(Unsettled(s.table.awaited, n.settled), Unsettled(s.table.awaited, m.settled), e);
      n := AllSettle(s, n);
    } else {
      forall id | id in m.table.awaited ensures m.table.awaited[id] in m.settled {
        assert m.table.awaited[id] !in Unsettled(s.table.awaited, m.settled);
      }
    }
  }

  ghost predicate AllSettled(s: State) { forall id | id in s.table.awaited :: s.table.awaited[id] in s.settled }

  /** A scan with everything settled finds nothing to wait for. */
  lemma ScanReturns(s: State, m: State, w: int) returns (n: State)
    requires Well(s, m) && Calm(m) && AllSettled(m) && w in m.threads && m.threads[w].ToWait?
    ensures Well(s, n) && w in n.threads && n.threads[w] == Returned({})
  {
    n := Goes(s, m, Easy(w));
    n := Scans(s, n, w);
    n := Goes(s, n, Easy(w));
    n := Goes(s, n, Easy(w));
  }

  /** From the agent's lock on, a settler closes the channel in use and lets the lock go. */
  lemma Closes(s: State, m: State, u: int) returns (n: State)
    requires Well(s, m) && Calm(m) && u in m.threads && m.threads[u].Waking?
    ensures Well(s, n) && Calm(n) && n.settled == m.settled && n.table == m.table
    ensures n.threads == m.threads[u := Done] && n.bell.shut == m.bell.shut + {m.bell.changed}
  {
    n := Goes(s, m, Easy(u));
    n := Goes(s, n, Easy(u));
    n := Goes(s, n, Easy(u));
    n := Goes(s, n, Easy(u));
  }

  /** Whoever flipped the flag of what a waiter waits for has yet to close its channel, if nobody did. */
  lemma HasAWaker(m: State, w: int) returns (u: int)
    requires Reachable(m) && Calm(m) && AllSettled(m) && w in m.threads && m.threads[w].Blocked?
    requires m.threads[w].channel !in m.bell.shut
    ensures u in m.threads && m.threads[u].Waking? && m.threads[w].channel == m.bell.changed
  {
    ReachableKept(m);
    assert Looked(m.table.awaited, m.settled, m.threads[w]);
    var id :| id in m.threads[w].ids;
    NoLostWakeup(m, w, id);
    AsleepExactlyThen(m, w, id);
    u :| u in m.threads && WillRing(m.threads[u], m.table.awaited[id]);
    assert !HoldsExec(m.threads[u]) && !HoldsAgent(m.threads[u]);
  }

  lemma Wakes(s: State, m: State, w: int) returns (n: State)
    requires Well(s, m) && Calm(m) && AllSettled(m) && w in m.threads && m.threads[w].Blocked?
    ensures Well(s, n) && Calm(n) && AllSettled(n) && w in n.threads && n.threads[w] == m.threads[w]
    ensures n.threads[w].channel in n.bell.shut
  {
    LeadsThere(s, m);
    n := m;
    if m.threads[w].channel !in m.bell.shut {
      var u := HasAWaker(m, w);
      n := Closes(s, m, u);
    }
  }

  lemma WaiterReturns(s: State, m: State, w: int) returns (n: State)
    requires Well(s, m) && Calm(m) && AllSettled(m) && w in m.threads && Hoping(m.threads[w])
    ensures Well(s, n) && w in n.threads && n.threads[w] == Returned({})
  {
    LeadsThere(s, m);
    ReachableKept(m);
    n := m;
    if n.threads[w].Blocked? {
      n := Wakes(s, n, w);
      n := Goes(s, n, Easy(w));
    }
    if n.threads[w].ToWait? { n := ScanReturns(s, n, w); }
  }

  /** A `Wait` under way can still return nil exactly when nothing the drain awaits is forgotten. */
  lemma WaitEndsUnlessForgotten(s: State, w: int)
    requires Reachable(s) && w in s.threads && Hoping(s.threads[w])
    ensures (exists n :: Leads(s, n) && w in n.threads && n.threads[w] == Returned({})) <==>
            forall id | id in s.table.awaited :: !Forgotten(s, s.table.awaited[id])
  {
    ReachableKept(s);
    if forall id | id in s.table.awaited :: !Forgotten(s, s.table.awaited[id]) {
      WellStays(s);
      var n := AllSettle(s, s);
      n := Calms(s, n);
      n := WaiterReturns(s, n, w);
    }
    if n :| Leads(s, n) && w in n.threads && n.threads[w] == Returned({}) {
      var trace, i: nat, j: nat :| Run(trace) && i <= j < |trace| && trace[i] == s && trace[j] == n;
      forall id | id in s.table.awaited ensures !Forgotten(s, s.table.awaited[id]) {
        if Forgotten(s, s.table.awaited[id]) { ForgottenIsWaitedForEver(trace, i, j, s.table.awaited[id]); }
      }
    }
  }
}
