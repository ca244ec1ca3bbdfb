/** Why nobody is owed an execution any more: what a drain that ends has waited for. */
module AgentEndings {
  import opened AgentProtocol
  import opened AgentGuarantees

  /** It ended and was read to its exit, it was cancelled, or it was never spawned. */
  predicate Answered(ends: Ends, e: Exec) {
    (e in ends.exited && e in ends.read) || e in ends.cancelled || e in ends.abandoned
  }

  /** What is settled, or on its way to be, was answered, or came settled from disk. */
  ghost predicate Justified(s: State) {
    && (forall e | e in s.settled :: Answered(s.ends, e) || e in s.ends.restored)
    && (forall t | t in s.threads && (s.threads[t].Settling? || s.threads[t].Marking?) ::
          Answered(s.ends, s.threads[t].e) || s.threads[t].e in s.ends.restored)
  }

  /** What came from disk is not this process's to run. */
  ghost predicate Apart(s: State) {
    && s.ends.restored <= s.made
    && (forall t | t in s.threads && Builds(s.threads[t]) :: s.threads[t].e !in s.ends.restored)
    && (forall id | id in s.table.awaited :: s.table.awaited[id] !in s.ends.restored)
  }

  lemma StepJustified(s: State, a: Action)
    requires Justified(s) && Enabled(s, a)
    ensures Justified(Apply(s, a))
  {
  }

  lemma StepApart(s: State, a: Action)
    requires Tabled(s.table, s.threads) && Apart(s) && Enabled(s, a)
    ensures Apart(Apply(s, a))
  {
    if a.Go? && s.threads[a.t].ToDrain? {
      forall id | id in s.table.runs ensures s.table.runs[id] !in s.ends.restored {
        var u :| u in s.threads && Owns(s.threads[u]) && s.threads[u].id == id && s.threads[u].e == s.table.runs[id];
      }
    }
  }

  lemma {:induction false} RunJustified(trace: seq<State>, i: nat)
    requires Run(trace) && i < |trace|
    ensures Justified(trace[i]) && Apart(trace[i])
  {
    if i > 0 {
      RunJustified(trace, i - 1);
      RunKept(trace, i - 1);
      var a := StepOf(trace, i - 1);
      StepJustified(trace[i - 1], a);
      StepApart(trace[i - 1], a);
    }
  }

  /** `Wait` returns nil only when every execution awaited has ended and been read to its exit, or was cancelled, or
      was never spawned. */
  lemma NilMeansAnswered(s: State, t: int)
    requires Reachable(s) && t in s.threads && s.threads[t] == Returned({})
    ensures forall id | id in s.table.awaited :: Answered(s.ends, s.table.awaited[id])
  {
    var trace, i: nat :| Run(trace) && i < |trace| && trace[i] == s;
    RunJustified(trace, i);
    NilMeansSettled(s, t);
  }

  /** So once it has, everything that was running when the drain began, or at any time since, has been answered. */
  lemma NothingRunningIsLeft(trace: seq<State>, i: nat, j: nat, t: int)
    requires Run(trace) && i <= j < |trace| && trace[i].table.draining
    requires t in trace[j].threads && trace[j].threads[t] == Returned({})
    ensures forall id | id in trace[i].table.runs :: Answered(trace[j].ends, trace[i].table.runs[id])
  {
    RunKept(trace, i);
    AwaitedIsFixed(trace, i, j);
    assert Reachable(trace[j]);
    NilMeansAnswered(trace[j], t);
  }

  /** And everything that was running at the step that began it. */
  lemma WhatRanIsAwaited(s: State, t: int, k: Choice)
    requires Reachable(s) && May(s, t, k) && !s.table.draining && Next(s, t, k).table.draining
    ensures Next(s, t, k).table.runs == s.table.runs == Next(s, t, k).table.awaited
  {
  }
}
