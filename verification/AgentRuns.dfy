/** Runs of the agent, step by step: what its promises leave room for does happen. */
module AgentRuns {
  import opened Outcomes
  import opened AgentProtocol
  import opened AgentGuarantees
  import opened AgentForgetting

  lemma Goes(s: State, a: Action) returns (n: State)
    requires Reachable(s) && Enabled(s, a)
    ensures Reachable(n) && n == Apply(s, a)
  {
    var trace, i: nat :| Run(trace) && i < |trace| && trace[i] == s;
    n := Apply(s, a);
    var longer := trace[..i + 1] + [n];
    forall j | 0 <= j < |longer| - 1 ensures Step(longer[j], longer[j + 1]) {
      if j < i { assert Step(trace[j], trace[j + 1]); }
    }
    assert Run(longer) && longer[i + 1] == n;
  }

  /** A step with nothing pruned, the outside world kind, and goroutine 9 reading any stream a start returns. */
  function Easy(t: int): Action { Go(t, Choice({}, true, "a", 9)) }

  /** One execution running, and its stream read. */
  lemma OneRuns() returns (s: State)
    ensures Reachable(s) && s.threads == map[0 := Running("a", 0), 9 := Reading(0)]
    ensures s.table == Table(map["a" := 0], map[], false, map[]) && s.bell == Bell(0, {}, false)
    ensures s.locks == Locks(None, map[]) && s.made == {0} && s.settled == {}
  {
    s := State(Table(map[], map[], false, map[]), Bell(0, {}, false), Locks(None, map[]), {}, {}, {},
               Ends({}, {}, {}, {}, {}), map[]);
    assert Run([s]) && [s][0] == s;
    s := Goes(s, Arrive(0, Starting("a", 0)));
    s := Goes(s, Easy(0));
    s := Goes(s, Easy(0));
  }

  /** A start that cannot be set up gives its id back: the id named the execution, and names nothing. */
  lemma StartGivenUp() returns (s: State, k: Choice)
    ensures Reachable(s) && May(s, 0, k) && Named(s.table, "a") == Some(0) && Named(Next(s, 0, k).table, "a") == None
  {
    s := State(Table(map[], map[], false, map[]), Bell(0, {}, false), Locks(None, map[]), {}, {}, {},
               Ends({}, {}, {}, {}, {}), map[]);
    assert Run([s]) && [s][0] == s;
    s := Goes(s, Arrive(0, Starting("a", 0)));
    s := Goes(s, Easy(0));
    k := Choice({}, false, "", 0);
    s := Goes(s, Go(0, k));
  }

  /** The drain begins while it runs. */
  lemma DrainBegins() returns (s: State)
    ensures Reachable(s) && s.threads == map[0 := Running("a", 0), 9 := Reading(0), 1 := ToWait]
    ensures s.table == Table(map["a" := 0], map[], true, map["a" := 0]) && s.bell == Bell(0, {}, false)
    ensures s.locks == Locks(None, map[]) && s.made == {0} && s.settled == {}
  {
    s := OneRuns();
    s := Goes(s, Arrive(1, ToDrain));
    s := Goes(s, Easy(1));
  }

  // ----- an execution forgotten ---------------------------------------------------------------

  /** The engine's connection is lost, and the execution ends. */
  lemma EndsUnread() returns (s: State)
    ensures Reachable(s) && s.threads == map[0 := Done, 9 := Done, 1 := ToWait]
    ensures s.table == Table(map[], map["a" := 0], true, map["a" := 0])
    ensures s.locks == Locks(None, map[]) && s.made == {0} && s.settled == {}
  {
    s := DrainBegins();
    s := Goes(s, Go(9, Choice({}, false, "", 0)));
    s := Goes(s, Easy(0));
    s := Goes(s, Easy(0));
  }

  /** The engine comes back after the retention ran out: its own resume prunes what it asks for, and from then on
      nobody can settle it. */
  lemma CanBeForgotten() returns (s: State)
    ensures Reachable(s) && Forgotten(s, 0)
  {
    s := EndsUnread();
    s := Goes(s, Arrive(2, Looking("a", false)));
    assert s.table.awaited["a"] == 0;
    s := Goes(s, Go(2, Choice({"a"}, true, "", 0)));
  }

  // ----- two settlers of one execution --------------------------------------------------------

  /** The waiter finds it unsettled. */
  lemma WaiterScans() returns (s: State)
    ensures Reachable(s) && s.threads == map[0 := Running("a", 0), 9 := Reading(0), 1 := Scanning(0, {}, {"a"})]
    ensures s.table == Table(map["a" := 0], map[], true, map["a" := 0]) && s.bell == Bell(0, {}, false)
    ensures s.locks == Locks(Some(1), map[]) && s.settled == {}
  {
    s := DrainBegins();
    s := Goes(s, Easy(1));
    assert s.threads[1] == Scanning(0, {"a"}, {});
    s := Goes(s, Easy(1));
    assert {"a"} - {"a"} == {} && s.threads[1] == Peeking(0, {}, {}, "a", 0);
    s := Goes(s, Easy(1));
    assert {} + {"a"} == {"a"} && s.threads[1] == Scanning(0, {}, {"a"});
  }

  lemma WaiterBlocks() returns (s: State)
    ensures Reachable(s) && s.threads == map[0 := Running("a", 0), 9 := Reading(0), 1 := Blocked(0, {"a"})]
    ensures s.table == Table(map["a" := 0], map[], true, map["a" := 0]) && s.bell == Bell(0, {}, false)
    ensures s.locks == Locks(None, map[]) && s.settled == {}
  {
    s := WaiterScans();
    s := Goes(s, Easy(1));
    s := Goes(s, Easy(1));
  }

  /** Two cancels come for it. */
  lemma TwoCancels() returns (s: State)
    ensures Reachable(s)
    ensures s.threads ==
      map[0 := Running("a", 0), 9 := Reading(0), 1 := Blocked(0, {"a"}), 2 := Settling(0), 3 := Settling(0)]
    ensures s.bell == Bell(0, {}, false) && s.locks == Locks(None, map[]) && s.settled == {}
  {
    s := WaiterBlocks();
    s := Goes(s, Arrive(2, Looking("a", true)));
    s := Goes(s, Easy(2));
    s := Goes(s, Arrive(3, Looking("a", true)));
    s := Goes(s, Easy(3));
  }

  /** The first has flipped the flag, and has yet to close the channel. */
  lemma FirstFlips() returns (s: State)
    ensures Reachable(s)
    ensures s.threads ==
      map[0 := Running("a", 0), 9 := Reading(0), 1 := Blocked(0, {"a"}), 2 := Waking(0), 3 := Settling(0)]
    ensures s.bell == Bell(0, {}, false) && s.locks == Locks(None, map[]) && s.settled == {0}
  {
    s := TwoCancels();
    s := Goes(s, Easy(2));
    s := Goes(s, Easy(2));
    s := Goes(s, Easy(2));
  }

  /** The second finds the flag set and is done, with the waiter blocked on a channel still open. */
  lemma SecondReturnsFirst() returns (s: State)
    ensures Reachable(s)
    ensures 3 in s.threads && s.threads[3] == Done && 1 in s.threads && s.threads[1] == Blocked(0, {"a"})
    ensures s.settled == {0} && s.bell.shut == {}
  {
    s := FirstFlips();
    s := Goes(s, Easy(3));
    s := Goes(s, Easy(3));
    s := Goes(s, Easy(3));
  }
}
