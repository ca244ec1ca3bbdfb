/** The agent's execution table and its drain, as steps of any number of goroutines. A section under the agent's
    lock that takes no other lock is one step; `settle` and `Wait` are taken apart lock by lock. */
module AgentProtocol {
  import opened Outcomes

  /** One execution object; an id may name several, one after the other. */
  type Exec = nat

  /** Where a goroutine is. */
  datatype Pc =
    // a start, and the goroutine that waits for its process
    | Starting(id: string, e: Exec)
    | SettingUp(id: string, e: Exec)
    | Abandoning(id: string, e: Exec)
    | Running(id: string, e: Exec)
    | Exited(id: string, e: Exec)
    // a resume or a cancel, and the stream a start or a resume serves
    | Looking(id: string, cancel: bool)
    | Reading(e: Exec)
    // `settle`: the execution's lock, then the agent's
    | Settling(e: Exec)
    | Marking(e: Exec)
    | Marked(e: Exec, already: bool)
    | Waking(e: Exec)
    | Closing(e: Exec)
    | Replacing(e: Exec)
    | Unlocking(e: Exec)
    // `Drain`, then `Wait`: `channel` is captured before the scan, `ids` is what it found unsettled
    | ToDrain
    | ToWait
    | Scanning(channel: nat, left: set<string>, ids: set<string>)
    | Peeking(channel: nat, left: set<string>, ids: set<string>, id: string, e: Exec)
    | Scanned(channel: nat, ids: set<string>)
    | Blocked(channel: nat, ids: set<string>)
    | Returned(ids: set<string>)
    | Done

  type Threads = map<int, Pc>

  type Execs = map<string, Exec>

  datatype Table = Table(runs: Execs, finished: Execs, draining: bool, awaited: Execs)

  /** `changed` numbers the channel in use; `shut` holds the closed ones. Closing one twice panics. */
  datatype Bell = Bell(changed: nat, shut: set<nat>, panicked: bool)

  datatype Locks = Locks(agent: Option<int>, execs: map<Exec, int>)

  /** What became of executions: those that ended with their exit in the ring, those given up before they were spawned,
      those read to the end, those cancelled, and those brought back from disk. */
  datatype Ends =
    Ends(exited: set<Exec>, abandoned: set<Exec>, read: set<Exec>, cancelled: set<Exec>, restored: set<Exec>)

  /** `made`, `settled` and `live`: the executions built, those nobody is owed any more, and those with a process
      not yet reaped. */
  datatype State = State(
    table: Table, bell: Bell, locks: Locks, made: set<Exec>, settled: set<Exec>, live: set<Exec>, ends: Ends,
    threads: Threads)

  /** What a step leaves open: what `prune` drops, whether the outside world was kind, a map's next key, and who
      reads the stream a start returns. */
  datatype Choice = Choice(drop: set<string>, ok: bool, id: string, reader: int)

  datatype Action = Arrive(t: int, pc: Pc) | Go(t: int, k: Choice)

  /** A ring nothing more is written to; only then does a reader come to its end. */
  predicate Closed(ends: Ends, e: Exec) { e in ends.exited || e in ends.abandoned || e in ends.restored }

  predicate Fresh(made: set<Exec>, pc: Pc) {
    match pc
    case Starting(_, e) => e !in made
    case Looking(_, _) => true
    case ToDrain => true
    case _ => false
  }

  predicate May(s: State, t: int, k: Choice) {
    && t in s.threads
    && match s.threads[t]
       case Starting(_, _) => s.locks.agent.None?
       case SettingUp(_, _) => k.ok ==> k.reader !in s.threads
       case Abandoning(_, _) => s.locks.agent.None?
       case Running(_, _) => true
       case Exited(_, _) => s.locks.agent.None?
       case Looking(_, _) => s.locks.agent.None?
       case Reading(e) => k.ok ==> Closed(s.ends, e)
       case Settling(e) => e !in s.locks.execs
       case Marking(_) => true
       case Marked(_, _) => true
       case Waking(_) => s.locks.agent.None?
       case Closing(_) => true
       case Replacing(_) => true
       case Unlocking(_) => true
       case ToDrain => s.locks.agent.None?
       case ToWait => s.locks.agent.None?
       case Scanning(_, left, _) =>
         left == {} || (k.id in left && k.id in s.table.awaited && s.table.awaited[k.id] !in s.locks.execs)
       case Peeking(_, _, _, _, _) => true
       case Scanned(_, _) => true
       // the channel was closed, or the context ended
       case Blocked(channel, _) => k.ok ==> channel in s.bell.shut
       case Returned(_) => false
       case Done => false
  }

  predicate Enabled(s: State, a: Action) {
    match a
    case Arrive(t, pc) => t !in s.threads && Fresh(s.made, pc)
    case Go(t, k) => May(s, t, k)
  }

  /** The execution an id names: the one running, or the finished one kept. */
  function Named(table: Table, id: string): Option<Exec> {
    if id in table.runs then Some(table.runs[id])
    else if id in table.finished then Some(table.finished[id])
    else None
  }

  /** The steps that prune. */
  predicate Prunes(pc: Pc) { pc.Starting? || pc.Looking? || pc.Exited? }

  function TableNext(table: Table, pc: Pc, k: Choice): Table {
    match pc
    case Starting(id, e) =>
      var kept := table.finished - k.drop;
      if table.draining || id in table.runs then table.(finished := kept)
      else table.(runs := table.runs[id := e], finished := kept - {id})
    case Abandoning(id, e) =>
      if id in table.runs && table.runs[id] == e then table.(runs := table.runs - {id}) else table
    case Exited(id, e) => table.(runs := table.runs - {id}, finished := table.finished[id := e] - k.drop)
    case Looking(_, _) => table.(finished := table.finished - k.drop)
    case ToDrain => if table.draining then table else table.(draining := true, awaited := table.runs)
    case _ => table
  }

  function BellNext(bell: Bell, pc: Pc): Bell {
    match pc
    case Closing(_) => Bell(bell.changed, bell.shut + {bell.changed}, bell.panicked || bell.changed in bell.shut)
    case Replacing(_) => bell.(changed := bell.changed + 1)
    case _ => bell
  }

  function EndsNext(ends: Ends, table: Table, pc: Pc, k: Choice): Ends {
    match pc
    case Running(_, e) => ends.(exited := ends.exited + {e})
    case Abandoning(_, e) => ends.(abandoned := ends.abandoned + {e})
    case Reading(e) => if k.ok then ends.(read := ends.read + {e}) else ends
    case Looking(id, cancel) =>
      var found := Named(table.(finished := table.finished - k.drop), id);
      if cancel && found.Some? then ends.(cancelled := ends.cancelled + {found.value}) else ends
    case _ => ends
  }

  function LocksNext(s: State, t: int, pc: Pc, k: Choice): Locks {
    match pc
    case Settling(e) => s.locks.(execs := s.locks.execs[e := t])
    case Marked(e, _) => s.locks.(execs := s.locks.execs - {e})
    case Waking(_) => s.locks.(agent := Some(t))
    case Unlocking(_) => s.locks.(agent := None)
    case ToWait => s.locks.(agent := Some(t))
    case Scanning(_, left, _) =>
      if left == {} || k.id !in s.table.awaited then s.locks
      else s.locks.(execs := s.locks.execs[s.table.awaited[k.id] := t])
    case Peeking(_, _, _, _, e) => s.locks.(execs := s.locks.execs - {e})
    case Scanned(_, _) => s.locks.(agent := None)
    case _ => s.locks
  }

  function PcNext(s: State, pc: Pc, k: Choice): Pc {
    match pc
    case Starting(id, e) => if s.table.draining || id in s.table.runs then Done else SettingUp(id, e)
    case SettingUp(id, e) => if k.ok then Running(id, e) else Abandoning(id, e)
    case Abandoning(_, e) => Settling(e)
    case Running(id, e) => Exited(id, e)
    case Exited(_, _) => Done
    case Looking(id, cancel) =>
      (match Named(s.table.(finished := s.table.finished - k.drop), id)
       case None => Done
       case Some(e) => if cancel then Settling(e) else Reading(e))
    case Reading(e) => if k.ok then Settling(e) else Done
    case Settling(e) => Marking(e)
    case Marking(e) => Marked(e, e in s.settled)
    case Marked(e, already) => if already then Done else Waking(e)
    case Waking(e) => Closing(e)
    case Closing(e) => Replacing(e)
    case Replacing(e) => Unlocking(e)
    case Unlocking(_) => Done
    case ToDrain => ToWait
    case ToWait => Scanning(s.bell.changed, s.table.awaited.Keys, {})
    case Scanning(channel, left, ids) =>
      if left == {} || k.id !in s.table.awaited then Scanned(channel, ids)
      else Peeking(channel, left - {k.id}, ids, k.id, s.table.awaited[k.id])
    case Peeking(channel, left, ids, id, e) => Scanning(channel, left, if e in s.settled then ids else ids + {id})
    case Scanned(channel, ids) => if ids == {} then Returned({}) else Blocked(channel, ids)
    case Blocked(_, ids) => if k.ok then ToWait else Returned(ids)
    case Returned(ids) => Returned(ids)
    case Done => Done
  }

  /** A start that spawned its process returns the stream of it. */
  function Joined(threads: Threads, pc: Pc, k: Choice): Threads {
    if pc.SettingUp? && k.ok then threads[k.reader := Reading(pc.e)] else threads
  }

  function Next(s: State, t: int, k: Choice): State
    requires May(s, t, k)
  {
    var pc := s.threads[t];
    State(
      TableNext(s.table, pc, k), BellNext(s.bell, pc), LocksNext(s, t, pc, k), s.made,
      if pc.Marking? then s.settled + {pc.e} else s.settled,
      if pc.SettingUp? && k.ok then s.live + {pc.e} else if pc.Running? then s.live - {pc.e} else s.live,
      EndsNext(s.ends, s.table, pc, k),
      Joined(s.threads, pc, k)[t := PcNext(s, pc, k)])
  }

  function Apply(s: State, a: Action): State
    requires Enabled(s, a)
  {
    match a
    case Arrive(t, pc) =>
      s.(threads := s.threads[t := pc], made := if pc.Starting? then s.made + {pc.e} else s.made)
    case Go(t, k) => Next(s, t, k)
  }

  /** Nothing runs; what was restored from disk is finished and settled. */
  predicate Init(s: State) {
    && s.table.runs == map[] && s.table.awaited == map[] && !s.table.draining
    && (forall id | id in s.table.finished :: s.table.finished[id] in s.made * s.settled)
    && s.settled <= s.made && s.ends == Ends({}, {}, {}, {}, s.settled)
    && s.bell == Bell(0, {}, false) && s.locks == Locks(None, map[]) && s.live == {} && s.threads == map[]
  }

  ghost predicate Step(s: State, s': State) {
    exists a :: Enabled(s, a) && s' == Apply(s, a)
  }

  ghost predicate Run(trace: seq<State>) {
    && trace != [] && Init(trace[0])
    && forall i | 0 <= i < |trace| - 1 :: Step(trace[i], trace[i + 1])
  }

  // ----- what every reachable state keeps -----------------------------------------------------

  predicate HoldsAgent(pc: Pc) {
    pc.Closing? || pc.Replacing? || pc.Unlocking? || pc.Scanning? || pc.Peeking? || pc.Scanned?
  }

  predicate HoldsExec(pc: Pc) { pc.Marking? || pc.Marked? || pc.Peeking? }

  ghost predicate Locked(locks: Locks, threads: Threads) {
    && (forall t | t in threads :: HoldsAgent(threads[t]) <==> locks.agent == Some(t))
    && (locks.agent.Some? ==> locks.agent.value in threads)
    && (forall t | t in threads && HoldsExec(threads[t]) ::
          threads[t].e in locks.execs && locks.execs[threads[t].e] == t)
    && (forall e | e in locks.execs ::
          var t := locks.execs[e]; t in threads && HoldsExec(threads[t]) && threads[t].e == e)
  }

  /** The goroutine that has the reservation of an id. */
  predicate Owns(pc: Pc) { pc.SettingUp? || pc.Abandoning? || pc.Running? || pc.Exited? }

  predicate Owned(threads: Threads, id: string, e: Exec) {
    exists t | t in threads :: Owns(threads[t]) && threads[t].id == id && threads[t].e == e
  }

  ghost predicate Tabled(table: Table, threads: Threads) {
    && (forall id | id in table.runs :: id !in table.finished)
    && (forall id | id in table.runs :: Owned(threads, id, table.runs[id]))
    && (forall t | t in threads && Owns(threads[t]) ::
          threads[t].id in table.runs && table.runs[threads[t].id] == threads[t].e)
  }

  predicate Builds(pc: Pc) { pc.Starting? || Owns(pc) }

  /** Each execution object is one start's. */
  ghost predicate Unshared(made: set<Exec>, threads: Threads) {
    && (forall t | t in threads && Builds(threads[t]) :: threads[t].e in made)
    && (forall t, u | t in threads && u in threads && t != u && Builds(threads[t]) && Builds(threads[u]) ::
          threads[t].e != threads[u].e)
  }

  ghost predicate Reaped(live: set<Exec>, threads: Threads) {
    forall e | e in live :: exists t | t in threads :: threads[t].Running? && threads[t].e == e
  }

  predicate Waits(pc: Pc) {
    pc.ToWait? || pc.Scanning? || pc.Peeking? || pc.Scanned? || pc.Blocked? || pc.Returned?
  }

  /** Past Drain nothing joins `runs`, and only then does anybody wait. */
  ghost predicate Draining(table: Table, threads: Threads) {
    && (table.draining ==> forall id | id in table.runs :: id in table.awaited && table.awaited[id] == table.runs[id])
    && (!table.draining ==> table.awaited == map[])
    && (forall t | t in threads && Waits(threads[t]) :: table.draining)
  }

  predicate Captures(pc: Pc) { pc.Scanning? || pc.Peeking? || pc.Scanned? || pc.Blocked? }

  ghost predicate Rung(bell: Bell, threads: Threads) {
    && !bell.panicked
    && (forall n: nat :: n in bell.shut ==> n <= bell.changed)
    && (forall n: nat | n < bell.changed :: n in bell.shut)
    && (bell.changed in bell.shut ==> exists t | t in threads :: threads[t].Replacing?)
    && (forall t | t in threads && threads[t].Replacing? :: bell.changed in bell.shut)
    && (forall t | t in threads && Captures(threads[t]) :: threads[t].channel <= bell.changed)
  }

  /** The settler that flipped the flag, before it closed the channel. */
  predicate WillRing(pc: Pc, e: Exec) {
    (pc == Marked(e, false)) || pc == Waking(e) || pc == Closing(e)
  }

  predicate OnItsWay(threads: Threads, e: Exec) { exists t | t in threads :: WillRing(threads[t], e) }

  /** What a scan found unsettled is unsettled still, or the channel it captured is closed, or is about to be. */
  ghost predicate Heard(awaited: Execs, settled: set<Exec>, shut: set<nat>, threads: Threads, pc: Pc)
    requires Captures(pc)
  {
    forall id | id in pc.ids ::
      && id in awaited
      && (awaited[id] in settled ==> pc.channel in shut || OnItsWay(threads, awaited[id]))
  }

  predicate Left(pc: Pc, id: string) {
    (pc.Scanning? && id in pc.left) || (pc.Peeking? && (id in pc.left || id == pc.id))
  }

  /** What a scan has looked at and did not list is settled; the same of what `Wait` returned without. */
  ghost predicate Looked(awaited: Execs, settled: set<Exec>, pc: Pc) {
    && (Captures(pc) || pc == Returned({}) ==>
          forall id | id in awaited && !Left(pc, id) && (Captures(pc) ==> id !in pc.ids) :: awaited[id] in settled)
    && (pc.Scanning? ==> pc.left <= awaited.Keys)
    && (pc.Blocked? ==> pc.ids != {})
    && (pc.Peeking? ==> pc.left <= awaited.Keys && pc.id in awaited && awaited[pc.id] == pc.e)
  }

  ghost predicate Kept(s: State) {
    && Locked(s.locks, s.threads) && Tabled(s.table, s.threads) && Unshared(s.made, s.threads)
    && Reaped(s.live, s.threads) && Draining(s.table, s.threads) && Rung(s.bell, s.threads)
    && (forall t | t in s.threads && Captures(s.threads[t]) ::
          Heard(s.table.awaited, s.settled, s.bell.shut, s.threads, s.threads[t]))
    && (forall t | t in s.threads :: Looked(s.table.awaited, s.settled, s.threads[t]))
  }

  // ----- each part is kept by every step ------------------------------------------------------

  /** A goroutine takes a lock, lets one go, or neither. */
  predicate LockStep(locks: Locks, t: int, pc: Pc, next: Pc, after: Locks) {
    && after.agent == (if HoldsAgent(next) then Some(t) else if HoldsAgent(pc) then None else locks.agent)
    && (HoldsAgent(next) && !HoldsAgent(pc) ==> locks.agent.None?)
    && (if HoldsExec(next) && HoldsExec(pc) then next.e == pc.e && after.execs == locks.execs
        else if HoldsExec(next) then next.e !in locks.execs && after.execs == locks.execs[next.e := t]
        else if HoldsExec(pc) then after.execs == locks.execs - {pc.e}
        else after.execs == locks.execs)
  }

  lemma StepsLock(s: State, t: int, k: Choice)
    requires May(s, t, k) && Locked(s.locks, s.threads)
    ensures LockStep(s.locks, t, s.threads[t], PcNext(s, s.threads[t], k), LocksNext(s, t, s.threads[t], k))
  {
  }

  lemma LockedAfter(locks: Locks, threads: Threads, t: int, next: Pc, after: Locks)
    requires Locked(locks, threads) && t in threads && LockStep(locks, t, threads[t], next, after)
    ensures Locked(after, threads[t := next])
  {
  }

  /** A goroutine that starts with no lock. */
  lemma LockedWithOneMore(locks: Locks, threads: Threads, t: int, pc: Pc)
    requires Locked(locks, threads) && t !in threads && !HoldsAgent(pc) && !HoldsExec(pc)
    ensures Locked(locks, threads[t := pc])
  {
  }

  lemma NextLocked(s: State, t: int, k: Choice)
    requires May(s, t, k) && Locked(s.locks, s.threads)
    ensures Locked(Next(s, t, k).locks, Next(s, t, k).threads)
  {
    var pc := s.threads[t];
    StepsLock(s, t, k);
    if pc.SettingUp? && k.ok { LockedWithOneMore(s.locks, s.threads, k.reader, Reading(pc.e)); }
    LockedAfter(s.locks, Joined(s.threads, pc, k), t, PcNext(s, pc, k), LocksNext(s, t, pc, k));
  }

  lemma NextUnshared(s: State, t: int, k: Choice)
    requires May(s, t, k) && Unshared(s.made, s.threads)
    ensures Unshared(s.made, Next(s, t, k).threads)
  {
  }

  /** The same goroutines have the same reservations. */
  predicate SameOwners(threads: Threads, after: Threads) {
    && (forall u | u in threads && Owns(threads[u]) ::
          u in after && Owns(after[u]) && after[u].id == threads[u].id && after[u].e == threads[u].e)
    && (forall u | u in after && Owns(after[u]) ::
          u in threads && Owns(threads[u]) && after[u].id == threads[u].id && after[u].e == threads[u].e)
  }

  lemma SameOwnersTabled(table: Table, threads: Threads, next: Table, after: Threads)
    requires Tabled(table, threads) && SameOwners(threads, after)
    requires next.runs == table.runs && next.finished.Keys <= table.finished.Keys
    ensures Tabled(next, after)
  {
    forall id | id in next.runs ensures Owned(after, id, next.runs[id]) {
      var u :| u in threads && Owns(threads[u]) && threads[u].id == id && threads[u].e == table.runs[id];
      assert Owns(after[u]);
    }
  }

  /** One owner more, of an id that is free. */
  lemma ReservedTabled(table: Table, threads: Threads, t: int, id: string, e: Exec, finished: Execs)
    requires Tabled(table, threads) && t in threads && !Owns(threads[t]) && id !in table.runs
    requires finished.Keys <= table.finished.Keys - {id}
    ensures Tabled(table.(runs := table.runs[id := e], finished := finished), threads[t := SettingUp(id, e)])
  {
    var next, after := table.runs[id := e], threads[t := SettingUp(id, e)];
    assert Owns(after[t]);
    forall i | i in next ensures Owned(after, i, next[i]) {
      if i != id {
        var u :| u in threads && Owns(threads[u]) && threads[u].id == i && threads[u].e == table.runs[i];
        assert Owns(after[u]);
      }
    }
  }

  /** One owner less, whose id goes. */
  lemma ReleasedTabled(table: Table, threads: Threads, t: int, pc: Pc, finished: Execs)
    requires Tabled(table, threads) && t in threads && Owns(threads[t]) && !Owns(pc)
    requires forall u | u in threads && u != t && Owns(threads[u]) :: threads[u].id != threads[t].id
    requires finished.Keys <= table.finished.Keys + {threads[t].id}
    ensures Tabled(table.(runs := table.runs - {threads[t].id}, finished := finished), threads[t := pc])
  {
    var next, after := table.runs - {threads[t].id}, threads[t := pc];
    forall i | i in next ensures Owned(after, i, next[i]) {
      var u :| u in threads && Owns(threads[u]) && threads[u].id == i && threads[u].e == table.runs[i];
      assert Owns(after[u]);
    }
  }

  lemma NextTabled(s: State, t: int, k: Choice)
    requires May(s, t, k) && Tabled(s.table, s.threads) && Unshared(s.made, s.threads)
    ensures Tabled(Next(s, t, k).table, Next(s, t, k).threads)
  {
    var n, pc := Next(s, t, k), s.threads[t];
    if pc.Starting? && n.threads[t].SettingUp? {
      ReservedTabled(s.table, s.threads, t, pc.id, pc.e, n.table.finished);
    } else if pc.Abandoning? || pc.Exited? {
      ReleasedTabled(s.table, s.threads, t, n.threads[t], n.table.finished);
    } else {
      SameOwnersTabled(s.table, s.threads, n.table, n.threads);
    }
  }

  lemma NextReaped(s: State, t: int, k: Choice)
    requires May(s, t, k) && Reaped(s.live, s.threads) && Unshared(s.made, s.threads)
    ensures Reaped(Next(s, t, k).live, Next(s, t, k).threads)
  {
    var n := Next(s, t, k);
    forall e | e in n.live ensures exists u | u in n.threads :: n.threads[u].Running? && n.threads[u].e == e {
      if e in s.live {
        var u :| u in s.threads && s.threads[u].Running? && s.threads[u].e == e;
        assert n.threads[u].Running? && n.threads[u].e == e;
      } else {
        assert n.threads[t].Running? && n.threads[t].e == e;
      }
    }
  }

  lemma NextDraining(s: State, t: int, k: Choice)
    requires May(s, t, k) && Draining(s.table, s.threads)
    ensures Draining(Next(s, t, k).table, Next(s, t, k).threads)
  {
  }

  lemma NextRung(s: State, t: int, k: Choice)
    requires May(s, t, k) && Rung(s.bell, s.threads) && Locked(s.locks, s.threads)
    ensures Rung(Next(s, t, k).bell, Next(s, t, k).threads)
  {
    var n := Next(s, t, k);
    if n.bell.changed in n.bell.shut {
      if s.threads[t].Closing? {
        assert n.threads[t].Replacing?;
      } else {
        var u :| u in s.threads && s.threads[u].Replacing?;
        assert n.threads[u].Replacing?;
      }
    }
  }

  lemma NextLooked(s: State, t: int, k: Choice, u: int)
    requires May(s, t, k) && Draining(s.table, s.threads) && u in Next(s, t, k).threads
    requires u in s.threads ==> Looked(s.table.awaited, s.settled, s.threads[u])
    ensures Looked(Next(s, t, k).table.awaited, Next(s, t, k).settled, Next(s, t, k).threads[u])
  {
  }

  lemma NextOnItsWay(s: State, t: int, k: Choice, e: Exec, channel: nat)
    requires May(s, t, k) && Rung(s.bell, s.threads) && channel <= s.bell.changed && OnItsWay(s.threads, e)
    ensures channel in Next(s, t, k).bell.shut || OnItsWay(Next(s, t, k).threads, e)
  {
    var n := Next(s, t, k);
    var u :| u in s.threads && WillRing(s.threads[u], e);
    if !(u == t && s.threads[t].Closing?) { assert WillRing(n.threads[u], e); }
  }

  lemma NextHeardOf(s: State, t: int, k: Choice, u: int, id: string)
    requires May(s, t, k) && Draining(s.table, s.threads) && Rung(s.bell, s.threads) && u in s.threads
    requires Looked(s.table.awaited, s.settled, s.threads[u])
    requires Captures(s.threads[u]) ==> Heard(s.table.awaited, s.settled, s.bell.shut, s.threads, s.threads[u])
    requires Captures(Next(s, t, k).threads[u]) && id in Next(s, t, k).threads[u].ids
    ensures var n := Next(s, t, k);
      && id in n.table.awaited
      && (n.table.awaited[id] in n.settled ==>
            n.threads[u].channel in n.bell.shut || OnItsWay(n.threads, n.table.awaited[id]))
  {
    var n := Next(s, t, k);
    assert Captures(s.threads[u]) && s.table.draining;
    var e := s.table.awaited[id];
    if e in s.settled && OnItsWay(s.threads, e) { NextOnItsWay(s, t, k, e, n.threads[u].channel); }
    if e in n.settled && e !in s.settled { assert WillRing(n.threads[t], e); }
  }

  lemma NextHeard(s: State, t: int, k: Choice, u: int)
    requires May(s, t, k) && Kept(s) && u in Next(s, t, k).threads && Captures(Next(s, t, k).threads[u])
    ensures var n := Next(s, t, k); Heard(n.table.awaited, n.settled, n.bell.shut, n.threads, n.threads[u])
  {
    var n := Next(s, t, k);
    forall id | id in n.threads[u].ids
      ensures id in n.table.awaited
      ensures n.table.awaited[id] in n.settled ==>
                n.threads[u].channel in n.bell.shut || OnItsWay(n.threads, n.table.awaited[id])
    {
      NextHeardOf(s, t, k, u, id);
    }
  }

  lemma ArriveReaped(live: set<Exec>, threads: Threads, t: int, pc: Pc)
    requires Reaped(live, threads) && t !in threads
    ensures Reaped(live, threads[t := pc])
  {
    var after := threads[t := pc];
    forall e | e in live ensures exists u | u in after :: after[u].Running? && after[u].e == e {
      var u :| u in threads && threads[u].Running? && threads[u].e == e;
      assert after[u] == threads[u];
    }
  }

  lemma ArriveRung(bell: Bell, threads: Threads, t: int, pc: Pc)
    requires Rung(bell, threads) && t !in threads && !pc.Replacing? && !Captures(pc)
    ensures Rung(bell, threads[t := pc])
  {
    if bell.changed in bell.shut {
      var u :| u in threads && threads[u].Replacing?;
      assert threads[t := pc][u].Replacing?;
    }
  }

  lemma ArriveHeard(s: State, t: int, pc: Pc, u: int)
    requires Kept(s) && Enabled(s, Arrive(t, pc)) && u in s.threads && Captures(s.threads[u])
    ensures Heard(s.table.awaited, s.settled, s.bell.shut, s.threads[t := pc], s.threads[u])
  {
    assert Heard(s.table.awaited, s.settled, s.bell.shut, s.threads, s.threads[u]);
    forall id | id in s.threads[u].ids && OnItsWay(s.threads, s.table.awaited[id])
      ensures OnItsWay(s.threads[t := pc], s.table.awaited[id])
    {
      var w :| w in s.threads && WillRing(s.threads[w], s.table.awaited[id]);
      assert WillRing(s.threads[t := pc][w], s.table.awaited[id]);
    }
  }

  lemma ArriveKept(s: State, t: int, pc: Pc)
    requires Kept(s) && Enabled(s, Arrive(t, pc))
    ensures Kept(Apply(s, Arrive(t, pc)))
  {
    var n := Apply(s, Arrive(t, pc));
    LockedWithOneMore(s.locks, s.threads, t, pc);
    SameOwnersTabled(s.table, s.threads, s.table, n.threads);
    ArriveReaped(s.live, s.threads, t, pc);
    ArriveRung(s.bell, s.threads, t, pc);
    forall u | u in n.threads && Captures(n.threads[u])
      ensures Heard(n.table.awaited, n.settled, n.bell.shut, n.threads, n.threads[u])
    {
      ArriveHeard(s, t, pc, u);
    }
  }

  lemma StepKept(s: State, a: Action)
    requires Kept(s) && Enabled(s, a)
    ensures Kept(Apply(s, a))
  {
    match a
    case Arrive(t, pc) => ArriveKept(s, t, pc);
    case Go(t, k) =>
      NextLocked(s, t, k);
      NextUnshared(s, t, k);
      NextTabled(s, t, k);
      NextReaped(s, t, k);
      NextDraining(s, t, k);
      NextRung(s, t, k);
      forall u | u in Next(s, t, k).threads
        ensures Looked(Next(s, t, k).table.awaited, Next(s, t, k).settled, Next(s, t, k).threads[u])
      {
        NextLooked(s, t, k, u);
      }
      forall u | u in Next(s, t, k).threads && Captures(Next(s, t, k).threads[u])
        ensures var n := Next(s, t, k); Heard(n.table.awaited, n.settled, n.bell.shut, n.threads, n.threads[u])
      {
        NextHeard(s, t, k, u);
      }
  }

  /** Whatever the goroutines do, in whatever order. */
  lemma {:induction false} RunKept(trace: seq<State>, i: nat)
    requires Run(trace) && i < |trace|
    ensures Kept(trace[i])
  {
    if i > 0 {
      RunKept(trace, i - 1);
      assert Step(trace[i - 1], trace[i - 1 + 1]);
      var a :| Enabled(trace[i - 1], a) && trace[i] == Apply(trace[i - 1], a);
      StepKept(trace[i - 1], a);
    }
  }
}
