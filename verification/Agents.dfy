/** The agent as the object it is: two maps of execution objects under one lock. Each method is one section under
    that lock, and does to the maps what `AgentProtocol` lets its step do. */
module Agents {
  import opened Ordering
  import opened Outcomes
  import opened AgentProtocol
  import opened Retention

  class Execution {
    const id: string
    // its number in the protocol
    ghost const no: Exec
    var settled: bool
    var stopped: bool
    var closed: bool
    var finishedAt: int

    constructor (id: string, ghost no: Exec)
      ensures this.id == id && this.no == no && !settled && !stopped && !closed
    {
      this.id, this.no := id, no;
      settled, stopped, closed, finishedAt := false, false, false, 0;
    }
  }

  type Shelf = map<string, Execution>

  ghost function Numbers(m: Shelf): Execs { map id | id in m :: m[id].no }

  /** Every execution is under its own id, in one of the maps; and ids are not empty: the scan for the oldest starts
      from the empty string. */
  predicate Filed(runs: Shelf, finished: Shelf) {
    && "" !in runs && "" !in finished && runs.Keys !! finished.Keys
    && (forall id | id in runs :: runs[id].id == id) && (forall id | id in finished :: finished[id].id == id)
  }

  lemma FiledLess(runs: Shelf, finished: Shelf, drop: set<string>)
    requires Filed(runs, finished)
    ensures Filed(runs, finished - drop) && Filed(runs - drop, finished)
  {
  }

  lemma NumbersLess(m: Shelf, drop: set<string>)
    ensures Numbers(m - drop) == Numbers(m) - drop
  {
  }

  lemma NumbersMore(m: Shelf, id: string, e: Execution)
    ensures Numbers(m[id := e]) == Numbers(m)[id := e.no]
  {
  }

  /** What is left is part of what there was. */
  predicate PartOf(finished: Shelf, before: Shelf) {
    finished.Keys <= before.Keys && forall id | id in finished :: finished[id] == before[id]
  }

  lemma PartIsLess(before: Shelf, finished: Shelf, all: Times, times: Times, cutoff: int, max: nat)
    requires PartOf(finished, before) && Pruned(all, times, cutoff, max)
    requires before.Keys == all.Keys && finished.Keys == times.Keys
    ensures finished == before - (before.Keys - finished.Keys)
    ensures LetsGo(all, before.Keys - finished.Keys, cutoff, max)
  {
    assert times == all - (before.Keys - finished.Keys);
  }

  lemma LookingPrunes(table: Table, id: string, cancel: bool, drop: set<string>)
    ensures TableNext(table, Looking(id, cancel), Choice(drop, true, "", 0)) ==
      table.(finished := table.finished - drop)
  {
  }

  lemma ExitedMoves(table: Table, id: string, e: Exec, drop: set<string>)
    requires id in table.runs && table.runs[id] == e
    ensures TableNext(table, Exited(id, e), Choice(drop, true, "", 0)) ==
      table.(runs := table.runs - {id}, finished := table.finished[id := e] - drop)
  {
  }

  lemma OneFewer<T>(m: map<string, T>, id: string)
    requires id in m
    ensures |m - {id}| == |m| - 1
  {
    assert m.Keys == (m - {id}).Keys + {id};
  }

  lemma SameCount(finished: Shelf, times: Times)
    requires finished.Keys == times.Keys
    ensures |finished| == |times|
  {
    assert |finished| == |finished.Keys| && |times| == |times.Keys|;
  }

  /** The channel closed and replaced: the protocol's two steps. */
  function Rang(bell: Bell, e: Exec): Bell { BellNext(BellNext(bell, Closing(e)), Replacing(e)) }

  /** What this agent speaks. */
  const PROTOCOL: int := 1

  datatype StartError = OtherProtocol | Refused | IsDraining | AlreadyRunning

  class Agent {
    const keepFinished: int
    const keepMax: nat
    var runs: Shelf
    var finished: Shelf
    var draining: bool
    var awaited: Shelf
    var changed: nat
    // the channels closed so far
    ghost var shut: set<nat>
    // when each finished execution ended
    ghost var times: Times

    ghost function Shape(): Table
      reads `runs, `finished, `draining, `awaited
    {
      Table(Numbers(runs), Numbers(finished), draining, Numbers(awaited))
    }

    /** The channel in use and the closed ones. */
    ghost function Ringing(): Bell
      reads `changed, `shut
    {
      Bell(changed, shut, false)
    }

    /** `times` is when each finished execution ended. */
    ghost predicate Timed()
      reads `finished, `times, finished.Values
    {
      times.Keys == finished.Keys && forall id | id in finished :: finished[id].finishedAt == times[id]
    }

    /** The channel in use is open, and those closed came before it. */
    ghost predicate ChannelOpen()
      reads `changed, `shut
    {
      forall n | n in shut :: n < changed
    }

    ghost predicate Valid()
      reads `runs, `finished, `draining, `awaited, `times, `changed, `shut, finished.Values
    {
      Filed(runs, finished) && Timed() && ChannelOpen()
    }

    constructor (keepFinished: int, keepMax: nat)
      ensures Valid() && Shape() == Table(map[], map[], false, map[]) && Ringing() == Bell(0, {}, false)
      ensures this.keepFinished == keepFinished && this.keepMax == keepMax
    {
      this.keepFinished, this.keepMax := keepFinished, keepMax;
      runs, finished, draining, awaited, changed, shut, times := map[], map[], false, map[], 0, {}, map[];
    }

    /** `drop`, as far as this process's memory goes. */
    method Drop(id: string)
      requires Timed()
      modifies `finished, `times
      ensures Timed() && finished == old(finished) - {id} && times == old(times) - {id}
    {
      finished := finished - {id};
      times := times - {id};
    }

    method DropExpired(cutoff: int)
      requires Timed()
      modifies `finished, `times
      ensures Timed() && PartOf(finished, old(finished)) && times == Unexpired(old(times), cutoff)
    {
      ghost var before, all := finished, times;
      var left := finished.Keys;
      while left != {}
        invariant Timed() && left <= times.Keys <= all.Keys && PartOf(finished, before)
        invariant forall id | id in times :: times[id] == all[id]
        invariant forall id | id in all && id !in left :: id in times <==> all[id] >= cutoff
        decreases |left|
      {
        var id :| id in left;
        if finished[id].finishedAt < cutoff { Drop(id); }
        left := left - {id};
      }
    }

    /** The scan for the oldest, from the empty string, in whatever order the map is walked. */
    method Oldest() returns (oldest: string)
      requires finished != map[] && "" !in finished
      ensures oldest in finished && forall id | id in finished :: finished[oldest].finishedAt <= finished[id].finishedAt
    {
      oldest := "";
      var left := finished.Keys;
      while left != {}
        invariant left <= finished.Keys && (oldest == "" <==> left == finished.Keys)
        invariant oldest != "" ==> oldest in finished
        invariant forall id | oldest != "" && id in finished && id !in left ::
          finished[oldest].finishedAt <= finished[id].finishedAt
        decreases |left|
      {
        var id :| id in left;
        if oldest == "" || finished[id].finishedAt < finished[oldest].finishedAt { oldest := id; }
        left := left - {id};
      }
      assert finished.Keys != {};
    }

    /** The oldest go until the maximum is met. */
    method DropOver()
      requires Timed() && "" !in finished
      modifies `finished, `times
      ensures Timed() && PartOf(finished, old(finished)) && NewestOf(old(times), times)
      ensures |times| == if |old(times)| <= keepMax then |old(times)| else keepMax
    {
      ghost var before, all := finished, times;
      SameCount(finished, times);
      while |finished| > keepMax
        invariant Timed() && PartOf(finished, before) && |times| == |finished|
        invariant NewestOf(all, times) && |times| <= |all| && (|times| < |all| ==> |times| >= keepMax)
        decreases |finished|
      {
        var oldest := Oldest();
        DropOldest(all, times, oldest);
        OneFewer(finished, oldest);
        Drop(oldest);
      }
    }

    /** `prune`: the expired go, then the oldest until the maximum is met. */
    method Prune(now: int)
      requires Timed() && "" !in finished
      modifies `finished, `times
      ensures Timed() && PartOf(finished, old(finished)) && Pruned(old(times), times, now - keepFinished, keepMax)
    {
      DropExpired(now - keepFinished);
      DropOver();
    }

    /** The same, by what it drops. */
    method PruneSome(now: int) returns (ghost drop: set<string>)
      requires Timed() && "" !in finished
      modifies `finished, `times
      ensures Timed() && finished == old(finished) - drop
      ensures LetsGo(old(times), drop, now - keepFinished, keepMax)
    {
      ghost var before, all := finished, times;
      Prune(now);
      drop := before.Keys - finished.Keys;
      PartIsLess(before, finished, all, times, now - keepFinished, keepMax);
    }

    /** The same, as the protocol sees it. */
    method PruneFirst(now: int) returns (ghost drop: set<string>)
      requires Valid()
      modifies `finished, `times
      ensures Valid() && Shape() == old(Shape()).(finished := old(Shape()).finished - drop)
      ensures LetsGo(old(times), drop, now - keepFinished, keepMax)
    {
      ghost var before, shape := finished, Shape();
      drop := PruneSome(now);
      NumbersLess(before, drop);
      FiledLess(runs, before, drop);
      assert Shape() == shape.(finished := shape.finished - drop);
    }

    method Claim(id: string, e: Execution)
      requires Valid() && e.id == id && id != ""
      modifies `runs, `finished, `times
      ensures Valid() && runs == old(runs)[id := e]
      ensures Shape() ==
        old(Shape()).(runs := old(Shape()).runs[id := e.no], finished := old(Shape()).finished - {id})
    {
      NumbersMore(runs, id, e);
      NumbersLess(finished, {id});
      runs := runs[id := e];
      finished := finished - {id};
      times := times - {id};
    }

    /** `Start` up to its reservation: refused with nothing touched when it speaks another protocol or names no id
        or no command; refused after the prune while draining or while the id runs; else reserved, replacing what
        was kept under the id. */
    method Reserve(protocol: int, id: string, command: string, e: Execution, now: int)
        returns (r: Option<StartError>, ghost drop: set<string>)
      requires Valid() && e.id == id
      modifies `runs, `finished, `times
      ensures Valid()
      ensures r == Some(OtherProtocol) <==> protocol != PROTOCOL
      ensures r == Some(Refused) <==> protocol == PROTOCOL && (id == "" || command == "")
      ensures r == Some(OtherProtocol) || r == Some(Refused) ==> Shape() == old(Shape())
      ensures r != Some(OtherProtocol) && r != Some(Refused) ==>
        && Shape() == TableNext(old(Shape()), Starting(id, e.no), Choice(drop, true, "", 0))
        && LetsGo(old(times), drop, now - keepFinished, keepMax)
        && (r == Some(IsDraining) <==> draining)
        && (r == Some(AlreadyRunning) <==> !draining && id in old(runs))
        && (r == None ==> id in runs && runs[id] == e)
    {
      drop := {};
      if protocol != PROTOCOL { return Some(OtherProtocol), drop; }
      if id == "" || command == "" { return Some(Refused), drop; }
      drop := PruneFirst(now);
      if draining { return Some(IsDraining), drop; }
      if id in runs { return Some(AlreadyRunning), drop; }
      Claim(id, e);
      r := None;
    }

    /** `settle`: the flag, then -- the first time only -- the channel in use is closed and another takes its place. */
    method Settle(e: Execution)
      requires ChannelOpen()
      modifies e`settled, `changed, `shut
      ensures ChannelOpen() && e.settled
      ensures Ringing() == if old(e.settled) then old(Ringing()) else Rang(old(Ringing()), e.no)
    {
      var already := e.settled;
      e.settled := true;
      if already { return; }
      shut := shut + {changed};
      changed := changed + 1;
    }

    /** `abandon`: the reservation is given back, if it is still this execution's: the protocol's step,
        then a settle. */
    method Abandon(e: Execution)
      requires Valid() && forall other | other in runs.Values && other.no == e.no :: other == e
      modifies e, `runs, `changed, `shut
      ensures Valid() && e.stopped && e.closed && e.settled && e.finishedAt == old(e.finishedAt)
      ensures Shape() == TableNext(old(Shape()), Abandoning(e.id, e.no), Choice({}, true, "", 0))
      ensures Ringing() == if old(e.settled) then old(Ringing()) else Rang(old(Ringing()), e.no)
    {
      NumbersLess(runs, {e.id});
      FiledLess(runs, finished, {e.id});
      e.stopped := true;
      if e.id in runs && runs[e.id] == e { runs := runs - {e.id}; }
      e.closed := true;
      Settle(e);
    }

    method Move(e: Execution, now: int)
      requires Valid() && e.id in runs && runs[e.id] == e
      modifies e`finishedAt, `runs, `finished, `times
      ensures Valid() && e.finishedAt == now && times == old(times)[e.id := now]
      ensures Shape() ==
        old(Shape()).(runs := old(Shape()).runs - {e.id}, finished := old(Shape()).finished[e.id := e.no])
    {
      NumbersLess(runs, {e.id});
      NumbersMore(finished, e.id, e);
      runs := runs - {e.id};
      e.finishedAt := now;
      finished := finished[e.id := e];
      times := times[e.id := now];
    }

    /** The last step of the exit goroutine: one move, under one lock. */
    method Finish(e: Execution, now: int) returns (ghost drop: set<string>)
      requires Valid() && e.id in runs && runs[e.id] == e
      modifies e`finishedAt, `runs, `finished, `times
      ensures Valid() && e.finishedAt == now
      ensures LetsGo(old(times)[e.id := now], drop, now - keepFinished, keepMax)
      ensures Shape() == TableNext(old(Shape()), Exited(e.id, e.no), Choice(drop, true, "", 0))
    {
      ghost var before := Shape();
      Move(e, now);
      drop := PruneFirst(now);
      ExitedMoves(before, e.id, e.no, drop);
    }

    method Ended(id: string) returns (e: Execution?, ended: bool)
      requires Valid()
      ensures Named(Shape(), id) == (if e == null then None else Some(e.no)) && (ended <==> id in finished)
    {
      e, ended := null, id in finished;
      if ended { e := finished[id]; } else if id in runs { e := runs[id]; }
    }

    method Running(id: string) returns (e: Execution?)
      requires Valid()
      ensures Named(Shape(), id) == if e == null then None else Some(e.no)
    {
      e := null;
      if id in runs { e := runs[id]; } else if id in finished { e := finished[id]; }
    }

    /** The lookup of `Resume`: the one running, else the finished one kept. */
    method Find(id: string, now: int) returns (e: Execution?, ghost drop: set<string>)
      requires Valid()
      modifies `finished, `times
      ensures Valid() && Shape() == TableNext(old(Shape()), Looking(id, false), Choice(drop, true, "", 0))
      ensures LetsGo(old(times), drop, now - keepFinished, keepMax)
      ensures Named(Shape(), id) == if e == null then None else Some(e.no)
    {
      ghost var before := Shape();
      drop := PruneFirst(now);
      LookingPrunes(before, id, false, drop);
      e := Running(id);
    }

    /** What a cancel does to the execution it found: one that ended is settled, and so is one that runs; one not
        yet spawned has its context ended too. */
    method Stop(e: Execution, ended: bool, spawned: bool)
      requires Valid()
      modifies e`settled, e`stopped, `changed, `shut
      ensures Valid() && e.settled && e.stopped == (old(e.stopped) || (!ended && !spawned))
      ensures Ringing() == if old(e.settled) then old(Ringing()) else Rang(old(Ringing()), e.no)
    {
      Settle(e);
      if ended { return; }
      if !spawned { e.stopped := true; }
    }

    /** The lookup of `Cancel`. */
    method FindToCancel(id: string, now: int) returns (e: Execution?, ended: bool, ghost drop: set<string>)
      requires Valid()
      modifies `finished, `times
      ensures Valid() && Shape() == TableNext(old(Shape()), Looking(id, true), Choice(drop, true, "", 0))
      ensures LetsGo(old(times), drop, now - keepFinished, keepMax)
      ensures Named(Shape(), id) == if e == null then None else Some(e.no)
      ensures ended <==> id in finished
    {
      ghost var before := Shape();
      drop := PruneFirst(now);
      LookingPrunes(before, id, true, drop);
      e, ended := Ended(id);
    }

    /** `Drain`: what it waits for is fixed here; a second call changes nothing. */
    method Drain()
      requires Valid()
      modifies `draining, `awaited
      ensures Valid() && draining && Shape() == TableNext(old(Shape()), ToDrain, Choice({}, true, "", 0))
      ensures awaited == if old(draining) then old(awaited) else runs
    {
      if draining { return; }
      draining := true;
      awaited := runs;
    }

    /** What the drain still waits for, sorted. */
    method Pending() returns (ids: seq<string>)
      ensures ids == SortedKeys(set id | id in awaited && !awaited[id].settled)
    {
      ids := [];
      var left := awaited.Keys;
      while left != {}
        invariant left <= awaited.Keys && Distinct(ids)
        invariant forall id :: id in ids <==> id in awaited && id !in left && !awaited[id].settled
        decreases |left|
      {
        var id :| id in left;
        if !awaited[id].settled { ids := ids + [id]; }
        left := left - {id};
      }
      assert Elements(ids) == set id | id in awaited && !awaited[id].settled;
      SortedKeysOf(ids);
      ids := Sort(ids);
    }
  }
}
