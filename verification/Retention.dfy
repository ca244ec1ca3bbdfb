/** Which finished executions `prune` keeps, as a relation between what there was and what is left. */
module Retention {

  /** When each finished execution ended. */
  type Times = map<string, int>

  function Unexpired(before: Times, cutoff: int): Times {
    map id | id in before && before[id] >= cutoff :: before[id]
  }

  /** Part of what there was, with nothing let go that is newer than something kept. */
  ghost predicate NewestOf(all: Times, kept: Times) {
    && kept.Keys <= all.Keys && (forall id | id in kept :: kept[id] == all[id])
    && forall id, other | id in kept && other in all && other !in kept :: all[other] <= all[id]
  }

  /** The unexpired, and of them the newest up to the maximum: no fewer than fit. */
  ghost predicate Pruned(before: Times, after: Times, cutoff: int, max: nat) {
    var young := Unexpired(before, cutoff);
    && NewestOf(young, after)
    && |after| == if |young| <= max then |young| else max
  }

  /** What a prune lets go. */
  ghost predicate LetsGo(before: Times, drop: set<string>, cutoff: int, max: nat) {
    drop <= before.Keys && Pruned(before, before - drop, cutoff, max)
  }

  lemma SameSize<T>(a: set<T>, b: set<T>)
    requires a <= b && |a| >= |b|
    ensures a == b
  {
    assert |b - a| == |b| - |a|;
    assert b == a + (b - a);
  }

  lemma Smaller<T>(a: set<T>, b: set<T>)
    requires a <= b
    ensures |a| <= |b|
  {
    assert b == a + (b - a);
  }

  predicate AllApart(times: Times) { forall i, j | i in times && j in times && i != j :: times[i] != times[j] }

  /** When no two ended at the same instant there is one answer. */
  lemma PrunedIsExact(before: Times, a: Times, b: Times, cutoff: int, max: nat)
    requires Pruned(before, a, cutoff, max) && Pruned(before, b, cutoff, max)
    requires AllApart(before)
    ensures a == b
  {
    if exists i :: i in a && i !in b {
      var i :| i in a && i !in b;
      assert i in a.Keys && i !in b.Keys;
      if j :| j in b && j !in a {
        assert false;
      } else {
        SameSize(b.Keys, a.Keys);
        assert false;
      }
    } else {
      SameSize(a.Keys, b.Keys);
      assert a.Keys == b.Keys;
    }
  }

  /** Those that ended at the cutoff or after, and later than this one. */
  ghost function YoungerThan(before: Times, id: string, cutoff: int): set<string>
    requires id in before
  {
    set other | other in before && before[other] >= cutoff && before[other] > before[id]
  }

  lemma KeptIsAmongTheNewest(before: Times, after: Times, cutoff: int, max: nat, id: string)
    requires Pruned(before, after, cutoff, max) && id in after && AllApart(before)
    ensures id in before && |YoungerThan(before, id, cutoff)| < max
  {
    var later := YoungerThan(before, id, cutoff);
    assert later <= after.Keys - {id};
    Smaller(later, after.Keys - {id});
    assert |after.Keys| == |after| && |after.Keys - {id}| == |after| - 1;
  }

  lemma NewestIsKept(before: Times, after: Times, cutoff: int, max: nat, id: string)
    requires Pruned(before, after, cutoff, max) && id in before && before[id] >= cutoff && AllApart(before)
    requires |YoungerThan(before, id, cutoff)| < max
    ensures id in after
  {
    if id !in after {
      var young, later := Unexpired(before, cutoff), YoungerThan(before, id, cutoff);
      assert |after.Keys| == |after| && |young.Keys| == |young|;
      assert after.Keys <= later;
      Smaller(after.Keys, later);
      Smaller(later + {id}, young.Keys);
      assert false;
    }
  }

  /** What is kept ended at the cutoff or after, and is as it was; and when no two ended at the same instant, one
      that did is kept exactly when fewer than the maximum of them ended later. */
  lemma KeptExactlyThen(before: Times, after: Times, cutoff: int, max: nat, id: string)
    requires Pruned(before, after, cutoff, max)
    ensures id in after ==> id in before && before[id] >= cutoff && after[id] == before[id]
    ensures AllApart(before) && id in before ==>
      (id in after <==> before[id] >= cutoff && |YoungerThan(before, id, cutoff)| < max)
  {
    if AllApart(before) && id in before {
      if id in after { KeptIsAmongTheNewest(before, after, cutoff, max, id); }
      else if before[id] >= cutoff && |YoungerThan(before, id, cutoff)| < max {
        NewestIsKept(before, after, cutoff, max, id);
      }
    }
  }

  /** Pruning again at the same instant lets nothing more go. */
  lemma PrunedOnce(before: Times, after: Times, again: Times, cutoff: int, max: nat)
    requires Pruned(before, after, cutoff, max) && Pruned(after, again, cutoff, max)
    ensures again == after
  {
    assert Unexpired(after, cutoff) == after;
    SameSize(again.Keys, after.Keys);
  }

  /** Dropping the oldest of what is left keeps the newest. */
  lemma DropOldest(all: Times, kept: Times, oldest: string)
    requires NewestOf(all, kept) && oldest in kept
    requires forall id | id in kept :: kept[oldest] <= kept[id]
    ensures NewestOf(all, kept - {oldest}) && |kept - {oldest}| == |kept| - 1
  {
  }
}
