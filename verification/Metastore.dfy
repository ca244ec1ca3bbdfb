/** The in-memory metastore: entries that expire, claims, and rolling counters. */
module Metastore {
  import opened Ordering
  import opened Outcomes
  import opened Buffering

  /** `until` 0 is the zero time; only `Get` and `Put` read it as "never". */
  datatype Entry = Entry(value: string, count: int, until: Time)

  type Entries = map<string, Entry>

  function ExpiresAt(ttl: int, now: Time): Time { if ttl <= 0 then 0 else now + ttl }

  /** What `Get` still finds. */
  predicate Kept(m: Entries, key: string, now: Time) {
    key in m && (m[key].until == 0 || now <= m[key].until)
  }

  function Written(m: Entries, key: string, value: string, ttl: int, now: Time): Entries {
    m[key := Entry(value, 0, ExpiresAt(ttl, now))]
  }

  /** What was put is found until its TTL is over, that instant included, or for ever when it was given none; and
      nothing else is touched. */
  lemma PutIsFound(m: Entries, key: string, value: string, ttl: int, now: Time, later: Time)
    requires 0 < now <= later
    ensures var n := Written(m, key, value, ttl, now);
      && (Kept(n, key, later) <==> ttl <= 0 || later <= now + ttl) && n[key].value == value
      && forall other | other != key :: (other in n <==> other in m) && (other in m ==> n[other] == m[other])
  {
  }

  predicate Held<K(==)>(m: map<K, Entry>, key: K, now: Time) { key in m && now < m[key].until }

  /** One claim: nothing while the name is held, otherwise the name until `ttl` from now. */
  function Claimed<K(==)>(m: map<K, Entry>, key: K, ttl: int, now: Time): map<K, Entry> {
    if Held(m, key, now) then m else m[key := Entry("1", 0, now + ttl)]
  }

  /** Claims one after another at one instant. */
  function ClaimedAll<K(==)>(m: map<K, Entry>, keys: seq<K>, ttl: int, now: Time): map<K, Entry> {
    if keys == [] then m else Claimed(ClaimedAll(m, keys[..|keys| - 1], ttl, now), keys[|keys| - 1], ttl, now)
  }

  function Answers<K(==)>(m: map<K, Entry>, keys: seq<K>, ttl: int, now: Time): (r: seq<bool>)
    ensures |r| == |keys|
  {
    if keys == [] then [] else
    var front := keys[..|keys| - 1];
    Answers(m, front, ttl, now) + [!Held(ClaimedAll(m, front, ttl, now), keys[|keys| - 1], now)]
  }

  lemma {:induction false} ClaimedAllAt<K>(m: map<K, Entry>, keys: seq<K>, ttl: int, now: Time, k: K)
    requires Distinct(keys)
    ensures k in ClaimedAll(m, keys, ttl, now) <==> k in m || k in keys
    ensures k in keys && !Held(m, k, now) ==> ClaimedAll(m, keys, ttl, now)[k] == Entry("1", 0, now + ttl)
    ensures k in m && (k !in keys || Held(m, k, now)) ==> ClaimedAll(m, keys, ttl, now)[k] == m[k]
  {
    if keys != [] {
      var front, last := keys[..|keys| - 1], keys[|keys| - 1];
      ClaimedAllAt(m, front, ttl, now, k);
      assert last !in front;
      assert k in keys <==> k in front || k == last;
    }
  }

  /** For distinct names each answer is the store's alone: it does not depend on the other names, or on the
      order they are asked in -- so claims made in parallel answer as one call does. */
  lemma {:induction false} AnswersAreIndependent<K>(m: map<K, Entry>, keys: seq<K>, ttl: int, now: Time, i: nat)
    requires Distinct(keys) && i < |keys|
    ensures Answers(m, keys, ttl, now)[i] == !Held(m, keys[i], now)
    decreases |keys|
  {
    var front := keys[..|keys| - 1];
    if i < |front| {
      AnswersAreIndependent(m, front, ttl, now, i);
    } else {
      ClaimedAllAt(m, front, ttl, now, keys[i]);
    }
  }

  /** The store a set of claims leaves does not depend on their order either. */
  lemma OrderIsIrrelevant<K>(m: map<K, Entry>, a: seq<K>, b: seq<K>, ttl: int, now: Time)
    requires Distinct(a) && Distinct(b) && Elements(a) == Elements(b)
    ensures ClaimedAll(m, a, ttl, now) == ClaimedAll(m, b, ttl, now)
  {
    var x, y := ClaimedAll(m, a, ttl, now), ClaimedAll(m, b, ttl, now);
    forall k: K ensures k in a <==> k in b {
      assert k in Elements(a) <==> k in a;
      assert k in Elements(b) <==> k in b;
    }
    forall k: K | k in x ensures k in y && x[k] == y[k] {
      ClaimedAllAt(m, a, ttl, now, k);
      ClaimedAllAt(m, b, ttl, now, k);
    }
    forall k: K | k in y ensures k in x {
      ClaimedAllAt(m, a, ttl, now, k);
      ClaimedAllAt(m, b, ttl, now, k);
    }
  }

  lemma {:induction false} AskedIsHeld<K>(m: map<K, Entry>, keys: seq<K>, ttl: int, now: Time, i: nat)
    requires ttl > 0 && i < |keys|
    ensures Held(ClaimedAll(m, keys, ttl, now), keys[i], now)
    decreases |keys|
  {
    if i < |keys| - 1 { AskedIsHeld(m, keys[..|keys| - 1], ttl, now, i); }
  }

  /** A name asked for twice is won at most once. */
  lemma {:induction false} RepeatLoses<K>(m: map<K, Entry>, keys: seq<K>, ttl: int, now: Time, i: nat, j: nat)
    requires ttl > 0 && i < j < |keys| && keys[i] == keys[j]
    ensures !Answers(m, keys, ttl, now)[j]
    decreases |keys|
  {
    var front := keys[..|keys| - 1];
    if j < |front| {
      RepeatLoses(m, front, ttl, now, i, j);
    } else {
      AskedIsHeld(m, front, ttl, now, i);
    }
  }

  // ----- the rolling counter ------------------------------------------------------------------

  /** The clock as an increment reads it: at the check, and again to set an expiry. */
  datatype Beat = Beat(asked: Time, written: Time)

  /** The expiry is set when the counter is created, and not extended by an increment. */
  function Incremented(m: Entries, key: string, ttl: int, b: Beat): Entries {
    var e := if key !in m || b.asked > m[key].until then Entry("", 0, b.written + ttl) else m[key];
    m[key := e.(count := e.count + 1)]
  }

  function IncrementedAll(m: Entries, key: string, ttl: int, beats: seq<Beat>): Entries {
    if beats == [] then m else
    Incremented(IncrementedAll(m, key, ttl, beats[..|beats| - 1]), key, ttl, beats[|beats| - 1])
  }

  /** A busy key still expires: every increment until then counts, and the one after starts again at one. */
  lemma {:induction false} WindowRolls(m: Entries, key: string, ttl: int, beats: seq<Beat>, after: Beat)
    requires beats != [] && (key !in m || beats[0].asked > m[key].until)
    requires forall i | 1 <= i < |beats| :: beats[i].asked <= beats[0].written + ttl
    requires after.asked > beats[0].written + ttl
    ensures var n := IncrementedAll(m, key, ttl, beats);
      key in n && n[key].count == |beats| && n[key].until == beats[0].written + ttl
      && Incremented(n, key, ttl, after)[key].count == 1
    decreases |beats|
  {
    if |beats| > 1 {
      var front := beats[..|beats| - 1];
      assert front[0] == beats[0];
      WindowRolls(m, key, ttl, front, after);
    } else {
      assert beats[..0] == [];
    }
  }

  class MemoryMetastore {
    var entries: Entries

    constructor ()
      ensures entries == map[]
    {
      entries := map[];
    }

    method Get(key: string, now: Time) returns (found: Option<string>)
      ensures found.Some? <==> Kept(entries, key, now)
      ensures found.Some? ==> found.value == entries[key].value
    {
      if key !in entries || (entries[key].until != 0 && now > entries[key].until) {
        return None;
      }
      return Some(entries[key].value);
    }

    method Put(key: string, value: string, ttl: int, now: Time)
      modifies this
      ensures entries == Written(old(entries), key, value, ttl, now)
    {
      entries := entries[key := Entry(value, 0, ExpiresAt(ttl, now))];
    }

    /** The clock is read twice, before and after the check. */
    method Claim(key: string, ttl: int, asked: Time, written: Time) returns (won: bool)
      requires asked <= written
      modifies this
      ensures won <==> !Held(old(entries), key, asked)
      ensures asked == written ==> entries == Claimed(old(entries), key, ttl, asked)
      ensures entries == if won then old(entries)[key := Entry("1", 0, written + ttl)] else old(entries)
    {
      if key in entries && asked < entries[key].until {
        return false;
      }
      entries := entries[key := Entry("1", 0, written + ttl)];
      return true;
    }

    /** One lock and one reading of the clock for the whole window: the same as the claims in turn. */
    method ClaimMany(keys: seq<string>, ttl: int, now: Time) returns (out: seq<bool>)
      modifies this
      ensures out == Answers(old(entries), keys, ttl, now)
      ensures entries == ClaimedAll(old(entries), keys, ttl, now)
    {
      out := seq(|keys|, _ => false);
      var i := 0;
      while i < |keys|
        invariant 0 <= i <= |keys| && |out| == |keys|
        invariant out[..i] == Answers(old(entries), keys[..i], ttl, now)
        invariant forall j | i <= j < |keys| :: !out[j]
        invariant entries == ClaimedAll(old(entries), keys[..i], ttl, now)
      {
        assert keys[..i + 1][..i] == keys[..i];
        if !(keys[i] in entries && now < entries[keys[i]].until) {
          entries := entries[keys[i] := Entry("1", 0, now + ttl)];
          out := out[i := true];
        }
        assert out[..i + 1] == out[..i] + [out[i]];
        i := i + 1;
      }
      assert keys[..i] == keys && out[..i] == out;
    }

    /** The clock is read again only to set an expiry. */
    method Incr(key: string, ttl: int, asked: Time, written: Time) returns (count: int)
      requires asked <= written
      modifies this
      ensures entries == Incremented(old(entries), key, ttl, Beat(asked, written))
      ensures count == entries[key].count
    {
      var e := if key in entries then entries[key] else Entry("", 0, 0);
      if key !in entries || asked > e.until {
        e := Entry("", 0, written + ttl);
      }
      e := e.(count := e.count + 1);
      entries := entries[key := e];
      count := e.count;
    }
  }
}
