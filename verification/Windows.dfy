/** Which due buckets a flush hands off: the specification of `winners` and `claimAll`, and what it keeps. */
module Windows {
  import opened Ordering
  import opened Outcomes
  import opened Buffering
  import opened PipeProtocol
  import opened ClaimKeys
  import Metastore

  /** What the metastore answers to a list of names: one bit each, or an error. */
  type Store = seq<string> -> Result<seq<bool>, string>

  /** The keys due, each at the instant the clock was read for it. */
  ghost function DueKeys(c: Settings, bs: Shares, seen: map<string, Time>): set<string> {
    set k | k in bs && k in seen && Due(c, Some(bs[k]), seen[k])
  }

  /** The ceiling has closed on the bucket of `key`, as its deadline says. */
  predicate Spent(c: Settings, bs: Shares, key: string, at: Time) {
    key in bs && Deadline(c, Some(bs[key]), at) <= 0
  }

  /** The keys that leave without asking, each as its own reading of the clock says. */
  function Closed(c: Settings, bs: Shares, keys: seq<string>, at: seq<Time>): seq<string>
    requires |at| == |keys|
  {
    if keys == [] then [] else
    var n := |keys| - 1;
    Closed(c, bs, keys[..n], at[..n]) + (if Spent(c, bs, keys[n], at[n]) then [keys[n]] else [])
  }

  /** The keys the metastore is asked about. */
  function Open(c: Settings, bs: Shares, keys: seq<string>, at: seq<Time>): seq<string>
    requires |at| == |keys|
  {
    if keys == [] then [] else
    var n := |keys| - 1;
    Open(c, bs, keys[..n], at[..n]) + (if Spent(c, bs, keys[n], at[n]) then [] else [keys[n]])
  }

  function Granted(keys: seq<string>, bits: seq<bool>): seq<string>
    requires |keys| == |bits|
  {
    if keys == [] then [] else
    var n := |keys| - 1;
    var before := Granted(keys[..n], bits[..n]);
    if bits[n] then before + [keys[n]] else before
  }

  /** `claimAll`: an answer of the wrong length is an error. */
  function Asked(store: Store, names: seq<string>): (r: Result<seq<bool>, string>)
    ensures r.Ok? ==> |r.value| == |names|
  {
    match store(names)
    case Err(e) => Err(e)
    case Ok(bits) => if |bits| != |names| then Err("wrong length") else Ok(bits)
  }

  /** Where the names come from: the gateway, the stream and the window. */
  datatype Place = Place(gateway: string, stream: string, window: string)

  /** The name each key contests. */
  function Names(p: Place, keys: seq<string>): (r: seq<string>)
    ensures |r| == |keys|
  {
    if keys == [] then [] else
    Names(p, keys[..|keys| - 1]) + [ClaimKey(p.gateway, p.stream, keys[|keys| - 1], p.window)]
  }

  /** Those past the ceiling, and those the answer grants; with no answer, all of them. */
  function Granting(closed: seq<string>, open: seq<string>, answer: Result<seq<bool>, string>): seq<string>
    requires answer.Ok? ==> |answer.value| == |open|
  {
    match answer
    case Err(_) => closed + open
    case Ok(bits) => closed + Granted(open, bits)
  }

  function Winners(c: Settings, coordinated: bool, bs: Shares, due: seq<string>, at: seq<Time>,
                   store: Store, p: Place): seq<string>
    requires |at| == |due|
  {
    if !c.claim || !coordinated || due == [] then due else
    var closed, open := Closed(c, bs, due, at), Open(c, bs, due, at);
    if open == [] then closed else Granting(closed, open, Asked(store, Names(p, open)))
  }

  /** The names asked for in one window are as distinct as the keys, so no table is handed another's answer. */
  lemma {:induction false} NamesDistinct(p: Place, keys: seq<string>)
    requires Distinct(keys)
    ensures Distinct(Names(p, keys))
    ensures forall i | 0 <= i < |keys| :: Names(p, keys)[i] == ClaimKey(p.gateway, p.stream, keys[i], p.window)
  {
    if keys != [] {
      var n := |keys| - 1;
      NamesDistinct(p, keys[..n]);
      forall i | 0 <= i < n ensures Names(p, keys)[i] != Names(p, keys)[n] {
        if ClaimKey(p.gateway, p.stream, keys[i], p.window) == ClaimKey(p.gateway, p.stream, keys[n], p.window) {
          ClaimKeyParts(p.gateway, p.stream, keys[i], p.window, keys[n], p.window);
        }
      }
    }
  }

  lemma {:induction false} ClosedIs(c: Settings, bs: Shares, keys: seq<string>, at: seq<Time>)
    requires Distinct(keys) && |at| == |keys|
    ensures Distinct(Closed(c, bs, keys, at)) && forall k | k in Closed(c, bs, keys, at) :: k in keys
    ensures forall i | 0 <= i < |keys| :: keys[i] in Closed(c, bs, keys, at) <==> Spent(c, bs, keys[i], at[i])
  {
    if keys != [] {
      var n := |keys| - 1;
      ClosedIs(c, bs, keys[..n], at[..n]);
      assert keys[n] !in keys[..n] && forall i | 0 <= i < n :: keys[i] == keys[..n][i];
    }
  }

  lemma {:induction false} OpenIs(c: Settings, bs: Shares, keys: seq<string>, at: seq<Time>)
    requires Distinct(keys) && |at| == |keys|
    ensures Distinct(Open(c, bs, keys, at)) && forall k | k in Open(c, bs, keys, at) :: k in keys
    ensures forall i | 0 <= i < |keys| :: keys[i] in Open(c, bs, keys, at) <==> !Spent(c, bs, keys[i], at[i])
  {
    if keys != [] {
      var n := |keys| - 1;
      OpenIs(c, bs, keys[..n], at[..n]);
      assert keys[n] !in keys[..n] && forall i | 0 <= i < n :: keys[i] == keys[..n][i];
    }
  }

  lemma ClosedOrOpen(c: Settings, bs: Shares, keys: seq<string>, at: seq<Time>)
    requires Distinct(keys) && |at| == |keys|
    ensures Distinct(Closed(c, bs, keys, at)) && Distinct(Open(c, bs, keys, at))
    ensures forall i | 0 <= i < |keys| ::
      if Spent(c, bs, keys[i], at[i]) then keys[i] in Closed(c, bs, keys, at) && keys[i] !in Open(c, bs, keys, at)
      else keys[i] in Open(c, bs, keys, at) && keys[i] !in Closed(c, bs, keys, at)
    ensures forall k | k in Closed(c, bs, keys, at) || k in Open(c, bs, keys, at) :: k in keys
  {
    ClosedIs(c, bs, keys, at);
    OpenIs(c, bs, keys, at);
  }

  lemma ClosedAndOpenApart(c: Settings, bs: Shares, keys: seq<string>, at: seq<Time>)
    requires Distinct(keys) && |at| == |keys|
    ensures forall k | k in Closed(c, bs, keys, at) :: k !in Open(c, bs, keys, at)
  {
    ClosedOrOpen(c, bs, keys, at);
    forall k | k in Closed(c, bs, keys, at) ensures k !in Open(c, bs, keys, at) {
      var i :| 0 <= i < |keys| && keys[i] == k;
    }
  }

  lemma {:induction false} GrantedPart(keys: seq<string>, bits: seq<bool>)
    requires Distinct(keys) && |keys| == |bits|
    ensures Distinct(Granted(keys, bits))
    ensures forall k | k in Granted(keys, bits) :: k in keys
  {
    if keys != [] {
      var n := |keys| - 1;
      GrantedPart(keys[..n], bits[..n]);
      assert keys[n] !in keys[..n];
    }
  }

  lemma JoinDistinct(a: seq<string>, b: seq<string>)
    requires Distinct(a) && Distinct(b) && forall k | k in a :: k !in b
    ensures Distinct(a + b)
    ensures forall k :: k in a + b <==> k in a || k in b
  {
    forall i, j | 0 <= i < j < |a + b| ensures (a + b)[i] != (a + b)[j] {
      if i < |a| <= j { assert a[i] in a && b[j - |a|] in b; }
    }
  }

  /** What a flush read of the clock: for each bucket as it looked which are due, for each of those as it looked which
      are past their ceiling, and for the name of the window. */
  datatype Survey = Survey(seen: map<string, Time>, at: seq<Time>, named: Time)

  ghost predicate Surveyed(c: Settings, bs: Shares, due: seq<string>, q: Survey, since: Time, now: Time) {
    && q.seen.Keys == bs.Keys && (forall k | k in q.seen :: since <= q.seen[k] <= now)
    && |q.at| == |due| && (forall i | 0 <= i < |q.at| :: since <= q.at[i] <= now)
    && since <= q.named <= now
  }

  /** A walk over the buckets, but for those `left`, each as the clock was read for it. */
  ghost predicate Walked(c: Settings, bs: Shares, due: seq<string>, seen: map<string, Time>, left: set<string>,
                         since: Time, now: Time)
  {
    && left <= bs.Keys && Distinct(due) && seen.Keys == bs.Keys - left && since <= now
    && (forall k | k in seen :: since <= seen[k] <= now)
    && forall k :: k in due <==> k in seen && Due(c, Some(bs[k]), seen[k])
  }

  lemma WalkOn(c: Settings, bs: Shares, due: seq<string>, seen: map<string, Time>, left: set<string>, since: Time,
               prior: Time, now: Time, k: string, more: seq<string>)
    requires Walked(c, bs, due, seen, left, since, prior) && k in left && prior <= now
    requires more == if Due(c, Some(bs[k]), now) then due + [k] else due
    ensures Walked(c, bs, more, seen[k := now], left - {k}, since, now)
  {
  }

  lemma WalkIsOver(c: Settings, bs: Shares, due: seq<string>, seen: map<string, Time>, since: Time, now: Time)
    requires Walked(c, bs, due, seen, {}, since, now)
    ensures Sort(due) == SortedKeys(DueKeys(c, bs, seen)) && Distinct(Sort(due))
    ensures forall k | k in Sort(due) :: k in bs
    ensures seen.Keys == bs.Keys && forall k | k in seen :: since <= seen[k] <= now
  {
    assert Elements(due) == DueKeys(c, bs, seen);
    SortedKeysOf(due);
    SortOfDistinct(due);
    forall k | k in Sort(due) ensures k in bs { assert k in Elements(Sort(due)); }
  }

  lemma ThatIsSurveyed(c: Settings, bs: Shares, due: seq<string>, q: Survey, since: Time, walked: Time, now: Time)
    requires q.seen.Keys == bs.Keys && since <= walked && forall k | k in q.seen :: since <= q.seen[k] <= walked
    requires |q.at| == |due| && walked <= q.named <= now && forall i | 0 <= i < |q.at| :: walked <= q.at[i] <= now
    ensures Surveyed(c, bs, due, q, since, now)
  {
  }

  lemma StaysDue(c: Settings, b: Share, since: Time, now: Time)
    requires Checked(c) && since <= now
    ensures Due(c, Some(b), since) ==> Due(c, Some(b), now)
    ensures PastCeiling(c, b, since) ==> PastCeiling(c, b, now) && Due(c, Some(b), since)
  {
  }

  lemma AllWinnersMay(c: Settings, bs: Shares, due: seq<string>, q: Survey, since: Time, now: Time)
    requires Checked(c) && Distinct(due) && Elements(due) == DueKeys(c, bs, q.seen)
    requires Surveyed(c, bs, due, q, since, now)
    ensures MayHandOff(c, bs, since, now, due)
  {
    assert forall k :: k in due <==> k in Elements(due);
    forall k | k in bs
      ensures k in due ==> Due(c, Some(bs[k]), now)
      ensures Due(c, Some(bs[k]), since) ==> k in due
      ensures PastCeiling(c, bs[k], since) ==> k in due
    {
      StaysDue(c, bs[k], since, q.seen[k]);
      StaysDue(c, bs[k], q.seen[k], now);
    }
  }

  /** What is past its ceiling when the flush begins is past it when its deadline is looked at. */
  lemma PastIsClosed(c: Settings, bs: Shares, due: seq<string>, at: seq<Time>, since: Time, key: string)
    requires Checked(c) && c.claim && Distinct(due) && |at| == |due|
    requires forall i | 0 <= i < |at| :: since <= at[i]
    requires key in due && key in bs && bs[key].oldest != 0 && PastCeiling(c, bs[key], since)
    ensures key in Closed(c, bs, due, at)
  {
    ClosedOrOpen(c, bs, due, at);
    var i :| 0 <= i < |due| && due[i] == key;
    StaysDue(c, bs[key], since, at[i]);
    SpentIsPastCeiling(c, bs[key], at[i]);
  }

  /** Whatever the store answers, and however the clock moves meanwhile, the winners are a duplicate-free part of the
      due keys that holds every key past its ceiling: what `PipeProtocol` lets a flush hand off. */
  lemma WinnersMayHandOff(c: Settings, coordinated: bool, bs: Shares, due: seq<string>, q: Survey, since: Time,
                          now: Time, store: Store, p: Place)
    requires Checked(c) && Distinct(due) && Elements(due) == DueKeys(c, bs, q.seen)
    requires Surveyed(c, bs, due, q, since, now) && forall k | k in bs :: bs[k].oldest != 0
    ensures MayHandOff(c, bs, since, now, Winners(c, coordinated, bs, due, q.at, store, p))
  {
    AllWinnersMay(c, bs, due, q, since, now);
    if c.claim && coordinated && due != [] {
      var closed, open := Closed(c, bs, due, q.at), Open(c, bs, due, q.at);
      ClosedOrOpen(c, bs, due, q.at);
      ClosedAndOpenApart(c, bs, due, q.at);
      forall k | k in bs && PastCeiling(c, bs[k], since) ensures k in closed {
        PastIsClosed(c, bs, due, q.at, since, k);
      }
      JoinDistinct(closed, open);
      if open != [] {
        var answer := Asked(store, Names(p, open));
        if answer.Ok? {
          GrantedPart(open, answer.value);
          JoinDistinct(closed, Granted(open, answer.value));
        }
      }
    }
  }

  /** A store that fails fails open: every due key wins. */
  lemma FailsOpen(c: Settings, bs: Shares, due: seq<string>, at: seq<Time>, store: Store, p: Place)
    requires Distinct(due) && |at| == |due| && forall names :: store(names).Err?
    ensures Elements(Winners(c, true, bs, due, at, store, p)) == Elements(due)
    ensures Distinct(Winners(c, true, bs, due, at, store, p))
  {
    ClosedOrOpen(c, bs, due, at);
    ClosedAndOpenApart(c, bs, due, at);
    var closed, open := Closed(c, bs, due, at), Open(c, bs, due, at);
    JoinDistinct(closed, open);
    assert Asked(store, Names(p, open)).Err?;
    forall k | k in due ensures k in closed || k in open { var i :| 0 <= i < |due| && due[i] == k; }
  }

  // ----- who wins -----------------------------------------------------------------------------

  lemma {:induction false} GrantedAre(keys: seq<string>, bits: seq<bool>, i: nat)
    requires Distinct(keys) && |keys| == |bits| && i < |keys|
    ensures keys[i] in Granted(keys, bits) <==> bits[i]
    decreases |keys|
  {
    var n := |keys| - 1;
    GrantedPart(keys[..n], bits[..n]);
    assert keys[n] !in keys[..n];
    if i < n { GrantedAre(keys[..n], bits[..n], i); }
  }

  /** The keys asked about are those whose ceiling has not closed, in their order. */
  lemma {:induction false} OpenAre(c: Settings, bs: Shares, keys: seq<string>, at: seq<Time>, i: nat)
    requires Checked(c) && c.claim && Distinct(keys) && |at| == |keys| && i < |keys|
    requires keys[i] in bs && bs[keys[i]].oldest != 0
    ensures keys[i] in Open(c, bs, keys, at) <==> at[i] < bs[keys[i]].oldest + c.maxAge
    ensures keys[i] in Closed(c, bs, keys, at) <==> bs[keys[i]].oldest + c.maxAge <= at[i]
  {
    ClosedOrOpen(c, bs, keys, at);
    SpentIsPastCeiling(c, bs[keys[i]], at[i]);
  }

  /** The store's word on one of the names it is asked of: its yes, or no answer, or answers that are not one a
      name. */
  predicate LetsThrough(store: Store, names: seq<string>, name: string) {
    match store(names)
    case Err(_) => true
    case Ok(bits) => |bits| != |names| || exists j | 0 <= j < |names| :: names[j] == name && bits[j]
  }

  lemma AnswerDecides(closed: seq<string>, open: seq<string>, store: Store, p: Place, key: string)
    requires Distinct(open) && key in open && key !in closed
    ensures key in Granting(closed, open, Asked(store, Names(p, open))) <==>
              LetsThrough(store, Names(p, open), ClaimKey(p.gateway, p.stream, key, p.window))
  {
    NamesDistinct(p, open);
    var answer := Asked(store, Names(p, open));
    if answer.Ok? {
      var j :| 0 <= j < |open| && open[j] == key;
      GrantedAre(open, answer.value, j);
      assert Names(p, open)[j] == ClaimKey(p.gateway, p.stream, key, p.window);
    }
  }

  lemma ClosedWins(closed: seq<string>, open: seq<string>, store: Store, p: Place, key: string)
    requires key in closed
    ensures key in Granting(closed, open, Asked(store, Names(p, open)))
  {
  }

  /** A due key wins exactly when there is no claim or nobody to ask; or its ceiling has closed; or the store, asked of
      the names of those whose ceiling has not, lets it through. */
  lemma WinsExactlyThen(c: Settings, coordinated: bool, bs: Shares, due: seq<string>, at: seq<Time>, store: Store,
                        p: Place, i: nat)
    requires Checked(c) && Distinct(due) && |at| == |due| && i < |due|
    requires due[i] in bs && bs[due[i]].oldest != 0
    ensures due[i] in Winners(c, coordinated, bs, due, at, store, p) <==>
      || !c.claim || !coordinated
      || bs[due[i]].oldest + c.maxAge <= at[i]
      || LetsThrough(store, Names(p, Open(c, bs, due, at)), ClaimKey(p.gateway, p.stream, due[i], p.window))
  {
    if c.claim && coordinated {
      var closed, open := Closed(c, bs, due, at), Open(c, bs, due, at);
      ClosedOrOpen(c, bs, due, at);
      ClosedAndOpenApart(c, bs, due, at);
      OpenAre(c, bs, due, at, i);
      if due[i] in closed {
        ClosedWins(closed, open, store, p, due[i]);
      } else {
        AnswerDecides(closed, open, store, p, due[i]);
      }
    }
  }

  // ----- two flushes of one window ------------------------------------------------------------

  /** A store that holds these entries, asked at one instant. */
  function Holding(m: Metastore.Entries, ttl: int, now: Time): Store {
    (names: seq<string>) => Ok(Metastore.Answers(m, names, ttl, now))
  }

  lemma WonIsHeld(m: Metastore.Entries, names: seq<string>, ttl: int, now: Time, later: Time, name: string)
    requires Distinct(names) && now <= later < now + ttl
    requires exists k | 0 <= k < |names| :: names[k] == name && Metastore.Answers(m, names, ttl, now)[k]
    ensures Metastore.Held(Metastore.ClaimedAll(m, names, ttl, now), name, later)
  {
    var k :| 0 <= k < |names| && names[k] == name && Metastore.Answers(m, names, ttl, now)[k];
    Metastore.AnswersAreIndependent(m, names, ttl, now, k);
    Metastore.ClaimedAllAt(m, names, ttl, now, name);
  }

  /** Two flushes of one window ask one store, the second while what the first won is held: no key inside its ceiling
      wins in both, whatever else each of them asks. */
  lemma WonByOne(c: Settings, p: Place, m: Metastore.Entries, bs: Shares, due: seq<string>, at: seq<Time>, now: Time,
                 bs': Shares, due': seq<string>, at': seq<Time>, now': Time, i: nat, j: nat)
    requires Checked(c) && c.claim && now <= now' < now + c.every
    requires Distinct(due) && |at| == |due| && i < |due| && due[i] in bs && bs[due[i]].oldest != 0
    requires Distinct(due') && |at'| == |due'| && j < |due'| && due'[j] in bs' && bs'[due'[j]].oldest != 0
    requires due[i] == due'[j]
    requires at[i] < bs[due[i]].oldest + c.maxAge && at'[j] < bs'[due'[j]].oldest + c.maxAge
    requires due[i] in Winners(c, true, bs, due, at, Holding(m, c.every, now), p)
    ensures var left := Metastore.ClaimedAll(m, Names(p, Open(c, bs, due, at)), c.every, now);
      due'[j] !in Winners(c, true, bs', due', at', Holding(left, c.every, now'), p)
  {
    var names, names' := Names(p, Open(c, bs, due, at)), Names(p, Open(c, bs', due', at'));
    var name, left := ClaimKey(p.gateway, p.stream, due[i], p.window), Metastore.ClaimedAll(m, names, c.every, now);
    ClosedOrOpen(c, bs, due, at);
    ClosedOrOpen(c, bs', due', at');
    NamesDistinct(p, Open(c, bs, due, at));
    NamesDistinct(p, Open(c, bs', due', at'));
    WinsExactlyThen(c, true, bs, due, at, Holding(m, c.every, now), p, i);
    WinsExactlyThen(c, true, bs', due', at', Holding(left, c.every, now'), p, j);
    WonIsHeld(m, names, c.every, now, now', name);
    if k :| 0 <= k < |names'| && names'[k] == name && Metastore.Answers(left, names', c.every, now')[k] {
      Metastore.AnswersAreIndependent(left, names', c.every, now', k);
    }
  }
}
