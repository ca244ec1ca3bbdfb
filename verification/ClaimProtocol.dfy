/** Replicas of one stream contesting its flush windows, over one atomic store keyed by the names and one clock. */
module ClaimProtocol {
  import opened Buffering
  import opened ClaimKeys
  import opened Metastore

  /** Whose windows they are, and how long one is. */
  datatype Site = Site(gateway: string, stream: string, every: int)
  {
    function Name(key: string, t: Time): string
      requires Printable(t, every)
    {
      ClaimKey(gateway, stream, key, Window(t, every))
    }
  }

  /** What a claim is for: a routing key, and the start of a window. */
  datatype Contest = Contest(key: string, window: Time)

  /** A claim on its way: a replica fixed the window and the name when it read its clock, and the store has not
      answered. */
  datatype Asking = Asking(replica: nat, contest: Contest, name: string)

  /** A claim the store granted, and when. */
  datatype Win = Win(claim: Asking, at: Time)

  datatype State = State(now: Time, store: map<string, Entry>, asking: set<Asking>, wins: seq<Win>)

  datatype Action = Tick(to: Time) | Ask(replica: nat, key: string) | Arrive(claim: Asking)

  predicate Enabled(site: Site, s: State, a: Action) {
    match a
    case Tick(to) => to >= s.now
    case Ask(_, _) => Printable(s.now, site.every)
    case Arrive(claim) => claim in s.asking
  }

  function Apply(site: Site, s: State, a: Action): State
    requires site.every > 0 && Enabled(site, s, a)
  {
    match a
    case Tick(to) => s.(now := to)
    case Ask(r, key) =>
      var contest := Contest(key, Truncate(s.now, site.every));
      s.(asking := s.asking + {Asking(r, contest, site.Name(key, s.now))})
    case Arrive(claim) =>
      s.(store := Claimed(s.store, claim.name, site.every, s.now), asking := s.asking - {claim},
         wins := if Held(s.store, claim.name, s.now) then s.wins else s.wins + [Win(claim, s.now)])
  }

  ghost predicate Init(s: State) { s.now >= 0 && s.store == map[] && s.asking == {} && s.wins == [] }

  /** The state an interleaving of these actions leads to, if each can be taken in turn. */
  ghost predicate Leads(site: Site, s: State, acts: seq<Action>, t: State)
    requires site.every > 0
    decreases |acts|
  {
    if acts == [] then s == t
    else Enabled(site, s, acts[0]) && Leads(site, Apply(site, s, acts[0]), acts[1..], t)
  }

  // ----- what every state keeps ---------------------------------------------------------------

  /** A claim goes by its contest's name. */
  predicate Labelled(site: Site, claim: Asking) {
    var w := claim.contest.window;
    site.every > 0 && Truncate(w, site.every) == w && Printable(w, site.every)
      && claim.name == site.Name(claim.contest.key, w)
  }

  /** Each name won is held from its last win for a window's length. */
  ghost predicate Covered(site: Site, store: map<string, Entry>, wins: seq<Win>, now: Time) {
    forall i | 0 <= i < |wins| ::
      && Labelled(site, wins[i].claim) && wins[i].at <= now
      && wins[i].claim.name in store && store[wins[i].claim.name].until >= wins[i].at + site.every
  }

  predicate HeldBy(site: Site, win: Win, name: string, until: Time) {
    win.claim.name == name && until == win.at + site.every
  }

  /** And no other name is. */
  ghost predicate Won(site: Site, store: map<string, Entry>, wins: seq<Win>) {
    forall name | name in store :: exists i | 0 <= i < |wins| :: HeldBy(site, wins[i], name, store[name].until)
  }

  ghost predicate Traced(site: Site, s: State) {
    && (forall a | a in s.asking :: Labelled(site, a) && a.contest.window <= s.now)
    && Covered(site, s.store, s.wins, s.now) && Won(site, s.store, s.wins)
  }

  lemma WindowIsItsOwn(t: Time, every: int)
    requires every > 0
    ensures Truncate(Truncate(t, every), every) == Truncate(t, every)
  {
    StartsWindow(t / every, every);
    TruncateBounds(t, every);
  }

  lemma OneMoreWon(site: Site, store: map<string, Entry>, wins: seq<Win>, claim: Asking, now: Time)
    requires Won(site, store, wins) && !Held(store, claim.name, now)
    ensures Won(site, Claimed(store, claim.name, site.every, now), wins + [Win(claim, now)])
  {
    var next, more := Claimed(store, claim.name, site.every, now), wins + [Win(claim, now)];
    forall name | name in next ensures exists i | 0 <= i < |more| :: HeldBy(site, more[i], name, next[name].until) {
      if name == claim.name {
        assert HeldBy(site, more[|wins|], name, next[name].until);
      } else {
        var i :| 0 <= i < |wins| && HeldBy(site, wins[i], name, store[name].until);
        assert HeldBy(site, more[i], name, next[name].until);
      }
    }
  }

  lemma OneMoreCovered(site: Site, store: map<string, Entry>, wins: seq<Win>, claim: Asking, now: Time)
    requires Covered(site, store, wins, now) && Labelled(site, claim) && !Held(store, claim.name, now)
    ensures Covered(site, Claimed(store, claim.name, site.every, now), wins + [Win(claim, now)], now)
  {
  }

  lemma ArriveTraced(site: Site, s: State, claim: Asking)
    requires site.every > 0 && Traced(site, s) && claim in s.asking
    ensures Traced(site, Apply(site, s, Arrive(claim)))
  {
    if Held(s.store, claim.name, s.now) {
      assert Claimed(s.store, claim.name, site.every, s.now) == s.store;
    } else {
      OneMoreWon(site, s.store, s.wins, claim, s.now);
      OneMoreCovered(site, s.store, s.wins, claim, s.now);
    }
  }

  lemma StepTraced(site: Site, s: State, a: Action)
    requires site.every > 0 && Traced(site, s) && Enabled(site, s, a)
    ensures Traced(site, Apply(site, s, a))
  {
    match a
    case Tick(_) =>
    case Ask(_, _) =>
      WindowIsItsOwn(s.now, site.every);
      TruncateBounds(s.now, site.every);
    case Arrive(claim) => ArriveTraced(site, s, claim);
  }

  lemma {:induction false} LeadsTraced(site: Site, s: State, acts: seq<Action>, t: State)
    requires site.every > 0 && Traced(site, s) && Leads(site, s, acts, t)
    ensures Traced(site, t)
    decreases |acts|
  {
    if acts != [] {
      StepTraced(site, s, acts[0]);
      LeadsTraced(site, Apply(site, s, acts[0]), acts[1..], t);
    }
  }

  // ----- who is refused -----------------------------------------------------------------------

  /** A win that stands in the way of a claim at `now`: for the same key, of a window that begins in the same second,
      and less than a window's length ago. */
  predicate InTheWay(site: Site, win: Win, claim: Asking, now: Time)
    requires site.every > 0
  {
    && win.claim.contest.key == claim.contest.key
    && WindowSecond(win.claim.contest.window, site.every) == WindowSecond(claim.contest.window, site.every)
    && now < win.at + site.every
  }

  lemma SameName(site: Site, a: Asking, b: Asking)
    requires Labelled(site, a) && Labelled(site, b)
    ensures a.name == b.name <==>
      && a.contest.key == b.contest.key
      && WindowSecond(a.contest.window, site.every) == WindowSecond(b.contest.window, site.every)
  {
    NamesAgree(site.gateway, site.stream, a.contest.key, a.contest.window, b.contest.key, b.contest.window, site.every);
  }

  /** On any run, late claims and short windows included, the store refuses a claim exactly when some win stands in its
      way. */
  lemma RefusedExactlyThen(site: Site, s: State, acts: seq<Action>, t: State, claim: Asking)
    requires site.every > 0 && Init(s) && Leads(site, s, acts, t) && claim in t.asking
    ensures Held(t.store, claim.name, t.now) <==>
      exists i | 0 <= i < |t.wins| :: InTheWay(site, t.wins[i], claim, t.now)
  {
    LeadsTraced(site, s, acts, t);
    if Held(t.store, claim.name, t.now) {
      var i :| 0 <= i < |t.wins| && HeldBy(site, t.wins[i], claim.name, t.store[claim.name].until);
      SameName(site, t.wins[i].claim, claim);
      assert InTheWay(site, t.wins[i], claim, t.now);
    }
    if i :| 0 <= i < |t.wins| && InTheWay(site, t.wins[i], claim, t.now) { SameName(site, t.wins[i].claim, claim); }
  }

  /** So with windows of a second or more the first claim of a window to reach the store wins it, however late. */
  lemma FirstClaimWins(site: Site, s: State, acts: seq<Action>, t: State, claim: Asking)
    requires site.every >= SECOND && Init(s) && Leads(site, s, acts, t) && claim in t.asking
    requires forall i | 0 <= i < |t.wins| :: t.wins[i].claim.contest != claim.contest
    ensures !Held(t.store, claim.name, t.now)
  {
    LeadsTraced(site, s, acts, t);
    RefusedExactlyThen(site, s, acts, t, claim);
    if i :| 0 <= i < |t.wins| && InTheWay(site, t.wins[i], claim, t.now) {
      WindowsApart(t.wins[i].claim.contest.window, claim.contest.window, site.every);
    }
  }

  // ----- at most once -------------------------------------------------------------------------

  /** A claim reaches the store while its window is still open. */
  predicate InTime(every: int, s: State, a: Action) { a.Arrive? ==> s.now < a.claim.contest.window + every }

  ghost predicate AllInTime(site: Site, s: State, acts: seq<Action>)
    requires site.every > 0
    decreases |acts|
  {
    acts == [] ||
    (Enabled(site, s, acts[0]) && InTime(site.every, s, acts[0])
     && AllInTime(site, Apply(site, s, acts[0]), acts[1..]))
  }

  ghost predicate WonOnce(wins: seq<Win>) {
    forall i, j | 0 <= i < j < |wins| :: wins[i].claim.contest != wins[j].claim.contest
  }

  /** A window is won while it lasts. */
  ghost predicate WonInTime(site: Site, wins: seq<Win>) {
    forall i | 0 <= i < |wins| ::
      wins[i].claim.contest.window <= wins[i].at < wins[i].claim.contest.window + site.every
  }

  lemma StepWonOnce(site: Site, s: State, a: Action)
    requires site.every > 0 && Traced(site, s) && WonOnce(s.wins) && WonInTime(site, s.wins)
    requires Enabled(site, s, a) && InTime(site.every, s, a)
    ensures WonOnce(Apply(site, s, a).wins) && WonInTime(site, Apply(site, s, a).wins)
  {
    if a.Arrive? {
      forall i | 0 <= i < |s.wins| && s.wins[i].claim.contest == a.claim.contest
        ensures Held(s.store, a.claim.name, s.now)
      {
        SameName(site, s.wins[i].claim, a.claim);
      }
    }
  }

  lemma {:induction false} LeadsWonOnce(site: Site, s: State, acts: seq<Action>, t: State)
    requires site.every > 0 && Traced(site, s) && WonOnce(s.wins) && WonInTime(site, s.wins)
    requires Leads(site, s, acts, t) && AllInTime(site, s, acts)
    ensures WonOnce(t.wins) && WonInTime(site, t.wins) && Traced(site, t)
    decreases |acts|
  {
    if acts != [] {
      StepTraced(site, s, acts[0]);
      StepWonOnce(site, s, acts[0]);
      LeadsWonOnce(site, Apply(site, s, acts[0]), acts[1..], t);
    }
  }

  /** However late in its window the first claim came, nobody else wins the window. */
  lemma AtMostOnce(site: Site, s: State, acts: seq<Action>, t: State)
    requires site.every > 0 && Init(s) && Leads(site, s, acts, t) && AllInTime(site, s, acts)
    ensures WonOnce(t.wins)
  {
    LeadsWonOnce(site, s, acts, t);
  }

  /** With every claim taken inside its window, windows of one nanosecond are as good as those of a second: no win of
      another stands in the way. */
  lemma FirstOfAnInstantWins(site: Site, s: State, acts: seq<Action>, t: State, claim: Asking)
    requires site.every == 1 && Init(s) && Leads(site, s, acts, t) && AllInTime(site, s, acts)
    requires claim in t.asking && InTime(site.every, t, Arrive(claim))
    requires forall i | 0 <= i < |t.wins| :: t.wins[i].claim.contest != claim.contest
    ensures !Held(t.store, claim.name, t.now)
  {
    LeadsWonOnce(site, s, acts, t);
    RefusedExactlyThen(site, s, acts, t, claim);
  }

  /** The bound is exact: at an instant `t` the name is held against every earlier winner of the window just
      when the window is still open. */
  lemma HeldIffInTime(every: int, m: map<string, Entry>, name: string, window: Time, t: Time)
    requires every > 0 && name !in m
    ensures (forall first | window <= first < window + every :: Held(Claimed(m, name, every, first), name, t))
            <==> t < window + every
  {
    if t >= window + every {
      assert !Held(Claimed(m, name, every, window), name, t);
    }
  }

  // ----- the runs that fall short -------------------------------------------------------------

  function ClaimOf(site: Site, replica: nat, key: string, t: Time): Asking
    requires Printable(t, site.every)
  {
    Asking(replica, Contest(key, Truncate(t, site.every)), site.Name(key, t))
  }

  /** A replica asks, and its claim arrives. */
  function OneAsks(site: Site, replica: nat, key: string, ask: Time, arrive: Time): seq<Action>
    requires Printable(ask, site.every)
  {
    [Tick(ask), Ask(replica, key), Tick(arrive), Arrive(ClaimOf(site, replica, key, ask))]
  }

  lemma {:induction false} LeadsOn(site: Site, s: State, xs: seq<Action>, m: State, ys: seq<Action>, t: State)
    requires site.every > 0 && Leads(site, s, xs, m) && Leads(site, m, ys, t)
    ensures Leads(site, s, xs + ys, t)
    decreases |xs|
  {
    if xs == [] {
      assert xs + ys == ys;
    } else {
      assert (xs + ys)[1..] == xs[1..] + ys;
      LeadsOn(site, Apply(site, s, xs[0]), xs[1..], m, ys, t);
    }
  }

  lemma OneAsksLeads(site: Site, s: State, replica: nat, key: string, ask: Time, arrive: Time) returns (n: State)
    requires Printable(ask, site.every) && s.now <= ask <= arrive && s.asking == {}
    ensures Leads(site, s, OneAsks(site, replica, key, ask, arrive), n) && n.now == arrive && n.asking == {}
    ensures var claim := ClaimOf(site, replica, key, ask);
      && n.store == Claimed(s.store, claim.name, site.every, arrive)
      && n.wins == if Held(s.store, claim.name, arrive) then s.wins else s.wins + [Win(claim, arrive)]
  {
    var acts, claim := OneAsks(site, replica, key, ask, arrive), ClaimOf(site, replica, key, ask);
    var a := Apply(site, s, Tick(ask));
    var b := Apply(site, a, Ask(replica, key));
    var c := Apply(site, b, Tick(arrive));
    n := Apply(site, c, Arrive(claim));
    assert b.asking == {claim} && n.asking == {};
    assert Leads(site, n, [], n) && acts[3..] == [Arrive(claim)] && acts[3..][1..] == [];
    assert Leads(site, c, acts[3..], n);
    assert acts[2..][1..] == acts[3..] && Leads(site, b, acts[2..], n);
    assert acts[1..][1..] == acts[2..] && Leads(site, a, acts[1..], n);
  }

  /** Two replicas ask for a key and their claims arrive, one after the other. */
  function TwoAsk(site: Site, key: string, first: Time, won: Time, second: Time, late: Time): seq<Action>
    requires Printable(first, site.every) && Printable(second, site.every)
  {
    OneAsks(site, 0, key, first, won) + OneAsks(site, 1, key, second, late)
  }

  /** The second is granted just when it is for another name, or the first has expired. */
  lemma TwoAskLead(site: Site, s: State, key: string, first: Time, won: Time, second: Time, late: Time)
    returns (n: State)
    requires Init(s) && Printable(first, site.every) && Printable(second, site.every)
    requires s.now <= first <= won <= second <= late
    ensures Leads(site, s, TwoAsk(site, key, first, won, second, late), n) && n.asking == {}
    ensures var a, b := ClaimOf(site, 0, key, first), ClaimOf(site, 1, key, second);
      n.wins == if a.name == b.name && late < won + site.every then [Win(a, won)] else [Win(a, won), Win(b, late)]
  {
    var m := OneAsksLeads(site, s, 0, key, first, won);
    n := OneAsksLeads(site, m, 1, key, second, late);
    LeadsOn(site, s, OneAsks(site, 0, key, first, won), m, OneAsks(site, 1, key, second, late), n);
  }

  /** A claim that reaches the store after its window closed can win a window that was already won: for every
      window and every instant past its end, this run does. */
  lemma LateClaimWinsAgain(site: Site, s: State, key: string, window: Time, late: Time) returns (n: State)
    requires Init(s) && Printable(window, site.every) && s.now <= window && late >= window + site.every
    requires Truncate(window, site.every) == window
    ensures Leads(site, s, TwoAsk(site, key, window, window, window, late), n) && !WonOnce(n.wins)
  {
    n := TwoAskLead(site, s, key, window, window, window, late);
    assert n.wins[0].claim.contest == n.wins[1].claim.contest;
  }

  lemma SharedNameLoses(site: Site, s: State, key: string, t: Time, u: Time) returns (n: State)
    requires site.every > 1 && Init(s) && s.now <= t && u == t + site.every
    requires Printable(t, site.every) && Printable(u, site.every) && site.Name(key, t) == site.Name(key, u)
    ensures Leads(site, s, TwoAsk(site, key, t, u - 1, u, u), n)
    ensures n.asking == {} && n.wins == [Win(ClaimOf(site, 0, key, t), u - 1)]
  {
    n := TwoAskLead(site, s, key, t, u - 1, u, u);
  }

  /** From two nanoseconds to a second a window can be lost to its neighbour: it is asked for and the claim arrives in
      its time, nobody else asks for it, and it is never won. Every second that is a multiple of the length begins with
      such a pair. */
  lemma NeighbourLoses(site: Site, s: State, key: string, k: nat, t: Time, u: Time) returns (n: State)
    requires Init(s) && 1 < site.every < SECOND && t == k * SECOND * site.every && u == t + site.every
    requires Printable(t, site.every) && s.now <= t
    ensures Printable(u, site.every) && Truncate(u, site.every) == u
    ensures Leads(site, s, TwoAsk(site, key, t, u - 1, u, u), n)
    ensures n.asking == {} && forall i | 0 <= i < |n.wins| :: n.wins[i].claim.contest != Contest(key, u)
  {
    ShortWindowsCollide(site.gateway, site.stream, key, site.every, k);
    n := SharedNameLoses(site, s, key, t, u);
  }
}
