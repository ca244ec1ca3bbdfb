/** How long a bucket waits, on runs whose alarms are answered in time. */
module PipeTiming {
  import opened Buffering
  import opened PipeProtocol
  import opened PipeSafety

  /** The age at which a bucket leaves whatever the claim says. */
  function Limit(c: Settings): int { if c.claim then c.maxAge else c.every }

  /** When the lock was last taken: `since`, unless this step took it or let it go. */
  predicate Between(s: State, t: State) { !s.holder.Free? && !t.holder.Free? }

  function Taken(s: State, t: State, since: Time): Time { if Between(s, t) then since else t.now }

  function Since(trace: seq<State>, i: nat): Time
    requires i < |trace|
  {
    if i == 0 then trace[0].now else Taken(trace[i - 1], trace[i], Since(trace, i - 1))
  }

  /** A flush that found the queue full for the bucket of `key` opened at `born`. */
  predicate Refused(s: State, t: State, key: string, born: Time) {
    s.holder.Sending? && s.holder.key == key && s.holder.share.oldest == born && s.holder.timed && t.holder.Handing?
  }

  /** A run on which an alarm is answered within `wait` of ringing, and no goroutine keeps the lock longer than
      `hold`. */
  ghost predicate Prompt(trace: seq<State>, wait: nat, hold: nat) {
    && (forall i | 0 <= i < |trace| :: trace[i].timer.Ringing? ==> trace[i].now <= trace[i].timer.at + wait)
    && (forall i | 0 <= i < |trace| :: trace[i].now <= Since(trace, i) + hold)
  }

  ghost predicate NeverRefused(trace: seq<State>, key: string, born: Time) {
    forall i | 0 <= i < |trace| - 1 :: !Refused(trace[i], trace[i + 1], key, born)
  }

  /** A flush under way has yet to choose, or to come to `k`. */
  predicate Ahead(h: Holder, k: string) {
    match h
    case Choosing(_) => true
    case Handing(keys, timed) => timed && k in keys
    case Sending(_, _, keys, timed) => timed && k in keys
    case CountingRecords(_, keys, timed) => timed && k in keys
    case CountingBytes(_, keys, timed) => timed && k in keys
    case _ => false
  }

  /** An alarm that runs was set before this bucket's time was up, or no longer after than the lock was held; and with
      none running, its time was not up when the lock was taken. */
  predicate InTime(c: Settings, hold: nat, since: Time, timer: Timer, born: Time) {
    match timer
    case Ringing(_, armed) => armed <= born + Limit(c) + hold
    case Off => since <= born + Limit(c)
  }

  /** The bucket of `key` opened at `born`, where it is. */
  predicate Watched(c: Settings, hold: nat, since: Time, s: State, key: string, born: Time) {
    && since <= s.now && (s.holder.Choosing? ==> s.holder.since == since && s.timer == Off)
    && (key in s.buf.shares && s.buf.shares[key].oldest == born ==>
          Ahead(s.holder, key) || InTime(c, hold, since, s.timer, born))
    && (s.holder.Sending? && s.holder.key == key && s.holder.share.oldest == born && !s.holder.timed ==>
          InTime(c, hold, since, s.timer, born))
  }

  lemma FillWatched(c: Settings, hold: nat, since: Time, s: State, key: string, born: Time)
    requires Checked(c) && Shape(s) && Alarmed(c, s) && Watched(c, hold, since, s, key, born) && HolderMay(c, s, Fill)
    ensures Watched(c, hold, since, HolderNext(c, s, Fill), key, born)
  {
  }

  lemma ChooseWatched(c: Settings, hold: nat, since: Time, s: State, winners: seq<string>, key: string, born: Time)
    requires Checked(c) && Watched(c, hold, since, s, key, born) && HolderMay(c, s, Choose(winners))
    ensures Watched(c, hold, since, HolderNext(c, s, Choose(winners)), key, born)
  {
  }

  lemma AttemptWatched(c: Settings, hold: nat, since: Time, s: State, key: string, born: Time)
    requires Shape(s) && Watched(c, hold, since, s, key, born) && HolderMay(c, s, Attempt) && s.closer.NotStarted?
    ensures Watched(c, hold, since, HolderNext(c, s, Attempt), key, born)
  {
  }

  lemma SendWatched(c: Settings, hold: nat, since: Time, s: State, key: string, born: Time)
    requires Shape(s) && Watched(c, hold, since, s, key, born) && HolderMay(c, s, Send) && s.closer.NotStarted?
    requires s.now <= since + hold && !Refused(s, Sent(c, s), key, born)
    ensures Watched(c, hold, since, Sent(c, s), key, born)
  {
  }

  lemma UnlockWatched(c: Settings, hold: nat, since: Time, s: State, key: string, born: Time)
    requires Watched(c, hold, since, s, key, born) && HolderMay(c, s, Unlock)
    requires s.closer.NotStarted? && s.now <= since + hold
    ensures Watched(c, hold, s.now, HolderNext(c, s, Unlock), key, born)
  {
  }

  lemma HolderWatched(c: Settings, hold: nat, since: Time, s: State, h: HolderStep, key: string, born: Time)
    requires Checked(c) && Shape(s) && Alarmed(c, s) && Watched(c, hold, since, s, key, born) && s.now <= since + hold
    requires HolderMay(c, s, h) && !h.Close? && s.closer.NotStarted? && !Refused(s, HolderNext(c, s, h), key, born)
    ensures var t := HolderNext(c, s, h); Watched(c, hold, Taken(s, t, since), t, key, born)
  {
    match h
    case Fill => FillWatched(c, hold, since, s, key, born);
    case Choose(winners) => ChooseWatched(c, hold, since, s, winners, key, born);
    case Attempt => AttemptWatched(c, hold, since, s, key, born);
    case Send => SendWatched(c, hold, since, s, key, born);
    case Unlock => UnlockWatched(c, hold, since, s, key, born);
    case _ =>
  }

  lemma StepWatched(c: Settings, hold: nat, since: Time, s: State, a: Action, key: string, born: Time)
    requires Checked(c) && Shape(s) && Alarmed(c, s) && Watched(c, hold, since, s, key, born) && s.now <= since + hold
    requires Enabled(c, s, a) && s.closer.NotStarted? && !Refused(s, Apply(c, s, a), key, born)
    requires Apply(c, s, a).closer.NotStarted?
    ensures var t := Apply(c, s, a); Watched(c, hold, Taken(s, t, since), t, key, born)
  {
    match a
    case ByHolder(h) => HolderWatched(c, hold, since, s, h, key, born);
    case _ =>
  }

  lemma NotYetClosing(c: Settings, trace: seq<State>, i: nat)
    requires Run(c, trace) && i + 1 < |trace| && trace[i + 1].closer.NotStarted?
    ensures trace[i].closer.NotStarted?
  {
    assert Step(c, trace[i], trace[i + 1]);
  }

  lemma {:induction false} RunWatched(c: Settings, trace: seq<State>, wait: nat, hold: nat, i: nat,
                                       key: string, born: Time)
    requires Checked(c) && Run(c, trace) && Prompt(trace, wait, hold) && NeverRefused(trace, key, born)
    requires i < |trace| && trace[i].closer.NotStarted?
    ensures Watched(c, hold, Since(trace, i), trace[i], key, born)
  {
    if i > 0 {
      var s, t := trace[i - 1], trace[i];
      NotYetClosing(c, trace, i - 1);
      RunWatched(c, trace, wait, hold, i - 1, key, born);
      RunKept(c, trace, i - 1);
      assert Step(c, s, t) && !Refused(s, t, key, born);
      var a :| Enabled(c, s, a) && t == Apply(c, s, a);
      StepWatched(c, hold, Since(trace, i - 1), s, a, key, born);
    }
  }

  /** On such a run a bucket that no flush was refused for is kept no longer than its limit, the two delays and the
      alarm's millisecond together: with the claim `max_age`, and without it `every`. */
  lemma NoBucketOutlives(c: Settings, trace: seq<State>, wait: nat, hold: nat, i: nat, key: string)
    requires Checked(c) && Run(c, trace) && Prompt(trace, wait, hold) && i < |trace|
    requires trace[i].closer.NotStarted? && trace[i].holder.Free? && key in trace[i].buf.shares
    requires NeverRefused(trace, key, trace[i].buf.shares[key].oldest)
    ensures trace[i].now <= trace[i].buf.shares[key].oldest + Limit(c) + hold + MILLISECOND + wait
  {
    var s := trace[i];
    RunWatched(c, trace, wait, hold, i, key, s.buf.shares[key].oldest);
    RunKept(c, trace, i);
    assert Covers(c, s.timer.at, s.timer.armed, s.buf.shares[key]);
  }
}
