/** `Stream.check`: the defaults it fills in, what it refuses, and what a pipe may then rely on. */
module StreamChecks {
  import opened Buffering
  import opened Sending

  const SECOND_NS: int := 1_000_000_000

  /** The numbers of one stream, as written; 0 is not written. */
  datatype Numbers = Numbers(
    every: int, records: int, size: int, maxAge: int, claim: bool,
    workers: int, queue: int, maxRecords: int, maxBytes: int, maxBody: int,
    attempts: int, backoff: int, maxBackoff: int)

  function Or(n: int, default: int): int { if n == 0 then default else n }

  function Max(a: int, b: int): int { if a < b then b else a }

  /** The byte ceiling that is not written: 64 MiB, four bodies or two flushes, whichever is most. */
  function Roomy(n: Numbers): int { Max(0x400_0000, Max(4 * n.maxBody, 2 * n.size)) }

  /** Every number not written, filled in. */
  function Filled(n: Numbers): Numbers {
    var records := Or(n.records, 500);
    Numbers(
      Or(n.every, SECOND_NS), records, n.size, n.maxAge, n.claim,
      Or(n.workers, 4), Or(n.queue, 64), Or(n.maxRecords, records * 20),
      Or(n.maxBytes, Roomy(n)), n.maxBody,
      Or(n.attempts, 4), Or(n.backoff, 500 * MILLISECOND), Or(n.maxBackoff, 10 * SECOND_NS))
  }

  /** What is not refused. */
  predicate Accepted(n: Numbers) {
    && n.workers >= 0 && n.queue >= 0
    && n.maxRecords >= n.records >= 1
    && n.size >= 0 && n.maxAge >= 0
    && (n.claim ==> n.maxAge > 0)
    && !(0 < n.maxAge < n.every)
    && n.maxBytes >= 0
    && !(n.maxBytes > 0 && n.size > n.maxBytes)
    && !(n.maxBytes > 0 && n.maxBytes < n.maxBody)
    && n.attempts >= 1
    && n.maxBackoff >= n.backoff
  }

  function SettingsOf(n: Numbers): Settings {
    Settings(n.every, n.maxAge, n.claim, n.records, n.size, n.maxRecords, n.maxBytes, n.maxBody, n.queue, n.workers)
  }

  class Stream {
    var n: Numbers

    constructor (n: Numbers)
      ensures this.n == n
    {
      this.n := n;
    }

    /** The window, the batch and the pool. */
    method CheckPool() returns (refused: bool)
      modifies this
      ensures !refused ==>
        n == old(n).(every := Or(old(n).every, SECOND_NS), records := Or(old(n).records, 500),
                     workers := Or(old(n).workers, 4), queue := Or(old(n).queue, 64))
      ensures refused <==> old(n).workers < 0 || old(n).queue < 0
    {
      n := n.(every := Or(n.every, SECOND_NS), records := Or(n.records, 500));
      n := n.(workers := Or(n.workers, 4));
      if n.workers < 0 { return true; }
      n := n.(queue := Or(n.queue, 64));
      refused := n.queue < 0;
    }

    /** The flush and its ceilings. */
    method CheckFlush() returns (refused: bool)
      modifies this
      ensures !refused ==> n == old(n).(maxRecords := Or(old(n).maxRecords, old(n).records * 20))
      ensures refused <==>
        || Or(old(n).maxRecords, old(n).records * 20) < old(n).records || old(n).records < 1 || old(n).size < 0
        || old(n).maxAge < 0 || (old(n).claim && old(n).maxAge <= 0) || 0 < old(n).maxAge < old(n).every
    {
      n := n.(maxRecords := Or(n.maxRecords, n.records * 20));
      if n.maxRecords < n.records { return true; }
      if n.records < 1 { return true; }
      if n.size < 0 { return true; }
      if n.maxAge < 0 { return true; }
      if n.claim && n.maxAge <= 0 { return true; }
      refused := n.maxAge > 0 && n.maxAge < n.every;
    }

    method CheckBytes() returns (refused: bool)
      modifies this
      ensures !refused ==> n == old(n).(maxBytes := Or(old(n).maxBytes, Roomy(old(n))))
      ensures var bytes := Or(old(n).maxBytes, Roomy(old(n)));
        refused <==> bytes < 0 || (bytes > 0 && (old(n).size > bytes || bytes < old(n).maxBody))
    {
      n := n.(maxBytes := Or(n.maxBytes, Roomy(n)));
      if n.maxBytes < 0 { return true; }
      if n.maxBytes > 0 && n.size > n.maxBytes { return true; }
      refused := n.maxBytes > 0 && n.maxBytes < n.maxBody;
    }

    method CheckRetry() returns (refused: bool)
      modifies this
      ensures !refused ==>
        n == old(n).(attempts := Or(old(n).attempts, 4), backoff := Or(old(n).backoff, 500 * MILLISECOND),
                     maxBackoff := Or(old(n).maxBackoff, 10 * SECOND_NS))
      ensures refused <==>
        || Or(old(n).attempts, 4) < 1
        || Or(old(n).maxBackoff, 10 * SECOND_NS) < Or(old(n).backoff, 500 * MILLISECOND)
    {
      n := n.(attempts := Or(n.attempts, 4));
      if n.attempts < 1 { return true; }
      n := n.(backoff := Or(n.backoff, 500 * MILLISECOND));
      n := n.(maxBackoff := Or(n.maxBackoff, 10 * SECOND_NS));
      refused := n.maxBackoff < n.backoff;
    }

    /** The checks, in their order, each after the defaults it reads. */
    method Check() returns (refused: bool)
      modifies this
      ensures refused <==> !Accepted(Filled(old(n)))
      ensures !refused ==> n == Filled(old(n))
    {
      refused := CheckPool();
      if !refused { refused := CheckFlush(); }
      if !refused { refused := CheckBytes(); }
      if !refused { refused := CheckRetry(); }
    }
  }

  /** What is written stays; what is not is filled in, the two ceilings from what the rest came to. */
  lemma FilledAre(n: Numbers)
    ensures var f := Filled(n);
      && f.every == (if n.every == 0 then 1_000_000_000 else n.every)
      && f.records == (if n.records == 0 then 500 else n.records)
      && f.workers == (if n.workers == 0 then 4 else n.workers) && f.queue == (if n.queue == 0 then 64 else n.queue)
      && f.maxRecords == (if n.maxRecords == 0 then 20 * f.records else n.maxRecords)
      && (n.maxBytes != 0 ==> f.maxBytes == n.maxBytes)
      && (n.maxBytes == 0 ==>
            && f.maxBytes >= 67_108_864 && f.maxBytes >= 4 * n.maxBody && f.maxBytes >= 2 * n.size
            && f.maxBytes in {67_108_864, 4 * n.maxBody, 2 * n.size})
      && f.attempts == (if n.attempts == 0 then 4 else n.attempts)
      && f.backoff == (if n.backoff == 0 then 500_000_000 else n.backoff)
      && f.maxBackoff == (if n.maxBackoff == 0 then 10_000_000_000 else n.maxBackoff)
      && f.size == n.size && f.maxAge == n.maxAge && f.claim == n.claim && f.maxBody == n.maxBody
  {
  }

  /** A stream is refused exactly for one of these: no pool to speak of, a batch of nothing or above a ceiling, a
      negative size or age, a claim with no ceiling, a ceiling before the target, no attempt, or a cap below the
      backoff. */
  lemma RefusedExactlyThen(n: Numbers)
    ensures var f := Filled(n);
      !Accepted(f) <==>
        || f.workers < 0 || f.queue < 0
        || f.records < 1 || f.maxRecords < f.records
        || f.size < 0 || f.maxAge < 0
        || (f.claim && f.maxAge == 0) || (f.maxAge != 0 && f.maxAge < f.every)
        || f.maxBytes < 0 || (f.maxBytes != 0 && (f.maxBytes < f.size || f.maxBytes < f.maxBody))
        || f.attempts < 1 || f.maxBackoff < f.backoff
  {
  }

  lemma SettingsAre(n: Numbers)
    ensures var c := SettingsOf(n);
      && c.every == n.every && c.maxAge == n.maxAge && c.claim == n.claim && c.records == n.records && c.size == n.size
      && c.maxRecords == n.maxRecords && c.maxBytes == n.maxBytes && c.maxBody == n.maxBody
      && c.queue == n.queue && c.workers == n.workers
  {
  }

  /** What it lets through is what a pipe starts from, exactly when the window was not written negative: that is the
      one bound it does not ask for. */
  lemma AcceptedIsChecked(n: Numbers)
    requires Accepted(Filled(n)) && n.maxBody >= 0
    ensures Checked(SettingsOf(Filled(n))) <==> n.every >= 0
  {
  }

  /** And a negative one is let through. */
  lemma NegativeEveryIsAccepted(every: int)
    requires every < 0
    ensures var n := Filled(Numbers(every, 0, 0, 0, false, 0, 0, 0, 0, 0, 0, 0, 0));
      Accepted(n) && n.every == every && !Checked(SettingsOf(n))
  {
  }

  /** What a 64-bit duration can be. */
  predicate Fits(d: int) { -HALF <= d < HALF }

  /** Nor does it ask that the backoffs be positive. Every wait has something to draw its jitter from exactly when the
      larger of the two is not below a nanosecond under nothing; and so have the waits of one batch, or it has none. */
  lemma DrawsUnlessCapIsNegative(n: Numbers)
    requires Accepted(Filled(n)) && Fits(n.backoff) && Fits(n.maxBackoff)
    ensures (forall attempt: nat | attempt >= 1 :: Draws(Capped(Filled(n).backoff, Filled(n).maxBackoff, attempt))) <==>
              Filled(n).maxBackoff >= -1
    ensures (forall attempt: nat | 1 <= attempt < Filled(n).attempts ::
               Draws(Capped(Filled(n).backoff, Filled(n).maxBackoff, attempt))) <==>
              Filled(n).maxBackoff >= -1 || Filled(n).attempts == 1
  {
    if Filled(n).maxBackoff < -1 {
      NegativeDrawsNothing(Filled(n).backoff, Filled(n).maxBackoff);
    }
  }

  /** And such a pair is let through. */
  lemma NegativeCapIsAccepted(b: int, m: int)
    requires b <= m <= -2
    ensures Accepted(Filled(Numbers(0, 0, 0, 0, false, 0, 0, 0, 0, 0, 0, b, m)))
  {
  }

  /** Checking what was checked changes nothing. */
  lemma CheckedOnce(n: Numbers)
    requires Accepted(Filled(n))
    ensures Filled(Filled(n)) == Filled(n)
  {
  }

  // ----- how long a drain is given ------------------------------------------------------------

  const DRAIN_FLOOR: int := 30 * SECOND_NS

  /** `DrainBudget`: what was declared, else no less than any stream may hold its events, and no less than the floor;
      and it is one of those. */
  method DrainBudget(declared: int, streams: seq<Numbers>) returns (budget: int)
    ensures declared > 0 ==> budget == declared
    ensures declared <= 0 ==>
      && budget >= 30_000_000_000
      && (forall i | 0 <= i < |streams| :: streams[i].every <= budget && streams[i].maxAge <= budget)
      && (|| budget == 30_000_000_000
          || exists i | 0 <= i < |streams| :: budget == streams[i].every || budget == streams[i].maxAge)
  {
    if declared > 0 { return declared; }
    var longest, i := 0, 0;
    while i < |streams|
      invariant 0 <= i <= |streams| && longest >= 0
      invariant forall j | 0 <= j < i :: streams[j].every <= longest && streams[j].maxAge <= longest
      invariant longest == 0 || exists j | 0 <= j < i :: longest == streams[j].every || longest == streams[j].maxAge
    {
      var w := streams[i].every;
      if streams[i].maxAge > w { w := streams[i].maxAge; }
      if w > longest { longest := w; }
      i := i + 1;
    }
    budget := if longest > DRAIN_FLOOR then longest else DRAIN_FLOOR;
  }
}
