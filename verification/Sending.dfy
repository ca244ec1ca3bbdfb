/** Delivering one batch: the attempts, the waits between them, and how it ends. */
module Sending {
  import opened PipeProtocol

  // ----- the wait, on 64-bit integers that wrap -----------------------------------------------

  function Pow2(k: nat): nat { if k == 0 then 1 else 2 * Pow2(k - 1) }

  const HALF: int := 0x8000_0000_0000_0000
  const WHOLE: int := 0x1_0000_0000_0000_0000

  /** A product as a signed 64-bit integer holds it. */
  function Wrapped(n: int): int {
    var low := n % WHOLE;
    if low < HALF then low else low - WHOLE
  }

  /** `backoff` without its jitter: shift -- by 64 or more it leaves nothing, as the wrapped product does -- then cap
      what is past the maximum or wrapped to nothing or below. */
  function Capped(backoff: int, maxBackoff: int, attempt: nat): int
    requires attempt >= 1
  {
    var wait := Wrapped(backoff * Pow2(attempt - 1));
    if wait > maxBackoff || wait <= 0 then maxBackoff else wait
  }

  function Min(a: int, b: int): int { if a < b then a else b }

  lemma {:induction false} Pow2Adds(j: nat, k: nat)
    ensures Pow2(j + k) == Pow2(j) * Pow2(k)
  {
    if j > 0 { Pow2Adds(j - 1, k); }
  }

  lemma Times(b: int, p: int, m: int)
    requires b >= 0 && p <= m
    ensures b * p <= b * m
  {
  }

  lemma Distribute(d: int, t: int, q: int)
    ensures d * (t - q) == d * t - d * q
  {
  }

  lemma Divided(n: int, d: int)
    requires d > 0
    ensures n == d * (n / d) + n % d && 0 <= n % d < d
  {
  }

  lemma RemainderIs(n: int, d: int, t: int, r: int)
    requires 0 <= r < d && n == d * t + r
    ensures n % d == r
  {
    var q := n / d;
    Divided(n, d);
    Distribute(d, t, q);
    if t > q {
      Times(d, 1, t - q);
      assert false;
    }
    if t < q {
      Times(d, t - q, -1);
      assert false;
    }
  }

  /** The remainder of a multiple is that multiple of a remainder. */
  lemma RemainderOfMultiple(b: int, p: int, q: int)
    requires p > 0 && q > 0
    ensures (b * p) % (p * q) == p * (b % q)
  {
    var t, r := b / q, b % q;
    Divided(b, q);
    assert b * p == (p * q) * t + p * r;
    Times(p, 0, r);
    Times(p, r, q - 1);
    RemainderIs(b * p, p * q, t, p * r);
  }

  lemma Whole()
    ensures Pow2(64) == WHOLE
  {
    assert Pow2(8) == 256;
    Pow2Adds(8, 8);
    Pow2Adds(16, 16);
    Pow2Adds(32, 32);
  }

  lemma LongShift(b: int, k: nat)
    requires k >= 64
    ensures (b * Pow2(k)) % WHOLE == 0
  {
    Whole();
    Pow2Adds(64, k - 64);
    var p := Pow2(k - 64);
    assert b * (WHOLE * p) == WHOLE * (b * p);
    RemainderIs(b * Pow2(k), WHOLE, b * p, 0);
  }

  lemma {:induction false} Pow2Positive(k: nat)
    ensures Pow2(k) >= 1
  {
    if k > 0 { Pow2Positive(k - 1); }
  }

  /** What a shift leaves is nothing, or at least the power it shifted by. */
  lemma ShortShift(b: int, k: nat)
    requires k < 64
    ensures (b * Pow2(k)) % WHOLE == 0 || (b * Pow2(k)) % WHOLE >= Pow2(k)
  {
    Whole();
    Pow2Adds(k, 64 - k);
    Pow2Positive(k);
    Pow2Positive(64 - k);
    RemainderOfMultiple(b, Pow2(k), Pow2(64 - k));
    var r := b % Pow2(64 - k);
    if r > 0 { Times(Pow2(k), 1, r); }
  }

  /** One attempt's wait is the doubled backoff, capped, exactly when the shift did not wrap round to a wait below
      the cap. */
  lemma CappedUnlessWrapped(b: int, m: int, attempt: nat)
    requires 0 < b <= m < HALF && attempt >= 1
    ensures Capped(b, m, attempt) == Min(m, b * Pow2(attempt - 1)) <==>
              b * Pow2(attempt - 1) < HALF || !(0 < Wrapped(b * Pow2(attempt - 1)) < m)
  {
    Pow2Positive(attempt - 1);
    assert b * Pow2(attempt - 1) > 0;
  }

  // ----- the send window closes before a shift can wrap ---------------------------------------

  /** `sendTimeout`, in nanoseconds. */
  const WINDOW: int := 60_000_000_000

  /** Go's halving, toward zero. */
  function Half(wait: int): int { if wait >= 0 then wait / 2 else -((-wait) / 2) }

  /** The least that the waits before an attempt add up to. */
  function Waited(backoff: int, maxBackoff: int, attempt: nat): int {
    if attempt <= 1 then 0
    else Waited(backoff, maxBackoff, attempt - 1) + Half(Capped(backoff, maxBackoff, attempt - 1))
  }

  predicate Doubles(b: int, m: int, attempt: nat)
    requires attempt >= 1
  {
    Capped(b, m, attempt) == Min(m, b * Pow2(attempt - 1))
  }

  lemma {:induction false} Pow2Grows(j: nat, k: nat)
    requires j <= k
    ensures Pow2(j) <= Pow2(k)
  {
    if j < k { Pow2Grows(j, k - 1); }
  }

  lemma Powers()
    ensures Pow2(31) == 0x8000_0000 && Pow2(32) == 0x1_0000_0000 && Pow2(33) == 0x2_0000_0000
    ensures Pow2(37) == 0x20_0000_0000 && Pow2(50) >= Pow2(37) && Pow2(64) == WHOLE
  {
    assert Pow2(8) == 256;
    Pow2Adds(8, 8);
    Pow2Adds(16, 16);
    assert Pow2(5) == 32;
    Pow2Adds(5, 32);
    Pow2Grows(37, 50);
    Whole();
  }

  lemma NoLess(x: int, y: int, p: int)
    requires p > 0 && x * p >= y * p
    ensures x >= y
  {
    if x < y {
      Times(p, x, y - 1);
      assert false;
    }
  }

  lemma Regrouped(b: int, p: int, q: int)
    ensures b * (p * q) == (b * p) * q
  {
  }

  /** What reached 64 bits was within `j` bits of it `j` shifts before. */
  lemma ShiftsBefore(b: int, k: nat, j: nat)
    requires b > 0 && j <= k && j <= 64 && b * Pow2(k) >= WHOLE
    ensures b * Pow2(k - j) >= Pow2(64 - j)
  {
    Whole();
    Pow2Adds(k - j, j);
    Pow2Adds(64 - j, j);
    Pow2Positive(j);
    Regrouped(b, Pow2(k - j), Pow2(j));
    NoLess(b * Pow2(k - j), Pow2(64 - j), Pow2(j));
  }

  lemma WrapsNegative(n: int)
    ensures HALF <= n < WHOLE ==> Wrapped(n) < 0
  {
  }

  /** A wait that is not the capped doubling comes of a shift past 64 bits, under a cap above that shift. */
  lemma WrapNeeds(b: int, m: int, attempt: nat)
    requires 0 < b <= m < HALF && attempt >= 1
    ensures Doubles(b, m, attempt) ||
            (3 <= attempt <= 64 && b * Pow2(attempt - 1) >= WHOLE && Pow2(attempt - 1) < m)
  {
    CappedUnlessWrapped(b, m, attempt);
    WrapsNegative(b * Pow2(attempt - 1));
    if attempt > 64 { LongShift(b, attempt - 1); } else { ShortShift(b, attempt - 1); }
    if attempt < 3 { assert Pow2(0) == 1 && Pow2(1) == 2; }
  }

  lemma CapIsPositive(b: int, m: int, attempt: nat)
    requires 0 < b <= m && attempt >= 1
    ensures Capped(b, m, attempt) > 0
  {
  }

  lemma {:induction false} WaitedGrows(b: int, m: int, i: nat, attempt: nat)
    requires 0 < b <= m && 1 <= i <= attempt
    ensures Waited(b, m, i) <= Waited(b, m, attempt)
  {
    if i < attempt {
      WaitedGrows(b, m, i, attempt - 1);
      CapIsPositive(b, m, attempt - 1);
    }
  }

  /** Waits of at least `2 * w` from one attempt on. */
  lemma {:induction false} WaitedAtLeast(b: int, m: int, from: nat, attempt: nat, w: int)
    requires 0 < b <= m && 1 <= from <= attempt && w >= 0
    requires forall i: nat | from <= i < attempt :: Capped(b, m, i) >= 2 * w
    ensures Waited(b, m, attempt) >= (attempt - from) * w
  {
    if attempt > from {
      WaitedAtLeast(b, m, from, attempt - 1, w);
      assert (attempt - from) * w == (attempt - 1 - from) * w + w;
    } else {
      WaitedGrows(b, m, 1, attempt);
    }
  }

  lemma DoublingIsAtLeast(b: int, m: int, i: nat, shifted: nat, least: int)
    requires 0 < b <= m && i >= 1 && shifted <= i - 1 && Doubles(b, m, i)
    requires least <= m && least <= b * Pow2(shifted)
    ensures Capped(b, m, i) >= least
  {
    Pow2Grows(shifted, i - 1);
    Times(b, Pow2(shifted), Pow2(i - 1));
  }

  /** Under a cap this low one wait is a minute: the backoff itself. */
  lemma LateByOne(b: int, m: int, attempt: nat)
    requires 3 <= attempt <= 28 && Pow2(65 - attempt) <= b <= m && Doubles(b, m, attempt - 1)
    ensures Waited(b, m, attempt) >= WINDOW
  {
    Powers();
    Pow2Grows(37, 65 - attempt);
    assert Pow2(0) == 1;
    DoublingIsAtLeast(b, m, attempt - 1, 0, Pow2(37));
    WaitedAtLeast(b, m, attempt - 1, attempt, 0x10_0000_0000);
  }

  /** Then it takes all of them. */
  lemma LateByAll(b: int, m: int, attempt: nat)
    requires 29 <= attempt <= 33 && Pow2(65 - attempt) <= b <= m
    requires forall i: nat | 1 <= i < attempt :: Doubles(b, m, i)
    ensures Waited(b, m, attempt) >= WINDOW
  {
    Powers();
    Pow2Grows(32, 65 - attempt);
    assert Pow2(0) == 1;
    forall i: nat | 1 <= i < attempt ensures Capped(b, m, i) >= Pow2(32) { DoublingIsAtLeast(b, m, i, 0, Pow2(32)); }
    WaitedAtLeast(b, m, 1, attempt, 0x8000_0000);
  }

  /** And above it the last fourteen are enough. */
  lemma LateByFourteen(b: int, m: int, attempt: nat)
    requires 34 <= attempt && 0 < b <= m && Pow2(50) <= b * Pow2(attempt - 15) && Pow2(33) <= m
    requires forall i: nat | 1 <= i < attempt :: Doubles(b, m, i)
    ensures Waited(b, m, attempt) >= WINDOW
  {
    Powers();
    Pow2Grows(33, 50);
    forall i: nat | attempt - 14 <= i < attempt ensures Capped(b, m, i) >= Pow2(33) {
      DoublingIsAtLeast(b, m, i, attempt - 15, Pow2(33));
    }
    WaitedAtLeast(b, m, attempt - 14, attempt, 0x1_0000_0000);
  }

  /** What a wrap says of the bounds. */
  lemma WrapBounds(b: int, m: int, attempt: nat)
    requires 0 < b <= m < HALF && attempt >= 1 && !Doubles(b, m, attempt)
    ensures 3 <= attempt <= 64 && b >= Pow2(65 - attempt)
    ensures attempt >= 34 ==> b * Pow2(attempt - 15) >= Pow2(50) && m >= Pow2(33)
  {
    WrapNeeds(b, m, attempt);
    ShiftsBefore(b, attempt - 1, attempt - 1);
    assert Pow2(0) == 1;
    if attempt >= 34 {
      ShiftsBefore(b, attempt - 1, 14);
      Pow2Grows(33, attempt - 1);
    }
  }

  /** The first wait to wrap comes after a minute of waiting at the least. */
  lemma FirstWrapIsLate(b: int, m: int, attempt: nat)
    requires 0 < b <= m < HALF && attempt >= 1 && !Doubles(b, m, attempt)
    requires forall i: nat | 1 <= i < attempt :: Doubles(b, m, i)
    ensures Waited(b, m, attempt) >= WINDOW
  {
    WrapBounds(b, m, attempt);
    if attempt <= 28 {
      LateByOne(b, m, attempt);
    } else if attempt <= 33 {
      LateByAll(b, m, attempt);
    } else {
      LateByFourteen(b, m, attempt);
    }
  }

  /** A wait can only wrap once the waits before it have taken a minute, by the least they can be. */
  lemma {:induction false} WrapIsLate(b: int, m: int, attempt: nat)
    requires 0 < b <= m < HALF && attempt >= 1
    ensures Doubles(b, m, attempt) || Waited(b, m, attempt) >= WINDOW
  {
    if i: nat :| 1 <= i < attempt && !Doubles(b, m, i) {
      WrapIsLate(b, m, i);
      WaitedGrows(b, m, i, attempt);
    } else if !Doubles(b, m, attempt) {
      FirstWrapIsLate(b, m, attempt);
    }
  }

  /** And wrap it can, that late: a little over four seconds, capped at five, give the four again at the 33rd
      attempt. */
  lemma WrapsBelowTheCap()
    ensures var b, m := 0x1_0000_0001, 5_000_000_000;
      && 0 < b <= m < HALF && Capped(b, m, 33) == 0x1_0000_0000 && Min(m, b * Pow2(32)) == m
      && Waited(b, m, 33) >= WINDOW
  {
    Powers();
    RemainderIs(0x1_0000_0001 * Pow2(32), WHOLE, 1, 0x1_0000_0000);
    WrapIsLate(0x1_0000_0001, 5_000_000_000, 33);
  }

  /** The jitter draws from `[0, half]`, and has something to draw only while that is not empty. */
  predicate Draws(wait: int) { Half(wait) + 1 > 0 }

  /** Half of the capped doubling, rounded down, up to all of it. */
  predicate Jittered(b: int, m: int, attempt: nat, wait: int)
    requires attempt >= 1
  {
    Min(m, b * Pow2(attempt - 1)) / 2 <= wait <= Min(m, b * Pow2(attempt - 1))
  }

  /** `backoff`: half of what the shift and the cap give, and up to as much again. While the waits so far can have
      fitted in the window, that is half of the capped doubling, up to all of it. */
  method Backoff(b: int, m: int, attempt: nat) returns (wait: int)
    requires b <= m && -1 <= m < HALF && attempt >= 1
    ensures 0 <= Half(Capped(b, m, attempt)) <= wait && (wait <= Capped(b, m, attempt) || wait == 0)
    ensures b > 0 && Waited(b, m, attempt) < WINDOW ==>
      Min(m, b * Pow2(attempt - 1)) / 2 <= wait <= Min(m, b * Pow2(attempt - 1))
  {
    if b > 0 { WrapIsLate(b, m, attempt); }
    var full := Capped(b, m, attempt);
    var drawn :| 0 <= drawn <= Half(full);
    wait := Half(full) + drawn;
  }

  /** A negative pair that is in order gives the jitter nothing to draw from, whatever the attempt shifts to nothing
      or below. */
  lemma NegativeDrawsNothing(backoff: int, maxBackoff: int)
    requires backoff <= maxBackoff <= -2 && backoff >= -HALF
    ensures !Draws(Capped(backoff, maxBackoff, 1))
  {
  }

  // ----- the attempts -------------------------------------------------------------------------

  /** What one write said: it landed, or it was refused -- with or without a load job that may still land it. */
  datatype Said = Took | Refused(job: bool)

  /** A refusal that names a load job, which may have landed for all that. */
  predicate NamesAJob(said: Said) { said.Refused? && said.job }

  function CauseFrom(write: nat -> Said, last: nat, j: nat): nat {
    if j == 0 then last else if NamesAJob(write(j)) then j else CauseFrom(write, last, j - 1)
  }

  /** Which attempt's error is asked about: the last that named a load job, else the last. */
  function Cause(write: nat -> Said, last: nat): nat {
    CauseFrom(write, last, last)
  }

  lemma {:induction false} CauseFromIs(write: nat -> Said, last: nat, j: nat)
    requires j <= last && forall i | j < i <= last :: !NamesAJob(write(i))
    ensures var cause := CauseFrom(write, last, j);
      if exists i | 1 <= i <= j :: NamesAJob(write(i))
      then 1 <= cause <= j && NamesAJob(write(cause)) && forall i | cause < i <= last :: !NamesAJob(write(i))
      else cause == last
  {
    if j > 0 && !NamesAJob(write(j)) { CauseFromIs(write, last, j - 1); }
  }

  /** The attempt `j` is the one to ask about: nothing later named a load job, and it named one, or it is the last of
      attempts none of which did. */
  predicate ToAskAbout(write: nat -> Said, last: nat, j: nat) {
    && 1 <= j <= last
    && (forall i | j < i <= last :: !(write(i).Refused? && write(i).job))
    && ((write(j).Refused? && write(j).job)
        || (j == last && forall i | 1 <= i <= last :: !(write(i).Refused? && write(i).job)))
  }

  /** That is exactly one attempt. */
  lemma CauseIsTheLastJob(write: nat -> Said, last: nat)
    requires last >= 1
    ensures ToAskAbout(write, last, Cause(write, last))
    ensures forall j: nat | ToAskAbout(write, last, j) :: j == Cause(write, last)
  {
    CauseFromIs(write, last, last);
  }

  /** When the `i`th attempt has answered: what the attempts took, and the waits between them. */
  function Elapsed(took: nat -> nat, waits: seq<int>, i: nat): int
    requires |waits| + 1 >= i
  {
    if i == 0 then 0
    else Elapsed(took, waits, i - 1) + (if i > 1 then waits[i - 2] else 0) + took(i)
  }

  /** Every write and every wait so far, each once. */
  lemma ElapsedSums(took: nat -> nat, waits: seq<int>, i: nat)
    requires 1 <= i <= |waits|
    ensures Elapsed(took, waits, 1) == took(1)
    ensures Elapsed(took, waits, i + 1) == Elapsed(took, waits, i) + waits[i - 1] + took(i + 1)
  {
    assert Elapsed(took, waits, 0) == 0;
  }

  lemma {:induction false} ElapsedBefore(took: nat -> nat, a: seq<int>, b: seq<int>, i: nat)
    requires |a| + 1 >= i && a <= b
    ensures Elapsed(took, a, i) == Elapsed(took, b, i)
  {
    if i > 0 { ElapsedBefore(took, a, b, i - 1); }
  }

  /** An attempt another follows: refused, nobody gave up, the wait fitted the window -- and is then the capped
      doubling, jittered. */
  predicate Goes(b: int, m: int, write: nat -> Said, took: nat -> nat, cancelled: nat -> bool, waits: seq<int>, i: nat)
    requires 1 <= i <= |waits|
  {
    && write(i).Refused? && !cancelled(i) && Elapsed(took, waits, i) + waits[i - 1] < WINDOW
    && (b > 0 ==> Jittered(b, m, i, waits[i - 1]))
  }

  /** An attempt is the last: it landed, there are no more, or its wait would not fit or was broken off. */
  predicate Ends(attempts: nat, write: nat -> Said, took: nat -> nat, cancelled: nat -> bool, waits: seq<int>,
                 last: nat)
    requires 1 <= last <= |waits| + 1
  {
    || write(last).Took? || last == attempts
    || (|waits| == last && (cancelled(last) || Elapsed(took, waits, last) + waits[last - 1] >= WINDOW))
  }

  lemma GoesStill(b: int, m: int, write: nat -> Said, took: nat -> nat, cancelled: nat -> bool,
                   waits: seq<int>, w: int, i: nat)
    requires 1 <= i <= |waits| && Goes(b, m, write, took, cancelled, waits, i)
    ensures Goes(b, m, write, took, cancelled, waits + [w], i)
  {
    ElapsedBefore(took, waits, waits + [w], i);
  }

  /** That is: it was refused and not cancelled, the wait after it still fitted 60 seconds, and the wait lies
      between half of the capped doubling, rounded down, and all of it. */
  lemma GoesExactly(b: int, m: int, write: nat -> Said, took: nat -> nat, cancelled: nat -> bool, waits: seq<int>,
                    i: nat)
    requires 1 <= i <= |waits|
    ensures Goes(b, m, write, took, cancelled, waits, i) <==>
      && write(i).Refused? && !cancelled(i) && Elapsed(took, waits, i) + waits[i - 1] < 60_000_000_000
      && (b > 0 ==> Min(m, b * Pow2(i - 1)) / 2 <= waits[i - 1] <= Min(m, b * Pow2(i - 1)))
  {
  }

  /** The attempts, to the last: which named a load job last, if any did. */
  method TryAll(b: int, m: int, attempts: nat, write: nat -> Said, took: nat -> nat, cancelled: nat -> bool)
      returns (last: nat, job: nat, ghost waits: seq<int>)
    requires attempts >= 1 && b <= m && -1 <= m < HALF
    ensures 1 <= last <= attempts && last - 1 <= |waits| <= last
    ensures forall i | 1 <= i < last :: Goes(b, m, write, took, cancelled, waits, i)
    ensures Ends(attempts, write, took, cancelled, waits, last)
    ensures job <= last && (forall i | job < i <= last :: !NamesAJob(write(i))) && (job > 0 ==> NamesAJob(write(job)))
  {
    var spent := 0;
    last, job, waits := 1, 0, [];
    while true
      invariant 1 <= last <= attempts && |waits| == last - 1
      invariant forall i | 1 <= i < last :: Goes(b, m, write, took, cancelled, waits, i)
      invariant spent + took(last) == Elapsed(took, waits, last)
      invariant b > 0 ==> Waited(b, m, last) <= spent
      invariant job < last && forall i | job < i < last :: !NamesAJob(write(i))
      invariant job > 0 ==> NamesAJob(write(job))
      decreases attempts - last
    {
      var said := write(last);
      spent := spent + took(last);
      if NamesAJob(said) { job := last; }
      if said.Took? || last == attempts { return; }
      var wait := Backoff(b, m, last);
      forall i | 1 <= i < last ensures Goes(b, m, write, took, cancelled, waits + [wait], i) {
        GoesStill(b, m, write, took, cancelled, waits, wait, i);
      }
      ElapsedBefore(took, waits, waits + [wait], last);
      waits := waits + [wait];
      if WINDOW - spent <= wait || cancelled(last) { return; }
      spent := spent + wait;
      last := last + 1;
    }
  }

  /** The attempt whose job was kept, or the last when none was, is the one to ask about. */
  lemma KeptIsToAskAbout(write: nat -> Said, last: nat, job: nat)
    requires 1 <= last && job <= last && (job > 0 ==> NamesAJob(write(job)))
    requires forall i | job < i <= last :: !NamesAJob(write(i))
    ensures ToAskAbout(write, last, if job > 0 then job else last)
  {
    forall i: nat | job < i <= last ensures !(write(i).Refused? && write(i).job) { assert !NamesAJob(write(i)); }
  }

  lemma OneToAskAbout(write: nat -> Said, last: nat, j: nat, landed: nat -> bool)
    requires ToAskAbout(write, last, j)
    ensures landed(j) <==> exists i | 1 <= i <= last :: ToAskAbout(write, last, i) && landed(i)
  {
    CauseIsTheLastJob(write, last);
  }

  /** `send`: it goes on until an attempt lands, the attempts are spent, or 60 seconds have no room for another wait;
      and it ends in one way, which the caller is told an error of unless it is delivery. It is delivered by its last
      attempt, or by the load job of the attempt to ask about; else it is in the dead letter, or lost when that refuses
      it too. */
  method Send(b: int, m: int, attempts: nat, write: nat -> Said, took: nat -> nat, cancelled: nat -> bool,
              landed: nat -> bool, buries: bool)
      returns (outcome: Outcome, last: nat, failed: bool, ghost waits: seq<int>)
    requires attempts >= 1 && b <= m && -1 <= m < HALF
    ensures 1 <= last <= attempts && last - 1 <= |waits| <= last
    ensures forall i | 1 <= i < last :: Goes(b, m, write, took, cancelled, waits, i)
    ensures || write(last).Took? || last == attempts
            || (|waits| == last && (cancelled(last) || Elapsed(took, waits, last) + waits[last - 1] >= 60_000_000_000))
    ensures outcome == Delivered <==>
      write(last).Took? || exists j | 1 <= j <= last :: ToAskAbout(write, last, j) && landed(j)
    ensures outcome == Buried <==> outcome != Delivered && buries
    ensures failed <==> outcome != Delivered
  {
    var job;
    last, job, waits := TryAll(b, m, attempts, write, took, cancelled);
    if write(last).Took? { return Delivered, last, false, waits; }
    var cause := if job > 0 then job else last;
    KeptIsToAskAbout(write, last, job);
    OneToAskAbout(write, last, cause, landed);
    if landed(cause) { return Delivered, last, false, waits; }
    outcome := if buries then Buried else Lost;
    failed := true;
  }
}
