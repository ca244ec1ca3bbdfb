# Brevis, verified models

Brevis moves events and records between systems. Four of its parts promise things that no single function shows: the
gateway's stream buffer, the agent's execution table with its drain, the SDK's reduction and identity code, and the
dead letter. This project models those parts in Dafny and proves what they promise, over every input, every order of
steps and every failure of the outside world.

`dafny verify dfyconfig.toml` checks the whole of it.

## What is modelled

**The stream buffer** (`gateway/server.go`, `gateway/config.go`, `gateway/metastore.go`), twice.

- `PipeProtocol` takes it apart into the steps that can interleave: a request and its two ceiling checks, each append,
  each handoff with its send and its two atomic adds, a flush and its choice of winners, the locked part of `close` and
  its stages after it, each worker's receive, `send`, and two decrements, the timer and the clock. `PipeSafety` proves
  what every step keeps and `PipeGuarantees` what follows for every run; `PipeTiming` bounds a bucket's wait on runs that
  answer their alarms, and `PipeRuns` is a run written out.
- `Gateway` is the same pipe as the object it is: `Pipe` with its buckets, marks, totals, timer and queue, and the
  methods and loops of the source. Its methods are proved against `Handoffs`, which says what a pass of handoffs comes to
  for whatever the queue answers, and proves what such a pass keeps. `Sections` and `SectionRuns` tie that to the steps of
  the protocol, method by method and both ways: what a locked section can come to, among any other goroutines' steps, is
  exactly what the specification of `enqueue`, `flush` or `close` allows, whatever the queue and the clock say meanwhile.
  `Admission` says which requests the workers can make room for while the two ceilings are looked at.
- `Preparing` is what a request's events go through before it, `StreamChecks` the configuration check it starts from,
  `Sending` the delivery of one batch and its backoff.
- `Windows`, `ClaimKeys`, `Metastore` and `ClaimProtocol` are the flush claim: who may flush a window, the names contested,
  the store they are contested in, and any number of replicas contesting them by those names.

**The agent** (`internal/agent`): `AgentProtocol` is any number of goroutines starting, finishing, resuming, cancelling
and draining, with `settle` and `Wait` taken apart lock by lock; `AgentGuarantees` is what holds of every run,
`AgentEndings` says why an execution is settled, `AgentForgetting` which steps put one out of reach, `AgentDrains` that
one within reach can be settled and the drain ended, from whatever state and through whatever locks, and `AgentRuns` is
runs written out. `Agents` is the object with its maps and loops; each method that changes the maps, or closes the
channel, is shown to do what the protocol's steps do to them. `Retention` says which finished executions `prune` keeps.

**The SDK**: `Reduction` defines the one-pass fold and the group-then-aggregate form, and proves them equal; `Reducing` is
the fold and its close as loops over group objects. `Statistics` is Welford's variance over exact reals, `Extremes` the
four extremes. `CanonicalJson` and `LandingIds` are the text every row id is computed from, and `JsonReading` is a reader of
that text. `Checkpoints` is the stream through its checkpoint.

**The dead letter**: `DeadLetters` is burying a batch, sending it again, and sending it again after that.

`Ordering`, `Selections`, `Tally`, `Texts` and `Outcomes` are shared: sorted and duplicate-free sequences, selecting some of
a sequence, sums, taking concatenations apart, and the usual option and result types.

## What the proofs turned up

Each of these is the code's behaviour, kept as it is, with a lemma that shows it.

- **A claim that reaches the store after its window has ended can win a window already won.** The TTL of a claim is the
  length of the window, counted from when the store takes it; a claim that was on its way for longer finds the entry
  expired. With every claim taken inside its window, no window is won twice (`ClaimProtocol.AtMostOnce`); the entry holds
  exactly as long as that (`HeldIffInTime`); a late one wins again (`LateClaimWinsAgain`).
- **Windows shorter than a second share their names**, because a name is printed to the second: two names are the same
  exactly when key and second are (`ClaimKeys.NamesAgree`), and such windows begin over and over
  (`ShortWindowsCollide`); from a second up they do not (`ClaimKeyInjective`). No window is won twice for that, but one can
  be lost to its neighbour, asked for in time and never won: a claim is refused exactly when a win for its key, of a window
  that begins in its second, came less than a window's length before (`ClaimProtocol.RefusedExactlyThen`). That cannot
  happen to the first claim of a window of a second or more (`FirstClaimWins`), nor, in time, of one nanosecond
  (`FirstOfAnInstantWins`); for every length between there is a run (`NeighbourLoses`).
- **The merging branch of `handoff` is never taken**: the lock is held from the take to the put-back
  (`PipeGuarantees.RefusedBucketIsAbsent`, and the branch of `Gateway.Pipe.PutBack`).
- **`pending` goes below zero** exactly while a send has yet to add more records than the pool still counts
  (`PipeGuarantees.PendingDipsExactlyThen`), and there is a run on which it does (`PipeRuns.PendingDipsOnARun`). The sender
  holds the lock then, or is `close`, so no admission reads it.
- **An execution can be forgotten while a drain awaits it**, after which nothing can settle it and `Wait` can only be cut
  short (`AgentForgetting.ForgottenIsWaitedForEver`); there is a run that leads there (`AgentRuns.CanBeForgotten`). It
  happens at exactly two kinds of step: a prune that lets go of the id that names it, with nobody else about it, and the
  last reader giving up on one that no id names (`AgentForgetting.ForgottenExactlyThen`). On a run none of whose prunes
  drops an awaited, unsettled execution it never does (`ForgettingTakesADrop`). Nothing else stands in the way: from any
  reachable state an awaited execution can still be settled exactly when it is not forgotten, and a `Wait` under way can
  still return nil exactly when nothing it awaits is (`AgentDrains.SettledUnlessForgotten`, `WaitEndsUnlessForgotten`).
- **A second, concurrent `settle` may return before the channel is closed**: a run on which it does, with the waiter
  still blocked, is `AgentRuns.SecondReturnsFirst`. What a waiter found unsettled is settled, and its channel still open,
  exactly while the settler that flipped the flag is on its way to the close, nobody has closed the channel since the scan,
  and nobody is between a close and the next channel (`AgentGuarantees.AsleepExactlyThen`).
- **The configuration check lets a negative `flush.every` through** (`StreamChecks.NegativeEveryIsAccepted`; what it
  accepts is what a pipe starts from exactly when that is not so, `AcceptedIsChecked`), **and a `max_backoff` below minus
  one nanosecond** (`NegativeCapIsAccepted`), which leaves the jitter nothing to draw from. Every attempt of an accepted
  configuration can be jittered exactly when that cap is at least minus one nanosecond, whatever the sign of the backoff
  (`DrawsUnlessCapIsNegative`).
- **The doubling of a backoff can wrap round, and no send gets that far**: a wait that is not the capped doubling comes
  only after 60 seconds of waiting, which is the whole of a send's window (`Sending.WrapIsLate`). Within one send every
  wait is the capped doubling.
- **A batch that was delivered can be delivered again without `--again`**: the newest receipt is the one that counts, so a
  resend that was asked for again, and failed, lets the next plain one through (`DeadLetters.DeliveredTwice`). With none
  asked for again, and every delivery written down, it is delivered once at most (`DeliveredOnce`); a plain one goes
  through exactly when the last that sent anything and was written down was not taken, or there is none
  (`GoesThroughIff`).
- **A landing table whose name holds a bar shares its ids with another** (`LandingIds.BarsMove`).
- **A group field holding the zero character shares its key with another tuple.** A comment at `sdk/reduce.go:534` says no
  text that comes of JSON holds one, which an escape allows. A key is of one tuple alone exactly when the tuple has one
  field at most, or none of its fields renders with a zero (`Reduction.KeyIsItsOwn`).
- **An id can be in neither map**: a comment at `internal/agent/agent.go:163` says it is in `runs` or `finished` at every
  instant from its start on. What it names is forgotten exactly when a prune drops it that does not reserve it anew, or its
  start is given up before it was spawned (`AgentGuarantees.NamedUntilLetGo`); runs on which each happens are
  `AgentRuns.CanBeForgotten` and `StartGivenUp`. A process is always in `runs` (`OneProcessPerId`).
- **Waking and being due agree** without the claim for a bucket that is held; an absent one is due without ever being a
  reason to wake (`Buffering.DeadlineIsDue`).

## Model

| member | source | states |
|---|---|---|
| PipeGuarantees.EveryEventInOnePlace | gateway/server.go:669-684 | on every run, each accepted event is in exactly one of a bucket, a hand, the queue, a worker's `send`, or one of three ends |
| PipeGuarantees.CeilingsHold | gateway/server.go:1009-1020 | records and bytes in buckets, queue and workers never pass the two ceilings, between any two steps |
| PipeGuarantees.PendingCovers | gateway/server.go:677-684 | with the lock free, `pending` is at least what is queued or in `send` |
| PipeGuarantees.PendingDipsExactlyThen | gateway/server.go:1107-1110 | `pending` is below zero exactly when a send has yet to add more records than the pool still counts |
| PipeRuns.PendingDipsOnARun | gateway/server.go:1107-1110 | with a trigger of one record, a run leads to a state where a worker done before its sender has added has `pending` at minus one |
| PipeGuarantees.RefusedBucketIsAbsent | gateway/server.go:1117-1132 | the bucket a refused batch goes back to is absent, so nothing is ever merged |
| PipeGuarantees.NeverPanics | gateway/server.go:1004-1008 | no run sends on the closed queue or reads a bucket that is not there |
| PipeGuarantees.CleanDrain | gateway/server.go:1635-1687 | `close` returning nil leaves nothing buffered, queued or carried, every worker ended, and everything accepted settled, by any weight |
| PipeGuarantees.LateDrain | gateway/server.go:1688-1701 | the count `close` reports is never below the events not settled |
| PipeGuarantees.ArrivalOrder | gateway/server.go:1099-1138 | per key, what was handed over followed by the bucket is that key's arrivals, in order, whatever was refused |
| PipeGuarantees.AlarmIsSet | gateway/server.go:1142-1153 | with the lock free and something held, a timer is set, no later than each bucket's target and ceiling or a millisecond after it was armed |
| PipeTiming.NoBucketOutlives | gateway/server.go:1142-1206 | when alarms are answered within one delay and the lock is held no longer than another, a bucket no flush was refused for is kept no longer than `max_age` (without the claim, `every`), both delays and a millisecond |
| PipeGuarantees.TotalsExact | gateway/server.go:434-540 | between requests `held`, `bytes` and every bucket's bytes are exact sums |
| PipeSafety.RunKept | gateway/server.go:994-1206 | every state of every run keeps the shape, conservation, counts, ceilings, order, alarm and report invariants together |
| PipeSafety.StepConserves | gateway/server.go:994-1138 | one step of any goroutine loses and duplicates nothing, by any weight |
| PipeSafety.StepCounted | gateway/server.go:677-684 | the totals and the atomics count exactly what is held, less what a step has yet to add or release |
| PipeSafety.StepCeilings | gateway/server.go:1009-1020 | one step never takes the load over a ceiling, though the workers lower two atomics without the lock |
| PipeSafety.StepInOrder | gateway/server.go:1099-1138 | one step keeps each key's order across hands, buckets and queue |
| PipeSafety.StepAlarmed | gateway/server.go:1142-1206 | one step keeps every held bucket covered by the alarm |
| Buffering.DeadlineIsDue | gateway/server.go:552-641 | without the claim, a deadline of zero and being due agree exactly for a bucket that is held |
| Buffering.SpentIsPastCeiling | gateway/server.go:552-600 | with the claim, a deadline is spent exactly when `max_age` has passed |
| Buffering.DeadlineIsWake | gateway/server.go:552-600 | with the claim a held bucket wakes the pipe at the next boundary between windows, or at its ceiling if that is sooner; without it when its target is up |
| Buffering.AlarmExactly | gateway/server.go:601-618 | the alarm rings at the first of those instants over all buckets, neither later nor earlier, and no sooner than a millisecond from now |
| Buffering.AlarmCovers | gateway/server.go:601-618 | the alarm set for some buckets rings in time for each of them, and within a window |
| Buffering.LateBucketCovered | gateway/server.go:1142-1153 | an alarm already running covers any bucket created after it, so `arm` may do nothing |
| Buffering.AppendAllOrder | gateway/server.go:1028-1064 | a request adds to each bucket exactly its own events, in order |
| Buffering.AppendAllClocks | gateway/server.go:1034-1052 | a bucket's clock starts when it goes from absent to held and later events do not move it |
| Buffering.TouchedDistinct | gateway/server.go:1022-1057 | the touched keys are the request's keys, each once |
| PipeParts.Line.TrySend | gateway/server.go:1106-1111 | a send that never waits, with its two adds, among workers that lower the atomics; queue and counts stay exact |
| PipeParts.Line.Load | gateway/server.go:1009-1020 | two atomics read one after the other are each an upper bound of what is left |
| PipeParts.TotalIsWeight | gateway/server.go:994-999 | the summed sizes are the weight of the request's events |
| PipeParts.ArrivalAt | gateway/server.go:1021-1055 | each event of a request is an envelope with its own size and key, in order |
| PipeParts.ZipAt | gateway/server.go:1089-1138 | each event of a bucket is an envelope with its own size, under the bucket's key |
| Preparing.Prepare | gateway/server.go:801-890 | the accepted events, as the hook, the archive and the measurer left them, with their arrival sizes and keys, side by side and in order; each refusal under the place of its event; the archived counted |
| Preparing.AcceptedExactlyThen | gateway/server.go:801-890 | an event is accepted exactly when hook and archive let it through, the admission does not refuse it as it was measured, and it is identified; under the key it was measured by |
| Preparing.RejectedExactlyThen | gateway/server.go:801-890 | it is rejected, and with that reason, exactly by the first stage that will not have it |
| Preparing.KeptOutExactlyThen | gateway/server.go:801-890 | it is dropped exactly by the hook, and archived exactly by the archive |
| Preparing.KeptSelects | gateway/server.go:801-890 | the accepted of a request are all of them, in their order |
| Preparing.RefusalsAre | gateway/server.go:801-890 | the refusals are under the places of their events, by increasing place |
| Preparing.CountIs | gateway/server.go:801-890 | those counted as archived are as many as there are |
| Gateway.Pipe.Enqueue | gateway/server.go:994-1080 | refused exactly while closing or over a ceiling, and then unchanged; else the events appended one by one, what crossed a trigger handed off in key order, the alarm set |
| Gateway.Pipe.FillAll | gateway/server.go:1021-1064 | the cached bucket and the marks do exactly what appending event by event does, and list each touched key once |
| Gateway.Pipe.Handoff | gateway/server.go:1099-1139 | the bucket leaves for the queue, or is back exactly as it was with the timer armed; nothing happens while closing |
| Gateway.Pipe.PutBack | gateway/server.go:1116-1138 | a refused bucket goes back with the totals; the merging branch is dead |
| Gateway.Pipe.Take | gateway/server.go:1161-1173 | the bucket leaves the map and both totals |
| Gateway.Pipe.Arm | gateway/server.go:1142-1153 | a timer is set for the earliest deadline, unless one runs, the pipe is closing or nothing is held |
| Gateway.Pipe.NextDeadline | gateway/server.go:601-618 | the walk finds the least deadline, in whatever order |
| Gateway.Pipe.Flush | gateway/server.go:1177-1206 | the alarm is spent, exactly the winners among the due, each by its own reading of the clock, are handed off in order, and the alarm set for the rest |
| Gateway.Pipe.WinnersOf | gateway/server.go:1229-1287 | the winners are those of the specification, for whatever the metastore answers |
| Gateway.Pipe.DueNow | gateway/server.go:1191-1196 | the due keys, each once and as the clock was when it was looked at, whatever the order of the walk |
| Gateway.Pipe.Shut | gateway/server.go:1636-1667 | the locked part of `close` leaves nothing held and no timer, and gathers every bucket in key order |
| Gateway.Pipe.Close | gateway/server.go:1635-1684 | the last batch is on the queue or is `close`'s own to deliver, and the queue is closed |
| Handoffs.RefusedIsKept | gateway/server.go:1112-1138 | a take and a put-back leave buckets and totals as they were |
| Handoffs.GoneIfSent | gateway/server.go:1099-1138 | after a pass a bucket is gone exactly when it was to leave and its own send found room |
| Handoffs.HandoffsKeepOrder | gateway/server.go:1089-1098 | per key, what went on the queue and what stays are one sequence, whatever the queue answered |
| Handoffs.HandoffsKeepBooks | gateway/server.go:1161-1173 | a pass keeps `held`, `bytes` and each bucket's bytes exact |
| Handoffs.RequestKept | gateway/server.go:1021-1080 | admitting a request keeps the books, adds to each key exactly its own events, and keeps every bucket covered by the alarm |
| Handoffs.FullStaysOnlyIfRefused | gateway/server.go:1059-1076 | a touched bucket still at `flush.records` events or `flush.size` bytes after the request found the queue full at its own send |
| Handoffs.LeavesExactly | gateway/server.go:1059-1076 | after a request a touched bucket has left exactly when it held `flush.records` events, or `flush.size` bytes where that is set, and its own send found room; otherwise it holds all it was given, and a bucket not touched is as it was |
| Handoffs.RequestSendsInKeyOrder | gateway/server.go:1059-1076 | what a request puts on the queue are whole buckets of keys it touched, with their bytes, by increasing key |
| Handoffs.FlushKept | gateway/server.go:1177-1206 | a flush keeps the books and the order, and leaves every bucket covered whatever alarm there was |
| Handoffs.CeilingIsKept | gateway/server.go:1177-1206 | after any flush a bucket that was past `max_age` when it began is there only if its own send found the queue full |
| Handoffs.FlushLeavesExactly | gateway/server.go:1177-1206 | after a flush a chosen bucket has left exactly when its own send found room, and every other is as it was |
| Handoffs.HandoffIsSteps | gateway/server.go:1099-1139 | the handoff the class is proved against is the protocol's attempt and send |
| Handoffs.FillIsAppend | gateway/server.go:1031-1055 | the protocol's event-by-event filling is the append the class is proved against |
| Sections.EnqueueIsAsSpecified | gateway/server.go:994-1080 | whoever interleaves and however the clock moves, a request that takes the lock is refused over a ceiling as it read the two atomics, and changes nothing; or comes to what the method's specification says for what each append and each send found |
| SectionRuns.EnqueueExactly | gateway/server.go:994-1080 | in every reachable state some section admits the request with these readings and this outcome exactly when it can find the two atomics, one after the other, such that it fits, and the specification of the method allows the rest from there |
| Admission.CanFitExactlyThen | gateway/server.go:1009-1020 | whatever the pool counts at first, workers can go on such that a request fits exactly when it does with what is buffered alone |
| SectionRuns.FlushExactly | gateway/server.go:1177-1206 | and the same of a flush with something held, for whichever keys it chose |
| SectionRuns.CloseExactly | gateway/server.go:1635-1684 | and of `close`: what is on the queue when it is closed, and what `close` keeps to deliver itself |
| Handoffs.GatheredOrder | gateway/server.go:1647-1659 | the last batch holds each key's events in order and no others |
| Handoffs.GatheredInKeyOrder | gateway/server.go:1636-1667 | the last batch goes by increasing key |
| Handoffs.CloseKeepsOrder | gateway/server.go:1648-1684 | closing loses nothing and reorders no key |
| Windows.WinnersMayHandOff | gateway/server.go:1229-1287 | the winners are a duplicate-free part of the due keys that holds every key past its ceiling when the flush began, however the clock moves meanwhile |
| Windows.FailsOpen | gateway/server.go:1264-1274 | on a store error every due key wins |
| Windows.WinsExactlyThen | gateway/server.go:1229-1287 | a due key wins exactly when there is no claim or nobody to ask, its ceiling has closed, or the store says yes to its own name, or does not answer, or with another number of answers |
| Windows.WonByOne | gateway/server.go:1207-1287 | of two flushes of one window that ask one store within its length, no key inside its ceiling wins in both |
| Windows.NamesDistinct | gateway/server.go:1237-1251 | the names asked for in one window are as distinct as the keys |
| ClaimKeys.Rfc3339Injective | gateway/server.go:1235 | the printed window says which second it is (section 5.6 of RFC 3339, four-digit years) |
| ClaimKeys.Rfc3339Says | gateway/server.go:1235 | the printed window has the shape of section 5.6 of RFC 3339 and says the date, the hour, the minute and the second of its instant |
| ClaimKeys.CivilIsThatDay | gateway/server.go:1235 | the calendar is the Gregorian one: the date of a day is the one that many days come before, by the rule of four, a hundred and four hundred years |
| ClaimKeys.ClaimKeyInjective | gateway/server.go:1298-1304 | with windows of a second or more, a name says which key and which window |
| ClaimKeys.NamesAgree | gateway/server.go:1298-1304 | two names of a stream are the same exactly when the keys are and the windows begin in the same second |
| ClaimKeys.NamesApart | gateway/server.go:1298-1304 | with no colon in their names, a name says the gateway, the stream, the routing key and the window |
| ClaimKeys.ShortWindowsCollide | gateway/server.go:1235 | below a second, at every whole multiple of `every` seconds two windows that follow each other share a name |
| ClaimProtocol.AtMostOnce | gateway/server.go:1207-1228 | of any number of replicas asking by name, each key and window is won at most once, when every claim is taken inside its window |
| ClaimProtocol.RefusedExactlyThen | gateway/metastore.go:210-230 | on every run a claim is refused exactly when a win for its key, of a window that begins in the same second, came less than a window's length before |
| ClaimProtocol.FirstClaimWins | gateway/server.go:1207-1228 | with windows of a second or more the first claim of a window to reach the store wins it |
| ClaimProtocol.FirstOfAnInstantWins | gateway/server.go:1235 | and so it does, in time, with windows of one nanosecond |
| ClaimProtocol.NeighbourLoses | gateway/server.go:1235 | for every length between, a window asked for in time by one replica alone is never won |
| ClaimProtocol.HeldIffInTime | gateway/metastore.go:210-230 | a won window is held against a later claim exactly while that claim is inside it |
| ClaimProtocol.LateClaimWinsAgain | gateway/metastore.go:210-230 | a claim taken after its window's end wins it a second time |
| Metastore.MemoryMetastore.Claim | gateway/metastore.go:210-230 | the claim is won exactly when the key is not held, and then held for the TTL |
| Metastore.MemoryMetastore.ClaimMany | gateway/metastore.go:231-245 | the loop answers and leaves what claiming one key after the other does |
| Metastore.MemoryMetastore.Incr | gateway/metastore.go:247-260 | the count goes on within a window and starts again past it, the check and a new expiry each at its own reading of the clock |
| Metastore.AnswersAreIndependent | gateway/metastore.go:231-245 | each of several distinct keys is answered as if asked alone |
| Metastore.OrderIsIrrelevant | gateway/server.go:1341-1371 | claims of distinct keys at one instant come to the same store in any order |
| Metastore.RepeatLoses | gateway/metastore.go:231-245 | a key repeated in one call loses the second time |
| Metastore.WindowRolls | gateway/metastore.go:247-261 | increments inside one window add up, and the next after it starts at one |
| Metastore.PutIsFound | gateway/metastore.go:184-208 | what was put is found until its TTL is over, or for ever without one, and nothing else is touched |
| Sending.WrapIsLate | gateway/server.go:1613-1617 | with any accepted positive bounds, a wait that is not the capped doubling comes only after 60 seconds of waiting, so within a send's window there is none |
| Sending.CappedUnlessWrapped | gateway/server.go:1613-1617 | at one attempt it is so exactly when the shift did not wrap to a wait below the cap |
| Sending.WrapsBelowTheCap | gateway/server.go:1613-1617 | bounds for which a later attempt waits less than the cap, as late as that |
| Sending.Backoff | gateway/server.go:1613-1622 | the jittered wait lies between half of the capped doubling, rounded down, and all of it |
| Sending.Send | gateway/server.go:1414-1507 | the attempts go on until one lands, they are spent, the 60 seconds are over or it is cancelled, each after the jittered capped doubling; it is delivered exactly when the last attempt landed or the job of the attempt to ask about did, else buried, else lost |
| Sending.CauseIsTheLastJob | gateway/server.go:1438-1488 | the attempt asked about is the last that named a load job, else the last, and no other |
| Sending.GoesExactly | gateway/server.go:1456-1480 | an attempt is followed by another exactly when it was refused and not cancelled, and its wait, the jittered capped doubling, still fits the 60 seconds |
| Sending.ElapsedSums | gateway/server.go:1438-1480 | the window is spent by every write and every wait, each once |
| StreamChecks.Stream.Check | gateway/config.go:921-1020 | the fields are filled in and refused as the specification says |
| StreamChecks.FilledAre | gateway/config.go:921-1016 | each number not written has its default, number by number |
| StreamChecks.RefusedExactlyThen | gateway/config.go:921-1020 | a stream is refused exactly for one of the listed reasons |
| StreamChecks.SettingsAre | gateway/config.go:921-1003 | the pipe is given each number under its own name |
| StreamChecks.AcceptedIsChecked | gateway/config.go:921-1003 | what is accepted is what a pipe starts from, exactly when `every` was not negative |
| StreamChecks.CheckedOnce | gateway/config.go:921-1020 | the defaults are stable: a second check changes nothing |
| StreamChecks.DrawsUnlessCapIsNegative | gateway/config.go:1005-1021 | every attempt of an accepted configuration can be jittered exactly when the cap is at least minus one nanosecond |
| StreamChecks.NegativeEveryIsAccepted | gateway/config.go:921-1003 | every negative `flush.every` is accepted, and left as it is, with the rest left out |
| StreamChecks.NegativeCapIsAccepted | gateway/config.go:1005-1021 | a cap below minus one nanosecond is accepted with any backoff no larger than it |
| StreamChecks.DrainBudget | gateway/config.go:1153-1178 | what was declared, else no less than any stream may hold its events nor than the floor, and one of those |
| AgentProtocol.RunKept | internal/agent/agent.go:323-501 | every state of every run keeps the lock, table, process, drain and wake-up invariants together |
| AgentGuarantees.OneProcessPerId | internal/agent/agent.go:336-367 | `runs` and `finished` are disjoint, an id has at most one reservation, and every process is in `runs` |
| AgentGuarantees.SpawnedIsNamed | internal/agent/agent.go:467-479 | a spawned execution is named by its id up to the end of its exit goroutine, whoever interleaves |
| AgentGuarantees.NamedUntilLetGo | internal/agent/agent.go:157-163 | after any step an id names nothing exactly when the step's prune drops it or its start is given up, the new execution exactly when the step reserves it, and else what it named |
| AgentRuns.StartGivenUp | internal/agent/agent.go:492-501 | a run leads to a start that is given up, after which its id names nothing |
| AgentGuarantees.AwaitedIsFixed | internal/agent/drain.go:37-48 | what `Drain` fixed stays fixed on every run, and nothing joins `runs` after it |
| AgentEndings.NilMeansAnswered | internal/agent/drain.go:50-85 | `Wait` returns nil only when every awaited execution has ended and been read to its exit, or was cancelled, or was never spawned |
| AgentEndings.NothingRunningIsLeft | internal/agent/drain.go:28-85 | once `Wait` has returned nil, everything that ran when the drain began or at any time since is answered |
| AgentEndings.WhatRanIsAwaited | internal/agent/drain.go:37-48 | the step that begins a drain awaits exactly what runs |
| AgentGuarantees.NoLostWakeup | internal/agent/drain.go:69-128 | a blocked waiter's channel is closed once what it found unsettled is settled and the settler that flipped the flag is past its close |
| AgentGuarantees.AsleepExactlyThen | internal/agent/drain.go:69-128 | what it found is settled and its channel still open exactly while that settler is before its close, on that same channel, with nobody replacing it |
| AgentGuarantees.AllSettledWakes | internal/agent/drain.go:69-85 | with everything settled no waiter stays blocked |
| AgentGuarantees.NeverPanics | internal/agent/drain.go:124-127 | the channel is never closed twice |
| AgentGuarantees.SomeHolderGoesOn | internal/agent/drain.go:94-128 | whenever a lock is held some holder can go on, so the lock order has no cycle |
| AgentForgetting.ForgottenExactlyThen | internal/agent/agent.go:300-316 | whatever happens next in a draining state, an awaited, unsettled execution is forgotten exactly when a step's prune drops the id that names it and nobody is about it, or the last reader gives up with no id naming it |
| AgentForgetting.ForgettingTakesADrop | internal/agent/agent.go:300-316 | on a run whose prunes drop no awaited, unsettled execution, none is ever forgotten |
| AgentForgetting.ForgottenIsWaitedForEver | internal/agent/agent.go:300-316 | a forgotten execution keeps `Wait` from ever returning nil |
| AgentDrains.SettledUnlessForgotten | internal/agent/drain.go:54-64 | from every reachable state some run settles an awaited execution exactly when it is not forgotten, whoever holds which lock |
| AgentDrains.WaitEndsUnlessForgotten | internal/agent/drain.go:69-85 | from every reachable state some run has a `Wait` under way return nil exactly when nothing awaited is forgotten |
| AgentRuns.CanBeForgotten | internal/agent/agent.go:565-572 | and a run leads there |
| AgentRuns.SecondReturnsFirst | internal/agent/drain.go:116-128 | on some run the second of two settlers is done while the channel the waiter blocks on is still open |
| Agents.Agent.Prune | internal/agent/agent.go:300-316 | the loops keep the newest unexpired executions up to the maximum, and end |
| Agents.Agent.Oldest | internal/agent/agent.go:308-313 | the scan from the empty id finds an oldest execution |
| Agents.Agent.Reserve | internal/agent/agent.go:323-367 | refused with nothing touched, refused after the prune, or reserved replacing what was kept: the protocol's step |
| Agents.Agent.Abandon | internal/agent/agent.go:492-501 | the reservation is given back if it is still this execution's, and the execution is stopped, closed and settled: the protocol's steps |
| Agents.Agent.Finish | internal/agent/agent.go:474-479 | one move from `runs` to `finished`, then the prune: the protocol's step |
| Agents.Agent.Find | internal/agent/agent.go:565-577 | the running execution, else the one kept: the protocol's step |
| Agents.Agent.FindToCancel | internal/agent/agent.go:595-613 | the same lookup for a cancel, which also says whether it ended |
| Agents.Agent.Stop | internal/agent/agent.go:602-625 | what is cancelled is settled, and has its context ended if it is not spawned yet |
| Agents.Agent.Drain | internal/agent/drain.go:37-48 | a snapshot taken once: the protocol's step, and idempotent |
| Agents.Agent.Pending | internal/agent/drain.go:96-108 | the unsettled awaited ids, sorted |
| Agents.Agent.Settle | internal/agent/drain.go:116-128 | the flag is set, and the channel closed and replaced the first time only: the protocol's two steps |
| Retention.PrunedIsExact | internal/agent/agent.go:300-316 | with distinct end times there is one set `prune` may keep |
| Retention.KeptExactlyThen | internal/agent/agent.go:300-316 | what is kept had not expired; with distinct end times one is kept exactly when it had not and fewer than the maximum of those ended later |
| Retention.PrunedOnce | internal/agent/agent.go:300-316 | pruning again at the same instant drops nothing more |
| CanonicalJson.Canonical | sdk/landing.go:232-290 | two trees have the same text exactly when they are the same tree |
| JsonReading.ReadsExactly | sdk/landing.go:232-290 | a reader written from the grammar of RFC 8259, which wants member names in increasing order and every character escaped one way, reads a text as a tree exactly when it is the tree's canonical text |
| CanonicalJson.TextSplits | sdk/landing.go:241-290 | equal texts are of equal trees whatever delimiter follows them: string literals and number tokens say where they end (sections 6 and 7 of RFC 8259) |
| CanonicalJson.EscapedSplits | sdk/landing.go:253-258 | a string literal can be read back one way only |
| CanonicalJson.Write | sdk/landing.go:241-290 | the builder's recursion appends the canonical text, whatever order each map is walked in |
| LandingIds.IdTextSplits | sdk/landing.go:199-223 | for tables without a bar, equal id texts are of equal table, slot and digest, even of keys with bars |
| LandingIds.IdTextIs | sdk/landing.go:199-223 | the text, spelled out slot by slot; a record with no key goes by its content |
| LandingIds.SameIdSameRow | sdk/landing.go:199-223 | given a digest that tells the two texts apart, one id is one record in one table, under one key or a key that spells its own fingerprint |
| LandingIds.BarsMove | sdk/internal/core/types.go:61-95 | every table name with a bar shares its ids with another table |
| Reduction.FoldIsGroupBy | sdk/reduce.go:601-656 | the one-pass fold succeeds exactly when every aggregator does over every group, and is then group-then-aggregate |
| Reduction.SameGroup | sdk/reduce.go:688-703 | with no zero character in what they render as, two rows share a group exactly when each group field renders alike in both, an absent one as a null |
| Reduction.KeyIsItsOwn | sdk/reduce.go:534-537 | a key is of one tuple of rendered fields alone exactly when there is one field at most, or none holds the zero character |
| Reduction.OfSelects | sdk/reduce.go:601-656 | the rows of a group are the rows under its key, all of them, as they arrived |
| Reduction.OverExactly | sdk/reduce.go:644-648 | an aggregator comes to a state exactly when it can take every row in turn from where it starts, and that is the state |
| Reducing.Pass | sdk/reduce.go:601-651 | the loop over the stream with its map of group objects is the fold, one state an aggregator in each group; it fails exactly when something is not a record, the first already names its row, or the fold fails |
| Reducing.Feed | sdk/reduce.go:644-648 | every aggregator takes the row in whatever order, and it fails exactly when one cannot |
| Reducing.SortCells | sdk/reduce.go:651-655 | the groups in strictly increasing key order |
| Reducing.Apply | sdk/reduce.go:576-599 | fold, field check, close and last pass are the reduction of the specification |
| Reducing.AppliedExactly | sdk/reduce.go:576-686 | it succeeds exactly when all is readable, no field is named that no row has, and no aggregator fails over a group or closing it |
| Reducing.AppliedFinishes | sdk/reduce.go:720-735 | a last pass is shown the groups in key order, each with what its first row says of the group fields and with its row, and its answer is the reduction's |
| Reducing.ReducedIsGroupBy | sdk/reduce.go:705-722 | one row per group by increasing key: the first row's group values, and each aggregator over the group's rows in arrival order |
| Reducing.ReducedUnlessOneFails | sdk/reduce.go:576-599 | it fails exactly when some aggregator fails over some group, or closing it |
| Statistics.OnePassIsTwoPass | sdk/reduce.go:329-348 | the recurrence holds the exact count, mean and sum of squared deviations from that mean |
| Statistics.OrderDoesNotMatter | sdk/reduce.go:329-348 | the same numbers in any order come to the same state |
| Statistics.VarianceOver | sdk/reduce.go:336-348 | as an aggregator it fails exactly when some value is not a number |
| Statistics.NumbersAre | sdk/reduce.go:445-480 | the numbers of a field are what each row's value spells, nulls left out, and there are none when some value spells none |
| Statistics.VarianceIsTwoPass | sdk/reduce.go:349-359 | the column is the two-pass sample variance, is not negative, and is null below two numbers |
| Extremes.ExtremeByOver | sdk/reduce.go:287-317 | it fails exactly when two or more compared values are neither all numbers nor all texts; else the leader is the earliest row that attains the extreme |
| Extremes.ExtremeIsByItself | sdk/reduce.go:209-238 | Min and Max are MinBy and MaxBy of a field by itself |
| Extremes.ExtremeByIsLeader | sdk/reduce.go:258-317 | MinBy returns the value of the first row whose key is least, MaxBy of the first whose key is greatest, numbers by value and texts by character, and null when no row has a key |
| Ordering.LeIsLexicographic | sdk/reduce.go:490-512 | one text comes no later than another exactly when it is a prefix of it, or has the smaller character at the first place where they differ |
| Checkpoints.Materialize | sdk/checkpoint.go:212-289 | whatever fails in the depot the consumer is given the source's stream once and in order, as far as it asks; the manifest is tried only after a clean end, with everything written |
| Checkpoints.Degrade | sdk/checkpoint.go:225-256 | what was written, what is pending, the loose record and the rest of the source are one stream |
| Checkpoints.Drain | sdk/checkpoint.go:255-279 | what was added, with the record that did not get in, is the source so far, at every way out |
| Checkpoints.Writer.Finish | sdk/internal/checkpoint/checkpoint.go:328-346 | the manifest is tried only once nothing is pending |
| DeadLetters.StripUndoesBury | gateway/deadletter_resend.go:285-297 | stripping undoes the stamping, and gives the row itself exactly when it had no stamped column before |
| DeadLetters.BuriedSays | gateway/server.go:1561-1587 | a buried row says why, where, when, of which batch and of which stream, under those column names, beside all it said of its own |
| DeadLetters.BuriedNamesTheJob | gateway/server.go:1577-1586 | and names its load job by the id a resend will ask by |
| DeadLetters.BuryEach | gateway/server.go:1561-1587 | the loop over the batch makes a copy of each record stamped by the clock as it is then, and leaves any other payload as it is |
| DeadLetters.BuriedEachSays | gateway/server.go:1561-1587 | each record of a buried batch says when it was buried, by its own reading of the clock, and of which job; anything else is as it was |
| DeadLetters.Resend | gateway/deadletter_resend.go:144-262 | barred by a receipt of a delivery, or by receipts that cannot be read, unless asked for again; else what is sent, skipped and refused is as decided by job, and it ends without an error exactly when nothing was refused and what was sent was taken and written down |
| DeadLetters.DeliveredOnce | gateway/deadletter_resend.go:149-160 | with none asked for again and every delivery written down, any number of resends deliver a batch once at most |
| DeadLetters.GoesThroughIff | gateway/deadletter_resend.go:149-160 | a plain resend goes through exactly when the last that sent anything and was written down was not taken, or there is none |
| DeadLetters.DeliveredTwice | gateway/deadletter_cli.go:153-171 | one asked for again that failed lets a plain one deliver the batch a second time |
| DeadLetters.RowsArePartitioned | gateway/deadletter_resend.go:174-219 | each row is in exactly one of sent, skipped and refused |
| DeadLetters.PartGoesInOrder | gateway/deadletter_resend.go:174-219 | the rows of a job that is sent go together, in their order |
| DeadLetters.NeverTwice | gateway/deadletter_resend.go:193-219 | a row whose job landed, still runs or could not be asked is never sent |
| DeadLetters.SentExactlyThen | gateway/deadletter_resend.go:174-219 | a row is sent exactly when its job neither landed nor runs, as the sink says when shown the first row of it; or names none, and the destination does not append or duplicates are allowed; its job is skipped exactly when it landed |
| DeadLetters.RefusedExactlyThen | gateway/deadletter_resend.go:174-219 | the receipt refuses exactly the jobs that cannot be asked about or run on without having landed, and under one label the rows of none when they may not be sent |
| DeadLetters.ResentIsTheBatch | gateway/deadletter_resend.go:285-297 | a batch buried and resent whole is the batch: the same rows, as they were |

## Left out

- HTTP handling, authentication, TLS and decoding: a request arrives as decoded events and the bytes each arrived as. The hook, the oversize archive, the sink's admission and the identity are functions the environment chooses.
- Metrics, logs, describe and manifest text, the command line, the site, benchmarks.
- Sinks, object stores, Redis, memcached and load jobs: each is a success or a failure the environment chooses, or a function.
- The digests and UUID v5: only the text that is hashed is modelled, and `LandingIds.SameIdSameRow` asks of the digest that it tell the two texts apart.
- Text is sequences of Unicode scalar values: bytes that are not valid UTF-8, which the encoder replaces, are not modelled. A record's values are the JSON ones, not Go structs.
- Time is an integer of nanoseconds that does not go back, and a gateway that claims is within the years RFC 3339 can print. The clock may move between any two steps and any two readings, except as the lines on `Arm` and `NextDeadline` say.
- ClaimKeys.ClaimKeyInjective: does not model years past 9999, where RFC 3339 has no four-digit form. Gateways and streams are told apart by `NamesApart`, when their names hold no colon.
- ClaimProtocol.AtMostOnce: does not model several streams or gateways in one store, whose names hold the stream's and the gateway's; nor replicas whose clocks differ.
- PipeProtocol takes `send` as one step with one of three outcomes; its attempts are `Sending.Send`. What a sink does with a batch is not modelled.
- Gateway.Pipe.Arm: does not model the clock moving while it looks for the earliest deadline; all are read at the instant the timer is set, which may then be late by as long as that walk takes.
- Gateway.Pipe.NextDeadline: does not model the clock moving during its walk, for the same reason.
- Gateway.Pipe.Flush: does not model a store asked key by key whose answers change from one name to the next; a store is a function of the names.
- Gateway.Pipe.Close: does not model the wait for the workers and its deadline, which are steps of `PipeProtocol` (`PipeGuarantees.CleanDrain`, `LateDrain`).
- AgentProtocol takes a critical section that holds only the agent's lock as one step, and the reaping of a process together with setting `exited` as one step. Signals, the kill timer, the ring of lines, persistence and restore are not modelled; a restored execution is one that is finished and settled at the start.
- Agents.Agent.Stop: does not model signalling the process group, nor the timer that kills it after the grace.
- Agents.Agent.FindToCancel: does not model the cancel of an execution known only from the state directory.
- Reducing.Apply: does not model which of several failures is reported; `Finish` is a function of the groups and their rows.
- Statistics.OnePassIsTwoPass: does not model floating-point rounding or NaN; numbers are reals. StdDev's square root is left out.
- Reduction.SameGroup: does not say which tuples share a key when a value renders with the zero character, only that some do (`KeyIsItsOwn`). How a value renders is a parameter.
- Checkpoints.Materialize: does not model re-encoding: a record written and read back is taken as the record, and a depot that cannot be read back is not modelled.
- DeadLetters.Resend: does not model finding the batch among the objects of a dead letter, nor a sink that cannot be built; its rows are given.
- Sending.Send: does not model how long a write takes or when the caller cancels: both are the environment's choice, as is where the jitter falls.
- StreamChecks.Stream.Check: does not model the format, identity, durability, sink, metastore and oversize checks, nor overflow of the products in the defaults.
- Count, Sum, Mean, First, Last, Any, All and Range: folds of the same form as those modelled, with nothing harder in them.
- `identify`, oversize archiving, the landing schema and column spreading, checkpoint resume.
