/** Runs of the pipe, step by step. */
module PipeRuns {
  import opened Ordering
  import opened Tally
  import opened Buffering
  import opened PipeProtocol
  import opened PipeSafety
  import opened PipeGuarantees

  lemma Goes(c: Settings, s: State, a: Action) returns (t: State)
    requires Reachable(c, s) && Enabled(c, s, a)
    ensures Reachable(c, t) && t == Apply(c, s, a)
  {
    var trace, i: nat :| Run(c, trace) && i < |trace| && trace[i] == s;
    t := Apply(c, s, a);
    var longer := trace[..i + 1] + [t];
    forall j | 0 <= j < |longer| - 1 ensures Step(c, longer[j], longer[j + 1]) {
      if j < i { assert Step(c, trace[j], trace[j + 1]); }
    }
    assert Run(c, longer) && longer[i + 1] == t;
  }

  const SMALL: Event := Event(0, "", 0)

  /** A pipe as it starts, with one event asking to be let in. */
  lemma OneAsks(c: Settings) returns (s: State)
    requires Checked(c)
    ensures Reachable(c, s) && s.holder == RecordsFit([SMALL]) && s.closer == NotStarted && s.now == 1
    ensures s.buf == Buffer(map[], 0, 0) && s.counts == Atomics(0, 0) && s.chan == Channel([], false)
    ensures s.workers == Crew(c.workers)
  {
    s := State(1, false, Buffer(map[], 0, 0), Off, false, Free, NotStarted,
               Channel([], false), Atomics(0, 0), Crew(c.workers), Past([], [], []));
    assert Run(c, [s]) && [s][0] == s;
    s := Goes(c, s, ByHolder(Request([SMALL])));
    s := Goes(c, s, ByHolder(CheckRecords));
  }

  /** It is let in. */
  lemma OneFilled(c: Settings) returns (s: State)
    requires Checked(c)
    ensures Reachable(c, s) && s.holder == Handing([""], false) && s.closer == NotStarted
    ensures s.buf == Buffer(map["" := Share([SMALL], 0, 1)], 1, 0)
    ensures s.counts == Atomics(0, 0) && s.chan == Channel([], false) && s.workers == Crew(c.workers)
  {
    s := OneAsks(c);
    assert [SMALL][1..] == [] && Weigh([SMALL], Bytes) == 0;
    s := Goes(c, s, ByHolder(CheckBytes));
    s := Goes(c, s, ByHolder(Fill));
    s := Goes(c, s, ByHolder(HolderStep.Filled));
    assert Touched([SMALL]) == [""] && Sort([""]) == [""];
  }

  /** With a trigger of one record it is handed off at once. */
  lemma OneSent(c: Settings) returns (s: State)
    requires Checked(c) && c.records == 1
    ensures Reachable(c, s) && s.holder == CountingRecords(Item([SMALL], 0), [], false)
    ensures s.chan == Channel([Item([SMALL], 0)], false) && s.counts == Atomics(0, 0) && s.workers == Crew(c.workers)
  {
    s := OneFilled(c);
    s := Goes(c, s, ByHolder(Attempt));
    s := Goes(c, s, ByHolder(Send));
  }

  /** `pending` does go below zero, under any settings with such a trigger: the worker is done with the batch before
      its sender has added it. */
  lemma PendingDipsOnARun(c: Settings) returns (s: State)
    requires Checked(c) && c.records == 1
    ensures Reachable(c, s) && s.holder.CountingRecords? && s.counts.pending == -1
  {
    s := OneSent(c);
    CrewIdle(c.workers, One, Unsettled);
    assert 0 in Crew(c.workers).Keys;
    s := Goes(c, s, ByWorker(0, Receive));
    s := Goes(c, s, ByWorker(0, Settle(Delivered)));
    s := Goes(c, s, ByWorker(0, ReleaseRecords));
  }
}
