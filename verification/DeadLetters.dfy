/** Burying a batch and sending it again: what is stamped on a row comes off, and each row of a buried batch is sent,
    skipped or refused by what became of its load job. */
module DeadLetters {
  import opened Ordering
  import opened Outcomes
  import opened CanonicalJson

  type Row = map<string, Json>

  const PREFIX: string := "_dead_letter_"

  predicate Stamped(name: string) { |name| >= |PREFIX| && name[..|PREFIX|] == PREFIX }

  function Named(what: string): (name: string)
    ensures Stamped(name) && name[|PREFIX|..] == what
  {
    PREFIX + what
  }

  /** A load job, as the sink names it for one row. */
  datatype Job = Job(id: string, state: string, location: string)

  datatype Why = Why(reason: string, sink: string, at: string, batch: string, stream: string)

  /** The columns `bury` adds to a row. */
  function Stamps(why: Why, job: Option<Job>): Row {
    var said := map[
      Named("reason") := Str(why.reason), Named("sink") := Str(why.sink), Named("at") := Str(why.at),
      Named("batch") := Str(why.batch), Named("stream") := Str(why.stream)];
    if job.None? then said else
    var named := said[Named("job_id") := Str(job.value.id)][Named("job_state") := Str(job.value.state)];
    if job.value.location == "" then named else named[Named("job_location") := Str(job.value.location)]
  }

  function Bury(row: Row, why: Why, job: Option<Job>): Row { row + Stamps(why, job) }

  /** The job a row names; empty when it names none, or in anything but a text. */
  function JobOf(row: Row): string {
    if Named("job_id") in row && row[Named("job_id")].Str? then row[Named("job_id")].text else ""
  }

  function Strip(row: Row): Row { map name | name in row && !Stamped(name) :: row[name] }

  /** `stripped`'s loop over one row's fields. */
  method StripRow(row: Row) returns (clean: Row)
    ensures clean == Strip(row)
  {
    clean := map[];
    var left := row.Keys;
    while left != {}
      invariant left <= row.Keys
      invariant forall name :: name in clean <==> name in row && name !in left && !Stamped(name)
      invariant forall name | name in clean :: clean[name] == row[name]
      decreases |left|
    {
      var name :| name in left;
      if !Stamped(name) { clean := clean[name := row[name]]; }
      left := left - {name};
    }
  }

  /** Stripping undoes burying, whatever the row held of its own under other names; it gives the row itself exactly
      when the row had no stamped column before. */
  lemma StripUndoesBury(row: Row, why: Why, job: Option<Job>)
    ensures Strip(Bury(row, why, job)) == Strip(row)
    ensures Strip(Bury(row, why, job)) == row <==> forall name | name in row :: !Stamped(name)
  {
  }

  // ----- sending a buried batch again ---------------------------------------------------------

  /** What the sink says a job became. */
  datatype Answer = Answer(landed: bool, running: bool)

  /** The sink is asked of a job and the first of its rows. */
  type Oracle = (string, Row) -> Result<Answer, string>

  datatype Request = Request(appending: bool, allowDuplicates: bool, dryRun: bool, again: bool)

  datatype Decision = Send | Skip | Refuse(why: string)

  /** What becomes of one part of the batch. */
  function Decide(req: Request, ask: Oracle, job: string, first: Row): Decision {
    if job == "" then
      if req.appending && !req.allowDuplicates then Refuse("write: append and no load job to ask") else Send
    else
      match ask(job, first)
      case Err(e) => Refuse("could not ask: " + e)
      case Ok(answer) => if answer.landed then Skip else if answer.running then Refuse("still running") else Send
  }

  /** The parts, in the order their rows came. */
  function Jobs(rows: seq<Row>): seq<string> {
    if rows == [] then [] else
    var n := |rows| - 1;
    var before := Jobs(rows[..n]);
    if JobOf(rows[n]) in before then before else before + [JobOf(rows[n])]
  }

  /** The rows whose job is one of those asked for. */
  function Keep(rows: seq<Row>, jobs: string -> bool): seq<Row> {
    if rows == [] then [] else
    var n := |rows| - 1;
    Keep(rows[..n], jobs) + (if jobs(JobOf(rows[n])) then [rows[n]] else [])
  }

  function Only(job: string): string -> bool { (j: string) => j == job }

  function Part(rows: seq<Row>, job: string): seq<Row> { Keep(rows, Only(job)) }

  /** The decision on a part. */
  function Fate(req: Request, ask: Oracle, rows: seq<Row>, job: string): Decision {
    var part := Part(rows, job);
    if part == [] then Send else Decide(req, ask, job, part[0])
  }

  /** The parts that are sent, one after another. */
  function SentOf(req: Request, ask: Oracle, rows: seq<Row>, jobs: seq<string>): seq<Row> {
    if jobs == [] then [] else
    var n := |jobs| - 1;
    SentOf(req, ask, rows, jobs[..n]) + (if Fate(req, ask, rows, jobs[n]).Send? then Part(rows, jobs[n]) else [])
  }

  function SkippedOf(req: Request, ask: Oracle, rows: seq<Row>, jobs: seq<string>): seq<string> {
    if jobs == [] then [] else
    var n := |jobs| - 1;
    SkippedOf(req, ask, rows, jobs[..n]) + (if Fate(req, ask, rows, jobs[n]).Skip? then [jobs[n]] else [])
  }

  function Label(job: string): string { if job == "" then "(no job)" else job }

  function RefusedOf(req: Request, ask: Oracle, rows: seq<Row>, jobs: seq<string>): map<string, string> {
    if jobs == [] then map[] else
    var n := |jobs| - 1;
    var before := RefusedOf(req, ask, rows, jobs[..n]);
    match Fate(req, ask, rows, jobs[n])
    case Refuse(why) => before[Label(jobs[n]) := why]
    case _ => before
  }

  function StripAll(rows: seq<Row>): seq<Row> {
    seq(|rows|, i requires 0 <= i < |rows| => Strip(rows[i]))
  }

  lemma {:induction false} JobsListed(rows: seq<Row>)
    ensures Distinct(Jobs(rows))
    ensures forall i | 0 <= i < |rows| :: JobOf(rows[i]) in Jobs(rows)
  {
    if rows != [] {
      var front := rows[..|rows| - 1];
      JobsListed(front);
      forall i | 0 <= i < |front| ensures JobOf(rows[i]) in Jobs(front) { assert rows[i] == front[i]; }
    }
  }

  lemma {:induction false} JobsHaveRows(rows: seq<Row>, job: string)
    ensures job in Jobs(rows) <==> Part(rows, job) != []
  {
    if rows != [] { JobsHaveRows(rows[..|rows| - 1], job); }
  }

  /** Keeping these and those is keeping these, and keeping those. */
  lemma {:induction false} KeepBoth(rows: seq<Row>, a: string -> bool, b: string -> bool, either: string -> bool)
    requires forall i | 0 <= i < |rows| :: var j := JobOf(rows[i]); !(a(j) && b(j)) && (either(j) <==> a(j) || b(j))
    ensures multiset(Keep(rows, either)) == multiset(Keep(rows, a)) + multiset(Keep(rows, b))
  {
    if rows != [] {
      var front := rows[..|rows| - 1];
      assert forall i | 0 <= i < |front| :: front[i] == rows[i];
      KeepBoth(front, a, b, either);
    }
  }

  lemma {:induction false} KeepSame(rows: seq<Row>, a: string -> bool, b: string -> bool)
    requires forall i | 0 <= i < |rows| :: a(JobOf(rows[i])) <==> b(JobOf(rows[i]))
    ensures Keep(rows, a) == Keep(rows, b)
  {
    if rows != [] {
      var front := rows[..|rows| - 1];
      assert forall i | 0 <= i < |front| :: front[i] == rows[i];
      KeepSame(front, a, b);
    }
  }

  function SentAmong(req: Request, ask: Oracle, rows: seq<Row>, jobs: seq<string>): string -> bool {
    (j: string) => j in jobs && Fate(req, ask, rows, j).Send?
  }

  lemma {:induction false} KeepNone(rows: seq<Row>, none: string -> bool)
    requires forall j: string :: !none(j)
    ensures Keep(rows, none) == []
  {
    if rows != [] { KeepNone(rows[..|rows| - 1], none); }
  }

  lemma {:induction false} SentAre(req: Request, ask: Oracle, rows: seq<Row>, jobs: seq<string>)
    requires Distinct(jobs)
    ensures multiset(SentOf(req, ask, rows, jobs)) == multiset(Keep(rows, SentAmong(req, ask, rows, jobs)))
  {
    if jobs == [] {
      KeepNone(rows, SentAmong(req, ask, rows, jobs));
    } else {
      var n := |jobs| - 1;
      SentAre(req, ask, rows, jobs[..n]);
      assert jobs[n] !in jobs[..n] && forall j :: j in jobs <==> j in jobs[..n] || j == jobs[n];
      var a, b := SentAmong(req, ask, rows, jobs[..n]), SentAmong(req, ask, rows, jobs);
      if Fate(req, ask, rows, jobs[n]).Send? { KeepBoth(rows, a, Only(jobs[n]), b); } else { KeepSame(rows, a, b); }
    }
  }

  function Fated(req: Request, ask: Oracle, rows: seq<Row>, which: Decision -> bool): string -> bool {
    (j: string) => which(Fate(req, ask, rows, j))
  }

  function IsSend(): Decision -> bool { (d: Decision) => d.Send? }

  function IsSkip(): Decision -> bool { (d: Decision) => d.Skip? }

  function IsRefuse(): Decision -> bool { (d: Decision) => d.Refuse? }

  lemma {:induction false} KeepAll(rows: seq<Row>, all: string -> bool)
    requires forall i | 0 <= i < |rows| :: all(JobOf(rows[i]))
    ensures Keep(rows, all) == rows
  {
    if rows != [] {
      var front := rows[..|rows| - 1];
      assert forall i | 0 <= i < |front| :: front[i] == rows[i];
      KeepAll(front, all);
    }
  }

  function IsAny(): Decision -> bool { (d: Decision) => true }

  function IsKept(): Decision -> bool { (d: Decision) => !d.Send? }

  lemma KeptWays(req: Request, ask: Oracle, rows: seq<Row>, job: string)
    ensures Fated(req, ask, rows, IsKept())(job) <==>
              Fated(req, ask, rows, IsSkip())(job) || Fated(req, ask, rows, IsRefuse())(job)
    ensures !(Fated(req, ask, rows, IsSkip())(job) && Fated(req, ask, rows, IsRefuse())(job))
  {
    match Fate(req, ask, rows, job)
    case Send =>
    case Skip =>
    case Refuse(_) =>
  }

  /** Each row is in exactly one of sent, skipped and refused, by what became of its job; what is sent is the rows of
      the jobs that are to be sent, and nothing else. */
  lemma RowsArePartitioned(req: Request, ask: Oracle, rows: seq<Row>)
    ensures multiset(rows) ==
      multiset(Keep(rows, Fated(req, ask, rows, IsSend()))) + multiset(Keep(rows, Fated(req, ask, rows, IsSkip()))) +
      multiset(Keep(rows, Fated(req, ask, rows, IsRefuse())))
    ensures multiset(SentOf(req, ask, rows, Jobs(rows))) == multiset(Keep(rows, Fated(req, ask, rows, IsSend())))
  {
    forall i | 0 <= i < |rows| { KeptWays(req, ask, rows, JobOf(rows[i])); }
    KeepBoth(rows, Fated(req, ask, rows, IsSkip()), Fated(req, ask, rows, IsRefuse()), Fated(req, ask, rows, IsKept()));
    KeepBoth(rows, Fated(req, ask, rows, IsSend()), Fated(req, ask, rows, IsKept()), Fated(req, ask, rows, IsAny()));
    KeepAll(rows, Fated(req, ask, rows, IsAny()));
    JobsListed(rows);
    SentAre(req, ask, rows, Jobs(rows));
    KeepSame(rows, SentAmong(req, ask, rows, Jobs(rows)), Fated(req, ask, rows, IsSend()));
  }

  /** The rows of a job that is sent go together, in the order they were buried. */
  lemma {:induction false} PartGoesInOrder(req: Request, ask: Oracle, rows: seq<Row>, jobs: seq<string>, i: nat)
    requires i < |jobs| && Fate(req, ask, rows, jobs[i]).Send?
    ensures exists a, b :: SentOf(req, ask, rows, jobs) == a + Part(rows, jobs[i]) + b
  {
    var n := |jobs| - 1;
    var last := if Fate(req, ask, rows, jobs[n]).Send? then Part(rows, jobs[n]) else [];
    if i == n {
      assert SentOf(req, ask, rows, jobs) == SentOf(req, ask, rows, jobs[..n]) + Part(rows, jobs[n]) + [];
    } else {
      PartGoesInOrder(req, ask, rows, jobs[..n], i);
      var a, b :| SentOf(req, ask, rows, jobs[..n]) == a + Part(rows, jobs[i]) + b;
      assert SentOf(req, ask, rows, jobs) == a + Part(rows, jobs[i]) + (b + last);
    }
  }

  lemma {:induction false} KeptAre(rows: seq<Row>, jobs: string -> bool, row: Row)
    requires row in Keep(rows, jobs)
    ensures jobs(JobOf(row)) && exists i | 0 <= i < |rows| :: rows[i] == row
  {
    var n := |rows| - 1;
    if row in Keep(rows[..n], jobs) {
      KeptAre(rows[..n], jobs, row);
      var i :| 0 <= i < n && rows[..n][i] == row;
      assert rows[i] == row;
    }
  }

  lemma SentIsToSend(req: Request, ask: Oracle, rows: seq<Row>, row: Row)
    requires row in SentOf(req, ask, rows, Jobs(rows))
    ensures Fate(req, ask, rows, JobOf(row)).Send? && Part(rows, JobOf(row)) != []
  {
    RowsArePartitioned(req, ask, rows);
    assert row in multiset(SentOf(req, ask, rows, Jobs(rows)));
    KeptAre(rows, Fated(req, ask, rows, IsSend()), row);
    JobsListed(rows);
    JobsHaveRows(rows, JobOf(row));
  }

  /** A row whose job landed, still runs or could not be asked is never sent. */
  lemma NeverTwice(req: Request, ask: Oracle, rows: seq<Row>, row: Row)
    requires row in SentOf(req, ask, rows, Jobs(rows)) && JobOf(row) != ""
    ensures Part(rows, JobOf(row)) != [] && ask(JobOf(row), Part(rows, JobOf(row))[0]) == Ok(Answer(false, false))
  {
    SentIsToSend(req, ask, rows, row);
  }

  // ----- what becomes of a row, by its job alone ----------------------------------------------

  /** The first row that names the job: the one the sink is shown when it is asked. */
  predicate IsFirst(rows: seq<Row>, job: string, f: nat) {
    f < |rows| && JobOf(rows[f]) == job && forall k | 0 <= k < f :: JobOf(rows[k]) != job
  }

  lemma {:induction false} PartIsEmpty(rows: seq<Row>, job: string)
    requires forall k | 0 <= k < |rows| :: JobOf(rows[k]) != job
    ensures Part(rows, job) == []
  {
    if rows != [] { PartIsEmpty(rows[..|rows| - 1], job); }
  }

  lemma {:induction false} FirstOfPart(rows: seq<Row>, job: string, f: nat)
    requires IsFirst(rows, job, f)
    ensures Part(rows, job) != [] && Part(rows, job)[0] == rows[f]
  {
    var n := |rows| - 1;
    if f < n {
      FirstOfPart(rows[..n], job, f);
    } else {
      PartIsEmpty(rows[..n], job);
    }
  }

  lemma {:induction false} PartHas(rows: seq<Row>, job: string, row: Row)
    ensures row in Part(rows, job) <==> row in rows && JobOf(row) == job
  {
    if rows != [] {
      var n := |rows| - 1;
      PartHas(rows[..n], job, row);
      assert rows == rows[..n] + [rows[n]];
    }
  }

  lemma {:induction false} SentHas(req: Request, ask: Oracle, rows: seq<Row>, jobs: seq<string>, row: Row)
    requires row in rows
    ensures row in SentOf(req, ask, rows, jobs) <==> JobOf(row) in jobs && Fate(req, ask, rows, JobOf(row)).Send?
  {
    if jobs != [] {
      var n := |jobs| - 1;
      SentHas(req, ask, rows, jobs[..n], row);
      PartHas(rows, jobs[n], row);
      assert jobs == jobs[..n] + [jobs[n]];
    }
  }

  lemma {:induction false} SkippedHas(req: Request, ask: Oracle, rows: seq<Row>, jobs: seq<string>, job: string)
    ensures job in SkippedOf(req, ask, rows, jobs) <==> job in jobs && Fate(req, ask, rows, job).Skip?
  {
    if jobs != [] {
      var n := |jobs| - 1;
      SkippedHas(req, ask, rows, jobs[..n], job);
      assert jobs == jobs[..n] + [jobs[n]];
    }
  }

  lemma {:induction false} RefusedHas(req: Request, ask: Oracle, rows: seq<Row>, jobs: seq<string>, listed: string)
    ensures listed in RefusedOf(req, ask, rows, jobs) <==>
      exists job | job in jobs :: Fate(req, ask, rows, job).Refuse? && listed == Label(job)
  {
    if jobs != [] {
      var n := |jobs| - 1;
      RefusedHas(req, ask, rows, jobs[..n], listed);
      assert jobs == jobs[..n] + [jobs[n]];
    }
  }

  lemma FateIs(req: Request, ask: Oracle, rows: seq<Row>, job: string, f: nat)
    requires IsFirst(rows, job, f)
    ensures job in Jobs(rows) && Fate(req, ask, rows, job) == Decide(req, ask, job, rows[f])
  {
    FirstOfPart(rows, job, f);
    JobsHaveRows(rows, job);
  }

  /** A row is sent again exactly when its job neither landed nor runs, as the sink says when shown the first row of
      it; or when it names none, and the destination does not append or duplicates are allowed. Its job is listed as
      skipped exactly when it landed. */
  lemma SentExactlyThen(req: Request, ask: Oracle, rows: seq<Row>, i: nat, f: nat)
    requires i < |rows| && IsFirst(rows, JobOf(rows[i]), f)
    ensures var job := JobOf(rows[i]);
      rows[i] in SentOf(req, ask, rows, Jobs(rows)) <==>
        if job == "" then !req.appending || req.allowDuplicates else ask(job, rows[f]) == Ok(Answer(false, false))
    ensures var job := JobOf(rows[i]);
      job in SkippedOf(req, ask, rows, Jobs(rows)) <==>
        job != "" && ask(job, rows[f]).Ok? && ask(job, rows[f]).value.landed
  {
    FateIs(req, ask, rows, JobOf(rows[i]), f);
    SentHas(req, ask, rows, Jobs(rows), rows[i]);
    SkippedHas(req, ask, rows, Jobs(rows), JobOf(rows[i]));
  }

  /** A part is refused when the sink cannot be asked, or says the job still runs and has not landed; or when it
      names no job, the destination appends and duplicates are not allowed. */
  predicate RefusedPart(req: Request, ask: Oracle, job: string, first: Row) {
    if job == "" then req.appending && !req.allowDuplicates
    else ask(job, first).Err? || (!ask(job, first).value.landed && ask(job, first).value.running)
  }

  /** The first row of such a part, and what the receipt lists it under. */
  predicate ListedFor(req: Request, ask: Oracle, rows: seq<Row>, f: nat, listed: string)
    requires f < |rows|
  {
    var job := JobOf(rows[f]);
    && IsFirst(rows, job, f) && RefusedPart(req, ask, job, rows[f])
    && listed == if job == "" then "(no job)" else job
  }

  lemma {:induction false} FirstThereIs(rows: seq<Row>, job: string) returns (f: nat)
    requires job in Jobs(rows)
    ensures IsFirst(rows, job, f)
  {
    var n := |rows| - 1;
    JobsHaveRows(rows[..n], job);
    if job in Jobs(rows[..n]) {
      f := FirstThereIs(rows[..n], job);
    } else {
      forall k | 0 <= k < n ensures JobOf(rows[k]) != job {
        JobsListed(rows[..n]);
        assert rows[..n][k] == rows[k];
      }
      f := n;
    }
  }

  /** The receipt lists as refused exactly the jobs of such parts, and those that name none under one label. */
  lemma RefusedExactlyThen(req: Request, ask: Oracle, rows: seq<Row>, listed: string)
    ensures listed in RefusedOf(req, ask, rows, Jobs(rows)) <==>
      exists f: nat | f < |rows| :: ListedFor(req, ask, rows, f, listed)
  {
    RefusedHas(req, ask, rows, Jobs(rows), listed);
    if job :| job in Jobs(rows) && Fate(req, ask, rows, job).Refuse? && listed == Label(job) {
      var f := FirstThereIs(rows, job);
      FateIs(req, ask, rows, job, f);
      assert ListedFor(req, ask, rows, f, listed);
    }
    if f: nat :| f < |rows| && ListedFor(req, ask, rows, f, listed) {
      FateIs(req, ask, rows, JobOf(rows[f]), f);
      assert JobOf(rows[f]) in Jobs(rows);
    }
  }

  predicate Says(row: Row, name: string, text: string) { name in row && row[name] == Str(text) }

  lemma StampsSay(why: Why, job: Option<Job>)
    ensures var stamps := Stamps(why, job);
      && Says(stamps, Named("reason"), why.reason) && Says(stamps, Named("sink"), why.sink)
      && Says(stamps, Named("at"), why.at) && Says(stamps, Named("batch"), why.batch)
      && Says(stamps, Named("stream"), why.stream)
    ensures job.None? ==> Named("job_id") !in Stamps(why, job)
  {
    assert |"reason"| == 6 && |"sink"| == 4 && |"at"| == 2 && |"batch"| == 5 && |"stream"| == 6 && |"job_id"| == 6;
    assert "reason"[0] == 'r' && "stream"[0] == 's' && "job_id"[0] == 'j';
    assert |"job_state"| == 9 && |"job_location"| == 12;
  }

  lemma JobStampsSay(why: Why, job: Job)
    ensures var stamps := Stamps(why, Some(job));
      && Says(stamps, Named("job_id"), job.id) && Says(stamps, Named("job_state"), job.state)
      && (job.location != "" ==> Says(stamps, Named("job_location"), job.location))
  {
    assert |"job_id"| == 6 && |"job_state"| == 9 && |"job_location"| == 12;
  }

  lemma ColumnNames()
    ensures Named("reason") == "_dead_letter_reason" && Named("sink") == "_dead_letter_sink"
    ensures Named("at") == "_dead_letter_at" && Named("batch") == "_dead_letter_batch"
    ensures Named("stream") == "_dead_letter_stream" && Named("job_id") == "_dead_letter_job_id"
    ensures Named("job_state") == "_dead_letter_job_state" && Named("job_location") == "_dead_letter_job_location"
  {
  }

  /** What a buried row says, under the names the columns go by, beside all it said before of its own. */
  lemma BuriedSays(row: Row, why: Why, job: Option<Job>)
    ensures var buried := Bury(row, why, job);
      && (forall name | name in row && !Stamped(name) :: name in buried && buried[name] == row[name])
      && Says(buried, "_dead_letter_reason", why.reason) && Says(buried, "_dead_letter_sink", why.sink)
      && Says(buried, "_dead_letter_at", why.at) && Says(buried, "_dead_letter_batch", why.batch)
      && Says(buried, "_dead_letter_stream", why.stream)
  {
    StampsSay(why, job);
    ColumnNames();
  }

  /** And of the load job: its id is what a resend will ask by; a row that already named one keeps naming it when
      there is no other to name. */
  lemma BuriedNamesTheJob(row: Row, why: Why, job: Option<Job>)
    ensures JobOf(Bury(row, why, job)) == if job.Some? then job.value.id else JobOf(row)
    ensures job.Some? ==>
      && Says(Bury(row, why, job), "_dead_letter_job_id", job.value.id)
      && Says(Bury(row, why, job), "_dead_letter_job_state", job.value.state)
      && (job.value.location != "" ==> Says(Bury(row, why, job), "_dead_letter_job_location", job.value.location))
  {
    StampsSay(why, job);
    if job.Some? { JobStampsSay(why, job.value); }
    ColumnNames();
  }

  // ----- the loops ----------------------------------------------------------------------------

  /** The rows so far, told apart by job. */
  ghost predicate SplitUp(rows: seq<Row>, order: seq<string>, parts: map<string, seq<Row>>) {
    && order == Jobs(rows) && (forall job :: job in order <==> job in parts)
    && forall job | job in parts :: parts[job] == Part(rows, job)
  }

  lemma PartNext(rows: seq<Row>, row: Row, job: string)
    ensures Part(rows + [row], job) == if job == JobOf(row) then Part(rows, job) + [row] else Part(rows, job)
    ensures Jobs(rows + [row]) == if JobOf(row) in Jobs(rows) then Jobs(rows) else Jobs(rows) + [JobOf(row)]
  {
    assert (rows + [row])[..|rows|] == rows;
  }

  lemma PartsNext(rows: seq<Row>, row: Row)
    ensures forall j: string ::
      Part(rows + [row], j) == if j == JobOf(row) then Part(rows, j) + [row] else Part(rows, j)
  {
    forall j: string
      ensures Part(rows + [row], j) == if j == JobOf(row) then Part(rows, j) + [row] else Part(rows, j)
    {
      PartNext(rows, row, j);
    }
  }

  lemma SplitNext(rows: seq<Row>, order: seq<string>, parts: map<string, seq<Row>>, row: Row)
    requires SplitUp(rows, order, parts)
    ensures var job := JobOf(row);
      if job in parts then SplitUp(rows + [row], order, parts[job := parts[job] + [row]])
      else SplitUp(rows + [row], order + [job], parts[job := [row]])
  {
    var job := JobOf(row);
    JobsHaveRows(rows, job);
    PartNext(rows, row, job);
    PartsNext(rows, row);
  }

  /** The parts, in the order their rows came. */
  method SplitByJob(rows: seq<Row>) returns (order: seq<string>, parts: map<string, seq<Row>>)
    ensures SplitUp(rows, order, parts)
  {
    order, parts := [], map[];
    var i := 0;
    while i < |rows|
      invariant 0 <= i <= |rows| && SplitUp(rows[..i], order, parts)
    {
      var job := JobOf(rows[i]);
      SplitNext(rows[..i], order, parts, rows[i]);
      assert rows[..i + 1] == rows[..i] + [rows[i]];
      if job in parts {
        parts := parts[job := parts[job] + [rows[i]]];
      } else {
        order, parts := order + [job], parts[job := [rows[i]]];
      }
      i := i + 1;
    }
    assert rows[..|rows|] == rows;
  }

  method StripEach(rows: seq<Row>) returns (clean: seq<Row>)
    ensures clean == StripAll(rows)
  {
    clean := [];
    var i := 0;
    while i < |rows|
      invariant 0 <= i <= |rows| && clean == StripAll(rows[..i])
    {
      var row := StripRow(rows[i]);
      clean := clean + [row];
      i := i + 1;
    }
    assert rows[..|rows|] == rows;
  }

  datatype Receipt = Receipt(skipped: seq<string>, refused: map<string, string>)

  /** One part: what may go is stripped and added to what is sent, and the receipt says the rest. */
  method DecidePart(req: Request, ask: Oracle, job: string, part: seq<Row>, send: seq<Row>, rc: Receipt)
      returns (send': seq<Row>, rc': Receipt)
    requires part != []
    ensures var d := Decide(req, ask, job, part[0]);
      && send' == (if d.Send? then send + StripAll(part) else send)
      && rc'.skipped == rc.skipped + (if d.Skip? then [job] else [])
      && rc'.refused == (if d.Refuse? then rc.refused[Label(job) := d.why] else rc.refused)
  {
    send', rc' := send, rc;
    match Decide(req, ask, job, part[0])
    case Refuse(why) => rc' := rc.(refused := rc.refused[Label(job) := why]);
    case Skip => rc' := rc.(skipped := rc.skipped + [job]);
    case Send =>
      var clean := StripEach(part);
      send' := send + clean;
  }

  /** The parts so far, decided. */
  ghost predicate Decided(rows: seq<Row>, req: Request, ask: Oracle, jobs: seq<string>, send: seq<Row>, rc: Receipt) {
    && send == StripAll(SentOf(req, ask, rows, jobs))
    && rc == Receipt(SkippedOf(req, ask, rows, jobs), RefusedOf(req, ask, rows, jobs))
  }

  lemma StripBoth(a: seq<Row>, b: seq<Row>)
    ensures StripAll(a + b) == StripAll(a) + StripAll(b)
  {
  }

  lemma DecideNext(rows: seq<Row>, req: Request, ask: Oracle, jobs: seq<string>, job: string,
                    send: seq<Row>, rc: Receipt)
    requires Decided(rows, req, ask, jobs, send, rc) && Part(rows, job) != []
    ensures var part, d := Part(rows, job), Decide(req, ask, job, Part(rows, job)[0]);
      Decided(rows, req, ask, jobs + [job], if d.Send? then send + StripAll(part) else send,
        Receipt(rc.skipped + (if d.Skip? then [job] else []),
                if d.Refuse? then rc.refused[Label(job) := d.why] else rc.refused))
  {
  }

  method DecideOne(rows: seq<Row>, req: Request, ask: Oracle, order: seq<string>, i: nat, parts: map<string, seq<Row>>,
                   send: seq<Row>, rc: Receipt) returns (send': seq<Row>, rc': Receipt)
    requires SplitUp(rows, order, parts) && i < |order| && Decided(rows, req, ask, order[..i], send, rc)
    ensures Decided(rows, req, ask, order[..i + 1], send', rc')
  {
    var job, part := order[i], parts[order[i]];
    assert part == Part(rows, job) && order[..i + 1] == order[..i] + [job];
    JobsHaveRows(rows, job);
    DecideNext(rows, req, ask, order[..i], job, send, rc);
    send', rc' := DecidePart(req, ask, job, part, send, rc);
  }

  method DecideAll(rows: seq<Row>, req: Request, ask: Oracle, order: seq<string>, parts: map<string, seq<Row>>)
      returns (send: seq<Row>, rc: Receipt)
    requires SplitUp(rows, order, parts)
    ensures Decided(rows, req, ask, order, send, rc)
  {
    send, rc := [], Receipt([], map[]);
    var i := 0;
    while i < |order|
      invariant 0 <= i <= |order| && Decided(rows, req, ask, order[..i], send, rc)
    {
      send, rc := DecideOne(rows, req, ask, order, i, parts, send, rc);
      i := i + 1;
    }
    assert order[..|order|] == order;
  }

  /** What the newest receipt of a batch says a resend came to. */
  datatype Outcome = WasDelivered | HasFailed

  /** A resend is refused outright for a batch delivered before, unless it is asked for again. */
  predicate Guarded(req: Request, earlier: Option<Outcome>) {
    !req.again && !req.dryRun && earlier == Some(WasDelivered)
  }

  /** Nothing can be sent before the receipts are read. */
  predicate Barred(req: Request, earlier: Result<Option<Outcome>, string>) {
    if earlier.Err? then !req.again && !req.dryRun else Guarded(req, earlier.value)
  }

  /** `resendBatch` from the rows it found and the receipts there are: what is sent, the receipt, and whether it
      ends in an error -- which it does not exactly when it was not barred, nothing was refused and, if anything was
      to be sent, it was taken and written down. */
  method Resend(rows: seq<Row>, req: Request, ask: Oracle, deliver: seq<Row> -> bool, written: bool,
                earlier: Result<Option<Outcome>, string>)
      returns (send: seq<Row>, rc: Receipt, outcome: Option<Outcome>, failed: bool)
    ensures Barred(req, earlier) <==> !req.again && !req.dryRun && (earlier.Ok? ==> earlier.value == Some(WasDelivered))
    ensures Barred(req, earlier) ==> failed && send == [] && outcome == None
    ensures !Barred(req, earlier) ==>
      && send == StripAll(SentOf(req, ask, rows, Jobs(rows)))
      && rc.skipped == SkippedOf(req, ask, rows, Jobs(rows)) && rc.refused == RefusedOf(req, ask, rows, Jobs(rows))
    ensures !failed <==>
      && !Barred(req, earlier) && rc.refused == map[] && (req.dryRun || send == [] || (deliver(send) && written))
    ensures outcome ==
      if req.dryRun || send == [] || !written then None
      else Some(if deliver(send) then WasDelivered else HasFailed)
  {
    send, rc, outcome := [], Receipt([], map[]), None;
    if !req.again && !req.dryRun && (earlier.Err? || earlier.value == Some(WasDelivered)) {
      return send, rc, outcome, true;
    }
    var order, parts := SplitByJob(rows);
    send, rc := DecideAll(rows, req, ask, order, parts);
    if req.dryRun || send == [] {
      failed := rc.refused != map[];
    } else {
      var taken := deliver(send);
      if written { outcome := Some(if taken then WasDelivered else HasFailed); }
      failed := !taken || !written || rc.refused != map[];
    }
  }

  // ----- one resend after another -------------------------------------------------------------

  /** A resend of a batch: what was asked, whether anything was to be sent, whether the sink took it, and whether a
      receipt was written. */
  datatype Try = Try(req: Request, some: bool, taken: bool, written: bool)

  predicate Sends(earlier: Option<Outcome>, t: Try) { !Guarded(t.req, earlier) && !t.req.dryRun && t.some }

  /** The newest receipt after some resends. */
  function Newest(ts: seq<Try>): Option<Outcome> {
    if ts == [] then None else
    var before, t := Newest(ts[..|ts| - 1]), ts[|ts| - 1];
    if !Sends(before, t) || !t.written then before else Some(if t.taken then WasDelivered else HasFailed)
  }

  /** How often the batch was delivered. */
  function Deliveries(ts: seq<Try>): nat {
    if ts == [] then 0 else
    var before, t := ts[..|ts| - 1], ts[|ts| - 1];
    Deliveries(before) + (if Sends(Newest(before), t) && t.taken then 1 else 0)
  }

  /** Nobody asking for it again, and every delivery written down, a batch is delivered once at most, however often it
      is resent. */
  lemma {:induction false} DeliveredOnce(ts: seq<Try>)
    requires forall i | 0 <= i < |ts| :: !ts[i].req.again && (ts[i].taken ==> ts[i].written)
    ensures Deliveries(ts) == if Newest(ts) == Some(WasDelivered) then 1 else 0
  {
    if ts != [] { DeliveredOnce(ts[..|ts| - 1]); }
  }

  /** The last resend that sent anything and was written down. */
  function LastSent(ts: seq<Try>): Option<Try> {
    if ts == [] then None else
    var before, t := ts[..|ts| - 1], ts[|ts| - 1];
    if Sends(Newest(before), t) && t.written then Some(t) else LastSent(before)
  }

  /** A plain resend goes through, whatever was delivered before, exactly when the last one that sent anything and was
      written down was not taken, or there is none. */
  lemma {:induction false} GoesThroughIff(ts: seq<Try>, t: Try)
    requires !t.req.again && !t.req.dryRun && t.some
    ensures Sends(Newest(ts), t) <==> LastSent(ts).None? || !LastSent(ts).value.taken
  {
    if ts != [] { GoesThroughIff(ts[..|ts| - 1], t); }
  }

  lemma OneTryMore(ts: seq<Try>, t: Try)
    ensures Deliveries(ts + [t]) == Deliveries(ts) + (if Sends(Newest(ts), t) && t.taken then 1 else 0)
    ensures Newest(ts + [t]) ==
      if !Sends(Newest(ts), t) || !t.written then Newest(ts) else Some(if t.taken then WasDelivered else HasFailed)
  {
    assert (ts + [t])[..|ts|] == ts;
  }

  /** So one that was asked for again, and failed, lets the next go through, and the batch is delivered twice. */
  lemma DeliveredTwice()
    ensures var plain := Request(false, false, false, false);
      var first, second := Try(plain, true, true, true), Try(plain.(again := true), true, false, true);
      Deliveries([first] + [second] + [first]) == 2
  {
    var plain := Request(false, false, false, false);
    var first, second := Try(plain, true, true, true), Try(plain.(again := true), true, false, true);
    OneTryMore([], first);
    OneTryMore([first], second);
    OneTryMore([first] + [second], first);
    assert [] + [first] == [first];
  }

  // ----- there and back -----------------------------------------------------------------------

  /** A payload: a record, or anything else, which is buried as it is. */
  datatype Payload = Object(row: Row) | Raw(text: string)

  /** The clock is read for each row. */
  function BuryOne(p: Payload, why: Why, at: string, jobOf: Row -> Option<Job>): Payload {
    match p
    case Object(row) => Object(Bury(row, why.(at := at), jobOf(row)))
    case Raw(_) => p
  }

  function BuryAll(batch: seq<Payload>, why: Why, clock: nat -> string, jobOf: Row -> Option<Job>): seq<Payload> {
    seq(|batch|, i requires 0 <= i < |batch| => BuryOne(batch[i], why, clock(i), jobOf))
  }

  /** `bury`'s loop over the batch: a copy of each row, stamped. */
  method BuryEach(batch: seq<Payload>, why: Why, clock: nat -> string, jobOf: Row -> Option<Job>)
      returns (buried: seq<Payload>)
    ensures buried == BuryAll(batch, why, clock, jobOf)
  {
    buried := [];
    var i := 0;
    while i < |batch|
      invariant 0 <= i <= |batch| && buried == BuryAll(batch[..i], why, clock, jobOf)
    {
      assert BuryAll(batch[..i + 1], why, clock, jobOf) ==
             BuryAll(batch[..i], why, clock, jobOf) + [BuryOne(batch[i], why, clock(i), jobOf)];
      if batch[i].Raw? {
        buried := buried + [batch[i]];
      } else {
        var at, job := clock(i), jobOf(batch[i].row);
        buried := buried + [Object(Bury(batch[i].row, why.(at := at), job))];
      }
      i := i + 1;
    }
    assert batch[..|batch|] == batch;
  }

  /** Each record of a buried batch says when it was buried, as the clock was read for it, and of which job;
      anything else is as it was. */
  lemma BuriedEachSays(batch: seq<Payload>, why: Why, clock: nat -> string, jobOf: Row -> Option<Job>, i: nat)
    requires i < |batch|
    ensures var buried := BuryAll(batch, why, clock, jobOf);
      && |buried| == |batch|
      && if batch[i].Raw? then buried[i] == batch[i]
         else
           && buried[i].Object? && Says(buried[i].row, "_dead_letter_at", clock(i))
           && Says(buried[i].row, "_dead_letter_reason", why.reason)
           && Says(buried[i].row, "_dead_letter_batch", why.batch)
           && JobOf(buried[i].row) ==
                (if jobOf(batch[i].row).Some? then jobOf(batch[i].row).value.id else JobOf(batch[i].row))
           && forall name | name in batch[i].row && !Stamped(name) ::
                name in buried[i].row && buried[i].row[name] == batch[i].row[name]
  {
    assert BuryAll(batch, why, clock, jobOf)[i] == BuryOne(batch[i], why, clock(i), jobOf);
    if batch[i].Object? {
      var stamped, job := why.(at := clock(i)), jobOf(batch[i].row);
      BuriedSays(batch[i].row, stamped, job);
      BuriedNamesTheJob(batch[i].row, stamped, job);
    }
  }

  predicate AllObjects(batch: seq<Payload>) { forall i | 0 <= i < |batch| :: batch[i].Object? }

  /** The rows of a batch that holds nothing else. */
  function RowsOf(batch: seq<Payload>): seq<Row>
    requires AllObjects(batch)
  {
    seq(|batch|, i requires 0 <= i < |batch| => batch[i].row)
  }

  lemma StripWithout(b: seq<Row>, i: nat)
    requires i < |b|
    ensures multiset(StripAll(b)) == multiset(StripAll(b[..i] + b[i + 1..])) + multiset{Strip(b[i])}
  {
    assert b == b[..i] + ([b[i]] + b[i + 1..]);
    StripBoth(b[..i], [b[i]] + b[i + 1..]);
    StripBoth([b[i]], b[i + 1..]);
    StripBoth(b[..i], b[i + 1..]);
  }

  lemma {:induction false} StripPermutes(a: seq<Row>, b: seq<Row>)
    requires multiset(a) == multiset(b)
    ensures multiset(StripAll(a)) == multiset(StripAll(b))
  {
    if a == [] {
      assert |multiset(b)| == |b| && b == [];
    } else {
      assert a[|a| - 1] in multiset(b);
      var i :| 0 <= i < |b| && b[i] == a[|a| - 1];
      WithoutOne(a, b, i);
      StripWithout(b, i);
      StripPermutes(a[..|a| - 1], b[..i] + b[i + 1..]);
      assert a == a[..|a| - 1] + [a[|a| - 1]];
      StripBoth(a[..|a| - 1], [a[|a| - 1]]);
    }
  }

  predicate Clean(batch: seq<Payload>) {
    forall i, name | 0 <= i < |batch| && batch[i].Object? && name in batch[i].row :: !Stamped(name)
  }

  lemma StripBuried(batch: seq<Payload>, why: Why, clock: nat -> string, jobOf: Row -> Option<Job>)
    requires AllObjects(batch) && Clean(batch)
    ensures AllObjects(BuryAll(batch, why, clock, jobOf))
    ensures StripAll(RowsOf(BuryAll(batch, why, clock, jobOf))) == RowsOf(batch)
  {
    var buried := BuryAll(batch, why, clock, jobOf);
    assert forall i | 0 <= i < |batch| :: buried[i] == BuryOne(batch[i], why, clock(i), jobOf);
    forall i | 0 <= i < |batch| ensures StripAll(RowsOf(buried))[i] == RowsOf(batch)[i] {
      StripUndoesBury(batch[i].row, why.(at := clock(i)), jobOf(batch[i].row));
    }
  }

  lemma AllSent(req: Request, ask: Oracle, rows: seq<Row>)
    requires forall job | job in Jobs(rows) :: Fate(req, ask, rows, job).Send?
    ensures multiset(SentOf(req, ask, rows, Jobs(rows))) == multiset(rows)
  {
    RowsArePartitioned(req, ask, rows);
    JobsListed(rows);
    KeepAll(rows, Fated(req, ask, rows, IsSend()));
  }

  /** A batch of clean rows buried, and resent whole, is the batch: the same rows, as they were. */
  lemma ResentIsTheBatch(batch: seq<Payload>, why: Why, clock: nat -> string, jobOf: Row -> Option<Job>, req: Request,
                         ask: Oracle)
    requires AllObjects(batch) && Clean(batch)
    ensures var buried := BuryAll(batch, why, clock, jobOf);
      && AllObjects(buried)
      && var rows := RowsOf(buried);
         (forall job | job in Jobs(rows) :: Fate(req, ask, rows, job).Send?) ==>
           multiset(StripAll(SentOf(req, ask, rows, Jobs(rows)))) == multiset(RowsOf(batch))
  {
    StripBuried(batch, why, clock, jobOf);
    var rows := RowsOf(BuryAll(batch, why, clock, jobOf));
    if forall job | job in Jobs(rows) :: Fate(req, ask, rows, job).Send? {
      AllSent(req, ask, rows);
      StripPermutes(SentOf(req, ask, rows, Jobs(rows)), rows);
    }
  }
}
