/**
 * The sweep over unfinished jobs (`check_and_download_results`) and the table-wide figures
 * (`get_overall_statistics`). Both fill a `StatusCheckResult` in place: job counters by state,
 * image counters by status, and error messages grouped with their number of occurrences.
 */
module Aggregate {
  import opened Wrappers
  import opened Models
  import opened Ledger
  import opened Reconcile
  import opened Poll

  /** The statuses swept when the caller names none. */
  const DEFAULT_STATUSES: seq<string> := [PENDING, RUNNING]

  /** What one swept job contributed: the exception it raised, or the report it returned. */
  datatype JobOutcome = Raised(msg: string) | Answered(report: Report)

  /** The five job counters of `StatusCheckResult`. */
  datatype Counts = Counts(pending: nat, running: nat, succeeded: nat, failed: nat, cancelled: nat)

  /** The three image counters of `StatusCheckResult`. */
  datatype ImageCounts = ImageCounts(succeeded: nat, failed: nat, pending: nat)

  /** `StatusCheckResult` as a value. */
  datatype Stats = Stats(totalJobs: nat, jobs: Counts, totalImages: nat, images: ImageCounts,
                         errorsGrouped: map<string, nat>, processedJobs: seq<string>)

  const NO_COUNTS := Counts(0, 0, 0, 0, 0)

  class StatusCheckResult {
    var totalJobs: nat
    var jobsPending: nat
    var jobsRunning: nat
    var jobsSucceeded: nat
    var jobsFailed: nat
    var jobsCancelled: nat
    var totalImages: nat
    var imagesSucceeded: nat
    var imagesFailed: nat
    var imagesPending: nat
    var errorsGrouped: map<string, nat>
    var processedJobs: seq<string>

    /** Every counter 0, no groups, no processed jobs. */
    constructor ()
      ensures Snap(this) == Stats(0, NO_COUNTS, 0, ImageCounts(0, 0, 0), map[], [])
    {
      totalJobs, jobsPending, jobsRunning, jobsSucceeded, jobsFailed, jobsCancelled := 0, 0, 0, 0, 0, 0;
      totalImages, imagesSucceeded, imagesFailed, imagesPending := 0, 0, 0, 0;
      errorsGrouped, processedJobs := map[], [];
    }
  }

  function JobCounters(r: StatusCheckResult): Counts
    reads r
  {
    Counts(r.jobsPending, r.jobsRunning, r.jobsSucceeded, r.jobsFailed, r.jobsCancelled)
  }

  function Snap(r: StatusCheckResult): Stats
    reads r
  {
    Stats(r.totalJobs, JobCounters(r), r.totalImages, ImageCounts(r.imagesSucceeded, r.imagesFailed, r.imagesPending),
          r.errorsGrouped, r.processedJobs)
  }

  // ----- grouping messages -----

  function Bump(g: map<string, nat>, m: string): map<string, nat> {
    g[m := if m in g then g[m] + 1 else 1]
  }

  /** The groups `g` after counting `msgs` one after the other. */
  function GroupInto(g: map<string, nat>, msgs: seq<string>): map<string, nat> {
    if msgs == [] then g else Bump(GroupInto(g, msgs[..|msgs| - 1]), msgs[|msgs| - 1])
  }

  function Group(msgs: seq<string>): map<string, nat> {
    GroupInto(map[], msgs)
  }

  lemma GroupIntoPrefix(g: map<string, nat>, msgs: seq<string>, n: nat)
    requires n < |msgs|
    ensures GroupInto(g, msgs[..n + 1]) == Bump(GroupInto(g, msgs[..n]), msgs[n])
  {
    assert msgs[..n + 1][..n] == msgs[..n];
  }

  /** Counting two lists one after the other is counting their concatenation. */
  lemma {:induction false} GroupIntoAppend(g: map<string, nat>, a: seq<string>, b: seq<string>)
    ensures GroupInto(g, a + b) == GroupInto(GroupInto(g, a), b)
  {
    if b != [] {
      var n := |b| - 1;
      assert (a + b)[..|a + b| - 1] == a + b[..n];
      assert (a + b)[|a + b| - 1] == b[n];
      GroupIntoAppend(g, a, b[..n]);
      assert b[..n] + [b[n]] == b;
      calc {
        GroupInto(g, a + b);
        Bump(GroupInto(g, a + b[..n]), b[n]);
        Bump(GroupInto(GroupInto(g, a), b[..n]), b[n]);
        GroupInto(GroupInto(g, a), b);
      }
    } else {
      assert a + b == a;
    }
  }

  /** Counting one more message. */
  lemma GroupSnoc(msgs: seq<string>, m: string)
    ensures Group(msgs + [m]) == Bump(Group(msgs), m)
  {
    assert (msgs + [m])[..|msgs|] == msgs;
  }

  /** `errors_grouped[m]` is the number of occurrences of `m`, and only messages that occur are keys. */
  lemma {:induction false} GroupCounts(msgs: seq<string>)
    ensures forall m :: m in Group(msgs) <==> m in msgs
    ensures forall m :: m in Group(msgs) ==> Group(msgs)[m] == multiset(msgs)[m]
  {
    if msgs != [] {
      var n := |msgs| - 1;
      GroupCounts(msgs[..n]);
      assert msgs == msgs[..n] + [msgs[n]];
    }
  }

  // ----- counting jobs -----

  /** The five counted names, in counter order: stored statuses and the provider's states. */
  const STATUS_NAMES: seq<string> := [PENDING, RUNNING, SUCCEEDED, FAILED, CANCELLED]
  const STATE_NAMES: seq<string> := [STATE_PENDING, STATE_RUNNING, STATE_SUCCEEDED, STATE_FAILED, STATE_CANCELLED]

  /** The two vocabularies differ by the provider's prefix only. */
  lemma StateNamesArePrefixed()
    ensures forall i :: 0 <= i < 5 ==> STATE_NAMES[i] == "JOB_STATE_" + STATUS_NAMES[i]
  {
  }

  /** One job counted by its name in the vocabulary `names`; any other name is counted nowhere. */
  function Classify(c: Counts, s: string, names: seq<string>): Counts
    requires |names| == 5
  {
    if s == names[0] then c.(pending := c.pending + 1)
    else if s == names[1] then c.(running := c.running + 1)
    else if s == names[2] then c.(succeeded := c.succeeded + 1)
    else if s == names[3] then c.(failed := c.failed + 1)
    else if s == names[4] then c.(cancelled := c.cancelled + 1)
    else c
  }

  function Total(c: Counts): nat {
    c.pending + c.running + c.succeeded + c.failed + c.cancelled
  }

  /** A swept job: an exception counts as failed; otherwise the reported state decides. */
  function CountOutcome(c: Counts, o: JobOutcome): Counts {
    match o
    case Raised(_) => c.(failed := c.failed + 1)
    case Answered(rep) => Classify(c, rep.state, STATE_NAMES)
  }

  function CountOutcomes(outcomes: seq<JobOutcome>): Counts {
    if outcomes == [] then NO_COUNTS
    else CountOutcome(CountOutcomes(outcomes[..|outcomes| - 1]), outcomes[|outcomes| - 1])
  }

  /** The message list a swept job adds to the groups. */
  function OutcomeMessages(o: JobOutcome): (r: seq<string>)
    ensures o.Raised? ==> r == [o.msg]
    ensures o.Answered? ==> |r| == |o.report.errors| && forall i :: 0 <= i < |r| ==> r[i] == o.report.errors[i].error
  {
    match o
    case Raised(m) => [m]
    case Answered(rep) => seq(|rep.errors|, i requires 0 <= i < |rep.errors| => rep.errors[i].error)
  }

  function Messages(outcomes: seq<JobOutcome>): seq<string> {
    if outcomes == [] then []
    else Messages(outcomes[..|outcomes| - 1]) + OutcomeMessages(outcomes[|outcomes| - 1])
  }

  /** An outcome's label: `None` for an exception, the reported state otherwise. */
  function Label(o: JobOutcome): Option<string> {
    if o.Raised? then None else Some(o.report.state)
  }

  function Labels(outcomes: seq<JobOutcome>): (r: seq<Option<string>>)
    ensures |r| == |outcomes|
  {
    seq(|outcomes|, i requires 0 <= i < |outcomes| => Label(outcomes[i]))
  }

  /**
   * Each counter is the number of jobs that reported its state; `jobs_failed` also counts every
   * job whose poll raised. Paused, unspecified and unknown states are counted nowhere.
   */
  lemma {:induction false} CountOutcomesMeaning(outcomes: seq<JobOutcome>)
    ensures var c, l := CountOutcomes(outcomes), multiset(Labels(outcomes));
      && c.pending == l[Some(STATE_PENDING)] && c.running == l[Some(STATE_RUNNING)]
      && c.succeeded == l[Some(STATE_SUCCEEDED)] && c.cancelled == l[Some(STATE_CANCELLED)]
      && c.failed == l[None] + l[Some(STATE_FAILED)]
  {
    if outcomes != [] {
      var n := |outcomes| - 1;
      CountOutcomesMeaning(outcomes[..n]);
      assert Labels(outcomes) == Labels(outcomes[..n]) + [Label(outcomes[n])];
    }
  }

  /** No job is counted twice: the five counters add up to at most the number of swept jobs. */
  lemma {:induction false} CountOutcomesBounded(outcomes: seq<JobOutcome>)
    ensures Total(CountOutcomes(outcomes)) <= |outcomes|
  {
    if outcomes != [] {
      CountOutcomesBounded(outcomes[..|outcomes| - 1]);
    }
  }

  /** Stored job statuses counted by `get_overall_statistics`. */
  function CountStatuses(jobs: seq<BatchJob>): Counts {
    if jobs == [] then NO_COUNTS
    else Classify(CountStatuses(jobs[..|jobs| - 1]), jobs[|jobs| - 1].status, STATUS_NAMES)
  }

  /** The status of each entry, in order. */
  function Statuses<T>(xs: seq<T>, status: T -> string): (r: seq<string>)
    ensures |r| == |xs| && forall i :: 0 <= i < |xs| ==> r[i] == status(xs[i])
  {
    seq(|xs|, i requires 0 <= i < |xs| => status(xs[i]))
  }

  function JobStatus(job: BatchJob): string {
    job.status
  }

  /** Each job counter is the number of jobs stored with that status (DELETED and others count nowhere). */
  lemma {:induction false} CountStatusesMeaning(jobs: seq<BatchJob>)
    ensures var c, l := CountStatuses(jobs), multiset(Statuses(jobs, JobStatus));
      && c.pending == l[PENDING] && c.running == l[RUNNING] && c.succeeded == l[SUCCEEDED]
      && c.failed == l[FAILED] && c.cancelled == l[CANCELLED]
  {
    if jobs != [] {
      var n := |jobs| - 1;
      CountStatusesMeaning(jobs[..n]);
      assert Statuses(jobs, JobStatus) == Statuses(jobs[..n], JobStatus) + [jobs[n].status];
    }
  }

  // ----- counting images -----

  function CountImage(c: ImageCounts, row: BatchJobImage): ImageCounts {
    if row.status == SUCCEEDED then c.(succeeded := c.succeeded + 1)
    else if row.status == FAILED then c.(failed := c.failed + 1)
    else c.(pending := c.pending + 1)
  }

  function CountImages(rows: seq<BatchJobImage>): ImageCounts {
    if rows == [] then ImageCounts(0, 0, 0) else CountImage(CountImages(rows[..|rows| - 1]), rows[|rows| - 1])
  }

  function ImageStatus(row: BatchJobImage): string {
    row.status
  }

  /**
   * Succeeded and failed count the rows with that status; every other row (pending, running,
   * deleted, ...) is pending, so the three add up to the number of rows.
   */
  lemma {:induction false} CountImagesMeaning(rows: seq<BatchJobImage>)
    ensures var c := CountImages(rows);
      && c.succeeded == multiset(Statuses(rows, ImageStatus))[SUCCEEDED]
      && c.failed == multiset(Statuses(rows, ImageStatus))[FAILED]
      && c.succeeded + c.failed + c.pending == |rows|
  {
    if rows != [] {
      var n := |rows| - 1;
      CountImagesMeaning(rows[..n]);
      assert Statuses(rows, ImageStatus) == Statuses(rows[..n], ImageStatus) + [rows[n].status];
    }
  }

  /** The messages `get_overall_statistics` groups: failed rows with a non-empty message, in order. */
  function FailedMessages(rows: seq<BatchJobImage>): seq<string> {
    if rows == [] then []
    else
      var row := rows[|rows| - 1];
      FailedMessages(rows[..|rows| - 1]) + (if row.status == FAILED && Truthy(row.errorMessage) then [row.errorMessage.value] else [])
  }

  /** Exactly the messages of failed rows are grouped: no empty message, none of another status. */
  lemma {:induction false} FailedMessagesMeaning(rows: seq<BatchJobImage>)
    ensures forall m :: m in FailedMessages(rows) ==>
      m != "" && exists i :: 0 <= i < |rows| && rows[i].status == FAILED && rows[i].errorMessage == Some(m)
    ensures forall i :: 0 <= i < |rows| && rows[i].status == FAILED && Truthy(rows[i].errorMessage) ==>
      rows[i].errorMessage.value in FailedMessages(rows)
  {
    if rows != [] {
      var n := |rows| - 1;
      FailedMessagesMeaning(rows[..n]);
      forall m | m in FailedMessages(rows)
        ensures m != "" && exists i :: 0 <= i < |rows| && rows[i].status == FAILED && rows[i].errorMessage == Some(m)
      {
        if m in FailedMessages(rows[..n]) {
          var i :| 0 <= i < n && rows[..n][i].status == FAILED && rows[..n][i].errorMessage == Some(m);
          assert rows[i] == rows[..n][i];
        } else {
          assert rows[n].status == FAILED && rows[n].errorMessage == Some(m);
        }
      }
      forall i | 0 <= i < |rows| && rows[i].status == FAILED && Truthy(rows[i].errorMessage)
        ensures rows[i].errorMessage.value in FailedMessages(rows)
      {
        if i < n {
          assert rows[..n][i] == rows[i];
        }
      }
    }
  }

  // ----- the sweep -----

  /** The jobs whose stored status is one of `statuses`, in table order (the query's result). */
  function JobsWithStatus(jobs: map<string, BatchJob>, ids: seq<string>, statuses: seq<string>): (r: seq<string>)
    requires forall id :: id in ids ==> id in jobs
    ensures |r| <= |ids|
    ensures forall id :: id in r <==> id in ids && jobs[id].status in statuses
  {
    if ids == [] then []
    else
      var n := |ids| - 1;
      var prev := JobsWithStatus(jobs, ids[..n], statuses);
      assert forall id :: id in ids <==> id in ids[..n] || id == ids[n];
      if jobs[ids[n]].status in statuses then prev + [ids[n]] else prev
  }

  /**
   * As written, `check_job_status` takes a job out of the default sweep: its stored provider
   * state name is neither PENDING nor RUNNING, so `check_and_download_results` never polls it again.
   */
  lemma CheckedJobLeavesSweep(jobs: map<string, BatchJob>, ids: seq<string>, id: string, stateName: string, now: int)
    requires forall x :: x in ids ==> x in jobs
    requires id in jobs && IsProviderStateName(stateName)
    ensures id !in JobsWithStatus(jobs[id := CheckedJob(jobs[id], stateName, now)], ids, DEFAULT_STATUSES)
  {
    CheckedJobNeverCompletes(jobs[id], stateName, now);
  }

  /** The corrected check keeps an unfinished job in the default sweep until a terminal state. */
  lemma CorrectedCheckKeepsSweep(jobs: map<string, BatchJob>, ids: seq<string>, id: string, stateName: string, now: int)
    requires forall x :: x in ids ==> x in jobs
    requires id in ids && jobs[id].status in DEFAULT_STATUSES && !Terminal(stateName)
    ensures id in JobsWithStatus(jobs[id := CheckedJobCorrected(jobs[id], stateName, now)], ids, DEFAULT_STATUSES)
  {
  }

  /** The ledger tables and the outcomes so far. */
  datatype Sweep = Sweep(jobs: map<string, BatchJob>, images: map<string, BatchJobImage>, outcomes: seq<JobOutcome>)

  /** One job of the sweep: the poll, or the exception the provider's lookup raised. */
  function SweepOne(s: Sweep, imageIds: seq<string>, id: string, getJob: string -> Result<ProviderJob>,
                    remote: Remote, store: Store): (r: Sweep)
    requires id in s.jobs && forall x :: x in imageIds ==> x in s.images
    ensures r.jobs.Keys == s.jobs.Keys && r.images.Keys == s.images.Keys
  {
    var job := s.jobs[id];
    match getJob(job.jobName)
    case Err(m) => s.(outcomes := s.outcomes + [Raised(m)])
    case Ok(pj) =>
      var out := Poll.Poll(job, s.images, ByKey(s.images, imageIds, id), pj, remote, store);
      var o := if out.raised.Some? then Raised(out.raised.value) else Answered(out.report);
      Sweep(s.jobs[id := out.job], out.images, s.outcomes + [o])
  }

  function SweepAll(jobs: map<string, BatchJob>, images: map<string, BatchJobImage>, imageIds: seq<string>,
                    ids: seq<string>, getJob: string -> Result<ProviderJob>, remote: Remote, store: Store): (r: Sweep)
    requires (forall id :: id in ids ==> id in jobs) && forall x :: x in imageIds ==> x in images
    ensures r.jobs.Keys == jobs.Keys && r.images.Keys == images.Keys && |r.outcomes| == |ids|
  {
    if ids == [] then Sweep(jobs, images, [])
    else
      var n := |ids| - 1;
      SweepOne(SweepAll(jobs, images, imageIds, ids[..n], getJob, remote, store), imageIds, ids[n], getJob, remote, store)
  }

  lemma SweepAllPrefix(jobs: map<string, BatchJob>, images: map<string, BatchJobImage>, imageIds: seq<string>,
                       ids: seq<string>, getJob: string -> Result<ProviderJob>, remote: Remote, store: Store, n: nat)
    requires (forall id :: id in ids ==> id in jobs) && forall x :: x in imageIds ==> x in images
    requires n < |ids|
    ensures SweepAll(jobs, images, imageIds, ids[..n + 1], getJob, remote, store)
         == SweepOne(SweepAll(jobs, images, imageIds, ids[..n], getJob, remote, store), imageIds, ids[n], getJob, remote, store)
  {
    assert ids[..n + 1][..n] == ids[..n];
  }

  /** The names of the swept jobs, in sweep order. */
  function JobNames(jobs: map<string, BatchJob>, ids: seq<string>): (r: seq<string>)
    requires forall id :: id in ids ==> id in jobs
    ensures |r| == |ids| && forall i :: 0 <= i < |ids| ==> r[i] == jobs[ids[i]].jobName
  {
    seq(|ids|, i requires 0 <= i < |ids| => jobs[ids[i]].jobName)
  }

  // ----- the imperative aggregation -----

  /** One swept job into the counters and the groups. */
  method RecordOutcome(result: StatusCheckResult, o: JobOutcome)
    modifies result
    ensures JobCounters(result) == CountOutcome(old(JobCounters(result)), o)
    ensures result.errorsGrouped == GroupInto(old(result.errorsGrouped), OutcomeMessages(o))
    ensures result.totalJobs == old(result.totalJobs) && result.processedJobs == old(result.processedJobs)
    ensures result.totalImages == old(result.totalImages) && result.imagesSucceeded == old(result.imagesSucceeded)
    ensures result.imagesFailed == old(result.imagesFailed) && result.imagesPending == old(result.imagesPending)
  {
    match o
    case Raised(m) =>
      result.jobsFailed := result.jobsFailed + 1;
      result.errorsGrouped := Bump(result.errorsGrouped, m);
      assert [m][..0] == [];
    case Answered(rep) =>
      var state := rep.state;
      if state == "JOB_STATE_PENDING" {
        result.jobsPending := result.jobsPending + 1;
      } else if state == "JOB_STATE_RUNNING" {
        result.jobsRunning := result.jobsRunning + 1;
      } else if state == "JOB_STATE_SUCCEEDED" {
        result.jobsSucceeded := result.jobsSucceeded + 1;
      } else if state == "JOB_STATE_FAILED" {
        result.jobsFailed := result.jobsFailed + 1;
      } else if state == "JOB_STATE_CANCELLED" {
        result.jobsCancelled := result.jobsCancelled + 1;
      }
      result.errorsGrouped := GroupMessages(result.errorsGrouped, OutcomeMessages(o));
  }

  /** The inner loop over one report's error entries. */
  method GroupMessages(g0: map<string, nat>, msgs: seq<string>) returns (g: map<string, nat>)
    ensures g == GroupInto(g0, msgs)
  {
    g := g0;
    var i := 0;
    while i < |msgs|
      invariant 0 <= i <= |msgs|
      invariant g == GroupInto(g0, msgs[..i])
    {
      GroupIntoPrefix(g0, msgs, i);
      g := Bump(g, msgs[i]);
      i := i + 1;
    }
    assert msgs[..i] == msgs;
  }

  /** The image loop shared by both aggregations: every row in table order. */
  method TallyImages(ledger: Ledger) returns (c: ImageCounts)
    requires ledger.Valid()
    ensures c == CountImages(ledger.ImageRows())
  {
    var rows := ledger.ImageRows();
    c := ImageCounts(0, 0, 0);
    var i := 0;
    while i < |rows|
      invariant 0 <= i <= |rows|
      invariant c == CountImages(rows[..i])
    {
      assert rows[..i + 1][..i] == rows[..i];
      if rows[i].status == SUCCEEDED {
        c := c.(succeeded := c.succeeded + 1);
      } else if rows[i].status == FAILED {
        c := c.(failed := c.failed + 1);
      } else {
        c := c.(pending := c.pending + 1);
      }
      i := i + 1;
    }
    assert rows[..i] == rows;
  }

  /**
   * `check_and_download_results`: every job whose status is in `statuses` (PENDING and RUNNING
   * when `None`) is polled in table order; an exception from one job is counted and the sweep
   * goes on. The image counters are read afterwards, over the whole table.
   */
  method CheckAndDownloadResults(ledger: Ledger, statuses: Option<seq<string>>, getJob: string -> Result<ProviderJob>,
                                 remote: Remote, store: Store) returns (result: StatusCheckResult)
    requires ledger.Valid()
    modifies ledger
    ensures ledger.Valid() && fresh(result)
    ensures ledger.jobIds == old(ledger.jobIds) && ledger.imageIds == old(ledger.imageIds)
    ensures var ids := JobsWithStatus(old(ledger.jobs), old(ledger.jobIds), statuses.GetOr(DEFAULT_STATUSES));
      var s := SweepAll(old(ledger.jobs), old(ledger.images), old(ledger.imageIds), ids, getJob, remote, store);
      && ledger.jobs == s.jobs && ledger.images == s.images
      && Snap(result) == Stats(|ids|, CountOutcomes(s.outcomes), |ledger.imageIds|, CountImages(ledger.ImageRows()),
                               Group(Messages(s.outcomes)), JobNames(old(ledger.jobs), ids))
  {
    var wanted := if statuses.Some? then statuses.value else DEFAULT_STATUSES;
    var ids := JobsWithStatus(ledger.jobs, ledger.jobIds, wanted);
    var names := JobNames(ledger.jobs, ids);
    var outcomes := SweepJobs(ledger, ids, getJob, remote, store);
    var c := TallyImages(ledger);
    result := new StatusCheckResult();
    result.totalJobs := |ids|;
    RecordOutcomes(result, names, outcomes);
    result.totalImages := |ledger.imageIds|;
    result.imagesSucceeded, result.imagesFailed, result.imagesPending := c.succeeded, c.failed, c.pending;
  }

  /** The polls of the selected jobs, in order; an exception ends one job's poll, never the loop. */
  method SweepJobs(ledger: Ledger, ids: seq<string>, getJob: string -> Result<ProviderJob>, remote: Remote, store: Store)
    returns (outcomes: seq<JobOutcome>)
    requires ledger.Valid() && forall id :: id in ids ==> id in ledger.jobs
    modifies ledger
    ensures ledger.Valid()
    ensures ledger.jobIds == old(ledger.jobIds) && ledger.imageIds == old(ledger.imageIds)
    ensures Sweep(ledger.jobs, ledger.images, outcomes)
         == SweepAll(old(ledger.jobs), old(ledger.images), old(ledger.imageIds), ids, getJob, remote, store)
  {
    outcomes := [];
    var k := 0;
    while k < |ids|
      invariant 0 <= k <= |ids|
      invariant ledger.Valid()
      invariant ledger.jobIds == old(ledger.jobIds) && ledger.imageIds == old(ledger.imageIds)
      invariant Sweep(ledger.jobs, ledger.images, outcomes)
             == SweepAll(old(ledger.jobs), old(ledger.images), old(ledger.imageIds), ids[..k], getJob, remote, store)
    {
      SweepAllPrefix(old(ledger.jobs), old(ledger.images), old(ledger.imageIds), ids, getJob, remote, store, k);
      var r := DownloadBatchResults(ledger, ids[k], getJob, remote, store);
      var o := if r.Err? then Raised(r.msg) else Answered(Snapshot(r.value));
      outcomes := outcomes + [o];
      k := k + 1;
    }
    assert ids[..k] == ids;
  }

  /** Each swept job's name, counters and error messages into the result, in sweep order. */
  method RecordOutcomes(result: StatusCheckResult, names: seq<string>, outcomes: seq<JobOutcome>)
    requires |names| == |outcomes|
    requires result.processedJobs == [] && JobCounters(result) == NO_COUNTS && result.errorsGrouped == map[]
    modifies result
    ensures Snap(result) == old(Snap(result)).(jobs := CountOutcomes(outcomes),
                                                errorsGrouped := Group(Messages(outcomes)), processedJobs := names)
  {
    var k := 0;
    while k < |outcomes|
      invariant 0 <= k <= |outcomes|
      invariant Snap(result) == old(Snap(result)).(jobs := CountOutcomes(outcomes[..k]),
                                                   errorsGrouped := Group(Messages(outcomes[..k])), processedJobs := names[..k])
    {
      assert outcomes[..k + 1][..k] == outcomes[..k];
      assert names[..k + 1] == names[..k] + [names[k]];
      GroupIntoAppend(map[], Messages(outcomes[..k]), OutcomeMessages(outcomes[k]));
      result.processedJobs := result.processedJobs + [names[k]];
      RecordOutcome(result, outcomes[k]);
      k := k + 1;
    }
    assert outcomes[..k] == outcomes && names[..k] == names;
  }

  /** The job rows in table order. */
  function JobRows(jobs: map<string, BatchJob>, ids: seq<string>): (r: seq<BatchJob>)
    requires forall id :: id in ids ==> id in jobs
    ensures |r| == |ids| && forall i :: 0 <= i < |ids| ==> r[i] == jobs[ids[i]]
  {
    seq(|ids|, i requires 0 <= i < |ids| => jobs[ids[i]])
  }

  /**
   * `get_overall_statistics`: jobs counted by stored status, images by status, and the messages
   * of failed rows grouped. Nothing in the ledger changes.
   */
  method OverallStatistics(ledger: Ledger) returns (result: StatusCheckResult)
    requires ledger.Valid()
    ensures fresh(result)
    ensures Snap(result) == Stats(|ledger.jobIds|, CountStatuses(JobRows(ledger.jobs, ledger.jobIds)),
                                  |ledger.imageIds|, CountImages(ledger.ImageRows()),
                                  Group(FailedMessages(ledger.ImageRows())), [])
  {
    var jobs := JobRows(ledger.jobs, ledger.jobIds);
    var rows := ledger.ImageRows();
    var c := TallyJobStatuses(jobs);
    var ic, g := TallyFailedImages(rows);
    result := new StatusCheckResult();
    result.totalJobs, result.totalImages := |jobs|, |rows|;
    result.jobsPending, result.jobsRunning, result.jobsSucceeded := c.pending, c.running, c.succeeded;
    result.jobsFailed, result.jobsCancelled := c.failed, c.cancelled;
    result.imagesSucceeded, result.imagesFailed, result.imagesPending := ic.succeeded, ic.failed, ic.pending;
    result.errorsGrouped := g;
  }

  /** The job loop of `get_overall_statistics`. */
  method TallyJobStatuses(jobs: seq<BatchJob>) returns (c: Counts)
    ensures c == CountStatuses(jobs)
  {
    c := NO_COUNTS;
    var i := 0;
    while i < |jobs|
      invariant 0 <= i <= |jobs|
      invariant c == CountStatuses(jobs[..i])
    {
      assert jobs[..i + 1][..i] == jobs[..i];
      c := Classify(c, jobs[i].status, STATUS_NAMES);
      i := i + 1;
    }
    assert jobs[..i] == jobs;
  }

  /** The image loop of `get_overall_statistics`: counters, and the messages of failed rows grouped. */
  method TallyFailedImages(rows: seq<BatchJobImage>) returns (c: ImageCounts, g: map<string, nat>)
    ensures c == CountImages(rows) && g == Group(FailedMessages(rows))
  {
    c, g := ImageCounts(0, 0, 0), map[];
    var i := 0;
    while i < |rows|
      invariant 0 <= i <= |rows|
      invariant c == CountImages(rows[..i]) && g == Group(FailedMessages(rows[..i]))
    {
      assert rows[..i + 1][..i] == rows[..i];
      var row := rows[i];
      if row.status == FAILED && Truthy(row.errorMessage) {
        assert FailedMessages(rows[..i + 1]) == FailedMessages(rows[..i]) + [row.errorMessage.value];
        GroupSnoc(FailedMessages(rows[..i]), row.errorMessage.value);
      } else {
        assert FailedMessages(rows[..i + 1]) == FailedMessages(rows[..i]) + [];
        assert FailedMessages(rows[..i]) + [] == FailedMessages(rows[..i]);
      }
      if row.status == SUCCEEDED {
        c := c.(succeeded := c.succeeded + 1);
      } else if row.status == FAILED {
        c := c.(failed := c.failed + 1);
        if Truthy(row.errorMessage) {
          g := Bump(g, row.errorMessage.value);
        }
      } else {
        c := c.(pending := c.pending + 1);
      }
      i := i + 1;
    }
    assert rows[..i] == rows;
  }
}
