/**
 * Polling one batch job (`_download_batch_results`), the stand-alone status check
 * (`check_job_status`), the per-item result update (`update_image_result`) and the clean-up of
 * the provider's uploads (`cleanup_gemini_files`).
 *
 * The provider's job lookup is a parameter answering `str(job.state)` and the result
 * destination (or raising); the clock's reading is a parameter too.
 */
module Poll {
  import opened Wrappers
  import opened Strings
  import opened Models
  import opened Ledger
  import opened Reconcile

  const STATE_SUCCEEDED := "JOB_STATE_SUCCEEDED"
  const STATE_FAILED := "JOB_STATE_FAILED"
  const STATE_CANCELLED := "JOB_STATE_CANCELLED"
  const STATE_RUNNING := "JOB_STATE_RUNNING"
  const STATE_PENDING := "JOB_STATE_PENDING"

  /** Display names of the provider's job states. */
  const JOB_STATES: map<string, string> := map[
    "JOB_STATE_UNSPECIFIED" := "Не определён",
    "JOB_STATE_PENDING" := "В очереди",
    "JOB_STATE_RUNNING" := "Выполняется",
    "JOB_STATE_SUCCEEDED" := "Успешно завершён",
    "JOB_STATE_FAILED" := "Ошибка",
    "JOB_STATE_CANCELLED" := "Отменён",
    "JOB_STATE_PAUSED" := "Приостановлен"]

  const JOB_FAILED_MSG := "Batch job завершился с ошибкой"
  const JOB_CANCELLED_MSG := "Batch job был отменён"
  const NO_DEST_MSG := "Нет информации о результатах (dest отсутствует)"
  const UNKNOWN_KEY := "unknown"
  const UNKNOWN_FORMAT_MSG := "Неизвестный формат результатов"

  /** Where the provider put the results: a file name and/or inline responses. */
  datatype Dest = Dest(fileName: Option<string>, inlined: seq<Response>)

  /** The provider's answer: `str(job.state)` and the destination, if any. */
  datatype ProviderJob = ProviderJob(state: string, dest: Option<Dest>)

  /** `str(job.state)` reduced to the text after its last ".". */
  function NormalizeState(s: string): (r: string)
    ensures '.' !in r
    ensures '.' !in s ==> r == s
  {
    if '.' in s then
      var parts := Split(s, '.');
      parts[|parts| - 1]
    else s
  }

  /** The normalised state is the text after the last "." of the provider's rendering. */
  lemma NormalizeStateIsLastComponent(s: string)
    requires '.' in s
    ensures NormalizeState(s) == s[LastIndexOf(s, '.') + 1..]
  {
    LastPieceAfterLastSeparator(s, '.');
  }

  function StateRu(state: string): string {
    if state in JOB_STATES then JOB_STATES[state] else state
  }

  predicate Terminal(state: string) {
    state == STATE_SUCCEEDED || state == STATE_FAILED || state == STATE_CANCELLED
  }

  /** The stored status after a poll: four provider states are mapped, the rest leave it alone. */
  function PolledStatus(state: string, current: string): string {
    if state == STATE_SUCCEEDED then SUCCEEDED
    else if state == STATE_FAILED then FAILED
    else if state == STATE_CANCELLED then CANCELLED
    else if state == STATE_RUNNING then RUNNING
    else current
  }

  /** The mapped states are stored under their short names. */
  lemma PolledStatusNames(state: string, current: string)
    ensures state in {STATE_SUCCEEDED, STATE_FAILED, STATE_CANCELLED, STATE_RUNNING} ==>
              "JOB_STATE_" + PolledStatus(state, current) == state
    ensures state !in {STATE_SUCCEEDED, STATE_FAILED, STATE_CANCELLED, STATE_RUNNING} ==>
              PolledStatus(state, current) == current
  {
  }

  /** The job row after a poll (completion time is never set on this path). */
  function PolledJob(job: BatchJob, state: string): BatchJob {
    var j := job.(status := PolledStatus(state, job.status));
    if state == STATE_FAILED then j.(errorMessage := Some(JOB_FAILED_MSG))
    else if state == STATE_CANCELLED then j.(errorMessage := Some(JOB_CANCELLED_MSG))
    else j
  }

  /** The result dictionary as a value. */
  datatype Report = Report(
    jobName: string, state: string, stateRu: string, completed: bool, success: bool,
    outputs: seq<OutputFile>, errors: seq<ErrorEntry>, error: Option<string>)

  function Snapshot(result: JobResult): Report
    reads result
  {
    Report(result.jobName, result.state, result.stateRu, result.completed, result.success,
           result.outputFiles, result.errors, result.error)
  }

  datatype PollOutcome = PollOutcome(job: BatchJob, images: map<string, BatchJobImage>, report: Report,
                                     raised: Option<string>)

  /** `images_by_key` for one job: its rows' request keys, the later row winning a duplicate. */
  function ByKey(images: map<string, BatchJobImage>, ids: seq<string>, jobId: string): (r: map<string, string>)
    requires forall id :: id in ids ==> id in images
    ensures Indexes(r, images)
    ensures forall k :: k in r ==> r[k] in ids && images[r[k]].requestKey == k && images[r[k]].batchJobId == jobId
  {
    if ids == [] then map[]
    else
      var n := |ids| - 1;
      var prev := ByKey(images, ids[..n], jobId);
      var row := images[ids[n]];
      if row.batchJobId == jobId then prev[row.requestKey := ids[n]] else prev
  }

  /** Every row of the job is reachable by its key, and no row of another job is. */
  lemma {:induction false} ByKeyComplete(images: map<string, BatchJobImage>, ids: seq<string>, jobId: string, id: string)
    requires forall x :: x in ids ==> x in images
    requires id in ids && images[id].batchJobId == jobId
    ensures images[id].requestKey in ByKey(images, ids, jobId)
  {
    var n := |ids| - 1;
    if ids[n] != id {
      assert id in ids[..n];
      ByKeyComplete(images, ids[..n], jobId, id);
    }
  }

  /** The whole poll, as the source performs it once the provider answered. */
  function Poll(job: BatchJob, images: map<string, BatchJobImage>, byKey: map<string, string>, pj: ProviderJob,
                remote: Remote, store: Store): (out: PollOutcome)
    requires Indexes(byKey, images)
    ensures out.images.Keys == images.Keys
  {
    var state := NormalizeState(pj.state);
    var base := Report(job.jobName, state, StateRu(state), false, false, [], [], None);
    var polled := PolledJob(job, state);
    if !Terminal(state) then PollOutcome(polled, images, base, None)
    else if state == STATE_FAILED then
      PollOutcome(polled, images, base.(completed := true, error := Some(JOB_FAILED_MSG)), None)
    else if state == STATE_CANCELLED then
      PollOutcome(polled, images, base.(completed := true, error := Some(JOB_CANCELLED_MSG)), None)
    else
      var done := base.(completed := true, success := true);
      if pj.dest.None? then PollOutcome(polled, images, done.(error := Some(NO_DEST_MSG)), None)
      else
        var run := Collect(images, byKey, pj.dest.value, remote, store);
        PollOutcome(polled, run.images, done.(outputs := run.outputs, errors := run.errors), run.raised)
  }

  /** The results of a succeeded job, by the destination's encoding. */
  function Collect(images: map<string, BatchJobImage>, byKey: map<string, string>, dest: Dest, remote: Remote,
                   store: Store): (r: Run)
    requires Indexes(byKey, images)
    ensures r.images.Keys == images.Keys
  {
    var start := Run(images, [], [], None);
    if Truthy(dest.fileName) then ProcessFile(start, byKey, dest.fileName.value, remote, store)
    else if dest.inlined != [] then InlineResponses(start, byKey, dest.inlined, store)
    else start.(errors := [ErrorEntry(UNKNOWN_KEY, UNKNOWN_FORMAT_MSG)])
  }

  // ----- properties of a poll -----

  /** Polling never stamps the completion time, and only the status and error message change. */
  lemma PollKeepsJobIdentity(job: BatchJob, images: map<string, BatchJobImage>, byKey: map<string, string>,
                             pj: ProviderJob, remote: Remote, store: Store)
    requires Indexes(byKey, images)
    ensures var out := Poll(job, images, byKey, pj, remote, store);
      out.job == job.(status := out.job.status, errorMessage := out.job.errorMessage)
  {
  }

  /** A job that is not finished: the status maps, nothing else is touched, and it is not complete. */
  lemma NonTerminalTouchesNoImage(job: BatchJob, images: map<string, BatchJobImage>, byKey: map<string, string>,
                                  pj: ProviderJob, remote: Remote, store: Store)
    requires Indexes(byKey, images)
    requires !Terminal(NormalizeState(pj.state))
    ensures var out := Poll(job, images, byKey, pj, remote, store);
      && out.images == images && out.raised.None?
      && !out.report.completed && !out.report.success
      && out.report.outputs == [] && out.report.errors == [] && out.report.error.None?
      && out.job.errorMessage == job.errorMessage
      && (NormalizeState(pj.state) == STATE_RUNNING ==> out.job.status == RUNNING)
      && (NormalizeState(pj.state) != STATE_RUNNING ==> out.job.status == job.status)
  {
  }

  /** A failed or cancelled job gets its fixed message; no image row changes. */
  lemma FailedOrCancelledTouchesNoImage(job: BatchJob, images: map<string, BatchJobImage>, byKey: map<string, string>,
                                        pj: ProviderJob, remote: Remote, store: Store)
    requires Indexes(byKey, images)
    requires NormalizeState(pj.state) in {STATE_FAILED, STATE_CANCELLED}
    ensures var out := Poll(job, images, byKey, pj, remote, store);
      var msg := if NormalizeState(pj.state) == STATE_FAILED then JOB_FAILED_MSG else JOB_CANCELLED_MSG;
      && out.images == images && out.raised.None?
      && out.report.completed && !out.report.success
      && out.job.errorMessage == Some(msg) && out.report.error == Some(msg)
      && "JOB_STATE_" + out.job.status == NormalizeState(pj.state)
  {
  }

  /** A missing destination or an unknown encoding is only reported, never stored on the job. */
  lemma MissingResultsOnlyReported(job: BatchJob, images: map<string, BatchJobImage>, byKey: map<string, string>,
                                   pj: ProviderJob, remote: Remote, store: Store)
    requires Indexes(byKey, images)
    requires NormalizeState(pj.state) == STATE_SUCCEEDED
    requires pj.dest.None? || (!Truthy(pj.dest.value.fileName) && pj.dest.value.inlined == [])
    ensures var out := Poll(job, images, byKey, pj, remote, store);
      && out.images == images && out.raised.None?
      && out.job == job.(status := SUCCEEDED)
      && out.report.completed && out.report.success && out.report.outputs == []
      && (pj.dest.None? ==> out.report.error == Some(NO_DEST_MSG) && out.report.errors == [])
      && (pj.dest.Some? ==> out.report.error.None? && out.report.errors == [ErrorEntry(UNKNOWN_KEY, UNKNOWN_FORMAT_MSG)])
  {
  }

  lemma ProcessFileTouchesOnlyIndexedRows(run: Run, byKey: map<string, string>, fileName: string,
                                          remote: Remote, store: Store, id: string)
    requires Indexes(byKey, run.images) && id in run.images
    requires forall k :: k in byKey ==> byKey[k] != id
    ensures ProcessFile(run, byKey, fileName, remote, store).images[id] == run.images[id]
  {
    var d := remote.download(fileName);
    if d.Ok? {
      var t := remote.utf8(d.value);
      if t.Ok? {
        FileLinesTouchOnlyIndexedRows(run, byKey, Split(Strip(t.value), '\n'), remote.parse, store, id);
      }
    }
  }

  /** A poll changes no row of another job. */
  lemma PollTouchesOnlyItsJobsRows(job: BatchJob, images: map<string, BatchJobImage>, ids: seq<string>,
                                   pj: ProviderJob, remote: Remote, store: Store, id: string)
    requires forall x :: x in ids ==> x in images
    requires id in images && images[id].batchJobId != job.id
    ensures Poll(job, images, ByKey(images, ids, job.id), pj, remote, store).images[id] == images[id]
  {
    var byKey := ByKey(images, ids, job.id);
    var run := Run(images, [], [], None);
    var state := NormalizeState(pj.state);
    if state == STATE_SUCCEEDED && pj.dest.Some? {
      assert Poll(job, images, byKey, pj, remote, store).images == Collect(images, byKey, pj.dest.value, remote, store).images;
      if Truthy(pj.dest.value.fileName) {
        ProcessFileTouchesOnlyIndexedRows(run, byKey, pj.dest.value.fileName.value, remote, store, id);
      } else {
        InlineTouchesOnlyIndexedRows(run, byKey, pj.dest.value.inlined, store, id);
      }
    }
  }

  // ----- the imperative poll -----

  /** `images_by_key`: one pass over the job's rows in table order. */
  method IndexByKey(ledger: Ledger, jobId: string) returns (byKey: map<string, string>)
    requires ledger.Valid()
    ensures byKey == ByKey(ledger.images, ledger.imageIds, jobId)
  {
    byKey := map[];
    var n := 0;
    while n < |ledger.imageIds|
      invariant 0 <= n <= |ledger.imageIds|
      invariant byKey == ByKey(ledger.images, ledger.imageIds[..n], jobId)
    {
      assert ledger.imageIds[..n + 1][..n] == ledger.imageIds[..n];
      var row := ledger.images[ledger.imageIds[n]];
      if row.batchJobId == jobId {
        byKey := byKey[row.requestKey := ledger.imageIds[n]];
      }
      n := n + 1;
    }
    assert ledger.imageIds[..n] == ledger.imageIds;
  }

  /** `_download_batch_results`; `Err` is an exception propagating to the caller. */
  method DownloadBatchResults(ledger: Ledger, jobId: string, getJob: string -> Result<ProviderJob>, remote: Remote,
                              store: Store) returns (r: Result<JobResult>)
    requires ledger.Valid() && jobId in ledger.jobs
    modifies ledger
    ensures ledger.Valid()
    ensures ledger.jobIds == old(ledger.jobIds) && ledger.imageIds == old(ledger.imageIds)
    ensures match getJob(old(ledger.jobs)[jobId].jobName)
      case Err(m) => r == Err(m) && unchanged(ledger)
      case Ok(pj) =>
        var out := Poll(old(ledger.jobs)[jobId], old(ledger.images), ByKey(old(ledger.images), old(ledger.imageIds), jobId),
                        pj, remote, store);
        && ledger.jobs == old(ledger.jobs)[jobId := out.job]
        && ledger.images == out.images
        && (out.raised.Some? ==> r == Err(out.raised.value))
        && (out.raised.None? ==> r.Ok? && fresh(r.value) && Snapshot(r.value) == out.report)
  {
    var answer := getJob(ledger.jobs[jobId].jobName);
    if answer.Err? {
      return Err(answer.msg);
    }
    var result, raised := ApplyPoll(ledger, jobId, answer.value, remote, store);
    if raised.Some? {
      return Err(raised.value);
    }
    r := Ok(result);
  }

  /** Everything after the provider answered: the status, then the results of a succeeded job. */
  method ApplyPoll(ledger: Ledger, jobId: string, pj: ProviderJob, remote: Remote, store: Store)
    returns (result: JobResult, raised: Option<string>)
    requires ledger.Valid() && jobId in ledger.jobs
    modifies ledger
    ensures ledger.Valid()
    ensures ledger.jobIds == old(ledger.jobIds) && ledger.imageIds == old(ledger.imageIds)
    ensures var out := Poll(old(ledger.jobs)[jobId], old(ledger.images), ByKey(old(ledger.images), old(ledger.imageIds), jobId),
                            pj, remote, store);
      && ledger.jobs == old(ledger.jobs)[jobId := out.job]
      && ledger.images == out.images
      && raised == out.raised
      && fresh(result)
      && (raised.None? ==> Snapshot(result) == out.report)
  {
    var job := ledger.jobs[jobId];
    var state := NormalizeState(pj.state);
    ghost var out := Poll(job, ledger.images, ByKey(ledger.images, ledger.imageIds, jobId), pj, remote, store);
    result := new JobResult(job.jobName, state, StateRu(state));
    raised := None;
    RecordPolledState(ledger, jobId, state);
    assert result.outputFiles == [] && result.errors == [];
    if !Terminal(state) {
      assert Snapshot(result) == out.report;
      return;
    }
    result.completed := true;
    if state == STATE_FAILED || state == STATE_CANCELLED {
      result.error := ledger.jobs[jobId].errorMessage;
      assert Snapshot(result) == out.report;
      return;
    }
    result.success := true;
    if pj.dest.None? {
      result.error := Some(NO_DEST_MSG);
      assert Snapshot(result) == out.report;
      return;
    }
    var byKey := IndexByKey(ledger, jobId);
    assert Indexes(byKey, ledger.images);
    raised := CollectResults(ledger, result, byKey, pj.dest.value, remote, store);
    assert out.images == ledger.images && out.raised == raised;
    assert raised.None? ==> Snapshot(result) == out.report;
  }

  /** The status (committed first) and, for a failed or cancelled job, its fixed message. */
  method RecordPolledState(ledger: Ledger, jobId: string, state: string)
    requires ledger.Valid() && jobId in ledger.jobs
    modifies ledger`jobs
    ensures ledger.Valid()
    ensures ledger.jobs == old(ledger.jobs)[jobId := PolledJob(old(ledger.jobs)[jobId], state)]
  {
    var job := ledger.jobs[jobId];
    if state == STATE_SUCCEEDED {
      job := job.(status := SUCCEEDED);
    } else if state == STATE_FAILED {
      job := job.(status := FAILED);
    } else if state == STATE_CANCELLED {
      job := job.(status := CANCELLED);
    } else if state == STATE_RUNNING {
      job := job.(status := RUNNING);
    }
    ledger.jobs := ledger.jobs[jobId := job];
    if state == STATE_FAILED {
      job := job.(errorMessage := Some(JOB_FAILED_MSG));
      ledger.jobs := ledger.jobs[jobId := job];
    } else if state == STATE_CANCELLED {
      job := job.(errorMessage := Some(JOB_CANCELLED_MSG));
      ledger.jobs := ledger.jobs[jobId := job];
    }
  }

  /** The results of a succeeded job into the ledger and the (still empty) report lists. */
  method CollectResults(ledger: Ledger, result: JobResult, byKey: map<string, string>, dest: Dest, remote: Remote,
                        store: Store) returns (raised: Option<string>)
    requires Indexes(byKey, ledger.images) && result.outputFiles == [] && result.errors == []
    modifies ledger`images, result`outputFiles, result`errors
    ensures State(ledger, result, raised) == Collect(old(ledger.images), byKey, dest, remote, store)
  {
    raised := None;
    if Truthy(dest.fileName) {
      DownloadAndProcessFile(ledger, result, byKey, dest.fileName.value, remote, store);
    } else if dest.inlined != [] {
      raised := ProcessInlineResponses(ledger, result, byKey, dest.inlined, store);
    } else {
      result.errors := result.errors + [ErrorEntry(UNKNOWN_KEY, UNKNOWN_FORMAT_MSG)];
    }
  }

  // ----- the stand-alone status check -----

  /** The first job, in table order, with the given provider name. */
  function FirstJobNamed(jobs: map<string, BatchJob>, ids: seq<string>, jobName: string): (r: Option<string>)
    requires forall id :: id in ids ==> id in jobs
    ensures r.None? <==> forall i :: 0 <= i < |ids| ==> jobs[ids[i]].jobName != jobName
    ensures r.Some? ==> r.value in ids && jobs[r.value].jobName == jobName
  {
    if ids == [] then None
    else if jobs[ids[0]].jobName == jobName then Some(ids[0])
    else
      var r := FirstJobNamed(jobs, ids[1..], jobName);
      assert forall i :: 1 <= i < |ids| ==> ids[1..][i - 1] == ids[i];
      r
  }

  /** `check_job_status` as written: it stores the provider's state name and compares it with short names. */
  function CheckedJob(job: BatchJob, stateName: string, now: int): BatchJob {
    var j := job.(status := stateName);
    if stateName in [SUCCEEDED, FAILED, CANCELLED] then j.(completedAt := Some(now)) else j
  }

  /** What `check_job_status` evidently intends: short status names, and the completion time for a finished job. */
  function CheckedJobCorrected(job: BatchJob, stateName: string, now: int): (j: BatchJob)
    ensures j.completedAt.Some? <==> Terminal(stateName) || job.completedAt.Some?
  {
    var k := job.(status := PolledStatus(stateName, job.status));
    if Terminal(stateName) then k.(completedAt := Some(now)) else k
  }

  /** Provider state names all carry the "JOB_STATE_" prefix. */
  predicate IsProviderStateName(s: string) {
    StartsWith(s, "JOB_STATE_")
  }

  /**
   * As written, no provider state ever stamps the completion time, and the stored status leaves
   * the vocabulary the rest of the ledger uses, so the default polling filter no longer sees the job.
   */
  lemma CheckedJobNeverCompletes(job: BatchJob, stateName: string, now: int)
    requires IsProviderStateName(stateName)
    ensures CheckedJob(job, stateName, now).completedAt == job.completedAt
    ensures CheckedJob(job, stateName, now).status !in [PENDING, RUNNING, SUCCEEDED, FAILED, CANCELLED]
  {
    assert stateName[0] == 'J';
  }

  lemma CheckedJobSucceededExample(job: BatchJob, now: int)
    requires job.completedAt.None?
    ensures Terminal(STATE_SUCCEEDED) && IsProviderStateName(STATE_SUCCEEDED)
    ensures CheckedJob(job, STATE_SUCCEEDED, now).completedAt.None?
    ensures CheckedJobCorrected(job, STATE_SUCCEEDED, now).completedAt == Some(now)
  {
    assert STATE_SUCCEEDED[..10] == "JOB_STATE_";
    CheckedJobNeverCompletes(job, STATE_SUCCEEDED, now);
  }

  /** The corrected check keeps the short vocabulary and stamps exactly the finished jobs. */
  lemma CheckedJobCorrectedAgreesWithPoll(job: BatchJob, stateName: string, now: int)
    requires job.completedAt.None?
    ensures CheckedJobCorrected(job, stateName, now).status == PolledStatus(stateName, job.status)
    ensures CheckedJobCorrected(job, stateName, now).completedAt.Some? <==> Terminal(stateName)
    ensures Terminal(stateName) ==> "JOB_STATE_" + CheckedJobCorrected(job, stateName, now).status == stateName
  {
  }

  /**
   * `check_job_status` as written: the first job of that name is updated by `CheckedJob`, so it
   * stores the provider's `JOB_STATE_*` name (see the lemmas above); `stateName` is
   * `job_info.state.name`, `None` when there is no state.
   */
  method CheckJobStatus(ledger: Ledger, jobName: string, getState: string -> Result<Option<string>>, now: int)
    returns (r: Result<string>)
    requires ledger.Valid()
    modifies ledger`jobs
    ensures ledger.Valid()
    ensures match getState(jobName)
      case Err(m) => r == Err(m) && ledger.jobs == old(ledger.jobs)
      case Ok(stateName) =>
        && r == Ok(if stateName.Some? then stateName.value else "UNKNOWN")
        && var found := FirstJobNamed(old(ledger.jobs), ledger.jobIds, jobName);
           ledger.jobs == if found.Some? && stateName.Some?
                          then old(ledger.jobs)[found.value := CheckedJob(old(ledger.jobs)[found.value], stateName.value, now)]
                          else old(ledger.jobs)
  {
    var info := getState(jobName);
    if info.Err? {
      return Err(info.msg);
    }
    var found := FindJob(ledger, jobName);
    if found.Some? && info.value.Some? {
      var job := ledger.jobs[found.value];
      job := job.(status := info.value.value);
      if info.value.value in [SUCCEEDED, FAILED, CANCELLED] {
        job := job.(completedAt := Some(now));
      }
      ledger.jobs := ledger.jobs[found.value := job];
    }
    r := Ok(if info.value.Some? then info.value.value else "UNKNOWN");
  }

  /** `check_job_status` as evidently intended: the same lookup, updated by `CheckedJobCorrected`. */
  method CheckJobStatusCorrected(ledger: Ledger, jobName: string, getState: string -> Result<Option<string>>, now: int)
    returns (r: Result<string>)
    requires ledger.Valid()
    modifies ledger`jobs
    ensures ledger.Valid()
    ensures match getState(jobName)
      case Err(m) => r == Err(m) && ledger.jobs == old(ledger.jobs)
      case Ok(stateName) =>
        && r == Ok(if stateName.Some? then stateName.value else "UNKNOWN")
        && var found := FirstJobNamed(old(ledger.jobs), ledger.jobIds, jobName);
           ledger.jobs == if found.Some? && stateName.Some?
                          then old(ledger.jobs)[found.value := CheckedJobCorrected(old(ledger.jobs)[found.value], stateName.value, now)]
                          else old(ledger.jobs)
  {
    var info := getState(jobName);
    if info.Err? {
      return Err(info.msg);
    }
    var found := FindJob(ledger, jobName);
    if found.Some? && info.value.Some? {
      var job := ledger.jobs[found.value];
      job := job.(status := PolledStatus(info.value.value, job.status));
      if Terminal(info.value.value) {
        job := job.(completedAt := Some(now));
      }
      ledger.jobs := ledger.jobs[found.value := job];
    }
    r := Ok(if info.value.Some? then info.value.value else "UNKNOWN");
  }

  /** `.filter(BatchJob.job_name == job_name).first()` */
  method FindJob(ledger: Ledger, jobName: string) returns (found: Option<string>)
    requires ledger.Valid()
    ensures found == FirstJobNamed(ledger.jobs, ledger.jobIds, jobName)
  {
    var n := 0;
    while n < |ledger.jobIds|
      invariant 0 <= n <= |ledger.jobIds|
      invariant FirstJobNamed(ledger.jobs, ledger.jobIds, jobName) == FirstJobNamed(ledger.jobs, ledger.jobIds[n..], jobName)
    {
      if ledger.jobs[ledger.jobIds[n]].jobName == jobName {
        return Some(ledger.jobIds[n]);
      }
      assert ledger.jobIds[n..][1..] == ledger.jobIds[n + 1..];
      n := n + 1;
    }
    return None;
  }

  // ----- the per-item result update -----

  /** The first image row, in table order, with the given request key. */
  function FirstImageKeyed(images: map<string, BatchJobImage>, ids: seq<string>, key: string): (r: Option<string>)
    requires forall id :: id in ids ==> id in images
    ensures r.None? <==> forall i :: 0 <= i < |ids| ==> images[ids[i]].requestKey != key
    ensures r.Some? ==> r.value in ids && images[r.value].requestKey == key
  {
    if ids == [] then None
    else if images[ids[0]].requestKey == key then Some(ids[0])
    else
      var r := FirstImageKeyed(images, ids[1..], key);
      assert forall i :: 1 <= i < |ids| ==> ids[1..][i - 1] == ids[i];
      r
  }

  /** `update_image_result` on one row. */
  function UpdatedImage(row: BatchJobImage, resultFile: Option<string>, errorMessage: Option<string>): BatchJobImage {
    var r1 := if Truthy(resultFile) then row.(resultFile := resultFile, status := SUCCEEDED) else row;
    if Truthy(errorMessage) then r1.(errorMessage := errorMessage, status := FAILED) else r1
  }

  /** An error wins over a result file; with neither, the row is unchanged. */
  lemma UpdatedImageRules(row: BatchJobImage, resultFile: Option<string>, errorMessage: Option<string>)
    ensures var u := UpdatedImage(row, resultFile, errorMessage);
      && (Truthy(errorMessage) ==> u.status == FAILED && u.errorMessage == errorMessage)
      && (Truthy(resultFile) && !Truthy(errorMessage) ==> u.status == SUCCEEDED && u.errorMessage == row.errorMessage)
      && (Truthy(resultFile) ==> u.resultFile == resultFile)
      && (!Truthy(resultFile) && !Truthy(errorMessage) ==> u == row)
      && u.id == row.id && u.requestKey == row.requestKey && u.published == row.published
  {
  }

  method UpdateImageResult(ledger: Ledger, requestKey: string, resultFile: Option<string>, errorMessage: Option<string>)
    requires ledger.Valid()
    modifies ledger`images
    ensures ledger.Valid()
    ensures var found := FirstImageKeyed(old(ledger.images), ledger.imageIds, requestKey);
      ledger.images == if found.Some?
                       then old(ledger.images)[found.value := UpdatedImage(old(ledger.images)[found.value], resultFile, errorMessage)]
                       else old(ledger.images)
  {
    var n := 0;
    while n < |ledger.imageIds|
      invariant 0 <= n <= |ledger.imageIds|
      invariant FirstImageKeyed(ledger.images, ledger.imageIds, requestKey)
             == FirstImageKeyed(ledger.images, ledger.imageIds[n..], requestKey)
    {
      var id := ledger.imageIds[n];
      if ledger.images[id].requestKey == requestKey {
        var row := ledger.images[id];
        if Truthy(resultFile) {
          row := row.(resultFile := resultFile, status := SUCCEEDED);
        }
        if Truthy(errorMessage) {
          row := row.(errorMessage := errorMessage, status := FAILED);
        }
        ledger.images := ledger.images[id := row];
        return;
      }
      assert ledger.imageIds[n..][1..] == ledger.imageIds[n + 1..];
      n := n + 1;
    }
  }

  // ----- clean-up of the provider's uploads -----

  /**
   * The names, in order, whose deletion the provider refuses (`delete` answers the exception's
   * message): exactly those of `names` the provider refuses, and nothing else.
   */
  function RefusedDeletions(names: seq<string>, delete: string -> Option<string>): (r: seq<string>)
    ensures |r| <= |names|
    ensures forall x :: x in r ==> x in names
    ensures forall x :: x in names ==> (x in r <==> delete(x).Some?)
  {
    if names == [] then []
    else
      var n := |names| - 1;
      RefusedDeletions(names[..n], delete) + (if delete(names[n]).Some? then [names[n]] else [])
  }

  /**
   * `cleanup_gemini_files`, with the provider's `files.delete` as `delete`: the deletions it
   * attempts, in order, and the ones whose failure it swallows. An unknown job attempts none;
   * otherwise every source upload and then the manifest is attempted whatever the provider
   * answers, and the method itself never fails.
   */
  method CleanupGeminiFiles(ledger: Ledger, jobName: string, delete: string -> Option<string>)
    returns (deletions: seq<string>, swallowed: seq<string>)
    requires ledger.Valid()
    ensures var found := FirstJobNamed(ledger.jobs, ledger.jobIds, jobName);
      deletions == if found.None? then []
                   else ledger.jobs[found.value].sourceImageNames + [ledger.jobs[found.value].jsonlFileName]
    ensures swallowed == RefusedDeletions(deletions, delete)
  {
    var found := FindJob(ledger, jobName);
    if found.None? {
      return [], [];
    }
    var job := ledger.jobs[found.value];
    var names := job.sourceImageNames;
    deletions, swallowed := [], [];
    var n := 0;
    while n < |names|
      invariant 0 <= n <= |names|
      invariant deletions == names[..n]
      invariant swallowed == RefusedDeletions(deletions, delete)
    {
      assert names[..n + 1][..n] == names[..n];
      var failure := delete(names[n]);
      if failure.Some? {
        swallowed := swallowed + [names[n]];
      }
      deletions := deletions + [names[n]];
      n := n + 1;
    }
    assert names[..n] == names;
    var failure := delete(job.jsonlFileName);
    if failure.Some? {
      swallowed := swallowed + [job.jsonlFileName];
    }
    assert (deletions + [job.jsonlFileName])[..|deletions|] == deletions;
    deletions := deletions + [job.jsonlFileName];
  }
}
