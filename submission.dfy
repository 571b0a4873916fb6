/**
 * Job submission (`BatchService.create_batch_job`): validate every source path, upload each
 * source image to the inference provider, build the request manifest, upload it, create one
 * remote batch job and only then write one `BatchJob` and one `BatchJobImage` per task.
 *
 * The provider, the file system and the uuid generator are parameters: `Provider` holds the
 * three remote calls (each may raise, modelled as `Err`), `Host` answers `Path.exists` and
 * `Path.absolute`, `batchKey` is the `str(uuid4())` drawn for the batch and `rowId` gives the
 * primary key drawn for each new image row.
 */
module Submission {
  import opened Wrappers
  import opened Strings
  import opened Models
  import opened Ledger

  const BASE_PROMPT: string :=
    "Фотографии должны выглядеть будто сфотографировано профессиональным фотографом с качественным светом на профессиональном оборудовании."
    + "На фотографии реальный объект, искажать геометрию нельзя."
    + "Изображение будет использоваться для каталога мебели на сайте производителе нестандартной офисной мебели."

  // Fixed generation parameters written into every manifest line.
  const RESPONSE_MODALITIES: seq<string> := ["TEXT", "IMAGE"]
  const ASPECT_RATIO := "3:2"
  const IMAGE_SIZE := "2K"

  const NULL_MANIFEST := "Референс JSONL нулевой"
  const NULL_SOURCE := "Референс изображения нулевой"
  const NULL_JOB := "Не вернулось название batch job"

  /** `ImageTask`: one generation request. */
  datatype ImageTask = ImageTask(
    imagePath: string,
    modelName: string,
    orderNumber: string,
    customPrompt: string,
    position: int,
    category: string,
    pageUrl: string,
    sourceUrl: string)

  /** An `ImageTask` built from its four required fields takes the dataclass defaults. */
  function NewImageTask(imagePath: string, modelName: string, orderNumber: string, customPrompt: string): (t: ImageTask)
    ensures t.position == 0 && t.category == "" && t.pageUrl == "" && t.sourceUrl == ""
  {
    ImageTask(imagePath, modelName, orderNumber, customPrompt, 0, "", "", "")
  }

  /** A file object returned by the provider's upload call; its `name` may be `None`. */
  datatype ProviderFile = ProviderFile(name: Option<string>, uri: string, mimeType: string)

  /** One request line of the manifest (the generation parameters are the constants above). */
  datatype ManifestLine = ManifestLine(key: string, text: string, fileUri: string, mimeType: string)

  datatype Provider = Provider(
    upload: (string, string) -> Result<ProviderFile>,
    uploadManifest: (seq<ManifestLine>, string) -> Result<ProviderFile>,
    createBatch: (string, string, string) -> Result<Option<string>>)

  datatype Host = Host(pathExists: string -> bool, absolute: string -> string)

  /** The ways the submission raises. `IntegrityError` is the database refusing a duplicate key. */
  datatype SubmitError =
    | FileNotFound(path: string)
    | ProviderError(msg: string)
    | NullReference(msg: string)
    | IntegrityError

  /** The names the provider handed back, once every remote step succeeded. */
  datatype Plan = Plan(jobName: string, sourceNames: seq<string>, manifestName: string)

  datatype PlanOutcome = Refused(error: SubmitError) | Planned(plan: Plan)

  datatype SubmitOutcome = NotCreated(error: SubmitError) | Created(job: BatchJob)

  function FullPrompt(t: ImageTask): string {
    t.customPrompt + ". " + BASE_PROMPT
  }

  /** `f"{batch_key}-{i}"` */
  function RequestKey(batchKey: string, i: nat): string {
    batchKey + "-" + NatToString(i)
  }

  function SourceDisplayName(batchKey: string, i: nat): string {
    "batch-image-" + batchKey + "-" + NatToString(i)
  }

  /** The first task whose source path does not exist, in task order. */
  function FirstMissing(tasks: seq<ImageTask>, host: Host): (r: Option<string>)
    ensures r.None? <==> forall i :: 0 <= i < |tasks| ==> host.pathExists(tasks[i].imagePath)
    ensures r.Some? ==> exists i :: 0 <= i < |tasks| && r.value == tasks[i].imagePath && !host.pathExists(tasks[i].imagePath)
                                    && forall j :: 0 <= j < i ==> host.pathExists(tasks[j].imagePath)
  {
    if tasks == [] then None
    else if !host.pathExists(tasks[0].imagePath) then Some(tasks[0].imagePath)
    else
      var r := FirstMissing(tasks[1..], host);
      assert forall i :: 1 <= i < |tasks| ==> tasks[1..][i - 1] == tasks[i];
      r
  }

  /** The source uploads, in task order; the first upload that raises ends the submission. */
  function UploadSources(tasks: seq<ImageTask>, batchKey: string, prov: Provider): (r: Result<seq<ProviderFile>>)
    ensures r.Ok? ==> |r.value| == |tasks|
  {
    if tasks == [] then Ok([])
    else
      var n := |tasks| - 1;
      match UploadSources(tasks[..n], batchKey, prov)
      case Err(m) => Err(m)
      case Ok(files) =>
        match prov.upload(tasks[n].imagePath, SourceDisplayName(batchKey, n))
        case Err(m) => Err(m)
        case Ok(f) => Ok(files + [f])
  }

  function ManifestLines(batchKey: string, tasks: seq<ImageTask>, files: seq<ProviderFile>): (r: seq<ManifestLine>)
    requires |files| == |tasks|
    ensures |r| == |tasks|
  {
    seq(|tasks|, i requires 0 <= i < |tasks| =>
      ManifestLine(RequestKey(batchKey, i), FullPrompt(tasks[i]), files[i].uri, files[i].mimeType))
  }

  function Names(files: seq<ProviderFile>): (r: Option<seq<string>>)
    ensures r.None? <==> exists i :: 0 <= i < |files| && files[i].name.None?
    ensures r.Some? ==> |r.value| == |files| && forall i :: 0 <= i < |files| ==> files[i].name == Some(r.value[i])
  {
    if files == [] then Some([])
    else
      var n := |files| - 1;
      match Names(files[..n])
      case None =>
        assert exists i :: 0 <= i < |files| && files[i].name.None? by {
          var i :| 0 <= i < n && files[..n][i].name.None?;
          assert files[i] == files[..n][i];
        }
        None
      case Some(names) =>
        if files[n].name.None? then None
        else
          assert forall i :: 0 <= i < n ==> files[i] == files[..n][i];
          Some(names + [files[n].name.value])
  }

  /** Every remote step of the submission, in the order the source performs them. */
  function PlanSubmission(tasks: seq<ImageTask>, batchKey: string, model: string, prov: Provider, host: Host): (r: PlanOutcome)
  {
    match FirstMissing(tasks, host)
    case Some(p) => Refused(FileNotFound(p))
    case None =>
      match UploadSources(tasks, batchKey, prov)
      case Err(m) => Refused(ProviderError(m))
      case Ok(files) =>
        match prov.uploadManifest(ManifestLines(batchKey, tasks, files), "batch-requests-" + batchKey)
        case Err(m) => Refused(ProviderError(m))
        case Ok(manifest) =>
          if manifest.name.None? then Refused(NullReference(NULL_MANIFEST))
          else
            match Names(files)
            case None => Refused(NullReference(NULL_SOURCE))
            case Some(names) =>
              match prov.createBatch(model, manifest.name.value, "furniture-batch-" + batchKey)
              case Err(m) => Refused(ProviderError(m))
              case Ok(jobName) =>
                if jobName.None? then Refused(NullReference(NULL_JOB))
                else Planned(Plan(jobName.value, names, manifest.name.value))
  }

  function AbsolutePaths(tasks: seq<ImageTask>, host: Host): (r: seq<string>)
    ensures |r| == |tasks|
  {
    seq(|tasks|, i requires 0 <= i < |tasks| => host.absolute(tasks[i].imagePath))
  }

  function JobRow(jobId: string, plan: Plan, tasks: seq<ImageTask>, model: string, host: Host, now: int): BatchJob {
    NewBatchJob(jobId, plan.jobName, plan.sourceNames, plan.manifestName, AbsolutePaths(tasks, host), model, now)
  }

  function RowIds(n: nat, rowId: nat -> string): (r: seq<string>)
    ensures |r| == n
  {
    seq(n, i requires 0 <= i < n => rowId(i))
  }

  function ImageRow(jobId: string, batchKey: string, tasks: seq<ImageTask>, names: seq<string>, host: Host,
                    rowId: nat -> string, i: nat): BatchJobImage
    requires i < |tasks| && |names| == |tasks|
  {
    var t := tasks[i];
    NewBatchJobImage(rowId(i), jobId, RequestKey(batchKey, i), names[i], host.absolute(t.imagePath),
                     t.sourceUrl, t.modelName, t.orderNumber, t.position, t.pageUrl, FullPrompt(t))
  }

  /** The image rows a successful submission writes, in task order. */
  function ImageRowsFor(jobId: string, batchKey: string, tasks: seq<ImageTask>, names: seq<string>, host: Host,
                        rowId: nat -> string): (r: seq<BatchJobImage>)
    requires |names| == |tasks|
    ensures |r| == |tasks|
  {
    seq(|tasks|, i requires 0 <= i < |tasks| => ImageRow(jobId, batchKey, tasks, names, host, rowId, i))
  }

  /** The commit fails when a primary key or the unique `job_name` is already taken. */
  predicate Collides(jobs: map<string, BatchJob>, images: map<string, BatchJobImage>, jobId: string, jobName: string,
                     ids: seq<string>)
  {
    || jobId in jobs
    || (exists id :: id in jobs && jobs[id].jobName == jobName)
    || !Distinct(ids)
    || (exists i :: 0 <= i < |ids| && ids[i] in images)
  }

  // ----- properties of the submission -----

  /** Request keys are pairwise distinct within a batch. */
  lemma RequestKeysDistinct(batchKey: string, i: nat, j: nat)
    requires i != j
    ensures RequestKey(batchKey, i) != RequestKey(batchKey, j)
  {
    if RequestKey(batchKey, i) == RequestKey(batchKey, j) {
      var p := batchKey + "-";
      assert NatToString(i) == RequestKey(batchKey, i)[|p|..];
      assert NatToString(j) == RequestKey(batchKey, j)[|p|..];
      NatToStringInjective(i, j);
    }
  }

  /**
   * The rows of a successful submission: one per task, in task order, all owned by the new job,
   * PENDING and unpublished, with distinct request keys `batch_key-i` and the full prompt.
   */
  lemma SubmissionRows(jobId: string, batchKey: string, tasks: seq<ImageTask>, names: seq<string>, host: Host,
                       rowId: nat -> string)
    requires |names| == |tasks|
    ensures var rows := ImageRowsFor(jobId, batchKey, tasks, names, host, rowId);
      && |rows| == |tasks|
      && (forall i :: 0 <= i < |rows| ==>
            && rows[i].batchJobId == jobId
            && rows[i].requestKey == batchKey + "-" + NatToString(i)
            && rows[i].prompt == Some(tasks[i].customPrompt + ". " + BASE_PROMPT)
            && rows[i].modelName == tasks[i].modelName && rows[i].orderNumber == tasks[i].orderNumber
            && rows[i].position == tasks[i].position && rows[i].pageUrl == Some(tasks[i].pageUrl)
            && rows[i].sourceImageName == names[i]
            && rows[i].status == PENDING && !rows[i].published && rows[i].resultFile == None)
      && (forall i, j :: 0 <= i < j < |rows| ==> rows[i].requestKey != rows[j].requestKey)
  {
    var rows := ImageRowsFor(jobId, batchKey, tasks, names, host, rowId);
    forall i, j | 0 <= i < j < |rows|
      ensures rows[i].requestKey != rows[j].requestKey
    {
      RequestKeysDistinct(batchKey, i, j);
    }
  }

  /**
   * A missing source path fails the submission before anything remote happens: the outcome is
   * `FileNotFoundError` for the first missing path, whatever the provider would have answered.
   */
  lemma MissingPathFailsFast(tasks: seq<ImageTask>, batchKey: string, model: string, prov: Provider, prov': Provider,
                             host: Host, i: nat)
    requires i < |tasks| && !host.pathExists(tasks[i].imagePath)
    ensures PlanSubmission(tasks, batchKey, model, prov, host).Refused?
    ensures PlanSubmission(tasks, batchKey, model, prov, host).error.FileNotFound?
    ensures PlanSubmission(tasks, batchKey, model, prov, host) == PlanSubmission(tasks, batchKey, model, prov', host)
  {
  }

  /** A successful plan names every source upload, in task order, and the manifest. */
  lemma PlannedNamesUploads(tasks: seq<ImageTask>, batchKey: string, model: string, prov: Provider, host: Host)
    requires PlanSubmission(tasks, batchKey, model, prov, host).Planned?
    ensures var plan := PlanSubmission(tasks, batchKey, model, prov, host).plan;
      && (forall i :: 0 <= i < |tasks| ==> host.pathExists(tasks[i].imagePath))
      && UploadSources(tasks, batchKey, prov).Ok?
      && |plan.sourceNames| == |tasks|
      && (forall i :: 0 <= i < |tasks| ==> UploadSources(tasks, batchKey, prov).value[i].name == Some(plan.sourceNames[i]))
  {
  }

  lemma {:induction false} UploadSourcesAt(tasks: seq<ImageTask>, batchKey: string, prov: Provider, i: nat)
    requires UploadSources(tasks, batchKey, prov).Ok? && i < |tasks|
    ensures prov.upload(tasks[i].imagePath, SourceDisplayName(batchKey, i)).Ok?
    ensures UploadSources(tasks, batchKey, prov).value[i] == prov.upload(tasks[i].imagePath, SourceDisplayName(batchKey, i)).value
  {
    var n := |tasks| - 1;
    if i < n {
      assert tasks[..n][i] == tasks[i];
      UploadSourcesAt(tasks[..n], batchKey, prov, i);
    }
  }

  // ----- the operation, step by step -----

  /** The existence check: the first missing source path, if any. */
  method CheckPaths(tasks: seq<ImageTask>, host: Host) returns (missing: Option<string>)
    ensures missing == FirstMissing(tasks, host)
  {
    var i := 0;
    while i < |tasks|
      invariant 0 <= i <= |tasks|
      invariant forall j :: 0 <= j < i ==> host.pathExists(tasks[j].imagePath)
    {
      if !host.pathExists(tasks[i].imagePath) {
        return Some(tasks[i].imagePath);
      }
      i := i + 1;
    }
    return None;
  }

  /** The source uploads, in task order, stopping at the first that raises. */
  method UploadAll(tasks: seq<ImageTask>, batchKey: string, prov: Provider) returns (r: Result<seq<ProviderFile>>)
    ensures r == UploadSources(tasks, batchKey, prov)
  {
    var files: seq<ProviderFile> := [];
    var i := 0;
    while i < |tasks|
      invariant 0 <= i <= |tasks|
      invariant UploadSources(tasks[..i], batchKey, prov) == Ok(files)
    {
      assert tasks[..i + 1][..i] == tasks[..i];
      var up := prov.upload(tasks[i].imagePath, SourceDisplayName(batchKey, i));
      if up.Err? {
        UploadErrPropagates(tasks, batchKey, prov, i + 1);
        return Err(up.msg);
      }
      files := files + [up.value];
      i := i + 1;
    }
    assert tasks[..|tasks|] == tasks;
    return Ok(files);
  }

  /** The manifest, one request line per task, keyed `batch_key-i`. */
  method WriteManifest(batchKey: string, tasks: seq<ImageTask>, files: seq<ProviderFile>) returns (lines: seq<ManifestLine>)
    requires |files| == |tasks|
    ensures lines == ManifestLines(batchKey, tasks, files)
  {
    lines := [];
    var i := 0;
    while i < |tasks|
      invariant 0 <= i <= |tasks|
      invariant lines == ManifestLines(batchKey, tasks, files)[..i]
    {
      lines := lines + [ManifestLine(RequestKey(batchKey, i), FullPrompt(tasks[i]), files[i].uri, files[i].mimeType)];
      i := i + 1;
    }
  }

  /** The names of the source uploads, or `None` when one of them has none. */
  method CollectNames(files: seq<ProviderFile>) returns (r: Option<seq<string>>)
    ensures r == Names(files)
  {
    var names: seq<string> := [];
    var i := 0;
    while i < |files|
      invariant 0 <= i <= |files|
      invariant |names| == i
      invariant forall j :: 0 <= j < i ==> files[j].name == Some(names[j])
    {
      if files[i].name.None? {
        return None;
      }
      names := names + [files[i].name.value];
      i := i + 1;
    }
    NamesAgree(files, names);
    return Some(names);
  }

  /** The remote part of the submission. */
  method Prepare(tasks: seq<ImageTask>, batchKey: string, model: string, prov: Provider, host: Host) returns (r: PlanOutcome)
    ensures r == PlanSubmission(tasks, batchKey, model, prov, host)
  {
    var missing := CheckPaths(tasks, host);
    if missing.Some? {
      return Refused(FileNotFound(missing.value));
    }
    var files := UploadAll(tasks, batchKey, prov);
    if files.Err? {
      return Refused(ProviderError(files.msg));
    }
    var lines := WriteManifest(batchKey, tasks, files.value);
    var manifest := prov.uploadManifest(lines, "batch-requests-" + batchKey);
    if manifest.Err? {
      return Refused(ProviderError(manifest.msg));
    }
    if manifest.value.name.None? {
      return Refused(NullReference(NULL_MANIFEST));
    }
    var names := CollectNames(files.value);
    if names.None? {
      return Refused(NullReference(NULL_SOURCE));
    }
    var created := prov.createBatch(model, manifest.value.name.value, "furniture-batch-" + batchKey);
    if created.Err? {
      return Refused(ProviderError(created.msg));
    }
    if created.value.None? {
      return Refused(NullReference(NULL_JOB));
    }
    return Planned(Plan(created.value.value, names.value, manifest.value.name.value));
  }

  function IdsOf(rows: seq<BatchJobImage>): (r: seq<string>)
    ensures |r| == |rows| && forall i :: 0 <= i < |rows| ==> r[i] == rows[i].id
  {
    seq(|rows|, i requires 0 <= i < |rows| => rows[i].id)
  }

  /** The image table after adding `rows`, one after the other. */
  function AddRows(images: map<string, BatchJobImage>, rows: seq<BatchJobImage>): (r: map<string, BatchJobImage>)
    ensures images.Keys <= r.Keys
  {
    if rows == [] then images
    else AddRows(images, rows[..|rows| - 1])[rows[|rows| - 1].id := rows[|rows| - 1]]
  }

  lemma {:induction false} AddRowsKeys(images: map<string, BatchJobImage>, rows: seq<BatchJobImage>)
    ensures forall id :: id in AddRows(images, rows) <==> id in images || id in IdsOf(rows)
  {
    if rows != [] {
      var n := |rows| - 1;
      AddRowsKeys(images, rows[..n]);
      assert IdsOf(rows) == IdsOf(rows[..n]) + [rows[n].id];
    }
  }

  /** With distinct ids every added row is stored under its id and the old rows are kept. */
  lemma {:induction false} AddRowsLookup(images: map<string, BatchJobImage>, rows: seq<BatchJobImage>)
    requires Distinct(IdsOf(rows))
    ensures forall i :: 0 <= i < |rows| ==> rows[i].id in AddRows(images, rows) && AddRows(images, rows)[rows[i].id] == rows[i]
    ensures forall id :: id in images && id !in IdsOf(rows) ==> AddRows(images, rows)[id] == images[id]
  {
    if rows != [] {
      var n := |rows| - 1;
      assert IdsOf(rows[..n]) == IdsOf(rows)[..n];
      AddRowsLookup(images, rows[..n]);
      AddRowsKeys(images, rows[..n]);
    }
  }

  /** Adding rows under fresh, distinct ids keeps the image table, with the ids listed in order. */
  lemma {:induction false} AddRowsKeepsTable(images: map<string, BatchJobImage>, ids: seq<string>, rows: seq<BatchJobImage>)
    requires ImageTable(images, ids)
    requires Distinct(IdsOf(rows)) && forall i :: 0 <= i < |rows| ==> rows[i].id !in images
    ensures ImageTable(AddRows(images, rows), ids + IdsOf(rows))
  {
    if rows != [] {
      var n := |rows| - 1;
      assert IdsOf(rows[..n]) == IdsOf(rows)[..n];
      AddRowsKeepsTable(images, ids, rows[..n]);
      AddRowsKeys(images, rows[..n]);
      assert rows[n].id !in IdsOf(rows[..n]);
      AppendKeepsTable(AddRows(images, rows[..n]), ids + IdsOf(rows[..n]), rows[n].id, rows[n]);
      assert IdsOf(rows) == IdsOf(rows[..n]) + [rows[n].id];
      assert ids + IdsOf(rows) == ids + IdsOf(rows[..n]) + [rows[n].id];
    }
  }

  /** The image rows of one submission, inserted one after the other. */
  method InsertRows(images: map<string, BatchJobImage>, rows: seq<BatchJobImage>) returns (r: map<string, BatchJobImage>)
    ensures r == AddRows(images, rows)
  {
    r := images;
    var i := 0;
    while i < |rows|
      invariant 0 <= i <= |rows|
      invariant r == AddRows(images, rows[..i])
    {
      assert rows[..i + 1][..i] == rows[..i];
      r := r[rows[i].id := rows[i]];
      i := i + 1;
    }
    assert rows[..|rows|] == rows;
  }

  /** The single commit: the job row, then every image row in task order. */
  method Commit(ledger: Ledger, job: BatchJob, rows: seq<BatchJobImage>)
    requires ledger.Valid()
    requires job.id !in ledger.jobs && (forall id :: id in ledger.jobs ==> ledger.jobs[id].jobName != job.jobName)
    requires Distinct(IdsOf(rows)) && forall i :: 0 <= i < |rows| ==> rows[i].id !in ledger.images
    modifies ledger
    ensures ledger.Valid()
    ensures ledger.jobs == old(ledger.jobs)[job.id := job] && ledger.jobIds == old(ledger.jobIds) + [job.id]
    ensures ledger.images == AddRows(old(ledger.images), rows) && ledger.imageIds == old(ledger.imageIds) + IdsOf(rows)
  {
    AppendKeepsJobTable(ledger.jobs, ledger.jobIds, job);
    AddRowsKeepsTable(ledger.images, ledger.imageIds, rows);
    var images := InsertRows(ledger.images, rows);
    ledger.jobs := ledger.jobs[job.id := job];
    ledger.jobIds := ledger.jobIds + [job.id];
    ledger.images, ledger.imageIds := images, ledger.imageIds + IdsOf(rows);
  }

  /** `create_batch_job`: nothing is written unless every remote step succeeded first. */
  method CreateBatchJob(ledger: Ledger, tasks: seq<ImageTask>, batchKey: string, model: string, jobId: string,
                        rowId: nat -> string, now: int, prov: Provider, host: Host) returns (r: SubmitOutcome)
    requires ledger.Valid()
    modifies ledger
    ensures ledger.Valid()
    ensures match PlanSubmission(tasks, batchKey, model, prov, host)
      case Refused(e) =>
        r == NotCreated(e) && unchanged(ledger)
      case Planned(plan) =>
        var ids := RowIds(|tasks|, rowId);
        if Collides(old(ledger.jobs), old(ledger.images), jobId, plan.jobName, ids) then
          r == NotCreated(IntegrityError) && unchanged(ledger)
        else
          var job := JobRow(jobId, plan, tasks, model, host, now);
          var rows := ImageRowsFor(jobId, batchKey, tasks, plan.sourceNames, host, rowId);
          && r == Created(job)
          && ledger.jobs == old(ledger.jobs)[jobId := job]
          && ledger.jobIds == old(ledger.jobIds) + [jobId]
          && ledger.imageIds == old(ledger.imageIds) + ids
          && ledger.images == AddRows(old(ledger.images), rows)
  {
    var outcome := Prepare(tasks, batchKey, model, prov, host);
    if outcome.Refused? {
      return NotCreated(outcome.error);
    }
    var plan := outcome.plan;
    PlannedNamesUploads(tasks, batchKey, model, prov, host);
    var ids := RowIds(|tasks|, rowId);
    if Collides(ledger.jobs, ledger.images, jobId, plan.jobName, ids) {
      return NotCreated(IntegrityError);
    }
    var job := JobRow(jobId, plan, tasks, model, host, now);
    var rows := ImageRowsFor(jobId, batchKey, tasks, plan.sourceNames, host, rowId);
    assert IdsOf(rows) == ids;
    assert forall i :: 0 <= i < |rows| ==> rows[i].id == ids[i];
    Commit(ledger, job, rows);
    r := Created(job);
  }

  lemma UploadErrPropagates(tasks: seq<ImageTask>, batchKey: string, prov: Provider, k: nat)
    requires 0 < k <= |tasks| && UploadSources(tasks[..k], batchKey, prov).Err?
    ensures UploadSources(tasks, batchKey, prov).Err?
    ensures UploadSources(tasks, batchKey, prov).msg == UploadSources(tasks[..k], batchKey, prov).msg
    decreases |tasks| - k
  {
    if k < |tasks| {
      assert tasks[..k + 1][..k] == tasks[..k];
      UploadErrPropagates(tasks, batchKey, prov, k + 1);
    } else {
      assert tasks[..k] == tasks;
    }
  }

  lemma {:induction false} NamesAgree(files: seq<ProviderFile>, names: seq<string>)
    requires |names| == |files|
    requires forall j :: 0 <= j < |files| ==> files[j].name == Some(names[j])
    ensures Names(files) == Some(names)
  {
    if files != [] {
      var n := |files| - 1;
      NamesAgree(files[..n], names[..n]);
      assert names == names[..n] + [names[n]];
    }
  }
}
