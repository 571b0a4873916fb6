/**
 * Result reconciliation: the per-response processing of a finished batch job, for results
 * delivered as a file of JSON lines (`_download_and_process_file`) and for results delivered
 * inline (`_process_inline_responses`).
 *
 * Each response names its request key; its image parts are decoded, stored in the asset store
 * under the row's output file name, and the matching ledger row is marked SUCCEEDED or FAILED.
 * The returned report collects the stored files and the errors. The methods update the ledger
 * and the report in place; each is proved equal to a fold over the responses (`Run`), and the
 * properties are stated about the folds.
 */
module Reconcile {
  import opened Wrappers
  import opened Strings
  import opened Models
  import opened Ledger

  type Bytes = seq<bv8>

  const UPLOAD_FAILED := "Ошибка загрузки в Google Drive"
  const NOT_GENERATED := "Изображение не сгенерировано"
  const DOWNLOAD_KEY := "download"
  const KNOWN_DEFECT_PREFIX := "Баг Gemini API: ID файла результата слишком длинный. Файл: "
  const KNOWN_DEFECT_SUFFIX := ". Это известная проблема: https://github.com/googleapis/python-genai/issues/1759"
  const DOWNLOAD_FAILED_PREFIX := "Ошибка скачивания: "
  /** The message of the `TypeError` raised by iterating parts that are `None`. */
  const NOT_ITERABLE := "'NoneType' object is not iterable"

  /**
   * A part of a candidate's content, all candidates flattened in order. `Image(data)` is a part
   * whose inline data is truthy; `data` is its payload, or the exception reading the payload
   * raises: `KeyError('data')` for a file line whose inline data has no "data" key, the
   * `TypeError` of `b64decode(None)` for a payload that is null. `Unlisted` stands for a candidate
   * whose content is there but whose parts are `None` (an SDK object without parts, or a file
   * line with `"parts": null`): iterating them raises.
   */
  datatype Part = Text | Image(data: Result<string>) | Unlisted

  /**
   * One response. `error` is `Some(str(error))` when the response carries an error: for a file
   * line when the "error" key is present at all, for an inline response when its error is truthy.
   */
  datatype Response = Response(key: Option<string>, parts: seq<Part>, error: Option<string>)

  datatype OutputFile = OutputFile(key: string, fileId: string)

  datatype ErrorEntry = ErrorEntry(key: string, error: string)

  /**
   * The collaborators: base64 decoding of present image data (which may raise), the asset
   * store's upload (which swallows its own failures and answers `None`), slugify, and the uuid
   * drawn for the output file name of part `j` of response `i`.
   */
  datatype Store = Store(
    decode: string -> Result<Bytes>,
    upload: (Bytes, string) -> Option<string>,
    slugify: string -> string,
    uuid: (nat, nat) -> string)

  /** The provider's file download, the UTF-8 decoding and `json.loads` of one line. */
  datatype Remote = Remote(
    download: string -> Result<Bytes>,
    utf8: Bytes -> Result<string>,
    parse: string -> Result<Response>)

  /** The state the processing threads: the image rows, the report lists, a pending exception. */
  datatype Run = Run(images: map<string, BatchJobImage>, outputs: seq<OutputFile>, errors: seq<ErrorEntry>,
                     raised: Option<string>)

  /** `images_by_key` points at rows that exist. */
  predicate Indexes(byKey: map<string, string>, images: map<string, BatchJobImage>) {
    byKey.Values <= images.Keys
  }

  /** The result dictionary of one polled job; the three names are fixed when it is built. */
  class JobResult {
    const jobName: string
    const state: string
    const stateRu: string
    var completed: bool
    var success: bool
    var outputFiles: seq<OutputFile>
    var errors: seq<ErrorEntry>
    var error: Option<string>

    constructor (jobName: string, state: string, stateRu: string)
      ensures this.jobName == jobName && this.state == state && this.stateRu == stateRu
      ensures !completed && !success && outputFiles == [] && errors == [] && error == None
    {
      this.jobName, this.state, this.stateRu := jobName, state, stateRu;
      completed, success := false, false;
      outputFiles, errors, error := [], [], None;
    }
  }

  function State(ledger: Ledger, result: JobResult, raised: Option<string>): Run
    reads ledger, result
  {
    Run(ledger.images, result.outputFiles, result.errors, raised)
  }

  // ----- the specification: one step at a time -----

  function MarkStored(images: map<string, BatchJobImage>, rid: string, fileId: string): (r: map<string, BatchJobImage>)
    requires rid in images
    ensures r.Keys == images.Keys
  {
    images[rid := images[rid].(resultFile := Some(fileId), status := SUCCEEDED)]
  }

  function MarkFailed(images: map<string, BatchJobImage>, rid: string, msg: string): (r: map<string, BatchJobImage>)
    requires rid in images
    ensures r.Keys == images.Keys
  {
    images[rid := images[rid].(errorMessage := Some(msg), status := FAILED)]
  }

  /** `base64.b64decode` of the part's data: data that cannot be read raises before any decoding. */
  function DecodeData(store: Store, data: Result<string>): Result<Bytes> {
    match data
    case Err(m) => Err(m)
    case Ok(s) => store.decode(s)
  }

  /** One image part (part `j` of response `i`) for row `rid`: decode, upload, record. */
  function ImagePart(run: Run, key: string, rid: string, data: Result<string>, i: nat, j: nat, store: Store): (r: (Run, bool))
    requires rid in run.images
    ensures r.0.images.Keys == run.images.Keys
  {
    var name := OutputFilename(run.images[rid], store.slugify, store.uuid(i, j));
    match DecodeData(store, data)
    case Err(m) => (run.(raised := Some(m)), false)
    case Ok(bytes) =>
      var id := store.upload(bytes, name);
      if Truthy(id) then
        (run.(images := MarkStored(run.images, rid, id.value), outputs := run.outputs + [OutputFile(key, id.value)]), true)
      else
        (run.(images := MarkFailed(run.images, rid, UPLOAD_FAILED), errors := run.errors + [ErrorEntry(key, UPLOAD_FAILED)]), false)
  }

  /** The parts of response `i`, in order; the flag says whether an image was stored. */
  function Parts(run: Run, key: string, rid: string, parts: seq<Part>, i: nat, store: Store): (r: (Run, bool))
    requires rid in run.images
    ensures r.0.images.Keys == run.images.Keys
  {
    if parts == [] then (run, false)
    else
      var n := |parts| - 1;
      PartStep(Parts(run, key, rid, parts[..n], i, store), key, rid, parts[n], i, n, store)
  }

  /** Part `j`: skipped once an exception is pending, and for a part without image data. */
  function PartStep(prev: (Run, bool), key: string, rid: string, part: Part, i: nat, j: nat, store: Store): (r: (Run, bool))
    requires rid in prev.0.images
    ensures r.0.images.Keys == prev.0.images.Keys
  {
    if prev.0.raised.Some? || part.Text? then prev
    else if part.Unlisted? then (prev.0.(raised := Some(NOT_ITERABLE)), prev.1)
    else
      var next := ImagePart(prev.0, key, rid, part.data, i, j, store);
      (next.0, prev.1 || next.1)
  }

  lemma PartsPrefix(run: Run, key: string, rid: string, parts: seq<Part>, i: nat, store: Store, n: nat)
    requires rid in run.images && n < |parts|
    ensures Parts(run, key, rid, parts[..n + 1], i, store)
         == PartStep(Parts(run, key, rid, parts[..n], i, store), key, rid, parts[n], i, n, store)
  {
    assert parts[..n + 1][..n] == parts[..n];
  }

  /** An error recorded against `key`: its row (if any) FAILED with `msg`, and an error entry. */
  function Fail(run: Run, byKey: map<string, string>, key: string, msg: string): (r: Run)
    requires Indexes(byKey, run.images)
    ensures r.images.Keys == run.images.Keys
  {
    var images := if key in byKey then MarkFailed(run.images, byKey[key], msg) else run.images;
    run.(images := images, errors := run.errors + [ErrorEntry(key, msg)])
  }

  /**
   * The parts of a response whose key indexes no row: they are still iterated, so parts that
   * are `None` raise; nothing else happens to them.
   */
  function Unrecorded(run: Run, parts: seq<Part>): Run {
    if Unlisted in parts then run.(raised := Some(NOT_ITERABLE)) else run
  }

  /** One line of a result file (response `i`). */
  function FileResponse(run: Run, byKey: map<string, string>, resp: Response, i: nat, store: Store): (r: Run)
    requires Indexes(byKey, run.images)
    ensures r.images.Keys == run.images.Keys
  {
    if run.raised.Some? || !Truthy(resp.key) then run
    else
      var key := resp.key.value;
      var processed := if key in byKey then Parts(run, key, byKey[key], resp.parts, i, store) else (Unrecorded(run, resp.parts), false);
      var run1 := processed.0;
      if run1.raised.Some? then run1
      else
        var run2 := if !processed.1 && resp.error.None? then Fail(run1, byKey, key, NOT_GENERATED) else run1;
        if resp.error.Some? then Fail(run2, byKey, key, resp.error.value) else run2
  }

  /** One inline response (response `i`): no "not generated" failure on this path. */
  function InlineResponse(run: Run, byKey: map<string, string>, resp: Response, i: nat, store: Store): (r: Run)
    requires Indexes(byKey, run.images)
    ensures r.images.Keys == run.images.Keys
  {
    if run.raised.Some? || !Truthy(resp.key) then run
    else
      var key := resp.key.value;
      var run1 := if key in byKey then Parts(run, key, byKey[key], resp.parts, i, store).0 else Unrecorded(run, resp.parts);
      if run1.raised.Some? then run1
      else if resp.error.Some? then Fail(run1, byKey, key, resp.error.value)
      else run1
  }

  /** The lines of a result file, in order; blank lines are skipped, a malformed one raises. */
  function FileLines(run: Run, byKey: map<string, string>, lines: seq<string>, parse: string -> Result<Response>,
                     store: Store): (r: Run)
    requires Indexes(byKey, run.images)
    ensures r.images.Keys == run.images.Keys
  {
    if lines == [] then run
    else
      var n := |lines| - 1;
      FileLine(FileLines(run, byKey, lines[..n], parse, store), byKey, lines[n], n, parse, store)
  }

  /** Line `i` of a result file: skipped when blank, raises when it does not parse. */
  function FileLine(run: Run, byKey: map<string, string>, line: string, i: nat, parse: string -> Result<Response>,
                    store: Store): (r: Run)
    requires Indexes(byKey, run.images)
    ensures r.images.Keys == run.images.Keys
  {
    if run.raised.Some? || line == "" then run
    else
      match parse(line)
      case Err(m) => run.(raised := Some(m))
      case Ok(resp) => FileResponse(run, byKey, resp, i, store)
  }

  /** The inline responses, in order. */
  function InlineResponses(run: Run, byKey: map<string, string>, resps: seq<Response>, store: Store): (r: Run)
    requires Indexes(byKey, run.images)
    ensures r.images.Keys == run.images.Keys
  {
    if resps == [] then run
    else
      var n := |resps| - 1;
      var prev := InlineResponses(run, byKey, resps[..n], store);
      InlineResponse(prev, byKey, resps[n], n, store)
  }

  /** The diagnostic recorded when the result file cannot be downloaded or processed. */
  function DownloadDiagnostic(msg: string, fileName: string): string {
    if Contains(msg, "40 characters") || Contains(msg, "INVALID_ARGUMENT") then
      KNOWN_DEFECT_PREFIX + fileName + KNOWN_DEFECT_SUFFIX
    else
      DOWNLOAD_FAILED_PREFIX + msg
  }

  /** Download, decode and process the lines; an exception is left pending in `raised`. */
  function ReadFile(run: Run, byKey: map<string, string>, fileName: string, remote: Remote, store: Store): (r: Run)
    requires Indexes(byKey, run.images)
    ensures r.images.Keys == run.images.Keys
  {
    match remote.download(fileName)
    case Err(m) => run.(raised := Some(m))
    case Ok(bytes) =>
      match remote.utf8(bytes)
      case Err(m) => run.(raised := Some(m))
      case Ok(text) => FileLines(run, byKey, Split(Strip(text), '\n'), remote.parse, store)
  }

  /** The whole file path: any exception becomes one "download" error entry. */
  function ProcessFile(run: Run, byKey: map<string, string>, fileName: string, remote: Remote, store: Store): (r: Run)
    requires Indexes(byKey, run.images)
    ensures r.images.Keys == run.images.Keys
  {
    var done := ReadFile(run, byKey, fileName, remote, store);
    if done.raised.Some? then
      done.(errors := done.errors + [ErrorEntry(DOWNLOAD_KEY, DownloadDiagnostic(done.raised.value, fileName))], raised := None)
    else done
  }

  lemma FileLinesPrefix(run: Run, byKey: map<string, string>, lines: seq<string>, parse: string -> Result<Response>,
                        store: Store, n: nat)
    requires Indexes(byKey, run.images) && n < |lines|
    ensures FileLines(run, byKey, lines[..n + 1], parse, store)
         == FileLine(FileLines(run, byKey, lines[..n], parse, store), byKey, lines[n], n, parse, store)
  {
    assert lines[..n + 1][..n] == lines[..n];
  }

  lemma InlinePrefix(run: Run, byKey: map<string, string>, resps: seq<Response>, store: Store, n: nat)
    requires Indexes(byKey, run.images) && n < |resps|
    ensures InlineResponses(run, byKey, resps[..n + 1], store)
         == InlineResponse(InlineResponses(run, byKey, resps[..n], store), byKey, resps[n], n, store)
  {
    assert resps[..n + 1][..n] == resps[..n];
  }

  // ----- an exception ends the processing -----

  lemma {:induction false} PartsStopAtRaise(run: Run, key: string, rid: string, parts: seq<Part>, i: nat, store: Store, k: nat)
    requires rid in run.images && k <= |parts|
    requires Parts(run, key, rid, parts[..k], i, store).0.raised.Some?
    ensures Parts(run, key, rid, parts, i, store) == Parts(run, key, rid, parts[..k], i, store)
    decreases |parts| - k
  {
    if k < |parts| {
      assert parts[..k + 1][..k] == parts[..k];
      PartsStopAtRaise(run, key, rid, parts, i, store, k + 1);
    } else {
      assert parts[..k] == parts;
    }
  }

  lemma {:induction false} FileLinesStopAtRaise(run: Run, byKey: map<string, string>, lines: seq<string>,
                                                parse: string -> Result<Response>, store: Store, k: nat)
    requires Indexes(byKey, run.images) && k <= |lines|
    requires FileLines(run, byKey, lines[..k], parse, store).raised.Some?
    ensures FileLines(run, byKey, lines, parse, store) == FileLines(run, byKey, lines[..k], parse, store)
    decreases |lines| - k
  {
    if k < |lines| {
      assert lines[..k + 1][..k] == lines[..k];
      FileLinesStopAtRaise(run, byKey, lines, parse, store, k + 1);
    } else {
      assert lines[..k] == lines;
    }
  }

  lemma {:induction false} InlineStopAtRaise(run: Run, byKey: map<string, string>, resps: seq<Response>, store: Store, k: nat)
    requires Indexes(byKey, run.images) && k <= |resps|
    requires InlineResponses(run, byKey, resps[..k], store).raised.Some?
    ensures InlineResponses(run, byKey, resps, store) == InlineResponses(run, byKey, resps[..k], store)
    decreases |resps| - k
  {
    if k < |resps| {
      assert resps[..k + 1][..k] == resps[..k];
      InlineStopAtRaise(run, byKey, resps, store, k + 1);
    } else {
      assert resps[..k] == resps;
    }
  }

  // ----- what one response does to the ledger -----

  /** The parts of a response touch no row but their own. */
  lemma {:induction false} PartsTouchOnlyTheirRow(run: Run, key: string, rid: string, parts: seq<Part>, i: nat, store: Store,
                                                  id: string)
    requires rid in run.images && id in run.images && id != rid
    ensures Parts(run, key, rid, parts, i, store).0.images[id] == run.images[id]
  {
    if parts != [] {
      var n := |parts| - 1;
      PartsTouchOnlyTheirRow(run, key, rid, parts[..n], i, store, id);
    }
  }

  /** Parts without image data store nothing and change nothing. */
  lemma {:induction false} TextPartsChangeNothing(run: Run, key: string, rid: string, parts: seq<Part>, i: nat, store: Store)
    requires rid in run.images
    requires forall j :: 0 <= j < |parts| ==> parts[j].Text?
    ensures Parts(run, key, rid, parts, i, store) == (run, false)
  {
    if parts != [] {
      TextPartsChangeNothing(run, key, rid, parts[..|parts| - 1], i, store);
    }
  }

  /**
   * A file line or an inline response changes no row but the one its key indexes: a line with
   * no key, or with a key of no row of this job, changes no row at all.
   */
  lemma ResponseTouchesOnlyItsRow(run: Run, byKey: map<string, string>, resp: Response, i: nat, store: Store, id: string)
    requires Indexes(byKey, run.images) && id in run.images
    requires !Truthy(resp.key) || resp.key.value !in byKey || byKey[resp.key.value] != id
    ensures FileResponse(run, byKey, resp, i, store).images[id] == run.images[id]
    ensures InlineResponse(run, byKey, resp, i, store).images[id] == run.images[id]
  {
    if run.raised.None? && Truthy(resp.key) && resp.key.value in byKey {
      if byKey[resp.key.value] != id {
        PartsTouchOnlyTheirRow(run, resp.key.value, byKey[resp.key.value], resp.parts, i, store, id);
      }
    }
  }

  /**
   * A key of no row of this job still reports one error: the line's own, or "not generated";
   * unless some of its parts are `None`, which raises and reports nothing.
   */
  lemma UnknownKeyReportsOneError(run: Run, byKey: map<string, string>, resp: Response, i: nat, store: Store)
    requires Indexes(byKey, run.images) && run.raised.None?
    requires Truthy(resp.key) && resp.key.value !in byKey
    ensures var r := FileResponse(run, byKey, resp, i, store);
      if Unlisted in resp.parts then r == run.(raised := Some(NOT_ITERABLE))
      else
        && r.images == run.images && r.outputs == run.outputs && r.raised.None?
        && r.errors == run.errors + [ErrorEntry(resp.key.value, if resp.error.Some? then resp.error.value else NOT_GENERATED)]
  {
  }

  /** An error in the line always leaves its row FAILED with that error, whatever the parts did. */
  lemma ErrorLineLeavesRowFailed(run: Run, byKey: map<string, string>, resp: Response, i: nat, store: Store)
    requires Indexes(byKey, run.images) && run.raised.None?
    requires Truthy(resp.key) && resp.key.value in byKey && resp.error.Some?
    requires Parts(run, resp.key.value, byKey[resp.key.value], resp.parts, i, store).0.raised.None?
    ensures var r := FileResponse(run, byKey, resp, i, store);
      && r.images[byKey[resp.key.value]].status == FAILED
      && r.images[byKey[resp.key.value]].errorMessage == resp.error
      && r.errors[|r.errors| - 1] == ErrorEntry(resp.key.value, resp.error.value)
    ensures var r := InlineResponse(run, byKey, resp, i, store);
      && r.images[byKey[resp.key.value]].status == FAILED
      && r.images[byKey[resp.key.value]].errorMessage == resp.error
  {
  }

  /** A line with neither image data nor an error marks its row FAILED, "not generated". */
  lemma NoImageNoErrorIsNotGenerated(run: Run, byKey: map<string, string>, resp: Response, i: nat, store: Store)
    requires Indexes(byKey, run.images) && run.raised.None?
    requires Truthy(resp.key) && resp.key.value in byKey && resp.error.None?
    requires forall j :: 0 <= j < |resp.parts| ==> resp.parts[j].Text?
    ensures var r := FileResponse(run, byKey, resp, i, store);
      && r.images == run.images[byKey[resp.key.value] := run.images[byKey[resp.key.value]].(errorMessage := Some(NOT_GENERATED), status := FAILED)]
      && r.outputs == run.outputs
      && r.errors == run.errors + [ErrorEntry(resp.key.value, NOT_GENERATED)]
  {
    TextPartsChangeNothing(run, resp.key.value, byKey[resp.key.value], resp.parts, i, store);
  }

  /** The inline path has no "not generated" failure: such a response changes nothing. */
  lemma InlineNoImageNoErrorChangesNothing(run: Run, byKey: map<string, string>, resp: Response, i: nat, store: Store)
    requires Indexes(byKey, run.images) && run.raised.None?
    requires resp.error.None?
    requires forall j :: 0 <= j < |resp.parts| ==> resp.parts[j].Text?
    ensures InlineResponse(run, byKey, resp, i, store) == run
  {
    if Truthy(resp.key) && resp.key.value in byKey {
      TextPartsChangeNothing(run, resp.key.value, byKey[resp.key.value], resp.parts, i, store);
    }
  }

  /** A stored image marks the row SUCCEEDED with the store's file id and reports the file. */
  lemma StoredImageSucceeds(run: Run, byKey: map<string, string>, key: string, data: Result<string>, i: nat, store: Store)
    requires Indexes(byKey, run.images) && run.raised.None? && key != "" && key in byKey
    requires DecodeData(store, data).Ok?
    requires Truthy(store.upload(DecodeData(store, data).value, OutputFilename(run.images[byKey[key]], store.slugify, store.uuid(i, 0))))
    ensures var fileId := store.upload(DecodeData(store, data).value, OutputFilename(run.images[byKey[key]], store.slugify, store.uuid(i, 0))).value;
      var r := FileResponse(run, byKey, Response(Some(key), [Image(data)], None), i, store);
      && r.images[byKey[key]].status == SUCCEEDED
      && r.images[byKey[key]].resultFile == Some(fileId)
      && r.outputs == run.outputs + [OutputFile(key, fileId)]
      && r.errors == run.errors
  {
    SingleImagePart(run, key, byKey[key], data, i, store);
  }

  /**
   * An upload the store refuses marks the row FAILED; as nothing was stored, the "not
   * generated" failure follows, so the row ends with that message and both errors are reported.
   */
  lemma RefusedUploadEndsNotGenerated(run: Run, byKey: map<string, string>, key: string, data: Result<string>, i: nat,
                                      store: Store)
    requires Indexes(byKey, run.images) && run.raised.None? && key != "" && key in byKey
    requires DecodeData(store, data).Ok?
    requires !Truthy(store.upload(DecodeData(store, data).value, OutputFilename(run.images[byKey[key]], store.slugify, store.uuid(i, 0))))
    ensures var r := FileResponse(run, byKey, Response(Some(key), [Image(data)], None), i, store);
      && r.images[byKey[key]].status == FAILED
      && r.images[byKey[key]].errorMessage == Some(NOT_GENERATED)
      && r.outputs == run.outputs
      && r.errors == run.errors + [ErrorEntry(key, UPLOAD_FAILED), ErrorEntry(key, NOT_GENERATED)]
  {
    var rid := byKey[key];
    SingleImagePart(run, key, rid, data, i, store);
    var parts := ImagePart(run, key, rid, data, i, 0, store);
    assert parts.0.errors == run.errors + [ErrorEntry(key, UPLOAD_FAILED)] && !parts.1;
    var run2 := Fail(parts.0, byKey, key, NOT_GENERATED);
    assert run2.images[rid].errorMessage == Some(NOT_GENERATED);
    assert run.errors + [ErrorEntry(key, UPLOAD_FAILED)] + [ErrorEntry(key, NOT_GENERATED)]
        == run.errors + [ErrorEntry(key, UPLOAD_FAILED), ErrorEntry(key, NOT_GENERATED)];
  }

  lemma SingleImagePart(run: Run, key: string, rid: string, data: Result<string>, i: nat, store: Store)
    requires rid in run.images && run.raised.None?
    ensures Parts(run, key, rid, [Image(data)], i, store) == ImagePart(run, key, rid, data, i, 0, store)
  {
    var parts := [Image(data)];
    assert parts[..0] == [] && parts[0].Image? && parts[0].data == data;
    assert Parts(run, key, rid, [], i, store) == (run, false);
  }

  /**
   * An image part whose data cannot be read raises that exception before `b64decode`: the
   * response ends there with the row untouched, nothing stored, and the later parts skipped.
   */
  lemma MissingDataRaises(run: Run, key: string, rid: string, texts: seq<Part>, msg: string, rest: seq<Part>, i: nat,
                          store: Store)
    requires rid in run.images && run.raised.None?
    requires forall j :: 0 <= j < |texts| ==> texts[j].Text?
    ensures Parts(run, key, rid, texts + [Image(Err(msg))] + rest, i, store) == (run.(raised := Some(msg)), false)
  {
    var parts := texts + [Image(Err(msg))] + rest;
    var k := |texts|;
    assert parts[..k] == texts;
    TextPartsChangeNothing(run, key, rid, texts, i, store);
    PartsPrefix(run, key, rid, parts, i, store, k);
    assert parts[k] == Image(Err(msg));
    PartsStopAtRaise(run, key, rid, parts, i, store, k + 1);
  }

  /** Parts that are `None` raise when reached: the later parts are skipped and nothing is stored. */
  lemma UnlistedPartsRaise(run: Run, key: string, rid: string, texts: seq<Part>, rest: seq<Part>, i: nat, store: Store)
    requires rid in run.images && run.raised.None?
    requires forall j :: 0 <= j < |texts| ==> texts[j].Text?
    ensures Parts(run, key, rid, texts + [Unlisted] + rest, i, store) == (run.(raised := Some(NOT_ITERABLE)), false)
  {
    var parts := texts + [Unlisted] + rest;
    var k := |texts|;
    assert parts[..k] == texts;
    TextPartsChangeNothing(run, key, rid, texts, i, store);
    PartsPrefix(run, key, rid, parts, i, store, k);
    assert parts[k] == Unlisted;
    PartsStopAtRaise(run, key, rid, parts, i, store, k + 1);
  }

  /**
   * A response with a key, whose parts are `None` before any image, raises on both paths,
   * whether or not its key indexes a row: no row changes and no output or error is reported.
   */
  lemma UnlistedResponseRaises(run: Run, byKey: map<string, string>, resp: Response, texts: seq<Part>, rest: seq<Part>,
                               i: nat, store: Store)
    requires Indexes(byKey, run.images) && run.raised.None? && Truthy(resp.key)
    requires resp.parts == texts + [Unlisted] + rest
    requires forall j :: 0 <= j < |texts| ==> texts[j].Text?
    ensures FileResponse(run, byKey, resp, i, store) == run.(raised := Some(NOT_ITERABLE))
    ensures InlineResponse(run, byKey, resp, i, store) == run.(raised := Some(NOT_ITERABLE))
  {
    var key := resp.key.value;
    if key in byKey {
      UnlistedPartsRaise(run, key, byKey[key], texts, rest, i, store);
    } else {
      assert resp.parts[|texts|] == Unlisted;
    }
  }

  /**
   * On the inline path that exception propagates out of `_process_inline_responses`: the
   * responses after it are not processed, and the state is the one the earlier responses left.
   */
  lemma InlineUnlistedEndsProcessing(run: Run, byKey: map<string, string>, resps: seq<Response>, k: nat,
                                     texts: seq<Part>, rest: seq<Part>, store: Store)
    requires Indexes(byKey, run.images) && k < |resps|
    requires InlineResponses(run, byKey, resps[..k], store).raised.None? && Truthy(resps[k].key)
    requires resps[k].parts == texts + [Unlisted] + rest
    requires forall j :: 0 <= j < |texts| ==> texts[j].Text?
    ensures InlineResponses(run, byKey, resps, store) == InlineResponses(run, byKey, resps[..k], store).(raised := Some(NOT_ITERABLE))
  {
    var prev := InlineResponses(run, byKey, resps[..k], store);
    InlinePrefix(run, byKey, resps, store, k);
    UnlistedResponseRaises(prev, byKey, resps[k], texts, rest, k, store);
    InlineStopAtRaise(run, byKey, resps, store, k + 1);
  }

  // ----- what the whole processing does -----

  /** Rows no key of this job indexes (in particular, rows of other jobs) are never changed. */
  lemma {:induction false} FileLinesTouchOnlyIndexedRows(run: Run, byKey: map<string, string>, lines: seq<string>,
                                                         parse: string -> Result<Response>, store: Store, id: string)
    requires Indexes(byKey, run.images) && id in run.images
    requires forall k :: k in byKey ==> byKey[k] != id
    ensures FileLines(run, byKey, lines, parse, store).images[id] == run.images[id]
  {
    if lines != [] {
      var n := |lines| - 1;
      FileLinesTouchOnlyIndexedRows(run, byKey, lines[..n], parse, store, id);
      var prev := FileLines(run, byKey, lines[..n], parse, store);
      if prev.raised.None? && lines[n] != "" && parse(lines[n]).Ok? {
        ResponseTouchesOnlyItsRow(prev, byKey, parse(lines[n]).value, n, store, id);
      }
    }
  }

  lemma {:induction false} InlineTouchesOnlyIndexedRows(run: Run, byKey: map<string, string>, resps: seq<Response>,
                                                        store: Store, id: string)
    requires Indexes(byKey, run.images) && id in run.images
    requires forall k :: k in byKey ==> byKey[k] != id
    ensures InlineResponses(run, byKey, resps, store).images[id] == run.images[id]
  {
    if resps != [] {
      var n := |resps| - 1;
      InlineTouchesOnlyIndexedRows(run, byKey, resps[..n], store, id);
      ResponseTouchesOnlyItsRow(InlineResponses(run, byKey, resps[..n], store), byKey, resps[n], n, store, id);
    }
  }

  lemma {:induction false} ContainsAfter(a: string, b: string)
    ensures Contains(a + b, b)
  {
    if a == [] {
      assert a + b == b;
    } else {
      assert (a + b)[1..] == a[1..] + b;
      ContainsAfter(a[1..], b);
    }
  }

  lemma {:induction false} ContainsInside(a: string, b: string, c: string)
    ensures Contains(a + b + c, b)
  {
    if a == [] {
      assert (a + b + c)[..|b|] == b;
    } else {
      assert (a + b + c)[1..] == a[1..] + b + c;
      ContainsInside(a[1..], b, c);
    }
  }

  /**
   * The processing of a result file never raises. When the file cannot be fetched no row
   * changes and exactly one "download" error is reported; its text names the file for the
   * provider's known defect and carries the exception's message otherwise.
   */
  lemma DownloadFailureReported(run: Run, byKey: map<string, string>, fileName: string, remote: Remote, store: Store)
    requires Indexes(byKey, run.images) && run.raised.None?
    requires remote.download(fileName).Err?
    ensures var r := ProcessFile(run, byKey, fileName, remote, store);
      var msg := remote.download(fileName).msg;
      && r.raised.None? && r.images == run.images && r.outputs == run.outputs
      && |r.errors| == |run.errors| + 1 && r.errors[..|run.errors|] == run.errors
      && r.errors[|run.errors|].key == DOWNLOAD_KEY
      && (Contains(msg, "40 characters") || Contains(msg, "INVALID_ARGUMENT") ==> Contains(r.errors[|run.errors|].error, fileName))
      && (!Contains(msg, "40 characters") && !Contains(msg, "INVALID_ARGUMENT") ==> Contains(r.errors[|run.errors|].error, msg))
  {
    var msg := remote.download(fileName).msg;
    ContainsInside(KNOWN_DEFECT_PREFIX, fileName, KNOWN_DEFECT_SUFFIX);
    ContainsAfter(DOWNLOAD_FAILED_PREFIX, msg);
  }

  // ----- the imperative processing, proved against the folds -----

  method StoreImagePart(ledger: Ledger, result: JobResult, key: string, rid: string, data: Result<string>,
                        i: nat, j: nat, store: Store) returns (raised: Option<string>, stored: bool)
    requires rid in ledger.images
    modifies ledger`images, result`outputFiles, result`errors
    ensures (State(ledger, result, raised), stored) == ImagePart(old(State(ledger, result, None)), key, rid, data, i, j, store)
  {
    var outputFilename := OutputFilename(ledger.images[rid], store.slugify, store.uuid(i, j));
    var bytes := DecodeData(store, data);
    if bytes.Err? {
      return Some(bytes.msg), false;
    }
    var fileId := store.upload(bytes.value, outputFilename);
    var row := ledger.images[rid];
    if Truthy(fileId) {
      ledger.images := ledger.images[rid := row.(resultFile := Some(fileId.value), status := SUCCEEDED)];
      result.outputFiles := result.outputFiles + [OutputFile(key, fileId.value)];
      return None, true;
    }
    ledger.images := ledger.images[rid := row.(errorMessage := Some(UPLOAD_FAILED), status := FAILED)];
    result.errors := result.errors + [ErrorEntry(key, UPLOAD_FAILED)];
    return None, false;
  }

  method ProcessParts(ledger: Ledger, result: JobResult, key: string, rid: string, parts: seq<Part>, i: nat,
                      store: Store) returns (raised: Option<string>, hasImage: bool)
    requires rid in ledger.images
    modifies ledger`images, result`outputFiles, result`errors
    ensures (State(ledger, result, raised), hasImage) == Parts(old(State(ledger, result, None)), key, rid, parts, i, store)
  {
    ghost var start := State(ledger, result, None);
    raised, hasImage := None, false;
    var n := 0;
    while n < |parts|
      invariant 0 <= n <= |parts| && raised.None?
      invariant rid in ledger.images
      invariant (State(ledger, result, raised), hasImage) == Parts(start, key, rid, parts[..n], i, store)
    {
      PartsPrefix(start, key, rid, parts, i, store, n);
      if parts[n].Unlisted? {
        raised := Some(NOT_ITERABLE);
        PartsStopAtRaise(start, key, rid, parts, i, store, n + 1);
        return;
      }
      if parts[n].Image? {
        var stored;
        raised, stored := StoreImagePart(ledger, result, key, rid, parts[n].data, i, n, store);
        if stored {
          hasImage := true;
        }
        if raised.Some? {
          PartsStopAtRaise(start, key, rid, parts, i, store, n + 1);
          return;
        }
      }
      n := n + 1;
    }
    assert parts[..|parts|] == parts;
  }

  method RecordFailure(ledger: Ledger, result: JobResult, byKey: map<string, string>, key: string, msg: string)
    requires Indexes(byKey, ledger.images)
    modifies ledger`images, result`errors
    ensures State(ledger, result, None) == Fail(old(State(ledger, result, None)), byKey, key, msg)
  {
    if key in byKey {
      var row := ledger.images[byKey[key]];
      ledger.images := ledger.images[byKey[key] := row.(errorMessage := Some(msg), status := FAILED)];
    }
    result.errors := result.errors + [ErrorEntry(key, msg)];
  }

  method ProcessFileResponse(ledger: Ledger, result: JobResult, byKey: map<string, string>, resp: Response, i: nat,
                             store: Store) returns (raised: Option<string>)
    requires Indexes(byKey, ledger.images)
    modifies ledger`images, result`outputFiles, result`errors
    ensures State(ledger, result, raised) == FileResponse(old(State(ledger, result, None)), byKey, resp, i, store)
  {
    raised := None;
    if !Truthy(resp.key) {
      return;
    }
    var key := resp.key.value;
    var hasImage := false;
    if key in byKey {
      raised, hasImage := ProcessParts(ledger, result, key, byKey[key], resp.parts, i, store);
      if raised.Some? {
        return;
      }
    } else if Unlisted in resp.parts {
      return Some(NOT_ITERABLE);
    }
    if !hasImage && resp.error.None? {
      RecordFailure(ledger, result, byKey, key, NOT_GENERATED);
    }
    if resp.error.Some? {
      RecordFailure(ledger, result, byKey, key, resp.error.value);
    }
  }

  method ProcessInlineResponse(ledger: Ledger, result: JobResult, byKey: map<string, string>, resp: Response, i: nat,
                               store: Store) returns (raised: Option<string>)
    requires Indexes(byKey, ledger.images)
    modifies ledger`images, result`outputFiles, result`errors
    ensures State(ledger, result, raised) == InlineResponse(old(State(ledger, result, None)), byKey, resp, i, store)
  {
    raised := None;
    if !Truthy(resp.key) {
      return;
    }
    var key := resp.key.value;
    if key in byKey {
      var hasImage;
      raised, hasImage := ProcessParts(ledger, result, key, byKey[key], resp.parts, i, store);
      if raised.Some? {
        return;
      }
    } else if Unlisted in resp.parts {
      return Some(NOT_ITERABLE);
    }
    if resp.error.Some? {
      RecordFailure(ledger, result, byKey, key, resp.error.value);
    }
  }

  /** `_process_inline_responses`: an exception propagates to the caller (`raised`). */
  method ProcessInlineResponses(ledger: Ledger, result: JobResult, byKey: map<string, string>, resps: seq<Response>,
                                store: Store) returns (raised: Option<string>)
    requires Indexes(byKey, ledger.images)
    modifies ledger`images, result`outputFiles, result`errors
    ensures State(ledger, result, raised) == InlineResponses(old(State(ledger, result, None)), byKey, resps, store)
  {
    ghost var start := State(ledger, result, None);
    raised := None;
    var n := 0;
    while n < |resps|
      invariant 0 <= n <= |resps| && raised.None?
      invariant Indexes(byKey, ledger.images)
      invariant State(ledger, result, raised) == InlineResponses(start, byKey, resps[..n], store)
    {
      InlinePrefix(start, byKey, resps, store, n);
      raised := ProcessInlineResponse(ledger, result, byKey, resps[n], n, store);
      if raised.Some? {
        InlineStopAtRaise(start, byKey, resps, store, n + 1);
        return;
      }
      n := n + 1;
    }
    assert resps[..|resps|] == resps;
  }

  method ProcessFileLine(ledger: Ledger, result: JobResult, byKey: map<string, string>, line: string, i: nat,
                         parse: string -> Result<Response>, store: Store) returns (raised: Option<string>)
    requires Indexes(byKey, ledger.images)
    modifies ledger`images, result`outputFiles, result`errors
    ensures State(ledger, result, raised) == FileLine(old(State(ledger, result, None)), byKey, line, i, parse, store)
  {
    if line == "" {
      return None;
    }
    var responseData := parse(line);
    if responseData.Err? {
      return Some(responseData.msg);
    }
    raised := ProcessFileResponse(ledger, result, byKey, responseData.value, i, store);
  }

  method ProcessFileLines(ledger: Ledger, result: JobResult, byKey: map<string, string>, lines: seq<string>,
                          parse: string -> Result<Response>, store: Store) returns (raised: Option<string>)
    requires Indexes(byKey, ledger.images)
    modifies ledger`images, result`outputFiles, result`errors
    ensures State(ledger, result, raised) == FileLines(old(State(ledger, result, None)), byKey, lines, parse, store)
  {
    ghost var start := State(ledger, result, None);
    raised := None;
    var n := 0;
    while n < |lines|
      invariant 0 <= n <= |lines| && raised.None?
      invariant Indexes(byKey, ledger.images)
      invariant State(ledger, result, raised) == FileLines(start, byKey, lines[..n], parse, store)
    {
      FileLinesPrefix(start, byKey, lines, parse, store, n);
      raised := ProcessFileLine(ledger, result, byKey, lines[n], n, parse, store);
      if raised.Some? {
        FileLinesStopAtRaise(start, byKey, lines, parse, store, n + 1);
        return;
      }
      n := n + 1;
    }
    assert lines[..|lines|] == lines;
  }

  /** `_download_and_process_file`: never raises; a failure becomes one "download" error entry. */
  method DownloadAndProcessFile(ledger: Ledger, result: JobResult, byKey: map<string, string>, fileName: string,
                                remote: Remote, store: Store)
    requires Indexes(byKey, ledger.images)
    modifies ledger`images, result`outputFiles, result`errors
    ensures State(ledger, result, None) == ProcessFile(old(State(ledger, result, None)), byKey, fileName, remote, store)
  {
    var raised: Option<string> := None;
    var content := remote.download(fileName);
    if content.Err? {
      raised := Some(content.msg);
    } else {
      var text := remote.utf8(content.value);
      if text.Err? {
        raised := Some(text.msg);
      } else {
        raised := ProcessFileLines(ledger, result, byKey, Split(Strip(text.value), '\n'), remote.parse, store);
      }
    }
    if raised.Some? {
      result.errors := result.errors + [ErrorEntry(DOWNLOAD_KEY, DownloadDiagnostic(raised.value, fileName))];
    }
  }
}
