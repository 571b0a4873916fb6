/**
 * The publish handler, `handle_publish_images`: captions for the staged images of every model the
 * gateway answered for, then the upload of captioned images to the CMS, their addition to the
 * product gallery, and the marking of the published source URLs in the results sheet.
 *
 * The Drive (`fileExists`, `download`), the description service (`describe`), the CMS
 * (`upload`, `gallery`) and the uuid drawn for each upload are parameters; `None` from any of
 * them stands for the exception the call raised.
 */
module Publish {
  import opened Wrappers
  import opened Strings
  import opened Models
  import opened Ledger
  import Sync
  import Sheets

  type Bytes = seq<bv8>

  /** Python truthiness of `download_file`'s `Optional[bytes]`. */
  predicate Downloaded(b: Option<Bytes>) {
    b.Some? && b.value != []
  }

  // ----- step 1: captions -----

  /** A gateway reply as the handler reads it: `content.model`, when present, and the product. */
  datatype ProductReply = ProductReply(model: Option<string>, product: Sync.ProductData)

  /** `content.get("model", "Unknown")` */
  function ReplyModel(r: ProductReply): string {
    r.model.GetOr("Unknown")
  }

  /** One generated description, a JSON object by its keys. */
  type Caption = map<string, string>

  /** `desc.get(key, "")` */
  function Field(d: Caption, key: string): string {
    if key in d then d[key] else ""
  }

  /** The row with the description's alt, title and caption written into it. */
  function Captioned(row: BatchJobImage, d: Caption): BatchJobImage {
    row.(alt := Some(Field(d, "alt")), title := Some(Field(d, "title")), description := Some(Field(d, "caption")))
  }

  /**
   * The captioning query for one model slug: succeeded, with a result file, unpublished, of that
   * model, and still missing a title or a description.
   */
  predicate NeedsCaption(row: BatchJobImage, slug: string, slugify: string -> string) {
    && row.status == SUCCEEDED && row.resultFile.Some? && !row.published
    && slugify(row.modelName) == slug
    && !(Truthy(row.title) && Truthy(row.description))
  }

  /** A candidate whose file is named, still on the Drive and downloads to non-empty bytes. */
  predicate Staged(row: BatchJobImage, fileExists: string -> bool, download: string -> Option<Bytes>) {
    Truthy(row.resultFile) && fileExists(row.resultFile.value) && Downloaded(download(row.resultFile.value))
  }

  /** The photos sent to the description service, with the row ids and file names at the same positions. */
  datatype Batch = Batch(ids: seq<string>, photos: seq<Bytes>, filenames: seq<string>)

  /** `f"{img.model_name}_{img.id}"` */
  function PhotoName(row: BatchJobImage, id: string): string {
    row.modelName + "_" + id
  }

  /** The staging loop over the rows of the table, in table order. */
  function StageRows(images: map<string, BatchJobImage>, ids: seq<string>, slug: string, slugify: string -> string,
                     fileExists: string -> bool, download: string -> Option<Bytes>): (b: Batch)
    requires forall id :: id in ids ==> id in images
    ensures |b.ids| <= |ids| && |b.photos| == |b.ids| && |b.filenames| == |b.ids|
    ensures forall i :: 0 <= i < |b.ids| ==> b.ids[i] in ids
    ensures forall i :: 0 <= i < |b.ids| ==>
              var row := images[b.ids[i]];
              && NeedsCaption(row, slug, slugify) && Staged(row, fileExists, download)
              && b.photos[i] == download(row.resultFile.value).value
              && b.filenames[i] == PhotoName(row, b.ids[i])
  {
    if ids == [] then Batch([], [], [])
    else
      var n := |ids| - 1;
      var b := StageRows(images, ids[..n], slug, slugify, fileExists, download);
      var id := ids[n];
      var row := images[id];
      if NeedsCaption(row, slug, slugify) && Staged(row, fileExists, download) then
        Batch(b.ids + [id], b.photos + [download(row.resultFile.value).value], b.filenames + [PhotoName(row, id)])
      else b
  }

  /** Every candidate that stages is sent, once, in table order. */
  lemma {:induction false} StageRowsComplete(images: map<string, BatchJobImage>, ids: seq<string>, slug: string,
                                             slugify: string -> string, fileExists: string -> bool,
                                             download: string -> Option<Bytes>, id: string)
    requires Distinct(ids) && forall x :: x in ids ==> x in images
    requires id in ids && NeedsCaption(images[id], slug, slugify) && Staged(images[id], fileExists, download)
    ensures id in StageRows(images, ids, slug, slugify, fileExists, download).ids
  {
    var n := |ids| - 1;
    if id != ids[n] {
      assert id in ids[..n];
      assert Distinct(ids[..n]);
      StageRowsComplete(images, ids[..n], slug, slugify, fileExists, download, id);
    }
  }

  /** The staged ids are distinct when the table's are. */
  lemma {:induction false} StageRowsDistinct(images: map<string, BatchJobImage>, ids: seq<string>, slug: string,
                                             slugify: string -> string, fileExists: string -> bool,
                                             download: string -> Option<Bytes>)
    requires Distinct(ids) && forall x :: x in ids ==> x in images
    ensures Distinct(StageRows(images, ids, slug, slugify, fileExists, download).ids)
  {
    if ids != [] {
      var n := |ids| - 1;
      assert Distinct(ids[..n]);
      StageRowsDistinct(images, ids[..n], slug, slugify, fileExists, download);
      var b := StageRows(images, ids[..n], slug, slugify, fileExists, download);
      assert forall i :: 0 <= i < |b.ids| ==> b.ids[i] in ids[..n];
      assert ids[n] !in ids[..n];
    }
  }

  /** The first `n` descriptions written into the first `n` staged rows, position by position. */
  function AssignFirst(images: map<string, BatchJobImage>, staged: seq<string>, descs: seq<Caption>, n: nat)
    : (r: map<string, BatchJobImage>)
    requires n <= |staged| && n <= |descs| && forall id :: id in staged ==> id in images
    ensures r.Keys == images.Keys
  {
    if n == 0 then images
    else
      var prev := AssignFirst(images, staged, descs, n - 1);
      prev[staged[n - 1] := Captioned(prev[staged[n - 1]], descs[n - 1])]
  }

  /**
   * Position `i` of the staged rows gets description `i`, for the first `n` positions; every other
   * row keeps what it had.
   */
  lemma {:induction false} AssignFirstMeaning(images: map<string, BatchJobImage>, staged: seq<string>,
                                              descs: seq<Caption>, n: nat, id: string)
    requires n <= |staged| && n <= |descs| && Distinct(staged) && forall x :: x in staged ==> x in images
    requires id in images
    ensures var r := AssignFirst(images, staged, descs, n);
            && (forall i :: 0 <= i < n && staged[i] == id ==> r[id] == Captioned(images[id], descs[i]))
            && (id !in staged[..n] ==> r[id] == images[id])
  {
    if n > 0 {
      AssignFirstMeaning(images, staged, descs, n - 1, id);
      if id == staged[n - 1] {
        assert id !in staged[..n - 1];
        var prev := AssignFirst(images, staged, descs, n - 1);
        assert Captioned(prev[id], descs[n - 1]) == Captioned(images[id], descs[n - 1]);
      } else {
        assert id !in staged[..n] ==> id !in staged[..n - 1];
      }
    }
  }

  function Min(a: nat, b: nat): nat {
    if a < b then a else b
  }

  /** The ledger rows and `descriptions_generated` while the handler walks the replies. */
  datatype CaptionState = CaptionState(images: map<string, BatchJobImage>, generated: nat)

  /**
   * One reply: stage the model's rows; with nothing staged, or when the description service
   * raises, nothing changes; otherwise the descriptions are written positionally and counted.
   */
  function CaptionModel(st: CaptionState, ids: seq<string>, reply: ProductReply, slugify: string -> string,
                        fileExists: string -> bool, download: string -> Option<Bytes>,
                        describe: (seq<Bytes>, string, seq<string>) -> Option<seq<Caption>>): (r: CaptionState)
    requires forall id :: id in ids ==> id in st.images
    ensures r.images.Keys == st.images.Keys
  {
    var b := StageRows(st.images, ids, slugify(ReplyModel(reply)), slugify, fileExists, download);
    if b.ids == [] then st
    else
      var descs := describe(b.photos, Sync.ProductMarkdown(reply.product), b.filenames);
      if descs.None? then st
      else
        var n := Min(|descs.value|, |b.ids|);
        CaptionState(AssignFirst(st.images, b.ids, descs.value, n), st.generated + n)
  }

  /** The handler's loop over the replies, in order. */
  function CaptionAll(st: CaptionState, ids: seq<string>, replies: seq<ProductReply>, slugify: string -> string,
                      fileExists: string -> bool, download: string -> Option<Bytes>,
                      describe: (seq<Bytes>, string, seq<string>) -> Option<seq<Caption>>): (r: CaptionState)
    requires forall id :: id in ids ==> id in st.images
    ensures r.images.Keys == st.images.Keys
  {
    if replies == [] then st
    else
      var n := |replies| - 1;
      var prev := CaptionAll(st, ids, replies[..n], slugify, fileExists, download, describe);
      CaptionModel(prev, ids, replies[n], slugify, fileExists, download, describe)
  }

  /**
   * How a row may change in the captioning step: not at all, or, when it was a succeeded,
   * staged, unpublished row lacking a title or a description, in its alt, title and description
   * only, which are then set.
   */
  predicate CaptionOnly(before: BatchJobImage, after: BatchJobImage) {
    || after == before
    || (&& before.status == SUCCEEDED && Truthy(before.resultFile) && !before.published
        && !(Truthy(before.title) && Truthy(before.description))
        && after == before.(alt := after.alt, title := after.title, description := after.description)
        && after.alt.Some? && after.title.Some? && after.description.Some?)
  }

  lemma CaptionOnlyTransitive(a: BatchJobImage, b: BatchJobImage, c: BatchJobImage)
    requires CaptionOnly(a, b) && CaptionOnly(b, c)
    ensures CaptionOnly(a, c)
  {
  }

  /**
   * One reply touches only rows of its own model that still lacked a caption and were staged, and
   * gives the `i`-th staged row the `i`-th description; the counter grows by the number written.
   */
  lemma CaptionModelMeaning(st: CaptionState, ids: seq<string>, reply: ProductReply, slugify: string -> string,
                            fileExists: string -> bool, download: string -> Option<Bytes>,
                            describe: (seq<Bytes>, string, seq<string>) -> Option<seq<Caption>>, id: string)
    requires Distinct(ids) && forall x :: x in ids ==> x in st.images
    requires id in st.images
    ensures var r := CaptionModel(st, ids, reply, slugify, fileExists, download, describe);
            var row := st.images[id];
            && (r.images[id] != row ==>
                  && id in ids && NeedsCaption(row, slugify(ReplyModel(reply)), slugify)
                  && Staged(row, fileExists, download)
                  && exists d :: r.images[id] == Captioned(row, d))
            && r.generated - st.generated <= |ids|
  {
    var slug := slugify(ReplyModel(reply));
    var b := StageRows(st.images, ids, slug, slugify, fileExists, download);
    StageRowsDistinct(st.images, ids, slug, slugify, fileExists, download);
    if b.ids != [] {
      var descs := describe(b.photos, Sync.ProductMarkdown(reply.product), b.filenames);
      if descs.Some? {
        var n := Min(|descs.value|, |b.ids|);
        AssignFirstMeaning(st.images, b.ids, descs.value, n, id);
        if id in b.ids[..n] {
          var i :| 0 <= i < n && b.ids[..n][i] == id;
          assert b.ids[i] == id;
        }
      }
    }
  }

  /**
   * For one reply that staged some photos and got descriptions back, the `i`-th staged row gets the
   * `i`-th description while there are descriptions; staged rows past the last description keep
   * what they had, extra descriptions are ignored, and the counter grows by the number written.
   */
  lemma CaptionModelPositional(st: CaptionState, ids: seq<string>, reply: ProductReply, slugify: string -> string,
                               fileExists: string -> bool, download: string -> Option<Bytes>,
                               describe: (seq<Bytes>, string, seq<string>) -> Option<seq<Caption>>)
    requires Distinct(ids) && forall x :: x in ids ==> x in st.images
    ensures var b := StageRows(st.images, ids, slugify(ReplyModel(reply)), slugify, fileExists, download);
            var descs := describe(b.photos, Sync.ProductMarkdown(reply.product), b.filenames);
            var r := CaptionModel(st, ids, reply, slugify, fileExists, download, describe);
            b.ids != [] && descs.Some? ==>
              && r.generated == st.generated + Min(|descs.value|, |b.ids|)
              && forall i :: 0 <= i < |b.ids| ==>
                   r.images[b.ids[i]] == if i < |descs.value| then Captioned(st.images[b.ids[i]], descs.value[i])
                                         else st.images[b.ids[i]]
  {
    var b := StageRows(st.images, ids, slugify(ReplyModel(reply)), slugify, fileExists, download);
    var descs := describe(b.photos, Sync.ProductMarkdown(reply.product), b.filenames);
    if b.ids != [] && descs.Some? {
      StageRowsDistinct(st.images, ids, slugify(ReplyModel(reply)), slugify, fileExists, download);
      AssignPositional(st.images, b.ids, descs.value);
    }
  }

  /** All of the positional assignment at once: description `i` to row `i`, the rest untouched. */
  lemma AssignPositional(images: map<string, BatchJobImage>, staged: seq<string>, descs: seq<Caption>)
    requires Distinct(staged) && forall x :: x in staged ==> x in images
    ensures var r := AssignFirst(images, staged, descs, Min(|descs|, |staged|));
            forall i :: 0 <= i < |staged| ==>
              r[staged[i]] == if i < |descs| then Captioned(images[staged[i]], descs[i]) else images[staged[i]]
  {
    var n := Min(|descs|, |staged|);
    forall i | 0 <= i < |staged|
      ensures AssignFirst(images, staged, descs, n)[staged[i]]
              == if i < |descs| then Captioned(images[staged[i]], descs[i]) else images[staged[i]]
    {
      AssignFirstMeaning(images, staged, descs, n, staged[i]);
      if i >= n {
        assert staged[i] !in staged[..n];
      }
    }
  }


  /**
   * Over all replies, every row either stays as it was or is a succeeded, staged, unpublished row
   * that lacked a title or a description and changed only in its captions: rows that already had
   * both are never captioned again, and status, files and publication are never touched.
   */
  lemma {:induction false} CaptionAllOnlyCaptions(st: CaptionState, ids: seq<string>, replies: seq<ProductReply>,
                                                  slugify: string -> string, fileExists: string -> bool,
                                                  download: string -> Option<Bytes>,
                                                  describe: (seq<Bytes>, string, seq<string>) -> Option<seq<Caption>>,
                                                  id: string)
    requires Distinct(ids) && forall x :: x in ids ==> x in st.images
    requires id in st.images
    ensures CaptionOnly(st.images[id], CaptionAll(st, ids, replies, slugify, fileExists, download, describe).images[id])
  {
    if replies != [] {
      var n := |replies| - 1;
      CaptionAllOnlyCaptions(st, ids, replies[..n], slugify, fileExists, download, describe, id);
      var prev := CaptionAll(st, ids, replies[..n], slugify, fileExists, download, describe);
      CaptionModelMeaning(prev, ids, replies[n], slugify, fileExists, download, describe, id);
      var r := CaptionModel(prev, ids, replies[n], slugify, fileExists, download, describe);
      assert r == CaptionAll(st, ids, replies, slugify, fileExists, download, describe);
      assert CaptionOnly(prev.images[id], r.images[id]);
      CaptionOnlyTransitive(st.images[id], prev.images[id], r.images[id]);
    }
  }

  /** The staging loop for one model: the rows without captions whose file is there and downloads. */
  method StagePhotos(images: map<string, BatchJobImage>, ids: seq<string>, slug: string, slugify: string -> string,
                     fileExists: string -> bool, download: string -> Option<Bytes>) returns (b: Batch)
    requires forall id :: id in ids ==> id in images
    ensures b == StageRows(images, ids, slug, slugify, fileExists, download)
  {
    var staged, photos, filenames := [], [], [];
    for i := 0 to |ids|
      invariant Batch(staged, photos, filenames) == StageRows(images, ids[..i], slug, slugify, fileExists, download)
    {
      assert ids[..i + 1][..i] == ids[..i];
      var row := images[ids[i]];
      if NeedsCaption(row, slug, slugify) && Truthy(row.resultFile) && fileExists(row.resultFile.value) {
        var bytes := download(row.resultFile.value);
        if Downloaded(bytes) {
          staged, photos, filenames := staged + [ids[i]], photos + [bytes.value], filenames + [PhotoName(row, ids[i])];
        }
      }
    }
    assert ids[..|ids|] == ids;
    b := Batch(staged, photos, filenames);
  }

  /** The positional assignment: description `i` to staged row `i`, stopping at the shorter list. */
  method WriteDescriptions(images: map<string, BatchJobImage>, staged: seq<string>, descs: seq<Caption>)
    returns (r: map<string, BatchJobImage>, n: nat)
    requires forall id :: id in staged ==> id in images
    ensures n == Min(|descs|, |staged|) && r == AssignFirst(images, staged, descs, n)
  {
    r := images;
    var i := 0;
    while i < |descs|
      invariant i <= |descs| && i <= |staged|
      invariant r == AssignFirst(images, staged, descs, i)
    {
      if i >= |staged| {
        break;
      }
      var id := staged[i];
      r := r[id := Captioned(r[id], descs[i])];
      i := i + 1;
    }
    n := i;
  }

  /** The loop over the replies, on the rows as the handler's sessions see them. */
  method CaptionReplies(orig: map<string, BatchJobImage>, ids: seq<string>, replies: seq<ProductReply>,
                        slugify: string -> string, fileExists: string -> bool, download: string -> Option<Bytes>,
                        describe: (seq<Bytes>, string, seq<string>) -> Option<seq<Caption>>)
    returns (st: CaptionState)
    requires forall id :: id in ids ==> id in orig
    ensures st == CaptionAll(CaptionState(orig, 0), ids, replies, slugify, fileExists, download, describe)
  {
    st := CaptionState(orig, 0);
    for k := 0 to |replies|
      invariant st == CaptionAll(CaptionState(orig, 0), ids, replies[..k], slugify, fileExists, download, describe)
    {
      assert replies[..k + 1][..k] == replies[..k];
      var reply := replies[k];
      var b := StagePhotos(st.images, ids, slugify(ReplyModel(reply)), slugify, fileExists, download);
      if b.ids != [] {
        var descs := describe(b.photos, Sync.ProductMarkdown(reply.product), b.filenames);
        if descs.Some? {
          var images, n := WriteDescriptions(st.images, b.ids, descs.value);
          st := CaptionState(images, st.generated + n);
        }
      }
    }
    assert replies[..|replies|] == replies;
  }

  /** Step 1 of the handler: captions for every reply, committed to the image table. */
  method GenerateDescriptions(ledger: Ledger, replies: seq<ProductReply>, slugify: string -> string,
                              fileExists: string -> bool, download: string -> Option<Bytes>,
                              describe: (seq<Bytes>, string, seq<string>) -> Option<seq<Caption>>)
    returns (generated: nat)
    requires ledger.Valid()
    modifies ledger`images
    ensures ledger.Valid()
    ensures var r := CaptionAll(CaptionState(old(ledger.images), 0), ledger.imageIds, replies, slugify, fileExists,
                                download, describe);
            ledger.images == r.images && generated == r.generated
  {
    var st := CaptionReplies(ledger.images, ledger.imageIds, replies, slugify, fileExists, download, describe);
    SameKeysKeepsTable(ledger.images, st.images, ledger.imageIds);
    ledger.images := st.images;
    generated := st.generated;
  }

  // ----- step 2: publishing -----

  /** The publish query: succeeded, with a result file, a title and a description, unpublished. */
  predicate PublishCandidate(row: BatchJobImage) {
    row.status == SUCCEEDED && row.resultFile.Some? && row.title.Some? && row.description.Some? && !row.published
  }

  /** The rows the publish query returns, in table order. */
  function Candidates(images: map<string, BatchJobImage>, ids: seq<string>): (r: seq<string>)
    requires forall id :: id in ids ==> id in images
    ensures |r| <= |ids|
    ensures forall i :: 0 <= i < |r| ==> r[i] in ids && PublishCandidate(images[r[i]])
  {
    if ids == [] then []
    else
      var n := |ids| - 1;
      Candidates(images, ids[..n]) + if PublishCandidate(images[ids[n]]) then [ids[n]] else []
  }

  /** Every row the query matches is among the candidates, and each appears once. */
  lemma {:induction false} CandidatesComplete(images: map<string, BatchJobImage>, ids: seq<string>)
    requires Distinct(ids) && forall x :: x in ids ==> x in images
    ensures Distinct(Candidates(images, ids))
    ensures forall id :: id in ids && PublishCandidate(images[id]) ==> id in Candidates(images, ids)
  {
    if ids != [] {
      var n := |ids| - 1;
      assert Distinct(ids[..n]);
      CandidatesComplete(images, ids[..n]);
      var prev := Candidates(images, ids[..n]);
      assert forall i :: 0 <= i < |prev| ==> prev[i] in ids[..n];
      assert ids[n] !in ids[..n];
      forall id | id in ids && PublishCandidate(images[id])
        ensures id in Candidates(images, ids)
      {
        if id != ids[n] {
          assert id in ids[..n];
        }
      }
    }
  }

  /** A captioned row is a publish candidate exactly when the captioning query would skip it for good. */
  lemma CaptionedIsCandidate(row: BatchJobImage, d: Caption)
    requires row.status == SUCCEEDED && row.resultFile.Some? && !row.published
    ensures PublishCandidate(Captioned(row, d))
  {
  }

  const UNTITLED := "Изображение без названия"

  /** The arguments of `upload_image`. */
  datatype UploadRequest = UploadRequest(data: Bytes, filename: string, title: string, description: Option<string>,
                                         caption: Option<string>, collectionPath: Option<string>)

  function UploadOf(row: BatchJobImage, data: Bytes, slugify: string -> string, uuid: string): UploadRequest {
    UploadRequest(data, CmsFilename(row, slugify, uuid), if Truthy(row.title) then row.title.value else UNTITLED,
                  row.description, row.alt, CollectionPath(row.pageUrl))
  }

  /**
   * The publish loop's state: the table as committed, `published_count`, `error_count`,
   * `published_urls`, and, for the record, the rows uploaded and the Drive files deleted.
   */
  datatype PublishState = PublishState(images: map<string, BatchJobImage>, published: nat, errors: nat,
                                       urls: seq<string>, uploads: seq<string>, deletes: seq<string>)

  /** The external services of the publish step. */
  datatype Services = Services(slugify: string -> string, uuid: string -> string, download: string -> Option<Bytes>,
                               upload: UploadRequest -> Option<int>, gallery: (string, int) -> Option<bool>)

  /**
   * The CMS id of a row: the stored one, parsed; or, when there is none, an upload of the
   * downloaded file, whose id is committed to the row at once. `None` is a failure of either.
   */
  function ObtainCmsId(st: PublishState, id: string, sv: Services): (PublishState, Option<int>)
    requires id in st.images
  {
    var row := st.images[id];
    if Truthy(row.imageCmsId) then (st, ParseInt(row.imageCmsId.value))
    else if !Truthy(row.resultFile) then (st, None)
    else
      var bytes := sv.download(row.resultFile.value);
      if !Downloaded(bytes) then (st, None)
      else
        var st1 := st.(uploads := st.uploads + [id]);
        var cms := sv.upload(UploadOf(row, bytes.value, sv.slugify, sv.uuid(id)));
        if cms.None? then (st1, None)
        else (st1.(images := st1.images[id := row.(imageCmsId := Some(IntToString(cms.value)))]), cms)
  }

  /** A gallery success: the row is published, counted, its Drive file deleted and its source URL kept. */
  function MarkPublished(st: PublishState, id: string): PublishState
    requires id in st.images
  {
    var row := st.images[id];
    st.(images := st.images[id := row.(published := true)], published := st.published + 1,
        deletes := st.deletes + (if Truthy(row.resultFile) then [row.resultFile.value] else []),
        urls := st.urls + (if Truthy(row.sourceUrl) then [row.sourceUrl.value] else []))
  }

  /** One image of the publish loop. */
  function PublishOne(st: PublishState, id: string, sv: Services): (r: PublishState)
    requires id in st.images
    ensures r.images.Keys == st.images.Keys
  {
    var (st1, cms) := ObtainCmsId(st, id, sv);
    if cms.None? then st1.(errors := st1.errors + 1)
    else
      var row := st1.images[id];
      if !Truthy(row.pageUrl) then st1
      else
        var added := sv.gallery(row.pageUrl.value, cms.value);
        if added.None? then st1.(errors := st1.errors + 1)
        else if added.value then MarkPublished(st1, id)
        else st1
  }

  /** The publish loop over the candidates, in order. */
  function PublishAll(st: PublishState, ids: seq<string>, sv: Services): (r: PublishState)
    requires forall id :: id in ids ==> id in st.images
    ensures r.images.Keys == st.images.Keys
  {
    if ids == [] then st
    else
      var n := |ids| - 1;
      PublishOne(PublishAll(st, ids[..n], sv), ids[n], sv)
  }

  /** Step 2 from the table as it stands: the candidates, then the loop over them from zero counters. */
  function PublishRun(images: map<string, BatchJobImage>, ids: seq<string>, sv: Services): PublishState
    requires forall id :: id in ids ==> id in images
  {
    PublishAll(PublishState(images, 0, 0, [], [], []), Candidates(images, ids), sv)
  }

  /**
   * How the publish step may change a row: only in its CMS id and its published flag; a stored
   * CMS id is kept; and the row becomes published only by a gallery call that succeeded for its
   * page URL.
   */
  ghost predicate PublishOnly(before: BatchJobImage, after: BatchJobImage, gallery: (string, int) -> Option<bool>) {
    && after == before.(imageCmsId := after.imageCmsId, published := after.published)
    && (Truthy(before.imageCmsId) ==> after.imageCmsId == before.imageCmsId)
    && (after.published && !before.published ==>
          Truthy(before.pageUrl) && exists n :: gallery(before.pageUrl.value, n) == Some(true))
  }

  /** One image: only its own row changes, and only as `PublishOnly` allows. */
  lemma PublishOneRows(st: PublishState, id: string, sv: Services)
    requires id in st.images
    ensures var r := PublishOne(st, id, sv);
            && (forall x :: x in st.images && x != id ==> r.images[x] == st.images[x])
            && PublishOnly(st.images[id], r.images[id], sv.gallery)
  {
    var (st1, cms) := ObtainCmsId(st, id, sv);
    if cms.Some? && Truthy(st1.images[id].pageUrl) {
      var added := sv.gallery(st1.images[id].pageUrl.value, cms.value);
      if added == Some(true) {
        assert sv.gallery(st.images[id].pageUrl.value, cms.value) == Some(true);
      }
    }
  }

  /**
   * One unpublished image: it is uploaded only when it had no CMS id; it adds one to
   * `published_count` exactly when it became published, at most one to `error_count` and never
   * both; and its source URL is kept exactly when it became published.
   */
  lemma PublishOneCounters(st: PublishState, id: string, sv: Services)
    requires id in st.images && !st.images[id].published
    ensures var r, row := PublishOne(st, id, sv), st.images[id];
            && (r.uploads == st.uploads || (r.uploads == st.uploads + [id] && !Truthy(row.imageCmsId)))
            && r.published == st.published + (if r.images[id].published then 1 else 0)
            && st.errors <= r.errors <= st.errors + 1
            && (r.images[id].published ==> r.errors == st.errors)
            && r.urls == st.urls + (if r.images[id].published && Truthy(row.sourceUrl) then [row.sourceUrl.value] else [])
  {
  }

  /**
   * The CMS id is committed before the gallery call: after a successful upload the row carries
   * the new id whatever the gallery answered, and any later pass over that row reuses the id
   * without uploading again.
   */
  lemma UploadCommitted(st: PublishState, id: string, sv: Services, later: PublishState)
    requires id in st.images
    requires var row := st.images[id];
             && !Truthy(row.imageCmsId) && Truthy(row.resultFile) && Downloaded(sv.download(row.resultFile.value))
             && sv.upload(UploadOf(row, sv.download(row.resultFile.value).value, sv.slugify, sv.uuid(id))).Some?
    requires id in later.images && later.images[id] == PublishOne(st, id, sv).images[id]
    ensures var row := st.images[id];
            var n := sv.upload(UploadOf(row, sv.download(row.resultFile.value).value, sv.slugify, sv.uuid(id))).value;
            && PublishOne(st, id, sv).images[id].imageCmsId == Some(IntToString(n))
            && ObtainCmsId(later, id, sv) == (later, Some(n))
  {
    var row := st.images[id];
    var n := sv.upload(UploadOf(row, sv.download(row.resultFile.value).value, sv.slugify, sv.uuid(id))).value;
    ParseIntToString(n);
    assert IntToString(n) != "";
  }

  /**
   * A row without a page URL is never published, and costs an error exactly when its CMS id
   * could not be obtained: a missing page URL is not itself an error.
   */
  lemma NoPageUrlIsNoError(st: PublishState, id: string, sv: Services)
    requires id in st.images && !st.images[id].published && !Truthy(st.images[id].pageUrl)
    ensures var r := PublishOne(st, id, sv);
            && !r.images[id].published && r.published == st.published && r.urls == st.urls
            && (r.errors == st.errors <==> ObtainCmsId(st, id, sv).1.Some?)
  {
  }

  /** The number of rows among `ids` that are published. */
  function PublishedCount(images: map<string, BatchJobImage>, ids: seq<string>): nat
    requires forall id :: id in ids ==> id in images
  {
    if ids == [] then 0
    else
      var n := |ids| - 1;
      PublishedCount(images, ids[..n]) + if images[ids[n]].published then 1 else 0
  }

  /** The source URLs of the published rows among `ids`, in order. */
  function PublishedUrls(images: map<string, BatchJobImage>, ids: seq<string>): seq<string>
    requires forall id :: id in ids ==> id in images
  {
    if ids == [] then []
    else
      var n := |ids| - 1;
      var row := images[ids[n]];
      PublishedUrls(images, ids[..n]) + if row.published && Truthy(row.sourceUrl) then [row.sourceUrl.value] else []
  }

  /** Both folds read only the rows of `ids`. */
  lemma {:induction false} PublishedFrame(a: map<string, BatchJobImage>, b: map<string, BatchJobImage>, ids: seq<string>)
    requires forall id :: id in ids ==> id in a && id in b && a[id] == b[id]
    ensures PublishedCount(a, ids) == PublishedCount(b, ids) && PublishedUrls(a, ids) == PublishedUrls(b, ids)
  {
    if ids != [] {
      PublishedFrame(a, b, ids[..|ids| - 1]);
    }
  }

  /** Over distinct ids, the loop changes each row of `ids` as `PublishOnly` allows and no other row. */
  lemma {:induction false} PublishAllRow(st: PublishState, ids: seq<string>, sv: Services, x: string)
    requires Distinct(ids) && (forall id :: id in ids ==> id in st.images && !st.images[id].published)
    requires x in st.images
    ensures var r := PublishAll(st, ids, sv);
            && (x !in ids ==> r.images[x] == st.images[x])
            && PublishOnly(st.images[x], r.images[x], sv.gallery)
  {
    if ids != [] {
      var n := |ids| - 1;
      assert Distinct(ids[..n]);
      PublishAllRow(st, ids[..n], sv, x);
      var prev := PublishAll(st, ids[..n], sv);
      if x == ids[n] {
        assert x !in ids[..n];
      }
      PublishAllRow(st, ids[..n], sv, ids[n]);
      assert ids[n] !in ids[..n];
      PublishOneRows(prev, ids[n], sv);
    }
  }

  /**
   * Over distinct, unpublished ids, the loop counts exactly the rows it published, keeps exactly
   * their source URLs, in order, and charges at most one publication or error per row.
   */
  lemma {:induction false} PublishAllCounts(st: PublishState, ids: seq<string>, sv: Services)
    requires Distinct(ids) && (forall id :: id in ids ==> id in st.images && !st.images[id].published)
    ensures var r := PublishAll(st, ids, sv);
            && r.published == st.published + PublishedCount(r.images, ids)
            && r.urls == st.urls + PublishedUrls(r.images, ids)
            && r.published + r.errors <= st.published + st.errors + |ids|
  {
    if ids != [] {
      var n := |ids| - 1;
      var id := ids[n];
      assert Distinct(ids[..n]);
      PublishAllCounts(st, ids[..n], sv);
      var prev := PublishAll(st, ids[..n], sv);
      var r := PublishOne(prev, id, sv);
      assert id !in ids[..n];
      PublishAllRow(st, ids[..n], sv, id);
      PublishOneCounters(prev, id, sv);
      PublishOneRows(prev, id, sv);
      PublishedFrame(prev.images, r.images, ids[..n]);
    }
  }

  /** Over distinct, unpublished ids, the loop uploads only rows that had no CMS id to begin with. */
  lemma {:induction false} PublishAllUploads(st: PublishState, ids: seq<string>, sv: Services)
    requires Distinct(ids) && (forall id :: id in ids ==> id in st.images && !st.images[id].published)
    ensures var r := PublishAll(st, ids, sv);
            && |r.uploads| >= |st.uploads| && r.uploads[..|st.uploads|] == st.uploads
            && (forall i :: |st.uploads| <= i < |r.uploads| ==> r.uploads[i] in ids && !Truthy(st.images[r.uploads[i]].imageCmsId))
  {
    if ids != [] {
      var n := |ids| - 1;
      var id := ids[n];
      assert Distinct(ids[..n]);
      PublishAllUploads(st, ids[..n], sv);
      var prev := PublishAll(st, ids[..n], sv);
      assert id !in ids[..n];
      PublishAllRow(st, ids[..n], sv, id);
      PublishOneCounters(prev, id, sv);
    }
  }

  /**
   * Step 2 over the whole table, row by row: only the candidates of the publish query change,
   * and each only as `PublishOnly` allows.
   */
  lemma PublishRunRows(images: map<string, BatchJobImage>, ids: seq<string>, sv: Services, x: string)
    requires ImageTable(images, ids) && x in images
    ensures var r := PublishRun(images, ids, sv);
            && (!PublishCandidate(images[x]) ==> r.images[x] == images[x])
            && PublishOnly(images[x], r.images[x], sv.gallery)
  {
    var c := Candidates(images, ids);
    CandidatesComplete(images, ids);
    assert !PublishCandidate(images[x]) ==> x !in c;
    PublishAllRow(PublishState(images, 0, 0, [], [], []), c, sv, x);
  }

  /**
   * Step 2's counters: `published_count` is the number of candidates now published, the URLs
   * passed on are exactly their source URLs, no candidate is charged twice, and only candidates
   * without a CMS id are uploaded.
   */
  lemma PublishRunCounts(images: map<string, BatchJobImage>, ids: seq<string>, sv: Services)
    requires ImageTable(images, ids)
    ensures var c, r := Candidates(images, ids), PublishRun(images, ids, sv);
            && r.published == PublishedCount(r.images, c)
            && r.urls == PublishedUrls(r.images, c)
            && r.published + r.errors <= |c|
            && (forall i :: 0 <= i < |r.uploads| ==>
                  && r.uploads[i] in images
                  && PublishCandidate(images[r.uploads[i]]) && !Truthy(images[r.uploads[i]].imageCmsId))
  {
    var c := Candidates(images, ids);
    CandidatesComplete(images, ids);
    PublishAllCounts(PublishState(images, 0, 0, [], [], []), c, sv);
    PublishAllUploads(PublishState(images, 0, 0, [], [], []), c, sv);
  }

  /** The body of the publish loop for one image. */
  method PublishImage(st: PublishState, id: string, sv: Services) returns (r: PublishState)
    requires id in st.images
    ensures r == PublishOne(st, id, sv)
  {
    r := st;
    var row := st.images[id];
    var cms: Option<int>;
    if Truthy(row.imageCmsId) {
      cms := ParseInt(row.imageCmsId.value);
    } else if !Truthy(row.resultFile) {
      cms := None;
    } else {
      var bytes := sv.download(row.resultFile.value);
      if !Downloaded(bytes) {
        cms := None;
      } else {
        r := r.(uploads := r.uploads + [id]);
        cms := sv.upload(UploadOf(row, bytes.value, sv.slugify, sv.uuid(id)));
        if cms.Some? {
          row := row.(imageCmsId := Some(IntToString(cms.value)));
          r := r.(images := r.images[id := row]);
        }
      }
    }
    if cms.None? {
      r := r.(errors := r.errors + 1);
      return;
    }
    if !Truthy(row.pageUrl) {
      return;
    }
    var added := sv.gallery(row.pageUrl.value, cms.value);
    if added.None? {
      r := r.(errors := r.errors + 1);
    } else if added.value {
      r := r.(images := r.images[id := row.(published := true)], published := r.published + 1);
      if Truthy(row.resultFile) {
        r := r.(deletes := r.deletes + [row.resultFile.value]);
      }
      if Truthy(row.sourceUrl) {
        r := r.(urls := r.urls + [row.sourceUrl.value]);
      }
    }
  }

  /** The publish loop over the candidates. */
  method PublishLoop(orig: map<string, BatchJobImage>, candidates: seq<string>, sv: Services) returns (st: PublishState)
    requires forall id :: id in candidates ==> id in orig
    ensures st == PublishAll(PublishState(orig, 0, 0, [], [], []), candidates, sv)
  {
    st := PublishState(orig, 0, 0, [], [], []);
    for i := 0 to |candidates|
      invariant st == PublishAll(PublishState(orig, 0, 0, [], [], []), candidates[..i], sv)
    {
      assert candidates[..i + 1][..i] == candidates[..i];
      st := PublishImage(st, candidates[i], sv);
    }
    assert candidates[..|candidates|] == candidates;
  }

  /**
   * Step 2 of the handler, with the sheet update: the publish loop over the candidates, then, when
   * any source URL was collected, those URLs marked done in the results sheet.
   */
  method PublishImages(ledger: Ledger, sheet: Sheets.Worksheet, sv: Services) returns (published: nat, errors: nat)
    requires ledger.Valid()
    modifies ledger`images, sheet
    ensures ledger.Valid()
    ensures var r := PublishRun(old(ledger.images), ledger.imageIds, sv);
            && ledger.images == r.images && published == r.published && errors == r.errors
            && sheet.rows == if r.urls == [] then old(sheet.rows) else Sheets.MarkAll(old(sheet.rows), set u | u in r.urls)
  {
    var candidates := Candidates(ledger.images, ledger.imageIds);
    if candidates == [] {
      return 0, 0;
    }
    var st := PublishLoop(ledger.images, candidates, sv);
    SameKeysKeepsTable(ledger.images, st.images, ledger.imageIds);
    ledger.images := st.images;
    published, errors := st.published, st.errors;
    if st.urls != [] {
      var _ := Sheets.MarkImagesAsDone(sheet, st.urls);
    }
  }

  /**
   * `handle_publish_images` after the sync: captions first, then publishing from the captioned
   * table, so rows captioned in this run can be published in the same run.
   */
  method HandlePublishImages(ledger: Ledger, sheet: Sheets.Worksheet, replies: seq<ProductReply>,
                             fileExists: string -> bool,
                             describe: (seq<Bytes>, string, seq<string>) -> Option<seq<Caption>>, sv: Services)
    returns (generated: nat, published: nat, errors: nat)
    requires ledger.Valid()
    modifies ledger`images, sheet
    ensures ledger.Valid()
    ensures var captioned := CaptionAll(CaptionState(old(ledger.images), 0), ledger.imageIds, replies, sv.slugify,
                                        fileExists, sv.download, describe);
            var r := PublishRun(captioned.images, ledger.imageIds, sv);
            && generated == captioned.generated
            && ledger.images == r.images && published == r.published && errors == r.errors
            && sheet.rows == if r.urls == [] then old(sheet.rows) else Sheets.MarkAll(old(sheet.rows), set u | u in r.urls)
  {
    generated := GenerateDescriptions(ledger, replies, sv.slugify, fileExists, sv.download, describe);
    published, errors := PublishImages(ledger, sheet, sv);
  }
}
