/**
 * The two ledger tables, `BatchJob` and `BatchJobImage`, as records, with their column defaults,
 * and the three naming helpers of `BatchJobImage`: the staged output file name, the
 * publish-facing file name and the collection path derived from the page URL.
 *
 * `slugify` and `uuid4` are library calls: the slug is passed in as a function and the
 * uuid as the string `str(uuid4())` the call produced.
 */
module Models {
  import opened Wrappers
  import opened Strings

  // Status strings written by the code (the columns are plain strings, not an enumeration).
  const PENDING := "PENDING"
  const RUNNING := "RUNNING"
  const SUCCEEDED := "SUCCEEDED"
  const FAILED := "FAILED"
  const CANCELLED := "CANCELLED"
  const DELETED := "DELETED"

  /** A row of `batch_jobs`; timestamps are plain integers supplied by the caller's clock. */
  datatype BatchJob = BatchJob(
    id: string,
    jobName: string,
    sourceImageNames: seq<string>,
    jsonlFileName: string,
    originalImagePaths: seq<string>,
    model: string,
    createdAt: int,
    status: string,
    completedAt: Option<int>,
    resultFile: Option<string>,
    errorMessage: Option<string>)

  /** A row of `batch_job_images`. */
  datatype BatchJobImage = BatchJobImage(
    id: string,
    batchJobId: string,
    requestKey: string,
    sourceImageName: string,
    originalImagePath: string,
    sourceUrl: Option<string>,
    modelName: string,
    orderNumber: string,
    position: int,
    pageUrl: Option<string>,
    status: string,
    resultFile: Option<string>,
    errorMessage: Option<string>,
    alt: Option<string>,
    title: Option<string>,
    description: Option<string>,
    imageCmsId: Option<string>,
    published: bool,
    prompt: Option<string>)

  /** A new `BatchJob` row: the columns the caller does not give take their defaults. */
  function NewBatchJob(id: string, jobName: string, sourceImageNames: seq<string>, jsonlFileName: string,
                       originalImagePaths: seq<string>, model: string, now: int): (j: BatchJob)
    ensures j.status == PENDING && j.createdAt == now
    ensures j.completedAt == None && j.resultFile == None && j.errorMessage == None
  {
    BatchJob(id, jobName, sourceImageNames, jsonlFileName, originalImagePaths, model, now,
             PENDING, None, None, None)
  }

  /** A new `BatchJobImage` row: status PENDING, nothing staged, captioned or published. */
  function NewBatchJobImage(id: string, batchJobId: string, requestKey: string, sourceImageName: string,
                            originalImagePath: string, sourceUrl: string, modelName: string,
                            orderNumber: string, position: int, pageUrl: string, prompt: string): (img: BatchJobImage)
    ensures img.status == PENDING && !img.published
    ensures img.resultFile == None && img.errorMessage == None && img.imageCmsId == None
    ensures img.alt == None && img.title == None && img.description == None
  {
    BatchJobImage(id, batchJobId, requestKey, sourceImageName, originalImagePath, Some(sourceUrl),
                  modelName, orderNumber, position, Some(pageUrl), PENDING, None, None,
                  None, None, None, None, false, Some(prompt))
  }

  /** Python truthiness of an optional string: present and non-empty. */
  predicate Truthy(s: Option<string>) {
    s.Some? && s.value != ""
  }

  // ----- names -----

  predicate IsHexDigit(c: char) {
    ('0' <= c <= '9') || ('a' <= c <= 'f')
  }

  /** The canonical text form of a uuid: 8-4-4-4-12 lower-case hex digits. */
  predicate IsCanonicalUuid(u: string) {
    && |u| == 36
    && (forall i :: 0 <= i < 36 ==> (u[i] == '-' <==> i in {8, 13, 18, 23}))
    && (forall i :: 0 <= i < 36 && u[i] != '-' ==> IsHexDigit(u[i]))
  }

  /** `str(uuid4()).split("-")[0]` */
  function UuidShort(u: string): string {
    Split(u, '-')[0]
  }

  /** For a canonical uuid the short form is its first 8 hex digits. */
  lemma UuidShortOfCanonical(u: string)
    requires IsCanonicalUuid(u)
    ensures UuidShort(u) == u[..8] && |UuidShort(u)| == 8
    ensures forall i :: 0 <= i < 8 ==> IsHexDigit(UuidShort(u)[i])
  {
    assert u[8] == '-';
    assert forall i :: 0 <= i < 8 ==> u[..8][i] != '-';
    assert IndexOf(u, '-') == 8;
  }

  /** `get_output_filename`: `{slug}_{order_number}_{position}_{uuid_short}.jpg` */
  function OutputFilename(img: BatchJobImage, slugify: string -> string, uuid: string): string {
    slugify(img.modelName) + "_" + img.orderNumber + "_" + IntToString(img.position) + "_" + UuidShort(uuid) + ".jpg"
  }

  /** `get_cms_filename`: `{slug}-{uuid_short}.jpg` */
  function CmsFilename(img: BatchJobImage, slugify: string -> string, uuid: string): string {
    slugify(img.modelName) + "-" + UuidShort(uuid) + ".jpg"
  }

  /**
   * The random disambiguator is what keeps two output names apart: for one row, equal names
   * mean equal short uuids, whatever the order number and position are.
   */
  lemma OutputFilenameDisambiguates(img: BatchJobImage, slugify: string -> string, u1: string, u2: string)
    requires IsCanonicalUuid(u1) && IsCanonicalUuid(u2)
    requires OutputFilename(img, slugify, u1) == OutputFilename(img, slugify, u2)
    ensures u1[..8] == u2[..8]
  {
    UuidShortOfCanonical(u1);
    UuidShortOfCanonical(u2);
    var prefix := slugify(img.modelName) + "_" + img.orderNumber + "_" + IntToString(img.position) + "_";
    var n1, n2 := OutputFilename(img, slugify, u1), OutputFilename(img, slugify, u2);
    assert n1[|prefix|..|prefix| + 8] == UuidShort(u1);
    assert n2[|prefix|..|prefix| + 8] == UuidShort(u2);
  }

  /** The publish-facing name depends on the model name and the uuid only. */
  lemma CmsFilenameIgnoresGrouping(a: BatchJobImage, b: BatchJobImage, slugify: string -> string, u: string)
    requires a.modelName == b.modelName
    ensures CmsFilename(a, slugify, u) == CmsFilename(b, slugify, u)
    ensures IsCanonicalUuid(u) ==> |CmsFilename(a, slugify, u)| == |slugify(a.modelName)| + 13
  {
    if IsCanonicalUuid(u) {
      UuidShortOfCanonical(u);
    }
  }

  /**
   * `get_collection_path`: `None` for a missing or empty page URL; otherwise the URL with
   * trailing slashes removed and its last segment dropped, or `None` when nothing remains.
   */
  function CollectionPath(pageUrl: Option<string>): (r: Option<string>) {
    if pageUrl.None? || pageUrl.value == "" then None
    else
      var path := RStripChar(pageUrl.value, '/');
      var parts := Split(path, '/');
      var joined := Join(parts[..|parts| - 1], "/");
      if joined == "" then None else Some(joined)
  }

  /** The path without trailing slashes is the collection path, a "/" and a last segment free of "/". */
  predicate CutAt(path: string, p: string) {
    |p| < |path| && path[..|p|] == p && path[|p|] == '/' && forall i :: |p| < i < |path| ==> path[i] != '/'
  }

  /** `get_collection_path` computes the text before the last "/" of the stripped URL, when there is one. */
  lemma CollectionPathIsBeforeLastSlash(url: string)
    requires url != ""
    ensures var path := RStripChar(url, '/');
            CollectionPath(Some(url)) == if '/' in path && LastIndexOf(path, '/') > 0 then Some(path[..LastIndexOf(path, '/')]) else None
  {
    var path := RStripChar(url, '/');
    var parts := Split(path, '/');
    var joined := Join(parts[..|parts| - 1], "/");
    assert CollectionPath(Some(url)) == if joined == "" then None else Some(joined);
    var before := if '/' in path then path[..LastIndexOf(path, '/')] else "";
    assert joined == before by {
      JoinSplitButLast(path, '/');
      assert "/" == ['/'];
    }
  }

  /**
   * What the collection path is: a non-empty text `p` such that the URL without its trailing
   * slashes is `p + "/" + seg` for a last segment `seg` that holds no slash.
   */
  lemma CollectionPathMeaning(pageUrl: Option<string>, p: string)
    ensures CollectionPath(pageUrl) == Some(p) <==> pageUrl.Some? && p != "" && CutAt(RStripChar(pageUrl.value, '/'), p)
  {
    if pageUrl.Some? && pageUrl.value != "" {
      var path := RStripChar(pageUrl.value, '/');
      CollectionPathIsBeforeLastSlash(pageUrl.value);
      if p != "" && CutAt(path, p) {
        LastSeparator(path, |p|, '/');
      }
      if CollectionPath(pageUrl) == Some(p) {
        var l := LastIndexOf(path, '/');
        forall i | l < i < |path|
          ensures path[i] != '/'
        {
          assert path[i] == path[l + 1..][i - l - 1];
        }
      }
    }
  }

  /** A separator with no separator after it is the last one. */
  lemma LastSeparator(s: string, q: int, c: char)
    requires 0 <= q < |s| && s[q] == c && forall i :: q < i < |s| ==> s[i] != c
    ensures LastIndexOf(s, c) == q
  {
  }

  /** The dropped segment is never empty: the path does not end with the separator itself. */
  lemma CollectionPathDropsNonEmptySegment(pageUrl: Option<string>, p: string)
    requires CollectionPath(pageUrl) == Some(p)
    ensures |p| + 1 < |RStripChar(pageUrl.value, '/')|
  {
    CollectionPathMeaning(pageUrl, p);
  }

  /** Without an empty segment ("//") in the URL, the collection path never ends with "/". */
  lemma CollectionPathNoTrailingSlash(pageUrl: Option<string>, p: string)
    requires CollectionPath(pageUrl) == Some(p)
    requires forall i :: 0 <= i < |pageUrl.value| - 1 ==> !(pageUrl.value[i] == '/' && pageUrl.value[i + 1] == '/')
    ensures p[|p| - 1] != '/'
  {
    CollectionPathMeaning(pageUrl, p);
    var path := RStripChar(pageUrl.value, '/');
    assert pageUrl.value[|p| - 1] == path[|p| - 1] && pageUrl.value[|p|] == path[|p|];
  }

  lemma CollectionPathOfProductUrl()
    ensures CollectionPath(Some("/products/a/b/")) == Some("/products/a")
  {
    var path := "/products/a/b";
    assert RStripChar("/products/a/b/", '/') == RStripChar(path, '/') == path;
    assert path[..11] == "/products/a" && path[11] == '/' && path[12..] == "b";
    CollectionPathMeaning(Some("/products/a/b/"), "/products/a");
  }

  /** A single segment leaves nothing: "/x", "x", "" and a missing URL all give `None`. */
  lemma CollectionPathOfSingleSegment()
    ensures CollectionPath(Some("/x")) == None && CollectionPath(Some("x")) == None
    ensures CollectionPath(Some("")) == None && CollectionPath(None) == None
  {
    assert RStripChar("/x", '/') == "/x";
    assert RStripChar("x", '/') == "x";
    var r := CollectionPath(Some("/x"));
    if r.Some? {
      CollectionPathMeaning(Some("/x"), r.value);
    }
  }

  /** With an empty segment the result can end with "/": "/a//b" gives "/a/". */
  lemma CollectionPathDoubleSlash()
    ensures CollectionPath(Some("/a//b")) == Some("/a/")
  {
    var path := "/a//b";
    assert RStripChar(path, '/') == path;
    assert path[..3] == "/a/" && path[3] == '/' && path[4..] == "b";
    CollectionPathMeaning(Some(path), "/a/");
  }
}
