/**
 * Synchronisation of the staged files with the site gateway (`SyncService`): the product
 * markdown, the model name recovered from a staged file name, the grouping of files by model,
 * the page URLs of a model, the request loop and the sweep that marks vanished files DELETED.
 *
 * The file listing, the gateway's HTTP answer, the file-existence check and `slugify` are
 * parameters. A gateway reply is its decoded JSON object (`None` when the request failed).
 */
module Sync {
  import opened Wrappers
  import opened Strings
  import opened Models
  import opened Ledger

  // ----- the product markdown -----

  /** A characteristic: its `label` (here `name`) and `value`; a missing one is "". */
  datatype CharItem = CharItem(name: string, value: string)

  /** A characteristics section; a missing title is "". */
  datatype Section = Section(title: string, chars: seq<CharItem>)

  datatype GalleryImage = GalleryImage(alt: string, title: string)

  /** The parts of the gateway's product JSON that are rendered; missing keys are empty. */
  datatype ProductData = ProductData(characteristics: seq<Section>, description: string, gallery: seq<GalleryImage>)

  function CharLine(c: CharItem): string {
    "- **" + c.name + "**: " + c.value
  }

  /** The characteristic lines of a section: one per item whose label and value are both non-empty. */
  function CharLines(chars: seq<CharItem>): (r: seq<string>)
    ensures forall line :: line in r ==> exists c :: c in chars && c.name != "" && c.value != "" && line == CharLine(c)
    ensures forall c :: c in chars && c.name != "" && c.value != "" ==> CharLine(c) in r
  {
    if chars == [] then []
    else
      var n := |chars| - 1;
      var c := chars[n];
      assert forall x :: x in chars <==> x in chars[..n] || x == c;
      CharLines(chars[..n]) + (if c.name != "" && c.value != "" then [CharLine(c)] else [])
  }

  function SectionLines(s: Section): seq<string> {
    (if s.title != "" then ["### " + s.title] else []) + CharLines(s.chars) + [""]
  }

  function SectionsLines(secs: seq<Section>): seq<string> {
    if secs == [] then [] else SectionsLines(secs[..|secs| - 1]) + SectionLines(secs[|secs| - 1])
  }

  function CharacteristicsLines(secs: seq<Section>): seq<string> {
    if secs == [] then [] else ["## Характеристики"] + SectionsLines(secs)
  }

  function DescriptionLines(d: string): seq<string> {
    if d != "" then ["## Описание", d, ""] else []
  }

  function ImageHeading(n: nat): string {
    "### Изображение " + NatToString(n)
  }

  /** The lines of the image numbered `n`; an image without alt and title emits nothing. */
  function ImageLines(n: nat, img: GalleryImage): seq<string> {
    if img.alt == "" && img.title == "" then []
    else
      [ImageHeading(n)]
      + (if img.title != "" then ["- **title**: " + img.title] else [])
      + (if img.alt != "" then ["- **alt**: " + img.alt] else [])
      + [""]
  }

  /** The gallery's image entries; the image at index `i` is numbered `i + 1`. */
  function GalleryBody(imgs: seq<GalleryImage>): seq<string> {
    if imgs == [] then [] else GalleryBody(imgs[..|imgs| - 1]) + ImageLines(|imgs|, imgs[|imgs| - 1])
  }

  function GalleryLines(imgs: seq<GalleryImage>): seq<string> {
    if imgs == [] then [] else ["## Используемые изображения"] + GalleryBody(imgs)
  }

  /** `extract_product_markdown`: the three parts' lines joined by newlines. */
  function ProductMarkdown(data: ProductData): string {
    Join(CharacteristicsLines(data.characteristics) + DescriptionLines(data.description) + GalleryLines(data.gallery), "\n")
  }

  /** An empty product renders as the empty text. */
  lemma EmptyProductMarkdown()
    ensures ProductMarkdown(ProductData([], "", [])) == ""
  {
    assert CharacteristicsLines([]) + DescriptionLines("") + GalleryLines([]) == [];
  }

  /** A product with a description only: its heading, the text and a closing empty line. */
  lemma DescriptionOnlyMarkdown(d: string)
    requires d != ""
    ensures ProductMarkdown(ProductData([], d, [])) == "## Описание\n" + d + "\n"
  {
    var lines := CharacteristicsLines([]) + DescriptionLines(d) + GalleryLines([]);
    assert lines == ["## Описание"] + [d, ""];
    assert [d, ""] == [d] + [""];
    JoinCons(d, [""], "\n");
    assert Join([d, ""], "\n") == d + "\n";
    JoinCons("## Описание", [d, ""], "\n");
  }

  /** Every image with an alt or a title gets the heading numbered by its position from 1. */
  lemma {:induction false} GalleryNumbering(imgs: seq<GalleryImage>, i: nat)
    requires i < |imgs| && (imgs[i].alt != "" || imgs[i].title != "")
    ensures ImageHeading(i + 1) in GalleryBody(imgs)
  {
    var n := |imgs| - 1;
    var prev := GalleryBody(imgs[..n]);
    var last := ImageLines(|imgs|, imgs[n]);
    assert GalleryBody(imgs) == prev + last;
    if i < n {
      assert imgs[..n][i] == imgs[i];
      GalleryNumbering(imgs[..n], i);
      assert ImageHeading(i + 1) in prev;
    } else {
      assert last[0] == ImageHeading(i + 1);
      assert (prev + last)[|prev|] == last[0];
    }
  }

  /** A skipped image still uses up its number: the second image is "Изображение 2". */
  lemma SkippedImageKeepsNumbering()
    ensures GalleryBody([GalleryImage("", ""), GalleryImage("a", "")]) == [ImageHeading(2), "- **alt**: a", ""]
  {
    var imgs := [GalleryImage("", ""), GalleryImage("a", "")];
    assert imgs[..1] == [GalleryImage("", "")];
    assert imgs[..1][..0] == [];
    assert GalleryBody(imgs[..1]) == GalleryBody([]) + ImageLines(1, GalleryImage("", "")) == [];
    assert "- **alt**: " + "a" == "- **alt**: a";
    assert ImageLines(2, GalleryImage("a", "")) == [ImageHeading(2)] + [] + ["- **alt**: a"] + [""];
  }

  // ----- model names from file names -----

  /** The text before the last `c`, if there is one (`s.rsplit(c, 1)[0]` when it splits). */
  function BeforeLast(s: string, c: char): (r: Option<string>)
    ensures r.None? <==> c !in s
    ensures r.Some? ==> |r.value| < |s| && s[..|r.value|] == r.value && s[|r.value|] == c && c !in s[|r.value| + 1..]
  {
    if c in s then Some(s[..LastIndexOf(s, c)]) else None
  }

  /** The file name without its extension: everything before the last ".", or all of it. */
  function Stem(filename: string): string {
    if '.' in filename then filename[..LastIndexOf(filename, '.')] else filename
  }

  /**
   * `_extract_model_name_from_filename`: `rsplit("_", 3)` of the stem gives four parts exactly
   * when the stem has at least three underscores; the first part is the model's slug.
   */
  function ExtractModelName(filename: string): Option<string> {
    match BeforeLast(Stem(filename), '_')
    case None => None
    case Some(a) =>
      match BeforeLast(a, '_')
      case None => None
      case Some(b) => BeforeLast(b, '_')
  }

  /** Cutting at the last separator removes exactly one separator. */
  lemma BeforeLastCount(s: string, c: char)
    requires c in s
    ensures multiset(BeforeLast(s, c).value)[c] + 1 == multiset(s)[c]
  {
    var k := LastIndexOf(s, c);
    assert s == s[..k] + [c] + s[k + 1..];
    assert multiset(s[k + 1..])[c] == 0;
  }

  /**
   * The slug is `None` exactly when the stem has fewer than three underscores; otherwise the
   * stem is the slug followed by a tail that starts with "_" and holds exactly three of them.
   */
  lemma ExtractModelNameMeaning(filename: string)
    ensures var stem, r := Stem(filename), ExtractModelName(filename);
      && (r.None? <==> multiset(stem)['_'] < 3)
      && (r.Some? ==> |r.value| < |stem| && stem[..|r.value|] == r.value && stem[|r.value|] == '_'
                      && multiset(stem[|r.value|..])['_'] == 3)
  {
    var stem := Stem(filename);
    if '_' in stem {
      BeforeLastCount(stem, '_');
      var a := BeforeLast(stem, '_').value;
      if '_' in a {
        BeforeLastCount(a, '_');
        var b := BeforeLast(a, '_').value;
        if '_' in b {
          BeforeLastCount(b, '_');
          var p := BeforeLast(b, '_').value;
          assert stem[..|a|] == a && a[..|b|] == b && b[..|p|] == p;
          assert stem[..|p|] == p;
          assert stem == p + stem[|p|..];
          assert multiset(stem) == multiset(p) + multiset(stem[|p|..]);
        } else {
          assert multiset(b)['_'] == 0;
        }
      } else {
        assert multiset(a)['_'] == 0;
      }
    } else {
      assert multiset(stem)['_'] == 0;
    }
  }

  /** A text with a last separator after which no separator follows is cut there. */
  lemma BeforeLastOf(a: string, c: char, b: string)
    requires c !in b
    ensures BeforeLast(a + [c] + b, c) == Some(a)
  {
    var s := a + [c] + b;
    assert s[|a|] == c && s[..|a|] == a;
    forall i | |a| < i < |s|
      ensures s[i] != c
    {
      assert s[i] == b[i - |a| - 1];
    }
    LastSeparator(s, |a|, c);
  }

  /**
   * Round trip with `get_output_filename`: the slug comes back whenever the order number has no
   * underscore (the position's digits and the short uuid never have one).
   */
  lemma OutputFilenameRoundTrip(img: BatchJobImage, slugify: string -> string, uuid: string)
    requires IsCanonicalUuid(uuid) && '_' !in img.orderNumber
    ensures ExtractModelName(OutputFilename(img, slugify, uuid)) == Some(slugify(img.modelName))
  {
    UuidShortOfCanonical(uuid);
    var slug, pos, short := slugify(img.modelName), IntToString(img.position), UuidShort(uuid);
    assert forall i :: 0 <= i < |pos| ==> pos[i] != '_';
    assert forall i :: 0 <= i < |short| ==> short[i] != '_' by {
      forall i | 0 <= i < |short| ensures short[i] != '_' {
        assert IsHexDigit(short[i]);
      }
    }
    assert '_' !in pos && '_' !in short;
    var stem := slug + "_" + img.orderNumber + "_" + pos + "_" + short;
    var name := OutputFilename(img, slugify, uuid);
    assert name == stem + "." + "jpg";
    BeforeLastOf(stem, '.', "jpg");
    assert Stem(name) == stem;
    BeforeLastOf(slug + "_" + img.orderNumber + "_" + pos, '_', short);
    BeforeLastOf(slug + "_" + img.orderNumber, '_', pos);
    BeforeLastOf(slug, '_', img.orderNumber);
    assert slug + "_" + img.orderNumber + "_" + pos + "_" + short == (slug + "_" + img.orderNumber + "_" + pos) + ['_'] + short;
    assert slug + "_" + img.orderNumber + "_" + pos == (slug + "_" + img.orderNumber) + ['_'] + pos;
    assert slug + "_" + img.orderNumber == slug + ['_'] + img.orderNumber;
  }

  // ----- grouping the listed files -----

  /** A listed file; a missing name or id is "". */
  datatype DriveFile = DriveFile(name: string, id: string)

  /** The slug a file is grouped under, if any: an empty slug is dropped like a missing one. */
  function SlugOf(f: DriveFile): Option<string> {
    var m := ExtractModelName(f.name);
    if m.Some? && m.value != "" then m else None
  }

  /** The slugs in order of first appearance (the dictionary's key order). */
  function ModelOrder(files: seq<DriveFile>): (r: seq<string>)
    ensures Distinct(r)
  {
    if files == [] then []
    else
      var n := |files| - 1;
      var prev := ModelOrder(files[..n]);
      var s := SlugOf(files[n]);
      if s.Some? && s.value !in prev then prev + [s.value] else prev
  }

  /** A slug is a key exactly when some listed file carries it. */
  lemma {:induction false} ModelOrderMeaning(files: seq<DriveFile>, k: string)
    ensures k in ModelOrder(files) <==> exists i :: 0 <= i < |files| && SlugOf(files[i]) == Some(k)
  {
    if files != [] {
      var n := |files| - 1;
      ModelOrderMeaning(files[..n], k);
      if exists i :: 0 <= i < |files| && SlugOf(files[i]) == Some(k) {
        var i :| 0 <= i < |files| && SlugOf(files[i]) == Some(k);
        if i < n {
          assert files[..n][i] == files[i];
        }
      }
      if exists i :: 0 <= i < n && SlugOf(files[..n][i]) == Some(k) {
        var i :| 0 <= i < n && SlugOf(files[..n][i]) == Some(k);
        assert files[i] == files[..n][i];
      }
    }
  }

  /** The ids of the files with slug `k`, in listing order. */
  function IdsFor(files: seq<DriveFile>, k: string): seq<string> {
    if files == [] then []
    else IdsFor(files[..|files| - 1], k) + (if SlugOf(files[|files| - 1]) == Some(k) then [files[|files| - 1].id] else [])
  }

  /** `model_files`: the dictionary filled by the loop. */
  function FileGroups(files: seq<DriveFile>): map<string, seq<string>> {
    if files == [] then map[]
    else
      var n := |files| - 1;
      var g := FileGroups(files[..n]);
      match SlugOf(files[n])
      case None => g
      case Some(k) => g[k := (if k in g then g[k] else []) + [files[n].id]]
  }

  /** The keys are the slugs, and each slug's list holds exactly its files' ids in listing order. */
  lemma {:induction false} FileGroupsMeaning(files: seq<DriveFile>)
    ensures FileGroups(files).Keys == set k | k in ModelOrder(files)
    ensures forall k :: k in FileGroups(files) ==> FileGroups(files)[k] == IdsFor(files, k)
  {
    if files != [] {
      var n := |files| - 1;
      FileGroupsMeaning(files[..n]);
      forall k | k !in FileGroups(files[..n])
        ensures IdsFor(files[..n], k) == []
      {
        IdsForAbsent(files[..n], k);
      }
    }
  }

  lemma {:induction false} IdsForAbsent(files: seq<DriveFile>, k: string)
    requires k !in ModelOrder(files)
    ensures IdsFor(files, k) == []
  {
    if files != [] {
      var n := |files| - 1;
      assert k !in ModelOrder(files[..n]);
      assert SlugOf(files[n]) != Some(k);
      IdsForAbsent(files[..n], k);
    }
  }

  /** `_get_unique_model_names_from_files`: the slugs in key order and the dictionary. */
  method GroupFiles(files: seq<DriveFile>) returns (keys: seq<string>, groups: map<string, seq<string>>)
    ensures keys == ModelOrder(files) && groups == FileGroups(files)
  {
    keys, groups := [], map[];
    var i := 0;
    while i < |files|
      invariant 0 <= i <= |files|
      invariant keys == ModelOrder(files[..i]) && groups == FileGroups(files[..i])
    {
      assert files[..i + 1][..i] == files[..i];
      var slug := SlugOf(files[i]);
      if slug.Some? {
        var k := slug.value;
        if k !in keys {
          keys := keys + [k];
        }
        groups := groups[k := (if k in groups then groups[k] else []) + [files[i].id]];
      }
      i := i + 1;
    }
    assert files[..i] == files;
  }

  // ----- page URLs of a model -----

  predicate PageOf(row: BatchJobImage, slug: string, slugify: string -> string) {
    row.status == SUCCEEDED && Truthy(row.pageUrl) && slugify(row.modelName) == slug
  }

  /** The distinct page URLs of the model's succeeded rows, in table order of first appearance. */
  function PageUrls(rows: seq<BatchJobImage>, slug: string, slugify: string -> string): (r: seq<string>)
    ensures Distinct(r)
    ensures forall u :: u in r <==> exists i :: 0 <= i < |rows| && PageOf(rows[i], slug, slugify) && rows[i].pageUrl == Some(u)
  {
    if rows == [] then []
    else
      var n := |rows| - 1;
      var prev := PageUrls(rows[..n], slug, slugify);
      assert forall i :: 0 <= i < n ==> rows[..n][i] == rows[i];
      var row := rows[n];
      if PageOf(row, slug, slugify) && row.pageUrl.value !in prev then prev + [row.pageUrl.value] else prev
  }

  /**
   * `_get_page_urls_for_model`. The source collects a set and returns it as a list, in no
   * particular order; the model returns the table order of first appearance.
   */
  method PageUrlsForModel(ledger: Ledger, slug: string, slugify: string -> string) returns (urls: seq<string>)
    requires ledger.Valid()
    ensures urls == PageUrls(ledger.ImageRows(), slug, slugify)
  {
    var rows := ledger.ImageRows();
    urls := [];
    var i := 0;
    while i < |rows|
      invariant 0 <= i <= |rows|
      invariant urls == PageUrls(rows[..i], slug, slugify)
    {
      assert rows[..i + 1][..i] == rows[..i];
      if rows[i].status == SUCCEEDED && Truthy(rows[i].pageUrl) && slugify(rows[i].modelName) == slug
         && rows[i].pageUrl.value !in urls {
        urls := urls + [rows[i].pageUrl.value];
      }
      i := i + 1;
    }
    assert rows[..i] == rows;
  }

  // ----- the request loop -----

  /** A decoded gateway reply: a JSON object, by its top-level members. */
  type Reply = map<string, string>

  /** The requests so far: the URLs asked, in order, and the counters and lists of `SyncResult`. */
  datatype Requests = Requests(sent: set<string>, asked: seq<string>, count: nat, success: nat, failed: nat,
                               responses: seq<Reply>, errors: seq<string>)

  const NO_REQUESTS := Requests({}, [], 0, 0, 0, [], [])

  /** `f"{gateway_url}{page_url}"` with the base's trailing slashes removed. */
  function FullUrl(base: string, pageUrl: string): string {
    RStripChar(base, '/') + pageUrl
  }

  /** One page URL: skipped when already sent, otherwise requested once and counted. */
  function Request(st: Requests, url: string, base: string, gateway: string -> Option<Reply>): Requests {
    if url in st.sent then st
    else
      var st1 := st.(sent := st.sent + {url}, asked := st.asked + [url], count := st.count + 1);
      var reply := gateway(FullUrl(base, url));
      if reply.Some? && |reply.value| > 0 then st1.(success := st1.success + 1, responses := st1.responses + [reply.value])
      else st1.(failed := st1.failed + 1, errors := st1.errors + ["Ошибка для " + url])
  }

  function RequestAll(st: Requests, urls: seq<string>, base: string, gateway: string -> Option<Reply>): Requests {
    if urls == [] then st else Request(RequestAll(st, urls[..|urls| - 1], base, gateway), urls[|urls| - 1], base, gateway)
  }

  /** The requests for every model in key order. */
  function RequestModels(st: Requests, keys: seq<string>, rows: seq<BatchJobImage>, slugify: string -> string,
                         base: string, gateway: string -> Option<Reply>): Requests {
    if keys == [] then st
    else
      var n := |keys| - 1;
      RequestAll(RequestModels(st, keys[..n], rows, slugify, base, gateway), PageUrls(rows, keys[n], slugify), base, gateway)
  }

  /** The counters agree: every request succeeded or failed, each once, and each URL was asked once. */
  ghost predicate Balanced(st: Requests) {
    && Distinct(st.asked) && st.sent == (set u | u in st.asked) && st.count == |st.asked|
    && st.count == st.success + st.failed && |st.responses| == st.success && |st.errors| == st.failed
  }

  lemma RequestKeepsBalance(st: Requests, url: string, base: string, gateway: string -> Option<Reply>)
    requires Balanced(st)
    ensures Balanced(Request(st, url, base, gateway))
    ensures Request(st, url, base, gateway).sent == st.sent + {url}
  {
  }

  lemma {:induction false} RequestAllKeepsBalance(st: Requests, urls: seq<string>, base: string,
                                                  gateway: string -> Option<Reply>)
    requires Balanced(st)
    ensures Balanced(RequestAll(st, urls, base, gateway))
    ensures RequestAll(st, urls, base, gateway).sent == st.sent + set u | u in urls
  {
    if urls != [] {
      var n := |urls| - 1;
      RequestAllKeepsBalance(st, urls[..n], base, gateway);
      RequestKeepsBalance(RequestAll(st, urls[..n], base, gateway), urls[n], base, gateway);
      assert (set u | u in urls) == (set u | u in urls[..n]) + {urls[n]} by {
        assert forall u :: u in urls <==> u in urls[..n] || u == urls[n];
      }
    }
  }

  /** Kept apart so that the union with the empty set does not unfold `ModelUrls`. */
  lemma EmptyUnion(urls: set<string>)
    ensures {} + urls == urls
  {
  }

  /** The page URLs of all the given models: the union of their `PageUrls`, model by model. */
  ghost function ModelUrls(keys: seq<string>, rows: seq<BatchJobImage>, slugify: string -> string): set<string> {
    if keys == [] then {}
    else
      var n := |keys| - 1;
      ModelUrls(keys[..n], rows, slugify) + set u | u in PageUrls(rows, keys[n], slugify)
  }

  /** From any balanced state, the model loop stays balanced and adds exactly the models' page URLs. */
  lemma {:induction false} RequestModelsKeepBalance(st: Requests, keys: seq<string>, rows: seq<BatchJobImage>,
                                                    slugify: string -> string, base: string,
                                                    gateway: string -> Option<Reply>)
    requires Balanced(st)
    ensures Balanced(RequestModels(st, keys, rows, slugify, base, gateway))
    ensures RequestModels(st, keys, rows, slugify, base, gateway).sent == st.sent + ModelUrls(keys, rows, slugify)
  {
    if keys != [] {
      var n := |keys| - 1;
      var prev := RequestModels(st, keys[..n], rows, slugify, base, gateway);
      RequestModelsKeepBalance(st, keys[..n], rows, slugify, base, gateway);
      RequestAllKeepsBalance(prev, PageUrls(rows, keys[n], slugify), base, gateway);
    }
  }

  /**
   * `sync_files` sends each page URL at most once per run, and `requests_sent` is
   * `requests_success + requests_failed`, with one response per success and one error per failure;
   * the URLs sent are exactly the page URLs of the listed models.
   */
  lemma RequestModelsBalanced(keys: seq<string>, rows: seq<BatchJobImage>, slugify: string -> string,
                              base: string, gateway: string -> Option<Reply>)
    ensures Balanced(RequestModels(NO_REQUESTS, keys, rows, slugify, base, gateway))
    ensures RequestModels(NO_REQUESTS, keys, rows, slugify, base, gateway).sent == ModelUrls(keys, rows, slugify)
  {
    assert NO_REQUESTS.asked == [] && (set u | u in NO_REQUESTS.asked) == {};
    RequestModelsKeepBalance(NO_REQUESTS, keys, rows, slugify, base, gateway);
    EmptyUnion(ModelUrls(keys, rows, slugify));
  }

  lemma RequestAllPrefix(st: Requests, urls: seq<string>, base: string, gateway: string -> Option<Reply>, n: nat)
    requires n < |urls|
    ensures RequestAll(st, urls[..n + 1], base, gateway) == Request(RequestAll(st, urls[..n], base, gateway), urls[n], base, gateway)
  {
    assert urls[..n + 1][..n] == urls[..n];
  }

  /** The inner loop over one model's page URLs. */
  method SendPageUrls(st0: Requests, urls: seq<string>, base: string, gateway: string -> Option<Reply>)
    returns (st: Requests)
    ensures st == RequestAll(st0, urls, base, gateway)
  {
    st := st0;
    var i := 0;
    while i < |urls|
      invariant 0 <= i <= |urls|
      invariant st == RequestAll(st0, urls[..i], base, gateway)
    {
      RequestAllPrefix(st0, urls, base, gateway, i);
      var url := urls[i];
      if url !in st.sent {
        st := st.(sent := st.sent + {url}, asked := st.asked + [url], count := st.count + 1);
        var reply := gateway(FullUrl(base, url));
        if reply.Some? && |reply.value| > 0 {
          st := st.(success := st.success + 1, responses := st.responses + [reply.value]);
        } else {
          st := st.(failed := st.failed + 1, errors := st.errors + ["Ошибка для " + url]);
        }
      }
      i := i + 1;
    }
    assert urls[..i] == urls;
  }

  /** The outer loop over the models in key order. */
  method SendModels(ledger: Ledger, keys: seq<string>, slugify: string -> string, base: string,
                    gateway: string -> Option<Reply>) returns (st: Requests)
    requires ledger.Valid()
    ensures st == RequestModels(NO_REQUESTS, keys, ledger.ImageRows(), slugify, base, gateway)
  {
    st := NO_REQUESTS;
    var k := 0;
    while k < |keys|
      invariant 0 <= k <= |keys|
      invariant st == RequestModels(NO_REQUESTS, keys[..k], ledger.ImageRows(), slugify, base, gateway)
    {
      assert keys[..k + 1][..k] == keys[..k];
      var urls := PageUrlsForModel(ledger, keys[k], slugify);
      st := SendPageUrls(st, urls, base, gateway);
      k := k + 1;
    }
    assert keys[..k] == keys;
  }

  // ----- the sweep for vanished files -----

  /** A row the sweep marks: succeeded, unpublished, with a staged file that no longer exists. */
  predicate Vanished(row: BatchJobImage, fileExists: string -> bool) {
    row.status == SUCCEEDED && Truthy(row.resultFile) && !row.published && !fileExists(row.resultFile.value)
  }

  /** The image table after the sweep over `ids`, in order. */
  function MarkVanished(images: map<string, BatchJobImage>, ids: seq<string>, fileExists: string -> bool)
    : (r: map<string, BatchJobImage>)
    requires forall id :: id in ids ==> id in images
    ensures r.Keys == images.Keys
  {
    if ids == [] then images
    else
      var n := |ids| - 1;
      var prev := MarkVanished(images, ids[..n], fileExists);
      var id := ids[n];
      if Vanished(prev[id], fileExists) then prev[id := prev[id].(status := DELETED)] else prev
  }

  /** The number of rows the sweep marks. */
  function CountVanished(images: map<string, BatchJobImage>, ids: seq<string>, fileExists: string -> bool): nat
    requires forall id :: id in ids ==> id in images
  {
    if ids == [] then 0
    else
      var n := |ids| - 1;
      CountVanished(images, ids[..n], fileExists) + (if Vanished(images[ids[n]], fileExists) then 1 else 0)
  }

  /**
   * Over a table's ids, the sweep turns exactly the vanished rows into DELETED rows, changing
   * nothing else about them, and leaves every other row as it was.
   */
  lemma {:induction false} MarkVanishedMeaning(images: map<string, BatchJobImage>, ids: seq<string>,
                                               fileExists: string -> bool, id: string)
    requires Distinct(ids) && (forall x :: x in ids ==> x in images) && id in images
    ensures var r := MarkVanished(images, ids, fileExists);
      r[id] == if id in ids && Vanished(images[id], fileExists) then images[id].(status := DELETED) else images[id]
  {
    if ids != [] {
      var n := |ids| - 1;
      assert Distinct(ids[..n]);
      MarkVanishedMeaning(images, ids[..n], fileExists, id);
      if id == ids[n] {
        assert id !in ids[..n];
      }
    }
  }

  /** The sweep's count is the number of rows it turned DELETED. */
  lemma {:induction false} CountVanishedMeaning(images: map<string, BatchJobImage>, ids: seq<string>,
                                                fileExists: string -> bool)
    requires Distinct(ids) && forall x :: x in ids ==> x in images
    ensures CountVanished(images, ids, fileExists) == |set id | id in ids && Vanished(images[id], fileExists)|
  {
    if ids != [] {
      var n := |ids| - 1;
      assert Distinct(ids[..n]);
      CountVanishedMeaning(images, ids[..n], fileExists);
      var before := set id | id in ids[..n] && Vanished(images[id], fileExists);
      var after := set id | id in ids && Vanished(images[id], fileExists);
      assert ids[n] !in before;
      if Vanished(images[ids[n]], fileExists) {
        assert after == before + {ids[n]};
      } else {
        assert after == before;
      }
    }
  }

  /** `_check_deleted_files`: the sweep over the table, committed once, returning the count. */
  method CheckDeletedFiles(ledger: Ledger, fileExists: string -> bool) returns (deleted: nat)
    requires ledger.Valid()
    modifies ledger`images
    ensures ledger.Valid()
    ensures ledger.images == MarkVanished(old(ledger.images), ledger.imageIds, fileExists)
    ensures deleted == CountVanished(old(ledger.images), ledger.imageIds, fileExists)
  {
    var images;
    images, deleted := SweepVanished(ledger.images, ledger.imageIds, fileExists);
    SameKeysKeepsTable(ledger.images, images, ledger.imageIds);
    ledger.images := images;
  }

  /** The sweep's loop, over the rows in table order. */
  method SweepVanished(orig: map<string, BatchJobImage>, ids: seq<string>, fileExists: string -> bool)
    returns (images: map<string, BatchJobImage>, deleted: nat)
    requires Distinct(ids) && forall id :: id in ids ==> id in orig
    ensures images == MarkVanished(orig, ids, fileExists) && deleted == CountVanished(orig, ids, fileExists)
  {
    images := orig;
    deleted := 0;
    var i := 0;
    while i < |ids|
      invariant 0 <= i <= |ids|
      invariant images == MarkVanished(orig, ids[..i], fileExists)
      invariant deleted == CountVanished(orig, ids[..i], fileExists)
    {
      assert ids[..i + 1][..i] == ids[..i];
      MarkVanishedUntouched(orig, ids, fileExists, i);
      var img := images[ids[i]];
      if img.status == SUCCEEDED && Truthy(img.resultFile) && !img.published && !fileExists(img.resultFile.value) {
        images := images[ids[i] := img.(status := DELETED)];
        deleted := deleted + 1;
      }
      i := i + 1;
    }
    assert ids[..i] == ids;
  }

  /** Before the sweep reaches an id, that id's row is still the original one. */
  lemma MarkVanishedUntouched(images: map<string, BatchJobImage>, ids: seq<string>, fileExists: string -> bool, i: nat)
    requires Distinct(ids) && (forall x :: x in ids ==> x in images) && i < |ids|
    ensures MarkVanished(images, ids[..i], fileExists)[ids[i]] == images[ids[i]]
  {
    assert Distinct(ids[..i]) && ids[i] !in ids[..i];
    MarkVanishedMeaning(images, ids[..i], fileExists, ids[i]);
  }

  // ----- sync_files -----

  /** `SyncResult` as a value. */
  datatype SyncReport = SyncReport(totalFiles: nat, uniqueModels: nat, requestsSent: nat, requestsSuccess: nat,
                                   requestsFailed: nat, deletedFiles: nat, errors: seq<string>,
                                   processedModels: seq<string>, responses: seq<Reply>)

  class SyncResult {
    var totalFiles: nat
    var uniqueModels: nat
    var requestsSent: nat
    var requestsSuccess: nat
    var requestsFailed: nat
    var deletedFiles: nat
    var errors: seq<string>
    var processedModels: seq<string>
    var responses: seq<Reply>

    constructor ()
      ensures SyncSnap(this) == SyncReport(0, 0, 0, 0, 0, 0, [], [], [])
    {
      totalFiles, uniqueModels, requestsSent, requestsSuccess, requestsFailed, deletedFiles := 0, 0, 0, 0, 0, 0;
      errors, processedModels, responses := [], [], [];
    }
  }

  function SyncSnap(r: SyncResult): SyncReport
    reads r
  {
    SyncReport(r.totalFiles, r.uniqueModels, r.requestsSent, r.requestsSuccess, r.requestsFailed, r.deletedFiles,
               r.errors, r.processedModels, r.responses)
  }

  /** The report of a run over `files` and the table rows as they were before the sweep. */
  function SyncOutcome(files: seq<DriveFile>, rows: seq<BatchJobImage>, deleted: nat, slugify: string -> string,
                       base: string, gateway: string -> Option<Reply>): SyncReport {
    var keys := ModelOrder(files);
    var st := RequestModels(NO_REQUESTS, keys, rows, slugify, base, gateway);
    SyncReport(|files|, |keys|, st.count, st.success, st.failed, deleted, st.errors, keys, st.responses)
  }

  /** With no files nothing is requested and every counter but the deleted count is 0. */
  lemma NoFilesNoRequests(rows: seq<BatchJobImage>, deleted: nat, slugify: string -> string, base: string,
                          gateway: string -> Option<Reply>)
    ensures SyncOutcome([], rows, deleted, slugify, base, gateway) == SyncReport(0, 0, 0, 0, 0, deleted, [], [], [])
  {
  }

  /**
   * `sync_files`: group the listed files by model, request every page URL of every model once,
   * then (when asked) sweep the table for vanished files. With no files, only the sweep runs.
   */
  method SyncFiles(ledger: Ledger, files: seq<DriveFile>, checkDeleted: bool, base: string, slugify: string -> string,
                   gateway: string -> Option<Reply>, fileExists: string -> bool) returns (result: SyncResult)
    requires ledger.Valid()
    modifies ledger`images
    ensures ledger.Valid() && fresh(result)
    ensures ledger.images == if checkDeleted then MarkVanished(old(ledger.images), ledger.imageIds, fileExists)
                             else old(ledger.images)
    ensures var deleted := if checkDeleted then CountVanished(old(ledger.images), ledger.imageIds, fileExists) else 0;
      SyncSnap(result) == SyncOutcome(files, old(ledger.ImageRows()), deleted, slugify, base, gateway)
  {
    var keys: seq<string> := [];
    var st := NO_REQUESTS;
    if files != [] {
      var groups;
      keys, groups := GroupFiles(files);
      st := SendModels(ledger, keys, slugify, base, gateway);
    }
    var deleted := 0;
    if checkDeleted {
      deleted := CheckDeletedFiles(ledger, fileExists);
    }
    result := new SyncResult();
    result.totalFiles, result.uniqueModels, result.deletedFiles := |files|, |keys|, deleted;
    result.requestsSent, result.requestsSuccess, result.requestsFailed := st.count, st.success, st.failed;
    result.errors, result.processedModels, result.responses := st.errors, keys, st.responses;
  }
}
