/**
 * The image description service: it sends a product's photos and its markdown to the vision
 * model, then digs the JSON object out of the model's free-form reply. The model call, the image
 * resizing and JSON decoding itself are parameters.
 */
module Description {
  import opened Wrappers
  import opened Strings

  type Bytes = seq<bv8>

  /** One entry of the reply's "images" list: keys "alt", "title" and "caption". */
  type Caption = map<string, string>

  // ----- _parse_response: fences -----

  const FENCE := "```"

  /** Drops an opening fence line and a closing line that strips to a fence. */
  function Unfence(lines: seq<string>): seq<string>
    requires |lines| >= 1
  {
    var body := if StartsWith(lines[0], FENCE) then lines[1..] else lines;
    if body != [] && Strip(body[|body| - 1]) == FENCE then body[..|body| - 1] else body
  }

  /** The reply stripped and, when it opens with a code fence, without its fence lines. */
  function CleanText(text: string): string {
    var c := Strip(text);
    if StartsWith(c, FENCE) then Join(Unfence(Split(c, '\n')), "\n") else c
  }

  /**
   * A reply fenced as ```tag / body / ``` comes out as the body: the opening line and the
   * closing fence are dropped and the body's own lines are kept as they are.
   */
  lemma FencedReply(tag: string, body: string)
    requires '\n' !in tag
    ensures CleanText(FENCE + tag + "\n" + body + "\n" + FENCE) == body
  {
    var opening := FENCE + tag;
    var text := opening + ['\n'] + (body + ['\n'] + FENCE);
    assert FENCE + tag + "\n" + body + "\n" + FENCE == text;
    assert Strip(text) == text && StartsWith(text, FENCE) by {
      assert text[0] == '`' && text[|text| - 1] == '`';
      StripFixed(text);
      assert text[..3] == FENCE;
    }
    var lines := Split(text, '\n');
    assert lines == [opening] + (Split(body, '\n') + [FENCE]) by {
      assert '\n' !in opening by {
        assert forall i :: 0 <= i < 3 ==> opening[i] == '`';
      }
      SplitAfter(opening, '\n', body + ['\n'] + FENCE);
      assert '\n' !in FENCE;
      SplitBeforeLast(body, '\n', FENCE);
    }
    assert Unfence(lines) == Split(body, '\n') by {
      assert opening[..3] == FENCE;
      StripFixed(FENCE);
    }
    assert Join(Split(body, '\n'), "\n") == body by {
      JoinSplit(body, '\n');
      assert "\n" == ['\n'];
    }
  }

  // ----- _parse_response: the JSON candidate -----

  /**
   * `text[text.find("{") : text.rfind("}") + 1]`, or `None` when a brace is missing. When the
   * last "}" comes before the first "{", Python's slice is empty.
   */
  function Candidate(s: string): (r: Option<string>)
    ensures r.None? <==> '{' !in s || '}' !in s
  {
    var i, j := IndexOf(s, '{'), LastIndexOf(s, '}');
    if i == -1 || j == -1 then None
    else if j < i then Some("")
    else Some(s[i..j + 1])
  }

  /**
   * Surrounding chatter is cut away: text before the object without "{", after it without "}",
   * leaves exactly the object from its opening to its closing brace.
   */
  lemma CandidateOfWrapped(pre: string, mid: string, post: string)
    requires '{' !in pre && '}' !in post
    ensures Candidate(pre + "{" + mid + "}" + post) == Some("{" + mid + "}")
  {
    var s := pre + "{" + mid + "}" + post;
    var a, b := |pre|, |pre| + |mid| + 1;
    assert IndexOf(s, '{') == a by {
      assert forall i :: 0 <= i < a ==> s[i] == pre[i];
      IndexOfAt(s, a, '{');
    }
    assert LastIndexOf(s, '}') == b by {
      assert forall i :: b < i < |s| ==> s[i] == post[i - b - 1];
      LastIndexOfAt(s, b, '}');
    }
    assert s[a..b + 1] == "{" + mid + "}";
  }

  /** When every "}" precedes every "{", the candidate is the empty string. */
  lemma CandidateInverted(pre: string, post: string)
    requires '{' !in pre && '}' !in post && '}' in pre && '{' in post
    ensures Candidate(pre + post) == Some("")
  {
    var s := pre + post;
    var i, j := IndexOf(s, '{'), LastIndexOf(s, '}');
    assert i >= |pre| && j < |pre|;
    assert '{' in s && '}' in s by {
      var x :| 0 <= x < |pre| && pre[x] == '}';
      assert s[x] == '}';
      var y :| 0 <= y < |post| && post[y] == '{';
      assert s[|pre| + y] == '{';
    }
  }

  // ----- _parse_response: trailing-comma repair -----

  predicate IsCloser(c: char) {
    c == '}' || c == ']'
  }

  /** The index of the first non-whitespace character at or after `i`. */
  function SkipSpaces(s: string, i: nat): (j: nat)
    requires i <= |s|
    ensures i <= j <= |s| && (j == |s| || !IsSpace(s[j]))
    ensures forall k :: i <= k < j ==> IsSpace(s[k])
    decreases |s| - i
  {
    if i < |s| && IsSpace(s[i]) then SkipSpaces(s, i + 1) else i
  }

  /** Whether `s` opens with a comma, whitespace and a closing bracket, the pattern `,\s*([}\]])`. */
  predicate TrailingComma(s: string) {
    s != [] && s[0] == ',' && SkipSpaces(s, 1) < |s| && IsCloser(s[SkipSpaces(s, 1)])
  }

  /** `re.sub(r",\s*([}\]])", r"\1", s)`: scanning left to right, each match keeps only its bracket. */
  function RemoveTrailingCommas(s: string): string
    decreases |s|
  {
    if s == [] then ""
    else if TrailingComma(s) then
      var j := SkipSpaces(s, 1);
      [s[j]] + RemoveTrailingCommas(s[j + 1..])
    else [s[0]] + RemoveTrailingCommas(s[1..])
  }

  /** The characters of `s` other than commas and whitespace, in order. */
  function Kept(s: string): string {
    if s == [] then ""
    else (if s[0] == ',' || IsSpace(s[0]) then "" else [s[0]]) + Kept(s[1..])
  }

  /** `r` is `s` with some characters deleted. */
  predicate Subsequence(r: string, s: string)
    decreases |s|
  {
    r == [] || (s != [] && ((r[0] == s[0] && Subsequence(r[1..], s[1..])) || Subsequence(r, s[1..])))
  }

  lemma {:induction false} SubsequenceSkip(r: string, s: string, j: nat)
    requires j <= |s| && Subsequence(r, s[j..])
    ensures Subsequence(r, s)
    decreases j
  {
    if j > 0 {
      assert s[1..][j - 1..] == s[j..];
      SubsequenceSkip(r, s[1..], j - 1);
    }
  }

  lemma {:induction false} KeptSkipsSpaces(s: string, i: nat, j: nat)
    requires i <= j <= |s| && forall k :: i <= k < j ==> IsSpace(s[k])
    ensures Kept(s[i..]) == Kept(s[j..])
    decreases j - i
  {
    if i < j {
      assert s[i..][1..] == s[i + 1..];
      KeptSkipsSpaces(s, i + 1, j);
    }
  }

  /** The repair deletes characters and nothing else. */
  lemma {:induction false} RepairDeletes(s: string)
    ensures Subsequence(RemoveTrailingCommas(s), s)
    decreases |s|
  {
    if s != [] {
      if TrailingComma(s) {
        var j := SkipSpaces(s, 1);
        RepairDeletes(s[j + 1..]);
        var r := [s[j]] + RemoveTrailingCommas(s[j + 1..]);
        assert r[1..] == RemoveTrailingCommas(s[j + 1..]);
        assert s[j..][1..] == s[j + 1..];
        SubsequenceSkip(r, s, j);
      } else {
        RepairDeletes(s[1..]);
        assert ([s[0]] + RemoveTrailingCommas(s[1..]))[1..] == RemoveTrailingCommas(s[1..]);
      }
    }
  }

  /** What the repair deletes is commas and whitespace only: every other character is kept, in order. */
  lemma {:induction false} RepairKeepsOthers(s: string)
    ensures Kept(RemoveTrailingCommas(s)) == Kept(s)
    decreases |s|
  {
    if s != [] {
      if TrailingComma(s) {
        var j := SkipSpaces(s, 1);
        RepairKeepsOthers(s[j + 1..]);
        KeptSkipsSpaces(s, 1, j);
        assert Kept(s) == Kept(s[1..]);
        assert s[j..][1..] == s[j + 1..];
        assert Kept(s[j..]) == [s[j]] + Kept(s[j + 1..]);
        var r := [s[j]] + RemoveTrailingCommas(s[j + 1..]);
        assert r[1..] == RemoveTrailingCommas(s[j + 1..]);
      } else {
        RepairKeepsOthers(s[1..]);
        var r := [s[0]] + RemoveTrailingCommas(s[1..]);
        assert r[1..] == RemoveTrailingCommas(s[1..]);
      }
    }
  }

  /** A text without a comma is left as it is. */
  lemma {:induction false} RepairWithoutComma(s: string)
    requires ',' !in s
    ensures RemoveTrailingCommas(s) == s
    decreases |s|
  {
    if s != [] {
      assert s[0] != ',';
      assert ',' !in s[1..] by {
        forall k | 0 <= k < |s| - 1 ensures s[1..][k] != ',' {
          assert s[1..][k] == s[k + 1];
        }
      }
      RepairWithoutComma(s[1..]);
    }
  }

  /** A comma, whitespace and a bracket at the front become the bracket alone. */
  lemma RepairDropsComma(ws: string, closer: char, rest: string)
    requires forall k :: 0 <= k < |ws| ==> IsSpace(ws[k])
    requires IsCloser(closer)
    ensures RemoveTrailingCommas([','] + ws + [closer] + rest) == [closer] + RemoveTrailingCommas(rest)
  {
    var s := [','] + ws + [closer] + rest;
    assert !IsSpace(closer);
    assert forall k :: 1 <= k < |ws| + 1 ==> s[k] == ws[k - 1];
    assert s[|ws| + 1] == closer;
    assert SkipSpaces(s, 1) == |ws| + 1;
    assert s[|ws| + 2..] == rest;
  }

  // ----- _parse_response -----

  /** The dict `_parse_response` returns: the decoded object, or `raw_response` and `parsing_error`. */
  datatype Parsed<J> = Decoded(json: J) | ParseError(rawResponse: string, parsingError: string)

  const NOT_FOUND := "JSON structure not found in response"
  const DECODE_ERROR := "JSON decode error: "

  /**
   * `_parse_response(text)`: the candidate is decoded as it is, then once more after the
   * trailing-comma repair; `decode` is `json.loads`, its error message that of the exception.
   */
  function ParseResponse<J>(text: string, decode: string -> Result<J>): (r: Parsed<J>)
    ensures r.ParseError? ==> r.rawResponse == text
  {
    match Candidate(CleanText(text))
    case None => ParseError(text, NOT_FOUND)
    case Some(js) =>
      match decode(js)
      case Ok(j) => Decoded(j)
      case Err(_) =>
        match decode(RemoveTrailingCommas(js))
        case Ok(j) => Decoded(j)
        case Err(e) => ParseError(text, DECODE_ERROR + e)
  }

  /** The reply is reported as having no JSON exactly when its cleaned text lacks a brace. */
  lemma ParseNotFound<J>(text: string, decode: string -> Result<J>)
    ensures var c := CleanText(text);
            ParseResponse(text, decode) == ParseError(text, NOT_FOUND) <==> '{' !in c || '}' !in c
  {
    var cand := Candidate(CleanText(text));
    if cand.Some? && decode(cand.value).Err? {
      var e := decode(RemoveTrailingCommas(cand.value));
      if e.Err? {
        DecodeErrorIsNotNotFound(e.msg);
      }
    }
  }

  lemma DecodeErrorIsNotNotFound(e: string)
    ensures DECODE_ERROR + e != NOT_FOUND
  {
    assert (DECODE_ERROR + e)[5] == 'd' && NOT_FOUND[5] == 's';
  }

  /**
   * A decoded reply is what `json.loads` made of the candidate, or, when that failed, of the
   * repaired candidate; a candidate that decodes as it is is never repaired.
   */
  lemma ParseDecoded<J>(text: string, decode: string -> Result<J>, j: J)
    requires Candidate(CleanText(text)).Some?
    ensures var js := Candidate(CleanText(text)).value;
            ParseResponse(text, decode) == Decoded(j)
            <==> decode(js) == Ok(j) || (decode(js).Err? && decode(RemoveTrailingCommas(js)) == Ok(j))
  {
  }

  // ----- generate_descriptions -----

  /** A request part: a resized JPEG photo, or the prompt filled with the markdown and the photo count. */
  datatype Part = ImagePart(data: Bytes, mimeType: string) | PromptPart(markdown: string, imagesCount: nat)

  /** The name photo `i` is logged under: `filenames[i]` when given, else "image_{i}". */
  function FileName(filenames: Option<seq<string>>, i: nat): string {
    if filenames.Some? && filenames.value != [] && i < |filenames.value| then filenames.value[i]
    else "image_" + NatToString(i)
  }

  /** Without usable file names, different photos are logged under different names. */
  lemma FallbackNamesDistinct(filenames: Option<seq<string>>, i: nat, j: nat)
    requires filenames.None? || filenames == Some([])
    requires i != j
    ensures FileName(filenames, i) != FileName(filenames, j)
  {
    var p := "image_";
    if FileName(filenames, i) == FileName(filenames, j) {
      assert (p + NatToString(i))[|p|..] == NatToString(i);
      assert (p + NatToString(j))[|p|..] == NatToString(j);
      NatToStringInjective(i, j);
    }
  }

  /** The photo parts, one per photo in order; the first resize that raises ends the request. */
  function ImageParts(photos: seq<Bytes>, filenames: Option<seq<string>>,
                      resize: (Bytes, string) -> Result<Bytes>): Result<seq<Part>>
  {
    if photos == [] then Ok([])
    else
      var n := |photos| - 1;
      match ImageParts(photos[..n], filenames, resize)
      case Err(e) => Err(e)
      case Ok(parts) =>
        match resize(photos[n], FileName(filenames, n))
        case Err(e) => Err(e)
        case Ok(b) => Ok(parts + [ImagePart(b, "image/jpeg")])
  }

  /** The request holds every photo, resized under its own file name, in order, as a JPEG. */
  lemma {:induction false} ImagePartsOk(photos: seq<Bytes>, filenames: Option<seq<string>>,
                                       resize: (Bytes, string) -> Result<Bytes>)
    requires ImageParts(photos, filenames, resize).Ok?
    ensures var parts := ImageParts(photos, filenames, resize).value;
            && |parts| == |photos|
            && forall i :: 0 <= i < |photos| ==>
                 resize(photos[i], FileName(filenames, i)).Ok?
                 && parts[i] == ImagePart(resize(photos[i], FileName(filenames, i)).value, "image/jpeg")
  {
    if photos != [] {
      var n := |photos| - 1;
      ImagePartsOk(photos[..n], filenames, resize);
      assert forall i :: 0 <= i < n ==> photos[..n][i] == photos[i];
    }
  }

  /** The parts are built exactly when no resize raises; otherwise the error is that of the first one. */
  lemma {:induction false} ImagePartsErr(photos: seq<Bytes>, filenames: Option<seq<string>>,
                                        resize: (Bytes, string) -> Result<Bytes>)
    requires ImageParts(photos, filenames, resize).Err?
    ensures exists i :: 0 <= i < |photos|
              && resize(photos[i], FileName(filenames, i)) == Err(ImageParts(photos, filenames, resize).msg)
              && forall k :: 0 <= k < i ==> resize(photos[k], FileName(filenames, k)).Ok?
  {
    var n := |photos| - 1;
    var prev := ImageParts(photos[..n], filenames, resize);
    if prev.Err? {
      ImagePartsErr(photos[..n], filenames, resize);
      var i :| 0 <= i < n
               && resize(photos[..n][i], FileName(filenames, i)) == Err(prev.msg)
               && forall k :: 0 <= k < i ==> resize(photos[..n][k], FileName(filenames, k)).Ok?;
      assert forall k :: 0 <= k <= i ==> photos[..n][k] == photos[k];
    } else {
      ImagePartsOk(photos[..n], filenames, resize);
    }
  }

  /** `result.get("images", [])`: a failed parse has no "images" key. */
  function ImagesOf(p: Parsed<Option<seq<Caption>>>): seq<Caption> {
    if p.Decoded? then p.json.GetOr([]) else []
  }

  /**
   * `generate_descriptions(photos, markdown_content, filenames)`. `api` is the model call (its
   * reply's `text`, which may be `None`); `decode` is `json.loads` followed by reading the
   * "images" key. Exceptions from resizing and from the model call are raised again; `sent`
   * lists the requests made.
   */
  method GenerateDescriptions(photos: seq<Bytes>, markdown: string, filenames: Option<seq<string>>,
                              resize: (Bytes, string) -> Result<Bytes>,
                              api: seq<Part> -> Result<Option<string>>,
                              decode: string -> Result<Option<seq<Caption>>>)
    returns (r: Result<seq<Caption>>, sent: seq<seq<Part>>)
    ensures photos == [] ==> r == Ok([]) && sent == []
    ensures photos != [] ==>
              match ImageParts(photos, filenames, resize)
              case Err(e) => r == Err(e) && sent == []
              case Ok(parts) =>
                && sent == [parts + [PromptPart(markdown, |photos|)]]
                && r == match api(sent[0])
                        case Err(e) => Err(e)
                        case Ok(text) => Ok(ImagesOf(ParseResponse(text.GetOr(""), decode)))
  {
    if photos == [] {
      return Ok([]), [];
    }
    var contents: seq<Part> := [];
    for i := 0 to |photos|
      invariant ImageParts(photos[..i], filenames, resize) == Ok(contents)
    {
      assert photos[..i + 1][..i] == photos[..i];
      var resized := resize(photos[i], FileName(filenames, i));
      if resized.Err? {
        ImagePartsFailed(photos, filenames, resize, i + 1);
        return Err(resized.msg), [];
      }
      contents := contents + [ImagePart(resized.value, "image/jpeg")];
    }
    assert photos[..|photos|] == photos;
    contents := contents + [PromptPart(markdown, |photos|)];
    sent := [contents];
    var reply := api(contents);
    if reply.Err? {
      return Err(reply.msg), sent;
    }
    var text := reply.value.GetOr("");
    r := Ok(ImagesOf(ParseResponse(text, decode)));
  }

  /** Once a prefix fails, the whole list fails with the same error. */
  lemma {:induction false} ImagePartsFailed(photos: seq<Bytes>, filenames: Option<seq<string>>,
                                           resize: (Bytes, string) -> Result<Bytes>, k: nat)
    requires k <= |photos| && ImageParts(photos[..k], filenames, resize).Err?
    ensures ImageParts(photos, filenames, resize) == ImageParts(photos[..k], filenames, resize)
    decreases |photos| - k
  {
    if k < |photos| {
      assert photos[..k + 1][..k] == photos[..k];
      ImagePartsFailed(photos, filenames, resize, k + 1);
    } else {
      assert photos[..k] == photos;
    }
  }
}
