/** The verification pipeline: encode each photograph, build one request
    (instructions first, then the images in order), call the model once,
    unwrap a fenced JSON block from the reply, parse it, keep the cited web
    sources, and classify what went wrong. */
module GeminiService {
  import opened Wrappers
  import opened JsString
  import opened Types

  // ----- Configuration -----

  /** The two environment variables the service reads: `API_KEY`, which is
      checked, and `VITE_API_KEY`, which is handed to the SDK. */
  datatype Env = Env(apiKey: Option<string>, viteApiKey: Option<string>)

  /** The API key variable is set to a non-empty string. */
  predicate HasApiKey(env: Env) {
    env.apiKey.Some? && env.apiKey.value != ""
  }

  // ----- Image encoding -----

  /** A selected photograph: its MIME type, and what the file reader produced
      for it (a data URL, or `None` when the result was not a string). */
  datatype ImageFile = ImageFile(mimeType: string, readResult: Option<string>)

  /** A request part. `data` is `None` where JavaScript would put `undefined`. */
  datatype Part = TextPart(text: string) | InlineDataPart(data: Option<string>, mimeType: string)

  /** The data URL's second comma-separated field, `None` when
      there is no comma. */
  function DataUrlPayload(dataUrl: string): (payload: Option<string>)
    ensures payload.None? <==> ',' !in dataUrl
    ensures payload.Some? ==> ',' !in payload.value
  {
    var fields := Split(dataUrl, ',');
    if |fields| > 1 then Some(fields[1]) else None
  }

  /** For a data URL `header,payload`, possibly followed by further
      comma-separated fields, the payload is exactly the part after the
      first comma. */
  lemma DataUrlPayloadOf(header: string, payload: string, rest: string)
    requires ',' !in header && ',' !in payload
    requires rest == [] || rest[0] == ','
    ensures DataUrlPayload(header + "," + payload + rest) == Some(payload)
  {
    var s := header + "," + payload + rest;
    assert s == header + [','] + (payload + rest);
    SplitFieldThenSep(header, ',', payload + rest);
    if rest == [] {
      assert payload + rest == payload;
      SplitFree(payload, ',');
    } else {
      assert payload + rest == payload + [','] + rest[1..];
      SplitFieldThenSep(payload, ',', rest[1..]);
    }
  }

  /** One inline image part: the payload of the data URL, or the empty string
      when the reader gave no string; the MIME type is the file's own. */
  function EncodeImage(file: ImageFile): (part: Part)
    ensures part.InlineDataPart? && part.mimeType == file.mimeType
    ensures file.readResult.None? ==> part.data == Some("")
    ensures file.readResult.Some? ==> part.data == DataUrlPayload(file.readResult.value)
  {
    var data := match file.readResult
      case Some(url) => DataUrlPayload(url)
      case None => Some("");
    InlineDataPart(data, file.mimeType)
  }

  // ----- Request -----

  const ModelName: string := "gemini-2.5-flash"

  /** The only tool in the request config. No response schema is sent: the
      expected JSON shape is described only in the prompt text. */
  datatype Tool = GoogleSearch

  datatype Request = Request(apiKey: Option<string>, model: string, parts: seq<Part>, tools: seq<Tool>)

  /** The request: the instruction text as part 0, then one inline part per
      photograph, in the order given. */
  function BuildRequest(prompt: string, apiKey: Option<string>, files: seq<ImageFile>): (request: Request)
    ensures |request.parts| == |files| + 1
    ensures request.parts[0] == TextPart(prompt)
    ensures forall k :: 0 <= k < |files| ==> request.parts[k + 1] == EncodeImage(files[k])
    ensures request.apiKey == apiKey && request.model == ModelName && request.tools == [GoogleSearch]
  {
    var imageParts := seq(|files|, k requires 0 <= k < |files| => EncodeImage(files[k]));
    Request(apiKey, ModelName, [TextPart(prompt)] + imageParts, [GoogleSearch])
  }

  /** Every photograph contributes exactly one image part, carrying its own
      MIME type, at its own position behind the prompt, and the prompt is the
      only text part. */
  lemma BuildRequestImageParts(prompt: string, apiKey: Option<string>, files: seq<ImageFile>)
    ensures var parts := BuildRequest(prompt, apiKey, files).parts;
      && (forall k :: 1 <= k < |parts| ==> parts[k].InlineDataPart? && parts[k].mimeType == files[k - 1].mimeType)
      && (forall k :: 0 <= k < |parts| ==> (parts[k].TextPart? <==> k == 0))
  {
    var parts := BuildRequest(prompt, apiKey, files).parts;
    forall k | 1 <= k < |parts|
      ensures parts[k].InlineDataPart? && parts[k].mimeType == files[k - 1].mimeType
    {
      assert parts[(k - 1) + 1] == EncodeImage(files[k - 1]);
    }
  }

  // ----- Model response -----

  datatype RawWeb = RawWeb(uri: Option<string>, title: Option<string>)
  /** A citation record as the SDK returns it; every level may be missing. */
  datatype GroundingChunk = GroundingChunk(web: Option<RawWeb>)
  datatype GroundingMetadata = GroundingMetadata(groundingChunks: Option<seq<GroundingChunk>>)
  datatype Candidate = Candidate(groundingMetadata: Option<GroundingMetadata>)

  /** A value thrown by the SDK: an `Error` with its message, or anything else. */
  datatype Thrown = ErrorObject(message: string) | OtherThrown

  /** What one `generateContent` call produced: a response (whose `text`
      getter may yield `undefined`), or a thrown value. */
  datatype ModelOutcome =
    | Replied(text: Option<string>, candidates: Option<seq<Candidate>>)
    | CallFailed(thrown: Thrown)

  /** The SDK client. Each call is logged, so the number of calls a run makes
      is visible; what the remote model answers is the oracle `respond`. */
  class ModelClient {
    const respond: Request -> ModelOutcome
    var requests: seq<Request>

    constructor (respond: Request -> ModelOutcome)
      ensures this.respond == respond && requests == []
    {
      this.respond := respond;
      requests := [];
    }

    method GenerateContent(request: Request) returns (response: ModelOutcome)
      modifies this
      ensures requests == old(requests) + [request]
      ensures response == respond(request)
    {
      requests := requests + [request];
      response := respond(request);
    }
  }

  // ----- Fenced block extraction -----
  //
  // The reply is matched against /```(?:json)?\s*([\s\S]*?)\s*```/. With
  // leftmost-first backtracking this finds the first fence, takes the
  // optional "json" tag whenever it is there, skips all white space after
  // it, and ends the capture at the first later fence, minus the white space
  // in front of that fence. FencedContent computes exactly that capture.

  predicate FenceAt(s: string, i: int) {
    0 <= i && i + 3 <= |s| && s[i] == '`' && s[i + 1] == '`' && s[i + 2] == '`'
  }

  predicate NoFenceIn(s: string, lo: int, hi: int) {
    forall k :: lo <= k < hi ==> !FenceAt(s, k)
  }

  predicate FenceFree(s: string) {
    NoFenceIn(s, 0, |s|)
  }

  /** An opening and a later, non-overlapping closing fence. */
  predicate HasFencePair(s: string) {
    exists i, j :: 0 <= i && i + 3 <= j < |s| && FenceAt(s, i) && FenceAt(s, j)
  }

  predicate SpacesBetween(s: string, lo: int, hi: int) {
    0 <= lo <= hi <= |s| && forall k :: lo <= k < hi ==> IsSpace(s[k])
  }

  predicate JsonTagAt(s: string, i: int) {
    0 <= i && i + 4 <= |s| && s[i] == 'j' && s[i + 1] == 's' && s[i + 2] == 'o' && s[i + 3] == 'n'
  }

  /** The first fence at or after `from`. */
  function FirstFence(s: string, from: nat): (r: Option<nat>)
    decreases |s| - from
    ensures r.Some? ==> from <= r.value && FenceAt(s, r.value) && NoFenceIn(s, from, r.value)
    ensures r.None? ==> NoFenceIn(s, from, |s|)
  {
    if from + 3 > |s| then None
    else if FenceAt(s, from) then Some(from)
    else FirstFence(s, from + 1)
  }

  lemma FirstFenceIs(s: string, from: nat, q: nat)
    requires from <= q && FenceAt(s, q) && NoFenceIn(s, from, q)
    ensures FirstFence(s, from) == Some(q)
  {
  }

  /** The first position at or after `i` that is not white space. */
  function SkipSpaces(s: string, i: nat): (j: nat)
    requires i <= |s|
    decreases |s| - i
    ensures SpacesBetween(s, i, j)
    ensures j < |s| ==> !IsSpace(s[j])
  {
    if i < |s| && IsSpace(s[i]) then SkipSpaces(s, i + 1) else i
  }

  lemma SkipSpacesIs(s: string, i: nat, j: nat)
    requires SpacesBetween(s, i, j) && (j < |s| ==> !IsSpace(s[j]))
    ensures SkipSpaces(s, i) == j
  {
  }

  /** Moves `hi` back over white space, but not below `lo`. */
  function BackOverSpaces(s: string, lo: nat, hi: nat): (e: nat)
    requires lo <= hi <= |s|
    decreases hi
    ensures lo <= e <= hi && SpacesBetween(s, e, hi)
    ensures e > lo ==> !IsSpace(s[e - 1])
  {
    if hi > lo && IsSpace(s[hi - 1]) then BackOverSpaces(s, lo, hi - 1) else hi
  }

  lemma BackOverSpacesIs(s: string, lo: nat, e: nat, hi: nat)
    requires lo <= e <= hi <= |s| && SpacesBetween(s, e, hi) && (e > lo ==> !IsSpace(s[e - 1]))
    ensures BackOverSpaces(s, lo, hi) == e
  {
  }

  /** Group 1 of the fence pattern, or `None` when the pattern does not match.
      The capture never starts or ends with white space and never contains a
      fence. */
  function FencedContent(s: string): (r: Option<string>)
    ensures r.Some? ==> Unpadded(r.value) && FenceFree(r.value)
  {
    match FirstFence(s, 0)
    case None => None
    case Some(p) =>
      var a := if JsonTagAt(s, p + 3) then p + 7 else p + 3;
      var c := SkipSpaces(s, a);
      match FirstFence(s, c)
      case None => None
      case Some(q) =>
        var e := BackOverSpaces(s, c, q);
        var inner := s[c..e];
        assert FenceFree(inner) by {
          forall k | 0 <= k < |inner| ensures !FenceAt(inner, k) {
            assert !FenceAt(s, c + k);
          }
        }
        Some(inner)
  }

  /** The pattern matches exactly when there is an opening fence and a later
      closing fence that does not overlap it. */
  lemma FencedContentMatches(s: string)
    ensures FencedContent(s).Some? <==> HasFencePair(s)
  {
    var first := FirstFence(s, 0);
    if first.Some? {
      var p := first.value;
      var a := if JsonTagAt(s, p + 3) then p + 7 else p + 3;
      var c := SkipSpaces(s, a);
      assert NoFenceIn(s, p + 3, c) by {
        forall k | p + 3 <= k < c ensures !FenceAt(s, k) {
          assert s[k] != '`';
        }
      }
      var second := FirstFence(s, c);
      if second.Some? {
        assert FenceAt(s, p) && FenceAt(s, second.value) && p + 3 <= second.value;
      }
    }
  }

  /** The capture located by positions: an opening fence at `p` with no
      earlier fence, the tag (if any) ending at `a`, white space up to `c`,
      content up to `e` in which no fence starts, white space up to the fence
      at `q`. */
  lemma FencedContentAt(s: string, p: nat, a: nat, c: nat, e: nat, q: nat)
    requires p + 3 <= a <= c <= e <= q && q + 3 <= |s|
    requires NoFenceIn(s, 0, p) && FenceAt(s, p) && FenceAt(s, q)
    requires (a == p + 7 && JsonTagAt(s, p + 3)) || (a == p + 3 && !JsonTagAt(s, p + 3))
    requires SpacesBetween(s, a, c) && SpacesBetween(s, e, q)
    requires c < e ==> !IsSpace(s[c]) && !IsSpace(s[e - 1])
    requires NoFenceIn(s, c, e)
    ensures FencedContent(s) == Some(s[c..e])
  {
    FirstFenceIs(s, 0, p);
    var start := if c == e then q else c;
    assert SpacesBetween(s, a, start);
    SkipSpacesIs(s, a, start);
    assert NoFenceIn(s, start, q) by {
      forall k | start <= k < q ensures !FenceAt(s, k) {
        if k >= e {
          assert IsSpace(s[k]);
        }
      }
    }
    FirstFenceIs(s, start, q);
    var end := if c == e then q else e;
    BackOverSpacesIs(s, start, end, q);
    assert s[start..end] == s[c..e];
    assert (if JsonTagAt(s, p + 3) then p + 7 else p + 3) == a;
  }

  lemma NoFenceBefore(s: string, before: string)
    requires FenceFree(before) && (before == [] || before[|before| - 1] != '`')
    requires |before| <= |s| && s[..|before|] == before
    ensures NoFenceIn(s, 0, |before|)
  {
    var p := |before|;
    forall k | 0 <= k < p ensures !FenceAt(s, k) {
      assert s[k] == before[k];
      if k + 3 <= p {
        assert !FenceAt(before, k);
        assert s[k + 1] == before[k + 1] && s[k + 2] == before[k + 2];
      } else {
        assert s[p - 1] == before[p - 1];
      }
    }
  }

  lemma ContentAt(s: string, c: nat, t: string)
    requires Unpadded(t) && FenceFree(t)
    requires c + |t| <= |s| && s[c..c + |t|] == t
    ensures t != [] ==> !IsSpace(s[c]) && !IsSpace(s[c + |t| - 1])
    ensures forall k :: c <= k && k + 3 <= c + |t| ==> !FenceAt(s, k)
  {
    assert forall k :: c <= k < c + |t| ==> s[k] == t[k - c];
    forall k | c <= k && k + 3 <= c + |t| ensures !FenceAt(s, k) {
      assert !FenceAt(t, k - c);
    }
  }

  /** A block written as `before`, a fence, `tag`, white space `w1`, the
      content `t`, white space `w2` and a closing fence is matched as written
      when: no fence starts in `before` or straddles its end; the tag is
      `json` or absent; the content is fence-free and unpadded; an untagged
      fence followed directly by the content does not make the content's own
      first four letters read as the tag; and content followed directly by
      the closing fence does not end in a backtick (which would move the
      closing fence one place to the left). */
  predicate BlockAsWritten(before: string, tag: string, w1: string, t: string, w2: string) {
    && FenceFree(before) && (before == [] || before[|before| - 1] != '`')
    && (tag == "" || tag == "json")
    && AllSpace(w1) && AllSpace(w2) && Unpadded(t) && FenceFree(t)
    && (tag == "json" || w1 != [] || !JsonTagAt(t, 0))
    && (w2 != [] || t == [] || t[|t| - 1] != '`')
  }

  /** A fenced block: the opening fence, the tag, white space, the content,
      white space and the closing fence. */
  function FencedBlock(tag: string, w1: string, t: string, w2: string): string {
    "```" + tag + w1 + t + w2 + "```"
  }

  predicate BlockSlices(s: string, before: string, tag: string, w1: string, t: string, w2: string)
  {
    var p := |before|;
    var a := p + 3 + |tag|;
    var c := a + |w1|;
    var e := c + |t|;
    var q := e + |w2|;
    && q + 3 <= |s|
    && s[..p] == before && s[p..p + 3] == "```" && s[p + 3..a] == tag
    && s[a..c] == w1 && s[c..e] == t && s[e..q] == w2 && s[q..q + 3] == "```"
  }

  lemma BlockSlicesOf(before: string, tag: string, w1: string, t: string, w2: string, rest: string)
    ensures BlockSlices(before + FencedBlock(tag, w1, t, w2) + rest, before, tag, w1, t, w2)
  {
    var s := before + FencedBlock(tag, w1, t, w2) + rest;
    var f := FencedBlock(tag, w1, t, w2);
    var p := |before|;
    var a := 3 + |tag|;
    var c := a + |w1|;
    var e := c + |t|;
    var q := e + |w2|;
    assert s[..p] == before;
    assert s[p..p + |f|] == f;
    BlockPieces(tag, w1, t, w2);
    SliceWithin(s, p, f, 0, 3);
    SliceWithin(s, p, f, 3, a);
    SliceWithin(s, p, f, a, c);
    SliceWithin(s, p, f, c, e);
    SliceWithin(s, p, f, e, q);
    SliceWithin(s, p, f, q, q + 3);
  }

  lemma BlockPieces(tag: string, w1: string, t: string, w2: string)
    ensures var f := FencedBlock(tag, w1, t, w2);
      var a := 3 + |tag|; var c := a + |w1|; var e := c + |t|; var q := e + |w2|;
      && |f| == q + 3
      && f[..3] == "```" && f[3..a] == tag && f[a..c] == w1
      && f[c..e] == t && f[e..q] == w2 && f[q..] == "```"
  {
  }

  lemma SliceWithin(s: string, p: nat, f: string, i: nat, j: nat)
    requires p + |f| <= |s| && s[p..p + |f|] == f && i <= j <= |f|
    ensures s[p + i..p + j] == f[i..j]
  {
    assert forall k :: i <= k < j ==> s[p + k] == f[k];
  }

  lemma FenceAtSlice(s: string, i: nat)
    requires i + 3 <= |s| && s[i..i + 3] == "```"
    ensures FenceAt(s, i)
  {
    var f := s[i..i + 3];
    assert s[i] == f[0] && s[i + 1] == f[1] && s[i + 2] == f[2];
  }

  lemma SpacesSlice(s: string, lo: nat, hi: nat, w: string)
    requires lo <= hi <= |s| && s[lo..hi] == w && AllSpace(w)
    ensures SpacesBetween(s, lo, hi)
  {
    forall k | lo <= k < hi ensures IsSpace(s[k]) { assert s[k] == w[k - lo]; }
  }

  /** After the opening fence comes the `json` tag exactly when it was
      written: an untagged fence is followed by white space, or by content
      that does not start with the tag and is itself followed by white space
      or a backtick. */
  lemma TagSlice(s: string, i: nat, tag: string, w1: string, t: string)
    requires tag == "" || tag == "json"
    requires AllSpace(w1) && (tag == "json" || w1 != [] || !JsonTagAt(t, 0))
    requires var b := i + |tag| + |w1|;
      && b + |t| < |s|
      && s[i..i + |tag|] == tag && s[i + |tag|..b] == w1 && s[b..b + |t|] == t
      && (s[b + |t|] == '`' || IsSpace(s[b + |t|]))
    ensures JsonTagAt(s, i) <==> tag == "json"
  {
    var b := i + |tag| + |w1|;
    if tag == "json" {
      var j := s[i..i + 4];
      assert s[i] == j[0] && s[i + 1] == j[1] && s[i + 2] == j[2] && s[i + 3] == j[3];
    } else if w1 != [] {
      assert s[i] == w1[0];
    } else if |t| >= 4 {
      assert s[i] == t[0] && s[i + 1] == t[1] && s[i + 2] == t[2] && s[i + 3] == t[3];
    }
  }

  /** The opening of a laid-out block: no earlier fence, the fence, the tag
      and the white space after it. */
  lemma OpeningOfSlices(s: string, before: string, tag: string, w1: string, t: string, w2: string)
    requires BlockSlices(s, before, tag, w1, t, w2)
    requires BlockAsWritten(before, tag, w1, t, w2)
    ensures var p := |before|; var a := p + 3 + |tag|;
      && NoFenceIn(s, 0, p) && FenceAt(s, p)
      && (JsonTagAt(s, p + 3) <==> tag == "json")
      && SpacesBetween(s, a, a + |w1|)
  {
    var p := |before|;
    var a := p + 3 + |tag|;
    NoFenceBefore(s, before);
    FenceAtSlice(s, p);
    SpacesSlice(s, a, a + |w1|, w1);
    AfterContent(s, before, tag, w1, t, w2);
    TagSlice(s, p + 3, tag, w1, t);
  }

  /** What follows the content is white space or the closing fence. */
  lemma AfterContent(s: string, before: string, tag: string, w1: string, t: string, w2: string)
    requires BlockSlices(s, before, tag, w1, t, w2) && AllSpace(w2)
    ensures var e := |before| + 3 + |tag| + |w1| + |t|;
      e < |s| && (s[e] == '`' || IsSpace(s[e]))
  {
    var e := |before| + 3 + |tag| + |w1| + |t|;
    FenceAtSlice(s, e + |w2|);
    if w2 != [] {
      assert s[e] == w2[0];
    }
  }

  /** The rest of a laid-out block: the content, the white space after it and
      the closing fence. */
  lemma ClosingOfSlices(s: string, before: string, tag: string, w1: string, t: string, w2: string)
    requires BlockSlices(s, before, tag, w1, t, w2)
    requires BlockAsWritten(before, tag, w1, t, w2)
    ensures var c := |before| + 3 + |tag| + |w1|; var e := c + |t|; var q := e + |w2|;
      && (c < e ==> !IsSpace(s[c]) && !IsSpace(s[e - 1]))
      && NoFenceIn(s, c, e)
      && SpacesBetween(s, e, q) && FenceAt(s, q)
  {
    var c := |before| + 3 + |tag| + |w1|;
    var e := c + |t|;
    var q := e + |w2|;
    ContentAt(s, c, t);
    SpacesSlice(s, e, q, w2);
    FenceAtSlice(s, q);
    forall k | c <= k < e ensures !FenceAt(s, k) {
      if k + 3 > e {
        if w2 != [] {
          assert IsSpace(s[e]);
        } else {
          assert s[e - 1] == t[|t| - 1];
        }
      }
    }
  }

  lemma FencedContentOfSlices(s: string, before: string, tag: string, w1: string, t: string, w2: string)
    requires BlockSlices(s, before, tag, w1, t, w2)
    requires BlockAsWritten(before, tag, w1, t, w2)
    ensures FencedContent(s) == Some(t)
  {
    var p := |before|;
    var a := p + 3 + |tag|;
    var c := a + |w1|;
    var e := c + |t|;
    var q := e + |w2|;
    OpeningOfSlices(s, before, tag, w1, t, w2);
    ClosingOfSlices(s, before, tag, w1, t, w2);
    assert s[c..e] == t;
    FencedContentAt(s, p, a, c, e, q);
  }

  /** A block matched as written (with or without the `json` tag, with or
      without white space around the content) yields its content as the
      capture, whatever follows the closing fence. */
  lemma FencedContentOfBlock(before: string, tag: string, w1: string, t: string, w2: string, rest: string)
    requires BlockAsWritten(before, tag, w1, t, w2)
    ensures FencedContent(before + FencedBlock(tag, w1, t, w2) + rest) == Some(t)
  {
    BlockSlicesOf(before, tag, w1, t, w2, rest);
    FencedContentOfSlices(before + FencedBlock(tag, w1, t, w2) + rest, before, tag, w1, t, w2);
  }

  /** The reply text handed to the JSON parser: the trimmed reply, replaced
      by the capture of the fence pattern when that capture is non-empty. */
  function Unwrap(reply: string): (text: string)
    ensures Unpadded(text)
    ensures text == Trim(reply) || (text != [] && FenceFree(text))
  {
    var trimmed := Trim(reply);
    match FencedContent(trimmed)
    case Some(inner) => if inner != [] then inner else trimmed
    case None => trimmed
  }

  lemma UnwrapOfFenced(s: string, t: string)
    requires Unpadded(s) && FencedContent(s) == Some(t) && t != []
    ensures Unwrap(s) == t
  {
    TrimUnpadded(s);
  }

  lemma FramedUnpadded(before: string, block: string, after: string)
    requires block != [] && block[0] == '`' && block[|block| - 1] == '`'
    requires before == [] || !IsSpace(before[0])
    requires after == [] || !IsSpace(after[|after| - 1])
    ensures Unpadded(before + block + after)
  {
    var s := before + block + after;
    assert s[0] == (if before == [] then '`' else before[0]);
    assert s[|s| - 1] == (if after == [] then '`' else after[|after| - 1]);
  }

  /** Whatever text surrounds a block matched as written, and whatever white
      space pads the reply, a non-empty block content is what the parser
      gets. */
  lemma UnwrapEmbedded(lead: string, before: string, tag: string, w1: string, t: string, w2: string,
                       after: string, trail: string)
    requires AllSpace(lead) && AllSpace(trail)
    requires before == [] || !IsSpace(before[0])
    requires after == [] || !IsSpace(after[|after| - 1])
    requires BlockAsWritten(before, tag, w1, t, w2) && t != []
    ensures Unwrap(lead + before + FencedBlock(tag, w1, t, w2) + after + trail) == t
  {
    var block := FencedBlock(tag, w1, t, w2);
    var core := before + block + after;
    assert lead + before + block + after + trail == lead + core + trail;
    assert block[0] == '`' && block[|block| - 1] == '`';
    FramedUnpadded(before, block, after);
    TrimPadded(lead, core, trail);
    FencedContentOfBlock(before, tag, w1, t, w2, after);
  }

  lemma UnwrapBare(t: string)
    requires Unpadded(t) && FenceFree(t)
    ensures Unwrap(t) == t
  {
    TrimUnpadded(t);
    FencedContentMatches(t);
  }

  /** A payload without fences and without surrounding white space reaches
      the parser unchanged whether it is sent bare or wrapped in a `json`
      block. */
  lemma UnwrapRoundTrip(t: string)
    requires t != [] && Unpadded(t) && FenceFree(t)
    ensures Unwrap("```json\n" + t + "\n```") == t
    ensures Unwrap(t) == t
  {
    assert "```json\n" + t + "\n```" == [] + [] + FencedBlock("json", "\n", t, "\n") + [] + [];
    UnwrapEmbedded([], [], "json", "\n", t, "\n", [], []);
    UnwrapBare(t);
  }

  /** Without an opening and a closing fence the text is only trimmed. */
  lemma UnwrapUnfenced(reply: string)
    requires !HasFencePair(Trim(reply))
    ensures Unwrap(reply) == Trim(reply)
  {
    FencedContentMatches(Trim(reply));
  }

  /** An empty capture is not used: the whole trimmed text goes to the
      parser, fences included. */
  lemma UnwrapEmptyCapture(reply: string)
    requires FencedContent(Trim(reply)) == Some([])
    ensures Unwrap(reply) == Trim(reply)
  {
  }

  /** An empty `json` block, for instance, reaches the parser as it is. */
  lemma UnwrapEmptyBlock()
    ensures Unwrap("```json\n\n```") == "```json\n\n```"
  {
    var s := "```json\n\n```";
    assert s == [] + FencedBlock("json", "\n", [], "\n") + [];
    FencedContentOfBlock([], "json", "\n", [], "\n", []);
    TrimUnpadded(s);
    UnwrapEmptyCapture(s);
  }

  // ----- Grounding sources -----

  /** A chunk is a citation when it has a web record whose URI is present
      and non-empty. */
  predicate IsCitation(chunk: GroundingChunk) {
    chunk.web.Some? && chunk.web.value.uri.Some? && chunk.web.value.uri.value != ""
  }

  /** The cast of a kept chunk to a source. A missing title becomes the empty
      string; both are falsy wherever the title is read. */
  function AsSource(chunk: GroundingChunk): (source: GroundingSource)
    requires IsCitation(chunk)
    ensures source.web.uri == chunk.web.value.uri.value && source.web.uri != ""
    ensures chunk.web.value.title.Some? ==> source.web.title == chunk.web.value.title.value
    ensures chunk.web.value.title.None? ==> source.web.title == ""
  {
    GroundingSource(WebReference(chunk.web.value.uri.value, chunk.web.value.title.GetOr("")))
  }

  /** The kept chunks, in order. */
  function ExtractSources(chunks: seq<GroundingChunk>): (sources: seq<GroundingSource>)
    ensures |sources| <= |chunks|
    ensures forall k :: 0 <= k < |sources| ==> sources[k].web.uri != ""
  {
    if chunks == [] then []
    else (if IsCitation(chunks[0]) then [AsSource(chunks[0])] else []) + ExtractSources(chunks[1..])
  }

  /** Filtering distributes over concatenation: order is preserved and
      nothing is de-duplicated. */
  lemma {:induction false} ExtractSourcesAppend(a: seq<GroundingChunk>, b: seq<GroundingChunk>)
    ensures ExtractSources(a + b) == ExtractSources(a) + ExtractSources(b)
  {
    if a != [] {
      assert (a + b)[0] == a[0];
      assert (a + b)[1..] == a[1..] + b;
      ExtractSourcesAppend(a[1..], b);
      var head := if IsCitation(a[0]) then [AsSource(a[0])] else [];
      assert ExtractSources(a + b) == head + ExtractSources(a[1..] + b);
      assert ExtractSources(a) == head + ExtractSources(a[1..]);
      assert head + (ExtractSources(a[1..]) + ExtractSources(b))
          == (head + ExtractSources(a[1..])) + ExtractSources(b);
    } else {
      assert a + b == b;
    }
  }

  /** A single chunk is kept exactly when it is a citation. */
  lemma ExtractSourcesSingle(chunk: GroundingChunk)
    ensures ExtractSources([chunk]) == if IsCitation(chunk) then [AsSource(chunk)] else []
  {
    assert [chunk][1..] == [];
  }

  /** When every chunk is a citation, each one becomes a source at its own
      position; when none is, there are no sources. */
  lemma {:induction false} ExtractSourcesAllOrNone(chunks: seq<GroundingChunk>)
    ensures (forall k :: 0 <= k < |chunks| ==> IsCitation(chunks[k])) ==>
      |ExtractSources(chunks)| == |chunks| &&
      forall k :: 0 <= k < |chunks| ==> ExtractSources(chunks)[k] == AsSource(chunks[k])
    ensures (forall k :: 0 <= k < |chunks| ==> !IsCitation(chunks[k])) ==> ExtractSources(chunks) == []
  {
    if chunks != [] {
      ExtractSourcesAllOrNone(chunks[1..]);
    }
  }

  /** A complete citation is kept and a `web` record without a URI is dropped. */
  lemma ExtractSourcesDropsMissingUri()
    ensures ExtractSources([
      GroundingChunk(Some(RawWeb(Some("x"), Some("t")))),
      GroundingChunk(Some(RawWeb(None, None)))])
      == [GroundingSource(WebReference("x", "t"))]
  {
    var c1 := GroundingChunk(Some(RawWeb(Some("x"), Some("t"))));
    var c2 := GroundingChunk(Some(RawWeb(None, None)));
    assert [c1, c2] == [c1] + [c2];
    ExtractSourcesAppend([c1], [c2]);
    ExtractSourcesSingle(c1);
    ExtractSourcesSingle(c2);
  }

  /** The grounding chunks recorded on the first candidate, read through
      optional chaining: a missing level anywhere gives the empty list, and
      otherwise the list is the first candidate's own, unchanged. */
  function GroundingChunksOf(candidates: Option<seq<Candidate>>): (chunks: seq<GroundingChunk>)
    ensures (|| candidates.None? || candidates.value == []
             || candidates.value[0].groundingMetadata.None?
             || candidates.value[0].groundingMetadata.value.groundingChunks.None?) ==> chunks == []
    ensures chunks != [] ==>
      && candidates.Some? && candidates.value != []
      && candidates.value[0].groundingMetadata.Some?
      && candidates.value[0].groundingMetadata.value.groundingChunks == Some(chunks)
    ensures candidates.Some? && candidates.value != [] && candidates.value[0].groundingMetadata.Some?
            && candidates.value[0].groundingMetadata.value.groundingChunks.Some? ==>
      chunks == candidates.value[0].groundingMetadata.value.groundingChunks.value
  {
    if candidates.None? || candidates.value == [] then []
    else match candidates.value[0].groundingMetadata
      case None => []
      case Some(metadata) => metadata.groundingChunks.GetOr([])
  }

  // ----- Errors -----

  const MissingKeyMessage: string := "API_KEY environment variable not set"
  /** The words the outer handler looks for to recognise a parse failure. */
  const FormatMarker: string := "formato inválido"
  const MalformedMessage: string :=
    "El modelo de IA devolvió una respuesta con un " + FormatMarker
    + ". Esto puede ser un problema temporal, por favor intenta de nuevo."
  const CommunicationMessage: string :=
    "Falló la comunicación con el servicio de IA. Por favor, verifica tu conexión a internet e intenta de nuevo."

  /** The errors the service raises: the missing key, the format error (or a
      foreign error whose message happens to carry the marker, which the
      handler passes through too), and the one communication error. */
  datatype VerifyError = ConfigurationError | MalformedResponse(message: string) | CommunicationError {
    function Message(): string {
      match this
      case ConfigurationError => MissingKeyMessage
      case MalformedResponse(message) => message
      case CommunicationError => CommunicationMessage
    }
  }

  /** The outer `catch`: an `Error` whose message includes the marker is
      rethrown as it is; anything else becomes the communication error. */
  function Rethrow(thrown: Thrown): (error: VerifyError)
    ensures error.MalformedResponse? <==> thrown.ErrorObject? && Includes(thrown.message, FormatMarker)
    ensures error.MalformedResponse? ==> error.message == thrown.message
    ensures !error.ConfigurationError?
  {
    if thrown.ErrorObject? && Includes(thrown.message, FormatMarker) then MalformedResponse(thrown.message)
    else CommunicationError
  }

  // ----- The pipeline -----

  datatype Verification = Verification(report: VerificationReport, sources: seq<GroundingSource>)

  /** Everything after the key check, as one function of what the single
      model call produced and of the JSON parser (`None` = `JSON.parse`
      threw). */
  function Settle(outcome: ModelOutcome, parse: string -> Option<VerificationReport>): (r: Result<Verification, VerifyError>)
    ensures r.Err? ==> !r.error.ConfigurationError?
    ensures r.Ok? ==> outcome.Replied? && outcome.text.Some?
  {
    match outcome
    case CallFailed(thrown) => Err(Rethrow(thrown))
    // `response.text.trim()` on `undefined` throws a TypeError without the marker.
    case Replied(None, _) => Err(CommunicationError)
    case Replied(Some(reply), candidates) =>
      match parse(Unwrap(reply))
      case None => Err(Rethrow(ErrorObject(MalformedMessage)))
      case Some(report) => Ok(Verification(report, ExtractSources(GroundingChunksOf(candidates))))
  }

  /** A parse failure surfaces as the format error itself, with its own
      message, not as the communication error. */
  lemma ParseFailureIsMalformed(outcome: ModelOutcome, parse: string -> Option<VerificationReport>)
    requires outcome.Replied? && outcome.text.Some? && parse(Unwrap(outcome.text.value)).None?
    ensures Settle(outcome, parse) == Err(MalformedResponse(MalformedMessage))
  {
    var a := "El modelo de IA devolvió una respuesta con un ";
    var b := ". Esto puede ser un problema temporal, por favor intenta de nuevo.";
    IncludesSpliced(a, FormatMarker, b);
    assert MalformedMessage == a + FormatMarker + b;
    assert Rethrow(ErrorObject(MalformedMessage)) == MalformedResponse(MalformedMessage);
  }

  /** A result is produced exactly when the reply had text and its unwrapped
      form parsed; it then holds exactly the parsed report and the kept
      sources, so there is never a partial report. */
  lemma SettleSucceedsOnlyOnParse(outcome: ModelOutcome, parse: string -> Option<VerificationReport>)
    ensures Settle(outcome, parse).Ok? <==>
      outcome.Replied? && outcome.text.Some? && parse(Unwrap(outcome.text.value)).Some?
    ensures Settle(outcome, parse).Ok? ==>
      Settle(outcome, parse).value ==
        Verification(parse(Unwrap(outcome.text.value)).value, ExtractSources(GroundingChunksOf(outcome.candidates)))
  {
  }

  /** Failures after the key check are of exactly two kinds: a format error,
      whose message carries the marker, or the communication error; the
      configuration error never comes from here. */
  lemma SettleErrorKinds(outcome: ModelOutcome, parse: string -> Option<VerificationReport>)
    ensures var r := Settle(outcome, parse);
      r.Err? ==> (r.error.MalformedResponse? && Includes(r.error.message, FormatMarker))
                     || r.error == CommunicationError
  {
    match outcome
    case CallFailed(thrown) =>
    case Replied(None, _) =>
    case Replied(Some(reply), _) =>
      if parse(Unwrap(reply)).None? {
        ParseFailureIsMalformed(outcome, parse);
        IncludesSpliced("El modelo de IA devolvió una respuesta con un ", FormatMarker,
          ". Esto puede ser un problema temporal, por favor intenta de nuevo.");
      }
  }

  /** A reply that wraps a well-formed payload in a ```json block settles to
      the report parsed from exactly that payload. */
  lemma SettleFencedReply(t: string, candidates: Option<seq<Candidate>>,
                          parse: string -> Option<VerificationReport>, report: VerificationReport)
    requires t != [] && Unpadded(t) && FenceFree(t) && parse(t) == Some(report)
    ensures Settle(Replied(Some("```json\n" + t + "\n```"), candidates), parse)
      == Ok(Verification(report, ExtractSources(GroundingChunksOf(candidates))))
  {
    UnwrapRoundTrip(t);
  }

  /** `verifyMedicinePackage`. Without the key it fails before encoding
      anything or calling the model; otherwise it makes exactly one call,
      with the request built from the prompt and the photographs, and its
      result is `Settle` of what that call produced. */
  method VerifyMedicinePackage(
    env: Env, prompt: string, imageFiles: seq<ImageFile>,
    client: ModelClient, parse: string -> Option<VerificationReport>)
    returns (r: Result<Verification, VerifyError>)
    modifies client
    ensures !HasApiKey(env) ==> r == Err(ConfigurationError) && client.requests == old(client.requests)
    ensures HasApiKey(env) ==>
      && client.requests == old(client.requests) + [BuildRequest(prompt, env.viteApiKey, imageFiles)]
      && r == Settle(client.respond(BuildRequest(prompt, env.viteApiKey, imageFiles)), parse)
  {
    if !HasApiKey(env) {
      return Err(ConfigurationError);
    }
    var request := BuildRequest(prompt, env.viteApiKey, imageFiles);
    var response := client.GenerateContent(request);
    ghost var settled := Settle(response, parse);
    if response.CallFailed? {
      return Err(Rethrow(response.thrown));
    }
    if response.text.None? {
      return Err(CommunicationError);
    }
    var text := Trim(response.text.value);
    var jsonMatch := FencedContent(text);
    if jsonMatch.Some? && jsonMatch.value != [] {
      text := jsonMatch.value;
    }
    assert text == Unwrap(response.text.value);
    var reportData := parse(text);
    if reportData.None? {
      return Err(Rethrow(ErrorObject(MalformedMessage)));
    }
    var groundingChunks := GroundingChunksOf(response.candidates);
    var sources := ExtractSources(groundingChunks);
    assert settled == Ok(Verification(reportData.value, sources));
    r := Ok(Verification(reportData.value, sources));
  }
}
