/** The whole-program review endpoint, `POST /api/gemini/review`: the request gate,
    the clipping of the source sent upstream, and the best-effort extraction of a JSON
    analysis from the model's free text, with the default analysis when none parses. */
module Review {
  import opened Wrappers
  import opened JsStrings
  import opened Json
  import opened Requests

  /** The most code units of source sent to the model. */
  const MaxPreview: nat := 12000

  /** Appended to clipped source so the model knows it sees only a part. */
  const TruncationMarker: JsString := Lit("\n... (truncated)")

  const MissingKeyError: JsString := Lit("Gemini API key missing. Set GEMINI_API_KEY in .env")
  const NoCodeError: JsString := Lit("No code provided")

  /** What the endpoint sends back. */
  datatype ReviewResponse =
    | ReviewRejected(rejection: Rejection)
    | Reviewed(analysis: Json, raw: JsString)

  /** The text holds a code unit that `trim` would keep. */
  ghost predicate HasNonWhiteSpace(s: JsString) {
    exists i :: 0 <= i < |s| && !IsWhiteSpace(s[i])
  }

  /** The code the reviewer accepts: a truthy string that still holds something
      once trimmed. */
  predicate IsReviewable(code: Option<Json>) {
    code.Some? && Truthy(code.value) && code.value.JStr? && Trim(code.value.s) != []
  }

  /** The source as it leaves the process: unchanged when it fits in 12000 code
      units; otherwise its first 12000 code units followed by the marker, so that
      clipping is never silent. */
  function Snippet(code: JsString): (r: JsString)
    ensures |code| <= MaxPreview ==> r == code
    ensures |code| > MaxPreview ==> |r| == MaxPreview + |TruncationMarker|
    ensures |code| > MaxPreview ==> r[..MaxPreview] == code[..MaxPreview] && r[MaxPreview..] == TruncationMarker
    ensures |r| <= MaxPreview + |TruncationMarker|
  {
    if |code| > MaxPreview then code[..MaxPreview] + TruncationMarker else code
  }

  /** The checks at the top of the handler, in their order: a missing key is a 401,
      then a missing, non-string or blank `code` is a 400; otherwise the snippet to
      send upstream. */
  function ReviewGate(apiKey: Option<JsString>, body: Option<Json>): (r: Result<JsString, Rejection>)
    ensures r.Failure? && r.error.status == 401 <==> !HasApiKey(apiKey)
    ensures r.Failure? && r.error.status == 400 <==>
      HasApiKey(apiKey) && !(CodeField(body).Some? && CodeField(body).value.JStr? && HasNonWhiteSpace(CodeField(body).value.s))
    ensures r.Failure? ==> r.error.status in {400, 401}  // a corollary of the two above
    ensures r.Failure? ==> r.error.error == (if r.error.status == 401 then MissingKeyError else NoCodeError)
    ensures r.Success? <==>
      (HasApiKey(apiKey) && CodeField(body).Some? && CodeField(body).value.JStr? && HasNonWhiteSpace(CodeField(body).value.s))
    ensures r.Success? ==>
      (CodeField(body).Some? && CodeField(body).value.JStr? && r.value == Snippet(CodeField(body).value.s))
  {
    var code := CodeField(body);
    if !HasApiKey(apiKey) then Failure(Rejection(401, MissingKeyError))
    else if !IsReviewable(code) then Failure(Rejection(400, NoCodeError))
    else Success(Snippet(code.value.s))
  }

  const Fence: JsString := Lit("```")

  predicate StartsWith(s: JsString, p: JsString) {
    |p| <= |s| && s[..|p|] == p
  }

  predicate EndsWith(s: JsString, p: JsString) {
    |p| <= |s| && s[|s| - |p|..] == p
  }

  /** ASCII letters to lower case, as the `i` flag compares them. */
  function AsciiLower(c: CodeUnit): CodeUnit {
    if 0x41 <= c <= 0x5A then c + 0x20 else c
  }

  /** Four code units that spell `json` in any mix of cases. */
  predicate IsJsonTag(s: JsString) {
    |s| == 4 && forall i :: 0 <= i < 4 ==> AsciiLower(s[i]) == Lit("json")[i]
  }

  /** The first fence replacement: an opening fence at the very start is removed,
      together with a `json` tag (in any case) right after it; the optional group is
      greedy, so the tag goes whenever it is there. */
  function StripLeadingFence(s: JsString): (r: JsString)
    ensures |r| <= |s| && r == s[|s| - |r|..]
    ensures !StartsWith(s, Fence) ==> r == s
    ensures StartsWith(s, Fence) && |s| >= |Fence| + 4 && IsJsonTag(s[|Fence|..|Fence| + 4]) ==>
      r == s[|Fence| + 4..]
    ensures StartsWith(s, Fence) && !(|s| >= |Fence| + 4 && IsJsonTag(s[|Fence|..|Fence| + 4])) ==>
      r == s[|Fence|..]
  {
    if StartsWith(s, Fence) then
      var rest := s[|Fence|..];
      if |rest| >= 4 && IsJsonTag(rest[..4]) then rest[4..] else rest
    else s
  }

  /** The second fence replacement: a closing fence at the very end is removed. */
  function StripTrailingFence(s: JsString): (r: JsString)
    ensures |r| <= |s| && r == s[..|r|]
    ensures EndsWith(s, Fence) ==> r == s[..|s| - |Fence|]
    ensures !EndsWith(s, Fence) ==> r == s
  {
    if EndsWith(s, Fence) then s[..|s| - |Fence|] else s
  }

  /** The text `extractJson` parses first: fences stripped, then trimmed; always a
      piece of the model's reply. */
  function Cleaned(text: JsString): (r: JsString)
    ensures IsInfix(r, text)
  {
    var unfenced := StripTrailingFence(StripLeadingFence(text));
    assert IsInfixAt(unfenced, text, |text| - |StripLeadingFence(text)|) by {
      var lead := StripLeadingFence(text);
      assert lead[..|unfenced|] == text[|text| - |lead|..][..|unfenced|];
    }
    var r := Trim(unfenced);
    InfixTransitive(r, unfenced, text);
    r
  }

  /** The extraction of a JSON value from the reply: `null` for empty text; the strict
      parse of the cleaned text when it parses; otherwise the parse of its
      first-`{`-to-last-`}` block when there is one; otherwise `null`. Whatever it
      returns is the parse of a piece of the text. */
  function ExtractJson(text: JsString, parse: JsString -> Option<Json>): (r: Option<Json>)
    ensures text == [] ==> r == None
    ensures text != [] && parse(Cleaned(text)).Some? ==> r == parse(Cleaned(text))
    ensures text != [] && parse(Cleaned(text)).None? && BraceBlock(Cleaned(text)).Some? ==>
      r == parse(BraceBlock(Cleaned(text)).value)
    ensures parse(Cleaned(text)).None? && BraceBlock(Cleaned(text)).None? ==> r == None
    ensures r.Some? ==> exists t :: IsInfix(t, text) && parse(t) == r
  {
    if text == [] then None
    else
      var cleaned := Cleaned(text);
      var strict := parse(cleaned);
      if strict.Some? then strict
      else
        match BraceBlock(cleaned)
        case Some(block) =>
          InfixTransitive(block, cleaned, text);
          parse(block)
        case None => None
  }

  /** The analysis sent when the reply yields nothing usable. */
  const DefaultAnalysis: Json := JObj(map[
    Lit("issues") := JArr([]),
    Lit("improvements") := JArr([]),
    Lit("complexity") := JObj(map[Lit("time") := JStr(Lit("N/A")), Lit("space") := JStr(Lit("N/A"))]),
    Lit("hints") := JArr([])])

  /** The extracted value, or the default when it is missing or falsy: never an error and never a falsy value; either
      the default or a value parsed from a piece of the reply. */
  function Analysis(raw: JsString, parse: JsString -> Option<Json>): (r: Json)
    ensures Truthy(r)
    ensures r == DefaultAnalysis || exists t :: IsInfix(t, raw) && parse(t) == Some(r)
  {
    var extracted := ExtractJson(raw, parse);
    if extracted.Some? && Truthy(extracted.value) then extracted.value else DefaultAnalysis
  }

  /** The review endpoint. The upstream model is a function from the snippet to the
      reply text (request and transport left out). */
  function ReviewEndpoint(apiKey: Option<JsString>, body: Option<Json>,
                          upstream: JsString -> JsString,
                          parse: JsString -> Option<Json>): (r: ReviewResponse)
    ensures r.ReviewRejected? <==> ReviewGate(apiKey, body).Failure?
    ensures r.ReviewRejected? ==> r.rejection == ReviewGate(apiKey, body).error
    ensures r.Reviewed? ==>
      (r.raw == upstream(ReviewGate(apiKey, body).value) && r.analysis == Analysis(r.raw, parse))
  {
    match ReviewGate(apiKey, body)
    case Failure(e) => ReviewRejected(e)
    case Success(snippet) =>
      var raw := upstream(snippet);
      Reviewed(Analysis(raw, parse), raw)
  }

  // ----- Properties -----

  /** Text that neither starts nor ends with a backtick or white space is parsed as it is. */
  lemma CleanedUnchanged(raw: JsString)
    requires raw != []
    requires raw[0] != 0x60 && !IsWhiteSpace(raw[0])
    requires raw[|raw| - 1] != 0x60 && !IsWhiteSpace(raw[|raw| - 1])
    ensures Cleaned(raw) == raw
  {
    assert Fence[0] == 0x60 && Fence[2] == 0x60;
    assert !StartsWith(raw, Fence) by {
      assert |Fence| <= |raw| ==> raw[..|Fence|][0] != Fence[0];
    }
    assert !EndsWith(raw, Fence) by {
      assert |Fence| <= |raw| ==> raw[|raw| - |Fence|..][2] != Fence[2];
    }
    assert TrimStart(raw) == raw;
    assert TrimEnd(raw) == raw;
  }

  /** A rejected request does not depend on the upstream model at all: it is decided
      before the request would be sent. */
  lemma RejectionPrecedesUpstream(apiKey: Option<JsString>, body: Option<Json>,
                                  up1: JsString -> JsString, up2: JsString -> JsString,
                                  parse: JsString -> Option<Json>)
    requires ReviewGate(apiKey, body).Failure?
    ensures ReviewEndpoint(apiKey, body, up1, parse) == ReviewEndpoint(apiKey, body, up2, parse)
    ensures ReviewEndpoint(apiKey, body, up1, parse).ReviewRejected?
  {
  }

  /** Source made of white space only is rejected with 400 when the key is set. */
  lemma BlankCodeRejected(apiKey: Option<JsString>, body: Option<Json>, code: JsString,
                          upstream: JsString -> JsString, parse: JsString -> Option<Json>)
    requires HasApiKey(apiKey)
    requires CodeField(body) == Some(JStr(code))
    requires forall i :: 0 <= i < |code| ==> IsWhiteSpace(code[i])
    ensures ReviewEndpoint(apiKey, body, upstream, parse) == ReviewRejected(Rejection(400, NoCodeError))
  {
  }

  /** The code units of the fence and of the `json` tag. */
  lemma FenceSpelling()
    ensures Fence == [0x60, 0x60, 0x60]
    ensures Lit("json") == [0x6A, 0x73, 0x6F, 0x6E]
  {
    assert Fence[0] == 0x60 && Fence[1] == 0x60 && Fence[2] == 0x60;
    var tag := Lit("json");
    assert tag[0] == 0x6A && tag[1] == 0x73 && tag[2] == 0x6F && tag[3] == 0x6E;
  }

  /** Stripping the closing fence of text that ends with one removes exactly it. */
  lemma ClosingFenceStripped(inner: JsString)
    ensures StripTrailingFence(inner + Fence) == inner
  {
    var s := inner + Fence;
    assert s[|s| - |Fence|..] == Fence;
    assert s[..|s| - |Fence|] == inner;
  }

  /** A reply fenced as ```json ... ``` is unwrapped to its body. */
  lemma TaggedFenceStripped(inner: JsString)
    ensures StripTrailingFence(StripLeadingFence(Fence + Lit("json") + inner + Fence)) == inner
  {
    FenceSpelling();
    var s := Fence + Lit("json") + inner + Fence;
    assert s[..3] == Fence;
    var rest := s[3..];
    assert rest == Lit("json") + (inner + Fence);
    assert rest[..4] == Lit("json");
    assert IsJsonTag(rest[..4]);
    assert StripLeadingFence(s) == inner + Fence;
    ClosingFenceStripped(inner);
  }

  /** A reply fenced as ``` ... ``` is unwrapped to its body, unless the body itself
      starts with `json` in some case, which the opening pattern then takes as the tag. */
  lemma UntaggedFenceStripped(inner: JsString)
    requires !(|inner| >= 4 && IsJsonTag(inner[..4]))
    ensures StripTrailingFence(StripLeadingFence(Fence + inner + Fence)) == inner
  {
    FenceSpelling();
    var s := Fence + inner + Fence;
    assert s[..3] == Fence;
    var rest := s[3..];
    assert rest == inner + Fence;
    if |inner| >= 4 {
      assert rest[..4] == inner[..4];
    } else if |rest| >= 4 {
      assert rest[|inner|] == 0x60;
      assert AsciiLower(rest[..4][|inner|]) != Lit("json")[|inner|];
    }
    assert StripLeadingFence(s) == inner + Fence;
    ClosingFenceStripped(inner);
  }

  /** A reply whose cleaned text parses to a truthy value is taken as the analysis. */
  lemma StrictParseWins(raw: JsString, parse: JsString -> Option<Json>, v: Json)
    requires raw != [] && parse(Cleaned(raw)) == Some(v) && Truthy(v)
    ensures Analysis(raw, parse) == v
  {
  }

  /** When the cleaned reply does not parse but its brace block parses to a truthy
      value, that value is the analysis. */
  lemma BlockParseWins(raw: JsString, parse: JsString -> Option<Json>)
    ensures var block := BraceBlock(Cleaned(raw));
      raw != [] && parse(Cleaned(raw)).None? && block.Some? &&
      parse(block.value).Some? && Truthy(parse(block.value).value) ==>
      Analysis(raw, parse) == parse(block.value).value
  {
  }

  /** When the cleaned reply does not parse and it has no brace block, or the block
      does not parse to a truthy value, the analysis is the default one. */
  lemma BlockFailureGivesDefault(raw: JsString, parse: JsString -> Option<Json>)
    requires parse(Cleaned(raw)).None?
    requires BraceBlock(Cleaned(raw)).None? ||
             !(parse(BraceBlock(Cleaned(raw)).value).Some? && Truthy(parse(BraceBlock(Cleaned(raw)).value).value))
    ensures Analysis(raw, parse) == DefaultAnalysis
  {
  }

  /** A reply fenced as ```json ... ``` is cleaned to its body, trimmed. */
  lemma TaggedFenceCleaned(inner: JsString)
    ensures Cleaned(Fence + Lit("json") + inner + Fence) == Trim(inner)
  {
    TaggedFenceStripped(inner);
  }

  /** A reply fenced as ``` ... ``` is cleaned to its body, trimmed, unless the body
      itself starts with `json` in some case. */
  lemma UntaggedFenceCleaned(inner: JsString)
    requires !(|inner| >= 4 && IsJsonTag(inner[..4]))
    ensures Cleaned(Fence + inner + Fence) == Trim(inner)
  {
    UntaggedFenceStripped(inner);
  }

  /** When no piece of the reply parses, the analysis is the default one. */
  lemma UnparsableReplyGivesDefault(raw: JsString, parse: JsString -> Option<Json>)
    requires forall t :: IsInfix(t, raw) ==> parse(t).None?
    ensures Analysis(raw, parse) == DefaultAnalysis
  {
  }

  /** A reply that strictly parses to a falsy value (`0`, `""`, `false`, `null`) is not
      retried on its brace block: `extractJson` returns it and the caller's `||`
      replaces it by the default. */
  lemma FalsyParseGivesDefault(raw: JsString, parse: JsString -> Option<Json>)
    requires raw != [] && parse(Cleaned(raw)).Some? && !Truthy(parse(Cleaned(raw)).value)
    ensures Analysis(raw, parse) == DefaultAnalysis
  {
  }

  /** The analysis is not checked against the requested schema: a reply that parses to
      a number is passed on as the analysis. */
  lemma AnalysisShapeUnchecked(parse: JsString -> Option<Json>)
    requires parse(Lit("5")) == Some(JNum(Finite(5.0)))
    ensures Analysis(Lit("5"), parse) == JNum(Finite(5.0))
  {
    var raw := Lit("5");
    assert |raw| == 1;
    assert raw[0] == 0x35;
    CleanedUnchanged(raw);
    var e := ExtractJson(raw, parse);
    assert e == Some(JNum(Finite(5.0)));
    assert Truthy(e.value);
  }

  /** The code units of the reply `not json`. */
  lemma NotJsonSpelling()
    ensures Lit("not json") == [0x6E, 0x6F, 0x74, 0x20, 0x6A, 0x73, 0x6F, 0x6E]
  {
    var raw := Lit("not json");
    assert |raw| == 8;
    assert raw[0] == 0x6E && raw[1] == 0x6F && raw[2] == 0x74 && raw[3] == 0x20;
    assert raw[4] == 0x6A && raw[5] == 0x73 && raw[6] == 0x6F && raw[7] == 0x6E;
  }

  /** `not json` has no fence and no surrounding white space to strip. */
  lemma NotJsonUnfenced()
    ensures Cleaned(Lit("not json")) == Lit("not json")
  {
    NotJsonSpelling();
    CleanedUnchanged(Lit("not json"));
  }

  /** `not json` holds no `{`, so there is no block to fall back on. */
  lemma NotJsonHasNoBlock()
    ensures BraceBlock(Lit("not json")) == None
  {
    NotJsonSpelling();
    var raw: JsString := [0x6E, 0x6F, 0x74, 0x20, 0x6A, 0x73, 0x6F, 0x6E];
    assert OpenBrace !in raw;
  }

  /** A one-line program with a reply that is not JSON yields the default analysis
      and echoes the reply. */
  lemma NotJsonScenario(apiKey: Option<JsString>, body: Option<Json>,
                        upstream: JsString -> JsString, parse: JsString -> Option<Json>)
    requires HasApiKey(apiKey)
    requires CodeField(body) == Some(JStr(Lit("System.out.println(1)")))
    requires upstream(Lit("System.out.println(1)")) == Lit("not json")
    requires parse(Lit("not json")) == None
    ensures ReviewEndpoint(apiKey, body, upstream, parse) == Reviewed(DefaultAnalysis, Lit("not json"))
  {
    var code := Lit("System.out.println(1)");
    assert |code| == 21 && code[0] == 0x53;
    assert Trim(code) != [];
    assert ReviewGate(apiKey, body) == Success(code);
    var raw := Lit("not json");
    NotJsonUnfenced();
    NotJsonHasNoBlock();
    var e := ExtractJson(raw, parse);
    assert e == None;
  }
}
