/** The per-line annotation endpoint, `POST /api/gemini/annotate`: the request gate,
    the split of the source into lines and the 500-line prompt cap, the parse of the
    model's reply with its brace-block fallback, and the filter-and-clip normalisation
    of every annotation the reply holds. */
module Annotate {
  import opened Wrappers
  import opened JsStrings
  import opened Json
  import opened Requests

  /** The most source lines sent to the model. */
  const MaxLines: nat := 500
  const MaxIssue: nat := 180
  const MaxHint: nat := 160
  const MaxSuggestion: nat := 180
  const MaxSteps: nat := 8
  const MaxStep: nat := 160

  const MissingKeyError: JsString := Lit("Gemini API key missing")
  const CodeRequiredError: JsString := Lit("code required")

  const KeyLines: JsString := Lit("lines")
  const KeyLine: JsString := Lit("line")
  const KeyIssue: JsString := Lit("issue")
  const KeyHint: JsString := Lit("hint")
  const KeySeverity: JsString := Lit("severity")
  const KeySuggestion: JsString := Lit("suggestion")
  const KeySteps: JsString := Lit("explanationSteps")

  /** The six property names of an annotation are six different strings. */
  lemma AnnotationKeysDistinct()
    ensures |KeyLine| == 4 && |KeyIssue| == 5 && |KeyHint| == 4
    ensures |KeySeverity| == 8 && |KeySuggestion| == 10 && |KeySteps| == 16
    ensures KeyLine != KeyHint
  {
    assert KeyLine[0] == 0x6C && KeyHint[0] == 0x68;
  }

  datatype Severity = Info | Warning | Error

  /** The three severities the endpoint lets through, as they are spelled. */
  function SeverityName(s: Severity): JsString {
    match s
    case Info => Lit("info")
    case Warning => Lit("warning")
    case Error => Lit("error")
  }

  /** One normalised annotation, as the endpoint emits it. */
  datatype Annotation = Annotation(
    line: real,
    issue: JsString,
    hint: JsString,
    severity: Severity,
    suggestion: JsString,
    explanationSteps: seq<JsString>)

  /** What the endpoint sends back: a rejection, a batch, or the 500 of the catch-all
      handler when an element of `lines` is `null` and reading its `line` throws. */
  datatype AnnotateResponse =
    | AnnotateRejected(rejection: Rejection)
    | Annotated(lines: seq<Annotation>, truncated: bool)
    | AnnotateFailed

  /** The checks at the top of the handler: a missing key, then a missing, falsy or
      non-string `code`, each a 400. The empty string is refused; white space is not. */
  function AnnotateGate(apiKey: Option<JsString>, body: Option<Json>): (r: Result<JsString, Rejection>)
    ensures r.Failure? ==> r.error.status == 400
    ensures r.Failure? && r.error.error == MissingKeyError <==> !HasApiKey(apiKey)
    ensures r.Failure? ==> r.error.error == (if HasApiKey(apiKey) then CodeRequiredError else MissingKeyError)
    ensures r.Success? <==>
      (HasApiKey(apiKey) && CodeField(body).Some? && CodeField(body).value.JStr? && CodeField(body).value.s != [])
    ensures r.Success? ==> r.value == CodeField(body).value.s
  {
    assert |MissingKeyError| == 22 && |CodeRequiredError| == 13;
    var code := CodeField(body);
    if !HasApiKey(apiKey) then Failure(Rejection(400, MissingKeyError))
    else if !(code.Some? && Truthy(code.value) && code.value.JStr?) then Failure(Rejection(400, CodeRequiredError))
    else Success(code.value.s)
  }

  /** The source lines: the code split at every line feed. */
  function SourceLines(code: JsString): seq<JsString> {
    Split(code, LineFeed)
  }

  /** The source has more lines than the prompt takes. */
  predicate IsTruncated(code: JsString) {
    |SourceLines(code)| > MaxLines
  }

  /** The code placed in the prompt, its first 500 lines joined again: a prefix
      of the source made of exactly its first 500 lines, and the whole source when it
      has no more lines than that. */
  function PromptCode(code: JsString): (r: JsString)
    ensures Split(r, LineFeed) == Take(SourceLines(code), MaxLines)
    ensures |r| <= |code| && r == code[..|r|]
    ensures !IsTruncated(code) ==> r == code
  {
    var lines := SourceLines(code);
    var first := Take(lines, MaxLines);
    JoinSplit(code, LineFeed);
    JoinTakeIsPrefix(lines, LineFeed, MaxLines);
    SplitJoin(first, LineFeed);
    Join(first, LineFeed)
  }

  /** The `truncated` flag is set exactly when the source holds 500 or more line feeds. */
  lemma TruncatedCountsLineFeeds(code: JsString)
    ensures IsTruncated(code) <==> Count(code, LineFeed) >= MaxLines
  {
    SplitLength(code, LineFeed);
  }

  /** The reply parsed as a whole; when that gives nothing truthy, the parse of its
      brace block if it has one; with no block the first result stays. */
  function ParseReply(text: JsString, parse: JsString -> Option<Json>): (r: Option<Json>)
    ensures parse(text).Some? && Truthy(parse(text).value) ==> r == parse(text)
    ensures !(parse(text).Some? && Truthy(parse(text).value)) && BraceBlock(text).Some? ==>
      r == parse(BraceBlock(text).value)
    ensures !(parse(text).Some? && Truthy(parse(text).value)) && BraceBlock(text).None? ==>
      r == parse(text)
    ensures r.Some? ==> exists t :: IsInfix(t, text) && parse(t) == r
  {
    assert IsInfixAt(text, text, 0);
    var first := parse(text);
    if first.Some? && Truthy(first.value) then first
    else
      match BraceBlock(text)
      case Some(m) => parse(m)
      case None => first
  }

  /** The reply's `lines` array, when the parsed reply is truthy and has one; None sends
      the empty batch. */
  function ReplyItems(text: JsString, parse: JsString -> Option<Json>): (r: Option<seq<Json>>)
    ensures r.Some? <==> var p := ParseReply(text, parse);
      p.Some? && Truthy(p.value) && Get(p.value, KeyLines).Some? && Get(p.value, KeyLines).value.JArr?
    ensures r.Some? ==> Get(ParseReply(text, parse).value, KeyLines) == Some(JArr(r.value))
  {
    var parsed := ParseReply(text, parse);
    if parsed.Some? && Truthy(parsed.value) then
      match Get(parsed.value, KeyLines)
      case Some(JArr(xs)) => Some(xs)
      case _ => None
    else None
  }

  /** The filter's test: the item's `line` is a number at least 1 and at most the line
      count, with JavaScript's comparisons (both false for NaN). */
  predicate InRange(l: Json, lineCount: nat) {
    match Get(l, KeyLine)
    case Some(JNum(n)) => AtLeast(n, 1.0) && AtMost(n, lineCount as real)
    case _ => false
  }

  /** The filter keeps exactly the items whose `line` is a finite number between 1 and
      the line count: fractions pass, NaN and the infinities do not. */
  lemma LineFilterExact(l: Json, lineCount: nat)
    ensures InRange(l, lineCount) <==>
      (Get(l, KeyLine).Some? && Get(l, KeyLine).value.JNum? && Get(l, KeyLine).value.n.Finite?
       && 1.0 <= Get(l, KeyLine).value.n.value <= lineCount as real)
  {
    match Get(l, KeyLine)
    case Some(JNum(n)) =>
      if AtLeast(n, 1.0) && AtMost(n, lineCount as real) {
        BetweenIsFinite(n, 1.0, lineCount as real);
      }
    case _ =>
  }

  /** `a` is a subsequence of `b`: `b` with some elements removed, order kept. */
  ghost predicate IsSubsequence<T>(a: seq<T>, b: seq<T>)
    decreases |b|
  {
    if a == [] then true
    else if b == [] then false
    else (a[0] == b[0] && IsSubsequence(a[1..], b[1..])) || IsSubsequence(a, b[1..])
  }

  /** The `filter` step: the items in range, in their order, each as often as it occurs;
      every other item is dropped (never clamped). */
  function Kept(items: seq<Json>, lineCount: nat): (r: seq<Json>)
    ensures IsSubsequence(r, items)
    ensures forall k :: 0 <= k < |r| ==> InRange(r[k], lineCount)
    ensures forall x :: multiset(r)[x] == if InRange(x, lineCount) then multiset(items)[x] else 0
  {
    if items == [] then []
    else
      var rest := Kept(items[1..], lineCount);
      assert items == [items[0]] + items[1..];
      if InRange(items[0], lineCount) then
        assert ([items[0]] + rest)[1..] == rest;
        [items[0]] + rest
      else
        assert rest == [] || IsSubsequence(rest, items[1..]);
        rest
  }

  /** A text field converted with a fallback to `''`: a missing or falsy value becomes
      the empty string, a string stays as it is, anything else is its `String(x)`. */
  function Coerced(v: Option<Json>, finiteToString: real -> JsString): (r: JsString)
    ensures v.None? || !Truthy(v.value) ==> r == []
    ensures v.Some? && v.value.JStr? ==> r == v.value.s
  {
    if v.Some? && Truthy(v.value) then ToJsString(v.value, finiteToString) else []
  }

  /** `r` is `s.slice(0, n)`: the first `n` code units, or all of `s` when shorter. */
  predicate IsClipOf(r: JsString, s: JsString, n: nat) {
    |r| == Min(|s|, n) && r == s[..|r|]
  }

  /** The severity check: one of the three names is kept as it is; anything else,
      including a name in another case or a non-string, is `info`. */
  function SeverityOf(v: Option<Json>): (r: Severity)
    ensures forall s :: v == Some(JStr(SeverityName(s))) ==> r == s
    ensures (forall s :: v != Some(JStr(SeverityName(s)))) ==> r == Info
  {
    assert |SeverityName(Info)| == 4 && |SeverityName(Warning)| == 7 && |SeverityName(Error)| == 5;
    if v == Some(JStr(SeverityName(Warning))) then Warning
    else if v == Some(JStr(SeverityName(Error))) then Error
    else Info
  }

  /** The explanation steps: for an array, its first 8 elements, each converted to text
      and clipped to 160 code units; for anything else, no steps. */
  function Steps(v: Option<Json>, finiteToString: real -> JsString): (r: seq<JsString>)
    ensures |r| <= MaxSteps
    ensures forall k :: 0 <= k < |r| ==> |r[k]| <= MaxStep
    ensures v.Some? && v.value.JArr? ==> |r| == Min(|v.value.items|, MaxSteps)
    ensures v.Some? && v.value.JArr? ==>
      forall k :: 0 <= k < |r| ==> IsClipOf(r[k], ToJsString(v.value.items[k], finiteToString), MaxStep)
    ensures !(v.Some? && v.value.JArr?) ==> r == []
  {
    match v
    case Some(JArr(xs)) =>
      var first := Take(xs, MaxSteps);
      seq(|first|, k requires 0 <= k < |first| => Take(ToJsString(first[k], finiteToString), MaxStep))
    case _ => []
  }

  /** The bounds every emitted annotation keeps. */
  predicate IsNormalised(a: Annotation, lineCount: nat) {
    1.0 <= a.line <= lineCount as real
    && |a.issue| <= MaxIssue && |a.hint| <= MaxHint && |a.suggestion| <= MaxSuggestion
    && |a.explanationSteps| <= MaxSteps
    && forall k :: 0 <= k < |a.explanationSteps| ==> |a.explanationSteps[k]| <= MaxStep
  }

  /** The `map` step on one kept item: the line as given, the three texts coerced and
      clipped, the severity forced into the three names, the steps clipped. */
  function NormaliseItem(l: Json, lineCount: nat, finiteToString: real -> JsString): (a: Annotation)
    requires InRange(l, lineCount)
    ensures IsNormalised(a, lineCount)
    ensures Get(l, KeyLine) == Some(JNum(Finite(a.line)))
    ensures IsClipOf(a.issue, Coerced(Get(l, KeyIssue), finiteToString), MaxIssue)
    ensures IsClipOf(a.hint, Coerced(Get(l, KeyHint), finiteToString), MaxHint)
    ensures IsClipOf(a.suggestion, Coerced(Get(l, KeySuggestion), finiteToString), MaxSuggestion)
    ensures a.severity == SeverityOf(Get(l, KeySeverity))
    ensures a.explanationSteps == Steps(Get(l, KeySteps), finiteToString)
  {
    LineFilterExact(l, lineCount);
    Annotation(
      Get(l, KeyLine).value.n.value,
      Take(Coerced(Get(l, KeyIssue), finiteToString), MaxIssue),
      Take(Coerced(Get(l, KeyHint), finiteToString), MaxHint),
      SeverityOf(Get(l, KeySeverity)),
      Take(Coerced(Get(l, KeySuggestion), finiteToString), MaxSuggestion),
      Steps(Get(l, KeySteps), finiteToString))
  }

  /** The filter, then the per-item normalisation: None when an element is `null`
      (reading its `line` throws); otherwise the normalised kept items, in order. */
  function Normalise(items: seq<Json>, lineCount: nat, finiteToString: real -> JsString): (r: Option<seq<Annotation>>)
    ensures r.None? <==> JNull in items
    ensures r.Some? ==> |r.value| == |Kept(items, lineCount)|
    ensures r.Some? ==>
      forall k :: 0 <= k < |r.value| ==> r.value[k] == NormaliseItem(Kept(items, lineCount)[k], lineCount, finiteToString)
    ensures r.Some? ==> forall k :: 0 <= k < |r.value| ==> IsNormalised(r.value[k], lineCount)
  {
    if JNull in items then None
    else
      var kept := Kept(items, lineCount);
      Some(seq(|kept|, k requires 0 <= k < |kept| => NormaliseItem(kept[k], lineCount, finiteToString)))
  }

  /** The annotate endpoint. The upstream model is a function from the prompt code to
      the reply text (request and transport left out). */
  function AnnotateEndpoint(apiKey: Option<JsString>, body: Option<Json>,
                            upstream: JsString -> JsString,
                            parse: JsString -> Option<Json>,
                            finiteToString: real -> JsString): (r: AnnotateResponse)
    ensures r.AnnotateRejected? <==> AnnotateGate(apiKey, body).Failure?
    ensures r.AnnotateRejected? ==> r.rejection == AnnotateGate(apiKey, body).error
    ensures r.AnnotateFailed? <==>
      (AnnotateGate(apiKey, body).Success? &&
       var items := ReplyItems(upstream(PromptCode(AnnotateGate(apiKey, body).value)), parse);
       items.Some? && JNull in items.value)
    ensures r.Annotated? ==> r.truncated == IsTruncated(AnnotateGate(apiKey, body).value)
    ensures r.Annotated? ==> var n := |SourceLines(AnnotateGate(apiKey, body).value)|;
      forall k :: 0 <= k < |r.lines| ==> IsNormalised(r.lines[k], n)
    ensures r.Annotated? ==>
      var code := AnnotateGate(apiKey, body).value;
      var items := ReplyItems(upstream(PromptCode(code)), parse);
      (items.None? ==> r.lines == []) &&
      (items.Some? ==> Normalise(items.value, |SourceLines(code)|, finiteToString) == Some(r.lines))
  {
    match AnnotateGate(apiKey, body)
    case Failure(e) => AnnotateRejected(e)
    case Success(code) =>
      var lines := SourceLines(code);
      var truncated := |lines| > MaxLines;
      var text := upstream(PromptCode(code));
      match ReplyItems(text, parse)
      case None => Annotated([], truncated)
      case Some(items) =>
        match Normalise(items, |lines|, finiteToString)
        case None => AnnotateFailed
        case Some(clean) => Annotated(clean, truncated)
  }

  /** An annotation as the endpoint serialises it. */
  function ToJson(a: Annotation): Json {
    JObj(map[
      KeyLine := JNum(Finite(a.line)),
      KeyIssue := JStr(a.issue),
      KeyHint := JStr(a.hint),
      KeySeverity := JStr(SeverityName(a.severity)),
      KeySuggestion := JStr(a.suggestion),
      KeySteps := JArr(seq(|a.explanationSteps|, k requires 0 <= k < |a.explanationSteps| => JStr(a.explanationSteps[k])))])
  }

  // ----- Properties -----

  /** A rejected request does not depend on the upstream model at all. */
  lemma RejectionPrecedesUpstream(apiKey: Option<JsString>, body: Option<Json>,
                                  up1: JsString -> JsString, up2: JsString -> JsString,
                                  parse: JsString -> Option<Json>, finiteToString: real -> JsString)
    requires AnnotateGate(apiKey, body).Failure?
    ensures AnnotateEndpoint(apiKey, body, up1, parse, finiteToString)
         == AnnotateEndpoint(apiKey, body, up2, parse, finiteToString)
  {
  }

  /** A reply without a usable `lines` array, however malformed, is an empty batch,
      with `truncated` still computed from the source. */
  lemma UnusableReplyGivesEmptyBatch(apiKey: Option<JsString>, body: Option<Json>,
                                     upstream: JsString -> JsString,
                                     parse: JsString -> Option<Json>, finiteToString: real -> JsString)
    requires AnnotateGate(apiKey, body).Success?
    requires ReplyItems(upstream(PromptCode(AnnotateGate(apiKey, body).value)), parse).None?
    ensures AnnotateEndpoint(apiKey, body, upstream, parse, finiteToString)
         == Annotated([], IsTruncated(AnnotateGate(apiKey, body).value))
  {
  }

  /** Whatever the reply, a successful batch references only lines that exist. */
  lemma EmittedLinesExist(apiKey: Option<JsString>, body: Option<Json>,
                          upstream: JsString -> JsString,
                          parse: JsString -> Option<Json>, finiteToString: real -> JsString)
    requires AnnotateEndpoint(apiKey, body, upstream, parse, finiteToString).Annotated?
    ensures var r := AnnotateEndpoint(apiKey, body, upstream, parse, finiteToString);
      var n := |SourceLines(CodeField(body).value.s)|;
      forall k :: 0 <= k < |r.lines| ==> 1.0 <= r.lines[k].line <= n as real
  {
  }

  /** Serialising one normalised annotation and normalising it again gives it back. */
  lemma ItemRoundTrip(a: Annotation, lineCount: nat, finiteToString: real -> JsString)
    requires IsNormalised(a, lineCount)
    ensures InRange(ToJson(a), lineCount)
    ensures NormaliseItem(ToJson(a), lineCount, finiteToString) == a
  {
    AnnotationKeysDistinct();
    var j := ToJson(a);
    assert Get(j, KeyLine) == Some(JNum(Finite(a.line)));
    assert Get(j, KeyIssue) == Some(JStr(a.issue));
    assert Get(j, KeyHint) == Some(JStr(a.hint));
    assert Get(j, KeySeverity) == Some(JStr(SeverityName(a.severity)));
    assert Get(j, KeySuggestion) == Some(JStr(a.suggestion));
    var steps := seq(|a.explanationSteps|, k requires 0 <= k < |a.explanationSteps| => JStr(a.explanationSteps[k]));
    assert Get(j, KeySteps) == Some(JArr(steps));
    var b := NormaliseItem(j, lineCount, finiteToString);
    assert b.issue == a.issue;
    assert b.hint == a.hint;
    assert b.suggestion == a.suggestion;
    assert b.severity == a.severity;
    assert b.explanationSteps == a.explanationSteps;
  }

  /** An all-in-range list passes the filter whole. */
  lemma {:induction false} KeptAll(items: seq<Json>, lineCount: nat)
    requires forall k :: 0 <= k < |items| ==> InRange(items[k], lineCount)
    ensures Kept(items, lineCount) == items
  {
    if items != [] {
      KeptAll(items[1..], lineCount);
      assert items == [items[0]] + items[1..];
    }
  }

  /** Normalising an already normalised batch again yields the same batch. */
  lemma NormaliseIdempotent(batch: seq<Annotation>, lineCount: nat, finiteToString: real -> JsString)
    requires forall k :: 0 <= k < |batch| ==> IsNormalised(batch[k], lineCount)
    ensures Normalise(seq(|batch|, k requires 0 <= k < |batch| => ToJson(batch[k])), lineCount, finiteToString)
         == Some(batch)
  {
    var items := seq(|batch|, k requires 0 <= k < |batch| => ToJson(batch[k]));
    forall k | 0 <= k < |batch|
      ensures items[k] != JNull && InRange(items[k], lineCount)
      ensures NormaliseItem(items[k], lineCount, finiteToString) == batch[k]
    {
      ItemRoundTrip(batch[k], lineCount, finiteToString);
    }
    NormaliseWhole(items, batch, lineCount, finiteToString);
  }

  /** A list of in-range items, none `null`, normalises item by item. */
  lemma NormaliseWhole(items: seq<Json>, batch: seq<Annotation>, lineCount: nat, finiteToString: real -> JsString)
    requires |items| == |batch|
    requires forall k :: 0 <= k < |items| ==> items[k] != JNull && InRange(items[k], lineCount)
    requires forall k :: 0 <= k < |items| ==> NormaliseItem(items[k], lineCount, finiteToString) == batch[k]
    ensures Normalise(items, lineCount, finiteToString) == Some(batch)
  {
    assert JNull !in items;
    KeptAll(items, lineCount);
    var each := seq(|items|, k requires 0 <= k < |items| => NormaliseItem(items[k], lineCount, finiteToString));
    assert Normalise(items, lineCount, finiteToString) == Some(each);
    assert each == batch;
  }

  /** A one-item list whose item is in range normalises to that item's annotation. */
  lemma NormaliseSingle(item: Json, lineCount: nat, finiteToString: real -> JsString)
    requires InRange(item, lineCount)
    ensures Normalise([item], lineCount, finiteToString) == Some([NormaliseItem(item, lineCount, finiteToString)])
  {
    assert item != JNull;
    KeptAll([item], lineCount);
    var r := Normalise([item], lineCount, finiteToString);
    assert r.value[0] == NormaliseItem(item, lineCount, finiteToString);
    assert r.value == [NormaliseItem(item, lineCount, finiteToString)];
  }

  /** The empty string is refused as `code`, with 400. */
  lemma EmptyCodeRejected(apiKey: Option<JsString>, body: Option<Json>)
    requires HasApiKey(apiKey) && CodeField(body) == Some(JStr([]))
    ensures AnnotateGate(apiKey, body) == Failure(Rejection(400, CodeRequiredError))
  {
  }

  /** Source made of white space only is accepted, unlike on the review endpoint. */
  lemma BlankCodeAccepted(apiKey: Option<JsString>, body: Option<Json>, code: JsString)
    requires HasApiKey(apiKey) && CodeField(body) == Some(JStr(code)) && code != []
    requires forall i :: 0 <= i < |code| ==> IsWhiteSpace(code[i])
    ensures AnnotateGate(apiKey, body) == Success(code)
  {
  }

  /** The item of the invalid-severity scenario. */
  function BadSeverityItem(): Json {
    JObj(map[KeyLine := JNum(Finite(3.0)), KeyIssue := JStr(Lit("unused variable")), KeySeverity := JStr(Lit("BAD"))])
  }

  /** An unknown severity becomes `info`; missing texts become empty. */
  lemma BadSeverityItemNormalised(finiteToString: real -> JsString)
    ensures InRange(BadSeverityItem(), 5)
    ensures NormaliseItem(BadSeverityItem(), 5, finiteToString) == Annotation(3.0, Lit("unused variable"), [], Info, [], [])
  {
    AnnotationKeysDistinct();
    var item := BadSeverityItem();
    assert Get(item, KeyLine) == Some(JNum(Finite(3.0)));
    assert Get(item, KeyIssue) == Some(JStr(Lit("unused variable")));
    assert Get(item, KeySeverity) == Some(JStr(Lit("BAD")));
    assert Get(item, KeyHint) == None && Get(item, KeySuggestion) == None && Get(item, KeySteps) == None;
    var a := NormaliseItem(item, 5, finiteToString);
    assert a.severity == Info by {
      assert |Lit("BAD")| == 3;
      assert |SeverityName(Info)| == 4 && |SeverityName(Warning)| == 7 && |SeverityName(Error)| == 5;
    }
    assert a.issue == Lit("unused variable");
  }

  /** A reply item with an invalid severity over a five-line source comes out as one
      annotation with severity `info` and the other texts empty. */
  lemma InvalidSeverityScenario(apiKey: Option<JsString>, body: Option<Json>, code: JsString,
                                upstream: JsString -> JsString,
                                parse: JsString -> Option<Json>, finiteToString: real -> JsString)
    requires HasApiKey(apiKey) && CodeField(body) == Some(JStr(code)) && code != []
    requires |SourceLines(code)| == 5
    requires parse(upstream(PromptCode(code))) == Some(JObj(map[KeyLines := JArr([BadSeverityItem()])]))
    ensures AnnotateEndpoint(apiKey, body, upstream, parse, finiteToString)
         == Annotated([Annotation(3.0, Lit("unused variable"), [], Info, [], [])], false)
  {
    var text := upstream(PromptCode(code));
    assert ParseReply(text, parse) == parse(text);
    assert ReplyItems(text, parse) == Some([BadSeverityItem()]);
    BadSeverityItemNormalised(finiteToString);
    NormaliseSingle(BadSeverityItem(), 5, finiteToString);
  }

  /** The filter bounds lines by the full line count, not by the 500-line cap: over a
      600-line source, an annotation for line 550, which the model never saw, is kept. */
  lemma AnnotationPastCapKept(apiKey: Option<JsString>, body: Option<Json>, code: JsString,
                              upstream: JsString -> JsString,
                              parse: JsString -> Option<Json>, finiteToString: real -> JsString)
    requires HasApiKey(apiKey) && CodeField(body) == Some(JStr(code)) && code != []
    requires |SourceLines(code)| == 600
    requires parse(upstream(PromptCode(code))) == Some(JObj(map[KeyLines := JArr([JObj(map[KeyLine := JNum(Finite(550.0))])])]))
    ensures |Split(PromptCode(code), LineFeed)| == MaxLines
    ensures AnnotateEndpoint(apiKey, body, upstream, parse, finiteToString)
         == Annotated([Annotation(550.0, [], [], Info, [], [])], true)
  {
    var item := JObj(map[KeyLine := JNum(Finite(550.0))]);
    var text := upstream(PromptCode(code));
    assert ParseReply(text, parse) == parse(text);
    assert ReplyItems(text, parse) == Some([item]);
    LineOnlyItemNormalised(finiteToString);
    NormaliseSingle(item, 600, finiteToString);
  }

  /** An item that gives only `line: 550` is in range over 600 lines and normalises to
      an annotation with empty texts, severity `info` and no steps. */
  lemma LineOnlyItemNormalised(finiteToString: real -> JsString)
    ensures InRange(JObj(map[KeyLine := JNum(Finite(550.0))]), 600)
    ensures NormaliseItem(JObj(map[KeyLine := JNum(Finite(550.0))]), 600, finiteToString)
         == Annotation(550.0, [], [], Info, [], [])
  {
    AnnotationKeysDistinct();
    var item := JObj(map[KeyLine := JNum(Finite(550.0))]);
    assert Get(item, KeyIssue) == None && Get(item, KeyHint) == None && Get(item, KeySuggestion) == None;
    assert Get(item, KeySeverity) == None && Get(item, KeySteps) == None;
  }
}
