/** The answer analyser of `services/gemini.ts`: a local mock scorer used when
    no API key is configured or the remote call fails, and the interpretation
    of the model's free-text reply (greedy JSON extraction, clamping, defaults
    and the fallback analysis when the reply cannot be parsed). The remote
    call and `JSON.parse` are parameters: the call as a `ServiceCall` outcome,
    the parser as a function that yields `None` where `JSON.parse` throws. */
module Gemini {
  import opened Types
  import opened Text

  /** `AnswerAnalysis`. */
  datatype Analysis = Analysis(score: int, feedback: string, strengths: seq<string>, improvements: seq<string>)

  /** What the analyser reads from a parsed JSON object. `score` is `None` when
      the field is missing or falsy; `feedback` is `None` when missing; each
      list is `None` when the field is not an array. */
  datatype ParsedReply = ParsedReply(
    score: Option<int>,
    feedback: Option<string>,
    strengths: Option<seq<string>>,
    improvements: Option<seq<string>>)

  /** The outcome of `model.generateContent(prompt)` and `response.text()`. */
  datatype ServiceCall = Threw | Replied(text: string)

  // ---------------------------------------------------------------------------
  // The mock analysis

  /** The score bucket of `generateMockAnalysis` for a given word count. */
  function MockScore(wordCount: nat): (score: int)
    ensures 0 <= score <= 5
    ensures score == 0 <==> wordCount == 0
    ensures score == 1 <==> 1 <= wordCount < 20
    ensures score == 2 <==> 20 <= wordCount < 50
    ensures score == 3 <==> 50 <= wordCount < 100
    ensures score == 4 <==> 100 <= wordCount < 150
    ensures score == 5 <==> wordCount >= 150
  {
    if wordCount == 0 then 0
    else if wordCount < 20 then 1
    else if wordCount < 50 then 2
    else if wordCount < 100 then 3
    else if wordCount < 150 then 4
    else 5
  }

  /** `generateMockAnalysis(answer)`: the word count is the unfiltered
      `answer.trim().split(/\s+/).length`. */
  function MockAnalysis(answer: string): (a: Analysis)
    ensures a.score == MockScore(SplitCount(answer))
  {
    MockFor(MockScore(SplitCount(answer)))
  }

  /** The feedback, strengths and improvements of each mock score bucket. */
  function MockFor(score: int): (a: Analysis)
    requires 0 <= score <= 5
    ensures a.score == score
  {
    match score
    case 0 => MockBucket0
    case 1 => MockBucket1
    case 2 => MockBucket2
    case 3 => MockBucket3
    case 4 => MockBucket4
    case _ => MockBucket5
  }

  const MockBucket0: Analysis :=
    Analysis(0,
      "No answer provided. Please provide a response to demonstrate your knowledge.",
      [],
      ["Provide a complete answer", "Include relevant examples", "Explain your reasoning"])
  const MockBucket1: Analysis :=
    Analysis(1,
      "Very brief answer. While you provided a response, it lacks detail and depth.",
      ["Attempted to answer the question"],
      ["Provide more detailed explanations", "Include specific examples", "Elaborate on key concepts"])
  const MockBucket2: Analysis :=
    Analysis(2,
      "Basic answer provided. Shows some understanding but could be more comprehensive.",
      ["Shows basic understanding", "Provided a structured response"],
      ["Add more depth to explanations", "Include practical examples", "Cover more aspects of the topic"])
  const MockBucket3: Analysis :=
    Analysis(3,
      "Good answer with adequate detail. Demonstrates solid understanding of the topic.",
      ["Clear communication", "Good level of detail", "Shows practical knowledge"],
      ["Could include more specific examples", "Consider discussing edge cases", "Expand on best practices"])
  const MockBucket4: Analysis :=
    Analysis(4,
      "Very good answer with comprehensive coverage. Shows strong understanding and communication skills.",
      ["Comprehensive response", "Clear explanations", "Good use of examples", "Professional communication"],
      ["Could discuss advanced concepts", "Consider mentioning industry trends"])
  const MockBucket5: Analysis :=
    Analysis(5,
      "Excellent, detailed answer. Demonstrates deep understanding and excellent communication skills.",
      ["Exceptional detail", "Clear structure", "Comprehensive coverage", "Professional presentation", "Strong examples"],
      ["Continue maintaining this level of detail", "Keep up the excellent communication"])

  /** The mock score never falls as the word count grows. */
  lemma MockScoreMonotone(m: nat, n: nat)
    requires m <= n
    ensures MockScore(m) <= MockScore(n)
  {
  }

  /** Because the unfiltered count is at least one, the mock never awards 0:
      a blank answer is scored 1 as a "very brief answer", and the
      "No answer provided" branch cannot be reached. */
  lemma MockAnalysisScoresAtLeastOne(answer: string)
    ensures 1 <= MockAnalysis(answer).score <= 5
    ensures IsBlank(answer) ==> MockAnalysis(answer).score == 1
  {
    if IsBlank(answer) {
      BlankCounts(answer);
    }
  }

  /** On a non-blank answer the mock score is the bucket of its number of words. */
  lemma MockAnalysisCountsWords(answer: string)
    requires !IsBlank(answer)
    ensures MockAnalysis(answer).score == MockScore(|Tokens(answer)|)
  {
    CountsAgreeWhenNotBlank(answer);
    TokensOfTrim(answer);
  }

  /** Saying more never lowers the mock score: appending a space and any
      further text to an answer keeps or raises its score. */
  lemma MockAnalysisGrowsWithText(a: string, b: string)
    ensures MockAnalysis(a + " " + b).score >= MockAnalysis(a).score
  {
    var ab := a + " " + b;
    if IsBlank(a) {
      BlankCounts(a);
    } else {
      CountsAgreeWhenNotBlank(a);
      WordCountSpaceJoin(a, b);
      WordCountZeroIffBlank(ab);
      CountsAgreeWhenNotBlank(ab);
      MockScoreMonotone(SplitCount(a), SplitCount(ab));
    }
  }

  // ---------------------------------------------------------------------------
  // Interpreting the model's reply

  /** `text.match(/\{[\s\S]*\}/)`: the leftmost match starts at the first `{`
      that has a `}` after it, which is the first `{` of the text, and the
      greedy `[\s\S]*` runs it to the last `}`. */
  function ExtractJson(text: string): (r: Option<string>)
    ensures r.Some? <==> exists i, k :: 0 <= i < k < |text| && text[i] == '{' && text[k] == '}'
    ensures r.Some? ==>
      exists i, k ::
        && 0 <= i < k < |text| && text[i] == '{' && text[k] == '}'
        && r.value == text[i..k + 1]
        && (forall j :: 0 <= j < i ==> text[j] != '{')
        && (forall j :: k < j < |text| ==> text[j] != '}')
  {
    match (IndexOf(text, '{'), LastIndexOf(text, '}'))
    case (Some(i), Some(k)) => if i < k then Some(text[i..k + 1]) else None
    case _ => None
  }

  /** `Math.max(0, Math.min(5, score || 0))`. */
  function ClampScore(score: Option<int>): (r: int)
    ensures 0 <= r <= 5
    ensures score.Some? && 0 <= score.value <= 5 ==> r == score.value
    ensures score.Some? && score.value > 5 ==> r == 5
    ensures score.None? || score.value < 0 ==> r == 0
  {
    var s := match score case Some(v) => v case None => 0;
    if s > 5 then 5 else if s < 0 then 0 else s
  }

  /** The analysis built from a parsed reply, with the source's defaults. */
  function FromParsed(p: ParsedReply): (a: Analysis)
    ensures 0 <= a.score <= 5
    ensures a.feedback != []
    ensures p.feedback.Some? && p.feedback.value != [] ==> a.feedback == p.feedback.value
    ensures p.feedback.None? || p.feedback.value == [] ==> a.feedback == "No feedback provided"
    ensures a.strengths == if p.strengths.Some? then p.strengths.value else []
    ensures a.improvements == if p.improvements.Some? then p.improvements.value else []
  {
    Analysis(
      ClampScore(p.score),
      match p.feedback
        case Some(f) => if f == [] then "No feedback provided" else f
        case None => "No feedback provided",
      match p.strengths case Some(xs) => xs case None => [],
      match p.improvements case Some(xs) => xs case None => [])
  }

  /** `text.substring(0, 200)`, counted in characters. */
  function Prefix(text: string, n: nat): (r: string)
    ensures |r| <= n && r <= text
    ensures |r| == if |text| <= n then |text| else n
  {
    if |text| <= n then text else text[..n]
  }

  /** The analysis used when the reply holds no parseable JSON object. */
  function ReplyFallback(text: string): (a: Analysis)
    ensures a.score == 3
    ensures a.feedback == Prefix(text, 200) + "..."
    ensures |a.feedback| == 3 + (if |text| <= 200 then |text| else 200)
    ensures a.strengths == ["Provided a response"] && a.improvements == ["Could provide more detailed analysis"]
    ensures a.feedback[..|a.feedback| - 3] <= text
    ensures a.feedback[|a.feedback| - 3..] == "..."
  {
    var f := Prefix(text, 200) + "...";
    assert f[..|f| - 3] == Prefix(text, 200);
    Analysis(3, f, ["Provided a response"], ["Could provide more detailed analysis"])
  }

  /** The inner `try` of `analyzeAnswer`: extract, parse, or fall back. */
  function AnalyzeReply(text: string, parse: string -> Option<ParsedReply>): (a: Analysis)
    ensures 0 <= a.score <= 5
    ensures ExtractJson(text).None? ==> a == ReplyFallback(text)
    ensures ExtractJson(text).Some? ==>
      match parse(ExtractJson(text).value)
      case Some(p) => a == FromParsed(p)
      case None => a == ReplyFallback(text)
  {
    match ExtractJson(text)
    case None => ReplyFallback(text)
    case Some(span) =>
      match parse(span)
      case Some(p) => FromParsed(p)
      case None => ReplyFallback(text)
  }

  /** `analyzeAnswer(question, answer, topic)`: the mock when no key is set or
      the remote call throws, otherwise the interpreted reply. It never
      throws, and every path yields a score between 0 and 5. */
  function AnalyzeAnswer(keyConfigured: bool, call: ServiceCall, answer: string,
                         parse: string -> Option<ParsedReply>): (a: Analysis)
    ensures 0 <= a.score <= 5
    ensures !keyConfigured || call.Threw? ==> a == MockAnalysis(answer) && a.score >= 1
    ensures keyConfigured && call.Replied? ==> a == AnalyzeReply(call.text, parse)
  {
    MockAnalysisScoresAtLeastOne(answer);
    if !keyConfigured then MockAnalysis(answer)
    else match call
      case Threw => MockAnalysis(answer)
      case Replied(text) => AnalyzeReply(text, parse)
  }
}
