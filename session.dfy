/** The interview screen of `components/InterviewSession.tsx`: an answer
    table aligned with the questions, navigation over a current index, the
    finishing step that scores every answer (or falls back to a word-count
    score when scoring throws), and the tab-switch warning. The scorer is a
    parameter that may throw; `GeminiScorer` instantiates it with the
    analyser of `services/gemini.ts`. */
module Session {
  import opened Types
  import opened Text
  import Gemini

  /** The outcome of scoring one answer: a score, or a thrown error. */
  datatype ScoreOutcome = Scored(marks: int) | Threw

  /** The screen the session shows. */
  datatype View = TabWarning | Analyzing | Asking(index: nat)

  // ---------------------------------------------------------------------------
  // The answer table

  /** No two questions share an id. */
  predicate DistinctIds(questions: seq<Question>) {
    forall i, j :: 0 <= i < j < |questions| ==> questions[i].id != questions[j].id
  }

  /** Answers line up one to one with the questions. */
  predicate Aligned(answers: seq<Answer>, questions: seq<Question>) {
    |answers| == |questions| && forall k :: 0 <= k < |answers| ==> answers[k].questionId == questions[k].id
  }

  /** Answers that keep the ids and texts of `before`, in the same order. */
  predicate SameEntries(after: seq<Answer>, before: seq<Answer>) {
    |after| == |before|
    && forall k :: 0 <= k < |after| ==>
      after[k].questionId == before[k].questionId && after[k].text == before[k].text
  }

  /** The starting table: one empty, unmarked answer per question. */
  function InitialAnswers(questions: seq<Question>): (answers: seq<Answer>)
    ensures Aligned(answers, questions)
    ensures forall k :: 0 <= k < |answers| ==> answers[k].text == [] && answers[k].marks == 0
  {
    seq(|questions|, k requires 0 <= k < |questions| => Answer(questions[k].id, [], 0))
  }

  /** The update of `handleAnswerChange`: every answer for question `id` gets
      the new text and its marks reset; the others are kept. */
  function UpdateAnswer(answers: seq<Answer>, id: string, text: string): (updated: seq<Answer>)
    ensures |updated| == |answers|
    ensures forall k :: 0 <= k < |answers| ==>
      updated[k] == if answers[k].questionId == id then Answer(id, text, 0) else answers[k]
  {
    seq(|answers|, k requires 0 <= k < |answers| =>
      if answers[k].questionId == id then answers[k].(text := text, marks := 0) else answers[k])
  }

  /** Editing keeps the table aligned with the questions. */
  lemma UpdateAnswerKeepsAlignment(answers: seq<Answer>, questions: seq<Question>, id: string, text: string)
    requires Aligned(answers, questions)
    ensures Aligned(UpdateAnswer(answers, id, text), questions)
  {
  }

  /** After an edit of question `id`, looking the question up finds the new
      text, provided the table has an answer for it. */
  lemma FindAfterUpdate(answers: seq<Answer>, id: string, text: string)
    requires exists k :: 0 <= k < |answers| && answers[k].questionId == id
    ensures FindAnswer(UpdateAnswer(answers, id, text), id) == Some(Answer(id, text, 0))
  {
    var updated := UpdateAnswer(answers, id, text);
    var k :| 0 <= k < |answers| && answers[k].questionId == id;
    assert updated[k].questionId == id;
    var r := FindAnswer(updated, id);
    var j :| 0 <= j < |updated| && updated[j] == r.value && r.value.questionId == id;
    assert answers[j].questionId == id;
  }

  /** `answers.find(a => a.questionId === id)?.answer || ''`. */
  function AnswerText(answers: seq<Answer>, id: string): (text: string)
    ensures FindAnswer(answers, id).None? ==> text == []
    ensures FindAnswer(answers, id).Some? ==> text == FindAnswer(answers, id).value.text
  {
    match FindAnswer(answers, id)
    case None => []
    case Some(a) => a.text
  }

  /** With pairwise distinct question ids, looking up a question's answer by
      id finds the entry at the question's own position. */
  lemma AlignedLookup(answers: seq<Answer>, questions: seq<Question>, k: nat)
    requires Aligned(answers, questions) && k < |questions|
    requires DistinctIds(questions)
    ensures AnswerText(answers, questions[k].id) == answers[k].text
  {
    var r := FindAnswer(answers, questions[k].id);
    assert answers[k].questionId == questions[k].id;
    var j :| 0 <= j < |answers| && answers[j] == r.value && r.value.questionId == questions[k].id
      && forall i :: 0 <= i < j ==> answers[i].questionId != questions[k].id;
    assert questions[j].id == questions[k].id;
  }

  // ---------------------------------------------------------------------------
  // Scoring at the end of the interview

  /** How one answer is scored: an answer without a matching question, or
      with blank text, gets 0 and the scorer is not consulted; otherwise the
      scorer decides, and may throw. */
  function ScoreOne(answer: Answer, questions: seq<Question>, topic: string,
                    scorer: (string, string, string) -> ScoreOutcome): (outcome: ScoreOutcome)
    ensures IsBlank(answer.text) ==> outcome == Scored(0)
    ensures FindQuestion(questions, answer.questionId).None? ==> outcome == Scored(0)
    ensures !IsBlank(answer.text) && FindQuestion(questions, answer.questionId).Some? ==>
      outcome == scorer(FindQuestion(questions, answer.questionId).value.text, answer.text, topic)
  {
    match FindQuestion(questions, answer.questionId)
    case None => Scored(0)
    case Some(q) => if IsBlank(answer.text) then Scored(0) else scorer(q.text, answer.text, topic)
  }

  /** The `Promise.all` over all answers: the rescored table, or `None` when
      any consulted call throws. */
  function ScoreAnswers(answers: seq<Answer>, questions: seq<Question>, topic: string,
                        scorer: (string, string, string) -> ScoreOutcome): (scored: Option<seq<Answer>>)
    ensures scored.None? <==> exists k :: 0 <= k < |answers| && ScoreOne(answers[k], questions, topic, scorer).Threw?
    ensures scored.Some? ==> SameEntries(scored.value, answers)
    ensures scored.Some? ==> forall k :: 0 <= k < |answers| ==>
      ScoreOne(answers[k], questions, topic, scorer) == Scored(scored.value[k].marks)
  {
    if answers == [] then Some([])
    else
      var first := ScoreOne(answers[0], questions, topic, scorer);
      var rest := ScoreAnswers(answers[1..], questions, topic, scorer);
      assert forall k :: 1 <= k < |answers| ==> answers[k] == answers[1..][k - 1];
      match (first, rest)
      case (Scored(m), Some(tail)) => Some([answers[0].(marks := m)] + tail)
      case _ => None
  }

  /** The fallback mark of one answer: 0 when blank, otherwise its unfiltered
      word count divided by 20, rounded down and kept between 1 and 5. */
  function FallbackMarks(text: string): (marks: int)
    ensures IsBlank(text) ==> marks == 0
    ensures !IsBlank(text) ==> 1 <= marks <= 5
  {
    if IsBlank(text) then 0
    else
      var q := SplitCount(text) / 20;
      if q > 5 then 5 else if q < 1 then 1 else q
  }

  /** On a non-blank answer the fallback mark is one per twenty words, at least
      1 and at most 5. */
  lemma FallbackMarksCountsWords(text: string)
    requires !IsBlank(text)
    ensures FallbackMarks(text) == (if |Tokens(text)| < 40 then 1 else if |Tokens(text)| >= 100 then 5 else |Tokens(text)| / 20)
  {
    CountsAgreeWhenNotBlank(text);
    TokensOfTrim(text);
  }

  /** The fallback table: every answer is re-marked by word count. */
  function FallbackAnswers(answers: seq<Answer>): (marked: seq<Answer>)
    ensures SameEntries(marked, answers)
    ensures forall k :: 0 <= k < |marked| ==> marked[k].marks == FallbackMarks(answers[k].text)
  {
    seq(|answers|, k requires 0 <= k < |answers| => answers[k].(marks := FallbackMarks(answers[k].text)))
  }

  /** The table handed to `onComplete`: the scored table, or the fallback
      table for every answer as soon as one scoring call throws. */
  function FinishScores(answers: seq<Answer>, questions: seq<Question>, topic: string,
                        scorer: (string, string, string) -> ScoreOutcome): (finished: seq<Answer>)
    ensures SameEntries(finished, answers)
    ensures forall k :: 0 <= k < |answers| && IsBlank(answers[k].text) ==> finished[k].marks == 0
    ensures (forall q, a, t :: scorer(q, a, t).Scored? ==> 0 <= scorer(q, a, t).marks <= 5) ==>
      forall k :: 0 <= k < |finished| ==> 0 <= finished[k].marks <= 5
    ensures ScoreAnswers(answers, questions, topic, scorer).Some? ==>
      finished == ScoreAnswers(answers, questions, topic, scorer).value
    ensures ScoreAnswers(answers, questions, topic, scorer).None? ==> finished == FallbackAnswers(answers)
  {
    match ScoreAnswers(answers, questions, topic, scorer)
    case Some(scored) => scored
    case None => FallbackAnswers(answers)
  }

  /** The scorer the interview screen uses: the answer analyser, with the
      remote call and the parser as parameters. */
  function GeminiScorer(keyConfigured: bool, call: (string, string, string) -> Gemini.ServiceCall,
                        parse: string -> Option<Gemini.ParsedReply>): (string, string, string) -> ScoreOutcome
  {
    (q, a, t) => Scored(Gemini.AnalyzeAnswer(keyConfigured, call(q, a, t), a, parse).score)
  }

  /** With the answer analyser as scorer, scoring never throws, so the
      word-count fallback is never taken and every mark lies in [0, 5]. */
  lemma GeminiScorerNeverFallsBack(answers: seq<Answer>, questions: seq<Question>, topic: string,
                                   keyConfigured: bool, call: (string, string, string) -> Gemini.ServiceCall,
                                   parse: string -> Option<Gemini.ParsedReply>)
    ensures ScoreAnswers(answers, questions, topic, GeminiScorer(keyConfigured, call, parse)).Some?
    ensures var finished := FinishScores(answers, questions, topic, GeminiScorer(keyConfigured, call, parse));
      forall k :: 0 <= k < |finished| ==> 0 <= finished[k].marks <= 5
  {
    var scorer := GeminiScorer(keyConfigured, call, parse);
    forall q, a, t
      ensures scorer(q, a, t).Scored? && 0 <= scorer(q, a, t).marks <= 5
    {
      var analysis := Gemini.AnalyzeAnswer(keyConfigured, call(q, a, t), a, parse);
      assert scorer(q, a, t) == Scored(analysis.score);
    }
    forall k | 0 <= k < |answers|
      ensures ScoreOne(answers[k], questions, topic, scorer).Scored?
    {
    }
  }

  // ---------------------------------------------------------------------------
  // The screen's state

  class InterviewSession {
    const questions: seq<Question>
    const topic: string
    var answers: seq<Answer>
    var currentIndex: nat
    var showTabWarning: bool
    var isAnalyzing: bool
    /** Terminations scheduled by tab switches and not yet delivered. */
    var pendingTerminations: nat

    /** The question list is non-empty with distinct ids, the index points
        into it and the answers stay aligned with it. */
    predicate Valid()
      reads this
    {
      |questions| > 0 && DistinctIds(questions) && currentIndex < |questions| && Aligned(answers, questions)
    }

    constructor(questions: seq<Question>, topic: string)
      requires |questions| > 0 && DistinctIds(questions)
      ensures Valid()
      ensures this.questions == questions && this.topic == topic
      ensures answers == InitialAnswers(questions) && currentIndex == 0
      ensures !showTabWarning && !isAnalyzing && pendingTerminations == 0
    {
      this.questions := questions;
      this.topic := topic;
      answers := InitialAnswers(questions);
      currentIndex := 0;
      showTabWarning := false;
      isAnalyzing := false;
      pendingTerminations := 0;
    }

    function CurrentQuestion(): Question
      reads this
      requires Valid()
    {
      questions[currentIndex]
    }

    /** The text shown for the current question. */
    function CurrentAnswer(): (text: string)
      reads this
      requires Valid()
      ensures text == AnswerText(answers, CurrentQuestion().id)
      ensures text == answers[currentIndex].text
    {
      AlignedLookup(answers, questions, currentIndex);
      AnswerText(answers, CurrentQuestion().id)
    }

    /** `handleAnswerChange(text)`: only the current question's answer changes,
        its marks reset to 0, and the screen then shows the new text. */
    method HandleAnswerChange(text: string)
      requires Valid()
      modifies this
      ensures Valid()
      ensures answers == UpdateAnswer(old(answers), old(CurrentQuestion()).id, text)
      ensures currentIndex == old(currentIndex) && showTabWarning == old(showTabWarning)
      ensures isAnalyzing == old(isAnalyzing) && pendingTerminations == old(pendingTerminations)
      ensures CurrentAnswer() == text
    {
      var id := CurrentQuestion().id;
      assert answers[currentIndex].questionId == id;
      FindAfterUpdate(answers, id, text);
      answers := UpdateAnswer(answers, id, text);
    }

    /** `handleNext`: before the last question it moves forward by one;
        on the last question it starts the finishing step. */
    method HandleNext() returns (finishing: bool)
      requires Valid()
      modifies this
      ensures Valid()
      ensures finishing <==> old(currentIndex) == |questions| - 1
      ensures !finishing ==> currentIndex == old(currentIndex) + 1 && isAnalyzing == old(isAnalyzing)
      ensures finishing ==> currentIndex == old(currentIndex) && isAnalyzing
      ensures answers == old(answers) && showTabWarning == old(showTabWarning)
      ensures pendingTerminations == old(pendingTerminations)
    {
      if currentIndex < |questions| - 1 {
        currentIndex := currentIndex + 1;
        finishing := false;
      } else {
        isAnalyzing := true;
        finishing := true;
      }
    }

    /** The rest of `handleNext` once scoring settles: the finished table is
        handed on and the analysing flag drops. The table kept on screen is
        not replaced. */
    method SettleScoring(scorer: (string, string, string) -> ScoreOutcome) returns (finished: seq<Answer>)
      requires Valid() && isAnalyzing
      modifies this
      ensures Valid() && !isAnalyzing
      ensures finished == FinishScores(answers, questions, topic, scorer)
      ensures answers == old(answers) && currentIndex == old(currentIndex)
      ensures showTabWarning == old(showTabWarning) && pendingTerminations == old(pendingTerminations)
    {
      finished := FinishScores(answers, questions, topic, scorer);
      isAnalyzing := false;
    }

    /** `handlePrevious`: back by one, or nothing on the first question. */
    method HandlePrevious()
      requires Valid()
      modifies this
      ensures Valid()
      ensures currentIndex == if old(currentIndex) > 0 then old(currentIndex) - 1 else 0
      ensures answers == old(answers) && showTabWarning == old(showTabWarning)
      ensures isAnalyzing == old(isAnalyzing) && pendingTerminations == old(pendingTerminations)
    {
      if currentIndex > 0 {
        currentIndex := currentIndex - 1;
      }
    }

    /** A tab switch: the warning shows and a termination is scheduled. */
    method HandleTabSwitch()
      requires Valid()
      modifies this
      ensures Valid()
      ensures showTabWarning && pendingTerminations == old(pendingTerminations) + 1
      ensures answers == old(answers) && currentIndex == old(currentIndex) && isAnalyzing == old(isAnalyzing)
      ensures View() == TabWarning
    {
      showTabWarning := true;
      pendingTerminations := pendingTerminations + 1;
    }

    /** The 3000 ms timer of one tab switch fires: it asks for termination. */
    method TimerFires() returns (terminate: bool)
      requires Valid() && pendingTerminations > 0
      modifies this
      ensures Valid()
      ensures terminate && pendingTerminations == old(pendingTerminations) - 1
      ensures answers == old(answers) && currentIndex == old(currentIndex)
      ensures showTabWarning == old(showTabWarning) && isAnalyzing == old(isAnalyzing)
    {
      pendingTerminations := pendingTerminations - 1;
      terminate := true;
    }

    /** The warning takes precedence over the analysing screen, which takes
        precedence over the current question. */
    function View(): (v: View)
      reads this
      ensures showTabWarning <==> v == TabWarning
      ensures v == Analyzing <==> !showTabWarning && isAnalyzing
      ensures v.Asking? ==> v.index == currentIndex
    {
      if showTabWarning then TabWarning
      else if isAnalyzing then Analyzing
      else Asking(currentIndex)
    }
  }
}
