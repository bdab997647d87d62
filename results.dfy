/** The figures shown by `components/InterviewResults.tsx`: the overall
    percentage, grade and colour of a finished interview, the number of
    answered questions, and each question's word count, marks and colour. */
module Grading {
  import opened Types
  import opened Text

  datatype Grade = APlus | A | BPlus | B | C | F

  /** The colour families of the summary and per-question badges. */
  datatype Color = Green | Yellow | Orange | Red

  /** Position of a grade on the scale, `F` lowest. */
  function Rank(g: Grade): nat {
    match g
    case F => 0
    case C => 1
    case B => 2
    case BPlus => 3
    case A => 4
    case APlus => 5
  }

  /** `(totalMarks / 50) * 100`. The denominator is fixed at 50 whatever the
      number of questions; for whole marks the quotient is exactly twice the
      total, so the thresholds below compare whole numbers. */
  function ScorePercentage(totalMarks: int): (percentage: int)
    ensures percentage * 50 == totalMarks * 100
  {
    2 * totalMarks
  }

  /** Position of a colour on the scale, `Red` lowest. */
  function ColorRank(c: Color): nat {
    match c
    case Red => 0
    case Orange => 1
    case Yellow => 2
    case Green => 3
  }

  /** `getScoreGrade(percentage)`: one grade step per ten points from 50,
      with `A+` from 90 up. */
  function ScoreGrade(percentage: int): (g: Grade)
    ensures Rank(g) == if percentage >= 90 then 5 else if percentage < 50 then 0 else (percentage - 40) / 10
  {
    if percentage >= 90 then APlus
    else if percentage >= 80 then A
    else if percentage >= 70 then BPlus
    else if percentage >= 60 then B
    else if percentage >= 50 then C
    else F
  }

  /** `getScoreColor(percentage)`, the summary colour. */
  function ScoreColor(percentage: int): (c: Color)
    ensures c != Orange
  {
    if percentage >= 80 then Green
    else if percentage >= 60 then Yellow
    else Red
  }

  /** `getScoreColorClass(score)`, the colour of one question's marks: one
      colour step per mark from 2 to 4. */
  function ScoreColorClass(score: int): (c: Color)
    ensures ColorRank(c) == if score >= 4 then 3 else if score <= 1 then 0 else score - 1
  {
    if score >= 4 then Green
    else if score >= 3 then Yellow
    else if score >= 2 then Orange
    else Red
  }

  /** A higher percentage never earns a lower grade. */
  lemma ScoreGradeMonotone(p: int, q: int)
    requires p <= q
    ensures Rank(ScoreGrade(p)) <= Rank(ScoreGrade(q))
  {
  }

  /** Each grade covers one band of ten points, from 50 up; `A+` has no upper
      bound and `F` no lower one. */
  lemma ScoreGradeBands(p: int)
    ensures ScoreGrade(p) == F <==> p < 50
    ensures ScoreGrade(p) == APlus <==> p >= 90
    ensures 0 < Rank(ScoreGrade(p)) < 5 ==> 40 + 10 * Rank(ScoreGrade(p)) <= p < 50 + 10 * Rank(ScoreGrade(p))
  {
  }

  /** Grade and colour depend on the total marks alone: 45 marks for `A+`,
      40 for `A`, 35 for `B+`, 30 for `B`, 25 for `C`; green from 40, yellow
      from 30. */
  lemma GradeOfTotalMarks(totalMarks: int)
    ensures ScoreGrade(ScorePercentage(totalMarks)) == APlus <==> totalMarks >= 45
    ensures ScoreGrade(ScorePercentage(totalMarks)) == F <==> totalMarks < 25
    ensures ScoreColor(ScorePercentage(totalMarks)) == Green <==> totalMarks >= 40
    ensures ScoreColor(ScorePercentage(totalMarks)) == Red <==> totalMarks < 30
  {
  }

  /** The badge colour never falls as the score rises. */
  lemma ScoreColorClassMonotone(s: int, t: int)
    requires s <= t
    ensures ColorRank(ScoreColorClass(s)) <= ColorRank(ScoreColorClass(t))
  {
  }

  /** `answers.filter(a => a.answer.trim()).length`. */
  function AnsweredCount(answers: seq<Answer>): (n: nat)
    ensures n <= |answers|
    ensures answers == [] ==> n == 0
    ensures |answers| == 1 ==> (n == 1 <==> !IsBlank(answers[0].text)) && n <= 1
  {
    if answers == [] then 0
    else (if IsBlank(answers[0].text) then 0 else 1) + AnsweredCount(answers[1..])
  }

  /** The answered count of two runs of answers is the sum of their counts;
      with the one-answer case of `AnsweredCount` this fixes the count as the
      number of non-blank answers. */
  lemma {:induction false} AnsweredCountConcat(a: seq<Answer>, b: seq<Answer>)
    ensures AnsweredCount(a + b) == AnsweredCount(a) + AnsweredCount(b)
    decreases |a|
  {
    if a == [] {
      assert a + b == b;
    } else {
      assert (a + b)[1..] == a[1..] + b;
      AnsweredCountConcat(a[1..], b);
    }
  }

  /** No question counts as answered exactly when every answer is blank. */
  lemma {:induction false} AnsweredCountZero(answers: seq<Answer>)
    ensures AnsweredCount(answers) == 0 <==> forall k :: 0 <= k < |answers| ==> IsBlank(answers[k].text)
  {
    if answers != [] {
      var tail := answers[1..];
      AnsweredCountZero(tail);
      assert forall k :: 1 <= k < |answers| ==> answers[k] == tail[k - 1];
    }
  }

  /** Every question counts as answered exactly when no answer is blank. */
  lemma {:induction false} AnsweredCountAll(answers: seq<Answer>)
    ensures AnsweredCount(answers) == |answers| <==> forall k :: 0 <= k < |answers| ==> !IsBlank(answers[k].text)
  {
    if answers != [] {
      var tail := answers[1..];
      AnsweredCountAll(tail);
      assert forall k :: 1 <= k < |answers| ==> answers[k] == tail[k - 1];
    }
  }

  /** The word count shown for a question: the number of words of its answer,
      0 when no answer is kept for it. */
  function QuestionWordCount(answers: seq<Answer>, questionId: string): (n: nat)
    ensures FindAnswer(answers, questionId).None? ==> n == 0
    ensures FindAnswer(answers, questionId).Some? ==> n == |Tokens(FindAnswer(answers, questionId).value.text)|
    ensures n == 0 <==> FindAnswer(answers, questionId).None? || IsBlank(FindAnswer(answers, questionId).value.text)
  {
    match FindAnswer(answers, questionId)
    case None => 0
    case Some(a) =>
      TokensOfTrim(a.text);
      WordCountZeroIffBlank(a.text);
      WordCount(a.text)
  }

  /** `answer?.marks || 0`: the marks shown for a question. */
  function QuestionMarks(answers: seq<Answer>, questionId: string): (marks: int)
    ensures FindAnswer(answers, questionId).None? ==> marks == 0
    ensures FindAnswer(answers, questionId).Some? ==> marks == FindAnswer(answers, questionId).value.marks
  {
    match FindAnswer(answers, questionId)
    case None => 0
    case Some(a) => a.marks
  }
}
