/** The records shared by every component of the interview app: a question,
    the answer kept for it, and an optional value for JavaScript's
    `undefined`/`null` results. */
module Types {

  /** A value that may be absent (`undefined`, `null` or a failed lookup). */
  datatype Option<+T> = None | Some(value: T)

  /** One generated interview question; `text` is the question wording. */
  datatype Question = Question(id: string, text: string, topic: string)

  /** The answer kept for one question: its committed text and its marks. */
  datatype Answer = Answer(questionId: string, text: string, marks: int)

  /** A whole interview: its questions, the answers kept for them, the start
      and end instants (milliseconds, supplied by the caller) and the score. */
  datatype SessionRecord = SessionRecord(
    topic: string,
    questions: seq<Question>,
    answers: seq<Answer>,
    startTime: int,
    endTime: Option<int>,
    totalMarks: int,
    isCompleted: bool)

  /** `answers.find(a => a.questionId === id)`: the first answer for `id`. */
  function FindAnswer(answers: seq<Answer>, id: string): (r: Option<Answer>)
    ensures r.None? <==> forall k :: 0 <= k < |answers| ==> answers[k].questionId != id
    ensures r.Some? ==>
      exists k ::
        && 0 <= k < |answers| && answers[k] == r.value && r.value.questionId == id
        && forall j :: 0 <= j < k ==> answers[j].questionId != id
  {
    if answers == [] then None
    else if answers[0].questionId == id then Some(answers[0])
    else
      var r := FindAnswer(answers[1..], id);
      assert forall k :: 1 <= k < |answers| ==> answers[k] == answers[1..][k - 1];
      r
  }

  /** `questions.find(q => q.id === id)`: the first question with that id. */
  function FindQuestion(questions: seq<Question>, id: string): (r: Option<Question>)
    ensures r.None? <==> forall k :: 0 <= k < |questions| ==> questions[k].id != id
    ensures r.Some? ==>
      exists k ::
        && 0 <= k < |questions| && questions[k] == r.value && r.value.id == id
        && forall j :: 0 <= j < k ==> questions[j].id != id
  {
    if questions == [] then None
    else if questions[0].id == id then Some(questions[0])
    else
      var r := FindQuestion(questions[1..], id);
      assert forall k :: 1 <= k < |questions| ==> questions[k] == questions[1..][k - 1];
      r
  }
}
