/** The top level of `App.tsx`: the phase machine `setup | interview |
    results | terminated`, the numbering of generated questions as `q-1`,
    `q-2`, ..., the total of the marks, and restart. Question generation is
    split into its start (the loading flag rises) and its settlement with the
    generator's outcome; the clock is a parameter. */
module App {
  import opened Types

  datatype Phase = Setup | Interview | Results | Terminated

  // ---------------------------------------------------------------------------
  // Question ids

  function DigitChar(d: nat): char
    requires d < 10
  {
    ('0' as int + d) as char
  }

  function DigitValue(c: char): int {
    c as int - '0' as int
  }

  /** A canonical decimal numeral: at least one digit, only digits, and no
      leading zero unless it is the single digit `0`. */
  predicate IsNumeral(s: string) {
    && |s| >= 1
    && (forall i :: 0 <= i < |s| ==> '0' <= s[i] <= '9')
    && (|s| > 1 ==> s[0] != '0')
  }

  /** The decimal numeral of `n`, as a template literal prints it: canonical,
      and starting with `0` only for zero itself. */
  function Decimal(n: nat): (s: string)
    ensures IsNumeral(s)
    ensures s[0] == '0' <==> n == 0
    decreases n
  {
    if n < 10 then [DigitChar(n)] else Decimal(n / 10) + [DigitChar(n % 10)]
  }

  /** The value of a string of decimal digits. */
  function DecimalValue(s: string): int {
    if s == [] then 0 else 10 * DecimalValue(s[..|s| - 1]) + DigitValue(s[|s| - 1])
  }

  /** Reading a numeral back gives the number it was printed from. */
  lemma {:induction false} DecimalRoundTrip(n: nat)
    ensures DecimalValue(Decimal(n)) == n
    decreases n
  {
    var s := Decimal(n);
    if n < 10 {
      assert s[..0] == [];
    } else {
      assert s[..|s| - 1] == Decimal(n / 10);
      DecimalRoundTrip(n / 10);
    }
  }

  /** A canonical numeral is the one `Decimal` prints for its value, so a
      canonical numeral is fixed by the number it reads as. */
  lemma {:induction false} NumeralIsDecimal(s: string)
    requires IsNumeral(s)
    ensures DecimalValue(s) >= 0
    ensures s[0] != '0' ==> DecimalValue(s) >= 1
    ensures s == Decimal(DecimalValue(s))
    decreases |s|
  {
    var init := s[..|s| - 1];
    var d := DigitValue(s[|s| - 1]);
    assert 0 <= d < 10 && s[|s| - 1] == DigitChar(d);
    if |s| == 1 {
      assert init == [];
    } else {
      assert IsNumeral(init) && init[0] == s[0];
      NumeralIsDecimal(init);
      var v := DecimalValue(init);
      assert v >= 1;
      assert (10 * v + d) / 10 == v && (10 * v + d) % 10 == d;
      assert s == init + [s[|s| - 1]];
    }
  }

  /** `q-${index + 1}`: the prefix `q-` and then the canonical numeral of
      the one-based position. */
  function QuestionId(index: nat): (id: string)
    ensures |id| > 2 && id[..2] == "q-"
    ensures IsNumeral(id[2..]) && id[2] != '0'
    ensures DecimalValue(id[2..]) == index + 1
  {
    var id := "q-" + Decimal(index + 1);
    assert id[2..] == Decimal(index + 1);
    DecimalRoundTrip(index + 1);
    id
  }

  /** Different positions get different ids. */
  lemma QuestionIdInjective(i: nat, j: nat)
    requires i != j
    ensures QuestionId(i) != QuestionId(j)
  {
  }

  /** The generated texts as questions, numbered in generator order and
      tagged with the topic. */
  function FormatQuestions(generated: seq<string>, topic: string): (questions: seq<Question>)
    ensures |questions| == |generated|
    ensures forall k :: 0 <= k < |questions| ==> questions[k] == Question(QuestionId(k), generated[k], topic)
  {
    seq(|generated|, k requires 0 <= k < |generated| => Question(QuestionId(k), generated[k], topic))
  }

  /** The ids of the formatted questions are pairwise distinct. */
  lemma FormatQuestionsDistinctIds(generated: seq<string>, topic: string)
    ensures var qs := FormatQuestions(generated, topic);
      forall j, k :: 0 <= j < k < |qs| ==> qs[j].id != qs[k].id
  {
    var qs := FormatQuestions(generated, topic);
    forall j, k | 0 <= j < k < |qs|
      ensures qs[j].id != qs[k].id
    {
      QuestionIdInjective(j, k);
    }
  }

  // ---------------------------------------------------------------------------
  // Totals

  /** `answers.reduce((sum, answer) => sum + answer.marks, 0)`. With every
      mark between 0 and 5 the total lies between 0 and five times the number
      of answers. */
  function SumMarks(answers: seq<Answer>): (total: int)
    ensures answers == [] ==> total == 0
    ensures |answers| == 1 ==> total == answers[0].marks
    ensures (forall k :: 0 <= k < |answers| ==> 0 <= answers[k].marks <= 5) ==> 0 <= total <= 5 * |answers|
  {
    if answers == [] then 0
    else
      var init := answers[..|answers| - 1];
      assert forall k :: 0 <= k < |init| ==> init[k] == answers[k];
      SumMarks(init) + answers[|answers| - 1].marks
  }

  /** The total of two runs of answers is the sum of their totals. */
  lemma {:induction false} SumMarksConcat(a: seq<Answer>, b: seq<Answer>)
    ensures SumMarks(a + b) == SumMarks(a) + SumMarks(b)
    decreases |b|
  {
    if b == [] {
      assert a + b == a;
    } else {
      assert (a + b)[..|a + b| - 1] == a + b[..|b| - 1];
      SumMarksConcat(a, b[..|b| - 1]);
    }
  }

  // ---------------------------------------------------------------------------
  // The phase machine

  class InterviewApp {
    var appState: Phase
    var currentSession: Option<SessionRecord>
    var questions: seq<Question>
    var isLoading: bool

    /** There is no question list without a session, the interview screen
        always has the session of the list it shows, and the results screen
        always has a completed session. On the results screen the session
        may belong to an earlier interview than the list (see
        `RestartThenLateComplete`). */
    predicate Valid()
      reads this
    {
      && (currentSession.None? ==> questions == [])
      && (appState == Interview ==> currentSession.Some? && currentSession.value.questions == questions)
      && (appState == Results ==> currentSession.Some?)
      && (appState == Results ==> currentSession.value.isCompleted)
    }

    /** The initial state: setup, no session, no questions. */
    constructor()
      ensures Valid()
      ensures appState == Setup && currentSession == None && questions == [] && !isLoading
    {
      appState := Setup;
      currentSession := None;
      questions := [];
      isLoading := false;
    }

    /** `handleStartInterview` up to the generator call: loading begins. */
    method BeginStartInterview()
      requires Valid()
      modifies this
      ensures Valid() && isLoading
      ensures appState == old(appState) && currentSession == old(currentSession) && questions == old(questions)
    {
      isLoading := true;
    }

    /** `handleStartInterview` once the generator settles: with questions
        (`Some`), they are numbered, a fresh session starts and the phase
        becomes interview; if the generator threw (`None`), nothing changes.
        Loading ends either way. */
    method SettleStartInterview(topic: string, generated: Option<seq<string>>, now: int)
      requires Valid()
      modifies this
      ensures Valid() && !isLoading
      ensures generated.None? ==>
        appState == old(appState) && currentSession == old(currentSession) && questions == old(questions)
      ensures generated.Some? ==>
        && questions == FormatQuestions(generated.value, topic)
        && currentSession == Some(SessionRecord(topic, questions, [], now, None, 0, false))
        && appState == Interview
    {
      if generated.Some? {
        var formatted := FormatQuestions(generated.value, topic);
        questions := formatted;
        currentSession := Some(SessionRecord(topic, formatted, [], now, None, 0, false));
        appState := Interview;
      }
      isLoading := false;
    }

    /** `handleCompleteInterview(answers)`, as passed to the interview
        screen: `captured` is the session of the render that created the
        handler, not the one current when scoring settles. Without a session
        nothing happens; otherwise that session records the answers, the end
        time and their total, is marked completed and becomes the current
        session, and the results phase begins, whatever the phase was. */
    method HandleCompleteInterview(captured: Option<SessionRecord>, answers: seq<Answer>, now: int)
      requires Valid()
      modifies this
      ensures Valid()
      ensures captured.None? ==>
        appState == old(appState) && currentSession == old(currentSession) && questions == old(questions)
      ensures captured.Some? ==>
        && currentSession == Some(captured.value.(answers := answers, endTime := Some(now),
                                                  totalMarks := SumMarks(answers), isCompleted := true))
        && appState == Results && questions == old(questions)
      ensures isLoading == old(isLoading)
    {
      if captured.None? {
        return;
      }
      var s := captured.value;
      currentSession := Some(s.(answers := answers, endTime := Some(now), totalMarks := SumMarks(answers), isCompleted := true));
      appState := Results;
    }

    /** `handleTabSwitch`: the phase becomes terminated, whatever it was. */
    method HandleTabSwitch()
      requires Valid()
      modifies this
      ensures Valid()
      ensures appState == Terminated
      ensures currentSession == old(currentSession) && questions == old(questions) && isLoading == old(isLoading)
    {
      appState := Terminated;
    }

    /** `handleRestart`: back to setup with no session and no questions. */
    method HandleRestart()
      requires Valid()
      modifies this
      ensures Valid()
      ensures appState == Setup && currentSession == None && questions == []
      ensures isLoading == old(isLoading)
    {
      appState := Setup;
      currentSession := None;
      questions := [];
    }
  }

  /** A termination delivered after completion wins: the app ends terminated,
      with the completed session kept. */
  method CompleteThenTerminate(app: InterviewApp, answers: seq<Answer>, now: int)
    requires app.Valid() && app.currentSession.Some?
    modifies app
    ensures app.Valid()
    ensures app.appState == Terminated
    ensures app.currentSession.Some? && app.currentSession.value.isCompleted
  {
    app.HandleCompleteInterview(app.currentSession, answers, now);
    app.HandleTabSwitch();
  }

  /** A completion delivered after termination wins too: termination is not
      final, and the app ends on the results screen. */
  method TerminateThenComplete(app: InterviewApp, answers: seq<Answer>, now: int)
    requires app.Valid() && app.currentSession.Some?
    modifies app
    ensures app.Valid()
    ensures app.appState == Results
    ensures app.currentSession.Some? && app.currentSession.value.totalMarks == SumMarks(answers)
  {
    app.HandleTabSwitch();
    app.HandleCompleteInterview(app.currentSession, answers, now);
  }

  /** Scoring that settles after "Start New Interview" still completes the
      interview its handler was created for: the results screen shows that
      session, although the question list is already empty. */
  method RestartThenLateComplete(app: InterviewApp, captured: SessionRecord, answers: seq<Answer>, now: int)
    requires app.Valid()
    modifies app
    ensures app.Valid()
    ensures app.appState == Results && app.questions == []
    ensures app.currentSession == Some(captured.(answers := answers, endTime := Some(now),
                                                 totalMarks := SumMarks(answers), isCompleted := true))
  {
    app.HandleRestart();
    app.HandleCompleteInterview(Some(captured), answers, now);
  }
}
