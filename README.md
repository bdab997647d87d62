# AI-Interview: a verified model of the interview core

AI-Interview is a browser app for mock interviews. The user names a topic, and
the app fetches ten questions from a chat model, or uses ten built-in
templates. The user then answers each question by voice. Answers are scored
from 0 to 5 by a second model, or by a word-count mock, and the results screen
shows a grade. Switching tabs during the interview ends it.

This Dafny project models the logic behind those screens, with the rendering
removed:

- `types.dfy` (module `Types`): the records `Question`, `Answer` and the
  interview session, and the `find`-by-id lookups.
- `text.dfy` (module `Text`): JavaScript's `trim`, `split(/\s+/)` and the two
  word counts built on them. The unfiltered count is 1 for a blank string.
  The filtered count drops empty pieces and is 0 for a blank string.
- `gemini.dfy` (module `Gemini`): the answer analyser. It covers the mock
  score buckets, the greedy extraction of the `{...}` span, the score clamp,
  the defaults for missing fields, and the score-3 fallback.
- `openai.dfy` (module `OpenAi`): the question generator. It splits the reply
  into lines, keeps the non-blank ones and takes at most ten. It also covers
  the ten topic templates.
- `results.dfy` (module `Grading`): the grade and colour thresholds, the
  answered count, and the per-question word count and marks.
- `session.dfy` (module `Session`): the interview screen as a class. It covers
  navigation, editing, finish-time scoring with the all-or-nothing word-count
  fallback, and the tab-switch warning.
- `speech_recognition.dfy` (module `Recognition`): the speech-recognition hook
  as a class. It covers the listening flag, the guarded start, stop and abort
  requests, the callbacks, the error-code messages and last-result
  forwarding.
- `speech_answer_input.dfy` (module `AnswerInput`): the voice answer box as a
  class. It covers final and interim transcript merging, clearing, the
  displayed text and its word count.
- `app.dfy` (module `App`): the phase machine `setup | interview | results |
  terminated`, the `q-1`, `q-2`, ... question ids, the total of the marks and
  restart.

Parameters stand in for the remote services and `JSON.parse`:

- A chat call is a `CompletionCall`: it throws, or it completes with optional
  content.
- A Gemini call is a `ServiceCall`: it throws, or it replies with text.
- The parser is a function to `Option<ParsedReply>`, where `None` stands for
  `JSON.parse` throwing.
- A per-answer scorer returns `Scored(marks)` or `Threw`.
- Whether an API key is configured is a boolean.
- The clock is an integer `now`.

Asynchronous steps are split into a start and a settlement:
`HandleNext`/`SettleScoring` and `BeginStartInterview`/`SettleStartInterview`.
Another event, such as a tab switch, can arrive between the two.

Points where the code behaves in ways a reader might not expect, and which
the model reproduces:

- **Fallback scoring is all or nothing.** One throwing scoring call sends
  every answer to the word-count fallback, including the answers whose calls
  succeeded (`Promise.all` in the `try`). See `Session.FinishScores`.
- **Termination can be overwritten.** `App.tsx` sets the phase in both the
  completion and the tab-switch handler without looking at the current phase,
  so whichever runs last wins: a completion after termination shows the
  results. See `App.CompleteThenTerminate` and `App.TerminateThenComplete`.
- **A completion uses the session its handler captured.** The interview
  screen's `onComplete` closes over the session of the render that created
  it. Scoring that settles after "Start New Interview" therefore shows the
  old interview's results, even when a new interview has begun. See
  `App.RestartThenLateComplete`.
- **The fallback counts words unfiltered.** It uses
  `trim().split(/\s+/).length`, not the filtered count. Both counts agree on
  the non-blank answers where it matters.
- **The generator may return fewer than ten questions, or none.** A reply
  with fewer non-blank lines yields fewer questions.
- **The mock analyser never awards 0.** Its word count is at least 1, so a
  blank answer scores 1 and the "No answer provided" bucket is unreachable
  (`Gemini.MockAnalysisScoresAtLeastOne`). The interview screen never sends a
  blank answer to the analyser, so this does not change any interview score.

## Model

| member | source | states |
|---|---|---|
| Types.FindAnswer | src/components/InterviewSession.tsx:47 | `None` exactly when no answer has the id; otherwise the first answer with that id |
| Types.FindQuestion | src/components/InterviewSession.tsx:66 | `None` exactly when no question has the id; otherwise the first question with that id |
| Text.Trim | src/components/InterviewSession.tsx:82 | the trimmed text neither starts nor ends with whitespace |
| Text.TrimRemovesOuterSpace | src/components/InterviewSession.tsx:82 | the trimmed text is the original with a whitespace prefix and a whitespace suffix removed |
| Text.Split | src/services/gemini.ts:94 | splitting on whitespace runs yields at least one piece, and no piece contains whitespace |
| Text.SplitJoinWords | src/services/gemini.ts:94 | non-empty, whitespace-free words joined with single spaces split back into exactly those words |
| Text.SplitCount | src/services/gemini.ts:94 | the unfiltered word count is at least 1 |
| Text.WordCount | src/components/InterviewResults.tsx:113 | the filtered count never exceeds the unfiltered one |
| Text.Tokens | src/components/SpeechAnswerInput.tsx:159 | every word is non-empty and free of whitespace |
| Text.IndexOf | src/services/gemini.ts:65 | the first position of the character, or `None` when it does not occur |
| Text.LastIndexOf | src/services/gemini.ts:65 | the last position of the character, or `None` when it does not occur |
| Text.TokensOfTrim | src/components/SpeechAnswerInput.tsx:159 | trimming keeps the words, so the filtered count is the number of words |
| Text.BlankCounts | src/components/InterviewSession.tsx:82 | a blank text has filtered count 0 and unfiltered count 1 |
| Text.CountsAgreeWhenNotBlank | src/components/InterviewResults.tsx:113 | on non-blank text the filtered and unfiltered counts agree and are at least 1 |
| Text.WordCountZeroIffBlank | src/components/InterviewResults.tsx:113 | the filtered count is 0 exactly for blank text |
| Text.IsBlank | src/components/InterviewSession.tsx:67 | `!s.trim()` holds exactly when every character is whitespace |
| Text.TrimEmptyIffAllSpace | src/components/InterviewSession.tsx:67 | trimming leaves nothing exactly when every character is whitespace |
| Text.WordCountSpaceJoin | src/components/SpeechAnswerInput.tsx:63 | joining two texts with one space adds their word counts |
| Gemini.MockScore | src/services/gemini.ts:101-130 | each bucket exactly: 0 for no words, 1 below 20, 2 below 50, 3 below 100, 4 below 150, 5 from 150 |
| Gemini.MockAnalysis | src/services/gemini.ts:93-133 | the mock score is the bucket of the unfiltered word count |
| Gemini.MockFor | src/services/gemini.ts:101-130 | each bucket's analysis carries that bucket's score |
| Gemini.MockScoreMonotone | src/services/gemini.ts:105-130 | the bucket score never falls as the word count grows |
| Gemini.MockAnalysisScoresAtLeastOne | src/services/gemini.ts:94-104 | the mock score lies in [1, 5], and a blank answer scores 1 |
| Gemini.MockAnalysisCountsWords | src/services/gemini.ts:94 | on a non-blank answer the mock score is the bucket of its number of words |
| Gemini.MockAnalysisGrowsWithText | src/services/gemini.ts:94-130 | appending a space and more text never lowers the mock score |
| Gemini.ExtractJson | src/services/gemini.ts:65 | a span exists exactly when some `{` precedes some `}`; it runs from the first `{` to the last `}` |
| Gemini.ClampScore | src/services/gemini.ts:69 | the clamped score lies in [0, 5]; an in-range score is kept, above 5 gives 5, missing or negative gives 0 |
| Gemini.FromParsed | src/services/gemini.ts:66-73 | the score is clamped; missing or empty feedback becomes "No feedback provided"; non-array lists become empty, arrays pass through |
| Gemini.Prefix | src/services/gemini.ts:82 | a prefix of the text of length min(n, length of the text) |
| Gemini.ReplyFallback | src/services/gemini.ts:79-85 | score 3; the feedback is the first min(200, length) characters of the reply followed by "..."; the fixed strength and improvement |
| Gemini.AnalyzeReply | src/services/gemini.ts:63-85 | the score lies in [0, 5]; without a span or a parse the fallback is used, otherwise the parsed analysis |
| Gemini.AnalyzeAnswer | src/services/gemini.ts:13-91 | never throws; the score lies in [0, 5]; without a key or on a thrown call it is the mock analysis of the same answer |
| OpenAi.SplitOn | src/services/openai.ts:31 | `split('\n')` yields at least one line and no line contains the separator |
| OpenAi.JoinSplitOn | src/services/openai.ts:31 | joining the split lines with the separator gives back the reply |
| OpenAi.SplitOnJoin | src/services/openai.ts:31 | separator-free lines joined and split again give back the lines |
| OpenAi.NonBlankLines | src/services/openai.ts:31 | the kept lines are lines of the input and non-blank, and every non-blank line is kept |
| OpenAi.NonBlankLinesConcat | src/services/openai.ts:31 | the filter works line by line, so kept lines stay in their order |
| OpenAi.NonBlankLinesKeepsAll | src/services/openai.ts:31 | lines that are all non-blank pass the filter unchanged |
| OpenAi.ParseQuestions | src/services/openai.ts:31-32 | at most 10 non-blank, newline-free questions; missing content gives none; otherwise the first min(10, n) non-blank lines |
| OpenAi.ParseQuestionsOfWellFormedReply | src/services/openai.ts:31-32 | a reply of one non-blank question per line is read back exactly, up to the first ten |
| OpenAi.MockQuestions | src/services/openai.ts:39-54 | exactly ten questions, each a fixed prefix, then the topic, then a fixed suffix |
| OpenAi.MockQuestionsMentionTopic | src/services/openai.ts:41-50 | every mock question contains the topic verbatim |
| OpenAi.GenerateQuestions | src/services/openai.ts:8-37 | at most ten questions; without a key or on a thrown call the mock list, otherwise the parsed reply |
| Grading.ScorePercentage | src/components/InterviewResults.tsx:16 | the percentage is `totalMarks / 50 * 100` exactly |
| Grading.ScoreGrade | src/components/InterviewResults.tsx:27-34 | the grade's rank is 0 below 50, 5 from 90, and otherwise one step per ten points from 50 |
| Grading.ScoreColorClass | src/components/InterviewResults.tsx:36-41 | the colour's rank is 0 up to 1, 3 from 4, and otherwise one step per mark from 2 |
| Grading.ScoreColor | src/components/InterviewResults.tsx:21-25 | the summary colour is green, yellow or red, never orange |
| Grading.ScoreGradeMonotone | src/components/InterviewResults.tsx:27-34 | a higher percentage never earns a lower grade |
| Grading.ScoreGradeBands | src/components/InterviewResults.tsx:27-34 | F exactly below 50, A+ exactly from 90, and each grade between covers a band of ten points |
| Grading.GradeOfTotalMarks | src/components/InterviewResults.tsx:16-34 | A+ exactly from 45 marks, F exactly below 25, green exactly from 40, red exactly below 30 |
| Grading.ScoreColorClassMonotone | src/components/InterviewResults.tsx:36-41 | the badge colour's rank never falls as the score rises |
| Grading.AnsweredCount | src/components/InterviewResults.tsx:14 | at most the number of answers; 0 for none; one answer counts exactly when it is not blank (with `AnsweredCountConcat`, the number of non-blank answers) |
| Grading.AnsweredCountConcat | src/components/InterviewResults.tsx:14 | the answered count of two runs of answers is the sum of their counts |
| Grading.AnsweredCountZero | src/components/InterviewResults.tsx:14 | the count is 0 exactly when every answer is blank |
| Grading.AnsweredCountAll | src/components/InterviewResults.tsx:14 | the count equals the number of answers exactly when none is blank |
| Grading.QuestionWordCount | src/components/InterviewResults.tsx:112-113 | 0 for a missing answer; otherwise its number of words; 0 exactly for a missing or blank answer |
| Grading.QuestionMarks | src/components/InterviewResults.tsx:125-126 | the matching answer's marks, or 0 when there is none |
| Session.InitialAnswers | src/components/InterviewSession.tsx:24-26 | one answer per question in question order, with the question's id, empty text and 0 marks |
| Session.UpdateAnswer | src/components/InterviewSession.tsx:49-55 | same length; entries for the id get the new text and 0 marks; all others are unchanged |
| Session.UpdateAnswerKeepsAlignment | src/components/InterviewSession.tsx:49-55 | editing keeps the answers aligned with the questions |
| Session.FindAfterUpdate | src/components/InterviewSession.tsx:47-55 | after an edit, looking the id up finds the new text with 0 marks |
| Session.AnswerText | src/components/InterviewSession.tsx:47 | the text of the first answer with the id, or empty when there is none |
| Session.AlignedLookup | src/components/InterviewSession.tsx:47 | with distinct ids, a question's answer is found at its own position |
| Session.ScoreOne | src/components/InterviewSession.tsx:65-73 | blank or unmatched answers score 0 without the scorer; others get exactly the scorer's outcome |
| Session.ScoreAnswers | src/components/InterviewSession.tsx:64-74 | fails exactly when some consulted call throws; otherwise same ids, texts and order, with each answer's marks from its scoring |
| Session.FallbackMarks | src/components/InterviewSession.tsx:82 | 0 for a blank answer, otherwise a mark in [1, 5] |
| Session.FallbackMarksCountsWords | src/components/InterviewSession.tsx:82 | on a non-blank answer the fallback mark is `min(5, max(1, floor(words / 20)))` |
| Session.FallbackAnswers | src/components/InterviewSession.tsx:80-83 | every answer is re-marked by the fallback, with ids and texts kept |
| Session.FinishScores | src/components/InterviewSession.tsx:63-84 | the scored table when no call throws, the fallback table for every answer when one does; same ids, texts and order; blank answers get 0; a bounded scorer gives marks in [0, 5] |
| Session.GeminiScorerNeverFallsBack | src/components/InterviewSession.tsx:71 | with the answer analyser as scorer, scoring never throws and every mark lies in [0, 5] |
| Session.InterviewSession.constructor | src/components/InterviewSession.tsx:23-28 | index 0, the initial answers, no warning, not analysing |
| Session.InterviewSession.CurrentAnswer | src/components/InterviewSession.tsx:46-47 | the text shown is the answer found for the current question, which is the answer at the current position |
| Session.InterviewSession.HandleAnswerChange | src/components/InterviewSession.tsx:49-55 | only the current question's answer changes; it then shows the new text |
| Session.InterviewSession.HandleNext | src/components/InterviewSession.tsx:57-62 | before the last question the index moves up by one; on the last it starts analysing; the index stays in range |
| Session.InterviewSession.SettleScoring | src/components/InterviewSession.tsx:63-87 | the finished table is handed on and analysing ends; the table on screen is unchanged |
| Session.InterviewSession.HandlePrevious | src/components/InterviewSession.tsx:91-95 | back by one, or no change at the first question |
| Session.InterviewSession.HandleTabSwitch | src/components/InterviewSession.tsx:32-37 | the warning shows, one termination is scheduled, and the warning view takes over |
| Session.InterviewSession.TimerFires | src/components/InterviewSession.tsx:35-37 | a scheduled termination is delivered and nothing else changes |
| Session.InterviewSession.View | src/components/InterviewSession.tsx:97-118 | the warning takes precedence over analysing, which takes precedence over the current question |
| Recognition.ErrorMessage | src/hooks/useSpeechRecognition.ts:65-81 | the four known codes get their fixed messages; any other code gets the prefix followed by the code |
| Recognition.UnknownMessageQuotesCode | src/hooks/useSpeechRecognition.ts:79-80 | an unknown code's message ends with the code, so different unknown codes give different messages |
| Recognition.LastResult | src/hooks/useSpeechRecognition.ts:48-59 | the transcript, confidence and finality of the last entry's first alternative |
| Recognition.LastResultIgnoresEarlier | src/hooks/useSpeechRecognition.ts:49 | earlier entries never change what is forwarded |
| Recognition.Recognizer.constructor | src/hooks/useSpeechRecognition.ts:22-24 | not listening, not supported, no recogniser, no requests |
| Recognition.Recognizer.Mount | src/hooks/useSpeechRecognition.ts:26-88 | support equals availability; without a recogniser the unsupported error is reported |
| Recognition.Recognizer.StartListening | src/hooks/useSpeechRecognition.ts:97-106 | `start` is requested only with a recogniser that is not listening; if it throws, the start failure is reported |
| Recognition.Recognizer.StopListening | src/hooks/useSpeechRecognition.ts:108-112 | `stop` is requested only while listening |
| Recognition.Recognizer.AbortListening | src/hooks/useSpeechRecognition.ts:114-119 | with a recogniser, `abort` is requested and listening ends |
| Recognition.Recognizer.OnStart | src/hooks/useSpeechRecognition.ts:40-42 | listening begins |
| Recognition.Recognizer.OnEnd | src/hooks/useSpeechRecognition.ts:44-46 | listening ends |
| Recognition.Recognizer.OnError | src/hooks/useSpeechRecognition.ts:61-84 | listening ends and the code's message is reported |
| Recognition.Recognizer.Unmount | src/hooks/useSpeechRecognition.ts:90-94 | an existing recogniser is aborted on cleanup |
| Recognition.AbortTwice | src/hooks/useSpeechRecognition.ts:114-119 | a second abort leaves the same flags; it only repeats the request |
| AnswerInput.AppendFinal | src/components/SpeechAnswerInput.tsx:23 | a final segment follows the answer after one space, or becomes the answer when there is none |
| AnswerInput.Step | src/components/SpeechAnswerInput.tsx:21-28 | a final result is appended and clears the interim text; an interim result replaces it and keeps the answer |
| AnswerInput.ReplayJoinsFinals | src/components/SpeechAnswerInput.tsx:21-28 | from an empty box, non-empty finals accumulate to their space-join in arrival order, whatever interims come between |
| AnswerInput.ReplayInterim | src/components/SpeechAnswerInput.tsx:26-27 | the interim text is the last result's text when that is interim, otherwise empty |
| AnswerInput.Display | src/components/SpeechAnswerInput.tsx:63 | the answer when there is no interim; answer, space, interim when both are present; the interim when there is no answer |
| AnswerInput.DisplayAnticipatesFinal | src/components/SpeechAnswerInput.tsx:63 | what is shown for an interim segment is what gets committed when it arrives as final |
| AnswerInput.DisplayWordCount | src/components/SpeechAnswerInput.tsx:159 | the shown count is the number of words of the displayed text, and the sum of the answer's and the interim's counts |
| AnswerInput.AppendFinalAddsWords | src/components/SpeechAnswerInput.tsx:23 | appending a final segment adds its words to the answer's |
| AnswerInput.SpeechAnswerInput.constructor | src/components/SpeechAnswerInput.tsx:16-18 | no interim text, no error, not recording |
| AnswerInput.SpeechAnswerInput.Mount | src/components/SpeechAnswerInput.tsx:31-34 | support follows availability, no request is sent, and without a recogniser the unsupported message is shown |
| AnswerInput.SpeechAnswerInput.OnResult | src/components/SpeechAnswerInput.tsx:21-30 | the transcript advances by `Step` and the error clears |
| AnswerInput.SpeechAnswerInput.PlatformResult | src/components/SpeechAnswerInput.tsx:21-30 | only the last entry of a result event is merged |
| AnswerInput.SpeechAnswerInput.PlatformStart | src/components/SpeechAnswerInput.tsx:38-40 | recording mirrors the recogniser starting; the text, the error, the requests and the support are unchanged |
| AnswerInput.SpeechAnswerInput.PlatformEnd | src/components/SpeechAnswerInput.tsx:38-40 | recording mirrors the recogniser ending; the text, the error, the requests and the support are unchanged |
| AnswerInput.SpeechAnswerInput.PlatformError | src/components/SpeechAnswerInput.tsx:31-34 | the code's message is shown and recording stops; the text, the requests and the support are unchanged |
| AnswerInput.SpeechAnswerInput.HandleStartRecording | src/components/SpeechAnswerInput.tsx:42-50 | when unsupported, only the error is set and start is never requested; otherwise the error clears and start is requested; the recogniser and the text stay |
| AnswerInput.SpeechAnswerInput.HandleStopRecording | src/components/SpeechAnswerInput.tsx:52-54 | `stop` is requested only while listening; the recogniser and its flags stay |
| AnswerInput.SpeechAnswerInput.HandleClearAnswer | src/components/SpeechAnswerInput.tsx:56-61 | `abort` is requested exactly when a recogniser existed, which stays; answer, interim text and error are cleared; nothing is shown |
| AnswerInput.SpeechAnswerInput.DisplayText | src/components/SpeechAnswerInput.tsx:63 | the answer when there is no interim; answer, space, interim when both are present; the interim when there is no answer |
| AnswerInput.SpeechAnswerInput.DisplayWords | src/components/SpeechAnswerInput.tsx:159 | the number of words of the displayed text, the sum of the answer's and the interim's counts |
| App.Decimal | src/App.tsx:21 | the numeral is canonical (digits only, no leading zero) and starts with 0 only for zero |
| App.DecimalRoundTrip | src/App.tsx:21 | reading the printed numeral back gives the number |
| App.NumeralIsDecimal | src/App.tsx:21 | every canonical numeral is the one printed for its value, so the printed numeral is the only canonical one |
| App.QuestionId | src/App.tsx:21 | `q-` followed by a canonical numeral, not starting with 0, that reads back as the one-based position |
| App.QuestionIdInjective | src/App.tsx:21 | different positions get different ids |
| App.FormatQuestions | src/App.tsx:20-24 | one question per generated text, in order, with id `q-(k+1)` and the topic |
| App.FormatQuestionsDistinctIds | src/App.tsx:20-24 | the ids of the formatted questions are pairwise distinct |
| App.SumMarksConcat | src/App.tsx:46 | the total of two runs of answers is the sum of their totals |
| App.SumMarks | src/App.tsx:46 | 0 for no answers, the mark itself for one answer (with `SumMarksConcat`, the sum of the marks); with marks in [0, 5], between 0 and 5 times the number of answers |
| App.InterviewApp.constructor | src/App.tsx:11-14 | setup phase, no session, no questions, not loading |
| App.InterviewApp.BeginStartInterview | src/App.tsx:16-17 | loading begins and nothing else changes |
| App.InterviewApp.SettleStartInterview | src/App.tsx:18-40 | with questions: numbered questions, a fresh uncompleted session with no answers and 0 marks, interview phase; on a throw nothing changes; loading ends |
| App.InterviewApp.HandleCompleteInterview | src/App.tsx:43-57 | the session captured by the handler's render, not the current one, is completed with the answers, end time and summed total and becomes current, with the results phase; without a session nothing changes; the question list is kept |
| App.InterviewApp.HandleTabSwitch | src/App.tsx:59-61 | the phase becomes terminated from any phase |
| App.InterviewApp.HandleRestart | src/App.tsx:63-67 | setup phase, no session, no questions, from any phase |
| App.CompleteThenTerminate | src/App.tsx:43-61 | termination after completion ends terminated, with the completed session kept |
| App.TerminateThenComplete | src/App.tsx:43-61 | completion after termination ends on the results screen: termination is not final |
| App.RestartThenLateComplete | src/App.tsx:43-67 | scoring that settles after a restart shows the captured session's results while the question list is already empty |

## Left out

- The network calls: the chat completion and `generateContent`. They are parameters (`CompletionCall`, `ServiceCall`), and so is `JSON.parse` (a parser to `Option<ParsedReply>`). The prompts are not modelled.
- API keys: "a usable key is configured" is a boolean. The literal keys and placeholder values are not copied.
- A parsed `score` that is not an integer (a fraction, a string, `NaN`) is not modelled. `ParsedReply.score` is an integer or missing, where "missing" also covers the falsy values.
- Gemini.Prefix: counts characters, where `substring(0, 200)` counts UTF-16 code units.
- Text.IsSpace: the whitespace class of `\s` and `trim` is a fixed predicate over characters, without Unicode-version detail.
- Camera handling (`hooks/useCamera.ts`, `components/CameraPreview.tsx`) and tab-visibility listening (`hooks/useTabVisibility.ts`): device and DOM input. A tab switch enters the model only as an event (`HandleTabSwitch`).
- `Promise.all` concurrency: scoring is a sequential map whose outcome is the same. The 3000 ms timer is the event `TimerFires`, which may arrive before or after completion.
- Floating point and dates: the displayed percentage, the duration in minutes and the progress bar. The grade thresholds use the exact whole-number percentage `2 * totalMarks`. Start and end times are integers.
- Presentation: JSX markup, CSS class strings (colours are an enum), `QuestionCard.tsx`, `InterviewSetup.tsx` and the answer box's `isDisabled` flag.
- Session.InterviewSession.constructor: requires a non-empty question list with distinct ids. With no questions, the screen reads `questions[0]` and fails. Distinct ids are what `App.tsx` supplies (`App.FormatQuestionsDistinctIds`).
- Speech-recognition settings (`continuous`, `interimResults`, `lang`, `maxAlternatives`) are not modelled.
- Recognition.Recognizer.Mount: is modelled as running once. In the app, the mount effect depends on `onResult` and `onError`, which the answer box creates afresh on every render, so the effect re-runs on every render: its cleanup aborts the live recogniser and a new, idle one replaces it. The model's listening state that persists across results and `onstart` therefore has no lasting counterpart in the running app, where each re-render starts over from an idle recogniser.
- Recognition.UnknownMessageQuotesCode: does not prove that the four fixed messages differ from one another or from the messages for unknown codes.
- The answer box's parent re-rendering is not modelled. The committed answer is a field of the box that `onAnswerChange` updates at once, so closures can never hold a stale answer.
