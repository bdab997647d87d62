/** The voice answer box of `components/SpeechAnswerInput.tsx`: a committed
    answer plus an ephemeral interim transcript. Final results are appended
    with one separating space, interim results replace each other, and the
    box shows and counts `answer + interim`. The component drives a
    `Recognition.Recognizer` and mirrors its listening flag. */
module AnswerInput {
  import opened Types
  import opened Text
  import Recognition

  /** A recognition result as the box sees it. */
  datatype SpeechEvent = Interim(transcript: string) | Final(transcript: string)

  /** The committed answer and the interim transcript. */
  datatype Transcript = Transcript(answer: string, interim: string)

  // ---------------------------------------------------------------------------
  // Merging transcripts

  /** `answer + (answer ? ' ' : '') + t`: a final segment joins the answer
      after one space, or becomes the answer when there is none yet. */
  function AppendFinal(answer: string, t: string): (merged: string)
    ensures answer == [] ==> merged == t
    ensures answer != [] ==> merged == answer + " " + t
  {
    if answer == [] then t else answer + " " + t
  }

  /** The effect of one result: a final one is appended and clears the
      interim transcript; an interim one replaces the interim transcript. */
  function Step(s: Transcript, e: SpeechEvent): (next: Transcript)
    ensures e.Final? ==> next == Transcript(AppendFinal(s.answer, e.transcript), [])
    ensures e.Interim? ==> next == Transcript(s.answer, e.transcript)
  {
    match e
    case Final(t) => Transcript(AppendFinal(s.answer, t), [])
    case Interim(t) => Transcript(s.answer, t)
  }

  /** The transcript after a run of results, starting from an empty box. */
  function Replay(events: seq<SpeechEvent>): Transcript {
    if events == [] then Transcript([], [])
    else Step(Replay(events[..|events| - 1]), events[|events| - 1])
  }

  /** The final segments of a run of results, in arrival order. */
  function Finals(events: seq<SpeechEvent>): (finals: seq<string>)
    ensures |finals| <= |events|
  {
    if events == [] then []
    else
      var init := Finals(events[..|events| - 1]);
      match events[|events| - 1]
      case Final(t) => init + [t]
      case Interim(_) => init
  }

  /** Starting from an empty answer, non-empty final segments accumulate to
      their space-separated join, whatever interim results come between;
      the answer stays empty until the first final segment. */
  lemma {:induction false} ReplayJoinsFinals(events: seq<SpeechEvent>)
    requires forall k :: 0 <= k < |events| && events[k].Final? ==> events[k].transcript != []
    ensures Replay(events).answer == Join(Finals(events), " ")
    ensures Replay(events).answer == [] <==> Finals(events) == []
  {
    if events != [] {
      var init := events[..|events| - 1];
      assert forall k :: 0 <= k < |init| ==> init[k] == events[k];
      ReplayJoinsFinals(init);
      var fs := Finals(init);
      match events[|events| - 1]
      case Final(t) =>
        assert (fs + [t])[..|fs + [t]| - 1] == fs;
        assert Join(fs + [t], " ") == if fs == [] then t else Join(fs, " ") + " " + t;
      case Interim(_) =>
    }
  }

  /** The interim transcript is the last result's text when that result is
      interim, and empty after a final one. */
  lemma ReplayInterim(events: seq<SpeechEvent>)
    requires events != []
    ensures Replay(events).interim == if events[|events| - 1].Interim? then events[|events| - 1].transcript else []
  {
  }

  // ---------------------------------------------------------------------------
  // What the box shows

  /** `displayText`: the answer, then the interim transcript after a space
      when both are present. */
  function Display(answer: string, interim: string): (shown: string)
    ensures interim == [] ==> shown == answer
    ensures answer != [] && interim != [] ==> shown == answer + " " + interim
    ensures answer == [] ==> shown == interim
  {
    answer + (if interim != [] then (if answer != [] then " " else []) + interim else [])
  }

  /** What the box shows while a segment is interim is exactly the answer it
      commits when that segment arrives again as final. */
  lemma DisplayAnticipatesFinal(answer: string, t: string)
    requires t != []
    ensures Display(answer, t) == Step(Transcript(answer, t), Final(t)).answer
  {
  }

  /** The word count shown under the box. */
  function DisplayWordCount(answer: string, interim: string): (n: nat)
    ensures n == |Tokens(Display(answer, interim))|
    ensures n == WordCount(answer) + WordCount(interim)
  {
    var shown := Display(answer, interim);
    TokensOfTrim(shown);
    if answer == [] || interim == [] then
      assert WordCount([]) == 0 by { BlankCounts([]); }
      WordCount(shown)
    else
      WordCountSpaceJoin(answer, interim);
      WordCount(shown)
  }

  /** Appending a final segment adds its words to the answer's. */
  lemma AppendFinalAddsWords(answer: string, t: string)
    ensures WordCount(AppendFinal(answer, t)) == WordCount(answer) + WordCount(t)
  {
    if answer == [] {
      BlankCounts([]);
    } else {
      WordCountSpaceJoin(answer, t);
    }
  }

  // ---------------------------------------------------------------------------
  // The component

  class SpeechAnswerInput {
    const rec: Recognition.Recognizer
    /** The committed answer, owned by the parent and changed through
        `onAnswerChange`. */
    var answer: string
    var interim: string
    var error: Option<string>
    var isRecording: bool

    /** The recording flag mirrors the recogniser's listening flag. */
    predicate Valid()
      reads this, rec
    {
      rec.Valid() && isRecording == rec.isListening
    }

    constructor(answer: string)
      ensures Valid() && fresh(rec)
      ensures this.answer == answer && interim == [] && error == None && !isRecording
      ensures !rec.hasRecognizer && rec.calls == []
    {
      rec := new Recognition.Recognizer();
      this.answer := answer;
      interim := [];
      error := None;
      isRecording := false;
    }

    /** The recogniser's mount effect, with its unsupported error routed to
        the box. */
    method Mount(available: bool)
      requires Valid()
      modifies this, rec
      ensures Valid()
      ensures rec.hasRecognizer == available && rec.isSupported == available && rec.calls == old(rec.calls)
      ensures error == if available then old(error) else Some(Recognition.UnsupportedMessage)
      ensures answer == old(answer) && interim == old(interim)
    {
      var reported := rec.Mount(available);
      if reported.Some? {
        error := reported;
      }
      isRecording := rec.isListening;
    }

    /** `onResult`: merge the result and clear any error. */
    method OnResult(r: Recognition.RecognitionResult)
      requires Valid()
      modifies this
      ensures Valid()
      ensures Transcript(answer, interim) ==
        Step(old(Transcript(answer, interim)), if r.isFinal then Final(r.transcript) else Interim(r.transcript))
      ensures error == None && isRecording == old(isRecording)
    {
      if r.isFinal {
        answer := AppendFinal(answer, r.transcript);
        interim := [];
      } else {
        interim := r.transcript;
      }
      error := None;
    }

    /** A result event from the recogniser: only its last entry is merged. */
    method PlatformResult(results: seq<Recognition.ResultEntry>)
      requires Valid() && |results| > 0 && |results[|results| - 1].alternatives| > 0
      modifies this
      ensures Valid()
      ensures var r := Recognition.LastResult(results);
        Transcript(answer, interim) ==
          Step(old(Transcript(answer, interim)), if r.isFinal then Final(r.transcript) else Interim(r.transcript))
      ensures error == None
    {
      OnResult(Recognition.LastResult(results));
    }

    /** The recogniser starts listening; the box starts recording. */
    method PlatformStart()
      requires Valid() && rec.hasRecognizer
      modifies this, rec
      ensures Valid() && isRecording
      ensures answer == old(answer) && interim == old(interim) && error == old(error)
      ensures rec.calls == old(rec.calls) && rec.hasRecognizer == old(rec.hasRecognizer) && rec.isSupported == old(rec.isSupported)
    {
      rec.OnStart();
      isRecording := true;
    }

    /** The recogniser stops; the box stops recording. */
    method PlatformEnd()
      requires Valid() && rec.hasRecognizer
      modifies this, rec
      ensures Valid() && !isRecording
      ensures answer == old(answer) && interim == old(interim) && error == old(error)
      ensures rec.calls == old(rec.calls) && rec.hasRecognizer == old(rec.hasRecognizer) && rec.isSupported == old(rec.isSupported)
    {
      rec.OnEnd();
      isRecording := false;
    }

    /** A recogniser error: its message is shown and recording stops. */
    method PlatformError(code: string)
      requires Valid() && rec.hasRecognizer
      modifies this, rec
      ensures Valid() && !isRecording
      ensures error == Some(Recognition.ErrorMessage(code))
      ensures answer == old(answer) && interim == old(interim)
      ensures rec.calls == old(rec.calls) && rec.hasRecognizer == old(rec.hasRecognizer) && rec.isSupported == old(rec.isSupported)
    {
      var message := rec.OnError(code);
      error := Some(message);
      isRecording := false;
    }

    /** `handleStartRecording`: without support only the error is set and
        the recogniser is never asked to start; otherwise the error clears
        and listening is requested, a failure to start being shown. */
    method HandleStartRecording(startThrows: bool)
      requires Valid()
      modifies this, rec
      ensures Valid()
      ensures !old(rec.isSupported) ==>
        error == Some(Recognition.UnsupportedMessage) && rec.calls == old(rec.calls)
      ensures old(rec.isSupported) && !old(rec.isListening) ==>
        rec.calls == old(rec.calls) + [Recognition.Start]
        && error == (if startThrows then Some(Recognition.StartFailedMessage) else None)
      ensures old(rec.isSupported) && old(rec.isListening) ==> rec.calls == old(rec.calls) && error == None
      ensures answer == old(answer) && interim == old(interim) && isRecording == old(isRecording)
      ensures rec.hasRecognizer == old(rec.hasRecognizer) && rec.isSupported == old(rec.isSupported)
    {
      if !rec.isSupported {
        error := Some(Recognition.UnsupportedMessage);
        return;
      }
      error := None;
      var reported := rec.StartListening(startThrows);
      if reported.Some? {
        error := reported;
        isRecording := false;
      }
    }

    /** `handleStopRecording`. */
    method HandleStopRecording()
      requires Valid()
      modifies rec
      ensures Valid()
      ensures rec.calls == if old(rec.isListening) then old(rec.calls) + [Recognition.Stop] else old(rec.calls)
      ensures rec.hasRecognizer == old(rec.hasRecognizer) && rec.isSupported == old(rec.isSupported) && rec.isListening == old(rec.isListening)
    {
      rec.StopListening();
    }

    /** `handleClearAnswer`: listening is aborted and the answer, the interim
        transcript and the error are all cleared. */
    method HandleClearAnswer()
      requires Valid()
      modifies this, rec
      ensures Valid()
      ensures answer == [] && interim == [] && error == None && !isRecording
      ensures rec.calls == if old(rec.hasRecognizer) then old(rec.calls) + [Recognition.Abort] else old(rec.calls)
      ensures rec.hasRecognizer == old(rec.hasRecognizer) && rec.isSupported == old(rec.isSupported)
      ensures DisplayText() == []
    {
      rec.AbortListening();
      answer := [];
      interim := [];
      error := None;
      isRecording := rec.isListening;
    }

    /** `displayText`. */
    function DisplayText(): (shown: string)
      reads this
      ensures interim == [] ==> shown == answer
      ensures answer != [] && interim != [] ==> shown == answer + " " + interim
      ensures answer == [] ==> shown == interim
    {
      Display(answer, interim)
    }

    /** The word count shown under the box. */
    function DisplayWords(): (n: nat)
      reads this
      ensures n == |Tokens(DisplayText())|
      ensures n == WordCount(answer) + WordCount(interim)
    {
      DisplayWordCount(answer, interim)
    }
  }
}
