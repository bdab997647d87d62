/** The speech-recognition hook of `hooks/useSpeechRecognition.ts`: the
    `isListening` flag, the guarded start/stop/abort requests to the browser's
    recogniser, the recogniser's callbacks, the classification of its error
    codes and the forwarding of the latest result. The browser recogniser is
    represented by whether it exists and by the log of requests sent to it. */
module Recognition {
  import opened Types

  /** A request sent to the browser recogniser. */
  datatype PlatformCall = Start | Stop | Abort

  /** One alternative of a recognition result. */
  datatype Alternative = Alternative(transcript: string, confidence: real)

  /** One entry of the event's result list. */
  datatype ResultEntry = ResultEntry(alternatives: seq<Alternative>, isFinal: bool)

  /** What the hook passes to `onResult`. */
  datatype RecognitionResult = RecognitionResult(transcript: string, confidence: real, isFinal: bool)

  const UnsupportedMessage: string := "Speech recognition is not supported in this browser"
  const StartFailedMessage: string := "Failed to start speech recognition"
  const UnknownErrorPrefix: string := "Speech recognition error: "

  const NoSpeechMessage: string := "No speech detected. Please try speaking again."
  const AudioCaptureMessage: string := "Microphone not accessible. Please check permissions."
  const NotAllowedMessage: string := "Microphone permission denied."
  const NetworkMessage: string := "Network error occurred during speech recognition."

  /** The message reported for a recogniser error code. */
  function ErrorMessage(code: string): (message: string)
    ensures code == "no-speech" ==> message == NoSpeechMessage
    ensures code == "audio-capture" ==> message == AudioCaptureMessage
    ensures code == "not-allowed" ==> message == NotAllowedMessage
    ensures code == "network" ==> message == NetworkMessage
    ensures !IsKnownCode(code) ==> message == UnknownErrorPrefix + code
  {
    if code == "no-speech" then NoSpeechMessage
    else if code == "audio-capture" then AudioCaptureMessage
    else if code == "not-allowed" then NotAllowedMessage
    else if code == "network" then NetworkMessage
    else UnknownErrorPrefix + code
  }

  predicate IsKnownCode(code: string) {
    code == "no-speech" || code == "audio-capture" || code == "not-allowed" || code == "network"
  }

  /** A message for an unrecognised code quotes that code after the prefix,
      so different unrecognised codes give different messages. */
  lemma UnknownMessageQuotesCode(a: string, b: string)
    requires !IsKnownCode(a) && !IsKnownCode(b)
    ensures ErrorMessage(a)[|UnknownErrorPrefix|..] == a
    ensures ErrorMessage(a) == ErrorMessage(b) <==> a == b
  {
    assert ErrorMessage(a)[|UnknownErrorPrefix|..] == a;
    assert ErrorMessage(b)[|UnknownErrorPrefix|..] == b;
  }

  /** `onresult`: the last entry of the result list, its first alternative's
      transcript and confidence, and whether it is final. The browser always
      delivers a non-empty list whose entries hold at least one alternative. */
  function LastResult(results: seq<ResultEntry>): (r: RecognitionResult)
    requires |results| > 0 && |results[|results| - 1].alternatives| > 0
    ensures r.transcript == results[|results| - 1].alternatives[0].transcript
    ensures r.confidence == results[|results| - 1].alternatives[0].confidence
    ensures r.isFinal == results[|results| - 1].isFinal
  {
    var last := results[|results| - 1];
    RecognitionResult(last.alternatives[0].transcript, last.alternatives[0].confidence, last.isFinal)
  }

  /** Only the last entry matters: earlier entries never change what is
      forwarded. */
  lemma LastResultIgnoresEarlier(earlier: seq<ResultEntry>, other: seq<ResultEntry>, last: ResultEntry)
    requires |last.alternatives| > 0
    ensures LastResult(earlier + [last]) == LastResult(other + [last]) == LastResult([last])
  {
  }

  class Recognizer {
    /** `recognitionRef.current !== null`. */
    var hasRecognizer: bool
    var isSupported: bool
    var isListening: bool
    /** The requests sent to the browser recogniser, oldest first. */
    var calls: seq<PlatformCall>

    /** Support is exactly the existence of a recogniser, and without one
        nothing can be listening. */
    predicate Valid()
      reads this
    {
      isSupported == hasRecognizer && (!hasRecognizer ==> !isListening)
    }

    /** The state before the mount effect runs. */
    constructor()
      ensures Valid()
      ensures !hasRecognizer && !isSupported && !isListening && calls == []
    {
      hasRecognizer := false;
      isSupported := false;
      isListening := false;
      calls := [];
    }

    /** The mount effect: a recogniser is created when the browser offers one;
        otherwise support stays off and the unsupported error is reported. */
    method Mount(available: bool) returns (reported: Option<string>)
      requires Valid()
      modifies this
      ensures Valid()
      ensures hasRecognizer == available && isSupported == available
      ensures reported == if available then None else Some(UnsupportedMessage)
      ensures isListening == (available && old(isListening)) && calls == old(calls)
    {
      hasRecognizer := available;
      isSupported := available;
      if !available {
        isListening := false;
        reported := Some(UnsupportedMessage);
      } else {
        reported := None;
      }
    }

    /** `startListening`: asks the recogniser to start only when one exists
        and it is not already listening; if `start()` throws, the failure is
        reported. Listening itself begins with `OnStart`. */
    method StartListening(startThrows: bool) returns (reported: Option<string>)
      requires Valid()
      modifies this
      ensures Valid()
      ensures calls == if old(hasRecognizer && !isListening) then old(calls) + [Start] else old(calls)
      ensures reported == if old(hasRecognizer && !isListening) && startThrows then Some(StartFailedMessage) else None
      ensures isListening == old(isListening) && hasRecognizer == old(hasRecognizer) && isSupported == old(isSupported)
    {
      reported := None;
      if hasRecognizer && !isListening {
        calls := calls + [Start];
        if startThrows {
          reported := Some(StartFailedMessage);
        }
      }
    }

    /** `stopListening`: asks the recogniser to stop only while listening. */
    method StopListening()
      requires Valid()
      modifies this
      ensures Valid()
      ensures calls == if old(isListening) then old(calls) + [Stop] else old(calls)
      ensures isListening == old(isListening) && hasRecognizer == old(hasRecognizer) && isSupported == old(isSupported)
    {
      if hasRecognizer && isListening {
        calls := calls + [Stop];
      }
    }

    /** `abortListening`: aborts and clears the flag whenever a recogniser
        exists. */
    method AbortListening()
      requires Valid()
      modifies this
      ensures Valid()
      ensures !isListening
      ensures calls == if hasRecognizer then old(calls) + [Abort] else old(calls)
      ensures hasRecognizer == old(hasRecognizer) && isSupported == old(isSupported)
    {
      if hasRecognizer {
        calls := calls + [Abort];
        isListening := false;
      }
    }

    /** `onstart`. */
    method OnStart()
      requires Valid() && hasRecognizer
      modifies this
      ensures Valid() && isListening
      ensures calls == old(calls) && hasRecognizer == old(hasRecognizer) && isSupported == old(isSupported)
    {
      isListening := true;
    }

    /** `onend`. */
    method OnEnd()
      requires Valid() && hasRecognizer
      modifies this
      ensures Valid() && !isListening
      ensures calls == old(calls) && hasRecognizer == old(hasRecognizer) && isSupported == old(isSupported)
    {
      isListening := false;
    }

    /** `onerror`: listening stops and the code's message is reported. */
    method OnError(code: string) returns (reported: string)
      requires Valid() && hasRecognizer
      modifies this
      ensures Valid() && !isListening
      ensures reported == ErrorMessage(code)
      ensures calls == old(calls) && hasRecognizer == old(hasRecognizer) && isSupported == old(isSupported)
    {
      isListening := false;
      reported := ErrorMessage(code);
    }

    /** The effect cleanup on unmount: an existing recogniser is aborted. */
    method Unmount()
      requires Valid()
      modifies this
      ensures Valid()
      ensures calls == if hasRecognizer then old(calls) + [Abort] else old(calls)
      ensures isListening == old(isListening) && hasRecognizer == old(hasRecognizer) && isSupported == old(isSupported)
    {
      if hasRecognizer {
        calls := calls + [Abort];
      }
    }
  }

  /** Aborting twice leaves the same flags as aborting once; the second
      abort only repeats the request to the recogniser. */
  method AbortTwice(r: Recognizer)
    requires r.Valid()
    modifies r
    ensures r.Valid() && !r.isListening
    ensures r.hasRecognizer == old(r.hasRecognizer) && r.isSupported == old(r.isSupported)
    ensures r.calls == if r.hasRecognizer then old(r.calls) + [Abort, Abort] else old(r.calls)
  {
    r.AbortListening();
    var listeningOnce, supportedOnce := r.isListening, r.isSupported;
    r.AbortListening();
    assert r.isListening == listeningOnce && r.isSupported == supportedOnce;
  }
}
