/** The question generator of `services/openai.ts`: the parsing of the chat
    model's reply into at most ten questions, one per non-blank line, and the
    ten topic templates used when no key is configured or the call throws.
    The chat completion itself is a parameter (`CompletionCall`). */
module OpenAi {
  import opened Types
  import opened Text

  /** The outcome of the chat completion: it throws, or it completes with the
      first choice's message content, which may be missing. */
  datatype CompletionCall = Threw | Completed(content: Option<string>)

  /** The maximum number of questions taken from a reply. */
  const MaxQuestions := 10

  /** `t` occurs in `s` as a contiguous piece. */
  predicate Contains(s: string, t: string) {
    exists i :: 0 <= i <= |s| && t <= s[i..]
  }

  /** JavaScript's `s.split(c)` for a one-character separator. */
  function SplitOn(s: string, c: char): (lines: seq<string>)
    ensures |lines| >= 1
    ensures forall k :: 0 <= k < |lines| ==> c !in lines[k]
    decreases |s|
  {
    match IndexOf(s, c)
    case None => [s]
    case Some(i) =>
      assert c !in s[..i] by {
        forall j | 0 <= j < i ensures s[..i][j] != c { }
      }
      [s[..i]] + SplitOn(s[i + 1..], c)
  }

  lemma SplitOnUnfold(s: string, c: char, i: nat)
    requires IndexOf(s, c) == Some(i)
    ensures i < |s| && s == s[..i] + [c] + s[i + 1..]
    ensures SplitOn(s, c) == [s[..i]] + SplitOn(s[i + 1..], c)
  {
    assert s == s[..i] + [s[i]] + s[i + 1..];
  }

  /** Splitting and re-joining with the separator gives back the text. */
  lemma {:induction false} JoinSplitOn(s: string, c: char)
    ensures Join(SplitOn(s, c), [c]) == s
    decreases |s|
  {
    var i := IndexOf(s, c);
    if i.Some? {
      SplitOnUnfold(s, c, i.value);
      var head, tail := s[..i.value], s[i.value + 1..];
      JoinCons(head, SplitOn(tail, c), [c]);
      JoinSplitOn(tail, c);
    }
  }

  /** The first separator of `a + [c] + b` is the one after `a` when `a` has none. */
  lemma IndexOfAfter(a: string, c: char, b: string)
    requires c !in a
    ensures IndexOf(a + [c] + b, c) == Some(|a|)
  {
    var s := a + [c] + b;
    assert s[|a|] == c;
    forall j | 0 <= j < |a| ensures s[j] != c {
      assert s[j] == a[j];
    }
  }

  /** Joining separator-free lines and splitting again gives back the lines. */
  lemma {:induction false} SplitOnJoin(lines: seq<string>, c: char)
    requires lines != []
    requires forall k :: 0 <= k < |lines| ==> c !in lines[k]
    ensures SplitOn(Join(lines, [c]), c) == lines
    decreases |lines|
  {
    if |lines| > 1 {
      var rest := lines[1..];
      assert lines == [lines[0]] + rest;
      JoinCons(lines[0], rest, [c]);
      var s := lines[0] + [c] + Join(rest, [c]);
      IndexOfAfter(lines[0], c, Join(rest, [c]));
      assert s[..|lines[0]|] == lines[0];
      assert s[|lines[0]| + 1..] == Join(rest, [c]);
      SplitOnJoin(rest, c);
    }
  }

  /** `lines.filter(q => q.trim())`: the lines that are not blank, in order and
      untrimmed. */
  function NonBlankLines(lines: seq<string>): (kept: seq<string>)
    ensures |kept| <= |lines|
    ensures forall k :: 0 <= k < |kept| ==> kept[k] in lines && !IsBlank(kept[k])
    ensures forall k :: 0 <= k < |lines| && !IsBlank(lines[k]) ==> lines[k] in kept
  {
    if lines == [] then []
    else
      var rest := NonBlankLines(lines[1..]);
      assert forall k :: 1 <= k < |lines| ==> lines[k] == lines[1..][k - 1];
      if IsBlank(lines[0]) then rest else [lines[0]] + rest
  }

  /** Filtering line by line: the filter of a concatenation is the
      concatenation of the filters, so the kept lines stay in their order. */
  lemma {:induction false} NonBlankLinesConcat(a: seq<string>, b: seq<string>)
    ensures NonBlankLines(a + b) == NonBlankLines(a) + NonBlankLines(b)
    decreases |a|
  {
    if a != [] {
      assert (a + b)[1..] == a[1..] + b;
      NonBlankLinesConcat(a[1..], b);
    } else {
      assert a + b == b;
    }
  }

  /** A list with no blank line passes the filter unchanged. */
  lemma {:induction false} NonBlankLinesKeepsAll(lines: seq<string>)
    requires forall k :: 0 <= k < |lines| ==> !IsBlank(lines[k])
    ensures NonBlankLines(lines) == lines
    decreases |lines|
  {
    if lines != [] {
      NonBlankLinesKeepsAll(lines[1..]);
    }
  }

  /** `content?.split('\n').filter(q => q.trim()) || []` followed by
      `slice(0, 10)`. */
  function ParseQuestions(content: Option<string>): (questions: seq<string>)
    ensures |questions| <= MaxQuestions
    ensures content.None? ==> questions == []
    ensures forall k :: 0 <= k < |questions| ==> !IsBlank(questions[k]) && '\n' !in questions[k]
    ensures content.Some? ==>
      var lines := NonBlankLines(SplitOn(content.value, '\n'));
      && questions <= lines
      && |questions| == if |lines| < MaxQuestions then |lines| else MaxQuestions
  {
    match content
    case None => []
    case Some(text) =>
      var lines := NonBlankLines(SplitOn(text, '\n'));
      if |lines| <= MaxQuestions then lines else lines[..MaxQuestions]
  }

  /** A reply written as asked, one question per line, is read back exactly
      (up to the first ten questions). */
  lemma ParseQuestionsOfWellFormedReply(questions: seq<string>)
    requires forall k :: 0 <= k < |questions| ==> !IsBlank(questions[k]) && '\n' !in questions[k]
    ensures ParseQuestions(Some(Join(questions, "\n"))) ==
      if |questions| <= MaxQuestions then questions else questions[..MaxQuestions]
  {
    if questions == [] {
      assert SplitOn([], '\n') == [[]];
      assert IsBlank([]);
    } else {
      SplitOnJoin(questions, '\n');
      NonBlankLinesKeepsAll(questions);
    }
  }

  /** The prefix and suffix around the topic of each mock question. */
  const Templates: seq<(string, string)> := [
    ("What experience do you have in ", "?"),
    ("How do you stay updated with the latest trends in ", "?"),
    ("Describe a challenging project you worked on related to ", "."),
    ("What are the key skills required for success in ", "?"),
    ("How would you explain ", " concepts to a non-technical person?"),
    ("What tools and technologies do you use for ", "?"),
    ("Describe your problem-solving approach in ", "."),
    ("What are the current challenges facing the ", " industry?"),
    ("How do you ensure quality and best practices in ", "?"),
    ("Where do you see the future of ", " heading?")
  ]

  /** `generateMockQuestions(topic)`: ten questions, each naming the topic. */
  function MockQuestions(topic: string): (questions: seq<string>)
    ensures |questions| == MaxQuestions
    ensures forall k :: 0 <= k < |questions| ==> questions[k] == Templates[k].0 + topic + Templates[k].1
  {
    seq(MaxQuestions, k requires 0 <= k < MaxQuestions => Templates[k].0 + topic + Templates[k].1)
  }

  lemma ContainsMiddle(p: string, t: string, q: string)
    ensures Contains(p + t + q, t)
  {
    var s := p + t + q;
    assert t <= s[|p|..];
  }

  /** Every mock question contains the topic verbatim. */
  lemma MockQuestionsMentionTopic(topic: string)
    ensures forall k :: 0 <= k < MaxQuestions ==> Contains(MockQuestions(topic)[k], topic)
  {
    forall k | 0 <= k < MaxQuestions
      ensures Contains(MockQuestions(topic)[k], topic)
    {
      ContainsMiddle(Templates[k].0, topic, Templates[k].1);
    }
  }

  /** `generateInterviewQuestions(topic)`: the mock list when no key is
      configured or the call throws, otherwise the parsed reply. */
  function GenerateQuestions(keyConfigured: bool, call: CompletionCall, topic: string): (questions: seq<string>)
    ensures |questions| <= MaxQuestions
    ensures !keyConfigured || call.Threw? ==> questions == MockQuestions(topic)
    ensures keyConfigured && call.Completed? ==> questions == ParseQuestions(call.content)
  {
    if !keyConfigured then MockQuestions(topic)
    else match call
      case Threw => MockQuestions(topic)
      case Completed(content) => ParseQuestions(content)
  }
}
