/** Whitespace handling shared by the interview components: JavaScript's
    `String.prototype.trim`, `split(/\s+/)`, and the two word counts built on
    them. The unfiltered count `s.trim().split(/\s+/).length` is 1 for a blank
    string; the filtered count, which drops empty pieces, is 0 for it. */
module Text {
  import opened Types

  /** The characters matched by JavaScript's `\s`, which are also the ones
      `trim` strips: the ASCII blanks, no-break space, the byte-order mark and
      the Unicode space separators and line terminators. */
  predicate IsSpace(c: char) {
    c == ' ' || c == '\t' || c == '\n' || c == '\r' || c == '\U{0B}' || c == '\U{0C}'
    || c == '\U{A0}' || c == '\U{1680}' || ('\U{2000}' <= c <= '\U{200A}')
    || c == '\U{2028}' || c == '\U{2029}' || c == '\U{202F}' || c == '\U{205F}'
    || c == '\U{3000}' || c == '\U{FEFF}'
  }

  predicate NoSpace(s: string) {
    forall i :: 0 <= i < |s| ==> !IsSpace(s[i])
  }

  predicate AllSpace(s: string) {
    forall i :: 0 <= i < |s| ==> IsSpace(s[i])
  }

  /** Length of the whitespace run that starts `s`. */
  function LeadingSpace(s: string): (n: nat)
    ensures n <= |s| && AllSpace(s[..n])
    ensures n < |s| ==> !IsSpace(s[n])
  {
    if s == [] || !IsSpace(s[0]) then 0 else 1 + LeadingSpace(s[1..])
  }

  /** Index of the first whitespace character of `s`, or `|s|` when there is none. */
  function FirstSpace(s: string): (n: nat)
    ensures n <= |s| && NoSpace(s[..n])
    ensures n < |s| ==> IsSpace(s[n])
  {
    if s == [] || IsSpace(s[0]) then 0 else 1 + FirstSpace(s[1..])
  }

  function TrimStart(s: string): string {
    s[LeadingSpace(s)..]
  }

  /** `s` without its trailing whitespace run. */
  function TrimEnd(s: string): (r: string)
    ensures |r| <= |s| && r == s[..|r|]
    ensures AllSpace(s[|r|..])
    ensures r == [] || !IsSpace(r[|r| - 1])
  {
    if s != [] && IsSpace(s[|s| - 1]) then
      var r := TrimEnd(s[..|s| - 1]);
      assert s[|r|..] == s[..|s| - 1][|r|..] + [s[|s| - 1]];
      r
    else s
  }

  /** JavaScript's `s.trim()`. */
  function Trim(s: string): (r: string)
    ensures r == [] || (!IsSpace(r[0]) && !IsSpace(r[|r| - 1]))
  {
    TrimEnd(TrimStart(s))
  }

  /** The trimmed text is the original with a whitespace prefix and a
      whitespace suffix removed. */
  lemma TrimRemovesOuterSpace(s: string)
    ensures LeadingSpace(s) + |Trim(s)| <= |s|
    ensures Trim(s) == s[LeadingSpace(s)..LeadingSpace(s) + |Trim(s)|]
    ensures AllSpace(s[..LeadingSpace(s)]) && AllSpace(s[LeadingSpace(s) + |Trim(s)|..])
  {
    var n := LeadingSpace(s);
    var r := Trim(s);
    assert s[n..][|r|..] == s[n + |r|..];
  }

  /** JavaScript's `!s.trim()`: the text is empty or all whitespace. */
  predicate IsBlank(s: string)
    ensures IsBlank(s) <==> AllSpace(s)
  {
    TrimEmptyIffAllSpace(s);
    Trim(s) == []
  }

  /** JavaScript's `s.split(/\s+/)`: every maximal whitespace run separates two
      pieces, so leading or trailing whitespace yields an empty first or last
      piece, and the empty string yields one empty piece. */
  function Split(s: string): (pieces: seq<string>)
    decreases |s|
    ensures |pieces| >= 1
    ensures forall k :: 0 <= k < |pieces| ==> NoSpace(pieces[k])
  {
    var i := FirstSpace(s);
    if i == |s| then [s]
    else
      var rest := s[i..];
      [s[..i]] + Split(rest[LeadingSpace(rest)..])
  }

  /** `pieces.filter(w => w.length > 0)`. */
  function NonEmpty(pieces: seq<string>): (r: seq<string>)
    ensures |r| <= |pieces|
    ensures forall k :: 0 <= k < |r| ==> r[k] != [] && r[k] in pieces
  {
    if pieces == [] then []
    else (if pieces[0] == [] then [] else [pieces[0]]) + NonEmpty(pieces[1..])
  }

  /** The words of `s`: its non-empty whitespace-separated tokens, in order. */
  function Tokens(s: string): (words: seq<string>)
    ensures forall k :: 0 <= k < |words| ==> words[k] != [] && NoSpace(words[k])
  {
    NonEmpty(Split(s))
  }

  /** The unfiltered count `s.trim().split(/\s+/).length`. */
  function SplitCount(s: string): (n: nat)
    ensures n >= 1
  {
    |Split(Trim(s))|
  }

  /** The filtered count `s.trim().split(/\s+/).filter(w => w.length > 0).length`. */
  function WordCount(s: string): (n: nat)
    ensures n <= SplitCount(s)
  {
    |NonEmpty(Split(Trim(s)))|
  }

  /** Separator-joined concatenation: `Join(["a", "b"], " ") == "a b"`. */
  function Join(parts: seq<string>, sep: string): string {
    if parts == [] then []
    else if |parts| == 1 then parts[0]
    else Join(parts[..|parts| - 1], sep) + sep + parts[|parts| - 1]
  }

  /** `Join` takes its first part off the front as readily as its last off the end. */
  lemma {:induction false} JoinCons(a: string, rest: seq<string>, sep: string)
    requires rest != []
    ensures Join([a] + rest, sep) == a + sep + Join(rest, sep)
    decreases |rest|
  {
    var all := [a] + rest;
    if |rest| == 1 {
      assert all[..1] == [a];
    } else {
      var init := rest[..|rest| - 1];
      assert all[..|all| - 1] == [a] + init;
      JoinCons(a, init, sep);
      Assoc(a, sep, Join(init, sep));
      Assoc(a + sep, Join(init, sep), sep);
      Assoc(a + sep, Join(init, sep) + sep, rest[|rest| - 1]);
      Assoc(a, sep, Join(init, sep) + sep + rest[|rest| - 1]);
    }
  }

  /** Index of the first occurrence of `c` in `s`. */
  function IndexOf(s: string, c: char): (r: Option<nat>)
    ensures r.None? ==> forall j :: 0 <= j < |s| ==> s[j] != c
    ensures r.Some? ==> r.value < |s| && s[r.value] == c
    ensures r.Some? ==> forall j :: 0 <= j < r.value ==> s[j] != c
  {
    if s == [] then None
    else if s[0] == c then Some(0)
    else match IndexOf(s[1..], c)
      case None => None
      case Some(i) => Some(i + 1)
  }

  /** Index of the last occurrence of `c` in `s`. */
  function LastIndexOf(s: string, c: char): (r: Option<nat>)
    ensures r.None? ==> forall j :: 0 <= j < |s| ==> s[j] != c
    ensures r.Some? ==> r.value < |s| && s[r.value] == c
    ensures r.Some? ==> forall j :: r.value < j < |s| ==> s[j] != c
  {
    if s == [] then None
    else if s[|s| - 1] == c then Some(|s| - 1)
    else LastIndexOf(s[..|s| - 1], c)
  }

  // ---------------------------------------------------------------------------
  // Helper facts about the scanning functions
  // ---------------------------------------------------------------------------

  lemma FirstSpaceConcat(a: string, b: string)
    ensures FirstSpace(a + b) == if FirstSpace(a) < |a| then FirstSpace(a) else |a| + FirstSpace(b)
  {
    if a != [] {
      assert (a + b)[1..] == a[1..] + b;
      FirstSpaceConcat(a[1..], b);
    } else {
      assert a + b == b;
    }
  }

  lemma LeadingSpaceConcat(a: string, b: string)
    ensures LeadingSpace(a + b) == if LeadingSpace(a) < |a| then LeadingSpace(a) else |a| + LeadingSpace(b)
  {
    if a != [] {
      assert (a + b)[1..] == a[1..] + b;
      LeadingSpaceConcat(a[1..], b);
    } else {
      assert a + b == b;
    }
  }

  lemma LeadingSpaceOfAllSpace(s: string)
    requires AllSpace(s)
    ensures LeadingSpace(s) == |s|
  {
  }

  lemma NonEmptyConcat(p: seq<string>, q: seq<string>)
    ensures NonEmpty(p + q) == NonEmpty(p) + NonEmpty(q)
  {
    if p != [] {
      assert (p + q)[1..] == p[1..] + q;
      NonEmptyConcat(p[1..], q);
    } else {
      assert p + q == q;
    }
  }

  lemma NonEmptyOfNonEmpty(p: seq<string>)
    requires forall k :: 0 <= k < |p| ==> p[k] != []
    ensures NonEmpty(p) == p
  {
    if p != [] {
      NonEmptyOfNonEmpty(p[1..]);
    }
  }

  lemma LeadingSpaceStopsAt(s: string, k: nat)
    requires k < |s| && !IsSpace(s[k])
    ensures LeadingSpace(s) <= k
  {
    if k > 0 && IsSpace(s[0]) {
      LeadingSpaceStopsAt(s[1..], k - 1);
    }
  }

  lemma TrimEndOfAllSpace(s: string)
    requires AllSpace(s)
    ensures TrimEnd(s) == []
  {
    if s != [] {
      TrimEndOfAllSpace(s[..|s| - 1]);
    }
  }

  lemma AllSpaceConcat(x: string, y: string)
    requires AllSpace(x) && AllSpace(y)
    ensures AllSpace(x + y)
  {
  }

  lemma Assoc<T>(x: seq<T>, y: seq<T>, z: seq<T>)
    ensures x + (y + z) == (x + y) + z
  {
  }

  lemma SplitAt(a: string, i: nat)
    requires i <= |a|
    ensures a == a[..i] + a[i..]
  {
  }

  lemma Regroup(h: string, r: string, w: string, b: string)
    ensures (h + r) + (w + b) == h + ((r + w) + b)
  {
  }

  lemma TrimStartAfterSpace(w: string, b: string)
    requires AllSpace(w)
    ensures TrimStart(w + b) == TrimStart(b)
  {
    LeadingSpaceConcat(w, b);
    LeadingSpaceOfAllSpace(w);
    assert (w + b)[|w| + LeadingSpace(b)..] == b[LeadingSpace(b)..];
  }

  lemma SliceOfSlice<T>(s: seq<T>, i: nat, n: nat)
    requires i + n <= |s|
    ensures s[i..][n..] == s[i + n..]
  {
  }

  lemma SlicesOfConcat<T>(a: seq<T>, c: seq<T>, i: nat)
    requires i <= |a|
    ensures (a + c)[i..] == a[i..] + c && (a + c)[..i] == a[..i]
  {
  }

  /** `Split` unfolded once at its first whitespace run `s[i..j]`. */
  lemma SplitUnfold(s: string, i: nat, j: nat)
    requires i == FirstSpace(s) < |s|
    requires j == i + LeadingSpace(s[i..])
    ensures Split(s) == [s[..i]] + Split(s[j..])
  {
    var rest := s[i..];
    SliceOfSlice(s, i, LeadingSpace(rest));
    assert rest[LeadingSpace(rest)..] == s[j..];
  }

  /** `Split` of a space-free word followed by whitespace. */
  lemma SplitAtSpace(a: string, c: string)
    requires NoSpace(a) && c != [] && IsSpace(c[0])
    ensures Split(a + c) == [a] + Split(TrimStart(c))
  {
    FirstSpaceConcat(a, c);
    assert FirstSpace(a) == |a|;
    assert (a + c)[|a|..] == c;
    assert (a + c)[..|a|] == a;
  }

  /** One step of `Split` on `a + c` when the first whitespace run lies inside `a`. */
  lemma SplitStep(a: string, c: string, i: nat, j: nat)
    requires i == FirstSpace(a) < |a|
    requires j == i + LeadingSpace(a[i..]) < |a|
    ensures Split(a + c) == [a[..i]] + Split(a[j..] + c)
  {
    FirstSpaceConcat(a, c);
    SlicesOfConcat(a, c, i);
    LeadingSpaceConcat(a[i..], c);
    SlicesOfConcat(a, c, j);
    SplitUnfold(a + c, i, j);
  }

  /** Trailing whitespace adds exactly one empty piece to the split. */
  lemma {:induction false} SplitTrailingSpace(t: string, w: string)
    requires w != [] && AllSpace(w)
    requires t == [] || !IsSpace(t[|t| - 1])
    ensures Split(t + w) == Split(t) + [[]]
    decreases |t|
  {
    var i := FirstSpace(t);
    if i == |t| {
      SplitWordThenSpace(t, w);
    } else {
      assert t[i..][|t| - 1 - i] == t[|t| - 1];
      LeadingSpaceStopsAt(t[i..], |t| - 1 - i);
      var j := i + LeadingSpace(t[i..]);
      SplitUnfold(t, i, j);
      SplitStep(t, w, i, j);
      assert t[j..][|t| - 1 - j] == t[|t| - 1];
      SplitTrailingSpace(t[j..], w);
      Assoc([t[..i]], Split(t[j..]), [[]]);
    }
  }

  lemma SplitWordThenSpace(t: string, w: string)
    requires w != [] && AllSpace(w) && FirstSpace(t) == |t|
    ensures Split(t + w) == Split(t) + [[]]
  {
    assert t[..|t|] == t;
    SplitAtSpace(t, w);
    LeadingSpaceOfAllSpace(w);
    assert TrimStart(w) == [];
    assert Split([]) == [[]];
  }

  // ---------------------------------------------------------------------------
  // Properties of the word counts
  // ---------------------------------------------------------------------------

  /** Leading whitespace does not change the words of a text. */
  lemma {:induction false} TokensTrimStart(s: string)
    ensures Tokens(TrimStart(s)) == Tokens(s)
  {
    var n := LeadingSpace(s);
    if n > 0 {
      assert FirstSpace(s) == 0;
      assert s[0..] == s;
      var p := Split(s);
      assert p == [[]] + Split(s[n..]);
      NonEmptyConcat([[]], Split(s[n..]));
    } else {
      assert TrimStart(s) == s;
    }
  }

  /** Trailing whitespace does not change the words of a text. */
  lemma {:induction false} TokensTrimEnd(s: string)
    ensures Tokens(TrimEnd(s)) == Tokens(s)
  {
    var t := TrimEnd(s);
    var w := s[|t|..];
    assert s == t + w;
    if w != [] {
      SplitTrailingSpace(t, w);
      NonEmptyConcat(Split(t), [[]]);
    }
  }

  /** Trimming does not change the words of a text, so the filtered count is
      the number of words of the untrimmed text. */
  lemma TokensOfTrim(s: string)
    ensures Tokens(Trim(s)) == Tokens(s)
    ensures WordCount(s) == |Tokens(s)|
  {
    TokensTrimStart(s);
    TokensTrimEnd(TrimStart(s));
  }

  /** A text with no whitespace at either end splits into non-empty pieces. */
  lemma {:induction false} SplitOfTrimmed(t: string)
    requires t != [] && !IsSpace(t[0]) && !IsSpace(t[|t| - 1])
    ensures forall k :: 0 <= k < |Split(t)| ==> Split(t)[k] != []
    decreases |t|
  {
    var i := FirstSpace(t);
    if i == |t| {
      assert Split(t) == [t];
    } else {
      assert t[i..][|t| - 1 - i] == t[|t| - 1];
      LeadingSpaceStopsAt(t[i..], |t| - 1 - i);
      var j := i + LeadingSpace(t[i..]);
      assert t[i..][j - i] == t[j];
      SplitUnfold(t, i, j);
      var rest := t[j..];
      assert rest[0] == t[j] && rest[|rest| - 1] == t[|t| - 1];
      SplitOfTrimmed(rest);
      assert t[..i] != [] by { assert t[i] != t[0]; }
      AllNonEmptyCons(t[..i], Split(rest));
    }
  }

  /** Prepending a non-empty piece keeps every piece non-empty. */
  lemma AllNonEmptyCons(h: string, rest: seq<string>)
    requires h != [] && forall k :: 0 <= k < |rest| ==> rest[k] != []
    ensures forall k :: 0 <= k < |[h] + rest| ==> ([h] + rest)[k] != []
  {
  }

  /** A join starts with its first part. */
  lemma {:induction false} JoinStartsWithFirst(parts: seq<string>, sep: string)
    requires parts != []
    ensures parts[0] <= Join(parts, sep)
    decreases |parts|
  {
    if |parts| > 1 {
      var init := parts[..|parts| - 1];
      JoinStartsWithFirst(init, sep);
      assert init[0] == parts[0];
      assert Join(parts, sep) == Join(init, sep) + (sep + parts[|parts| - 1]);
    }
  }

  /** Words joined with single spaces split back into the same words. */
  lemma {:induction false} SplitJoinWords(words: seq<string>)
    requires words != []
    requires forall k :: 0 <= k < |words| ==> words[k] != [] && NoSpace(words[k])
    ensures Split(Join(words, " ")) == words
    decreases |words|
  {
    if |words| == 1 {
      assert Split(words[0]) == [words[0]];
    } else {
      var w, rest := words[0], words[1..];
      assert words == [w] + rest;
      assert forall k :: 0 <= k < |rest| ==> rest[k] == words[k + 1];
      JoinCons(w, rest, " ");
      var r := Join(rest, " ");
      JoinStartsWithFirst(rest, " ");
      assert r[0] == rest[0][0];
      var t := w + " " + r;
      Assoc(w, " ", r);
      FirstSpaceConcat(w, " " + r);
      assert FirstSpace(w) == |w|;
      assert t[|w|..] == " " + r;
      assert LeadingSpace(" " + r) == 1;
      SplitUnfold(t, |w|, |w| + 1);
      assert t[..|w|] == w && t[|w| + 1..] == r;
      SplitJoinWords(rest);
    }
  }

  /** A blank text has no words and one (empty) unfiltered piece. */
  lemma BlankCounts(s: string)
    requires IsBlank(s)
    ensures WordCount(s) == 0 && SplitCount(s) == 1
  {
    assert Split([]) == [[]];
  }

  /** The two word counts agree on every text that is not blank. */
  lemma CountsAgreeWhenNotBlank(s: string)
    requires !IsBlank(s)
    ensures WordCount(s) == SplitCount(s) >= 1
  {
    SplitOfTrimmed(Trim(s));
    NonEmptyOfNonEmpty(Split(Trim(s)));
  }

  /** The filtered count is zero exactly for blank text. */
  lemma WordCountZeroIffBlank(s: string)
    ensures WordCount(s) == 0 <==> IsBlank(s)
  {
    if IsBlank(s) { BlankCounts(s); } else { CountsAgreeWhenNotBlank(s); }
  }

  /** Trimming leaves nothing exactly when every character is whitespace. */
  lemma TrimEmptyIffAllSpace(s: string)
    ensures Trim(s) == [] <==> AllSpace(s)
  {
    var n := LeadingSpace(s);
    var t := s[n..];
    assert s == s[..n] + t;
    var r := TrimEnd(t);
    if r == [] {
      assert t[|r|..] == t;
    }
    if AllSpace(s) {
      assert AllSpace(t);
      TrimEndOfAllSpace(t);
    }
  }

  lemma NonEmptyCons(h: string, rest: seq<string>)
    ensures NonEmpty([h] + rest) == (if h == [] then [] else [h]) + NonEmpty(rest)
  {
    assert ([h] + rest)[1..] == rest;
  }

  /** `Tokens` unfolded once at the first whitespace run `a[i..j]` of `a`. */
  lemma TokensStep(a: string, c: string, i: nat, j: nat)
    requires i == FirstSpace(a) < |a|
    requires j == i + LeadingSpace(a[i..]) < |a|
    ensures Tokens(a + c) == (if a[..i] == [] then [] else [a[..i]]) + Tokens(a[j..] + c)
  {
    SplitStep(a, c, i, j);
    NonEmptyCons(a[..i], Split(a[j..] + c));
  }

  /** A space-free text is one word, or none when it is empty. */
  lemma TokensOfWord(a: string)
    requires FirstSpace(a) == |a|
    ensures Tokens(a) == if a == [] then [] else [a]
  {
    NonEmptyCons(a, []);
    assert [a] + [] == [a];
  }

  /** `Tokens` unfolded once at the first whitespace run `a[i..j]` of `a`. */
  lemma TokensUnfold(a: string, i: nat, j: nat)
    requires i == FirstSpace(a) < |a|
    requires j == i + LeadingSpace(a[i..])
    ensures Tokens(a) == (if a[..i] == [] then [] else [a[..i]]) + Tokens(a[j..])
  {
    SplitUnfold(a, i, j);
    NonEmptyCons(a[..i], Split(a[j..]));
  }

  /** `Tokens` of a space-free word followed by whitespace. */
  lemma TokensAtSpace(a: string, c: string)
    requires NoSpace(a) && c != [] && IsSpace(c[0])
    ensures Tokens(a + c) == (if a == [] then [] else [a]) + Tokens(c)
  {
    SplitAtSpace(a, c);
    NonEmptyCons(a, Split(TrimStart(c)));
    TokensTrimStart(c);
  }

  /** Whitespace between two texts separates their words. */
  lemma {:induction false} TokensSeparated(a: string, w: string, b: string)
    requires w != [] && AllSpace(w)
    ensures Tokens(a + (w + b)) == Tokens(a) + Tokens(b)
    decreases |a|, 1
  {
    var i := FirstSpace(a);
    if i == |a| {
      TokensWordThenSpace(a, w, b);
    } else {
      var j := i + LeadingSpace(a[i..]);
      if j < |a| {
        TokensSeparatedStep(a, w, b, i, j);
      } else {
        var head, run := a[..i], a[i..];
        assert AllSpace(run) by { assert run[..|run|] == run; }
        SplitAt(a, i);
        TokensAfterTrailingRun(head, run, w, b);
      }
    }
  }

  /** The case of `TokensSeparated` where the first word of `a` is followed by more text. */
  lemma {:induction false} TokensSeparatedStep(a: string, w: string, b: string, i: nat, j: nat)
    requires w != [] && AllSpace(w)
    requires i == FirstSpace(a) < |a|
    requires j == i + LeadingSpace(a[i..]) < |a|
    ensures Tokens(a + (w + b)) == Tokens(a) + Tokens(b)
    decreases |a|, 0
  {
    var word := if a[..i] == [] then [] else [a[..i]];
    TokensStep(a, w + b, i, j);
    TokensUnfold(a, i, j);
    TokensSeparated(a[j..], w, b);
    Assoc(word, Tokens(a[j..]), Tokens(b));
  }

  /** A space-free word, a whitespace run, then any text. */
  lemma TokensWordSpaceText(h: string, x: string, b: string)
    requires FirstSpace(h) == |h| && x != [] && AllSpace(x)
    ensures Tokens(h + (x + b)) == (if h == [] then [] else [h]) + Tokens(b)
  {
    assert h[..|h|] == h;
    TokensAtSpace(h, x + b);
    TokensAfterSpace(x, b);
  }

  /** The case of `TokensSeparated` where `a` has no whitespace. */
  lemma TokensWordThenSpace(a: string, w: string, b: string)
    requires w != [] && AllSpace(w) && FirstSpace(a) == |a|
    ensures Tokens(a + (w + b)) == Tokens(a) + Tokens(b)
  {
    TokensWordSpaceText(a, w, b);
    TokensOfWord(a);
  }

  /** The case of `TokensSeparated` where the first text ends in whitespace. */
  lemma TokensAfterTrailingRun(head: string, run: string, w: string, b: string)
    requires FirstSpace(head) == |head|
    requires run != [] && AllSpace(run) && w != [] && AllSpace(w)
    ensures Tokens((head + run) + (w + b)) == Tokens(head + run) + Tokens(b)
  {
    var word := if head == [] then [] else [head];
    assert Tokens((head + run) + (w + b)) == word + Tokens(b) by {
      AllSpaceConcat(run, w);
      Regroup(head, run, w, b);
      TokensWordSpaceText(head, run + w, b);
    }
    TokensWordThenRun(head, run);
  }

  /** A space-free word followed only by whitespace is that one word. */
  lemma TokensWordThenRun(head: string, run: string)
    requires FirstSpace(head) == |head|
    requires run != [] && AllSpace(run)
    ensures Tokens(head + run) == if head == [] then [] else [head]
  {
    assert NoSpace(head) by { assert head[..|head|] == head; }
    assert IsSpace(run[0]);
    TokensAtSpace(head, run);
    TokensOfSpace(run);
    assert Tokens(run) == [];
  }

  /** Whitespace alone has no words. */
  lemma TokensOfSpace(x: string)
    requires AllSpace(x)
    ensures Tokens(x) == []
  {
    TokensTrimStart(x);
    LeadingSpaceOfAllSpace(x);
    assert TrimStart(x) == [];
    assert Split([]) == [[]];
  }

  /** Leading whitespace contributes no word. */
  lemma TokensAfterSpace(x: string, b: string)
    requires AllSpace(x)
    ensures Tokens(x + b) == Tokens(b)
  {
    TrimStartAfterSpace(x, b);
    TokensTrimStart(x + b);
    TokensTrimStart(b);
  }

  /** Joining two texts with one space adds their word counts. */
  lemma WordCountSpaceJoin(a: string, b: string)
    ensures WordCount(a + " " + b) == WordCount(a) + WordCount(b)
  {
    TokensOfTrim(a + " " + b);
    TokensOfTrim(a);
    TokensOfTrim(b);
    Assoc(a, " ", b);
    TokensSeparated(a, " ", b);
  }
}
