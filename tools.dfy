/**
 * The leaf tools of project/tools/tools.py: the simulated transcript fetcher,
 * the sentence-split summariser, the frequency-ranked keyword extractor and
 * the reading-time estimate.
 */
module Tools {
  import opened Text

  // ---------------------------------------------------------------------------
  // TranscriptFetcher.fetch

  const FetchPrefix: string := "Simulated transcript for: "

  const BaseText: string :=
    "Welcome to this YouTube video. In this session, we discuss how to convert videos into blog articles. "
    + "We cover the main ideas, break down the content into sections, and show how AI can automate this process. "
    + "By the end, you will understand how to design a YouTube to blog converter using multi-agent systems."

  /** The simulated transcript: a header naming the query, a blank line and a fixed text. */
  function Fetch(urlOrQuery: string): string {
    FetchPrefix + urlOrQuery + ("\n\n" + BaseText)
  }

  /**
   * The transcript reads back: the fixed header, then the query exactly as
   * given, then a blank line and the fixed text. Different queries therefore
   * give different transcripts, and no transcript is blank.
   */
  lemma FetchInjectiveAndNeverBlank(q1: string, q2: string)
    ensures Fetch(q1)[..|FetchPrefix|] == FetchPrefix
    ensures Fetch(q1)[|FetchPrefix|..|FetchPrefix| + |q1|] == q1
    ensures Fetch(q1)[|FetchPrefix| + |q1|..] == "\n\n" + BaseText
    ensures Fetch(q1) == Fetch(q2) ==> q1 == q2
    ensures !AllSpace(Fetch(q1))
  {
    var tail := "\n\n" + BaseText;
    ThreeSlicesOfConcat(FetchPrefix, q1, tail);
    ThreeSlicesOfConcat(FetchPrefix, q2, tail);
    assert Fetch(q1)[0] == FetchPrefix[0] == 'S';
  }

  // ---------------------------------------------------------------------------
  // SimpleSummarizer.summarize

  predicate EndsSentence(c: char) {
    c == '.' || c == '!' || c == '?'
  }

  /** Position `i` is where `(?<=[.!?])\s+` starts a match: after sentence punctuation, at whitespace. */
  predicate IsBreakAt(s: string, i: int) {
    0 < i < |s| && EndsSentence(s[i - 1]) && IsSpace(s[i])
  }

  predicate NoBreak(s: string) {
    forall m :: 0 <= m < |s| ==> !IsBreakAt(s, m)
  }

  /** The first break at or after `k`, or `|s|` when there is none. */
  function NextBreak(s: string, k: nat): (i: nat)
    requires k <= |s|
    ensures k <= i <= |s|
    ensures i < |s| ==> IsBreakAt(s, i)
    ensures forall m :: k <= m < i ==> !IsBreakAt(s, m)
    decreases |s| - k
  {
    if k == |s| || IsBreakAt(s, k) then k else NextBreak(s, k + 1)
  }

  /** The end of the whitespace run that starts at `i`: `\s+` is greedy. */
  function SpaceRunEnd(s: string, i: nat): (j: nat)
    requires i <= |s|
    ensures i <= j <= |s|
    ensures forall m :: i <= m < j ==> IsSpace(s[m])
    ensures j == |s| || !IsSpace(s[j])
    decreases |s| - i
  {
    if i < |s| && IsSpace(s[i]) then SpaceRunEnd(s, i + 1) else i
  }

  /** `re.split(r'(?<=[.!?])\s+', s)`: the pieces between the breaks. */
  function SplitSentences(s: string): (pieces: seq<string>)
    ensures |pieces| >= 1
    decreases |s|
  {
    var i := NextBreak(s, 0);
    if i == |s| then [s]
    else
      var j := SpaceRunEnd(s, i);
      [s[..i]] + SplitSentences(s[j..])
  }

  /** The whitespace runs that `SplitSentences` removes, in order. */
  function Separators(s: string): seq<string>
    decreases |s|
  {
    var i := NextBreak(s, 0);
    if i == |s| then []
    else
      var j := SpaceRunEnd(s, i);
      [s[i..j]] + Separators(s[j..])
  }

  /** Puts the pieces back together with the separators between them. */
  function Weave(pieces: seq<string>, seps: seq<string>): string
    requires |pieces| == |seps| + 1
  {
    if seps == [] then pieces[0] else pieces[0] + seps[0] + Weave(pieces[1..], seps[1..])
  }

  /** Every sentence is non-empty and has no surrounding whitespace. */
  predicate AllSentences(sentences: seq<string>) {
    forall i :: 0 <= i < |sentences| ==> sentences[i] != "" && Stripped(sentences[i])
  }

  /** `[s.strip() for s in pieces if s.strip()]`. */
  function CleanSentences(pieces: seq<string>): (sentences: seq<string>)
    ensures AllSentences(sentences)
    ensures |sentences| <= |pieces|
  {
    if pieces == [] then []
    else
      var p := Strip(pieces[0]);
      var rest := CleanSentences(pieces[1..]);
      if p == "" then rest
      else
        AllSentencesCons(p, rest);
        [p] + rest
  }

  lemma AllSentencesCons(p: string, rest: seq<string>)
    requires p != "" && Stripped(p) && AllSentences(rest)
    ensures AllSentences([p] + rest)
  {
    assert forall i :: 1 <= i < |[p] + rest| ==> ([p] + rest)[i] == rest[i - 1];
  }

  /** The comprehension distributes over concatenation: it treats each piece on its own. */
  lemma {:induction false} CleanSentencesAppend(a: seq<string>, b: seq<string>)
    ensures CleanSentences(a + b) == CleanSentences(a) + CleanSentences(b)
  {
    if a == [] {
      assert a + b == b;
    } else {
      var t := a[1..] + b;
      assert a + b == [a[0]] + t;
      assert a == [a[0]] + a[1..];
      CleanSentencesCons(a[0], t);
      CleanSentencesCons(a[0], a[1..]);
      CleanSentencesAppend(a[1..], b);
      Regroup(CleanSentences(a + b), CleanSentences(a), CleanSentences([a[0]]), CleanSentences(t), CleanSentences(a[1..]), CleanSentences(b));
    }
  }

  lemma CleanSentencesCons(h: string, t: seq<string>)
    ensures CleanSentences([h] + t) == CleanSentences([h]) + CleanSentences(t)
  {
    var ht := [h] + t;
    assert ht != [] && ht[0] == h && ht[1..] == t;
    assert [h] != [] && [h][0] == h && [h][1..] == [];
    var w := CleanSentences([h]);
    var r := CleanSentences(ht);
    assert CleanSentences([]) == [];
    assert w == (if Strip(h) == "" then [] else [Strip(h)]);
    assert r == (if Strip(h) == "" then [] else [Strip(h)]) + CleanSentences(t);
  }

  /** One piece gives its stripped self, or nothing when it is blank. */
  lemma CleanSentencesPiece(p: string)
    ensures CleanSentences([p]) == if AllSpace(p) then [] else [Strip(p)]
  {
    assert [p][1..] == [];
  }

  /** The sentences the summariser chooses from. */
  function Sentences(text: string): seq<string> {
    CleanSentences(SplitSentences(Strip(text)))
  }

  /** `summarize(text, max_sentences)`: the first `max_sentences` sentences, joined by single spaces. */
  function Summarize(text: string, maxSentences: int): (summary: string)
    ensures text == "" ==> summary == ""
  {
    if text == "" then "" else Join(PrefixSlice(Sentences(text), maxSentences), " ")
  }

  lemma WeaveCons(head: string, sep: string, pieces: seq<string>, seps: seq<string>)
    requires |pieces| == |seps| + 1
    ensures Weave([head] + pieces, [sep] + seps) == head + sep + Weave(pieces, seps)
  {
    assert ([head] + pieces)[1..] == pieces;
    assert ([sep] + seps)[1..] == seps;
  }

  /** One step of the split: a break at `i` whose whitespace run ends at `j`. */
  lemma SplitStep(s: string, i: nat, j: nat)
    requires i == NextBreak(s, 0) && i < |s| && j == SpaceRunEnd(s, i)
    ensures SplitSentences(s) == [s[..i]] + SplitSentences(s[j..])
    ensures Separators(s) == [s[i..j]] + Separators(s[j..])
  {
  }

  /** The pieces and separators of the split put back together give the input. */
  lemma {:induction false} SplitSentencesRoundTrip(s: string)
    ensures |SplitSentences(s)| == |Separators(s)| + 1
    ensures Weave(SplitSentences(s), Separators(s)) == s
    decreases |s|
  {
    var i := NextBreak(s, 0);
    if i < |s| {
      var j := SpaceRunEnd(s, i);
      var rest := s[j..];
      SplitSentencesRoundTrip(rest);
      SplitStep(s, i, j);
      WeaveCons(s[..i], s[i..j], SplitSentences(rest), Separators(rest));
      ThreeSlices(s, i, j);
    } else {
      assert SplitSentences(s) == [s];
      assert Separators(s) == [];
    }
  }

  /**
   * `pieces` and `seps` are a split at sentence breaks: no piece contains a
   * break, every piece but the last ends with `.`, `!` or `?`, and every
   * separator is a non-empty whitespace run followed by a non-space character
   * or by the end of the text.
   */
  predicate CutAtBreaks(pieces: seq<string>, seps: seq<string>) {
    && |pieces| == |seps| + 1
    && (forall k :: 0 <= k < |pieces| ==> NoBreak(pieces[k]))
    && (forall k :: 0 <= k < |seps| ==> pieces[k] != "" && EndsSentence(pieces[k][|pieces[k]| - 1]))
    && (forall k :: 0 <= k < |seps| ==> seps[k] != "" && AllSpace(seps[k]))
    && (forall k :: 1 <= k < |pieces| ==> pieces[k] == "" || !IsSpace(pieces[k][0]))
  }

  lemma CutAtBreaksCons(head: string, sep: string, pieces: seq<string>, seps: seq<string>)
    requires CutAtBreaks(pieces, seps)
    requires NoBreak(head) && head != "" && EndsSentence(head[|head| - 1])
    requires sep != "" && AllSpace(sep)
    requires pieces[0] == "" || !IsSpace(pieces[0][0])
    ensures CutAtBreaks([head] + pieces, [sep] + seps)
  {
    var ps, ss := [head] + pieces, [sep] + seps;
    assert forall k :: 1 <= k < |ps| ==> ps[k] == pieces[k - 1];
    assert forall k :: 1 <= k < |ss| ==> ss[k] == seps[k - 1];
  }

  /** The split cuts at every sentence break and only there. */
  lemma {:induction false} SplitSentencesCutsAtBreaks(s: string)
    ensures CutAtBreaks(SplitSentences(s), Separators(s))
    decreases |s|
  {
    SplitSentencesRoundTrip(s);
    var i := NextBreak(s, 0);
    if i == |s| {
      assert SplitSentences(s) == [s];
      assert Separators(s) == [];
    } else {
      var j := SpaceRunEnd(s, i);
      var rest := s[j..];
      SplitSentencesCutsAtBreaks(rest);
      var head := s[..i];
      assert SplitSentences(s) == [head] + SplitSentences(rest);
      assert Separators(s) == [s[i..j]] + Separators(rest);
      assert NoBreak(head) by {
        forall m | 0 <= m < |head| ensures !IsBreakAt(head, m) {
          assert !IsBreakAt(s, m);
        }
      }
      assert AllSpace(s[i..j]);
      if j < |s| {
        assert rest[0] == s[j];
      }
      CutAtBreaksCons(head, s[i..j], SplitSentences(rest), Separators(rest));
    }
  }

  /** For a stripped non-empty text every piece is already a non-empty stripped sentence. */
  lemma {:induction false} SplitStrippedText(s: string)
    requires s != "" && Stripped(s)
    ensures forall k :: 0 <= k < |SplitSentences(s)| ==> SplitSentences(s)[k] != "" && Stripped(SplitSentences(s)[k])
    decreases |s|
  {
    var i := NextBreak(s, 0);
    if i < |s| {
      var j := SpaceRunEnd(s, i);
      assert j < |s|;
      var rest := s[j..];
      assert rest[0] == s[j] && rest[|rest| - 1] == s[|s| - 1];
      SplitStrippedText(rest);
      assert SplitSentences(s) == [s[..i]] + SplitSentences(rest);
      assert s[..i][i - 1] == s[i - 1];
    }
  }

  lemma {:induction false} CleanStrippedSentences(pieces: seq<string>)
    requires forall k :: 0 <= k < |pieces| ==> pieces[k] != "" && Stripped(pieces[k])
    ensures CleanSentences(pieces) == pieces
  {
    if pieces != [] {
      var h, t := pieces[0], pieces[1..];
      assert h != "" && Stripped(h);
      assert Strip(h) == h;
      CleanStrippedSentences(t);
      assert CleanSentences(pieces) == [h] + CleanSentences(t);
      assert [h] + t == pieces;
    }
  }

  /**
   * A non-blank text is summarised by its first `max_sentences` pieces of the
   * split, exactly as cut, joined by single spaces; a blank text has an empty summary.
   */
  lemma SummarizeLeadingSentences(text: string, maxSentences: int)
    ensures AllSpace(text) ==> Summarize(text, maxSentences) == ""
    ensures !AllSpace(text) ==>
              Summarize(text, maxSentences) == Join(PrefixSlice(SplitSentences(Strip(text)), maxSentences), " ")
  {
    if !AllSpace(text) {
      SplitStrippedText(Strip(text));
      CleanStrippedSentences(SplitSentences(Strip(text)));
    } else if text != "" {
      assert Strip(text) == "";
      assert SplitSentences("") == [""];
      assert Strip("") == "";
      assert SplitSentences(Strip(text)) == [""];
      assert CleanSentences([""]) == CleanSentences([]);
      assert Sentences(text) == [];
    }
  }

  /** A sentence with no punctuation before its end splits into itself. */
  lemma WholeSentence(a: string)
    requires a != ""
    requires '.' !in a[..|a| - 1] && '!' !in a[..|a| - 1] && '?' !in a[..|a| - 1]
    ensures NoBreak(a)
    ensures SplitSentences(a) == [a]
  {
    forall m ensures !IsBreakAt(a, m) {
      if 0 < m < |a| {
        assert a[m - 1] == a[..|a| - 1][m - 1];
      }
    }
    assert NextBreak(a, 0) == |a|;
  }

  /** A sentence followed by one space and a non-space character is split off first. */
  lemma SplitAfterSentence(a: string, b: string)
    requires a != "" && NoBreak(a) && EndsSentence(a[|a| - 1])
    requires b != "" && !IsSpace(b[0])
    ensures SplitSentences(a + " " + b) == [a] + SplitSentences(b)
  {
    var s := a + " " + b;
    forall m | 0 <= m < |a| ensures !IsBreakAt(s, m) {
      assert !IsBreakAt(a, m);
    }
    assert IsBreakAt(s, |a|);
    assert NextBreak(s, 0) == |a|;
    assert SpaceRunEnd(s, |a|) == |a| + 1 by {
      assert s[|a| + 1] == b[0];
    }
    assert s[..|a|] == a && s[|a| + 1..] == b;
  }

  lemma ExampleSplit(a: string, b: string, c: string)
    requires a == "Hello world." && b == "This is a test." && c == "Another sentence here."
    ensures SplitSentences(a + " " + b + " " + c) == [a, b, c]
  {
    WholeSentence(a);
    WholeSentence(b);
    WholeSentence(c);
    SplitAfterSentence(b, c);
    assert a + " " + b + " " + c == a + " " + (b + " " + c);
    SplitAfterSentence(a, b + " " + c);
  }

  lemma ExampleText(a: string, b: string, c: string)
    requires a == "Hello world." && b == "This is a test." && c == "Another sentence here."
    ensures a + " " + b + " " + c == "Hello world. This is a test. Another sentence here."
    ensures a + " " + b == "Hello world. This is a test."
  {
  }

  /** A stripped text that splits into three sentences is summarised in two by its first two. */
  lemma SummarizeTwoOfThree(a: string, b: string, c: string)
    requires var text := a + " " + b + " " + c; Stripped(text) && SplitSentences(text) == [a, b, c]
    ensures Summarize(a + " " + b + " " + c, 2) == a + " " + b
  {
    var text := a + " " + b + " " + c;
    assert !AllSpace(text) by {
      assert !IsSpace(text[0]);
    }
    calc {
      Summarize(text, 2);
      { SummarizeLeadingSentences(text, 2); }
      Join(PrefixSlice(SplitSentences(Strip(text)), 2), " ");
      { assert Strip(text) == text; }
      Join(PrefixSlice([a, b, c], 2), " ");
      { assert PrefixSlice([a, b, c], 2) == [a, b]; }
      Join([a, b], " ");
      { assert [a, b][1..] == [b]; }
      a + " " + b;
    }
  }

  /** The worked example: two sentences out of three. */
  lemma SummarizeExample()
    ensures Summarize("Hello world. This is a test. Another sentence here.", 2) == "Hello world. This is a test."
  {
    var a, b, c := "Hello world.", "This is a test.", "Another sentence here.";
    ExampleText(a, b, c);
    ExampleSplit(a, b, c);
    var text := a + " " + b + " " + c;
    assert text[0] == 'H' && text[|text| - 1] == '.';
    SummarizeTwoOfThree(a, b, c);
  }

  // ---------------------------------------------------------------------------
  // SEOKeywordGenerator.generate

  const Stopwords: set<string> := {
    "this", "that", "with", "from", "your", "will", "into", "about",
    "have", "there", "their", "which", "such", "also", "been", "they",
    "them", "then", "than", "when", "where", "what", "would", "could",
    "should", "video", "youtube", "using"
  }

  predicate AllLetters(s: string) {
    forall i :: 0 <= i < |s| ==> IsLetter(s[i])
  }

  predicate LowerWord(s: string) {
    forall i :: 0 <= i < |s| ==> IsLowerLetter(s[i])
  }

  function Emit(run: string): seq<string> {
    if |run| >= 4 then [run] else []
  }

  /** `re.findall(r"[a-zA-Z]{4,}", s)` scanning with the letter run `run` already read. */
  function Scan(s: string, run: string): seq<string> {
    if s == [] then Emit(run)
    else if IsLetter(s[0]) then Scan(s[1..], run + [s[0]])
    else Emit(run) + Scan(s[1..], "")
  }

  /** The tokens of `text`: maximal letter runs of at least four letters in `text.lower()`. */
  function Tokens(text: string): seq<string> {
    Scan(Lower(text), "")
  }

  lemma {:induction false} ScanWord(w: string, run: string)
    requires AllLetters(w)
    ensures Scan(w, run) == Emit(run + w)
  {
    if w != [] {
      ScanWord(w[1..], run + [w[0]]);
      assert run + [w[0]] + w[1..] == run + w;
    } else {
      assert run + w == run;
    }
  }

  lemma {:induction false} ScanSplit(a: string, c: char, b: string, run: string)
    requires !IsLetter(c)
    ensures Scan(a + [c] + b, run) == Scan(a, run) + Scan(b, "")
  {
    if a == [] {
      assert a + [c] + b == [c] + b;
    } else {
      assert (a + [c] + b)[1..] == a[1..] + [c] + b;
      if IsLetter(a[0]) {
        ScanSplit(a[1..], c, b, run + [a[0]]);
      } else {
        ScanSplit(a[1..], c, b, "");
      }
    }
  }

  /** A run of letters is one token (lower-cased) when it has four or more letters, else none. */
  lemma TokensOfWord(w: string)
    requires AllLetters(w)
    ensures Tokens(w) == if |w| >= 4 then [Lower(w)] else []
  {
    ScanWord(Lower(w), "");
    assert "" + Lower(w) == Lower(w);
  }

  /** A non-letter separates tokens: the tokens of both sides, in order. */
  lemma TokensSplit(a: string, c: char, b: string)
    requires !IsLetter(c)
    ensures Tokens(a + [c] + b) == Tokens(a) + Tokens(b)
  {
    assert Lower(a + [c] + b) == Lower(a) + [LowerChar(c)] + Lower(b);
    ScanSplit(Lower(a), LowerChar(c), Lower(b), "");
  }

  lemma {:induction false} ScanShape(s: string, run: string)
    requires LowerWord(run)
    requires forall i :: 0 <= i < |s| && IsLetter(s[i]) ==> IsLowerLetter(s[i])
    ensures forall k :: 0 <= k < |Scan(s, run)| ==> |Scan(s, run)[k]| >= 4 && LowerWord(Scan(s, run)[k])
  {
    if s != [] {
      if IsLetter(s[0]) {
        ScanShape(s[1..], run + [s[0]]);
      } else {
        ScanShape(s[1..], "");
      }
    }
  }

  /** Every token has at least four characters, all lower-case letters. */
  lemma TokensAreLowerWords(text: string)
    ensures forall k :: 0 <= k < |Tokens(text)| ==> |Tokens(text)[k]| >= 4 && LowerWord(Tokens(text)[k])
  {
    ScanShape(Lower(text), "");
  }

  /** `[t for t in tokens if t not in stopwords]`. */
  function DropStopwords(tokens: seq<string>): (kept: seq<string>)
    ensures forall w :: w in kept <==> w in tokens && w !in Stopwords
    ensures forall w :: w !in Stopwords ==> multiset(kept)[w] == multiset(tokens)[w]
  {
    if tokens == [] then []
    else
      assert tokens == [tokens[0]] + tokens[1..];
      if tokens[0] in Stopwords then DropStopwords(tokens[1..])
      else [tokens[0]] + DropStopwords(tokens[1..])
  }

  /** Dropping stopwords keeps the order in which the remaining words first occur. */
  lemma {:induction false} DropStopwordsKeepsOrder(tokens: seq<string>, x: string, y: string)
    requires x !in Stopwords && y !in Stopwords
    ensures FirstIndex(DropStopwords(tokens), x) < FirstIndex(DropStopwords(tokens), y)
            <==> FirstIndex(tokens, x) < FirstIndex(tokens, y)
  {
    if tokens != [] {
      var t0, rest := tokens[0], tokens[1..];
      assert tokens == [t0] + rest;
      DropStopwordsKeepsOrder(rest, x, y);
      FirstIndexCons(t0, rest, x);
      FirstIndexCons(t0, rest, y);
      var kr := DropStopwords(rest);
      if t0 !in Stopwords {
        assert DropStopwords(tokens) == [t0] + kr;
        FirstIndexCons(t0, kr, x);
        FirstIndexCons(t0, kr, y);
      }
    }
  }

  /** Where a word first occurs in a sequence, in terms of its head and tail. */
  lemma FirstIndexCons(h: string, rest: seq<string>, w: string)
    ensures FirstIndex([h] + rest, w) == if h == w then 0 else 1 + FirstIndex(rest, w)
  {
    assert ([h] + rest)[0] == h && ([h] + rest)[1..] == rest;
  }

  /** Among non-stopwords, the rank order over the candidates is the rank order over all tokens of the text. */
  lemma CandidatesRankAsTokens(text: string, x: string, y: string)
    requires x !in Stopwords && y !in Stopwords
    ensures Outranks(Candidates(text), x, y) <==> Outranks(Tokens(text), x, y)
  {
    DropStopwordsKeepsOrder(Tokens(text), x, y);
  }

  function Candidates(text: string): seq<string> {
    DropStopwords(Tokens(text))
  }

  /** `Counter(tokens)[w]`. */
  function Occurrences(tokens: seq<string>, w: string): nat {
    multiset(tokens)[w]
  }

  /** Where `w` first occurs in `tokens` (`|tokens|` when it does not). */
  function FirstIndex(tokens: seq<string>, w: string): (i: nat)
    ensures i <= |tokens|
    ensures w in tokens ==> i < |tokens| && tokens[i] == w
    ensures forall k :: 0 <= k < i ==> tokens[k] != w
  {
    if tokens == [] then 0
    else if tokens[0] == w then 0
    else 1 + FirstIndex(tokens[1..], w)
  }

  /**
   * `x` precedes `y` in `most_common`: it is more frequent, or as frequent and
   * seen first (the counter keeps first-occurrence order and the sort is stable).
   */
  predicate Outranks(tokens: seq<string>, x: string, y: string) {
    Occurrences(tokens, x) > Occurrences(tokens, y)
    || (Occurrences(tokens, x) == Occurrences(tokens, y) && FirstIndex(tokens, x) < FirstIndex(tokens, y))
  }

  predicate Ranked(ws: seq<string>, tokens: seq<string>) {
    forall i, j :: 0 <= i < j < |ws| ==> Outranks(tokens, ws[i], ws[j])
  }

  /** The distinct tokens in order of first occurrence: the keys of the counter. */
  function Distinct(tokens: seq<string>): (d: seq<string>)
    ensures forall w :: w in d <==> w in tokens
    ensures forall i, j :: 0 <= i < j < |d| ==> d[i] != d[j]
  {
    if tokens == [] then []
    else
      var d := Distinct(tokens[..|tokens| - 1]);
      var w := tokens[|tokens| - 1];
      assert tokens == tokens[..|tokens| - 1] + [w];
      if w in d then d else d + [w]
  }

  function Insert(x: string, ws: seq<string>, tokens: seq<string>): (r: seq<string>)
    ensures multiset(r) == multiset(ws) + multiset{x}
  {
    if ws == [] then [x]
    else if Outranks(tokens, x, ws[0]) then [x] + ws
    else
      assert ws == [ws[0]] + ws[1..];
      [ws[0]] + Insert(x, ws[1..], tokens)
  }

  /** Sorts the distinct tokens by rank. */
  function RankAll(ds: seq<string>, tokens: seq<string>): (r: seq<string>)
    ensures multiset(r) == multiset(ds)
  {
    if ds == [] then []
    else
      assert ds == [ds[0]] + ds[1..];
      Insert(ds[0], RankAll(ds[1..], tokens), tokens)
  }

  /** `[w for w, _ in Counter(candidates).most_common(max_keywords)]`, or `[]` for an empty text. */
  function Generate(text: string, maxKeywords: int): seq<string> {
    if text == "" then []
    else
      var candidates := Candidates(text);
      var ranked := RankAll(Distinct(candidates), candidates);
      ranked[..Min(Max(0, maxKeywords), |ranked|)]
  }

  lemma OutranksTotal(tokens: seq<string>, x: string, y: string)
    requires x in tokens && y in tokens && x != y
    ensures Outranks(tokens, x, y) || Outranks(tokens, y, x)
  {
  }

  lemma {:induction false} InsertRanked(x: string, ws: seq<string>, tokens: seq<string>)
    requires Ranked(ws, tokens)
    requires x in tokens && x !in ws
    requires forall i :: 0 <= i < |ws| ==> ws[i] in tokens
    ensures Ranked(Insert(x, ws, tokens), tokens)
  {
    if ws != [] && !Outranks(tokens, x, ws[0]) {
      OutranksTotal(tokens, x, ws[0]);
      var tail := ws[1..];
      InsertRanked(x, tail, tokens);
      var ins := Insert(x, tail, tokens);
      var r := [ws[0]] + ins;
      forall j | 0 < j < |r| ensures Outranks(tokens, ws[0], r[j]) {
        var y := r[j];
        assert y in multiset(ins);
        assert y == x || y in multiset(tail);
        if y != x {
          var k :| 0 <= k < |tail| && tail[k] == y;
          assert ws[k + 1] == y;
        }
      }
    }
  }

  lemma {:induction false} RankAllRanked(ds: seq<string>, tokens: seq<string>)
    requires forall i, j :: 0 <= i < j < |ds| ==> ds[i] != ds[j]
    requires forall i :: 0 <= i < |ds| ==> ds[i] in tokens
    ensures Ranked(RankAll(ds, tokens), tokens)
  {
    if ds != [] {
      var rest := RankAll(ds[1..], tokens);
      RankAllRanked(ds[1..], tokens);
      forall i | 0 <= i < |rest| ensures rest[i] in tokens && rest[i] != ds[0] {
        assert rest[i] in multiset(ds[1..]);
      }
      InsertRanked(ds[0], rest, tokens);
    }
  }

  lemma RankedKeywords(text: string, maxKeywords: int)
    ensures var ranked := RankAll(Distinct(Candidates(text)), Candidates(text));
      Ranked(ranked, Candidates(text)) && forall w :: w in ranked <==> w in Candidates(text)
  {
    var candidates := Candidates(text);
    var ds := Distinct(candidates);
    RankAllRanked(ds, candidates);
    var ranked := RankAll(ds, candidates);
    forall w ensures w in ranked <==> w in candidates {
      assert w in ranked <==> w in multiset(ranked);
      assert w in ds <==> w in multiset(ds);
    }
  }

  /** Every keyword is a candidate: a lower-case token of four or more letters that is not a stopword. */
  lemma KeywordsAreCandidateTokens(text: string, maxKeywords: int)
    ensures forall w :: w in Generate(text, maxKeywords) ==>
              w in Candidates(text) && w in Tokens(text) && w !in Stopwords && |w| >= 4 && LowerWord(w)
  {
    TokensAreLowerWords(text);
    if text != "" {
      RankedKeywords(text, maxKeywords);
      forall w | w in Generate(text, maxKeywords) ensures w in Candidates(text) {
      }
    }
  }

  /**
   * The keywords are in `most_common` order: more frequent first, ties in
   * order of first occurrence; hence there are no duplicates.
   */
  lemma KeywordsRankedByFrequency(text: string, maxKeywords: int)
    ensures Ranked(Generate(text, maxKeywords), Candidates(text))
    ensures var kws := Generate(text, maxKeywords);
      forall i, j :: 0 <= i < j < |kws| ==> kws[i] != kws[j]
  {
    if text != "" {
      RankedKeywords(text, maxKeywords);
    }
  }

  lemma RankedPrefixOutranksRest(ranked: seq<string>, n: nat, tokens: seq<string>)
    requires Ranked(ranked, tokens) && n <= |ranked|
    ensures forall w, k :: w in ranked && w !in ranked[..n] && k in ranked[..n] ==> Outranks(tokens, k, w)
  {
    forall w, k | w in ranked && w !in ranked[..n] && k in ranked[..n] ensures Outranks(tokens, k, w) {
      var a :| 0 <= a < n && ranked[..n][a] == k;
      var b :| 0 <= b < |ranked| && ranked[b] == w;
    }
  }

  /** Every candidate left out ranks below every keyword chosen. */
  lemma KeywordsAreTheTopRanked(text: string, maxKeywords: int)
    ensures forall w, k :: w in Candidates(text) && w !in Generate(text, maxKeywords) && k in Generate(text, maxKeywords)
              ==> Outranks(Candidates(text), k, w)
  {
    if text != "" {
      RankedKeywords(text, maxKeywords);
      var candidates := Candidates(text);
      var ranked := RankAll(Distinct(candidates), candidates);
      var n := Min(Max(0, maxKeywords), |ranked|);
      assert Generate(text, maxKeywords) == ranked[..n];
      RankedPrefixOutranksRest(ranked, n, candidates);
    }
  }

  /**
   * Measured on the text itself: the keywords are ordered by how often they
   * occur among the text's tokens, ties by first occurrence, and every other
   * token that is not a stopword ranks below every keyword.
   */
  lemma KeywordsRankedByTokenFrequency(text: string, maxKeywords: int)
    ensures Ranked(Generate(text, maxKeywords), Tokens(text))
    ensures var kws := Generate(text, maxKeywords);
      forall w, k :: w in Tokens(text) && w !in Stopwords && w !in kws && k in kws ==> Outranks(Tokens(text), k, w)
  {
    var kws := Generate(text, maxKeywords);
    KeywordsRankedByFrequency(text, maxKeywords);
    KeywordsAreCandidateTokens(text, maxKeywords);
    KeywordsAreTheTopRanked(text, maxKeywords);
    forall i, j | 0 <= i < j < |kws| ensures Outranks(Tokens(text), kws[i], kws[j]) {
      assert kws[i] in kws && kws[j] in kws;
      CandidatesRankAsTokens(text, kws[i], kws[j]);
    }
    forall w, k | w in Tokens(text) && w !in Stopwords && w !in kws && k in kws
      ensures Outranks(Tokens(text), k, w) {
      CandidatesRankAsTokens(text, k, w);
    }
  }

  /** No keywords for an empty text; at most `max_keywords`; fewer only when every candidate was taken. */
  lemma KeywordsCount(text: string, maxKeywords: int)
    ensures text == "" ==> Generate(text, maxKeywords) == []
    ensures |Generate(text, maxKeywords)| <= Max(0, maxKeywords)
    ensures text != "" && |Generate(text, maxKeywords)| < maxKeywords ==>
              forall w :: w in Candidates(text) ==> w in Generate(text, maxKeywords)
  {
    if text != "" {
      RankedKeywords(text, maxKeywords);
    }
  }

  // ---------------------------------------------------------------------------
  // estimate_reading_time

  /** `len(re.findall(r"\w+", text))`: the number of maximal runs of word characters. */
  function WordCount(s: string): nat {
    if s == [] then 0
    else if IsWordChar(s[0]) && (|s| == 1 || !IsWordChar(s[1])) then 1 + WordCount(s[1..])
    else WordCount(s[1..])
  }

  /** A character outside `\w` separates matches: the matches of both sides add up. */
  lemma {:induction false} WordCountSplit(a: string, c: char, b: string)
    requires !IsWordChar(c)
    ensures WordCount(a + [c] + b) == WordCount(a) + WordCount(b)
  {
    var s := a + [c] + b;
    if a == [] {
      assert s[0] == c && s[1..] == b;
    } else {
      assert s[0] == a[0] && s[1..] == a[1..] + [c] + b;
      assert s[1] == if |a| == 1 then c else a[1];
      WordCountSplit(a[1..], c, b);
    }
  }

  /** A non-empty run of word characters is one match. */
  lemma {:induction false} WordCountRun(w: string)
    requires w != [] && forall i :: 0 <= i < |w| ==> IsWordChar(w[i])
    ensures WordCount(w) == 1
  {
    if |w| > 1 {
      assert w[1..][0] == w[1];
      WordCountRun(w[1..]);
    }
  }

  lemma {:induction false} WordCountZeroIff(s: string)
    ensures WordCount(s) == 0 <==> forall i :: 0 <= i < |s| ==> !IsWordChar(s[i])
  {
    if s != [] {
      WordCountZeroIff(s[1..]);
      assert forall i :: 1 <= i < |s| ==> s[i] == s[1..][i - 1];
    }
  }

  /** The result of `estimate_reading_time`: minutes, or the exception a zero rate raises. */
  datatype ReadingTime = Minutes(minutes: real) | ZeroDivisionError

  function RealMax(a: real, b: real): real { if a <= b then b else a }

  /** `estimate_reading_time(text, words_per_minute)`, over exact reals. */
  function EstimateReadingTime(text: string, wordsPerMinute: int): (r: ReadingTime)
    ensures WordCount(text) == 0 ==> r == Minutes(0.0)
    ensures WordCount(text) > 0 && wordsPerMinute == 0 ==> r == ZeroDivisionError
    ensures WordCount(text) > 0 && wordsPerMinute != 0 ==> r.Minutes? && r.minutes >= 0.1
    ensures var w, p := WordCount(text) as real, wordsPerMinute as real;
      w > 0.0 && (p < 0.0 || (p > 0.0 && w < 0.1 * p)) ==> r == Minutes(0.1)
  {
    var words := WordCount(text);
    if words == 0 then Minutes(0.0)
    else if wordsPerMinute == 0 then ZeroDivisionError
    else
      var w, p := words as real, wordsPerMinute as real;
      if p < 0.0 || w < 0.1 * p then
        BelowFloor(w, p);
        Minutes(RealMax(0.1, w / p))
      else
        Minutes(RealMax(0.1, w / p))
  }

  /** Zero minutes exactly for texts without a word character. */
  lemma ReadingTimeZeroIff(text: string, wordsPerMinute: int)
    ensures (EstimateReadingTime(text, wordsPerMinute) == Minutes(0.0)) <==> forall i :: 0 <= i < |text| ==> !IsWordChar(text[i])
  {
    WordCountZeroIff(text);
  }

  /**
   * At a positive rate the estimate is at least words / rate, and exactly
   * words / rate once that is above the 0.1 floor.
   */
  lemma ReadingTimeRate(text: string, wordsPerMinute: int)
    requires wordsPerMinute > 0
    ensures var r := EstimateReadingTime(text, wordsPerMinute);
      r.Minutes? && r.minutes * wordsPerMinute as real >= WordCount(text) as real
      && (WordCount(text) as real >= 0.1 * wordsPerMinute as real ==> r.minutes * wordsPerMinute as real == WordCount(text) as real)
  {
    if WordCount(text) > 0 {
      FlooredRate(WordCount(text) as real, wordsPerMinute as real);
    }
  }

  /** The floored quotient times the divisor bounds the dividend, and meets it above the floor. */
  lemma FlooredRate(w: real, p: real)
    requires p > 0.0
    ensures RealMax(0.1, w / p) * p >= w
    ensures w >= 0.1 * p ==> RealMax(0.1, w / p) * p == w
  {
    var m := RealMax(0.1, w / p);
    DivTimesDivisor(w, p);
    ScaleMonotone(m, w / p, p);
    if w >= 0.1 * p {
      DivAtLeast(w, p, 0.1);
    }
  }

  /** A positive word count over a negative rate, or under a tenth of a positive rate, is below the floor. */
  lemma BelowFloor(w: real, p: real)
    requires w > 0.0 && (p < 0.0 || (p > 0.0 && w < 0.1 * p))
    ensures w / p < 0.1
  {
    if p > 0.0 {
      DivTimesDivisor(w, p);
      if w / p >= 0.1 {
        ScaleMonotone(w / p, 0.1, p);
      }
    } else {
      assert (w / p) * p == w;
    }
  }

  lemma DivTimesDivisor(w: real, p: real)
    requires p > 0.0
    ensures (w / p) * p == w
  {
  }

  lemma ScaleMonotone(a: real, b: real, p: real)
    requires p > 0.0 && a >= b
    ensures a * p >= b * p
  {
  }

  lemma DivAtLeast(w: real, p: real, c: real)
    requires p > 0.0 && w >= c * p
    ensures w / p >= c
  {
    DivTimesDivisor(w, p);
    if w / p < c {
      ScaleMonotone(c, w / p, p);
    }
  }
}
