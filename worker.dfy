/**
 * The Worker stage of project/agents/worker.py: from the plan's transcript it
 * derives an overall summary, SEO keywords and a reading-time estimate, turns
 * every section into a numbered, summarised block and assembles the Markdown
 * article.
 */
module Worker {
  import opened Text
  import opened Artifacts
  import opened Memory
  import Tools

  const DefaultTitle: string := "Blog Article based on YouTube Video"
  const TitleSuffix: string := " \U{2013} A Blog Based on a YouTube Video"
  const SummarySentences: int := 3
  const SectionSentences: int := 2
  const MaxKeywords: int := 8
  const WordsPerMinute: int := 200

  /** The title: the top keyword capitalised, or a fixed title when there is none. */
  function Title(keywords: seq<string>): string {
    if keywords == [] then DefaultTitle else Capitalize(keywords[0]) + TitleSuffix
  }

  /** The block for the section numbered `idx` (numbering starts at 1). */
  function SectionBlock(idx: nat, section: string): string {
    "## Section " + NatToString(idx) + ("\n\n" + Tools.Summarize(section, SectionSentences) + "\n")
  }

  /** `[f(i, x) for i, x in enumerate(xs, start=1)]`. */
  function Enumerate<T>(xs: seq<T>, f: (nat, T) -> string): (ys: seq<string>)
    ensures |ys| == |xs|
  {
    if xs == [] then [] else Enumerate(xs[..|xs| - 1], f) + [f(|xs|, xs[|xs| - 1])]
  }

  /** Entry `i` of the enumeration is `f` applied to the number `i + 1` and to `xs[i]`. */
  lemma {:induction false} EnumerateAt<T>(xs: seq<T>, f: (nat, T) -> string, i: nat)
    requires i < |xs|
    ensures Enumerate(xs, f)[i] == f(i + 1, xs[i])
  {
    var init := xs[..|xs| - 1];
    if i < |init| {
      EnumerateAt(init, f, i);
      assert init[i] == xs[i];
    }
  }

  /** One block per section, in order, numbered from 1. */
  function SectionBlocks(sections: seq<string>): (blocks: seq<string>)
    ensures |blocks| == |sections|
  {
    Enumerate(sections, SectionBlock)
  }

  /** The header lines; the summary and keyword lines appear only when there is something to show. */
  function Header(title: string, minutesText: string, summary: string, keywords: seq<string>): seq<string> {
    ["# " + title, "", "**Estimated reading time:** " + minutesText + " minutes", ""]
    + (if summary != "" then ["**Summary:** " + summary + "\n"] else [])
    + (if keywords != [] then ["**SEO Keywords:** " + Join(keywords, ", ") + "\n"] else [])
  }

  /** `estimate_reading_time(transcript)` at its default of 200 words per minute, which cannot divide by zero. */
  function ReadingMinutes(transcript: string): real {
    var r := Tools.EstimateReadingTime(transcript, WordsPerMinute);
    r.minutes
  }

  /**
   * The draft `generate_blog` builds. `formatMinutes` stands for the
   * `{:.1f}` rendering of the estimate.
   */
  function DraftFor(plan: Plan, formatMinutes: real -> string): Draft {
    var transcript := plan.transcript;
    var summary := Tools.Summarize(transcript, SummarySentences);
    var keywords := Tools.Generate(transcript, MaxKeywords);
    var title := Title(keywords);
    var header := Header(title, formatMinutes(ReadingMinutes(transcript)), summary, keywords);
    Draft(title, summary, keywords, Join(header, "\n") + Join(SectionBlocks(plan.sections), "\n"), plan.style)
  }

  /** The section loop of `generate_blog`: one block per section, numbered from 1, each summarised to two sentences. */
  method BuildSectionBlocks(sections: seq<string>) returns (parts: seq<string>)
    ensures parts == SectionBlocks(sections)
  {
    parts := [];
    var idx := 0;
    while idx < |sections|
      invariant 0 <= idx <= |sections|
      invariant parts == Enumerate(sections[..idx], SectionBlock)
    {
      assert sections[..idx + 1][..idx] == sections[..idx];
      parts := parts + [SectionBlock(idx + 1, sections[idx])];
      idx := idx + 1;
    }
    assert sections[..idx] == sections;
  }

  /** The header assembly of `generate_blog`. */
  method BuildHeader(title: string, minutesText: string, summary: string, keywords: seq<string>) returns (header: seq<string>)
    ensures header == Header(title, minutesText, summary, keywords)
  {
    header := ["# " + title, "", "**Estimated reading time:** " + minutesText + " minutes", ""];
    if summary != "" {
      header := header + ["**Summary:** " + summary + "\n"];
    }
    if keywords != [] {
      header := header + ["**SEO Keywords:** " + Join(keywords, ", ") + "\n"];
    }
  }

  /** `Worker.generate_blog`: the memory gains "last_draft" and nothing else changes. */
  method GenerateBlog(plan: Plan, memory: SessionMemory, formatMinutes: real -> string) returns (draft: Draft)
    modifies memory
    ensures draft == DraftFor(plan, formatMinutes)
    ensures memory.store == old(memory.store)["last_draft" := DraftArtifact(draft)]
  {
    var transcript := plan.transcript;
    var summary := if transcript != "" then Tools.Summarize(transcript, SummarySentences) else "";
    var keywords := Tools.Generate(transcript, MaxKeywords);
    var minutes := ReadingMinutes(transcript);
    var title := DefaultTitle;
    if keywords != [] {
      title := Capitalize(keywords[0]) + TitleSuffix;
    }
    assert summary == Tools.Summarize(transcript, SummarySentences);
    assert title == Title(keywords);
    var parts := BuildSectionBlocks(plan.sections);
    var header := BuildHeader(title, formatMinutes(minutes), summary, keywords);
    draft := Draft(title, summary, keywords, Join(header, "\n") + Join(parts, "\n"), plan.style);
    memory.Set("last_draft", DraftArtifact(draft));
  }

  /**
   * The article opens with the title as a level-one heading, so it is never
   * blank and stripping it keeps that heading.
   */
  lemma DraftOpensWithTitle(plan: Plan, formatMinutes: real -> string)
    ensures var d := DraftFor(plan, formatMinutes);
      ("# " + d.title) <= d.body && !AllSpace(d.body) && ("# " + d.title) <= Strip(d.body)
  {
    var d := DraftFor(plan, formatMinutes);
    var keywords := Tools.Generate(plan.transcript, MaxKeywords);
    var header := Header(d.title, formatMinutes(ReadingMinutes(plan.transcript)), d.summary, keywords);
    assert d.title == Title(keywords);
    assert d.body == Join(header, "\n") + Join(SectionBlocks(plan.sections), "\n");
    TitleEndsInLetter(keywords);
    HeadingKept(d.title, header, Join(SectionBlocks(plan.sections), "\n"));
  }

  /** Both titles end in the letter `o`, so a heading made of one ends in a non-space character. */
  lemma TitleEndsInLetter(keywords: seq<string>)
    ensures Title(keywords) != [] && Title(keywords)[|Title(keywords)| - 1] == 'o'
    ensures !IsSpace(Title(keywords)[|Title(keywords)| - 1])
  {
    if keywords == [] {
      assert DefaultTitle[|DefaultTitle| - 1] == 'o';
    } else {
      assert TitleSuffix[|TitleSuffix| - 1] == 'o';
    }
  }

  /** A body whose header opens with a heading ending in a non-space character keeps that heading when stripped. */
  lemma HeadingKept(title: string, header: seq<string>, blocks: string)
    requires header != [] && header[0] == "# " + title
    requires title != [] && !IsSpace(title[|title| - 1])
    ensures var body := Join(header, "\n") + blocks;
      ("# " + title) <= body && !AllSpace(body) && ("# " + title) <= Strip(body)
  {
    var body := Join(header, "\n") + blocks;
    var heading := "# " + title;
    JoinStartsWithFirst(header, "\n");
    assert heading <= body;
    assert body[0] == '#' && body[|heading| - 1] == title[|title| - 1];
    StripKeepsPrefix(body, |heading|);
  }

  /**
   * The title names the most frequent keyword: it is that keyword with its
   * first letter in upper case, followed by the fixed suffix, so lower-casing
   * the title's opening gives back the keyword. Without keywords the title is
   * fixed.
   */
  lemma TitleNamesTopKeyword(plan: Plan, formatMinutes: real -> string)
    ensures var d := DraftFor(plan, formatMinutes);
      && (d.keywords == [] ==> d.title == DefaultTitle)
      && (d.keywords != [] ==>
            d.keywords[0] != [] && 'A' <= d.title[0] <= 'Z'
            && d.title == [UpperChar(d.keywords[0][0])] + d.keywords[0][1..] + TitleSuffix
            && |d.keywords[0]| <= |d.title| && Lower(d.title[..|d.keywords[0]|]) == d.keywords[0]
            && d.title[|d.keywords[0]|..] == TitleSuffix)
  {
    var d := DraftFor(plan, formatMinutes);
    if d.keywords != [] {
      Tools.KeywordsAreCandidateTokens(plan.transcript, MaxKeywords);
      var k := d.keywords[0];
      assert k in Tools.Generate(plan.transcript, MaxKeywords);
      assert |k| >= 4 && Tools.LowerWord(k);
      CapitalizeLowerWord(k);
      LowerCapitalize(k);
      assert d.title == Capitalize(k) + TitleSuffix;
      assert d.title[..|k|] == Capitalize(k);
    }
  }

  /**
   * The draft's keywords are at most eight lower-case, non-stopword words of
   * four letters or more from the transcript, most frequent first, with no
   * repeats; any candidate left out ranks below every keyword kept.
   */
  lemma DraftKeywords(plan: Plan, formatMinutes: real -> string)
    ensures var d := DraftFor(plan, formatMinutes);
      var candidates := Tools.Candidates(plan.transcript);
      && |d.keywords| <= MaxKeywords
      && Tools.Ranked(d.keywords, candidates)
      && (forall i, j :: 0 <= i < j < |d.keywords| ==> d.keywords[i] != d.keywords[j])
      && (forall w :: w in d.keywords ==> w in candidates && w !in Tools.Stopwords && |w| >= 4 && Tools.LowerWord(w))
      && (forall w, k :: w in candidates && w !in d.keywords && k in d.keywords ==> Tools.Outranks(candidates, k, w))
      && (|d.keywords| < MaxKeywords ==> forall w :: w in candidates ==> w in d.keywords)
  {
    assert DraftFor(plan, formatMinutes).keywords == Tools.Generate(plan.transcript, MaxKeywords);
    Tools.KeywordsCount(plan.transcript, MaxKeywords);
    Tools.KeywordsRankedByFrequency(plan.transcript, MaxKeywords);
    Tools.KeywordsAreCandidateTokens(plan.transcript, MaxKeywords);
    Tools.KeywordsAreTheTopRanked(plan.transcript, MaxKeywords);
  }

  /**
   * The draft's summary is the transcript's first three sentences joined by
   * spaces, and empty for a blank transcript (the `if transcript` guard adds
   * nothing to what the summariser already does).
   */
  lemma DraftSummary(plan: Plan, formatMinutes: real -> string)
    ensures var d := DraftFor(plan, formatMinutes);
      && (AllSpace(plan.transcript) ==> d.summary == "")
      && (!AllSpace(plan.transcript) ==>
            d.summary == Join(PrefixSlice(Tools.SplitSentences(Strip(plan.transcript)), SummarySentences), " "))
  {
    Tools.SummarizeLeadingSentences(plan.transcript, SummarySentences);
  }

  /**
   * The reading time is 0.0 for a text without words; 0.1 for one to
   * nineteen words; and otherwise exactly the words over 200 a minute.
   */
  lemma ReadingMinutesBounds(transcript: string)
    ensures ReadingMinutes(transcript) == 0.0 <==> forall i :: 0 <= i < |transcript| ==> !IsWordChar(transcript[i])
    ensures 0 < Tools.WordCount(transcript) < 20 ==> ReadingMinutes(transcript) == 0.1
    ensures Tools.WordCount(transcript) >= 20 ==>
              ReadingMinutes(transcript) * WordsPerMinute as real == Tools.WordCount(transcript) as real
    ensures ReadingMinutes(transcript) != 0.0 ==>
              ReadingMinutes(transcript) >= 0.1
              && ReadingMinutes(transcript) * WordsPerMinute as real >= Tools.WordCount(transcript) as real
  {
    Tools.ReadingTimeZeroIff(transcript, WordsPerMinute);
    Tools.ReadingTimeRate(transcript, WordsPerMinute);
    Tools.WordCountZeroIff(transcript);
  }

  /**
   * The header opens with the title heading, a blank line, the reading-time
   * line and a blank line; the summary line follows exactly when there is a
   * summary, and the keyword line closes the header exactly when there are keywords.
   */
  lemma HeaderOptionalLines(title: string, minutesText: string, summary: string, keywords: seq<string>)
    ensures var h := Header(title, minutesText, summary, keywords);
      && |h| == 4 + (if summary != "" then 1 else 0) + (if keywords != [] then 1 else 0)
      && h[..4] == ["# " + title, "", "**Estimated reading time:** " + minutesText + " minutes", ""]
      && (summary != "" ==> h[4] == "**Summary:** " + summary + "\n")
      && (keywords != [] ==> h[|h| - 1] == "**SEO Keywords:** " + Join(keywords, ", ") + "\n")
      && (("**Summary:** " + summary + "\n") in h <==> summary != "")
      && (("**SEO Keywords:** " + Join(keywords, ", ") + "\n") in h <==> keywords != [])
  {
    var h := Header(title, minutesText, summary, keywords);
    var sl := "**Summary:** " + summary + "\n";
    var kl := "**SEO Keywords:** " + Join(keywords, ", ") + "\n";
    assert sl[0] == '*' && sl[2] == 'S' && sl[3] == 'u';
    assert kl[0] == '*' && kl[2] == 'S' && kl[3] == 'E';
    assert ("# " + title)[0] == '#';
    var el := "**Estimated reading time:** " + minutesText + " minutes";
    assert el[2] == 'E';
    assert h[..4] == ["# " + title, "", el, ""];
    if summary == "" {
      assert sl !in h[..4];
    }
    if keywords == [] {
      assert kl !in h[..4];
    }
  }

  /** `b` is "## Section ", the decimal number `idx`, then `rest`, and reads back as such. */
  predicate HeadingReadsBack(b: string, idx: nat, rest: string) {
    var n := |NatToString(idx)|;
    11 + n <= |b| && b[..11] == "## Section "
    && AllDigits(b[11..11 + n]) && ParseNat(b[11..11 + n]) == idx && b[11 + n..] == rest
  }

  /** A numbered heading reads back: the digits after "## Section " parse to the number, and the rest follows them. */
  lemma NumberedHeadingReadsBack(idx: nat, rest: string)
    ensures HeadingReadsBack("## Section " + NatToString(idx) + rest, idx, rest)
  {
    var digits := NatToString(idx);
    var b := "## Section " + digits + rest;
    assert |"## Section "| == 11;
    assert b[..11] == "## Section ";
    assert b[11..11 + |digits|] == digits;
    assert b[11 + |digits|..] == rest;
    ParseNatToString(idx);
  }

  /** A section block reads back as its number followed by the section's two-sentence summary. */
  lemma SectionBlockReadsBack(idx: nat, section: string)
    ensures HeadingReadsBack(SectionBlock(idx, section), idx,
                             "\n\n" + Tools.Summarize(section, SectionSentences) + "\n")
  {
    NumberedHeadingReadsBack(idx, "\n\n" + Tools.Summarize(section, SectionSentences) + "\n");
  }

  /**
   * Section blocks come in the order of the plan's sections, numbered from 1:
   * block `i` is section `i`'s block with the number `i + 1`.
   */
  lemma SectionBlocksInOrder(sections: seq<string>, i: nat)
    requires i < |sections|
    ensures SectionBlocks(sections)[i] == SectionBlock(i + 1, sections[i])
  {
    EnumerateAt(sections, SectionBlock, i);
  }
}
