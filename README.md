# YouTube → blog converter: a verified Dafny model

This project models the core of the YouTube → blog-article converter. A request
passes through a fixed three-stage pipeline: Planner → Worker → Evaluator. The
stages share a key-value session memory and hand their artifacts on in small
message envelopes.

- **Planner:** fetches a simulated transcript and packs its paragraphs into
  sections of at most 800 characters. A single line longer than that becomes
  a section of its own.
- **Worker:** derives a summary, SEO keywords and a reading time, and
  assembles a Markdown article with one numbered, summarised block per
  section.
- **Evaluator:** accepts the stripped article when it is non-blank.

One Dafny module per source file:

| module | file | form |
|---|---|---|
| `Text` | (Python `str` semantics the others rely on) | functions and lemmas |
| `ContextEngineering` | core/context_engineering.py | `ChunkText` is a method whose loop (`PackParagraphs`) is proved against the recursive `Pack`; `CompactContext` is a function |
| `Tools` | project/tools/tools.py | pure functions and lemmas |
| `Artifacts` | the dictionaries passed between stages | datatypes `Plan`, `Draft`, `Evaluation`, `Value` |
| `Memory` | memory/session_memory.py | class `SessionMemory` over a `map` field |
| `A2AProtocol` | project/core/a2a_protocol.py | datatype and functions |
| `Planner` | project/agents/planner.py | `PlanFor` is a function; `CreatePlan` is a method that writes memory |
| `Worker` | project/agents/worker.py | `DraftFor` is a function; `GenerateBlog`, `BuildSectionBlocks` and `BuildHeader` are methods with the source's loop and conditional appends |
| `Evaluator` | agents/evaluator.py | `Evaluate` is a function; `EvaluateDraft` is a method that writes memory |
| `Orchestrator` | main_agent.py | class `MainAgent` whose `HandleMessage` sequences the stage methods |

Each stateful method is proved equal to a pure function: `CreatePlan` to
`PlanFor`, `GenerateBlog` to `DraftFor`, `EvaluateDraft` to `Evaluate`,
`ChunkText` to `Chunks`, `HandleMessage` to `Pipeline`. Each method also states
the exact new memory. The properties the source promises are proved as lemmas
about those functions.

Five facts about the code that a reader might expect otherwise, kept as the code has them:

- **Final article:** it is the draft's body *stripped*, not the body verbatim
  (agents/evaluator.py:17, 26).
- **Reading time:** a text with no word character reads in 0.0 minutes. Only
  texts with words are floored at 0.1 (project/tools/tools.py:65-67).
- **Envelopes:** `build_message` validates nothing and cannot fail
  (project/core/a2a_protocol.py:22-36).
- **Timestamped rendering:** the Worker has no timestamped-segment rendering
  mode; only the section-summary body exists in project/agents/worker.py.
- **Transcript retrieval:** it cannot fail, because the fetcher is the
  simulated one (project/tools/tools.py:13-21). So an empty transcript never
  reaches the pipeline: `FetchInjectiveAndNeverBlank` proves every transcript
  non-blank, and `PipelineAccepts` proves every request is accepted.

## Model

| member | source | states |
|---|---|---|
| `Text.Strip` | agents/evaluator.py:17 | `str.strip()`: the input is a whitespace run, then the result, then a whitespace run, and the result neither starts nor ends with whitespace; it is empty exactly for an all-whitespace input, and a text already stripped is unchanged |
| `Text.Split` | core/context_engineering.py:11 | `str.split` on a one-character separator: at least one piece, no piece holds the separator, and the pieces joined by the separator give the text back |
| `Text.SplitWithoutSeparator` | core/context_engineering.py:11 | a text without the separator is one piece, itself |
| `Text.SplitAtSeparator` | core/context_engineering.py:11 | the text up to the first separator is the first piece, and the rest splits on its own |
| `Text.Join` | project/tools/tools.py:35 | `sep.join(xs)`; what the model uses of it is stated by `Text.JoinPrefix` and `Text.JoinStartsWithFirst` |
| `Text.JoinPrefix` | project/tools/tools.py:35 | joining the first `k` elements gives a prefix of joining them all |
| `Text.JoinStartsWithFirst` | project/agents/worker.py:54 | a non-empty join starts with its first element |
| `Text.Lower` | project/tools/tools.py:47 | `str.lower()` on ASCII: the same length, each character lower-cased on its own |
| `Text.Capitalize` | project/agents/worker.py:34 | `str.capitalize()`: the same length, the first character upper-cased, every other character lower-cased |
| `Text.LowerCapitalize` | project/agents/worker.py:34 | lower-casing a capitalised lower-case word gives the word back |
| `Text.CapitalizeLowerWord` | project/agents/worker.py:34 | a capitalised lower-case word is its first letter in upper case (a letter `A`-`Z`) followed by the rest unchanged |
| `Text.NatToString` | project/agents/worker.py:39 | the decimal rendering of `idx`: non-empty, all digits, `"0"` for zero and no leading zero otherwise; `Text.ParseNatToString` reads it back as the same number |
| `Text.ParseNatToString` | project/agents/worker.py:39 | the decimal rendering reads back as the number rendered |
| `Text.PrefixSlice` | project/tools/tools.py:35 | the Python slice `xs[:n]`: a prefix of `xs` whose length is `SliceStop`, that is `n` elements (or all when fewer) for `n >= 0`, and all but the last `-n` (or none) for a negative `n` |
| `ContextEngineering.KeepNonBlank` | core/context_engineering.py:11 | the strip-and-drop comprehension over lines: every element is a non-empty, stripped line without a line feed; `KeepNonBlankLine` and `KeepNonBlankAppend` fix which lines they are |
| `ContextEngineering.KeepNonBlankAppend` | core/context_engineering.py:11 | the comprehension over two lists of lines is the comprehension over each, concatenated |
| `ContextEngineering.KeepNonBlankLine` | core/context_engineering.py:11 | one line gives its stripped self, or nothing when it is blank |
| `ContextEngineering.Chunks` | core/context_engineering.py:4-27 | `chunk_text`; its contract is stated by the `Chunks…` lemmas below and by `ChunkText` |
| `ContextEngineering.Pack` | core/context_engineering.py:15-25 | what the packing loop yields from the remaining paragraphs and the chunk under construction; `ChunkText` is proved to compute it, and the `Chunks…` lemmas state its properties |
| `ContextEngineering.Paragraphs` | core/context_engineering.py:11 | every element is a non-empty, stripped line without a line feed; `ParagraphsOfLine` and `ParagraphsAtLineFeed` fix which lines they are |
| `ContextEngineering.ParagraphsOfLine` | core/context_engineering.py:11 | a text without a line feed has its stripped self as its only paragraph, or none when it is blank |
| `ContextEngineering.ParagraphsAtLineFeed` | core/context_engineering.py:11 | the paragraphs of `a + "\n" + b`, for `a` without a line feed, are those of `a` followed by those of `b` |
| `ContextEngineering.ChunkText` | core/context_engineering.py:4-27 | an empty text has no chunks; otherwise the chunks are exactly those the greedy packing `Chunks` defines for its paragraphs |
| `ContextEngineering.PackParagraphs` | core/context_engineering.py:12-27 | the loop over the paragraphs, with the final flush of the chunk under construction, builds exactly the chunks `Pack` defines from an empty start |
| `ContextEngineering.ParagraphsEmptyIffBlank` | core/context_engineering.py:11 | a text has no paragraph exactly when it is all whitespace |
| `ContextEngineering.ChunksEmptyIffBlank` | core/context_engineering.py:8-11 | empty and whitespace-only texts give no chunk; every other text gives at least one |
| `ContextEngineering.ChunksAreStripped` | core/context_engineering.py:11-25 | every chunk is non-empty and stripped |
| `ContextEngineering.ChunksRoundTrip` | core/context_engineering.py:11-22 | the chunks joined with line feeds equal the stripped non-blank lines joined with line feeds, in order |
| `ContextEngineering.ChunksSizeBound` | core/context_engineering.py:16-22 | a chunk over the budget is one whole paragraph of the text; a chunk holding two or more paragraphs is within the budget |
| `ContextEngineering.ChunksGreedy` | core/context_engineering.py:18-22 | the first paragraph of each chunk would not have fitted into the chunk before it |
| `ContextEngineering.ChunksCount` | core/context_engineering.py:15-25 | there are no more chunks than paragraphs, and at least one when there is a paragraph |
| `ContextEngineering.CompactContext` | core/context_engineering.py:30-34 | `compact_context`; stated by `CompactContextIsPrefix` |
| `ContextEngineering.CompactContextIsPrefix` | core/context_engineering.py:30-34 | the first `min(max_chunks, len)` chunks joined by blank lines (Python slicing for a negative count), always a prefix of all chunks joined |
| `Tools.Fetch` | project/tools/tools.py:13-21 | the simulated transcript; stated by `FetchInjectiveAndNeverBlank` |
| `Tools.FetchInjectiveAndNeverBlank` | project/tools/tools.py:13-21 | the transcript reads back as the fixed header, the query verbatim, a blank line and the fixed text; different queries give different transcripts; no transcript is blank |
| `Tools.NextBreak` | project/tools/tools.py:33 | the first position where `(?<=[.!?])\s+` matches, and no match before it |
| `Tools.SpaceRunEnd` | project/tools/tools.py:33 | `\s+` is greedy: the run ends at a non-space character or the end of the text |
| `Tools.SplitSentences` | project/tools/tools.py:33 | `re.split` at the sentence breaks: at least one piece; stated fully by `SplitSentencesRoundTrip` and `SplitSentencesCutsAtBreaks` |
| `Tools.CleanSentences` | project/tools/tools.py:34 | the strip-and-drop comprehension: every sentence kept is non-empty and stripped, and there are no more sentences than pieces; `CleanSentencesPiece` and `CleanSentencesAppend` fix which they are |
| `Tools.CleanSentencesAppend` | project/tools/tools.py:34 | the comprehension over two lists of pieces is the comprehension over each, concatenated |
| `Tools.CleanSentencesPiece` | project/tools/tools.py:34 | one piece gives its stripped self, or nothing when it is blank |
| `Tools.Sentences` | project/tools/tools.py:33-34 | the cleaned pieces of the stripped text split at sentence breaks; stated by `SplitStrippedText`, `CleanStrippedSentences` and `SummarizeLeadingSentences` |
| `Tools.Summarize` | project/tools/tools.py:29-35 | an empty text has an empty summary |
| `Tools.SplitSentencesRoundTrip` | project/tools/tools.py:33 | the pieces of `re.split`, interleaved with the whitespace runs it removed, give back the input |
| `Tools.SplitSentencesCutsAtBreaks` | project/tools/tools.py:33 | the split cuts at every sentence break and only there: no piece holds a break, every piece but the last ends in `.`, `!` or `?`, and every separator is a maximal whitespace run |
| `Tools.SplitStrippedText` | project/tools/tools.py:33-34 | for a stripped text every piece is already a non-empty stripped sentence |
| `Tools.CleanStrippedSentences` | project/tools/tools.py:34 | the strip-and-drop comprehension leaves such pieces unchanged |
| `Tools.SummarizeLeadingSentences` | project/tools/tools.py:29-35 | a blank text has an empty summary; any other text is summarised by the first `max_sentences` pieces of the split, joined by single spaces |
| `Tools.WholeSentence` | project/tools/tools.py:33 | a sentence with no punctuation before its end is not split |
| `Tools.SplitAfterSentence` | project/tools/tools.py:33 | a sentence followed by one space and a non-space character is split off first |
| `Tools.ExampleSplit` | project/tools/tools.py:33 | "Hello world. This is a test. Another sentence here." splits into its three sentences |
| `Tools.SummarizeTwoOfThree` | project/tools/tools.py:29-35 | a stripped text of three sentences is summarised in two by its first two |
| `Tools.SummarizeExample` | project/tools/tools.py:29-35 | the worked example gives "Hello world. This is a test." |
| `Tools.Tokens` | project/tools/tools.py:47 | `re.findall` of four-letter-or-longer runs in the lower-cased text; stated by `TokensOfWord`, `TokensSplit` and `TokensAreLowerWords` |
| `Tools.TokensOfWord` | project/tools/tools.py:47 | a run of letters is one lower-cased token when it has four or more letters, else none |
| `Tools.TokensSplit` | project/tools/tools.py:47 | a non-letter separates tokens: the tokens of both sides, in order |
| `Tools.TokensAreLowerWords` | project/tools/tools.py:47 | every token has at least four characters, all lower-case letters |
| `Tools.DropStopwords` | project/tools/tools.py:48-54 | a word is kept exactly when it is a token and not a stopword, and every non-stopword is kept as often as it occurs |
| `Tools.DropStopwordsKeepsOrder` | project/tools/tools.py:54 | the filter keeps the order in which two non-stopwords first occur |
| `Tools.CandidatesRankAsTokens` | project/tools/tools.py:54-56 | two non-stopwords rank the same way among the candidates as among all the tokens of the text |
| `Tools.Candidates` | project/tools/tools.py:54 | the tokens without the stopwords; stated by `DropStopwords`, `DropStopwordsKeepsOrder` and `CandidatesRankAsTokens` |
| `Tools.Occurrences` | project/tools/tools.py:55 | `Counter(tokens)[w]`, the number of times `w` occurs; `DropStopwords` keeps it for every non-stopword and `Outranks` orders by it |
| `Tools.FirstIndex` | project/tools/tools.py:55 | the position of the first occurrence, where the counter first saw the word |
| `Tools.Distinct` | project/tools/tools.py:55 | the counter's keys: the same words as the tokens, without repeats |
| `Tools.Insert` | project/tools/tools.py:56 | inserting keeps every word and adds the new one |
| `Tools.RankAll` | project/tools/tools.py:56 | the ranking is a permutation of the distinct words |
| `Tools.OutranksTotal` | project/tools/tools.py:55-56 | of two different candidates one ranks above the other |
| `Tools.InsertRanked` | project/tools/tools.py:56 | inserting into a ranked list keeps it ranked |
| `Tools.RankAllRanked` | project/tools/tools.py:56 | the ranking orders the words by frequency, ties by first occurrence |
| `Tools.RankedKeywords` | project/tools/tools.py:55-56 | `most_common` lists every candidate once, in rank order |
| `Tools.KeywordsAreCandidateTokens` | project/tools/tools.py:47-54 | every keyword is a token of four or more lower-case letters from the text and is not a stopword |
| `Tools.KeywordsRankedByFrequency` | project/tools/tools.py:55-56 | the keywords are ordered by frequency, ties in order of first occurrence, and have no repeats |
| `Tools.RankedPrefixOutranksRest` | project/tools/tools.py:56 | in a ranked list every word kept by `most_common(n)` outranks every word cut off |
| `Tools.KeywordsAreTheTopRanked` | project/tools/tools.py:55-57 | every candidate left out ranks below every keyword chosen |
| `Tools.KeywordsRankedByTokenFrequency` | project/tools/tools.py:47-56 | the keywords are ordered by their frequency among the text's tokens, ties by first occurrence in the text, and every non-stopword token left out ranks below every keyword |
| `Tools.Generate` | project/tools/tools.py:43-57 | `generate`; stated by `KeywordsAreCandidateTokens`, `KeywordsRankedByFrequency`, `KeywordsRankedByTokenFrequency`, `KeywordsAreTheTopRanked` and `KeywordsCount` |
| `Tools.KeywordsCount` | project/tools/tools.py:43-57 | an empty text gives no keyword; there are at most `max_keywords` keywords, and fewer only when every candidate was taken |
| `Tools.WordCount` | project/tools/tools.py:64 | the number of `\w+` matches; stated by `WordCountZeroIff`, `WordCountRun` and `WordCountSplit` |
| `Tools.WordCountZeroIff` | project/tools/tools.py:64-65 | `\w+` finds nothing exactly when the text has no word character |
| `Tools.WordCountRun` | project/tools/tools.py:64 | a non-empty run of word characters is one match |
| `Tools.WordCountSplit` | project/tools/tools.py:64 | a character outside `\w` separates matches: the counts of both sides add up |
| `Tools.EstimateReadingTime` | project/tools/tools.py:60-67 | 0.0 without words, a division by zero for a zero rate, otherwise at least 0.1, and exactly 0.1 at a negative rate or when the words are under a tenth of the rate |
| `Tools.ReadingTimeZeroIff` | project/tools/tools.py:64-66 | the estimate is 0.0 exactly when the text has no word character |
| `Tools.ReadingTimeRate` | project/tools/tools.py:67 | at a positive rate the estimate times the rate covers the word count, and equals it once words / rate is above the 0.1 floor |
| `Tools.FlooredRate` | project/tools/tools.py:67 | `max(0.1, w / p)` times `p` is at least `w`, and exactly `w` above the floor |
| `Tools.BelowFloor` | project/tools/tools.py:67 | at a negative rate, or with fewer words than a tenth of a positive rate, `w / p` is below the 0.1 floor |
| `Memory.SessionMemory.constructor` | memory/session_memory.py:9-10 | a fresh memory is empty and `get` returns the default for every key |
| `Memory.SessionMemory.Set` | memory/session_memory.py:12-13 | the store with `key` overwritten; `get(key, d)` is then `value` for any `d`, and every other key reads as before |
| `Memory.SessionMemory.Get` | memory/session_memory.py:15-16 | the stored value, or the default for an absent key; it reads and never writes |
| `Memory.SessionMemory.ToDict` | memory/session_memory.py:18-19 | a map equal to the store, answering every lookup as `get` does |
| `Memory.SnapshotSurvivesSet` | memory/session_memory.py:12-19 | a snapshot taken before a `set` still shows the earlier store |
| `A2AProtocol.NewMessage` | project/core/a2a_protocol.py:5-14 | a message built without payload and metadata has an empty payload and no metadata |
| `A2AProtocol.BuildMessage` | project/core/a2a_protocol.py:22-36 | every argument is copied into the envelope unchanged, for any strings, with no failure case |
| `Evaluator.Evaluate` | agents/evaluator.py:15-32 | the score is 0.0 or 1.0, and 1.0 exactly when the stripped body is non-blank; accepted, the final article is the stripped body with the acceptance feedback; rejected, both texts are the fixed rejection messages |
| `Evaluator.EvaluateDraft` | agents/evaluator.py:15-36 | the evaluation `Evaluate` defines; memory gains "last_evaluation" and nothing else changes |
| `Evaluator.EvaluateDependsOnBodyOnly` | agents/evaluator.py:15-32 | the verdict ignores the plan and every draft field but the body; evaluating the final article again gives it back |
| `Planner.CreatePlan` | project/agents/planner.py:23-43 | the plan `PlanFor` builds under the style memory held (default `{"tone": "simple", "length": "medium"}`); memory gains "last_plan" and nothing else changes |
| `Planner.PlanFor` | project/agents/planner.py:23-39 | the plan `create_plan` returns; stated by `PlanSections` |
| `Planner.PlanSections` | project/agents/planner.py:30-39 | task "youtube_to_blog", the request and the style are recorded; there is at least one section; the sections give back the transcript's non-blank lines; each is non-empty, stripped, and at most 800 characters unless it is one over-long line |
| `Worker.Title` | project/agents/worker.py:32-34 | the title; stated by `TitleNamesTopKeyword` (the top keyword with its first letter in upper case, then the fixed suffix) |
| `Worker.SectionBlock` | project/agents/worker.py:38-39 | one section's block; stated by `SectionBlockReadsBack` |
| `Worker.Header` | project/agents/worker.py:41-52 | the header lines; stated by `HeaderOptionalLines` |
| `Worker.BuildHeader` | project/agents/worker.py:41-52 | the list built by the fixed lines and the two conditional appends is exactly `Header` |
| `Worker.ReadingMinutes` | project/agents/worker.py:30 | the estimate at 200 words a minute; stated by `ReadingMinutesBounds` |
| `Worker.DraftFor` | project/agents/worker.py:18-62 | the draft `generate_blog` returns; stated by `DraftOpensWithTitle`, `TitleNamesTopKeyword`, `DraftKeywords`, `DraftSummary`, `ReadingMinutesBounds`, `HeaderOptionalLines` and `SectionBlocksInOrder` |
| `Worker.Enumerate` | project/agents/worker.py:37 | one entry per element |
| `Worker.EnumerateAt` | project/agents/worker.py:37 | entry `i` is built from the number `i + 1` and element `i`: `enumerate(..., start=1)` |
| `Worker.SectionBlocks` | project/agents/worker.py:36-39 | one block per section |
| `Worker.BuildSectionBlocks` | project/agents/worker.py:36-39 | the loop builds exactly the enumerated section blocks |
| `Worker.GenerateBlog` | project/agents/worker.py:18-66 | the draft `DraftFor` defines; memory gains "last_draft" and nothing else changes |
| `Worker.DraftOpensWithTitle` | project/agents/worker.py:41-54 | the body starts with `"# " + title`, is never blank, and stripping keeps that heading |
| `Worker.TitleEndsInLetter` | project/agents/worker.py:32-34 | both titles end in the letter `o`, so the heading made of either ends in a non-space character |
| `Worker.TitleNamesTopKeyword` | project/agents/worker.py:32-34 | without keywords the title is the fixed one; otherwise it is the top keyword with its first letter upper-cased (a letter `A`-`Z`) followed by the fixed suffix, so lower-casing its opening gives the keyword back |
| `Worker.DraftKeywords` | project/agents/worker.py:29 | at most eight keywords, ranked by frequency, without repeats, each a lower-case non-stopword of four or more letters; left-out candidates rank below every keyword; fewer than eight only when every candidate is a keyword |
| `Worker.DraftSummary` | project/agents/worker.py:24-28 | a blank transcript gives an empty summary; otherwise the first three sentences joined by spaces |
| `Worker.ReadingMinutesBounds` | project/agents/worker.py:30 | 0.0 exactly for a text without words; 0.1 for one to nineteen words; from twenty words exactly the words over 200 a minute |
| `Worker.HeaderOptionalLines` | project/agents/worker.py:41-52 | the title heading, a blank line, the reading-time line and a blank line; then the summary line exactly when there is a summary, and the keyword line, last, exactly when there are keywords |
| `Worker.NumberedHeadingReadsBack` | project/agents/worker.py:39 | the number after "## Section " parses back to the section's number |
| `Worker.SectionBlockReadsBack` | project/agents/worker.py:38-39 | a block reads back as its number followed by the section's two-sentence summary |
| `Worker.SectionBlocksInOrder` | project/agents/worker.py:36-39 | block `i` belongs to section `i` and carries the number `i + 1` |
| `Orchestrator.Pipeline` | main_agent.py:27-71 | the result of one request; stated by `PipelineAccepts`, and `HandleMessage` is proved equal to it |
| `Orchestrator.Envelopes` | main_agent.py:27-56 | three envelopes chained user → planner → worker → evaluator, whose `task` fields are "plan_youtube_to_blog", "generate_blog" and "evaluate_blog", carrying the request, then the plan, then the draft and the same plan, without metadata |
| `Orchestrator.MainAgent.constructor` | main_agent.py:16-22 | a new agent owns a fresh, empty memory |
| `Orchestrator.MainAgent.HandleMessage` | main_agent.py:24-74 | the result is the Planner → Worker → Evaluator pipeline run under the style held on entry, with response = final article; memory gains the plan, the draft and the evaluation; the three envelopes are built in order |
| `Orchestrator.MainAgent.PlannerStage` | main_agent.py:27-37 | the envelope to the planner carries the request; the plan is `PlanFor` under the style held on entry; memory gains "last_plan" and nothing else |
| `Orchestrator.MainAgent.WorkerStage` | main_agent.py:39-49 | the envelope to the worker carries the plan; the draft is `DraftFor` of it; memory gains "last_draft" and nothing else |
| `Orchestrator.MainAgent.EvaluatorStage` | main_agent.py:51-62 | the envelope to the evaluator carries the draft and the plan; the evaluation is `Evaluate` of them; memory gains "last_evaluation" and nothing else |
| `Orchestrator.RunAgent` | main_agent.py:77-80 | a fresh agent, so the default style, and the pipeline's response |
| `Orchestrator.PipelineAccepts` | main_agent.py:58-71 | every request is accepted: score 1.0, the response is the stripped body and starts with the title heading, the plan has a section, and the style reaches plan and draft |

## Left out

- Logging: the `logger.info` calls in every stage and the logging set-up in
  project/core/observability.py change no result.
- I/O drivers: app.py, project/app.py, project/run_demo.py and
  test_transcript.py only read input, print, write files and exit. They are
  not part of this model.
- Reading-time text: the `{:.1f}` rendering of the reading time is the
  parameter `formatMinutes: real -> string`. The header line is built from
  whatever string it returns.
- Reading-time arithmetic: `estimate_reading_time` is computed over exact
  reals, not IEEE doubles. A zero rate with a text holding a word character is
  the `ZeroDivisionError` outcome. A text without one gives 0.0 before any
  division. A negative rate is allowed as in the source.
- Character semantics: `str.strip`, `str.lower`, `str.capitalize`, `\s`, `\w`
  and `[a-zA-Z]` are modelled on ASCII only. A non-ASCII character is neither
  whitespace, nor a letter, nor a word character.
- Artifact shapes: plans, drafts and evaluations are records, so the
  defaults of `plan.get(...)` (project/agents/worker.py:20-22),
  `draft.get("body", "")` (agents/evaluator.py:17) and
  `evaluation.get("final_article", "")` (main_agent.py:64) are never taken.
  Memory values are the sum type `Value` rather than arbitrary objects.
- Shared references: Python stores references to the plan, draft and
  evaluation dictionaries in memory and in the envelopes. Nothing mutates
  them afterwards, so the model keeps immutable values.
- Envelopes: the source builds them and then drops them. `MainAgent` keeps
  them in the ghost field `sent` only so that their order and contents can be
  stated.
- Stage objects: the stage objects and the protocol object `MainAgent`
  creates hold only a logger and stateless helpers. The Planner holds a
  `TranscriptFetcher` (project/agents/planner.py:21). The Worker holds a
  `SimpleSummarizer` and a `SEOKeywordGenerator`
  (project/agents/worker.py:15-16). Each helper is a module function here, and
  none is a field of the class.
- `Tools.Summarize`: its own contract states only the empty-text case. The
  full promise is `Tools.SummarizeLeadingSentences`.
- `Tools.Fetch`: it carries no contract of its own. What it returns is stated
  by `Tools.FetchInjectiveAndNeverBlank`.
- `Memory.SessionMemory.Get`: Python's `get(key)` may omit the default, which
  is then `None`. The model always takes a default, because every call in the
  source passes one (project/agents/planner.py:25-28).
