/**
 * The paragraph chunker and the context compactor of core/context_engineering.py.
 *
 * `chunk_text` drops blank lines, strips the others (the paragraphs) and packs
 * consecutive paragraphs, joined by a line feed, into chunks of at most
 * `max_chars` characters; a paragraph that does not fit in the current chunk
 * starts a new one, and a paragraph longer than the budget stays whole.
 */
module ContextEngineering {
  import opened Text

  /** What `text.split("\n")` followed by the strip-and-drop-blank comprehension yields. */
  predicate IsParagraph(p: string) {
    p != "" && '\n' !in p && Stripped(p)
  }

  predicate AllParagraphs(ps: seq<string>) {
    forall i :: 0 <= i < |ps| ==> IsParagraph(ps[i])
  }

  /** The stripped non-blank lines of `text`, in order. */
  function Paragraphs(text: string): (ps: seq<string>)
    ensures AllParagraphs(ps)
  {
    KeepNonBlank(Split(text, '\n'))
  }

  function KeepNonBlank(lines: seq<string>): (ps: seq<string>)
    requires forall l :: l in lines ==> '\n' !in l
    ensures AllParagraphs(ps)
  {
    if lines == [] then []
    else
      var p := Strip(lines[0]);
      if p == "" then KeepNonBlank(lines[1..]) else [p] + KeepNonBlank(lines[1..])
  }

  /** The chunk under construction, as a list of at most one element. */
  function Lead(current: string): seq<string> {
    if current == "" then [] else [current]
  }

  /**
   * What the packing loop yields from the remaining paragraphs `ps` when the
   * chunk under construction is `current`: one step of the loop per paragraph,
   * and the final flush of a non-empty `current`.
   */
  function Pack(ps: seq<string>, current: string, maxChars: int): seq<string> {
    if ps == [] then Lead(current)
    else if current == "" then Pack(ps[1..], ps[0], maxChars)
    else if |current| + |ps[0]| + 1 <= maxChars then Pack(ps[1..], current + "\n" + ps[0], maxChars)
    else [current] + Pack(ps[1..], ps[0], maxChars)
  }

  /** `chunk_text(text, max_chars)`. */
  function Chunks(text: string, maxChars: int): seq<string> {
    if text == "" then [] else Pack(Paragraphs(text), "", maxChars)
  }

  /** The first paragraph of a chunk: what precedes its first line feed. */
  function FirstLine(chunk: string): string {
    Split(chunk, '\n')[0]
  }

  /** `chunk_text`: the empty text has no chunks; otherwise its paragraphs are packed. */
  method ChunkText(text: string, maxChars: int) returns (chunks: seq<string>)
    ensures chunks == Chunks(text, maxChars)
  {
    if text == "" {
      return [];
    }
    chunks := PackParagraphs(Paragraphs(text), maxChars);
  }

  /** The loop of `chunk_text` over the paragraphs, with its final flush. */
  method PackParagraphs(paragraphs: seq<string>, maxChars: int) returns (chunks: seq<string>)
    ensures chunks == Pack(paragraphs, "", maxChars)
  {
    chunks := [];
    var current := "";
    var i := 0;
    while i < |paragraphs|
      invariant 0 <= i <= |paragraphs|
      invariant chunks + Pack(paragraphs[i..], current, maxChars) == Pack(paragraphs, "", maxChars)
    {
      var para := paragraphs[i];
      assert paragraphs[i..][1..] == paragraphs[i + 1..];
      if current == "" {
        current := para;
      } else if |current| + |para| + 1 <= maxChars {
        current := current + "\n" + para;
      } else {
        chunks := chunks + [current];
        current := para;
      }
      i := i + 1;
    }
    if current != "" {
      chunks := chunks + [current];
    }
  }

  /** `compact_context(chunks, max_chunks)`: the first `max_chunks` chunks, joined by a blank line. */
  function CompactContext(chunks: seq<string>, maxChunks: int): string {
    Join(PrefixSlice(chunks, maxChunks), "\n\n")
  }

  // ---------------------------------------------------------------------------
  // Lines and paragraphs

  lemma {:induction false} SplitAllBlank(s: string, sep: char)
    requires IsSpace(sep)
    ensures (forall l :: l in Split(s, sep) ==> AllSpace(l)) <==> AllSpace(s)
  {
    if s != [] {
      SplitAllBlank(s[1..], sep);
      var rest := Split(s[1..], sep);
      if s[0] != sep {
        var first := [s[0]] + rest[0];
        assert Split(s, sep) == [first] + rest[1..];
        assert AllSpace(first) <==> IsSpace(s[0]) && AllSpace(rest[0]) by {
          assert first[0] == s[0];
          assert forall i :: 1 <= i < |first| ==> first[i] == rest[0][i - 1];
          assert forall i :: 0 <= i < |rest[0]| ==> rest[0][i] == first[i + 1];
        }
        assert AllSpace(s) <==> IsSpace(s[0]) && AllSpace(s[1..]) by {
          assert forall i :: 1 <= i < |s| ==> s[i] == s[1..][i - 1];
        }
        assert (forall l :: l in rest ==> AllSpace(l)) <==> AllSpace(rest[0]) && (forall l :: l in rest[1..] ==> AllSpace(l)) by {
          assert rest == [rest[0]] + rest[1..];
        }
      } else {
        assert AllSpace(s) <==> AllSpace(s[1..]) by {
          assert forall i :: 1 <= i < |s| ==> s[i] == s[1..][i - 1];
        }
      }
    }
  }

  lemma {:induction false} KeepNonBlankEmpty(lines: seq<string>)
    requires forall l :: l in lines ==> '\n' !in l
    ensures KeepNonBlank(lines) == [] <==> forall l :: l in lines ==> AllSpace(l)
  {
    if lines != [] {
      KeepNonBlankEmpty(lines[1..]);
      assert forall l :: l in lines <==> l == lines[0] || l in lines[1..];
    }
  }

  /** The comprehension distributes over concatenation: it treats each line on its own. */
  lemma {:induction false} KeepNonBlankAppend(a: seq<string>, b: seq<string>)
    requires forall l :: l in a ==> '\n' !in l
    requires forall l :: l in b ==> '\n' !in l
    ensures KeepNonBlank(a + b) == KeepNonBlank(a) + KeepNonBlank(b)
  {
    if a == [] {
      assert a + b == b;
    } else {
      var h, t := a[0], a[1..] + b;
      assert a + b == [h] + t;
      assert a == [h] + a[1..];
      assert h in a && forall l :: l in a[1..] ==> l in a;
      assert forall l :: l in t ==> l in a[1..] || l in b;
      KeepNonBlankCons(a[0], t);
      KeepNonBlankCons(a[0], a[1..]);
      KeepNonBlankAppend(a[1..], b);
      Regroup(KeepNonBlank(a + b), KeepNonBlank(a), KeepNonBlank([a[0]]), KeepNonBlank(t), KeepNonBlank(a[1..]), KeepNonBlank(b));
    }
  }

  lemma KeepNonBlankCons(h: string, t: seq<string>)
    requires '\n' !in h && forall l :: l in t ==> '\n' !in l
    ensures KeepNonBlank([h] + t) == KeepNonBlank([h]) + KeepNonBlank(t)
  {
    assert ([h] + t)[0] == h && ([h] + t)[1..] == t;
    assert [h][1..] == [];
  }

  /** One line gives its stripped self, or nothing when it is blank. */
  lemma KeepNonBlankLine(l: string)
    requires '\n' !in l
    ensures KeepNonBlank([l]) == if AllSpace(l) then [] else [Strip(l)]
  {
    assert [l][1..] == [];
  }

  /** A text without a line feed gives its stripped self as the one paragraph, or none when it is blank. */
  lemma ParagraphsOfLine(l: string)
    requires '\n' !in l
    ensures Paragraphs(l) == if AllSpace(l) then [] else [Strip(l)]
  {
    SplitWithoutSeparator(l, '\n');
    KeepNonBlankLine(l);
  }

  /** The paragraphs of a text are those of its first line followed by those of the rest. */
  lemma ParagraphsAtLineFeed(a: string, b: string)
    requires '\n' !in a
    ensures Paragraphs(a + "\n" + b) == Paragraphs(a) + Paragraphs(b)
  {
    SplitAtSeparator(a, b, '\n');
    SplitWithoutSeparator(a, '\n');
    KeepNonBlankAppend([a], Split(b, '\n'));
  }

  /** A text has no paragraph exactly when it is all whitespace. */
  lemma ParagraphsEmptyIffBlank(text: string)
    ensures Paragraphs(text) == [] <==> AllSpace(text)
  {
    SplitAllBlank(text, '\n');
    KeepNonBlankEmpty(Split(text, '\n'));
  }

  // ---------------------------------------------------------------------------
  // Properties of the packing loop

  lemma {:induction false} PackHead(ps: seq<string>, current: string, maxChars: int)
    requires current != ""
    ensures Pack(ps, current, maxChars) != []
    ensures current <= Pack(ps, current, maxChars)[0]
    ensures var h := Pack(ps, current, maxChars)[0]; |h| == |current| || h[|current|] == '\n'
  {
    if ps != [] && |current| + |ps[0]| + 1 <= maxChars {
      var merged := current + "\n" + ps[0];
      PackHead(ps[1..], merged, maxChars);
      assert merged[|current|] == '\n';
    }
  }

  lemma {:induction false} PackCount(ps: seq<string>, current: string, maxChars: int)
    requires AllParagraphs(ps)
    ensures |Pack(ps, current, maxChars)| <= |ps| + |Lead(current)|
    ensures current != "" || ps != [] ==> |Pack(ps, current, maxChars)| >= 1
  {
    if ps != [] {
      PackCount(ps[1..], if current == "" || |current| + |ps[0]| + 1 <= maxChars then
                           (if current == "" then ps[0] else current + "\n" + ps[0])
                         else ps[0], maxChars);
    }
  }

  lemma {:induction false} PackRoundTrip(ps: seq<string>, current: string, maxChars: int)
    requires AllParagraphs(ps)
    ensures Join(Pack(ps, current, maxChars), "\n") == Join(Lead(current) + ps, "\n")
  {
    if ps == [] {
      assert Lead(current) + ps == Lead(current);
    } else if current == "" {
      PackRoundTrip(ps[1..], ps[0], maxChars);
      assert IsParagraph(ps[0]);
      assert Lead(ps[0]) + ps[1..] == ps;
      assert Lead(current) + ps == ps;
    } else if |current| + |ps[0]| + 1 <= maxChars {
      var merged := current + "\n" + ps[0];
      PackRoundTrip(ps[1..], merged, maxChars);
      assert ([current] + ps)[1..] == ps;
      if |ps| > 1 {
        assert ([merged] + ps[1..])[1..] == ps[1..];
      } else {
        assert [merged] + ps[1..] == [merged];
      }
    } else {
      var tail := Pack(ps[1..], ps[0], maxChars);
      PackRoundTrip(ps[1..], ps[0], maxChars);
      PackHead(ps[1..], ps[0], maxChars);
      assert ([current] + tail)[1..] == tail;
      assert ([current] + ps)[1..] == ps;
      assert [ps[0]] + ps[1..] == ps;
    }
  }

  lemma {:induction false} PackStripped(ps: seq<string>, current: string, maxChars: int)
    requires AllParagraphs(ps)
    requires Stripped(current)
    ensures forall c :: c in Pack(ps, current, maxChars) ==> c != "" && Stripped(c)
  {
    if ps != [] {
      if current == "" {
        PackStripped(ps[1..], ps[0], maxChars);
      } else if |current| + |ps[0]| + 1 <= maxChars {
        var merged := current + "\n" + ps[0];
        assert merged[0] == current[0] && merged[|merged| - 1] == ps[0][|ps[0]| - 1];
        PackStripped(ps[1..], merged, maxChars);
      } else {
        PackStripped(ps[1..], ps[0], maxChars);
      }
    }
  }

  lemma {:induction false} PackBound(ps: seq<string>, current: string, maxChars: int, all: seq<string>)
    requires forall i :: 0 <= i < |ps| ==> ps[i] in all
    requires current == "" || |current| <= maxChars || current in all
    ensures forall c :: c in Pack(ps, current, maxChars) ==> |c| <= maxChars || c in all
  {
    if ps != [] {
      if current == "" {
        PackBound(ps[1..], ps[0], maxChars, all);
      } else if |current| + |ps[0]| + 1 <= maxChars {
        PackBound(ps[1..], current + "\n" + ps[0], maxChars, all);
      } else {
        PackBound(ps[1..], ps[0], maxChars, all);
      }
    }
  }

  lemma {:induction false} FirstLineOf(p: string, h: string)
    requires '\n' !in p
    requires p <= h
    requires |h| == |p| || h[|p|] == '\n'
    ensures FirstLine(h) == p
  {
    if p != [] {
      FirstLineOf(p[1..], h[1..]);
    } else if h != [] {
      assert h[0] == '\n';
    }
  }

  predicate Greedy(chunks: seq<string>, maxChars: int) {
    forall i :: 0 <= i < |chunks| - 1 ==> |chunks[i]| + |FirstLine(chunks[i + 1])| + 1 > maxChars
  }

  lemma {:induction false} PackGreedy(ps: seq<string>, current: string, maxChars: int)
    requires AllParagraphs(ps)
    ensures Greedy(Pack(ps, current, maxChars), maxChars)
  {
    if ps != [] {
      if current == "" {
        PackGreedy(ps[1..], ps[0], maxChars);
      } else if |current| + |ps[0]| + 1 <= maxChars {
        PackGreedy(ps[1..], current + "\n" + ps[0], maxChars);
      } else {
        var tail := Pack(ps[1..], ps[0], maxChars);
        PackGreedy(ps[1..], ps[0], maxChars);
        PackHead(ps[1..], ps[0], maxChars);
        FirstLineOf(ps[0], tail[0]);
        var r := [current] + tail;
        forall i | 0 <= i < |r| - 1
          ensures |r[i]| + |FirstLine(r[i + 1])| + 1 > maxChars
        {
          if i > 0 {
            assert r[i] == tail[i - 1] && r[i + 1] == tail[i];
          }
        }
      }
    }
  }

  // ---------------------------------------------------------------------------
  // Properties of chunk_text

  /** Empty and whitespace-only texts give no chunk, and every other text gives at least one. */
  lemma ChunksEmptyIffBlank(text: string, maxChars: int)
    ensures Chunks(text, maxChars) == [] <==> AllSpace(text)
  {
    ParagraphsEmptyIffBlank(text);
    if text != "" {
      PackCount(Paragraphs(text), "", maxChars);
    }
  }

  /** Every chunk is non-empty and has no leading or trailing whitespace. */
  lemma ChunksAreStripped(text: string, maxChars: int)
    ensures forall c :: c in Chunks(text, maxChars) ==> c != "" && Stripped(c)
  {
    if text != "" {
      PackStripped(Paragraphs(text), "", maxChars);
    }
  }

  /** Joining the chunks with line feeds gives back the paragraphs joined with line feeds. */
  lemma ChunksRoundTrip(text: string, maxChars: int)
    ensures Join(Chunks(text, maxChars), "\n") == Join(Paragraphs(text), "\n")
  {
    if text != "" {
      PackRoundTrip(Paragraphs(text), "", maxChars);
      assert Lead("") + Paragraphs(text) == Paragraphs(text);
    } else {
      assert Split(text, '\n') == [""];
      assert Paragraphs(text) == [];
    }
  }

  /**
   * A chunk over the budget is one whole paragraph of the text; a chunk that
   * holds two or more paragraphs (it contains a line feed) is within the budget.
   */
  lemma ChunksSizeBound(text: string, maxChars: int)
    ensures forall c :: c in Chunks(text, maxChars) ==> |c| <= maxChars || c in Paragraphs(text)
    ensures forall c :: c in Chunks(text, maxChars) && '\n' in c ==> |c| <= maxChars
  {
    if text != "" {
      PackBound(Paragraphs(text), "", maxChars, Paragraphs(text));
    }
  }

  /** No chunk could have taken the first paragraph of the chunk after it. */
  lemma ChunksGreedy(text: string, maxChars: int)
    ensures Greedy(Chunks(text, maxChars), maxChars)
  {
    if text != "" {
      PackGreedy(Paragraphs(text), "", maxChars);
    }
  }

  /** There are at most as many chunks as paragraphs, and at least one when there is a paragraph. */
  lemma ChunksCount(text: string, maxChars: int)
    ensures |Chunks(text, maxChars)| <= |Paragraphs(text)|
    ensures Paragraphs(text) != [] ==> |Chunks(text, maxChars)| >= 1
  {
    if text != "" {
      PackCount(Paragraphs(text), "", maxChars);
    } else {
      assert Split(text, '\n') == [""];
    }
  }

  // ---------------------------------------------------------------------------
  // Properties of compact_context

  /**
   * The compacted context is the first `min(max_chunks, len(chunks))` chunks
   * joined by blank lines (a negative `max_chunks` drops that many from the
   * end, as Python slicing does), and so always a prefix of all chunks joined.
   */
  lemma CompactContextIsPrefix(chunks: seq<string>, maxChunks: int)
    ensures maxChunks >= 0 ==> CompactContext(chunks, maxChunks) == Join(chunks[..Min(maxChunks, |chunks|)], "\n\n")
    ensures CompactContext(chunks, maxChunks) <= Join(chunks, "\n\n")
    ensures maxChunks >= |chunks| ==> CompactContext(chunks, maxChunks) == Join(chunks, "\n\n")
  {
    JoinPrefix(chunks, SliceStop(|chunks|, maxChunks), "\n\n");
    assert chunks[..|chunks|] == chunks;
  }
}
