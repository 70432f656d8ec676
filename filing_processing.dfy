/**
 * Stage 2 of the filing pipeline (`process_filings.py`): cutting a
 * filing's text into named sections at the headings the section patterns
 * find, splitting long sections into chunks that fit a token budget while
 * keeping paragraphs (or, for an oversized paragraph, sentences) whole,
 * and numbering the chunks of each section. The heading matches, the
 * sentence splitter and the token counter are parameters.
 */
module FilingProcessing {
  import opened Wrappers
  import opened Text
  import opened Sorting

  // ---------------------------------------------------------------------
  // An insertion-ordered dictionary of section texts

  /** A Python `dict` from names to texts: keys in insertion order. */
  datatype Dict = Dict(keys: seq<string>, values: map<string, string>)

  ghost predicate ValidDict(d: Dict)
  {
    (forall i, j :: 0 <= i < j < |d.keys| ==> d.keys[i] != d.keys[j]) &&
    (forall k :: k in d.keys <==> k in d.values)
  }

  /** `d[k] = v`: a new key goes last, an existing key keeps its place. */
  function Put(d: Dict, k: string, v: string): (r: Dict)
    ensures r.values == d.values[k := v]
  {
    if k in d.values then Dict(d.keys, d.values[k := v]) else Dict(d.keys + [k], d.values[k := v])
  }

  lemma PutValid(d: Dict, k: string, v: string)
    requires ValidDict(d)
    ensures ValidDict(Put(d, k, v))
  {
  }

  function Single(k: string, v: string): (r: Dict)
    ensures r.values == map[k := v]
  {
    Dict([k], map[k := v])
  }

  // ---------------------------------------------------------------------
  // Sections

  const FullDocument := "Full Document"
  const MinSectionLength := 100

  /** The filing types that have section patterns. */
  predicate HasPatterns(filingType: string)
  {
    filingType == "10-K" || filingType == "10-Q" || filingType == "8-K"
  }

  /** A pattern match: where it starts in the text, and the section it names. */
  type Heading = (nat, string)

  function StartsBefore(a: Heading, b: Heading): bool
  {
    a.0 <= b.0
  }

  lemma StartsBeforePreorder()
    ensures TotalPreorder(StartsBefore)
  {
  }

  /** Python's `s[a:b]` for non-negative bounds: clamped to the text, empty when `a` passes `b`. */
  function PySlice(s: string, a: nat, b: nat): (r: string)
    ensures |r| <= |s|
  {
    var hi := if b <= |s| then b else |s|;
    var lo := if a <= hi then a else hi;
    s[lo..hi]
  }

  /** Where section `i` ends: at the next heading, or at the end of the text. */
  function SectionEnd(hs: seq<Heading>, i: nat, textLen: nat): nat
  {
    if i + 1 < |hs| then hs[i + 1].0 else textLen
  }

  /** The stripped text of section `i`. */
  function SectionText(text: string, hs: seq<Heading>, i: nat): string
    requires i < |hs|
  {
    Strip(PySlice(text, hs[i].0, SectionEnd(hs, i, |text|)))
  }

  /** Each heading's section name with its stripped text. */
  function Candidates(text: string, hs: seq<Heading>): (r: seq<(string, string)>)
    ensures |r| == |hs|
    ensures forall i :: 0 <= i < |hs| ==> r[i] == (hs[i].1, SectionText(text, hs, i))
  {
    seq(|hs|, i requires 0 <= i < |hs| => (hs[i].1, SectionText(text, hs, i)))
  }

  /** The loop over the candidates: those longer than 100 characters, later ones overwriting. */
  function Collect(cs: seq<(string, string)>): Dict
  {
    if |cs| == 0 then Dict([], map[])
    else
      var d := Collect(cs[..|cs| - 1]);
      var c := cs[|cs| - 1];
      if |c.1| > MinSectionLength then Put(d, c.0, c.1) else d
  }

  lemma CollectStep(cs: seq<(string, string)>, i: nat)
    requires i < |cs|
    ensures Collect(cs[..i + 1]) == if |cs[i].1| > MinSectionLength then Put(Collect(cs[..i]), cs[i].0, cs[i].1) else Collect(cs[..i])
  {
    assert cs[..i + 1][..i] == cs[..i];
  }

  lemma {:induction false} CollectValid(cs: seq<(string, string)>)
    ensures ValidDict(Collect(cs))
  {
    if |cs| > 0 {
      CollectValid(cs[..|cs| - 1]);
      PutValid(Collect(cs[..|cs| - 1]), cs[|cs| - 1].0, cs[|cs| - 1].1);
    }
  }

  /**
   * `extract_sections`: the whole text under "Full Document" for a filing
   * type without patterns or when no section survives; otherwise the
   * surviving sections in the order their names first survive.
   */
  function ExtractSections(text: string, filingType: string, matches: seq<Heading>): Dict
  {
    if !HasPatterns(filingType) then Single(FullDocument, text)
    else
      var d := Collect(Candidates(text, SortBy(matches, StartsBefore)));
      if |d.keys| == 0 then Single(FullDocument, text) else d
  }

  /** The sections form a dictionary: distinct names, each with its text. */
  lemma ExtractSectionsValid(text: string, filingType: string, matches: seq<Heading>)
    ensures ValidDict(ExtractSections(text, filingType, matches))
  {
    CollectValid(Candidates(text, SortBy(matches, StartsBefore)));
  }

  method ExtractSectionsLoop(text: string, filingType: string, matches: seq<Heading>) returns (sections: Dict)
    ensures sections == ExtractSections(text, filingType, matches)
  {
    if !HasPatterns(filingType) {
      return Single(FullDocument, text);
    }
    var hs := SortBy(matches, StartsBefore);
    ghost var cs := Candidates(text, hs);
    sections := Dict([], map[]);
    var i := 0;
    while i < |hs|
      invariant 0 <= i <= |hs|
      invariant sections == Collect(cs[..i])
    {
      CollectStep(cs, i);
      var sectionText := SectionText(text, hs, i);
      if |sectionText| > MinSectionLength {
        sections := Put(sections, hs[i].1, sectionText);
      }
      i := i + 1;
    }
    assert cs[..|hs|] == cs;
    if |sections.keys| == 0 {
      sections := Single(FullDocument, text);
    }
  }

  /**
   * A name is kept exactly when some candidate of that name has more than
   * 100 characters, and its text is that of the last such candidate.
   */
  lemma {:induction false} CollectHolds(cs: seq<(string, string)>, k: string)
    ensures k in Collect(cs).values <==> exists i :: 0 <= i < |cs| && cs[i].0 == k && |cs[i].1| > MinSectionLength
    ensures k in Collect(cs).values ==>
            exists i :: 0 <= i < |cs| && cs[i] == (k, Collect(cs).values[k]) && |cs[i].1| > MinSectionLength &&
                        forall j :: i < j < |cs| && cs[j].0 == k ==> |cs[j].1| <= MinSectionLength
  {
    if |cs| > 0 {
      var front := cs[..|cs| - 1];
      CollectHolds(front, k);
      var c := cs[|cs| - 1];
      if c.0 == k && |c.1| > MinSectionLength {
        assert cs[|cs| - 1] == (k, Collect(cs).values[k]);
      } else if k in Collect(cs).values {
        var i :| 0 <= i < |front| && front[i] == (k, Collect(front).values[k]) && |front[i].1| > MinSectionLength &&
                 forall j :: i < j < |front| && front[j].0 == k ==> |front[j].1| <= MinSectionLength;
        assert cs[i] == front[i];
      }
      if exists i :: 0 <= i < |cs| && cs[i].0 == k && |cs[i].1| > MinSectionLength {
        var i :| 0 <= i < |cs| && cs[i].0 == k && |cs[i].1| > MinSectionLength;
        if i < |front| {
          assert front[i] == cs[i];
        }
      }
    }
  }

  /**
   * Every section of a typed filing, unless the text fell back to "Full
   * Document", is the stripped text between a heading and the next one,
   * and holds more than 100 characters.
   */
  lemma SectionsAreLongSpans(text: string, filingType: string, matches: seq<Heading>, k: string) returns (i: nat)
    requires HasPatterns(filingType)
    requires k in ExtractSections(text, filingType, matches).values
    requires ExtractSections(text, filingType, matches).keys != [FullDocument]
    ensures var hs := SortBy(matches, StartsBefore);
            i < |hs| && hs[i].1 == k &&
            ExtractSections(text, filingType, matches).values[k] == SectionText(text, hs, i) &&
            |SectionText(text, hs, i)| > MinSectionLength
  {
    var hs := SortBy(matches, StartsBefore);
    var cs := Candidates(text, hs);
    var d := Collect(cs);
    assert |d.keys| != 0;  // otherwise the result would be the lone "Full Document"
    assert ExtractSections(text, filingType, matches) == d;
    CollectHolds(cs, k);
    i :| 0 <= i < |cs| && cs[i] == (k, d.values[k]) && |cs[i].1| > MinSectionLength;
    assert cs[i] == (hs[i].1, SectionText(text, hs, i));
  }

  /**
   * Once sorted, the headings run in ascending position order, so each
   * section is an honest span of the text: it starts no later than it ends,
   * and it ends within the text.
   */
  lemma SpansWithinText(text: string, matches: seq<Heading>, i: nat)
    requires forall m :: m in matches ==> m.0 <= |text|
    requires i < |matches|
    ensures var hs := SortBy(matches, StartsBefore);
            hs[i].0 <= SectionEnd(hs, i, |text|) <= |text|
  {
    var hs := SortBy(matches, StartsBefore);
    StartsBeforePreorder();
    SortBySorted(matches, StartsBefore);
    assert hs[i] in multiset(hs);
    if i + 1 < |hs| {
      assert StartsBefore(hs[i], hs[i + 1]);
      assert hs[i + 1] in multiset(hs);
    }
  }

  // ---------------------------------------------------------------------
  // Chunking

  const ParagraphBreak := "\n\n"

  /** The sum of the token counts of some pieces. */
  function Tokens(count: string -> nat, ps: seq<string>): nat
  {
    if |ps| == 0 then 0 else Tokens(count, ps[..|ps| - 1]) + count(ps[|ps| - 1])
  }

  /** `chunks`, `current_chunk` and `current_tokens`, with chunks kept as their pieces. */
  datatype Chunker = Chunker(done: seq<seq<string>>, current: seq<string>, currentTokens: int)

  const Start := Chunker([], [], 0)

  /** The chunks with the current one closed, if it has anything in it. */
  function Closed(s: Chunker): seq<seq<string>>
  {
    if |s.current| > 0 then s.done + [s.current] else s.done
  }

  /** One paragraph or sentence: it starts a new chunk when it would overflow the current one. */
  function AddPiece(s: Chunker, p: string, count: string -> nat, maxTokens: nat): Chunker
  {
    if s.currentTokens + count(p) > maxTokens then Chunker(Closed(s), [p], count(p))
    else Chunker(s.done, s.current + [p], s.currentTokens + count(p))
  }

  function AddPieces(s: Chunker, ps: seq<string>, count: string -> nat, maxTokens: nat): Chunker
  {
    if |ps| == 0 then s else AddPiece(AddPieces(s, ps[..|ps| - 1], count, maxTokens), ps[|ps| - 1], count, maxTokens)
  }

  /** Before an oversized paragraph, the current chunk is saved. */
  function Flush(s: Chunker): Chunker
  {
    if |s.current| > 0 then Chunker(s.done + [s.current], [], 0) else s
  }

  /** A paragraph: whole when it fits the budget, otherwise sentence by sentence. */
  function Feed(s: Chunker, para: string, count: string -> nat, sentences: string -> seq<string>, maxTokens: nat): Chunker
  {
    if count(para) > maxTokens then AddPieces(Flush(s), sentences(para), count, maxTokens)
    else AddPiece(s, para, count, maxTokens)
  }

  function FeedAll(paras: seq<string>, count: string -> nat, sentences: string -> seq<string>, maxTokens: nat): Chunker
  {
    if |paras| == 0 then Start
    else Feed(FeedAll(paras[..|paras| - 1], count, sentences, maxTokens), paras[|paras| - 1], count, sentences, maxTokens)
  }

  /** The chunks of a list of paragraphs, each as the pieces it joins. */
  function ChunkPieces(paras: seq<string>, count: string -> nat, sentences: string -> seq<string>, maxTokens: nat): seq<seq<string>>
  {
    Closed(FeedAll(paras, count, sentences, maxTokens))
  }

  function JoinEach(gs: seq<seq<string>>): (r: seq<string>)
    ensures |r| == |gs|
    ensures forall i :: 0 <= i < |gs| ==> r[i] == Join(gs[i], ParagraphBreak)
  {
    if |gs| == 0 then [] else JoinEach(gs[..|gs| - 1]) + [Join(gs[|gs| - 1], ParagraphBreak)]
  }

  /** `chunk_text(text, section_name, max_tokens)`. */
  function ChunkText(text: string, count: string -> nat, sentences: string -> seq<string>, maxTokens: nat): seq<string>
  {
    JoinEach(ChunkPieces(SplitOn(text, ParagraphBreak), count, sentences, maxTokens))
  }

  // What the chunker keeps true

  /** The pieces the chunker sees: a paragraph, or the sentences of an oversized one. */
  function Pieces(paras: seq<string>, count: string -> nat, sentences: string -> seq<string>, maxTokens: nat): seq<string>
  {
    if |paras| == 0 then []
    else
      var p := paras[|paras| - 1];
      Pieces(paras[..|paras| - 1], count, sentences, maxTokens) + (if count(p) > maxTokens then sentences(p) else [p])
  }

  function Flatten(gs: seq<seq<string>>): seq<string>
  {
    if |gs| == 0 then [] else Flatten(gs[..|gs| - 1]) + gs[|gs| - 1]
  }

  /** A chunk is never empty, and it fits the budget unless it is one oversized piece. */
  predicate FitsBudget(g: seq<string>, count: string -> nat, maxTokens: nat)
  {
    |g| > 0 && (Tokens(count, g) <= maxTokens || |g| == 1)
  }

  predicate Good(s: Chunker, count: string -> nat, maxTokens: nat)
  {
    s.currentTokens == Tokens(count, s.current) &&
    (|s.current| > 0 ==> Tokens(count, s.current) <= maxTokens || |s.current| == 1) &&
    forall i :: 0 <= i < |s.done| ==> FitsBudget(s.done[i], count, maxTokens)
  }

  /** The pieces the chunker holds: finished chunks, then the current one. */
  function Held(s: Chunker): seq<string>
  {
    Flatten(s.done) + s.current
  }

  lemma ClosedKeeps(s: Chunker, count: string -> nat, maxTokens: nat)
    requires Good(s, count, maxTokens)
    ensures forall i :: 0 <= i < |Closed(s)| ==> FitsBudget(Closed(s)[i], count, maxTokens)
    ensures Flatten(Closed(s)) == Held(s)
  {
    if |s.current| > 0 {
      assert (s.done + [s.current])[..|s.done|] == s.done;
    }
  }

  lemma AddPieceKeeps(s: Chunker, p: string, count: string -> nat, maxTokens: nat)
    requires Good(s, count, maxTokens)
    ensures Good(AddPiece(s, p, count, maxTokens), count, maxTokens)
    ensures Held(AddPiece(s, p, count, maxTokens)) == Held(s) + [p]
  {
    ClosedKeeps(s, count, maxTokens);
    assert Tokens(count, [p]) == count(p) by {
      assert [p][..0] == [];
    }
    assert (s.current + [p])[..|s.current|] == s.current;
  }

  lemma {:induction false} AddPiecesKeeps(s: Chunker, ps: seq<string>, count: string -> nat, maxTokens: nat)
    requires Good(s, count, maxTokens)
    ensures Good(AddPieces(s, ps, count, maxTokens), count, maxTokens)
    ensures Held(AddPieces(s, ps, count, maxTokens)) == Held(s) + ps
  {
    if |ps| > 0 {
      var front := ps[..|ps| - 1];
      AddPiecesKeeps(s, front, count, maxTokens);
      AddPieceKeeps(AddPieces(s, front, count, maxTokens), ps[|ps| - 1], count, maxTokens);
      assert front + [ps[|ps| - 1]] == ps;
    }
  }

  lemma FeedKeeps(s: Chunker, para: string, count: string -> nat, sentences: string -> seq<string>, maxTokens: nat)
    requires Good(s, count, maxTokens)
    ensures Good(Feed(s, para, count, sentences, maxTokens), count, maxTokens)
    ensures Held(Feed(s, para, count, sentences, maxTokens)) ==
            Held(s) + (if count(para) > maxTokens then sentences(para) else [para])
  {
    if count(para) > maxTokens {
      ClosedKeeps(s, count, maxTokens);
      AddPiecesKeeps(Flush(s), sentences(para), count, maxTokens);
    } else {
      AddPieceKeeps(s, para, count, maxTokens);
    }
  }

  lemma {:induction false} FeedAllKeeps(paras: seq<string>, count: string -> nat, sentences: string -> seq<string>, maxTokens: nat)
    ensures Good(FeedAll(paras, count, sentences, maxTokens), count, maxTokens)
    ensures Held(FeedAll(paras, count, sentences, maxTokens)) == Pieces(paras, count, sentences, maxTokens)
  {
    if |paras| > 0 {
      var front := paras[..|paras| - 1];
      FeedAllKeeps(front, count, sentences, maxTokens);
      FeedKeeps(FeedAll(front, count, sentences, maxTokens), paras[|paras| - 1], count, sentences, maxTokens);
    }
  }

  /**
   * The chunks, laid end to end, are exactly the paragraphs in order, each
   * oversized paragraph replaced by its sentences: nothing is dropped,
   * duplicated or reordered. Every chunk is non-empty and fits the token
   * budget unless it is a single oversized piece.
   */
  lemma ChunkPiecesCorrect(paras: seq<string>, count: string -> nat, sentences: string -> seq<string>, maxTokens: nat)
    ensures Flatten(ChunkPieces(paras, count, sentences, maxTokens)) == Pieces(paras, count, sentences, maxTokens)
    ensures forall i :: 0 <= i < |ChunkPieces(paras, count, sentences, maxTokens)| ==>
                          FitsBudget(ChunkPieces(paras, count, sentences, maxTokens)[i], count, maxTokens)
  {
    FeedAllKeeps(paras, count, sentences, maxTokens);
    ClosedKeeps(FeedAll(paras, count, sentences, maxTokens), count, maxTokens);
  }

  /** The paragraphs are the text cut at blank lines; joined back they give the text. */
  lemma ParagraphsRebuildText(text: string)
    ensures Join(SplitOn(text, ParagraphBreak), ParagraphBreak) == text
  {
    SplitJoin(text, ParagraphBreak);
  }

  /** The variables of `chunk_text` hold the chunker state `s`, chunks joined. */
  predicate Mirrors(chunks: seq<string>, currentChunk: seq<string>, currentTokens: int, s: Chunker)
  {
    chunks == JoinEach(s.done) && currentChunk == s.current && currentTokens == s.currentTokens
  }

  lemma JoinEachAppend(gs: seq<seq<string>>, g: seq<string>)
    ensures JoinEach(gs + [g]) == JoinEach(gs) + [Join(g, ParagraphBreak)]
  {
    assert (gs + [g])[..|gs|] == gs;
  }

  /** The body shared by the paragraph and the sentence loops: place one piece. */
  method PlacePiece(chunks: seq<string>, currentChunk: seq<string>, currentTokens: int, p: string,
                    count: string -> nat, maxTokens: nat, ghost s: Chunker)
      returns (chunks': seq<string>, currentChunk': seq<string>, currentTokens': int)
    requires Mirrors(chunks, currentChunk, currentTokens, s)
    ensures Mirrors(chunks', currentChunk', currentTokens', AddPiece(s, p, count, maxTokens))
  {
    var pieceTokens := count(p);
    chunks' := chunks;
    if currentTokens + pieceTokens > maxTokens {
      if |currentChunk| > 0 {
        JoinEachAppend(s.done, s.current);
        chunks' := chunks + [Join(currentChunk, ParagraphBreak)];
      }
      currentChunk' := [p];
      currentTokens' := pieceTokens;
    } else {
      currentChunk' := currentChunk + [p];
      currentTokens' := currentTokens + pieceTokens;
    }
  }

  /** The loop of `chunk_text`, with its inner loop over the sentences of an oversized paragraph. */
  method ChunkTextLoop(text: string, count: string -> nat, sentences: string -> seq<string>, maxTokens: nat)
      returns (chunks: seq<string>)
    ensures chunks == ChunkText(text, count, sentences, maxTokens)
  {
    var paragraphs := SplitOn(text, ParagraphBreak);
    chunks := [];
    var currentChunk: seq<string> := [];
    var currentTokens := 0;
    var i := 0;
    while i < |paragraphs|
      invariant 0 <= i <= |paragraphs|
      invariant Mirrors(chunks, currentChunk, currentTokens, FeedAll(paragraphs[..i], count, sentences, maxTokens))
    {
      FeedAllStep(paragraphs, i, count, sentences, maxTokens);
      chunks, currentChunk, currentTokens := PlaceParagraph(chunks, currentChunk, currentTokens, paragraphs[i],
                                                            count, sentences, maxTokens, FeedAll(paragraphs[..i], count, sentences, maxTokens));
      i := i + 1;
    }
    assert paragraphs[..|paragraphs|] == paragraphs;
    ghost var fed := FeedAll(paragraphs, count, sentences, maxTokens);
    assert ChunkText(text, count, sentences, maxTokens) == JoinEach(Closed(fed));
    if |currentChunk| > 0 {
      JoinEachAppend(fed.done, currentChunk);
      chunks := chunks + [Join(currentChunk, ParagraphBreak)];
    }
  }

  lemma FeedAllStep(paras: seq<string>, i: nat, count: string -> nat, sentences: string -> seq<string>, maxTokens: nat)
    requires i < |paras|
    ensures FeedAll(paras[..i + 1], count, sentences, maxTokens) ==
            Feed(FeedAll(paras[..i], count, sentences, maxTokens), paras[i], count, sentences, maxTokens)
  {
    assert paras[..i + 1][..i] == paras[..i];
  }

  /** One pass of the paragraph loop: an oversized paragraph flushes the current chunk and is placed sentence by sentence. */
  method PlaceParagraph(chunks: seq<string>, currentChunk: seq<string>, currentTokens: int, para: string,
                        count: string -> nat, sentences: string -> seq<string>, maxTokens: nat, ghost s: Chunker)
      returns (chunks': seq<string>, currentChunk': seq<string>, currentTokens': int)
    requires Mirrors(chunks, currentChunk, currentTokens, s)
    ensures Mirrors(chunks', currentChunk', currentTokens', Feed(s, para, count, sentences, maxTokens))
  {
    chunks', currentChunk', currentTokens' := chunks, currentChunk, currentTokens;
    if count(para) > maxTokens {
      if |currentChunk'| > 0 {
        JoinEachAppend(s.done, s.current);
        chunks' := chunks' + [Join(currentChunk', ParagraphBreak)];
        currentChunk' := [];
        currentTokens' := 0;
      }
      chunks', currentChunk', currentTokens' := PlaceSentences(chunks', currentChunk', currentTokens', sentences(para),
                                                               count, maxTokens, Flush(s));
    } else {
      chunks', currentChunk', currentTokens' := PlacePiece(chunks', currentChunk', currentTokens', para, count, maxTokens, s);
    }
  }

  /** `for sentence in sentences`: each sentence placed like a paragraph. */
  method PlaceSentences(chunks: seq<string>, currentChunk: seq<string>, currentTokens: int, ss: seq<string>,
                        count: string -> nat, maxTokens: nat, ghost s: Chunker)
      returns (chunks': seq<string>, currentChunk': seq<string>, currentTokens': int)
    requires Mirrors(chunks, currentChunk, currentTokens, s)
    ensures Mirrors(chunks', currentChunk', currentTokens', AddPieces(s, ss, count, maxTokens))
  {
    chunks', currentChunk', currentTokens' := chunks, currentChunk, currentTokens;
    var j := 0;
    while j < |ss|
      invariant 0 <= j <= |ss|
      invariant Mirrors(chunks', currentChunk', currentTokens', AddPieces(s, ss[..j], count, maxTokens))
    {
      assert ss[..j + 1][..j] == ss[..j];
      chunks', currentChunk', currentTokens' :=
        PlacePiece(chunks', currentChunk', currentTokens', ss[j], count, maxTokens, AddPieces(s, ss[..j], count, maxTokens));
      j := j + 1;
    }
    assert ss[..|ss|] == ss;
  }

  // ---------------------------------------------------------------------
  // Numbering the chunks of a filing

  const SingleChunkLimit := 8000

  datatype ChunkRecord = ChunkRecord(filingId: int, section: string, index: nat, content: string, tokenCount: nat)

  /** A section of at most 8000 tokens is one chunk; a longer one is chunked. */
  function SectionChunks(sectionText: string, count: string -> nat, sentences: string -> seq<string>): seq<string>
  {
    if count(sectionText) > SingleChunkLimit then ChunkText(sectionText, count, sentences, SingleChunkLimit)
    else [sectionText]
  }

  /** `enumerate(chunks)`: the records of one section. */
  function Numbered(filingId: int, section: string, chunks: seq<string>, count: string -> nat): (r: seq<ChunkRecord>)
    ensures |r| == |chunks|
    ensures forall i :: 0 <= i < |r| ==> r[i] == ChunkRecord(filingId, section, i, chunks[i], count(chunks[i]))
  {
    if |chunks| == 0 then []
    else Numbered(filingId, section, chunks[..|chunks| - 1], count) +
         [ChunkRecord(filingId, section, |chunks| - 1, chunks[|chunks| - 1], count(chunks[|chunks| - 1]))]
  }

  /** The records of sections in order, given each section's chunks. */
  function Records(filingId: int, names: seq<string>, lists: seq<seq<string>>, count: string -> nat): seq<ChunkRecord>
    requires |names| == |lists|
  {
    if |names| == 0 then []
    else Records(filingId, names[..|names| - 1], lists[..|lists| - 1], count) +
         Numbered(filingId, names[|names| - 1], lists[|lists| - 1], count)
  }

  lemma RecordsStep(filingId: int, names: seq<string>, lists: seq<seq<string>>, count: string -> nat, i: nat)
    requires |names| == |lists| && i < |names|
    ensures Records(filingId, names[..i + 1], lists[..i + 1], count) ==
            Records(filingId, names[..i], lists[..i], count) + Numbered(filingId, names[i], lists[i], count)
  {
    assert names[..i + 1][..i] == names[..i];
    assert lists[..i + 1][..i] == lists[..i];
  }

  /** The chunks of each section, in dictionary order. */
  function SectionLists(d: Dict, count: string -> nat, sentences: string -> seq<string>): (r: seq<seq<string>>)
    requires forall k :: k in d.keys ==> k in d.values
    ensures |r| == |d.keys|
  {
    seq(|d.keys|, i requires 0 <= i < |d.keys| => SectionChunks(d.values[d.keys[i]], count, sentences))
  }

  /** The chunk records `process_filing` builds from the sections. */
  function FilingChunks(filingId: int, d: Dict, count: string -> nat, sentences: string -> seq<string>): seq<ChunkRecord>
    requires forall k :: k in d.keys ==> k in d.values
  {
    Records(filingId, d.keys, SectionLists(d, count, sentences), count)
  }

  /** The section loop of `process_filing`. */
  method ProcessSections(filingId: int, d: Dict, count: string -> nat, sentences: string -> seq<string>)
      returns (all: seq<ChunkRecord>)
    requires forall k :: k in d.keys ==> k in d.values
    ensures all == FilingChunks(filingId, d, count, sentences)
  {
    ghost var lists := SectionLists(d, count, sentences);
    all := [];
    var i := 0;
    while i < |d.keys|
      invariant 0 <= i <= |d.keys|
      invariant all == Records(filingId, d.keys[..i], lists[..i], count)
    {
      RecordsStep(filingId, d.keys, lists, count, i);
      var name := d.keys[i];
      assert name in d.keys;
      var chunks := ChunkSection(d.values[name], count, sentences);
      assert chunks == lists[i];
      var these := NumberChunks(filingId, name, chunks, count);
      all := all + these;
      i := i + 1;
    }
    assert d.keys[..|d.keys|] == d.keys;
    assert lists[..|lists|] == lists;
  }

  /** A section is chunked only when it is over the single-chunk limit. */
  method ChunkSection(sectionText: string, count: string -> nat, sentences: string -> seq<string>) returns (chunks: seq<string>)
    ensures chunks == SectionChunks(sectionText, count, sentences)
  {
    if count(sectionText) > SingleChunkLimit {
      chunks := ChunkTextLoop(sectionText, count, sentences, SingleChunkLimit);
    } else {
      chunks := [sectionText];
    }
  }

  /** `for idx, chunk in enumerate(chunks)`. */
  method NumberChunks(filingId: int, name: string, chunks: seq<string>, count: string -> nat) returns (these: seq<ChunkRecord>)
    ensures these == Numbered(filingId, name, chunks, count)
  {
    these := [];
    var idx := 0;
    while idx < |chunks|
      invariant 0 <= idx <= |chunks|
      invariant these == Numbered(filingId, name, chunks[..idx], count)
    {
      assert chunks[..idx + 1][..idx] == chunks[..idx];
      these := these + [ChunkRecord(filingId, name, idx, chunks[idx], count(chunks[idx]))];
      idx := idx + 1;
    }
    assert chunks[..|chunks|] == chunks;
  }

  /** How many of the records belong to a section. */
  function CountIn(rs: seq<ChunkRecord>, section: string): nat
  {
    if |rs| == 0 then 0 else CountIn(rs[..|rs| - 1], section) + (if rs[|rs| - 1].section == section then 1 else 0)
  }

  lemma {:induction false} CountInAppend(a: seq<ChunkRecord>, b: seq<ChunkRecord>, section: string)
    ensures CountIn(a + b, section) == CountIn(a, section) + CountIn(b, section)
    decreases |b|
  {
    if |b| == 0 {
      assert a + b == a;
    } else {
      CountInAppend(a, b[..|b| - 1], section);
      assert (a + b)[..|a + b| - 1] == a + b[..|b| - 1];
      assert (a + b)[|a + b| - 1] == b[|b| - 1];
    }
  }

  lemma {:induction false} CountInNumbered(filingId: int, section: string, chunks: seq<string>, count: string -> nat, i: nat)
    requires i <= |chunks|
    ensures CountIn(Numbered(filingId, section, chunks, count)[..i], section) == i
  {
    if i > 0 {
      var r := Numbered(filingId, section, chunks, count);
      CountInNumbered(filingId, section, chunks, count, i - 1);
      assert r[..i][..i - 1] == r[..i - 1];
    }
  }

  lemma {:induction false} CountInOthers(rs: seq<ChunkRecord>, section: string)
    requires forall i :: 0 <= i < |rs| ==> rs[i].section != section
    ensures CountIn(rs, section) == 0
  {
    if |rs| > 0 {
      CountInOthers(rs[..|rs| - 1], section);
    }
  }

  lemma {:induction false} RecordsSections(filingId: int, names: seq<string>, lists: seq<seq<string>>, count: string -> nat)
    requires |names| == |lists|
    ensures forall p :: 0 <= p < |Records(filingId, names, lists, count)| ==>
                          Records(filingId, names, lists, count)[p].section in names
  {
    if |names| > 0 {
      RecordsSections(filingId, names[..|names| - 1], lists[..|lists| - 1], count);
      assert forall k :: k in names[..|names| - 1] ==> k in names;
    }
  }

  /** Every record's index is the number of records of the same section before it. */
  predicate IndexCounts(rs: seq<ChunkRecord>)
  {
    forall p :: 0 <= p < |rs| ==> rs[p].index == CountIn(rs[..p], rs[p].section)
  }

  /**
   * With distinct section names, the chunk index counts from 0 within each
   * section: every record's index is the number of records of the same
   * section before it.
   */
  lemma {:induction false} ChunkIndexCounts(filingId: int, names: seq<string>, lists: seq<seq<string>>, count: string -> nat)
    requires |names| == |lists|
    requires forall i, j :: 0 <= i < j < |names| ==> names[i] != names[j]
    ensures IndexCounts(Records(filingId, names, lists, count))
  {
    if |names| > 0 {
      var front := names[..|names| - 1];
      var k := names[|names| - 1];
      var before := Records(filingId, front, lists[..|lists| - 1], count);
      var block := Numbered(filingId, k, lists[|lists| - 1], count);
      var rs := before + block;
      ChunkIndexCounts(filingId, front, lists[..|lists| - 1], count);
      RecordsSections(filingId, front, lists[..|lists| - 1], count);
      forall q | 0 <= q < |before|
        ensures before[q].section != k
      {
        var m :| 0 <= m < |front| && front[m] == before[q].section;
        assert names[m] == front[m];
      }
      CountInOthers(before, k);
      forall p | 0 <= p < |rs|
        ensures rs[p].index == CountIn(rs[..p], rs[p].section)
      {
        if p < |before| {
          assert rs[p] == before[p];
          assert rs[..p] == before[..p];
          assert IndexCounts(before);
        } else {
          var i := p - |before|;
          assert rs[p] == block[i] && block[i].index == i && block[i].section == k;
          assert rs[..p] == before + block[..i];
          CountInAppend(before, block[..i], k);
          CountInNumbered(filingId, k, lists[|lists| - 1], count, i);
        }
      }
      assert Records(filingId, names, lists, count) == rs;
      assert IndexCounts(rs);
    }
  }

  /** The records of a filing number each section's chunks from 0, the sections being distinct. */
  lemma FilingChunkIndexCounts(filingId: int, d: Dict, count: string -> nat, sentences: string -> seq<string>)
    requires ValidDict(d)
    ensures IndexCounts(FilingChunks(filingId, d, count, sentences))
  {
    assert forall k :: k in d.keys ==> k in d.values;
    var rs := FilingChunks(filingId, d, count, sentences);
    assert rs == Records(filingId, d.keys, SectionLists(d, count, sentences), count);
    ChunkIndexCounts(filingId, d.keys, SectionLists(d, count, sentences), count);
  }

  /** A section of at most 8000 tokens becomes one chunk holding the whole section. */
  lemma SmallSectionOneChunk(sectionText: string, count: string -> nat, sentences: string -> seq<string>)
    requires count(sectionText) <= SingleChunkLimit
    ensures SectionChunks(sectionText, count, sentences) == [sectionText]
  {
  }
}
