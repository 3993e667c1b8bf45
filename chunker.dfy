/** The document chunker of backend/document_processor.py. A document is cut
    into chunks by one of three strategies: fixed-size character windows with
    overlap, greedy packing of whole sentences up to a word budget, or
    paragraphs with long paragraphs cut into word windows.

    Each strategy is specified by a function that gives the texts of the
    chunks; the method that follows the source's loop is proved to build
    exactly the chunks that carry those texts, numbered from 0. */
module Chunker {
  import opened Util
  import opened Text
  import opened Models

  // ----- Chunk construction -----

  /** The id of the chunk numbered `index` of document `docId`. */
  function ChunkId(docId: string, index: nat): string
  {
    docId + "_chunk_" + NatToString(index)
  }

  /** Two chunks of one document with different numbers have different ids. */
  lemma ChunkIdInjective(docId: string, i: nat, j: nat)
    requires ChunkId(docId, i) == ChunkId(docId, j)
    ensures i == j
  {
    var p := docId + "_chunk_";
    assert ChunkId(docId, i)[|p|..] == NatToString(i);
    assert ChunkId(docId, j)[|p|..] == NatToString(j);
    NatToStringInjective(i, j);
  }

  /** `_create_chunk`: the chunk numbered `index` carrying `content`, with the
      document's id and a copy of its metadata. */
  function CreateChunk(doc: Document, content: string, index: nat, strategy: ChunkingStrategy): DocumentChunk
  {
    DocumentChunk(ChunkId(doc.id, index), doc.id, content, doc.metadata, index, strategy)
  }

  /** The chunks that carry `texts`, numbered from 0 in order. */
  function ChunksOf(doc: Document, texts: seq<string>, strategy: ChunkingStrategy): (cs: seq<DocumentChunk>)
    ensures |cs| == |texts|
  {
    if texts == [] then []
    else ChunksOf(doc, texts[..|texts| - 1], strategy) + [CreateChunk(doc, texts[|texts| - 1], |texts| - 1, strategy)]
  }

  lemma ChunksOfSnoc(doc: Document, texts: seq<string>, t: string, strategy: ChunkingStrategy)
    ensures ChunksOf(doc, texts + [t], strategy) == ChunksOf(doc, texts, strategy) + [CreateChunk(doc, t, |texts|, strategy)]
  {
    assert (texts + [t])[..|texts|] == texts;
  }

  /** Chunk `i` carries text `i`, the number `i`, the document's id and
      metadata and the strategy, and no two chunks share an id. */
  lemma {:induction false} ChunksNumbered(doc: Document, texts: seq<string>, strategy: ChunkingStrategy)
    ensures forall i :: 0 <= i < |texts| ==>
      ChunksOf(doc, texts, strategy)[i] == DocumentChunk(ChunkId(doc.id, i), doc.id, texts[i], doc.metadata, i, strategy)
    ensures forall i, j :: 0 <= i < j < |texts| ==> ChunksOf(doc, texts, strategy)[i].id != ChunksOf(doc, texts, strategy)[j].id
  {
    var cs := ChunksOf(doc, texts, strategy);
    if texts != [] {
      var n := |texts| - 1;
      var init := texts[..n];
      ChunksNumbered(doc, init, strategy);
      assert cs == ChunksOf(doc, init, strategy) + [CreateChunk(doc, texts[n], n, strategy)];
      forall i | 0 <= i < |texts|
        ensures cs[i] == DocumentChunk(ChunkId(doc.id, i), doc.id, texts[i], doc.metadata, i, strategy)
      {
        if i < n {
          assert cs[i] == ChunksOf(doc, init, strategy)[i];
          assert init[i] == texts[i];
        }
      }
    }
    forall i, j | 0 <= i < j < |texts| ensures cs[i].id != cs[j].id {
      if cs[i].id == cs[j].id {
        ChunkIdInjective(doc.id, i, j);
      }
    }
  }

  // ----- Stripping the pieces of a split -----

  /** A non-empty text with no whitespace at either end: what `strip`
      leaves of a text that is not blank. */
  predicate Trimmed(s: string)
  {
    s != [] && !IsSpace(s[0]) && !IsSpace(s[|s| - 1])
  }

  /** One piece after `strip`, dropped when nothing is left of it. */
  function StrippedPiece(p: string): seq<string>
  {
    var c := Strip(p);
    if c == [] then [] else [c]
  }

  /** `[p.strip() for p in ps if p.strip()]` */
  function KeepStripped(ps: seq<string>): (r: seq<string>)
    ensures |r| <= |ps|
  {
    if ps == [] then [] else StrippedPiece(ps[0]) + KeepStripped(ps[1..])
  }

  lemma StrippedPieceKept(p: string)
    requires !AllSpace(p)
    ensures StrippedPiece(p) == [Strip(p)]
  {
  }

  lemma StrippedPieceDropped(p: string)
    requires AllSpace(p)
    ensures StrippedPiece(p) == []
  {
  }

  /** What is kept is stripped and not empty. */
  lemma {:induction false} KeepStrippedTrimmed(ps: seq<string>)
    ensures forall i :: 0 <= i < |KeepStripped(ps)| ==> Trimmed(KeepStripped(ps)[i])
  {
    if ps != [] {
      KeepStrippedTrimmed(ps[1..]);
      StripEnds(ps[0]);
    }
  }

  lemma {:induction false} KeepStrippedAppend(a: seq<string>, b: seq<string>)
    ensures KeepStripped(a + b) == KeepStripped(a) + KeepStripped(b)
  {
    if a == [] {
      assert a + b == b;
    } else {
      assert (a + b)[1..] == a[1..] + b;
      KeepStrippedAppend(a[1..], b);
    }
  }

  lemma KeepStrippedSnoc(ps: seq<string>, p: string)
    ensures KeepStripped(ps + [p]) == KeepStripped(ps) + StrippedPiece(p)
  {
    KeepStrippedAppend(ps, [p]);
    assert [p][1..] == [];
  }

  /** Stripping never lengthens a piece. */
  lemma {:induction false} KeepStrippedShort(ps: seq<string>, n: nat)
    requires forall j :: 0 <= j < |ps| ==> |ps[j]| <= n
    ensures forall i :: 0 <= i < |KeepStripped(ps)| ==> |KeepStripped(ps)[i]| <= n
  {
    if ps != [] {
      KeepStrippedShort(ps[1..], n);
      assert |Strip(ps[0])| <= n;
    }
  }

  /** Blank pieces leave nothing. */
  lemma {:induction false} KeepStrippedBlank(ps: seq<string>)
    requires forall j :: 0 <= j < |ps| ==> AllSpace(ps[j])
    ensures KeepStripped(ps) == []
  {
    if ps != [] {
      KeepStrippedBlank(ps[1..]);
      StrippedPieceDropped(ps[0]);
    }
  }

  /** When no piece is blank, every piece is kept, stripped, in order. */
  /** No piece is whitespace only. */
  predicate NoneBlank(ws: seq<string>)
  {
    forall k :: 0 <= k < |ws| ==> !AllSpace(ws[k])
  }

  lemma {:induction false} KeepStrippedNoBlank(ps: seq<string>)
    requires NoneBlank(ps)
    ensures |KeepStripped(ps)| == |ps|
    ensures forall j :: 0 <= j < |ps| ==> KeepStripped(ps)[j] == Strip(ps[j])
  {
    if ps != [] {
      KeepStrippedNoBlank(ps[1..]);
      StrippedPieceKept(ps[0]);
      var r, rt := KeepStripped(ps), KeepStripped(ps[1..]);
      assert r == [Strip(ps[0])] + rt;
      forall j | 0 <= j < |ps| ensures r[j] == Strip(ps[j]) {
        if j > 0 {
          assert r[j] == rt[j - 1];
          assert ps[j] == ps[1..][j - 1];
        }
      }
    }
  }

  // ----- Fixed-size windows (`_chunk_by_fixed_size`) -----

  /** `text[start:start + size]` for each `start` the loop visits from `start`
      on, stepping by `step` while below `len(text)`. */
  function Windows(text: string, size: nat, step: nat, start: nat): seq<string>
    requires step > 0
    decreases |text| - start
  {
    if start >= |text| then []
    else [text[start..Min(start + size, |text|)]] + Windows(text, size, step, start + step)
  }

  /** The texts of the fixed-size chunks: each window stripped, blank
      windows skipped, the next window `size - overlap` further on. */
  function FixedTexts(text: string, size: nat, overlap: nat): seq<string>
    requires overlap < size || text == []
  {
    if text == [] then [] else KeepStripped(Windows(text, size, size - overlap, 0))
  }

  /** One window, then the windows after it. */
  lemma WindowsStep(text: string, size: nat, step: nat, prev: nat, w: string, next: nat)
    requires step > 0 && prev < |text|
    requires w == text[prev..Min(prev + size, |text|)] && next == prev + step
    ensures Windows(text, size, step, prev) == [w] + Windows(text, size, step, next)
  {
  }

  lemma KeepStrippedCons(w: string, rest: seq<string>)
    ensures KeepStripped([w] + rest) == StrippedPiece(w) + KeepStripped(rest)
  {
    assert ([w] + rest)[1..] == rest;
  }

  /** A piece is kept exactly when it strips to something. */
  lemma StrippedPieceCases(p: string, c: string)
    requires c == Strip(p)
    ensures StrippedPiece(p) == if c == [] then [] else [c]
  {
  }

  /** One iteration of the fixed-size loop keeps its invariant: `prev` and
      `texts0` are the start and the texts before the iteration, `start` and
      `texts` after it. */
  lemma FixedStep(text: string, size: nat, step: nat, prev: nat, end: int, start: int,
                  chunkText: string, texts0: seq<string>, texts: seq<string>, target: seq<string>)
    requires step > 0 && prev < |text|
    requires end == prev + size && start == prev + step
    requires texts0 + KeepStripped(Windows(text, size, step, prev)) == target
    requires chunkText == Strip(text[prev..Min(end, |text|)])
    requires chunkText != [] ==> texts == texts0 + [chunkText]
    requires chunkText == [] ==> texts == texts0
    ensures start >= 0
    ensures texts + KeepStripped(Windows(text, size, step, start)) == target
  {
    var w := text[prev..Min(end, |text|)];
    var rest := Windows(text, size, step, start);
    WindowsStep(text, size, step, prev, w, start);
    KeepStrippedCons(w, rest);
    StrippedPieceCases(w, chunkText);
    if chunkText == [] {
      assert texts == texts0 + [];
    }
    AppendShift(texts0, StrippedPiece(w), KeepStripped(rest), target, texts);
  }

  method ChunkByFixedSize(config: ProcessorConfig, doc: Document) returns (chunks: seq<DocumentChunk>)
    requires 1 <= config.chunkSize && 0 <= config.chunkOverlap
    requires config.chunkOverlap < config.chunkSize || doc.content == []
    ensures chunks == ChunksOf(doc, FixedTexts(doc.content, config.chunkSize, config.chunkOverlap), config.strategy)
  {
    var text := doc.content;
    chunks := [];
    var start := 0;
    var chunkIdx := 0;
    ghost var texts: seq<string> := [];
    ghost var target := FixedTexts(text, config.chunkSize, config.chunkOverlap);
    ghost var step := config.chunkSize - config.chunkOverlap;
    while start < |text|
      invariant 0 <= start
      invariant chunkIdx == |texts| && chunks == ChunksOf(doc, texts, config.strategy)
      invariant text == [] ==> texts == []
      invariant text != [] ==> step > 0 && texts + KeepStripped(Windows(text, config.chunkSize, step, start)) == target
      decreases |text| - start
    {
      var end := start + config.chunkSize;
      var chunkText := Strip(text[start..Min(end, |text|)]);
      ghost var prev, texts0 := start, texts;
      if chunkText != [] {
        ChunksOfSnoc(doc, texts, chunkText, config.strategy);
        chunks := chunks + [CreateChunk(doc, chunkText, chunkIdx, config.strategy)];
        texts := texts + [chunkText];
        chunkIdx := chunkIdx + 1;
      }
      start := start + config.chunkSize - config.chunkOverlap;
      FixedStep(text, config.chunkSize, step, prev, end, start, chunkText, texts0, texts, target);
      if start >= |text| {
        break;
      }
    }
    assert texts + [] == texts;
  }

  /** Window `k` starts `k` steps after `start`. */
  lemma {:induction false} WindowAt(text: string, size: nat, step: nat, start: nat, k: nat)
    requires step > 0 && k < |Windows(text, size, step, start)|
    ensures start + Offset(k, step) < |text|
    ensures Windows(text, size, step, start)[k] == text[start + Offset(k, step)..Min(start + Offset(k, step) + size, |text|)]
    decreases k
  {
    if k > 0 {
      WindowAt(text, size, step, start + step, k - 1);
      assert start + step + Offset(k - 1, step) == start + Offset(k, step);
    }
  }

  /** One window per multiple of the step below the text's length. */
  lemma {:induction false} WindowsCount(text: string, size: nat, step: nat, start: nat)
    requires step > 0
    ensures |Windows(text, size, step, start)| == if start >= |text| then 0 else CeilDiv(|text| - start, step)
    decreases |text| - start
  {
    if start < |text| {
      WindowsCount(text, size, step, start + step);
    }
  }

  lemma {:induction false} WindowsShort(text: string, size: nat, step: nat, start: nat)
    requires step > 0
    ensures forall k :: 0 <= k < |Windows(text, size, step, start)| ==> |Windows(text, size, step, start)[k]| <= size
    decreases |text| - start
  {
    if start < |text| {
      WindowsShort(text, size, step, start + step);
    }
  }

  /** Without overlap the windows cut the text into consecutive pieces. */
  lemma {:induction false} WindowsCover(text: string, size: nat, start: nat)
    requires size > 0 && start <= |text|
    ensures Flatten(Windows(text, size, size, start)) == text[start..]
    decreases |text| - start
  {
    if start < |text| {
      var w := text[start..Min(start + size, |text|)];
      if start + size < |text| {
        WindowsCover(text, size, start + size);
        assert text[start..] == w + text[start + size..];
      } else {
        assert Windows(text, size, size, start + size) == [];
        assert w == text[start..];
      }
      FlattenCons(w, Windows(text, size, size, start + size));
    }
  }

  /** Every fixed-size chunk is stripped, non-empty and at most `chunk_size`
      characters long. */
  lemma FixedTextsBounds(text: string, size: nat, overlap: nat)
    requires overlap < size || text == []
    ensures forall i :: 0 <= i < |FixedTexts(text, size, overlap)| ==>
      Trimmed(FixedTexts(text, size, overlap)[i]) && |FixedTexts(text, size, overlap)[i]| <= size
  {
    if text != [] {
      var ws := Windows(text, size, size - overlap, 0);
      WindowsShort(text, size, size - overlap, 0);
      KeepStrippedShort(ws, size);
      KeepStrippedTrimmed(ws);
    }
  }

  /** Where window `k` starts: `k` steps of `step` from 0. */
  function Offset(k: nat, step: nat): nat
  {
    if k == 0 then 0 else Offset(k - 1, step) + step
  }

  /** `k` steps of `step` are `k * step`. */
  lemma {:induction false} OffsetIsProduct(k: nat, step: nat)
    ensures Offset(k, step) == k * step
  {
    if k > 0 {
      OffsetIsProduct(k - 1, step);
      assert (k - 1) * step + step == k * step;
    }
  }

  /** Window `k` of the text starts `k` steps in (`k * step`: `OffsetIsProduct`). */
  lemma WindowAtZero(text: string, size: nat, step: nat, k: nat)
    requires step > 0 && k < |Windows(text, size, step, 0)|
    ensures Offset(k, step) < |text|
    ensures Windows(text, size, step, 0)[k] == text[Offset(k, step)..Min(Offset(k, step) + size, |text|)]
  {
    WindowAt(text, size, step, 0, k);
  }

  /** When no window is blank, chunk `k` is window `k` stripped (window `k`
      starts at `k * (chunk_size - chunk_overlap)`: `WindowAtZero`). */
  lemma FixedTextAt(text: string, size: nat, overlap: nat, k: nat)
    requires overlap < size
    requires NoneBlank(Windows(text, size, size - overlap, 0))
    requires k < |FixedTexts(text, size, overlap)|
    ensures k < |Windows(text, size, size - overlap, 0)|
    ensures FixedTexts(text, size, overlap)[k] == Strip(Windows(text, size, size - overlap, 0)[k])
  {
    FixedTextsNonEmpty(text, size, overlap);
    KeptAt(Windows(text, size, size - overlap, 0), k);
  }

  /** A text with chunks is not empty. */
  lemma FixedTextsNonEmpty(text: string, size: nat, overlap: nat)
    requires overlap < size && FixedTexts(text, size, overlap) != []
    ensures FixedTexts(text, size, overlap) == KeepStripped(Windows(text, size, size - overlap, 0))
  {
  }

  lemma KeptAt(ws: seq<string>, k: nat)
    requires NoneBlank(ws) && k < |KeepStripped(ws)|
    ensures k < |ws| && KeepStripped(ws)[k] == Strip(ws[k])
  {
    KeepStrippedNoBlank(ws);
  }

  /** When no window is blank there are ceil(len(text) / s) chunks for the
      step s = `chunk_size - chunk_overlap`. */
  lemma FixedTextsCount(text: string, size: nat, overlap: nat)
    requires overlap < size
    requires NoneBlank(Windows(text, size, size - overlap, 0))
    ensures |FixedTexts(text, size, overlap)| == CeilDiv(|text|, size - overlap)
  {
    WindowsCount(text, size, size - overlap, 0);
    if text != [] {
      KeepStrippedNoBlank(Windows(text, size, size - overlap, 0));
    }
  }

  /** A blank window of a blank text: slices of whitespace are whitespace. */
  lemma WindowsOfBlank(text: string, size: nat, step: nat)
    requires step > 0 && AllSpace(text)
    ensures forall k :: 0 <= k < |Windows(text, size, step, 0)| ==> AllSpace(Windows(text, size, step, 0)[k])
  {
    forall k | 0 <= k < |Windows(text, size, step, 0)| ensures AllSpace(Windows(text, size, step, 0)[k]) {
      WindowAt(text, size, step, 0, k);
      var a := Offset(k, step);
      var w := text[a..Min(a + size, |text|)];
      forall m | 0 <= m < |w| ensures IsSpace(w[m]) {
        assert w[m] == text[a + m];
      }
    }
  }

  // ----- Sentence packing (`_chunk_by_sentence`) -----

  /** The sentences of `text`: the pieces of `re.split(r"(?<=[.!?])\s+", text)`,
      stripped, without the empty ones. */
  function Sentences(text: string): seq<string>
  {
    KeepStripped(SplitSentences(text))
  }

  /** `len(s.split())` */
  function WordCount(s: string): nat
  {
    |Words(s)|
  }

  /** The words of a group of sentences. */
  function WordTotal(g: seq<string>): nat
  {
    if g == [] then 0 else WordTotal(g[..|g| - 1]) + WordCount(g[|g| - 1])
  }

  /** The state of the packing loop: the groups already emitted as chunks,
      the sentences of the group being filled and its word count. */
  datatype Packing = Packing(closed: seq<seq<string>>, current: seq<string>, length: nat)

  /** One iteration: a sentence that would push a non-empty group over the
      budget closes it and starts the next group; otherwise it joins the
      current group. */
  function PackStep(p: Packing, s: string, size: int): Packing
  {
    var n := WordCount(s);
    if p.length + n > size && p.current != [] then Packing(p.closed + [p.current], [s], n)
    else Packing(p.closed, p.current + [s], p.length + n)
  }

  /** The packing reached from `p` once the sentences `ss` are packed in order. */
  function PackFrom(p: Packing, ss: seq<string>, size: int): Packing
    decreases |ss|
  {
    if ss == [] then p else PackFrom(PackStep(p, ss[0], size), ss[1..], size)
  }

  function Pack(ss: seq<string>, size: int): Packing
  {
    PackFrom(Packing([], [], 0), ss, size)
  }

  /** The groups emitted once every sentence is packed: the closed ones and
      the last one, when not empty. */
  function Groups(p: Packing): seq<seq<string>>
  {
    if p.current == [] then p.closed else p.closed + [p.current]
  }

  /** The sentence groups of a list of sentences under a word budget. */
  function SentenceGroups(ss: seq<string>, size: int): seq<seq<string>>
  {
    Groups(Pack(ss, size))
  }

  /** `" ".join(group)` for each group. */
  function JoinEach(gs: seq<seq<string>>): (ts: seq<string>)
    ensures |ts| == |gs|
    ensures forall j :: 0 <= j < |gs| ==> ts[j] == Join(" ", gs[j])
  {
    if gs == [] then [] else JoinEach(gs[..|gs| - 1]) + [Join(" ", gs[|gs| - 1])]
  }

  /** The texts of the sentence chunks. */
  function SentenceTexts(text: string, size: int): seq<string>
  {
    JoinEach(SentenceGroups(Sentences(text), size))
  }

  lemma WordTotalSnoc(g: seq<string>, x: string)
    ensures WordTotal(g + [x]) == WordTotal(g) + WordCount(x)
  {
    assert (g + [x])[..|g|] == g;
  }

  /** A group fits when it is not empty and holds at most `size` words, or
      is a single sentence that alone is longer. */
  predicate Fits(g: seq<string>, size: int)
  {
    g != [] && (WordTotal(g) <= size || |g| == 1)
  }

  /** Group `j` was started only because its first sentence would have
      pushed group `j - 1` over the budget. */
  predicate ClosedAt(gs: seq<seq<string>>, j: int, size: int)
  {
    0 < j < |gs| && gs[j] != [] && WordTotal(gs[j - 1]) + WordCount(gs[j][0]) > size
  }

  /** The groups of a packing are well formed: each fits, and each but the
      first was started because the previous one was full. */
  predicate GroupsOk(gs: seq<seq<string>>, size: int)
  {
    (forall j :: 0 <= j < |gs| ==> Fits(gs[j], size))
    && (forall j :: 0 < j < |gs| ==> ClosedAt(gs, j, size))
  }

  /** What the packing loop keeps true once the sentences `done` are packed. */
  predicate PackInv(p: Packing, done: seq<string>, size: int)
  {
    Flatten(p.closed) + p.current == done
    && p.length == WordTotal(p.current)
    && (p.current == [] ==> p.closed == [])
    && GroupsOk(Groups(p), size)
  }

  lemma AllFitSnoc(gs: seq<seq<string>>, g: seq<string>, size: int)
    requires forall j :: 0 <= j < |gs| ==> Fits(gs[j], size)
    requires Fits(g, size)
    ensures forall j :: 0 <= j < |gs + [g]| ==> Fits((gs + [g])[j], size)
  {
    var r := gs + [g];
    forall j | 0 <= j < |r| ensures Fits(r[j], size) {
      if j < |gs| {
        assert r[j] == gs[j];
      }
    }
  }

  lemma AllClosedSnoc(gs: seq<seq<string>>, g: seq<string>, size: int)
    requires forall j :: 0 < j < |gs| ==> ClosedAt(gs, j, size)
    requires g != []
    requires gs != [] ==> WordTotal(gs[|gs| - 1]) + WordCount(g[0]) > size
    ensures forall j :: 0 < j < |gs + [g]| ==> ClosedAt(gs + [g], j, size)
  {
    var r := gs + [g];
    forall j | 0 < j < |r| ensures ClosedAt(r, j, size) {
      if j < |gs| {
        assert ClosedAt(gs, j, size);
        assert r[j] == gs[j] && r[j - 1] == gs[j - 1];
      } else {
        assert r[j] == g && r[j - 1] == gs[|gs| - 1];
      }
    }
  }

  lemma GroupsOkSnoc(gs: seq<seq<string>>, g: seq<string>, size: int)
    requires GroupsOk(gs, size) && Fits(g, size)
    requires gs != [] ==> WordTotal(gs[|gs| - 1]) + WordCount(g[0]) > size
    ensures GroupsOk(gs + [g], size)
  {
    AllFitSnoc(gs, g, size);
    AllClosedSnoc(gs, g, size);
  }

  lemma GroupsOkReplaceLast(gs: seq<seq<string>>, g: seq<string>, size: int)
    requires GroupsOk(gs, size) && gs != [] && Fits(g, size)
    requires g[0] == gs[|gs| - 1][0]
    ensures GroupsOk(gs[..|gs| - 1] + [g], size)
  {
    var r := gs[..|gs| - 1] + [g];
    FitsReplaceLast(gs, g, r, size);
    ClosedReplaceLast(gs, g, r, size);
  }

  lemma FitsReplaceLast(gs: seq<seq<string>>, g: seq<string>, r: seq<seq<string>>, size: int)
    requires gs != [] && Fits(g, size) && r == gs[..|gs| - 1] + [g]
    requires forall j :: 0 <= j < |gs| ==> Fits(gs[j], size)
    ensures forall j :: 0 <= j < |r| ==> Fits(r[j], size)
  {
    forall j | 0 <= j < |r| ensures Fits(r[j], size) {
      if j < |gs| - 1 {
        assert r[j] == gs[j];
      } else {
        assert r[j] == g;
      }
    }
  }

  lemma ClosedReplaceLast(gs: seq<seq<string>>, g: seq<string>, r: seq<seq<string>>, size: int)
    requires gs != [] && g != [] && gs[|gs| - 1] != [] && g[0] == gs[|gs| - 1][0]
    requires r == gs[..|gs| - 1] + [g]
    requires forall j :: 0 < j < |gs| ==> ClosedAt(gs, j, size)
    ensures forall j :: 0 < j < |r| ==> ClosedAt(r, j, size)
  {
    var n := |gs| - 1;
    forall j | 0 < j < |r| ensures ClosedAt(r, j, size) {
      assert r[j - 1] == gs[j - 1];
      if j < n {
        assert r[j] == gs[j];
      } else {
        assert r[j] == g;
      }
      ClosedAtSame(gs, r, j, size);
    }
  }

  /** Whether group `j` was closed depends only on group `j - 1` and the
      first sentence of group `j`. */
  lemma ClosedAtSame(gs: seq<seq<string>>, r: seq<seq<string>>, j: int, size: int)
    requires ClosedAt(gs, j, size) && j < |r|
    requires r[j - 1] == gs[j - 1] && r[j] != [] && r[j][0] == gs[j][0]
    ensures ClosedAt(r, j, size)
  {
  }

  lemma FlattenOne<T>(x: seq<T>)
    ensures Flatten([x]) == x
  {
    assert [x][..0] == [];
  }

  lemma PackStepClose(p: Packing, done: seq<string>, x: string, size: int)
    requires PackInv(p, done, size)
    requires p.length + WordCount(x) > size && p.current != []
    ensures PackInv(PackStep(p, x, size), done + [x], size)
  {
    var q := Packing(p.closed + [p.current], [x], WordCount(x));
    assert PackStep(p, x, size) == q;
    WordTotalSnoc([], x);
    assert [] + [x] == [x];
    FlattenAppend(p.closed, [p.current]);
    FlattenOne(p.current);
    assert Flatten(q.closed) + q.current == done + [x];
    var gs := p.closed + [p.current];
    assert Groups(p) == gs;
    GroupsOkSnoc(gs, [x], size);
    assert Groups(q) == gs + [[x]];
  }

  lemma PackStepFirst(p: Packing, done: seq<string>, x: string, size: int)
    requires PackInv(p, done, size)
    requires p.current == []
    ensures PackInv(PackStep(p, x, size), done + [x], size)
  {
    var q := Packing([], [x], WordCount(x));
    assert PackStep(p, x, size) == q;
    WordTotalSnoc([], x);
    assert [] + [x] == [x];
    assert Groups(q) == [[x]];
    GroupsOkSnoc([], [x], size);
    assert Flatten(q.closed) + q.current == done + [x];
  }

  lemma ExtendGroupsOk(p: Packing, x: string, size: int)
    requires GroupsOk(Groups(p), size) && p.current != []
    requires WordTotal(p.current + [x]) <= size
    ensures GroupsOk(p.closed + [p.current + [x]], size)
  {
    var gs := p.closed + [p.current];
    assert Groups(p) == gs;
    assert gs[..|gs| - 1] == p.closed && gs[|gs| - 1] == p.current;
    assert (p.current + [x])[0] == p.current[0];
    GroupsOkReplaceLast(gs, p.current + [x], size);
  }

  lemma PackStepExtend(p: Packing, done: seq<string>, x: string, size: int)
    requires PackInv(p, done, size)
    requires p.length + WordCount(x) <= size && p.current != []
    ensures PackInv(PackStep(p, x, size), done + [x], size)
  {
    var q := Packing(p.closed, p.current + [x], p.length + WordCount(x));
    assert PackStep(p, x, size) == q;
    WordTotalSnoc(p.current, x);
    AppendAssoc(Flatten(p.closed), p.current, [x]);
    ExtendGroupsOk(p, x, size);
    assert Groups(q) == p.closed + [p.current + [x]];
  }

  /** Packing one more sentence keeps the invariant. */
  lemma PackStepInv(p: Packing, done: seq<string>, x: string, size: int)
    requires PackInv(p, done, size)
    ensures PackInv(PackStep(p, x, size), done + [x], size)
  {
    if p.current == [] {
      PackStepFirst(p, done, x, size);
    } else if p.length + WordCount(x) > size {
      PackStepClose(p, done, x, size);
    } else {
      PackStepExtend(p, done, x, size);
    }
  }

  /** Packing the rest of the sentences keeps the invariant. */
  lemma {:induction false} PackFromInv(p: Packing, done: seq<string>, ss: seq<string>, size: int)
    requires PackInv(p, done, size)
    ensures PackInv(PackFrom(p, ss, size), done + ss, size)
    decreases |ss|
  {
    if ss == [] {
      assert done + ss == done;
    } else {
      var q, d := PackStep(p, ss[0], size), done + [ss[0]];
      assert d + ss[1..] == done + ss;
      assert PackFrom(p, ss, size) == PackFrom(q, ss[1..], size);
      PackStepInv(p, done, ss[0], size);
      PackFromInv(q, d, ss[1..], size);
    }
  }

  /** The sentence groups hold every sentence once, in order, and are well
      formed. */
  lemma SentenceGroupsSpec(ss: seq<string>, size: int)
    ensures Flatten(SentenceGroups(ss, size)) == ss
    ensures GroupsOk(SentenceGroups(ss, size), size)
  {
    var p := Pack(ss, size);
    assert PackInv(Packing([], [], 0), [], size);
    PackFromInv(Packing([], [], 0), [], ss, size);
    assert [] + ss == ss;
    if p.current != [] {
      FlattenAppend(p.closed, [p.current]);
      FlattenOne(p.current);
    }
  }

  /** The words of sentences joined by a space are the words of each sentence
      in turn. */
  lemma {:induction false} WordCountJoin(g: seq<string>)
    ensures WordCount(Join(" ", g)) == WordTotal(g)
    decreases |g|
  {
    if |g| == 1 {
      JoinSingle(" ", g[0]);
      assert g == [] + [g[0]];
      WordTotalSnoc([], g[0]);
    } else if |g| > 1 {
      var init, x := g[..|g| - 1], g[|g| - 1];
      assert g == init + [x];
      JoinSnoc(" ", init, x);
      WordsAppendSep(Join(" ", init), x);
      WordCountJoin(init);
      WordTotalSnoc(init, x);
    }
  }

  /** Each sentence chunk holds at most `chunk_size` words, unless it is a
      single sentence that alone is longer; a chunk was closed only because
      the next sentence would not fit; and the chunks hold the sentences of
      the text, in order, each once. */
  lemma SentenceTextsSpec(text: string, size: int)
    ensures var gs := SentenceGroups(Sentences(text), size);
      && |SentenceTexts(text, size)| == |gs|
      && Flatten(gs) == Sentences(text)
      && forall j :: 0 <= j < |gs| ==>
           SentenceTexts(text, size)[j] == Join(" ", gs[j]) && gs[j] != []
           && (WordCount(SentenceTexts(text, size)[j]) <= size || |gs[j]| == 1)
  {
    var gs := SentenceGroups(Sentences(text), size);
    SentenceGroupsSpec(Sentences(text), size);
    forall j | 0 <= j < |gs| ensures WordCount(Join(" ", gs[j])) == WordTotal(gs[j]) {
      WordCountJoin(gs[j]);
    }
  }

  lemma {:induction false} FlattenHas<T>(gs: seq<seq<T>>, j: nat, k: nat)
    requires j < |gs| && k < |gs[j]|
    ensures gs[j][k] in Flatten(gs)
  {
    var init := gs[..|gs| - 1];
    assert Flatten(gs) == Flatten(init) + gs[|gs| - 1];
    if j < |gs| - 1 {
      assert gs[j] == init[j];
      FlattenHas(init, j, k);
    } else {
      assert gs[j][k] == Flatten(gs)[|Flatten(init)| + k];
    }
  }

  /** Groups of one element each flatten to their elements, in order. */
  lemma {:induction false} FlattenSingletons<T>(gs: seq<seq<T>>)
    requires forall j :: 0 <= j < |gs| ==> |gs[j]| == 1
    ensures |Flatten(gs)| == |gs|
    ensures forall j :: 0 <= j < |gs| ==> Flatten(gs)[j] == gs[j][0]
  {
    if gs != [] {
      var init := gs[..|gs| - 1];
      FlattenSingletons(init);
      assert Flatten(gs) == Flatten(init) + gs[|gs| - 1];
      forall j | 0 <= j < |gs| ensures Flatten(gs)[j] == gs[j][0] {
        if j < |gs| - 1 {
          assert gs[j] == init[j];
        }
      }
    }
  }

  lemma {:induction false} WordTotalAtLeast(g: seq<string>)
    requires forall k :: 0 <= k < |g| ==> WordCount(g[k]) >= 1
    ensures WordTotal(g) >= |g|
  {
    if g != [] {
      WordTotalAtLeast(g[..|g| - 1]);
    }
  }

  /** A trimmed text has at least one word. */
  lemma TrimmedHasWords(s: string)
    requires Trimmed(s)
    ensures WordCount(s) >= 1
  {
    WordsEmptyIff(s);
  }

  /** Under a budget of at most one word, well-formed groups of sentences
      that each have a word hold one sentence each. */
  lemma SingleSentenceGroups(gs: seq<seq<string>>, size: int)
    requires size <= 1 && GroupsOk(gs, size)
    requires forall x :: x in Flatten(gs) ==> WordCount(x) >= 1
    ensures forall j :: 0 <= j < |gs| ==> |gs[j]| == 1
  {
    forall j | 0 <= j < |gs| ensures |gs[j]| == 1 {
      assert Fits(gs[j], size);
      forall k | 0 <= k < |gs[j]| ensures WordCount(gs[j][k]) >= 1 {
        FlattenHas(gs, j, k);
      }
      WordTotalAtLeast(gs[j]);
    }
  }

  /** With a budget of at most one word, every sentence is a chunk of its
      own: the chunks are the sentences. */
  lemma SentenceTextsOneEach(text: string, size: int)
    requires size <= 1
    ensures SentenceTexts(text, size) == Sentences(text)
  {
    KeepStrippedTrimmed(SplitSentences(text));
    var ss := Sentences(text);
    var gs := SentenceGroups(ss, size);
    SingletonGroups(ss, size);
    JoinSingletons(gs);
  }

  /** Under a budget of at most one word, stripped non-empty sentences are
      grouped one per group. */
  lemma SingletonGroups(ss: seq<string>, size: int)
    requires size <= 1
    requires forall i :: 0 <= i < |ss| ==> Trimmed(ss[i])
    ensures forall j :: 0 <= j < |SentenceGroups(ss, size)| ==> |SentenceGroups(ss, size)[j]| == 1
    ensures Flatten(SentenceGroups(ss, size)) == ss
  {
    var gs := SentenceGroups(ss, size);
    SentenceGroupsSpec(ss, size);
    forall x | x in Flatten(gs) ensures WordCount(x) >= 1 {
      var k :| 0 <= k < |ss| && ss[k] == x;
      TrimmedHasWords(ss[k]);
    }
    SingleSentenceGroups(gs, size);
  }

  /** Joining one-element groups gives their elements. */
  lemma JoinSingletons(gs: seq<seq<string>>)
    requires forall j :: 0 <= j < |gs| ==> |gs[j]| == 1
    ensures JoinEach(gs) == Flatten(gs)
  {
    FlattenSingletons(gs);
    var ts := JoinEach(gs);
    forall j | 0 <= j < |gs| ensures ts[j] == Flatten(gs)[j] {
      assert gs[j] == [gs[j][0]];
      JoinSingle(" ", gs[j][0]);
    }
  }

  /** One iteration of the sentence loop over the raw pieces: a piece that
      strips to nothing leaves the packing as it is, any other is packed. */
  lemma SentenceAdvance(raw: seq<string>, i: nat, size: int, p: Packing, sentence: string, target: Packing)
    requires i < |raw|
    requires PackFrom(p, KeepStripped(raw[i..]), size) == target
    requires sentence == Strip(raw[i])
    ensures sentence == [] ==> PackFrom(p, KeepStripped(raw[i + 1..]), size) == target
    ensures sentence != [] ==> PackFrom(PackStep(p, sentence, size), KeepStripped(raw[i + 1..]), size) == target
  {
    assert raw[i..][1..] == raw[i + 1..];
    var ks, after := KeepStripped(raw[i..]), KeepStripped(raw[i + 1..]);
    if sentence == [] {
      assert ks == [] + after == after;
    } else {
      assert ks == [sentence] + after;
      assert ks[1..] == after;
    }
  }

  /** Emitting the group being filled adds its chunk after the others. */
  lemma EmitGroup(doc: Document, strategy: ChunkingStrategy, closed: seq<seq<string>>, current: seq<string>, chunks: seq<DocumentChunk>)
    requires chunks == ChunksOf(doc, JoinEach(closed), strategy)
    ensures chunks + [CreateChunk(doc, Join(" ", current), |closed|, strategy)]
         == ChunksOf(doc, JoinEach(closed + [current]), strategy)
  {
    assert (closed + [current])[..|closed|] == closed;
    assert JoinEach(closed + [current]) == JoinEach(closed) + [Join(" ", current)];
    ChunksOfSnoc(doc, JoinEach(closed), Join(" ", current), strategy);
  }

  method ChunkBySentence(config: ProcessorConfig, doc: Document) returns (chunks: seq<DocumentChunk>)
    ensures chunks == ChunksOf(doc, SentenceTexts(doc.content, config.chunkSize), config.strategy)
  {
    var sentences := SplitSentences(doc.content);
    chunks := [];
    var currentChunkSentences: seq<string> := [];
    var currentLength: nat := 0;
    var chunkIdx := 0;
    ghost var closed: seq<seq<string>> := [];
    ghost var target := Pack(KeepStripped(sentences), config.chunkSize);
    for i := 0 to |sentences|
      invariant PackFrom(Packing(closed, currentChunkSentences, currentLength), KeepStripped(sentences[i..]), config.chunkSize) == target
      invariant chunkIdx == |closed| && chunks == ChunksOf(doc, JoinEach(closed), config.strategy)
    {
      var sentence := Strip(sentences[i]);
      SentenceAdvance(sentences, i, config.chunkSize, Packing(closed, currentChunkSentences, currentLength), sentence, target);
      if sentence == [] {
        continue;
      }
      var sentenceLength := |Words(sentence)|;
      ghost var next := PackStep(Packing(closed, currentChunkSentences, currentLength), sentence, config.chunkSize);
      if currentLength + sentenceLength > config.chunkSize && currentChunkSentences != [] {
        EmitGroup(doc, config.strategy, closed, currentChunkSentences, chunks);
        chunks := chunks + [CreateChunk(doc, Join(" ", currentChunkSentences), chunkIdx, config.strategy)];
        closed := closed + [currentChunkSentences];
        chunkIdx := chunkIdx + 1;
        currentChunkSentences := [sentence];
        currentLength := sentenceLength;
        assert Packing(closed, currentChunkSentences, currentLength) == next;
      } else {
        currentChunkSentences := currentChunkSentences + [sentence];
        currentLength := currentLength + sentenceLength;
        assert Packing(closed, currentChunkSentences, currentLength) == next;
      }
    }
    assert sentences[|sentences|..] == [];
    if currentChunkSentences != [] {
      EmitGroup(doc, config.strategy, closed, currentChunkSentences, chunks);
      chunks := chunks + [CreateChunk(doc, Join(" ", currentChunkSentences), chunkIdx, config.strategy)];
    }
  }

  // ----- Paragraphs (`_chunk_by_paragraph`) -----

  /** The paragraphs of `text`: the pieces of `text.split("\n\n")`,
      stripped, without the empty ones. */
  function Paragraphs(text: string): seq<string>
  {
    KeepStripped(SplitOn(text, "\n\n"))
  }

  /** `" ".join(words[i:i + size])` for each `i` of `range(start, len(words), size)`. */
  function WordPiecesFrom(words: seq<string>, size: nat, start: nat): seq<string>
    requires size > 0
    decreases |words| - start
  {
    if start >= |words| then []
    else [Join(" ", words[start..Min(start + size, |words|)])] + WordPiecesFrom(words, size, start + size)
  }

  /** The chunk texts of one paragraph: the paragraph itself when it has at
      most `size` words, else its words in runs of `size`. */
  function ParagraphPieces(para: string, size: nat): seq<string>
    requires size > 0
  {
    if |Words(para)| > size then WordPiecesFrom(Words(para), size, 0) else [para]
  }

  /** The chunk texts of the paragraphs `ps`, in order. */
  function PiecesOf(ps: seq<string>, size: nat): seq<string>
    requires size > 0
  {
    if ps == [] then [] else ParagraphPieces(ps[0], size) + PiecesOf(ps[1..], size)
  }

  /** The texts of the paragraph chunks. */
  function ParagraphTexts(text: string, size: nat): seq<string>
    requires size > 0
  {
    PiecesOf(Paragraphs(text), size)
  }

  /** The next run of words, and the runs after it. */
  lemma WordPiecesNext(words: seq<string>, size: nat, start: nat)
    requires size > 0 && start < |words|
    ensures WordPiecesFrom(words, size, start)
         == [Join(" ", words[start..Min(start + size, |words|)])] + WordPiecesFrom(words, size, start + size)
  {
  }

  lemma WordPiecesNextAt(words: seq<string>, size: nat, start: nat, t: string, next: nat)
    requires size > 0 && start < |words|
    requires t == Join(" ", words[start..Min(start + size, |words|)]) && next == start + size
    ensures WordPiecesFrom(words, size, start) == [t] + WordPiecesFrom(words, size, next)
  {
  }

  lemma PiecesOfNext(ps: seq<string>, k: nat, size: nat)
    requires size > 0 && k < |ps|
    ensures PiecesOf(ps[k..], size) == ParagraphPieces(ps[k], size) + PiecesOf(ps[k + 1..], size)
  {
    assert ps[k..][1..] == ps[k + 1..];
  }

  /** A short paragraph is its own chunk; a long one is cut into runs. */
  lemma ParagraphPiecesCases(para: string, size: nat, words: seq<string>)
    requires size > 0 && words == Words(para)
    ensures |words| > size ==> ParagraphPieces(para, size) == WordPiecesFrom(words, size, 0)
    ensures |words| <= size ==> ParagraphPieces(para, size) == [para]
  {
  }

  /** The words of each text in turn. */
  function WordsOf(ts: seq<string>): seq<string>
  {
    if ts == [] then [] else Words(ts[0]) + WordsOf(ts[1..])
  }

  lemma {:induction false} WordsOfAppend(a: seq<string>, b: seq<string>)
    ensures WordsOf(a + b) == WordsOf(a) + WordsOf(b)
  {
    if a == [] {
      assert a + b == b;
    } else {
      var ab := a + b;
      assert ab[0] == a[0];
      assert ab[1..] == a[1..] + b;
      WordsOfAppend(a[1..], b);
      assert WordsOf(ab) == Words(a[0]) + WordsOf(a[1..] + b);
      AppendAssoc(Words(a[0]), WordsOf(a[1..]), WordsOf(b));
    }
  }

  /** A run of a long paragraph's words, joined by spaces, splits back into
      the run. */
  lemma RunWords(words: seq<string>, a: nat, b: nat)
    requires a <= b <= |words| && AllWords(words)
    ensures Words(Join(" ", words[a..b])) == words[a..b]
  {
    var run := words[a..b];
    forall m | 0 <= m < |run| ensures run[m] != [] && NoSpace(run[m]) {
      assert run[m] == words[a + m];
    }
    WordsOfJoin(run);
  }

  /** A long paragraph gives ceil(words / size) runs. */
  lemma {:induction false} WordPiecesCount(words: seq<string>, size: nat, start: nat)
    requires size > 0
    ensures |WordPiecesFrom(words, size, start)| == (if start >= |words| then 0 else CeilDiv(|words| - start, size))
    decreases |words| - start
  {
    if start < |words| {
      WordPiecesNext(words, size, start);
      WordPiecesCount(words, size, start + size);
    }
  }

  lemma WordsOfCons(t: string, rest: seq<string>)
    ensures WordsOf([t] + rest) == Words(t) + WordsOf(rest)
  {
    assert ([t] + rest)[1..] == rest;
  }

  /** The next run's words, and the words of the runs after it. */
  lemma WordPiecesWordsStep(words: seq<string>, size: nat, start: nat)
    requires size > 0 && AllWords(words) && start < |words|
    ensures WordsOf(WordPiecesFrom(words, size, start))
         == words[start..Min(start + size, |words|)] + WordsOf(WordPiecesFrom(words, size, start + size))
  {
    WordPiecesNext(words, size, start);
    WordsOfCons(Join(" ", words[start..Min(start + size, |words|)]), WordPiecesFrom(words, size, start + size));
    RunWords(words, start, Min(start + size, |words|));
  }

  /** A run followed by the later runs covers the words from `start` on. */
  lemma WordPiecesWordsMiddle(words: seq<string>, start: nat, next: nat, here: seq<string>, later: seq<string>)
    requires start <= next < |words|
    requires here == words[start..next] + later
    requires later == words[next..]
    ensures here == words[start..]
  {
    DropSplit(words, start, next);
  }

  /** The last run covers the words from `start` on. */
  lemma WordPiecesWordsLast(words: seq<string>, size: nat, start: nat)
    requires size > 0 && AllWords(words) && start < |words| <= start + size
    ensures WordsOf(WordPiecesFrom(words, size, start)) == words[start..]
  {
    WordPiecesWordsStep(words, size, start);
    assert WordPiecesFrom(words, size, start + size) == [];
    assert WordsOf(WordPiecesFrom(words, size, start + size)) == [];
    var run := words[start..Min(start + size, |words|)];
    assert run == words[start..];
    assert run + [] == run;
  }

  /** The runs hold the paragraph's words from `start` on, in order. */
  lemma {:induction false} WordPiecesWords(words: seq<string>, size: nat, start: nat)
    requires size > 0 && AllWords(words) && start < |words|
    ensures WordsOf(WordPiecesFrom(words, size, start)) == words[start..]
    decreases |words| - start
  {
    if start + size < |words| {
      var next := start + size;
      WordPiecesWords(words, size, next);
      WordPiecesWordsStep(words, size, start);
      assert Min(start + size, |words|) == next;
      WordPiecesWordsMiddle(words, start, next, WordsOf(WordPiecesFrom(words, size, start)),
                            WordsOf(WordPiecesFrom(words, size, next)));
    } else {
      WordPiecesWordsLast(words, size, start);
    }
  }

  /** Each text has between one and `size` words. */
  predicate RunsWithin(ts: seq<string>, size: nat)
  {
    forall k :: 0 <= k < |ts| ==> 1 <= WordCount(ts[k]) <= size
  }

  lemma WithinAppend(a: seq<string>, b: seq<string>, size: nat)
    requires RunsWithin(a, size) && RunsWithin(b, size)
    ensures RunsWithin(a + b, size)
  {
    forall k | 0 <= k < |a + b| ensures 1 <= WordCount((a + b)[k]) <= size {
      if k < |a| {
        assert (a + b)[k] == a[k];
      } else {
        assert (a + b)[k] == b[k - |a|];
      }
    }
  }

  lemma WordPiecesSizesStep(words: seq<string>, size: nat, start: nat, next: nat)
    requires size > 0 && AllWords(words) && start < |words| && next == start + size
    requires RunsWithin(WordPiecesFrom(words, size, next), size)
    ensures RunsWithin(WordPiecesFrom(words, size, start), size)
  {
    var t := Join(" ", words[start..Min(start + size, |words|)]);
    assert WordPiecesFrom(words, size, start) == [t] + WordPiecesFrom(words, size, next);
    RunWords(words, start, Min(start + size, |words|));
    assert WordCount([t][0]) == Min(start + size, |words|) - start;
    assert RunsWithin([t], size);
    WithinAppend([t], WordPiecesFrom(words, size, next), size);
  }

  lemma {:induction false} WordPiecesSizes(words: seq<string>, size: nat, start: nat)
    requires size > 0 && AllWords(words)
    ensures RunsWithin(WordPiecesFrom(words, size, start), size)
    decreases |words| - start
  {
    if start < |words| {
      var next := start + size;
      WordPiecesSizes(words, size, next);
      WordPiecesSizesStep(words, size, start, next);
    }
  }




  lemma ParagraphPiecesLongWords(para: string, size: nat)
    requires size > 0 && |Words(para)| > size
    ensures WordsOf(ParagraphPieces(para, size)) == Words(para)
  {
    var ws := Words(para);
    assert ws[0..] == ws;
    WordPiecesWords(ws, size, 0);
  }

  lemma ParagraphPiecesLongSizes(para: string, size: nat)
    requires size > 0 && |Words(para)| > size
    ensures RunsWithin(ParagraphPieces(para, size), size)
  {
    WordPiecesSizes(Words(para), size, 0);
  }

  lemma OnePieceWords(para: string)
    ensures WordsOf([para]) == Words(para)
  {
    WordsOfCons(para, []);
    assert [para] + [] == [para];
  }

  lemma OnePieceWithin(para: string, size: nat)
    requires 1 <= WordCount(para) <= size
    ensures RunsWithin([para], size)
  {
  }

  lemma ParagraphPiecesShort(para: string, size: nat)
    requires size > 0 && Trimmed(para) && |Words(para)| <= size
    ensures WordsOf(ParagraphPieces(para, size)) == Words(para)
    ensures RunsWithin(ParagraphPieces(para, size), size)
  {
    TrimmedHasWords(para);
    assert ParagraphPieces(para, size) == [para];
    OnePieceWords(para);
    OnePieceWithin(para, size);
  }

  /** The chunk texts of one non-blank paragraph hold its words, in order,
      between one and `size` of them each. */
  lemma ParagraphPiecesSpec(para: string, size: nat)
    requires size > 0 && Trimmed(para)
    ensures WordsOf(ParagraphPieces(para, size)) == Words(para)
    ensures RunsWithin(ParagraphPieces(para, size), size)
  {
    if |Words(para)| > size {
      ParagraphPiecesLongWords(para, size);
      ParagraphPiecesLongSizes(para, size);
    } else {
      ParagraphPiecesShort(para, size);
    }
  }

  /** A paragraph of at most `size` words is one chunk, verbatim; a longer
      one is ceil(words / size) chunks. */
  lemma ParagraphPiecesCount(para: string, size: nat)
    requires size > 0
    ensures |Words(para)| <= size ==> ParagraphPieces(para, size) == [para]
    ensures |Words(para)| > size ==> |ParagraphPieces(para, size)| == CeilDiv(|Words(para)|, size)
  {
    var words := Words(para);
    ParagraphPiecesCases(para, size, words);
    if |words| > size {
      WordPiecesCountAll(words, size);
    }
  }

  lemma WordPiecesCountAll(words: seq<string>, size: nat)
    requires size > 0 && words != []
    ensures |WordPiecesFrom(words, size, 0)| == CeilDiv(|words|, size)
  {
    WordPiecesCount(words, size, 0);
    assert |words| - 0 == |words|;
  }

  /** The paragraph chunks hold the words of the paragraphs, in order:
      nothing is lost, repeated or reordered. */
  lemma {:induction false} PiecesOfWords(ps: seq<string>, size: nat)
    requires size > 0
    requires forall j :: 0 <= j < |ps| ==> Trimmed(ps[j])
    ensures WordsOf(PiecesOf(ps, size)) == WordsOf(ps)
  {
    if ps != [] {
      PiecesOfWords(ps[1..], size);
      ParagraphPiecesSpec(ps[0], size);
      WordsOfAppend(ParagraphPieces(ps[0], size), PiecesOf(ps[1..], size));
    }
  }

  /** Every paragraph chunk holds between one and `chunk_size` words. */
  lemma {:induction false} PiecesOfSizes(ps: seq<string>, size: nat)
    requires size > 0
    requires forall j :: 0 <= j < |ps| ==> Trimmed(ps[j])
    ensures RunsWithin(PiecesOf(ps, size), size)
  {
    if ps != [] {
      PiecesOfSizes(ps[1..], size);
      ParagraphPiecesSpec(ps[0], size);
      WithinAppend(ParagraphPieces(ps[0], size), PiecesOf(ps[1..], size), size);
    }
  }

  lemma ParagraphTextsSpec(text: string, size: nat)
    requires size > 0
    ensures WordsOf(ParagraphTexts(text, size)) == WordsOf(Paragraphs(text))
    ensures forall k :: 0 <= k < |ParagraphTexts(text, size)| ==> 1 <= WordCount(ParagraphTexts(text, size)[k]) <= size
  {
    KeepStrippedTrimmed(SplitOn(text, "\n\n"));
    PiecesOfWords(Paragraphs(text), size);
    PiecesOfSizes(Paragraphs(text), size);
  }

  /** Texts of one word each hold as many words as there are texts. */
  lemma {:induction false} WordsOfSingles(ts: seq<string>)
    requires forall k :: 0 <= k < |ts| ==> WordCount(ts[k]) == 1
    ensures |WordsOf(ts)| == |ts|
  {
    if ts != [] {
      WordsOfSingles(ts[1..]);
    }
  }

  /** With a budget of one word, there is one paragraph chunk per word of
      the paragraphs. */
  lemma ParagraphTextsOneEach(text: string)
    ensures |ParagraphTexts(text, 1)| == |WordsOf(Paragraphs(text))|
  {
    ParagraphTextsSpec(text, 1);
    WordsOfSingles(ParagraphTexts(text, 1));
  }

  /** One iteration of the fallback loop keeps its invariant: `i`, `done`
      and `chunks` are the state before it, `next`, `done'` and `chunks'`
      after it. */
  lemma WordRunStep(doc: Document, strategy: ChunkingStrategy, words: seq<string>, size: nat, i: nat,
                    done: seq<string>, chunks: seq<DocumentChunk>, target: seq<string>,
                    t: string, next: nat, done': seq<string>, chunks': seq<DocumentChunk>)
    requires size > 0 && i < |words|
    requires chunks == ChunksOf(doc, done, strategy)
    requires done + WordPiecesFrom(words, size, i) == target
    requires t == Join(" ", words[i..Min(i + size, |words|)]) && next == i + size
    requires done' == done + [t] && chunks' == chunks + [CreateChunk(doc, t, |done|, strategy)]
    ensures chunks' == ChunksOf(doc, done', strategy)
    ensures done' + WordPiecesFrom(words, size, next) == target
  {
    WordPiecesNextAt(words, size, i, t, next);
    AppendShift(done, [t], WordPiecesFrom(words, size, next), target, done');
    ChunksOfSnoc(doc, done, t, strategy);
  }

  /** The fallback for a paragraph longer than `chunk_size` words: one chunk
      per run of `chunk_size` words, numbered on from the chunks already made. */
  method ChunkWords(doc: Document, strategy: ChunkingStrategy, size: int, words: seq<string>,
                    ghost texts: seq<string>, chunks0: seq<DocumentChunk>, chunkIdx0: nat)
      returns (chunks: seq<DocumentChunk>, chunkIdx: nat)
    requires 1 <= size
    requires chunkIdx0 == |texts| && chunks0 == ChunksOf(doc, texts, strategy)
    ensures chunkIdx == |texts + WordPiecesFrom(words, size, 0)|
    ensures chunks == ChunksOf(doc, texts + WordPiecesFrom(words, size, 0), strategy)
  {
    chunks := chunks0;
    chunkIdx := chunkIdx0;
    ghost var done := texts;
    ghost var target := texts + WordPiecesFrom(words, size, 0);
    var i := 0;
    while i < |words|
      invariant 0 <= i
      invariant chunkIdx == |done| && chunks == ChunksOf(doc, done, strategy)
      invariant done + WordPiecesFrom(words, size, i) == target
      decreases |words| - i
    {
      var chunkText := Join(" ", words[i..Min(i + size, |words|)]);
      ghost var i0, done0, chunks0 := i, done, chunks;
      chunks := chunks + [CreateChunk(doc, chunkText, chunkIdx, strategy)];
      done := done + [chunkText];
      chunkIdx := chunkIdx + 1;
      i := i + size;
      WordRunStep(doc, strategy, words, size, i0, done0, chunks0, target, chunkText, i, done, chunks);
    }
    assert done + [] == done;
  }

  method ChunkByParagraph(config: ProcessorConfig, doc: Document) returns (chunks: seq<DocumentChunk>)
    requires 1 <= config.chunkSize
    ensures chunks == ChunksOf(doc, ParagraphTexts(doc.content, config.chunkSize), config.strategy)
  {
    var paragraphs := Paragraphs(doc.content);
    chunks := [];
    var chunkIdx := 0;
    ghost var texts: seq<string> := [];
    ghost var target := ParagraphTexts(doc.content, config.chunkSize);
    assert paragraphs[0..] == paragraphs;
    for k := 0 to |paragraphs|
      invariant chunkIdx == |texts| && chunks == ChunksOf(doc, texts, config.strategy)
      invariant texts + PiecesOf(paragraphs[k..], config.chunkSize) == target
    {
      var para := paragraphs[k];
      ghost var later := PiecesOf(paragraphs[k + 1..], config.chunkSize);
      PiecesOfNext(paragraphs, k, config.chunkSize);
      ghost var pieces := ParagraphPieces(para, config.chunkSize);
      AppendAssoc(texts, pieces, later);
      var words := Words(para);
      ParagraphPiecesCases(para, config.chunkSize, words);
      if |words| > config.chunkSize {
        chunks, chunkIdx := ChunkWords(doc, config.strategy, config.chunkSize, words, texts, chunks, chunkIdx);
      } else {
        ChunksOfSnoc(doc, texts, para, config.strategy);
        chunks := chunks + [CreateChunk(doc, para, chunkIdx, config.strategy)];
        chunkIdx := chunkIdx + 1;
      }
      texts := texts + pieces;
    }
    assert texts + [] == texts;
  }

  // ----- Dispatch (`process_document`) -----

  /** The texts of the chunks under the configured strategy. */
  function ChunkTexts(config: ProcessorConfig, text: string): seq<string>
    requires 1 <= config.chunkSize && 0 <= config.chunkOverlap
    requires config.strategy == Fixed ==> config.chunkOverlap < config.chunkSize || text == []
  {
    match config.strategy
    case Fixed => FixedTexts(text, config.chunkSize, config.chunkOverlap)
    case Sentence => SentenceTexts(text, config.chunkSize)
    case Paragraph => ParagraphTexts(text, config.chunkSize)
  }

  /** `process_document`: the chunks of the configured strategy. The source
      raises for a strategy outside its table, but the table has an entry for
      every member of the enumeration. A fixed-size configuration must have
      its overlap below its size, or the source's loop never ends. */
  method ProcessDocument(config: ProcessorConfig, doc: Document) returns (chunks: seq<DocumentChunk>)
    requires config.Valid()
    requires config.strategy == Fixed ==> config.chunkOverlap < config.chunkSize || doc.content == []
    ensures chunks == ChunksOf(doc, ChunkTexts(config, doc.content), config.strategy)
  {
    match config.strategy
    case Fixed =>
      chunks := ChunkByFixedSize(config, doc);
    case Sentence =>
      chunks := ChunkBySentence(config, doc);
    case Paragraph =>
      chunks := ChunkByParagraph(config, doc);
  }

  /** Every sentence chunk has at least one word. */
  lemma SentenceTextsHaveWords(text: string, size: int)
    ensures forall j :: 0 <= j < |SentenceTexts(text, size)| ==> WordCount(SentenceTexts(text, size)[j]) >= 1
  {
    var ss := Sentences(text);
    var gs := SentenceGroups(ss, size);
    SentenceTextsSpec(text, size);
    KeepStrippedTrimmed(SplitSentences(text));
    forall j | 0 <= j < |gs| ensures WordCount(Join(" ", gs[j])) >= 1 {
      forall k | 0 <= k < |gs[j]| ensures WordCount(gs[j][k]) >= 1 {
        FlattenHas(gs, j, k);
        var m :| 0 <= m < |ss| && ss[m] == gs[j][k];
        TrimmedHasWords(ss[m]);
      }
      WordTotalAtLeast(gs[j]);
      WordCountJoin(gs[j]);
    }
  }

  /** Every chunk text of every strategy has at least one word: no chunk is
      empty or blank. */
  lemma ChunkTextsHaveWords(config: ProcessorConfig, text: string)
    requires 1 <= config.chunkSize && 0 <= config.chunkOverlap
    requires config.strategy == Fixed ==> config.chunkOverlap < config.chunkSize || text == []
    ensures forall j :: 0 <= j < |ChunkTexts(config, text)| ==> WordCount(ChunkTexts(config, text)[j]) >= 1
  {
    var ts := ChunkTexts(config, text);
    match config.strategy
    case Fixed =>
      FixedTextsBounds(text, config.chunkSize, config.chunkOverlap);
      forall j | 0 <= j < |ts| ensures WordCount(ts[j]) >= 1 {
        TrimmedHasWords(ts[j]);
      }
    case Sentence =>
      SentenceTextsHaveWords(text, config.chunkSize);
    case Paragraph =>
      ParagraphTextsSpec(text, config.chunkSize);
  }

  /** Empty or whitespace-only content gives no chunks, whatever the
      strategy. */
  lemma ChunkTextsBlank(config: ProcessorConfig, text: string)
    requires 1 <= config.chunkSize && 0 <= config.chunkOverlap
    requires config.strategy == Fixed ==> config.chunkOverlap < config.chunkSize || text == []
    requires AllSpace(text)
    ensures ChunkTexts(config, text) == []
  {
    match config.strategy
    case Fixed =>
      if text != [] {
        var step := config.chunkSize - config.chunkOverlap;
        WindowsOfBlank(text, config.chunkSize, step);
        KeepStrippedBlank(Windows(text, config.chunkSize, step, 0));
      }
    case Sentence =>
      AllSpaceNoBreak(text);
      KeepStrippedBlank(SplitSentences(text));
      assert Sentences(text) == [];
    case Paragraph =>
      SplitOnBlank(text, "\n\n");
      KeepStrippedBlank(SplitOn(text, "\n\n"));
  }

  /** The chunks `process_document` returns: chunk `i` is numbered `i`, has
      the id "{document id}_chunk_{i}", the document's id and metadata, the
      configured strategy, and a text with at least one word; ids are
      unique. */
  lemma ProcessedChunks(config: ProcessorConfig, doc: Document)
    requires config.Valid()
    requires config.strategy == Fixed ==> config.chunkOverlap < config.chunkSize || doc.content == []
    ensures var ts := ChunkTexts(config, doc.content);
      var cs := ChunksOf(doc, ts, config.strategy);
      && |cs| == |ts|
      && (forall i :: 0 <= i < |cs| ==>
            cs[i].id == doc.id + "_chunk_" + NatToString(i) && cs[i].chunkIndex == i
            && cs[i].documentId == doc.id && cs[i].metadata == doc.metadata
            && cs[i].strategy == config.strategy && cs[i].content == ts[i]
            && WordCount(cs[i].content) >= 1)
      && (forall i, j :: 0 <= i < j < |cs| ==> cs[i].id != cs[j].id)
  {
    ChunksNumbered(doc, ChunkTexts(config, doc.content), config.strategy);
    ChunkTextsHaveWords(config, doc.content);
  }

  // ----- The fixed-size loop with an overlap not below the size -----

  /** The value of `start` after `n` iterations of the fixed-size loop as
      written: each iteration adds `chunk_size - chunk_overlap`, whatever
      its sign. */
  function FixedStartAfter(size: int, overlap: int, n: nat): int
  {
    if n == 0 then 0 else FixedStartAfter(size, overlap, n - 1) + (size - overlap)
  }

  /** As written: the configuration accepts an overlap not below the size
      (chunk_size 32 with the default overlap 50, say), and then `start`
      never moves past 0, so on a non-empty text neither the loop test nor
      the `break` ever ends the loop. */
  lemma {:induction false} FixedLoopNeverEnds(size: int, overlap: int, text: string, n: nat)
    requires overlap >= size && text != []
    ensures 1 <= size <= 4096 && overlap >= 0 ==> MakeProcessorConfig(size, overlap, Fixed).Success?
    ensures FixedStartAfter(size, overlap, n) <= 0 < |text|
  {
    if n > 0 {
      FixedLoopNeverEnds(size, overlap, text, n - 1);
    }
  }

  /** Corrected: a configuration that also rejects an overlap not below the
      size makes `start` advance by at least one each iteration, so the loop
      ends within `len(text)` iterations; such configurations are exactly
      the ones `ProcessDocument` accepts for the fixed strategy. */
  lemma {:induction false} CheckedConfigAdvances(size: int, overlap: int, strategy: ChunkingStrategy, n: nat)
    requires MakeCheckedProcessorConfig(size, overlap, strategy).Success?
    ensures FixedStartAfter(size, overlap, n) >= n
    ensures MakeCheckedProcessorConfig(size, overlap, strategy).value.Valid()
    ensures MakeCheckedProcessorConfig(size, overlap, strategy).value.chunkOverlap
          < MakeCheckedProcessorConfig(size, overlap, strategy).value.chunkSize
  {
    if n > 0 {
      CheckedConfigAdvances(size, overlap, strategy, n - 1);
    }
  }
}
