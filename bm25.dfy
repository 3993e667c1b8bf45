/** The keyword retriever of backend/automl/retrievers/bm25_retriever.py.
    The BM25 index itself belongs to the `rank_bm25` library: the model keeps
    the tokenized corpus the index is built from, and takes the scores the
    index gives a query, and the descending order of those scores that
    `argsort` computes, as inputs. */
module Bm25 {
  import opened Util
  import opened Text
  import opened Models
  import opened Retrieval

  /** The tokenizer: lower-case, then split on whitespace. */
  function Tokenize(s: string): seq<string>
  {
    Words(Lower(s))
  }

  /** The tokenizer keeps whitespace-free non-empty tokens and drops no
      letter: joining the tokens of a text with single spaces and tokenizing
      again gives the same tokens. */
  lemma TokenizeSpec(s: string)
    ensures AllWords(Tokenize(s))
    ensures Words(Join(" ", Tokenize(s))) == Tokenize(s)
    ensures Tokenize(s) == [] <==> AllSpace(Lower(s))
  {
    WordsOfJoin(Tokenize(s));
    WordsEmptyIff(Lower(s));
  }

  /** `[f(d.content) for d in docs]`, with `f` a parameter so that the
      facts below hold whatever `f` computes. */
  function MapContent<T>(f: string -> T, docs: seq<Document>): (ts: seq<T>)
    ensures |ts| == |docs|
  {
    if docs == [] then [] else MapContent(f, docs[..|docs| - 1]) + [f(docs[|docs| - 1].content)]
  }

  /** The element at position i is `f` of document i's content. */
  lemma {:induction false} MapContentAt<T>(f: string -> T, docs: seq<Document>)
    ensures forall i :: 0 <= i < |docs| ==> MapContent(f, docs)[i] == f(docs[i].content)
  {
    if docs != [] {
      var init := docs[..|docs| - 1];
      MapContentAt(f, init);
      var ts := MapContent(f, docs);
      assert ts == MapContent(f, init) + [f(docs[|docs| - 1].content)];
      forall i | 0 <= i < |docs| ensures ts[i] == f(docs[i].content) {
        if i < |init| {
          assert docs[i] == init[i];
        }
      }
    }
  }

  lemma MapContentSnoc<T>(f: string -> T, docs: seq<Document>, d: Document)
    ensures MapContent(f, docs + [d]) == MapContent(f, docs) + [f(d.content)]
  {
    assert (docs + [d])[..|docs|] == docs;
  }

  lemma {:induction false} MapContentAppend<T>(f: string -> T, a: seq<Document>, b: seq<Document>)
    ensures MapContent(f, a + b) == MapContent(f, a) + MapContent(f, b)
    decreases |b|
  {
    if b == [] {
      assert a + b == a;
    } else {
      var init, d := b[..|b| - 1], b[|b| - 1];
      MapContentAppend(f, a, init);
      InitLast(a, b, init, d);
      MapContentSnoc(f, a + init, d);
      MapContentSnoc(f, init, d);
      AppendAssoc(MapContent(f, a), MapContent(f, init), [f(d.content)]);
    }
  }

  /** The tokens of each document, in order. */
  function TokenizeAll(docs: seq<Document>): (ts: seq<seq<string>>)
    ensures |ts| == |docs|
  {
    MapContent(Tokenize, docs)
  }

  /** The token list at position i is the tokens of document i. */
  lemma TokenizeAllAt(docs: seq<Document>)
    ensures forall i :: 0 <= i < |docs| ==> TokenizeAll(docs)[i] == Tokenize(docs[i].content)
  {
    MapContentAt(Tokenize, docs);
  }

  /** `order` is what `np.argsort(scores)[::-1]` can return: every index of
      `scores` exactly once, best score first. Ties may come in any order. */
  predicate IsDescendingArgsort(order: seq<nat>, scores: seq<real>)
  {
    |order| == |scores|
    && (forall i :: 0 <= i < |order| ==> order[i] < |scores|)
    && (forall i, j :: 0 <= i < j < |order| ==> order[i] != order[j])
    && (forall i, j :: 0 <= i < j < |order| ==> scores[order[i]] >= scores[order[j]])
  }

  /** The result dictionary for a document and its score. */
  function Bm25Hit(doc: Document, score: real): Hit
  {
    Hit(doc, score, "bm25", HitMetadata(map[]))
  }

  /** The hits for the candidate indices `top`, in order, keeping only the
      documents with a positive score. */
  function HitsFor(docs: seq<Document>, scores: seq<real>, top: seq<nat>): seq<Hit>
    requires |scores| == |docs|
    requires forall i :: 0 <= i < |top| ==> top[i] < |docs|
  {
    if top == [] then []
    else
      var idx := top[|top| - 1];
      HitsFor(docs, scores, top[..|top| - 1]) + (if scores[idx] > 0.0 then [Bm25Hit(docs[idx], scores[idx])] else [])
  }

  /** One more candidate adds its hit when its score is positive. */
  lemma HitsForStep(docs: seq<Document>, scores: seq<real>, top: seq<nat>, k: nat, n: nat, before: seq<Hit>, after: seq<Hit>)
    requires |scores| == |docs|
    requires forall i :: 0 <= i < |top| ==> top[i] < |docs|
    requires n == k + 1 <= |top|
    requires before == HitsFor(docs, scores, top[..k])
    requires scores[top[k]] > 0.0 ==> after == before + [Bm25Hit(docs[top[k]], scores[top[k]])]
    requires scores[top[k]] <= 0.0 ==> after == before
    ensures after == HitsFor(docs, scores, top[..n])
  {
    var t := top[..n];
    assert t[..k] == top[..k];
    assert t[k] == top[k];
    if scores[top[k]] <= 0.0 {
      assert after == before + [];
    }
  }

  /** What `retrieve` returns for an index holding `docs`, given the
      index's scores and their descending order. */
  function Expected(docs: seq<Document>, scores: seq<real>, order: seq<nat>, topK: nat): seq<Hit>
    requires |scores| == |docs| && IsDescendingArgsort(order, scores)
  {
    if docs == [] then [] else HitsFor(docs, scores, Prefix(order, topK))
  }

  /** The loop of `retrieve` over the candidate indices `top`: a hit for
      each candidate with a positive score, in order. */
  method HitsLoop(docs: seq<Document>, scores: seq<real>, top: seq<nat>) returns (results: seq<Hit>)
    requires |scores| == |docs|
    requires forall i :: 0 <= i < |top| ==> top[i] < |docs|
    ensures results == HitsFor(docs, scores, top)
  {
    results := [];
    var i := 0;
    while i < |top|
      invariant 0 <= i <= |top|
      invariant results == HitsFor(docs, scores, top[..i])
    {
      ghost var k := i;
      ghost var before := results;
      var idx := top[i];
      if scores[idx] > 0.0 {
        results := results + [Bm25Hit(docs[idx], scores[idx])];
      }
      i := i + 1;
      HitsForStep(docs, scores, top, k, i, before, results);
    }
    assert top[..i] == top;
  }

  /** At most one hit per candidate, each for the document at that candidate
      index, carrying its positive score, in candidate order. */
  lemma {:induction false} HitsForSpec(docs: seq<Document>, scores: seq<real>, top: seq<nat>)
    requires |scores| == |docs|
    requires forall i :: 0 <= i < |top| ==> top[i] < |docs|
    ensures |HitsFor(docs, scores, top)| <= |top|
    ensures forall k :: 0 <= k < |HitsFor(docs, scores, top)| ==>
      HitsFor(docs, scores, top)[k].score > 0.0
      && HitsFor(docs, scores, top)[k].retriever == "bm25"
      && HitsFor(docs, scores, top)[k].document in docs
  {
    if top != [] {
      var idx := top[|top| - 1];
      var prev := HitsFor(docs, scores, top[..|top| - 1]);
      HitsForSpec(docs, scores, top[..|top| - 1]);
      if scores[idx] > 0.0 {
        var hs := prev + [Bm25Hit(docs[idx], scores[idx])];
        assert HitsFor(docs, scores, top) == hs;
        forall k | 0 <= k < |hs| ensures hs[k].score > 0.0 && hs[k].retriever == "bm25" && hs[k].document in docs {
          if k < |prev| {
            assert hs[k] == prev[k];
          }
        }
      } else {
        assert HitsFor(docs, scores, top) == prev + [];
        assert prev + [] == prev;
      }
    }
  }

  /** Every hit for candidates whose scores are all at least `lo` scores at
      least `lo`. */
  lemma {:induction false} HitsForAtLeast(docs: seq<Document>, scores: seq<real>, top: seq<nat>, lo: real)
    requires |scores| == |docs|
    requires forall i :: 0 <= i < |top| ==> top[i] < |docs| && scores[top[i]] >= lo
    ensures ScoresAtLeast(HitsFor(docs, scores, top), lo)
  {
    if top != [] {
      var idx := top[|top| - 1];
      var prev := HitsFor(docs, scores, top[..|top| - 1]);
      HitsForAtLeast(docs, scores, top[..|top| - 1], lo);
      var tail: seq<Hit> := if scores[idx] > 0.0 then [Bm25Hit(docs[idx], scores[idx])] else [];
      assert HitsFor(docs, scores, top) == prev + tail;
      forall k | 0 <= k < |prev + tail| ensures (prev + tail)[k].score >= lo {
        if k < |prev| {
          assert (prev + tail)[k] == prev[k];
        }
      }
    }
  }

  /** Candidates in descending score order give hits in descending score
      order. */
  lemma {:induction false} HitsForSorted(docs: seq<Document>, scores: seq<real>, top: seq<nat>)
    requires |scores| == |docs|
    requires forall i :: 0 <= i < |top| ==> top[i] < |docs|
    requires forall i, j :: 0 <= i < j < |top| ==> scores[top[i]] >= scores[top[j]]
    ensures SortedDesc(HitsFor(docs, scores, top))
  {
    if top != [] {
      var idx := top[|top| - 1];
      var init := top[..|top| - 1];
      var prev := HitsFor(docs, scores, init);
      HitsForSorted(docs, scores, init);
      if scores[idx] > 0.0 {
        forall i | 0 <= i < |init| ensures init[i] < |docs| && scores[init[i]] >= scores[idx] {
          assert init[i] == top[i];
        }
        HitsForAtLeast(docs, scores, init, scores[idx]);
        SortedSnoc(prev, Bm25Hit(docs[idx], scores[idx]));
      } else {
        assert HitsFor(docs, scores, top) == prev + [];
        assert prev + [] == prev;
      }
    }
  }

  /** `retrieve` returns at most `top_k` hits, each with a positive score and
      a stored document, best first; nothing when the index is empty. */
  lemma ExpectedSpec(docs: seq<Document>, scores: seq<real>, order: seq<nat>, topK: nat)
    requires |scores| == |docs| && IsDescendingArgsort(order, scores)
    ensures docs == [] ==> Expected(docs, scores, order, topK) == []
    ensures |Expected(docs, scores, order, topK)| <= topK
    ensures SortedDesc(Expected(docs, scores, order, topK))
    ensures forall k :: 0 <= k < |Expected(docs, scores, order, topK)| ==>
      Expected(docs, scores, order, topK)[k].score > 0.0
      && Expected(docs, scores, order, topK)[k].retriever == "bm25"
      && Expected(docs, scores, order, topK)[k].document in docs
  {
    if docs != [] {
      var top := Prefix(order, topK);
      forall i | 0 <= i < |top| ensures top[i] < |docs| {
        assert top[i] == order[i];
      }
      forall i, j | 0 <= i < j < |top| ensures scores[top[i]] >= scores[top[j]] {
        assert top[i] == order[i] && top[j] == order[j];
      }
      HitsForSpec(docs, scores, top);
      HitsForSorted(docs, scores, top);
    }
  }

  /** `h` is the hit of one of the candidates `top`. */
  predicate CandidateHit(h: Hit, docs: seq<Document>, scores: seq<real>, top: seq<nat>)
  {
    exists j :: 0 <= j < |top| && top[j] < |docs| && top[j] < |scores| && h == Bm25Hit(docs[top[j]], scores[top[j]])
  }

  /** Every hit is the stored document of a candidate with its score. */
  lemma {:induction false} HitsForFrom(docs: seq<Document>, scores: seq<real>, top: seq<nat>)
    requires |scores| == |docs|
    requires forall i :: 0 <= i < |top| ==> top[i] < |docs|
    ensures forall k :: 0 <= k < |HitsFor(docs, scores, top)| ==> CandidateHit(HitsFor(docs, scores, top)[k], docs, scores, top)
  {
    if top != [] {
      var init, idx := top[..|top| - 1], top[|top| - 1];
      var prev := HitsFor(docs, scores, init);
      HitsForFrom(docs, scores, init);
      var tail: seq<Hit> := if scores[idx] > 0.0 then [Bm25Hit(docs[idx], scores[idx])] else [];
      assert HitsFor(docs, scores, top) == prev + tail;
      forall k | 0 <= k < |prev + tail| ensures CandidateHit((prev + tail)[k], docs, scores, top) {
        if k < |prev| {
          var j :| 0 <= j < |init| && init[j] < |docs| && init[j] < |scores| && prev[k] == Bm25Hit(docs[init[j]], scores[init[j]]);
          assert top[j] == init[j];
          assert (prev + tail)[k] == prev[k];
        } else {
          assert top[|top| - 1] == idx;
        }
      }
    }
  }

  /** Every candidate with a positive score has its hit. */
  lemma {:induction false} HitsForHas(docs: seq<Document>, scores: seq<real>, top: seq<nat>)
    requires |scores| == |docs|
    requires forall i :: 0 <= i < |top| ==> top[i] < |docs|
    ensures forall j :: 0 <= j < |top| && scores[top[j]] > 0.0 ==> Bm25Hit(docs[top[j]], scores[top[j]]) in HitsFor(docs, scores, top)
  {
    if top != [] {
      var init, idx := top[..|top| - 1], top[|top| - 1];
      var prev := HitsFor(docs, scores, init);
      HitsForHas(docs, scores, init);
      var tail: seq<Hit> := if scores[idx] > 0.0 then [Bm25Hit(docs[idx], scores[idx])] else [];
      assert HitsFor(docs, scores, top) == prev + tail;
      forall j | 0 <= j < |top| && scores[top[j]] > 0.0 ensures Bm25Hit(docs[top[j]], scores[top[j]]) in prev + tail {
        if j < |init| {
          assert top[j] == init[j];
          assert Bm25Hit(docs[init[j]], scores[init[j]]) in prev;
        } else {
          assert (prev + tail)[|prev|] == Bm25Hit(docs[idx], scores[idx]);
        }
      }
    }
  }

  /** With every candidate scoring above zero, there is a hit per
      candidate. */
  lemma {:induction false} HitsForAllPositive(docs: seq<Document>, scores: seq<real>, top: seq<nat>)
    requires |scores| == |docs|
    requires forall i :: 0 <= i < |top| ==> top[i] < |docs| && scores[top[i]] > 0.0
    ensures |HitsFor(docs, scores, top)| == |top|
  {
    if top != [] {
      var init := top[..|top| - 1];
      forall i | 0 <= i < |init| ensures init[i] < |docs| && scores[init[i]] > 0.0 {
        assert init[i] == top[i];
      }
      HitsForAllPositive(docs, scores, init);
    }
  }

  /** A descending argsort lists every index. */
  lemma ArgsortCovers(order: seq<nat>, scores: seq<real>, i: nat)
    requires IsDescendingArgsort(order, scores) && i < |scores|
    ensures exists p :: 0 <= p < |order| && order[p] == i
  {
    if i !in order {
      var inOrder := set x: nat | x in order;
      var rest := Range(|scores|) - {i};
      DistinctCard(order);
      assert |rest| == |scores| - 1;
      assert |inOrder| == |scores|;
      assert inOrder <= rest;
      SubsetCard(inOrder, rest);
      assert false;
    }
  }

  /** Each returned hit is the stored document at one of the first `top_k`
      positions of the argsort, with that document's score. */
  lemma ExpectedSound(docs: seq<Document>, scores: seq<real>, order: seq<nat>, topK: nat)
    requires |scores| == |docs| && IsDescendingArgsort(order, scores)
    ensures forall k :: 0 <= k < |Expected(docs, scores, order, topK)| ==>
      CandidateHit(Expected(docs, scores, order, topK)[k], docs, scores, Prefix(order, topK))
  {
    if docs != [] {
      var top := Prefix(order, topK);
      forall i | 0 <= i < |top| ensures top[i] < |docs| {
        assert top[i] == order[i];
      }
      HitsForFrom(docs, scores, top);
    }
  }

  /** Every document with a positive score is returned, unless `top_k`
      hits are returned that all score at least as much. */
  lemma ExpectedComplete(docs: seq<Document>, scores: seq<real>, order: seq<nat>, topK: nat, i: nat)
    requires |scores| == |docs| && IsDescendingArgsort(order, scores)
    requires i < |docs| && scores[i] > 0.0
    ensures Bm25Hit(docs[i], scores[i]) in Expected(docs, scores, order, topK)
      || (|Expected(docs, scores, order, topK)| == topK && ScoresAtLeast(Expected(docs, scores, order, topK), scores[i]))
  {
    var top := Prefix(order, topK);
    forall k | 0 <= k < |top| ensures top[k] == order[k] && top[k] < |docs| {
    }
    ArgsortCovers(order, scores, i);
    var p :| 0 <= p < |order| && order[p] == i;
    if p < topK {
      assert top[p] == i;
      HitsForHas(docs, scores, top);
    } else {
      assert |top| == topK;
      forall k | 0 <= k < |top| ensures top[k] < |docs| && scores[top[k]] >= scores[i] {
        assert top[k] == order[k];
      }
      HitsForAtLeast(docs, scores, top, scores[i]);
      HitsForAllPositive(docs, scores, top);
    }
  }

  /** The index after a batch: a new index of the batch's tokens, or the
      old one extended by them, is the tokenization of all documents. */
  lemma IndexGrows(docs0: seq<Document>, batch: seq<Document>, index0: Option<seq<seq<string>>>, tokenized: seq<seq<string>>)
    requires index0.None? <==> docs0 == []
    requires index0.Some? ==> index0.value == TokenizeAll(docs0)
    requires tokenized == TokenizeAll(batch)
    ensures (if index0.None? then tokenized else index0.value + tokenized) == TokenizeAll(docs0 + batch)
  {
    if index0.None? {
      AppendEmpty(docs0, batch);
    } else {
      MapContentAppend(Tokenize, docs0, batch);
    }
  }

  class BM25Retriever {
    /** The documents added so far, in order. */
    var documents: seq<Document>
    /** Their ids. */
    var docIds: seq<string>
    /** The BM25 index, as the tokenized corpus it was built from; `None`
        until the first non-empty batch. */
    var index: Option<seq<seq<string>>>

    ghost predicate Valid()
      reads this
    {
      docIds == Ids(documents)
      && (index.None? <==> documents == [])
      && (index.Some? ==> index.value == TokenizeAll(documents))
    }

    constructor()
      ensures Valid()
      ensures documents == [] && docIds == [] && index == None
    {
      documents := [];
      docIds := [];
      index := None;
    }

    /** The loop of `add_documents`: each document of the batch is
        tokenized and appended, with its id, in order. */
    method AppendBatch(batch: seq<Document>) returns (tokenized: seq<seq<string>>)
      requires docIds == Ids(documents)
      modifies this`documents, this`docIds
      ensures tokenized == TokenizeAll(batch)
      ensures documents == old(documents) + batch
      ensures docIds == Ids(documents)
    {
      ghost var docs0 := documents;
      tokenized := [];
      var i := 0;
      while i < |batch|
        invariant 0 <= i <= |batch|
        invariant tokenized == TokenizeAll(batch[..i])
        invariant documents == docs0 + batch[..i]
        invariant docIds == Ids(documents)
      {
        ghost var k := i;
        ghost var prevDocs := documents;
        var d := batch[i];
        tokenized := tokenized + [Tokenize(d.content)];
        documents := documents + [d];
        docIds := docIds + [d.id];
        i := i + 1;
        TakeSnoc(batch, k, i);
        MapContentSnoc(Tokenize, batch[..k], d);
        IdsSnoc(prevDocs, d);
        AppendAssoc(docs0, batch[..k], [d]);
      }
      TakeAll(batch, i);
    }

    /** `add_documents`: an empty batch changes nothing; otherwise the batch
        is appended to the documents, its ids to the ids, and its tokens to
        the index, in order. */
    method AddDocuments(batch: seq<Document>)
      requires Valid()
      modifies this
      ensures Valid()
      ensures documents == old(documents) + batch
      ensures docIds == old(docIds) + Ids(batch)
      ensures batch == [] ==> index == old(index)
    {
      if batch == [] {
        return;
      }
      ghost var docs0 := documents;
      var tokenized := AppendBatch(batch);
      IdsAppend(docs0, batch);
      IndexGrows(docs0, batch, index, tokenized);
      index := Some(if index.None? then tokenized else index.value + tokenized);
    }

    /** `retrieve`: `scores` are the index's scores for the query's tokens
        and `order` their descending argsort. */
    method Retrieve(query: string, topK: nat, scores: seq<real>, order: seq<nat>) returns (results: seq<Hit>)
      requires Valid()
      requires |scores| == |documents| && IsDescendingArgsort(order, scores)
      ensures results == Expected(documents, scores, order, topK)
    {
      if index.None? || documents == [] {
        return [];
      }
      var top := Prefix(order, topK);
      forall k | 0 <= k < |top| ensures top[k] < |documents| {
        assert top[k] == order[k];
      }
      results := HitsLoop(documents, scores, top);
    }

    /** `clear`: drops the index and every document. */
    method Clear()
      modifies this
      ensures Valid()
      ensures documents == [] && docIds == [] && index == None
    {
      index := None;
      documents := [];
      docIds := [];
    }
  }
}
