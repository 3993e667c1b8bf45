/** The hybrid retriever of backend/automl/retrievers/hybrid_retriever.py:
    it owns a BM25 and a FAISS retriever, feeds both every batch, and fuses
    their results as module Fusion specifies. */
module Hybrid {
  import opened Util
  import opened Models
  import opened Retrieval
  import opened Fusion
  import Bm25
  import Faiss

  /** One more iteration of a merge loop. */
  lemma FoldStep(m: Merged, hs: seq<Hit>, s: Signal, k: nat, n: nat)
    requires n == k + 1 <= |hs|
    ensures Fold(m, hs[..n], s) == AddHit(Fold(m, hs[..k], s), hs[k], s)
  {
    assert hs[..n][..k] == hs[..k];
    assert hs[..n][k] == hs[k];
  }

  /** One more iteration of the scoring loop. */
  lemma FuseStep(m: Merged, keys: seq<string>, sc: Scaling, threshold: real, k: nat, n: nat, before: seq<Hit>, after: seq<Hit>)
    requires Known(m, keys) && sc.Valid()
    requires n == k + 1 <= |keys|
    requires before == Fuse(m, keys[..k], sc, threshold)
    requires sc.Score(m.entries[keys[k]]) >= threshold ==>
      after == before + [FusedHit(m.entries[keys[k]], sc.Score(m.entries[keys[k]]))]
    requires sc.Score(m.entries[keys[k]]) < threshold ==> after == before
    ensures Known(m, keys[..n]) && after == Fuse(m, keys[..n], sc, threshold)
  {
    var t := keys[..n];
    assert t[..k] == keys[..k];
    assert t[k] == keys[k];
    if sc.Score(m.entries[keys[k]]) < threshold {
      assert after == before + [];
    }
  }

  /** The first iteration of a merge loop over a hit whose id is new. */
  lemma AddHitNew(r: Merged, h: Hit, s: Signal, order: seq<string>, entries: map<string, Entry>)
    requires h.document.id !in r.entries
    requires order == r.order + [h.document.id]
    requires entries == r.entries[h.document.id := Entry(0.0, 0.0, h.document).With(s, h.score)]
    ensures Merged(order, entries) == AddHit(r, h, s)
  {
  }

  /** An iteration of a merge loop over a hit whose id is known. */
  lemma AddHitKnown(r: Merged, h: Hit, s: Signal, entries: map<string, Entry>)
    requires h.document.id in r.entries
    requires entries == r.entries[h.document.id := r.entries[h.document.id].With(s, h.score)]
    ensures Merged(r.order, entries) == AddHit(r, h, s)
  {
  }

  /** One of the two merge loops: each hit's id gets a record with both
      scores 0.0 and the hit's document the first time it is seen, and its
      signal's score is overwritten every time. */
  method MergeLoop(order0: seq<string>, entries0: map<string, Entry>, hs: seq<Hit>, s: Signal)
    returns (order: seq<string>, entries: map<string, Entry>)
    ensures Merged(order, entries) == Fold(Merged(order0, entries0), hs, s)
  {
    ghost var m0 := Merged(order0, entries0);
    order, entries := order0, entries0;
    var i := 0;
    while i < |hs|
      invariant 0 <= i <= |hs|
      invariant Merged(order, entries) == Fold(m0, hs[..i], s)
    {
      ghost var k := i;
      ghost var prev := Merged(order, entries);
      var h := hs[i];
      var id := h.document.id;
      if id !in entries {
        order := order + [id];
        entries := entries[id := Entry(0.0, 0.0, h.document)];
        entries := entries[id := entries[id].With(s, h.score)];
        AddHitNew(prev, h, s, order, entries);
      } else {
        entries := entries[id := entries[id].With(s, h.score)];
        AddHitKnown(prev, h, s, entries);
      }
      i := i + 1;
      FoldStep(m0, hs, s, k, i);
    }
    TakeAll(hs, i);
  }

  /** The scoring loop: the records whose hybrid score reaches the
      threshold, as result dictionaries, in key order. */
  method FuseLoop(order: seq<string>, entries: map<string, Entry>, sc: Scaling, threshold: real)
    returns (fused: seq<Hit>)
    requires Known(Merged(order, entries), order) && sc.Valid()
    ensures fused == Fuse(Merged(order, entries), order, sc, threshold)
  {
    ghost var m := Merged(order, entries);
    fused := [];
    var n := 0;
    while n < |order|
      invariant 0 <= n <= |order|
      invariant Known(m, order[..n]) && fused == Fuse(m, order[..n], sc, threshold)
    {
      ghost var k := n;
      ghost var before := fused;
      var e := entries[order[n]];
      var score := sc.bm25Weight * (e.bm25 / sc.bm25Max) + sc.faissWeight * (e.faiss / sc.faissMax);
      assert e == m.entries[order[k]] && score == sc.Score(e);
      if score >= threshold {
        fused := fused + [FusedHit(e, score)];
      }
      n := n + 1;
      FuseStep(m, order, sc, threshold, k, n, before, fused);
    }
    TakeAll(order, n);
  }

  /** The fusion half of `retrieve`: both result lists merged by id, each
      score column normalised, the weighted sum kept when it reaches the
      threshold, the best `top_k` returned. */
  method FuseResults(b: seq<Hit>, f: seq<Hit>, bm25Weight: real, faissWeight: real, threshold: real, topK: nat)
    returns (results: seq<Hit>)
    ensures results == HybridResults(b, f, bm25Weight, faissWeight, threshold, topK)
  {
    var order, entries := MergeLoop([], map[], b, Bm25Signal);
    order, entries := MergeLoop(order, entries, f, FaissSignal);
    assert Merged(order, entries) == Merge(b, f);
    var sc := Scaling(bm25Weight, faissWeight,
                      Divisor(Column(Merged(order, entries), order, Bm25Signal)),
                      Divisor(Column(Merged(order, entries), order, FaissSignal)));
    var fused := FuseLoop(order, entries, sc, threshold);
    results := Prefix(SortDesc(fused), topK);
  }

  class HybridRetriever {
    const bm25Weight: real
    const faissWeight: real
    const bm25: Bm25.BM25Retriever
    const faiss: Faiss.FAISSRetriever
    /** The documents added so far, in order. */
    var documents: seq<Document>
    /** Their ids. */
    var docIds: seq<string>

    /** Both sub-retrievers hold exactly this retriever's documents. */
    ghost predicate Valid()
      reads this, bm25, faiss
    {
      bm25.Valid() && faiss.Valid()
      && bm25.documents == documents && faiss.documents == documents
      && docIds == Ids(documents)
    }

    /** The weights are stored as given, without any check. `embeddingDim`
        is what the FAISS retriever's model reports. */
    constructor(bm25Weight: real, faissWeight: real, faissModelName: string, normalizeEmbeddings: bool, embeddingDim: nat)
      ensures Valid() && fresh(bm25) && fresh(faiss)
      ensures this.bm25Weight == bm25Weight && this.faissWeight == faissWeight
      ensures faiss.modelName == faissModelName && faiss.normalizeEmbeddings == normalizeEmbeddings
      ensures documents == [] && docIds == []
    {
      this.bm25Weight := bm25Weight;
      this.faissWeight := faissWeight;
      bm25 := new Bm25.BM25Retriever();
      faiss := new Faiss.FAISSRetriever(faissModelName, normalizeEmbeddings, embeddingDim);
      documents := [];
      docIds := [];
    }

    /** `add_documents`: an empty batch changes nothing; otherwise both
        sub-retrievers receive it, then the documents and their ids are
        appended. `embeddings` and `norms` are the FAISS model's output for
        the batch. */
    method AddDocuments(batch: seq<Document>, embeddings: seq<seq<real>>, norms: seq<real>)
      requires Valid()
      requires |embeddings| == |batch| && Faiss.Rows(embeddings, faiss.embeddingDim)
      requires Faiss.AreNorms(norms, embeddings)
      modifies this, bm25, faiss
      ensures Valid()
      ensures documents == old(documents) + batch
      ensures docIds == old(docIds) + Ids(batch)
    {
      if batch == [] {
        return;
      }
      AddToBoth(batch, embeddings, norms);
      IdsAppend(documents, batch);
      documents := documents + batch;
      docIds := docIds + Ids(batch);
    }

    /** Both sub-retrievers receive the batch. */
    method AddToBoth(batch: seq<Document>, embeddings: seq<seq<real>>, norms: seq<real>)
      requires bm25.Valid() && faiss.Valid()
      requires |embeddings| == |batch| && Faiss.Rows(embeddings, faiss.embeddingDim)
      requires Faiss.AreNorms(norms, embeddings)
      modifies bm25, faiss
      ensures bm25.Valid() && faiss.Valid()
      ensures bm25.documents == old(bm25.documents) + batch
      ensures faiss.documents == old(faiss.documents) + batch
    {
      bm25.AddDocuments(batch);
      faiss.AddDocuments(batch, embeddings, norms);
    }

    /** The results of the two sub-retrievers for `2 * top_k`, as their own
        `retrieve` methods compute them. */
    ghost function SubResults(topK: nat, bm25Scores: seq<real>, bm25Order: seq<nat>, found: seq<(int, real)>): (seq<Hit>, seq<Hit>)
      reads this, bm25, faiss
      requires Valid()
      requires |bm25Scores| == |documents| && Bm25.IsDescendingArgsort(bm25Order, bm25Scores)
    {
      (Bm25.Expected(documents, bm25Scores, bm25Order, 2 * topK),
       if documents == [] || faiss.index.None? then [] else Faiss.FaissHits(documents, found, faiss.Name(), faiss.Config()))
    }

    /** `retrieve`: the BM25 scores and their order, and the FAISS query
        embedding, its norm and the search result, are the sub-retrievers'
        inputs for `2 * top_k` neighbours. */
    method Retrieve(query: string, topK: nat, threshold: real,
                    bm25Scores: seq<real>, bm25Order: seq<nat>,
                    queryEmbedding: seq<real>, queryNorm: real, found: seq<(int, real)>)
      returns (results: seq<Hit>)
      requires Valid()
      requires |bm25Scores| == |documents| && Bm25.IsDescendingArgsort(bm25Order, bm25Scores)
      requires |queryEmbedding| == faiss.embeddingDim && Faiss.IsNorm(queryNorm, queryEmbedding)
      requires faiss.index.Some? ==>
        Faiss.IsSearchResult(faiss.index.value.vectors, faiss.Normalize([queryEmbedding], [queryNorm])[0],
                             Min(2 * topK, |documents|), found)
      ensures results == HybridResults(SubResults(topK, bm25Scores, bm25Order, found).0,
                                       SubResults(topK, bm25Scores, bm25Order, found).1,
                                       bm25Weight, faissWeight, threshold, topK)
    {
      var b := bm25.Retrieve(query, 2 * topK, bm25Scores, bm25Order);
      var f := faiss.Retrieve(query, 2 * topK, queryEmbedding, queryNorm, found);
      results := FuseResults(b, f, bm25Weight, faissWeight, threshold, topK);
    }

    /** `clear` as written: the BM25 retriever is emptied, then the call to
        the FAISS retriever's `clear`, which does not exist, raises, so the
        FAISS retriever and this retriever's own lists keep their
        documents. */
    method ClearAsWritten() returns (r: Result<(), string>)
      requires Valid()
      modifies bm25
      ensures r == Failure("AttributeError: 'FAISSRetriever' object has no attribute 'clear'")
      ensures bm25.documents == [] && bm25.index == None
      ensures faiss.documents == old(documents) && documents == old(documents)
      ensures old(documents) != [] ==> !Valid()
    {
      bm25.Clear();
      r := Failure("AttributeError: 'FAISSRetriever' object has no attribute 'clear'");
    }

    /** `clear` as intended: both sub-retrievers and both lists are
        emptied. */
    method Clear()
      requires Valid()
      modifies this, bm25, faiss
      ensures Valid()
      ensures documents == [] && docIds == []
      ensures bm25.documents == [] && faiss.documents == []
    {
      bm25.Clear();
      faiss.Clear();
      documents := [];
      docIds := [];
    }
  }
}
