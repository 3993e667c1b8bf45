/** The result records shared by the retrievers of backend/automl/retrievers:
    each hit carries the stored document, a score, the retriever's name and
    either a metadata or a configuration dictionary. */
module Retrieval {
  import opened Util
  import opened Models

  /** The fourth entry of a result dictionary: `metadata` for the BM25 and
      hybrid retrievers, `config` for the FAISS retriever. */
  datatype Extra = HitMetadata(metadata: map<string, Value>) | HitConfig(config: map<string, Value>)

  datatype Hit = Hit(document: Document, score: real, retriever: string, extra: Extra)

  /** Scores never increase along the list. */
  predicate SortedDesc(hs: seq<Hit>)
  {
    forall i, j :: 0 <= i < j < |hs| ==> hs[i].score >= hs[j].score
  }

  /** Every score is at least `lo`. */
  predicate ScoresAtLeast(hs: seq<Hit>, lo: real)
  {
    forall i :: 0 <= i < |hs| ==> hs[i].score >= lo
  }

  /** Appending a hit no better than every earlier one keeps the order. */
  lemma SortedSnoc(hs: seq<Hit>, h: Hit)
    requires SortedDesc(hs) && ScoresAtLeast(hs, h.score)
    ensures SortedDesc(hs + [h])
  {
    var r := hs + [h];
    forall i, j | 0 <= i < j < |r| ensures r[i].score >= r[j].score {
      assert r[i] == hs[i];
      if j < |hs| {
        assert r[j] == hs[j];
      }
    }
  }

  /** The ids of a list of documents, in order. */
  function Ids(docs: seq<Document>): (ids: seq<string>)
    ensures |ids| == |docs|
    ensures forall i :: 0 <= i < |docs| ==> ids[i] == docs[i].id
  {
    if docs == [] then [] else Ids(docs[..|docs| - 1]) + [docs[|docs| - 1].id]
  }

  lemma IdsSnoc(docs: seq<Document>, d: Document)
    ensures Ids(docs + [d]) == Ids(docs) + [d.id]
  {
    assert (docs + [d])[..|docs|] == docs;
  }

  lemma {:induction false} IdsAppend(a: seq<Document>, b: seq<Document>)
    ensures Ids(a + b) == Ids(a) + Ids(b)
    decreases |b|
  {
    if b == [] {
      assert a + b == a;
    } else {
      assert (a + b)[..|a + b| - 1] == a + b[..|b| - 1];
      IdsAppend(a, b[..|b| - 1]);
    }
  }
}
