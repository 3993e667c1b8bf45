/** The dense retriever of backend/automl/retrievers/faiss_retriever.py.
    The sentence-embedding model and the Euclidean norms NumPy computes are
    outside the model: their outputs are inputs here. The FAISS index is an
    exact inner-product index (`IndexFlatIP`) and is modelled as the list of
    vectors it stores; its `search` result is an input constrained to be what
    an exact top-k search returns. */
module Faiss {
  import opened Util
  import opened Text
  import opened Models
  import opened Retrieval

  /** The constant added to each norm before dividing, so that a zero vector
      is never divided by zero. */
  const Eps: real := 0.000000000001

  /** Inner product. */
  function Dot(a: seq<real>, b: seq<real>): real
    requires |a| == |b|
  {
    if a == [] then 0.0 else a[0] * b[0] + Dot(a[1..], b[1..])
  }

  /** Squared Euclidean length. */
  function SumSq(a: seq<real>): real
  {
    Dot(a, a)
  }

  /** `n` is the Euclidean norm of `row`. */
  predicate IsNorm(n: real, row: seq<real>)
  {
    n >= 0.0 && n * n == SumSq(row)
  }

  /** Every row has length `dim`. */
  predicate Rows(vs: seq<seq<real>>, dim: nat)
  {
    forall i :: 0 <= i < |vs| ==> |vs[i]| == dim
  }

  /** `norms` holds the norm of each row of `rows`. */
  predicate AreNorms(norms: seq<real>, rows: seq<seq<real>>)
  {
    |norms| == |rows| && forall i :: 0 <= i < |rows| ==> IsNorm(norms[i], rows[i])
  }

  /** Multiplying every coordinate by `c`. */
  function Scale(row: seq<real>, c: real): (r: seq<real>)
    ensures |r| == |row|
  {
    seq(|row|, i requires 0 <= i < |row| => row[i] * c)
  }

  /** One row divided by its norm plus `Eps`. */
  function NormalizeRow(row: seq<real>, n: real): (r: seq<real>)
    requires n >= 0.0
    ensures |r| == |row|
  {
    Scale(row, 1.0 / (n + Eps))
  }

  lemma {:induction false} SumSqScale(row: seq<real>, c: real)
    ensures SumSq(Scale(row, c)) == c * c * SumSq(row)
  {
    if row != [] {
      var s := Scale(row, c);
      forall i | 0 <= i < |row| - 1 ensures s[1..][i] == Scale(row[1..], c)[i] {
        assert s[1..][i] == s[i + 1];
      }
      assert s[1..] == Scale(row[1..], c);
      SumSqScale(row[1..], c);
      assert s[0] * s[0] == c * c * (row[0] * row[0]);
      assert SumSq(s) == s[0] * s[0] + SumSq(s[1..]);
      assert SumSq(row) == row[0] * row[0] + SumSq(row[1..]);
    }
  }

  /** A normalized row has length below one, and is a positive multiple of
      the original row. */
  lemma NormalizedBelowOne(row: seq<real>, n: real)
    requires IsNorm(n, row)
    ensures SumSq(NormalizeRow(row, n)) < 1.0
    ensures exists c :: c > 0.0 && NormalizeRow(row, n) == Scale(row, c)
  {
    var c := 1.0 / (n + Eps);
    SumSqScale(row, c);
    var t := c * n;
    assert t * (n + Eps) == n;
    assert 0.0 <= t < 1.0;
    assert t * t <= t;
    assert c * c * SumSq(row) == t * t;
  }

  /** A flat inner-product index: the vector width and the stored vectors,
      in insertion order. */
  datatype FlatIndex = FlatIndex(dim: nat, vectors: seq<seq<real>>)

  /** No entry of `found` names stored vector `j`. */
  predicate Unreturned(found: seq<(int, real)>, j: int)
  {
    forall m :: 0 <= m < |found| ==> found[m].0 != j
  }

  /** Every real entry of `found` scores at least `s`. */
  predicate FoundAtLeast(found: seq<(int, real)>, s: real)
  {
    forall m :: 0 <= m < |found| && found[m].0 >= 0 ==> found[m].1 >= s
  }

  /** The scores of `found` never increase. */
  predicate FoundDescending(found: seq<(int, real)>)
  {
    forall m, m' :: 0 <= m < m' < |found| ==> found[m].1 >= found[m'].1
  }

  /** `found` is what an exact inner-product search for `k` neighbours of
      `q` returns: `k` entries, each either the sentinel index -1 or a stored
      vector with its inner product as score, best first, and no stored
      vector left out scores more than a returned one. */
  predicate IsSearchResult(vectors: seq<seq<real>>, q: seq<real>, k: nat, found: seq<(int, real)>)
  {
    Rows(vectors, |q|)
    && |found| == k
    && (forall m :: 0 <= m < |found| && found[m].0 >= 0 ==>
          found[m].0 < |vectors| && found[m].1 == Dot(vectors[found[m].0], q))
    && FoundDescending(found)
    && (forall j :: 0 <= j < |vectors| && Unreturned(found, j) ==> FoundAtLeast(found, Dot(vectors[j], q)))
  }

  /** The part of a model name after its last `/`. */
  function ShortName(modelName: string): string
  {
    var ps := SplitOn(modelName, "/");
    ps[|ps| - 1]
  }

  /** The short name holds no `/` and ends the model name. */
  lemma ShortNameSpec(modelName: string)
    ensures IndexOf(ShortName(modelName), "/").None?
    ensures EndsWith(modelName, ShortName(modelName))
  {
    var ps := SplitOn(modelName, "/");
    SplitOnPiecesFree(modelName, "/");
    SplitOnJoin(modelName, "/");
    JoinEndsWithLast("/", ps);
  }

  /** The hits for the search entries `found`, in order, skipping the
      entries whose index names no stored document. */
  function FaissHits(docs: seq<Document>, found: seq<(int, real)>, name: string, config: map<string, Value>): seq<Hit>
  {
    if found == [] then []
    else
      var idx := found[|found| - 1].0;
      var score := found[|found| - 1].1;
      FaissHits(docs, found[..|found| - 1], name, config)
        + (if 0 <= idx < |docs| then [Hit(docs[idx], score, name, HitConfig(config))] else [])
  }

  /** `h` is the hit of entry `m`, which names a stored document. */
  predicate HitOf(docs: seq<Document>, found: seq<(int, real)>, m: int, h: Hit, name: string, config: map<string, Value>)
  {
    0 <= m < |found| && 0 <= found[m].0 < |docs|
    && h == Hit(docs[found[m].0], found[m].1, name, HitConfig(config))
  }

  /** `h` is the hit of some entry of `found`. */
  ghost predicate FromSomeEntry(docs: seq<Document>, found: seq<(int, real)>, h: Hit, name: string, config: map<string, Value>)
  {
    exists m :: HitOf(docs, found, m, h, name, config)
  }

  /** At most one hit per entry; each hit is the document and score of one
      entry that names a stored document. */
  lemma {:induction false} FaissHitsSpec(docs: seq<Document>, found: seq<(int, real)>, name: string, config: map<string, Value>)
    ensures |FaissHits(docs, found, name, config)| <= |found|
    ensures forall k :: 0 <= k < |FaissHits(docs, found, name, config)| ==>
      FromSomeEntry(docs, found, FaissHits(docs, found, name, config)[k], name, config)
  {
    if found != [] {
      var init := found[..|found| - 1];
      var prev := FaissHits(docs, init, name, config);
      FaissHitsSpec(docs, init, name, config);
      var idx := found[|found| - 1].0;
      var score := found[|found| - 1].1;
      var tail: seq<Hit> := if 0 <= idx < |docs| then [Hit(docs[idx], score, name, HitConfig(config))] else [];
      var hs := prev + tail;
      assert FaissHits(docs, found, name, config) == hs;
      forall k | 0 <= k < |hs|
        ensures FromSomeEntry(docs, found, hs[k], name, config)
      {
        if k < |prev| {
          assert FromSomeEntry(docs, init, prev[k], name, config);
          var m :| HitOf(docs, init, m, prev[k], name, config);
          assert init[m] == found[m];
          assert HitOf(docs, found, m, hs[k], name, config);
        } else {
          assert HitOf(docs, found, |found| - 1, hs[k], name, config);
        }
      }
    }
  }

  /** Hits from entries that all score at least `lo` score at least `lo`. */
  lemma {:induction false} FaissHitsAtLeast(docs: seq<Document>, found: seq<(int, real)>, name: string, config: map<string, Value>, lo: real)
    requires forall m :: 0 <= m < |found| ==> found[m].1 >= lo
    ensures ScoresAtLeast(FaissHits(docs, found, name, config), lo)
  {
    if found != [] {
      var init := found[..|found| - 1];
      var prev := FaissHits(docs, init, name, config);
      FaissHitsAtLeast(docs, init, name, config, lo);
      var idx := found[|found| - 1].0;
      var score := found[|found| - 1].1;
      var tail: seq<Hit> := if 0 <= idx < |docs| then [Hit(docs[idx], score, name, HitConfig(config))] else [];
      assert FaissHits(docs, found, name, config) == prev + tail;
      forall k | 0 <= k < |prev + tail| ensures (prev + tail)[k].score >= lo {
        if k < |prev| {
          assert (prev + tail)[k] == prev[k];
        }
      }
    }
  }

  /** Entries best first give hits best first. */
  lemma {:induction false} FaissHitsSorted(docs: seq<Document>, found: seq<(int, real)>, name: string, config: map<string, Value>)
    requires FoundDescending(found)
    ensures SortedDesc(FaissHits(docs, found, name, config))
  {
    if found != [] {
      var init := found[..|found| - 1];
      var prev := FaissHits(docs, init, name, config);
      var idx := found[|found| - 1].0;
      var score := found[|found| - 1].1;
      assert FoundDescending(init) by {
        forall m, m' | 0 <= m < m' < |init| ensures init[m].1 >= init[m'].1 {
          assert init[m] == found[m] && init[m'] == found[m'];
        }
      }
      FaissHitsSorted(docs, init, name, config);
      if 0 <= idx < |docs| {
        forall m | 0 <= m < |init| ensures init[m].1 >= score {
          assert init[m] == found[m];
        }
        FaissHitsAtLeast(docs, init, name, config, score);
        SortedSnoc(prev, Hit(docs[idx], score, name, HitConfig(config)));
      } else {
        assert FaissHits(docs, found, name, config) == prev + [];
        assert prev + [] == prev;
      }
    }
  }

  /** What `retrieve` promises given an exact search result: at most
      `min(top_k, len(documents))` hits, best first, each carrying the inner
      product of the query with its document's stored vector, and no stored
      vector left out of the search scoring more than any hit. */
  lemma SearchHitsSpec(docs: seq<Document>, vectors: seq<seq<real>>, q: seq<real>, topK: nat, found: seq<(int, real)>, name: string, config: map<string, Value>)
    requires |vectors| == |docs|
    requires IsSearchResult(vectors, q, Min(topK, |docs|), found)
    ensures |FaissHits(docs, found, name, config)| <= Min(topK, |docs|)
    ensures SortedDesc(FaissHits(docs, found, name, config))
    ensures forall k :: 0 <= k < |FaissHits(docs, found, name, config)| ==>
      exists i :: (0 <= i < |docs| && FaissHits(docs, found, name, config)[k].document == docs[i]
        && FaissHits(docs, found, name, config)[k].score == Dot(vectors[i], q))
    ensures forall j, k :: 0 <= j < |docs| && Unreturned(found, j) && 0 <= k < |FaissHits(docs, found, name, config)| ==>
      Dot(vectors[j], q) <= FaissHits(docs, found, name, config)[k].score
  {
    var hs := FaissHits(docs, found, name, config);
    FaissHitsSpec(docs, found, name, config);
    FaissHitsSorted(docs, found, name, config);
    forall k | 0 <= k < |hs|
      ensures exists i :: 0 <= i < |docs| && hs[k].document == docs[i] && hs[k].score == Dot(vectors[i], q)
    {
      assert FromSomeEntry(docs, found, hs[k], name, config);
      var m :| HitOf(docs, found, m, hs[k], name, config);
      var i := found[m].0;
      assert hs[k].document == docs[i] && hs[k].score == Dot(vectors[i], q);
    }
    forall j, k | 0 <= j < |docs| && Unreturned(found, j) && 0 <= k < |hs|
      ensures Dot(vectors[j], q) <= hs[k].score
    {
      assert FromSomeEntry(docs, found, hs[k], name, config);
      var m :| HitOf(docs, found, m, hs[k], name, config);
      assert FoundAtLeast(found, Dot(vectors[j], q));
    }
  }

  class FAISSRetriever {
    /** The sentence-transformer model's name. */
    const modelName: string
    /** Whether embeddings are scaled to unit length. */
    const normalizeEmbeddings: bool
    /** The width of the model's embeddings. */
    const embeddingDim: nat
    /** The documents added so far, in order. */
    var documents: seq<Document>
    /** The index; `None` until the first non-empty batch. */
    var index: Option<FlatIndex>

    ghost predicate Valid()
      reads this
    {
      (index.None? <==> documents == [])
      && (index.Some? ==>
            index.value.dim == embeddingDim
            && |index.value.vectors| == |documents|
            && Rows(index.value.vectors, embeddingDim))
    }

    /** `embeddingDim` is what the loaded model reports. */
    constructor(modelName: string, normalizeEmbeddings: bool, embeddingDim: nat)
      ensures Valid()
      ensures this.modelName == modelName && this.normalizeEmbeddings == normalizeEmbeddings
      ensures this.embeddingDim == embeddingDim
      ensures documents == [] && index == None
    {
      this.modelName := modelName;
      this.normalizeEmbeddings := normalizeEmbeddings;
      this.embeddingDim := embeddingDim;
      documents := [];
      index := None;
    }

    /** The `name` property. */
    function Name(): string
    {
      "faiss_" + ShortName(modelName)
    }

    /** The `config` property. */
    function Config(): (r: map<string, Value>)
      ensures r.Keys == {"model_name", "normalize_embeddings", "embedding_dim"}
      ensures r["model_name"] == VStr(modelName) && r["normalize_embeddings"] == VBool(normalizeEmbeddings)
      ensures r["embedding_dim"] == VInt(embeddingDim)
    {
      map["model_name" := VStr(modelName),
          "normalize_embeddings" := VBool(normalizeEmbeddings),
          "embedding_dim" := VInt(embeddingDim)]
    }

    /** `_normalize`: with normalization on, each row is divided by its norm
        plus `Eps`; otherwise the rows are returned unchanged. */
    function Normalize(rows: seq<seq<real>>, norms: seq<real>): (r: seq<seq<real>>)
      requires AreNorms(norms, rows)
      ensures |r| == |rows|
    {
      if !normalizeEmbeddings then rows
      else seq(|rows|, i requires 0 <= i < |rows| => NormalizeRow(rows[i], norms[i]))
    }

    /** Normalization keeps the row widths; with it on every row is shorter
        than one and points the same way, and with it off nothing changes. */
    lemma NormalizeSpec(rows: seq<seq<real>>, norms: seq<real>, dim: nat)
      requires AreNorms(norms, rows) && Rows(rows, dim)
      ensures Rows(Normalize(rows, norms), dim)
      ensures !normalizeEmbeddings ==> Normalize(rows, norms) == rows
      ensures normalizeEmbeddings ==> forall i :: 0 <= i < |rows| ==>
        (SumSq(Normalize(rows, norms)[i]) < 1.0
         && exists c :: c > 0.0 && Normalize(rows, norms)[i] == Scale(rows[i], c))
    {
      if normalizeEmbeddings {
        forall i | 0 <= i < |rows|
          ensures SumSq(Normalize(rows, norms)[i]) < 1.0
          ensures exists c :: c > 0.0 && Normalize(rows, norms)[i] == Scale(rows[i], c)
        {
          NormalizedBelowOne(rows[i], norms[i]);
        }
      }
    }

    /** The name is `faiss_` followed by the model name's last `/`-separated
        part. */
    lemma NameSpec()
      ensures |Name()| >= 6 && Name()[..6] == "faiss_"
      ensures IndexOf(Name()[6..], "/").None? && EndsWith(modelName, Name()[6..])
    {
      ShortNameSpec(modelName);
      assert Name()[6..] == ShortName(modelName);
    }

    /** `add_documents`: `embeddings` are the model's embeddings of the
        batch's contents and `norms` their norms. An empty batch changes
        nothing; otherwise the documents are appended and their (normalized)
        embeddings added to the index, which the first batch creates. */
    method AddDocuments(batch: seq<Document>, embeddings: seq<seq<real>>, norms: seq<real>)
      requires Valid()
      requires |embeddings| == |batch| && Rows(embeddings, embeddingDim)
      requires AreNorms(norms, embeddings)
      modifies this
      ensures Valid()
      ensures documents == old(documents) + batch
      ensures batch == [] ==> index == old(index)
      ensures batch != [] ==> (index.Some? && index.value.vectors ==
        (if old(index).Some? then old(index).value.vectors else []) + Normalize(embeddings, norms))
    {
      if batch == [] {
        return;
      }
      documents := documents + batch;
      var rows := embeddings;
      if normalizeEmbeddings {
        rows := Normalize(embeddings, norms);
      }
      NormalizeSpec(embeddings, norms, embeddingDim);
      if index.None? {
        index := Some(FlatIndex(embeddingDim, []));
        if |rows| > 0 {
          index := Some(FlatIndex(index.value.dim, index.value.vectors + rows));
        }
      } else {
        index := Some(FlatIndex(index.value.dim, index.value.vectors + rows));
      }
    }

    /** `retrieve`: `queryEmbedding` is the model's embedding of the query,
        `queryNorm` its norm, and `found` what the index's search returns for
        the (normalized) query and `min(top_k, len(documents))` neighbours. */
    method Retrieve(query: string, topK: nat, queryEmbedding: seq<real>, queryNorm: real, found: seq<(int, real)>)
      returns (results: seq<Hit>)
      requires Valid()
      requires |queryEmbedding| == embeddingDim && IsNorm(queryNorm, queryEmbedding)
      requires index.Some? ==>
        IsSearchResult(index.value.vectors, Normalize([queryEmbedding], [queryNorm])[0], Min(topK, |documents|), found)
      ensures results == if documents == [] || index.None? then [] else FaissHits(documents, found, Name(), Config())
    {
      if documents == [] || index.None? {
        return [];
      }
      results := [];
      var i := 0;
      while i < |found|
        invariant 0 <= i <= |found|
        invariant results == FaissHits(documents, found[..i], Name(), Config())
      {
        ghost var k := i;
        ghost var before := results;
        var idx := found[i].0;
        var score := found[i].1;
        if 0 <= idx < |documents| {
          results := results + [Hit(documents[idx], score, Name(), HitConfig(Config()))];
        }
        i := i + 1;
        FaissHitsStep(documents, found, Name(), Config(), k, i, before, results);
      }
      TakeAll(found, i);
    }

    /** Drops the index and every document. The source's class has no such
        method; `HybridRetriever.clear` calls one. */
    method Clear()
      modifies this
      ensures Valid()
      ensures documents == [] && index == None
    {
      documents := [];
      index := None;
    }
  }

  /** One more search entry adds its hit when it names a stored document. */
  lemma FaissHitsStep(docs: seq<Document>, found: seq<(int, real)>, name: string, config: map<string, Value>,
                      k: nat, n: nat, before: seq<Hit>, after: seq<Hit>)
    requires n == k + 1 <= |found|
    requires before == FaissHits(docs, found[..k], name, config)
    requires 0 <= found[k].0 < |docs| ==> after == before + [Hit(docs[found[k].0], found[k].1, name, HitConfig(config))]
    requires !(0 <= found[k].0 < |docs|) ==> after == before
    ensures after == FaissHits(docs, found[..n], name, config)
  {
    var t := found[..n];
    assert t[..k] == found[..k];
    assert t[k] == found[k];
    if !(0 <= found[k].0 < |docs|) {
      assert after == before + [];
    }
  }
}
