/** The score fusion of backend/automl/retrievers/hybrid_retriever.py, as
    functions of the two sub-retrievers' result lists: the merge by document
    id, the division of each signal by its largest positive score, the
    weighted sum, the threshold, the stable descending sort and the cut to
    `top_k`. */
module Fusion {
  import opened Util
  import opened Models
  import opened Retrieval

  /** Which sub-retriever a score comes from. */
  datatype Signal = Bm25Signal | FaissSignal

  /** A record of the `scores` dictionary: the two raw scores (0.0 for a
      signal that did not return the document) and the stored document. */
  datatype Entry = Entry(bm25: real, faiss: real, document: Document)
  {
    function Get(s: Signal): real
    {
      match s
      case Bm25Signal => bm25
      case FaissSignal => faiss
    }

    function With(s: Signal, x: real): (e: Entry)
      ensures e.Get(s) == x && e.document == document
    {
      match s
      case Bm25Signal => this.(bm25 := x)
      case FaissSignal => this.(faiss := x)
    }
  }

  /** The `scores` dictionary: its keys in insertion order and its records. */
  datatype Merged = Merged(order: seq<string>, entries: map<string, Entry>)

  predicate Distinct(xs: seq<string>)
  {
    forall i, j :: 0 <= i < j < |xs| ==> xs[i] != xs[j]
  }

  /** Every key once, in order, and each record holds a document with that
      id. */
  ghost predicate WellFormed(m: Merged)
  {
    Distinct(m.order)
    && (forall id :: id in m.entries <==> id in m.order)
    && (forall id :: id in m.entries ==> m.entries[id].document.id == id)
  }

  /** One iteration of a merge loop: a new id gets a record with both scores
      0.0 and the hit's document; then the signal's score is overwritten. */
  function AddHit(m: Merged, h: Hit, s: Signal): Merged
  {
    var id := h.document.id;
    var m1 := if id in m.entries then m else Merged(m.order + [id], m.entries[id := Entry(0.0, 0.0, h.document)]);
    Merged(m1.order, m1.entries[id := m1.entries[id].With(s, h.score)])
  }

  /** A whole merge loop over `hs`. */
  function Fold(m: Merged, hs: seq<Hit>, s: Signal): Merged
  {
    if hs == [] then m else AddHit(Fold(m, hs[..|hs| - 1], s), hs[|hs| - 1], s)
  }

  /** The document ids of the hits, in order. */
  function HitIds(hs: seq<Hit>): seq<string>
  {
    if hs == [] then [] else HitIds(hs[..|hs| - 1]) + [hs[|hs| - 1].document.id]
  }

  /** The score of the last hit for `id`, or 0.0 when there is none. */
  function LastScore(hs: seq<Hit>, id: string): real
  {
    if hs == [] then 0.0
    else if hs[|hs| - 1].document.id == id then hs[|hs| - 1].score
    else LastScore(hs[..|hs| - 1], id)
  }

  /** The document of the first hit for `id`. */
  function FirstDoc(hs: seq<Hit>, id: string): (r: Option<Document>)
    ensures r.Some? <==> id in HitIds(hs)
    ensures r.Some? ==> r.value.id == id
  {
    if hs == [] then None
    else
      var r := FirstDoc(hs[..|hs| - 1], id);
      if r.Some? then r
      else if hs[|hs| - 1].document.id == id then Some(hs[|hs| - 1].document)
      else None
  }

  /** The record a merge loop over `hs` from `m` leaves for `id`. */
  function After(m: Merged, hs: seq<Hit>, s: Signal, id: string): Entry
    requires id in m.entries || id in HitIds(hs)
  {
    var base := if id in m.entries then m.entries[id] else Entry(0.0, 0.0, FirstDoc(hs, id).value);
    if id in HitIds(hs) then base.With(s, LastScore(hs, id)) else base
  }

  /** `r` is what a merge loop over `hs` from `m` leaves: the old keys in
      their order, then the new ones, with the records `After` gives. */
  ghost predicate Tracks(m: Merged, hs: seq<Hit>, s: Signal, r: Merged)
  {
    (forall id :: id in r.entries <==> id in m.entries || id in HitIds(hs))
    && (forall id :: id in r.entries ==> r.entries[id] == After(m, hs, s, id))
    && m.order <= r.order
  }

  lemma SnocFacts(hs: seq<Hit>, h: Hit, id: string)
    ensures HitIds(hs + [h]) == HitIds(hs) + [h.document.id]
    ensures LastScore(hs + [h], id) == if h.document.id == id then h.score else LastScore(hs, id)
    ensures FirstDoc(hs + [h], id) ==
      if FirstDoc(hs, id).Some? then FirstDoc(hs, id)
      else if h.document.id == id then Some(h.document) else None
  {
    assert (hs + [h])[..|hs|] == hs;
  }

  /** The record for the hit's own id after one more iteration. */
  lemma AddHitOwn(m: Merged, hs: seq<Hit>, s: Signal, r: Merged, h: Hit)
    requires Tracks(m, hs, s, r)
    ensures h.document.id in AddHit(r, h, s).entries
    ensures AddHit(r, h, s).entries[h.document.id] == After(m, hs + [h], s, h.document.id)
  {
    var id := h.document.id;
    SnocFacts(hs, h, id);
    if id in r.entries {
      assert r.entries[id] == After(m, hs, s, id);
    } else {
      assert FirstDoc(hs + [h], id) == Some(h.document);
    }
  }

  lemma AddHitWellFormed(r: Merged, h: Hit, s: Signal)
    requires WellFormed(r)
    ensures WellFormed(AddHit(r, h, s)) && r.order <= AddHit(r, h, s).order
  {
    var id := h.document.id;
    if id !in r.entries {
      assert id !in r.order;
      assert Distinct(r.order + [id]);
    }
  }

  lemma AddHitKeys(m: Merged, hs: seq<Hit>, s: Signal, r: Merged, h: Hit)
    requires forall id :: id in r.entries <==> id in m.entries || id in HitIds(hs)
    ensures forall id :: id in AddHit(r, h, s).entries <==> id in m.entries || id in HitIds(hs + [h])
  {
    forall x ensures x in AddHit(r, h, s).entries <==> x in m.entries || x in HitIds(hs + [h]) {
      SnocFacts(hs, h, x);
    }
  }

  lemma AddHitEntries(m: Merged, hs: seq<Hit>, s: Signal, r: Merged, h: Hit)
    requires Tracks(m, hs, s, r)
    requires forall id :: id in AddHit(r, h, s).entries <==> id in m.entries || id in HitIds(hs + [h])
    ensures forall id :: id in AddHit(r, h, s).entries ==> AddHit(r, h, s).entries[id] == After(m, hs + [h], s, id)
  {
    var r2 := AddHit(r, h, s);
    AddHitOwn(m, hs, s, r, h);
    forall x | x in r2.entries && x != h.document.id ensures r2.entries[x] == After(m, hs + [h], s, x) {
      SnocFacts(hs, h, x);
      assert r2.entries[x] == r.entries[x];
    }
  }

  /** One more iteration keeps `Tracks` and well-formedness. */
  lemma AddHitTracks(m: Merged, hs: seq<Hit>, s: Signal, r: Merged, h: Hit)
    requires WellFormed(r) && Tracks(m, hs, s, r)
    ensures WellFormed(AddHit(r, h, s)) && Tracks(m, hs + [h], s, AddHit(r, h, s))
  {
    AddHitWellFormed(r, h, s);
    AddHitKeys(m, hs, s, r, h);
    AddHitEntries(m, hs, s, r, h);
  }

  /** A merge loop from a well-formed state is tracked by `After`. */
  lemma {:induction false} FoldTracks(m: Merged, hs: seq<Hit>, s: Signal)
    requires WellFormed(m)
    ensures WellFormed(Fold(m, hs, s)) && Tracks(m, hs, s, Fold(m, hs, s))
  {
    if hs != [] {
      var init := hs[..|hs| - 1];
      FoldTracks(m, init, s);
      AddHitTracks(m, init, s, Fold(m, init, s), hs[|hs| - 1]);
      assert init + [hs[|hs| - 1]] == hs;
    }
  }

  /** The `scores` dictionary after both merge loops, BM25 results first. */
  function Merge(b: seq<Hit>, f: seq<Hit>): (r: Merged)
    ensures WellFormed(r)
  {
    FoldTracks(Merged([], map[]), b, Bm25Signal);
    FoldTracks(Fold(Merged([], map[]), b, Bm25Signal), f, FaissSignal);
    Fold(Fold(Merged([], map[]), b, Bm25Signal), f, FaissSignal)
  }

  /** One record per id returned by either retriever, holding the last BM25
      and last FAISS score for it (0.0 where that retriever did not return
      it) and the document of its first occurrence, BM25 results first. */
  lemma MergeSpec(b: seq<Hit>, f: seq<Hit>)
    ensures forall id :: id in Merge(b, f).entries <==> id in HitIds(b) || id in HitIds(f)
    ensures forall id :: id in Merge(b, f).entries ==>
      Merge(b, f).entries[id] ==
        Entry(LastScore(b, id), LastScore(f, id), if id in HitIds(b) then FirstDoc(b, id).value else FirstDoc(f, id).value)
  {
    var e := Merged([], map[]);
    var m1 := Fold(e, b, Bm25Signal);
    FoldTracks(e, b, Bm25Signal);
    FoldTracks(m1, f, FaissSignal);
    forall id | id in Merge(b, f).entries
      ensures Merge(b, f).entries[id] ==
        Entry(LastScore(b, id), LastScore(f, id), if id in HitIds(b) then FirstDoc(b, id).value else FirstDoc(f, id).value)
    {
      LastScoreAbsent(b, id);
      LastScoreAbsent(f, id);
      if id in m1.entries {
        assert m1.entries[id] == After(e, b, Bm25Signal, id);
      }
    }
  }

  lemma {:induction false} LastScoreAbsent(hs: seq<Hit>, id: string)
    ensures id !in HitIds(hs) ==> LastScore(hs, id) == 0.0
  {
    if hs != [] {
      LastScoreAbsent(hs[..|hs| - 1], id);
    }
  }

  /** Every key is a key of the dictionary. */
  predicate Known(m: Merged, keys: seq<string>)
  {
    forall i :: 0 <= i < |keys| ==> keys[i] in m.entries
  }

  /** The scores of one signal for `keys`, in order. */
  function Column(m: Merged, keys: seq<string>, s: Signal): (xs: seq<real>)
    requires Known(m, keys)
    ensures |xs| == |keys|
    ensures forall i :: 0 <= i < |keys| ==> xs[i] == m.entries[keys[i]].Get(s)
  {
    if keys == [] then [] else Column(m, keys[..|keys| - 1], s) + [m.entries[keys[|keys| - 1]].Get(s)]
  }

  /** The largest positive element, or 0.0 when there is none. */
  function MaxPositive(xs: seq<real>): (r: real)
    ensures r >= 0.0
  {
    if xs == [] then 0.0
    else
      var r := MaxPositive(xs[..|xs| - 1]);
      if xs[|xs| - 1] > r then xs[|xs| - 1] else r
  }

  lemma {:induction false} MaxPositiveSpec(xs: seq<real>)
    ensures forall i :: 0 <= i < |xs| ==> xs[i] <= MaxPositive(xs)
    ensures MaxPositive(xs) > 0.0 <==> exists i :: 0 <= i < |xs| && xs[i] > 0.0
    ensures MaxPositive(xs) > 0.0 ==> exists i :: 0 <= i < |xs| && xs[i] == MaxPositive(xs)
  {
    if xs != [] {
      var init := xs[..|xs| - 1];
      MaxPositiveSpec(init);
      forall i | 0 <= i < |init| ensures init[i] == xs[i] { }
    }
  }

  /** The divisor of one signal: its largest positive score, or 1.0 when no
      score is positive. */
  function Divisor(xs: seq<real>): (d: real)
    ensures d > 0.0
  {
    if MaxPositive(xs) > 0.0 then MaxPositive(xs) else 1.0
  }

  /** The divisor bounds every score, and is one of them unless none is
      positive, in which case it is 1.0. */
  lemma DivisorSpec(xs: seq<real>)
    ensures forall i :: 0 <= i < |xs| ==> xs[i] <= Divisor(xs)
    ensures (exists i :: 0 <= i < |xs| && xs[i] > 0.0) ==> exists i :: 0 <= i < |xs| && xs[i] == Divisor(xs)
    ensures (forall i :: 0 <= i < |xs| ==> xs[i] <= 0.0) ==> Divisor(xs) == 1.0
  {
    MaxPositiveSpec(xs);
  }

  /** The weights and divisors of one query. */
  datatype Scaling = Scaling(bm25Weight: real, faissWeight: real, bm25Max: real, faissMax: real)
  {
    predicate Valid()
    {
      bm25Max > 0.0 && faissMax > 0.0
    }

    /** The hybrid score of a record. */
    function Score(e: Entry): real
      requires Valid()
    {
      bm25Weight * (e.bm25 / bm25Max) + faissWeight * (e.faiss / faissMax)
    }
  }

  /** The result dictionary of a record: the hybrid score and, as metadata,
      the two raw scores. */
  function FusedHit(e: Entry, score: real): Hit
  {
    Hit(e.document, score, "hybrid", HitMetadata(map["bm25_score" := VReal(e.bm25), "faiss_score" := VReal(e.faiss)]))
  }

  /** The scoring loop over `keys`: the records whose hybrid score reaches
      the threshold, in key order. */
  function Fuse(m: Merged, keys: seq<string>, sc: Scaling, threshold: real): seq<Hit>
    requires Known(m, keys) && sc.Valid()
  {
    if keys == [] then []
    else
      var e := m.entries[keys[|keys| - 1]];
      Fuse(m, keys[..|keys| - 1], sc, threshold)
        + (if sc.Score(e) >= threshold then [FusedHit(e, sc.Score(e))] else [])
  }

  /** `h` is the result dictionary of some record of `m`, and reaches the
      threshold. */
  ghost predicate FusedFrom(m: Merged, sc: Scaling, threshold: real, h: Hit)
    requires sc.Valid()
  {
    exists id :: id in m.entries && h == FusedHit(m.entries[id], sc.Score(m.entries[id])) && h.score >= threshold
  }

  /** At most one result per key, each the result dictionary of a record,
      reaching the threshold; and every key whose record reaches the
      threshold has its result dictionary among them. */
  lemma {:induction false} FuseSpec(m: Merged, keys: seq<string>, sc: Scaling, threshold: real)
    requires Known(m, keys) && sc.Valid()
    ensures |Fuse(m, keys, sc, threshold)| <= |keys|
    ensures forall k :: 0 <= k < |Fuse(m, keys, sc, threshold)| ==> FusedFrom(m, sc, threshold, Fuse(m, keys, sc, threshold)[k])
    ensures forall i :: 0 <= i < |keys| && sc.Score(m.entries[keys[i]]) >= threshold ==>
      FusedHit(m.entries[keys[i]], sc.Score(m.entries[keys[i]])) in Fuse(m, keys, sc, threshold)
  {
    if keys != [] {
      var init := keys[..|keys| - 1];
      var id := keys[|keys| - 1];
      var e := m.entries[id];
      assert Known(m, init) by {
        forall i | 0 <= i < |init| ensures init[i] in m.entries {
          assert init[i] == keys[i];
        }
      }
      FuseSpec(m, init, sc, threshold);
      var prev := Fuse(m, init, sc, threshold);
      var tail: seq<Hit> := if sc.Score(e) >= threshold then [FusedHit(e, sc.Score(e))] else [];
      assert Fuse(m, keys, sc, threshold) == prev + tail;
      forall k | 0 <= k < |prev + tail| ensures FusedFrom(m, sc, threshold, (prev + tail)[k]) {
        if k < |prev| {
          assert (prev + tail)[k] == prev[k];
        } else {
          assert (prev + tail)[k] == FusedHit(m.entries[id], sc.Score(m.entries[id]));
        }
      }
      forall i | 0 <= i < |keys| && sc.Score(m.entries[keys[i]]) >= threshold
        ensures FusedHit(m.entries[keys[i]], sc.Score(m.entries[keys[i]])) in prev + tail
      {
        if i < |init| {
          assert keys[i] == init[i];
        }
      }
    }
  }

  /** Inserts `x` after every element scoring at least as much: the step of
      a stable sort by descending score. */
  function InsertDesc(s: seq<Hit>, x: Hit): seq<Hit>
  {
    if s == [] then [x]
    else if s[0].score >= x.score then [s[0]] + InsertDesc(s[1..], x)
    else [x] + s
  }

  /** `results.sort(key=score, reverse=True)`: the stable sort by descending
      score. */
  function SortDesc(xs: seq<Hit>): seq<Hit>
  {
    if xs == [] then [] else InsertDesc(SortDesc(xs[..|xs| - 1]), xs[|xs| - 1])
  }

  /** Every score is at most `hi`. */
  predicate ScoresAtMost(hs: seq<Hit>, hi: real)
  {
    forall i :: 0 <= i < |hs| ==> hs[i].score <= hi
  }

  lemma SortedCons(h: Hit, t: seq<Hit>)
    requires SortedDesc(t) && ScoresAtMost(t, h.score)
    ensures SortedDesc([h] + t)
  {
    var r := [h] + t;
    forall i, j | 0 <= i < j < |r| ensures r[i].score >= r[j].score {
      assert r[j] == t[j - 1];
      if i > 0 {
        assert r[i] == t[i - 1];
      }
    }
  }

  lemma {:induction false} InsertDescPerm(s: seq<Hit>, x: Hit)
    ensures multiset(InsertDesc(s, x)) == multiset(s) + multiset{x}
  {
    if s != [] && s[0].score >= x.score {
      InsertDescPerm(s[1..], x);
      assert s == [s[0]] + s[1..];
    }
  }

  lemma {:induction false} InsertDescAtMost(s: seq<Hit>, x: Hit, hi: real)
    requires ScoresAtMost(s, hi) && x.score <= hi
    ensures ScoresAtMost(InsertDesc(s, x), hi)
  {
    if s != [] && s[0].score >= x.score {
      InsertDescAtMost(s[1..], x, hi);
      var t := InsertDesc(s[1..], x);
      forall i | 0 <= i < |[s[0]] + t| ensures ([s[0]] + t)[i].score <= hi {
        if i > 0 {
          assert ([s[0]] + t)[i] == t[i - 1];
        }
      }
    } else if s != [] {
      forall i | 0 <= i < |[x] + s| ensures ([x] + s)[i].score <= hi {
        if i > 0 {
          assert ([x] + s)[i] == s[i - 1];
        }
      }
    }
  }

  lemma {:induction false} InsertDescSorted(s: seq<Hit>, x: Hit)
    requires SortedDesc(s)
    ensures SortedDesc(InsertDesc(s, x))
  {
    if s != [] {
      if s[0].score >= x.score {
        assert SortedDesc(s[1..]) by {
          forall i, j | 0 <= i < j < |s[1..]| ensures s[1..][i].score >= s[1..][j].score {
            assert s[1..][i] == s[i + 1] && s[1..][j] == s[j + 1];
          }
        }
        InsertDescSorted(s[1..], x);
        assert ScoresAtMost(s[1..], s[0].score) by {
          forall i | 0 <= i < |s[1..]| ensures s[1..][i].score <= s[0].score {
            assert s[1..][i] == s[i + 1];
          }
        }
        InsertDescAtMost(s[1..], x, s[0].score);
        SortedCons(s[0], InsertDesc(s[1..], x));
      } else {
        assert ScoresAtMost(s, x.score) by {
          forall i | 0 <= i < |s| ensures s[i].score <= x.score {
            assert s[i].score <= s[0].score;
          }
        }
        SortedCons(x, s);
      }
    }
  }

  /** The sort is a permutation. */
  lemma {:induction false} SortDescPerm(xs: seq<Hit>)
    ensures multiset(SortDesc(xs)) == multiset(xs)
  {
    if xs != [] {
      var init := xs[..|xs| - 1];
      SortDescPerm(init);
      InsertDescPerm(SortDesc(init), xs[|xs| - 1]);
      assert init + [xs[|xs| - 1]] == xs;
    }
  }

  /** The sort orders by non-increasing score. */
  lemma {:induction false} SortDescSorted(xs: seq<Hit>)
    ensures SortedDesc(SortDesc(xs))
  {
    if xs != [] {
      SortDescSorted(xs[..|xs| - 1]);
      InsertDescSorted(SortDesc(xs[..|xs| - 1]), xs[|xs| - 1]);
    }
  }

  /** The elements scoring exactly `v`, in order. */
  function WithScore(hs: seq<Hit>, v: real): seq<Hit>
  {
    if hs == [] then [] else (if hs[0].score == v then [hs[0]] else []) + WithScore(hs[1..], v)
  }

  lemma {:induction false} WithScoreSnoc(hs: seq<Hit>, x: Hit, v: real)
    ensures WithScore(hs + [x], v) == WithScore(hs, v) + (if x.score == v then [x] else [])
  {
    if hs != [] {
      assert (hs + [x])[1..] == hs[1..] + [x];
      WithScoreSnoc(hs[1..], x, v);
      AppendAssoc(if hs[0].score == v then [hs[0]] else [], WithScore(hs[1..], v), if x.score == v then [x] else []);
    } else {
      assert WithScore([x], v) == (if x.score == v then [x] else []) + WithScore([], v);
    }
  }

  lemma {:induction false} WithScoreBelow(hs: seq<Hit>, v: real)
    requires forall i :: 0 <= i < |hs| ==> hs[i].score < v
    ensures WithScore(hs, v) == []
  {
    if hs != [] {
      WithScoreBelow(hs[1..], v);
    }
  }

  lemma {:induction false} InsertDescWithScore(s: seq<Hit>, x: Hit, v: real)
    requires SortedDesc(s)
    ensures WithScore(InsertDesc(s, x), v) == WithScore(s, v) + (if x.score == v then [x] else [])
  {
    var tail: seq<Hit> := if x.score == v then [x] else [];
    if s == [] {
      assert WithScore([x], v) == tail + WithScore([], v);
    } else if s[0].score >= x.score {
      assert SortedDesc(s[1..]) by {
        forall i, j | 0 <= i < j < |s[1..]| ensures s[1..][i].score >= s[1..][j].score {
          assert s[1..][i] == s[i + 1] && s[1..][j] == s[j + 1];
        }
      }
      InsertDescWithScore(s[1..], x, v);
      var head: seq<Hit> := if s[0].score == v then [s[0]] else [];
      assert ([s[0]] + InsertDesc(s[1..], x))[1..] == InsertDesc(s[1..], x);
      AppendAssoc(head, WithScore(s[1..], v), tail);
    } else {
      assert ([x] + s)[1..] == s;
      if x.score == v {
        WithScoreBelow(s, v);
      }
    }
  }

  /** The sort is stable: the elements of any one score keep their order. */
  lemma {:induction false} SortDescStable(xs: seq<Hit>, v: real)
    ensures WithScore(SortDesc(xs), v) == WithScore(xs, v)
  {
    if xs != [] {
      var init := xs[..|xs| - 1];
      var x := xs[|xs| - 1];
      SortDescStable(init, v);
      SortDescSorted(init);
      InsertDescWithScore(SortDesc(init), x, v);
      WithScoreSnoc(init, x, v);
      assert init + [x] == xs;
    }
  }

  /** The weights of a hybrid retriever and the divisors of the two
      signals over the merge of `b` and `f`. */
  function HybridScaling(b: seq<Hit>, f: seq<Hit>, bm25Weight: real, faissWeight: real): (sc: Scaling)
    ensures sc.Valid()
  {
    var m := Merge(b, f);
    Scaling(bm25Weight, faissWeight, Divisor(Column(m, m.order, Bm25Signal)), Divisor(Column(m, m.order, FaissSignal)))
  }

  /** What the hybrid `retrieve` returns for the sub-results `b` (BM25) and
      `f` (FAISS). */
  function HybridResults(b: seq<Hit>, f: seq<Hit>, bm25Weight: real, faissWeight: real, threshold: real, topK: nat): seq<Hit>
  {
    var m := Merge(b, f);
    Prefix(SortDesc(Fuse(m, m.order, HybridScaling(b, f, bm25Weight, faissWeight), threshold)), topK)
  }

  /** At most `top_k` results, best first; each holds a document one of the
      two retrievers returned (the first one returned for its id, BM25
      results first), reaches the threshold with the weighted sum of its
      last BM25 and FAISS scores, each divided by its signal's divisor, is
      tagged `hybrid`, and carries those two raw scores as metadata (0.0 for
      a retriever that did not return it). */
  lemma HybridSpec(b: seq<Hit>, f: seq<Hit>, bm25Weight: real, faissWeight: real, threshold: real, topK: nat)
    ensures |HybridResults(b, f, bm25Weight, faissWeight, threshold, topK)| <= topK
    ensures SortedDesc(HybridResults(b, f, bm25Weight, faissWeight, threshold, topK))
    ensures forall k :: 0 <= k < |HybridResults(b, f, bm25Weight, faissWeight, threshold, topK)| ==>
      HybridFact(b, f, HybridScaling(b, f, bm25Weight, faissWeight), threshold,
                 HybridResults(b, f, bm25Weight, faissWeight, threshold, topK)[k])
  {
    var m := Merge(b, f);
    var sc := HybridScaling(b, f, bm25Weight, faissWeight);
    var fused := Fuse(m, m.order, sc, threshold);
    FuseSpec(m, m.order, sc, threshold);
    forall j | 0 <= j < |fused| ensures HybridFact(b, f, sc, threshold, fused[j]) {
      FusedIsFact(b, f, m, sc, threshold, fused[j]);
    }
    TopSorted(fused, topK, b, f, sc, threshold);
  }

  /** Nothing that reaches the threshold is left out for a worse result: a
      document either retriever returned whose hybrid score reaches the
      threshold is among the results, or there are `top_k` results, none
      scoring less. */
  lemma HybridComplete(b: seq<Hit>, f: seq<Hit>, bm25Weight: real, faissWeight: real, threshold: real, topK: nat)
    ensures var sc := HybridScaling(b, f, bm25Weight, faissWeight);
      var rs := HybridResults(b, f, bm25Weight, faissWeight, threshold, topK);
      forall id :: id in Merge(b, f).entries && sc.Score(Merge(b, f).entries[id]) >= threshold ==>
        FusedHit(Merge(b, f).entries[id], sc.Score(Merge(b, f).entries[id])) in rs
        || (|rs| == topK && forall k :: 0 <= k < |rs| ==> rs[k].score >= sc.Score(Merge(b, f).entries[id]))
  {
    var m := Merge(b, f);
    var sc := HybridScaling(b, f, bm25Weight, faissWeight);
    var fused := Fuse(m, m.order, sc, threshold);
    FuseSpec(m, m.order, sc, threshold);
    forall id | id in m.entries && sc.Score(m.entries[id]) >= threshold
      ensures var rs := Prefix(SortDesc(fused), topK);
        FusedHit(m.entries[id], sc.Score(m.entries[id])) in rs
        || (|rs| == topK && forall k :: 0 <= k < |rs| ==> rs[k].score >= sc.Score(m.entries[id]))
    {
      var i :| 0 <= i < |m.order| && m.order[i] == id;
      TopComplete(fused, FusedHit(m.entries[id], sc.Score(m.entries[id])), topK);
    }
  }

  /** An element of `xs` that is not among the best `top_k` is beaten by
      `top_k` of them. */
  lemma TopComplete(xs: seq<Hit>, h: Hit, topK: nat)
    requires h in xs
    ensures var rs := Prefix(SortDesc(xs), topK);
      h in rs || (|rs| == topK && forall k :: 0 <= k < |rs| ==> rs[k].score >= h.score)
  {
    var sorted := SortDesc(xs);
    var rs := Prefix(sorted, topK);
    SortDescPerm(xs);
    SortDescSorted(xs);
    assert h in multiset(sorted);
    var p :| 0 <= p < |sorted| && sorted[p] == h;
    if p < |rs| {
      assert rs[p] == h;
    } else {
      forall k | 0 <= k < |rs| ensures rs[k].score >= h.score {
        assert rs[k] == sorted[k];
      }
    }
  }

  /** A result the scoring loop emits for the merge of `b` and `f` has the
      facts `HybridSpec` states. */
  lemma FusedIsFact(b: seq<Hit>, f: seq<Hit>, m: Merged, sc: Scaling, threshold: real, h: Hit)
    requires m == Merge(b, f) && sc.Valid()
    requires FusedFrom(m, sc, threshold, h)
    ensures HybridFact(b, f, sc, threshold, h)
  {
    MergeSpec(b, f);
  }

  /** The best `top_k` of results that each have the facts `HybridSpec`
      states: at most `top_k`, best first, each with those facts. */
  lemma TopSorted(xs: seq<Hit>, topK: nat, b: seq<Hit>, f: seq<Hit>, sc: Scaling, threshold: real)
    requires sc.Valid()
    requires forall j :: 0 <= j < |xs| ==> HybridFact(b, f, sc, threshold, xs[j])
    ensures |Prefix(SortDesc(xs), topK)| <= topK
    ensures SortedDesc(Prefix(SortDesc(xs), topK))
    ensures forall k :: 0 <= k < |Prefix(SortDesc(xs), topK)| ==> HybridFact(b, f, sc, threshold, Prefix(SortDesc(xs), topK)[k])
  {
    var sorted := SortDesc(xs);
    var r := Prefix(sorted, topK);
    SortDescSorted(xs);
    SortDescPerm(xs);
    assert SortedDesc(r) by {
      forall i, j | 0 <= i < j < |r| ensures r[i].score >= r[j].score {
        assert r[i] == sorted[i] && r[j] == sorted[j];
      }
    }
    forall k | 0 <= k < |r| ensures HybridFact(b, f, sc, threshold, r[k]) {
      assert r[k] == sorted[k];
      assert r[k] in multiset(xs);
      var j :| 0 <= j < |xs| && xs[j] == r[k];
    }
  }

  /** The per-result facts of `HybridSpec`: `h` is the result dictionary of
      the record the merge holds for its id, and reaches the threshold. */
  predicate HybridFact(b: seq<Hit>, f: seq<Hit>, sc: Scaling, threshold: real, h: Hit)
    requires sc.Valid()
  {
    var id := h.document.id;
    (id in HitIds(b) || id in HitIds(f))
    && var e := Entry(LastScore(b, id), LastScore(f, id), if id in HitIds(b) then FirstDoc(b, id).value else FirstDoc(f, id).value);
    h == FusedHit(e, sc.Score(e))
    && h.score >= threshold
  }

  /** Each normalized signal is at most 1, so with non-negative weights a
      hybrid score never exceeds the sum of the weights. */
  lemma ScoreBound(m: Merged, i: nat, sc: Scaling)
    requires Known(m, m.order) && i < |m.order| && sc.Valid()
    requires sc.bm25Max == Divisor(Column(m, m.order, Bm25Signal))
    requires sc.faissMax == Divisor(Column(m, m.order, FaissSignal))
    requires sc.bm25Weight >= 0.0 && sc.faissWeight >= 0.0
    ensures sc.Score(m.entries[m.order[i]]) <= sc.bm25Weight + sc.faissWeight
  {
    var e := m.entries[m.order[i]];
    var bs := Column(m, m.order, Bm25Signal);
    var fs := Column(m, m.order, FaissSignal);
    DivisorSpec(bs);
    DivisorSpec(fs);
    assert bs[i] == e.bm25 && fs[i] == e.faiss;
    ScoreAtMostWeights(sc, e);
  }

  lemma ScoreAtMostWeights(sc: Scaling, e: Entry)
    requires sc.Valid() && e.bm25 <= sc.bm25Max && e.faiss <= sc.faissMax
    requires sc.bm25Weight >= 0.0 && sc.faissWeight >= 0.0
    ensures sc.Score(e) <= sc.bm25Weight + sc.faissWeight
  {
    WeightedAtMost(sc.bm25Weight, e.bm25, sc.bm25Max);
    WeightedAtMost(sc.faissWeight, e.faiss, sc.faissMax);
  }

  lemma WeightedAtMost(w: real, x: real, d: real)
    requires w >= 0.0 && d > 0.0 && x <= d
    ensures w * (x / d) <= w
  {
    assert x / d <= 1.0;
  }
}
