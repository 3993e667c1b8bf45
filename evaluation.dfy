/** The metrics of backend/evaluation.py: set-based precision, recall and F1
    over chunk ids, mean reciprocal rank, set-based ROUGE-n, the clipped
    n-gram precisions of BLEU, and the per-run metric store with its mean
    summary. */
module Evaluation {
  import opened Util
  import opened Text
  import opened Models

  /** The `{'precision', 'recall', 'f1'}` dictionary. */
  datatype Scores = Scores(precision: real, recall: real, f1: real)
  {
    predicate InUnit()
    {
      0.0 <= precision <= 1.0 && 0.0 <= recall <= 1.0 && 0.0 <= f1 <= 1.0
    }

    function Dict(): map<string, Value>
    {
      map["precision" := VReal(precision), "recall" := VReal(recall), "f1" := VReal(f1)]
    }
  }

  const Zero := Scores(0.0, 0.0, 0.0)

  /** `a / b if b else 0.0` for two counts. */
  function Ratio(a: nat, b: nat): (r: real)
    ensures a <= b ==> 0.0 <= r <= 1.0
    ensures r == 1.0 <==> b > 0 && a == b
    ensures r == 0.0 <==> a == 0 || b == 0
  {
    if b > 0 then a as real / b as real else 0.0
  }

  /** `2 * (p * r) / (p + r) if (p + r) > 0 else 0.0` */
  function F1(p: real, r: real): (f: real)
    ensures 0.0 <= p <= 1.0 && 0.0 <= r <= 1.0 ==> 0.0 <= f <= 1.0
    ensures 0.0 <= p && 0.0 <= r ==> (f == 0.0 <==> p == 0.0 || r == 0.0)
    ensures p == 1.0 && r == 1.0 ==> f == 1.0
  {
    if p + r > 0.0 then
      F1Bounds(p, r);
      2.0 * (p * r) / (p + r)
    else 0.0
  }

  lemma F1Bounds(p: real, r: real)
    requires p + r > 0.0
    ensures 0.0 <= p <= 1.0 && 0.0 <= r <= 1.0 ==> 0.0 <= 2.0 * (p * r) / (p + r) <= 1.0
    ensures 0.0 <= p && 0.0 <= r ==> (2.0 * (p * r) / (p + r) == 0.0 <==> p == 0.0 || r == 0.0)
  {
    var sum := p + r;
    var t := 2.0 * (p * r);
    var q := t / sum;
    assert q * sum == t;
    if 0.0 <= p && 0.0 <= r {
      assert 0.0 <= p * r;
      if p > 0.0 && r > 0.0 {
        assert p * r > 0.0;
      }
      if q == 0.0 {
        assert t == 0.0;
      }
    }
    if 0.0 <= p <= 1.0 && 0.0 <= r <= 1.0 {
      MulNonneg(p, 1.0 - r);
      assert p * (1.0 - r) == p - p * r;
      MulNonneg(r, 1.0 - p);
      assert r * (1.0 - p) == r - p * r;
      assert t <= sum;
    }
  }

  lemma MulNonneg(x: real, y: real)
    requires 0.0 <= x && 0.0 <= y
    ensures 0.0 <= x * y
  {
  }

  /** The harmonic mean does not depend on the order of its arguments. */
  lemma F1Symmetric(p: real, r: real)
    ensures F1(p, r) == F1(r, p)
  {
    assert p * r == r * p;
  }


  // ---------------------------------------------------------------------
  // Precision, recall and F1 over chunk ids

  /** `{chunk.id for chunk in cs}` */
  function IdSet(cs: seq<DocumentChunk>): set<string>
  {
    set c | c in cs :: c.id
  }

  /** The chunks considered: the first `k` when `k` is given. */
  function Considered(retrieved: seq<DocumentChunk>, k: Option<int>): seq<DocumentChunk>
  {
    if k.Some? then Prefix(retrieved, k.value) else retrieved
  }

  /** `calculate_precision_recall`: no chunk considered gives all zeros;
      otherwise the shared ids are counted once each, against the retrieved
      ids for precision and the relevant ids for recall. */
  function PrecisionRecall(retrieved: seq<DocumentChunk>, relevant: seq<DocumentChunk>, k: Option<int>): (s: Scores)
    ensures Considered(retrieved, k) == [] ==> s == Zero
  {
    var r := Considered(retrieved, k);
    if r == [] then Zero
    else
      var tp := |IdSet(r) * IdSet(relevant)|;
      var p := Ratio(tp, |IdSet(r)|);
      var rc := Ratio(tp, |IdSet(relevant)|);
      Scores(p, rc, F1(p, rc))
  }

  /** The three values are fractions; precision is 1 exactly when every
      considered id is relevant, recall is 1 exactly when every relevant id
      was considered, and both are 0 exactly when no considered id is
      relevant. */
  lemma PrecisionRecallSpec(retrieved: seq<DocumentChunk>, relevant: seq<DocumentChunk>, k: Option<int>)
    ensures PrecisionRecall(retrieved, relevant, k).InUnit()
    ensures PrecisionRecall(retrieved, relevant, k).precision == 1.0 <==>
      Considered(retrieved, k) != [] && IdSet(Considered(retrieved, k)) <= IdSet(relevant)
    ensures PrecisionRecall(retrieved, relevant, k).recall == 1.0 <==>
      Considered(retrieved, k) != [] && relevant != [] && IdSet(relevant) <= IdSet(Considered(retrieved, k))
    ensures PrecisionRecall(retrieved, relevant, k).precision == 0.0 <==>
      IdSet(Considered(retrieved, k)) * IdSet(relevant) == {}
    ensures PrecisionRecall(retrieved, relevant, k).recall == 0.0 <==>
      IdSet(Considered(retrieved, k)) * IdSet(relevant) == {}
  {
    var r := Considered(retrieved, k);
    var both := IdSet(r) * IdSet(relevant);
    SubsetCard(both, IdSet(r));
    SubsetCard(both, IdSet(relevant));
    if r != [] {
      assert r[0].id in IdSet(r);
    }
    if relevant != [] {
      assert relevant[0].id in IdSet(relevant);
    }
    if IdSet(r) <= IdSet(relevant) {
      assert both == IdSet(r);
    }
    if IdSet(relevant) <= IdSet(r) {
      assert both == IdSet(relevant);
    }
    if r == [] {
      assert IdSet(r) == {};
    }
  }

  function Chunk(id: string): DocumentChunk
  {
    NewChunk(id, id, "")
  }

  lemma IdSetOfThree(a: DocumentChunk, b: DocumentChunk, c: DocumentChunk)
    ensures IdSet([a, b, c]) == {a.id, b.id, c.id}
  {
    var cs := [a, b, c];
    assert cs[0] == a && cs[1] == b && cs[2] == c;
  }

  /** Retrieving A, B and C when B, C and D are relevant gives two thirds
      for all three values. */
  lemma PrecisionRecallExample()
    ensures PrecisionRecall([Chunk("A"), Chunk("B"), Chunk("C")],
                            [Chunk("B"), Chunk("C"), Chunk("D")], None)
            == Scores(2.0 / 3.0, 2.0 / 3.0, 2.0 / 3.0)
  {
    IdSetOfThree(Chunk("A"), Chunk("B"), Chunk("C"));
    IdSetOfThree(Chunk("B"), Chunk("C"), Chunk("D"));
    var x: set<string> := {"A", "B", "C"};
    var y: set<string> := {"B", "C", "D"};
    assert x * y == {"B", "C"};
    assert |x| == 3 && |y| == 3 && |x * y| == 2;
    assert Ratio(2, 3) == 2.0 / 3.0;
    assert F1(2.0 / 3.0, 2.0 / 3.0) == 2.0 / 3.0;
  }

  // ---------------------------------------------------------------------
  // Mean reciprocal rank

  /** The 0-based position of the first chunk whose id is in `rel`. */
  function FirstRelevant(cs: seq<DocumentChunk>, rel: set<string>): (r: Option<nat>)
    ensures r.Some? ==> r.value < |cs| && cs[r.value].id in rel
    ensures r.Some? ==> forall j :: 0 <= j < r.value ==> cs[j].id !in rel
    ensures r.None? ==> forall j :: 0 <= j < |cs| ==> cs[j].id !in rel
  {
    if cs == [] then None
    else if cs[0].id in rel then Some(0)
    else match FirstRelevant(cs[1..], rel)
      case None => None
      case Some(i) => Some(i + 1)
  }

  /** `calculate_mrr`: one over the 1-based rank of the first relevant
      chunk, or 0. */
  function Mrr(retrieved: seq<DocumentChunk>, relevant: seq<DocumentChunk>): real
  {
    match FirstRelevant(retrieved, IdSet(relevant))
    case None => 0.0
    case Some(i) => 1.0 / ((i + 1) as real)
  }

  /** The scan returns at the first relevant chunk. */
  method CalculateMrr(retrieved: seq<DocumentChunk>, relevant: seq<DocumentChunk>) returns (m: real)
    ensures m == Mrr(retrieved, relevant)
  {
    var relevantIds := IdSet(relevant);
    var i := 0;
    while i < |retrieved|
      invariant 0 <= i <= |retrieved|
      invariant forall j :: 0 <= j < i ==> retrieved[j].id !in relevantIds
    {
      if retrieved[i].id in relevantIds {
        return 1.0 / ((i + 1) as real);
      }
      i := i + 1;
    }
    return 0.0;
  }

  /** The reciprocal rank is a fraction; it is 1 exactly when the first
      chunk is relevant and 0 exactly when no chunk is. */
  lemma MrrSpec(retrieved: seq<DocumentChunk>, relevant: seq<DocumentChunk>)
    ensures 0.0 <= Mrr(retrieved, relevant) <= 1.0
    ensures Mrr(retrieved, relevant) == 1.0 <==> retrieved != [] && retrieved[0].id in IdSet(relevant)
    ensures Mrr(retrieved, relevant) == 0.0 <==>
      forall j :: 0 <= j < |retrieved| ==> retrieved[j].id !in IdSet(relevant)
  {
    match FirstRelevant(retrieved, IdSet(relevant))
    case None =>
    case Some(i) =>
      var d := (i + 1) as real;
      assert d >= 1.0;
      assert 1.0 / d <= 1.0;
      assert 1.0 / d == 1.0 ==> d == 1.0;
  }

  // ---------------------------------------------------------------------
  // N-grams

  type Gram = seq<string>

  /** `[tuple(words[i:i+n]) for i in range(len(words)-n+1)]` */
  function NGrams(ws: seq<string>, n: nat): (g: seq<Gram>)
    ensures |g| == if |ws| >= n then |ws| - n + 1 else 0
    ensures forall i :: 0 <= i < |g| ==> g[i] == ws[i..i + n]
  {
    seq(if |ws| >= n then |ws| - n + 1 else 0, i requires 0 <= i <= |ws| - n => ws[i..i + n])
  }

  /** `get_ngrams(text, n)`: the n-grams of the lowercased text's words. */
  function TextGrams(text: string, n: nat): seq<Gram>
  {
    NGrams(Words(Lower(text)), n)
  }

  lemma TextGramsEmpty(text: string, n: nat)
    ensures TextGrams(text, n) == [] <==> |Words(Lower(text))| < n
  {
  }

  function GramSet(g: seq<Gram>): set<Gram>
  {
    set x | x in g
  }

  // ---------------------------------------------------------------------
  // ROUGE-n

  /** The scores of `calculate_rouge`, or None when either text has no
      n-gram. */
  function RougeScores(generated: string, reference: string, n: nat): Option<Scores>
  {
    var g := TextGrams(generated, n);
    var r := TextGrams(reference, n);
    if g == [] || r == [] then None else Some(GramScores(g, r))
  }

  /** Set-overlap precision, recall and F1 of generated n-grams `g` against
      reference n-grams `r`. */
  function GramScores(g: seq<Gram>, r: seq<Gram>): Scores
  {
    var overlap := |GramSet(g) * GramSet(r)|;
    var p := Ratio(overlap, |GramSet(g)|);
    var rc := Ratio(overlap, |GramSet(r)|);
    Scores(p, rc, F1(p, rc))
  }

  lemma GramScoresSelf(g: seq<Gram>)
    requires g != []
    ensures GramScores(g, g) == Scores(1.0, 1.0, 1.0)
  {
    assert g[0] in GramSet(g);
    assert GramSet(g) * GramSet(g) == GramSet(g);
  }

  lemma GramScoresSymmetric(g: seq<Gram>, r: seq<Gram>)
    ensures GramScores(g, r).precision == GramScores(r, g).recall
    ensures GramScores(g, r).recall == GramScores(r, g).precision
    ensures GramScores(g, r).f1 == GramScores(r, g).f1
  {
    var overlap := |GramSet(g) * GramSet(r)|;
    assert GramSet(g) * GramSet(r) == GramSet(r) * GramSet(g);
    F1Symmetric(Ratio(overlap, |GramSet(g)|), Ratio(overlap, |GramSet(r)|));
  }

  /** `calculate_rouge`: the scores nested under `rouge_<n>`, or a flat
      all-zero dictionary. */
  function Rouge(generated: string, reference: string, n: nat): (d: map<string, Value>)
    ensures RougeScores(generated, reference, n).None? ==> d == Zero.Dict()
    ensures RougeScores(generated, reference, n).Some? ==>
      d == map["rouge_" + NatToString(n) := VDict(RougeScores(generated, reference, n).value.Dict())]
  {
    match RougeScores(generated, reference, n)
    case None => Zero.Dict()
    case Some(s) => map["rouge_" + NatToString(n) := VDict(s.Dict())]
  }

  /** The flat zero dictionary comes back exactly when one of the texts has
      fewer than `n` words. */
  lemma RougeTooShort(generated: string, reference: string, n: nat)
    ensures RougeScores(generated, reference, n).None? <==>
      |Words(Lower(generated))| < n || |Words(Lower(reference))| < n
  {
    TextGramsEmpty(generated, n);
    TextGramsEmpty(reference, n);
  }

  /** Otherwise the three values are fractions. */
  lemma RougeBounds(generated: string, reference: string, n: nat)
    ensures RougeScores(generated, reference, n).Some? ==> RougeScores(generated, reference, n).value.InUnit()
  {
    var g := TextGrams(generated, n);
    var r := TextGrams(reference, n);
    SubsetCard(GramSet(g) * GramSet(r), GramSet(g));
    SubsetCard(GramSet(g) * GramSet(r), GramSet(r));
  }

  /** The nested key is present exactly when there are scores. */
  lemma RougeKey(generated: string, reference: string, n: nat)
    ensures "rouge_" + NatToString(n) in Rouge(generated, reference, n) <==> RougeScores(generated, reference, n).Some?
  {
    var key := "rouge_" + NatToString(n);
    assert key[0] == 'r' && key[1] == 'o';
    assert key != "precision" && key != "recall" && key != "f1";
  }

  /** A text compared with itself scores 1 on all three values. */
  lemma RougeSelf(text: string, n: nat)
    requires |Words(Lower(text))| >= n
    ensures RougeScores(text, text, n) == Some(Scores(1.0, 1.0, 1.0))
  {
    TextGramsEmpty(text, n);
    GramScoresSelf(TextGrams(text, n));
  }

  /** Swapping the texts swaps precision and recall and keeps F1. */
  lemma RougeSymmetric(a: string, b: string, n: nat)
    ensures RougeScores(a, b, n).Some? <==> RougeScores(b, a, n).Some?
    ensures RougeScores(a, b, n).Some? ==>
      RougeScores(a, b, n).value.precision == RougeScores(b, a, n).value.recall
      && RougeScores(a, b, n).value.recall == RougeScores(b, a, n).value.precision
      && RougeScores(a, b, n).value.f1 == RougeScores(b, a, n).value.f1
  {
    var ga, gb := TextGrams(a, n), TextGrams(b, n);
    assert RougeScores(a, b, n) == if ga == [] || gb == [] then None else Some(GramScores(ga, gb));
    assert RougeScores(b, a, n) == if gb == [] || ga == [] then None else Some(GramScores(gb, ga));
    GramScoresSymmetric(ga, gb);
  }

  // ---------------------------------------------------------------------
  // BLEU clipped precision

  /** The number of occurrences of `x` in `xs`. */
  function Count<T(==)>(xs: seq<T>, x: T): (c: nat)
    ensures c <= |xs|
    ensures x !in xs ==> c == 0
  {
    if xs == [] then 0 else Count(xs[..|xs| - 1], x) + (if xs[|xs| - 1] == x then 1 else 0)
  }

  /** The clipped match count: the i-th generated n-gram counts when fewer
      than its reference count of equal n-grams come before it. Summed over
      the distinct n-grams this is the sum of `min(gen_count, ref_count)`
      (`ClipSumAll`). */
  function Clipped(g: seq<Gram>, r: seq<Gram>): (c: nat)
    ensures c <= |g|
  {
    if g == [] then 0
    else
      var x := g[|g| - 1];
      Clipped(g[..|g| - 1], r) + (if Count(g[..|g| - 1], x) < Count(r, x) then 1 else 0)
  }

  /** The modified precision of one n-gram order. */
  function OrderPrecision(generated: string, reference: string, n: nat): real
  {
    var g := TextGrams(generated, n);
    var r := TextGrams(reference, n);
    if g == [] || r == [] then 0.0 else Ratio(Clipped(g, r), |g|)
  }

  /** Each order's precision is a fraction, 0 when a text is too short and
      1 when a text is compared with itself. */
  lemma OrderPrecisionSpec(generated: string, reference: string, n: nat)
    ensures 0.0 <= OrderPrecision(generated, reference, n) <= 1.0
    ensures |Words(Lower(generated))| < n || |Words(Lower(reference))| < n ==>
      OrderPrecision(generated, reference, n) == 0.0
    ensures generated == reference && |Words(Lower(generated))| >= n ==>
      OrderPrecision(generated, reference, n) == 1.0
  {
    TextGramsEmpty(generated, n);
    TextGramsEmpty(reference, n);
    if generated == reference {
      var g := TextGrams(generated, n);
      ClippedSelf(g, g, |g|);
      assert g[..|g|] == g;
    }
  }

  /** No generated n-gram occurring in the reference gives no clipped
      matches. */
  lemma {:induction false} ClippedDisjoint(g: seq<Gram>, r: seq<Gram>)
    requires forall i :: 0 <= i < |g| ==> g[i] !in r
    ensures Clipped(g, r) == 0
  {
    if g != [] {
      ClippedDisjoint(g[..|g| - 1], r);
    }
  }

  lemma {:induction false} CountPrefix<T>(s: seq<T>, k: nat, x: T)
    requires k <= |s|
    ensures Count(s[..k], x) <= Count(s, x)
  {
    if k < |s| {
      assert s[..|s| - 1][..k] == s[..k];
      CountPrefix(s[..|s| - 1], k, x);
    } else {
      assert s[..k] == s;
    }
  }

  /** Every prefix of a sequence is fully matched against the sequence. */
  lemma {:induction false} ClippedSelf(s: seq<Gram>, r: seq<Gram>, k: nat)
    requires k <= |s| && s == r
    ensures Clipped(s[..k], r) == k
  {
    if k > 0 {
      var p := s[..k];
      assert p[..k - 1] == s[..k - 1];
      ClippedSelf(s, r, k - 1);
      var x := s[k - 1];
      assert Count(p, x) == Count(s[..k - 1], x) + 1;
      CountPrefix(s, k, x);
    }
  }

  ghost predicate Distinct<T>(ks: seq<T>)
  {
    forall i, j :: 0 <= i < j < |ks| ==> ks[i] != ks[j]
  }

  /** The dictionary `counts` (with insertion order `keys`) holds the number
      of occurrences of every n-gram of `g` and nothing else. */
  ghost predicate Tally(keys: seq<Gram>, counts: map<Gram, nat>, g: seq<Gram>)
  {
    Distinct(keys)
    && (forall x :: x in counts <==> x in keys)
    && (forall x :: x in keys <==> x in g)
    && (forall x :: x in counts ==> counts[x] == Count(g, x))
  }

  lemma TallyStep(keys0: seq<Gram>, counts0: map<Gram, nat>, keys1: seq<Gram>, counts1: map<Gram, nat>,
                  g: seq<Gram>, k: nat, n: nat)
    requires n == k + 1 <= |g|
    requires Tally(keys0, counts0, g[..k])
    requires g[k] in counts0 ==> keys1 == keys0 && counts1 == counts0[g[k] := counts0[g[k]] + 1]
    requires g[k] !in counts0 ==> keys1 == keys0 + [g[k]] && counts1 == counts0[g[k] := 1]
    ensures Tally(keys1, counts1, g[..n])
  {
    var p := g[..n];
    assert p[..|p| - 1] == g[..k];
    assert p[|p| - 1] == g[k];
    assert forall x :: Count(p, x) == Count(g[..k], x) + (if g[k] == x then 1 else 0);
    assert forall x :: x in p <==> x in g[..k] || x == g[k];
  }

  /** The counting loop: `counts[gram] = counts.get(gram, 0) + 1` over the
      n-grams, with `keys` recording the dictionary's insertion order. */
  method CountGrams(g: seq<Gram>) returns (keys: seq<Gram>, counts: map<Gram, nat>)
    ensures Tally(keys, counts, g)
  {
    keys, counts := [], map[];
    var i := 0;
    while i < |g|
      invariant 0 <= i <= |g|
      invariant Tally(keys, counts, g[..i])
    {
      ghost var k := i;
      ghost var keys0, counts0 := keys, counts;
      var gram := g[i];
      if gram in counts {
        counts := counts[gram := counts[gram] + 1];
      } else {
        keys := keys + [gram];
        counts := counts[gram := 1];
      }
      i := i + 1;
      TallyStep(keys0, counts0, keys, counts, g, k, i);
    }
    TakeAll(g, i);
  }

  /** `sum(min(gen_count[x], ref_count.get(x, 0)) for x in keys)` */
  function ClipSum(ks: seq<Gram>, g: seq<Gram>, r: seq<Gram>): nat
  {
    if ks == [] then 0 else ClipSum(ks[..|ks| - 1], g, r) + Min(Count(g, ks[|ks| - 1]), Count(r, ks[|ks| - 1]))
  }

  /** `sum(gen_count[x] for x in keys)` */
  function GenSum(ks: seq<Gram>, g: seq<Gram>): nat
  {
    if ks == [] then 0 else GenSum(ks[..|ks| - 1], g) + Count(g, ks[|ks| - 1])
  }

  lemma {:induction false} SumsEmpty(ks: seq<Gram>, r: seq<Gram>)
    ensures ClipSum(ks, [], r) == 0 && GenSum(ks, []) == 0
  {
    if ks != [] {
      SumsEmpty(ks[..|ks| - 1], r);
    }
  }

  /** One more generated n-gram `x` adds one to the total of its key and,
      while its count is below the reference count, one to the clipped
      total. */
  lemma {:induction false} SumsSnoc(ks: seq<Gram>, g: seq<Gram>, x: Gram, r: seq<Gram>)
    requires Distinct(ks)
    ensures GenSum(ks, g + [x]) == GenSum(ks, g) + (if x in ks then 1 else 0)
    ensures ClipSum(ks, g + [x], r) == ClipSum(ks, g, r) + (if x in ks && Count(g, x) < Count(r, x) then 1 else 0)
  {
    if ks != [] {
      var init := ks[..|ks| - 1];
      var last := ks[|ks| - 1];
      assert Distinct(init);
      SumsSnoc(init, g, x, r);
      assert (g + [x])[..|g + [x]| - 1] == g;
      assert Count(g + [x], last) == Count(g, last) + (if x == last then 1 else 0);
      assert x in ks <==> x in init || x == last;
      assert x == last ==> x !in init;
    }
  }

  /** Over distinct keys covering the generated n-grams, the loop's sums are
      the clipped match count and the number of generated n-grams. */
  lemma {:induction false} ClipSumAll(ks: seq<Gram>, g: seq<Gram>, r: seq<Gram>)
    requires Distinct(ks) && forall x :: x in g ==> x in ks
    ensures ClipSum(ks, g, r) == Clipped(g, r)
    ensures GenSum(ks, g) == |g|
  {
    if g == [] {
      SumsEmpty(ks, r);
    } else {
      var init := g[..|g| - 1];
      var x := g[|g| - 1];
      assert g == init + [x];
      ClipSumAll(ks, init, r);
      SumsSnoc(ks, init, x, r);
    }
  }

  /** The clipping loop over the generated n-grams' dictionary. */
  method ClipTotals(keys: seq<Gram>, genCounts: map<Gram, nat>, refCounts: map<Gram, nat>,
                    ghost g: seq<Gram>, ghost refKeys: seq<Gram>, ghost r: seq<Gram>)
    returns (totalClip: nat, totalGen: nat)
    requires Tally(keys, genCounts, g) && Tally(refKeys, refCounts, r)
    ensures totalClip == Clipped(g, r) && totalGen == |g|
  {
    totalClip, totalGen := 0, 0;
    var i := 0;
    while i < |keys|
      invariant 0 <= i <= |keys|
      invariant totalClip == ClipSum(keys[..i], g, r) && totalGen == GenSum(keys[..i], g)
    {
      var gram := keys[i];
      var count := genCounts[gram];
      var refCount := if gram in refCounts then refCounts[gram] else 0;
      assert refCount == Count(r, gram);
      totalClip := totalClip + Min(count, refCount);
      totalGen := totalGen + count;
      i := i + 1;
      assert keys[..i][..i - 1] == keys[..i - 1];
    }
    TakeAll(keys, i);
    ClipSumAll(keys, g, r);
  }

  /** One order of the BLEU loop. */
  method CalculateOrderPrecision(generated: string, reference: string, n: nat) returns (p: real)
    ensures p == OrderPrecision(generated, reference, n)
  {
    var g := TextGrams(generated, n);
    var r := TextGrams(reference, n);
    if g == [] || r == [] {
      return 0.0;
    }
    var genKeys, genCounts := CountGrams(g);
    var refKeys, refCounts := CountGrams(r);
    var totalClip, totalGen := ClipTotals(genKeys, genCounts, refCounts, g, refKeys, r);
    p := if totalGen > 0 then totalClip as real / totalGen as real else 0.0;
  }

  /** The key of the n-th order's precision. */
  function OrderKey(n: nat): string
  {
    "bleu_" + NatToString(n)
  }

  /** Different orders have different keys, and none of them is `bleu`. */
  lemma OrderKeyInjective(a: nat, b: nat)
    ensures OrderKey(a) == OrderKey(b) ==> a == b
    ensures OrderKey(a) != "bleu"
  {
    if OrderKey(a) == OrderKey(b) {
      assert NatToString(a) == OrderKey(a)[5..];
      assert NatToString(b) == OrderKey(b)[5..];
      NatToStringInjective(a, b);
    }
    assert |OrderKey(a)| > 4;
  }

  /** The keys of orders 1 … m. */
  function OrderKeys(m: nat): set<string>
  {
    set n | 1 <= n <= m :: OrderKey(n)
  }

  /** `bleu_1` … `bleu_<k>` for the precisions `ps`, on top of `d`. */
  function OrderEntries(d: map<string, Value>, ps: seq<real>): map<string, Value>
  {
    if ps == [] then d
    else OrderEntries(d, ps[..|ps| - 1])[OrderKey(|ps|) := VReal(ps[|ps| - 1])]
  }

  /** The precisions of orders 1 … maxN. */
  function Precisions(generated: string, reference: string, maxN: nat): (ps: seq<real>)
    ensures |ps| == maxN
    ensures forall i :: 0 <= i < maxN ==> ps[i] == OrderPrecision(generated, reference, i + 1)
  {
    TabulateAt(n => OrderPrecision(generated, reference, n), maxN);
    Tabulate(n => OrderPrecision(generated, reference, n), maxN)
  }

  lemma PrecisionsStep(generated: string, reference: string, k: nat, n: nat, before: seq<real>, after: seq<real>)
    requires n == k + 1
    requires before == Precisions(generated, reference, k)
    requires after == before + [OrderPrecision(generated, reference, n)]
    ensures after == Precisions(generated, reference, n)
  {
  }

  /** `calculate_bleu` with the default uniform weights. The brevity
      penalty times the weighted geometric mean of the precisions is the
      parameter `combined`, used only when no precision is 0. A `max_n` of
      0 divides by zero while building the weights; a negative one leaves no
      precision, whose minimum does not exist. */
  function Bleu(generated: string, reference: string, maxN: int, combined: real): (r: Result<map<string, Value>, string>)
    ensures r.Success? <==> maxN >= 1
  {
    if maxN == 0 then Failure("ZeroDivisionError: float division by zero")
    else if maxN < 0 then Failure("ValueError: min() arg is an empty sequence")
    else
      var ps := Precisions(generated, reference, maxN);
      var bleu := if 0.0 in ps then 0.0 else combined;
      Success(OrderEntries(map["bleu" := VReal(bleu)], ps))
  }

  /** The per-order loop of `calculate_bleu`. */
  method CalculateBleu(generated: string, reference: string, maxN: int, combined: real)
    returns (result: Result<map<string, Value>, string>)
    ensures result == Bleu(generated, reference, maxN, combined)
  {
    if maxN == 0 {
      return Failure("ZeroDivisionError: float division by zero");
    }
    var precisions := PrecisionsLoop(generated, reference, maxN);
    if precisions == [] {
      return Failure("ValueError: min() arg is an empty sequence");
    }
    BleuOf(generated, reference, maxN, combined, precisions);
    var bleu := if 0.0 in precisions then 0.0 else combined;
    result := Success(OrderEntries(map["bleu" := VReal(bleu)], precisions));
  }

  /** The loop over the orders 1 … `max_n`, none when `max_n` is below 1. */
  method PrecisionsLoop(generated: string, reference: string, maxN: int) returns (precisions: seq<real>)
    ensures maxN < 1 ==> precisions == []
    ensures maxN >= 1 ==> precisions == Precisions(generated, reference, maxN)
  {
    precisions := [];
    var done: nat := 0;
    while done < maxN
      invariant maxN >= 1 ==> done <= maxN
      invariant maxN < 1 ==> done == 0
      invariant precisions == Precisions(generated, reference, done)
    {
      var p := CalculateOrderPrecision(generated, reference, done + 1);
      var next := precisions + [p];
      PrecisionsStep(generated, reference, done, done + 1, precisions, next);
      precisions, done := next, done + 1;
    }
  }

  lemma BleuOf(generated: string, reference: string, maxN: int, combined: real, ps: seq<real>)
    requires maxN >= 1 && ps == Precisions(generated, reference, maxN)
    ensures Bleu(generated, reference, maxN, combined)
      == Success(OrderEntries(map["bleu" := VReal(if 0.0 in ps then 0.0 else combined)], ps))
  {
  }

  /** The entries add exactly the order keys, keep what was there, and map
      each order key to its precision. */
  lemma {:induction false} OrderEntriesKeys(d: map<string, Value>, ps: seq<real>)
    ensures OrderEntries(d, ps).Keys == d.Keys + OrderKeys(|ps|)
  {
    if ps != [] {
      OrderEntriesKeys(d, ps[..|ps| - 1]);
      assert OrderKeys(|ps|) == OrderKeys(|ps| - 1) + {OrderKey(|ps|)};
    }
  }

  lemma {:induction false} OrderEntriesAt(d: map<string, Value>, ps: seq<real>, n: nat)
    requires 1 <= n <= |ps|
    ensures OrderKey(n) in OrderEntries(d, ps) && OrderEntries(d, ps)[OrderKey(n)] == VReal(ps[n - 1])
  {
    var init := ps[..|ps| - 1];
    if n < |ps| {
      OrderEntriesAt(d, init, n);
      OrderKeyInjective(n, |ps|);
    }
  }

  lemma {:induction false} OrderEntriesKeep(d: map<string, Value>, ps: seq<real>)
    requires "bleu" in d
    ensures "bleu" in OrderEntries(d, ps) && OrderEntries(d, ps)["bleu"] == d["bleu"]
  {
    if ps != [] {
      OrderEntriesKeep(d, ps[..|ps| - 1]);
      OrderKeyInjective(|ps|, |ps|);
    }
  }

  /** BLEU is 0 exactly when some order's precision is 0 (the precisions
      are never negative, so their minimum is 0 exactly then), and
      `combined` otherwise. */
  lemma BleuScore(generated: string, reference: string, maxN: nat, combined: real)
    requires maxN >= 1
    ensures "bleu" in Bleu(generated, reference, maxN, combined).value
    ensures (exists n :: 1 <= n <= maxN && OrderPrecision(generated, reference, n) == 0.0) ==>
      Bleu(generated, reference, maxN, combined).value["bleu"] == VReal(0.0)
    ensures (forall n :: 1 <= n <= maxN ==> OrderPrecision(generated, reference, n) != 0.0) ==>
      Bleu(generated, reference, maxN, combined).value["bleu"] == VReal(combined)
  {
    var ps := Precisions(generated, reference, maxN);
    var d := map["bleu" := VReal(if 0.0 in ps then 0.0 else combined)];
    OrderEntriesKeep(d, ps);
    if exists n :: 1 <= n <= maxN && OrderPrecision(generated, reference, n) == 0.0 {
      var n :| 1 <= n <= maxN && OrderPrecision(generated, reference, n) == 0.0;
      assert ps[n - 1] == 0.0;
    }
    if 0.0 in ps {
      var i :| 0 <= i < |ps| && ps[i] == 0.0;
      assert OrderPrecision(generated, reference, i + 1) == 0.0;
    }
  }

  /** The result holds `bleu` and one `bleu_<n>` per order, and nothing
      else; each order's entry is its precision, a fraction. */
  lemma BleuKeys(generated: string, reference: string, maxN: nat, combined: real)
    requires maxN >= 1
    ensures Bleu(generated, reference, maxN, combined).value.Keys == {"bleu"} + OrderKeys(maxN)
    ensures forall n :: 1 <= n <= maxN ==>
      OrderKey(n) in Bleu(generated, reference, maxN, combined).value
      && Bleu(generated, reference, maxN, combined).value[OrderKey(n)] == VReal(OrderPrecision(generated, reference, n))
      && 0.0 <= OrderPrecision(generated, reference, n) <= 1.0
  {
    var ps := Precisions(generated, reference, maxN);
    var d := map["bleu" := VReal(if 0.0 in ps then 0.0 else combined)];
    OrderEntriesKeys(d, ps);
    forall n | 1 <= n <= maxN
      ensures OrderKey(n) in Bleu(generated, reference, maxN, combined).value
      ensures Bleu(generated, reference, maxN, combined).value[OrderKey(n)] == VReal(OrderPrecision(generated, reference, n))
      ensures 0.0 <= OrderPrecision(generated, reference, n) <= 1.0
    {
      BleuOrderEntry(generated, reference, maxN, combined, n);
    }
  }

  /** The entry of order `n` is that order's precision, a fraction. */
  lemma BleuOrderEntry(generated: string, reference: string, maxN: nat, combined: real, n: nat)
    requires 1 <= n <= maxN
    ensures OrderKey(n) in Bleu(generated, reference, maxN, combined).value
    ensures Bleu(generated, reference, maxN, combined).value[OrderKey(n)] == VReal(OrderPrecision(generated, reference, n))
    ensures 0.0 <= OrderPrecision(generated, reference, n) <= 1.0
  {
    var ps := Precisions(generated, reference, maxN);
    var d := map["bleu" := VReal(if 0.0 in ps then 0.0 else combined)];
    OrderEntriesAt(d, ps, n);
    OrderPrecisionSpec(generated, reference, n);
  }

  // ---------------------------------------------------------------------
  // The metric store

  /** `[m[metric] for m in entries if metric in m]` */
  function Values(entries: seq<map<string, real>>, metric: string): (vs: seq<real>)
    ensures |vs| <= |entries|
    ensures entries != [] && metric in entries[0] ==> |vs| > 0
  {
    if entries == [] then []
    else
      var init := entries[..|entries| - 1];
      var last := entries[|entries| - 1];
      assert init != [] ==> init[0] == entries[0];
      Values(init, metric) + (if metric in last then [last[metric]] else [])
  }

  /** The summary key of a metric. */
  function MeanKey(metric: string): string
  {
    "mean_" + metric
  }

  lemma MeanKeyInjective()
    ensures forall a, b :: MeanKey(a) == MeanKey(b) ==> a == b
  {
    forall a, b | MeanKey(a) == MeanKey(b)
      ensures a == b
    {
      assert a == MeanKey(a)[5..] && b == MeanKey(b)[5..];
    }
  }

  /** The mean of each metric named by the first entry, under `mean_<name>`;
      the standard deviations are not part of this model. */
  function Aggregate(entries: seq<map<string, real>>): map<string, real>
  {
    if entries == [] then map[]
    else
      MeanKeyInjective();
      map k | k in entries[0] :: MeanKey(k) := Mean(Values(entries, k))
  }

  /** `get_summary`: the configuration and the two aggregates. */
  datatype Summary = Summary(config: map<string, Value>, retrievalMetrics: map<string, real>,
                             answerQualityMetrics: map<string, real>)

  lemma {:induction false} ValuesWithin(entries: seq<map<string, real>>, metric: string, lo: real, hi: real)
    requires forall i :: 0 <= i < |entries| && metric in entries[i] ==> lo <= entries[i][metric] <= hi
    ensures forall j :: 0 <= j < |Values(entries, metric)| ==> lo <= Values(entries, metric)[j] <= hi
  {
    if entries != [] {
      ValuesWithin(entries[..|entries| - 1], metric, lo, hi);
    }
  }

  /** Only the metrics of the first entry are summarised, and each mean lies
      within any bounds all of that metric's values respect. */
  lemma AggregateSpec(entries: seq<map<string, real>>, metric: string, lo: real, hi: real)
    requires forall i :: 0 <= i < |entries| && metric in entries[i] ==> lo <= entries[i][metric] <= hi
    ensures MeanKey(metric) in Aggregate(entries) <==> entries != [] && metric in entries[0]
    ensures MeanKey(metric) in Aggregate(entries) ==> lo <= Aggregate(entries)[MeanKey(metric)] <= hi
  {
    if entries != [] {
      ValuesWithin(entries, metric, lo, hi);
      if metric in entries[0] {
        MeanBounds(Values(entries, metric), lo, hi);
      }
      MeanKeyInjective();
    }
  }

  /** `EvaluationResult`: a configuration with the two metric lists. */
  class EvaluationResult {
    const config: map<string, Value>
    var retrieval: seq<map<string, real>>
    var answerQuality: seq<map<string, real>>

    constructor(config: map<string, Value>)
      ensures this.config == config && retrieval == [] && answerQuality == []
    {
      this.config := config;
      retrieval := [];
      answerQuality := [];
    }

    /** `add_retrieval_metrics`: appends to the retrieval list only. */
    method AddRetrievalMetrics(metrics: map<string, real>)
      modifies this`retrieval
      ensures retrieval == old(retrieval) + [metrics]
      ensures answerQuality == old(answerQuality)
    {
      retrieval := retrieval + [metrics];
    }

    /** `add_answer_quality_metrics`: appends to the answer list only. */
    method AddAnswerQualityMetrics(metrics: map<string, real>)
      modifies this`answerQuality
      ensures answerQuality == old(answerQuality) + [metrics]
      ensures retrieval == old(retrieval)
    {
      answerQuality := answerQuality + [metrics];
    }

    /** `get_summary` */
    function GetSummary(): (s: Summary)
      reads this
      ensures s.config == config
      ensures retrieval == [] ==> s.retrievalMetrics == map[]
      ensures answerQuality == [] ==> s.answerQualityMetrics == map[]
    {
      Summary(config, Aggregate(retrieval), Aggregate(answerQuality))
    }
  }
}
