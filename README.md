# RAG AutoML core, modelled in Dafny

This project models the core of a retrieval-augmented-generation AutoML
backend: the document model and its chunker, the three retrievers (BM25,
FAISS and the hybrid that fuses them), the retrieval and answer-quality
metrics, the prompt-template store, and the orchestrator that draws random
configurations, repairs them, evaluates each one and keeps the best.

One Dafny module per source file, all directly under this directory:

- `util.dfy` (module `Util`): Option/Result, Python's `s[:k]`, `str(n)`, sums and means
- `text.dfy` (module `Text`): `str.strip`, `str.split()`, `str.split(sep)`, `" ".join`, ASCII `lower`, the sentence regex split
- `models.dfy` (module `Models`): `backend/models.py`: documents, chunks, the chunking strategy enum, the processor configuration and its validation
- `chunker.dfy` (module `Chunker`): `backend/document_processor.py`: the three chunking strategies as loops, each proved against a specification function
- `retrieval.dfy` (module `Retrieval`): the result dictionaries the retrievers return
- `bm25.dfy` (module `Bm25`): `BM25Retriever` as a class
- `faiss.dfy` (module `Faiss`): `FAISSRetriever` as a class over an explicit flat inner-product index
- `fusion.dfy` (module `Fusion`): the hybrid score fusion: merge, normalisation, threshold, stable sort, cut
- `hybrid.dfy` (module `Hybrid`): `HybridRetriever` as a class owning one BM25 and one FAISS retriever
- `evaluation.dfy` (module `Evaluation`): `backend/evaluation.py`: precision/recall/F1, MRR, ROUGE-N, BLEU, `EvaluationResult`
- `prompts.dfy` (module `Prompts`): `backend/prompt_templates.py`: template types, `str.format` on templates, the template store
- `orchestrator.dfy` (module `Orchestrator`): `backend/automl/orchestrator.py`: configuration generation, retriever and chunker construction, evaluation, scoring, the run

Imperative code stays imperative: the chunking loops, the retrievers'
`add_documents`/`retrieve`/`clear`, the hybrid merge and scoring loops, the
BLEU counting loops, the template store and the orchestrator are methods
and classes whose `ensures` tie the result or the new state to a
specification function; the properties the code promises are then proved
about those functions as lemmas.

Randomness (`random.choice`) is a nondeterministic choice (`:|`), so every
property of a generated configuration holds for every possible draw. What a
trained retriever returns for a query is a parameter (`retrieve`), and so
are BLEU's brevity-penalised geometric mean (`combined`, which needs `exp`
and `log`), the BM25 scores and their descending argsort, the sentence
embeddings with their norms, and the FAISS
search result; each parameter is constrained by the property the library
promises (a descending argsort, a top-k inner-product search).

Where the tests and the code disagree the model follows the code: a
sample text in `backend/test_core.py` is expected to give two paragraph
chunks, which `_chunk_by_paragraph` as written does not produce, and the
run result is keyed `all_results`, not `results`.

## Model

| member | source | states |
|---|---|---|
| Util.Prefix | backend/evaluation.py:26-27 | `s[:k]` keeps `min(k, len)` elements for `k >= 0` and drops `-k` from the end for negative `k`; the result is a prefix |
| Util.NatToString | backend/document_processor.py:48 | `str(n)` is non-empty, one digit exactly below 10, and ends with the last decimal digit |
| Util.NatToStringInjective | backend/document_processor.py:48 | different chunk indices print differently |
| Util.MeanBounds | backend/automl/orchestrator.py:164 | a mean lies within any bounds all its values respect |
| Util.SumBounds | backend/automl/orchestrator.py:164 | a sum of `n` values in `[lo, hi]` lies in `[n*lo, n*hi]` |
| Util.CeilDivBounds | backend/document_processor.py:127 | the ceiling division covers its dividend and one block fewer does not |
| Text.Strip | backend/document_processor.py:65 | `strip()` never lengthens, and is empty exactly for whitespace-only text |
| Text.StripEnds | backend/document_processor.py:65 | a stripped text starts and ends with a non-whitespace character |
| Text.StripSlice | backend/document_processor.py:65 | a stripped text is the slice between a leading and a trailing run of whitespace |
| Text.Words | backend/document_processor.py:92 | `split()` gives non-empty whitespace-free words |
| Text.WordsEmptyIff | backend/document_processor.py:92 | a text has no words exactly when it is all whitespace |
| Text.WordsOfJoin | backend/document_processor.py:128 | joining words with single spaces and splitting again gives the words back |
| Text.Lower | backend/automl/retrievers/bm25_retriever.py:15 | `lower()` keeps the length and lowers each character |
| Text.SplitOn | backend/document_processor.py:119 | `split(sep)` gives at least one piece |
| Text.SplitOnJoin | backend/document_processor.py:119 | joining the pieces with the separator gives the text back |
| Text.SplitOnPiecesFree | backend/document_processor.py:119 | no piece contains the separator |
| Text.SplitOnBlank | backend/document_processor.py:119 | the pieces of a whitespace-only text are whitespace-only |
| Text.SplitSentences | backend/document_processor.py:80 | the regex split gives at least one piece |
| Text.SplitSentencesPieces | backend/document_processor.py:80 | no piece contains a sentence break and every piece but the last ends with `.`, `!` or `?` |
| Text.AllSpaceNoBreak | backend/document_processor.py:80 | a whitespace-only text is not split |
| Models.DocumentFromDict | backend/models.py:28-34 | a rebuilt document's dump uses only keys of the dictionary it was rebuilt from |
| Models.DocumentDumpRoundTrip | backend/models.py:28-34 | the dump has exactly the keys id, content, metadata and rebuilding from it gives the document back |
| Models.ChunkingStrategyValues | backend/models.py:37-42 | the enum accepts exactly "fixed", "sentence", "paragraph", and parsing a member's value gives the member |
| Models.NewChunk | backend/models.py:64-76 | a chunk built from its required fields has index 0, strategy fixed and empty metadata |
| Models.ChunkDumpRoundTrip | backend/models.py:78-87 | the chunk dump has exactly its six keys, the strategy as its string value, and loses nothing |
| Models.MakeProcessorConfig | backend/models.py:108-120 | validation succeeds iff `1 <= chunk_size <= 4096` and `chunk_overlap >= 0`; a failure names each violated constraint |
| Models.DefaultProcessorConfig | backend/models.py:108-120 | the defaults (256, 50, fixed) are valid |
| Models.MakeCheckedProcessorConfig | backend/document_processor.py:71 | the corrected validation also demands `chunk_overlap < chunk_size` and otherwise agrees with the original |
| Chunker.ChunkIdInjective | backend/document_processor.py:48 | two chunks of one document with different indices have different ids |
| Chunker.ChunksOf | backend/document_processor.py:43-54 | one chunk per text |
| Chunker.ChunksNumbered | backend/document_processor.py:43-54 | chunk `i` carries text `i`, index `i`, the document's id and metadata and the strategy; ids are pairwise distinct |
| Chunker.KeepStripped | backend/document_processor.py:119 | the kept stripped pieces are no more than the pieces |
| Chunker.KeepStrippedNoBlank | backend/document_processor.py:119 | when no piece is blank every piece is kept, stripped, in order |
| Chunker.ChunkByFixedSize | backend/document_processor.py:56-75 | the loop returns, numbered in order, the windows `text[start:start+size]` for `start` stepping by `size - overlap`, each stripped, blank ones dropped |
| Chunker.WindowsCount | backend/document_processor.py:63-73 | there is one window per step below the text's length |
| Chunker.WindowsShort | backend/document_processor.py:64-65 | no window is longer than `chunk_size` |
| Chunker.WindowsCover | backend/document_processor.py:63-71 | without overlap the windows cut the text into consecutive pieces that concatenate back to it |
| Chunker.FixedTextsBounds | backend/document_processor.py:65-68 | every fixed-size chunk is stripped, non-empty and at most `chunk_size` characters |
| Chunker.FixedTextAt | backend/document_processor.py:64-65 | with no blank window, chunk `k` is window `k` stripped |
| Chunker.WindowAtZero | backend/document_processor.py:62-64 | window `k` is the text from `Offset(k, step)` to `chunk_size` characters further, clipped at the end of the text |
| Chunker.OffsetIsProduct | backend/document_processor.py:70 | `k` advances of `chunk_size - chunk_overlap` put the window start at `k * (chunk_size - chunk_overlap)` |
| Chunker.FixedTextsCount | backend/document_processor.py:63-73 | with no blank window there are `ceil(len / (size - overlap))` chunks |
| Chunker.WindowsOfBlank | backend/document_processor.py:65-67 | the windows of a whitespace-only text are whitespace-only |
| Chunker.JoinEach | backend/document_processor.py:98 | each group of sentences is joined with single spaces |
| Chunker.SentenceGroupsSpec | backend/document_processor.py:87-113 | the sentence groups hold every sentence once, in order, and are well formed |
| Chunker.SentenceTextsSpec | backend/document_processor.py:87-113 | each sentence chunk is a non-empty group joined by spaces, within `chunk_size` words unless it is one sentence |
| Chunker.SingleSentenceGroups | backend/document_processor.py:93-103 | under a budget of at most one word every group holds one sentence |
| Chunker.SentenceTextsOneEach | backend/document_processor.py:93-103 | under a budget of at most one word the chunks are the sentences |
| Chunker.ChunkBySentence | backend/document_processor.py:77-115 | the loop returns the chunks of the sentence groups |
| Chunker.WordPiecesWords | backend/document_processor.py:126-130 | the word runs of a long paragraph hold its words, in order |
| Chunker.WordPiecesSizes | backend/document_processor.py:127-128 | each word run holds between one and `chunk_size` words |
| Chunker.ParagraphPiecesSpec | backend/document_processor.py:123-133 | the chunks of one paragraph hold its words, in order, one to `chunk_size` each |
| Chunker.ParagraphPiecesCount | backend/document_processor.py:124-133 | a paragraph within `chunk_size` words is one chunk, verbatim; a longer one is `ceil(words / size)` chunks |
| Chunker.PiecesOfWords | backend/document_processor.py:119-133 | the paragraph chunks hold the paragraphs' words: nothing lost, repeated or reordered |
| Chunker.PiecesOfSizes | backend/document_processor.py:119-133 | every paragraph chunk holds between one and `chunk_size` words |
| Chunker.ParagraphTextsSpec | backend/document_processor.py:117-135 | the paragraph strategy keeps the words of the non-blank paragraphs, in order, one to `chunk_size` per chunk |
| Chunker.ParagraphTextsOneEach | backend/document_processor.py:124-130 | with `chunk_size` 1 there is one chunk per word |
| Chunker.ChunkWords | backend/document_processor.py:126-130 | the fallback loop appends one chunk per word run, numbered on from the chunks already made |
| Chunker.ChunkByParagraph | backend/document_processor.py:117-135 | the loop returns the chunks of the paragraph texts |
| Chunker.ProcessDocument | backend/document_processor.py:18-41 | dispatch on the strategy returns that strategy's chunks |
| Chunker.SentenceTextsHaveWords | backend/document_processor.py:87-91 | every sentence chunk has a word |
| Chunker.ChunkTextsHaveWords | backend/document_processor.py:18-135 | no chunk of any strategy is empty or blank |
| Chunker.ChunkTextsBlank | backend/document_processor.py:18-135 | whitespace-only content gives no chunks under any strategy |
| Chunker.ProcessedChunks | backend/document_processor.py:18-54 | the processed chunks are numbered 0.., carry `<doc>_chunk_<i>` ids, the document's id, metadata and strategy, have words, and have distinct ids |
| Chunker.FixedLoopNeverEnds | backend/document_processor.py:71-73 | with `chunk_overlap >= chunk_size` (accepted by validation) the start never advances past 0, so the loop does not end |
| Chunker.CheckedConfigAdvances | backend/document_processor.py:71 | under the corrected validation the start advances by at least one per step |
| Retrieval.SortedSnoc | backend/automl/retrievers/hybrid_retriever.py:128 | appending a hit no better than all earlier ones keeps the list sorted by descending score |
| Retrieval.Ids | backend/automl/retrievers/bm25_retriever.py:28 | the ids list has one entry per document, its id |
| Bm25.TokenizeSpec | backend/automl/retrievers/bm25_retriever.py:15 | the tokens are words, re-joining and splitting gives them back, and there are none exactly for blank text |
| Bm25.TokenizeAll | backend/automl/retrievers/bm25_retriever.py:23-26 | one token list per document |
| Bm25.TokenizeAllAt | backend/automl/retrievers/bm25_retriever.py:23-26 | token list i is the tokens of document i, in order |
| Bm25.IndexGrows | backend/automl/retrievers/bm25_retriever.py:30-34 | building the index from the first batch, or extending it with a later one, gives the tokens of all documents held |
| Bm25.ExpectedSpec | backend/automl/retrievers/bm25_retriever.py:36-74 | at most `top_k` hits, sorted best first, each positive, tagged bm25 and a stored document; none for an empty index |
| Bm25.HitsForFrom | backend/automl/retrievers/bm25_retriever.py:60-72 | each hit the loop appends is a candidate index's document with that index's score |
| Bm25.HitsForHas | backend/automl/retrievers/bm25_retriever.py:60-72 | every candidate index with a positive score has its hit in the results |
| Bm25.HitsForAllPositive | backend/automl/retrievers/bm25_retriever.py:60-72 | when every candidate scores above zero, no candidate is dropped |
| Bm25.ArgsortCovers | backend/automl/retrievers/bm25_retriever.py:57 | a descending argsort lists every document index |
| Bm25.ExpectedSound | backend/automl/retrievers/bm25_retriever.py:57-72 | every hit is some document among the first `top_k` of the argsort, with its own score |
| Bm25.ExpectedComplete | backend/automl/retrievers/bm25_retriever.py:57-72 | a document with a positive score is returned, or else exactly `top_k` hits come back and none scores below it |
| Bm25.BM25Retriever.constructor | backend/automl/retrievers/bm25_retriever.py:10-15 | starts with no index and no documents |
| Bm25.BM25Retriever.AppendBatch | backend/automl/retrievers/bm25_retriever.py:23-28 | the loop tokenizes each document and appends it and its id, in order |
| Bm25.BM25Retriever.AddDocuments | backend/automl/retrievers/bm25_retriever.py:17-34 | documents and ids are extended by the batch; an empty batch leaves the index as it was |
| Bm25.BM25Retriever.Retrieve | backend/automl/retrievers/bm25_retriever.py:36-74 | returns the expected hits for the scores and their descending argsort |
| Bm25.BM25Retriever.Clear | backend/automl/retrievers/bm25_retriever.py:76-80 | drops the index, the documents and the ids |
| Faiss.Scale | backend/automl/retrievers/faiss_retriever.py:48 | scaling keeps the width |
| Faiss.NormalizeRow | backend/automl/retrievers/faiss_retriever.py:48 | normalizing keeps the width |
| Faiss.NormalizedBelowOne | backend/automl/retrievers/faiss_retriever.py:48 | a row divided by its norm plus 1e-12 is shorter than one and a positive multiple of the row |
| Faiss.ShortNameSpec | backend/automl/retrievers/faiss_retriever.py:34 | the short model name holds no `/` and ends the model name |
| Faiss.SearchHitsSpec | backend/automl/retrievers/faiss_retriever.py:114-131 | at most `min(top_k, n)` hits, best first, each a stored document with its inner product; nothing left out scores higher |
| Faiss.FAISSRetriever.constructor | backend/automl/retrievers/faiss_retriever.py:11-30 | keeps the model name and normalization flag, with no documents and no index |
| Faiss.FAISSRetriever.Normalize | backend/automl/retrievers/faiss_retriever.py:44-48 | `_normalize` keeps the number of rows |
| Faiss.FAISSRetriever.NormalizeSpec | backend/automl/retrievers/faiss_retriever.py:44-48 | rows keep their width; with normalization on each is shorter than one and points the same way; off, nothing changes |
| Faiss.FAISSRetriever.Config | backend/automl/retrievers/faiss_retriever.py:36-42 | the `config` dictionary has exactly the keys model_name, normalize_embeddings and embedding_dim, holding the retriever's settings |
| Faiss.FAISSRetriever.NameSpec | backend/automl/retrievers/faiss_retriever.py:32-34 | the name is `faiss_` followed by the last `/`-separated part of the model name |
| Faiss.FAISSRetriever.AddDocuments | backend/automl/retrievers/faiss_retriever.py:50-81 | documents are extended by the batch and the index by its normalized embeddings; the first batch creates the index |
| Faiss.FAISSRetriever.Retrieve | backend/automl/retrievers/faiss_retriever.py:83-131 | nothing without documents or index, otherwise the hits of the search result |
| Faiss.FAISSRetriever.Clear | backend/automl/retrievers/hybrid_retriever.py:135 | the `clear` the hybrid calls: drops index and documents |
| Fusion.FirstDoc | backend/automl/retrievers/hybrid_retriever.py:80-81 | a document is recorded exactly for a returned id, and has that id |
| Fusion.Merge | backend/automl/retrievers/hybrid_retriever.py:74-89 | the merged dictionary is well formed |
| Fusion.MergeSpec | backend/automl/retrievers/hybrid_retriever.py:74-89 | the keys are the ids either retriever returned; each record holds the last BM25 and FAISS score (0.0 if absent) and the first document, BM25 first |
| Fusion.FoldTracks | backend/automl/retrievers/hybrid_retriever.py:78-89 | one merge loop keeps the dictionary well formed and records every hit |
| Fusion.MaxPositiveSpec | backend/automl/retrievers/hybrid_retriever.py:92-96 | the largest positive score bounds all scores and is one of them when any is positive |
| Fusion.Divisor | backend/automl/retrievers/hybrid_retriever.py:95-101 | the normalisation divisor is positive |
| Fusion.DivisorSpec | backend/automl/retrievers/hybrid_retriever.py:92-101 | the divisor bounds every score, is one of them when some score is positive, and is 1.0 otherwise |
| Fusion.FuseSpec | backend/automl/retrievers/hybrid_retriever.py:103-125 | at most one result per record, each reaching the threshold and built from its record; every key whose hybrid score reaches the threshold has its result among them |
| Fusion.SortDescPerm | backend/automl/retrievers/hybrid_retriever.py:128 | the sort is a permutation |
| Fusion.SortDescSorted | backend/automl/retrievers/hybrid_retriever.py:128 | the sort orders by non-increasing score |
| Fusion.SortDescStable | backend/automl/retrievers/hybrid_retriever.py:128 | the sort is stable: hits of one score keep their order |
| Fusion.HybridScaling | backend/automl/retrievers/hybrid_retriever.py:92-101 | both divisors are positive |
| Fusion.HybridSpec | backend/automl/retrievers/hybrid_retriever.py:52-130 | at most `top_k` results, best first; each is a document a sub-retriever returned (its first occurrence, BM25 first), scored `bm25_weight * bm25 / bm25_max + faiss_weight * faiss / faiss_max` over its last raw scores, reaching the threshold, tagged hybrid, with the raw scores as metadata |
| Fusion.TopComplete | backend/automl/retrievers/hybrid_retriever.py:128-130 | a hit not among the best `top_k` after the sort is beaten by `top_k` results |
| Fusion.HybridComplete | backend/automl/retrievers/hybrid_retriever.py:103-130 | every document either retriever returned whose hybrid score reaches the threshold is returned, unless `top_k` results score at least as much |
| Fusion.ScoreBound | backend/automl/retrievers/hybrid_retriever.py:107-114 | with non-negative weights a hybrid score never exceeds the sum of the weights |
| Hybrid.MergeLoop | backend/automl/retrievers/hybrid_retriever.py:77-89 | the merge loop computes the merge of its hits |
| Hybrid.FuseLoop | backend/automl/retrievers/hybrid_retriever.py:103-125 | the scoring loop computes the fused results in key order |
| Hybrid.FuseResults | backend/automl/retrievers/hybrid_retriever.py:74-130 | the two merge loops, the divisors, the scoring loop, the sort and the cut compute the hybrid results of the two result lists |
| Hybrid.HybridRetriever.constructor | backend/automl/retrievers/hybrid_retriever.py:11-37 | keeps the weights unchecked, with two fresh empty sub-retrievers |
| Hybrid.HybridRetriever.AddDocuments | backend/automl/retrievers/hybrid_retriever.py:39-50 | documents and ids grow by the batch and both sub-retrievers hold exactly the same documents |
| Hybrid.HybridRetriever.AddToBoth | backend/automl/retrievers/hybrid_retriever.py:45-46 | both sub-retrievers receive the batch |
| Hybrid.HybridRetriever.Retrieve | backend/automl/retrievers/hybrid_retriever.py:52-130 | returns the fused results of the two sub-retrievers asked for `2 * top_k` each |
| Hybrid.HybridRetriever.ClearAsWritten | backend/automl/retrievers/hybrid_retriever.py:132-137 | as written, BM25 is cleared and then an AttributeError leaves the documents in place and the sub-retrievers out of step |
| Hybrid.HybridRetriever.Clear | backend/automl/retrievers/hybrid_retriever.py:132-137 | as intended, both sub-retrievers and both lists are emptied, and the retriever stays consistent |
| Evaluation.Ratio | backend/evaluation.py:42-43 | a ratio of counts is a fraction, 1 exactly for equal non-zero counts, 0 exactly for a zero count |
| Evaluation.F1 | backend/evaluation.py:44 | F1 of two fractions is a fraction, 0 exactly when one is 0, and 1 for two ones |
| Evaluation.F1Symmetric | backend/evaluation.py:44 | F1 does not depend on the order of its arguments |
| Evaluation.PrecisionRecall | backend/evaluation.py:26-37 | nothing considered gives all zeros |
| Evaluation.PrecisionRecallSpec | backend/evaluation.py:9-50 | the scores are fractions; precision is 1 iff every considered id is relevant, recall 1 iff every relevant id was considered, both 0 iff none is shared |
| Evaluation.PrecisionRecallExample | backend/evaluation.py:29-50 | A, B, C retrieved against B, C, D relevant gives 2/3 for all three |
| Evaluation.FirstRelevant | backend/evaluation.py:69-71 | the first position whose id is relevant, or none |
| Evaluation.CalculateMrr | backend/evaluation.py:52-73 | the scan returns the reciprocal rank of the first relevant chunk |
| Evaluation.MrrSpec | backend/evaluation.py:52-73 | MRR is a fraction, 1 iff the first chunk is relevant, 0 iff none is |
| Evaluation.NGrams | backend/evaluation.py:95-97 | `len - n + 1` n-grams, the i-th being `words[i:i+n]` |
| Evaluation.TextGramsEmpty | backend/evaluation.py:95-97 | there are no n-grams exactly when the text has fewer than `n` words |
| Evaluation.Rouge | backend/evaluation.py:78-121 | the scores nested under `rouge_<n>`, or the flat zero dictionary |
| Evaluation.RougeTooShort | backend/evaluation.py:102-103 | the flat zero dictionary comes back iff one text has fewer than `n` words |
| Evaluation.RougeBounds | backend/evaluation.py:105-113 | the ROUGE scores are fractions |
| Evaluation.RougeKey | backend/evaluation.py:115-121 | the nested key is present iff there are scores |
| Evaluation.RougeSelf | backend/evaluation.py:105-113 | a text against itself scores 1, 1, 1 |
| Evaluation.RougeSymmetric | backend/evaluation.py:105-113 | swapping the texts swaps precision and recall and keeps F1 |
| Evaluation.Count | backend/evaluation.py:163-169 | an occurrence count is at most the length and 0 for an absent element |
| Evaluation.Clipped | backend/evaluation.py:171-177 | the clipped count is at most the number of generated n-grams |
| Evaluation.OrderPrecisionSpec | backend/evaluation.py:154-180 | each order's precision is a fraction, 0 for a too-short text and 1 for a text against itself |
| Evaluation.CountGrams | backend/evaluation.py:163-169 | the counting loop tallies each n-gram, keys in insertion order |
| Evaluation.ClipTotals | backend/evaluation.py:172-178 | the clipping loop sums the clipped counts and the generated counts |
| Evaluation.CalculateOrderPrecision | backend/evaluation.py:154-180 | one order of the loop computes that order's precision |
| Evaluation.Precisions | backend/evaluation.py:154-180 | one precision per order 1..max_n, in order |
| Evaluation.GramScoresSelf | backend/evaluation.py:105-113 | n-grams against themselves score 1, 1, 1 |
| Evaluation.GramScoresSymmetric | backend/evaluation.py:105-113 | swapping the n-gram lists swaps precision and recall and keeps F1 |
| Evaluation.Bleu | backend/evaluation.py:123-197 | BLEU has a result iff `max_n >= 1` |
| Evaluation.CalculateBleu | backend/evaluation.py:123-197 | the per-order loop computes the BLEU dictionary |
| Evaluation.BleuScore | backend/evaluation.py:187-191 | the score is 0 when some order's precision is 0, and the combined value otherwise |
| Evaluation.BleuKeys | backend/evaluation.py:193-197 | the result holds `bleu` and `bleu_<n>` for each order, each its precision, a fraction |
| Evaluation.Values | backend/evaluation.py:230 | the values of one metric, at most one per entry, present when the first entry has it |
| Evaluation.MeanKeyInjective | backend/evaluation.py:232 | different metrics have different `mean_` keys |
| Evaluation.AggregateSpec | backend/evaluation.py:226-244 | only the first entry's metrics are summarised, and each mean lies within the bounds of its values |
| Evaluation.EvaluationResult.constructor | backend/evaluation.py:202-208 | keeps the configuration, with empty metric lists |
| Evaluation.EvaluationResult.AddRetrievalMetrics | backend/evaluation.py:210-212 | appends to the retrieval list only |
| Evaluation.EvaluationResult.AddAnswerQualityMetrics | backend/evaluation.py:214-216 | appends to the answer-quality list only |
| Evaluation.EvaluationResult.GetSummary | backend/evaluation.py:218-246 | the summary holds the configuration, and an empty list summarises to an empty dictionary |
| Prompts.TemplateValuesSpec | backend/prompt_templates.py:6-13 | there are five template values, one per type |
| Prompts.ValueInjective | backend/prompt_templates.py:6-13 | different types have different values |
| Prompts.TemplateValuesDistinct | backend/prompt_templates.py:6-13 | the values are listed once each, at their types' positions |
| Prompts.PromptTemplate.Format | backend/prompt_templates.py:32-48 | `format` returns the formatted text, or the message of the error it met |
| Prompts.Expand | backend/prompt_templates.py:45-46 | expanding a template succeeds iff every placeholder has a value, and otherwise fails on a placeholder without one |
| Prompts.FormatField | backend/prompt_templates.py:46 | a placeholder is replaced by its value, or fails as missing |
| Prompts.FormatNoFields | backend/prompt_templates.py:46 | a text without braces formats to itself |
| Prompts.TemplateFormatSpec | backend/prompt_templates.py:32-48 | formatting succeeds iff every placeholder has a value, gives the expansion, and otherwise reports "Missing required template variable: '<name>'" |
| Prompts.RenderHasField | backend/prompt_templates.py:62-121 | a placeholder occurs in the template text after the text before it |
| Prompts.TemplateHasField | backend/prompt_templates.py:62-121 | a template's text contains each of its placeholders |
| Prompts.Variables | backend/prompt_templates.py:62-121 | the input variables of a default are `context` and `question`, once each |
| Prompts.DefaultFields | backend/prompt_templates.py:62-121 | the placeholders of a default sit at the context and question positions only |
| Prompts.DefaultFieldsDeclared | backend/prompt_templates.py:62-121 | every placeholder of a default is one of its input variables |
| Prompts.DefaultVariablesUsed | backend/prompt_templates.py:62-121 | every input variable of a default has a placeholder |
| Prompts.DefaultTemplatesSpec | backend/prompt_templates.py:58-122 | the default store holds exactly the five values, each under its own name |
| Prompts.FreshStoreSpec | backend/prompt_templates.py:58-122 | in a fresh store each type's value finds that type's default |
| Prompts.PromptTemplateManager.constructor | backend/prompt_templates.py:54-56 | the store starts with the five defaults, in declaration order |
| Prompts.PromptTemplateManager.GetTemplate | backend/prompt_templates.py:124-139 | the stored template, or "Unknown template type: <key>" |
| Prompts.PromptTemplateManager.AddTemplate | backend/prompt_templates.py:141-153 | a taken name fails and changes nothing; otherwise the template is stored last and every other entry is kept |
| Prompts.PromptTemplateManager.ListTemplates | backend/prompt_templates.py:155-164 | one listing per stored template, in insertion order |
| Prompts.PromptTemplateManager.FormatPrompt | backend/prompt_templates.py:166-178 | an unknown key fails, otherwise the stored template formats the variables |
| Orchestrator.SearchSpaceDistinct | backend/automl/orchestrator.py:385-402 | the search space's parameters are distinct |
| Orchestrator.TemplateOptionsSpec | backend/automl/orchestrator.py:401 | the template options are exactly the template types' values |
| Orchestrator.RepairOverlap | backend/automl/orchestrator.py:421-423 | an overlap not below the size becomes `max(0, size - 10)`, below any size of at least 1; nothing else changes |
| Orchestrator.RepairWeights | backend/automl/orchestrator.py:425-430 | a hybrid configuration's weights are real and sum to 1; other configurations are unchanged |
| Orchestrator.RepairTemplate | backend/automl/orchestrator.py:432-438 | an invalid template becomes the drawn valid one; a valid one stays; nothing else changes |
| Orchestrator.PicksSpec | backend/automl/orchestrator.py:405-419 | every search-space parameter is present; a drawn one holds one of its options, any other keeps the base value |
| Orchestrator.PicksShaped | backend/automl/orchestrator.py:410-419 | a drawn configuration holds the six always-drawn parameters from their options |
| Orchestrator.PicksStep | backend/automl/orchestrator.py:410-419 | one more parameter is drawn exactly when it is missing or always redrawn |
| Orchestrator.DrawParam | backend/automl/orchestrator.py:411-419 | one step of the sampling loop |
| Orchestrator.Draw | backend/automl/orchestrator.py:407-419 | the sampling loop gives the base configuration updated with its picks |
| Orchestrator.RepairDrawn | backend/automl/orchestrator.py:421-438 | the three in-place repairs compute the repair function |
| Orchestrator.GenerateOne | backend/automl/orchestrator.py:407-438 | one configuration is a draw followed by the repairs |
| Orchestrator.GeneratedKeys | backend/automl/orchestrator.py:405-440 | a generated configuration holds every search-space parameter and the base's keys, and keeps the base's values where nothing is drawn |
| Orchestrator.GeneratedSizes | backend/automl/orchestrator.py:387-388 | sizes, overlaps and `top_k` come from their options and the overlap is always below the size |
| Orchestrator.GeneratedTemplate | backend/automl/orchestrator.py:401 | the template is always one of the types' values |
| Orchestrator.GeneratedWeights | backend/automl/orchestrator.py:425-430 | hybrid weights are positive and sum to 1; other configurations keep their drawn weights |
| Orchestrator.GenerateConfigurations | backend/automl/orchestrator.py:367-442 | `max(0, num_configs)` configurations, each a repaired fresh draw from the base |
| Orchestrator.CreateRetriever | backend/automl/orchestrator.py:54-81 | faiss, bm25 and hybrid are built with their defaults; any other type fails as unsupported |
| Orchestrator.CreateRetrieverAsWritten | backend/automl/orchestrator.py:54-81 | as written, only a faiss configuration builds, as the intended dispatch does; bm25 and hybrid fail with the abstract-class error |
| Orchestrator.AbstractRetrieverFinding | backend/automl/retrievers/base.py:34-38 | as written, every bm25 or hybrid configuration fails to build its retriever |
| Orchestrator.GeneratedRetriever | backend/automl/orchestrator.py:386 | a drawn retriever type always builds; as written only faiss does |
| Orchestrator.CreateProcessorConfig | backend/automl/orchestrator.py:83-93 | an unknown strategy fails first; otherwise success iff the sizes are integers or booleans (read as 1 and 0) within the field constraints, keeping them; a size that is neither fails as not an integer |
| Orchestrator.ProcessorConfigDefaults | backend/automl/orchestrator.py:87-93 | an empty configuration gives the default processor configuration |
| Orchestrator.GeneratedProcessorConfig | backend/automl/orchestrator.py:387-389 | a generated configuration with a known strategy builds a processor configuration that even the corrected validation accepts |
| Orchestrator.SelectTemplate | backend/automl/orchestrator.py:286-298 | a list or dictionary template fails; a valid value is kept; anything else becomes "simple"; other keys are unchanged |
| Orchestrator.SelectTemplateSpec | backend/automl/orchestrator.py:286-298 | the stored template value names a default template of that name |
| Orchestrator.HitChunks | backend/automl/orchestrator.py:122-132 | one chunk per retrieved document, with its id |
| Orchestrator.DocChunks | backend/automl/orchestrator.py:134-144 | one chunk per relevant document, with its id |
| Orchestrator.QueryEntry | backend/automl/orchestrator.py:147-157 | a query's entry holds the query, precision/recall/F1 at `top_k` and MRR, all fractions |
| Orchestrator.MetricValues | backend/automl/orchestrator.py:162 | one value per entry, that entry's metric |
| Orchestrator.MetricMeanBounds | backend/automl/orchestrator.py:164 | each metric's mean is a fraction when every entry's metrics are |
| Orchestrator.MeansUpToSpec | backend/automl/orchestrator.py:160-165 | there is a `mean_<metric>` per metric exactly when there are entries, each the mean over all entries |
| Orchestrator.MetricNamesDistinct | backend/automl/orchestrator.py:161 | the four metric names are distinct |
| Orchestrator.MeansUpToBounds | backend/automl/orchestrator.py:160-165 | every mean is a fraction when every entry's metrics are |
| Orchestrator.QueryEntries | backend/automl/orchestrator.py:114-157 | the per-query loop computes each query's entry, in order |
| Orchestrator.MeansOf | backend/automl/orchestrator.py:160-165 | the loop over the metric names computes the means |
| Orchestrator.EvaluateRetrieval | backend/automl/orchestrator.py:95-167 | the entries of the queries and their means |
| Orchestrator.RetrievalScore | backend/automl/orchestrator.py:321-325 | the retrieval score is a fraction when the means are, and 0 without means |
| Orchestrator.AnswerScore | backend/automl/orchestrator.py:329-333 | the answer score is a fraction when the answer means are |
| Orchestrator.Score | backend/automl/orchestrator.py:327-337 | 0.6 retrieval + 0.4 answer score with answer metrics, the retrieval score alone without; a fraction when the means are |
| Orchestrator.ScorePerfect | backend/automl/orchestrator.py:321-337 | perfect retrieval (and perfect answers, if any) scores 1 |
| Orchestrator.RougeF1 | backend/automl/orchestrator.py:214-221 | the ROUGE-n F1 lookup succeeds iff both texts have at least `n` words, with a fraction; otherwise it raises KeyError on `rouge_<n>` |
| Orchestrator.BleuValue | backend/automl/orchestrator.py:224-226 | BLEU with four orders always has a `bleu` value, 0 or the combined part |
| Orchestrator.ScoreAnswer | backend/automl/orchestrator.py:212-230 | scoring an answer fails iff a text has fewer than two words, on `rouge_1` when one has none and on `rouge_2` otherwise; the ROUGE scores are fractions and BLEU is 0 or the combined part |
| Orchestrator.PlaceholderWords | backend/automl/orchestrator.py:209 | the placeholder answer has at least two words, so it never causes the KeyError |
| Orchestrator.AnswerEntryFails | backend/automl/orchestrator.py:191-230 | one query fails iff it has a non-empty reference answer of fewer than two words |
| Orchestrator.AnswerEntryError | backend/automl/orchestrator.py:214-221 | a failing query raises KeyError on `rouge_1` when its reference has no word, on `rouge_2` otherwise |
| Orchestrator.AnswerEntryBounds | backend/automl/orchestrator.py:212-230 | a scored query's ROUGE scores are fractions, and BLEU too when the combined part is |
| Orchestrator.EvaluateAnswerQuality | backend/automl/orchestrator.py:169-239 | the loop over the queries computes the answer means, or stops with the first error |
| Orchestrator.FailureSticks | backend/automl/orchestrator.py:189-230 | an error raised at some query is the loop's result |
| Orchestrator.AnswerListsSucceed | backend/automl/orchestrator.py:189-230 | queries whose references are all scorable fill the lists without error |
| Orchestrator.AnswerListsBad | backend/automl/orchestrator.py:189-230 | one unscorable reference makes the loop fail |
| Orchestrator.AnswerListsError | backend/automl/orchestrator.py:189-230 | an error of the loop is the error of a query with an unscorable reference |
| Orchestrator.AnswerListsBounds | backend/automl/orchestrator.py:189-230 | every listed score is a fraction when the combined part always is |
| Orchestrator.AnswerMeansSpec | backend/automl/orchestrator.py:232-237 | the means are empty iff no query was scored, and otherwise exactly `mean_rouge_1_f1`, `mean_rouge_2_f1` and `mean_bleu`, each the mean of its list; fractions when the scores are |
| Orchestrator.AnswerQualityBounds | backend/automl/orchestrator.py:169-239 | every answer mean is a fraction when the combined part always is |
| Orchestrator.AnswerQualityFails | backend/automl/orchestrator.py:169-239 | answer quality succeeds iff every reference is scorable, and otherwise fails with the KeyError of an unscorable query |
| Orchestrator.EvalRecord.Keys | backend/automl/orchestrator.py:345-365 | a result has `score` iff scored and `error` iff not; `answer_metrics` iff there are answer metrics |
| Orchestrator.AsInt | backend/evaluation.py:26-27 | the values Python accepts as the slice bound `k`: an integer, or a bool as 1 or 0 |
| Orchestrator.EvaluateWith | backend/automl/orchestrator.py:241-365 | the evaluation with a given retriever dispatch: a dispatch failure is recorded with the unchanged configuration; the record carries the configuration (with the template name written back), its score is the score of its own metrics, and answer metrics appear only when some query has a reference |
| Orchestrator.Evaluate | backend/automl/orchestrator.py:241-365 | the evaluation with the corrected dispatch, with the same guarantees; an unsupported retriever type is recorded as such |
| Orchestrator.EvaluateAsWritten | backend/automl/orchestrator.py:241-365 | the evaluation with the dispatch as written: any configuration that is not "faiss" is recorded as an error |
| Orchestrator.EvaluateAsWrittenSpec | backend/automl/retrievers/base.py:34-38 | as written, only "faiss" configurations are scored: a "bm25" or "hybrid" one is recorded with its abstract-class error, and a "faiss" one is evaluated as with the corrected dispatch |
| Orchestrator.ScoredRecord | backend/automl/orchestrator.py:300-365 | past the builders, the record keeps its configuration, is scored with empty answer metrics when no query has a reference, and is an error exactly when answer quality fails |
| Orchestrator.Assess | backend/automl/orchestrator.py:300-357 | the retrieval evaluation, the answer-quality evaluation and the scoring compute the record |
| Orchestrator.EvaluateSpec | backend/automl/orchestrator.py:241-365 | a configuration is scored iff retriever, chunker configuration and template build, `top_k` is an integer (a bool counts) or there is no query and, when some query has a reference, every reference is scorable; past the builders an error is the answer-quality one; a retriever error keeps the configuration |
| Orchestrator.EvaluateBounds | backend/automl/orchestrator.py:318-337 | a scored record's retrieval means are fractions, and so is its score when the answer means are, as they are when the combined part always is |
| Orchestrator.ScoredRecordBounds | backend/automl/orchestrator.py:318-337 | for any `top_k`, a scored record's retrieval means are fractions, and so is its score when the answer means are |
| Orchestrator.GeneratedEvaluates | backend/automl/orchestrator.py:367-442 | a generated configuration with a known retriever type and strategy is scored whenever every reference answer is scorable |
| Orchestrator.EvaluateScored | backend/automl/orchestrator.py:241-357 | a configuration whose components build and whose `top_k` is an integer is scored when every reference answer is scorable |
| Orchestrator.FirstBest | backend/automl/orchestrator.py:497-501 | the first scored record with the highest score, none iff no record is scored |
| Orchestrator.AsWrittenBest | backend/automl/orchestrator.py:497-507 | as written, the best of a run's records is a "faiss" configuration, and a run with no "faiss" configuration has no best |
| Orchestrator.AutoMLOrchestrator.constructor | backend/automl/orchestrator.py:47-49 | no best configuration and a best score of minus infinity |
| Orchestrator.AutoMLOrchestrator.EvaluateConfiguration | backend/automl/orchestrator.py:241-365 | returns the evaluation record; a score above the best so far becomes the best, with its configuration; otherwise the best is unchanged |
| Orchestrator.AutoMLOrchestrator.EvaluateAll | backend/automl/orchestrator.py:472-491 | one record per configuration, in order; the best changes only when some record is scored |
| Orchestrator.AutoMLOrchestrator.Run | backend/automl/orchestrator.py:444-507 | `max(0, num_configs)` generated configurations each evaluated; the best becomes the first highest-scored record, or stays as it was when none is scored |
| Orchestrator.AutoMLOrchestrator.GetBestConfig | backend/automl/orchestrator.py:533-540 | the best configuration and score found so far |

## Left out

- Embedding models, FAISS and BM25 scoring: the sentence embeddings, their norms, the FAISS search result and the BM25 scores with their argsort are parameters, constrained by what the libraries promise.
- Floating point: scores are reals. The float32 conversion, the `1e-12` rounding and NumPy's mean are exact here.
- `np.argsort` tie order among equal BM25 scores is not fixed by the model; any descending argsort is accepted.
- Standard deviations (`std_<metric>` in the retrieval means and `get_summary`) are not modelled, because they need a square root.
- Evaluation.Bleu: the brevity penalty and the weighted geometric mean of the precisions are a parameter (`combined`), because they need `exp` and `log`. The zero case and the per-order precisions are modelled.
- Evaluation.Bleu: a zero `max_n` is the ZeroDivisionError that `1.0/max_n` raises when the default weights are built (evaluation.py:147), and a negative `max_n` is the ValueError of `min([])`; the error messages themselves are not modelled.
- `str.format` is modelled for templates with plain keyword placeholders and doubled braces only. Positional, indexed and attribute fields and format specs report `Unsupported`.
- `str.lower` is modelled for ASCII letters only. Whitespace for `strip()` and `split()` is Python's `str.isspace` set, Unicode characters included (Text.IsSpace).
- Prompts.Default: the default template texts are not checked to be free of stray braces beyond the segment structure.
- Pydantic coercion: a configuration value that is not an integer makes processor-configuration building fail (`NotAnInteger`). A boolean is read as 1 or 0, as Pydantic's lax integer fields do; Pydantic's string-to-int and float-to-int coercions are not modelled.
- Error messages of caught exceptions are kept as structured `EvalError` values rather than the text of `str(e)`.
- Document ingestion in `_evaluate_configuration` (processing the training documents and adding chunks to the retriever) is not composed with the retriever classes. What a configuration's retriever returns for a query is the `retrieve` parameter.
- `_evaluate_answer_quality` scores the placeholder answer `Generated answer for: <query>` (orchestrator.py:206-209) with the modelled ROUGE and BLEU; only BLEU's `exp`/`log` part is the `combined` parameter. The retrieval and the prompt it formats for each query (orchestrator.py:199-204) are not modelled, because neither reaches the metrics.
- Orchestrator.AnswerQuality: the `std_<metric>` entries of the answer means are not modelled, because they need a square root.
- Orchestrator.Evaluate: the orchestrator (Orchestrator.GeneratedEvaluates, Orchestrator.EvaluateScored, Orchestrator.AutoMLOrchestrator.EvaluateConfiguration, Orchestrator.AutoMLOrchestrator.EvaluateAll and Orchestrator.AutoMLOrchestrator.Run) is built on the corrected retriever dispatch, so "bm25" and "hybrid" configurations can be scored and chosen as best. As written they are recorded as errors; that program is Orchestrator.EvaluateAsWritten, and Orchestrator.AsWrittenBest states what it does to the best.
- Orchestrator.EvaluateSpec: a "fixed" configuration with `chunk_overlap >= chunk_size` never finishes ingesting a training document with non-blank content (Chunker.FixedLoopNeverEnds), but ingestion is not composed here, so the evaluation scores it. Generated configurations never have such an overlap (Orchestrator.GeneratedProcessorConfig).
- Orchestrator.EvaluateSpec: an explicit `None` `top_k` is an error here when there is a query. The source passes it on to the retriever, which may return nothing for an empty index, and `calculate_precision_recall` then cuts nothing.
- Bm25.BM25Retriever.AddDocuments: the second and later batches are assumed to be added by the library's `BM25Okapi.add_documents` (bm25_retriever.py:33-34). That library is not part of this model; if its index has no such method, a second batch raises AttributeError instead.
- Concurrency: `run` evaluates the configurations in a thread pool and collects them in completion order. The model evaluates them one after another, in generation order, so `all_results` is in generation order.
- Orchestrator.AutoMLOrchestrator.Run: the best record is the first with the highest score in that order. The source's `max` picks the first in completion order.
- Orchestrator.AutoMLOrchestrator.EvaluateConfiguration: the best is updated by each evaluation as in the source. Interleavings of concurrent updates are not modelled.
- `_save_results`, the output directory, timestamps and evaluation times (file I/O and clocks) are left out; a record's keys still include `evaluation_time` and `timestamp`.
- `self.results` and `max_workers` are never used by the modelled code paths.
- The base configuration's shallow copy: configurations are values, so the aliasing of nested values between the base and the generated copies is not modelled.
- `_evaluate_configuration` writes the chosen template name back into the caller's dictionary. Here the record carries the updated configuration instead.
- `DocumentProcessor.__init__` with no configuration uses the defaults (Models.DefaultProcessorConfig); the processor object itself is not a class here, since it holds only its configuration.
- Negative `top_k` for the retrievers: BM25 and FAISS `top_k` is a natural number. The metrics' `k` (Util.Prefix) does follow Python's negative slicing.

## Findings

| source | as written | input that shows it | evidently intended | confidence | as-written member | corrected member |
|---|---|---|---|---|---|---|
| backend/document_processor.py:71-73 | the fixed-size loop advances `start` by `chunk_size - chunk_overlap`, and validation accepts `chunk_overlap >= chunk_size` | `chunk_size=50, chunk_overlap=50`, any non-empty content: `start` stays 0 and the loop never ends | validation rejects an overlap not below the size | not executed | Chunker.FixedLoopNeverEnds | Models.MakeCheckedProcessorConfig, Chunker.CheckedConfigAdvances |
| backend/automl/retrievers/hybrid_retriever.py:132-137 | `clear` calls `self.faiss.clear()`, which `FAISSRetriever` does not define | none as the file stands, since `HybridRetriever()` already fails with TypeError for the missing abstract `name`; once `name` is implemented, any hybrid retriever holding documents: BM25 is emptied, then AttributeError, and the documents stay | both sub-retrievers and both lists are emptied | not executed | Hybrid.HybridRetriever.ClearAsWritten | Hybrid.HybridRetriever.Clear |
| backend/automl/retrievers/base.py:34-38 | `BM25Retriever` and `HybridRetriever` do not implement the abstract `name` property, so instantiating either raises TypeError | any configuration with `retriever_type` "bm25" or "hybrid": the evaluation records an error | both retrievers can be built and evaluated | not executed | Orchestrator.CreateRetrieverAsWritten, Orchestrator.AbstractRetrieverFinding, Orchestrator.AsWrittenBest | Orchestrator.CreateRetriever |
