# Relevance-scoring engine, modelled in Dafny

This project models the scoring core of a small document-ranking system,
`similarity_measures.py`. A `CosineSimilarity` engine is built from a
postings table that holds occurrence counts in two views:
document -> (term -> count) and term -> (document -> count). There are
three relevance models: raw term frequency (TF), TF-IDF and Okapi BM25.

- **Construction.** The constructor starts every per-engine table empty
  and runs the model's precomputation pass, `set_document_norms`, once.
  - TF fills the norm table.
  - TF-IDF fills an IDF table, then the norm table.
  - BM25 fills an IDF table, a length table, the average length `avgdl`, a
    per-document per-term weight table and the norm table.
- **Scoring.** Calling the engine with a query (term -> query frequency)
  builds a zero-default score table. `get_scores` then adds one share per
  (query term, document listed under it) pair.

The model keeps the source's imperative form:

- `CosineSimilarity` is a class whose fields are the engine's tables.
- The precomputation passes are methods with loops. Each loop visits the
  dictionary keys in an arbitrary order (`var k :| k in rest`).
- The score accumulator is a `ScoreTable` object that `get_scores` changes
  in place.

Every loop is proved against a specification function of the postings
table. Examples are `TFNorms`, `TFIDFIdf`, `BM25Idf`, `Lengths`,
`BM25Weights`, `Norms` and `Accumulated`. The properties the engine relies
on are lemmas about those functions.

`sqrt`, `ln` and `log10` are function parameters of the engine. Lemmas
that need their laws require `IsSqrt`/`IsLog`: square root, logarithm zero
at one and strictly increasing. Arithmetic is exact real arithmetic.

Modules:

- `Sums` (`sums.dfy`): sums over map values, order-independent, and the
  loop-step lemmas shared by the passes.
- `MathLaws` (`math_laws.dfy`): the laws assumed of `sqrt` and the logarithms.
- `Postings` (`postings.dfy`): the postings table, the transpose invariant,
  document frequency, and the documents a query matches.
- `Weights` (`weights.dfy`): the precomputed quantities as functions of the
  table, the value-level passes, and the laws of the formulas.
- `Accumulate` (`accumulate.dfy`): the zero-default score table and what
  it holds once a set of shares has been added.
- `Similarity` (`similarity.dfy`): the engine class, the shares each model
  adds, and the scoring properties.

Three behaviours of the code shape the model:

- **No zero-norm guard.** Lines 52 and 76 divide by the document's norm
  with no check for zero. The model makes every division a precondition.
  `TFScoringDefined`, `TFIDFScoringDefined` and `BM25ScoringDefined` say
  when the precondition holds. `TFIDFZeroNormHazard` shows a query that
  trips it.
- **`set_document_norms` is not idempotent.** Lines 66 and 89 fill the IDF
  tables with `+=`, so a second pass doubles them (`AddedTwiceDoubles`).
  The model runs the pass once, in the constructor, as the code does.
- **BM25 ignores the query frequency and the norm.** Line 122 adds the
  stored weight alone. The model scores BM25 the same way
  (`BM25IgnoresQueryFrequency`, `BM25ScoreIsWeightSum`).

## Model

| member | source | states |
|---|---|---|
| `Similarity.CosineSimilarity.constructor` | similarity_measures.py:11-22 | The tables start empty, and the single precomputation pass leaves the engine precomputed: every table the model uses holds exactly the value its formula gives for the postings table (`Valid`). |
| `Similarity.CosineSimilarity.TablesCoverDocuments` | similarity_measures.py:104-117 | After precomputation every document has a norm. Under BM25 every document has a weight row whose keys are exactly the document's terms. |
| `Similarity.CosineSimilarity.SetDocumentNorms` | similarity_measures.py:29-34 | Dispatches on the model. IDF tables receive `+=` of the formula's values. Length, weight and norm tables get one overwritten entry per document. |
| `Similarity.CosineSimilarity.SetTFNorms` | similarity_measures.py:45-47 | Every document's norm entry becomes sqrt of its sum of squared counts. Entries already there for other keys are kept. |
| `Similarity.CosineSimilarity.SetTFIDFDocumentNorms` | similarity_measures.py:58-70 | The IDF pass then the norm pass. The norm pass finds an IDF entry for every term it reads, so it never falls back to the zero default. |
| `Similarity.CosineSimilarity.SetTFIDFIdf` | similarity_measures.py:60-66 | Each term's entry receives `+= ln(N / df(t))`, with df counted over the term's postings. The result is `AddedTo(old table, TFIDFIdf)`. |
| `Similarity.CosineSimilarity.SetTFIDFNorms` | similarity_measures.py:68-70 | Every document's norm becomes sqrt of the sum of (count * idf)^2 over its terms. |
| `Similarity.CosineSimilarity.SetBM25DocumentNorms` | similarity_measures.py:81-117 | The IDF table receives `+=` of the BM25 IDFs. Lengths, avgdl, the weight table and the norms take exactly their formula values. The weights are defined, because avgdl > 0 or no document has a term. |
| `Similarity.CosineSimilarity.GetScores` | similarity_measures.py:49-122 | Whatever order the query terms and documents are visited in, the accumulator ends up holding its old scores plus every (term, document) share of the query. |
| `Similarity.CosineSimilarity.AddTermShares` | similarity_measures.py:73-76 | The inner loop adds one query term's share to every document listed under it, in any order. The accumulator gains exactly that term's shares. |
| `Similarity.CosineSimilarity.Score` | similarity_measures.py:24-27 | The score table's keys are exactly the documents listed under some query term. Each score is the sum of the shares the document receives. |
| `Similarity.CosineSimilarity.BM25ScoringDefined` | similarity_measures.py:119-122 | Under BM25 every query can be scored: each weight that scoring reads is present. |
| `Similarity.CosineSimilarity.TFScoringDefined` | similarity_measures.py:49-52 | Under TF a query whose listed counts are positive never divides by a zero norm. |
| `Similarity.CosineSimilarity.TFIDFScoringDefined` | similarity_measures.py:72-76 | Under TF-IDF a query can be scored when each document it reaches holds a term, with a positive count, that is missing from some document. |
| `Similarity.CosineSimilarity.TFIDFZeroNormHazard` | similarity_measures.py:66-76 | If a query reaches a document all of whose terms occur in every document, scoring that query is not defined: every IDF is ln 1 = 0, so the norm is 0. |
| `Similarity.CosineSimilarity.TFShareAtMostQueryFrequency` | similarity_measures.py:45-52 | Under TF a share qf * tf / norm for tf > 0 is defined and lies in [0, qf], because norm >= tf. |
| `Similarity.TermShares` | similarity_measures.py:50-52 | One query term contributes to exactly the documents listed under it. |
| `Similarity.QueryShares` | similarity_measures.py:50-52 | A query contributes for exactly its terms, and for each term exactly the documents listed under it. |
| `Similarity.ScoresOnEmptyTable` | similarity_measures.py:25-27 | Shares accumulated onto a fresh zero-default table score exactly the matched documents, each with the sum of its shares. |
| `Similarity.ReachedIsMatched` | similarity_measures.py:50-51 | The documents a query's shares reach are the documents listed under some query term. |
| `Similarity.SharesOfDocument` | similarity_measures.py:49-52 | A document receives exactly one share per query term that lists it, and that share is the model's formula for the pair. |
| `Similarity.WeightsCoverPostings` | similarity_measures.py:116-122 | A BM25 weight table with each document's terms as keys covers every (term, document) pair the postings list. |
| `Similarity.TFNormsDefined` | similarity_measures.py:45-52 | With the TF norm table, positive listed counts make every share of the query defined. |
| `Similarity.TFIDFNormsDefined` | similarity_measures.py:68-76 | With the TF-IDF tables, a reached document holding a rare term (positive count, df < N) has a positive norm, so its shares are defined. |
| `Similarity.TFShareBound` | similarity_measures.py:52 | A TF share qf * tf / norm with tf > 0 lies between 0 and qf. |
| `Similarity.BM25ScoreIsWeightSum` | similarity_measures.py:119-122 | A BM25 document's shares are its stored weights w(d, t) for the query terms that list it. So its score is the sum of those weights. |
| `Similarity.BM25IgnoresQueryFrequency` | similarity_measures.py:119-122 | Two BM25 queries with the same terms and any frequencies add identical shares, hence identical scores, e.g. {t:1} and {t:5}. |
| `Similarity.BM25TermShares` | similarity_measures.py:120-122 | One BM25 term's shares do not depend on its query frequency. |
| `Similarity.SameScoringSameShares` | similarity_measures.py:72-76 | Scoring reads nothing but the model, the postings and the model's own tables: equal reads give equal shares. |
| `Similarity.UnknownTermsScoreNothing` | similarity_measures.py:24-27 | A query made only of terms the index does not know can be scored, and leaves the score table empty. |
| `Similarity.SameTableSameShares` | similarity_measures.py:11-22 | Two precomputed engines of one model over one postings table add the same shares for every query. Precomputed state is a function of the table. |
| `Accumulate.Accumulated` | similarity_measures.py:52 | After the shares are added, the table holds exactly its old keys plus every reached document. |
| `Accumulate.AccumulatedOnEmpty` | similarity_measures.py:25-26 | On an empty table the scored documents are exactly those reached, each with the sum of its shares. |
| `Accumulate.AccumulateNothing` | similarity_measures.py:25 | Adding no shares leaves the table as it was. |
| `Accumulate.AccumulateNewTerm` | similarity_measures.py:50 | Starting on a query term that has contributed nothing yet changes no score. |
| `Accumulate.AccumulateOne` | similarity_measures.py:52 | One more share v for d is one `doc_to_score[d] += v` on the accumulated table: an absent d reads as 0, and every other score is untouched. |
| `Accumulate.ScoreTable.constructor` | similarity_measures.py:25 | A fresh accumulator holds no entry. |
| `Accumulate.ScoreTable.Add` | similarity_measures.py:52 | `scores[d] += x`, reading an absent entry as 0. Nothing else changes. |
| `Accumulate.ScoreTable.AddShare` | similarity_measures.py:76 | The same `+=`, seen as one step of a scoring pass: the table gains exactly one more share of the current term. |
| `Postings.IndexCoversDocuments` | similarity_measures.py:68-70 | A table with an entry for every term of the index has one for every term of every document, under the transpose invariant. |
| `Postings.DocumentFrequency` | similarity_measures.py:61-64 | The df counter ends as the number of listed documents with a positive count, and at most the number listed. |
| `Postings.DfCountsContainingDocuments` | similarity_measures.py:60-65 | df counted over the term view equals the count of containing documents in the document view, so 0 <= df(t) <= N. |
| `Postings.DfPositive` | similarity_measures.py:62-66 | A term with a positive count somewhere has df >= 1, so N / df is defined. |
| `Postings.UnknownTermsMatchNothing` | similarity_measures.py:50-51 | A query of unknown terms reaches no document. |
| `Postings.EmptyDocumentNeverMatched` | similarity_measures.py:50-51 | A document with no terms is never reached, so it never gets a score. |
| `Sums.SumValues` | similarity_measures.py:47 | Python's `sum` over a dictionary's values, in any order, is the exact sum of the values. |
| `Sums.SquaresOf` | similarity_measures.py:47 | Squaring every entry keeps the keys and gives non-negative values. |
| `Sums.SumRemove` | similarity_measures.py:46-47 | A sum does not depend on which key is taken first, so the dictionary's iteration order does not change it. |
| `Weights.Norms` | similarity_measures.py:45-117 | One norm per document vector, sqrt of the sum of its squared weights. It serves the TF, TF-IDF and BM25 norm tables alike (lines 47, 69-70 and 117). |
| `Weights.TFNorms` | similarity_measures.py:45-47 | The TF norm table has exactly the documents of the table as keys. |
| `Weights.TFIDFNorms` | similarity_measures.py:68-70 | The TF-IDF norm table has exactly the documents of the table as keys. |
| `Weights.TFIDFIdf` | similarity_measures.py:60-66 | The TF-IDF IDF table has exactly the terms of the index as keys. |
| `Weights.TFIDFIdfEntry` | similarity_measures.py:61-66 | The df the pass counts is positive, and the pass's value for a term is the table's entry for it. |
| `Weights.BM25Idf` | similarity_measures.py:83-89 | The BM25 IDF table has exactly the terms of the index as keys. |
| `Weights.BM25IdfEntry` | similarity_measures.py:84-89 | The pass's value for a term is the table's entry for it. |
| `Weights.AddedTo` | similarity_measures.py:66 | `table[k] += inc[k]` over a zero-default table keeps the old keys and adds those of `inc`. |
| `Weights.AddOne` | similarity_measures.py:89 | One `+=` on an IDF entry. It adds one more term of the pass's increments. |
| `Weights.AddedToEmpty` | similarity_measures.py:15-16 | On the empty table the constructor starts with, `+=` stores the increments themselves. |
| `Weights.AddedTwiceDoubles` | similarity_measures.py:66 | A second `+=` pass doubles every entry, so the pass is not idempotent. |
| `Weights.AddBM25Idf` | similarity_measures.py:83-89 | The BM25 IDF loop adds exactly log10((N - df + 0.5) / (df + 0.5)) to each term's entry. |
| `Weights.Lengths` | similarity_measures.py:93-99 | The length table has one entry per document. |
| `Weights.DocumentLength` | similarity_measures.py:94-97 | `this_len` ends as the sum of the document's counts. Zero counts add nothing either way. |
| `Weights.MeasureLengths` | similarity_measures.py:91-99 | The length loop stores every document's length, and `all_len` ends as the corpus total. |
| `Weights.LengthBounds` | similarity_measures.py:93-99 | A document's length is at least any of its counts, and the corpus length is at least any document's length. |
| `Weights.MeanTimesCount` | similarity_measures.py:102 | avgdl * N == all_len, and avgdl > 0 exactly when all_len > 0. |
| `Weights.AverageLengthPositive` | similarity_measures.py:102 | avgdl is positive exactly when the corpus has a positive count. |
| `Weights.BM25Denominator` | similarity_measures.py:113 | The denominator is at least k1 * (1 - b) = 0.5, so the weight formula never divides by zero. |
| `Weights.DocumentWeights` | similarity_measures.py:106-116 | A document's weight row has exactly the document's terms as keys. |
| `Weights.BM25Weights` | similarity_measures.py:104-116 | Every document gets a weight row with exactly its terms as keys. |
| `Weights.WeighDocument` | similarity_measures.py:105-115 | The inner loop builds the document's weight row and `s`, the sum of its squared weights. |
| `Weights.WeighDocuments` | similarity_measures.py:104-117 | The weight loop stores every document's weight row and sqrt of its sum of squares as the norm. |
| `Weights.BM25Pass` | similarity_measures.py:81-117 | The BM25 pass on values: IDF `+=`, lengths, avgdl, weights and norms, each exactly its formula. |
| `Similarity.Share` | similarity_measures.py:52-122 | The reference formula for one (term, document) share. TF: qf * tf / norm (line 52). TF-IDF: qf * idf * tf * idf / norm (lines 75-76). BM25: the stored weight w(d, t) (line 122). It is defined under `ShareDefined`. |
| `Similarity.CosineSimilarity.Valid` | similarity_measures.py:11-117 | The reference description of a precomputed engine: each table the model reads holds its formula's value for the postings table. |
| `Similarity.CosineSimilarity.StoreBM25` | similarity_measures.py:81-117 | The five BM25 fields take exactly the values the pass computed. |
| `Postings.Df` | similarity_measures.py:61-64 | The reference formula for df: the number of documents listed under the term with a positive count. |
| `Weights.IdfTFIDF` | similarity_measures.py:66 | The reference formula ln(N / df), for df > 0. |
| `Weights.IdfBM25` | similarity_measures.py:89 | The reference formula log10((N - df + 0.5) / (df + 0.5)). |
| `Weights.Mean` | similarity_measures.py:102 | The reference formula total / n on reals, for n > 0. |
| `Weights.AverageLength` | similarity_measures.py:102 | The reference formula avgdl = all_len / N, for N > 0. |
| `Weights.BM25Weight` | similarity_measures.py:113 | The reference formula idf * tf * (k1 + 1) / (tf + k1 * (1 - b + b * len / avgdl)), with k1 = 2 and b = 0.75. |
| `Weights.TFNormPositive` | similarity_measures.py:47 | norm(d)^2 = sum of tf^2 >= tf(d, t)^2, so a document reached through a term with tf > 0 has a positive TF norm. |
| `Weights.IdfTFIDFDecreasing` | similarity_measures.py:66 | N / df, and with it ln(N / df), strictly decreases as df grows. |
| `Weights.IdfTFIDFSign` | similarity_measures.py:66 | For 0 < df <= N the TF-IDF IDF is >= 0, and it is 0 exactly when df = N. |
| `Weights.TFIDFIdfNonNegative` | similarity_measures.py:60-66 | Every entry of the TF-IDF IDF table is non-negative. |
| `Weights.IdfBM25ArgumentDecreasing` | similarity_measures.py:89 | (N - df + 0.5) / (df + 0.5) strictly decreases as df grows. |
| `Weights.IdfBM25ArgumentRange` | similarity_measures.py:89 | The BM25 log argument is positive when df <= N, and below 1 exactly when df > N / 2. |
| `Weights.IdfBM25Laws` | similarity_measures.py:89 | The BM25 IDF strictly decreases with df, and is negative exactly for terms in more than half the documents. |
| `Weights.IdfOfUbiquitousTerm` | similarity_measures.py:66 | A term in all N documents has TF-IDF IDF ln 1 = 0. |
| `Weights.TFIDFNormZero` | similarity_measures.py:66-70 | A document whose every term (with a positive count) occurs in all documents has TF-IDF norm 0: the division hazard at line 76. |
| `Weights.TFIDFNormPositive` | similarity_measures.py:66-70 | A document holding a term with a positive count and df < N has a positive TF-IDF norm. |
| `Weights.BM25DenominatorIncreasing` | similarity_measures.py:113 | With k1 = 2 and b = 0.75, the denominator strictly increases with the document length. |
| `Weights.BM25WeightDecreasesWithLength` | similarity_measures.py:108-114 | For equal tf > 0 and idf > 0, a longer document gets a strictly smaller weight. |

## Left out

- Floating point. Scores, IDFs and norms are exact reals, so no rounding
  is modelled. Because sums are exact, the order in which a dictionary is
  visited cannot change a result, and the loops visit keys in any order.
- The numeric values of `math.sqrt`, `math.log` and `log(., 10)`. They are
  parameters of the engine. Only the laws in `MathLaws` are assumed, and
  only by the lemmas that require them. `math.log` raising on an argument
  <= 0 is not modelled. `IdfBM25ArgumentRange` shows the BM25 argument is
  positive whenever df <= N.
- ZeroDivisionError. Every division in the source becomes a precondition:
  - every df > 0 for TF-IDF (`Computable`); line 66 divides by df, not
    by N, so an empty table is accepted;
  - N > 0 and avgdl > 0 for BM25, unless no document has a term
    (`BM25Computable`);
  - a non-zero norm for every TF and TF-IDF share scoring reads
    (`ScoringDefined`).
- KeyError. Reading `token_to_doc_counts[token]` for an unknown term would
  insert an empty entry into a defaultdict-backed index, or raise on a
  plain dict. The inverted index is not part of this model. An unknown term
  is read as listing no documents (`PostingsOf`), and the postings table is
  never changed.
- Defaultdict reads that insert. Reading `token_to_idf_TFIDF[token]` or
  `doc_to_token_BM25[doc]` for a missing key inserts a zero or empty entry.
  The model's preconditions and lemmas show that every read during
  precomputation finds its key, so nothing is inserted. A scoring read of a
  missing key is excluded by `ScoringDefined`.
- `Similarity.CosineSimilarity.SetDocumentNorms`: its contract does not say
  which of the engine's other tables stay unchanged. The constructor only
  relies on the tables the model uses.
- The BM25 precomputation is computed on values (`Weights.BM25Pass`) and
  then stored into the engine's five fields in one step (`StoreBM25`). The
  source writes the fields as it goes. The stored values are the same.
- `Weights.MeasureLengths`: `all_len` is accumulated per document, by adding
  `this_len`, rather than per count inside the inner loop. The total is
  the same.
- Counts are natural numbers. The source's `count > 0` tests are kept,
  though a stored count of 0 contributes nothing either way.
- The inverted index, how postings are built or persisted, the tokenizer and
  stemmer, `preprocessor.py` and `run_queries.py` (argument parsing, file
  I/O, TREC output formatting). The postings table is an input that
  satisfies the transpose invariant (`IsTranspose`).
- The `abc` abstract-method machinery. The three models are the closed
  datatype `Measure`, and the engine dispatches on it.
