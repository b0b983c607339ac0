/**
 What each relevance model precomputes from the postings table, as
 functions of the table: term-frequency and TF-IDF document vectors and
 their Euclidean norms, the two IDF tables, BM25 document lengths, their
 average, and the BM25 per-document, per-term weights. The engine's
 construction is proved to fill its tables with exactly these values.
 */
module Weights {
  import opened Sums
  import opened MathLaws
  import opened Postings

  /** The BM25 saturation and length-normalisation constants. */
  const K1: real := 2.0
  const B: real := 0.75

  // ---------------------------------------------------------------- norms

  /** A document's raw term-frequency vector. */
  function TFVector(counts: map<Term, nat>): map<Term, real>
  {
    map t | t in counts :: counts[t] as real
  }

  /** A document's TF-IDF vector; a term missing from the IDF table reads
      as IDF 0, as with a zero-default dictionary. */
  function TFIDFVector(counts: map<Term, nat>, idf: map<Term, real>): map<Term, real>
  {
    map t | t in counts :: counts[t] as real * Get(idf, t, 0.0)
  }

  /** The Euclidean norm of a vector: the square root of its sum of squares. */
  ghost function Norm(sqrt: real -> real, v: map<Term, real>): real
  {
    sqrt(Sum(SquaresOf(v)))
  }

  /** The norm of every document vector, keyed by document. */
  ghost function Norms(sqrt: real -> real, vs: map<Doc, map<Term, real>>): (r: map<Doc, real>)
    ensures r.Keys == vs.Keys
  {
    map d | d in vs :: Norm(sqrt, vs[d])
  }

  /** TF norms: one entry per document of the table. */
  ghost function TFNorms(p: Postings, sqrt: real -> real): (r: map<Doc, real>)
    ensures r.Keys == p.docToTokenCounts.Keys
  {
    Norms(sqrt, map d | d in p.docToTokenCounts :: TFVector(p.docToTokenCounts[d]))
  }

  /** TF-IDF norms under a given IDF table: one entry per document. */
  ghost function TFIDFNorms(p: Postings, idf: map<Term, real>, sqrt: real -> real): (r: map<Doc, real>)
    ensures r.Keys == p.docToTokenCounts.Keys
  {
    Norms(sqrt, map d | d in p.docToTokenCounts :: TFIDFVector(p.docToTokenCounts[d], idf))
  }

  /** A document's TF norm, read off the table of TF norms. */
  lemma TFNormOf(p: Postings, sqrt: real -> real, d: Doc)
    requires d in p.docToTokenCounts
    ensures TFNorms(p, sqrt)[d] == sqrt(Sum(SquaresOf(TFVector(p.docToTokenCounts[d]))))
  {
  }

  /** A document's TF-IDF norm, read off the table of TF-IDF norms. */
  lemma TFIDFNormOf(p: Postings, idf: map<Term, real>, sqrt: real -> real, d: Doc)
    requires d in p.docToTokenCounts
    ensures TFIDFNorms(p, idf, sqrt)[d] == sqrt(Sum(SquaresOf(TFIDFVector(p.docToTokenCounts[d], idf))))
  {
  }

  // ----------------------------------------------------------------- IDF

  /** TF-IDF inverse document frequency, ln(N / df). */
  function IdfTFIDF(ln: real -> real, n: nat, df: nat): real
    requires df > 0
  {
    ln(n as real / df as real)
  }

  /** The argument of the BM25 logarithm, (N - df + 0.5) / (df + 0.5). */
  function IdfBM25Argument(n: nat, df: nat): real
  {
    (n as real - df as real + 0.5) / (df as real + 0.5)
  }

  /** BM25 inverse document frequency, log10 of the argument above. */
  function IdfBM25(log10: real -> real, n: nat, df: nat): real
  {
    log10(IdfBM25Argument(n, df))
  }

  /** The TF-IDF IDF table for a corpus of `n` documents: one entry per
      term of the index. */
  ghost function TFIDFIdf(p: Postings, ln: real -> real, n: nat): (r: map<Term, real>)
    requires EveryTermOccurs(p)
    ensures r.Keys == p.tokenToDocCounts.Keys
  {
    map t | t in p.tokenToDocCounts :: IdfTFIDF(ln, n, Df(p, t))
  }

  /** A term's entry in the TF-IDF IDF table, from its df as counted over
      the term's postings. */
  lemma TFIDFIdfEntry(p: Postings, ln: real -> real, t: Term, df: nat)
    requires EveryTermOccurs(p) && t in p.tokenToDocCounts
    requires df == |Positives(p.tokenToDocCounts[t])|
    ensures df > 0 && TFIDFIdf(p, ln, DocCount(p))[t] == IdfTFIDF(ln, DocCount(p), df)
  {
  }

  /** The BM25 IDF table for a corpus of `n` documents: one entry per
      term of the index. */
  ghost function BM25Idf(p: Postings, log10: real -> real, n: nat): (r: map<Term, real>)
    ensures r.Keys == p.tokenToDocCounts.Keys
  {
    map t | t in p.tokenToDocCounts :: IdfBM25(log10, n, Df(p, t))
  }

  /** A term's entry in the BM25 IDF table, from its df as counted over
      the term's postings. */
  lemma BM25IdfEntry(p: Postings, log10: real -> real, t: Term, df: nat)
    requires t in p.tokenToDocCounts
    requires df == |Positives(p.tokenToDocCounts[t])|
    ensures BM25Idf(p, log10, DocCount(p))[t] == IdfBM25(log10, DocCount(p), df)
  {
  }

  /** `table[k] += inc[k]` for every key of `inc`, on a zero-default table. */
  ghost function AddedTo<K>(table: map<K, real>, inc: map<K, real>): (r: map<K, real>)
    ensures r.Keys == table.Keys + inc.Keys
  {
    map k | k in table.Keys + inc.Keys :: Get(table, k, 0.0) + Get(inc, k, 0.0)
  }

  /** Before any key of `inc` is visited, nothing has been added. */
  lemma AddStart<K>(table: map<K, real>, inc: map<K, real>)
    ensures AddedTo(table, inc - inc.Keys) == table
  {
    var a := AddedTo(table, inc - inc.Keys);
    assert inc - inc.Keys == map[];
    assert a.Keys == table.Keys;
  }

  /** One more key of `inc` added into the table: the loop step of a `+=`
      pass that visits the keys of `inc` in any order. */
  lemma AddStep<K>(table0: map<K, real>, inc: map<K, real>, table: map<K, real>, rest: set<K>, k: K, x: real)
    requires k in rest && rest <= inc.Keys
    requires table == AddedTo(table0, inc - rest)
    requires x == inc[k]
    ensures table[k := Get(table, k, 0.0) + x] == AddedTo(table0, inc - (rest - {k}))
  {
    var a' := AddedTo(table0, inc - (rest - {k}));
    assert a'.Keys == table.Keys + {k};
  }

  /** Once no key of `inc` is left, all of it has been added. */
  lemma AddDone<K>(table: map<K, real>, inc: map<K, real>)
    ensures AddedTo(table, inc - {}) == AddedTo(table, inc)
  {
    assert inc - {} == inc;
  }

  /** `table[k] += x` on a zero-default table. In a `+=` pass over the
      keys of `inc`, with `x` the increment of `k`, it is one more key of
      `inc` added. */
  method AddOne<K>(table: map<K, real>, k: K, x: real,
                   ghost table0: map<K, real>, ghost inc: map<K, real>, ghost rest: set<K>)
    returns (table': map<K, real>)
    requires k in rest && rest <= inc.Keys && x == inc[k]
    requires table == AddedTo(table0, inc - rest)
    ensures table' == table[k := Get(table, k, 0.0) + x]
    ensures table' == AddedTo(table0, inc - (rest - {k}))
  {
    table' := table[k := Get(table, k, 0.0) + x];
    AddStep(table0, inc, table, rest, k, x);
  }

  /** On the empty table a fresh engine starts with, `+=` stores the
      increments themselves. */
  lemma AddedToEmpty<K>(inc: map<K, real>)
    ensures AddedTo(map[], inc) == inc
  {
  }

  /** The IDF pass is not idempotent: running it a second time doubles
      every entry. */
  lemma AddedTwiceDoubles<K>(inc: map<K, real>)
    ensures AddedTo(AddedTo(map[], inc), inc) == map k | k in inc :: 2.0 * inc[k]
  {
    AddedToEmpty(inc);
  }

  // ------------------------------------------------------- BM25 lengths

  /** len(d) for every document: the sum of its counts. */
  ghost function Lengths(p: Postings): (r: map<Doc, nat>)
    ensures r.Keys == p.docToTokenCounts.Keys
  {
    map d | d in p.docToTokenCounts :: Total(p.docToTokenCounts[d])
  }

  /** The inner loop of the length pass: one document's length, adding
      each positive count (a zero count adds nothing either way). */
  method DocumentLength(counts: map<Term, nat>) returns (len: nat)
    ensures len == Total(counts)
  {
    len := 0;
    var rest := counts.Keys;
    assert counts - rest == map[];
    while rest != {}
      invariant rest <= counts.Keys
      invariant len == Total(counts - rest)
      decreases rest
    {
      var t :| t in rest;
      TotalStep(counts, rest, t);
      if counts[t] > 0 {
        len := len + counts[t];
      }
      rest := rest - {t};
    }
    assert counts - rest == counts;
  }

  /** The length pass: every document's length and the corpus total,
      visiting the documents in any order. */
  method MeasureLengths(p: Postings) returns (lens: map<Doc, nat>, all: nat)
    ensures lens == Lengths(p)
    ensures all == AllLength(p)
  {
    ghost var full := Lengths(p);
    lens, all := map[], 0;
    var docs := p.docToTokenCounts.Keys;
    assert full - docs == map[];
    while docs != {}
      invariant docs <= full.Keys
      invariant lens == full - docs
      invariant all == Total(full - docs)
      decreases docs
    {
      var d :| d in docs;
      var thisLen := DocumentLength(p.docToTokenCounts[d]);
      LengthStep(p, full, docs, d, thisLen);
      all := all + thisLen;
      lens := lens[d := thisLen];
      docs := docs - {d};
    }
    assert full - docs == full;
  }

  /** One more document visited by the length pass: its length is copied
      into the table and added to the running total. */
  lemma LengthStep(p: Postings, full: map<Doc, nat>, docs: set<Doc>, d: Doc, len: nat)
    requires full == Lengths(p) && d in docs && docs <= full.Keys
    requires len == Total(p.docToTokenCounts[d])
    ensures (full - docs)[d := len] == full - (docs - {d})
    ensures Total(full - (docs - {d})) == Total(full - docs) + len
  {
    TotalStep(full, docs, d);
  }

  /** The total length of the corpus. */
  ghost function AllLength(p: Postings): nat
  {
    Total(Lengths(p))
  }

  /** avgdl, the mean document length. */
  ghost function AverageLength(p: Postings): real
    requires DocCount(p) > 0
  {
    Mean(AllLength(p), DocCount(p))
  }

  /** `total / n` on reals. */
  function Mean(total: nat, n: nat): real
    requires n > 0
  {
    total as real / n as real
  }

  /** The mean times the count is the total; the mean is positive exactly
      when the total is. */
  lemma MeanTimesCount(total: nat, n: nat)
    requires n > 0
    ensures Mean(total, n) * n as real == total as real
    ensures Mean(total, n) > 0.0 <==> total > 0
  {
    var m, all := n as real, total as real;
    assert all / m * m == all;
    if all > 0.0 {
      QuotientPositive(all, m);
    }
  }

  /** The BM25 precomputation divides by N and, for every (document, term)
      pair, by avgdl: N must be positive, and avgdl too unless no document
      has a term. */
  ghost predicate BM25Computable(p: Postings)
  {
    && DocCount(p) > 0
    && (AllLength(p) > 0 || forall d :: d in p.docToTokenCounts ==> p.docToTokenCounts[d] == map[])
  }

  /** avgdl is positive exactly when the corpus has a positive count. */
  lemma AverageLengthPositive(p: Postings)
    requires DocCount(p) > 0
    ensures AverageLength(p) > 0.0 <==> AllLength(p) > 0
  {
    MeanTimesCount(AllLength(p), DocCount(p));
  }

  /** A document is at least as long as any one of its counts, and the
      corpus at least as long as any one document. */
  lemma LengthBounds(p: Postings, d: Doc, t: Term)
    requires d in p.docToTokenCounts && t in p.docToTokenCounts[d]
    ensures Lengths(p)[d] >= p.docToTokenCounts[d][t]
    ensures AllLength(p) >= Lengths(p)[d]
  {
    TotalRemove(p.docToTokenCounts[d], t);
    TotalRemove(Lengths(p), d);
  }

  // ------------------------------------------------------- BM25 weights

  /** The BM25 denominator tf + k1 * (1 - b + b * len / avgdl). */
  function BM25Denominator(tf: nat, len: nat, avgdl: real): (r: real)
    requires avgdl > 0.0
    ensures r >= K1 * (1.0 - B)
  {
    assert B * len as real / avgdl >= 0.0;
    tf as real + K1 * (1.0 - B + B * len as real / avgdl)
  }

  /** w(d, t) = idf * tf * (k1 + 1) / (tf + k1 * (1 - b + b * len / avgdl)). */
  function BM25Weight(idf: real, tf: nat, len: nat, avgdl: real): real
    requires avgdl > 0.0
  {
    idf * tf as real * (K1 + 1.0) / BM25Denominator(tf, len, avgdl)
  }

  /** The weights are defined: avgdl is positive, or no document has a term. */
  ghost predicate WeightsDefined(p: Postings, avgdl: real)
  {
    avgdl > 0.0 || forall d :: d in p.docToTokenCounts ==> p.docToTokenCounts[d] == map[]
  }

  /** One document's BM25 weights: one per term of the document. */
  function DocumentWeights(counts: map<Term, nat>, idf: map<Term, real>, len: nat, avgdl: real)
    : (r: map<Term, real>)
    requires counts != map[] ==> avgdl > 0.0
    ensures r.Keys == counts.Keys
  {
    map t | t in counts :: BM25Weight(Get(idf, t, 0.0), counts[t], len, avgdl)
  }

  /** The BM25 weight table, from the IDF table and length table as stored:
      for every document, one weight per term of that document. */
  ghost function BM25Weights(p: Postings, idf: map<Term, real>, lens: map<Doc, nat>, avgdl: real)
    : (r: map<Doc, map<Term, real>>)
    requires WeightsDefined(p, avgdl)
    ensures r.Keys == p.docToTokenCounts.Keys
    ensures forall d :: d in r ==> r[d].Keys == p.docToTokenCounts[d].Keys
  {
    map d | d in p.docToTokenCounts ::
      DocumentWeights(p.docToTokenCounts[d], idf, Get(lens, d, 0), avgdl)
  }

  /** The inner loop of the weight pass: one document's weights and the sum
      of their squares, visiting its terms in any order. Every term read
      has an IDF entry. */
  method WeighDocument(counts: map<Term, nat>, idf: map<Term, real>, len: nat, avgdl: real)
    returns (weights: map<Term, real>, s: real)
    requires counts != map[] ==> avgdl > 0.0
    requires counts.Keys <= idf.Keys
    ensures weights == DocumentWeights(counts, idf, len, avgdl)
    ensures s == Sum(SquaresOf(weights))
  {
    ghost var full := DocumentWeights(counts, idf, len, avgdl);
    weights, s := map[], 0.0;
    var terms := counts.Keys;
    assert full - terms == map[];
    while terms != {}
      invariant terms <= counts.Keys
      invariant weights == full - terms
      invariant s == Sum(SquaresOf(weights))
      decreases terms
    {
      var t :| t in terms;
      var score := BM25Weight(idf[t], counts[t], len, avgdl);
      SumInsert(SquaresOf(weights), t, Square(score));
      assert SquaresOf(weights[t := score]) == SquaresOf(weights)[t := Square(score)];
      assert weights[t := score] == full - (terms - {t});
      weights := weights[t := score];
      s := s + Square(score);
      terms := terms - {t};
    }
    assert full - terms == full;
  }

  /** The weight pass: every document's weights and their norm, visiting
      the documents in any order. Every term read has an IDF entry and
      every document a length. */
  method WeighDocuments(p: Postings, idf: map<Term, real>, lens: map<Doc, nat>, avgdl: real,
                        sqrt: real -> real)
    returns (weights: map<Doc, map<Term, real>>, norms: map<Doc, real>)
    requires WeightsDefined(p, avgdl)
    requires forall d, t :: d in p.docToTokenCounts && t in p.docToTokenCounts[d] ==> t in idf
    requires p.docToTokenCounts.Keys <= lens.Keys
    ensures weights == BM25Weights(p, idf, lens, avgdl)
    ensures norms == Norms(sqrt, weights)
  {
    ghost var full := BM25Weights(p, idf, lens, avgdl);
    ghost var fullNorms := Norms(sqrt, full);
    weights, norms := map[], map[];
    var docs := p.docToTokenCounts.Keys;
    assert full - docs == map[];
    assert fullNorms - docs == map[];
    while docs != {}
      invariant docs <= full.Keys
      invariant weights == full - docs
      invariant norms == fullNorms - docs
      decreases docs
    {
      var d :| d in docs;
      var v, s := WeighDocument(p.docToTokenCounts[d], idf, lens[d], avgdl);
      NormOf(sqrt, full, d);
      RestoreStep(full, docs, d);
      RestoreStep(fullNorms, docs, d);
      weights := weights[d := v];
      norms := norms[d := sqrt(s)];
      docs := docs - {d};
    }
    RestoreDone(full);
    RestoreDone(fullNorms);
  }

  /** The norm table's entry for `d` is the norm of `d`'s vector. */
  lemma NormOf(sqrt: real -> real, vs: map<Doc, map<Term, real>>, d: Doc)
    requires d in vs
    ensures Norms(sqrt, vs)[d] == sqrt(Sum(SquaresOf(vs[d])))
  {
  }

  // ------------------------------------------------------------- laws

  /** A document reached through a term it contains (tf > 0) has a positive
      TF norm whose square is at least tf squared: the TF score never
      divides by zero for it. */
  lemma TFNormPositive(p: Postings, sqrt: real -> real, d: Doc, t: Term)
    requires IsSqrt(sqrt)
    requires d in p.docToTokenCounts && t in p.docToTokenCounts[d] && p.docToTokenCounts[d][t] > 0
    ensures TFNorms(p, sqrt)[d] > 0.0
    ensures Square(TFNorms(p, sqrt)[d]) >= Square(p.docToTokenCounts[d][t] as real)
  {
    var v := TFVector(p.docToTokenCounts[d]);
    var s := SumOfSquaresAtLeast(v, t);
    TFNormOf(p, sqrt, d);
  }

  /** A vector with an entry of at least one has a sum of squares of at
      least one, and at least that entry squared. */
  lemma SumOfSquaresAtLeast(v: map<Term, real>, t: Term) returns (s: real)
    requires t in v && v[t] >= 1.0
    ensures s == Sum(SquaresOf(v))
    ensures s >= Square(v[t]) && s >= 1.0
  {
    s := Sum(SquaresOf(v));
    SumAtLeast(SquaresOf(v), t);
    SquareAtLeastOne(v[t]);
  }

  /** The TF-IDF IDF strictly decreases as df grows, for a fixed N. */
  lemma IdfTFIDFDecreasing(ln: real -> real, n: nat, df1: nat, df2: nat)
    requires IsLog(ln)
    requires 0 < n && 0 < df1 < df2
    ensures n as real / df2 as real < n as real / df1 as real
    ensures IdfTFIDF(ln, n, df2) < IdfTFIDF(ln, n, df1)
  {
    QuotientDecreasing(n as real, df1 as real, df2 as real);
    QuotientPositive(n as real, df2 as real);
  }

  /** The TF-IDF IDF of a term occurring in df <= N documents is never
      negative, and is zero exactly when the term occurs in every document. */
  lemma IdfTFIDFSign(ln: real -> real, n: nat, df: nat)
    requires IsLog(ln)
    requires 0 < df <= n
    ensures IdfTFIDF(ln, n, df) >= 0.0
    ensures IdfTFIDF(ln, n, df) == 0.0 <==> df == n
  {
    var x := n as real / df as real;
    QuotientBelowOne(n as real, df as real);
    QuotientPositive(n as real, df as real);
    assert df == n ==> x == 1.0;
    LogSign(ln, x);
  }

  /** Every entry of the TF-IDF IDF table is non-negative. */
  lemma TFIDFIdfNonNegative(p: Postings, ln: real -> real, t: Term)
    requires IsTranspose(p) && EveryTermOccurs(p) && IsLog(ln)
    requires t in p.tokenToDocCounts
    ensures TFIDFIdf(p, ln, DocCount(p))[t] >= 0.0
  {
    DfCountsContainingDocuments(p, t);
    IdfTFIDFSign(ln, DocCount(p), Df(p, t));
  }

  /** The BM25 logarithm's argument strictly decreases as df grows. */
  lemma IdfBM25ArgumentDecreasing(n: nat, df1: nat, df2: nat)
    requires df1 < df2
    ensures IdfBM25Argument(n, df2) < IdfBM25Argument(n, df1)
  {
  }

  /** The BM25 logarithm's argument is positive whenever df <= N (so the
      logarithm is defined), and is below one exactly when df > N / 2. */
  lemma IdfBM25ArgumentRange(n: nat, df: nat)
    ensures df <= n ==> IdfBM25Argument(n, df) > 0.0
    ensures IdfBM25Argument(n, df) < 1.0 <==> 2 * df > n
  {
    QuotientBelowOne(n as real - df as real + 0.5, df as real + 0.5);
    if df <= n {
      QuotientPositive(n as real - df as real + 0.5, df as real + 0.5);
    }
  }

  /** The BM25 IDF strictly decreases as df grows, and is negative exactly
      for terms in more than half of the documents. */
  lemma IdfBM25Laws(log10: real -> real, n: nat, df1: nat, df2: nat)
    requires IsLog(log10)
    requires df1 < df2 <= n
    ensures IdfBM25(log10, n, df2) < IdfBM25(log10, n, df1)
    ensures IdfBM25(log10, n, df1) < 0.0 <==> 2 * df1 > n
  {
    IdfBM25ArgumentDecreasing(n, df1, df2);
    IdfBM25ArgumentRange(n, df1);
    IdfBM25ArgumentRange(n, df2);
    LogSign(log10, IdfBM25Argument(n, df1));
  }

  /** For a fixed tf and avgdl, the BM25 denominator strictly increases
      with the document length. */
  lemma BM25DenominatorIncreasing(tf: nat, len1: nat, len2: nat, avgdl: real)
    requires avgdl > 0.0 && len1 < len2
    ensures BM25Denominator(tf, len1, avgdl) < BM25Denominator(tf, len2, avgdl)
  {
    QuotientIncreasing(B * len1 as real, B * len2 as real, avgdl);
  }

  /** Length normalisation: for the same tf and a positive IDF, a longer
      document gets a strictly smaller BM25 weight. */
  lemma BM25WeightDecreasesWithLength(idf: real, tf: nat, len1: nat, len2: nat, avgdl: real)
    requires avgdl > 0.0 && len1 < len2
    requires idf > 0.0 && tf > 0
    ensures BM25Weight(idf, tf, len2, avgdl) < BM25Weight(idf, tf, len1, avgdl)
  {
    BM25DenominatorIncreasing(tf, len1, len2, avgdl);
    var num := idf * tf as real * (K1 + 1.0);
    ProductPositive(idf, tf as real);
    ProductPositive(idf * tf as real, K1 + 1.0);
    QuotientDecreasing(num, BM25Denominator(tf, len1, avgdl), BM25Denominator(tf, len2, avgdl));
  }

  /** The TF-IDF division hazard: a document each of whose terms occurs in
      every document (or not at all in it) has TF-IDF norm 0, since every
      such IDF is ln(N / N) = ln 1 = 0. */
  lemma TFIDFNormZero(p: Postings, ln: real -> real, sqrt: real -> real, d: Doc)
    requires IsTranspose(p) && EveryTermOccurs(p) && IsLog(ln) && IsSqrt(sqrt)
    requires d in p.docToTokenCounts
    requires forall t :: t in p.docToTokenCounts[d] ==>
               p.docToTokenCounts[d][t] == 0 || Df(p, t) == DocCount(p)
    ensures TFIDFNorms(p, TFIDFIdf(p, ln, DocCount(p)), sqrt)[d] == 0.0
  {
    var n := DocCount(p);
    var idf := TFIDFIdf(p, ln, n);
    var counts := p.docToTokenCounts[d];
    forall t | t in counts && counts[t] != 0
      ensures Get(idf, t, 0.0) == 0.0
    {
      assert t in p.tokenToDocCounts;
      UbiquitousEntry(p, ln, n, t);
    }
    VectorOfZeroIdfs(counts, idf);
    TFIDFNormOf(p, idf, sqrt, d);
  }

  /** A term listed by every document has entry 0 in the TF-IDF IDF table. */
  lemma UbiquitousEntry(p: Postings, ln: real -> real, n: nat, t: Term)
    requires EveryTermOccurs(p) && IsLog(ln)
    requires t in p.tokenToDocCounts && Df(p, t) == n
    ensures TFIDFIdf(p, ln, n)[t] == 0.0
  {
    IdfOfUbiquitousTerm(ln, n);
  }

  /** A TF-IDF vector whose every non-zero count meets a zero IDF has sum of
      squares 0. */
  lemma VectorOfZeroIdfs(counts: map<Term, nat>, idf: map<Term, real>)
    requires forall t :: t in counts && counts[t] != 0 ==> Get(idf, t, 0.0) == 0.0
    ensures Sum(SquaresOf(TFIDFVector(counts, idf))) == 0.0
  {
    var v := TFIDFVector(counts, idf);
    forall t | t in v
      ensures SquaresOf(v)[t] == 0.0
    {
      assert v[t] == 0.0;
    }
    SumZero(SquaresOf(v));
  }

  /** A term in every one of N > 0 documents has TF-IDF IDF ln 1 = 0. */
  lemma IdfOfUbiquitousTerm(ln: real -> real, n: nat)
    requires IsLog(ln) && n > 0
    ensures IdfTFIDF(ln, n, n) == 0.0
  {
    assert n as real / n as real == 1.0;
  }

  /** Conversely, a document containing a term that is missing from some
      document has a positive TF-IDF norm. */
  lemma TFIDFNormPositive(p: Postings, ln: real -> real, sqrt: real -> real, d: Doc, t: Term)
    requires IsTranspose(p) && EveryTermOccurs(p) && IsLog(ln) && IsSqrt(sqrt)
    requires d in p.docToTokenCounts && t in p.docToTokenCounts[d]
    requires p.docToTokenCounts[d][t] > 0 && Df(p, t) < DocCount(p)
    ensures TFIDFNorms(p, TFIDFIdf(p, ln, DocCount(p)), sqrt)[d] > 0.0
  {
    var idf := TFIDFIdf(p, ln, DocCount(p));
    var v := TFIDFVector(p.docToTokenCounts[d], idf);
    assert t in p.tokenToDocCounts;
    IdfTFIDFSign(ln, DocCount(p), Df(p, t));
    assert idf[t] > 0.0;
    var s := SumOfSquaresPositive(v, t);
    assert TFIDFNorms(p, idf, sqrt)[d] == sqrt(s);
  }

  /** A vector with a positive entry has a positive sum of squares. */
  lemma SumOfSquaresPositive(v: map<Term, real>, t: Term) returns (s: real)
    requires t in v && v[t] > 0.0
    ensures s == Sum(SquaresOf(v)) && s > 0.0
  {
    var squares := SquaresOf(v);
    s := Sum(squares);
    SquarePositive(v[t]);
    SumAtLeast(squares, t);
  }

  // ------------------------------------------------- arithmetic helpers

  /** n / b < n / a when 0 < a < b and n > 0. */
  lemma QuotientDecreasing(n: real, a: real, b: real)
    requires 0.0 < n && 0.0 < a < b
    ensures n / b < n / a
  {
    assert n / b * b == n;
    assert n / a * a == n;
  }

  /** a / d < b / d when a < b and d > 0. */
  lemma QuotientIncreasing(a: real, b: real, d: real)
    requires 0.0 < d && a < b
    ensures a / d < b / d
  {
    assert a / d * d == a;
    assert b / d * d == b;
  }

  /** A quotient of positives is positive. */
  lemma QuotientPositive(a: real, d: real)
    requires 0.0 < a && 0.0 < d
    ensures 0.0 < a / d
  {
    assert a / d * d == a;
  }

  /** x / d is below one exactly when x is below d, for positive d. */
  lemma QuotientBelowOne(x: real, d: real)
    requires 0.0 < d
    ensures x / d < 1.0 <==> x < d
    ensures x / d > 1.0 <==> x > d
  {
    assert x / d * d == x;
  }

  /** A positive number whose square is at least the square of a
      non-negative `x` is at least `x`. */
  lemma SquareDominates(n: real, x: real)
    requires 0.0 < n && 0.0 <= x && Square(n) >= Square(x)
    ensures n >= x
  {
    assert (n - x) * (n + x) == Square(n) - Square(x);
  }

  /** q * x / n is at most q when 0 <= x <= n. */
  lemma QuotientAtMost(q: real, x: real, n: real)
    requires 0.0 <= q && 0.0 <= x <= n && 0.0 < n
    ensures 0.0 <= q * x / n <= q
  {
    var r := q * x / n;
    assert r * n == q * x;
    assert q * x <= q * n;
    assert (q - r) * n >= 0.0;
  }

  /** Casting a product of naturals to a real multiplies the casts. */
  lemma ProductAsReal(a: nat, b: nat)
    ensures (a * b) as real == a as real * b as real
  {
  }

  /** qf * tf / norm lies between 0 and qf when norm is positive and its
      square is at least tf squared. */
  lemma ShareAtMost(qf: nat, tf: nat, norm: real)
    requires 0.0 < norm && Square(norm) >= Square(tf as real)
    ensures 0.0 <= (qf * tf) as real / norm <= qf as real
  {
    SquareDominates(norm, tf as real);
    QuotientAtMost(qf as real, tf as real, norm);
    ProductAsReal(qf, tf);
  }

  /** A product of positives is positive. */
  lemma ProductPositive(a: real, b: real)
    requires 0.0 < a && 0.0 < b
    ensures 0.0 < a * b
  {
  }

  // ------------------------------------------------- BM25 precomputation

  /** BM25, first pass: for every term of the index, count df and add
      log10((N - df + 0.5) / (df + 0.5)) to the term's entry of `table0`. */
  method AddBM25Idf(p: Postings, log10: real -> real, table0: map<Term, real>) returns (table: map<Term, real>)
    ensures table == AddedTo(table0, BM25Idf(p, log10, DocCount(p)))
  {
    ghost var inc := BM25Idf(p, log10, DocCount(p));
    table := table0;
    var n := |p.docToTokenCounts.Keys|;
    var terms := p.tokenToDocCounts.Keys;
    AddStart(table0, inc);
    while terms != {}
      invariant terms <= inc.Keys
      invariant table == AddedTo(table0, inc - terms)
      decreases terms
    {
      var t :| t in terms;
      var df := DocumentFrequency(p.tokenToDocCounts[t]);
      BM25IdfEntry(p, log10, t, df);
      table := AddOne(table, t, IdfBM25(log10, n, df), table0, inc, terms);
      terms := terms - {t};
    }
    AddDone(table0, inc);
  }

  /** BM25's whole precomputation on the tables it starts from: the IDF
      pass (`+=` into `idf0`), the length pass and avgdl, then the weight
      pass, which finds an IDF entry and a length for everything it reads.
      Length, weight and norm entries are overwritten. */
  method BM25Pass(p: Postings, log10: real -> real, sqrt: real -> real,
                  idf0: map<Term, real>, lens0: map<Doc, nat>,
                  weights0: map<Doc, map<Term, real>>, norms0: map<Doc, real>)
    returns (idf: map<Term, real>, lens: map<Doc, nat>, avgdl: real,
             weights: map<Doc, map<Term, real>>, norms: map<Doc, real>)
    requires IsTranspose(p) && BM25Computable(p)
    ensures idf == AddedTo(idf0, BM25Idf(p, log10, DocCount(p)))
    ensures lens == lens0 + Lengths(p)
    ensures avgdl == AverageLength(p)
    ensures WeightsDefined(p, avgdl)
    ensures weights == weights0 + BM25Weights(p, idf, lens, avgdl)
    ensures norms == norms0 + Norms(sqrt, BM25Weights(p, idf, lens, avgdl))
  {
    idf := AddBM25Idf(p, log10, idf0);
    IndexCoversDocuments(p, idf.Keys);
    var newLens, allLen := MeasureLengths(p);
    lens := lens0 + newLens;
    avgdl := Mean(allLen, |p.docToTokenCounts.Keys|);
    AverageLengthPositive(p);
    var w, nm := WeighDocuments(p, idf, lens, avgdl, sqrt);
    weights := weights0 + w;
    norms := norms0 + nm;
  }
}
