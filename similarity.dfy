/**
 The similarity engine: one object per relevance model, built once from a
 postings table. Construction runs the model's precomputation pass, which
 fills the engine's own tables; each query then adds, into a zero-default
 score table, one share per (query term, document listing it) pair.
 */
module Similarity {
  import opened Sums
  import opened MathLaws
  import opened Postings
  import opened Weights
  import opened Accumulate

  /** The three relevance models, a closed set of variants. */
  datatype Measure = TF | TFIDF | BM25

  /** What the precomputation pass divides by is non-zero: TF-IDF divides
      N by df(t) for every term, BM25 divides the corpus length by N and,
      for every (document, term) pair, a length by avgdl. */
  ghost predicate Computable(measure: Measure, p: Postings)
  {
    match measure
    case TF => true
    case TFIDF => EveryTermOccurs(p)
    case BM25 => BM25Computable(p)
  }

  class CosineSimilarity {
    const measure: Measure
    const postings: Postings
    /** `math.sqrt`, `math.log` and `log(., 10)`. */
    const sqrt: real -> real
    const ln: real -> real
    const log10: real -> real

    var tokenToIdfTFIDF: map<Term, real>
    var tokenToIdfBM25: map<Term, real>
    var docToLenBM25: map<Doc, nat>
    var docToTokenBM25: map<Doc, map<Term, real>>
    var avgdl: real
    var docToNorm: map<Doc, real>

    /** The state of a precomputed engine: each table the model uses holds
        exactly the values its formulas give for the postings table. */
    ghost predicate Valid()
      reads this
    {
      match measure
      case TF =>
        docToNorm == TFNorms(postings, sqrt)
      case TFIDF =>
        && EveryTermOccurs(postings)
        && tokenToIdfTFIDF == TFIDFIdf(postings, ln, DocCount(postings))
        && docToNorm == TFIDFNorms(postings, tokenToIdfTFIDF, sqrt)
      case BM25 =>
        && BM25Computable(postings)
        && tokenToIdfBM25 == BM25Idf(postings, log10, DocCount(postings))
        && docToLenBM25 == Lengths(postings)
        && avgdl == AverageLength(postings)
        && WeightsDefined(postings, avgdl)
        && docToTokenBM25 == BM25Weights(postings, tokenToIdfBM25, docToLenBM25, avgdl)
        && docToNorm == Norms(sqrt, docToTokenBM25)
    }

    /** Starts every table empty and runs the precomputation pass once,
        which leaves the engine precomputed (see TablesCoverDocuments for
        what that gives every document). */
    constructor(measure: Measure, postings: Postings,
                sqrt: real -> real, ln: real -> real, log10: real -> real)
      requires IsTranspose(postings)
      requires Computable(measure, postings)
      ensures this.measure == measure && this.postings == postings
      ensures this.sqrt == sqrt && this.ln == ln && this.log10 == log10
      ensures Valid()
    {
      this.measure := measure;
      this.postings := postings;
      this.sqrt := sqrt;
      this.ln := ln;
      this.log10 := log10;
      tokenToIdfTFIDF := map[];
      tokenToIdfBM25 := map[];
      docToLenBM25 := map[];
      docToTokenBM25 := map[];
      avgdl := 0.0;
      docToNorm := map[];
      new;
      SetDocumentNorms();
      match measure
      case TF =>
        MergeOntoEmpty(TFNorms(postings, sqrt));
      case TFIDF =>
        AddedToEmpty(TFIDFIdf(postings, ln, DocCount(postings)));
        MergeOntoEmpty(TFIDFNorms(postings, tokenToIdfTFIDF, sqrt));
      case BM25 =>
        AddedToEmpty(BM25Idf(postings, log10, DocCount(postings)));
        MergeOntoEmpty(Lengths(postings));
        MergeOntoEmpty(BM25Weights(postings, tokenToIdfBM25, docToLenBM25, avgdl));
        MergeOntoEmpty(Norms(sqrt, BM25Weights(postings, tokenToIdfBM25, docToLenBM25, avgdl)));
    }

    /** The precomputation pass of the engine's model, dispatched on the
        model. The IDF tables are added to with `+=`, so running the pass a
        second time does not leave them as they were (see
        AddedTwiceDoubles); every other table entry is overwritten. */
    method SetDocumentNorms()
      requires IsTranspose(postings)
      requires Computable(measure, postings)
      modifies this
      ensures measure == TF ==> docToNorm == old(docToNorm) + TFNorms(postings, sqrt)
      ensures measure == TFIDF ==>
        && tokenToIdfTFIDF == AddedTo(old(tokenToIdfTFIDF), TFIDFIdf(postings, ln, DocCount(postings)))
        && docToNorm == old(docToNorm) + TFIDFNorms(postings, tokenToIdfTFIDF, sqrt)
      ensures measure == BM25 ==>
        && tokenToIdfBM25 == AddedTo(old(tokenToIdfBM25), BM25Idf(postings, log10, DocCount(postings)))
        && docToLenBM25 == old(docToLenBM25) + Lengths(postings)
        && avgdl == AverageLength(postings)
        && WeightsDefined(postings, avgdl)
        && docToTokenBM25 == old(docToTokenBM25) + BM25Weights(postings, tokenToIdfBM25, docToLenBM25, avgdl)
        && docToNorm == old(docToNorm) + Norms(sqrt, BM25Weights(postings, tokenToIdfBM25, docToLenBM25, avgdl))
    {
      match measure
      case TF =>
        SetTFNorms();
      case TFIDF =>
        SetTFIDFDocumentNorms();
      case BM25 =>
        SetBM25DocumentNorms();
    }

    /** TF-IDF's precomputation: the IDF pass, then the norm pass, which
        finds an IDF entry for every term it reads. */
    method SetTFIDFDocumentNorms()
      requires IsTranspose(postings) && EveryTermOccurs(postings)
      modifies this`tokenToIdfTFIDF, this`docToNorm
      ensures tokenToIdfTFIDF == AddedTo(old(tokenToIdfTFIDF), TFIDFIdf(postings, ln, DocCount(postings)))
      ensures docToNorm == old(docToNorm) + TFIDFNorms(postings, tokenToIdfTFIDF, sqrt)
    {
      SetTFIDFIdf();
      IndexCoversDocuments(postings, tokenToIdfTFIDF.Keys);
      SetTFIDFNorms();
    }

    /** BM25's precomputation, run on the engine's own tables. */
    method SetBM25DocumentNorms()
      requires IsTranspose(postings) && BM25Computable(postings)
      modifies this`tokenToIdfBM25, this`docToLenBM25, this`avgdl, this`docToTokenBM25, this`docToNorm
      ensures tokenToIdfBM25 == AddedTo(old(tokenToIdfBM25), BM25Idf(postings, log10, DocCount(postings)))
      ensures docToLenBM25 == old(docToLenBM25) + Lengths(postings)
      ensures avgdl == AverageLength(postings)
      ensures WeightsDefined(postings, avgdl)
      ensures docToTokenBM25 == old(docToTokenBM25) + BM25Weights(postings, tokenToIdfBM25, docToLenBM25, avgdl)
      ensures docToNorm == old(docToNorm) + Norms(sqrt, BM25Weights(postings, tokenToIdfBM25, docToLenBM25, avgdl))
    {
      var idf, lens, mean, weights, norms :=
        BM25Pass(postings, log10, sqrt, tokenToIdfBM25, docToLenBM25, docToTokenBM25, docToNorm);
      StoreBM25(idf, lens, mean, weights, norms);
    }

    /** Stores BM25's tables. */
    method StoreBM25(idf: map<Term, real>, lens: map<Doc, nat>, mean: real,
                     weights: map<Doc, map<Term, real>>, norms: map<Doc, real>)
      modifies this`tokenToIdfBM25, this`docToLenBM25, this`avgdl, this`docToTokenBM25, this`docToNorm
      ensures tokenToIdfBM25 == idf && docToLenBM25 == lens && avgdl == mean
      ensures docToTokenBM25 == weights && docToNorm == norms
    {
      tokenToIdfBM25, docToLenBM25, avgdl, docToTokenBM25, docToNorm := idf, lens, mean, weights, norms;
    }

    /** TF: the norm of every document is the square root of its sum of
        squared counts. */
    method SetTFNorms()
      modifies this`docToNorm
      ensures docToNorm == old(docToNorm) + TFNorms(postings, sqrt)
    {
      ghost var norms := TFNorms(postings, sqrt);
      var docs := postings.docToTokenCounts.Keys;
      while docs != {}
        invariant docs <= norms.Keys
        invariant docToNorm == old(docToNorm) + (norms - docs)
        decreases docs
      {
        var d :| d in docs;
        var s := SumValues(SquaresOf(TFVector(postings.docToTokenCounts[d])));
        TFNormOf(postings, sqrt, d);
        CopyStep(old(docToNorm), norms, docs, d);
        docToNorm := docToNorm[d := sqrt(s)];
        docs := docs - {d};
      }
      CopyDone(old(docToNorm), norms);
    }

    /** TF-IDF, first pass: for every term, count df and add ln(N / df) to
        the term's entry. */
    method SetTFIDFIdf()
      requires EveryTermOccurs(postings)
      modifies this`tokenToIdfTFIDF
      ensures tokenToIdfTFIDF == AddedTo(old(tokenToIdfTFIDF), TFIDFIdf(postings, ln, DocCount(postings)))
    {
      ghost var table0 := tokenToIdfTFIDF;
      ghost var inc := TFIDFIdf(postings, ln, DocCount(postings));
      var n := |postings.docToTokenCounts.Keys|;
      var terms := postings.tokenToDocCounts.Keys;
      AddStart(table0, inc);
      while terms != {}
        invariant terms <= inc.Keys
        invariant tokenToIdfTFIDF == AddedTo(table0, inc - terms)
        decreases terms
      {
        var t :| t in terms;
        var df := DocumentFrequency(postings.tokenToDocCounts[t]);
        TFIDFIdfEntry(postings, ln, t, df);
        tokenToIdfTFIDF := AddOne(tokenToIdfTFIDF, t, IdfTFIDF(ln, n, df), table0, inc, terms);
        terms := terms - {t};
      }
      AddDone(table0, inc);
    }

    /** TF-IDF, second pass: the norm of every document's TF-IDF vector.
        Every term the pass reads already has an IDF entry. */
    method SetTFIDFNorms()
      requires forall d, t :: d in postings.docToTokenCounts && t in postings.docToTokenCounts[d] ==>
                 t in tokenToIdfTFIDF
      modifies this`docToNorm
      ensures docToNorm == old(docToNorm) + TFIDFNorms(postings, tokenToIdfTFIDF, sqrt)
    {
      ghost var norms := TFIDFNorms(postings, tokenToIdfTFIDF, sqrt);
      var docs := postings.docToTokenCounts.Keys;
      while docs != {}
        invariant docs <= norms.Keys
        invariant docToNorm == old(docToNorm) + (norms - docs)
        decreases docs
      {
        var d :| d in docs;
        var s := SumValues(SquaresOf(TFIDFVector(postings.docToTokenCounts[d], tokenToIdfTFIDF)));
        TFIDFNormOf(postings, tokenToIdfTFIDF, sqrt, d);
        CopyStep(old(docToNorm), norms, docs, d);
        docToNorm := docToNorm[d := sqrt(s)];
        docs := docs - {d};
      }
      CopyDone(old(docToNorm), norms);
    }

    /** The part of the engine's state that scoring reads. */
    function State(): (s: ScoringState)
      reads this
      ensures s.measure == measure && s.postings == postings
    {
      ScoringState(measure, postings, tokenToIdfTFIDF, docToTokenBM25, docToNorm)
    }

    /** `get_scores`: for every query term and every document listed under
        it, add the pair's share to the caller's accumulator. Whatever the
        order of the terms and documents, the accumulator ends up holding
        its old scores plus every share. */
    method GetScores(acc: ScoreTable, query: Query)
      requires ScoringDefined(State(), query)
      modifies acc
      ensures acc.scores == Accumulated(old(acc.scores), QueryShares(State(), query))
    {
      var s := State();
      ghost var base := acc.scores;
      ghost var c := QueryShares(s, query);
      ghost var done: Contributions := map[];
      AccumulateNothing(base);
      var terms := query.Keys;
      assert done == c - terms;
      while terms != {}
        invariant terms <= query.Keys
        invariant done == c - terms
        invariant acc.scores == Accumulated(base, done)
        decreases terms
      {
        var t :| t in terms;
        AddTermShares(acc, s, t, query[t], base, done);
        RestoreStep(c, terms, t);
        done := done[t := c[t]];
        terms := terms - {t};
      }
      RestoreDone(c);
    }

    /** The inner loop of `get_scores`, for one query term `t` of query
        frequency `qf`: every document listed under `t` gets its share
        added, in any order. On an accumulator holding `base` plus the
        shares of `prior`, it adds the shares of `t`. */
    method AddTermShares(acc: ScoreTable, s: ScoringState, t: Term, qf: nat,
                         ghost base: map<Doc, real>, ghost prior: Contributions)
      requires TermDefined(s, t)
      requires t !in prior
      requires acc.scores == Accumulated(base, prior)
      modifies acc
      ensures acc.scores == Accumulated(base, prior[t := TermShares(s, t, qf)])
    {
      ghost var full := TermShares(s, t, qf);
      var docs := PostingsOf(s.postings, t).Keys;
      ghost var part := full - docs;
      TermStart(base, prior, t, full);
      while docs != {}
        invariant docs <= full.Keys
        invariant part == full - docs
        invariant acc.scores == Accumulated(base, prior[t := part])
        decreases docs
      {
        var d :| d in docs;
        var x := Share(s, t, qf, d);
        ShareOfTerm(s, t, qf, d);
        acc.AddShare(d, x, base, prior, t, part);
        RestoreStep(full, docs, d);
        part := part[d := x];
        docs := docs - {d};
      }
      RestoreDone(full);
    }

    /** `__call__`: a fresh zero-default accumulator filled by `get_scores`.
        Exactly the documents listed under some query term get a score, and
        each score is the sum of the shares the document receives. */
    method Score(query: Query) returns (r: map<Doc, real>)
      requires ScoringDefined(State(), query)
      ensures r.Keys == Matched(postings, query)
      ensures forall d :: d in r ==> r[d] == Sum(Shares(QueryShares(State(), query), d))
    {
      var acc := new ScoreTable();
      GetScores(acc, query);
      r := acc.scores;
      ScoresOnEmptyTable(State(), query, r);
    }

    /** In a precomputed engine every document has a norm and, under BM25,
        one weight per term it contains. */
    lemma TablesCoverDocuments()
      requires Valid()
      ensures docToNorm.Keys == postings.docToTokenCounts.Keys
      ensures measure == BM25 ==>
                forall d :: d in postings.docToTokenCounts ==>
                  d in docToTokenBM25 && docToTokenBM25[d].Keys == postings.docToTokenCounts[d].Keys
    {
      match measure
      case TF =>
      case TFIDF =>
        assert EveryTermOccurs(postings);
      case BM25 =>
        assert WeightsDefined(postings, avgdl);
        assert docToNorm == Norms(sqrt, docToTokenBM25);
    }

    // ------------------------------------------------ when scoring is defined

    /** Under BM25 every query can be scored: each document listed under a
        term has a stored weight for that term. */
    lemma BM25ScoringDefined(query: Query)
      requires measure == BM25 && Valid() && IsTranspose(postings)
      ensures ScoringDefined(State(), query)
    {
      assert docToTokenBM25 == BM25Weights(postings, tokenToIdfBM25, docToLenBM25, avgdl);
      WeightsCoverPostings(State(), query);
    }

    /** Under TF a query can be scored when every count listed under its
        terms is positive: each document reached has a positive norm. */
    lemma TFScoringDefined(query: Query)
      requires measure == TF && Valid() && IsTranspose(postings) && IsSqrt(sqrt)
      requires forall t, d :: t in query && d in PostingsOf(postings, t) ==> PostingsOf(postings, t)[d] > 0
      ensures ScoringDefined(State(), query)
    {
      assert docToNorm == TFNorms(postings, sqrt);
      TFNormsDefined(State(), sqrt, query);
    }

    /** Under TF-IDF a query can be scored when every document it reaches
        has a term with a positive count that some document lacks. */
    lemma TFIDFScoringDefined(query: Query)
      requires measure == TFIDF && Valid() && IsTranspose(postings) && IsLog(ln) && IsSqrt(sqrt)
      requires forall d :: d in Matched(postings, query) ==> HasRareTerm(postings, d)
      ensures ScoringDefined(State(), query)
    {
      assert EveryTermOccurs(postings);
      assert tokenToIdfTFIDF == TFIDFIdf(postings, ln, DocCount(postings));
      assert docToNorm == TFIDFNorms(postings, tokenToIdfTFIDF, sqrt);
      TFIDFNormsDefined(State(), ln, sqrt, query);
    }

    /** The TF-IDF division hazard: a query reaching a document each of
        whose terms occurs in every document (or has count 0 in it) divides
        by a zero norm. */
    lemma TFIDFZeroNormHazard(query: Query, t: Term, d: Doc)
      requires measure == TFIDF && Valid() && IsTranspose(postings) && IsLog(ln) && IsSqrt(sqrt)
      requires t in query && d in PostingsOf(postings, t)
      requires forall u :: u in postings.docToTokenCounts[d] ==>
                 postings.docToTokenCounts[d][u] == 0 || Df(postings, u) == DocCount(postings)
      ensures !ScoringDefined(State(), query)
    {
      assert EveryTermOccurs(postings);
      assert tokenToIdfTFIDF == TFIDFIdf(postings, ln, DocCount(postings));
      assert docToNorm == TFIDFNorms(postings, tokenToIdfTFIDF, sqrt);
      TFIDFNormZero(postings, ln, sqrt, d);
      assert !ShareDefined(State(), t, d);
    }

    /** Under TF, when every count listed under the term is positive, a
        term's share of a document's score is at most its query frequency:
        the norm is at least the count it divides. */
    lemma TFShareAtMostQueryFrequency(t: Term, qf: nat, d: Doc)
      requires measure == TF && Valid() && IsTranspose(postings) && IsSqrt(sqrt)
      requires d in PostingsOf(postings, t) && PostingsOf(postings, t)[d] > 0
      ensures ShareDefined(State(), t, d)
      ensures 0.0 <= Share(State(), t, qf, d) <= qf as real
    {
      assert docToNorm == TFNorms(postings, sqrt);
      TFShareBound(State(), sqrt, t, qf, d);
    }
  }

  // -------------------------------------------------------------- scoring

  /** What scoring reads from an engine: its model, its postings table, the
      TF-IDF IDF table, the BM25 weight table and the norm table. */
  datatype ScoringState = ScoringState(
    measure: Measure,
    postings: Postings,
    idfTFIDF: map<Term, real>,
    weightsBM25: map<Doc, map<Term, real>>,
    norms: map<Doc, real>)

  /** The share of query term `t` for a document `d` listed under it can be
      computed: every table entry the formula reads is present and the norm
      it divides by is not zero. */
  predicate ShareDefined(s: ScoringState, t: Term, d: Doc)
  {
    match s.measure
    case TF =>
      d in s.norms && s.norms[d] != 0.0
    case TFIDF =>
      && d in s.postings.docToTokenCounts && t in s.postings.docToTokenCounts[d]
      && t in s.idfTFIDF
      && d in s.norms && s.norms[d] != 0.0
    case BM25 =>
      d in s.weightsBM25 && t in s.weightsBM25[d]
  }

  /** What one (query term, document) pair adds to the document's score, for
      a term of query frequency `qf`: TF divides qf * tf by the norm, TF-IDF
      weighs both sides by the IDF first, and BM25 adds the stored weight as
      it is. */
  function Share(s: ScoringState, t: Term, qf: nat, d: Doc): real
    requires d in PostingsOf(s.postings, t) && ShareDefined(s, t, d)
  {
    match s.measure
    case TF =>
      (qf * PostingsOf(s.postings, t)[d]) as real / s.norms[d]
    case TFIDF =>
      var tfIdf := s.postings.docToTokenCounts[d][t] as real * s.idfTFIDF[t];
      qf as real * s.idfTFIDF[t] * tfIdf / s.norms[d]
    case BM25 =>
      s.weightsBM25[d][t]
  }

  /** Every share of term `t` can be computed. */
  ghost predicate TermDefined(s: ScoringState, t: Term)
  {
    forall d :: d in PostingsOf(s.postings, t) ==> ShareDefined(s, t, d)
  }

  /** Scoring `query` reads only present entries and never divides by zero. */
  ghost predicate ScoringDefined(s: ScoringState, query: Query)
  {
    forall t :: t in query ==> TermDefined(s, t)
  }

  /** The shares of one query term: one per document listed under it. */
  function TermShares(s: ScoringState, t: Term, qf: nat): (r: map<Doc, real>)
    requires TermDefined(s, t)
    ensures r.Keys == PostingsOf(s.postings, t).Keys
  {
    map d | d in PostingsOf(s.postings, t) :: Share(s, t, qf, d)
  }

  /** The shares a query adds: for every query term, one share per document
      listed under it. */
  ghost function QueryShares(s: ScoringState, query: Query): (c: Contributions)
    requires ScoringDefined(s, query)
    ensures c.Keys == query.Keys
    ensures forall t :: t in c ==> c[t].Keys == PostingsOf(s.postings, t).Keys
  {
    map t | t in query :: TermShares(s, t, query[t])
  }

  /** Before any document of `t` is visited, nothing of `t` has been
      added. */
  lemma TermStart(base: map<Doc, real>, prior: Contributions, t: Term, full: map<Doc, real>)
    requires t !in prior
    ensures Accumulated(base, prior[t := full - full.Keys]) == Accumulated(base, prior)
  {
    assert full - full.Keys == map[];
    AccumulateNewTerm(base, prior, t);
  }

  /** The share of `t` for a document listed under it is its entry in the
      term's shares. */
  lemma ShareOfTerm(s: ScoringState, t: Term, qf: nat, d: Doc)
    requires TermDefined(s, t) && d in PostingsOf(s.postings, t)
    ensures TermShares(s, t, qf)[d] == Share(s, t, qf, d)
  {
  }

  /** Accumulated onto an empty table, the shares of a query give a score
      to exactly the documents the query matches, each score the sum of
      the document's shares. */
  lemma ScoresOnEmptyTable(s: ScoringState, query: Query, r: map<Doc, real>)
    requires ScoringDefined(s, query)
    requires r == Accumulated(map[], QueryShares(s, query))
    ensures r.Keys == Matched(s.postings, query)
    ensures forall d :: d in r ==> r[d] == Sum(Shares(QueryShares(s, query), d))
  {
    AccumulatedOnEmpty(QueryShares(s, query), r);
    ReachedIsMatched(s, query);
  }

  /** The documents the contributions reach are the documents the query
      matches. */
  lemma ReachedIsMatched(s: ScoringState, query: Query)
    requires ScoringDefined(s, query)
    ensures Reached(QueryShares(s, query)) == Matched(s.postings, query)
  {
    var c := QueryShares(s, query);
    forall d | d in Matched(s.postings, query)
      ensures d in Reached(c)
    {
      var t :| t in query && d in PostingsOf(s.postings, t);
      assert t in c && d in c[t];
    }
  }

  /** BM25: when the weight table has, for every document, exactly the
      document's terms, every query can be scored. */
  lemma WeightsCoverPostings(s: ScoringState, query: Query)
    requires s.measure == BM25 && IsTranspose(s.postings)
    requires forall d :: d in s.postings.docToTokenCounts ==>
               d in s.weightsBM25 && s.weightsBM25[d].Keys == s.postings.docToTokenCounts[d].Keys
    ensures ScoringDefined(s, query)
  {
    forall t, d | t in query && d in PostingsOf(s.postings, t)
      ensures ShareDefined(s, t, d)
    {
      assert t in s.postings.tokenToDocCounts && d in s.postings.tokenToDocCounts[t];
    }
  }

  /** TF: with the TF norm table, every query whose listed counts are
      positive can be scored. */
  lemma TFNormsDefined(s: ScoringState, sqrt: real -> real, query: Query)
    requires s.measure == TF && IsTranspose(s.postings) && IsSqrt(sqrt)
    requires s.norms == TFNorms(s.postings, sqrt)
    requires forall t, d :: t in query && d in PostingsOf(s.postings, t) ==> PostingsOf(s.postings, t)[d] > 0
    ensures ScoringDefined(s, query)
  {
    forall t, d | t in query && d in PostingsOf(s.postings, t)
      ensures ShareDefined(s, t, d)
    {
      assert t in s.postings.tokenToDocCounts && d in s.postings.tokenToDocCounts[t];
      TFNormPositive(s.postings, sqrt, d, t);
    }
  }

  /** TF-IDF: with the IDF and norm tables, every query whose documents
      each hold a term that some document lacks can be scored. */
  lemma TFIDFNormsDefined(s: ScoringState, ln: real -> real, sqrt: real -> real, query: Query)
    requires s.measure == TFIDF && IsTranspose(s.postings) && EveryTermOccurs(s.postings)
    requires IsLog(ln) && IsSqrt(sqrt)
    requires s.idfTFIDF == TFIDFIdf(s.postings, ln, DocCount(s.postings))
    requires s.norms == TFIDFNorms(s.postings, s.idfTFIDF, sqrt)
    requires forall d :: d in Matched(s.postings, query) ==> HasRareTerm(s.postings, d)
    ensures ScoringDefined(s, query)
  {
    var p := s.postings;
    forall t, d | t in query && d in PostingsOf(p, t)
      ensures ShareDefined(s, t, d)
    {
      assert t in p.tokenToDocCounts && d in p.tokenToDocCounts[t];
      assert d in Matched(p, query);
      var u :| u in p.docToTokenCounts[d] && p.docToTokenCounts[d][u] > 0 && Df(p, u) < DocCount(p);
      TFIDFNormPositive(p, ln, sqrt, d, u);
    }
  }

  /** `d` has a term with a positive count that some document lacks, so
      its TF-IDF vector has a non-zero entry. */
  ghost predicate HasRareTerm(p: Postings, d: Doc)
  {
    && d in p.docToTokenCounts
    && exists u :: u in p.docToTokenCounts[d] && p.docToTokenCounts[d][u] > 0 && Df(p, u) < DocCount(p)
  }

  /** TF: a share is qf * tf / norm with norm >= tf > 0, so at most qf. */
  lemma TFShareBound(s: ScoringState, sqrt: real -> real, t: Term, qf: nat, d: Doc)
    requires s.measure == TF && IsTranspose(s.postings) && IsSqrt(sqrt)
    requires s.norms == TFNorms(s.postings, sqrt)
    requires d in PostingsOf(s.postings, t) && PostingsOf(s.postings, t)[d] > 0
    ensures ShareDefined(s, t, d)
    ensures 0.0 <= Share(s, t, qf, d) <= qf as real
  {
    var p := s.postings;
    assert t in p.tokenToDocCounts && d in p.tokenToDocCounts[t];
    var tf := PostingsOf(p, t)[d];
    assert tf == p.docToTokenCounts[d][t];
    TFNormPositive(p, sqrt, d, t);
    ShareAtMost(qf, tf, s.norms[d]);
  }

  /** What a document receives: one share per query term listing it, that
      term's share. */
  lemma SharesOfDocument(s: ScoringState, query: Query, d: Doc)
    requires ScoringDefined(s, query)
    ensures Shares(QueryShares(s, query), d).Keys == set t | t in query && d in PostingsOf(s.postings, t)
    ensures forall t :: t in Shares(QueryShares(s, query), d) ==>
              Shares(QueryShares(s, query), d)[t] == Share(s, t, query[t], d)
  {
    var c := QueryShares(s, query);
    forall t | t in Shares(c, d)
      ensures Shares(c, d)[t] == Share(s, t, query[t], d)
    {
      ShareOfTerm(s, t, query[t], d);
    }
  }

  /** Under BM25 a document's score is the sum, over the query terms listing
      it, of its stored weight for the term. */
  lemma BM25ScoreIsWeightSum(s: ScoringState, query: Query, d: Doc)
    requires s.measure == BM25 && ScoringDefined(s, query)
    ensures forall t :: t in Shares(QueryShares(s, query), d) ==>
              d in s.weightsBM25 && t in s.weightsBM25[d] &&
              Shares(QueryShares(s, query), d)[t] == s.weightsBM25[d][t]
  {
    SharesOfDocument(s, query, d);
  }

  /** BM25 scoring ignores the query frequencies: two queries with the same
      terms add the same shares, hence give the same scores. */
  lemma BM25IgnoresQueryFrequency(s: ScoringState, q1: Query, q2: Query)
    requires s.measure == BM25
    requires q1.Keys == q2.Keys && ScoringDefined(s, q1)
    ensures ScoringDefined(s, q2)
    ensures QueryShares(s, q1) == QueryShares(s, q2)
  {
    forall t | t in q1
      ensures TermShares(s, t, q1[t]) == TermShares(s, t, q2[t])
    {
      BM25TermShares(s, t, q1[t], q2[t]);
    }
  }

  /** One BM25 term's shares do not depend on its query frequency. */
  lemma BM25TermShares(s: ScoringState, t: Term, qf1: nat, qf2: nat)
    requires s.measure == BM25 && TermDefined(s, t)
    ensures TermShares(s, t, qf1) == TermShares(s, t, qf2)
  {
  }

  /** Two scoring states read the same values: same model, same postings,
      and the same entries in the tables that model reads. */
  ghost predicate SameScoring(s1: ScoringState, s2: ScoringState)
  {
    && s1.measure == s2.measure && s1.postings == s2.postings
    && match s1.measure
       case TF => s1.norms == s2.norms
       case TFIDF => s1.idfTFIDF == s2.idfTFIDF && s1.norms == s2.norms
       case BM25 => s1.weightsBM25 == s2.weightsBM25
  }

  /** States that read the same values add the same shares. */
  lemma SameScoringSameShares(s1: ScoringState, s2: ScoringState, query: Query)
    requires SameScoring(s1, s2) && ScoringDefined(s1, query)
    ensures ScoringDefined(s2, query)
    ensures QueryShares(s1, query) == QueryShares(s2, query)
  {
    forall t | t in query
      ensures TermShares(s1, t, query[t]) == TermShares(s2, t, query[t])
    {
      forall d | d in PostingsOf(s1.postings, t)
        ensures Share(s1, t, query[t], d) == Share(s2, t, query[t], d)
      {
      }
    }
  }

  /** A query whose terms the index has never seen can be scored and gives
      every document nothing: the score table stays empty. */
  lemma UnknownTermsScoreNothing(s: ScoringState, query: Query)
    requires forall t :: t in query ==> t !in s.postings.tokenToDocCounts
    ensures ScoringDefined(s, query)
    ensures Accumulated(map[], QueryShares(s, query)) == map[]
  {
    ReachedIsMatched(s, query);
    UnknownTermsMatchNothing(s.postings, query);
  }

  /** Two engines of the same model built from the same postings table and
      the same `sqrt`, `ln` and `log10` add the same shares for every query:
      the precomputed state is a function of the table. */
  lemma SameTableSameShares(e1: CosineSimilarity, e2: CosineSimilarity, query: Query)
    requires e1.Valid() && e2.Valid()
    requires e1.measure == e2.measure && e1.postings == e2.postings
    requires e1.sqrt == e2.sqrt && e1.ln == e2.ln && e1.log10 == e2.log10
    requires ScoringDefined(e1.State(), query)
    ensures ScoringDefined(e2.State(), query)
    ensures QueryShares(e1.State(), query) == QueryShares(e2.State(), query)
  {
    assert SameScoring(e1.State(), e2.State());
    SameScoringSameShares(e1.State(), e2.State(), query);
  }
}
