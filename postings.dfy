/**
 The postings table the engine scores against: two views of the same
 occurrence counts, document -> (term -> count) and term -> (document ->
 count). The table is built elsewhere and never changes while an engine
 uses it.
 */
module Postings {

  /** Document identifiers and normalized terms are strings. */
  type Doc = string
  type Term = string

  /** A query: term -> how often it occurs in the query text. */
  type Query = map<Term, nat>

  datatype Postings = Postings(
    docToTokenCounts: map<Doc, map<Term, nat>>,
    tokenToDocCounts: map<Term, map<Doc, nat>>)

  /** The two views hold the same facts: each is the transpose of the other. */
  ghost predicate IsTranspose(p: Postings)
  {
    && (forall d, t :: d in p.docToTokenCounts && t in p.docToTokenCounts[d] ==>
          t in p.tokenToDocCounts && d in p.tokenToDocCounts[t] &&
          p.tokenToDocCounts[t][d] == p.docToTokenCounts[d][t])
    && (forall t, d :: t in p.tokenToDocCounts && d in p.tokenToDocCounts[t] ==>
          d in p.docToTokenCounts && t in p.docToTokenCounts[d])
  }

  /** Under the transpose invariant, a table keyed by every term of the
      index has an entry for every term of every document. */
  lemma IndexCoversDocuments(p: Postings, keys: set<Term>)
    requires IsTranspose(p) && p.tokenToDocCounts.Keys <= keys
    ensures forall d, t :: d in p.docToTokenCounts && t in p.docToTokenCounts[d] ==> t in keys
  {
  }

  /** N, the number of documents: `len(doc_to_token_counts.keys())`. */
  function DocCount(p: Postings): nat
  {
    |p.docToTokenCounts.Keys|
  }

  /** The documents listed under `t`, with their counts; a term the index
      has never seen lists no documents. */
  function PostingsOf(p: Postings, t: Term): map<Doc, nat>
  {
    if t in p.tokenToDocCounts then p.tokenToDocCounts[t] else map[]
  }

  /** The keys of `counts` whose count is positive. */
  function Positives(counts: map<Doc, nat>): set<Doc>
  {
    set d | d in counts && counts[d] > 0
  }

  /** df(t): the number of documents listed under `t` with a positive count. */
  ghost function Df(p: Postings, t: Term): nat
  {
    |Positives(PostingsOf(p, t))|
  }

  /** The documents that contain `t`, read off the document view. */
  ghost function DocsContaining(p: Postings, t: Term): set<Doc>
  {
    set d | d in p.docToTokenCounts && t in p.docToTokenCounts[d] && p.docToTokenCounts[d][t] > 0
  }

  /** Every term of the index occurs in some document: N / df(t) is defined. */
  ghost predicate EveryTermOccurs(p: Postings)
  {
    forall t :: t in p.tokenToDocCounts ==> Df(p, t) > 0
  }

  /** The documents listed under some term of `q`: the documents a query
      reaches. */
  ghost function Matched(p: Postings, q: Query): set<Doc>
  {
    set t, d | t in q && d in PostingsOf(p, t) :: d
  }

  /** The document-frequency count of a term: one pass over the documents
      listed under it, counting those with a positive count. */
  method DocumentFrequency(counts: map<Doc, nat>) returns (df: nat)
    ensures df == |Positives(counts)|
    ensures df <= |counts|
  {
    df := 0;
    var rest := counts.Keys;
    while rest != {}
      invariant rest <= counts.Keys
      invariant df == |set d | d in counts.Keys - rest && counts[d] > 0|
      decreases rest
    {
      var d :| d in rest;
      ghost var before := set e | e in counts.Keys - rest && counts[e] > 0;
      ghost var after := set e | e in counts.Keys - (rest - {d}) && counts[e] > 0;
      if counts[d] > 0 {
        assert after == before + {d};
        df := df + 1;
      } else {
        assert after == before;
      }
      rest := rest - {d};
    }
    assert Positives(counts) == set d | d in counts.Keys - rest && counts[d] > 0;
    SubsetCardinality(Positives(counts), counts.Keys);
  }

  /** A subset is no larger than its superset. */
  lemma SubsetCardinality<X>(a: set<X>, b: set<X>)
    requires a <= b
    ensures |a| <= |b|
  {
    assert b == a + (b - a);
  }

  /** Counting df over the term view is counting, over the document view,
      the documents that contain the term; so df(t) <= N. */
  lemma DfCountsContainingDocuments(p: Postings, t: Term)
    requires IsTranspose(p)
    ensures Positives(PostingsOf(p, t)) == DocsContaining(p, t)
    ensures Df(p, t) <= DocCount(p)
  {
    SubsetCardinality(DocsContaining(p, t), p.docToTokenCounts.Keys);
  }

  /** A term with a positive count somewhere has df(t) >= 1. */
  lemma DfPositive(p: Postings, t: Term, d: Doc)
    requires d in PostingsOf(p, t) && PostingsOf(p, t)[d] > 0
    ensures Df(p, t) >= 1
  {
    assert d in Positives(PostingsOf(p, t));
  }

  /** A query whose terms the index does not know reaches no document. */
  lemma UnknownTermsMatchNothing(p: Postings, q: Query)
    requires forall t :: t in q ==> t !in p.tokenToDocCounts
    ensures Matched(p, q) == {}
  {
  }

  /** A document without terms is listed under no term, so no query
      reaches it. */
  lemma EmptyDocumentNeverMatched(p: Postings, q: Query, d: Doc)
    requires IsTranspose(p)
    requires d in p.docToTokenCounts && p.docToTokenCounts[d] == map[]
    ensures d !in Matched(p, q)
  {
  }
}
