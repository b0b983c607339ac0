/**
 The score accumulator: a zero-default document -> score table that the
 scoring pass changes in place, one `+=` per (query term, document) pair.
 The pairs are described by a table of contributions, term -> (document ->
 share); `Accumulated` is what the table holds once every pair has been
 added, in any order.
 */
module Accumulate {
  import opened Sums
  import opened Postings

  /** Per-term shares: term -> (document -> the amount added for it). */
  type Contributions = map<Term, map<Doc, real>>

  /** The documents some term contributes to. */
  ghost function Reached(c: Contributions): set<Doc>
  {
    set t, d | t in c && d in c[t] :: d
  }

  /** What `d` receives, keyed by the contributing term. */
  ghost function Shares(c: Contributions, d: Doc): map<Term, real>
  {
    map t | t in c && d in c[t] :: c[t][d]
  }

  /** `base` after every share of `c` has been added to it: every document
      already in `base` or reached by `c` holds its old score (0 if absent)
      plus the sum of its shares. */
  ghost function Accumulated(base: map<Doc, real>, c: Contributions): (r: map<Doc, real>)
    ensures r.Keys == base.Keys + Reached(c)
  {
    map d | d in base.Keys + Reached(c) :: Get(base, d, 0.0) + Sum(Shares(c, d))
  }

  /** On an empty table, exactly the documents some term reaches get a
      score, and each score is the sum of the document's shares. */
  lemma AccumulatedOnEmpty(c: Contributions, r: map<Doc, real>)
    requires r == Accumulated(map[], c)
    ensures r.Keys == Reached(c)
    ensures forall d :: d in r ==> r[d] == Sum(Shares(c, d))
  {
  }

  /** With no contributions the table is unchanged. */
  lemma AccumulateNothing(base: map<Doc, real>)
    ensures Accumulated(base, map[]) == base
  {
    forall d | d in base
      ensures Accumulated(base, map[])[d] == base[d]
    {
      assert Shares(map[], d) == map[];
    }
  }

  /** Starting on a term that has not contributed yet changes nothing. */
  lemma AccumulateNewTerm(base: map<Doc, real>, c: Contributions, t: Term)
    requires t !in c
    ensures Accumulated(base, c[t := map[]]) == Accumulated(base, c)
  {
    var c' := c[t := map[]];
    var a, a' := Accumulated(base, c), Accumulated(base, c');
    ReachedAfterNewTerm(c, t);
    forall e | e in a
      ensures a'[e] == a[e]
    {
      SharesAfterNewTerm(c, t, e);
    }
  }

  /** A term without shares reaches nothing new. */
  lemma ReachedAfterNewTerm(c: Contributions, t: Term)
    requires t !in c
    ensures Reached(c[t := map[]]) == Reached(c)
  {
    var c' := c[t := map[]];
    forall e | e in Reached(c')
      ensures e in Reached(c)
    {
      var u :| u in c' && e in c'[u];
      assert u in c && e in c[u];
    }
    forall e | e in Reached(c)
      ensures e in Reached(c')
    {
      var u :| u in c && e in c[u];
      assert u in c' && e in c'[u];
    }
  }

  /** A term without shares gives no document anything. */
  lemma SharesAfterNewTerm(c: Contributions, t: Term, e: Doc)
    requires t !in c
    ensures Shares(c[t := map[]], e) == Shares(c, e)
  {
  }

  /** Adding one more share `v` of term `t` to document `d`, where the
      shares of `t` so far are `part`, is one `+=` on the accumulated
      table `a`, whatever was added before. */
  lemma AccumulateOne(base: map<Doc, real>, prior: Contributions, t: Term, part: map<Doc, real>,
                      d: Doc, v: real, a: map<Doc, real>)
    requires d !in part
    requires a == Accumulated(base, prior[t := part])
    ensures Accumulated(base, prior[t := part[d := v]]) == a[d := Get(a, d, 0.0) + v]
  {
    var a' := Accumulated(base, prior[t := part[d := v]]);
    ReachedAfterOne(prior, t, part, d, v);
    AccumulatedElsewhere(base, prior, t, part, d, v);
    AccumulatedAt(base, prior, t, part, d, v);
    UpdatedAt(a, a', d, Get(a, d, 0.0) + v);
  }

  /** One more share for `d` leaves every other document's score alone. */
  lemma AccumulatedElsewhere(base: map<Doc, real>, prior: Contributions, t: Term, part: map<Doc, real>,
                             d: Doc, v: real)
    ensures AgreeOff(Accumulated(base, prior[t := part[d := v]]), Accumulated(base, prior[t := part]), d)
  {
    var a, a' := Accumulated(base, prior[t := part]), Accumulated(base, prior[t := part[d := v]]);
    ReachedAfterOne(prior, t, part, d, v);
    forall e | e in a' && e != d
      ensures e in a && a'[e] == a[e]
    {
      SharesAfterOther(prior, t, part, d, v, e);
    }
  }

  /** One more share `v` for `d` adds `v` to `d`'s score, 0 if it had none. */
  lemma AccumulatedAt(base: map<Doc, real>, prior: Contributions, t: Term, part: map<Doc, real>,
                      d: Doc, v: real)
    requires d !in part
    ensures d in Accumulated(base, prior[t := part[d := v]])
    ensures Accumulated(base, prior[t := part[d := v]])[d]
              == Get(Accumulated(base, prior[t := part]), d, 0.0) + v
  {
    var c := prior[t := part];
    ReachedAfterOne(prior, t, part, d, v);
    SharesAfterOne(prior, t, part, d, v);
    SumInsert(Shares(c, d), t, v);
    if d !in Accumulated(base, c) {
      assert Shares(c, d) == map[];
    }
  }

  /** Every entry of `a'` other than `d` is an entry of `a`, unchanged. */
  ghost predicate AgreeOff(a': map<Doc, real>, a: map<Doc, real>, d: Doc)
  {
    forall e :: e in a' && e != d ==> e in a && a'[e] == a[e]
  }

  /** A table that agrees with `a` off `d`, has `d`, and holds `x` at `d`
      is `a` updated at `d`. */
  lemma UpdatedAt(a: map<Doc, real>, a': map<Doc, real>, d: Doc, x: real)
    requires a'.Keys == a.Keys + {d} && a'[d] == x
    requires AgreeOff(a', a, d)
    ensures a' == a[d := x]
  {
  }

  /** One more share of `t` for `d` reaches `d` and nothing else new. */
  lemma ReachedAfterOne(prior: Contributions, t: Term, part: map<Doc, real>, d: Doc, v: real)
    ensures Reached(prior[t := part[d := v]]) == Reached(prior[t := part]) + {d}
  {
    var c, c' := prior[t := part], prior[t := part[d := v]];
    forall e | e in Reached(c')
      ensures e in Reached(c) + {d}
    {
      var u :| u in c' && e in c'[u];
      if e != d {
        assert u in c && e in c[u];
      }
    }
    forall e | e in Reached(c) + {d}
      ensures e in Reached(c')
    {
      if e == d {
        assert t in c' && e in c'[t];
      } else {
        var u :| u in c && e in c[u];
        assert u in c' && e in c'[u];
      }
    }
  }

  /** One more share for `d` leaves what every other document gets alone. */
  lemma SharesAfterOther(prior: Contributions, t: Term, part: map<Doc, real>, d: Doc, v: real, e: Doc)
    requires e != d
    ensures Shares(prior[t := part[d := v]], e) == Shares(prior[t := part], e)
  {
  }

  /** One more share of `t` for `d` is one more entry among `d`'s shares. */
  lemma SharesAfterOne(prior: Contributions, t: Term, part: map<Doc, real>, d: Doc, v: real)
    requires d !in part
    ensures t !in Shares(prior[t := part], d)
    ensures Shares(prior[t := part[d := v]], d) == Shares(prior[t := part], d)[t := v]
  {
  }

  /** The caller's zero-default accumulator, `doc_to_score`. */
  class ScoreTable {
    var scores: map<Doc, real>

    /** A fresh table holds no entry. */
    constructor()
      ensures scores == map[]
    {
      scores := map[];
    }

    /** `scores[d] += x`, reading an absent entry as 0. */
    method Add(d: Doc, x: real)
      modifies this
      ensures scores == old(scores)[d := Get(old(scores), d, 0.0) + x]
    {
      scores := scores[d := Get(scores, d, 0.0) + x];
    }

    /** `scores[d] += x` as one step of a scoring pass: on a table holding
        `base` plus the shares of `prior` and the shares `part` of term
        `t`, it adds one more share of `t`. */
    method AddShare(d: Doc, x: real, ghost base: map<Doc, real>, ghost prior: Contributions,
                    ghost t: Term, ghost part: map<Doc, real>)
      requires d !in part
      requires scores == Accumulated(base, prior[t := part])
      modifies this
      ensures scores == old(scores)[d := Get(old(scores), d, 0.0) + x]
      ensures scores == Accumulated(base, prior[t := part[d := x]])
    {
      AccumulateOne(base, prior, t, part, d, x, scores);
      Add(d, x);
    }
  }
}
