/** BM25 scoring through the postings, against the direct sum per document. */
module SparseSearch {
  import opened Common
  import opened Sorting
  import opened Documents
  import opened Lexical
  import opened Sparse
  import opened Ranking
  import opened Weighting

  /** What a build does not fix of the weighting: the logarithm. */
  datatype Weights = Weights(ln: real -> real)

  /** What decoding guarantees: frequencies aligned with documents, and a posting for every indexed
      term. That documents are in range is not among it. */
  ghost predicate Searchable(m: Bm25) {
    PostingsAligned(m) && forall t :: t in m.termIndex ==> m.termIndex[t] < |m.terms|
  }

  predicate Occurs(m: Bm25, t: Term, d: DocId) {
    t in m.termIndex && m.termIndex[t] < |m.terms| && d in m.terms[m.termIndex[t]].docs
  }

  function Idf(m: Bm25, w: Weights, df: nat): real { IdfOf(w.ln, |m.docLen|, df) }

  /** One posting entry's share of the score. */
  function EntryScore(m: Bm25, w: Weights, idf: real, tf: nat, dl: nat): real {
    idf * TermWeight(tf, dl, m.avgdl, m.k1, m.b)
  }

  /** What term `t` adds to the score of a document that contains it. */
  function Contribution(m: Bm25, w: Weights, t: Term, d: DocId): real
    requires Searchable(m)
  {
    if Occurs(m, t, d) && d < |m.docLen| then
      var p := m.terms[m.termIndex[t]];
      assert |p.tf| == |p.docs|;
      EntryScore(m, w, Idf(m, w, |p.docs|), TfIn(p, d), m.docLen[d])
    else 0.0
  }

  /** The direct score: the sum over the given terms. */
  function DirectSum(m: Bm25, w: Weights, ts: seq<Term>, d: DocId): real
    requires Searchable(m)
  {
    if ts == [] then 0.0 else DirectSum(m, w, ts[..|ts| - 1], d) + Contribution(m, w, ts[|ts| - 1], d)
  }

  /** The allowed documents that contain one of the terms. */
  function Matched(m: Bm25, ts: seq<Term>, allowed: Option<set<DocId>>): set<DocId> {
    set d: DocId | d < |m.docLen| && Allowed(allowed, d) && exists t :: t in ts && Occurs(m, t, d)
  }

  function DirectScores(m: Bm25, w: Weights, ts: seq<Term>, allowed: Option<set<DocId>>): Scores
    requires Searchable(m)
  {
    map d | d in Matched(m, ts, allowed) :: DirectSum(m, w, ts, d)
  }

  /** Scores with the entries of `adds` added in. */
  function Bump(scores: Scores, adds: Scores): Scores {
    map d | d in scores.Keys + adds.Keys :: ScoreOf(scores, d) + ScoreOf(adds, d)
  }

  lemma BumpNext(scores: Scores, adds: Scores, d: DocId, x: real)
    requires d !in adds
    ensures Bump(scores, adds[d := x]) == AddTo(Bump(scores, adds), d, x)
  {
    var b, b' := Bump(scores, adds), Bump(scores, adds[d := x]);
    assert b'.Keys == b.Keys + {d};
  }

  lemma BumpNothing(scores: Scores)
    ensures Bump(scores, map[]) == scores
  {
    assert Bump(scores, map[]).Keys == scores.Keys;
  }

  /** What the first `n` entries of the posting of `t` add. */
  function Adds(m: Bm25, w: Weights, t: Term, n: nat, allowed: Option<set<DocId>>): Scores
    requires Searchable(m) && t in m.termIndex && n <= |m.terms[m.termIndex[t]].docs|
  {
    map d | d in m.terms[m.termIndex[t]].docs[..n] && Allowed(allowed, d) && d < |m.docLen| ::
      Contribution(m, w, t, d)
  }

  lemma AddsNext(m: Bm25, w: Weights, t: Term, n: nat, allowed: Option<set<DocId>>)
    requires Searchable(m) && t in m.termIndex && n < |m.terms[m.termIndex[t]].docs|
    ensures var was, d := Adds(m, w, t, n, allowed), m.terms[m.termIndex[t]].docs[n];
      && d !in was
      && Adds(m, w, t, n + 1, allowed)
         == if Allowed(allowed, d) && d < |m.docLen| then was[d := Contribution(m, w, t, d)] else was
  {
    var docs := m.terms[m.termIndex[t]].docs;
    assert Distinct(docs);
    assert docs[n] !in docs[..n];
    assert docs[..n + 1] == docs[..n] + [docs[n]];
    hide Contribution, Searchable;
  }

  lemma ContributionAt(m: Bm25, w: Weights, t: Term, n: nat)
    requires Searchable(m) && t in m.termIndex && n < |m.terms[m.termIndex[t]].docs|
    ensures var p := m.terms[m.termIndex[t]];
      && |p.tf| == |p.docs|
      && (p.docs[n] < |m.docLen| ==>
            Contribution(m, w, t, p.docs[n]) == EntryScore(m, w, Idf(m, w, |p.docs|), p.tf[n], m.docLen[p.docs[n]]))
  {
    var p := m.terms[m.termIndex[t]];
    assert |p.tf| == |p.docs| && Distinct(p.docs);
    assert p.docs[n] in p.docs;
    TfAt(p.docs, p.tf, n);
  }

  /** One posting entry added. */
  lemma AddStep(m: Bm25, w: Weights, scores: Scores, t: Term, n: nat, allowed: Option<set<DocId>>)
    requires Searchable(m) && t in m.termIndex && n < |m.terms[m.termIndex[t]].docs|
    ensures var p := m.terms[m.termIndex[t]];
      var d := p.docs[n];
      var r := Bump(scores, Adds(m, w, t, n, allowed));
      && n < |p.tf|
      && (!Allowed(allowed, d) ==> Bump(scores, Adds(m, w, t, n + 1, allowed)) == r)
      && (Allowed(allowed, d) && d < |m.docLen| ==>
            Bump(scores, Adds(m, w, t, n + 1, allowed))
            == AddTo(r, d, EntryScore(m, w, Idf(m, w, |p.docs|), p.tf[n], m.docLen[d])))
  {
    var d := m.terms[m.termIndex[t]].docs[n];
    ContributionAt(m, w, t, n);
    AddsNext(m, w, t, n, allowed);
    hide Adds, Contribution, Searchable, EntryScore, Idf, Bump, AddTo;
    BumpNext(scores, Adds(m, w, t, n, allowed), d, Contribution(m, w, t, d));
  }

  /** Every allowed document of the posting of `t` has a recorded length. */
  predicate TermReaches(m: Bm25, t: Term, allowed: Option<set<DocId>>) {
    t in m.termIndex && m.termIndex[t] < |m.terms| ==>
      forall d :: d in m.terms[m.termIndex[t]].docs && Allowed(allowed, d) ==> d < |m.docLen|
  }

  /** Add one query term's posting to the running scores; `None` is an index out of bounds, met at
      an allowed document whose length is not recorded. */
  method AddTerm(m: Bm25, w: Weights, scores: Scores, t: Term, allowed: Option<set<DocId>>)
    returns (r: Option<Scores>)
    requires Searchable(m) && t in m.termIndex
    ensures r.Some? <==> TermReaches(m, t, allowed)
    ensures r.Some? ==> r.value == Bump(scores, TermAdds(m, w, t, allowed))
  {
    var p := m.terms[m.termIndex[t]];
    var df := |p.docs|;
    var idf := Idf(m, w, df);
    var out := scores;
    BumpNothing(scores);
    assert Adds(m, w, t, 0, allowed) == map[];
    hide Adds, Bump, Contribution, Searchable, EntryScore, Idf, AddTo, Allowed;
    for n := 0 to |p.docs|
      invariant forall i :: 0 <= i < n && Allowed(allowed, p.docs[i]) ==> p.docs[i] < |m.docLen|
      invariant out == Bump(scores, Adds(m, w, t, n, allowed))
    {
      AddStep(m, w, scores, t, n, allowed);
      var d := p.docs[n];
      if Allowed(allowed, d) {
        if d >= |m.docLen| {
          assert d in p.docs;
          return None;
        }
        out := AddTo(out, d, EntryScore(m, w, idf, p.tf[n], m.docLen[d]));
      }
    }
    r := Some(out);
  }

  /** What a query term adds in all; nothing when it is not indexed. */
  function TermAdds(m: Bm25, w: Weights, t: Term, allowed: Option<set<DocId>>): Scores
    requires Searchable(m)
  {
    if t in m.termIndex then Adds(m, w, t, |m.terms[m.termIndex[t]].docs|, allowed) else map[]
  }

  lemma TermAddsAt(m: Bm25, w: Weights, t: Term, allowed: Option<set<DocId>>, d: DocId)
    requires Searchable(m)
    ensures d in TermAdds(m, w, t, allowed) <==> Allowed(allowed, d) && Occurs(m, t, d) && d < |m.docLen|
    ensures Allowed(allowed, d) ==> ScoreOf(TermAdds(m, w, t, allowed), d) == Contribution(m, w, t, d)
  {
    if t in m.termIndex {
      var docs := m.terms[m.termIndex[t]].docs;
      assert docs[..|docs|] == docs;
    }
  }

  lemma MatchedNext(m: Bm25, ts: seq<Term>, t: Term, allowed: Option<set<DocId>>, d: DocId)
    ensures d in Matched(m, ts + [t], allowed) <==>
      d in Matched(m, ts, allowed) || (d < |m.docLen| && Allowed(allowed, d) && Occurs(m, t, d))
  {
    assert forall u :: u in ts + [t] <==> u in ts || u == t;
    hide Occurs;
  }

  lemma SumNext(m: Bm25, w: Weights, ts: seq<Term>, t: Term, d: DocId)
    requires Searchable(m)
    ensures DirectSum(m, w, ts + [t], d) == DirectSum(m, w, ts, d) + Contribution(m, w, t, d)
  {
    assert (ts + [t])[..|ts|] == ts;
    hide Contribution;
  }

  lemma DirectScoreAt(m: Bm25, w: Weights, ts: seq<Term>, allowed: Option<set<DocId>>, d: DocId)
    requires Searchable(m) && Allowed(allowed, d) && d < |m.docLen|
    ensures ScoreOf(DirectScores(m, w, ts, allowed), d) == DirectSum(m, w, ts, d)
  {
    if d !in Matched(m, ts, allowed) {
      NoMatchNoScore(m, w, ts, d);
    }
    hide DirectSum, Searchable;
  }

  /** One more distinct query term. */
  lemma NextTerm(m: Bm25, w: Weights, ts: seq<Term>, t: Term, allowed: Option<set<DocId>>)
    requires Searchable(m)
    ensures DirectScores(m, w, ts + [t], allowed)
         == Bump(DirectScores(m, w, ts, allowed), TermAdds(m, w, t, allowed))
  {
    var was, adds := DirectScores(m, w, ts, allowed), TermAdds(m, w, t, allowed);
    var now := DirectScores(m, w, ts + [t], allowed);
    hide *;
    forall d: DocId ensures d in now <==> d in was || d in adds {
      NextTermKey(m, w, ts, t, allowed, d);
    }
    forall d: DocId | d in now ensures now[d] == ScoreOf(was, d) + ScoreOf(adds, d) {
      NextTermValue(m, w, ts, t, allowed, d);
    }
    BumpIs(now, was, adds);
  }

  lemma BumpIs(now: Scores, was: Scores, adds: Scores)
    requires forall d: DocId :: d in now <==> d in was || d in adds
    requires forall d: DocId :: d in now ==> now[d] == ScoreOf(was, d) + ScoreOf(adds, d)
    ensures now == Bump(was, adds)
  {
    hide ScoreOf;
    assert now.Keys == Bump(was, adds).Keys;
  }

  lemma NextTermKey(m: Bm25, w: Weights, ts: seq<Term>, t: Term, allowed: Option<set<DocId>>, d: DocId)
    requires Searchable(m)
    ensures d in DirectScores(m, w, ts + [t], allowed)
      <==> d in DirectScores(m, w, ts, allowed) || d in TermAdds(m, w, t, allowed)
  {
    MatchedNext(m, ts, t, allowed, d);
    TermAddsAt(m, w, t, allowed, d);
    hide Searchable, Occurs, TermAdds, DirectSum, Matched, Allowed;
  }

  lemma NextTermValue(m: Bm25, w: Weights, ts: seq<Term>, t: Term, allowed: Option<set<DocId>>, d: DocId)
    requires Searchable(m) && d in DirectScores(m, w, ts + [t], allowed)
    ensures DirectScores(m, w, ts + [t], allowed)[d]
         == ScoreOf(DirectScores(m, w, ts, allowed), d) + ScoreOf(TermAdds(m, w, t, allowed), d)
  {
    assert d in Matched(m, ts + [t], allowed);
    assert d < |m.docLen| && Allowed(allowed, d);
    TermAddsAt(m, w, t, allowed, d);
    DirectScoreAt(m, w, ts, allowed, d);
    SumNext(m, w, ts, t, d);
    hide Searchable, Occurs, TermAdds, DirectSum, Matched, Allowed, ScoreOf, Contribution;
  }

  lemma {:induction false} NoMatchNoScore(m: Bm25, w: Weights, ts: seq<Term>, d: DocId)
    requires Searchable(m) && forall t :: t in ts ==> !Occurs(m, t, d)
    ensures DirectSum(m, w, ts, d) == 0.0
  {
    if ts != [] {
      assert ts[|ts| - 1] in ts;
      NoMatchNoScore(m, w, ts[..|ts| - 1], d);
    }
  }

  /** The postings of all query terms stay in range, filtered-out documents aside. */
  predicate AllReach(m: Bm25, query: seq<Term>, allowed: Option<set<DocId>>) {
    forall t :: t in query ==> TermReaches(m, t, allowed)
  }

  /** Score documents against the query terms through the postings. The result is the head of
      the ranking of the direct scores of the allowed documents with a match. It fails, by an
      index out of bounds, exactly when a query term's posting names an allowed document the
      index has no length for. */
  method Score(m: Bm25, w: Weights, query: seq<Term>, allowed: Option<set<DocId>>, limit: nat)
    returns (r: Option<seq<Scored>>)
    requires Searchable(m)
    ensures r.Some? <==> |m.docLen| == 0 || limit == 0 || AllReach(m, query, allowed)
    ensures r.Some? ==> TopOf(r.value, DirectScores(m, w, Dedup(query), allowed), limit)
  {
    if |m.docLen| == 0 || limit == 0 {
      ghost var full := RankingExists(DirectScores(m, w, Dedup(query), allowed));
      NothingRanks(full, DirectScores(m, w, Dedup(query), allowed), limit, m, w, Dedup(query), allowed);
      return Some([]);
    }
    var scores: Scores := map[];
    var seen: set<Term> := {};
    NoTerms(m, w, allowed);
    hide DirectScores, Adds, Bump, Searchable, TermReaches;
    for n := 0 to |query|
      invariant seen == set t | t in query[..n]
      invariant forall t :: t in seen ==> TermReaches(m, t, allowed)
      invariant scores == DirectScores(m, w, Dedup(query[..n]), allowed)
    {
      var t := query[n];
      assert query[..n + 1] == query[..n] + [t] && query[..n + 1][..n] == query[..n];
      if t !in seen {
        NextTerm(m, w, Dedup(query[..n]), t, allowed);
        if t in m.termIndex {
          var next := AddTerm(m, w, scores, t, allowed);
          if next.None? {
            return None;
          }
          scores := next.value;
        } else {
          BumpNothing(scores);
          NotIndexed(m, t, allowed);
        }
      }
      seen := seen + {t};
    }
    assert query[..|query|] == query;
    var ranked := RankScores(scores, limit);
    r := Some(ranked);
  }

  lemma NotIndexed(m: Bm25, t: Term, allowed: Option<set<DocId>>)
    requires t !in m.termIndex
    ensures TermReaches(m, t, allowed)
  {}

  lemma NoTerms(m: Bm25, w: Weights, allowed: Option<set<DocId>>)
    requires Searchable(m)
    ensures DirectScores(m, w, [], allowed) == map[]
  {}

  lemma NothingRanks(full: seq<Scored>, scores: Scores, limit: nat, m: Bm25, w: Weights, ts: seq<Term>,
                     allowed: Option<set<DocId>>)
    requires Searchable(m) && scores == DirectScores(m, w, ts, allowed) && Ranks(full, scores)
    requires |m.docLen| == 0 || limit == 0
    ensures TopOf([], scores, limit)
  {
    if |m.docLen| == 0 {
      assert scores == map[];
      ListingSize(full, scores.Items);
      ItemCount(scores);
    }
    assert Truncate(full, limit) == [];
  }

  // ---- repeated and reordered query terms ----

  lemma {:induction false} SumWithout(m: Bm25, w: Weights, ts: seq<Term>, i: nat, d: DocId)
    requires Searchable(m) && i < |ts|
    ensures DirectSum(m, w, ts, d)
         == DirectSum(m, w, ts[..i] + ts[i + 1..], d) + Contribution(m, w, ts[i], d)
  {
    hide Contribution, Searchable;
    var last := |ts| - 1;
    var out := ts[..i] + ts[i + 1..];
    if i == last {
      assert out == ts[..last];
    } else {
      SumWithout(m, w, ts[..last], i, d);
      assert out[..|out| - 1] == ts[..last][..i] + ts[..last][i + 1..];
      assert out[|out| - 1] == ts[last];
    }
  }

  lemma {:induction false} SumPermutes(m: Bm25, w: Weights, ts: seq<Term>, us: seq<Term>, d: DocId)
    requires Searchable(m) && multiset(ts) == multiset(us)
    ensures DirectSum(m, w, ts, d) == DirectSum(m, w, us, d)
    decreases |ts|
  {
    assert |multiset(ts)| == |ts| && |multiset(us)| == |us|;
    if ts != [] {
      var last := |ts| - 1;
      var t := ts[last];
      assert ts == ts[..last] + [t];
      assert t in multiset(us);
      var i :| 0 <= i < |us| && us[i] == t;
      assert us == us[..i] + [t] + us[i + 1..];
      assert multiset(us[..i] + us[i + 1..]) == multiset(us) - multiset{t};
      SumWithout(m, w, us, i, d);
      SumPermutes(m, w, ts[..last], us[..i] + us[i + 1..], d);
    }
  }

  /** Only the set of query terms matters: neither repetition nor order changes a score. */
  lemma OnlyTheTermSetMatters(m: Bm25, w: Weights, q: seq<Term>, q': seq<Term>, allowed: Option<set<DocId>>)
    requires Searchable(m) && (set t | t in q) == (set t | t in q')
    ensures DirectScores(m, w, Dedup(q), allowed) == DirectScores(m, w, Dedup(q'), allowed)
  {
    DedupDistinct(q);
    DedupDistinct(q');
    var a, b, u := Dedup(q), Dedup(q'), set t | t in q;
    assert Lists(a, u);
    assert Lists(b, u) by {
      assert u == set t | t in q';
    }
    ListingsPermute(a, b, u);
    SameMatches(m, a, b, allowed);
    hide Matched, Searchable, DirectSum, Dedup;
    forall d | d in Matched(m, a, allowed) ensures DirectSum(m, w, a, d) == DirectSum(m, w, b, d) {
      SumPermutes(m, w, a, b, d);
    }
  }

  lemma SameMatches(m: Bm25, ts: seq<Term>, us: seq<Term>, allowed: Option<set<DocId>>)
    requires multiset(ts) == multiset(us)
    ensures Matched(m, ts, allowed) == Matched(m, us, allowed)
  {
    forall t ensures t in ts <==> t in us {
      assert t in ts <==> t in multiset(ts);
      assert t in us <==> t in multiset(us);
    }
    hide Occurs;
  }
}
