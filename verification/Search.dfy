/** Hybrid search: a dense and a sparse candidate pool, fused by rank, optionally boosted
    along the link graph, cut to the limit. */
module Search {
  import opened Common
  import opened Sorting
  import opened Lexical
  import opened Documents
  import opened Builder
  import opened Filters
  import opened Ranking
  import opened Dense
  import opened SparseSearch
  import opened Fusion
  import opened LinkGraph

  const USIZE_MAX: nat := 0xFFFF_FFFF_FFFF_FFFF
  const MIN_POOL: nat := 32

  /** The queryable parts of an index, with the BM25 weighting it uses. */
  datatype Index = Index(
    dim: nat,
    metric: Metric,
    meta: seq<DocMeta>,
    dense: seq<real>,
    bm25: Sparse.Bm25,
    graph: Graph,
    weights: Weights)

  datatype RankParams = RankParams(
    denseWeight: real,
    sparseWeight: real,
    rrfK: nat,
    candidateMultiplier: nat,
    graphBoost: real)

  datatype PreparedQuery = PreparedQuery(
    vector: seq<real>,
    terms: seq<Term>,
    filter: Filter,
    limit: nat,
    rank: RankParams)

  /** What loading and building guarantee: a vector and a place in the graph for every record, and
      a decodable term index. That the term index covers the same documents is not among it. */
  ghost predicate Coherent(x: Index) {
    && |x.dense| == Cells(|x.meta|, x.dim)
    && Searchable(x.bm25)
    && Consistent(x.graph) && |x.graph.out| == |x.meta|
  }

  /** The ids a search may come across: records, and documents of the term index. */
  function Known(x: Index): nat { Max(|x.meta|, |x.bm25.docLen|) }

  datatype SearchError = WrongDimension(cause: DimMismatch) | OutOfBounds

  function Max(a: nat, b: nat): nat { if a < b then b else a }

  function SaturatingMul(a: nat, b: nat): nat { if a * b < USIZE_MAX then a * b else USIZE_MAX }

  /** How many candidates each arm contributes. */
  function Pool(limit: nat, multiplier: nat): nat {
    Max(Max(SaturatingMul(limit, Max(multiplier, 1)), limit), MIN_POOL)
  }

  // ---- what the two arms score ----

  /** The ids the filter lets through: with the match-all filter any, otherwise matching records. */
  predicate Admits(x: Index, f: Filter, d: DocId) {
    f == All || (d < |x.meta| && Matches(f, x.meta[d]))
  }

  ghost predicate Restricts(allowed: Option<set<DocId>>, x: Index, f: Filter) {
    forall d: DocId :: Allowed(allowed, d) <==> Admits(x, f, d)
  }

  /** The similarity of every matching document; an index without dimensions has none. */
  ghost function DenseScores(x: Index, q: PreparedQuery): Scores
    requires Coherent(x) && |q.vector| == x.dim
  {
    if x.dim == 0 then map[]
    else
      map d: DocId | d < |x.meta| && Admits(x, q.filter, d) ::
        Similarity(q.vector, VectorAt(x.dense, x.dim, d, |x.meta|), x.metric)
  }

  /** The direct BM25 score of every admitted document of the term index with a query term. */
  ghost function SparseScores(x: Index, q: PreparedQuery): Scores
    requires Coherent(x)
  {
    map d: DocId | d < |x.bm25.docLen| && Admits(x, q.filter, d)
      && (exists t :: t in Dedup(q.terms) && Occurs(x.bm25, t, d)) ::
      DirectSum(x.bm25, x.weights, Dedup(q.terms), d)
  }

  lemma DenseArm(x: Index, q: PreparedQuery, allowed: Option<set<DocId>>)
    requires Coherent(x) && |q.vector| == x.dim > 0 && Restricts(allowed, x, q.filter)
    ensures ScanScores(q.vector, x.dense, x.dim, |x.meta|, x.metric, Scanned(|x.meta|, allowed)) == DenseScores(x, q)
  {
    hide Similarity, VectorAt, Matches, Searchable, Consistent, Cells;
  }

  lemma SparseArm(x: Index, q: PreparedQuery, allowed: Option<set<DocId>>)
    requires Coherent(x) && Restricts(allowed, x, q.filter)
    ensures DirectScores(x.bm25, x.weights, Dedup(q.terms), allowed) == SparseScores(x, q)
  {
    hide DirectSum, Matches, Searchable, Consistent, Cells, Occurs, Dedup;
  }

  // ---- the pipeline ----

  function Arms(denseHits: seq<Scored>, sparseHits: seq<Scored>, p: RankParams): seq<RankList> {
    [RankList(Ids(denseHits), p.denseWeight), RankList(Ids(sparseHits), p.sparseWeight)]
  }

  /** A query term's posting names an admitted document the term index has no length for. */
  ghost predicate Derails(x: Index, q: PreparedQuery) {
    && |x.meta| > 0 && |x.bm25.docLen| > 0
    && exists t, d: DocId :: t in q.terms && Occurs(x.bm25, t, d) && Admits(x, q.filter, d) && d >= |x.bm25.docLen|
  }

  lemma DerailsIff(x: Index, q: PreparedQuery, allowed: Option<set<DocId>>)
    requires Restricts(allowed, x, q.filter) && |x.meta| > 0
    ensures Derails(x, q) <==> |x.bm25.docLen| > 0 && !AllReach(x.bm25, q.terms, allowed)
  {
    hide Admits;
    if !AllReach(x.bm25, q.terms, allowed) {
      var t :| t in q.terms && !TermReaches(x.bm25, t, allowed);
      var d :| d in x.bm25.terms[x.bm25.termIndex[t]].docs && Allowed(allowed, d) && d >= |x.bm25.docLen|;
      assert Occurs(x.bm25, t, d);
    }
    if t, d: DocId :| t in q.terms && Occurs(x.bm25, t, d) && Admits(x, q.filter, d) && d >= |x.bm25.docLen| {
      assert Allowed(allowed, d) && !TermReaches(x.bm25, t, allowed);
    }
  }

  /** `hits` is a possible answer of the pipeline with `pool` candidates per arm. Every stage
      has one answer, so there is one. */
  ghost predicate Answers(hits: seq<Scored>, x: Index, q: PreparedQuery, pool: nat,
                          denseHits: seq<Scored>, sparseHits: seq<Scored>, fused: seq<Scored>)
    requires Coherent(x) && |q.vector| == x.dim
  {
    && TopOf(denseHits, DenseScores(x, q), pool)
    && TopOf(sparseHits, SparseScores(x, q), pool)
    && TopOf(fused, Accumulate(AllEntries(Arms(denseHits, sparseHits, q.rank), q.rank.rrfK)),
             if q.rank.graphBoost > 0.0 then pool else q.limit)
    && hits == if q.rank.graphBoost > 0.0 then Truncate(Reranked(x.graph, fused, q.rank.graphBoost), q.limit) else fused
  }

  function Reranked(g: Graph, fused: seq<Scored>, weight: real): seq<Scored> {
    if weight <= 0.0 || Edgeless(g) then fused else Rank(Boosts(g, fused, weight))
  }

  ghost predicate Found(hits: seq<Scored>, x: Index, q: PreparedQuery, pool: nat)
    requires Coherent(x) && |q.vector| == x.dim
  {
    if |x.meta| == 0 then hits == []
    else exists denseHits, sparseHits, fused :: Answers(hits, x, q, pool, denseHits, sparseHits, fused)
  }

  lemma EmptyTop(limit: nat)
    ensures TopOf([], map[], limit)
  {
    var none: Scores := map[];
    var full := RankingExists(none);
    ListingSize(full, none.Items);
    ItemCount(none);
    assert Truncate(full, limit) == [];
  }

  /** Run both arms, fuse, boost, cut. An index without records finds nothing; otherwise it fails,
      by an index out of bounds, exactly when a posting leads out of the term index. */
  method SearchPrepared(x: Index, q: PreparedQuery) returns (r: Result<seq<Scored>, SearchError>)
    requires Coherent(x)
    ensures |q.vector| != x.dim ==> r == Err(WrongDimension(DimMismatch(x.dim, |q.vector|)))
    ensures |q.vector| == x.dim ==> (r.Err? <==> Derails(x, q)) && (r.Err? ==> r == Err(OutOfBounds))
    ensures r.Ok? ==> Found(r.value, x, q, Pool(q.limit, q.rank.candidateMultiplier))
  {
    if |q.vector| != x.dim {
      return Err(WrongDimension(DimMismatch(x.dim, |q.vector|)));
    }
    var candidates := Pool(q.limit, q.rank.candidateMultiplier);
    if |x.meta| == 0 {
      return Ok([]);
    }
    assert candidates > 0;
    hide Pool, DirectScores, ScanScores, DenseScores, SparseScores, Accumulate, AllEntries, TopOf, Boosts, Rank,
      AllReach;
    var allowed := Evaluate(q.filter, x.meta);
    assert Restricts(allowed, x, q.filter);
    DerailsIff(x, q, allowed);
    hide Derails;
    var denseHits := TopK(q.vector, x.dense, x.dim, |x.meta|, candidates, x.metric, allowed);
    assert TopOf(denseHits, DenseScores(x, q), candidates) by {
      if x.dim > 0 {
        DenseArm(x, q, allowed);
      } else {
        NoDimensions(x, q);
        EmptyTop(candidates);
      }
    }
    var sparse := Score(x.bm25, x.weights, q.terms, allowed, candidates);
    if sparse.None? {
      return Err(OutOfBounds);
    }
    var sparseHits := sparse.value;
    SparseArm(x, q, allowed);
    var fuseLimit := if q.rank.graphBoost > 0.0 then candidates else q.limit;
    var fused := Fuse(Arms(denseHits, sparseHits, q.rank), q.rank.rrfK, fuseLimit);
    var ranked := fused;
    if q.rank.graphBoost > 0.0 {
      ranked := Boosted(x.graph, ranked, q.rank.graphBoost);
      ranked := Truncate(ranked, q.limit);
    }
    assert Answers(ranked, x, q, candidates, denseHits, sparseHits, fused);
    r := Ok(ranked);
  }

  /** No search fails on an index whose postings stay in range. */
  lemma InRangeNeverDerails(x: Index, q: PreparedQuery)
    requires Sparse.InRange(x.bm25)
    ensures !Derails(x, q)
  {
    forall t, d: DocId | t in q.terms && Occurs(x.bm25, t, d) ensures d < |x.bm25.docLen| {
      assert Sparse.Reaches(x.bm25.terms[x.bm25.termIndex[t]], |x.bm25.docLen|);
    }
  }

  lemma NoDimensions(x: Index, q: PreparedQuery)
    requires Coherent(x) && |q.vector| == x.dim == 0
    ensures DenseScores(x, q) == map[]
  {}

  // ---- what holds for any pool ----

  /** The ids an answer may contain: those the filter admits. */
  ghost predicate AllAdmitted(ids: seq<DocId>, x: Index, f: Filter) {
    forall d :: d in ids ==> d < Known(x) && Admits(x, f, d)
  }

  /** Every id is a record that matches the filter. */
  ghost predicate AllMatching(ids: seq<DocId>, x: Index, f: Filter) {
    forall d :: d in ids ==> d < |x.meta| && Matches(f, x.meta[d])
  }

  lemma AdmittedMatch(ids: seq<DocId>, x: Index, f: Filter)
    requires AllAdmitted(ids, x, f) && (f != All || |x.bm25.docLen| <= |x.meta|)
    ensures AllMatching(ids, x, f)
  {}

  lemma ArmsDistinct(denseHits: seq<Scored>, sparseHits: seq<Scored>, p: RankParams)
    requires Distinct(Ids(denseHits)) && Distinct(Ids(sparseHits))
    ensures DistinctLists(Arms(denseHits, sparseHits, p))
    ensures forall d :: Listed(Arms(denseHits, sparseHits, p), d) <==> d in Ids(denseHits) || d in Ids(sparseHits)
  {
    var arms := Arms(denseHits, sparseHits, p);
    assert arms[0] in arms && arms[1] in arms;
  }

  lemma ArmsAdmitted(x: Index, q: PreparedQuery)
    requires Coherent(x) && |q.vector| == x.dim
    ensures forall d :: d in DenseScores(x, q) || d in SparseScores(x, q) ==> d < Known(x) && Admits(x, q.filter, d)
  {
    hide Similarity, VectorAt, DirectSum, Matches, Searchable, Consistent, Cells, Occurs, Dedup;
  }

  lemma FusedMatch(hits: seq<Scored>, x: Index, q: PreparedQuery, pool: nat,
                   denseHits: seq<Scored>, sparseHits: seq<Scored>, fused: seq<Scored>)
    requires Coherent(x) && |q.vector| == x.dim && Answers(hits, x, q, pool, denseHits, sparseHits, fused)
    ensures Distinct(Ids(fused)) && AllAdmitted(Ids(fused), x, q.filter) && SortedBy(RankLe, fused)
    ensures q.rank.graphBoost <= 0.0 ==> |fused| <= q.limit
  {
    var scores := Accumulate(AllEntries(Arms(denseHits, sparseHits, q.rank), q.rank.rrfK));
    TopIdsDistinct(denseHits, DenseScores(x, q), pool);
    TopIdsDistinct(sparseHits, SparseScores(x, q), pool);
    ArmsDistinct(denseHits, sparseHits, q.rank);
    FusedScores(Arms(denseHits, sparseHits, q.rank), q.rank.rrfK);
    var limit := if q.rank.graphBoost > 0.0 then pool else q.limit;
    TopIdsDistinct(fused, scores, limit);
    TopProperties(fused, scores, limit);
    ArmsAdmitted(x, q);
    hide Answers, DenseScores, SparseScores, Accumulate, AllEntries, TopOf, Arms, Admits, Coherent, Known;
    forall d | d in Ids(fused) ensures d < Known(x) && Admits(x, q.filter, d) {
      assert d in scores && Listed(Arms(denseHits, sparseHits, q.rank), d);
      assert d in Ids(denseHits) || d in Ids(sparseHits);
    }
  }

  /** Re-ranking changes scores and order, not the set of documents. */
  lemma RerankedIds(g: Graph, fused: seq<Scored>, weight: real)
    requires Distinct(Ids(fused)) && SortedBy(RankLe, fused)
    ensures var r := Reranked(g, fused, weight);
      && Distinct(Ids(r)) && SortedBy(RankLe, r)
      && forall d :: d in Ids(r) <==> d in Ids(fused)
  {
    if !(weight <= 0.0 || Edgeless(g)) {
      var bs := Boosts(g, fused, weight);
      assert Ids(bs) == Ids(fused);
      RankTotal();
      SortSorts(RankLe, bs);
      RankedIds(bs);
    }
  }

  lemma RankedIds(bs: seq<Scored>)
    requires Distinct(Ids(bs))
    ensures Distinct(Ids(Rank(bs)))
    ensures forall d :: d in Ids(Rank(bs)) <==> d in Ids(bs)
  {
    var r := Rank(bs);
    RankMembers(bs);
    DistinctPairs(bs);
    hide Rank, Ids;
    DistinctPermutes(bs, r);
    forall i, j | 0 <= i < j < |r| ensures Ids(r)[i] != Ids(r)[j] {
      assert r[i] in bs && r[j] in bs && r[i] != r[j];
      if Ids(r)[i] == Ids(r)[j] {
        OnePairPerId(bs, r[i], r[j]);
      }
    }
    forall d ensures d in Ids(r) <==> d in Ids(bs) {
      IdMember(r, d);
      IdMember(bs, d);
    }
  }

  lemma IdMember(s: seq<Scored>, d: DocId)
    ensures d in Ids(s) <==> exists x :: x in s && x.0 == d
  {
    if x :| x in s && x.0 == d {
      var i :| 0 <= i < |s| && s[i] == x;
      assert Ids(s)[i] == d;
    }
  }

  lemma OnePairPerId(s: seq<Scored>, x: Scored, y: Scored)
    requires Distinct(Ids(s)) && x in s && y in s && x.0 == y.0
    ensures x == y
  {
    var i :| 0 <= i < |s| && s[i] == x;
    var j :| 0 <= j < |s| && s[j] == y;
    assert Ids(s)[i] == Ids(s)[j];
  }

  lemma DistinctPairs(bs: seq<Scored>)
    requires Distinct(Ids(bs))
    ensures Distinct(bs)
  {
    forall i, j | 0 <= i < j < |bs| ensures bs[i] != bs[j] {
      assert Ids(bs)[i] != Ids(bs)[j];
    }
  }

  lemma AnswerIsSound(hits: seq<Scored>, x: Index, q: PreparedQuery, pool: nat,
                      denseHits: seq<Scored>, sparseHits: seq<Scored>, fused: seq<Scored>)
    requires Coherent(x) && |q.vector| == x.dim && Answers(hits, x, q, pool, denseHits, sparseHits, fused)
    ensures |hits| <= q.limit && Distinct(Ids(hits)) && SortedBy(RankLe, hits)
    ensures AllAdmitted(Ids(hits), x, q.filter)
  {
    FusedMatch(hits, x, q, pool, denseHits, sparseHits, fused);
    hide TopOf, Reranked, Coherent, Admits, DenseScores, SparseScores, Accumulate, AllEntries, Known;
    if q.rank.graphBoost > 0.0 {
      RerankedIds(x.graph, fused, q.rank.graphBoost);
      CutSound(Reranked(x.graph, fused, q.rank.graphBoost), q.limit);
    }
  }

  /** Whatever the pool, hits are distinct and admitted by the filter, at most `limit` of them,
      best first with ties by id. They are records that match the filter unless the filter is
      match-all and the term index has more documents than there are records. */
  lemma HitsAreSound(hits: seq<Scored>, x: Index, q: PreparedQuery, pool: nat)
    requires Coherent(x) && |q.vector| == x.dim && Found(hits, x, q, pool)
    ensures |hits| <= q.limit && Distinct(Ids(hits)) && SortedBy(RankLe, hits)
    ensures AllAdmitted(Ids(hits), x, q.filter)
    ensures q.filter != All || |x.bm25.docLen| <= |x.meta| ==> AllMatching(Ids(hits), x, q.filter)
  {
    hide Answers, Admits, Coherent, AllMatching;
    if |x.meta| > 0 {
      var denseHits, sparseHits, fused :| Answers(hits, x, q, pool, denseHits, sparseHits, fused);
      AnswerIsSound(hits, x, q, pool, denseHits, sparseHits, fused);
    }
    if q.filter != All || |x.bm25.docLen| <= |x.meta| {
      AdmittedMatch(Ids(hits), x, q.filter);
    }
  }

  lemma CutSound(r: seq<Scored>, limit: nat)
    requires Distinct(Ids(r)) && SortedBy(RankLe, r)
    ensures var cut := Truncate(r, limit);
      Distinct(Ids(cut)) && SortedBy(RankLe, cut) && forall d :: d in Ids(cut) ==> d in Ids(r)
  {
    assert Ids(Truncate(r, limit)) == Truncate(Ids(r), limit);
  }

  // ---- a pool that covers the corpus ----

  /** The exact score: both complete rankings fused, then boosted. */
  ghost function ExactScores(x: Index, q: PreparedQuery, denseRanking: seq<Scored>, sparseRanking: seq<Scored>)
    : Scores
  {
    var fused := Accumulate(AllEntries(Arms(denseRanking, sparseRanking, q.rank), q.rank.rrfK));
    BoostedScores(x.graph, fused, if q.rank.graphBoost <= 0.0 then 0.0 else q.rank.graphBoost)
  }

  ghost function Range(n: nat): (r: set<DocId>)
    ensures |r| == n && forall d: DocId :: d in r <==> d < n
  {
    if n == 0 then {} else Range(n - 1) + {n - 1}
  }

  lemma FewScored(scores: Scores, n: nat)
    requires forall d :: d in scores ==> d < n
    ensures |scores| <= n
  {
    assert scores.Keys <= Range(n);
    KeysFit(scores.Keys, Range(n));
  }

  lemma {:induction false} KeysFit(a: set<DocId>, b: set<DocId>)
    requires a <= b
    ensures |a| <= |b|
  {
    if a != {} {
      var d :| d in a;
      KeysFit(a - {d}, b - {d});
    }
  }

  /** With a pool of at least the number of records and of documents in the term index the answer
      is exact: the best `limit` by fusing the complete dense ranking with the complete sparse
      ranking and boosting. The pool size no longer matters. */
  lemma WidePoolIsExact(hits: seq<Scored>, x: Index, q: PreparedQuery, pool: nat,
                        denseRanking: seq<Scored>, sparseRanking: seq<Scored>)
    requires Coherent(x) && |q.vector| == x.dim && Found(hits, x, q, pool) && Known(x) <= pool && |x.meta| > 0
    requires Ranks(denseRanking, DenseScores(x, q)) && Ranks(sparseRanking, SparseScores(x, q))
    ensures TopOf(hits, ExactScores(x, q, denseRanking, sparseRanking), q.limit)
  {
    var denseHits, sparseHits, fused :| Answers(hits, x, q, pool, denseHits, sparseHits, fused);
    ArmsComplete(x, q, pool, denseHits, sparseHits, denseRanking, sparseRanking);
    var scores := Accumulate(AllEntries(Arms(denseHits, sparseHits, q.rank), q.rank.rrfK));
    if q.rank.graphBoost > 0.0 {
      FusedFits(x, q, pool, denseHits, sparseHits);
      TopIsAll(fused, scores, pool);
      BoostRanks(x.graph, fused, scores, q.rank.graphBoost);
    } else {
      hide Accumulate, AllEntries;
      assert Truncate(fused, |fused|) == fused;
      NothingBoosted(x.graph, scores);
    }
  }

  lemma NothingBoosted(g: Graph, scores: Scores)
    ensures BoostedScores(g, scores, 0.0) == scores
  {
    forall d | d in scores ensures Boost(g, scores, 0.0, d) == 0.0 {
      NoBoost(g, scores, 0.0, d);
    }
  }

  lemma ArmsComplete(x: Index, q: PreparedQuery, pool: nat, denseHits: seq<Scored>, sparseHits: seq<Scored>,
                     denseRanking: seq<Scored>, sparseRanking: seq<Scored>)
    requires Coherent(x) && |q.vector| == x.dim && Known(x) <= pool
    requires TopOf(denseHits, DenseScores(x, q), pool) && TopOf(sparseHits, SparseScores(x, q), pool)
    requires Ranks(denseRanking, DenseScores(x, q)) && Ranks(sparseRanking, SparseScores(x, q))
    ensures denseHits == denseRanking && sparseHits == sparseRanking
  {
    FewScored(DenseScores(x, q), Known(x));
    FewScored(SparseScores(x, q), Known(x));
    hide DenseScores, SparseScores, Coherent;
    TopIsAll(denseHits, DenseScores(x, q), pool);
    TopIsAll(sparseHits, SparseScores(x, q), pool);
    RankingIsUnique(denseHits, denseRanking, DenseScores(x, q));
    RankingIsUnique(sparseHits, sparseRanking, SparseScores(x, q));
  }

  lemma FusedFits(x: Index, q: PreparedQuery, pool: nat, denseHits: seq<Scored>, sparseHits: seq<Scored>)
    requires Coherent(x) && |q.vector| == x.dim && Known(x) <= pool
    requires TopOf(denseHits, DenseScores(x, q), pool) && TopOf(sparseHits, SparseScores(x, q), pool)
    ensures |Accumulate(AllEntries(Arms(denseHits, sparseHits, q.rank), q.rank.rrfK))| <= pool
  {
    var scores := Accumulate(AllEntries(Arms(denseHits, sparseHits, q.rank), q.rank.rrfK));
    TopIdsDistinct(denseHits, DenseScores(x, q), pool);
    TopIdsDistinct(sparseHits, SparseScores(x, q), pool);
    ArmsDistinct(denseHits, sparseHits, q.rank);
    FusedScores(Arms(denseHits, sparseHits, q.rank), q.rank.rrfK);
    hide Accumulate, AllEntries, TopOf, Arms, Coherent;
    forall d | d in scores ensures d < Known(x) {
      assert Listed(Arms(denseHits, sparseHits, q.rank), d);
      assert d in Ids(denseHits) || d in Ids(sparseHits);
    }
    FewScored(scores, Known(x));
  }

  /** Any two pools that cover the corpus give the same hits. */
  lemma WidePoolsAgree(hits: seq<Scored>, hits': seq<Scored>, x: Index, q: PreparedQuery, pool: nat, pool': nat)
    requires Coherent(x) && |q.vector| == x.dim && Known(x) <= pool && Known(x) <= pool'
    requires Found(hits, x, q, pool) && Found(hits', x, q, pool')
    ensures hits == hits'
  {
    if |x.meta| == 0 {
      return;
    }
    var denseRanking := RankingExists(DenseScores(x, q));
    var sparseRanking := RankingExists(SparseScores(x, q));
    WidePoolIsExact(hits, x, q, pool, denseRanking, sparseRanking);
    WidePoolIsExact(hits', x, q, pool', denseRanking, sparseRanking);
    TopIsUnique(hits, hits', ExactScores(x, q, denseRanking, sparseRanking), q.limit);
  }

  /** The pool covers `n` documents if and only if there are at most 32 of them, or at most
      `limit`, or at most `limit` times the multiplier (0 counting as 1) short of overflow. So any
      search over at most 32 documents is exact. */
  lemma PoolCoversIff(limit: nat, multiplier: nat, n: nat)
    ensures n <= Pool(limit, multiplier)
      <==> n <= MIN_POOL || n <= limit || (n <= USIZE_MAX && n <= limit * Max(multiplier, 1))
  {}
}
