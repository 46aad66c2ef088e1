/** Exact dense retrieval: similarity, and a bounded heap over one scan. */
module Dense {
  import opened Common
  import opened Sorting
  import opened Lexical
  import opened Ranking
  import opened Builder

  function DotSum(a: seq<real>, b: seq<real>): real
    requires |a| == |b|
  {
    if a == [] then 0.0 else DotSum(a[..|a| - 1], b[..|b| - 1]) + a[|a| - 1] * b[|b| - 1]
  }

  function SquaredDistance(a: seq<real>, b: seq<real>): real
    requires |a| == |b|
  {
    if a == [] then 0.0
    else
      var d := a[|a| - 1] - b[|b| - 1];
      SquaredDistance(a[..|a| - 1], b[..|b| - 1]) + d * d
  }

  function Similarity(query: seq<real>, doc: seq<real>, metric: Metric): real
    requires |query| == |doc|
  {
    if metric.L2? then -SquaredDistance(query, doc) else DotSum(query, doc)
  }

  method ComputeSimilarity(query: seq<real>, doc: seq<real>, metric: Metric) returns (s: real)
    requires |query| == |doc|
    ensures s == Similarity(query, doc, metric)
  {
    s := 0.0;
    for i := 0 to |query|
      invariant s == if metric.L2? then SquaredDistance(query[..i], doc[..i]) else DotSum(query[..i], doc[..i])
    {
      assert query[..i + 1][..i] == query[..i] && doc[..i + 1][..i] == doc[..i];
      if metric.L2? {
        var d := query[i] - doc[i];
        s := s + d * d;
      } else {
        s := s + query[i] * doc[i];
      }
    }
    assert query[..|query|] == query && doc[..|doc|] == doc;
    if metric.L2? {
      s := -s;
    }
  }

  /** The top of the heap: the worst-ranked entry kept. */
  method Peek(heap: multiset<Scored>) returns (top: Scored)
    requires heap != multiset{}
    ensures top in heap && forall x :: x in heap ==> RankLe(x, top)
  {
    top :| top in heap;
    var rest := heap - multiset{top};
    while rest != multiset{}
      invariant rest <= heap && top in heap
      invariant forall x :: x in heap ==> x in rest || RankLe(x, top)
      decreases |rest|
    {
      var x :| x in rest;
      rest := rest - multiset{x};
      if !RankLe(x, top) {
        top := x;
      }
    }
  }

  /** The scores a scan assigns. */
  function ScanScores(query: seq<real>, dense: seq<real>, dim: nat, n: nat, metric: Metric, ids: set<DocId>): Scores
    requires |query| == dim && |dense| == Cells(n, dim) && AllBelow(ids, n)
  {
    map d | d in ids :: Similarity(query, VectorAt(dense, dim, d, n), metric)
  }

  lemma {:induction false} InsertLast(x: Scored, s: seq<Scored>, k: nat)
    requires SortedBy(RankLe, s) && k <= |s|
    requires k == 0 || RankLe(s[k - 1], x)
    requires forall y :: y in s ==> y.0 != x.0
    ensures Insert(RankLe, x, s)[..k] == s[..k]
  {
    if k > 0 {
      assert s[0] == s[k - 1] || RankLe(s[0], s[k - 1]);
      assert s[0] in s;
      assert !RankLe(x, s[0]);
      assert forall y :: y in s[1..] ==> y in s;
      InsertLast(x, s[1..], k - 1);
      assert s[..k] == [s[0]] + s[1..][..k - 1];
      assert Insert(RankLe, x, s)[..k] == [s[0]] + Insert(RankLe, x, s[1..])[..k - 1];
    }
  }

  /** Inserting something better than the last kept entry pushes exactly that entry out. */
  lemma {:induction false} InsertBetter(x: Scored, s: seq<Scored>, k: nat)
    requires SortedBy(RankLe, s) && 0 < k <= |s| && RankLe(x, s[k - 1]) && x != s[k - 1]
    ensures multiset(Insert(RankLe, x, s)[..k]) == multiset(s[..k - 1]) + multiset{x}
  {
    if RankLe(x, s[0]) {
      assert Insert(RankLe, x, s)[..k] == [x] + s[..k - 1];
    } else {
      InsertBetter(x, s[1..], k - 1);
      assert Insert(RankLe, x, s)[..k] == [s[0]] + Insert(RankLe, x, s[1..])[..k - 1];
      assert s[..k - 1] == [s[0]] + s[1..][..k - 2];
    }
  }

  lemma InsertIntoFull(full: seq<Scored>, k: nat, x: Scored)
    requires SortedBy(RankLe, full) && 0 < k <= |full|
    requires forall y :: y in full ==> y.0 < x.0
    ensures multiset(Insert(RankLe, x, full)[..k])
         == if x.1 > full[k - 1].1 then multiset(full[..k]) - multiset{full[k - 1]} + multiset{x}
            else multiset(full[..k])
  {
    assert full[k - 1] in full;
    if x.1 > full[k - 1].1 {
      InsertBetter(x, full, k);
      assert full[..k] == full[..k - 1] + [full[k - 1]];
    } else {
      InsertLast(x, full, k);
    }
  }

  /** One document considered: the heap step keeps the best `k`. */
  lemma ConsiderStep(full: seq<Scored>, k: nat, x: Scored)
    requires SortedBy(RankLe, full) && k > 0
    requires forall y :: y in full ==> y.0 < x.0
    ensures var heap := multiset(Truncate(full, k));
      var heap' := multiset(Truncate(Insert(RankLe, x, full), k));
      if |full| < k then heap' == heap + multiset{x}
      else if x.1 > full[k - 1].1 then heap' == heap - multiset{full[k - 1]} + multiset{x}
      else heap' == heap
  {
    hide Insert, SortedBy;
    if |full| < k {
      InsertPermutes(RankLe, x, full);
    } else {
      InsertIntoFull(full, k, x);
      assert |full| == k ==> full[..k] == full;
    }
  }

  lemma TopOfHeap(full: seq<Scored>, k: nat, top: Scored)
    requires SortedBy(RankLe, full) && 0 < k <= |full|
    requires top in multiset(Truncate(full, k)) && forall x :: x in multiset(Truncate(full, k)) ==> RankLe(x, top)
    ensures top == full[k - 1]
  {
    var t := full[..k];
    assert t[k - 1] in multiset(t);
    var j :| 0 <= j < k && t[j] == top;
    if j < k - 1 {
      assert RankLe(full[j], full[k - 1]);
    }
  }

  ghost predicate AllBelow(u: set<DocId>, n: nat) { forall d :: d in u ==> d < n }

  function IdSet(ids: seq<DocId>): set<DocId> { set d | d in ids }

  /** The ids a scan visits, ascending. */
  method ScanIds(n: nat, allowed: Option<set<DocId>>) returns (ids: seq<DocId>)
    ensures SortedBy(NatLe, ids)
    ensures Lists(ids, Scanned(n, allowed))
  {
    var all := Scanned(n, allowed);
    var listed := Enumerate(all);
    ids := Sort(NatLe, listed);
    NatTotal();
    SortSorts(NatLe, listed);
    SortPermutes(NatLe, listed);
    SortMembers(NatLe, listed);
    DistinctPermutes(listed, ids);
  }

  lemma RankedInsert(full: seq<Scored>, scores: Scores, d: DocId, score: real)
    requires Ranks(full, scores) && d !in scores
    ensures Ranks(Insert(RankLe, (d, score), full), scores[d := score])
  {
    RankTotal();
    var x := (d, score);
    var full' := Insert(RankLe, x, full);
    InsertSorts(RankLe, x, full);
    InsertPermutes(RankLe, x, full);
    assert x !in full by {
      assert x in full <==> x in scores.Items;
    }
    DistinctAppend(full, x);
    DistinctPermutes(full + [x], full');
    forall y ensures y in full' <==> y in scores[d := score].Items {
      assert y in full' <==> y in multiset(full');
      assert y in full <==> y in multiset(full);
      assert y in scores[d := score].Items <==> y in scores.Items || y == x;
    }
  }

  /** The documents a scan scores. */
  function Scanned(n: nat, allowed: Option<set<DocId>>): set<DocId> {
    set d: DocId | d < n && Allowed(allowed, d)
  }

  /** The heap after a prefix of the scan. */
  ghost predicate HeapInv(heap: multiset<Scored>, full: seq<Scored>, scores: Scores, k: nat) {
    Ranks(full, scores) && heap == multiset(Truncate(full, k))
  }

  /** What the heap does with one more document. */
  function Considered(heap: multiset<Scored>, k: nat, top: Scored, x: Scored): multiset<Scored> {
    if |heap| < k then heap + multiset{x}
    else if x.1 > top.1 then heap - multiset{top} + multiset{x}
    else heap
  }

  lemma ConsiderKeepsHeap(heap: multiset<Scored>, full: seq<Scored>, scores: Scores, k: nat, top: Scored, x: Scored)
    requires HeapInv(heap, full, scores, k) && k > 0
    requires forall d :: d in scores ==> d < x.0
    requires |heap| >= k ==> top in heap && forall y :: y in heap ==> RankLe(y, top)
    ensures HeapInv(Considered(heap, k, top, x), Insert(RankLe, x, full), scores[x.0 := x.1], k)
  {
    forall y | y in full ensures y.0 < x.0 {
      assert y in full <==> y in scores.Items;
    }
    ConsiderStep(full, k, x);
    RankedInsert(full, scores, x.0, x.1);
    assert |heap| == |Truncate(full, k)|;
    if |heap| >= k {
      TopOfHeap(full, k, top);
    }
    hide Insert;
  }

  /** Sorting what the heap holds at the end gives the best `k` in order. */
  lemma HeapSorts(heap: multiset<Scored>, full: seq<Scored>, scores: Scores, k: nat, drained: seq<Scored>)
    requires HeapInv(heap, full, scores, k) && multiset(drained) == heap
    ensures TopOf(Rank(drained), scores, k)
  {
    RankTotal();
    SortIsUnique(RankLe, drained, Truncate(full, k));
  }

  /** The entries of a heap in its internal order. */
  method Drain(heap: multiset<Scored>) returns (s: seq<Scored>)
    ensures multiset(s) == heap
  {
    s := [];
    var rest := heap;
    while rest != multiset{}
      invariant rest <= heap && multiset(s) == heap - rest
      decreases |rest|
    {
      var x :| x in rest;
      rest := rest - multiset{x};
      s := s + [x];
    }
  }

  /** Brute-force top-k by similarity: a bounded heap over one ascending scan. The result is
      the first `k` of the complete ranking of the allowed documents, ties included. */
  method TopK(query: seq<real>, dense: seq<real>, dim: nat, n: nat, k: nat, metric: Metric,
              allowed: Option<set<DocId>>) returns (out: seq<Scored>)
    requires |dense| == Cells(n, dim)
    ensures dim == 0 || |query| != dim ==> out == []
    ensures dim > 0 && |query| == dim ==>
      TopOf(out, ScanScores(query, dense, dim, n, metric, Scanned(n, allowed)), k)
  {
    if dim == 0 || |query| != dim {
      return [];
    }
    ghost var whole := ScanScores(query, dense, dim, n, metric, Scanned(n, allowed));
    if k == 0 {
      ghost var full := RankingExists(whole);
      assert Truncate(full, 0) == [];
      return [];
    }
    var ids := ScanIds(n, allowed);
    var heap: multiset<Scored> := multiset{};
    ghost var full: seq<Scored> := [];
    ghost var scores: Scores := map[];
    assert AllBelow(IdSet(ids), n);
    for i := 0 to |ids|
      invariant AllBelow(IdSet(ids[..i]), n)
      invariant scores == ScanScores(query, dense, dim, n, metric, IdSet(ids[..i]))
      invariant HeapInv(heap, full, scores, k)
    {
      var id := ids[i];
      PrefixIds(ids, i, n);
      ScanAdds(query, dense, dim, n, metric, IdSet(ids[..i]), id);
      hide ScanScores, HeapInv, Insert, IdSet, Similarity, VectorAt;
      var score := ComputeSimilarity(query, VectorAt(dense, dim, id, n), metric);
      var top := (0, 0.0);
      if |heap| >= k {
        assert heap != multiset{};
        top := Peek(heap);
      }
      ConsiderKeepsHeap(heap, full, scores, k, top, (id, score));
      heap := Considered(heap, k, top, (id, score));
      full := Insert(RankLe, (id, score), full);
      scores := scores[id := score];
    }
    assert IdSet(ids[..|ids|]) == Scanned(n, allowed);
    var drained := Drain(heap);
    out := Rank(drained);
    HeapSorts(heap, full, scores, k, drained);
  }

  lemma PrefixIds(ids: seq<DocId>, i: nat, n: nat)
    requires i < |ids| && SortedBy(NatLe, ids) && Distinct(ids) && AllBelow(IdSet(ids), n)
    ensures AllBelow(IdSet(ids[..i]), ids[i]) && ids[i] < n
    ensures IdSet(ids[..i + 1]) == IdSet(ids[..i]) + {ids[i]}
  {
    assert ids[i] in IdSet(ids);
    assert ids[..i + 1] == ids[..i] + [ids[i]];
    forall d | d in ids[..i] ensures d < ids[i] {
      var j :| 0 <= j < i && ids[j] == d;
      assert NatLe(ids[j], ids[i]) && ids[j] != ids[i];
    }
  }

  lemma ScanAdds(query: seq<real>, dense: seq<real>, dim: nat, n: nat, metric: Metric, u: set<DocId>, d: DocId)
    requires |query| == dim && |dense| == Cells(n, dim) && AllBelow(u, n) && d < n
    ensures AllBelow(u + {d}, n)
    ensures ScanScores(query, dense, dim, n, metric, u + {d})
         == ScanScores(query, dense, dim, n, metric, u)[d := Similarity(query, VectorAt(dense, dim, d, n), metric)]
  {
    hide Similarity, VectorAt, Cells;
  }
}
