/** Reciprocal rank fusion. */
module Fusion {
  import opened Common
  import opened Sorting
  import opened Ranking

  /** A ranked result list, best first, with its weight. */
  datatype RankList = RankList(ids: seq<DocId>, weight: real)

  /** The share of the item at 0-based `rank`: `weight / (k + rank + 1)`. */
  function RrfTerm(weight: real, k: nat, rank: nat): real {
    weight / ((k + rank + 1) as real)
  }

  function Entries(l: RankList, k: nat, n: nat): (r: seq<Scored>)
    requires n <= |l.ids|
    ensures |r| == n
  {
    seq(n, rank requires 0 <= rank < n => (l.ids[rank], RrfTerm(l.weight, k, rank)))
  }

  function AllEntries(lists: seq<RankList>, k: nat): seq<Scored> {
    if lists == [] then []
    else
      var l := lists[|lists| - 1];
      AllEntries(lists[..|lists| - 1], k) + Entries(l, k, |l.ids|)
  }

  /** Fuse ranked lists and return the best `limit`. */
  method Fuse(lists: seq<RankList>, k: nat, limit: nat) returns (fused: seq<Scored>)
    ensures TopOf(fused, Accumulate(AllEntries(lists, k)), limit)
  {
    hide Accumulate, AddTo;
    var scores: Scores := map[];
    assert Accumulate([]) == map[] by {
      NoEntries();
    }
    for i := 0 to |lists|
      invariant scores == Accumulate(AllEntries(lists[..i], k))
    {
      var l := lists[i];
      ghost var before := AllEntries(lists[..i], k);
      assert before + Entries(l, k, 0) == before;
      for rank := 0 to |l.ids|
        invariant scores == Accumulate(before + Entries(l, k, rank))
      {
        var e := (l.ids[rank], RrfTerm(l.weight, k, rank));
        AccumulateNext(before + Entries(l, k, rank), e);
        assert before + Entries(l, k, rank + 1) == before + Entries(l, k, rank) + [e];
        scores := AddTo(scores, e.0, e.1);
      }
      assert lists[..i + 1][..i] == lists[..i];
    }
    assert lists[..|lists|] == lists;
    fused := RankScores(scores, limit);
  }

  lemma NoEntries()
    ensures Accumulate([]) == map[]
  {}

  // ---- what the fused score is ----

  function IndexOf(ids: seq<DocId>, d: DocId): (i: nat)
    requires d in ids
    ensures i < |ids| && ids[i] == d
  {
    if ids[0] == d then 0 else 1 + IndexOf(ids[1..], d)
  }

  /** The share a list gives a document: by its rank, or nothing. */
  function Share(l: RankList, k: nat, d: DocId): real {
    if d in l.ids then RrfTerm(l.weight, k, IndexOf(l.ids, d)) else 0.0
  }

  function FusedScore(lists: seq<RankList>, k: nat, d: DocId): real {
    if lists == [] then 0.0
    else FusedScore(lists[..|lists| - 1], k, d) + Share(lists[|lists| - 1], k, d)
  }

  ghost predicate DistinctLists(lists: seq<RankList>) {
    forall l :: l in lists ==> Distinct(l.ids)
  }

  ghost predicate Listed(lists: seq<RankList>, d: DocId) {
    exists l :: l in lists && d in l.ids
  }

  lemma {:induction false} EntriesShare(l: RankList, k: nat, n: nat, d: DocId)
    requires Distinct(l.ids) && n <= |l.ids|
    ensures SumFor(Entries(l, k, n), d) == if d in l.ids && IndexOf(l.ids, d) < n then Share(l, k, d) else 0.0
  {
    if n > 0 {
      EntriesShare(l, k, n - 1, d);
      var es := Entries(l, k, n);
      assert es[..n - 1] == Entries(l, k, n - 1);
      hide RrfTerm;
      assert d in l.ids ==> (l.ids[n - 1] == d <==> IndexOf(l.ids, d) == n - 1);
    }
  }

  lemma {:induction false} FusedIsSum(lists: seq<RankList>, k: nat, d: DocId)
    requires DistinctLists(lists)
    ensures SumFor(AllEntries(lists, k), d) == FusedScore(lists, k, d)
  {
    if lists != [] {
      var init, l := lists[..|lists| - 1], lists[|lists| - 1];
      assert l in lists && forall x :: x in init ==> x in lists;
      FusedIsSum(init, k, d);
      EntriesShare(l, k, |l.ids|, d);
      hide Entries, Share, SumFor;
      SumForConcat(AllEntries(init, k), Entries(l, k, |l.ids|), d);
    }
  }

  lemma {:induction false} FusedIds(lists: seq<RankList>, k: nat, d: DocId)
    ensures d in Ids(AllEntries(lists, k)) <==> Listed(lists, d)
  {
    hide RrfTerm;
    if lists != [] {
      var init, l := lists[..|lists| - 1], lists[|lists| - 1];
      assert lists == init + [l];
      FusedIds(init, k, d);
      assert Ids(AllEntries(lists, k)) == Ids(AllEntries(init, k)) + Ids(Entries(l, k, |l.ids|));
      assert Ids(Entries(l, k, |l.ids|)) == l.ids;
    }
  }

  /** Over lists without repetitions, the fused score of a document is the sum of its shares,
      and exactly the listed documents are scored. */
  lemma FusedScores(lists: seq<RankList>, k: nat)
    requires DistinctLists(lists)
    ensures var scores := Accumulate(AllEntries(lists, k));
      && (forall d :: d in scores <==> Listed(lists, d))
      && (forall d :: d in scores ==> scores[d] == FusedScore(lists, k, d))
  {
    AccumulateIsSum(AllEntries(lists, k));
    hide Accumulate, AllEntries, DistinctLists;
    forall d: DocId ensures
      && SumFor(AllEntries(lists, k), d) == FusedScore(lists, k, d)
      && (d in Ids(AllEntries(lists, k)) <==> Listed(lists, d))
    {
      FusedIsSum(lists, k, d);
      FusedIds(lists, k, d);
    }
  }

  // ---- dominance ----

  /** `a` is listed ahead of `b` wherever `b` is listed. */
  ghost predicate Ahead(lists: seq<RankList>, a: DocId, b: DocId) {
    forall l :: l in lists && b in l.ids ==> a in l.ids && IndexOf(l.ids, a) < IndexOf(l.ids, b)
  }

  lemma TermPositive(weight: real, k: nat, r: nat)
    requires weight > 0.0
    ensures RrfTerm(weight, k, r) > 0.0
  {}

  lemma TermDecreases(weight: real, k: nat, r: nat, s: nat)
    requires weight > 0.0 && r < s
    ensures RrfTerm(weight, k, r) > RrfTerm(weight, k, s)
  {
    var x, y := (k + r + 1) as real, (k + s + 1) as real;
    assert 0.0 < x < y;
    var p, q := weight / x, weight / y;
    assert p * x == weight && q * y == weight;
    assert q > 0.0;
    assert q * x < q * y;
    assert (p - q) * x > 0.0;
  }

  lemma {:induction false} AheadScoresMore(lists: seq<RankList>, k: nat, a: DocId, b: DocId)
    requires Ahead(lists, a, b) && forall l :: l in lists ==> l.weight > 0.0
    ensures FusedScore(lists, k, a) >= FusedScore(lists, k, b)
    ensures Listed(lists, b) ==> FusedScore(lists, k, a) > FusedScore(lists, k, b)
  {
    hide RrfTerm, IndexOf;
    if lists != [] {
      var init, l := lists[..|lists| - 1], lists[|lists| - 1];
      assert lists == init + [l];
      assert l in lists && forall x :: x in init ==> x in lists;
      AheadScoresMore(init, k, a, b);
      if b in l.ids {
        TermDecreases(l.weight, k, IndexOf(l.ids, a), IndexOf(l.ids, b));
      } else if a in l.ids {
        TermPositive(l.weight, k, IndexOf(l.ids, a));
      }
    }
  }

  /** With positive weights, a document ranked ahead of another in every list where the other
      appears is strictly ahead after fusion, and is returned whenever the other is. */
  lemma AheadEverywhereIsAheadFused(lists: seq<RankList>, k: nat, limit: nat, fused: seq<Scored>, a: DocId, b: DocId,
                                    j: nat)
    requires DistinctLists(lists) && Ahead(lists, a, b) && forall l :: l in lists ==> l.weight > 0.0
    requires TopOf(fused, Accumulate(AllEntries(lists, k)), limit)
    requires j < |fused| && fused[j].0 == b
    ensures exists i :: 0 <= i < j && fused[i].0 == a && fused[i].1 > fused[j].1
  {
    var scores := Accumulate(AllEntries(lists, k));
    FusedScores(lists, k);
    TopProperties(fused, scores, limit);
    hide Accumulate, AllEntries, TopOf, DistinctLists;
    assert fused[j] in fused;
    var l :| l in lists && b in l.ids;
    assert a in l.ids;
    AheadScoresMore(lists, k, a, b);
    hide FusedScore, IndexOf;
    assert scores[a] > scores[b];
    assert !RankLe(fused[j], (a, scores[a]));
    assert (a, scores[a]) in fused;
    var i :| 0 <= i < |fused| && fused[i] == (a, scores[a]);
    assert i < j;
  }
}
