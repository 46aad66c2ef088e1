/** Rankings of score maps: descending score, ties by ascending id, cut to a limit. */
module Ranking {
  import opened Common
  import opened Sorting
  import opened Lexical

  type Scores = map<DocId, real>

  /** `r` lists every scored document once, best first. */
  ghost predicate Ranks(r: seq<Scored>, scores: Scores) {
    SortedBy(RankLe, r) && Lists(r, scores.Items)
  }

  /** `r` is the first `limit` of the ranking of `scores`. */
  ghost predicate TopOf(r: seq<Scored>, scores: Scores, limit: nat) {
    exists full :: Ranks(full, scores) && r == Truncate(full, limit)
  }

  lemma RankingIsUnique(r: seq<Scored>, s: seq<Scored>, scores: Scores)
    requires Ranks(r, scores) && Ranks(s, scores)
    ensures r == s
  {
    RankTotal();
    ListingsPermute(r, s, scores.Items);
    SortedUnique(RankLe, r, s);
  }

  /** There is only one answer for given scores and limit. */
  lemma TopIsUnique(r: seq<Scored>, s: seq<Scored>, scores: Scores, limit: nat)
    requires TopOf(r, scores, limit) && TopOf(s, scores, limit)
    ensures r == s
  {
    var a :| Ranks(a, scores) && r == Truncate(a, limit);
    var b :| Ranks(b, scores) && s == Truncate(b, limit);
    RankingIsUnique(a, b, scores);
  }

  lemma SortRanks(listed: seq<Scored>, scores: Scores)
    requires Lists(listed, scores.Items)
    ensures Ranks(Rank(listed), scores)
  {
    RankTotal();
    SortSorts(RankLe, listed);
    SortPermutes(RankLe, listed);
    SortMembers(RankLe, listed);
    DistinctPermutes(listed, Rank(listed));
  }

  lemma {:induction false} ListingExists<T(!new)>(u: set<T>) returns (s: seq<T>)
    ensures Lists(s, u)
  {
    if u == {} {
      s := [];
    } else {
      var x :| x in u;
      s := ListingExists(u - {x});
      DistinctAppend(s, x);
      s := s + [x];
    }
  }

  /** Every score map has a ranking. */
  lemma RankingExists(scores: Scores) returns (full: seq<Scored>)
    ensures Ranks(full, scores)
  {
    var listed := ListingExists(scores.Items);
    SortRanks(listed, scores);
    full := Rank(listed);
  }

  /** Collect a score map in its hash order, sort, truncate. */
  method RankScores(scores: Scores, limit: nat) returns (r: seq<Scored>)
    ensures TopOf(r, scores, limit)
  {
    var listed := Enumerate(scores.Items);
    SortRanks(listed, scores);
    hide Rank, Ranks;
    r := Truncate(Rank(listed), limit);
  }

  /** Hits are distinct documents with their own scores, at most `limit`, best first, and a
      scored document is left out only when `limit` better ones are kept. */
  lemma TopProperties(r: seq<Scored>, scores: Scores, limit: nat)
    requires TopOf(r, scores, limit)
    ensures |r| == if |scores| <= limit then |scores| else limit
    ensures SortedBy(RankLe, r) && Distinct(r)
    ensures forall x :: x in r ==> x.0 in scores && scores[x.0] == x.1
    ensures forall d :: d in scores && (d, scores[d]) !in r ==>
      |r| == limit && forall x :: x in r ==> RankLe(x, (d, scores[d]))
  {
    var full :| Ranks(full, scores) && r == Truncate(full, limit);
    ListingSize(full, scores.Items);
    ItemCount(scores);
    forall x | x in r ensures x in full {}
    forall d | d in scores && (d, scores[d]) !in r
      ensures |r| == limit && forall x :: x in r ==> RankLe(x, (d, scores[d]))
    {
      assert (d, scores[d]) in scores.Items;
      var j :| 0 <= j < |full| && full[j] == (d, scores[d]);
      assert j >= |r|;
    }
  }

  lemma {:induction false} ItemCount(scores: Scores)
    ensures |scores.Items| == |scores|
    decreases |scores|
  {
    if scores != map[] {
      var d :| d in scores;
      var rest := scores - {d};
      assert scores.Items == rest.Items + {(d, scores[d])} by {
        forall x ensures x in scores.Items <==> x in rest.Items + {(d, scores[d])} {
          assert x in rest.Items <==> x.0 in rest && rest[x.0] == x.1;
        }
      }
      assert scores.Keys == rest.Keys + {d};
      assert |scores| == |scores.Keys| && |rest| == |rest.Keys|;
      ItemCount(rest);
    }
  }

  /** With a limit of at least the number of scored documents nothing is left out. */
  lemma TopIsAll(r: seq<Scored>, scores: Scores, limit: nat)
    requires TopOf(r, scores, limit) && |scores| <= limit
    ensures Ranks(r, scores)
  {
    var full :| Ranks(full, scores) && r == Truncate(full, limit);
    ListingSize(full, scores.Items);
    ItemCount(scores);
  }

  function Ids(r: seq<Scored>): (ids: seq<DocId>)
    ensures |ids| == |r|
    ensures forall i :: 0 <= i < |r| ==> ids[i] == r[i].0
  {
    seq(|r|, i requires 0 <= i < |r| => r[i].0)
  }

  /** The ids of a ranking are distinct. */
  lemma TopIdsDistinct(r: seq<Scored>, scores: Scores, limit: nat)
    requires TopOf(r, scores, limit)
    ensures Distinct(Ids(r))
    ensures forall d :: d in Ids(r) ==> d in scores
  {
    TopProperties(r, scores, limit);
    forall i, j | 0 <= i < j < |r| ensures Ids(r)[i] != Ids(r)[j] {
      assert r[i] in r && r[j] in r;
    }
  }

  // ---- accumulating scores entry by entry ----

  function ScoreOf(scores: Scores, d: DocId): real {
    if d in scores then scores[d] else 0.0
  }

  /** `*scores.entry(d).or_insert(0) += x`. */
  function AddTo(scores: Scores, d: DocId, x: real): Scores {
    scores[d := ScoreOf(scores, d) + x]
  }

  /** Scores after adding the entries one by one. */
  function Accumulate(es: seq<Scored>): Scores {
    if es == [] then map[]
    else
      var last := es[|es| - 1];
      AddTo(Accumulate(es[..|es| - 1]), last.0, last.1)
  }

  /** The sum of the entries for one document. */
  function SumFor(es: seq<Scored>, d: DocId): real {
    if es == [] then 0.0
    else SumFor(es[..|es| - 1], d) + (if es[|es| - 1].0 == d then es[|es| - 1].1 else 0.0)
  }

  lemma AccumulateNext(es: seq<Scored>, e: Scored)
    ensures Accumulate(es + [e]) == AddTo(Accumulate(es), e.0, e.1)
  {
    assert (es + [e])[..|es|] == es;
  }

  /** Accumulation gives each named document the sum of its entries. */
  lemma {:induction false} AccumulateIsSum(es: seq<Scored>)
    ensures forall d :: d in Accumulate(es) <==> d in Ids(es)
    ensures forall d :: d in Accumulate(es) ==> Accumulate(es)[d] == SumFor(es, d)
  {
    if es != [] {
      var init, last := es[..|es| - 1], es[|es| - 1];
      AccumulateIsSum(init);
      assert es == init + [last];
      assert Ids(es) == Ids(init) + [last.0];
      AbsentSum(init, last.0);
    }
  }

  lemma {:induction false} AbsentSum(es: seq<Scored>, d: DocId)
    ensures d !in Ids(es) ==> SumFor(es, d) == 0.0
  {
    if es != [] {
      var init := es[..|es| - 1];
      assert Ids(es) == Ids(init) + [es[|es| - 1].0];
      AbsentSum(init, d);
    }
  }

  lemma {:induction false} SumForConcat(a: seq<Scored>, b: seq<Scored>, d: DocId)
    ensures SumFor(a + b, d) == SumFor(a, d) + SumFor(b, d)
  {
    if b == [] {
      assert a + b == a;
    } else {
      var last := |b| - 1;
      assert (a + b)[..|a + b| - 1] == a + b[..last];
      SumForConcat(a, b[..last], d);
    }
  }
}
