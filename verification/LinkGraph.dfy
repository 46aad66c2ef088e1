/** The resolved link graph: adjacency both ways, related documents, one-hop boost. */
module LinkGraph {
  import opened Common
  import opened Sorting
  import opened Lexical
  import opened Ranking

  datatype Graph = Graph(out: seq<seq<DocId>>, inc: seq<seq<DocId>>)

  // ---- resolving keyed edges ----

  /** A keyed edge of document `src` is kept when its target is another indexed document. */
  predicate Live(key: UrlKey, byUrl: map<UrlKey, DocId>, n: nat, src: DocId) {
    key in byUrl && byUrl[key] < n && byUrl[key] != src
  }

  /** The live targets of a link list, in link order and with repetitions. */
  function Targets(keys: seq<UrlKey>, byUrl: map<UrlKey, DocId>, n: nat, src: DocId): (r: seq<DocId>)
    ensures forall d :: d in r ==> d < n && d != src
  {
    if keys == [] then []
    else
      var last := keys[|keys| - 1];
      Targets(keys[..|keys| - 1], byUrl, n, src) + (if Live(last, byUrl, n, src) then [byUrl[last]] else [])
  }

  ghost predicate InRange(lists: seq<seq<DocId>>, n: nat) {
    |lists| == n && forall s, d :: 0 <= s < n && d in lists[s] ==> d < n && d != s
  }

  /** The in-lists are the transpose of the out-lists, counting repeated links. */
  ghost predicate Transposed(out: seq<seq<DocId>>, inc: seq<seq<DocId>>) {
    && |out| == |inc|
    && forall s, d :: 0 <= s < |out| && 0 <= d < |out| ==> multiset(inc[d])[s] == multiset(out[s])[d]
  }

  ghost predicate AscendingLists(lists: seq<seq<DocId>>) {
    forall d :: 0 <= d < |lists| ==> SortedBy(NatLe, lists[d])
  }

  /** No dangling ids, no self-loops, and the two adjacencies agree. */
  ghost predicate Consistent(g: Graph) {
    InRange(g.out, |g.out|) && InRange(g.inc, |g.out|) && Transposed(g.out, g.inc)
  }

  ghost predicate SourcesUpTo(inc: seq<seq<DocId>>, src: nat) {
    forall d, s :: 0 <= d < |inc| && s in inc[d] ==> s <= src
  }

  /** What holds while the links of documents up to `src` are being added. */
  ghost predicate Linked(out: seq<seq<DocId>>, inc: seq<seq<DocId>>, n: nat, src: nat) {
    && InRange(out, n) && InRange(inc, n) && Transposed(out, inc)
    && AscendingLists(inc) && SourcesUpTo(inc, src)
  }

  lemma LinkKeepsTranspose(out: seq<seq<DocId>>, inc: seq<seq<DocId>>, src: DocId, dst: DocId)
    requires Transposed(out, inc) && src < |out| && dst < |out|
    ensures Transposed(out[src := out[src] + [dst]], inc[dst := inc[dst] + [src]])
  {}

  lemma LinkKeepsOrder(inc: seq<seq<DocId>>, src: DocId, dst: DocId)
    requires dst < |inc| && AscendingLists(inc) && SourcesUpTo(inc, src)
    ensures AscendingLists(inc[dst := inc[dst] + [src]]) && SourcesUpTo(inc[dst := inc[dst] + [src]], src)
  {
    forall i | 0 <= i < |inc[dst]| ensures inc[dst][i] <= src {
      assert inc[dst][i] in inc[dst];
    }
  }

  lemma LinkKeepsLinked(out: seq<seq<DocId>>, inc: seq<seq<DocId>>, n: nat, src: DocId, dst: DocId)
    requires Linked(out, inc, n, src) && src < n && dst < n && src != dst
    ensures Linked(out[src := out[src] + [dst]], inc[dst := inc[dst] + [src]], n, src)
  {
    LinkKeepsTranspose(out, inc, src, dst);
    LinkKeepsOrder(inc, src, dst);
    hide Transposed, AscendingLists, SourcesUpTo;
  }

  /** Turn keyed edges into adjacency in both directions. Together the clauses fix the graph:
      each out-list is the live targets in link order, and each in-list holds the sources in
      ascending order, once per link. */
  method Resolve(edges: seq<seq<UrlKey>>, byUrl: map<UrlKey, DocId>) returns (g: Graph)
    ensures |g.out| == |edges| && Consistent(g) && AscendingLists(g.inc)
    ensures forall s :: 0 <= s < |edges| ==> g.out[s] == Targets(edges[s], byUrl, |edges|, s)
  {
    var n := |edges|;
    var out: seq<seq<DocId>> := seq(n, _ => []);
    var inc: seq<seq<DocId>> := seq(n, _ => []);
    NothingLinked(out, inc, n);
    hide Linked, Consistent, AscendingLists;
    for src := 0 to n
      invariant |out| == |inc| == n && Linked(out, inc, n, src)
      invariant forall s :: 0 <= s < src ==> out[s] == Targets(edges[s], byUrl, n, s)
      invariant forall s :: src <= s < n ==> out[s] == []
    {
      var targets := edges[src];
      for i := 0 to |targets|
        invariant |out| == |inc| == n && Linked(out, inc, n, src)
        invariant forall s :: 0 <= s < src ==> out[s] == Targets(edges[s], byUrl, n, s)
        invariant out[src] == Targets(targets[..i], byUrl, n, src)
        invariant forall s :: src < s < n ==> out[s] == []
      {
        var key := targets[i];
        assert targets[..i + 1][..i] == targets[..i];
        if Live(key, byUrl, n, src) {
          var dst := byUrl[key];
          LinkKeepsLinked(out, inc, n, src, dst);
          out := out[src := out[src] + [dst]];
          inc := inc[dst := inc[dst] + [src]];
        }
      }
      assert targets[..|targets|] == targets;
      LinkedNext(out, inc, n, src);
    }
    g := Graph(out, inc);
    LinkedIsConsistent(g, n, n);
  }

  lemma NothingLinked(out: seq<seq<DocId>>, inc: seq<seq<DocId>>, n: nat)
    requires |out| == |inc| == n && forall s :: 0 <= s < n ==> out[s] == [] && inc[s] == []
    ensures Linked(out, inc, n, 0)
  {}

  lemma LinkedIsConsistent(g: Graph, n: nat, src: nat)
    requires Linked(g.out, g.inc, n, src)
    ensures Consistent(g) && AscendingLists(g.inc)
  {}

  lemma LinkedNext(out: seq<seq<DocId>>, inc: seq<seq<DocId>>, n: nat, src: nat)
    requires Linked(out, inc, n, src)
    ensures Linked(out, inc, n, src + 1)
  {}

  // ---- related documents ----

  function OutOf(g: Graph, d: DocId): seq<DocId> { if d < |g.out| then g.out[d] else [] }

  function IntoOf(g: Graph, d: DocId): seq<DocId> { if d < |g.inc| then g.inc[d] else [] }

  function Links(g: Graph, p: DocId, t: DocId): nat { multiset(OutOf(g, p))[t] }

  /** How often the pages in `parents` link to `t`. */
  function CoCited(g: Graph, parents: seq<DocId>, t: DocId): nat {
    if parents == [] then 0
    else CoCited(g, parents[..|parents| - 1], t) + Links(g, parents[|parents| - 1], t)
  }

  /** Twice the direct links, plus one for every link from a page that links to `doc`. */
  function Strength(g: Graph, doc: DocId, t: DocId): nat {
    2 * Links(g, doc, t) + CoCited(g, IntoOf(g, doc), t)
  }

  function RelatedScores(g: Graph, doc: DocId): Scores {
    map t: DocId | t < |g.out| && t != doc && Strength(g, doc, t) > 0 :: Strength(g, doc, t) as real
  }

  /** Direct targets weigh two each. */
  function Directs(ts: seq<DocId>): seq<Scored> {
    if ts == [] then [] else Directs(ts[..|ts| - 1]) + [(ts[|ts| - 1], 2.0)]
  }

  /** The siblings a parent contributes: its targets other than `doc`. */
  function Siblings(ts: seq<DocId>, doc: DocId): seq<Scored> {
    if ts == [] then []
    else
      var t := ts[|ts| - 1];
      Siblings(ts[..|ts| - 1], doc) + (if t == doc then [] else [(t, 1.0)])
  }

  function AllSiblings(g: Graph, parents: seq<DocId>, doc: DocId): seq<Scored> {
    if parents == [] then []
    else AllSiblings(g, parents[..|parents| - 1], doc) + Siblings(OutOf(g, parents[|parents| - 1]), doc)
  }

  ghost predicate AllPositive(es: seq<Scored>) {
    forall e :: e in es ==> e.1 > 0.0
  }

  lemma {:induction false} PositiveSum(es: seq<Scored>, d: DocId)
    requires AllPositive(es)
    ensures SumFor(es, d) >= 0.0 && (SumFor(es, d) > 0.0 <==> d in Ids(es))
  {
    if es != [] {
      var init, last := es[..|es| - 1], es[|es| - 1];
      assert es == init + [last];
      assert forall e :: e in init ==> e in es;
      PositiveSum(init, d);
      assert Ids(es) == Ids(init) + [last.0];
    }
  }

  lemma SumOfOne(x: Scored, d: DocId)
    ensures SumFor([x], d) == if x.0 == d then x.1 else 0.0
  {
    assert [x][..0] == [];
  }

  lemma {:induction false} TargetSum(ts: seq<DocId>, d: DocId)
    ensures SumFor(Directs(ts), d) == 2.0 * (multiset(ts)[d] as real)
    ensures AllPositive(Directs(ts))
  {
    if ts != [] {
      var init, t := ts[..|ts| - 1], ts[|ts| - 1];
      assert ts == init + [t];
      TargetSum(init, d);
      SumForConcat(Directs(init), [(t, 2.0)], d);
      SumOfOne((t, 2.0), d);
    }
  }

  lemma {:induction false} SiblingSum(ts: seq<DocId>, doc: DocId, d: DocId)
    requires d != doc
    ensures SumFor(Siblings(ts, doc), d) == multiset(ts)[d] as real
  {
    if ts != [] {
      var init, t := ts[..|ts| - 1], ts[|ts| - 1];
      assert ts == init + [t];
      SiblingSum(init, doc, d);
      SumForConcat(Siblings(init, doc), if t == doc then [] else [(t, 1.0)], d);
      SumOfOne((t, 1.0), d);
    }
  }

  lemma {:induction false} AllSiblingSum(g: Graph, parents: seq<DocId>, doc: DocId, d: DocId)
    requires d != doc
    ensures SumFor(AllSiblings(g, parents, doc), d) == CoCited(g, parents, d) as real
  {
    if parents != [] {
      var init, p := parents[..|parents| - 1], parents[|parents| - 1];
      AllSiblingSum(g, init, doc, d);
      SiblingSum(OutOf(g, p), doc, d);
      SumForConcat(AllSiblings(g, init, doc), Siblings(OutOf(g, p), doc), d);
    }
  }

  lemma {:induction false} SiblingsPositive(ts: seq<DocId>, doc: DocId)
    ensures AllPositive(Siblings(ts, doc))
  {
    if ts != [] {
      SiblingsPositive(ts[..|ts| - 1], doc);
    }
  }

  lemma {:induction false} AllSiblingsPositive(g: Graph, parents: seq<DocId>, doc: DocId)
    ensures AllPositive(AllSiblings(g, parents, doc))
  {
    if parents != [] {
      AllSiblingsPositive(g, parents[..|parents| - 1], doc);
      SiblingsPositive(OutOf(g, parents[|parents| - 1]), doc);
    }
  }

  function RelatedEntries(g: Graph, doc: DocId): seq<Scored> {
    Directs(OutOf(g, doc)) + AllSiblings(g, IntoOf(g, doc), doc)
  }

  lemma EntrySum(g: Graph, doc: DocId, d: DocId)
    requires d != doc
    ensures SumFor(RelatedEntries(g, doc), d) == Strength(g, doc, d) as real
    ensures d in Ids(RelatedEntries(g, doc)) <==> Strength(g, doc, d) > 0
  {
    var a, b := Directs(OutOf(g, doc)), AllSiblings(g, IntoOf(g, doc), doc);
    TargetSum(OutOf(g, doc), d);
    AllSiblingSum(g, IntoOf(g, doc), doc, d);
    AllSiblingsPositive(g, IntoOf(g, doc), doc);
    hide SumFor, AllSiblings, CoCited, Directs, OutOf, IntoOf, Ids;
    SumForConcat(a, b, d);
    PositiveSum(a + b, d);
  }

  lemma {:induction false} CoCitedInRange(g: Graph, parents: seq<DocId>, d: DocId)
    requires InRange(g.out, |g.out|) && CoCited(g, parents, d) > 0
    ensures d < |g.out|
  {
    var init, p := parents[..|parents| - 1], parents[|parents| - 1];
    if Links(g, p, d) > 0 {
      assert d in OutOf(g, p);
    } else {
      CoCitedInRange(g, init, d);
    }
  }

  /** Accumulating the entries and dropping the document itself gives the strengths. */
  lemma EntriesGiveStrength(g: Graph, doc: DocId)
    requires Consistent(g)
    ensures Accumulate(RelatedEntries(g, doc)) - {doc} == RelatedScores(g, doc)
  {
    var es := RelatedEntries(g, doc);
    AccumulateIsSum(es);
    hide Accumulate, RelatedEntries, SumFor;
    forall d: DocId | d != doc
      ensures d in Accumulate(es) <==> d in RelatedScores(g, doc)
      ensures d in Accumulate(es) ==> Accumulate(es)[d] == Strength(g, doc, d) as real
    {
      EntrySum(g, doc, d);
      if Strength(g, doc, d) > 0 {
        if Links(g, doc, d) > 0 {
          assert d in OutOf(g, doc);
        } else {
          CoCitedInRange(g, IntoOf(g, doc), d);
        }
      }
    }
  }

  /** The `k` documents most related to `doc`, strongest first, ties by id. A document not in
      the graph has none. */
  method Related(g: Graph, doc: DocId, k: nat) returns (ranked: seq<Scored>)
    requires Consistent(g)
    ensures TopOf(ranked, RelatedScores(g, doc), k)
  {
    if k == 0 {
      ghost var full := RankingExists(RelatedScores(g, doc));
      assert Truncate(full, 0) == [];
      return [];
    }
    var score := CountRelated(g, doc);
    EntriesGiveStrength(g, doc);
    hide RelatedScores, Consistent, RelatedEntries, Accumulate;
    score := score - {doc};
    ranked := RankScores(score, k);
  }

  /** Direct targets, then every parent in turn. */
  method CountRelated(g: Graph, doc: DocId) returns (score: Scores)
    ensures score == Accumulate(RelatedEntries(g, doc))
  {
    hide Accumulate, Siblings, Directs;
    var outs, parents := OutOf(g, doc), IntoOf(g, doc);
    score := CountDirect(outs);
    ghost var direct := Directs(outs);
    assert direct + AllSiblings(g, parents[..0], doc) == direct;
    for i := 0 to |parents|
      invariant score == Accumulate(direct + AllSiblings(g, parents[..i], doc))
    {
      var siblings := OutOf(g, parents[i]);
      ghost var before := direct + AllSiblings(g, parents[..i], doc);
      assert parents[..i + 1][..i] == parents[..i];
      assert direct + AllSiblings(g, parents[..i + 1], doc) == before + Siblings(siblings, doc);
      score := CiteSiblings(score, before, siblings, doc);
    }
    assert parents[..|parents|] == parents;
  }

  /** Every direct target gains two. */
  method CountDirect(outs: seq<DocId>) returns (score: Scores)
    ensures score == Accumulate(Directs(outs))
  {
    hide Accumulate, AddTo;
    score := map[];
    assert Accumulate([]) == map[] by { NothingAdded(); }
    for i := 0 to |outs|
      invariant score == Accumulate(Directs(outs[..i]))
    {
      assert outs[..i + 1][..i] == outs[..i];
      AccumulateNext(Directs(outs[..i]), (outs[i], 2.0));
      score := AddTo(score, outs[i], 2.0);
    }
    assert outs[..|outs|] == outs;
  }

  /** One parent: every sibling other than the document itself gains one. */
  method CiteSiblings(score: Scores, ghost before: seq<Scored>, siblings: seq<DocId>, doc: DocId)
    returns (score': Scores)
    requires score == Accumulate(before)
    ensures score' == Accumulate(before + Siblings(siblings, doc))
  {
    hide Accumulate, AddTo;
    score' := score;
    assert before + Siblings(siblings[..0], doc) == before;
    for j := 0 to |siblings|
      invariant score' == Accumulate(before + Siblings(siblings[..j], doc))
    {
      var sibling := siblings[j];
      assert siblings[..j + 1][..j] == siblings[..j];
      if sibling != doc {
        AccumulateNext(before + Siblings(siblings[..j], doc), (sibling, 1.0));
        assert before + Siblings(siblings[..j + 1], doc) == before + Siblings(siblings[..j], doc) + [(sibling, 1.0)];
        score' := AddTo(score', sibling, 1.0);
      } else {
        assert Siblings(siblings[..j + 1], doc) == Siblings(siblings[..j], doc);
      }
    }
    assert siblings[..|siblings|] == siblings;
  }

  lemma NothingAdded()
    ensures Accumulate([]) == map[]
  {}

  // ---- co-citation is mutual ----

  function Product(a: nat, b: nat): nat { a * b }

  /** Pages linking to both, counted with multiplicity, over the first `n` pages. */
  function SharedParents(g: Graph, a: DocId, b: DocId, n: nat): nat {
    if n == 0 then 0
    else SharedParents(g, a, b, n - 1) + Product(Links(g, n - 1, a), Links(g, n - 1, b))
  }

  /** The sum over a parent list, regrouped page by page. */
  function Grouped(g: Graph, parents: seq<DocId>, t: DocId, n: nat): nat {
    if n == 0 then 0
    else Grouped(g, parents, t, n - 1) + Product(multiset(parents)[n - 1], Links(g, n - 1, t))
  }

  lemma ProductNext(a: nat, b: nat)
    ensures Product(a + 1, b) == Product(a, b) + b
  {}

  lemma {:induction false} GroupedNext(g: Graph, init: seq<DocId>, p: DocId, t: DocId, n: nat)
    ensures Grouped(g, init + [p], t, n) == Grouped(g, init, t, n) + (if p < n then Links(g, p, t) else 0)
  {
    hide Product, Links;
    if n > 0 {
      GroupedNext(g, init, p, t, n - 1);
      ProductNext(multiset(init)[n - 1], Links(g, n - 1, t));
    }
  }

  lemma {:induction false} GroupedNone(g: Graph, t: DocId, n: nat)
    ensures Grouped(g, [], t, n) == 0
  {
    if n > 0 {
      GroupedNone(g, t, n - 1);
    }
  }

  lemma {:induction false} CoCitedGrouped(g: Graph, parents: seq<DocId>, t: DocId, n: nat)
    requires forall p :: p in parents ==> p < n
    ensures CoCited(g, parents, t) == Grouped(g, parents, t, n)
  {
    if parents == [] {
      GroupedNone(g, t, n);
    } else {
      var init, p := parents[..|parents| - 1], parents[|parents| - 1];
      assert parents == init + [p];
      assert p in parents && forall x :: x in init ==> x in parents;
      hide Product, Links;
      CoCitedGrouped(g, init, t, n);
      GroupedNext(g, init, p, t, n);
    }
  }

  lemma ParentsAreLinks(g: Graph, a: DocId, p: DocId)
    requires Consistent(g) && a < |g.out| && p < |g.out|
    ensures multiset(IntoOf(g, a))[p] == Links(g, p, a)
  {}

  lemma {:induction false} GroupedIsShared(g: Graph, a: DocId, b: DocId, n: nat)
    requires Consistent(g) && a < |g.out| && n <= |g.out|
    ensures Grouped(g, IntoOf(g, a), b, n) == SharedParents(g, a, b, n)
  {
    hide Product, Consistent, Links, IntoOf;
    if n > 0 {
      GroupedIsShared(g, a, b, n - 1);
      ParentsAreLinks(g, a, n - 1);
    }
  }

  lemma {:induction false} SharedSymmetric(g: Graph, a: DocId, b: DocId, n: nat)
    ensures SharedParents(g, a, b, n) == SharedParents(g, b, a, n)
  {
    if n > 0 {
      SharedSymmetric(g, a, b, n - 1);
      ProductCommutes(Links(g, n - 1, a), Links(g, n - 1, b));
    }
  }

  lemma ProductCommutes(a: nat, b: nat)
    ensures Product(a, b) == Product(b, a)
  {}

  /** The co-citation part of the score counts the pages that link to both documents, and is
      therefore the same seen from either side. It rests on the exact transpose. */
  lemma CoCitationIsMutual(g: Graph, a: DocId, b: DocId)
    requires Consistent(g) && a < |g.out| && b < |g.out|
    ensures CoCited(g, IntoOf(g, a), b) == SharedParents(g, a, b, |g.out|)
    ensures CoCited(g, IntoOf(g, a), b) == CoCited(g, IntoOf(g, b), a)
  {
    CoCitedGrouped(g, IntoOf(g, a), b, |g.out|);
    CoCitedGrouped(g, IntoOf(g, b), a, |g.out|);
    GroupedIsShared(g, a, b, |g.out|);
    GroupedIsShared(g, b, a, |g.out|);
    SharedSymmetric(g, a, b, |g.out|);
  }

  // ---- the one-hop boost ----

  predicate Edgeless(g: Graph) { forall d :: 0 <= d < |g.out| ==> g.out[d] == [] }

  function Neighbors(g: Graph, d: DocId): seq<DocId> { OutOf(g, d) + IntoOf(g, d) }

  /** The scores of those `nbs` that are candidates. */
  function Present(nbs: seq<DocId>, base: Scores): seq<real> {
    if nbs == [] then []
    else
      var last := nbs[|nbs| - 1];
      Present(nbs[..|nbs| - 1], base) + (if last in base then [base[last]] else [])
  }

  function Total(xs: seq<real>): real {
    if xs == [] then 0.0 else Total(xs[..|xs| - 1]) + xs[|xs| - 1]
  }

  /** The mean, or zero of nothing. */
  function Mean(xs: seq<real>): real {
    if xs == [] then 0.0 else Total(xs) / (|xs| as real)
  }

  function Boost(g: Graph, base: Scores, weight: real, d: DocId): real {
    weight * Mean(Present(Neighbors(g, d), base))
  }

  /** Every candidate gains `weight` times the mean score of its candidate neighbours. */
  function BoostedScores(g: Graph, scores: Scores, weight: real): Scores {
    map d | d in scores :: scores[d] + Boost(g, scores, weight, d)
  }

  function CollectInto(base: Scores, ranked: seq<Scored>): Scores {
    if ranked == [] then base
    else CollectInto(base, ranked[..|ranked| - 1])[ranked[|ranked| - 1].0 := ranked[|ranked| - 1].1]
  }

  function Boosts(g: Graph, ranked: seq<Scored>, weight: real): (r: seq<Scored>)
    ensures |r| == |ranked|
  {
    var base := CollectInto(map[], ranked);
    seq(|ranked|, i requires 0 <= i < |ranked| => (ranked[i].0, ranked[i].1 + Boost(g, base, weight, ranked[i].0)))
  }

  method Boosted(g: Graph, ranked: seq<Scored>, weight: real) returns (out: seq<Scored>)
    ensures out == if weight <= 0.0 || Edgeless(g) then ranked else Rank(Boosts(g, ranked, weight))
  {
    if weight <= 0.0 || Edgeless(g) {
      return ranked;
    }
    var base := CollectInto(map[], ranked);
    out := [];
    for i := 0 to |ranked|
      invariant out == Boosts(g, ranked, weight)[..i]
    {
      hide Boost, CollectInto;
      var (id, s) := ranked[i];
      var boost := BoostOf(g, base, weight, id);
      out := out + [(id, s + boost)];
    }
    assert Boosts(g, ranked, weight)[..|ranked|] == Boosts(g, ranked, weight);
    out := Rank(out);
  }

  method BoostOf(g: Graph, base: Scores, weight: real, id: DocId) returns (boost: real)
    ensures boost == Boost(g, base, weight, id)
  {
    var nbs := Neighbors(g, id);
    hide Neighbors;
    var sum, count := 0.0, 0;
    ghost var seen: seq<real> := [];
    for j := 0 to |nbs|
      invariant seen == Present(nbs[..j], base) && sum == Total(seen) && count == |seen|
    {
      assert nbs[..j + 1][..j] == nbs[..j];
      if nbs[j] in base {
        assert (seen + [base[nbs[j]]])[..|seen|] == seen;
        seen := seen + [base[nbs[j]]];
        sum := sum + base[nbs[j]];
        count := count + 1;
      }
    }
    assert nbs[..|nbs|] == nbs;
    hide Total, Present;
    boost := if count > 0 then weight * (sum / (count as real)) else 0.0;
  }

  lemma {:induction false} CollectRanking(ranked: seq<Scored>)
    requires Distinct(Ids(ranked))
    ensures forall x :: x in CollectInto(map[], ranked).Items <==> x in ranked
  {
    if ranked != [] {
      var init, last := ranked[..|ranked| - 1], ranked[|ranked| - 1];
      assert ranked == init + [last];
      assert Ids(ranked) == Ids(init) + [last.0];
      CollectRanking(init);
      var m := CollectInto(map[], init);
      forall x | x in init ensures x.0 != last.0 {
        var i :| 0 <= i < |init| && init[i] == x;
        assert Ids(ranked)[i] != Ids(ranked)[|init|];
      }
      forall d | d in m ensures d != last.0 {
        assert (d, m[d]) in m.Items;
      }
      forall x ensures x in CollectInto(map[], ranked).Items <==> x in ranked {
        assert x in m[last.0 := last.1].Items <==> x in m.Items || x == last;
      }
    }
  }

  lemma ItemsDetermine(a: Scores, b: Scores)
    requires forall x :: x in a.Items <==> x in b.Items
    ensures a == b
  {
    forall d ensures d in a <==> d in b {
      if d in a { assert (d, a[d]) in b.Items; }
      if d in b { assert (d, b[d]) in a.Items; }
    }
    forall d | d in a ensures a[d] == b[d] {
      assert (d, a[d]) in b.Items;
    }
  }

  /** The boost map the code builds back from a ranking is the score map it ranks. */
  lemma RankingCollects(ranked: seq<Scored>, scores: Scores)
    requires Ranks(ranked, scores)
    ensures CollectInto(map[], ranked) == scores
  {
    assert Truncate(ranked, |ranked|) == ranked;
    TopIdsDistinct(ranked, scores, |ranked|);
    CollectRanking(ranked);
    ItemsDetermine(CollectInto(map[], ranked), scores);
  }

  lemma NoNeighbors(g: Graph, d: DocId)
    requires Consistent(g) && Edgeless(g)
    ensures Neighbors(g, d) == []
  {
    forall s: DocId ensures s !in IntoOf(g, d) {
      if s < |g.out| && d < |g.out| {
        assert multiset(g.inc[d])[s] == multiset(g.out[s])[d] == 0;
        assert s !in multiset(g.inc[d]);
      }
    }
    FirstIsIn(IntoOf(g, d));
  }

  lemma FirstIsIn(ds: seq<DocId>)
    ensures ds == [] || ds[0] in ds
  {}

  lemma NoBoost(g: Graph, base: Scores, weight: real, d: DocId)
    requires weight == 0.0 || Neighbors(g, d) == []
    ensures Boost(g, base, weight, d) == 0.0
  {
    var mean := Mean(Present(Neighbors(g, d), base));
    assert Neighbors(g, d) == [] ==> mean == 0.0;
    assert 0.0 * mean == 0.0;
  }

  /** Boosting a complete ranking gives the complete ranking of the boosted scores. The early
      return for a weight of zero or less and for a graph without edges is the same formula
      with nothing to add. */
  lemma BoostRanks(g: Graph, ranked: seq<Scored>, scores: Scores, weight: real)
    requires Consistent(g) && Ranks(ranked, scores)
    ensures var out := if weight <= 0.0 || Edgeless(g) then ranked else Rank(Boosts(g, ranked, weight));
      Ranks(out, BoostedScores(g, scores, if weight <= 0.0 then 0.0 else weight))
  {
    var w := if weight <= 0.0 then 0.0 else weight;
    hide Ranks, Boosts, Boost, Consistent, Rank;
    if weight <= 0.0 || Edgeless(g) {
      forall d | d in scores ensures Boost(g, scores, w, d) == 0.0 {
        if Edgeless(g) { NoNeighbors(g, d); }
        NoBoost(g, scores, w, d);
      }
      assert BoostedScores(g, scores, w) == scores;
    } else {
      BoostsList(g, ranked, scores, weight);
      SortRanks(Boosts(g, ranked, weight), BoostedScores(g, scores, weight));
    }
  }

  lemma BoostsList(g: Graph, ranked: seq<Scored>, scores: Scores, weight: real)
    requires Ranks(ranked, scores)
    ensures Lists(Boosts(g, ranked, weight), BoostedScores(g, scores, weight).Items)
  {
    RankingCollects(ranked, scores);
    assert Truncate(ranked, |ranked|) == ranked;
    TopIdsDistinct(ranked, scores, |ranked|);
    BoostsItems(g, ranked, scores, weight);
  }

  lemma BoostsItems(g: Graph, ranked: seq<Scored>, scores: Scores, weight: real)
    requires Lists(ranked, scores.Items) && Distinct(Ids(ranked)) && CollectInto(map[], ranked) == scores
    ensures Lists(Boosts(g, ranked, weight), BoostedScores(g, scores, weight).Items)
  {
    var bs := Boosts(g, ranked, weight);
    var boosted := BoostedScores(g, scores, weight);
    hide Boost, CollectInto;
    forall i, j | 0 <= i < j < |bs| ensures bs[i] != bs[j] {
      assert Ids(ranked)[i] != Ids(ranked)[j];
    }
    forall x | x in bs ensures x in boosted.Items {
      var i :| 0 <= i < |bs| && bs[i] == x;
      assert ranked[i] in ranked;
    }
    forall x | x in boosted.Items ensures x in bs {
      var y := (x.0, scores[x.0]);
      assert y in scores.Items && y in ranked;
      var i :| 0 <= i < |ranked| && ranked[i] == y;
      assert bs[i] == x;
    }
  }
}
