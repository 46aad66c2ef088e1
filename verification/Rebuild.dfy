/** The term index and the documents' term multisets determine each other, up to the 16-bit
    saturation of counts. */
module Rebuild {
  import opened Common
  import opened Sorting
  import opened Documents
  import opened Lexical
  import opened Sparse

  lemma IndexShape(m: Bm25, docs: Corpus, k1: real, b: real)
    requires Indexes(m, docs, k1, b)
    ensures var v := Terms(m);
      Lists(v, Vocabulary(docs)) && SortedBy(LexLe, v) && m == IndexOver(docs, v, k1, b)
  {
    hide PostingFor, Vocabulary, LexLe, Positions, Lengths, AverageLength, Lists;
    var v :| Lists(v, Vocabulary(docs)) && SortedBy(LexLe, v) && m == IndexOver(docs, v, k1, b);
    forall i | 0 <= i < |v| ensures Terms(m)[i] == v[i] {
      assert PostingsOver(docs, v)[i] == PostingFor(docs, v[i]);
      PostingFits(docs, v[i]);
    }
    assert Terms(m) == v;
  }

  lemma PostingIsWellFormed(docs: Corpus, t: Term)
    ensures var p := PostingFor(docs, t);
      |p.tf| == |p.docs| && Distinct(p.docs) && forall d :: d in p.docs ==> d < |docs|
  {
    HitsAscend(docs, t, |docs|);
  }

  lemma IndexIsWellFormed(m: Bm25, docs: Corpus, k1: real, b: real)
    requires Indexes(m, docs, k1, b)
    ensures WellFormed(m) && |m.docLen| == |docs|
  {
    IndexShape(m, docs, k1, b);
    hide PostingFor, Lists, LexLe, Vocabulary, Indexes;
    var v := Terms(m);
    forall i | 0 <= i < |m.terms|
      ensures |m.terms[i].tf| == |m.terms[i].docs| && Distinct(m.terms[i].docs)
        && forall d :: d in m.terms[i].docs ==> d < |m.docLen|
    {
      assert m.terms[i] == PostingFor(docs, v[i]);
      PostingIsWellFormed(docs, v[i]);
    }
  }

  /** The frequency recorded for a document is its saturated count. */
  lemma TfIsCount(docs: Corpus, t: Term, d: nat)
    requires d < |docs|
    ensures |PostingFor(docs, t).tf| == |PostingFor(docs, t).docs|
    ensures TfIn(PostingFor(docs, t), d) == Saturate(Count(docs[d], t))
  {
    var p := PostingFor(docs, t);
    HitsAscend(docs, t, |docs|);
    if t in docs[d] {
      assert d in p.docs;
      var n :| 0 <= n < |p.docs| && p.docs[n] == d;
      TfAt(p.docs, p.tf, n);
    } else {
      assert d !in p.docs;
      TfAbsent(p.docs, p.tf, d);
    }
  }

  lemma RepeatCount(x: Term, n: nat, t: Term)
    ensures multiset(Repeat(x, n))[t] == if t == x then n else 0
  {}

  lemma GatheredStep(m: Bm25, d: nat, n: nat, t: Term)
    requires WellFormed(m) && n < |m.terms|
    ensures |m.terms[n].tf| == |m.terms[n].docs|
    ensures multiset(Gathered(m, d, n + 1))[t]
         == multiset(Gathered(m, d, n))[t] + (if t == m.terms[n].term then TfIn(m.terms[n], d) else 0)
  {
    assert |m.terms[n].tf| == |m.terms[n].docs|;
    var last := Repeat(m.terms[n].term, TfIn(m.terms[n], d));
    RepeatCount(m.terms[n].term, TfIn(m.terms[n], d), t);
    assert multiset(Gathered(m, d, n + 1)) == multiset(Gathered(m, d, n)) + multiset(last);
  }

  lemma {:induction false} GatheredCount(m: Bm25, docs: Corpus, v: seq<Term>, d: nat, n: nat, t: Term)
    requires WellFormed(m) && Distinct(v) && m.terms == PostingsOver(docs, v) && |m.docLen| == |docs|
    requires d < |docs| && n <= |v|
    ensures multiset(Gathered(m, d, n))[t] == if t in v[..n] then Saturate(Count(docs[d], t)) else 0
  {
    hide *;
    if n == 0 {
      GatheredNone(m, d, t);
    } else {
      PrefixMember(v, n, t);
      GatheredCount(m, docs, v, d, n - 1, t);
      PostingAt(m, docs, v, n - 1);
      GatheredStep(m, d, n - 1, t);
      TfIsCount(docs, v[n - 1], d);
    }
  }

  lemma GatheredNone(m: Bm25, d: nat, t: Term)
    requires WellFormed(m)
    ensures multiset(Gathered(m, d, 0))[t] == 0
  {
    hide WellFormed;
  }

  lemma PostingAt(m: Bm25, docs: Corpus, v: seq<Term>, i: nat)
    requires m.terms == PostingsOver(docs, v) && i < |v|
    ensures i < |m.terms| && m.terms[i] == PostingFor(docs, v[i]) && m.terms[i].term == v[i]
  {
    hide Hits, Count, Saturate;
  }

  lemma PrefixMember(v: seq<Term>, n: nat, t: Term)
    requires Distinct(v) && 0 < n <= |v|
    ensures t in v[..n] <==> t in v[..n - 1] || t == v[n - 1]
    ensures v[n - 1] !in v[..n - 1]
  {
    assert v[..n] == v[..n - 1] + [v[n - 1]];
  }

  /** What comes back for a document is its term multiset with every count cut at 65535. */
  lemma RebuiltCounts(m: Bm25, docs: Corpus, k1: real, b: real, d: nat, t: Term)
    requires Indexes(m, docs, k1, b) && d < |docs|
    ensures WellFormed(m) && |m.docLen| == |docs|
    ensures multiset(AllGathered(m, |m.terms|)[d])[t] == Saturate(Count(docs[d], t))
  {
    IndexIsWellFormed(m, docs, k1, b);
    IndexShape(m, docs, k1, b);
    hide Indexes, LexLe, Vocabulary, PostingFor, WellFormed;
    var v := Terms(m);
    GatheredCount(m, docs, v, d, |v|, t);
    assert v[..|v|] == v;
    InVocabulary(docs, d, t);
  }

  lemma InVocabulary(docs: Corpus, d: nat, t: Term)
    requires d < |docs|
    ensures t in docs[d] ==> t in Vocabulary(docs)
    ensures t !in docs[d] ==> Count(docs[d], t) == 0
  {}

  /** No term occurs more than 65535 times in one document. */
  ghost predicate WithinCounts(docs: Corpus) {
    forall d, t :: 0 <= d < |docs| && t in docs[d] ==> Count(docs[d], t) <= MAX_TF
  }

  /** Documents of at most 65535 terms never saturate; ingestion caps a document at 4096. */
  lemma ShortDocumentsAreLossless(docs: Corpus)
    requires forall d :: 0 <= d < |docs| ==> |docs[d]| <= MAX_TF
    ensures WithinCounts(docs)
  {
    forall d, t | 0 <= d < |docs| && t in docs[d] ensures Count(docs[d], t) <= MAX_TF {
      CountBound(docs[d], t);
    }
  }

  lemma CountBound(doc: seq<Term>, t: Term)
    ensures Count(doc, t) <= |doc|
  {
    assert multiset(doc)[t := 0] <= multiset(doc);
    assert |multiset(doc)| == |doc|;
  }

  ghost predicate SameMultisets(docs: Corpus, docs': Corpus) {
    |docs| == |docs'| && forall d :: 0 <= d < |docs| ==> multiset(docs[d]) == multiset(docs'[d])
  }

  /** Reconstruction is lossless if and only if no count saturated. */
  lemma LosslessIff(m: Bm25, docs: Corpus, k1: real, b: real)
    requires Indexes(m, docs, k1, b)
    ensures WellFormed(m)
    ensures SameMultisets(AllGathered(m, |m.terms|), docs) <==> WithinCounts(docs)
  {
    IndexIsWellFormed(m, docs, k1, b);
    hide Indexes, WellFormed;
    var out := AllGathered(m, |m.terms|);
    forall d, t | 0 <= d < |docs| ensures multiset(out[d])[t] == Saturate(Count(docs[d], t)) {
      RebuiltCounts(m, docs, k1, b, d, t);
    }
    hide AllGathered;
    if WithinCounts(docs) {
      forall d | 0 <= d < |docs| ensures multiset(out[d]) == multiset(docs[d]) {
        forall t ensures multiset(out[d])[t] == multiset(docs[d])[t] {
          InVocabulary(docs, d, t);
        }
      }
    }
    if SameMultisets(out, docs) {
      forall d, t | 0 <= d < |docs| && t in docs[d] ensures Count(docs[d], t) <= MAX_TF {
        assert multiset(out[d])[t] == Saturate(Count(docs[d], t));
      }
    }
  }

  // ---- the index depends on the multisets alone ----

  lemma SameLengths(docs: Corpus, docs': Corpus)
    requires SameMultisets(docs, docs')
    ensures Lengths(docs) == Lengths(docs')
    ensures TotalLength(docs) == TotalLength(docs')
    decreases |docs|
  {
    forall d | 0 <= d < |docs| ensures |docs[d]| == |docs'[d]| {
      assert |multiset(docs[d])| == |docs[d]| && |multiset(docs'[d])| == |docs'[d]|;
    }
    if docs != [] {
      SameLengths(docs[..|docs| - 1], docs'[..|docs| - 1]);
    }
  }

  lemma SameMembership(docs: Corpus, docs': Corpus, d: nat, t: Term)
    requires SameMultisets(docs, docs') && d < |docs|
    ensures t in docs[d] <==> t in docs'[d]
    ensures Count(docs[d], t) == Count(docs'[d], t)
  {
    assert t in docs[d] <==> t in multiset(docs[d]);
    assert t in docs'[d] <==> t in multiset(docs'[d]);
  }

  lemma {:induction false} SameHits(docs: Corpus, docs': Corpus, t: Term, n: nat)
    requires SameMultisets(docs, docs') && n <= |docs|
    ensures Hits(docs, t, n) == Hits(docs', t, n)
  {
    if n > 0 {
      SameMembership(docs, docs', n - 1, t);
      SameHits(docs, docs', t, n - 1);
    }
  }

  lemma SamePosting(docs: Corpus, docs': Corpus, t: Term)
    requires SameMultisets(docs, docs')
    ensures PostingFor(docs, t) == PostingFor(docs', t)
  {
    SameHits(docs, docs', t, |docs|);
    var p, p' := PostingFor(docs, t), PostingFor(docs', t);
    forall i | 0 <= i < |p.docs| ensures p.tf[i] == p'.tf[i] {
      assert p.docs[i] in Hits(docs, t, |docs|);
      SameMembership(docs, docs', p.docs[i], t);
    }
  }

  lemma SameVocabulary(docs: Corpus, docs': Corpus)
    requires SameMultisets(docs, docs')
    ensures Vocabulary(docs) == Vocabulary(docs')
  {
    forall t ensures t in Vocabulary(docs) <==> t in Vocabulary(docs') {
      forall d | 0 <= d < |docs| ensures t in docs[d] <==> t in docs'[d] {
        SameMembership(docs, docs', d, t);
      }
    }
  }

  /** Building depends only on each document's term multiset, and has one result. */
  lemma BuildIsDetermined(m: Bm25, m': Bm25, docs: Corpus, docs': Corpus, k1: real, b: real)
    requires Indexes(m, docs, k1, b) && Indexes(m', docs', k1, b) && SameMultisets(docs, docs')
    ensures m == m'
  {
    IndexShape(m, docs, k1, b);
    IndexShape(m', docs', k1, b);
    var v, v' := Terms(m), Terms(m');
    SameVocabulary(docs, docs');
    LexTotal();
    ListingsPermute(v, v', Vocabulary(docs));
    SortedUnique(LexLe, v, v');
    SameLengths(docs, docs');
    hide PostingFor, Indexes, Lists, LexLe, Vocabulary, Terms, Positions, Lengths, TotalLength, SameMultisets;
    assert |docs| == |docs'| by {
      hide PostingsOver, AverageLength;
    }
    assert PostingsOver(docs, v) == PostingsOver(docs', v') by {
      forall i | 0 <= i < |v| ensures PostingFor(docs, v[i]) == PostingFor(docs', v'[i]) {
        SamePosting(docs, docs', v[i]);
      }
    }
    hide PostingsOver;
  }

  /** Rebuilding from the index gives the identical index if and only if no count saturated. */
  lemma RebuildIsIdentityIff(m: Bm25, m': Bm25, docs: Corpus, k1: real, b: real)
    requires Indexes(m, docs, k1, b) && WellFormed(m)
    requires Indexes(m', AllGathered(m, |m.terms|), k1, b)
    ensures m' == m <==> WithinCounts(docs)
  {
    var out := AllGathered(m, |m.terms|);
    LosslessIff(m, docs, k1, b);
    if WithinCounts(docs) {
      BuildIsDetermined(m, m', docs, out, k1, b);
    }
    if m' == m {
      hide WithinCounts, WellFormed, AllGathered;
      SameIndexSameMultisets(m, docs, out, k1, b);
    }
  }

  /** A document with one term 65536 times loses one of them, and a rebuilt index differs. */
  lemma LongDocumentIsCut(m: Bm25, m': Bm25, k1: real, b: real)
    requires var docs := [Repeat("a", MAX_TF + 1)]; Indexes(m, docs, k1, b)
    requires WellFormed(m) && Indexes(m', AllGathered(m, |m.terms|), k1, b)
    ensures |m.docLen| == 1 && multiset(AllGathered(m, |m.terms|)[0])["a"] == MAX_TF
    ensures m' != m
  {
    var doc := Repeat("a", MAX_TF + 1);
    hide Indexes, WellFormed, Repeat;
    assert Count(doc, "a") == MAX_TF + 1 && doc[0] in doc;
    assert "a" in doc by {
      assert "a" in multiset(doc);
    }
    RebuiltCounts(m, [doc], k1, b, 0, "a");
    assert [doc][0] == doc && !WithinCounts([doc]);
    RebuildIsIdentityIff(m, m', [doc], k1, b);
  }

  /** An index that is also the index of what it gives back lost nothing. */
  lemma SameIndexSameMultisets(m: Bm25, docs: Corpus, out: Corpus, k1: real, b: real)
    requires Indexes(m, docs, k1, b) && WellFormed(m) && out == AllGathered(m, |m.terms|)
    requires Indexes(m, out, k1, b)
    ensures SameMultisets(out, docs)
  {
    IndexShape(m, docs, k1, b);
    IndexShape(m, out, k1, b);
    assert Lengths(out) == Lengths(docs);
    assert |out| == |docs|;
    hide Indexes, WellFormed, PostingFor;
    forall d | 0 <= d < |docs| ensures multiset(out[d]) == multiset(docs[d]) {
      assert Lengths(out)[d] == Lengths(docs)[d];
      forall t ensures multiset(out[d])[t] <= multiset(docs[d])[t] {
        RebuiltCounts(m, docs, k1, b, d, t);
      }
      SubMultisetOfSameSize(multiset(out[d]), multiset(docs[d]));
    }
    SameMultisetsHold(out, docs);
  }

  lemma SameMultisetsHold(docs: Corpus, docs': Corpus)
    requires |docs| == |docs'| && forall d :: 0 <= d < |docs| ==> multiset(docs[d]) == multiset(docs'[d])
    ensures SameMultisets(docs, docs')
  {}

  lemma SubMultisetOfSameSize<T>(a: multiset<T>, b: multiset<T>)
    requires a <= b && |a| == |b|
    ensures a == b
  {
    assert b == a + (b - a);
  }
}
