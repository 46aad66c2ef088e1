/** What the scores of a built index mean in terms of the documents it was built from. */
module Relevance {
  import opened Common
  import opened Documents
  import opened Lexical
  import opened Sparse
  import opened Rebuild
  import opened SparseSearch
  import opened Weighting

  lemma {:induction false} PositionsOf(v: seq<Term>)
    requires Distinct(v)
    ensures forall t :: t in Positions(v) <==> t in v
    ensures forall i :: 0 <= i < |v| ==> v[i] in Positions(v) && Positions(v)[v[i]] == i
  {
    if v != [] {
      var init := v[..|v| - 1];
      PositionsOf(init);
      assert v == init + [v[|v| - 1]];
      forall i | 0 <= i < |v| ensures v[i] in Positions(v) && Positions(v)[v[i]] == i {
        if i < |v| - 1 {
          assert init[i] == v[i];
        }
      }
    }
  }

  /** The posting found for a vocabulary term is that term's posting. */
  lemma FindsPosting(m: Bm25, docs: Corpus, k1: real, b: real, t: Term)
    requires Indexes(m, docs, k1, b)
    ensures t in m.termIndex <==> t in Vocabulary(docs)
    ensures t in m.termIndex ==> m.termIndex[t] < |m.terms| && m.terms[m.termIndex[t]] == PostingFor(docs, t)
  {
    IndexShape(m, docs, k1, b);
    var v := Terms(m);
    PositionsOf(v);
    hide Indexes, PostingFor, Vocabulary, Positions, LexLe, Terms;
    assert t in v <==> t in Vocabulary(docs);
    if t in v {
      var i :| 0 <= i < |v| && v[i] == t;
      assert PostingsOver(docs, v)[i] == PostingFor(docs, v[i]);
    }
  }

  /** A built index can be searched. */
  lemma BuiltIsSearchable(m: Bm25, docs: Corpus, k1: real, b: real)
    requires Indexes(m, docs, k1, b)
    ensures Searchable(m)
  {
    IndexIsWellFormed(m, docs, k1, b);
    AlignedInRange(m);
    hide Indexes, WellFormed, PostingsAligned;
    forall t | t in m.termIndex ensures m.termIndex[t] < |m.terms| {
      FindsPosting(m, docs, k1, b, t);
    }
  }

  function DocFrequency(docs: Corpus, t: Term): nat {
    |set d: DocId | d < |docs| && t in docs[d]|
  }

  lemma HitCount(docs: Corpus, t: Term)
    ensures |PostingFor(docs, t).docs| == DocFrequency(docs, t)
  {
    HitsAscend(docs, t, |docs|);
    var hits := Hits(docs, t, |docs|);
    assert Lists(hits, set d: DocId | d < |docs| && t in docs[d]);
    ListingSize(hits, set d: DocId | d < |docs| && t in docs[d]);
  }

  /** A term's share of a document's score is the inverse document frequency over the corpus
      times the weight of its saturated count at the document's length; a document without
      the term gets nothing. */
  lemma ContributionFromCorpus(m: Bm25, w: Weights, docs: Corpus, k1: real, b: real, t: Term, d: DocId)
    requires Indexes(m, docs, k1, b) && d < |docs|
    ensures Searchable(m)
    ensures Occurs(m, t, d) <==> t in docs[d]
    ensures Contribution(m, w, t, d) ==
      if t in docs[d] then
        IdfOf(w.ln, |docs|, DocFrequency(docs, t))
        * TermWeight(Saturate(Count(docs[d], t)), |docs[d]|, AverageLength(docs), k1, b)
      else 0.0
  {
    hide Indexes, Vocabulary, Count, Saturate, TfIn, DocFrequency, Searchable, PostingFor, AverageLength;
    BuiltIsSearchable(m, docs, k1, b);
    FindsPosting(m, docs, k1, b, t);
    InVocabulary(docs, d, t);
    TfIsCount(docs, t, d);
    HitCount(docs, t);
    LengthsRecorded(m, docs, k1, b, d);
    PostingFits(docs, t);
  }

  lemma LengthsRecorded(m: Bm25, docs: Corpus, k1: real, b: real, d: nat)
    requires Indexes(m, docs, k1, b) && d < |docs|
    ensures |m.docLen| == |docs| && m.docLen[d] == |docs[d]|
    ensures m.avgdl == AverageLength(docs) && m.k1 == k1 && m.b == b
  {
    IndexShape(m, docs, k1, b);
    hide Indexes, PostingsOver, Positions, Lists, AverageLength;
  }

  lemma ShareIsPositive(m: Bm25, w: Weights, docs: Corpus, k1: real, b: real, t: Term, d: DocId)
    requires Indexes(m, docs, k1, b) && d < |docs| && Sensible(k1, b) && Logarithmic(w.ln)
    ensures Searchable(m)
    ensures if t in docs[d] then Contribution(m, w, t, d) > 0.0 else Contribution(m, w, t, d) == 0.0
  {
    ContributionFromCorpus(m, w, docs, k1, b, t, d);
    HitCount(docs, t);
    assert DocFrequency(docs, t) <= |docs|;
    var tf := Saturate(Count(docs[d], t));
    assert t in docs[d] ==> tf > 0;
    hide Indexes, Contribution, DocFrequency, Count, Saturate, AverageLength, TermWeight, IdfOf, PostingFor, Searchable;
    if t in docs[d] {
      IdfIsPositive(w.ln, |docs|, DocFrequency(docs, t), DocFrequency(docs, t));
      WeightIsBounded(tf, |docs[d]|, AverageLength(docs), k1, b);
      Product(IdfOf(w.ln, |docs|, DocFrequency(docs, t)), TermWeight(tf, |docs[d]|, AverageLength(docs), k1, b));
    }
  }

  /** With the usual parameters a document scores above zero if and only if it contains one of
      the terms, and never below. */
  lemma {:induction false} PositiveIffMatched(m: Bm25, w: Weights, docs: Corpus, k1: real, b: real, ts: seq<Term>,
                                              d: DocId)
    requires Indexes(m, docs, k1, b) && d < |docs| && Sensible(k1, b) && Logarithmic(w.ln)
    ensures Searchable(m)
    ensures DirectSum(m, w, ts, d) >= 0.0
    ensures DirectSum(m, w, ts, d) > 0.0 <==> exists t :: t in ts && t in docs[d]
  {
    BuiltIsSearchable(m, docs, k1, b);
    if ts != [] {
      var init, last := ts[..|ts| - 1], ts[|ts| - 1];
      PositiveIffMatched(m, w, docs, k1, b, init, d);
      ShareIsPositive(m, w, docs, k1, b, last, d);
      assert forall t :: t in ts <==> t in init || t == last;
      hide Indexes, Contribution, Searchable, Logarithmic, Sensible;
    }
  }

  /** Of two documents of one length the one with more occurrences of a term gets no less for it,
      and more as long as neither count reached 65535 and length is taken into account. */
  lemma MoreOccurrencesScoreMore(m: Bm25, w: Weights, docs: Corpus, k1: real, b: real, t: Term, d: DocId, d': DocId)
    requires Indexes(m, docs, k1, b) && d < |docs| && d' < |docs| && Sensible(k1, b) && Logarithmic(w.ln)
    requires |docs[d]| == |docs[d']| && 0 < Count(docs[d], t) < Count(docs[d'], t)
    ensures Searchable(m)
    ensures Contribution(m, w, t, d) <= Contribution(m, w, t, d')
    ensures Count(docs[d'], t) <= MAX_TF && LengthNorm(|docs[d]|, AverageLength(docs), k1, b) > 0.0 ==>
      Contribution(m, w, t, d) < Contribution(m, w, t, d')
  {
    CountsCompare(docs, t, d, d');
    hide *;
    ShareFromCorpus(m, w, docs, k1, b, t, d);
    ShareFromCorpus(m, w, docs, k1, b, t, d');
    var tf, tf' := Saturate(Count(docs[d], t)), Saturate(Count(docs[d'], t));
    var len, avg := |docs[d]|, AverageLength(docs);
    IdfIsPositive(w.ln, |docs|, DocFrequency(docs, t), DocFrequency(docs, t));
    WeightGrowsWithCount(tf, tf', len, avg, k1, b);
    ShareGrows(IdfOf(w.ln, |docs|, DocFrequency(docs, t)),
               TermWeight(tf, len, avg, k1, b), TermWeight(tf', len, avg, k1, b));
  }

  function Share(idf: real, weight: real): real { idf * weight }

  lemma ShareGrows(idf: real, x: real, y: real)
    requires idf > 0.0
    ensures x <= y ==> Share(idf, x) <= Share(idf, y)
    ensures x < y ==> Share(idf, x) < Share(idf, y)
  {
    Scales(x, y, idf);
  }

  lemma ShareFromCorpus(m: Bm25, w: Weights, docs: Corpus, k1: real, b: real, t: Term, d: DocId)
    requires Indexes(m, docs, k1, b) && d < |docs| && t in docs[d]
    ensures Searchable(m)
    ensures Contribution(m, w, t, d)
         == Share(IdfOf(w.ln, |docs|, DocFrequency(docs, t)),
                  TermWeight(Saturate(Count(docs[d], t)), |docs[d]|, AverageLength(docs), k1, b))
  {
    ContributionFromCorpus(m, w, docs, k1, b, t, d);
    hide Indexes, Searchable, Contribution, IdfOf, DocFrequency, TermWeight, Saturate, Count, AverageLength;
  }

  lemma CountsCompare(docs: Corpus, t: Term, d: DocId, d': DocId)
    requires d < |docs| && d' < |docs| && 0 < Count(docs[d], t) < Count(docs[d'], t)
    ensures 0 < Saturate(Count(docs[d], t)) <= Saturate(Count(docs[d'], t)) && DocFrequency(docs, t) <= |docs|
    ensures Count(docs[d'], t) <= MAX_TF ==> Saturate(Count(docs[d], t)) < Saturate(Count(docs[d'], t))
    ensures t in docs[d] && t in docs[d']
  {
    HitCount(docs, t);
    InVocabulary(docs, d, t);
    InVocabulary(docs, d', t);
    hide Count, DocFrequency;
  }
}
