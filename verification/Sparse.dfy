/** The BM25 index: built from per-document term lists, and rebuildable from itself. */
module Sparse {
  import opened Common
  import opened Sorting
  import opened Documents
  import opened Lexical

  /** Term counts are 16 bits wide and saturate. */
  const MAX_TF: nat := 65535

  function Saturate(n: nat): nat { if n < MAX_TF then n else MAX_TF }

  /** A term's documents, ascending, with the term frequency of each. */
  datatype Posting = Posting(term: Term, docs: seq<DocId>, tf: seq<nat>)

  datatype Bm25 = Bm25(
    k1: real,
    b: real,
    avgdl: real,
    docLen: seq<nat>,
    terms: seq<Posting>,
    termIndex: map<Term, nat>)

  /** The vocabulary of an index. */
  function Terms(m: Bm25): (r: seq<Term>)
    ensures |r| == |m.terms|
  {
    TermsOf(m.terms)
  }

  function TermsOf(ps: seq<Posting>): (r: seq<Term>)
    ensures |r| == |ps|
  {
    seq(|ps|, i requires 0 <= i < |ps| => ps[i].term)
  }

  type Corpus = seq<seq<Term>>

  // ---- what is built ----

  function Count(doc: seq<Term>, t: Term): nat { multiset(doc)[t] }

  function CountsOf(doc: seq<Term>): map<Term, nat> {
    map t | t in doc :: Saturate(Count(doc, t))
  }

  function Vocabulary(docs: Corpus): set<Term> {
    set d, t | 0 <= d < |docs| && t in docs[d] :: t
  }

  function Frequencies(docs: Corpus, t: Term, n: nat): map<DocId, nat>
    requires n <= |docs|
  {
    map d: nat | d < n && t in docs[d] :: Saturate(Count(docs[d], t))
  }

  /** The documents below `n` that contain `t`, ascending. */
  function Hits(docs: Corpus, t: Term, n: nat): (r: seq<DocId>)
    requires n <= |docs|
    ensures |r| <= n && forall d: nat :: d in r <==> d < n && t in docs[d]
  {
    if n == 0 then []
    else if t in docs[n - 1] then Hits(docs, t, n - 1) + [n - 1]
    else Hits(docs, t, n - 1)
  }

  lemma {:induction false} HitsAscend(docs: Corpus, t: Term, n: nat)
    requires n <= |docs|
    ensures Distinct(Hits(docs, t, n)) && SortedBy(NatLe, Hits(docs, t, n))
  {
    if n > 0 {
      HitsAscend(docs, t, n - 1);
      var rest := Hits(docs, t, n - 1);
      assert forall d: nat :: d in rest ==> d < n - 1;
      DistinctAppend(rest, n - 1);
      assert forall i :: 0 <= i < |rest| ==> rest[i] in rest;
    }
  }

  function PostingFor(docs: Corpus, t: Term): Posting {
    var hits := Hits(docs, t, |docs|);
    Posting(t, hits, seq(|hits|, i requires 0 <= i < |hits| =>
      assert hits[i] in hits;
      Saturate(Count(docs[hits[i]], t))))
  }

  function TotalLength(docs: Corpus): nat {
    if docs == [] then 0 else TotalLength(docs[..|docs| - 1]) + |docs[|docs| - 1]|
  }

  function AverageLength(docs: Corpus): real {
    if docs == [] then 0.0 else (TotalLength(docs) as real) / (|docs| as real)
  }

  function Lengths(docs: Corpus): seq<nat> {
    seq(|docs|, d requires 0 <= d < |docs| => |docs[d]|)
  }

  function PostingsOver(docs: Corpus, vocabulary: seq<Term>): (r: seq<Posting>)
    ensures |r| == |vocabulary|
  {
    seq(|vocabulary|, i requires 0 <= i < |vocabulary| => PostingFor(docs, vocabulary[i]))
  }

  /** Each term's position. */
  function Positions(vocabulary: seq<Term>): map<Term, nat> {
    if vocabulary == [] then map[]
    else Positions(vocabulary[..|vocabulary| - 1])[vocabulary[|vocabulary| - 1] := |vocabulary| - 1]
  }

  /** The index over a sorted vocabulary. */
  function IndexOver(docs: Corpus, vocabulary: seq<Term>, k1: real, b: real): Bm25 {
    Bm25(k1, b, AverageLength(docs), Lengths(docs), PostingsOver(docs, vocabulary), Positions(vocabulary))
  }

  /** `m` is the index of `docs`: terms sorted and distinct, postings ascending, frequencies
      aligned, document lengths and their average recorded. */
  ghost predicate Indexes(m: Bm25, docs: Corpus, k1: real, b: real) {
    exists vocabulary ::
      && Lists(vocabulary, Vocabulary(docs)) && SortedBy(LexLe, vocabulary)
      && m == IndexOver(docs, vocabulary, k1, b)
  }

  // ---- building ----

  lemma CountsStep(doc: seq<Term>, n: nat)
    requires n < |doc|
    ensures var was, t := CountsOf(doc[..n]), doc[n];
      CountsOf(doc[..n + 1]) == was[t := Saturate((if t in was then was[t] else 0) + 1)]
  {
    var t := doc[n];
    assert doc[..n + 1] == doc[..n] + [t];
    var now := CountsOf(doc[..n + 1]);
    assert now.Keys == CountsOf(doc[..n]).Keys + {t};
    assert t !in doc[..n] ==> Count(doc[..n], t) == 0;
  }

  /** Count the term frequencies within one document. */
  method LocalCounts(doc: seq<Term>) returns (counts: map<Term, nat>)
    ensures counts == CountsOf(doc)
  {
    counts := map[];
    for n := 0 to |doc|
      invariant counts == CountsOf(doc[..n])
    {
      hide CountsOf, Saturate;
      CountsStep(doc, n);
      var t := doc[n];
      var c := if t in counts then counts[t] else 0;
      counts := counts[t := Saturate(c + 1)];
    }
    assert doc[..|doc|] == doc;
  }

  type Accumulator = map<Term, map<DocId, nat>>

  /** Every term of the first `n` documents with its frequency in each of them. */
  function Accumulated(docs: Corpus, n: nat): Accumulator
    requires n <= |docs|
  {
    map t | t in Vocabulary(docs[..n]) :: Frequencies(docs, t, n)
  }

  /** `acc` with the counts of document `d` merged in for the terms `done`. */
  function EntryOf(acc: Accumulator, t: Term): map<DocId, nat> {
    if t in acc then acc[t] else map[]
  }

  function Merged(acc: Accumulator, d: DocId, local: map<Term, nat>, done: set<Term>): Accumulator
    requires done <= local.Keys
  {
    map t | t in acc.Keys + done ::
      if t in done then EntryOf(acc, t)[d := local[t]] else EntryOf(acc, t)
  }

  lemma MergeStep(acc: Accumulator, d: DocId, local: map<Term, nat>, done: set<Term>, t: Term)
    requires done <= local.Keys && t in local && t !in done
    ensures var m := Merged(acc, d, local, done);
      Merged(acc, d, local, done + {t}) == m[t := EntryOf(m, t)[d := local[t]]]
  {
    var m, m' := Merged(acc, d, local, done), Merged(acc, d, local, done + {t});
    assert m'.Keys == m.Keys + {t};
    assert EntryOf(m, t) == EntryOf(acc, t);
    hide EntryOf;
    forall u | u in m' ensures m'[u] == m[t := EntryOf(m, t)[d := local[t]]][u] {}
  }

  /** Merge one document's counts, in whatever order its hash map yields them. */
  method MergeCounts(acc: Accumulator, d: DocId, local: map<Term, nat>) returns (acc': Accumulator)
    ensures acc' == Merged(acc, d, local, local.Keys)
  {
    hide Merged;
    acc' := acc;
    var rest := local.Keys;
    MergeNothing(acc, d, local);
    while rest != {}
      invariant rest <= local.Keys
      invariant acc' == Merged(acc, d, local, local.Keys - rest)
      decreases |rest|
    {
      var t :| t in rest;
      MergeStep(acc, d, local, local.Keys - rest, t);
      assert local.Keys - (rest - {t}) == local.Keys - rest + {t};
      rest := rest - {t};
      acc' := acc'[t := EntryOf(acc', t)[d := local[t]]];
    }
    assert local.Keys - {} == local.Keys;
  }

  lemma MergeNothing(acc: Accumulator, d: DocId, local: map<Term, nat>)
    ensures Merged(acc, d, local, {}) == acc && local.Keys - local.Keys == {}
  {
    var m := Merged(acc, d, local, {});
    assert m.Keys == acc.Keys;
    forall t | t in acc ensures m[t] == acc[t] {
      assert m[t] == EntryOf(acc, t);
    }
  }

  lemma VocabularyStep(docs: Corpus, n: nat)
    requires n < |docs|
    ensures Vocabulary(docs[..n + 1]) == Vocabulary(docs[..n]) + set t | t in docs[n]
  {
    var p, q := docs[..n], docs[..n + 1];
    assert q == p + [docs[n]];
    forall t | t in Vocabulary(q) ensures t in Vocabulary(p) || t in docs[n] {
      var d :| 0 <= d < |q| && t in q[d];
      if d < n {
        assert p[d] == q[d];
      }
    }
    forall t | t in Vocabulary(p) ensures t in Vocabulary(q) {
      var d :| 0 <= d < |p| && t in p[d];
      assert q[d] == p[d];
    }
    forall t | t in docs[n] ensures t in Vocabulary(q) {
      assert q[n] == docs[n];
    }
  }

  lemma FrequencyStep(docs: Corpus, t: Term, n: nat)
    requires n < |docs|
    ensures Frequencies(docs, t, n + 1)
         == if t in docs[n] then Frequencies(docs, t, n)[n := Saturate(Count(docs[n], t))] else Frequencies(docs, t, n)
  {
    hide Count, Saturate;
  }

  lemma NotYetSeen(docs: Corpus, t: Term, n: nat)
    requires n <= |docs| && t !in Vocabulary(docs[..n])
    ensures Frequencies(docs, t, n) == map[]
  {
    forall d | 0 <= d < n ensures t !in docs[d] {
      assert docs[..n][d] == docs[d];
    }
  }

  lemma AccumulateStep(docs: Corpus, n: nat)
    requires n < |docs|
    ensures Merged(Accumulated(docs, n), n, CountsOf(docs[n]), CountsOf(docs[n]).Keys) == Accumulated(docs, n + 1)
  {
    hide Vocabulary, Count, Saturate;
    VocabularyStep(docs, n);
    var acc, local := Accumulated(docs, n), CountsOf(docs[n]);
    var m := Merged(acc, n, local, local.Keys);
    assert local.Keys == set t | t in docs[n];
    assert m.Keys == Accumulated(docs, n + 1).Keys;
    forall t | t in m ensures m[t] == Frequencies(docs, t, n + 1) {
      FrequencyStep(docs, t, n);
      if t !in acc {
        NotYetSeen(docs, t, n);
      }
      hide Frequencies;
    }
  }

  method Accumulate(docs: Corpus) returns (acc: Accumulator)
    ensures acc == Accumulated(docs, |docs|)
  {
    hide Accumulated, Merged, CountsOf;
    acc := map[];
    AccumulateNothing(docs);
    for n := 0 to |docs|
      invariant acc == Accumulated(docs, n)
    {
      var local := LocalCounts(docs[n]);
      AccumulateStep(docs, n);
      acc := MergeCounts(acc, n, local);
    }
  }

  lemma AccumulateNothing(docs: Corpus)
    ensures Accumulated(docs, 0) == map[]
  {}

  /** One term's posting list out of its accumulated frequencies. */
  method Finalize(docs: Corpus, t: Term, frequencies: map<DocId, nat>) returns (p: Posting)
    requires frequencies == Frequencies(docs, t, |docs|)
    ensures p == PostingFor(docs, t)
  {
    hide *;
    var listed := Enumerate(frequencies.Keys);
    var sorted := Sort(NatLe, listed);
    ghost var whole := PostingFor(docs, t);
    FinalPosting(docs, t, listed, frequencies);
    p := Posting(t, [], []);
    for n := 0 to |sorted|
      invariant p.term == t && p.docs == sorted[..n] && p.tf == whole.tf[..n]
    {
      var d := sorted[n];
      p := p.(docs := p.docs + [d], tf := p.tf + [frequencies[d]]);
    }
  }

  /** Sorting the accumulated ids and reading off their frequencies gives the posting. */
  lemma FinalPosting(docs: Corpus, t: Term, listed: seq<DocId>, frequencies: map<DocId, nat>)
    requires frequencies == Frequencies(docs, t, |docs|) && Lists(listed, frequencies.Keys)
    ensures var sorted, whole := Sort(NatLe, listed), PostingFor(docs, t);
      && whole.term == t && whole.docs == sorted && |whole.tf| == |sorted|
      && forall i :: 0 <= i < |sorted| ==> sorted[i] in frequencies && whole.tf[i] == frequencies[sorted[i]]
  {
    hide Count, Saturate;
    SortedDocs(docs, t, listed, frequencies.Keys);
    PostingFits(docs, t);
    hide Frequencies, PostingFor, Sort, Hits;
  }

  lemma PostingFits(docs: Corpus, t: Term)
    ensures var p := PostingFor(docs, t);
      && p.term == t && p.docs == Hits(docs, t, |docs|) && |p.tf| == |p.docs|
      && forall i :: 0 <= i < |p.docs| ==>
           p.docs[i] in Frequencies(docs, t, |docs|) && p.tf[i] == Frequencies(docs, t, |docs|)[p.docs[i]]
  {
    var hits := Hits(docs, t, |docs|);
    hide Count, Saturate, Hits;
    forall i | 0 <= i < |hits| ensures hits[i] in Frequencies(docs, t, |docs|) {
      assert hits[i] in hits;
    }
  }

  lemma SortedDocs(docs: Corpus, t: Term, listed: seq<DocId>, ids: set<DocId>)
    requires Lists(listed, ids) && forall d: nat :: d in ids <==> d < |docs| && t in docs[d]
    ensures Sort(NatLe, listed) == Hits(docs, t, |docs|)
    ensures forall d :: d in Sort(NatLe, listed) ==> d in ids
  {
    NatTotal();
    HitsAscend(docs, t, |docs|);
    SortedListing(NatLe, listed, Hits(docs, t, |docs|), ids);
  }

  lemma SortedVocabulary(listed: seq<Term>, u: set<Term>)
    requires Lists(listed, u)
    ensures var v := Sort(LexLe, listed); Lists(v, u) && SortedBy(LexLe, v)
  {
    LexTotal();
    SortSorts(LexLe, listed);
    SortPermutes(LexLe, listed);
    SortMembers(LexLe, listed);
    DistinctPermutes(listed, Sort(LexLe, listed));
  }

  lemma LengthsStep(docs: Corpus, d: nat)
    requires d < |docs|
    ensures Lengths(docs[..d + 1]) == Lengths(docs[..d]) + [|docs[d]|]
    ensures TotalLength(docs[..d + 1]) == TotalLength(docs[..d]) + |docs[d]|
  {
    assert docs[..d + 1][..d] == docs[..d];
  }

  lemma PostingsStep(docs: Corpus, v: seq<Term>, i: nat)
    requires i < |v|
    ensures PostingsOver(docs, v[..i + 1]) == PostingsOver(docs, v[..i]) + [PostingFor(docs, v[i])]
    ensures Positions(v[..i + 1]) == Positions(v[..i])[v[i] := i]
  {
    hide PostingFor;
    assert v[..i + 1][..i] == v[..i];
  }

  method Build(docs: Corpus, k1: real, b: real) returns (m: Bm25)
    ensures Indexes(m, docs, k1, b)
  {
    hide Lengths, TotalLength, Accumulated, PostingsOver, Positions, Sort, PostingFor, Frequencies;
    var docLen: seq<nat> := [];
    var totalLen: nat := 0;
    EmptyLengths();
    for d := 0 to |docs|
      invariant docLen == Lengths(docs[..d]) && totalLen == TotalLength(docs[..d])
    {
      LengthsStep(docs, d);
      docLen := docLen + [|docs[d]|];
      totalLen := totalLen + |docs[d]|;
    }
    assert docs[..|docs|] == docs;
    var avgdl := if |docs| == 0 then 0.0 else (totalLen as real) / (|docs| as real);
    var acc := Accumulate(docs);
    AccumulatedAll(docs);
    var listed := Enumerate(acc.Keys);
    var strings := Sort(LexLe, listed);
    SortedVocabulary(listed, acc.Keys);
    var terms: seq<Posting> := [];
    var termIndex: map<Term, nat> := map[];
    for i := 0 to |strings|
      invariant terms == PostingsOver(docs, strings[..i])
      invariant termIndex == Positions(strings[..i])
    {
      var t := strings[i];
      assert t in strings;
      var p := Finalize(docs, t, acc[t]);
      PostingsStep(docs, strings, i);
      termIndex := termIndex[t := i];
      terms := terms + [p];
    }
    assert strings[..|strings|] == strings;
    m := Bm25(k1, b, avgdl, docLen, terms, termIndex);
    assert m == IndexOver(docs, strings, k1, b);
  }

  lemma EmptyLengths()
    ensures Lengths([]) == [] && TotalLength([]) == 0
    ensures forall docs: Corpus :: PostingsOver(docs, []) == []
    ensures Positions([]) == map[]
  {}

  lemma AccumulatedAll(docs: Corpus)
    ensures Accumulated(docs, |docs|).Keys == Vocabulary(docs)
    ensures forall t :: t in Vocabulary(docs) ==> Accumulated(docs, |docs|)[t] == Frequencies(docs, t, |docs|)
  {
    assert docs[..|docs|] == docs;
  }

  // ---- the index determines the term multisets, and they determine the index ----

  function Repeat(t: Term, n: nat): (r: seq<Term>)
    ensures |r| == n && multiset(r) == multiset{}[t := n]
  {
    if n == 0 then [] else Repeat(t, n - 1) + [t]
  }

  function TfIn(p: Posting, d: DocId): nat
    requires |p.tf| == |p.docs|
  {
    TfFrom(p.docs, p.tf, d)
  }

  /** The frequency aligned with document `d`, or 0. */
  function TfFrom(docs: seq<DocId>, tf: seq<nat>, d: DocId): nat
    requires |tf| == |docs|
  {
    if docs == [] then 0 else if docs[0] == d then tf[0] else TfFrom(docs[1..], tf[1..], d)
  }

  ghost predicate WellFormed(m: Bm25) {
    forall i :: 0 <= i < |m.terms| ==>
      && |m.terms[i].tf| == |m.terms[i].docs| && Distinct(m.terms[i].docs)
      && forall d :: d in m.terms[i].docs ==> d < |m.docLen|
  }

  /** What decoding checks of postings: a frequency per document, no document twice. */
  ghost predicate PostingsAligned(m: Bm25) {
    forall i :: 0 <= i < |m.terms| ==> |m.terms[i].tf| == |m.terms[i].docs| && Distinct(m.terms[i].docs)
  }

  predicate Reaches(p: Posting, n: nat) { forall d :: d in p.docs ==> d < n }

  /** No posting names a document beyond the last; decoding does not check it. */
  predicate InRange(m: Bm25) {
    forall i :: 0 <= i < |m.terms| ==> Reaches(m.terms[i], |m.docLen|)
  }

  lemma AlignedInRange(m: Bm25)
    ensures WellFormed(m) <==> PostingsAligned(m) && InRange(m)
  {
    if PostingsAligned(m) && InRange(m) {
      forall i | 0 <= i < |m.terms|
        ensures |m.terms[i].tf| == |m.terms[i].docs| && Distinct(m.terms[i].docs)
          && forall d :: d in m.terms[i].docs ==> d < |m.docLen|
      {
        assert Reaches(m.terms[i], |m.docLen|);
      }
    }
    if WellFormed(m) {
      forall i | 0 <= i < |m.terms| ensures Reaches(m.terms[i], |m.docLen|) {}
    }
  }

  /** Document `d`'s terms as the first `n` postings give them back. */
  function Gathered(m: Bm25, d: DocId, n: nat): seq<Term>
    requires WellFormed(m) && n <= |m.terms|
  {
    if n == 0 then []
    else
      assert |m.terms[n - 1].tf| == |m.terms[n - 1].docs|;
      Gathered(m, d, n - 1) + Repeat(m.terms[n - 1].term, TfIn(m.terms[n - 1], d))
  }

  function AllGathered(m: Bm25, n: nat): (r: Corpus)
    requires WellFormed(m) && n <= |m.terms|
    ensures |r| == |m.docLen|
  {
    seq(|m.docLen|, d requires 0 <= d < |m.docLen| => Gathered(m, d, n))
  }

  /** One posting's contribution to every document's bucket; `None` when it names a document
      without one, which is an index out of bounds. */
  method Scatter(p: Posting, buckets: Corpus) returns (r: Option<Corpus>)
    requires |p.tf| == |p.docs| && Distinct(p.docs)
    ensures r.Some? <==> Reaches(p, |buckets|)
    ensures r.Some? ==>
      && |r.value| == |buckets|
      && forall d :: 0 <= d < |buckets| ==> r.value[d] == buckets[d] + Repeat(p.term, TfIn(p, d))
  {
    var out := buckets;
    for n := 0 to |p.docs|
      invariant |out| == |buckets|
      invariant forall d :: d in p.docs[..n] ==> d < |buckets|
      invariant forall d :: 0 <= d < |out| ==>
        out[d] == buckets[d] + (if d in p.docs[..n] then Repeat(p.term, TfIn(p, d)) else [])
    {
      var d := p.docs[n];
      assert d in p.docs;
      if d >= |out| {
        return None;
      }
      assert p.docs[..n + 1] == p.docs[..n] + [d];
      TfAt(p.docs, p.tf, n);
      var bucket := out[d];
      var c := 0;
      while c < p.tf[n]
        invariant c <= p.tf[n] && bucket == buckets[d] + Repeat(p.term, c)
      {
        bucket := bucket + [p.term];
        c := c + 1;
        assert bucket == buckets[d] + Repeat(p.term, c);
      }
      out := out[d := bucket];
    }
    assert p.docs[..|p.docs|] == p.docs;
    forall d | 0 <= d < |out| && d !in p.docs ensures TfIn(p, d) == 0 {
      TfAbsent(p.docs, p.tf, d);
    }
    r := Some(out);
  }

  lemma {:induction false} TfAt(docs: seq<DocId>, tf: seq<nat>, n: nat)
    requires |tf| == |docs| && Distinct(docs) && n < |docs|
    ensures TfFrom(docs, tf, docs[n]) == tf[n]
    decreases |docs|
  {
    if n > 0 {
      TfAt(docs[1..], tf[1..], n - 1);
    }
  }

  lemma {:induction false} TfAbsent(docs: seq<DocId>, tf: seq<nat>, d: DocId)
    requires |tf| == |docs| && d !in docs
    ensures TfFrom(docs, tf, d) == 0
    decreases |docs|
  {
    if docs != [] {
      TfAbsent(docs[1..], tf[1..], d);
    }
  }

  /** Reconstruct each document's term multiset, each term repeated by its frequency. It fails,
      by an index out of bounds, exactly when a posting names a document the index lacks. */
  method ToDocTerms(m: Bm25) returns (r: Option<Corpus>)
    requires PostingsAligned(m)
    ensures r.Some? <==> InRange(m)
    ensures InRange(m) <==> WellFormed(m)
    ensures r.Some? ==> r.value == AllGathered(m, |m.terms|)
  {
    AlignedInRange(m);
    var docs: Corpus := seq(|m.docLen|, _ => []);
    for n := 0 to |m.terms|
      invariant |docs| == |m.docLen|
      invariant forall i :: 0 <= i < n ==> Reaches(m.terms[i], |m.docLen|)
      invariant WellFormed(m) ==> docs == AllGathered(m, n)
    {
      var p := m.terms[n];
      assert |p.tf| == |p.docs|;
      var next := Scatter(p, docs);
      if next.None? {
        return None;
      }
      docs := next.value;
      assert WellFormed(m) ==> docs == AllGathered(m, n + 1);
    }
    r := Some(docs);
  }
}
