/** The binary tier: packed sign bits, Hamming shortlist, and exact rerank. */
module BinaryQuant {
  import opened Common
  import opened Sorting
  import opened Lexical
  import opened Ranking
  import opened Builder
  import opened Dense
  import opened Quant

  /** A 64-bit word as its bits, lowest first. */
  const WORD: nat := 64
  type Word = w: seq<bool> | |w| == WORD witness seq(WORD, _ => false)

  const ZERO_WORD: Word := seq(WORD, _ => false)

  datatype Binary = Binary(dim: nat, words: nat, bits: seq<Word>)

  function WordsFor(dim: nat): nat { (dim + (WORD - 1)) / WORD }

  function Signs(v: seq<real>): (r: seq<bool>)
    ensures |r| == |v|
  {
    seq(|v|, i requires 0 <= i < |v| => v[i] >= 0.0)
  }

  /** The bits packed into `n` words, padded with zeros. */
  function Pack(bits: seq<bool>, n: nat): (r: seq<Word>)
    ensures |r| == n
  {
    seq(n, w requires 0 <= w < n => seq(WORD, b requires 0 <= b < WORD =>
      WORD * w + b < |bits| && bits[WORD * w + b]))
  }

  /** Set the bits of the non-negative components in `out`, from word `base`. */
  method PackSigns(vector: seq<real>, out: array<Word>, base: nat)
    requires base + WordsFor(|vector|) <= out.Length
    requires forall w :: base <= w < base + WordsFor(|vector|) ==> out[w] == ZERO_WORD
    modifies out
    ensures out[..] == old(out[..base]) + Pack(Signs(vector), WordsFor(|vector|))
                       + old(out[base + WordsFor(|vector|)..])
  {
    for i := 0 to |vector|
      invariant forall w :: 0 <= w < out.Length && !(base <= w < base + WordsFor(|vector|)) ==> out[w] == old(out[w])
      invariant forall w, b :: base <= w < base + WordsFor(|vector|) && 0 <= b < WORD ==>
        out[w][b] == (WORD * (w - base) + b < i && vector[WORD * (w - base) + b] >= 0.0)
    {
      if vector[i] >= 0.0 {
        out[base + i / WORD] := out[base + i / WORD][i % WORD := true];
      }
    }
    ghost var packed := Pack(Signs(vector), WordsFor(|vector|));
    forall w | base <= w < base + WordsFor(|vector|) ensures out[w] == packed[w - base] {}
  }

  // ---- Hamming distance ----

  function Ones(w: seq<bool>): nat {
    if w == [] then 0 else Ones(w[..|w| - 1]) + (if w[|w| - 1] then 1 else 0)
  }

  function Xor(a: seq<bool>, b: seq<bool>): (r: seq<bool>)
    requires |a| == |b|
    ensures |r| == |a|
  {
    seq(|a|, i requires 0 <= i < |a| => a[i] != b[i])
  }

  function HammingWords(a: seq<Word>, b: seq<Word>): nat
    requires |a| == |b|
  {
    if a == [] then 0
    else HammingWords(a[..|a| - 1], b[..|b| - 1]) + Ones(Xor(a[|a| - 1], b[|b| - 1]))
  }

  method Hamming(q: Binary, doc: nat, n: nat, queryBits: seq<Word>) returns (distance: nat)
    requires doc < n && |q.bits| == Cells(n, q.words) && |queryBits| == q.words
    ensures distance == HammingWords(RowOf(q.bits, q.words, doc, n), queryBits)
  {
    var row := RowOf(q.bits, q.words, doc, n);
    distance := 0;
    for w := 0 to |row|
      invariant distance == HammingWords(row[..w], queryBits[..w])
    {
      assert row[..w + 1][..w] == row[..w] && queryBits[..w + 1][..w] == queryBits[..w];
      distance := distance + Ones(Xor(row[w], queryBits[w]));
    }
    assert row[..|row|] == row && queryBits[..|row|] == queryBits;
  }

  /** The dimensions in which two sign vectors differ. */
  function Differing(a: seq<bool>, b: seq<bool>): set<nat>
    requires |a| == |b|
  {
    set i: nat | i < |a| && a[i] != b[i]
  }

  lemma {:induction false} OnesCount(a: seq<bool>, b: seq<bool>)
    requires |a| == |b|
    ensures Ones(Xor(a, b)) == |Differing(a, b)|
  {
    if a != [] {
      var n := |a| - 1;
      OnesCount(a[..n], b[..n]);
      assert Xor(a, b)[..n] == Xor(a[..n], b[..n]);
      assert Differing(a, b) == Differing(a[..n], b[..n]) + (if a[n] != b[n] then {n} else {});
    }
  }

  lemma {:induction false} OnesConcat(a: seq<bool>, b: seq<bool>)
    ensures Ones(a + b) == Ones(a) + Ones(b)
  {
    if b == [] {
      assert a + b == a;
    } else {
      assert (a + b)[..|a + b| - 1] == a + b[..|b| - 1];
      OnesConcat(a, b[..|b| - 1]);
    }
  }

  /** The bits with zeros up to `n` words. */
  function Padded(bits: seq<bool>, n: nat): (r: seq<bool>)
    ensures |r| == WORD * n
  {
    seq(WORD * n, i requires 0 <= i < WORD * n => i < |bits| && bits[i])
  }

  lemma PaddedNext(bits: seq<bool>, n: nat)
    requires n > 0
    ensures Pack(bits, n)[..n - 1] == Pack(bits, n - 1)
    ensures Padded(bits, n) == Padded(bits, n - 1) + Pack(bits, n)[n - 1]
  {}

  lemma XorConcat(a: seq<bool>, b: seq<bool>, x: seq<bool>, y: seq<bool>)
    requires |a| == |b| && |x| == |y|
    ensures Xor(a + x, b + y) == Xor(a, b) + Xor(x, y)
  {}

  /** Word by word is bit by bit. */
  lemma {:induction false} PackedHamming(a: seq<bool>, b: seq<bool>, n: nat)
    ensures HammingWords(Pack(a, n), Pack(b, n)) == Ones(Xor(Padded(a, n), Padded(b, n)))
  {
    if n > 0 {
      PaddedNext(a, n);
      PaddedNext(b, n);
      hide Pack, Padded, Xor, Ones;
      PackedHamming(a, b, n - 1);
      var x, y := Pack(a, n)[n - 1], Pack(b, n)[n - 1];
      XorConcat(Padded(a, n - 1), Padded(b, n - 1), x, y);
      OnesConcat(Xor(Padded(a, n - 1), Padded(b, n - 1)), Xor(x, y));
    }
  }

  /** Word-packed Hamming distance is the number of dimensions whose sign bits differ: the
      padding of the last word never counts. */
  lemma HammingCountsSigns(u: seq<real>, v: seq<real>)
    requires |u| == |v|
    ensures HammingWords(Pack(Signs(u), WordsFor(|u|)), Pack(Signs(v), WordsFor(|v|)))
         == |Differing(Signs(u), Signs(v))|
  {
    var a, b, n := Signs(u), Signs(v), WordsFor(|u|);
    PackedHamming(a, b, n);
    OnesCount(Padded(a, n), Padded(b, n));
    assert |a| <= WORD * n;
    hide Ones, HammingWords, Signs;
    assert Differing(Padded(a, n), Padded(b, n)) == Differing(a, b);
  }

  // ---- encoding a corpus ----

  /** Row `d` of the packed corpus holds the sign bits of the vector. */
  ghost predicate SignsEncoded(x: Binary, dense: seq<real>, n: nat) {
    && Cells(n, x.dim) <= |dense| && |x.bits| == Cells(n, x.words) && x.words == WordsFor(x.dim)
    && RowsPacked(x.bits, x.words, dense, x.dim, n, n)
  }

  method EncodeBinary(dense: seq<real>, dim: nat) returns (x: Binary)
    requires dim > 0
    ensures x.dim == dim && SignsEncoded(x, dense, DocCount(|dense|, dim))
  {
    var n := DocCount(|dense|, dim);
    var words := WordsFor(dim);
    var bits := new Word[Cells(n, words)](_ => ZERO_WORD);
    for d := 0 to n
      invariant RowsPacked(bits[..], words, dense, dim, n, d)
      invariant forall w :: Cells(d, words) <= w < bits.Length ==> bits[w] == ZERO_WORD
    {
      hide Pack, Signs, Cells, RowOf, WordsFor, RowsPacked;
      ghost var was := bits[..];
      var row := RowOf(dense, dim, d, n);
      RowFits(d, n, words);
      PackSigns(row, bits, Cells(d, words));
      PackNextRow(was, bits[..], words, dense, dim, n, d);
    }
    x := Binary(dim, words, bits[..]);
  }

  /** The first `d` rows are packed. */
  ghost predicate RowsPacked(bits: seq<Word>, words: nat, dense: seq<real>, dim: nat, n: nat, d: nat)
    requires |bits| == Cells(n, words) && Cells(n, dim) <= |dense| && d <= n
  {
    forall e: nat :: e < d ==> RowOf(bits, words, e, n) == Pack(Signs(RowOf(dense, dim, e, n)), words)
  }

  lemma PackNextRow(was: seq<Word>, now: seq<Word>, words: nat, dense: seq<real>, dim: nat, n: nat, d: nat)
    requires |was| == Cells(n, words) && Cells(n, dim) <= |dense| && d < n
    requires Cells(d, words) + words <= |was| && RowsPacked(was, words, dense, dim, n, d)
    requires now == was[..Cells(d, words)] + Pack(Signs(RowOf(dense, dim, d, n)), words)
                    + was[Cells(d, words) + words..]
    ensures RowsPacked(now, words, dense, dim, n, d + 1)
  {
    RowWritten(was, now, words, d, n, Pack(Signs(RowOf(dense, dim, d, n)), words));
    hide Pack, Signs, Cells, RowOf;
  }

  // ---- the shortlist ----

  type Ranked = (nat, DocId)

  /** Ascending distance, ties by ascending id. */
  predicate CloserLe(a: Ranked, b: Ranked) {
    a.0 < b.0 || (a.0 == b.0 && a.1 <= b.1)
  }

  lemma CloserTotal()
    ensures TotalOrder(CloserLe)
  {}

  /** Partition around position `i`: nothing before it is farther, nothing after it is closer.
      Callers may rely on no more than that. */
  method SelectNth(s: seq<Ranked>, i: nat) returns (r: seq<Ranked>)
    requires i < |s|
    ensures multiset(r) == multiset(s) && |r| == |s|
    ensures forall j :: 0 <= j < i ==> CloserLe(r[j], r[i])
    ensures forall j :: i < j < |r| ==> CloserLe(r[i], r[j])
  {
    CloserTotal();
    SortSorts(CloserLe, s);
    SortPermutes(CloserLe, s);
    r := Sort(CloserLe, s);
  }

  function Distances(q: Binary, n: nat, queryBits: seq<Word>): (r: seq<Ranked>)
    requires |q.bits| == Cells(n, q.words) && |queryBits| == q.words
    ensures |r| == n
  {
    seq(n, d requires 0 <= d < n => (HammingWords(RowOf(q.bits, q.words, d, n), queryBits), d))
  }

  function DocsOf(s: seq<Ranked>): (r: seq<DocId>)
    ensures |r| == |s|
  {
    seq(|s|, i requires 0 <= i < |s| => s[i].1)
  }

  /** The documents within the first `limit` places of the complete order by distance, then id. */
  function ShortlistOf(q: Binary, n: nat, queryBits: seq<Word>, limit: nat): seq<DocId>
    requires |q.bits| == Cells(n, q.words) && |queryBits| == q.words
  {
    DocsOf(Truncate(Sort(CloserLe, Distances(q, n, queryBits)), limit))
  }

  lemma SelectThenSort(s: seq<Ranked>, r: seq<Ranked>, n: nat)
    requires multiset(r) == multiset(s) && 0 < n <= |r| == |s|
    requires forall j :: 0 <= j < n - 1 ==> CloserLe(r[j], r[n - 1])
    requires forall j :: n - 1 < j < |r| ==> CloserLe(r[n - 1], r[j])
    ensures Sort(CloserLe, r[..n]) == Sort(CloserLe, s)[..n]
  {
    CloserTotal();
    assert r == r[..n] + r[n..];
    LowBelowHigh(r, n);
    SortTwoParts(r[..n], r[n..], s);
  }

  lemma LowBelowHigh(r: seq<Ranked>, n: nat)
    requires 0 < n <= |r|
    requires forall j :: 0 <= j < n - 1 ==> CloserLe(r[j], r[n - 1])
    requires forall j :: n - 1 < j < |r| ==> CloserLe(r[n - 1], r[j])
    ensures forall x, y :: x in r[..n] && y in r[n..] ==> CloserLe(x, y)
  {
    CloserTotal();
    forall x, y | x in r[..n] && y in r[n..] ensures CloserLe(x, y) {
      assert CloserLe(x, r[n - 1]) && CloserLe(r[n - 1], y);
    }
  }

  lemma SortTwoParts(low: seq<Ranked>, high: seq<Ranked>, s: seq<Ranked>)
    requires multiset(low + high) == multiset(s)
    requires forall x, y :: x in low && y in high ==> CloserLe(x, y)
    ensures |low| <= |s| && Sort(CloserLe, low) == Sort(CloserLe, s)[..|low|]
  {
    CloserTotal();
    var a, b := Sort(CloserLe, low), Sort(CloserLe, high);
    SortSorts(CloserLe, low);
    SortSorts(CloserLe, high);
    SortPermutes(CloserLe, low);
    SortPermutes(CloserLe, high);
    SortMembers(CloserLe, low);
    SortMembers(CloserLe, high);
    hide Sort, CloserLe;
    Joined(a, b);
    SortIsUnique(CloserLe, s, a + b);
    assert |a + b| == |s| && (a + b)[..|a|] == a;
  }

  lemma Joined(a: seq<Ranked>, b: seq<Ranked>)
    requires SortedBy(CloserLe, a) && SortedBy(CloserLe, b)
    requires forall x, y :: x in a && y in b ==> CloserLe(x, y)
    ensures SortedBy(CloserLe, a + b)
  {
    hide CloserLe;
    forall i, j | 0 <= i < j < |a + b| ensures CloserLe((a + b)[i], (a + b)[j]) {
      if i < |a| && |a| <= j {
        assert a[i] in a && b[j - |a|] in b;
      }
    }
  }

  /** The `limit` documents closest to the query, closest first, by partial selection. */
  method Shortlist(q: Binary, n: nat, queryBits: seq<Word>, limit: nat) returns (docs: seq<DocId>)
    requires |q.bits| == Cells(n, q.words) && |queryBits| == q.words
    ensures docs == ShortlistOf(q, n, queryBits, limit)
  {
    var scored: seq<Ranked> := [];
    for d := 0 to n
      invariant scored == Distances(q, n, queryBits)[..d]
    {
      hide HammingWords, RowOf, Cells;
      var distance := Hamming(q, d, n, queryBits);
      scored := scored + [(distance, d)];
    }
    hide Distances, HammingWords, Sort, CloserLe;
    assert scored == Distances(q, n, queryBits);
    var cut := if limit < n then limit else n;
    if cut < |scored| && scored != [] {
      var at := if cut == 0 then 0 else cut - 1;
      ghost var was := scored;
      scored := SelectNth(scored, at);
      if cut > 0 {
        SelectThenSort(was, scored, cut);
      } else {
        SortNone();
      }
    }
    scored := Truncate(scored, cut);
    scored := Sort(CloserLe, scored);
    docs := DocsOf(scored);
  }

  lemma SortNone()
    ensures Sort(CloserLe, []) == []
  {}

  /** A shortlist as long as the corpus is the whole corpus. */
  lemma WideShortlist(q: Binary, n: nat, queryBits: seq<Word>, limit: nat)
    requires |q.bits| == Cells(n, q.words) && |queryBits| == q.words && n <= limit
    ensures var docs := ShortlistOf(q, n, queryBits, limit);
      forall d: DocId :: d in docs <==> d < n
  {
    var all := Distances(q, n, queryBits);
    var sorted := Sort(CloserLe, all);
    SortMembers(CloserLe, all);
    hide HammingWords, RowOf, Sort;
    forall d: DocId ensures d in DocsOf(sorted) <==> d < n {
      if d < n {
        assert all[d] in sorted;
        var i :| 0 <= i < |sorted| && sorted[i] == all[d];
        assert DocsOf(sorted)[i] == d;
      }
      if d in DocsOf(sorted) {
        var i :| 0 <= i < |sorted| && sorted[i].1 == d;
        assert sorted[i] in all;
      }
    }
  }

  lemma ShortlistDistinct(q: Binary, n: nat, queryBits: seq<Word>, limit: nat)
    requires |q.bits| == Cells(n, q.words) && |queryBits| == q.words
    ensures var docs := ShortlistOf(q, n, queryBits, limit);
      Distinct(docs) && forall d :: d in docs ==> d < n
  {
    var all := Distances(q, n, queryBits);
    assert forall i :: 0 <= i < n ==> all[i].1 == i;
    hide Distances, Sort, CloserLe;
    var sorted := Sort(CloserLe, all);
    SortPermutes(CloserLe, all);
    SortMembers(CloserLe, all);
    DistinctPermutes(all, sorted);
    var cut := Truncate(sorted, limit);
    assert Distinct(cut) && forall x :: x in cut ==> x in all;
    DocsDistinct(all, cut);
  }

  lemma DocsDistinct(all: seq<Ranked>, sorted: seq<Ranked>)
    requires forall i :: 0 <= i < |all| ==> all[i].1 == i
    requires Distinct(sorted) && forall x :: x in sorted ==> x in all
    ensures Distinct(DocsOf(sorted)) && forall d :: d in DocsOf(sorted) ==> d < |all|
  {
    var docs := DocsOf(sorted);
    forall i, j | 0 <= i < j < |docs| ensures docs[i] != docs[j] {
      assert sorted[i] in all && sorted[j] in all && sorted[i] != sorted[j];
    }
    forall i | 0 <= i < |docs| ensures docs[i] < |all| {
      assert sorted[i] in all;
    }
  }

  // ---- two tiers ----

  /** Wide sign-bit shortlist, then exact scores on the shortlist only. */
  method TwoTierSearch(query: seq<real>, dense: seq<real>, dim: nat, n: nat, binary: Binary, shortlist: nat, k: nat,
                       normalize: seq<real> -> seq<real>) returns (out: seq<Scored>)
    requires |dense| == Cells(n, dim) && binary.dim == dim && SignsEncoded(binary, dense, n)
    requires forall v :: |normalize(v)| == |v|
    ensures k == 0 || |query| != dim ==> out == []
    ensures k > 0 && |query| == dim ==>
      var q := normalize(query);
      var docs := ShortlistOf(binary, n, Pack(Signs(q), binary.words), if shortlist < k then k else shortlist);
      AllBelow(IdSet(docs), n) && TopOf(out, ScanScores(q, dense, dim, n, Dot, IdSet(docs)), k)
  {
    if k == 0 || |query| != dim {
      return [];
    }
    var q := normalize(query);
    var packed := new Word[binary.words](_ => ZERO_WORD);
    hide Pack, Signs, ShortlistOf, RowsPacked, ScanScores;
    PackSigns(q, packed, 0);
    assert packed[..] == Pack(Signs(q), binary.words);
    var width := if shortlist < k then k else shortlist;
    var docs := Shortlist(binary, n, packed[..], width);
    ShortlistDistinct(binary, n, packed[..], width);
    assert AllBelow(IdSet(docs), n);
    out := Rerank(q, dense, dim, n, docs, k);
  }

  /** Exact scores for the shortlisted documents, best `k`. */
  method Rerank(q: seq<real>, dense: seq<real>, dim: nat, n: nat, docs: seq<DocId>, k: nat) returns (out: seq<Scored>)
    requires |q| == dim && |dense| == Cells(n, dim) && AllBelow(IdSet(docs), n) && Distinct(docs)
    ensures TopOf(out, ScanScores(q, dense, dim, n, Dot, IdSet(docs)), k)
  {
    hide Similarity, VectorAt;
    var rescored: seq<Scored> := [];
    assert forall i :: 0 <= i < |docs| ==> docs[i] in IdSet(docs);
    for i := 0 to |docs|
      invariant rescored == Rescored(q, dense, dim, n, docs)[..i]
    {
      var score := ComputeSimilarity(q, VectorAt(dense, dim, docs[i], n), Dot);
      rescored := rescored + [(docs[i], score)];
    }
    assert rescored == Rescored(q, dense, dim, n, docs);
    RescoredLists(q, dense, dim, n, docs);
    hide Rank, Ranks, ScanScores, Rescored;
    SortRanks(rescored, ScanScores(q, dense, dim, n, Dot, IdSet(docs)));
    out := Truncate(Rank(rescored), k);
  }

  function Rescored(q: seq<real>, dense: seq<real>, dim: nat, n: nat, docs: seq<DocId>): (r: seq<Scored>)
    requires |q| == dim && |dense| == Cells(n, dim) && AllBelow(IdSet(docs), n)
    ensures |r| == |docs|
  {
    assert forall i :: 0 <= i < |docs| ==> docs[i] in IdSet(docs);
    seq(|docs|, i requires 0 <= i < |docs| => (docs[i], Similarity(q, VectorAt(dense, dim, docs[i], n), Dot)))
  }

  lemma RescoredLists(q: seq<real>, dense: seq<real>, dim: nat, n: nat, docs: seq<DocId>)
    requires |q| == dim && |dense| == Cells(n, dim) && AllBelow(IdSet(docs), n) && Distinct(docs)
    ensures Lists(Rescored(q, dense, dim, n, docs), ScanScores(q, dense, dim, n, Dot, IdSet(docs)).Items)
  {
    var r, scores := Rescored(q, dense, dim, n, docs), ScanScores(q, dense, dim, n, Dot, IdSet(docs));
    hide Similarity, VectorAt, Cells;
    forall x ensures x in r <==> x in scores.Items {
      if x in scores.Items {
        assert x.0 in docs;
        var i :| 0 <= i < |docs| && docs[i] == x.0;
        assert r[i] == x;
      }
      if x in r {
        var i :| 0 <= i < |r| && r[i] == x;
        assert docs[i] in IdSet(docs);
      }
    }
  }

  /** When the shortlist covers the corpus the two-tier answer is exact top-k, document for
      document: it equals what one scan over everything returns. */
  lemma WideTwoTierIsExact(binary: Binary, dense: seq<real>, dim: nat, n: nat, q: seq<real>, width: nat, k: nat,
                           twoTier: seq<Scored>, exact: seq<Scored>)
    requires |dense| == Cells(n, dim) && binary.dim == dim == |q| && SignsEncoded(binary, dense, n) && n <= width
    requires var docs := ShortlistOf(binary, n, Pack(Signs(q), binary.words), width);
      AllBelow(IdSet(docs), n) && TopOf(twoTier, ScanScores(q, dense, dim, n, Dot, IdSet(docs)), k)
    requires TopOf(exact, ScanScores(q, dense, dim, n, Dot, Scanned(n, None)), k)
    ensures twoTier == exact
  {
    WideShortlist(binary, n, Pack(Signs(q), binary.words), width);
    hide ShortlistOf, Pack, Signs, SignsEncoded, ScanScores, TopOf;
    assert IdSet(ShortlistOf(binary, n, Pack(Signs(q), binary.words), width)) == Scanned(n, None);
    TopIsUnique(twoTier, exact, ScanScores(q, dense, dim, n, Dot, Scanned(n, None)), k);
  }

  /** The shortlist of a packed query orders documents by how many sign bits differ. */
  lemma ShortlistDistances(binary: Binary, dense: seq<real>, n: nat, q: seq<real>, d: nat)
    requires SignsEncoded(binary, dense, n) && |q| == binary.dim && d < n
    ensures Distances(binary, n, Pack(Signs(q), binary.words))[d]
         == (|Differing(Signs(RowOf(dense, binary.dim, d, n)), Signs(q))|, d)
  {
    HammingCountsSigns(RowOf(dense, binary.dim, d, n), q);
    hide Pack, Signs, HammingWords, RowOf, Differing, WordsFor;
  }
}
