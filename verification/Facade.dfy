/** The facade over one index: an opened image or a builder, and a search snapshot of the builder. */
module Facade {
  import opened Common
  import opened Documents
  import opened Builder
  import opened Sparse
  import opened Rebuild
  import opened Platform
  import opened IndexFormat
  import opened Images
  import opened LinkGraph
  import Relevance
  import Filters
  import Search
  import SparseSearch

  const DEFAULT_K1: real := 1.2
  const DEFAULT_B: real := 0.75

  /** The embedder, and how the crate keys, prints and normalises. */
  datatype Embedder = Embedder(
    dim: nat,
    metric: Metric,
    id: nat,
    key: Url -> UrlKey,
    canonical: Url -> string,
    normalize: seq<real> -> seq<real>)

  ghost predicate EmbedderOk(e: Embedder) {
    forall v :: |e.normalize(v)| == |v|
  }

  /** Only the cosine metric normalises. */
  function SetupFor(e: Embedder, dim: nat, metric: Metric, embedderId: nat, k1: real, b: real): Setup {
    Setup(dim, metric, embedderId, k1, b, e.key, e.canonical, if metric.Cosine? then e.normalize else v => v)
  }

  /** A queryable index: what an image decodes to, the key map, the resolved links, and the image
      it borrows from, when it does. */
  datatype Index = Index(parts: ImageParts, byUrl: map<UrlKey, DocId>, graph: Graph, image: Option<FileImage>)

  datatype Error = Format(cause: FormatError) | Incompatible

  /** The adjacency of the edge lists. */
  ghost predicate Resolves(g: Graph, edges: seq<seq<UrlKey>>, byUrl: map<UrlKey, DocId>) {
    && |g.out| == |edges| && Consistent(g) && AscendingLists(g.inc)
    && forall s :: 0 <= s < |edges| ==> g.out[s] == Targets(edges[s], byUrl, |edges|, s)
  }

  /** Key map, links and image, if any, agree with the decoded parts. */
  ghost predicate Derived(libs: Libraries, x: Index) {
    && x.byUrl == UrlIndexOf(x.parts.meta) && Resolves(x.graph, x.parts.edges, x.byUrl)
    && (x.image.Some? ==> ParseImage(libs, x.image.value) == Ok(x.parts))
  }

  /** What the term index of an image must satisfy, and parsing does not check. */
  ghost predicate GoodTerms(m: Bm25, n: nat) {
    WellFormed(m) && SparseSearch.Searchable(m) && |m.docLen| == n && Distinct(Terms(m)) && CountsFit(m)
  }

  ghost predicate CountsFit(m: Bm25) {
    forall i :: 0 <= i < |m.terms| ==> FrequenciesFit(m.terms[i])
  }

  predicate FrequenciesFit(p: Posting) { forall tf :: tf in p.tf ==> tf <= MAX_TF }

  ghost predicate GoodParts(x: ImageParts) {
    Parallel(x) && DistinctKeys(x.meta) && GoodTerms(x.bm25, |x.meta|)
  }

  ghost predicate Usable(libs: Libraries, x: Index) {
    GoodParts(x.parts) && Derived(libs, x)
  }

  ghost function ContentsShown(x: ImageParts): map<UrlKey, Content>
    requires GoodParts(x)
  {
    PartsAlignedIff(x);
    ContentsIn(x.dim, BuilderParts(x))
  }

  // ---- term counts of a decoded index ----

  lemma {:induction false} TfFromBound(docs: seq<DocId>, tf: seq<nat>, d: DocId)
    requires |tf| == |docs| && forall x :: x in tf ==> x <= MAX_TF
    ensures TfFrom(docs, tf, d) <= MAX_TF
  {
    if docs != [] {
      assert tf[0] in tf && forall x :: x in tf[1..] ==> x in tf;
      TfFromBound(docs[1..], tf[1..], d);
    }
  }

  /** None of the first `n` postings is for `t`. */
  ghost predicate AbsentFrom(m: Bm25, n: nat, t: Term)
    requires n <= |m.terms|
  {
    forall i :: 0 <= i < n ==> m.terms[i].term != t
  }

  lemma {:induction false} GatheredBound(m: Bm25, d: DocId, n: nat, t: Term)
    requires WellFormed(m) && n <= |m.terms| && Distinct(Terms(m)) && CountsFit(m)
    ensures multiset(Gathered(m, d, n))[t] <= (if AbsentFrom(m, n, t) then 0 else MAX_TF)
    decreases n
  {
    hide Gathered, WellFormed, CountsFit, Terms, AbsentFrom;
    if n == 0 {
      GatheredNone(m, d, t);
    } else {
      GatheredBound(m, d, n - 1, t);
      LastPosting(m, d, n - 1, t);
    }
  }

  lemma LastPosting(m: Bm25, d: DocId, n: nat, t: Term)
    requires WellFormed(m) && n < |m.terms| && Distinct(Terms(m)) && CountsFit(m)
    ensures multiset(Gathered(m, d, n + 1))[t] <= multiset(Gathered(m, d, n))[t] + MAX_TF
    ensures m.terms[n].term != t ==> multiset(Gathered(m, d, n + 1))[t] == multiset(Gathered(m, d, n))[t]
    ensures m.terms[n].term == t ==> AbsentFrom(m, n, t) && !AbsentFrom(m, n + 1, t)
    ensures m.terms[n].term != t ==> (AbsentFrom(m, n + 1, t) <==> AbsentFrom(m, n, t))
  {
    GatheredStep(m, d, n, t);
    var p := m.terms[n];
    assert FrequenciesFit(p) && |p.tf| == |p.docs|;
    TfFromBound(p.docs, p.tf, d);
    TermsDiffer(m, n);
    hide Gathered, WellFormed, CountsFit, Terms, FrequenciesFit;
  }

  lemma TermsDiffer(m: Bm25, n: nat)
    requires n < |m.terms| && Distinct(Terms(m))
    ensures forall i :: 0 <= i < n ==> m.terms[i].term != m.terms[n].term
  {
    forall i | 0 <= i < n ensures m.terms[i].term != m.terms[n].term {
      assert Terms(m)[i] != Terms(m)[n];
    }
  }

  /** The terms an index gives back never exceed the count its postings can hold, so building
      from them again loses nothing. */
  lemma GoodTermsWithinCounts(m: Bm25, n: nat)
    requires GoodTerms(m, n)
    ensures WithinCounts(AllGathered(m, |m.terms|))
  {
    var docs := AllGathered(m, |m.terms|);
    forall d, t | 0 <= d < |docs| && t in docs[d] ensures Count(docs[d], t) <= MAX_TF {
      GatheredBound(m, d, |m.terms|, t);
    }
  }

  lemma SaturateBound(docs: Corpus, t: Term)
    ensures FrequenciesFit(PostingFor(docs, t))
  {}

  /** A built term index is good. */
  lemma BuiltIsGood(m: Bm25, docs: Corpus, k1: real, b: real)
    requires Indexes(m, docs, k1, b)
    ensures GoodTerms(m, |docs|)
  {
    Relevance.BuiltIsSearchable(m, docs, k1, b);
    IndexShape(m, docs, k1, b);
    IndexIsWellFormed(m, docs, k1, b);
    var v := Terms(m);
    hide Indexes, WellFormed, PostingFor, SparseSearch.Searchable, Terms, Positions;
    forall i | 0 <= i < |m.terms| ensures FrequenciesFit(m.terms[i]) {
      assert m.terms[i] == PostingFor(docs, v[i]);
      SaturateBound(docs, v[i]);
    }
  }

  /** Rounding its floats keeps a term index good. */
  lemma NarrowedIsGood(libs: Libraries, m: Bm25, n: nat)
    requires GoodTerms(m, n)
    ensures GoodTerms(Bm25Codec.Narrowed(libs, m), n)
  {
    assert Terms(Bm25Codec.Narrowed(libs, m)) == Terms(m);
    hide FrequenciesFit;
  }

  // ---- index construction ----

  /** Resolve the links and put the parts together. */
  method Assemble(parts: ImageParts, byUrl: map<UrlKey, DocId>, image: Option<FileImage>) returns (x: Index)
    ensures x.parts == parts && x.byUrl == byUrl && x.image == image && Resolves(x.graph, parts.edges, byUrl)
  {
    var graph := Resolve(parts.edges, byUrl);
    x := Index(parts, byUrl, graph, image);
  }

  /** Load an image. `aligned` says whether the vector block can be borrowed in place; if not it is
      copied, and the index no longer refers to the image. */
  method FromBytes(libs: Libraries, image: FileImage, aligned: bool) returns (r: Result<Index, FormatError>)
    requires LibrariesOk(libs)
    ensures r.Err? <==> ParseImage(libs, image).Err?
    ensures r.Ok? ==> var x := r.value;
      && x.parts == ParseImage(libs, image).value && Derived(libs, x) && Parallel(x.parts)
      && PostingsAligned(x.parts.bm25) && Bm25Codec.Fits(x.parts.bm25)
      && x.image == (if aligned then Some(image) else None)
    ensures r.Err? ==> r.error == ParseImage(libs, image).error
  {
    var parsed := ParseImage(libs, image);
    if parsed.Err? {
      return Err(parsed.error);
    }
    ParsedParallel(libs, image);
    hide LibrariesOk, ParseImage, Resolves, Bm25Codec.Fits;
    var x := Assemble(parsed.value, UrlIndexOf(parsed.value.meta), if aligned then Some(image) else None);
    r := Ok(x);
  }

  predicate Compatible(x: Index, e: Embedder) {
    x.parts.dim == e.dim && x.parts.embedderId == e.id
  }

  /** The image parses and is of this embedder. */
  predicate Opens(libs: Libraries, e: Embedder, image: FileImage) {
    var parsed := ParseImage(libs, image);
    parsed.Ok? && parsed.value.dim == e.dim && parsed.value.embedderId == e.id
  }

  method Open(libs: Libraries, image: FileImage, aligned: bool, e: Embedder) returns (r: Result<Index, Error>)
    requires LibrariesOk(libs)
    ensures r == Err(Incompatible) || (r.Err? <==> ParseImage(libs, image).Err?)
    ensures r.Ok? <==> ParseImage(libs, image).Ok? && ParseImage(libs, image).value.dim == e.dim
                       && ParseImage(libs, image).value.embedderId == e.id
    ensures r.Ok? ==> var x := r.value;
      && x.parts == ParseImage(libs, image).value && Derived(libs, x) && Parallel(x.parts)
      && PostingsAligned(x.parts.bm25) && Bm25Codec.Fits(x.parts.bm25)
      && x.image == (if aligned then Some(image) else None)
  {
    hide LibrariesOk, ParseImage, Derived, Parallel;
    var x := FromBytes(libs, image, aligned);
    if x.Err? {
      return Err(Format(x.error));
    }
    if !Compatible(x.value, e) {
      return Err(Incompatible);
    }
    r := Ok(x.value);
  }

  /** The image of an index: the one it was loaded from, or a new one. */
  function SerializeIndex(libs: Libraries, x: Index): FileImage {
    if x.image.Some? then x.image.value else SerializeSections(libs, x.parts)
  }

  function ForSearch(x: Index, w: SparseSearch.Weights): Search.Index {
    Search.Index(x.parts.dim, x.parts.metric, x.parts.meta, x.parts.dense, x.parts.bm25, x.graph, w)
  }

  lemma {:induction false} PositionsInRange(v: seq<Term>)
    ensures forall t :: t in Positions(v) ==> Positions(v)[t] < |v|
  {
    if v != [] {
      PositionsInRange(v[..|v| - 1]);
    }
  }

  /** Whatever loads can be searched, sound or not. */
  lemma LoadedIsCoherent(libs: Libraries, x: Index, w: SparseSearch.Weights)
    requires Derived(libs, x) && Parallel(x.parts) && Bm25Codec.Fits(x.parts.bm25)
    ensures Search.Coherent(ForSearch(x, w))
  {
    FitsAligned(x.parts.bm25);
    PositionsInRange(Terms(x.parts.bm25));
    hide Consistent, AscendingLists, UrlIndexOf, Terms, PostingsAligned, Positions, ParseImage;
  }

  /** A usable index can be searched, and no search on it fails. */
  lemma UsableIsCoherent(libs: Libraries, x: Index, w: SparseSearch.Weights, q: Search.PreparedQuery)
    requires Usable(libs, x)
    ensures Search.Coherent(ForSearch(x, w)) && !Search.Derails(ForSearch(x, w), q)
    ensures |x.parts.bm25.docLen| == |x.parts.meta|
  {
    AlignedInRange(x.parts.bm25);
    hide SparseSearch.Searchable, Consistent, AscendingLists, DistinctKeys, UrlIndexOf, Terms, WellFormed,
      Sparse.InRange, Search.Derails;
    Search.InRangeNeverDerails(ForSearch(x, w), q);
  }

  /** An image with a posting out of range loads, and a search for that term fails on it. */
  lemma StrayPostingDerails(libs: Libraries, x: Index, w: SparseSearch.Weights, q: Search.PreparedQuery)
    requires LibrariesOk(libs) && Derived(libs, x) && x.parts == StrayPosting(libs)
    requires q.terms == ["a"] && q.filter == Filters.All
    ensures ParseImage(libs, SerializeSections(libs, x.parts)) == Ok(x.parts)
    ensures Search.Coherent(ForSearch(x, w)) && Search.Derails(ForSearch(x, w), q)
  {
    hide LibrariesOk, ParseImage, SerializeSections, Resolves, Bm25Codec.Fits, IntoParts, Aligned;
    UncheckedImagesParse(libs);
    var m := StrayPosting(libs).bm25;
    NoTermsFits(libs, m.docLen, m.terms);
    LoadedIsCoherent(libs, x, w);
    assert TermsOf(m.terms) == ["a"] && Positions(["a"]) == map["a" := 0] by {
      assert ["a"][..0] == [];
    }
    assert SparseSearch.Occurs(m, "a", 7) && "a" in q.terms;
  }

  /** The parts of a builder with a term index built from its terms. */
  ghost predicate SnapshotOf(x: Index, setup: Setup, p: Parts) {
    && x.parts == PartsForImage(setup, p, x.parts.bm25)
    && Indexes(x.parts.bm25, p.docTerms, setup.k1, setup.b)
    && x.byUrl == p.urlIndex && Resolves(x.graph, p.edges, p.urlIndex) && x.image == None
  }

  /** A snapshot shows exactly the builder's contents, and can be searched. */
  lemma SnapshotShows(libs: Libraries, x: Index, setup: Setup, p: Parts)
    requires SnapshotOf(x, setup, p) && Aligned(setup.dim, p) && WithinCounts(p.docTerms)
    ensures Usable(libs, x) && ContentsShown(x.parts) == ContentsIn(setup.dim, p)
  {
    var m := x.parts.bm25;
    BuiltIsGood(m, p.docTerms, setup.k1, setup.b);
    UrlIndexAgrees(setup.dim, p);
    LosslessIff(m, p.docTerms, setup.k1, setup.b);
    assert GoodParts(x.parts);
    PartsAlignedIff(x.parts);
    var q := BuilderParts(x.parts);
    SameMultisetsSymmetric(q.docTerms, p.docTerms);
    hide Indexes, WithinCounts, GoodTerms, Resolves, AllGathered, UrlIndexOf;
    SameContents(setup.dim, p, q);
  }
}
