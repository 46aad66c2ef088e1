/** The mutable index builder: four parallel arrays and a key map, refining a map from URL
    key to entry. */
module Builder {
  import opened Common
  import opened Documents

  /** What a builder is made for (dimension, metric, embedder, BM25 parameters), and how it keys,
      prints and prepares what it stores: the canonical-URL key, the canonical string, and the
      vector normalisation of the metric (identity for dot and L2). */
  datatype Setup = Setup(
    dim: nat,
    metric: Metric,
    embedderId: nat,
    k1: real,
    b: real,
    key: Url -> UrlKey,
    canonical: Url -> string,
    prepare: seq<real> -> seq<real>)

  ghost predicate SetupOk(setup: Setup) {
    forall v :: |setup.prepare(v)| == |v|
  }

  datatype DimMismatch = DimMismatch(index: nat, query: nat)

  /** The arrays of a builder or of a decoded index, as one value. */
  datatype Parts = Parts(
    meta: seq<DocMeta>,
    dense: seq<real>,
    docTerms: seq<seq<Term>>,
    edges: seq<seq<UrlKey>>,
    urlIndex: map<UrlKey, DocId>)

  /** The number of components of `n` rows. */
  function Cells(n: nat, dim: nat): nat { n * dim }

  lemma RowFits(i: nat, n: nat, dim: nat)
    requires i < n
    ensures Cells(i, dim) + dim == Cells(i + 1, dim) <= Cells(n, dim)
  {
    assert (n - (i + 1)) * dim >= 0;
  }

  function VectorAt(dense: seq<real>, dim: nat, i: nat, n: nat): (r: seq<real>)
    requires i < n && |dense| == Cells(n, dim)
    ensures |r| == dim
  {
    RowFits(i, n, dim);
    dense[Cells(i, dim)..Cells(i, dim) + dim]
  }

  /** Parallel arrays, and a key map that is a bijection between keys and rows. */
  ghost predicate Aligned(dim: nat, p: Parts) {
    && |p.docTerms| == |p.meta| && |p.edges| == |p.meta|
    && |p.dense| == Cells(|p.meta|, dim)
    && (forall i :: 0 <= i < |p.meta| ==> p.meta[i].urlKey in p.urlIndex && p.urlIndex[p.meta[i].urlKey] == i)
    && (forall k :: k in p.urlIndex ==> p.urlIndex[k] < |p.meta| && p.meta[p.urlIndex[k]].urlKey == k)
  }

  function Row(dim: nat, p: Parts, i: nat): Entry
    requires i < |p.meta| && |p.docTerms| == |p.meta| && |p.edges| == |p.meta| && |p.dense| == Cells(|p.meta|, dim)
  {
    Entry(p.meta[i], VectorAt(p.dense, dim, i, |p.meta|), p.docTerms[i], p.edges[i])
  }

  ghost function Rows(dim: nat, p: Parts): (r: seq<Entry>)
    requires Aligned(dim, p)
    ensures |r| == |p.meta|
  {
    seq(|p.meta|, i requires 0 <= i < |p.meta| => Row(dim, p, i))
  }

  ghost function ViewOf(dim: nat, p: Parts): View
    requires Aligned(dim, p)
  {
    map k | k in p.urlIndex :: Row(dim, p, p.urlIndex[k])
  }

  /** A map with the same keys and rows is the view. */
  lemma ViewIs(dim: nat, p: Parts, v: View)
    requires Aligned(dim, p) && v.Keys == p.urlIndex.Keys
    requires forall k :: k in v ==> v[k] == Row(dim, p, p.urlIndex[k])
    ensures ViewOf(dim, p) == v
  {
    hide Row, Cells;
  }

  lemma ViewAt(dim: nat, p: Parts)
    requires Aligned(dim, p)
    ensures ViewOf(dim, p).Keys == p.urlIndex.Keys
    ensures forall k :: k in p.urlIndex ==> ViewOf(dim, p)[k] == Row(dim, p, p.urlIndex[k])
  {
    hide Row, Cells;
  }

  /** Replace row `i` of the vector blob. */
  function SetVector(dense: seq<real>, dim: nat, i: nat, n: nat, v: seq<real>): (r: seq<real>)
    requires i < n && |dense| == Cells(n, dim) && |v| == dim
    ensures |r| == |dense|
  {
    RowFits(i, n, dim);
    dense[..Cells(i, dim)] + v + dense[Cells(i, dim) + dim..]
  }

  lemma SetVectorRows(dense: seq<real>, dim: nat, i: nat, n: nat, v: seq<real>, j: nat)
    requires i < n && j < n && |dense| == Cells(n, dim) && |v| == dim
    ensures VectorAt(SetVector(dense, dim, i, n, v), dim, j, n) == if j == i then v else VectorAt(dense, dim, j, n)
  {
    RowFits(i, n, dim);
    RowFits(j, n, dim);
    if j < i {
      RowFits(j, i, dim);
    } else if i < j {
      RowFits(i, j, dim);
    }
    hide Cells;
  }

  lemma AppendRows(dense: seq<real>, dim: nat, n: nat, v: seq<real>, j: nat)
    requires j <= n && |dense| == Cells(n, dim) && |v| == dim
    ensures |dense + v| == Cells(n + 1, dim)
    ensures VectorAt(dense + v, dim, j, n + 1) == if j == n then v else VectorAt(dense, dim, j, n)
  {
    RowFits(n, n + 1, dim);
    if j < n {
      RowFits(j, n, dim);
    }
    hide Cells;
  }

  lemma TruncateRows(dense: seq<real>, dim: nat, n: nat, j: nat)
    requires n > 0 && j < n - 1 && |dense| == Cells(n, dim)
    ensures Cells(n - 1, dim) <= |dense|
    ensures VectorAt(dense[..Cells(n - 1, dim)], dim, j, n - 1) == VectorAt(dense, dim, j, n)
  {
    RowFits(n - 1, n, dim);
    RowFits(j, n - 1, dim);
    hide Cells;
  }

  function SwapRemove<T>(s: seq<T>, i: nat): (r: seq<T>)
    requires i < |s|
    ensures |r| == |s| - 1
    ensures forall j :: 0 <= j < |r| ==> r[j] == if j == i then s[|s| - 1] else s[j]
  {
    if i == |s| - 1 then s[..i] else s[i := s[|s| - 1]][..|s| - 1]
  }

  /** The record stored for a document. */
  function EntryFor(setup: Setup, doc: Document): Entry {
    Entry(
      DocMeta(setup.canonical(doc.url), setup.key(doc.url), doc.kind, doc.contentHash, |doc.terms|, doc.title,
              doc.snippet, doc.lang, doc.tags, doc.fetchedAtMs, doc.pinned, doc.etag),
      setup.prepare(doc.vector), doc.terms, doc.edges)
  }

  class IndexBuilder {
    const setup: Setup
    var meta: seq<DocMeta>
    var dense: seq<real>
    var docTerms: seq<seq<Term>>
    var edges: seq<seq<UrlKey>>
    var urlIndex: map<UrlKey, DocId>

    function Contents(): Parts
      reads this
    {
      Parts(meta, dense, docTerms, edges, urlIndex)
    }

    ghost predicate Valid()
      reads this
    {
      SetupOk(setup) && Aligned(setup.dim, Contents())
    }

    ghost function AsMap(): View
      reads this
      requires Valid()
    {
      ViewOf(setup.dim, Contents())
    }

    constructor (setup: Setup)
      requires SetupOk(setup)
      ensures Valid() && this.setup == setup && AsMap() == map[]
    {
      this.setup := setup;
      meta, dense, docTerms, edges, urlIndex := [], [], [], [], map[];
    }

    /** Reconstruct a builder from the parts of an index. */
    constructor FromParts(setup: Setup, p: Parts)
      requires SetupOk(setup) && Aligned(setup.dim, p)
      ensures Valid() && this.setup == setup && Contents() == p
    {
      this.setup := setup;
      meta, dense, docTerms, edges, urlIndex := p.meta, p.dense, p.docTerms, p.edges, p.urlIndex;
    }

    method IsUnchanged(url: Url, contentHash: nat) returns (r: bool)
      requires Valid()
      ensures r <==> setup.key(url) in AsMap() && AsMap()[setup.key(url)].meta.contentHash == contentHash
    {
      var key := setup.key(url);
      r := key in urlIndex && meta[urlIndex[key]].contentHash == contentHash;
    }

    /** Add or update a document, deduplicated by key. */
    method UpsertDoc(doc: Document) returns (r: Result<UpsertOutcome, DimMismatch>)
      requires Valid()
      modifies this
      ensures Valid()
      ensures |doc.vector| != setup.dim ==>
        r == Err(DimMismatch(setup.dim, |doc.vector|)) && Contents() == old(Contents())
      ensures |doc.vector| == setup.dim ==>
        r.Ok? && (AsMap(), r.value) == Upserted(old(AsMap()), setup.key(doc.url), EntryFor(setup, doc))
    {
      if |doc.vector| != setup.dim {
        return Err(DimMismatch(setup.dim, |doc.vector|));
      }
      var entry := EntryFor(setup, doc);
      var key := entry.meta.urlKey;
      var n := |meta|;
      ghost var was := Contents();
      if key in urlIndex {
        var id := urlIndex[key];
        if meta[id].contentHash == doc.contentHash {
          return Ok(Unchanged);
        }
        var record := entry.meta.(pinned := entry.meta.pinned || meta[id].pinned);
        meta := meta[id := record];
        dense := SetVector(dense, setup.dim, id, n, entry.vector);
        docTerms := docTerms[id := entry.terms];
        edges := edges[id := entry.edges];
        ReplaceRow(setup.dim, was, Contents(), id, entry.(meta := record));
        r := Ok(Updated);
      } else {
        urlIndex := urlIndex[key := n];
        meta := meta + [entry.meta];
        dense := dense + entry.vector;
        docTerms := docTerms + [entry.terms];
        edges := edges + [entry.edges];
        AppendRow(setup.dim, was, Contents(), entry);
        r := Ok(Added);
      }
    }

    /** Remove a document: the last row moves into the hole. */
    method RemoveDoc(url: Url) returns (removed: bool)
      requires Valid()
      modifies this
      ensures Valid()
      ensures removed <==> setup.key(url) in old(AsMap())
      ensures AsMap() == Removed(old(AsMap()), setup.key(url))
      ensures !removed ==> Contents() == old(Contents())
      ensures removed ==>
        Rows(setup.dim, Contents()) == SwapRemove(old(Rows(setup.dim, Contents())), old(urlIndex)[setup.key(url)])
    {
      var key := setup.key(url);
      if key !in urlIndex {
        return false;
      }
      ghost var was := Contents();
      var id := urlIndex[key];
      urlIndex := urlIndex - {key};
      var last := |meta| - 1;
      RowFits(last, |meta|, setup.dim);
      if id != last {
        var moved := VectorAt(dense, setup.dim, last, last + 1);
        dense := SetVector(dense, setup.dim, id, last + 1, moved);
      }
      meta := SwapRemove(meta, id);
      docTerms := SwapRemove(docTerms, id);
      edges := SwapRemove(edges, id);
      if id != last {
        urlIndex := urlIndex[meta[id].urlKey := id];
      }
      dense := dense[..Cells(last, setup.dim)];
      assert Contents() == WithoutRow(setup.dim, was, id);
      RemoveRow(setup.dim, was, id);
      removed := true;
    }

    /** Update only the fetch timestamp. */
    method TouchDoc(url: Url, now: nat) returns (found: bool)
      requires Valid()
      modifies this`meta
      ensures Valid()
      ensures found <==> setup.key(url) in old(AsMap())
      ensures AsMap() == Touched(old(AsMap()), setup.key(url), now)
    {
      var key := setup.key(url);
      if key !in urlIndex {
        return false;
      }
      var id := urlIndex[key];
      meta := meta[id := meta[id].(fetchedAtMs := now)];
      found := true;
    }

    /** Set the pin of every document whose URL starts with `prefix`; counts the changes. */
    method SetPinnedPrefix(prefix: string, pinned: bool) returns (changed: nat)
      requires Valid()
      modifies this`meta
      ensures Valid()
      ensures AsMap() == Pinned(old(AsMap()), prefix, pinned)
      ensures changed == |set k | k in old(AsMap()) && AsMap()[k] != old(AsMap())[k]|
    {
      hide Aligned, PinFirst, FlippedKeys, ViewOf, Cells;
      changed := 0;
      ghost var was := Contents();
      ghost var flipped: set<UrlKey> := {};
      PinStart(meta, prefix, pinned);
      for n := 0 to |meta|
        invariant |meta| == |was.meta| && Contents() == was.(meta := meta)
        invariant meta == PinFirst(was.meta, n, prefix, pinned)
        invariant flipped == FlippedKeys(was.meta, n, prefix, pinned)
        invariant changed == |flipped|
      {
        var d := meta[n];
        PinStep(was.meta, n, prefix, pinned);
        if prefix <= d.url && d.pinned != pinned {
          meta := meta[n := d.(pinned := pinned)];
          FreshKey(setup.dim, was, n, prefix, pinned);
          flipped := flipped + {d.urlKey};
          changed := changed + 1;
        }
      }
      PinRows(setup.dim, was, Contents(), prefix, pinned);
      FlippedLinks(setup.dim, was, prefix, pinned);
      assert flipped == set k | k in old(AsMap()) && AsMap()[k] != old(AsMap())[k];
    }
  }

  predicate Flips(d: DocMeta, prefix: string, pinned: bool) {
    prefix <= d.url && d.pinned != pinned
  }

  /** The first `n` records with their pins set. */
  function PinFirst(meta: seq<DocMeta>, n: nat, prefix: string, pinned: bool): (r: seq<DocMeta>)
    requires n <= |meta|
    ensures |r| == |meta|
  {
    seq(|meta|, i requires 0 <= i < |meta| =>
      if i < n && prefix <= meta[i].url then meta[i].(pinned := pinned) else meta[i])
  }

  ghost function FlippedKeys(meta: seq<DocMeta>, n: nat, prefix: string, pinned: bool): set<UrlKey>
    requires n <= |meta|
  {
    set i | 0 <= i < n && Flips(meta[i], prefix, pinned) :: meta[i].urlKey
  }

  lemma PinStep(meta: seq<DocMeta>, n: nat, prefix: string, pinned: bool)
    requires n < |meta|
    ensures PinFirst(meta, n, prefix, pinned)[n] == meta[n]
    ensures PinFirst(meta, n + 1, prefix, pinned)
         == if Flips(meta[n], prefix, pinned) then PinFirst(meta, n, prefix, pinned)[n := meta[n].(pinned := pinned)]
            else PinFirst(meta, n, prefix, pinned)
    ensures FlippedKeys(meta, n + 1, prefix, pinned)
         == FlippedKeys(meta, n, prefix, pinned) + (if Flips(meta[n], prefix, pinned) then {meta[n].urlKey} else {})
  {}

  lemma PinStart(meta: seq<DocMeta>, prefix: string, pinned: bool)
    ensures PinFirst(meta, 0, prefix, pinned) == meta
    ensures FlippedKeys(meta, 0, prefix, pinned) == {}
  {}

  lemma FreshKey(dim: nat, p: Parts, n: nat, prefix: string, pinned: bool)
    requires Aligned(dim, p) && n < |p.meta|
    ensures p.meta[n].urlKey !in FlippedKeys(p.meta, n, prefix, pinned)
  {
    forall i | 0 <= i < n ensures p.meta[i].urlKey != p.meta[n].urlKey {
      assert p.urlIndex[p.meta[i].urlKey] == i;
    }
  }

  lemma PinRows(dim: nat, p: Parts, q: Parts, prefix: string, pinned: bool)
    requires Aligned(dim, p) && q == p.(meta := PinFirst(p.meta, |p.meta|, prefix, pinned))
    ensures Aligned(dim, q) && ViewOf(dim, q) == Pinned(ViewOf(dim, p), prefix, pinned)
  {
    hide VectorAt, Cells, ViewOf;
    ViewAt(dim, p);
    forall k | k in p.urlIndex
      ensures Row(dim, q, q.urlIndex[k]) == PinEntry(Row(dim, p, p.urlIndex[k]), prefix, pinned)
    {}
    ViewIs(dim, q, Pinned(ViewOf(dim, p), prefix, pinned));
  }

  /** The flipped rows are the links that changed. */
  lemma FlippedLinks(dim: nat, p: Parts, prefix: string, pinned: bool)
    requires Aligned(dim, p)
    ensures var v := ViewOf(dim, p);
      FlippedKeys(p.meta, |p.meta|, prefix, pinned) == set k | k in v && Pinned(v, prefix, pinned)[k] != v[k]
  {
    hide VectorAt, Cells, ViewOf;
    ViewAt(dim, p);
    forall k | k in p.urlIndex
      ensures k in FlippedKeys(p.meta, |p.meta|, prefix, pinned) <==> Flips(p.meta[p.urlIndex[k]], prefix, pinned)
    {}
  }

  // ---- what each array update does to the rows ----

  lemma ReplaceRow(dim: nat, p: Parts, q: Parts, id: nat, e: Entry)
    requires Aligned(dim, p) && id < |p.meta| && |e.vector| == dim
    requires e.meta.urlKey == p.meta[id].urlKey
    requires q == Parts(p.meta[id := e.meta], SetVector(p.dense, dim, id, |p.meta|, e.vector),
                        p.docTerms[id := e.terms], p.edges[id := e.edges], p.urlIndex)
    ensures Aligned(dim, q) && ViewOf(dim, q) == ViewOf(dim, p)[e.meta.urlKey := e]
  {
    hide Cells, VectorAt, SetVector;
    forall k | k in q.urlIndex
      ensures Row(dim, q, q.urlIndex[k]) == if k == e.meta.urlKey then e else Row(dim, p, p.urlIndex[k])
    {
      SetVectorRows(p.dense, dim, id, |p.meta|, e.vector, q.urlIndex[k]);
    }
  }

  lemma AppendKeepsAligned(dim: nat, p: Parts, q: Parts, e: Entry)
    requires Aligned(dim, p) && |e.vector| == dim && e.meta.urlKey !in p.urlIndex
    requires q == Parts(p.meta + [e.meta], p.dense + e.vector, p.docTerms + [e.terms], p.edges + [e.edges],
                        p.urlIndex[e.meta.urlKey := |p.meta|])
    ensures Aligned(dim, q)
  {
    hide Cells, VectorAt;
    AppendRows(p.dense, dim, |p.meta|, e.vector, |p.meta|);
  }

  lemma AppendRow(dim: nat, p: Parts, q: Parts, e: Entry)
    requires Aligned(dim, p) && |e.vector| == dim && e.meta.urlKey !in p.urlIndex
    requires q == Parts(p.meta + [e.meta], p.dense + e.vector, p.docTerms + [e.terms], p.edges + [e.edges],
                        p.urlIndex[e.meta.urlKey := |p.meta|])
    ensures Aligned(dim, q) && ViewOf(dim, q) == ViewOf(dim, p)[e.meta.urlKey := e]
  {
    hide Cells, VectorAt, ViewOf;
    ViewAt(dim, p);
    AppendKeepsAligned(dim, p, q, e);
    forall k | k in q.urlIndex
      ensures Row(dim, q, q.urlIndex[k]) == if k == e.meta.urlKey then e else Row(dim, p, p.urlIndex[k])
    {
      AppendRows(p.dense, dim, |p.meta|, e.vector, q.urlIndex[k]);
    }
    hide Row;
    ViewIs(dim, q, ViewOf(dim, p)[e.meta.urlKey := e]);
  }

  /** The vector blob after the last row moved into row `id`. */
  function MovedDense(dim: nat, p: Parts, id: nat): (r: seq<real>)
    requires id < |p.meta| && |p.dense| == Cells(|p.meta|, dim)
    ensures |r| == Cells(|p.meta| - 1, dim)
  {
    var last := |p.meta| - 1;
    RowFits(last, last + 1, dim);
    (if id == last then p.dense
     else SetVector(p.dense, dim, id, last + 1, VectorAt(p.dense, dim, last, last + 1)))[..Cells(last, dim)]
  }

  lemma MovedDenseRows(dim: nat, p: Parts, id: nat, j: nat)
    requires id < |p.meta| && |p.dense| == Cells(|p.meta|, dim) && j < |p.meta| - 1
    ensures VectorAt(MovedDense(dim, p, id), dim, j, |p.meta| - 1)
         == VectorAt(p.dense, dim, if j == id then |p.meta| - 1 else j, |p.meta|)
  {
    hide SetVector, VectorAt, Cells;
    var last := |p.meta| - 1;
    if id == last {
      TruncateRows(p.dense, dim, last + 1, j);
    } else {
      var v := VectorAt(p.dense, dim, last, last + 1);
      TruncateRows(SetVector(p.dense, dim, id, last + 1, v), dim, last + 1, j);
      SetVectorRows(p.dense, dim, id, last + 1, v, j);
    }
  }

  function WithoutRow(dim: nat, p: Parts, id: nat): Parts
    requires id < |p.meta| && |p.docTerms| == |p.meta| && |p.edges| == |p.meta| && |p.dense| == Cells(|p.meta|, dim)
  {
    var last := |p.meta| - 1;
    var kept := p.urlIndex - {p.meta[id].urlKey};
    Parts(SwapRemove(p.meta, id), MovedDense(dim, p, id), SwapRemove(p.docTerms, id), SwapRemove(p.edges, id),
          if id == last then kept else kept[p.meta[last].urlKey := id])
  }

  lemma RemoveAligned(dim: nat, p: Parts, id: nat)
    requires Aligned(dim, p) && id < |p.meta|
    ensures Aligned(dim, WithoutRow(dim, p, id))
  {
    hide MovedDense, Cells;
  }

  /** Every surviving key still finds its own row. */
  lemma RemovedLookup(dim: nat, p: Parts, id: nat, k: UrlKey)
    requires Aligned(dim, p) && id < |p.meta| && Aligned(dim, WithoutRow(dim, p, id))
    requires k in p.urlIndex && k != p.meta[id].urlKey
    ensures var q := WithoutRow(dim, p, id);
      k in q.urlIndex && Row(dim, q, q.urlIndex[k]) == Row(dim, p, p.urlIndex[k])
  {
    hide MovedDense, VectorAt, Cells;
    var q := WithoutRow(dim, p, id);
    MovedDenseRows(dim, p, id, q.urlIndex[k]);
  }

  lemma RemovedKeys(dim: nat, p: Parts, id: nat)
    requires Aligned(dim, p) && id < |p.meta|
    ensures WithoutRow(dim, p, id).urlIndex.Keys == p.urlIndex.Keys - {p.meta[id].urlKey}
  {
    hide MovedDense, Cells;
    assert p.meta[|p.meta| - 1].urlKey in p.urlIndex;
  }

  lemma RemovedView(dim: nat, p: Parts, id: nat)
    requires Aligned(dim, p) && id < |p.meta| && Aligned(dim, WithoutRow(dim, p, id))
    ensures ViewOf(dim, WithoutRow(dim, p, id)) == Removed(ViewOf(dim, p), p.meta[id].urlKey)
  {
    var q := WithoutRow(dim, p, id);
    RemovedKeys(dim, p, id);
    ViewAt(dim, p);
    hide Row, WithoutRow, Aligned, ViewOf;
    forall k | k in q.urlIndex ensures Row(dim, q, q.urlIndex[k]) == Row(dim, p, p.urlIndex[k]) {
      RemovedLookup(dim, p, id, k);
    }
    ViewIs(dim, q, Removed(ViewOf(dim, p), p.meta[id].urlKey));
  }

  lemma RowsMoved(dim: nat, p: Parts, id: nat, j: nat)
    requires Aligned(dim, p) && id < |p.meta| && j < |p.meta| - 1
    requires Aligned(dim, WithoutRow(dim, p, id))
    ensures var q := WithoutRow(dim, p, id);
      |q.meta| == |p.meta| - 1 && Row(dim, q, j) == Row(dim, p, if j == id then |p.meta| - 1 else j)
  {
    hide MovedDense, VectorAt, Cells;
    MovedDenseRows(dim, p, id, j);
  }

  lemma RemoveRow(dim: nat, p: Parts, id: nat)
    requires Aligned(dim, p) && id < |p.meta|
    ensures var q := WithoutRow(dim, p, id);
      && Aligned(dim, q)
      && Rows(dim, q) == SwapRemove(Rows(dim, p), id)
      && ViewOf(dim, q) == Removed(ViewOf(dim, p), p.meta[id].urlKey)
  {
    RemoveAligned(dim, p, id);
    RemovedView(dim, p, id);
    var q := WithoutRow(dim, p, id);
    forall j | 0 <= j < |p.meta| - 1
      ensures Row(dim, q, j) == Row(dim, p, if j == id then |p.meta| - 1 else j)
    {
      RowsMoved(dim, p, id, j);
    }
    assert |q.meta| == |p.meta| - 1 by {
      hide Row, Aligned, MovedDense;
    }
    hide Row, ViewOf, Removed, WithoutRow, Aligned, SwapRemove;
    RowsSwap(dim, p, q, id);
  }

  lemma RowsSwap(dim: nat, p: Parts, q: Parts, id: nat)
    requires Aligned(dim, p) && Aligned(dim, q) && id < |p.meta| && |q.meta| == |p.meta| - 1
    requires forall j :: 0 <= j < |q.meta| ==> Row(dim, q, j) == Row(dim, p, if j == id then |p.meta| - 1 else j)
    ensures Rows(dim, q) == SwapRemove(Rows(dim, p), id)
  {
    var r, s := Rows(dim, q), Rows(dim, p);
    assert |r| == |s| - 1;
    hide Row, SwapRemove;
    forall j | 0 <= j < |r| ensures r[j] == s[if j == id then |s| - 1 else j] {}
    hide Aligned, Rows;
  }
}
