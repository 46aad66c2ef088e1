/** The lifecycle of one index: opened or mutable, with a snapshot for searches. */
module Lifecycle {
  import opened Common
  import opened Documents
  import opened Builder
  import opened Sparse
  import opened Rebuild
  import opened Platform
  import opened IndexFormat
  import opened Images
  import opened Facade
  import opened Ingest
  import opened Refresh
  import opened RefreshOutcome

  // ---- term counts stay within what postings hold ----

  ghost predicate EntryWithin(e: Entry) { forall t :: t in e.terms ==> Count(e.terms, t) <= MAX_TF }

  ghost predicate ViewWithin(v: View) { forall k :: k in v ==> EntryWithin(v[k]) }

  lemma WithinView(dim: nat, p: Parts)
    requires Aligned(dim, p)
    ensures WithinCounts(p.docTerms) <==> ViewWithin(ViewOf(dim, p))
  {
    ViewAt(dim, p);
    var v := ViewOf(dim, p);
    hide ViewOf, VectorAt, Cells, Count;
    if ViewWithin(v) {
      forall d, t | 0 <= d < |p.docTerms| && t in p.docTerms[d] ensures Count(p.docTerms[d], t) <= MAX_TF {
        var k := p.meta[d].urlKey;
        assert p.urlIndex[k] == d && v[k].terms == p.docTerms[d] && EntryWithin(v[k]);
      }
    }
    if WithinCounts(p.docTerms) {
      forall k | k in v ensures EntryWithin(v[k]) {
        assert v[k].terms == p.docTerms[p.urlIndex[k]];
      }
    }
  }

  lemma CappedWithin(run: Run, p: Page)
    requires p.descriptor.Some?
    ensures EntryWithin(EntryFor(run.setup, ToDocument(run, p)))
  {
    var terms := p.descriptor.value.terms;
    forall t | t in terms ensures Count(terms, t) <= MAX_TF {
      CountBound(terms, t);
    }
  }

  lemma {:induction false} FlushWithin(run: Run, t: Tally, pending: seq<Page>)
    requires AllIndexable(pending) && ViewWithin(t.0)
    ensures ViewWithin(Flush(run, t, pending).0)
  {
    if pending != [] {
      var init, p := pending[..|pending| - 1], pending[|pending| - 1];
      assert p in pending && forall w :: w in init ==> w in pending;
      FlushWithin(run, t, init);
      CappedWithin(run, p);
      hide EntryFor, ToDocument;
    }
  }

  lemma {:induction false} FeedWithin(run: Run, t: Tally, pages: seq<Page>, batch: nat)
    requires ViewWithin(t.0)
    ensures ViewWithin(FeedAll(run, t, pages, batch).0.0)
  {
    if pages != [] {
      var n := |pages| - 1;
      FeedWithin(run, t, pages[..n], batch);
      var q := FeedAll(run, t, pages[..n], batch);
      if pages[n].descriptor.Some? {
        FlushWithin(run, q.0, q.1 + [pages[n]]);
      }
      hide Flush, ViewWithin, SameHash;
    }
  }

  lemma {:induction false} EvictedWithin(job: Job, v: View, urls: seq<Url>)
    requires ViewWithin(v)
    ensures ViewWithin(Evicted(job, v, urls).0)
  {
    hide EntryWithin;
    if urls != [] {
      EvictedWithin(job, v, urls[..|urls| - 1]);
    }
  }

  lemma TouchWithin(v: View, k: UrlKey, now: nat)
    requires ViewWithin(v)
    ensures ViewWithin(Touched(v, k, now))
  {
    if k in v {
      assert EntryWithin(v[k].(meta := v[k].meta.(fetchedAtMs := now)));
    }
  }

  lemma UpsertWithin(v: View, k: UrlKey, e: Entry)
    requires ViewWithin(v) && EntryWithin(e)
    ensures ViewWithin(Upserted(v, k, e).0)
  {
    assert forall b :: EntryWithin(e.(meta := e.meta.(pinned := b)));
    hide EntryWithin;
  }

  lemma {:induction false} AppliedWithin(job: Job, pinned: set<UrlKey>, w: Work, urls: seq<Url>)
    requires AllIndexable(w.pending) && ViewWithin(w.view)
    ensures ViewWithin(AppliedAll(job, pinned, w, urls).view)
  {
    hide EntryWithin, Touched;
    if urls != [] {
      var init, url := urls[..|urls| - 1], urls[|urls| - 1];
      AppliedWithin(job, pinned, w, init);
      TouchWithin(AppliedAll(job, pinned, w, init).view, KeyOfUrl(job, url), job.run.now);
    }
  }

  lemma {:induction false} TakenWithin(job: Job, r: Standing, pages: seq<Page>)
    requires AllIndexable(pages) && ViewWithin(r.0)
    ensures ViewWithin(TakenAll(job, r, pages).0)
  {
    hide ViewWithin, Touched, Upserted, EntryFor, ToDocument;
    if pages != [] {
      var init, p := pages[..|pages| - 1], pages[|pages| - 1];
      assert p in pages && forall x :: x in init ==> x in pages;
      TakenWithin(job, r, init);
      var v, k, e := TakenAll(job, r, init).0, KeyOfPage(job.run, p), EntryOfPage(job, p);
      CappedWithin(job.run, p);
      UpsertWithin(v, k, e);
      TouchWithin(Upserted(v, k, e).0, k, job.run.now);
    }
  }

  lemma RefreshWithin(job: Job, v: View, meta: seq<DocMeta>, order: seq<Url>)
    requires ViewWithin(v)
    ensures ViewWithin(RefreshedBy(job, v, meta, order).0)
  {
    hide ViewWithin, Evicted, AppliedAll, TakenAll, PlannedUrls, PinnedKeys;
    EvictedWithin(job, v, PlannedUrls(job, meta, AgeOut));
    AppliedWithin(job, PinnedKeys(meta), Begun(job, v, meta), order);
    var w := AppliedAll(job, PinnedKeys(meta), Begun(job, v, meta), order);
    TakenWithin(job, (w.view, w.report), w.pending);
  }

  ghost function PinnedContents(c: map<UrlKey, Content>, prefix: string, pinned: bool): map<UrlKey, Content> {
    map k | k in c :: if prefix <= c[k].meta.url then c[k].(meta := c[k].meta.(pinned := pinned)) else c[k]
  }

  class LinkIndex {
    const libs: Libraries
    const embedder: Embedder
    var openedIndex: Option<Index>
    var builder: IndexBuilder?
    var cached: Option<Index>

    /** Exactly one of the opened image and the builder is there; a snapshot is of the builder as
        it is now. */
    ghost predicate Valid()
      reads this, builder
    {
      && LibrariesOk(libs) && EmbedderOk(embedder)
      && (openedIndex.Some? <==> builder == null)
      && (openedIndex.Some? ==>
            cached == None && Parallel(openedIndex.value.parts)
            && PostingsAligned(openedIndex.value.parts.bm25) && Derived(libs, openedIndex.value))
      && (builder != null ==>
            builder.Valid() && BuilderFits()
            && (cached.Some? ==> SnapshotOf(cached.value, builder.setup, builder.Contents())))
    }

    /** The builder is one for this embedder. */
    ghost predicate BuilderFits()
      reads this, builder
      requires builder != null
    {
      var s := builder.setup;
      s == SetupFor(embedder, embedder.dim, s.metric, embedder.id, s.k1, s.b)
    }

    /** The opened image is one this crate could have written for this embedder. */
    ghost predicate Sound()
      reads this, builder
      requires Valid()
    {
      && (openedIndex.Some? ==> GoodParts(openedIndex.value.parts) && Compatible(openedIndex.value, embedder))
      && (builder != null ==> ViewWithin(builder.AsMap()))
    }

    /** The links shown: metadata, vector, edges and term counts by key. */
    ghost function Shown(): map<UrlKey, Content>
      reads this, builder
      requires Valid() && Sound()
    {
      if builder == null then ContentsShown(openedIndex.value.parts) else ContentsOf(builder.AsMap())
    }

    /** An empty index in memory. */
    constructor InMemory(e: Embedder, l: Libraries)
      requires EmbedderOk(e) && LibrariesOk(l)
      ensures Valid() && Sound() && Shown() == map[] && embedder == e && libs == l && builder != null && fresh(builder)
    {
      embedder, libs := e, l;
      openedIndex, cached := None, None;
      var b := new IndexBuilder(SetupFor(e, e.dim, e.metric, e.id, DEFAULT_K1, DEFAULT_B));
      builder := b;
    }

    /** The search-ready index: the opened one, or a snapshot built once and kept until the next
        mutation. It shows exactly the current links, and can be searched. */
    method ReadIndex() returns (x: Index)
      requires Valid() && Sound()
      modifies this`cached
      ensures Valid() && Sound() && Shown() == old(Shown())
      ensures Usable(libs, x) && ContentsShown(x.parts) == Shown()
    {
      if openedIndex.Some? {
        return openedIndex.value;
      }
      ghost var p := builder.Contents();
      WithinView(builder.setup.dim, p);
      if cached.None? {
        var snapshot := Snapshot(builder);
        cached := Some(snapshot);
      }
      x := cached.value;
      SnapshotShows(libs, x, builder.setup, p);
    }

    /** Make sure there is a builder, taking over the opened index on the first mutation. */
    method MaterializeBuilder()
      requires Valid() && Sound()
      modifies this`openedIndex, this`builder, this`cached
      ensures Valid() && Sound() && Shown() == old(Shown())
      ensures builder != null && openedIndex == None && cached == None
      ensures old(builder) != null ==> builder == old(builder)
      ensures old(builder) == null ==> fresh(builder)
    {
      if builder == null {
        var x := openedIndex.value.parts;
        var b := IntoBuilder(x, embedder);
        PartsAlignedIff(x);
        GoodTermsWithinCounts(x.bm25, |x.meta|);
        WithinView(x.dim, BuilderParts(x));
        openedIndex := None;
        builder := b;
      }
      cached := None;
    }

    /** Replace everything by an image; on an error nothing changes. The new state is sound exactly
        when the image satisfies what parsing leaves unchecked. */
    method ReloadFromBytes(image: FileImage, aligned: bool) returns (r: Result<(), Error>)
      requires Valid()
      modifies this`openedIndex, this`builder, this`cached
      ensures Valid()
      ensures r.Ok? <==> ParseImage(libs, image).Ok? && ParseImage(libs, image).value.dim == embedder.dim
                         && ParseImage(libs, image).value.embedderId == embedder.id
      ensures r.Err? ==> openedIndex == old(openedIndex) && builder == old(builder) && cached == old(cached)
      ensures r.Ok? ==> openedIndex.Some? && openedIndex.value.parts == ParseImage(libs, image).value
      ensures r.Ok? ==> (Sound() <==> GoodParts(ParseImage(libs, image).value))
      ensures r.Ok? && Sound() ==> Shown() == ContentsShown(ParseImage(libs, image).value)
    {
      hide LibrariesOk, ParseImage, Derived, Parallel, GoodParts, SnapshotOf, EmbedderOk, PostingsAligned;
      var x := Open(libs, image, aligned, embedder);
      if x.Err? {
        return Err(x.error);
      }
      openedIndex := Some(x.value);
      builder := null;
      cached := None;
      r := Ok(());
    }

    /** The contents fit the widths of the format, or are in an image already. */
    ghost predicate Stores()
      reads this, builder
      requires Valid()
    {
      && (builder != null ==> FitsFormat(libs, builder.setup.dim, builder.Contents()))
      && (openedIndex.Some? && openedIndex.value.image.None? ==> Storable(libs, openedIndex.value.parts))
    }

    /** The image a save would write: an opened index gives back its own image, a builder a new one.
        Whoever loads it sees the same links. */
    method ToBytes() returns (image: FileImage)
      requires Valid() && Sound()
      ensures openedIndex.Some? && openedIndex.value.image.Some? ==> image == openedIndex.value.image.value
      ensures Stores() ==>
        && ParseImage(libs, image).Ok? && GoodParts(ParseImage(libs, image).value)
        && ContentsShown(ParseImage(libs, image).value) == Shown()
    {
      if openedIndex.Some? {
        ghost var x := openedIndex.value;
        if Stores() && x.image.None? {
          ParseSerializedIff(libs, x.parts);
        }
        return SerializeIndex(libs, openedIndex.value);
      }
      image := SerializeBuilder(libs, builder);
    }

    /** Replace the builder and its snapshot by one image of them. The links shown stay the same;
        if the image cannot be read back the builder stays. */
    method Freeze(aligned: bool) returns (r: Result<(), Error>)
      requires Valid() && Sound()
      modifies this`openedIndex, this`builder, this`cached
      ensures Valid()
      ensures r.Ok? ==> builder == null
      ensures r.Err? ==> builder == old(builder) && openedIndex == old(openedIndex) && cached == old(cached)
      ensures old(Stores()) ==> r.Ok? && Sound() && Shown() == old(Shown())
    {
      if builder == null {
        return Ok(());
      }
      var image := SerializeBuilder(libs, builder);
      hide ParseImage;
      var x := FromBytes(libs, image, aligned);
      hide Derived, Parallel, GoodParts, ContentsShown, SnapshotOf, FitsFormat, ViewWithin, ContentsOf, EmbedderOk;
      if x.Err? {
        return Err(Format(x.error));
      }
      openedIndex := Some(x.value);
      builder := null;
      cached := None;
      r := Ok(());
    }

    /** Pin or unpin by URL prefix. */
    method SetPinned(prefix: string, pinned: bool) returns (changed: nat)
      requires Valid() && Sound()
      modifies this, builder
      ensures Valid() && Sound() && Shown() == PinnedContents(old(Shown()), prefix, pinned)
      ensures changed == |set k | k in old(Shown()) && Shown()[k] != old(Shown())[k]|
    {
      MaterializeBuilder();
      ghost var v := builder.AsMap();
      changed := builder.SetPinnedPrefix(prefix, pinned);
      PinContents(v, prefix, pinned);
      PinChanges(v, prefix, pinned);
    }

    /** Ingest a stream of pages: what was shown, plus the pages taken in batches. Even a run that
        ends in an error leaves the index whole. */
    method IngestFrom<E>(items: seq<Result<Page, E>>, embedBatch: nat, pin: bool, now: nat, embed: string -> seq<real>)
      returns (r: Result<Report, E>)
      requires Valid() && Sound() && forall t :: |embed(t)| == embedder.dim
      modifies this, builder
      ensures Valid() && Sound() && builder != null
      ensures var run := Run(builder.setup, embed, now, pin);
        var batch := if embedBatch < 1 then 1 else embedBatch;
        exists v :: ContentsOf(v) == old(Shown())
          && (r.Ok? ==> (builder.AsMap(), r.value.counts) == Ingested(run, (v, NONE), Arrived(items), batch))
          && (r.Err? ==> builder.AsMap() == FeedAll(run, (v, NONE), Arrived(items), batch).0.0)
    {
      hide LibrariesOk, Parallel, PostingsAligned, Derived, SnapshotOf, GoodParts, ViewWithin, ContentsShown;
      MaterializeBuilder();
      var run := Run(builder.setup, embed, now, pin);
      ghost var v := builder.AsMap();
      ghost var batch := if embedBatch < 1 then 1 else embedBatch;
      FeedWithin(run, (v, NONE), Arrived(items), batch);
      ghost var queue := FeedAll(run, (v, NONE), Arrived(items), batch);
      FlushWithin(run, queue.0, queue.1);
      hide FeedAll, Flush, Arrived, ViewWithin, ContentsOf;
      r := IngestInto(builder, run, items, embedBatch);
      if r.Ok? && r.value.counts.added + r.value.counts.updated > 0 {
        cached := None;
      }
    }

    /** Refresh the links that are due. The ghost results are the rows it found and the order in
        which the fetches completed, which does not matter when stored URLs read back to their keys. */
    method RefreshWith(opts: Options, now: nat, embed: string -> seq<real>, reparse: string -> Option<Url>,
                       answer: Url -> Answer)
      returns (report: RefreshReport, ghost rows: Parts, ghost order: seq<Url>)
      requires Valid() && Sound() && forall t :: |embed(t)| == embedder.dim
      modifies this, builder
      ensures Valid() && Sound() && builder != null
      ensures Aligned(builder.setup.dim, rows) && ContentsOf(ViewOf(builder.setup.dim, rows)) == old(Shown())
      ensures var job, v := Job(Run(builder.setup, embed, now, false), opts, reparse, answer),
          ViewOf(builder.setup.dim, rows);
        && PossibleOrder(job, rows.meta, order)
        && (builder.AsMap(), report) == RefreshedBy(job, v, rows.meta, order)
        && (Rekeys(job, v) ==> builder.AsMap() == RefreshedView(job, v) && ReportFor(job, v, report))
    {
      hide LibrariesOk, Parallel, PostingsAligned, Derived, SnapshotOf, GoodParts, ViewWithin, ContentsShown;
      MaterializeBuilder();
      rows := builder.Contents();
      var job := Job(Run(builder.setup, embed, now, false), opts, reparse, answer);
      hide RefreshedBy, RefreshedView, ReportFor, Rekeys, ContentsOf, ViewOf, Aligned, PossibleOrder, EmbedderOk;
      report, order := RefreshKept(builder, job);
      if report.refreshed + report.removed > 0 {
        cached := None;
      }
    }
  }

  /** The refresh of a builder whose term counts are within what postings hold. */
  method RefreshKept(builder: IndexBuilder, job: Job) returns (report: RefreshReport, ghost order: seq<Url>)
    requires builder.Valid() && builder.setup == job.run.setup && RunOk(job.run) && !job.run.pin
    requires ViewWithin(builder.AsMap())
    modifies builder
    ensures builder.Valid() && ViewWithin(builder.AsMap()) && PossibleOrder(job, old(builder.meta), order)
    ensures var v := old(builder.AsMap());
      && (builder.AsMap(), report) == RefreshedBy(job, v, old(builder.meta), order)
      && (Rekeys(job, v) ==> builder.AsMap() == RefreshedView(job, v) && ReportFor(job, v, report))
  {
    ghost var v, rows := builder.AsMap(), builder.Contents();
    hide RefreshedBy, RefreshedView, ReportFor, Rekeys, ViewOf, Aligned, PossibleOrder, ViewWithin, RunOk;
    report, order := RefreshInto(builder, job);
    RefreshWithin(job, v, rows.meta, order);
    if Rekeys(job, v) {
      RefreshIsDetermined(job, builder.setup.dim, rows, order);
    }
  }

  lemma PinContents(v: View, prefix: string, pinned: bool)
    ensures ContentsOf(Pinned(v, prefix, pinned)) == PinnedContents(ContentsOf(v), prefix, pinned)
    ensures ViewWithin(v) ==> ViewWithin(Pinned(v, prefix, pinned))
  {
    if ViewWithin(v) {
      forall k | k in v ensures EntryWithin(PinEntry(v[k], prefix, pinned)) {}
    }
  }

  lemma PinChanges(v: View, prefix: string, pinned: bool)
    ensures var v', c, c' := Pinned(v, prefix, pinned), ContentsOf(v), ContentsOf(Pinned(v, prefix, pinned));
      (set k | k in v && v'[k] != v[k]) == (set k | k in c && c'[k] != c[k])
  {
    forall k | k in v ensures PinEntry(v[k], prefix, pinned) != v[k]
      <==> ContentOf(PinEntry(v[k], prefix, pinned)) != ContentOf(v[k])
    {}
    hide PinEntry, ContentOf;
  }

  method Snapshot(builder: IndexBuilder) returns (x: Index)
    requires builder.Valid()
    ensures SnapshotOf(x, builder.setup, builder.Contents())
  {
    var m := Build(builder.docTerms, builder.setup.k1, builder.setup.b);
    x := Assemble(PartsForImage(builder.setup, builder.Contents(), m), builder.urlIndex, None);
  }

  method IntoBuilder(x: ImageParts, e: Embedder) returns (b: IndexBuilder)
    requires EmbedderOk(e) && GoodParts(x)
    ensures b.Valid() && fresh(b) && b.Contents() == BuilderParts(x)
    ensures b.setup == SetupFor(e, x.dim, x.metric, x.embedderId, x.bm25.k1, x.bm25.b)
  {
    PartsAlignedIff(x);
    AlignedInRange(x.bm25);
    var terms := ToDocTerms(x.bm25);
    b := new IndexBuilder.FromParts(SetupFor(e, x.dim, x.metric, x.embedderId, x.bm25.k1, x.bm25.b),
                                    Parts(x.meta, x.dense, terms.value, x.edges, UrlIndexOf(x.meta)));
  }

  /** Serialize a builder. */
  method SerializeBuilder(libs: Libraries, builder: IndexBuilder) returns (image: FileImage)
    requires LibrariesOk(libs) && builder.Valid()
    ensures FitsFormat(libs, builder.setup.dim, builder.Contents()) && ViewWithin(builder.AsMap()) ==>
      var parsed := ParseImage(libs, image);
      && parsed.Ok? && GoodParts(parsed.value) && ContentsShown(parsed.value) == ContentsOf(builder.AsMap())
      && parsed.value.dim == builder.setup.dim && parsed.value.embedderId == builder.setup.embedderId
  {
    var setup, p := builder.setup, builder.Contents();
    var m := Build(p.docTerms, setup.k1, setup.b);
    image := SerializeSections(libs, PartsForImage(setup, p, m));
    if FitsFormat(libs, setup.dim, p) && ViewWithin(builder.AsMap()) {
      ReopenedShows(libs, setup, p, m);
    }
  }

  lemma ReopenedShows(libs: Libraries, setup: Setup, p: Parts, m: Bm25)
    requires LibrariesOk(libs) && Aligned(setup.dim, p) && Indexes(m, p.docTerms, setup.k1, setup.b)
    requires FitsFormat(libs, setup.dim, p) && ViewWithin(ViewOf(setup.dim, p))
    ensures var parsed := ParseImage(libs, SerializeSections(libs, PartsForImage(setup, p, m)));
      && parsed.Ok? && GoodParts(parsed.value) && ContentsShown(parsed.value) == ContentsIn(setup.dim, p)
      && parsed.value.dim == setup.dim && parsed.value.embedderId == setup.embedderId
  {
    BuilderRoundTripIff(libs, setup, p, m);
    BuiltIsGood(m, p.docTerms, setup.k1, setup.b);
    NarrowedIsGood(libs, m, |p.docTerms|);
    UrlIndexAgrees(setup.dim, p);
    WithinView(setup.dim, p);
    hide LibrariesOk, ParseImage, SerializeSections, ViewOf, Indexes, GoodTerms, FitsFormat, ViewWithin, WithinCounts,
      BuilderParts, Bm25Codec.Narrowed, UrlIndexOf, DistinctKeys;
  }
}
