/** TTL refresh: age eviction, conditional fetches completing in any order, batched upserts. */
module Refresh {
  import opened Common
  import opened Documents
  import opened Builder
  import opened Ingest

  datatype Options = Options(
    urls: Option<set<UrlKey>>,
    ttlMs: nat,
    maxAgeMs: Option<nat>,
    evictUnreachable: bool,
    concurrency: nat)

  /** What one conditional fetch comes to. */
  datatype Answer =
    | NotModified
    | Changed(kind: nat, etag: Option<string>, contentHash: nat, descriptor: Option<Descriptor>)
    | Gone
    | Transient

  datatype Plan = Leave | AgeOut | Fetch

  function Age(now: nat, fetchedAtMs: nat): nat { if fetchedAtMs <= now then now - fetchedAtMs else 0 }

  /** What a refresh intends for a record, before any fetch. */
  function PlanFor(opts: Options, now: nat, m: DocMeta): Plan {
    var age := Age(now, m.fetchedAtMs);
    if opts.urls.Some? && m.urlKey !in opts.urls.value then Leave
    else if !m.pinned && opts.maxAgeMs.Some? && age > opts.maxAgeMs.value then AgeOut
    else if age >= opts.ttlMs then Fetch
    else Leave
  }

  /** One refresh: how records are made, the options, the parser of stored URLs, and what each
      fetch would answer. */
  datatype Job = Job(run: Run, opts: Options, reparse: string -> Option<Url>, answer: Url -> Answer)

  function KeyOfUrl(job: Job, url: Url): UrlKey { job.run.setup.key(url) }

  /** The page behind a changed answer. */
  function PageFor(url: Url, a: Answer): Page
    requires a.Changed?
  {
    Page(url, a.kind, a.contentHash, a.etag, a.descriptor)
  }

  /** A changed page with content is set aside for embedding. */
  predicate WaitsFor(job: Job, url: Url) {
    job.answer(url).Changed? && job.answer(url).descriptor.Some?
  }

  datatype RefreshReport =
    RefreshReport(refreshed: nat, same: nat, removed: nat, failed: nat, pages: seq<PageOutcome>)
  {
    function Total(): nat { refreshed + same + removed + failed }
  }

  function PageOf(job: Job, url: Url, change: PageChange): PageOutcome { OutcomeOf(job.run, PlainPage(url), change) }

  function PlainPage(url: Url): Page { Page(url, 0, 0, None, None) }

  function CountSame(job: Job, url: Url, r: RefreshReport): RefreshReport {
    r.(same := r.same + 1, pages := r.pages + [PageOf(job, url, WasUnchanged)])
  }

  function CountRefreshed(job: Job, url: Url, r: RefreshReport): RefreshReport {
    r.(refreshed := r.refreshed + 1, pages := r.pages + [PageOf(job, url, WasUpdated)])
  }

  function CountRemoved(job: Job, url: Url, r: RefreshReport): RefreshReport {
    r.(removed := r.removed + 1, pages := r.pages + [PageOf(job, url, WasRemoved)])
  }

  function CountFailed(r: RefreshReport): RefreshReport { r.(failed := r.failed + 1) }

  // ---- a refresh as a function of the order in which its fetches complete ----

  /** The URLs of the records planned for, in row order; a stored URL that does not parse is left out. */
  function PlannedUrls(job: Job, meta: seq<DocMeta>, plan: Plan): seq<Url> {
    if meta == [] then []
    else
      var rest, d := PlannedUrls(job, meta[..|meta| - 1], plan), meta[|meta| - 1];
      if PlanFor(job.opts, job.run.now, d) == plan && job.reparse(d.url).Some?
      then rest + [job.reparse(d.url).value] else rest
  }

  /** The keys pinned at the start. */
  function PinnedKeys(meta: seq<DocMeta>): set<UrlKey> {
    set i | 0 <= i < |meta| && meta[i].pinned :: meta[i].urlKey
  }

  /** Age eviction: the links left, and how many went. */
  function Evicted(job: Job, v: View, urls: seq<Url>): (View, nat) {
    if urls == [] then (v, 0)
    else
      var (w, n) := Evicted(job, v, urls[..|urls| - 1]);
      var k := KeyOfUrl(job, urls[|urls| - 1]);
      (Removed(w, k), if k in w then n + 1 else n)
  }

  /** Index and report so far, and the changed pages waiting to be embedded. */
  datatype Work = Work(view: View, report: RefreshReport, pending: seq<Page>)

  /** One completed fetch. */
  function Applied(job: Job, pinned: set<UrlKey>, w: Work, url: Url): (r: Work)
    requires AllIndexable(w.pending)
    ensures AllIndexable(r.pending)
  {
    var k := KeyOfUrl(job, url);
    match job.answer(url)
    case NotModified => w.(view := Touched(w.view, k, job.run.now), report := CountSame(job, url, w.report))
    case Changed(_, _, _, descriptor) =>
      if descriptor.None? then w.(view := Touched(w.view, k, job.run.now), report := CountSame(job, url, w.report))
      else w.(pending := w.pending + [PageFor(url, job.answer(url))])
    case Gone =>
      if job.opts.evictUnreachable && k !in pinned && k in w.view
      then w.(view := Removed(w.view, k), report := CountRemoved(job, url, w.report))
      else w.(report := CountFailed(w.report))
    case Transient => w.(report := CountFailed(w.report))
  }

  /** The fetches that have completed, in that order. */
  function AppliedAll(job: Job, pinned: set<UrlKey>, w: Work, urls: seq<Url>): (r: Work)
    requires AllIndexable(w.pending)
    ensures AllIndexable(r.pending)
  {
    if urls == [] then w
    else Applied(job, pinned, AppliedAll(job, pinned, w, urls[..|urls| - 1]), urls[|urls| - 1])
  }

  type Standing = (View, RefreshReport)

  function EntryOfPage(job: Job, p: Page): Entry
    requires p.descriptor.Some?
  {
    EntryFor(job.run.setup, ToDocument(job.run, p))
  }

  /** One changed page: rewritten, or found identical and touched. */
  function Taken(job: Job, r: Standing, p: Page): Standing
    requires p.descriptor.Some?
  {
    var k := KeyOfPage(job.run, p);
    var (w, outcome) := Upserted(r.0, k, EntryOfPage(job, p));
    if outcome == Unchanged then (Touched(w, k, job.run.now), CountSame(job, p.url, r.1))
    else (w, CountRefreshed(job, p.url, r.1))
  }

  function TakenAll(job: Job, r: Standing, pages: seq<Page>): Standing
    requires AllIndexable(pages)
  {
    if pages == [] then r
    else
      assert pages[|pages| - 1] in pages;
      Taken(job, TakenAll(job, r, pages[..|pages| - 1]), pages[|pages| - 1])
  }

  /** The work after the age evictions, before any fetch. */
  function Begun(job: Job, v: View, meta: seq<DocMeta>): Work {
    var (w, aged) := Evicted(job, v, PlannedUrls(job, meta, AgeOut));
    Work(w, RefreshReport(0, 0, aged, 0, []), [])
  }

  /** The whole refresh of an index with rows `meta`, its fetches completing in the given order. */
  function RefreshedBy(job: Job, v: View, meta: seq<DocMeta>, order: seq<Url>): Standing {
    var w := AppliedAll(job, PinnedKeys(meta), Begun(job, v, meta), order);
    TakenAll(job, (w.view, w.report), w.pending)
  }

  /** `order` is one in which the fetches planned for may complete. */
  ghost predicate PossibleOrder(job: Job, meta: seq<DocMeta>, order: seq<Url>) {
    multiset(order) == multiset(PlannedUrls(job, meta, Fetch))
  }

  // ---- the code ----

  /** Plan the work up front, one pass over the records. */
  method PlanWork(meta: seq<DocMeta>, job: Job) returns (evict: seq<Url>, stale: seq<Url>)
    ensures evict == PlannedUrls(job, meta, AgeOut) && stale == PlannedUrls(job, meta, Fetch)
  {
    hide PlanFor;
    evict, stale := [], [];
    for i := 0 to |meta|
      invariant evict == PlannedUrls(job, meta[..i], AgeOut) && stale == PlannedUrls(job, meta[..i], Fetch)
    {
      var d := meta[i];
      assert meta[..i + 1][..i] == meta[..i];
      var plan := PlanFor(job.opts, job.run.now, d);
      var url := job.reparse(d.url);
      if plan.AgeOut? {
        if url.Some? {
          evict := evict + [url.value];
        }
      } else if plan.Fetch? {
        if url.Some? {
          stale := stale + [url.value];
        }
      }
    }
    assert meta[..|meta|] == meta;
  }

  /** Remove links past the age cap, without a fetch. */
  method EvictAged(builder: IndexBuilder, job: Job, evict: seq<Url>) returns (removed: nat)
    requires builder.Valid() && builder.setup == job.run.setup
    modifies builder
    ensures builder.Valid() && (builder.AsMap(), removed) == Evicted(job, old(builder.AsMap()), evict)
  {
    hide Rows, SwapRemove, ViewOf, Aligned;
    removed := 0;
    ghost var v := builder.AsMap();
    for i := 0 to |evict|
      invariant builder.Valid() && (builder.AsMap(), removed) == Evicted(job, v, evict[..i])
    {
      assert evict[..i + 1][..i] == evict[..i];
      var was := builder.RemoveDoc(evict[i]);
      if was {
        removed := removed + 1;
      }
    }
    assert evict[..|evict|] == evict;
  }

  /** Apply one completed fetch. A changed page with content is only set aside. */
  method ApplyAnswer(builder: IndexBuilder, job: Job, url: Url, pinned: set<UrlKey>, report: RefreshReport,
                     pending: seq<Page>)
    returns (report': RefreshReport, pending': seq<Page>)
    requires builder.Valid() && builder.setup == job.run.setup && AllIndexable(pending)
    modifies builder
    ensures builder.Valid()
    ensures AllIndexable(pending')
    ensures Work(builder.AsMap(), report', pending')
         == Applied(job, pinned, Work(old(builder.AsMap()), report, pending), url)
  {
    hide Rows, SwapRemove, ViewOf, Aligned;
    report', pending' := report, pending;
    match job.answer(url)
    case NotModified =>
      var _ := builder.TouchDoc(url, job.run.now);
      report' := CountSame(job, url, report);
    case Changed(_, _, _, descriptor) =>
      if descriptor.None? {
        var _ := builder.TouchDoc(url, job.run.now);
        report' := CountSame(job, url, report);
      } else {
        pending' := pending + [PageFor(url, job.answer(url))];
      }
    case Gone =>
      var isPinned := job.run.setup.key(url) in pinned;
      var removed := false;
      if job.opts.evictUnreachable && !isPinned {
        removed := builder.RemoveDoc(url);
      }
      report' := if removed then CountRemoved(job, url, report) else CountFailed(report);
    case Transient =>
      report' := CountFailed(report);
  }

  /** Every fetch has completed, is in flight or is still to be launched. */
  ghost predicate Shared(stale: seq<Url>, order: seq<Url>, inFlight: seq<Url>, idx: nat) {
    idx <= |stale| && multiset(order) + multiset(inFlight) + multiset(stale[idx..]) == multiset(stale)
  }

  /** Fetch the stale links with bounded concurrency; any fetch in flight may complete next. The
      ghost result is the order in which they did. */
  method FetchAll(builder: IndexBuilder, job: Job, stale: seq<Url>, pinned: set<UrlKey>, report: RefreshReport)
    returns (report': RefreshReport, pending: seq<Page>, ghost order: seq<Url>)
    requires builder.Valid() && builder.setup == job.run.setup
    modifies builder
    ensures builder.Valid() && AllIndexable(pending) && multiset(order) == multiset(stale)
    ensures Work(builder.AsMap(), report', pending)
         == AppliedAll(job, pinned, Work(old(builder.AsMap()), report, []), order)
  {
    var concurrency := if job.opts.concurrency < 1 then 1 else job.opts.concurrency;
    report', pending, order := report, [], [];
    ghost var start := Work(builder.AsMap(), report, []);
    var idx: nat := 0;
    var inFlight: seq<Url> := [];
    assert stale[0..] == stale;
    assert start == AppliedAll(job, pinned, start, order);
    hide ViewOf, Aligned, Applied, AppliedAll;
    while true
      invariant builder.Valid() && AllIndexable(pending) && Shared(stale, order, inFlight, idx)
      invariant Work(builder.AsMap(), report', pending) == AppliedAll(job, pinned, start, order)
      decreases 2 * (|stale| - idx) + |inFlight|
    {
      idx, inFlight := LaunchMore(stale, idx, inFlight, concurrency, order);
      if inFlight == [] {
        break;
      }
      var i: nat :| i < |inFlight|;
      Landed(stale, order, inFlight, idx, i);
      NextApplied(job, pinned, start, order, inFlight[i]);
      report', pending := ApplyAnswer(builder, job, inFlight[i], pinned, report', pending);
      order := order + [inFlight[i]];
      inFlight := Without(inFlight, i);
      hide Shared;
    }
    assert stale[idx..] == [];
  }

  /** Top up the fetches in flight. */
  method LaunchMore(stale: seq<Url>, idx: nat, inFlight: seq<Url>, concurrency: nat, ghost order: seq<Url>)
    returns (idx': nat, inFlight': seq<Url>)
    requires Shared(stale, order, inFlight, idx)
    ensures Shared(stale, order, inFlight', idx')
    ensures idx <= idx' && |inFlight'| - |inFlight| == idx' - idx && (|inFlight'| >= concurrency || idx' == |stale|)
  {
    idx', inFlight' := idx, inFlight;
    while |inFlight'| < concurrency && idx' < |stale|
      invariant idx <= idx' && Shared(stale, order, inFlight', idx') && |inFlight'| - |inFlight| == idx' - idx
      decreases |stale| - idx'
    {
      assert stale[idx'..] == [stale[idx']] + stale[idx' + 1..];
      inFlight' := inFlight' + [stale[idx']];
      idx' := idx' + 1;
    }
  }

  function Without(urls: seq<Url>, i: nat): (r: seq<Url>)
    requires i < |urls|
    ensures |r| == |urls| - 1
  {
    urls[..i] + urls[i + 1..]
  }

  lemma Landed(stale: seq<Url>, order: seq<Url>, inFlight: seq<Url>, idx: nat, i: nat)
    requires i < |inFlight| && Shared(stale, order, inFlight, idx)
    ensures idx <= |stale| && Shared(stale, order + [inFlight[i]], Without(inFlight, i), idx)
  {
    assert inFlight == inFlight[..i] + [inFlight[i]] + inFlight[i + 1..];
  }

  lemma NextApplied(job: Job, pinned: set<UrlKey>, w: Work, urls: seq<Url>, url: Url)
    requires AllIndexable(w.pending)
    ensures AppliedAll(job, pinned, w, urls + [url]) == Applied(job, pinned, AppliedAll(job, pinned, w, urls), url)
  {
    assert (urls + [url])[..|urls|] == urls;
    hide Applied;
  }

  const EMBED_BATCH: nat := 64

  /** Upsert one changed page; one that turns out identical is only touched. */
  method UpsertChanged(builder: IndexBuilder, job: Job, p: Page, report: RefreshReport)
    returns (report': RefreshReport)
    requires builder.Valid() && builder.setup == job.run.setup && RunOk(job.run) && p.descriptor.Some?
    modifies builder
    ensures builder.Valid() && (builder.AsMap(), report') == Taken(job, (old(builder.AsMap()), report), p)
  {
    hide ViewOf, Aligned, EntryFor, Upserted;
    var doc := ToDocument(job.run, p);
    assert |doc.vector| == builder.setup.dim;
    var outcome := builder.UpsertDoc(doc);
    if outcome.value == Unchanged {
      var _ := builder.TouchDoc(p.url, job.run.now);
      report' := CountSame(job, p.url, report);
    } else {
      report' := CountRefreshed(job, p.url, report);
    }
  }

  /** Upsert what waits, in chunks of one model invocation each. */
  method UpsertAll(builder: IndexBuilder, job: Job, pages: seq<Page>, report: RefreshReport)
    returns (report': RefreshReport)
    requires builder.Valid() && builder.setup == job.run.setup && RunOk(job.run) && AllIndexable(pages)
    modifies builder
    ensures builder.Valid() && (builder.AsMap(), report') == TakenAll(job, (old(builder.AsMap()), report), pages)
  {
    hide ViewOf, Aligned, Taken, RunOk;
    report' := report;
    ghost var start := (builder.AsMap(), report);
    var n := 0;
    while n < |pages|
      invariant n <= |pages| && builder.Valid()
      invariant (builder.AsMap(), report') == TakenAll(job, start, pages[..n])
    {
      var take := if |pages| - n < EMBED_BATCH then |pages| - n else EMBED_BATCH;
      ghost var first := n;
      for i := n to n + take
        invariant builder.Valid() && (builder.AsMap(), report') == TakenAll(job, start, pages[..i])
      {
        assert pages[..i + 1][..i] == pages[..i] && pages[i] in pages;
        report' := UpsertChanged(builder, job, pages[i], report');
      }
      n := n + take;
    }
    assert pages[..|pages|] == pages;
  }

  /** Refresh every link that is due. Index and report are those of the order in which the fetches
      completed. */
  method RefreshInto(builder: IndexBuilder, job: Job) returns (report: RefreshReport, ghost order: seq<Url>)
    requires builder.Valid() && builder.setup == job.run.setup && RunOk(job.run) && !job.run.pin
    modifies builder
    ensures builder.Valid() && PossibleOrder(job, old(builder.meta), order)
    ensures (builder.AsMap(), report) == RefreshedBy(job, old(builder.AsMap()), old(builder.meta), order)
  {
    hide ViewOf, Aligned, RunOk, PlannedUrls, AppliedAll, TakenAll, Evicted;
    var meta := builder.meta;
    var evict, stale := PlanWork(meta, job);
    var pinned := PinnedKeys(meta);
    var removed := EvictAged(builder, job, evict);
    report := RefreshReport(0, 0, removed, 0, []);
    var pending;
    report, pending, order := FetchAll(builder, job, stale, pinned, report);
    report := UpsertAll(builder, job, pending, report);
  }

  // ---- what holds whatever stored URLs read back to ----

  /** Every planned eviction that finds its link, and every fetch, is counted once, and there is a
      page for every fetch that did not fail. */
  lemma RefreshTotals(job: Job, v: View, meta: seq<DocMeta>, order: seq<Url>)
    ensures var (_, report) := RefreshedBy(job, v, meta, order);
      var aged := Begun(job, v, meta).report.removed;
      report.Total() == aged + |order| && |report.pages| == report.Total() - report.failed - aged
  {
    hide PlannedUrls, PinnedKeys, Evicted, AppliedAll, TakenAll;
    var w := AppliedAll(job, PinnedKeys(meta), Begun(job, v, meta), order);
    AppliedTotals(job, PinnedKeys(meta), Begun(job, v, meta), order);
    TakenTotals(job, (w.view, w.report), w.pending);
  }

  lemma {:induction false} AppliedTotals(job: Job, pinned: set<UrlKey>, w: Work, urls: seq<Url>)
    requires AllIndexable(w.pending)
    ensures var r := AppliedAll(job, pinned, w, urls);
      && r.report.Total() + |r.pending| == w.report.Total() + |w.pending| + |urls|
      && |r.report.pages| - r.report.Total() + r.report.failed == |w.report.pages| - w.report.Total() + w.report.failed
  {
    if urls != [] {
      AppliedTotals(job, pinned, w, urls[..|urls| - 1]);
    }
  }

  lemma {:induction false} TakenTotals(job: Job, r: Standing, pages: seq<Page>)
    requires AllIndexable(pages)
    ensures var q := TakenAll(job, r, pages);
      && q.1.Total() == r.1.Total() + |pages| && q.1.failed == r.1.failed
      && |q.1.pages| == |r.1.pages| + |pages| && q.1.removed == r.1.removed
  {
    hide Upserted, EntryOfPage;
    if pages != [] {
      assert pages[|pages| - 1] in pages && forall p :: p in pages[..|pages| - 1] ==> p in pages;
      TakenTotals(job, r, pages[..|pages| - 1]);
    }
  }

  /** How many of the changed pages come under a key the index does not have at their turn. */
  function NewLinks(job: Job, r: Standing, pages: seq<Page>): nat
    requires AllIndexable(pages)
  {
    if pages == [] then 0
    else
      assert pages[|pages| - 1] in pages;
      NewLinks(job, r, pages[..|pages| - 1])
      + (if KeyOfPage(job.run, pages[|pages| - 1]) in TakenAll(job, r, pages[..|pages| - 1]).0 then 0 else 1)
  }

  /** The index shrinks by what is reported removed, and grows by the changed pages that come under
      new keys; so the reported number is exact if and only if there are none. */
  lemma RefreshSize(job: Job, v: View, meta: seq<DocMeta>, order: seq<Url>)
    ensures var w := AppliedAll(job, PinnedKeys(meta), Begun(job, v, meta), order);
      var (after, report) := RefreshedBy(job, v, meta, order);
      |after| + report.removed == |v| + NewLinks(job, (w.view, w.report), w.pending)
  {
    hide PlannedUrls, PinnedKeys, Evicted, AppliedAll, TakenAll, NewLinks;
    EvictedSize(job, v, PlannedUrls(job, meta, AgeOut));
    var w := AppliedAll(job, PinnedKeys(meta), Begun(job, v, meta), order);
    AppliedSize(job, PinnedKeys(meta), Begun(job, v, meta), order);
    TakenSize(job, (w.view, w.report), w.pending);
    TakenTotals(job, (w.view, w.report), w.pending);
  }

  lemma RemovedSize(v: View, k: UrlKey)
    ensures |Removed(v, k)| == |v| - (if k in v then 1 else 0)
  {
    assert |Removed(v, k)| == |Removed(v, k).Keys| && |v| == |v.Keys|;
    assert Removed(v, k).Keys == v.Keys - {k};
  }

  lemma TouchedSize(v: View, k: UrlKey, now: nat)
    ensures |Touched(v, k, now)| == |v| && Touched(v, k, now).Keys == v.Keys
  {
    assert |Touched(v, k, now)| == |Touched(v, k, now).Keys| && |v| == |v.Keys|;
    assert Touched(v, k, now).Keys == v.Keys;
  }

  lemma {:induction false} EvictedSize(job: Job, v: View, urls: seq<Url>)
    ensures |Evicted(job, v, urls).0| + Evicted(job, v, urls).1 == |v|
  {
    hide Removed;
    if urls != [] {
      EvictedSize(job, v, urls[..|urls| - 1]);
      RemovedSize(Evicted(job, v, urls[..|urls| - 1]).0, KeyOfUrl(job, urls[|urls| - 1]));
    }
  }

  lemma {:induction false} AppliedSize(job: Job, pinned: set<UrlKey>, w: Work, urls: seq<Url>)
    requires AllIndexable(w.pending)
    ensures var r := AppliedAll(job, pinned, w, urls);
      |r.view| + r.report.removed == |w.view| + w.report.removed
  {
    hide Removed, Touched;
    if urls != [] {
      AppliedSize(job, pinned, w, urls[..|urls| - 1]);
      var x, k := AppliedAll(job, pinned, w, urls[..|urls| - 1]), KeyOfUrl(job, urls[|urls| - 1]);
      RemovedSize(x.view, k);
      TouchedSize(x.view, k, job.run.now);
    }
  }

  lemma {:induction false} TakenSize(job: Job, r: Standing, pages: seq<Page>)
    requires AllIndexable(pages)
    ensures |TakenAll(job, r, pages).0| == |r.0| + NewLinks(job, r, pages)
  {
    hide Touched;
    if pages != [] {
      var init, p := pages[..|pages| - 1], pages[|pages| - 1];
      assert p in pages && forall x :: x in init ==> x in pages;
      TakenSize(job, r, init);
      var v, k, e := TakenAll(job, r, init).0, KeyOfPage(job.run, p), EntryOfPage(job, p);
      hide EntryOfPage, TakenAll, NewLinks;
      UpsertedSize(v, k, e);
      TouchedSize(Upserted(v, k, e).0, k, job.run.now);
    }
  }

  /** Age eviction takes exactly the links under the keys its URLs have now. */
  lemma {:induction false} EvictedIff(job: Job, v: View, urls: seq<Url>, k: UrlKey)
    ensures k in Evicted(job, v, urls).0 <==> k in v && forall u :: u in urls ==> KeyOfUrl(job, u) != k
    ensures k in Evicted(job, v, urls).0 ==> Evicted(job, v, urls).0[k] == v[k]
  {
    if urls != [] {
      var init := urls[..|urls| - 1];
      EvictedIff(job, v, init, k);
      assert urls == init + [urls[|urls| - 1]];
    }
  }

  ghost predicate PinnedAt(v: View, k: UrlKey) { k in v && v[k].meta.pinned }

  /** Whatever the order, a pinned link goes at the age eviction, if it goes: exactly when the URL of
      some unpinned link that is over age has its key. The fetches and upserts keep it, pinned. */
  lemma PinnedLinkStaysIff(job: Job, v: View, meta: seq<DocMeta>, order: seq<Url>, k: UrlKey)
    requires PinnedAt(v, k) && k in PinnedKeys(meta)
    ensures var kept := forall u :: u in PlannedUrls(job, meta, AgeOut) ==> KeyOfUrl(job, u) != k;
      && (kept <==> k in Begun(job, v, meta).view)
      && (kept ==> PinnedAt(RefreshedBy(job, v, meta, order).0, k))
  {
    hide PlannedUrls, PinnedKeys, Evicted, AppliedAll, TakenAll;
    EvictedIff(job, v, PlannedUrls(job, meta, AgeOut), k);
    if k in Begun(job, v, meta).view {
      AppliedKeepsPin(job, PinnedKeys(meta), Begun(job, v, meta), order, k);
      var w := AppliedAll(job, PinnedKeys(meta), Begun(job, v, meta), order);
      TakenKeepsPin(job, (w.view, w.report), w.pending, k);
    }
  }

  lemma {:induction false} AppliedKeepsPin(job: Job, pinned: set<UrlKey>, w: Work, urls: seq<Url>, k: UrlKey)
    requires AllIndexable(w.pending) && PinnedAt(w.view, k) && k in pinned
    ensures PinnedAt(AppliedAll(job, pinned, w, urls).view, k)
  {
    if urls != [] {
      AppliedKeepsPin(job, pinned, w, urls[..|urls| - 1], k);
    }
  }

  lemma {:induction false} TakenKeepsPin(job: Job, r: Standing, pages: seq<Page>, k: UrlKey)
    requires AllIndexable(pages) && PinnedAt(r.0, k)
    ensures PinnedAt(TakenAll(job, r, pages).0, k)
  {
    hide EntryOfPage;
    if pages != [] {
      assert pages[|pages| - 1] in pages && forall x :: x in pages[..|pages| - 1] ==> x in pages;
      TakenKeepsPin(job, r, pages[..|pages| - 1], k);
    }
  }

  /** A link whose key no planned URL reads back to is left as it is: not removed, not restamped, not
      rewritten, whatever is fetched for it. */
  lemma UnreadLinkIsUntouched(job: Job, v: View, meta: seq<DocMeta>, order: seq<Url>, k: UrlKey)
    requires PossibleOrder(job, meta, order)
    requires forall u :: u in PlannedUrls(job, meta, AgeOut) || u in PlannedUrls(job, meta, Fetch) ==>
      KeyOfUrl(job, u) != k
    ensures SameAt(RefreshedBy(job, v, meta, order).0, v, k)
  {
    forall u | u in order ensures KeyOfUrl(job, u) != k {
      assert u in multiset(order);
    }
    hide PlannedUrls, PinnedKeys, Evicted, AppliedAll, TakenAll;
    EvictedIff(job, v, PlannedUrls(job, meta, AgeOut), k);
    AppliedElsewhere(job, PinnedKeys(meta), Begun(job, v, meta), order, k);
    var w := AppliedAll(job, PinnedKeys(meta), Begun(job, v, meta), order);
    TakenElsewhere(job, (w.view, w.report), w.pending, k);
  }

  predicate SameAt(w: View, v: View, k: UrlKey) {
    (k in w <==> k in v) && (k in v ==> w[k] == v[k])
  }

  lemma {:induction false} AppliedElsewhere(job: Job, pinned: set<UrlKey>, w: Work, urls: seq<Url>, k: UrlKey)
    requires w.pending == [] && forall u :: u in urls ==> KeyOfUrl(job, u) != k
    ensures var r := AppliedAll(job, pinned, w, urls);
      SameAt(r.view, w.view, k) && forall p :: p in r.pending ==> KeyOfUrl(job, p.url) != k
  {
    if urls != [] {
      assert urls[|urls| - 1] in urls;
      AppliedElsewhere(job, pinned, w, urls[..|urls| - 1], k);
    }
  }

  lemma {:induction false} TakenElsewhere(job: Job, r: Standing, pages: seq<Page>, k: UrlKey)
    requires AllIndexable(pages) && forall p :: p in pages ==> KeyOfUrl(job, p.url) != k
    ensures SameAt(TakenAll(job, r, pages).0, r.0, k)
  {
    hide EntryOfPage;
    if pages != [] {
      assert pages[|pages| - 1] in pages && forall x :: x in pages[..|pages| - 1] ==> x in pages;
      TakenElsewhere(job, r, pages[..|pages| - 1], k);
    }
  }
}
