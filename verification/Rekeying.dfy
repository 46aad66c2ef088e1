/** Which stored links a refresh finds again: those whose URL has a stable path. Ingestion and
    refresh keep an index of such links what it is. */
module Rekeying {
  import opened Common
  import opened Documents
  import opened Builder
  import opened Ingest
  import opened Refresh
  import opened RefreshOutcome
  import opened UrlKeys

  /** Links are stored and keyed by the canonical string, and read back by splitting it. */
  ghost predicate Canonically<S(!new)>(setup: Setup, h: Hasher<S>) {
    forall u :: setup.canonical(u) == Canonical(u) && setup.key(u) == HashOf(h, Canonical(u))
  }

  ghost predicate ReadsBack(reparse: string -> Option<Url>) {
    forall s :: reparse(s) == Some(SplitUrl(s))
  }

  ghost predicate StableUrl(u: Url) { WellFormedUrl(u) && StableSlash(u.path) }

  /** Stored from `u`. */
  predicate StoredFrom(setup: Setup, e: Entry, k: UrlKey, u: Url) {
    e.meta.url == setup.canonical(u) && e.meta.urlKey == k && setup.key(u) == k
  }

  /** A stored link reads back to its own key if and only if the path of its URL is stable, short
      of a hash collision between its canonical string and the one that comes out of that. */
  lemma StoredLinkRekeysIff<S(!new)>(job: Job, h: Hasher<S>, e: Entry, k: UrlKey, u: Url)
    requires Canonically(job.run.setup, h) && ReadsBack(job.reparse)
    requires WellFormedUrl(u) && StoredFrom(job.run.setup, e, k, u)
    requires var s, s' := Canonical(u), Canonical(SplitUrl(Canonical(u))); HashOf(h, s) == HashOf(h, s') ==> s == s'
    ensures RekeysTo(job, e, k) <==> StableSlash(u.path)
  {
    CanonicalIsStableIff(u);
    hide Canonical, SplitUrl, HashOf, WellFormedUrl;
  }

  lemma StableRekeys<S(!new)>(job: Job, h: Hasher<S>, e: Entry, k: UrlKey, u: Url)
    requires Canonically(job.run.setup, h) && ReadsBack(job.reparse)
    requires StableUrl(u) && StoredFrom(job.run.setup, e, k, u)
    ensures RekeysTo(job, e, k) && StoredFrom(job.run.setup, e, k, UrlOf(job, e)) && StableUrl(UrlOf(job, e))
  {
    CanonicalIsStableIff(u);
    SplitCanonical(u);
    NormalIsWellFormed(u);
    StripTwice(u.path);
    StripTwice(StripSlash(u.path));
    hide Canonical, SplitUrl, HashOf, WellFormedUrl, StableSlash, StripSlash;
  }

  ghost predicate StoredStably(setup: Setup, e: Entry, k: UrlKey) {
    exists u :: StableUrl(u) && StoredFrom(setup, e, k, u)
  }

  /** Every link was stored from a URL with a stable path. */
  ghost predicate AllStable(setup: Setup, v: View) {
    forall k :: k in v ==> StoredStably(setup, v[k], k)
  }

  /** Such an index meets the premise of a refresh. */
  lemma StableIndexRekeys<S(!new)>(job: Job, h: Hasher<S>, v: View)
    requires Canonically(job.run.setup, h) && ReadsBack(job.reparse) && AllStable(job.run.setup, v)
    ensures Rekeys(job, v)
  {
    hide Canonically, ReadsBack, StoredFrom, StableUrl, RekeysTo;
    forall k | k in v ensures RekeysTo(job, v[k], k) {
      var u :| StableUrl(u) && StoredFrom(job.run.setup, v[k], k, u);
      StableRekeys(job, h, v[k], k, u);
    }
  }

  lemma MadeStably(run: Run, p: Page)
    requires p.descriptor.Some? && StableUrl(p.url)
    ensures StoredStably(run.setup, EntryFor(run.setup, ToDocument(run, p)), KeyOfPage(run, p))
  {
    assert StoredFrom(run.setup, EntryFor(run.setup, ToDocument(run, p)), KeyOfPage(run, p), p.url);
  }

  lemma SameAddress(setup: Setup, e: Entry, f: Entry, k: UrlKey)
    requires StoredStably(setup, e, k) && f.meta.url == e.meta.url && f.meta.urlKey == e.meta.urlKey
    ensures StoredStably(setup, f, k)
  {
    var u :| StableUrl(u) && StoredFrom(setup, e, k, u);
    assert StoredFrom(setup, f, k, u);
  }

  lemma UpsertKeepsStable(setup: Setup, v: View, k: UrlKey, e: Entry)
    requires AllStable(setup, v) && StoredStably(setup, e, k)
    ensures AllStable(setup, Upserted(v, k, e).0)
  {
    hide StoredStably;
    forall x | x in Upserted(v, k, e).0 ensures StoredStably(setup, Upserted(v, k, e).0[x], x) {
      if x == k && Upserted(v, k, e).1 != Unchanged {
        SameAddress(setup, e, Upserted(v, k, e).0[k], k);
      }
    }
  }

  lemma {:induction false} FlushKeepsStable(run: Run, t: Tally, pending: seq<Page>)
    requires AllIndexable(pending) && AllStable(run.setup, t.0)
    requires forall p :: p in pending ==> StableUrl(p.url)
    ensures AllStable(run.setup, Flush(run, t, pending).0)
  {
    hide AllStable, StableUrl, EntryFor, ToDocument;
    if pending != [] {
      var init, p := pending[..|pending| - 1], pending[|pending| - 1];
      assert p in pending && forall w :: w in init ==> w in pending;
      FlushKeepsStable(run, t, init);
      MadeStably(run, p);
      UpsertKeepsStable(run.setup, Flush(run, t, init).0, KeyOfPage(run, p), EntryFor(run.setup, ToDocument(run, p)));
    }
  }

  lemma {:induction false} FeedKeepsStable(run: Run, t: Tally, pages: seq<Page>, batch: nat)
    requires AllStable(run.setup, t.0) && forall p :: p in pages ==> StableUrl(p.url)
    ensures var q := FeedAll(run, t, pages, batch);
      AllStable(run.setup, q.0.0) && forall p :: p in q.1 ==> StableUrl(p.url)
  {
    hide AllStable, StableUrl, Flush, SameHash;
    if pages != [] {
      var n := |pages| - 1;
      assert pages[n] in pages;
      FeedKeepsStable(run, t, pages[..n], batch);
      var q := FeedAll(run, t, pages[..n], batch);
      if pages[n].descriptor.Some? {
        FlushKeepsStable(run, q.0, q.1 + [pages[n]]);
      }
    }
  }

  /** Ingesting pages with stable URLs keeps every stored URL stable. */
  lemma IngestKeepsStable(run: Run, t: Tally, pages: seq<Page>, batch: nat)
    requires AllStable(run.setup, t.0) && forall p :: p in pages ==> StableUrl(p.url)
    ensures AllStable(run.setup, Ingested(run, t, pages, batch).0)
  {
    hide AllStable, StableUrl, Flush, FeedAll;
    FeedKeepsStable(run, t, pages, batch);
    var q := FeedAll(run, t, pages, batch);
    FlushKeepsStable(run, q.0, q.1);
  }

  /** What is left of an entry has the address it had, or is made from the page fetched for it. */
  lemma OutcomeCases(job: Job, e: Entry, k: UrlKey)
    requires RekeysTo(job, e, k) && Outcome(job, e, k).0.Some?
    ensures var f, a := Outcome(job, e, k).0.value, AnswerTo(job, e);
      || (f.meta.url == e.meta.url && f.meta.urlKey == e.meta.urlKey)
      || (a.Changed? && a.descriptor.Some?
          && var made := EntryFor(job.run.setup, ToDocument(job.run, PageFor(UrlOf(job, e), a)));
             f.meta.url == made.meta.url && f.meta.urlKey == made.meta.urlKey)
  {
    hide EntryFor, ToDocument, UrlOf;
  }

  lemma OutcomeStable<S(!new)>(job: Job, h: Hasher<S>, e: Entry, k: UrlKey)
    requires Canonically(job.run.setup, h) && ReadsBack(job.reparse) && StoredStably(job.run.setup, e, k)
    requires RekeysTo(job, e, k) && Outcome(job, e, k).0.Some?
    ensures StoredStably(job.run.setup, Outcome(job, e, k).0.value, k)
  {
    var u :| StableUrl(u) && StoredFrom(job.run.setup, e, k, u);
    StableRekeys(job, h, e, k, u);
    OutcomeCases(job, e, k);
    hide Outcome, StoredStably;
    SameAddress(job.run.setup, e, Outcome(job, e, k).0.value, k);
  }

  lemma RefreshedEntry(job: Job, v: View, k: UrlKey)
    requires Rekeys(job, v) && k in RefreshedView(job, v)
    ensures k in v && RekeysTo(job, v[k], k)
    ensures RefreshedView(job, v)[k] == v[k] || Outcome(job, v[k], k).0 == Some(RefreshedView(job, v)[k])
  {
    hide Outcome, RekeysTo, PlanOf;
  }

  /** A refresh keeps it too, so the next one may follow. */
  lemma RefreshKeepsStable<S(!new)>(job: Job, h: Hasher<S>, v: View)
    requires Canonically(job.run.setup, h) && ReadsBack(job.reparse) && AllStable(job.run.setup, v)
    ensures Rekeys(job, v) && AllStable(job.run.setup, RefreshedView(job, v))
  {
    StableIndexRekeys(job, h, v);
    var r := RefreshedView(job, v);
    hide Canonically, ReadsBack, StoredStably, RekeysTo, RefreshedView, Outcome;
    forall k | k in r ensures StoredStably(job.run.setup, r[k], k) {
      RefreshedEntry(job, v, k);
      if r[k] != v[k] {
        OutcomeStable(job, h, v[k], k);
      }
    }
  }

  // ---- what becomes of a link that reads back to another key ----

  /** Any hash that tells the two canonical strings of `DoubleSlashIsNotStable` apart. */
  function SlashKey(u: Url): UrlKey { if Canonical(u) == "https://x.dev/a/" then 1 else 2 }

  const SLASH_SETUP := Setup(0, Cosine, 0, 1.0, 0.5, SlashKey, Canonical, (x: seq<real>) => x)

  function SlashJob(opts: Options, a: Answer): Job {
    Job(Run(SLASH_SETUP, (_: string) => [], 10, false), opts, s => Some(SplitUrl(s)), (_: Url) => a)
  }

  function Slashed(url: string, key: UrlKey, stamp: nat, pinned: bool): DocMeta {
    DocMeta(url, key, 0, 7, 0, None, "", None, [], stamp, pinned, None)
  }

  function BareEntry(m: DocMeta): Entry { Entry(m, [], [], []) }

  /** The link stored from the path "/a//". */
  const SLIPPING := Slashed("https://x.dev/a/", 1, 0, false)

  const SLIPPED_URL := SplitUrl("https://x.dev/a/")

  lemma SlashKeys()
    ensures SlashKey(Url("https", Some("x.dev"), None, "/a//", None, None)) == 1 && SlashKey(SLIPPED_URL) == 2
  {
    DoubleSlashIsNotStable();
    assert "https://x.dev/a/"[15] == '/' && |"https://x.dev/a"| == 15;
    hide Canonical, SplitUrl;
  }

  /** A refresh of a single link that is fetched. */
  lemma OneFetch(job: Job, v: View, m: DocMeta, u: Url)
    requires PlanFor(job.opts, job.run.now, m) == Fetch && job.reparse(m.url) == Some(u)
    ensures PossibleOrder(job, [m], [u])
    ensures var w := Applied(job, PinnedKeys([m]), Work(v, RefreshReport(0, 0, 0, 0, []), []), u);
      RefreshedBy(job, v, [m], [u]) == TakenAll(job, (w.view, w.report), w.pending)
  {
    hide PlanFor, Applied, TakenAll;
    assert [m][..0] == [] && [u][..0] == [];
    assert PlannedUrls(job, [], Fetch) == [] && PlannedUrls(job, [], AgeOut) == [];
    assert PlannedUrls(job, [m], AgeOut) == [] && PlannedUrls(job, [m], Fetch) == [u];
    var start := Work(v, RefreshReport(0, 0, 0, 0, []), []);
    assert Begun(job, v, [m]) == start;
    assert AppliedAll(job, PinnedKeys([m]), start, []) == start;
  }

  /** Found unchanged, a link that reads back to another key is counted and reported as such, under
      that other key, and keeps its old timestamp. */
  lemma SlippedLinkStaysStale()
    ensures var job := SlashJob(Options(None, 0, None, true, 1), NotModified);
      var v := map[1 := BareEntry(SLIPPING)];
      && PossibleOrder(job, [SLIPPING], [SLIPPED_URL])
      && var (after, report) := RefreshedBy(job, v, [SLIPPING], [SLIPPED_URL]);
         && after == v && report.same == report.Total() == 1
         && |report.pages| == 1 && report.pages[0].urlKey == 2
  {
    SlashKeys();
    hide Canonical, SplitUrl, SlashKey;
    var job := SlashJob(Options(None, 0, None, true, 1), NotModified);
    OneFetch(job, map[1 := BareEntry(SLIPPING)], SLIPPING, SLIPPED_URL);
  }

  const NOTHING_KEPT: Distilled := Distilled(None, "", None, [], [], [], "")

  /** Changed, it is rewritten beside the old link: the index grows, though the report speaks of an
      update alone. */
  lemma SlippedLinkIsDoubled()
    ensures var job := SlashJob(Options(None, 0, None, true, 1), Changed(0, None, 8, Some(NOTHING_KEPT)));
      var v := map[1 := BareEntry(SLIPPING)];
      && PossibleOrder(job, [SLIPPING], [SLIPPED_URL])
      && var (after, report) := RefreshedBy(job, v, [SLIPPING], [SLIPPED_URL]);
         && after.Keys == {1, 2} && after[1] == v[1] && report.refreshed == report.Total() == 1
  {
    SlashKeys();
    hide Canonical, SplitUrl, SlashKey;
    var job := SlashJob(Options(None, 0, None, true, 1), Changed(0, None, 8, Some(NOTHING_KEPT)));
    OneFetch(job, map[1 := BareEntry(SLIPPING)], SLIPPING, SLIPPED_URL);
    var pages := [PageFor(SLIPPED_URL, Changed(0, None, 8, Some(NOTHING_KEPT)))];
    assert pages[..0] == [];
  }

  /** Past the age cap, it stays, and the link whose key it reads back to goes, pinned or not. */
  lemma SlippedLinkEvictsPinned()
    ensures var job := SlashJob(Options(None, 100, Some(5), true, 1), Transient);
      var kept := Slashed("https://x.dev/a", 2, 10, true);
      var v := map[1 := BareEntry(SLIPPING), 2 := BareEntry(kept)];
      && PossibleOrder(job, [SLIPPING, kept], [])
      && var (after, report) := RefreshedBy(job, v, [SLIPPING, kept], []);
         && after == map[1 := BareEntry(SLIPPING)] && report.removed == 1
  {
    SlashKeys();
    hide Canonical, SplitUrl, SlashKey;
    var job, kept := SlashJob(Options(None, 100, Some(5), true, 1), Transient), Slashed("https://x.dev/a", 2, 10, true);
    var meta := [SLIPPING, kept];
    assert meta[..1] == [SLIPPING] && [SLIPPING][..0] == [] && [SLIPPED_URL][..0] == [];
    assert PlannedUrls(job, [SLIPPING], AgeOut) == [SLIPPED_URL] && PlannedUrls(job, [SLIPPING], Fetch) == [];
    assert PlannedUrls(job, meta, AgeOut) == [SLIPPED_URL] && PlannedUrls(job, meta, Fetch) == [];
    var v := map[1 := BareEntry(SLIPPING), 2 := BareEntry(kept)];
    assert Evicted(job, v, []) == (v, 0);
    assert Removed(v, 2) == map[1 := BareEntry(SLIPPING)];
  }
}
