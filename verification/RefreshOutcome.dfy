/** What a refresh comes to when every stored URL reads back to the key it is stored under: one
    result, whatever order the fetches complete in. */
module RefreshOutcome {
  import opened Common
  import opened Documents
  import opened Sorting
  import opened Lexical
  import opened Builder
  import opened Ingest
  import opened Refresh

  datatype Verdict = Refreshed | Same | Dropped | Failed

  function TouchEntry(e: Entry, now: nat): Entry { e.(meta := e.meta.(fetchedAtMs := now)) }

  /** What becomes of a fetched entry: what is kept of it, and how it is counted. */
  function Settled(run: Run, opts: Options, url: Url, e: Entry, a: Answer): (Option<Entry>, Verdict) {
    match a
    case NotModified => (Some(TouchEntry(e, run.now)), Same)
    case Changed(_, _, hash, descriptor) =>
      if descriptor.None? || hash == e.meta.contentHash then (Some(TouchEntry(e, run.now)), Same)
      else
        var made := EntryFor(run.setup, ToDocument(run, PageFor(url, a)));
        (Some(made.(meta := made.meta.(pinned := made.meta.pinned || e.meta.pinned))), Refreshed)
    case Gone => if opts.evictUnreachable && !e.meta.pinned then (None, Dropped) else (Some(e), Failed)
    case Transient => (Some(e), Failed)
  }

  function UrlOf(job: Job, e: Entry): Url
    requires job.reparse(e.meta.url).Some?
  {
    job.reparse(e.meta.url).value
  }

  function AnswerTo(job: Job, e: Entry): Answer
    requires job.reparse(e.meta.url).Some?
  {
    job.answer(UrlOf(job, e))
  }

  /** Stored URLs parse, to a URL with the key they are stored under. */
  ghost predicate Rekeys(job: Job, v: View) {
    forall k :: k in v ==> RekeysTo(job, v[k], k)
  }

  predicate RekeysTo(job: Job, e: Entry, k: UrlKey) {
    e.meta.urlKey == k && job.reparse(e.meta.url).Some? && job.run.setup.key(job.reparse(e.meta.url).value) == k
  }

  function PlanOf(job: Job, e: Entry): Plan { PlanFor(job.opts, job.run.now, e.meta) }

  function Outcome(job: Job, e: Entry, k: UrlKey): (Option<Entry>, Verdict)
    requires RekeysTo(job, e, k)
  {
    Settled(job.run, job.opts, UrlOf(job, e), e, AnswerTo(job, e))
  }

  // ---- the result, whatever the order ----

  /** An entry once the records in `done` are settled and old ones evicted. */
  function StageEntry(job: Job, e: Entry, k: UrlKey, done: set<UrlKey>): Option<Entry>
    requires RekeysTo(job, e, k)
  {
    if PlanOf(job, e).AgeOut? then None
    else if k in done then Outcome(job, e, k).0
    else Some(e)
  }

  ghost function Stage(job: Job, v: View, done: set<UrlKey>): View
    requires Rekeys(job, v)
  {
    map k | k in v && StageEntry(job, v[k], k, done).Some? :: StageEntry(job, v[k], k, done).value
  }

  ghost function Planned(job: Job, v: View, plan: Plan): set<UrlKey> {
    set k | k in v && PlanOf(job, v[k]) == plan
  }

  /** The index after a refresh. */
  ghost function RefreshedView(job: Job, v: View): View
    requires Rekeys(job, v)
  {
    Stage(job, v, Planned(job, v, Fetch))
  }

  /** The settled records with a given verdict. */
  ghost function With(job: Job, v: View, done: set<UrlKey>, verdict: Verdict): set<UrlKey>
    requires Rekeys(job, v) && done <= v.Keys
  {
    set k | k in done && Outcome(job, v[k], k).1 == verdict
  }

  // ---- steps of the stage ----

  lemma TouchStep(job: Job, v: View, done: set<UrlKey>, k: UrlKey)
    requires Rekeys(job, v) && k in Planned(job, v, Fetch) && k !in done
    requires Outcome(job, v[k], k).1 == Same
    ensures Stage(job, v, done + {k}) == Touched(Stage(job, v, done), k, job.run.now)
  {
    hide PlanFor, Settled, EntryFor;
    SettledSame(job, v[k], k);
  }

  lemma SettledSame(job: Job, e: Entry, k: UrlKey)
    requires RekeysTo(job, e, k) && Outcome(job, e, k).1 == Same
    ensures Outcome(job, e, k).0 == Some(TouchEntry(e, job.run.now))
  {}

  lemma DropStep(job: Job, v: View, done: set<UrlKey>, k: UrlKey)
    requires Rekeys(job, v) && k in Planned(job, v, Fetch) && k !in done
    requires Outcome(job, v[k], k).1 == Dropped
    ensures Stage(job, v, done + {k}) == Removed(Stage(job, v, done), k)
    ensures k in Stage(job, v, done)
  {
    hide PlanFor, Settled, EntryFor;
    SettledDropped(job, v[k], k);
  }

  lemma SettledDropped(job: Job, e: Entry, k: UrlKey)
    requires RekeysTo(job, e, k) && Outcome(job, e, k).1 == Dropped
    ensures Outcome(job, e, k).0 == None
  {}

  lemma FailStep(job: Job, v: View, done: set<UrlKey>, k: UrlKey)
    requires Rekeys(job, v) && k in Planned(job, v, Fetch) && k !in done
    requires Outcome(job, v[k], k).1 == Failed
    ensures Stage(job, v, done + {k}) == Stage(job, v, done)
  {
    hide PlanFor, Settled, EntryFor;
    SettledFailed(job, v[k], k);
  }

  lemma SettledFailed(job: Job, e: Entry, k: UrlKey)
    requires RekeysTo(job, e, k) && Outcome(job, e, k).1 == Failed
    ensures Outcome(job, e, k).0 == Some(e)
  {}

  /** Upserting a changed page: rewritten, or found identical and left for a touch. */
  lemma UpsertStep(job: Job, v: View, done: set<UrlKey>, k: UrlKey)
    requires Rekeys(job, v) && k in Planned(job, v, Fetch) && k !in done
    requires var a := AnswerTo(job, v[k]); a.Changed? && a.descriptor.Some?
    ensures var e := EntryFor(job.run.setup, ToDocument(job.run, PageFor(UrlOf(job, v[k]), AnswerTo(job, v[k]))));
      var (w, outcome) := Upserted(Stage(job, v, done), k, e);
      && (outcome == Unchanged <==> Outcome(job, v[k], k).1 == Same)
      && (outcome == Unchanged ==> w == Stage(job, v, done))
      && (outcome != Unchanged ==> w == Stage(job, v, done + {k}) && Outcome(job, v[k], k).1 == Refreshed)
  {
    hide PlanFor;
    var s := Stage(job, v, done);
    assert k in s && s[k] == v[k];
    assert EntryFor(job.run.setup, ToDocument(job.run, PageFor(UrlOf(job, v[k]), AnswerTo(job, v[k])))).meta.contentHash
        == AnswerTo(job, v[k]).contentHash;
    hide EntryFor;
  }

  /** One for a record with the given verdict. */
  function Tick(job: Job, e: Entry, k: UrlKey, verdict: Verdict): nat
    requires RekeysTo(job, e, k)
  {
    if Outcome(job, e, k).1 == verdict then 1 else 0
  }

  lemma WithMember(job: Job, v: View, done: set<UrlKey>, verdict: Verdict, k: UrlKey)
    requires Rekeys(job, v) && done <= v.Keys
    ensures k in With(job, v, done, verdict) <==> k in done && Outcome(job, v[k], k).1 == verdict
  {
    hide Outcome;
  }

  lemma WithNext(job: Job, v: View, done: set<UrlKey>, k: UrlKey, verdict: Verdict)
    requires Rekeys(job, v) && done <= v.Keys && k in v && k !in done
    ensures With(job, v, done + {k}, verdict)
         == With(job, v, done, verdict) + (if Outcome(job, v[k], k).1 == verdict then {k} else {})
    ensures |With(job, v, done + {k}, verdict)| == |With(job, v, done, verdict)| + Tick(job, v[k], k, verdict)
  {
    var was, now := With(job, v, done, verdict), With(job, v, done + {k}, verdict);
    var counts := Outcome(job, v[k], k).1 == verdict;
    forall x ensures x in now <==> x in was || (counts && x == k) {
      WithMember(job, v, done, verdict, x);
      WithMember(job, v, done + {k}, verdict, x);
      hide *;
    }
    WithMember(job, v, done, verdict, k);
    hide With, Outcome;
    AddOne(was, now, k, counts);
  }

  lemma AddOne(was: set<UrlKey>, now: set<UrlKey>, k: UrlKey, counts: bool)
    requires k !in was && forall x :: x in now <==> x in was || (counts && x == k)
    ensures now == was + (if counts then {k} else {}) && |now| == |was| + (if counts then 1 else 0)
  {
    assert now == was + (if counts then {k} else {});
  }

  // ---- the report ----

  function ChangeFor(verdict: Verdict): PageChange {
    match verdict
    case Refreshed => WasUpdated
    case Same => WasUnchanged
    case Dropped => WasRemoved
    case Failed => WasSkipped
  }

  function PageKeys(pages: seq<PageOutcome>): (r: seq<UrlKey>)
    ensures |r| == |pages|
  {
    seq(|pages|, i requires 0 <= i < |pages| => pages[i].urlKey)
  }

  /** One page for every settled record that did not fail, saying what became of it. */
  ghost predicate Reported(job: Job, v: View, done: set<UrlKey>, pages: seq<PageOutcome>)
    requires Rekeys(job, v) && done <= v.Keys
  {
    && Lists(PageKeys(pages), done - With(job, v, done, Failed))
    && forall p :: p in pages && p.urlKey in done ==> p.change == ChangeFor(Outcome(job, v[p.urlKey], p.urlKey).1)
  }

  /** What holds once the records in `done` are settled, `aged` links having been evicted by age. */
  ghost predicate Progress(job: Job, v: View, done: set<UrlKey>, aged: nat, view: View, report: RefreshReport)
    requires Rekeys(job, v)
  {
    && done <= Planned(job, v, Fetch)
    && view == Stage(job, v, done)
    && report.refreshed == |With(job, v, done, Refreshed)|
    && report.same == |With(job, v, done, Same)|
    && report.removed == aged + |With(job, v, done, Dropped)|
    && report.failed == |With(job, v, done, Failed)|
    && Reported(job, v, done, report.pages)
  }

  lemma CountsNext(job: Job, v: View, done: set<UrlKey>, k: UrlKey)
    requires Rekeys(job, v) && done <= v.Keys && k in v && k !in done
    ensures forall w :: |With(job, v, done + {k}, w)| == |With(job, v, done, w)| + Tick(job, v[k], k, w)
  {
    forall w ensures |With(job, v, done + {k}, w)| == |With(job, v, done, w)| + Tick(job, v[k], k, w) {
      WithNext(job, v, done, k, w);
    }
  }

  lemma ReportedNext(job: Job, v: View, done: set<UrlKey>, k: UrlKey, pages: seq<PageOutcome>, p: PageOutcome)
    requires Rekeys(job, v) && done <= v.Keys && k in v && k !in done && Reported(job, v, done, pages)
    requires var verdict := Outcome(job, v[k], k).1;
      p.urlKey == k && verdict != Failed && p.change == ChangeFor(verdict)
    ensures Reported(job, v, done + {k}, pages + [p])
  {
    hide Settled, With;
    WithNext(job, v, done, k, Failed);
    assert PageKeys(pages + [p]) == PageKeys(pages) + [k];
    assert k !in PageKeys(pages);
    forall x ensures x in PageKeys(pages) + [k] <==> x in (done + {k}) - With(job, v, done + {k}, Failed) {
      assert x in PageKeys(pages) <==> x in done - With(job, v, done, Failed);
      assert x in With(job, v, done, Failed) ==> x in done by { WithInside(job, v, done, Failed); }
    }
    forall q | q in pages + [p] && q.urlKey in done + {k}
      ensures q.change == ChangeFor(Outcome(job, v[q.urlKey], q.urlKey).1)
    {
      if q in pages {
        var i :| 0 <= i < |pages| && pages[i] == q;
        assert PageKeys(pages)[i] == q.urlKey;
        assert q.urlKey in PageKeys(pages);
      }
    }
  }

  lemma WithInside(job: Job, v: View, done: set<UrlKey>, verdict: Verdict)
    requires Rekeys(job, v) && done <= v.Keys
    ensures With(job, v, done, verdict) <= done
  {}

  lemma ReportedFailed(job: Job, v: View, done: set<UrlKey>, k: UrlKey, pages: seq<PageOutcome>)
    requires Rekeys(job, v) && done <= v.Keys && k in v && k !in done && Reported(job, v, done, pages)
    requires Outcome(job, v[k], k).1 == Failed
    ensures Reported(job, v, done + {k}, pages)
  {
    WithNext(job, v, done, k, Failed);
    WithInside(job, v, done, Failed);
    hide Settled, With;
    assert (done + {k}) - With(job, v, done + {k}, Failed) == done - With(job, v, done, Failed);
    forall q | q in pages && q.urlKey in done + {k} ensures q.urlKey in done {
      var i :| 0 <= i < |pages| && pages[i] == q;
      assert PageKeys(pages)[i] == q.urlKey && q.urlKey in PageKeys(pages);
    }
  }

  /** The report after one more record: its counter raised by one, and a page unless it failed. */
  predicate Counted(job: Job, e: Entry, k: UrlKey, report: RefreshReport, report': RefreshReport, p: PageOutcome)
    requires RekeysTo(job, e, k)
  {
    && report'.refreshed == report.refreshed + Tick(job, e, k, Refreshed)
    && report'.same == report.same + Tick(job, e, k, Same)
    && report'.removed == report.removed + Tick(job, e, k, Dropped)
    && report'.failed == report.failed + Tick(job, e, k, Failed)
    && var w := Outcome(job, e, k).1;
       if w == Failed then report'.pages == report.pages
       else report'.pages == report.pages + [p] && p.urlKey == k && p.change == ChangeFor(w)
  }

  /** Settling one more record: the stage moves on, one counter is raised, and a page is added
      unless it failed. */
  lemma ProgressNext(job: Job, v: View, done: set<UrlKey>, aged: nat, view: View, report: RefreshReport, k: UrlKey,
                     report': RefreshReport, p: PageOutcome)
    requires Rekeys(job, v) && k in Planned(job, v, Fetch) && k !in done && Progress(job, v, done, aged, view, report)
    requires Counted(job, v[k], k, report, report', p)
    ensures Progress(job, v, done + {k}, aged, Stage(job, v, done + {k}), report')
  {
    hide PlanFor;
    CountsNext(job, v, done, k);
    assert done <= v.Keys && k in v;
    hide Outcome, Stage, With, Reported, Tick, Rekeys, Planned, PageKeys;
    if Outcome(job, v[k], k).1 == Failed {
      ReportedFailed(job, v, done, k, report.pages);
    } else {
      ReportedNext(job, v, done, k, report.pages, p);
    }
  }

  // ---- planning ----

  function UrlKeysOf(job: Job, urls: seq<Url>): (r: seq<UrlKey>)
    ensures |r| == |urls|
  {
    seq(|urls|, i requires 0 <= i < |urls| => KeyOfUrl(job, urls[i]))
  }

  /** The keys of the first `n` records planned for. */
  ghost function PlannedRows(job: Job, meta: seq<DocMeta>, n: nat, plan: Plan): set<UrlKey>
    requires n <= |meta|
  {
    set i | 0 <= i < n && PlanFor(job.opts, job.run.now, meta[i]) == plan :: meta[i].urlKey
  }

  lemma PlannedNext(job: Job, dim: nat, p: Parts, n: nat, plan: Plan)
    requires Aligned(dim, p) && n < |p.meta|
    ensures p.meta[n].urlKey !in PlannedRows(job, p.meta, n, plan)
    ensures PlannedRows(job, p.meta, n + 1, plan) == PlannedRows(job, p.meta, n, plan)
      + (if PlanFor(job.opts, job.run.now, p.meta[n]) == plan then {p.meta[n].urlKey} else {})
  {
    hide PlanFor, Cells;
    forall i | 0 <= i < n ensures p.meta[i].urlKey != p.meta[n].urlKey {
      assert p.urlIndex[p.meta[i].urlKey] == i;
    }
  }

  lemma PlannedAll(job: Job, dim: nat, p: Parts, plan: Plan)
    requires Aligned(dim, p)
    ensures PlannedRows(job, p.meta, |p.meta|, plan) == Planned(job, ViewOf(dim, p), plan)
  {
    ViewAt(dim, p);
    hide ViewOf, PlanFor, Cells, VectorAt;
    var v := ViewOf(dim, p);
    forall k ensures k in PlannedRows(job, p.meta, |p.meta|, plan) <==> k in Planned(job, v, plan) {
      if k in v {
        assert v[k].meta == p.meta[p.urlIndex[k]];
      }
    }
  }

  /** The URL of every listed link is the stored one, read back. */
  ghost predicate StoredUrls(job: Job, v: View, urls: seq<Url>)
    requires Rekeys(job, v)
  {
    forall u :: u in urls ==> job.run.setup.key(u) in v && UrlOf(job, v[job.run.setup.key(u)]) == u
  }

  /** Planning lists every link planned for, once, with the URL it is stored under. */
  lemma {:induction false} PlannedListed(job: Job, dim: nat, p: Parts, n: nat, plan: Plan)
    requires Aligned(dim, p) && Rekeys(job, ViewOf(dim, p)) && n <= |p.meta|
    ensures var urls := PlannedUrls(job, p.meta[..n], plan);
      Lists(UrlKeysOf(job, urls), PlannedRows(job, p.meta, n, plan)) && StoredUrls(job, ViewOf(dim, p), urls)
  {
    if n > 0 {
      assert p.meta[..n][..n - 1] == p.meta[..n - 1];
      PlannedListed(job, dim, p, n - 1, plan);
      PlannedNext(job, dim, p, n - 1, plan);
      var v, d, rest := ViewOf(dim, p), p.meta[n - 1], PlannedUrls(job, p.meta[..n - 1], plan);
      assert d.urlKey in v && v[d.urlKey].meta == d by {
        ViewAt(dim, p);
        hide ViewOf, Cells, VectorAt;
      }
      hide PlanFor, ViewOf, Aligned, PlannedRows, Lists, StoredUrls, UrlKeysOf;
      ListMore(job, v, rest, d.urlKey, PlannedRows(job, p.meta, n - 1, plan));
    }
  }

  lemma ListMore(job: Job, v: View, urls: seq<Url>, k: UrlKey, rows: set<UrlKey>)
    requires Rekeys(job, v) && k in v && k !in rows
    requires Lists(UrlKeysOf(job, urls), rows) && StoredUrls(job, v, urls)
    ensures var more := urls + [UrlOf(job, v[k])];
      Lists(UrlKeysOf(job, more), rows + {k}) && StoredUrls(job, v, more)
  {
    assert UrlKeysOf(job, urls + [UrlOf(job, v[k])]) == UrlKeysOf(job, urls) + [k];
    DistinctAppend(UrlKeysOf(job, urls), k);
    hide UrlKeysOf;
  }

  /** Any order of the fetches is such a listing, too. */
  lemma OrderListed(job: Job, v: View, stale: seq<Url>, order: seq<Url>)
    requires Rekeys(job, v) && Lists(UrlKeysOf(job, stale), Planned(job, v, Fetch)) && StoredUrls(job, v, stale)
    requires multiset(order) == multiset(stale)
    ensures Lists(UrlKeysOf(job, order), Planned(job, v, Fetch)) && StoredUrls(job, v, order)
  {
    hide Planned, Rekeys;
    forall i, j | 0 <= i < j < |stale| ensures stale[i] != stale[j] {
      assert UrlKeysOf(job, stale)[i] != UrlKeysOf(job, stale)[j];
    }
    DistinctPermutes(stale, order);
    forall u ensures u in order <==> u in stale {
      assert u in order <==> u in multiset(order);
      assert u in stale <==> u in multiset(stale);
    }
    assert StoredUrls(job, v, order);
    forall i, j | 0 <= i < j < |order| ensures UrlKeysOf(job, order)[i] != UrlKeysOf(job, order)[j] {
      assert order[i] in order && order[j] in order;
    }
    forall k ensures k in UrlKeysOf(job, order) <==> k in UrlKeysOf(job, stale) {
      KeyListed(job, order, k);
      KeyListed(job, stale, k);
    }
  }

  lemma KeyListed(job: Job, urls: seq<Url>, k: UrlKey)
    ensures k in UrlKeysOf(job, urls) <==> exists u :: u in urls && KeyOfUrl(job, u) == k
  {
    if k in UrlKeysOf(job, urls) {
      var i :| 0 <= i < |urls| && UrlKeysOf(job, urls)[i] == k;
      assert urls[i] in urls;
    }
    if u :| u in urls && KeyOfUrl(job, u) == k {
      var i :| 0 <= i < |urls| && urls[i] == u;
      assert UrlKeysOf(job, urls)[i] == k;
    }
  }

  // ---- age eviction ----

  lemma AgedGo(job: Job, v: View, urls: seq<Url>)
    requires Rekeys(job, v) && Lists(UrlKeysOf(job, urls), Planned(job, v, AgeOut))
    ensures Evicted(job, v, urls) == (Stage(job, v, {}), |Planned(job, v, AgeOut)|)
  {
    AgedStage(job, v);
    EvictedSize(job, v, urls);
    AgedKnown(job, v);
    hide Planned, Stage, Evicted, Rekeys, UrlKeysOf;
    forall k
      ensures k in Evicted(job, v, urls).0 <==> k in v && k !in Planned(job, v, AgeOut)
      ensures k in Evicted(job, v, urls).0 ==> Evicted(job, v, urls).0[k] == v[k]
    {
      EvictedIff(job, v, urls, k);
      KeyListed(job, urls, k);
    }
    Leaves(v, Evicted(job, v, urls).0, Planned(job, v, AgeOut));
  }

  lemma AgedKnown(job: Job, v: View)
    ensures Planned(job, v, AgeOut) <= v.Keys
  {}

  lemma Leaves(v: View, left: View, gone: set<UrlKey>)
    requires gone <= v.Keys
    requires forall k :: (k in left <==> k in v && k !in gone) && (k in left ==> left[k] == v[k])
    ensures left == v - gone && |left| == |v| - |gone|
  {
    assert left == v - gone;
    assert |left| == |left.Keys| && |v| == |v.Keys| && left.Keys == v.Keys - gone;
  }

  lemma DistinctInit(keys: seq<UrlKey>, k: UrlKey)
    requires Distinct(keys + [k])
    ensures Distinct(keys) && k !in keys
  {
    forall i | 0 <= i < |keys| ensures keys[i] != k {
      assert (keys + [k])[i] != (keys + [k])[|keys|];
    }
    forall i, j | 0 <= i < j < |keys| ensures keys[i] != keys[j] {
      assert (keys + [k])[i] != (keys + [k])[j];
    }
  }

  lemma AgedStage(job: Job, v: View)
    requires Rekeys(job, v)
    ensures Stage(job, v, {}) == v - Planned(job, v, AgeOut)
  {
    hide PlanFor, Settled;
  }

  /** A changed page set aside for embedding. */
  ghost predicate Waits(job: Job, v: View, p: Page)
    requires Rekeys(job, v)
  {
    var k := KeyOfPage(job.run, p);
    && k in Planned(job, v, Fetch) && AnswerTo(job, v[k]).Changed? && AnswerTo(job, v[k]).descriptor.Some?
    && p == PageFor(UrlOf(job, v[k]), AnswerTo(job, v[k]))
  }

  function WaitingKeys(job: Job, pages: seq<Page>): (r: seq<UrlKey>)
    ensures |r| == |pages|
  {
    seq(|pages|, i requires 0 <= i < |pages| => KeyOfPage(job.run, pages[i]))
  }

  ghost predicate AllWait(job: Job, v: View, pages: seq<Page>)
    requires Rekeys(job, v)
  {
    forall p :: p in pages ==> Waits(job, v, p)
  }

  lemma VerdictFor(job: Job, e: Entry, k: UrlKey)
    requires RekeysTo(job, e, k)
    ensures var a, verdict := AnswerTo(job, e), Outcome(job, e, k).1;
      && (a.NotModified? || (a.Changed? && a.descriptor.None?) ==> verdict == Same)
      && (a.Gone? ==> verdict == if job.opts.evictUnreachable && !e.meta.pinned then Dropped else Failed)
      && (a.Transient? ==> verdict == Failed)
  {}

  /** A fetched link about to be settled. */
  ghost predicate Due(job: Job, v: View, done: set<UrlKey>, url: Url)
    requires Rekeys(job, v)
  {
    var k := KeyOfUrl(job, url);
    k in Planned(job, v, Fetch) && k !in done && url == UrlOf(job, v[k])
  }

  lemma PageCounts(job: Job, e: Entry, url: Url, report: RefreshReport)
    requires RekeysTo(job, e, KeyOfUrl(job, url))
    ensures var k := KeyOfUrl(job, url);
      var verdict := Outcome(job, e, k).1;
      var page := PageOf(job, url, ChangeFor(verdict));
      var pages := report.pages + [page];
      Counted(job, e, k, report,
        match verdict
        case Refreshed => report.(refreshed := report.refreshed + 1, pages := pages)
        case Same => report.(same := report.same + 1, pages := pages)
        case Dropped => report.(removed := report.removed + 1, pages := pages)
        case Failed => report.(failed := report.failed + 1), page)
  {
    hide Outcome;
  }

  lemma ProgressView(job: Job, v: View, done: set<UrlKey>, aged: nat, view: View, report: RefreshReport)
    requires Rekeys(job, v) && Progress(job, v, done, aged, view, report)
    ensures view == Stage(job, v, done)
  {}

  lemma WaitNext(job: Job, v: View, done: set<UrlKey>, pending: seq<Page>, url: Url)
    requires Rekeys(job, v) && Due(job, v, done, url) && AllWait(job, v, pending) && WaitsFor(job, url)
    ensures var p := PageFor(url, job.answer(url));
      && AllWait(job, v, pending + [p])
      && WaitingKeys(job, pending + [p]) == WaitingKeys(job, pending) + [KeyOfUrl(job, url)]
  {
    hide PlanFor;
  }

  /** The links under `keys` are settled or wait, and none is both. */
  ghost predicate SettledOrWaiting(keys: seq<UrlKey>, done: set<UrlKey>, waiting: seq<UrlKey>) {
    && Distinct(waiting)
    && (forall k :: k in keys <==> k in done || k in waiting)
    && forall k :: k in done ==> k !in waiting
  }

  // ---- the fetches, in any order ----

  predicate PinsKnown(v: View, pinned: set<UrlKey>) { forall k :: k in v ==> (k in pinned <==> v[k].meta.pinned) }

  /** A fetch that leaves nothing waiting settles its link. */
  lemma SettleStep(job: Job, v: View, done: set<UrlKey>, aged: nat, pinned: set<UrlKey>, w: Work, url: Url)
    requires Rekeys(job, v) && Due(job, v, done, url) && PinsKnown(v, pinned) && AllIndexable(w.pending)
    requires Progress(job, v, done, aged, w.view, w.report) && !WaitsFor(job, url)
    ensures var r := Applied(job, pinned, w, url);
      r.pending == w.pending && Progress(job, v, done + {KeyOfUrl(job, url)}, aged, r.view, r.report)
  {
    var k := KeyOfUrl(job, url);
    VerdictFor(job, v[k], k);
    PageCounts(job, v[k], url, w.report);
    ProgressView(job, v, done, aged, w.view, w.report);
    var r, verdict := Applied(job, pinned, w, url), Outcome(job, v[k], k).1;
    if verdict == Same {
      TouchStep(job, v, done, k);
    } else if verdict == Dropped {
      DropStep(job, v, done, k);
    } else {
      FailStep(job, v, done, k);
    }
    hide Progress, Stage, Planned, Counted, Outcome, Rekeys, Removed, Touched;
    assert r.view == Stage(job, v, done + {k});
    ProgressNext(job, v, done, aged, w.view, w.report, k, r.report, PageOf(job, url, ChangeFor(verdict)));
  }

  /** Once some fetches have completed, each of their links is settled or waits, and none is both. */
  lemma {:induction false} FetchProgress(job: Job, v: View, aged: nat, pinned: set<UrlKey>, w: Work, urls: seq<Url>)
    returns (done: set<UrlKey>)
    requires Rekeys(job, v) && PinsKnown(v, pinned) && w.pending == []
    requires Progress(job, v, {}, aged, w.view, w.report)
    requires Distinct(UrlKeysOf(job, urls)) && StoredUrls(job, v, urls)
    requires forall k :: k in UrlKeysOf(job, urls) ==> k in Planned(job, v, Fetch)
    ensures var r := AppliedAll(job, pinned, w, urls);
      && Progress(job, v, done, aged, r.view, r.report) && AllWait(job, v, r.pending)
      && SettledOrWaiting(UrlKeysOf(job, urls), done, WaitingKeys(job, r.pending))
  {
    if urls == [] {
      done := {};
    } else {
      var init, url := urls[..|urls| - 1], urls[|urls| - 1];
      var k, keys := KeyOfUrl(job, url), UrlKeysOf(job, init);
      LastUrl(job, v, urls);
      done := FetchProgress(job, v, aged, pinned, w, init);
      var x := AppliedAll(job, pinned, w, init);
      var waiting := WaitingKeys(job, x.pending);
      hide Planned, Progress, Rekeys, Waits, WaitingKeys, UrlKeysOf, StoredUrls, AllWait;
      assert Due(job, v, done, url);
      if WaitsFor(job, url) {
        WaitNext(job, v, done, x.pending, url);
        WaitLanded(keys, done, waiting, k);
      } else {
        SettleStep(job, v, done, aged, pinned, x, url);
        SettleLanded(keys, done, waiting, k);
        done := done + {k};
      }
    }
  }

  lemma LastUrl(job: Job, v: View, urls: seq<Url>)
    requires Rekeys(job, v) && urls != []
    requires Distinct(UrlKeysOf(job, urls)) && StoredUrls(job, v, urls)
    ensures var init, url := urls[..|urls| - 1], urls[|urls| - 1];
      var k := KeyOfUrl(job, url);
      && UrlKeysOf(job, urls) == UrlKeysOf(job, init) + [k] && k !in UrlKeysOf(job, init)
      && Distinct(UrlKeysOf(job, init)) && StoredUrls(job, v, init) && k in v && url == UrlOf(job, v[k])
  {
    var init, url := urls[..|urls| - 1], urls[|urls| - 1];
    assert UrlKeysOf(job, urls) == UrlKeysOf(job, init) + [KeyOfUrl(job, url)];
    assert url in urls;
    DistinctInit(UrlKeysOf(job, init), KeyOfUrl(job, url));
    hide Rekeys;
  }

  lemma SettleLanded(keys: seq<UrlKey>, done: set<UrlKey>, waiting: seq<UrlKey>, k: UrlKey)
    requires SettledOrWaiting(keys, done, waiting) && k !in keys
    ensures SettledOrWaiting(keys + [k], done + {k}, waiting)
  {}

  lemma WaitLanded(keys: seq<UrlKey>, done: set<UrlKey>, waiting: seq<UrlKey>, k: UrlKey)
    requires SettledOrWaiting(keys, done, waiting) && k !in keys
    ensures SettledOrWaiting(keys + [k], done, waiting + [k])
  {
    DistinctAppend(waiting, k);
  }

  // ---- the changed pages ----

  /** Taking a waiting page settles its link. */
  lemma TakeStep(job: Job, v: View, done: set<UrlKey>, aged: nat, r: Standing, p: Page)
    requires Rekeys(job, v) && Waits(job, v, p) && KeyOfPage(job.run, p) !in done
    requires Progress(job, v, done, aged, r.0, r.1)
    ensures p.descriptor.Some?
    ensures var q := Taken(job, r, p); Progress(job, v, done + {KeyOfPage(job.run, p)}, aged, q.0, q.1)
  {
    var k := KeyOfPage(job.run, p);
    UpsertStep(job, v, done, k);
    ProgressView(job, v, done, aged, r.0, r.1);
    PageCounts(job, v[k], p.url, r.1);
    var q, verdict := Taken(job, r, p), Outcome(job, v[k], k).1;
    if verdict == Same {
      TouchStep(job, v, done, k);
    }
    hide Progress, Stage, Planned, Counted, Outcome, Rekeys, EntryFor, Upserted, ToDocument;
    assert q.0 == Stage(job, v, done + {k});
    ProgressNext(job, v, done, aged, r.0, r.1, k, q.1, PageOf(job, p.url, ChangeFor(verdict)));
  }

  lemma {:induction false} TakeProgress(job: Job, v: View, done: set<UrlKey>, aged: nat, r: Standing, pages: seq<Page>)
    returns (settled: set<UrlKey>)
    requires Rekeys(job, v) && AllWait(job, v, pages) && AllIndexable(pages) && Progress(job, v, done, aged, r.0, r.1)
    requires Distinct(WaitingKeys(job, pages)) && forall k :: k in done ==> k !in WaitingKeys(job, pages)
    ensures var q := TakenAll(job, r, pages); Progress(job, v, settled, aged, q.0, q.1)
    ensures forall k :: k in settled <==> k in done || k in WaitingKeys(job, pages)
  {
    if pages == [] {
      settled := done;
    } else {
      var init, p := pages[..|pages| - 1], pages[|pages| - 1];
      assert WaitingKeys(job, pages) == WaitingKeys(job, init) + [KeyOfPage(job.run, p)];
      DistinctInit(WaitingKeys(job, init), KeyOfPage(job.run, p));
      assert p in pages && forall x :: x in init ==> x in pages;
      hide Progress, Waits, Rekeys, WaitingKeys, Taken;
      settled := TakeProgress(job, v, done, aged, r, init);
      TakeStep(job, v, settled, aged, TakenAll(job, r, init), p);
      settled := settled + {KeyOfPage(job.run, p)};
    }
  }

  // ---- the whole refresh ----

  /** What a complete refresh reports. */
  ghost predicate ReportFor(job: Job, v: View, report: RefreshReport)
    requires Rekeys(job, v)
  {
    Progress(job, v, Planned(job, v, Fetch), |Planned(job, v, AgeOut)|, RefreshedView(job, v), report)
  }

  lemma NothingSettled(job: Job, v: View, aged: nat)
    requires Rekeys(job, v)
    ensures Progress(job, v, {}, aged, Stage(job, v, {}), RefreshReport(0, 0, aged, 0, []))
  {
    hide Stage, Outcome;
  }

  lemma PinsOf(dim: nat, p: Parts)
    requires Aligned(dim, p)
    ensures PinsKnown(ViewOf(dim, p), PinnedKeys(p.meta))
  {
    ViewAt(dim, p);
    hide ViewOf, Cells, VectorAt;
  }

  /** Whatever order the fetches complete in, index and report are the ones determined by the plan
      and the answers. */
  lemma RefreshIsDetermined(job: Job, dim: nat, p: Parts, order: seq<Url>)
    requires Aligned(dim, p) && Rekeys(job, ViewOf(dim, p)) && PossibleOrder(job, p.meta, order)
    ensures var (view, report) := RefreshedBy(job, ViewOf(dim, p), p.meta, order);
      view == RefreshedView(job, ViewOf(dim, p)) && ReportFor(job, ViewOf(dim, p), report)
  {
    var v, n, aged := ViewOf(dim, p), |p.meta|, |Planned(job, ViewOf(dim, p), AgeOut)|;
    assert p.meta[..n] == p.meta;
    PlannedListed(job, dim, p, n, AgeOut);
    PlannedListed(job, dim, p, n, Fetch);
    PlannedAll(job, dim, p, AgeOut);
    PlannedAll(job, dim, p, Fetch);
    PinsOf(dim, p);
    hide ViewOf, Aligned, Rekeys, Planned, PlannedRows, PlannedUrls, PinsKnown, StoredUrls, UrlKeysOf;
    hide AppliedAll, TakenAll, Evicted, Progress, Stage, PinnedKeys, AllWait, WaitingKeys;
    AgedGo(job, v, PlannedUrls(job, p.meta, AgeOut));
    OrderListed(job, v, PlannedUrls(job, p.meta, Fetch), order);
    NothingSettled(job, v, aged);
    var begun := Begun(job, v, p.meta);
    var done := FetchProgress(job, v, aged, PinnedKeys(p.meta), begun, order);
    var w := AppliedAll(job, PinnedKeys(p.meta), begun, order);
    var settled := TakeProgress(job, v, done, aged, (w.view, w.report), w.pending);
    assert settled == Planned(job, v, Fetch);
    var (view, report) := RefreshedBy(job, v, p.meta, order);
    ProgressView(job, v, settled, aged, view, report);
  }

  // ---- what the result means ----

  /** Retention: nothing outside the chosen links is touched, no link that was pinned is removed,
      a pin survives, and every link counted unchanged or refreshed is stamped with the new time. */
  lemma RefreshRetains(job: Job, v: View)
    requires Rekeys(job, v)
    ensures var r := RefreshedView(job, v);
      && r.Keys <= v.Keys
      && (job.opts.urls.Some? ==> forall k :: k in v && k !in job.opts.urls.value ==> k in r && r[k] == v[k])
      && (forall k :: k in v && v[k].meta.pinned ==> k in r && r[k].meta.pinned)
      && (forall k :: k in Planned(job, v, Fetch) && Outcome(job, v[k], k).1 in {Refreshed, Same} ==>
            k in r && r[k].meta.fetchedAtMs == job.run.now)
  {
    var r := RefreshedView(job, v);
    hide Outcome;
    forall k | k in v
      ensures v[k].meta.pinned ==> k in r && r[k].meta.pinned
      ensures job.opts.urls.Some? && k !in job.opts.urls.value ==> k in r && r[k] == v[k]
      ensures k in Planned(job, v, Fetch) && Outcome(job, v[k], k).1 in {Refreshed, Same} ==>
        k in r && r[k].meta.fetchedAtMs == job.run.now
    {
      EntryFate(job, v[k], k);
      hide PlanFor, RekeysTo;
    }
  }

  /** What a refresh can do to one entry. */
  lemma EntryFate(job: Job, e: Entry, k: UrlKey)
    requires RekeysTo(job, e, k)
    ensures var o := Outcome(job, e, k);
      && (e.meta.pinned ==> !PlanOf(job, e).AgeOut? && o.0.Some? && o.0.value.meta.pinned)
      && (job.opts.urls.Some? && k !in job.opts.urls.value ==> PlanOf(job, e).Leave?)
      && (o.1 in {Refreshed, Same} ==> o.0.Some? && o.0.value.meta.fetchedAtMs == job.run.now)
  {}

  lemma VerdictSizes(job: Job, v: View, done: set<UrlKey>)
    requires Rekeys(job, v) && done <= v.Keys
    ensures |With(job, v, done, Refreshed)| + |With(job, v, done, Same)| + |With(job, v, done, Dropped)|
            + |With(job, v, done, Failed)| == |done|
    decreases done
  {
    hide With, Outcome;
    if done == {} {
      WithInside(job, v, {}, Refreshed);
      WithInside(job, v, {}, Same);
      WithInside(job, v, {}, Dropped);
      WithInside(job, v, {}, Failed);
    } else {
      var k :| k in done;
      VerdictSizes(job, v, done - {k});
      assert done == (done - {k}) + {k};
      CountsNext(job, v, done - {k}, k);
    }
  }

  lemma RemovedKeysOf(job: Job, v: View)
    requires Rekeys(job, v)
    ensures var gone := Planned(job, v, AgeOut) + With(job, v, Planned(job, v, Fetch), Dropped);
      && RefreshedView(job, v).Keys == v.Keys - gone && gone <= v.Keys
      && |gone| == |Planned(job, v, AgeOut)| + |With(job, v, Planned(job, v, Fetch), Dropped)|
  {
    var fetched := Planned(job, v, Fetch);
    var dropped := With(job, v, fetched, Dropped);
    hide PlanFor;
    assert Planned(job, v, AgeOut) !! dropped;
    forall k | k in v ensures k in RefreshedView(job, v) <==> k !in Planned(job, v, AgeOut) + dropped {
      DroppedIff(job, v[k], k);
      hide Settled;
    }
  }

  lemma DroppedIff(job: Job, e: Entry, k: UrlKey)
    requires RekeysTo(job, e, k)
    ensures Outcome(job, e, k).0 == None <==> Outcome(job, e, k).1 == Dropped
  {}

  /** Accounting: the total is every link fetched or evicted by age, the index shrinks by exactly
      the links reported removed, and there is a page for every link acted on except failures and
      age evictions. */
  lemma RefreshAccounts(job: Job, v: View, report: RefreshReport)
    requires Rekeys(job, v) && ReportFor(job, v, report)
    ensures report.Total() == |Planned(job, v, Fetch)| + |Planned(job, v, AgeOut)|
    ensures |RefreshedView(job, v)| == |v| - report.removed
    ensures |report.pages| == report.Total() - report.failed - |Planned(job, v, AgeOut)|
  {
    var fetched := Planned(job, v, Fetch);
    VerdictSizes(job, v, fetched);
    RemovedKeysOf(job, v);
    assert |RefreshedView(job, v)| == |RefreshedView(job, v).Keys| && |v| == |v.Keys|;
    WithInside(job, v, fetched, Failed);
    hide Planned, With, RefreshedView, Outcome;
    ListingSize(PageKeys(report.pages), fetched - With(job, v, fetched, Failed));
  }
}
