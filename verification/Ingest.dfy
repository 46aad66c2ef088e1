/** Ingesting a crawl: unchanged and empty pages are counted, the rest embedded and upserted in
    batches. */
module Ingest {
  import opened Common
  import opened Documents
  import opened Builder

  /** The cap on a page's terms. */
  const MAX_BM25_TERMS: nat := 4096

  datatype Distilled = Distilled(
    title: Option<string>,
    snippet: string,
    lang: Option<string>,
    tags: seq<string>,
    terms: seq<Term>,
    edges: seq<UrlKey>,
    embedText: string)

  /** What extraction yields for a page with content. */
  type Descriptor = d: Distilled | |d.terms| <= MAX_BM25_TERMS witness Distilled(None, "", None, [], [], [], "")

  /** A fetched page; no descriptor means nothing worth indexing. */
  datatype Page = Page(
    url: Url,
    kind: nat,
    contentHash: nat,
    etag: Option<string>,
    descriptor: Option<Descriptor>)

  datatype Counts = Counts(added: nat, updated: nat, same: nat, skipped: nat) {
    function Total(): nat { added + updated + same + skipped }
  }

  const NONE := Counts(0, 0, 0, 0)
  const ONE_UNCHANGED := Counts(0, 0, 1, 0)
  const ONE_SKIPPED := Counts(0, 0, 0, 1)

  function Plus(a: Counts, b: Counts): Counts {
    Counts(a.added + b.added, a.updated + b.updated, a.same + b.same, a.skipped + b.skipped)
  }

  function CountOf(outcome: UpsertOutcome): Counts {
    match outcome
    case Added => Counts(1, 0, 0, 0)
    case Updated => Counts(0, 1, 0, 0)
    case Unchanged => ONE_UNCHANGED
  }

  /** How pages become records in one run. */
  datatype Run = Run(setup: Setup, embed: string -> seq<real>, now: nat, pin: bool)

  ghost predicate RunOk(run: Run) {
    SetupOk(run.setup) && forall t :: |run.embed(t)| == run.setup.dim
  }

  function ToDocument(run: Run, p: Page): Document
    requires p.descriptor.Some?
  {
    var d := p.descriptor.value;
    Document(p.url, p.kind, p.contentHash, d.title, d.snippet, d.lang, d.tags, d.terms, run.embed(d.embedText),
             d.edges, run.now, p.etag, run.pin)
  }

  function KeyOfPage(run: Run, p: Page): UrlKey { run.setup.key(p.url) }

  // ---- one page after the other ----

  /** The index and the counts so far. */
  type Tally = (View, Counts)

  predicate SameHash(v: View, key: UrlKey, hash: nat) {
    key in v && v[key].meta.contentHash == hash
  }

  function UpsertPage(run: Run, t: Tally, p: Page): Tally
    requires p.descriptor.Some?
  {
    var (v, outcome) := Upserted(t.0, KeyOfPage(run, p), EntryFor(run.setup, ToDocument(run, p)));
    (v, Plus(t.1, CountOf(outcome)))
  }

  /** A page considered on its own. */
  function TakePage(run: Run, t: Tally, p: Page): Tally {
    if SameHash(t.0, KeyOfPage(run, p), p.contentHash) then (t.0, Plus(t.1, ONE_UNCHANGED))
    else if p.descriptor.None? then (t.0, Plus(t.1, ONE_SKIPPED))
    else UpsertPage(run, t, p)
  }

  function OneByOne(run: Run, t: Tally, pages: seq<Page>): Tally {
    if pages == [] then t
    else TakePage(run, OneByOne(run, t, pages[..|pages| - 1]), pages[|pages| - 1])
  }

  // ---- in batches ----

  predicate AllIndexable(pages: seq<Page>) { forall p :: p in pages ==> p.descriptor.Some? }

  function Flush(run: Run, t: Tally, pending: seq<Page>): Tally
    requires AllIndexable(pending)
  {
    if pending == [] then t
    else
      assert pending[|pending| - 1] in pending;
      UpsertPage(run, Flush(run, t, pending[..|pending| - 1]), pending[|pending| - 1])
  }

  /** The tally and the pages waiting for a full batch. */
  type Queue = (Tally, seq<Page>)

  /** One page of the stream. */
  function Feed(run: Run, q: Queue, p: Page, batch: nat): (r: Queue)
    requires AllIndexable(q.1)
    ensures AllIndexable(r.1)
  {
    var (t, pending) := q;
    if SameHash(t.0, KeyOfPage(run, p), p.contentHash) then ((t.0, Plus(t.1, ONE_UNCHANGED)), pending)
    else if p.descriptor.None? then ((t.0, Plus(t.1, ONE_SKIPPED)), pending)
    else if |pending| + 1 == batch then (Flush(run, t, pending + [p]), [])
    else (t, pending + [p])
  }

  function FeedAll(run: Run, t: Tally, pages: seq<Page>, batch: nat): (r: Queue)
    ensures AllIndexable(r.1)
  {
    if pages == [] then (t, []) else Feed(run, FeedAll(run, t, pages[..|pages| - 1], batch), pages[|pages| - 1], batch)
  }

  /** What a complete run leaves: everything fed, the last batch flushed. */
  function Ingested(run: Run, t: Tally, pages: seq<Page>, batch: nat): Tally {
    var q := FeedAll(run, t, pages, batch);
    Flush(run, q.0, q.1)
  }

  // ---- the code ----

  datatype PageChange = WasAdded | WasUpdated | WasUnchanged | WasSkipped | WasRemoved

  datatype PageOutcome = PageOutcome(url: string, urlKey: UrlKey, change: PageChange)

  datatype Report = Report(counts: Counts, pages: seq<PageOutcome>)

  function OutcomeOf(run: Run, p: Page, change: PageChange): PageOutcome {
    PageOutcome(run.setup.canonical(p.url), KeyOfPage(run, p), change)
  }

  function ChangeOf(outcome: UpsertOutcome): PageChange {
    match outcome
    case Added => WasAdded
    case Updated => WasUpdated
    case Unchanged => WasUnchanged
  }

  method FlushBatch(builder: IndexBuilder, run: Run, pending: seq<Page>, report: Report) returns (report': Report)
    requires builder.Valid() && builder.setup == run.setup && RunOk(run) && AllIndexable(pending)
    modifies builder
    ensures builder.Valid()
    ensures (builder.AsMap(), report'.counts) == Flush(run, (old(builder.AsMap()), report.counts), pending)
    ensures |report'.pages| == |report.pages| + |pending|
  {
    hide EntryFor, Upserted;
    report' := report;
    ghost var start := (builder.AsMap(), report.counts);
    for i := 0 to |pending|
      invariant builder.Valid()
      invariant AllIndexable(pending[..i])
      invariant (builder.AsMap(), report'.counts) == Flush(run, start, pending[..i])
      invariant |report'.pages| == |report.pages| + i
    {
      var p := pending[i];
      assert pending[..i + 1][..i] == pending[..i];
      assert p in pending;
      var doc := ToDocument(run, p);
      var outcome := builder.UpsertDoc(doc);
      report' := Report(Plus(report'.counts, CountOf(outcome.value)),
                        report'.pages + [OutcomeOf(run, p, ChangeOf(outcome.value))]);
      assert pending[..i + 1] == pending[..i] + [p];
    }
    assert pending[..|pending|] == pending;
  }

  /** The pages before the first failed item of a stream. */
  function Arrived<E>(items: seq<Result<Page, E>>): seq<Page> {
    if items == [] || items[0].Err? then [] else [items[0].value] + Arrived(items[1..])
  }

  lemma {:induction false} ArrivedNext<E>(items: seq<Result<Page, E>>, i: nat)
    requires i < |items| && forall j :: 0 <= j < i ==> items[j].Ok?
    ensures |Arrived(items)| >= i
    ensures items[i].Err? ==> |Arrived(items)| == i
    ensures items[i].Ok? ==> |Arrived(items)| > i && Arrived(items)[i] == items[i].value
  {
    if i > 0 {
      ArrivedNext(items[1..], i - 1);
    }
  }

  lemma {:induction false} ArrivedAll<E>(items: seq<Result<Page, E>>)
    requires forall j :: 0 <= j < |items| ==> items[j].Ok?
    ensures |Arrived(items)| == |items|
  {
    if items != [] {
      ArrivedAll(items[1..]);
    }
  }

  /** Drive a run from a stream of pages. A failed item ends it at once: what was flushed stays,
      what was waiting is dropped. */
  method IngestInto<E>(builder: IndexBuilder, run: Run, items: seq<Result<Page, E>>, embedBatch: nat)
    returns (r: Result<Report, E>)
    requires builder.Valid() && builder.setup == run.setup && RunOk(run)
    modifies builder
    ensures builder.Valid()
    ensures var batch := if embedBatch < 1 then 1 else embedBatch;
      var start := (old(builder.AsMap()), NONE);
      var pages := Arrived(items);
      && (r.Ok? <==> |pages| == |items|)
      && (r.Ok? ==> (builder.AsMap(), r.value.counts) == Ingested(run, start, pages, batch)
                    && |r.value.pages| == |pages|)
      && (r.Err? ==> |pages| < |items| && items[|pages|] == Err(r.error)
                     && builder.AsMap() == FeedAll(run, start, pages, batch).0.0)
  {
    var batch := if embedBatch < 1 then 1 else embedBatch;
    var report := Report(NONE, []);
    var pending: seq<Page> := [];
    ghost var start := (builder.AsMap(), NONE);
    ghost var pages := Arrived(items);
    assert pages[..0] == [] && FeedAll(run, start, [], batch) == (start, []);
    hide Arrived, EntryFor, Upserted, FeedAll, Flush, ViewOf, Aligned, RunOk, SetupOk;
    for i := 0 to |items|
      invariant builder.Valid() && AllIndexable(pending) && i <= |pages|
      invariant forall j :: 0 <= j < i ==> items[j].Ok?
      invariant ((builder.AsMap(), report.counts), pending) == FeedAll(run, start, pages[..i], batch)
      invariant |report.pages| + |pending| == i
    {
      ArrivedNext(items, i);
      if items[i].Err? {
        assert pages[..i] == pages;
        return Err(items[i].error);
      }
      FeedNext(run, start, pages, i, batch);
      report, pending := TakeItem(builder, run, items[i].value, batch, pending, report);
    }
    ArrivedAll(items);
    assert pages[..|items|] == pages;
    report := FlushBatch(builder, run, pending, report);
    r := Ok(report);
  }

  /** One page of the stream: counted at once, or set aside until the batch is full. */
  method TakeItem(builder: IndexBuilder, run: Run, p: Page, batch: nat, pending: seq<Page>, report: Report)
    returns (report': Report, pending': seq<Page>)
    requires builder.Valid() && builder.setup == run.setup && RunOk(run) && AllIndexable(pending)
    modifies builder
    ensures builder.Valid() && AllIndexable(pending')
    ensures ((builder.AsMap(), report'.counts), pending')
         == Feed(run, ((old(builder.AsMap()), report.counts), pending), p, batch)
    ensures |report'.pages| + |pending'| == |report.pages| + |pending| + 1
  {
    report', pending' := report, pending;
    var same := builder.IsUnchanged(p.url, p.contentHash);
    hide Flush, EntryFor;
    if same {
      report' := Report(Plus(report.counts, ONE_UNCHANGED), report.pages + [OutcomeOf(run, p, WasUnchanged)]);
    } else if p.descriptor.None? {
      report' := Report(Plus(report.counts, ONE_SKIPPED), report.pages + [OutcomeOf(run, p, WasSkipped)]);
    } else {
      pending' := pending + [p];
      if |pending'| == batch {
        report' := FlushBatch(builder, run, pending', report);
        pending' := [];
      }
    }
  }

  lemma FeedNext(run: Run, t: Tally, pages: seq<Page>, i: nat, batch: nat)
    requires i < |pages|
    ensures FeedAll(run, t, pages[..i + 1], batch) == Feed(run, FeedAll(run, t, pages[..i], batch), pages[i], batch)
  {
    assert pages[..i + 1][..i] == pages[..i];
  }

  // ---- what a run does to the index ----

  lemma UpsertedSize(v: View, key: UrlKey, e: Entry)
    ensures var (r, outcome) := Upserted(v, key, e);
      |r| == |v| + CountOf(outcome).added && v.Keys <= r.Keys
  {
    if key in v {
      assert v[key := e].Keys == v.Keys;
    } else {
      assert v[key := e].Keys == v.Keys + {key};
    }
    assert |v| == |v.Keys|;
  }

  /** `n` pages counted, the index grown by the added ones, nothing lost. */
  ghost predicate Accounts(was: Tally, now: Tally, n: nat) {
    && now.1.Total() == was.1.Total() + n
    && |now.0| - now.1.added == |was.0| - was.1.added
    && was.0.Keys <= now.0.Keys
  }

  lemma UpsertAccounts(run: Run, t: Tally, p: Page)
    requires p.descriptor.Some?
    ensures Accounts(t, UpsertPage(run, t, p), 1)
  {
    UpsertedSize(t.0, KeyOfPage(run, p), EntryFor(run.setup, ToDocument(run, p)));
    hide EntryFor, Upserted, ToDocument;
  }

  lemma {:induction false} FlushAccounts(run: Run, t: Tally, pending: seq<Page>)
    requires AllIndexable(pending)
    ensures Accounts(t, Flush(run, t, pending), |pending|)
  {
    if pending != [] {
      var init, p := pending[..|pending| - 1], pending[|pending| - 1];
      assert p in pending && forall w :: w in init ==> w in pending;
      FlushAccounts(run, t, init);
      UpsertAccounts(run, Flush(run, t, init), p);
      hide UpsertPage;
    }
  }

  lemma {:induction false} FeedAccounts(run: Run, t: Tally, pages: seq<Page>, batch: nat)
    ensures var q := FeedAll(run, t, pages, batch);
      |q.1| <= |pages| && Accounts(t, q.0, |pages| - |q.1|)
  {
    if pages == [] {
      assert Accounts(t, t, 0);
    } else {
      hide Feed, Accounts;
      var n := |pages| - 1;
      FeedAccounts(run, t, pages[..n], batch);
      var q := FeedAll(run, t, pages[..n], batch);
      FedAccounts(run, q, pages[n], batch);
      AccountsAdd(t, q.0, Feed(run, q, pages[n], batch).0, n - |q.1|, |q.1| + 1 - |Feed(run, q, pages[n], batch).1|);
    }
  }

  lemma AccountsAdd(t: Tally, u: Tally, w: Tally, m: nat, n: nat)
    requires Accounts(t, u, m) && Accounts(u, w, n)
    ensures Accounts(t, w, m + n)
  {}

  /** One page fed: it waits with the others, or it and they are counted. */
  lemma FedAccounts(run: Run, q: Queue, p: Page, batch: nat)
    requires AllIndexable(q.1)
    ensures var r := Feed(run, q, p, batch);
      |r.1| <= |q.1| + 1 && Accounts(q.0, r.0, |q.1| + 1 - |r.1|)
  {
    if p.descriptor.Some? {
      FlushAccounts(run, q.0, q.1 + [p]);
    }
    hide Flush, SameHash;
  }

  /** Every page is counted once, the number of links grows by exactly the pages added, and no
      link disappears, whatever the batch size and however keys repeat. */
  lemma IngestAccounts(run: Run, t: Tally, pages: seq<Page>, batch: nat)
    ensures Accounts(t, Ingested(run, t, pages, batch), |pages|)
  {
    FeedAccounts(run, t, pages, batch);
    var q := FeedAll(run, t, pages, batch);
    FlushAccounts(run, q.0, q.1);
    hide FeedAll, Flush;
  }
}
