/** Whether the batch size of an ingestion shows: exactly when a key that brought content comes
    again without content or with another. */
module Batching {
  import opened Common
  import opened Documents
  import opened Builder
  import opened Ingest

  /** A key that has brought content brings the same content whenever it comes again. */
  ghost predicate Settles(run: Run, pages: seq<Page>) {
    forall i, j ::
      (0 <= i < j < |pages| && KeyOfPage(run, pages[i]) == KeyOfPage(run, pages[j]) && pages[i].descriptor.Some?) ==>
        pages[j].descriptor.Some? && pages[j].contentHash == pages[i].contentHash
  }

  // ---- hashes in the index ----

  /** The hash of the last page with content for `key`, if any. */
  function LastHash(run: Run, pages: seq<Page>, key: UrlKey): Option<nat> {
    if pages == [] then None
    else
      var p := pages[|pages| - 1];
      if p.descriptor.Some? && KeyOfPage(run, p) == key then Some(p.contentHash)
      else LastHash(run, pages[..|pages| - 1], key)
  }

  lemma UpsertHash(run: Run, t: Tally, p: Page, key: UrlKey, hash: nat)
    requires p.descriptor.Some?
    ensures SameHash(UpsertPage(run, t, p).0, key, hash)
      <==> if key == KeyOfPage(run, p) then hash == p.contentHash else SameHash(t.0, key, hash)
  {
    assert EntryFor(run.setup, ToDocument(run, p)).meta.contentHash == p.contentHash;
    hide EntryFor, ToDocument;
  }

  lemma TakeHash(run: Run, t: Tally, p: Page, key: UrlKey, hash: nat)
    ensures SameHash(TakePage(run, t, p).0, key, hash)
      <==> if p.descriptor.Some? && key == KeyOfPage(run, p) then hash == p.contentHash else SameHash(t.0, key, hash)
  {
    if p.descriptor.Some? {
      UpsertHash(run, t, p, key, hash);
    }
    hide UpsertPage;
  }

  /** Taken one by one, the last page with content decides. */
  lemma {:induction false} HashOneByOne(run: Run, t: Tally, pages: seq<Page>, key: UrlKey, hash: nat)
    ensures SameHash(OneByOne(run, t, pages).0, key, hash)
      <==> if LastHash(run, pages, key).Some? then LastHash(run, pages, key) == Some(hash) else SameHash(t.0, key, hash)
  {
    hide TakePage, SameHash, KeyOfPage;
    if pages != [] {
      HashOneByOne(run, t, pages[..|pages| - 1], key, hash);
      TakeHash(run, OneByOne(run, t, pages[..|pages| - 1]), pages[|pages| - 1], key, hash);
    }
  }

  lemma {:induction false} HashFlushed(run: Run, t: Tally, pending: seq<Page>, key: UrlKey, hash: nat)
    requires AllIndexable(pending)
    ensures SameHash(Flush(run, t, pending).0, key, hash)
      <==> if LastHash(run, pending, key).Some? then LastHash(run, pending, key) == Some(hash)
           else SameHash(t.0, key, hash)
  {
    hide UpsertPage, SameHash, KeyOfPage;
    if pending != [] {
      var init := pending[..|pending| - 1];
      assert pending[|pending| - 1] in pending && forall p :: p in init ==> p in pending;
      HashFlushed(run, t, init, key, hash);
      UpsertHash(run, Flush(run, t, init), pending[|pending| - 1], key, hash);
    }
  }

  lemma {:induction false} LastHashFrom(run: Run, pages: seq<Page>, key: UrlKey) returns (j: nat)
    requires LastHash(run, pages, key).Some?
    ensures j < |pages| && pages[j].descriptor.Some? && KeyOfPage(run, pages[j]) == key
    ensures LastHash(run, pages, key) == Some(pages[j].contentHash)
    ensures forall i :: j < i < |pages| && pages[i].descriptor.Some? ==> KeyOfPage(run, pages[i]) != key
  {
    j := |pages| - 1;
    if !(pages[j].descriptor.Some? && KeyOfPage(run, pages[j]) == key) {
      j := LastHashFrom(run, pages[..|pages| - 1], key);
    }
  }

  lemma {:induction false} LastHashExists(run: Run, pages: seq<Page>, key: UrlKey, i: nat)
    requires i < |pages| && pages[i].descriptor.Some? && KeyOfPage(run, pages[i]) == key
    ensures LastHash(run, pages, key).Some?
  {
    if i < |pages| - 1 {
      LastHashExists(run, pages[..|pages| - 1], key, i);
    }
  }

  // ---- settled streams ----

  /** Counts are only added to: where a flush starts counting does not matter. */
  lemma {:induction false} FlushCounts(run: Run, v: View, a: Counts, b: Counts, pending: seq<Page>)
    requires AllIndexable(pending)
    ensures Flush(run, (v, Plus(a, b)), pending).0 == Flush(run, (v, a), pending).0
    ensures Flush(run, (v, Plus(a, b)), pending).1 == Plus(Flush(run, (v, a), pending).1, b)
  {
    hide Upserted, EntryFor;
    if pending != [] {
      var init := pending[..|pending| - 1];
      assert forall p :: p in init ==> p in pending;
      FlushCounts(run, v, a, b, init);
    }
  }

  lemma FlushSnoc(run: Run, t: Tally, pending: seq<Page>, p: Page)
    requires AllIndexable(pending) && p.descriptor.Some?
    ensures AllIndexable(pending + [p])
    ensures Flush(run, t, pending + [p]) == UpsertPage(run, Flush(run, t, pending), p)
  {
    assert (pending + [p])[..|pending|] == pending;
  }

  /** Nothing waits that the index has already. */
  ghost predicate Fresh(run: Run, q: Queue) {
    forall w :: w in q.1 ==> w.descriptor.Some? && !SameHash(q.0.0, KeyOfPage(run, w), w.contentHash)
  }

  lemma {:induction false} WaitingIsFresh(run: Run, t: Tally, pages: seq<Page>, batch: nat)
    ensures Fresh(run, FeedAll(run, t, pages, batch))
  {
    hide Flush, SameHash;
    if pages != [] {
      WaitingIsFresh(run, t, pages[..|pages| - 1], batch);
    }
  }

  /** After a flush the index has the content of `p` if one waiting had its key. */
  lemma FlushedHas(run: Run, t: Tally, pending: seq<Page>, p: Page, w: Page)
    requires AllIndexable(pending) && w in pending && KeyOfPage(run, w) == KeyOfPage(run, p)
    requires forall x :: x in pending && KeyOfPage(run, x) == KeyOfPage(run, p) ==> x.contentHash == p.contentHash
    ensures SameHash(Flush(run, t, pending).0, KeyOfPage(run, p), p.contentHash)
  {
    var key := KeyOfPage(run, p);
    var i :| 0 <= i < |pending| && pending[i] == w;
    LastHashExists(run, pending, key, i);
    var j := LastHashFrom(run, pending, key);
    assert pending[j] in pending;
    HashFlushed(run, t, pending, key, p.contentHash);
  }

  lemma {:induction false} NoLastHash(run: Run, pages: seq<Page>, key: UrlKey)
    requires forall p :: p in pages ==> KeyOfPage(run, p) != key
    ensures LastHash(run, pages, key) == None
  {
    if pages != [] {
      assert pages[|pages| - 1] in pages;
      NoLastHash(run, pages[..|pages| - 1], key);
    }
  }

  lemma UpsertSame(run: Run, t: Tally, p: Page)
    requires p.descriptor.Some? && SameHash(t.0, KeyOfPage(run, p), p.contentHash)
    ensures UpsertPage(run, t, p) == (t.0, Plus(t.1, ONE_UNCHANGED))
    ensures TakePage(run, t, p) == (t.0, Plus(t.1, ONE_UNCHANGED))
  {
    assert EntryFor(run.setup, ToDocument(run, p)).meta.contentHash == p.contentHash;
    hide ToDocument, EntryFor;
  }

  /** One page: feeding and then flushing is flushing and then taking the page on its own, when
      every waiting page with its key has its content. */
  lemma FeedThenFlush(run: Run, q: Queue, p: Page, batch: nat)
    requires AllIndexable(q.1) && Fresh(run, q)
    requires forall w :: w in q.1 && KeyOfPage(run, w) == KeyOfPage(run, p) ==>
      p.descriptor.Some? && w.contentHash == p.contentHash
    ensures var r := Feed(run, q, p, batch);
      Flush(run, r.0, r.1) == TakePage(run, Flush(run, q.0, q.1), p)
  {
    var (t, pending) := q;
    FlushCounts(run, t.0, t.1, ONE_UNCHANGED, pending);
    FlushCounts(run, t.0, t.1, ONE_SKIPPED, pending);
    if p.descriptor.Some? {
      FlushSnoc(run, t, pending, p);
    }
    assert forall x: Tally :: Flush(run, x, []) == x;
    hide UpsertPage, Flush, SameHash, KeyOfPage;
    if w :| w in pending && KeyOfPage(run, w) == KeyOfPage(run, p) {
      FlushedHas(run, t, pending, p, w);
      UpsertSame(run, Flush(run, t, pending), p);
    } else {
      NoLastHash(run, pending, KeyOfPage(run, p));
      HashFlushed(run, t, pending, KeyOfPage(run, p), p.contentHash);
    }
  }

  lemma {:induction false} PendingFromPages(run: Run, t: Tally, pages: seq<Page>, batch: nat)
    ensures forall w :: w in FeedAll(run, t, pages, batch).1 ==> w in pages
  {
    if pages != [] {
      var init := pages[..|pages| - 1];
      PendingFromPages(run, t, init, batch);
      assert pages == init + [pages[|pages| - 1]];
      hide Flush, SameHash;
    }
  }

  /** For a stream that settles the batch size is invisible: the index and the counts are those of
      taking the pages one by one. */
  lemma {:induction false} BatchSizeIsInvisible(run: Run, t: Tally, pages: seq<Page>, batch: nat)
    requires Settles(run, pages)
    ensures Ingested(run, t, pages, batch) == OneByOne(run, t, pages)
  {
    if pages != [] {
      var n := |pages| - 1;
      var init, p := pages[..n], pages[n];
      BatchSizeIsInvisible(run, t, init, batch);
      PendingFromPages(run, t, init, batch);
      WaitingIsFresh(run, t, init, batch);
      var q := FeedAll(run, t, init, batch);
      forall w | w in q.1 && KeyOfPage(run, w) == KeyOfPage(run, p)
        ensures p.descriptor.Some? && w.contentHash == p.contentHash
      {
        assert w.descriptor.Some?;
        var i :| 0 <= i < n && init[i] == w;
        assert pages[i] == w;
      }
      hide Settles;
      FeedThenFlush(run, q, p, batch);
      hide Flush, Feed, TakePage;
    }
  }

  ghost predicate DistinctPageKeys(run: Run, pages: seq<Page>) {
    forall i, j :: 0 <= i < j < |pages| ==> KeyOfPage(run, pages[i]) != KeyOfPage(run, pages[j])
  }

  /** A crawl that yields each key once settles. */
  lemma DistinctKeysSettle(run: Run, pages: seq<Page>)
    requires DistinctPageKeys(run, pages)
    ensures Settles(run, pages)
  {}

  // ---- streams that do not settle: a batch longer than the stream shows it ----

  /** The pages that wait when no batch fills up. */
  function Waiting(run: Run, v: View, pages: seq<Page>): (r: seq<Page>)
    ensures AllIndexable(r) && |r| <= |pages|
  {
    if pages == [] then []
    else
      var rest, p := Waiting(run, v, pages[..|pages| - 1]), pages[|pages| - 1];
      if p.descriptor.Some? && !SameHash(v, KeyOfPage(run, p), p.contentHash) then rest + [p] else rest
  }

  /** The pages that are skipped then. */
  function Blanks(run: Run, v: View, pages: seq<Page>): nat {
    if pages == [] then 0
    else
      var p := pages[|pages| - 1];
      Blanks(run, v, pages[..|pages| - 1])
      + (if p.descriptor.None? && !SameHash(v, KeyOfPage(run, p), p.contentHash) then 1 else 0)
  }

  lemma {:induction false} Unflushed(run: Run, v: View, pages: seq<Page>, batch: nat)
    requires |pages| < batch
    ensures var q := FeedAll(run, (v, NONE), pages, batch);
      && q.0.0 == v && q.1 == Waiting(run, v, pages)
      && q.0.1.skipped == Blanks(run, v, pages) && Writes(q.0.1) == 0
  {
    hide Feed, SameHash, KeyOfPage;
    if pages != [] {
      var init, p := pages[..|pages| - 1], pages[|pages| - 1];
      Unflushed(run, v, init, batch);
      FeedLate(run, FeedAll(run, (v, NONE), init, batch), p, batch);
    }
  }

  lemma FeedLate(run: Run, q: Queue, p: Page, batch: nat)
    requires AllIndexable(q.1) && |q.1| + 1 < batch
    ensures var r, same := Feed(run, q, p, batch), SameHash(q.0.0, KeyOfPage(run, p), p.contentHash);
      && r.0.0 == q.0.0 && r.1 == (if p.descriptor.Some? && !same then q.1 + [p] else q.1)
      && r.0.1.skipped == q.0.1.skipped + (if p.descriptor.None? && !same then 1 else 0)
      && Writes(r.0.1) == Writes(q.0.1)
  {}

  /** How many pages changed the index. */
  function Writes(c: Counts): nat { c.added + c.updated }

  lemma UpsertWrites(run: Run, t: Tally, p: Page)
    requires p.descriptor.Some?
    ensures var r := UpsertPage(run, t, p);
      && r.1.skipped == t.1.skipped
      && Writes(r.1) == Writes(t.1) + (if SameHash(t.0, KeyOfPage(run, p), p.contentHash) then 0 else 1)
  {
    assert EntryFor(run.setup, ToDocument(run, p)).meta.contentHash == p.contentHash;
    hide EntryFor, ToDocument;
  }

  lemma TakeCounts(run: Run, t: Tally, p: Page)
    ensures var r, same := TakePage(run, t, p), SameHash(t.0, KeyOfPage(run, p), p.contentHash);
      && r.1.skipped == t.1.skipped + (if p.descriptor.None? && !same then 1 else 0)
      && Writes(r.1) == Writes(t.1) + (if p.descriptor.Some? && !same then 1 else 0)
  {
    if p.descriptor.Some? {
      UpsertWrites(run, t, p);
    }
    hide UpsertPage, SameHash;
  }

  lemma {:induction false} FlushSkipsNothing(run: Run, t: Tally, pending: seq<Page>)
    requires AllIndexable(pending)
    ensures Flush(run, t, pending).1.skipped == t.1.skipped
  {
    if pending != [] {
      var init := pending[..|pending| - 1];
      assert pending[|pending| - 1] in pending && forall p :: p in init ==> p in pending;
      FlushSkipsNothing(run, t, init);
      UpsertWrites(run, Flush(run, t, init), pending[|pending| - 1]);
      hide UpsertPage;
    }
  }

  /** What a page without content meets, taken one by one: its own content, brought before. */
  predicate Meets(run: Run, pages: seq<Page>, n: nat)
    requires n < |pages|
  {
    && pages[n].descriptor.None?
    && LastHash(run, pages[..n], KeyOfPage(run, pages[n])) == Some(pages[n].contentHash)
  }

  /** An index to start from with the content `hash` for `key` and nothing else. */
  function Having(key: UrlKey, hash: nat): View {
    map[key := Entry(DocMeta("", key, 0, hash, 0, None, "", None, [], 0, false, None), [], [], [])]
  }

  lemma HavingHash(key: UrlKey, hash: nat, k: UrlKey, h: nat)
    ensures SameHash(Having(key, hash), k, h) <==> k == key && h == hash
  {}

  lemma Prefix(pages: seq<Page>, n: nat)
    requires n < |pages|
    ensures pages[..|pages| - 1][..n] == pages[..n]
  {}

  /** From an empty index a waiting batch skips every page without content; one by one, those that
      meet their own content are counted unchanged. */
  lemma {:induction false} EmptySkips(run: Run, pages: seq<Page>, n: nat)
    ensures OneByOne(run, (map[], NONE), pages).1.skipped <= Blanks(run, map[], pages)
    ensures n < |pages| && Meets(run, pages, n) ==>
      OneByOne(run, (map[], NONE), pages).1.skipped < Blanks(run, map[], pages)
  {
    hide TakePage, KeyOfPage;
    if pages != [] {
      var last := |pages| - 1;
      var init, p := pages[..last], pages[last];
      EmptySkips(run, init, n);
      if n < last {
        Prefix(pages, n);
      }
      TakeCounts(run, OneByOne(run, (map[], NONE), init), p);
      HashOneByOne(run, (map[], NONE), init, KeyOfPage(run, p), p.contentHash);
    }
  }

  /** Page `j` is without content, and the index had what it says until its key brought something. */
  predicate Late(run: Run, v: View, pages: seq<Page>, j: nat) {
    && j < |pages| && pages[j].descriptor.None?
    && LastHash(run, pages[..j], KeyOfPage(run, pages[j])).Some?
    && SameHash(v, KeyOfPage(run, pages[j]), pages[j].contentHash)
  }

  /** When no page meets its own content: one by one a late page is skipped, a waiting batch counts
      it unchanged. */
  lemma {:induction false} LateSkips(run: Run, v: View, pages: seq<Page>, j: nat)
    requires forall n :: 0 <= n < |pages| ==> !Meets(run, pages, n)
    ensures Blanks(run, v, pages) <= OneByOne(run, (v, NONE), pages).1.skipped
    ensures Late(run, v, pages, j) ==> Blanks(run, v, pages) < OneByOne(run, (v, NONE), pages).1.skipped
  {
    hide TakePage, KeyOfPage, SameHash;
    if pages != [] {
      var last := |pages| - 1;
      var init, p := pages[..last], pages[last];
      forall n | 0 <= n < |init| ensures !Meets(run, init, n) {
        assert !Meets(run, pages, n);
        Prefix(pages, n);
      }
      LateSkips(run, v, init, j);
      if j < last {
        Prefix(pages, j);
      }
      assert !Meets(run, pages, last);
      TakeCounts(run, OneByOne(run, (v, NONE), init), p);
      HashOneByOne(run, (v, NONE), init, KeyOfPage(run, p), p.contentHash);
    }
  }

  /** Only pages with the starting content do not wait. */
  lemma {:induction false} WaitingLast(run: Run, key: UrlKey, hash: nat, pages: seq<Page>, k: UrlKey)
    ensures k != key ==> LastHash(run, Waiting(run, Having(key, hash), pages), k) == LastHash(run, pages, k)
    ensures LastHash(run, pages, k) != Some(hash) ==>
      LastHash(run, Waiting(run, Having(key, hash), pages), k) == LastHash(run, pages, k)
  {
    hide KeyOfPage, Having;
    if pages != [] {
      var init, p := pages[..|pages| - 1], pages[|pages| - 1];
      WaitingLast(run, key, hash, init, k);
      HavingHash(key, hash, KeyOfPage(run, p), p.contentHash);
      var rest := Waiting(run, Having(key, hash), init);
      assert (rest + [p])[..|rest|] == rest;
      hide SameHash;
    }
  }

  /** What one by one has written, and a waiting batch has, over the same pages. */
  function Ahead(run: Run, v: View, pages: seq<Page>): int {
    Writes(OneByOne(run, (v, NONE), pages).1) - Writes(Flush(run, (v, NONE), Waiting(run, v, pages)).1)
  }

  /** The batch never writes more, and has fallen behind if only one by one has the starting content. */
  ghost predicate FallsBehind(run: Run, key: UrlKey, hash: nat, pages: seq<Page>) {
    var v := Having(key, hash);
    && Ahead(run, v, pages) >= 0
    && (LastHash(run, pages, key) == Some(hash) ==>
          SameHash(Flush(run, (v, NONE), Waiting(run, v, pages)).0, key, hash) || Ahead(run, v, pages) > 0)
  }

  /** Starting with the content of page `j`, which replaces another there: one by one it is written,
      a waiting batch drops it and never catches up. */
  lemma {:induction false} LateWrites(run: Run, key: UrlKey, hash: nat, pages: seq<Page>, j: nat)
    ensures FallsBehind(run, key, hash, pages)
    ensures Replaces(run, pages, j) && KeyOfPage(run, pages[j]) == key && pages[j].contentHash == hash ==>
      Ahead(run, Having(key, hash), pages) > 0
  {
    hide FallsBehind, Ahead, KeyOfPage, Having;
    if pages == [] {
      NothingLate(run, key, hash);
    } else {
      var last := |pages| - 1;
      var init, p := pages[..last], pages[last];
      assert pages == init + [p];
      LateWrites(run, key, hash, init, j);
      if j < last {
        Prefix(pages, j);
      }
      LateStep(run, key, hash, init, p);
    }
  }

  lemma NothingLate(run: Run, key: UrlKey, hash: nat)
    ensures FallsBehind(run, key, hash, [])
  {}

  /** Page `j` brings other content than the last one of its key. */
  predicate Replaces(run: Run, pages: seq<Page>, j: nat) {
    && j < |pages| && pages[j].descriptor.Some?
    && var was := LastHash(run, pages[..j], KeyOfPage(run, pages[j]));
       was.Some? && was.value != pages[j].contentHash
  }

  /** One page more in the comparison: the lead never shrinks to nothing, and grows when the page
      brings the starting content back. */
  lemma LateStep(run: Run, key: UrlKey, hash: nat, init: seq<Page>, p: Page)
    requires FallsBehind(run, key, hash, init)
    ensures var v, pages := Having(key, hash), init + [p];
      var back := p.descriptor.Some? && KeyOfPage(run, p) == key && p.contentHash == hash
        && LastHash(run, init, key).Some? && LastHash(run, init, key) != Some(hash);
      && FallsBehind(run, key, hash, pages)
      && (Ahead(run, v, init) > 0 || back ==> Ahead(run, v, pages) > 0)
  {
    var v := Having(key, hash);
    var a, b := OneByOne(run, (v, NONE), init), Flush(run, (v, NONE), Waiting(run, v, init));
    assert (init + [p])[..|init|] == init;
    hide TakePage, UpsertPage, KeyOfPage, Having, SameHash, OneByOne, Flush, Waiting;
    LateWrite(run, key, hash, init, p);
    LateHashes(run, key, hash, init, p);
    TakeCounts(run, a, p);
    if p.descriptor.Some? {
      UpsertWrites(run, b, p);
      UpsertHash(run, b, p, key, hash);
    }
  }

  lemma LateWrite(run: Run, key: UrlKey, hash: nat, init: seq<Page>, p: Page)
    ensures var v := Having(key, hash);
      var a, b := OneByOne(run, (v, NONE), init), Flush(run, (v, NONE), Waiting(run, v, init));
      var waits := p.descriptor.Some? && !(KeyOfPage(run, p) == key && p.contentHash == hash);
      && Waiting(run, v, init + [p]) == (if waits then Waiting(run, v, init) + [p] else Waiting(run, v, init))
      && OneByOne(run, (v, NONE), init + [p]) == TakePage(run, a, p)
      && Flush(run, (v, NONE), Waiting(run, v, init + [p])) == (if waits then UpsertPage(run, b, p) else b)
  {
    var v := Having(key, hash);
    assert (init + [p])[..|init|] == init;
    HavingHash(key, hash, KeyOfPage(run, p), p.contentHash);
    if p.descriptor.Some? {
      FlushSnoc(run, (v, NONE), Waiting(run, v, init), p);
    }
    hide TakePage, UpsertPage, KeyOfPage, Having, SameHash, Flush;
  }

  /** What either side has for the page to come. */
  lemma LateHashes(run: Run, key: UrlKey, hash: nat, init: seq<Page>, p: Page)
    ensures var v, k := Having(key, hash), KeyOfPage(run, p);
      var a, b := OneByOne(run, (v, NONE), init), Flush(run, (v, NONE), Waiting(run, v, init));
      var mine, last := LastHash(run, init, k), LastHash(run, init, key);
      && (SameHash(a.0, k, p.contentHash)
          <==> if mine.Some? then mine.value == p.contentHash else k == key && p.contentHash == hash)
      && (k != key || last != Some(hash) ==>
            (SameHash(b.0, k, p.contentHash) <==> SameHash(a.0, k, p.contentHash)))
      && (last == None ==> SameHash(b.0, key, hash))
      && (SameHash(b.0, key, hash) && k == key && p.contentHash != hash ==> !SameHash(b.0, k, p.contentHash))
  {
    hide OneByOne, Flush, Waiting, LastHash, Having, SameHash;
    var v, k := Having(key, hash), KeyOfPage(run, p);
    HashOneByOne(run, (v, NONE), init, k, p.contentHash);
    HashFlushed(run, (v, NONE), Waiting(run, v, init), k, p.contentHash);
    HashFlushed(run, (v, NONE), Waiting(run, v, init), key, hash);
    WaitingLast(run, key, hash, init, k);
    WaitingLast(run, key, hash, init, key);
    HavingHash(key, hash, k, p.contentHash);
    HavingHash(key, hash, key, hash);
  }

  /** Between two contents of one key some page replaces the one before it. */
  lemma {:induction false} SomeReplaces(run: Run, pages: seq<Page>, i: nat, j: nat) returns (r: nat)
    requires i < j < |pages| && KeyOfPage(run, pages[i]) == KeyOfPage(run, pages[j])
    requires pages[i].descriptor.Some? && pages[j].descriptor.Some? && pages[i].contentHash != pages[j].contentHash
    ensures Replaces(run, pages, r)
    decreases j
  {
    var key := KeyOfPage(run, pages[j]);
    LastHashExists(run, pages[..j], key, i);
    var m := LastHashFrom(run, pages[..j], key);
    if pages[m].contentHash != pages[j].contentHash {
      r := j;
    } else {
      assert m != i && !(m < i) by {
        assert pages[..j][i] == pages[i];
      }
      r := SomeReplaces(run, pages, i, m);
    }
  }

  /** Some index and some batch size give away that the pages came in a batch. */
  ghost predicate Shows(run: Run, pages: seq<Page>) {
    exists v, batch :: batch > 0 && Ingested(run, (v, NONE), pages, batch) != OneByOne(run, (v, NONE), pages)
  }

  lemma WaitingShows(run: Run, v: View, pages: seq<Page>)
    requires var a, b := OneByOne(run, (v, NONE), pages), Flush(run, (v, NONE), Waiting(run, v, pages));
      a.1.skipped != Blanks(run, v, pages) || Writes(a.1) != Writes(b.1)
    ensures Shows(run, pages)
  {
    var batch := |pages| + 1;
    Unflushed(run, v, pages, batch);
    var q := FeedAll(run, (v, NONE), pages, batch);
    FlushSkipsNothing(run, q.0, q.1);
    FlushWrites(run, (v, NONE), q.0.1, q.1);
    assert Ingested(run, (v, NONE), pages, batch) != OneByOne(run, (v, NONE), pages);
  }

  /** Writes are counted alike wherever the count starts. */
  lemma {:induction false} FlushWrites(run: Run, t: Tally, c: Counts, pending: seq<Page>)
    requires AllIndexable(pending)
    ensures var a, b := Flush(run, (t.0, c), pending), Flush(run, t, pending);
      a.0 == b.0 && Writes(a.1) - Writes(c) == Writes(b.1) - Writes(t.1)
  {
    if pending != [] {
      var init, p := pending[..|pending| - 1], pending[|pending| - 1];
      assert p in pending && forall w :: w in init ==> w in pending;
      FlushWrites(run, t, c, init);
      hide Upserted, EntryFor, ToDocument;
    }
  }

  /** A break shows: a page without content, or one with other content, after content of its key. */
  lemma BreakShows(run: Run, pages: seq<Page>, i: nat, j: nat)
    requires i < j < |pages| && KeyOfPage(run, pages[i]) == KeyOfPage(run, pages[j]) && pages[i].descriptor.Some?
    requires pages[j].descriptor.None? || pages[j].contentHash != pages[i].contentHash
    ensures Shows(run, pages)
  {
    hide OneByOne, Flush, Waiting, Blanks, Meets, Replaces, Shows, KeyOfPage, SameHash, Having;
    if n: nat :| n < |pages| && Meets(run, pages, n) {
      EmptySkips(run, pages, n);
      WaitingShows(run, map[], pages);
    } else if pages[j].descriptor.None? {
      var key := KeyOfPage(run, pages[j]);
      var v := Having(key, pages[j].contentHash);
      LastHashExists(run, pages[..j], key, i);
      HavingHash(key, pages[j].contentHash, key, pages[j].contentHash);
      LateSkips(run, v, pages, j);
      WaitingShows(run, v, pages);
    } else {
      var r := SomeReplaces(run, pages, i, j);
      ReplacedShows(run, pages, r);
    }
  }

  lemma ReplacedShows(run: Run, pages: seq<Page>, r: nat)
    requires Replaces(run, pages, r)
    ensures Shows(run, pages)
  {
    hide OneByOne, Flush, Waiting, Blanks, Shows, KeyOfPage, SameHash, Having;
    var key, hash := KeyOfPage(run, pages[r]), pages[r].contentHash;
    LateWrites(run, key, hash, pages, r);
    WaitingShows(run, Having(key, hash), pages);
  }

  /** The batch size never shows, whatever is in the index before, if and only if the stream settles:
      no key that brought content comes again without content or with another. */
  lemma BatchSizeIsInvisibleIff(run: Run, pages: seq<Page>)
    ensures Settles(run, pages) <==>
      forall v, batch :: batch > 0 ==> Ingested(run, (v, NONE), pages, batch) == OneByOne(run, (v, NONE), pages)
  {
    if Settles(run, pages) {
      forall v, batch | batch > 0
        ensures Ingested(run, (v, NONE), pages, batch) == OneByOne(run, (v, NONE), pages)
      {
        BatchSizeIsInvisible(run, (v, NONE), pages, batch);
      }
    } else {
      hide OneByOne, Ingested, KeyOfPage;
      var i, j :| (0 <= i < j < |pages| && KeyOfPage(run, pages[i]) == KeyOfPage(run, pages[j])
                   && pages[i].descriptor.Some?)
                  && !(pages[j].descriptor.Some? && pages[j].contentHash == pages[i].contentHash);
      BreakShows(run, pages, i, j);
    }
  }

  /** Keys may not change their content: when a page changes and changes back within one run, and
      the batch is still waiting, the second page is compared with the index as it was and dropped. */
  lemma RepeatedKeyDependsOnBatch(run: Run, v: View, p: Page, back: Page)
    requires p.descriptor.Some? && back.descriptor.Some? && KeyOfPage(run, p) == KeyOfPage(run, back)
    requires SameHash(v, KeyOfPage(run, p), back.contentHash) && p.contentHash != back.contentHash
    ensures var key := KeyOfPage(run, p);
      && SameHash(Ingested(run, (v, NONE), [p, back], 1).0, key, back.contentHash)
      && SameHash(Ingested(run, (v, NONE), [p, back], 2).0, key, p.contentHash)
  {
    ChangedBackAtOnce(run, v, p, back);
    ChangedBackLate(run, v, p, back);
  }

  lemma FeedTwo(run: Run, t: Tally, p: Page, back: Page, batch: nat)
    ensures FeedAll(run, t, [p, back], batch) == Feed(run, Feed(run, (t, []), p, batch), back, batch)
  {
    FeedNext(run, t, [p, back], 0, batch);
    FeedNext(run, t, [p, back], 1, batch);
    assert [p, back][..0] == [] && [p, back][..1] == [p] && [p, back][..2] == [p, back];
    hide Feed;
  }

  lemma FlushFew(run: Run, t: Tally, p: Page)
    requires p.descriptor.Some?
    ensures Flush(run, t, []) == t && Flush(run, t, [] + [p]) == UpsertPage(run, t, p)
  {
    FlushSnoc(run, t, [], p);
  }

  lemma FeedChanged(run: Run, t: Tally, p: Page, batch: nat)
    requires p.descriptor.Some? && !SameHash(t.0, KeyOfPage(run, p), p.contentHash) && batch > 0
    ensures Feed(run, (t, []), p, batch) == if batch == 1 then (UpsertPage(run, t, p), []) else (t, [] + [p])
  {
    FlushFew(run, t, p);
    hide UpsertPage, SameHash, Flush;
  }

  lemma FeedSame(run: Run, q: Queue, p: Page, batch: nat)
    requires AllIndexable(q.1) && SameHash(q.0.0, KeyOfPage(run, p), p.contentHash)
    ensures Feed(run, q, p, batch) == ((q.0.0, Plus(q.0.1, ONE_UNCHANGED)), q.1)
  {}

  lemma Rewritten(run: Run, t: Tally, p: Page)
    requires p.descriptor.Some? && !SameHash(t.0, KeyOfPage(run, p), p.contentHash)
    ensures SameHash(UpsertPage(run, t, p).0, KeyOfPage(run, p), p.contentHash)
  {}

  lemma OneHash(v: View, key: UrlKey, a: nat, b: nat)
    requires SameHash(v, key, a) && a != b
    ensures !SameHash(v, key, b)
  {}

  lemma ChangedBackAtOnce(run: Run, v: View, p: Page, back: Page)
    requires p.descriptor.Some? && back.descriptor.Some? && KeyOfPage(run, p) == KeyOfPage(run, back)
    requires SameHash(v, KeyOfPage(run, p), back.contentHash) && p.contentHash != back.contentHash
    ensures SameHash(Ingested(run, (v, NONE), [p, back], 1).0, KeyOfPage(run, p), back.contentHash)
  {
    var t := (v, NONE);
    var one := UpsertPage(run, t, p);
    var key := KeyOfPage(run, p);
    FeedTwo(run, t, p, back, 1);
    hide UpsertPage, FeedAll, Feed, SameHash, Flush, KeyOfPage;
    OneHash(v, key, back.contentHash, p.contentHash);
    FeedChanged(run, t, p, 1);
    Rewritten(run, t, p);
    OneHash(one.0, key, p.contentHash, back.contentHash);
    FeedChanged(run, one, back, 1);
    Rewritten(run, one, back);
    FlushFew(run, UpsertPage(run, one, back), p);
  }

  lemma ChangedBackLate(run: Run, v: View, p: Page, back: Page)
    requires p.descriptor.Some? && back.descriptor.Some? && KeyOfPage(run, p) == KeyOfPage(run, back)
    requires SameHash(v, KeyOfPage(run, p), back.contentHash) && p.contentHash != back.contentHash
    ensures SameHash(Ingested(run, (v, NONE), [p, back], 2).0, KeyOfPage(run, p), p.contentHash)
  {
    var t := (v, NONE);
    var key := KeyOfPage(run, p);
    FeedTwo(run, t, p, back, 2);
    var counted := (v, Plus(NONE, ONE_UNCHANGED));
    assert AllIndexable([] + [p]);
    hide UpsertPage, FeedAll, Feed, SameHash, Flush, KeyOfPage, AllIndexable;
    OneHash(v, key, back.contentHash, p.contentHash);
    FeedChanged(run, t, p, 2);
    FeedSame(run, (t, [] + [p]), back, 2);
    FlushFew(run, counted, p);
    Rewritten(run, counted, p);
  }
}
