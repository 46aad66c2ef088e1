/** What a crawl of a fixed site visits: link distance, breadth-first order, and the
    conditional crawl as a refinement of the full one. */
module CrawlReach {
  import opened Common
  import opened CrawlMachine

  /** A site that does not change during the crawl; a reply depends on the key alone. */
  datatype Site = Site(reply: UrlKey -> Reply)

  /** No redirects, and every followed link is in scope (the follow test includes the scope test). */
  ghost predicate Plain(cfg: Config, site: Site) {
    && (forall k :: site.reply(k).Page? ==> site.reply(k).final.None?)
    && (forall u :: cfg.follows(u) ==> cfg.inScope(u))
  }

  function KeysOf(cfg: Config, us: seq<Url>): set<UrlKey> {
    set u | u in us :: cfg.key(u)
  }

  /** The filtered out-links of a page, as keys. */
  function Kids(cfg: Config, site: Site, k: UrlKey): set<UrlKey> {
    KeysOf(cfg, Offered(cfg, k, site.reply(k)))
  }

  /** `r` and the kids of its keys. */
  function Onward(cfg: Config, site: Site, r: set<UrlKey>): set<UrlKey> {
    r + (set k, c | k in r && c in Kids(cfg, site, k) :: c)
  }

  /** The keys at filtered link distance at most `n` from `root`. */
  function Within(cfg: Config, site: Site, root: UrlKey, n: nat): set<UrlKey> {
    if n == 0 then {root} else Onward(cfg, site, Within(cfg, site, root, n - 1))
  }

  /** The machine's step when every reply comes from `site`. */
  ghost predicate SiteStep(cfg: Config, site: Site, s: State, s': State) {
    || (CanLaunch(cfg, s) && s' == Launch(s))
    || (!CanLaunch(cfg, s) && !s.aborted
        && exists i: nat :: i < |s.inFlight|
             && s' == Complete(cfg, s, i, site.reply(cfg.key(s.inFlight[i].url))))
  }

  ghost predicate SiteRun(cfg: Config, site: Site, root: Url, tr: seq<State>) {
    && |tr| > 0 && tr[0] == Start(cfg, root)
    && forall n :: 0 <= n < |tr| - 1 ==> SiteStep(cfg, site, tr[n], tr[n + 1])
  }

  lemma SiteRunIsRun(cfg: Config, site: Site, root: Url, tr: seq<State>)
    requires SiteRun(cfg, site, root, tr)
    ensures Run(cfg, root, tr)
  {
    forall n | 0 <= n < |tr| - 1 ensures Step(cfg, tr[n], tr[n + 1]) {
      assert SiteStep(cfg, site, tr[n], tr[n + 1]);
    }
  }

  function KeySet(cfg: Config, ts: seq<Task>): set<UrlKey> {
    set t | t in ts :: cfg.key(t.url)
  }

  // ---- any completion order ----

  /** Recorded depths are at least the distance, visited is exactly what was enqueued, and a
      page that completed above the depth limit has all its kids visited. */
  ghost predicate SiteInv(cfg: Config, site: Site, root: UrlKey, s: State) {
    && (forall t :: t in Log(s) ==> cfg.key(t.url) in Within(cfg, site, root, t.depth))
    && s.visited == KeySet(cfg, Log(s))
    && (forall t :: t in s.requested && t !in s.inFlight && t.depth < cfg.maxDepth
          ==> Kids(cfg, site, cfg.key(t.url)) <= s.visited)
  }

  /** Without redirects, what a completing task pushes is exactly its kids. */
  lemma ChildrenAreKids(cfg: Config, site: Site, root: Url, s: State, i: nat)
    requires Plain(cfg, site) && Inv(cfg, root, s) && i < |s.inFlight|
    ensures var t := s.inFlight[i]; var k := cfg.key(t.url); var reply := site.reply(k);
      && KeysOf(cfg, Children(cfg, t, reply)) == (if t.depth < cfg.maxDepth then Kids(cfg, site, k) else {})
      && Marked(cfg, s, t, reply) == s.visited
      && (reply.Page? ==> !LeftScope(cfg, t, reply))
  {
    var j := InFlightInLog(cfg, root, s, i);
    var t := s.inFlight[i];
    assert t.depth > 0 ==> cfg.follows(t.url);
    assert s.visited + {cfg.key(t.url)} == s.visited;
  }

  /** One completion without redirects: the kids are pushed one level down, nothing else
      is visited. */
  lemma CompletionEffect(cfg: Config, site: Site, root: Url, s: State, i: nat)
    requires Plain(cfg, site) && Inv(cfg, root, s) && i < |s.inFlight|
    ensures var t := s.inFlight[i];
      var reply := site.reply(cfg.key(t.url));
      var us := Children(cfg, t, reply);
      var s' := Complete(cfg, s, i, reply);
      && t in s.requested
      && s'.requested == s.requested && s'.inFlight == Drop(s.inFlight, i)
      && (s'.visited, s'.frontier) == Enqueue(cfg, s.visited, s.frontier, us, t.depth + 1)
      && KeysOf(cfg, us) == (if t.depth < cfg.maxDepth then Kids(cfg, site, cfg.key(t.url)) else {})
  {
    ChildrenAreKids(cfg, site, root, s, i);
    var j := InFlightInLog(cfg, root, s, i);
    CompletionShape(cfg, s, i, site.reply(cfg.key(s.inFlight[i].url)));
    hide Complete, Inv, Plain, Enqueue, Children, Kids;
  }

  lemma WithinStep(cfg: Config, site: Site, root: UrlKey, n: nat, k: UrlKey, c: UrlKey)
    requires k in Within(cfg, site, root, n) && c in Kids(cfg, site, k)
    ensures c in Within(cfg, site, root, n + 1)
  {
    hide Kids;
  }

  lemma PushedWithin(cfg: Config, site: Site, root: UrlKey, s: State, s': State, t: Task, us: seq<Url>)
    requires forall t' :: t' in Log(s) ==> cfg.key(t'.url) in Within(cfg, site, root, t'.depth)
    requires t in s.requested && s'.requested == s.requested
    requires (s'.visited, s'.frontier) == Enqueue(cfg, s.visited, s.frontier, us, t.depth + 1)
    requires KeysOf(cfg, us) <= Kids(cfg, site, cfg.key(t.url))
    ensures forall t' :: t' in Log(s') ==> cfg.key(t'.url) in Within(cfg, site, root, t'.depth)
  {
    hide Within, Kids, Enqueue;
    EnqueueExtends(cfg, s.visited, s.frontier, us, t.depth + 1);
    assert t in Log(s);
    forall t' | t' in Log(s') ensures cfg.key(t'.url) in Within(cfg, site, root, t'.depth) {
      if t' !in Log(s) {
        var m :| 0 <= m < |s'.frontier| && s'.frontier[m] == t';
        assert m >= |s.frontier|;
        assert cfg.key(t'.url) in KeysOf(cfg, us);
        WithinStep(cfg, site, root, t.depth, cfg.key(t.url), cfg.key(t'.url));
      }
    }
  }

  /** Dropping one entry loses no other task. */
  lemma DropKeeps(ts: seq<Task>, i: nat, t: Task)
    requires i < |ts| && t in ts && t !in Drop(ts, i)
    ensures t == ts[i]
  {
    assert ts == ts[..i] + [ts[i]] + ts[i + 1..];
  }

  lemma CompleteKeepsSiteInv(cfg: Config, site: Site, root: Url, s: State, i: nat)
    requires Plain(cfg, site) && Inv(cfg, root, s) && !s.aborted && i < |s.inFlight|
    requires SiteInv(cfg, site, cfg.key(root), s)
    ensures SiteInv(cfg, site, cfg.key(root), Complete(cfg, s, i, site.reply(cfg.key(s.inFlight[i].url))))
  {
    hide Inv, Plain, Complete, Within, Enqueue, Children, Drop;
    var t := s.inFlight[i];
    var k := cfg.key(t.url);
    var us := Children(cfg, t, site.reply(k));
    var s' := Complete(cfg, s, i, site.reply(k));
    CompletionEffect(cfg, site, root, s, i);
    PushedWithin(cfg, site, cfg.key(root), s, s', t, us);
    VisitedIsLog(cfg, s, s', us, t.depth + 1);
    EnqueueExtends(cfg, s.visited, s.frontier, us, t.depth + 1);
    forall t' | t' in s'.requested && t' !in s'.inFlight && t'.depth < cfg.maxDepth
      ensures Kids(cfg, site, cfg.key(t'.url)) <= s'.visited
    {
      if t' in s.inFlight {
        DropKeeps(s.inFlight, i, t');
        assert Kids(cfg, site, k) == KeysOf(cfg, us);
      }
    }
  }

  lemma VisitedIsLog(cfg: Config, s: State, s': State, us: seq<Url>, depth: nat)
    requires s.visited == KeySet(cfg, Log(s)) && s'.requested == s.requested
    requires (s'.visited, s'.frontier) == Enqueue(cfg, s.visited, s.frontier, us, depth)
    ensures s'.visited == KeySet(cfg, Log(s'))
  {
    EnqueueExtends(cfg, s.visited, s.frontier, us, depth);
    forall k | k in s'.visited ensures k in KeySet(cfg, Log(s')) {
      if k in s.visited {
        var t :| t in Log(s) && cfg.key(t.url) == k;
        assert t in Log(s');
      } else {
        var j :| |s.frontier| <= j < |s'.frontier| && cfg.key(s'.frontier[j].url) == k;
        assert s'.frontier[j] in Log(s');
      }
    }
    forall t | t in Log(s') ensures cfg.key(t.url) in s'.visited {
      if t !in Log(s) {
        var j :| 0 <= j < |s'.frontier| && s'.frontier[j] == t;
        assert s'.frontier[j].url in us;
      }
    }
  }

  lemma LaunchKeepsSiteInv(cfg: Config, site: Site, root: Url, s: State)
    requires Inv(cfg, root, s) && CanLaunch(cfg, s) && SiteInv(cfg, site, cfg.key(root), s)
    ensures SiteInv(cfg, site, cfg.key(root), Launch(s))
  {
    LaunchKeepsInv(cfg, root, s);
    var s' := Launch(s);
    forall t | t in s'.requested && t !in s'.inFlight ensures t in s.requested && t !in s.inFlight {
      assert s'.inFlight[|s.inFlight|] == s.frontier[0];
      assert s.inFlight == s'.inFlight[..|s.inFlight|];
    }
  }

  lemma StartSiteInv(cfg: Config, site: Site, root: Url)
    ensures SiteInv(cfg, site, cfg.key(root), Start(cfg, root))
  {
    hide Kids;
    assert Log(Start(cfg, root)) == [Task(root, 0)];
    assert Task(root, 0) in Log(Start(cfg, root));
  }

  lemma SiteStepKeepsInv(cfg: Config, site: Site, root: Url, s: State, s': State)
    requires Plain(cfg, site) && SiteStep(cfg, site, s, s')
    requires Inv(cfg, root, s) && SiteInv(cfg, site, cfg.key(root), s)
    ensures SiteInv(cfg, site, cfg.key(root), s')
  {
    hide Inv, SiteInv, Plain, Launch, Complete;
    if CanLaunch(cfg, s) {
      LaunchKeepsSiteInv(cfg, site, root, s);
    } else {
      var i: nat :| i < |s.inFlight| && s' == Complete(cfg, s, i, site.reply(cfg.key(s.inFlight[i].url)));
      CompleteKeepsSiteInv(cfg, site, root, s, i);
    }
  }

  lemma {:induction false} SiteRunKeepsInv(cfg: Config, site: Site, root: Url, tr: seq<State>, n: nat)
    requires Plain(cfg, site) && SiteRun(cfg, site, root, tr) && n < |tr|
    ensures Inv(cfg, root, tr[n]) && SiteInv(cfg, site, cfg.key(root), tr[n])
  {
    hide Inv, SiteInv, Plain, SiteStep, Run;
    SiteRunIsRun(cfg, site, root, tr);
    RunKeepsInv(cfg, root, tr, n);
    if n == 0 {
      StartSiteInv(cfg, site, root);
    } else {
      SiteRunKeepsInv(cfg, site, root, tr, n - 1);
      assert SiteStep(cfg, site, tr[n - 1], tr[n - 1 + 1]);
      SiteStepKeepsInv(cfg, site, root, tr[n - 1], tr[n]);
    }
  }

  lemma {:induction false} WithinMonotone(cfg: Config, site: Site, root: UrlKey, m: nat, n: nat)
    requires m <= n
    ensures Within(cfg, site, root, m) <= Within(cfg, site, root, n)
    decreases n - m
  {
    if m < n {
      WithinMonotone(cfg, site, root, m + 1, n);
    }
  }

  /** At any concurrency and in any completion order, every requested key lies within
      `maxDepth`, and its recorded depth is never below its distance. */
  lemma AnyOrderStaysWithin(cfg: Config, site: Site, root: Url, tr: seq<State>, n: nat)
    requires Plain(cfg, site) && SiteRun(cfg, site, root, tr) && n < |tr|
    ensures KeySet(cfg, tr[n].requested) <= Within(cfg, site, cfg.key(root), cfg.maxDepth)
    ensures forall t :: t in tr[n].requested ==> cfg.key(t.url) in Within(cfg, site, cfg.key(root), t.depth)
  {
    SiteRunKeepsInv(cfg, site, root, tr, n);
    SiteRunIsRun(cfg, site, root, tr);
    CrawlAccounting(cfg, root, tr, n);
    forall t | t in tr[n].requested
      ensures cfg.key(t.url) in Within(cfg, site, cfg.key(root), t.depth)
      ensures cfg.key(t.url) in Within(cfg, site, cfg.key(root), cfg.maxDepth)
    {
      assert t in Log(tr[n]);
      WithinMonotone(cfg, site, cfg.key(root), t.depth, cfg.maxDepth);
    }
  }

  // ---- the depth limit alone ends every crawl of a fixed site, redirects included ----

  ghost predicate LogWithin(cfg: Config, site: Site, root: UrlKey, s: State) {
    forall t :: t in Log(s) ==> cfg.key(t.url) in Within(cfg, site, root, t.depth)
  }

  lemma CompleteStaysWithin(cfg: Config, site: Site, root: Url, s: State, i: nat)
    requires Inv(cfg, root, s) && LogWithin(cfg, site, cfg.key(root), s) && i < |s.inFlight|
    ensures var t := s.inFlight[i]; var reply := site.reply(cfg.key(t.url));
      && LogWithin(cfg, site, cfg.key(root), Complete(cfg, s, i, reply))
      && forall u :: u in Children(cfg, t, reply) ==> cfg.key(u) in Within(cfg, site, cfg.key(root), cfg.maxDepth)
  {
    hide Complete, Within, Inv, Enqueue, Offered, Drop;
    var t := s.inFlight[i];
    var r := cfg.key(root);
    var k := cfg.key(t.url);
    var reply := site.reply(k);
    CompletionShape(cfg, s, i, reply);
    var j := InFlightInLog(cfg, root, s, i);
    var us := Children(cfg, t, reply);
    assert forall u :: u in us ==> cfg.key(u) in KeysOf(cfg, us) && cfg.key(u) in Kids(cfg, site, k);
    assert t in Log(s);
    hide Children, Kids;
    PushedWithin(cfg, site, r, s.(visited := Marked(cfg, s, t, reply)), Complete(cfg, s, i, reply), t, us);
    forall u | u in us ensures cfg.key(u) in Within(cfg, site, r, cfg.maxDepth) {
      WithinStep(cfg, site, r, t.depth, k, cfg.key(u));
      ChildrenBelowLimit(cfg, t, reply);
      WithinMonotone(cfg, site, r, t.depth + 1, cfg.maxDepth);
    }
  }

  lemma ChildrenBelowLimit(cfg: Config, t: Task, reply: Reply)
    ensures Children(cfg, t, reply) != [] ==> t.depth < cfg.maxDepth
  {}

  lemma SiteStepStaysWithin(cfg: Config, site: Site, root: Url, s: State, s': State)
    requires Inv(cfg, root, s) && LogWithin(cfg, site, cfg.key(root), s) && SiteStep(cfg, site, s, s')
    ensures Inv(cfg, root, s') && LogWithin(cfg, site, cfg.key(root), s')
    ensures var space := Within(cfg, site, cfg.key(root), cfg.maxDepth); Measure(space, s') < Measure(space, s)
  {
    hide Inv, Launch, Complete, Within, Measure, Children;
    var space := Within(cfg, site, cfg.key(root), cfg.maxDepth);
    if CanLaunch(cfg, s) {
      LaunchKeepsInv(cfg, root, s);
      StepDecreasesMeasure(cfg, space, s, 0, Failed);
    } else {
      var i: nat :| i < |s.inFlight| && s' == Complete(cfg, s, i, site.reply(cfg.key(s.inFlight[i].url)));
      CompleteKeepsInv(cfg, root, s, i, site.reply(cfg.key(s.inFlight[i].url)));
      CompleteStaysWithin(cfg, site, root, s, i);
      StepDecreasesMeasure(cfg, space, s, i, site.reply(cfg.key(s.inFlight[i].url)));
    }
  }

  /** Every crawl of a fixed site ends, whatever the budget, the failures, the 304s and the
      redirects: at most twice as many steps as keys within `maxDepth`. */
  lemma {:induction false} DepthLimitEndsCrawl(cfg: Config, site: Site, root: Url, tr: seq<State>, n: nat)
    requires SiteRun(cfg, site, root, tr) && n < |tr|
    ensures Inv(cfg, root, tr[n]) && LogWithin(cfg, site, cfg.key(root), tr[n])
    ensures var space := Within(cfg, site, cfg.key(root), cfg.maxDepth);
      n + Measure(space, tr[n]) <= 2 * |space|
  {
    var r := cfg.key(root);
    var space := Within(cfg, site, r, cfg.maxDepth);
    if n == 0 {
      StartWithin(cfg, site, root);
    } else {
      hide Inv, LogWithin, Measure, SiteStep, Within;
      DepthLimitEndsCrawl(cfg, site, root, tr, n - 1);
      assert SiteStep(cfg, site, tr[n - 1], tr[n - 1 + 1]);
      SiteStepStaysWithin(cfg, site, root, tr[n - 1], tr[n]);
    }
  }

  lemma StartWithin(cfg: Config, site: Site, root: Url)
    ensures var s := Start(cfg, root); var space := Within(cfg, site, cfg.key(root), cfg.maxDepth);
      Inv(cfg, root, s) && LogWithin(cfg, site, cfg.key(root), s) && Measure(space, s) <= 2 * |space|
  {
    var s := Start(cfg, root);
    assert Log(s) == [Task(root, 0)];
    var space := Within(cfg, site, cfg.key(root), cfg.maxDepth);
    WithinMonotone(cfg, site, cfg.key(root), 0, cfg.maxDepth);
    hide Kids;
    assert cfg.key(root) in Within(cfg, site, cfg.key(root), 0);
    assert space == (space - {cfg.key(root)}) + {cfg.key(root)};
    RunKeepsInv(cfg, root, [s], 0);
  }

  /** `reach` is the set of keys reachable at some distance. */
  ghost predicate IsReachable(cfg: Config, site: Site, root: UrlKey, reach: set<UrlKey>) {
    && root in reach
    && (forall k :: k in reach ==> Kids(cfg, site, k) <= reach)
    && (forall k :: k in reach ==> exists n: nat :: k in Within(cfg, site, root, n))
  }

  lemma {:induction false} WithinStays(cfg: Config, site: Site, root: UrlKey, closed: set<UrlKey>, n: nat)
    requires root in closed && forall k :: k in closed ==> Kids(cfg, site, k) <= closed
    ensures Within(cfg, site, root, n) <= closed
  {
    hide Kids;
    if n > 0 {
      WithinStays(cfg, site, root, closed, n - 1);
    }
  }

  lemma {:induction false} DistinctCard<T>(s: seq<T>, u: set<T>)
    requires Distinct(s) && forall x :: x in s ==> x in u
    ensures |s| <= |u|
  {
    if s != [] {
      forall x | x in s[1..] ensures x in u - {s[0]} {
        var j :| 0 <= j < |s[1..]| && s[1..][j] == x;
        assert s[0] != s[j + 1];
      }
      DistinctCard(s[1..], u - {s[0]});
    }
  }

  /** A depth limit of at least the number of reachable keys never binds, so any completion
      order requests exactly the reachable keys. */
  lemma DeepCrawlIsComplete(cfg: Config, site: Site, root: Url, tr: seq<State>, n: nat, reach: set<UrlKey>)
    requires Plain(cfg, site) && SiteRun(cfg, site, root, tr) && n < |tr|
    requires tr[n].frontier == [] && tr[n].inFlight == []
    requires IsReachable(cfg, site, cfg.key(root), reach) && |reach| <= cfg.maxDepth
    ensures KeySet(cfg, tr[n].requested) == reach
  {
    var s := tr[n];
    var r := cfg.key(root);
    SiteRunKeepsInv(cfg, site, root, tr, n);
    assert Log(s) == s.requested;
    forall t | t in s.requested ensures cfg.key(t.url) in reach {
      WithinStays(cfg, site, r, reach, t.depth);
    }
    DistinctCard(Keys(cfg, Log(s)), reach);
    forall k | k in s.visited ensures Kids(cfg, site, k) <= s.visited {
      var t :| t in Log(s) && cfg.key(t.url) == k;
      var j :| 0 <= j < |Log(s)| && Log(s)[j] == t;
      assert t.depth < cfg.maxDepth;
    }
    assert Log(s)[0] in Log(s);
    forall k | k in reach ensures k in s.visited {
      var m: nat :| k in Within(cfg, site, r, m);
      WithinStays(cfg, site, r, s.visited, m);
    }
  }

  /** A page recorded at the depth limit although it is nearer keeps its kids back unless
      they were reached otherwise. */
  ghost predicate NothingHeldBack(cfg: Config, site: Site, root: UrlKey, s: State) {
    forall t :: t in s.requested && t.depth == cfg.maxDepth > 0
      && cfg.key(t.url) in Within(cfg, site, root, cfg.maxDepth - 1)
      ==> Kids(cfg, site, cfg.key(t.url)) <= KeySet(cfg, s.requested)
  }

  /** A drained crawl has visited the kids of everything recorded above the limit. */
  ghost predicate Drained(cfg: Config, site: Site, root: UrlKey, s: State) {
    && root in KeySet(cfg, s.requested)
    && (forall t :: t in s.requested ==> t.depth <= cfg.maxDepth)
    && (forall t :: t in s.requested && t.depth < cfg.maxDepth
          ==> Kids(cfg, site, cfg.key(t.url)) <= KeySet(cfg, s.requested))
  }

  lemma DrainedState(cfg: Config, site: Site, root: Url, s: State)
    requires Inv(cfg, root, s) && SiteInv(cfg, site, cfg.key(root), s)
    requires s.frontier == [] && s.inFlight == []
    ensures Drained(cfg, site, cfg.key(root), s)
  {
    hide Kids, Within, Counted, RootAlone;
    assert Log(s) == s.requested;
    assert Log(s)[0] in s.requested;
    forall t | t in s.requested ensures t.depth <= cfg.maxDepth {
      var j :| 0 <= j < |Log(s)| && Log(s)[j] == t;
    }
  }

  /** A key of a layer is in the layer below or a kid of one of its keys. */
  lemma WithinSplit(cfg: Config, site: Site, root: UrlKey, d: nat, c: UrlKey) returns (k: UrlKey)
    requires c in Within(cfg, site, root, d)
    ensures d == 0 ==> c == root
    ensures d > 0 ==> k in Within(cfg, site, root, d - 1) && (c == k || c in Kids(cfg, site, k))
  {
    hide Kids;
    k := c;
    if d > 0 && c !in Within(cfg, site, root, d - 1) {
      k :| k in Within(cfg, site, root, d - 1) && c in Kids(cfg, site, k);
    }
  }

  lemma {:induction false} LayersRequested(cfg: Config, site: Site, root: UrlKey, s: State, d: nat)
    requires Drained(cfg, site, root, s) && d <= cfg.maxDepth
    requires NothingHeldBack(cfg, site, root, s)
    ensures Within(cfg, site, root, d) <= KeySet(cfg, s.requested)
  {
    hide Kids, Within;
    forall c | c in Within(cfg, site, root, d) ensures c in KeySet(cfg, s.requested) {
      var k := WithinSplit(cfg, site, root, d, c);
      if d > 0 {
        LayersRequested(cfg, site, root, s, d - 1);
        var t :| t in s.requested && cfg.key(t.url) == k;
        WithinMonotone(cfg, site, root, d - 1, cfg.maxDepth - 1);
      }
    }
  }

  lemma CompleteHoldsNothingBack(cfg: Config, site: Site, root: UrlKey, s: State)
    requires KeySet(cfg, s.requested) == Within(cfg, site, root, cfg.maxDepth)
    ensures NothingHeldBack(cfg, site, root, s)
  {
    hide Kids, Within;
    forall t, c | t in s.requested && t.depth == cfg.maxDepth > 0
      && cfg.key(t.url) in Within(cfg, site, root, cfg.maxDepth - 1) && c in Kids(cfg, site, cfg.key(t.url))
      ensures c in KeySet(cfg, s.requested)
    {
      WithinStep(cfg, site, root, cfg.maxDepth - 1, cfg.key(t.url), c);
    }
  }

  /** At any concurrency, a drained crawl requests exactly the keys within `maxDepth` if and
      only if no page recorded too deep, at the limit, held back an unvisited kid. */
  lemma AnyOrderCompleteIff(cfg: Config, site: Site, root: Url, tr: seq<State>, n: nat)
    requires Plain(cfg, site) && SiteRun(cfg, site, root, tr) && n < |tr|
    requires tr[n].frontier == [] && tr[n].inFlight == []
    ensures KeySet(cfg, tr[n].requested) == Within(cfg, site, cfg.key(root), cfg.maxDepth)
      <==> NothingHeldBack(cfg, site, cfg.key(root), tr[n])
  {
    hide Kids, Within, Inv, SiteInv, Plain, SiteRun, NothingHeldBack, Drained, KeySet;
    var s, r := tr[n], cfg.key(root);
    SiteRunKeepsInv(cfg, site, root, tr, n);
    AnyOrderStaysWithin(cfg, site, root, tr, n);
    if NothingHeldBack(cfg, site, r, s) {
      DrainedState(cfg, site, root, s);
      LayersRequested(cfg, site, r, s, cfg.maxDepth);
    } else if KeySet(cfg, s.requested) == Within(cfg, site, r, cfg.maxDepth) {
      CompleteHoldsNothingBack(cfg, site, r, s);
    }
  }

  // ---- one fetch at a time ----

  /** The position in the log of the first task that has not completed. */
  function First(s: State): int { |s.requested| - |s.inFlight| }

  ghost predicate Covered(cfg: Config, s: State, c: UrlKey, depth: nat) {
    exists j :: 0 <= j < |Log(s)| && cfg.key(Log(s)[j].url) == c && Log(s)[j].depth <= depth
  }

  /** The textbook queue invariant: depths are sorted, spread over two levels from the head
      on, and the kids of every completed task are enqueued at most one level deeper. */
  ghost predicate QueueInv(cfg: Config, site: Site, s: State) {
    && |s.inFlight| <= 1 && |s.inFlight| <= |s.requested|
    && s.inFlight == s.requested[First(s)..]
    && (forall i, j :: 0 <= i < j < |Log(s)| ==> Log(s)[i].depth <= Log(s)[j].depth)
    && (First(s) < |Log(s)| ==> forall j :: 0 <= j < |Log(s)| ==> Log(s)[j].depth <= Log(s)[First(s)].depth + 1)
    && (forall i, c ::
          0 <= i < First(s) && Log(s)[i].depth < cfg.maxDepth && c in Kids(cfg, site, cfg.key(Log(s)[i].url)) ==>
            Covered(cfg, s, c, Log(s)[i].depth + 1))
  }

  lemma LaunchKeepsQueue(cfg: Config, site: Site, root: Url, s: State)
    requires Slots(cfg) == 1 && Inv(cfg, root, s) && CanLaunch(cfg, s) && QueueInv(cfg, site, s)
    ensures QueueInv(cfg, site, Launch(s))
  {
    hide Inv, Kids, Covered;
    LaunchKeepsInv(cfg, root, s);
    var s' := Launch(s);
    assert First(s') == First(s);
    forall i, c | 0 <= i < First(s') && Log(s')[i].depth < cfg.maxDepth && c in Kids(cfg, site, cfg.key(Log(s')[i].url))
      ensures Covered(cfg, s', c, Log(s')[i].depth + 1)
    {
      assert Covered(cfg, s, c, Log(s)[i].depth + 1);
      CoveredStays(cfg, s, s', c, Log(s)[i].depth + 1);
    }
  }

  lemma CoveredStays(cfg: Config, s: State, s': State, c: UrlKey, depth: nat)
    requires Covered(cfg, s, c, depth) && Log(s) <= Log(s')
    ensures Covered(cfg, s', c, depth)
  {
    var j :| 0 <= j < |Log(s)| && cfg.key(Log(s)[j].url) == c && Log(s)[j].depth <= depth;
    assert Log(s')[j] == Log(s)[j];
  }

  /** What one sequential completion does to the log. */
  lemma CompletionExtendsLog(cfg: Config, site: Site, root: Url, s: State)
    requires Plain(cfg, site) && |s.inFlight| == 1 && Inv(cfg, root, s)
    ensures var t := s.inFlight[0];
      var s' := Complete(cfg, s, 0, site.reply(cfg.key(t.url)));
      && s'.requested == s.requested && s'.inFlight == []
      && Log(s) <= Log(s')
      && forall j :: |Log(s)| <= j < |Log(s')| ==> Log(s')[j].depth == t.depth + 1
  {
    hide Plain, Inv, Complete, Enqueue, Children, Kids;
    var t := s.inFlight[0];
    CompletionEffect(cfg, site, root, s, 0);
    EnqueueExtends(cfg, s.visited, s.frontier, Children(cfg, t, site.reply(cfg.key(t.url))), t.depth + 1);
    var s' := Complete(cfg, s, 0, site.reply(cfg.key(t.url)));
    forall j | |Log(s)| <= j < |Log(s')| ensures Log(s')[j].depth == t.depth + 1 {
      assert Log(s')[j] == s'.frontier[j - |s.requested|];
    }
  }

  lemma CompletedIsCovered(cfg: Config, site: Site, s: State, t: Task)
    requires s.visited == KeySet(cfg, Log(s))
    requires t in s.requested && t !in s.inFlight && t.depth < cfg.maxDepth
    requires Kids(cfg, site, cfg.key(t.url)) <= s.visited
    requires forall j :: 0 <= j < |Log(s)| ==> Log(s)[j].depth <= t.depth + 1
    ensures forall c :: c in Kids(cfg, site, cfg.key(t.url)) ==> Covered(cfg, s, c, t.depth + 1)
  {
    hide Kids;
    forall c | c in Kids(cfg, site, cfg.key(t.url)) ensures Covered(cfg, s, c, t.depth + 1) {
      var t' :| t' in Log(s) && cfg.key(t'.url) == c;
      var j :| 0 <= j < |Log(s)| && Log(s)[j] == t';
    }
  }

  /** The kids of every completed task are covered after one more completion. */
  lemma CoverageKept(cfg: Config, site: Site, s: State, s': State, t: Task)
    requires QueueInv(cfg, site, s) && s.inFlight == [t] && s'.requested == s.requested && s'.inFlight == []
    requires Log(s) <= Log(s') && forall j :: 0 <= j < |Log(s')| ==> Log(s')[j].depth <= t.depth + 1
    requires s'.visited == KeySet(cfg, Log(s'))
    requires t.depth < cfg.maxDepth ==> Kids(cfg, site, cfg.key(t.url)) <= s'.visited
    ensures forall i, c ::
      0 <= i < First(s') && Log(s')[i].depth < cfg.maxDepth && c in Kids(cfg, site, cfg.key(Log(s')[i].url)) ==>
        Covered(cfg, s', c, Log(s')[i].depth + 1)
  {
    hide Kids, Covered, KeySet;
    var L, L' := Log(s), Log(s');
    forall i, c | 0 <= i < First(s') && L'[i].depth < cfg.maxDepth && c in Kids(cfg, site, cfg.key(L'[i].url))
      ensures Covered(cfg, s', c, L'[i].depth + 1)
    {
      if i < First(s) {
        assert L'[i] == L[i] && Covered(cfg, s, c, L[i].depth + 1);
        CoveredStays(cfg, s, s', c, L[i].depth + 1);
      } else {
        assert L'[i] == s.requested[i] == t;
        CompletedIsCovered(cfg, site, s', t);
      }
    }
  }

  lemma CompleteKeepsQueue(cfg: Config, site: Site, root: Url, s: State)
    requires Plain(cfg, site) && !s.aborted && |s.inFlight| > 0
    requires Inv(cfg, root, s) && SiteInv(cfg, site, cfg.key(root), s) && QueueInv(cfg, site, s)
    ensures QueueInv(cfg, site, Complete(cfg, s, 0, site.reply(cfg.key(s.inFlight[0].url))))
  {
    hide Plain, Inv, Complete, Kids, Within, Covered, KeySet, Drop;
    var t := s.inFlight[0];
    var s' := Complete(cfg, s, 0, site.reply(cfg.key(t.url)));
    CompletionExtendsLog(cfg, site, root, s);
    CompleteKeepsSiteInv(cfg, site, root, s, 0);
    assert t == s.requested[First(s)] && t == Log(s)[First(s)] && t in s'.requested;
    assert forall j :: 0 <= j < |Log(s)| ==> Log(s')[j] == Log(s)[j];
    CoverageKept(cfg, site, s, s', t);
  }

  lemma OneInFlight(cfg: Config, site: Site, s: State)
    requires QueueInv(cfg, site, s)
    ensures |s.inFlight| <= 1
  {
    hide Covered, Kids;
  }

  lemma StartQueue(cfg: Config, site: Site, root: Url)
    ensures QueueInv(cfg, site, Start(cfg, root))
  {
    hide Kids;
    assert Log(Start(cfg, root)) == [Task(root, 0)];
  }

  lemma SequentialStepKeepsQueue(cfg: Config, site: Site, root: Url, s: State, s': State)
    requires Plain(cfg, site) && Slots(cfg) == 1 && SiteStep(cfg, site, s, s')
    requires Inv(cfg, root, s) && SiteInv(cfg, site, cfg.key(root), s) && QueueInv(cfg, site, s)
    ensures QueueInv(cfg, site, s')
  {
    hide Inv, SiteInv, Plain, Launch, Complete, QueueInv;
    OneInFlight(cfg, site, s);
    if CanLaunch(cfg, s) {
      LaunchKeepsQueue(cfg, site, root, s);
    } else {
      var i: nat :| i < |s.inFlight| && s' == Complete(cfg, s, i, site.reply(cfg.key(s.inFlight[i].url)));
      assert i == 0;
      CompleteKeepsQueue(cfg, site, root, s);
    }
  }

  lemma {:induction false} SequentialKeepsQueue(cfg: Config, site: Site, root: Url, tr: seq<State>, n: nat)
    requires Plain(cfg, site) && Slots(cfg) == 1 && SiteRun(cfg, site, root, tr) && n < |tr|
    ensures QueueInv(cfg, site, tr[n])
  {
    hide Inv, SiteInv, Plain, QueueInv, SiteStep;
    if n == 0 {
      StartQueue(cfg, site, root);
    } else {
      SequentialKeepsQueue(cfg, site, root, tr, n - 1);
      SiteRunKeepsInv(cfg, site, root, tr, n - 1);
      assert SiteStep(cfg, site, tr[n - 1], tr[n - 1 + 1]);
      SequentialStepKeepsQueue(cfg, site, root, tr[n - 1], tr[n]);
    }
  }

  lemma {:induction false} LayerCovered(cfg: Config, site: Site, root: Url, s: State, d: nat, k: UrlKey)
    requires |Log(s)| > 0 && Log(s)[0] == Task(root, 0)
    requires QueueInv(cfg, site, s) && s.frontier == [] && s.inFlight == []
    requires d <= cfg.maxDepth && k in Within(cfg, site, cfg.key(root), d)
    ensures Covered(cfg, s, k, d)
  {
    hide Kids;
    if d == 0 {
      assert Log(s)[0] == Task(root, 0);
    } else if k in Within(cfg, site, cfg.key(root), d - 1) {
      LayerCovered(cfg, site, root, s, d - 1, k);
    } else {
      var k0 :| k0 in Within(cfg, site, cfg.key(root), d - 1) && k in Kids(cfg, site, k0);
      LayerCovered(cfg, site, root, s, d - 1, k0);
      var j :| 0 <= j < |Log(s)| && cfg.key(Log(s)[j].url) == k0 && Log(s)[j].depth <= d - 1;
      assert Covered(cfg, s, k, Log(s)[j].depth + 1);
    }
  }

  /** The recorded depth is the distance: within `depth`, and not within less. */
  ghost predicate AtDistance(cfg: Config, site: Site, root: UrlKey, t: Task) {
    && cfg.key(t.url) in Within(cfg, site, root, t.depth)
    && (t.depth > 0 ==> cfg.key(t.url) !in Within(cfg, site, root, t.depth - 1))
  }

  /** Distinct keys: one task per key. */
  lemma OneTaskPerKey(cfg: Config, root: Url, s: State, i: nat, j: nat)
    requires Inv(cfg, root, s) && i < |Log(s)| && j < |Log(s)|
    requires cfg.key(Log(s)[i].url) == cfg.key(Log(s)[j].url)
    ensures i == j
  {
    assert Keys(cfg, Log(s))[i] == Keys(cfg, Log(s))[j];
  }

  lemma DrainedAtDistance(cfg: Config, site: Site, root: Url, s: State, t: Task)
    requires Inv(cfg, root, s) && QueueInv(cfg, site, s) && s.frontier == [] && s.inFlight == []
    requires t in s.requested && cfg.key(t.url) in Within(cfg, site, cfg.key(root), t.depth)
    requires t.depth <= cfg.maxDepth
    ensures AtDistance(cfg, site, cfg.key(root), t)
  {
    hide Kids, Within, QueueInv, Inv;
    if t.depth > 0 && cfg.key(t.url) in Within(cfg, site, cfg.key(root), t.depth - 1) {
      RootFirst(cfg, root, s);
      LayerCovered(cfg, site, root, s, t.depth - 1, cfg.key(t.url));
      var i :| 0 <= i < |s.requested| && s.requested[i] == t;
      var j :| 0 <= j < |Log(s)| && cfg.key(Log(s)[j].url) == cfg.key(t.url) && Log(s)[j].depth <= t.depth - 1;
      OneTaskPerKey(cfg, root, s, i, j);
      assert false;
    }
  }

  /** One fetch at a time, drained to an empty frontier: the crawl requests exactly the keys
      within `maxDepth`, each recorded at its distance from the root. */
  lemma SequentialCrawlIsBreadthFirst(cfg: Config, site: Site, root: Url, tr: seq<State>, n: nat)
    requires Plain(cfg, site) && Slots(cfg) == 1 && SiteRun(cfg, site, root, tr) && n < |tr|
    requires tr[n].frontier == [] && tr[n].inFlight == []
    ensures KeySet(cfg, tr[n].requested) == Within(cfg, site, cfg.key(root), cfg.maxDepth)
    ensures forall t :: t in tr[n].requested ==> AtDistance(cfg, site, cfg.key(root), t)
  {
    hide Kids, Within, Plain, QueueInv, Inv, SiteInv, AtDistance, SiteRun;
    var s := tr[n];
    var r := cfg.key(root);
    SequentialKeepsQueue(cfg, site, root, tr, n);
    SiteRunKeepsInv(cfg, site, root, tr, n);
    SiteRunIsRun(cfg, site, root, tr);
    CrawlAccounting(cfg, root, tr, n);
    AnyOrderStaysWithin(cfg, site, root, tr, n);
    RootFirst(cfg, root, s);
    assert Log(s) == s.requested;
    forall k | k in Within(cfg, site, r, cfg.maxDepth) ensures k in KeySet(cfg, s.requested) {
      LayerCovered(cfg, site, root, s, cfg.maxDepth, k);
    }
    forall t | t in s.requested ensures AtDistance(cfg, site, r, t) {
      DrainedAtDistance(cfg, site, root, s, t);
    }
  }

  lemma RootFirst(cfg: Config, root: Url, s: State)
    requires Inv(cfg, root, s)
    ensures |Log(s)| > 0 && Log(s)[0] == Task(root, 0)
  {
    hide GoodLog;
  }

  // ---- conditional crawls ----

  /** `cond` answers like `plain`, except that some pages answer 304, and those have known
      edges with the same in-scope children, in any order. */
  ghost predicate Revalidates(cfg: Config, plain: Site, cond: Site) {
    forall k :: cond.reply(k) == plain.reply(k)
      || (cond.reply(k).NotModified? && Kids(cfg, cond, k) == Kids(cfg, plain, k))
  }

  /** From no layer of `plain` above the depth limit does `cond` lead anywhere else than `plain`. */
  ghost predicate SameLayers(cfg: Config, plain: Site, cond: Site, root: UrlKey) {
    forall n :: 0 <= n < cfg.maxDepth ==>
      Onward(cfg, cond, Within(cfg, plain, root, n)) == Onward(cfg, plain, Within(cfg, plain, root, n))
  }

  lemma {:induction false} LayersAgree(cfg: Config, plain: Site, cond: Site, root: UrlKey, n: nat)
    requires SameLayers(cfg, plain, cond, root) && n <= cfg.maxDepth
    ensures Within(cfg, cond, root, n) == Within(cfg, plain, root, n)
  {
    hide Onward;
    if n > 0 {
      LayersAgree(cfg, plain, cond, root, n - 1);
    }
  }

  lemma AgreeingLayers(cfg: Config, plain: Site, cond: Site, root: UrlKey)
    requires forall n: nat :: n <= cfg.maxDepth ==> Within(cfg, cond, root, n) == Within(cfg, plain, root, n)
    ensures SameLayers(cfg, plain, cond, root)
  {
    hide Onward;
    forall n | 0 <= n < cfg.maxDepth
      ensures Onward(cfg, cond, Within(cfg, plain, root, n)) == Onward(cfg, plain, Within(cfg, plain, root, n))
    {
      assert Within(cfg, cond, root, n + 1) == Within(cfg, plain, root, n + 1);
      assert Within(cfg, cond, root, n) == Within(cfg, plain, root, n);
    }
  }

  /** In a breadth-first record the keys within `n` are those recorded at most that deep. */
  lemma LayerOfRecord(cfg: Config, site: Site, root: UrlKey, s: State, n: nat)
    requires KeySet(cfg, s.requested) == Within(cfg, site, root, cfg.maxDepth) && n <= cfg.maxDepth
    requires forall t :: t in s.requested ==> AtDistance(cfg, site, root, t)
    ensures forall k :: (k in Within(cfg, site, root, n)
      <==> exists t :: t in s.requested && cfg.key(t.url) == k && t.depth <= n)
  {
    hide Within;
    forall k ensures k in Within(cfg, site, root, n)
      <==> exists t :: t in s.requested && cfg.key(t.url) == k && t.depth <= n
    {
      if k in Within(cfg, site, root, n) {
        WithinMonotone(cfg, site, root, n, cfg.maxDepth);
        var t :| t in s.requested && cfg.key(t.url) == k;
        if t.depth > n {
          WithinMonotone(cfg, site, root, n, t.depth - 1);
        }
      }
      if t :| t in s.requested && cfg.key(t.url) == k && t.depth <= n {
        WithinMonotone(cfg, site, root, t.depth, n);
      }
    }
  }

  /** Two crawls recorded the same keys at the same depths. */
  ghost predicate SameRecord(cfg: Config, s: State, s': State) {
    && KeySet(cfg, s'.requested) == KeySet(cfg, s.requested)
    && forall t, t' ::
         t in s.requested && t' in s'.requested && cfg.key(t.url) == cfg.key(t'.url) ==> t.depth == t'.depth
  }

  lemma RecordsAgree(cfg: Config, s: State, s': State, k: UrlKey, n: nat)
    requires SameRecord(cfg, s, s')
    ensures (exists t :: t in s.requested && cfg.key(t.url) == k && t.depth <= n)
      <==> (exists t :: t in s'.requested && cfg.key(t.url) == k && t.depth <= n)
  {
    if t :| t in s.requested && cfg.key(t.url) == k && t.depth <= n {
      assert k in KeySet(cfg, s'.requested);
      var t' :| t' in s'.requested && cfg.key(t'.url) == k;
      assert t'.depth <= n;
    }
    if t' :| t' in s'.requested && cfg.key(t'.url) == k && t'.depth <= n {
      assert k in KeySet(cfg, s.requested);
      var t :| t in s.requested && cfg.key(t.url) == k;
      assert t.depth <= n;
    }
  }

  /** One fetch at a time, both drained: a crawl with other replies, 304s among them, records the
      same keys at the same depths as the full crawl if and only if from every layer of the full
      crawl they lead to the same keys. What a page answers at the depth limit does not matter,
      nor does a missing edge to a key that another page of the layer leads to. */
  lemma ConditionalCrawlIff(cfg: Config, plain: Site, cond: Site, root: Url,
                            tr: seq<State>, n: nat, tr': seq<State>, n': nat)
    requires Plain(cfg, plain) && Plain(cfg, cond) && Slots(cfg) == 1
    requires SiteRun(cfg, plain, root, tr) && n < |tr| && tr[n].frontier == [] && tr[n].inFlight == []
    requires SiteRun(cfg, cond, root, tr') && n' < |tr'| && tr'[n'].frontier == [] && tr'[n'].inFlight == []
    ensures SameRecord(cfg, tr[n], tr'[n']) <==> SameLayers(cfg, plain, cond, cfg.key(root))
  {
    hide Kids, Onward, Within, Plain, SiteRun, AtDistance;
    var r := cfg.key(root);
    var s, s' := tr[n], tr'[n'];
    SequentialCrawlIsBreadthFirst(cfg, plain, root, tr, n);
    SequentialCrawlIsBreadthFirst(cfg, cond, root, tr', n');
    DepthsBounded(cfg, plain, root, tr, n);
    DepthsBounded(cfg, cond, root, tr', n');
    hide KeySet;
    if SameRecord(cfg, s, s') {
      forall m: nat | m <= cfg.maxDepth ensures Within(cfg, cond, r, m) == Within(cfg, plain, r, m) {
        LayerOfRecord(cfg, plain, r, s, m);
        LayerOfRecord(cfg, cond, r, s', m);
        forall k ensures k in Within(cfg, cond, r, m) <==> k in Within(cfg, plain, r, m) {
          RecordsAgree(cfg, s, s', k, m);
        }
      }
      AgreeingLayers(cfg, plain, cond, r);
    }
    if SameLayers(cfg, plain, cond, r) {
      LayersAgree(cfg, plain, cond, r, cfg.maxDepth);
      forall t, t' | t in s.requested && t' in s'.requested && cfg.key(t.url) == cfg.key(t'.url)
        ensures t.depth == t'.depth
      {
        SameDistance(cfg, plain, cond, r, t, t');
      }
    }
  }

  lemma DepthsBounded(cfg: Config, site: Site, root: Url, tr: seq<State>, n: nat)
    requires SiteRun(cfg, site, root, tr) && n < |tr|
    ensures forall t :: t in tr[n].requested ==> t.depth <= cfg.maxDepth
  {
    SiteRunIsRun(cfg, site, root, tr);
    CrawlAccounting(cfg, root, tr, n);
  }

  lemma SameDistance(cfg: Config, plain: Site, cond: Site, root: UrlKey, t: Task, t': Task)
    requires SameLayers(cfg, plain, cond, root) && t.depth <= cfg.maxDepth && t'.depth <= cfg.maxDepth
    requires AtDistance(cfg, plain, root, t) && AtDistance(cfg, cond, root, t') && cfg.key(t.url) == cfg.key(t'.url)
    ensures t.depth == t'.depth
  {
    hide Within, SameLayers;
    LayersAgree(cfg, plain, cond, root, t.depth);
    LayersAgree(cfg, plain, cond, root, t'.depth);
    if t.depth < t'.depth {
      WithinMonotone(cfg, cond, root, t.depth, t'.depth - 1);
    } else if t'.depth < t.depth {
      WithinMonotone(cfg, plain, root, t'.depth, t.depth - 1);
    }
  }

  lemma RevalidationKeepsLayers(cfg: Config, plain: Site, cond: Site, root: UrlKey)
    requires Revalidates(cfg, plain, cond)
    ensures SameLayers(cfg, plain, cond, root)
  {
    forall k ensures Kids(cfg, cond, k) == Kids(cfg, plain, k) {
      assert cond.reply(k) == plain.reply(k) || cond.reply(k).NotModified?;
    }
    hide Kids, Within;
  }

  /** Coverage never shrinks on a 304 whose known edges have the children of the page: the
      conditional crawl requests the same keys, at the same depths, as the full one. */
  lemma ConditionalCrawlRefinesFull(cfg: Config, plain: Site, cond: Site, root: Url,
                                    tr: seq<State>, n: nat, tr': seq<State>, n': nat)
    requires Plain(cfg, plain) && Plain(cfg, cond) && Slots(cfg) == 1
    requires Revalidates(cfg, plain, cond)
    requires SiteRun(cfg, plain, root, tr) && n < |tr| && tr[n].frontier == [] && tr[n].inFlight == []
    requires SiteRun(cfg, cond, root, tr') && n' < |tr'| && tr'[n'].frontier == [] && tr'[n'].inFlight == []
    ensures SameRecord(cfg, tr[n], tr'[n'])
  {
    RevalidationKeepsLayers(cfg, plain, cond, cfg.key(root));
    hide *;
    ConditionalCrawlIff(cfg, plain, cond, root, tr, n, tr', n');
  }

  function Urls(ts: seq<Task>): (r: seq<Url>)
    ensures |r| == |ts|
  {
    seq(|ts|, i requires 0 <= i < |ts| => ts[i].url)
  }

  lemma {:induction false} UrlsCount(ts: seq<Task>, i: nat)
    requires i < |ts|
    ensures multiset(Urls(ts)) == multiset(Urls(Drop(ts, i))) + multiset{ts[i].url}
  {
    assert Urls(ts) == Urls(ts)[..i] + [ts[i].url] + Urls(ts)[i + 1..];
    assert Urls(Drop(ts, i)) == Urls(ts)[..i] + Urls(ts)[i + 1..];
  }

  /** What holds of a crawl in which every page so far answered 304. */
  ghost predicate AllUnchanged(s: State) {
    && s.yielded == [] && s.successes == 0 && s.failed == 0 && !s.aborted
    && multiset(Urls(s.requested)) == multiset(s.revalidated) + multiset(Urls(s.inFlight))
  }

  lemma LaunchStaysUnchanged(s: State)
    requires AllUnchanged(s) && s.frontier != []
    ensures AllUnchanged(Launch(s))
  {
    assert Urls(Launch(s).requested) == Urls(s.requested) + [s.frontier[0].url];
    assert Urls(Launch(s).inFlight) == Urls(s.inFlight) + [s.frontier[0].url];
  }

  lemma CompleteStaysUnchanged(cfg: Config, s: State, i: nat)
    requires AllUnchanged(s) && i < |s.inFlight|
    ensures AllUnchanged(Complete(cfg, s, i, NotModified))
  {
    CompletionShape(cfg, s, i, NotModified);
    hide Complete, Enqueue, Children, Marked, Urls, Drop;
    UrlsCount(s.inFlight, i);
  }

  lemma StepStaysUnchanged(cfg: Config, site: Site, s: State, s': State)
    requires AllUnchanged(s) && SiteStep(cfg, site, s, s') && forall k :: site.reply(k).NotModified?
    ensures AllUnchanged(s')
  {
    hide Launch, Complete, AllUnchanged;
    if CanLaunch(cfg, s) {
      LaunchStaysUnchanged(s);
    } else {
      var i: nat :| i < |s.inFlight| && s' == Complete(cfg, s, i, site.reply(cfg.key(s.inFlight[i].url)));
      CompleteStaysUnchanged(cfg, s, i);
    }
  }

  /** When every page answers 304, no page is yielded, no budget is spent, nothing fails, and
      once the crawl ends the revalidated record holds exactly the requested URLs. */
  lemma {:induction false} AllUnchangedRun(cfg: Config, site: Site, root: Url, tr: seq<State>, n: nat)
    requires SiteRun(cfg, site, root, tr) && n < |tr|
    requires forall k :: site.reply(k).NotModified?
    ensures AllUnchanged(tr[n])
    ensures cfg.maxPages > 0 && Terminal(cfg, tr[n]) ==>
      tr[n].frontier == [] && multiset(Urls(tr[n].requested)) == multiset(tr[n].revalidated)
  {
    hide SiteStep;
    if n == 0 {
      assert Urls(tr[0].requested) == [] && Urls(tr[0].inFlight) == [];
    } else {
      AllUnchangedRun(cfg, site, root, tr, n - 1);
      assert SiteStep(cfg, site, tr[n - 1], tr[n - 1 + 1]);
      StepStaysUnchanged(cfg, site, tr[n - 1], tr[n]);
    }
    assert tr[n].inFlight == [] ==> Urls(tr[n].inFlight) == [];
  }
}
