/** How deep an overtaken page can be recorded: the paths a crawl follows, and a condition on the
    site alone under which no completion order loses a page. */
module CrawlPaths {
  import opened Common
  import opened CrawlMachine
  import opened CrawlReach

  /** A path along links from the root that passes no key twice and takes no link it could have
      taken earlier. */
  ghost predicate Direct(cfg: Config, site: Site, root: UrlKey, p: seq<UrlKey>) {
    && p != [] && p[0] == root && Distinct(p)
    && (forall i :: 0 <= i < |p| - 1 ==> p[i + 1] in Kids(cfg, site, p[i]))
    && (forall i, j :: 0 <= i && i + 1 < j < |p| ==> p[j] !in Kids(cfg, site, p[i]))
  }

  /** `p` is how the crawl came to `t`: a direct path as long as the recorded depth, over visited
      keys, everything that the keys before the last link to being visited too. */
  ghost predicate Along(cfg: Config, site: Site, root: UrlKey, visited: set<UrlKey>, t: Task, p: seq<UrlKey>) {
    && Direct(cfg, site, root, p) && |p| == t.depth + 1 && p[t.depth] == cfg.key(t.url)
    && (forall k :: k in p ==> k in visited)
    && (forall i :: 0 <= i < t.depth ==> Kids(cfg, site, p[i]) <= visited)
  }

  ghost predicate Recorded(cfg: Config, site: Site, root: UrlKey, visited: set<UrlKey>, t: Task) {
    exists p :: Along(cfg, site, root, visited, t, p)
  }

  ghost predicate PathInv(cfg: Config, site: Site, root: UrlKey, s: State) {
    forall t :: t in Log(s) ==> Recorded(cfg, site, root, s.visited, t)
  }

  lemma RecordedStays(cfg: Config, site: Site, root: UrlKey, v: set<UrlKey>, w: set<UrlKey>, t: Task)
    requires Recorded(cfg, site, root, v, t) && v <= w
    ensures Recorded(cfg, site, root, w, t)
  {
    hide Kids, Direct;
    var p :| Along(cfg, site, root, v, t, p);
    assert Along(cfg, site, root, w, t, p);
  }

  /** One link further, to a key that was not visited. */
  lemma DirectNext(cfg: Config, site: Site, root: UrlKey, visited: set<UrlKey>, t: Task, p: seq<UrlKey>, c: UrlKey)
    requires Along(cfg, site, root, visited, t, p)
    requires c in Kids(cfg, site, cfg.key(t.url)) && c !in visited
    ensures Direct(cfg, site, root, p + [c])
  {
    hide Kids;
  }

  lemma ChildRecorded(cfg: Config, site: Site, root: UrlKey, v: set<UrlKey>, w: set<UrlKey>, t: Task, child: Task)
    requires Recorded(cfg, site, root, v, t) && v <= w && child.depth == t.depth + 1
    requires var c := cfg.key(child.url); c in Kids(cfg, site, cfg.key(t.url)) && c !in v && c in w
    requires Kids(cfg, site, cfg.key(t.url)) <= w
    ensures Recorded(cfg, site, root, w, child)
  {
    hide Kids;
    var p :| Along(cfg, site, root, v, t, p);
    var c := cfg.key(child.url);
    DirectNext(cfg, site, root, v, t, p, c);
    hide Direct;
    assert Along(cfg, site, root, w, child, p + [c]);
  }

  /** A task enqueued by this step had a new key. */
  lemma NewKey(cfg: Config, site: Site, root: Url, s: State, s': State, t: Task)
    requires Inv(cfg, root, s') && SiteInv(cfg, site, cfg.key(root), s) && Log(s) <= Log(s')
    requires t in Log(s') && t !in Log(s)
    ensures cfg.key(t.url) !in s.visited
  {
    hide Inv, Kids, Within;
    if cfg.key(t.url) in s.visited {
      var u :| u in Log(s) && cfg.key(u.url) == cfg.key(t.url);
      var i :| 0 <= i < |Log(s)| && Log(s)[i] == u;
      var j :| 0 <= j < |Log(s')| && Log(s')[j] == t;
      OneTaskPerKey(cfg, root, s', i, j);
    }
  }

  lemma CompleteKeepsPaths(cfg: Config, site: Site, root: Url, s: State, i: nat)
    requires Plain(cfg, site) && Inv(cfg, root, s) && !s.aborted && i < |s.inFlight|
    requires SiteInv(cfg, site, cfg.key(root), s) && PathInv(cfg, site, cfg.key(root), s)
    ensures PathInv(cfg, site, cfg.key(root), Complete(cfg, s, i, site.reply(cfg.key(s.inFlight[i].url))))
  {
    hide Plain, Inv, SiteInv, Complete, Enqueue, Children, Kids, Recorded;
    var t := s.inFlight[i];
    var k, r := cfg.key(t.url), cfg.key(root);
    var reply := site.reply(k);
    var us := Children(cfg, t, reply);
    var s' := Complete(cfg, s, i, reply);
    CompletionEffect(cfg, site, root, s, i);
    CompleteKeepsInv(cfg, root, s, i, reply);
    EnqueueExtends(cfg, s.visited, s.frontier, us, t.depth + 1);
    assert Log(s) <= Log(s') && t in Log(s);
    forall t' | t' in Log(s') ensures Recorded(cfg, site, r, s'.visited, t') {
      if t' in Log(s) {
        RecordedStays(cfg, site, r, s.visited, s'.visited, t');
      } else {
        var m :| 0 <= m < |s'.frontier| && s'.frontier[m] == t';
        assert m >= |s.frontier| && t'.url in us;
        NewKey(cfg, site, root, s, s', t');
        assert cfg.key(t'.url) in KeysOf(cfg, us);
        ChildRecorded(cfg, site, r, s.visited, s'.visited, t, t');
      }
    }
  }

  lemma StartPaths(cfg: Config, site: Site, root: Url)
    ensures PathInv(cfg, site, cfg.key(root), Start(cfg, root))
  {
    hide Kids;
    var s := Start(cfg, root);
    assert Log(s) == [Task(root, 0)];
    assert Along(cfg, site, cfg.key(root), s.visited, Task(root, 0), [cfg.key(root)]);
  }

  lemma {:induction false} RunKeepsPaths(cfg: Config, site: Site, root: Url, tr: seq<State>, n: nat)
    requires Plain(cfg, site) && SiteRun(cfg, site, root, tr) && n < |tr|
    ensures PathInv(cfg, site, cfg.key(root), tr[n])
  {
    hide Inv, SiteInv, Plain, PathInv, Launch, Complete;
    if n == 0 {
      StartPaths(cfg, site, root);
    } else {
      RunKeepsPaths(cfg, site, root, tr, n - 1);
      SiteRunKeepsInv(cfg, site, root, tr, n - 1);
      var s := tr[n - 1];
      assert SiteStep(cfg, site, s, tr[n - 1 + 1]);
      if CanLaunch(cfg, s) {
        LaunchKeepsPaths(cfg, site, root, s);
      } else {
        var i: nat :| i < |s.inFlight| && tr[n] == Complete(cfg, s, i, site.reply(cfg.key(s.inFlight[i].url)));
        CompleteKeepsPaths(cfg, site, root, s, i);
      }
    }
  }

  lemma LaunchKeepsPaths(cfg: Config, site: Site, root: Url, s: State)
    requires Inv(cfg, root, s) && CanLaunch(cfg, s) && PathInv(cfg, site, cfg.key(root), s)
    ensures PathInv(cfg, site, cfg.key(root), Launch(s))
  {
    LaunchKeepsInv(cfg, root, s);
    hide Recorded;
  }

  /** At any concurrency and in any order, a recorded depth is the length of a direct path, so of
      one that passes no key twice. */
  lemma RecordedDepthIsAPath(cfg: Config, site: Site, root: Url, tr: seq<State>, n: nat, t: Task)
    returns (p: seq<UrlKey>)
    requires Plain(cfg, site) && SiteRun(cfg, site, root, tr) && n < |tr| && t in tr[n].requested
    ensures Direct(cfg, site, cfg.key(root), p) && |p| == t.depth + 1 && p[t.depth] == cfg.key(t.url)
    ensures forall k :: k in p ==> k in tr[n].visited
    ensures forall i :: 0 <= i < t.depth ==> Kids(cfg, site, p[i]) <= tr[n].visited
  {
    RunKeepsPaths(cfg, site, root, tr, n);
    hide Kids, Direct, Plain, SiteRun;
    assert t in Log(tr[n]);
    p :| Along(cfg, site, cfg.key(root), tr[n].visited, t, p);
  }

  /** No direct path goes one link beyond the depth limit by way of a page that is nearer than
      its place on the path. */
  ghost predicate NoTrap(cfg: Config, site: Site, root: UrlKey) {
    forall q :: Direct(cfg, site, root, q) && |q| == cfg.maxDepth + 2 && cfg.maxDepth > 0
      ==> q[cfg.maxDepth] !in Within(cfg, site, root, cfg.maxDepth - 1)
  }

  /** A kid that stays unvisited is one link beyond a direct path. */
  lemma HeldBackIsTrapped(cfg: Config, site: Site, root: Url, tr: seq<State>, n: nat, t: Task, c: UrlKey)
    requires Plain(cfg, site) && SiteRun(cfg, site, root, tr) && n < |tr| && t in tr[n].requested
    requires t.depth == cfg.maxDepth > 0 && c in Kids(cfg, site, cfg.key(t.url)) && c !in tr[n].visited
    requires cfg.key(t.url) in Within(cfg, site, cfg.key(root), cfg.maxDepth - 1)
    ensures !NoTrap(cfg, site, cfg.key(root))
  {
    hide Kids, Within, Plain, SiteRun, Direct;
    var p := RecordedDepthIsAPath(cfg, site, root, tr, n, t);
    DirectNext(cfg, site, cfg.key(root), tr[n].visited, t, p, c);
    assert (p + [c])[cfg.maxDepth] == p[cfg.maxDepth];
  }

  lemma VisitedIsRequested(cfg: Config, site: Site, root: Url, tr: seq<State>, n: nat)
    requires Plain(cfg, site) && SiteRun(cfg, site, root, tr) && n < |tr| && tr[n].frontier == []
    ensures tr[n].visited == KeySet(cfg, tr[n].requested)
  {
    SiteRunKeepsInv(cfg, site, root, tr, n);
    assert Log(tr[n]) == tr[n].requested;
    hide Kids, Within, Inv, Plain, SiteRun, KeySet;
  }

  /** On a site without such a path every crawl that drains requests exactly the keys within
      `maxDepth`, whatever the concurrency and the completion order. */
  lemma AnyOrderCompletes(cfg: Config, site: Site, root: Url, tr: seq<State>, n: nat)
    requires Plain(cfg, site) && SiteRun(cfg, site, root, tr) && n < |tr|
    requires tr[n].frontier == [] && tr[n].inFlight == []
    requires NoTrap(cfg, site, cfg.key(root))
    ensures KeySet(cfg, tr[n].requested) == Within(cfg, site, cfg.key(root), cfg.maxDepth)
  {
    hide *;
    AnyOrderCompleteIff(cfg, site, root, tr, n);
    VisitedIsRequested(cfg, site, root, tr, n);
    if !NothingHeldBack(cfg, site, cfg.key(root), tr[n]) {
      var t, c := SomethingHeldBack(cfg, site, cfg.key(root), tr[n]);
      HeldBackIsTrapped(cfg, site, root, tr, n, t, c);
    }
  }

  lemma SomethingHeldBack(cfg: Config, site: Site, root: UrlKey, s: State) returns (t: Task, c: UrlKey)
    requires !NothingHeldBack(cfg, site, root, s)
    ensures t in s.requested && t.depth == cfg.maxDepth > 0
    ensures cfg.key(t.url) in Within(cfg, site, root, cfg.maxDepth - 1)
    ensures c in Kids(cfg, site, cfg.key(t.url)) && c !in KeySet(cfg, s.requested)
  {
    hide Kids, Within, KeySet;
    t :| t in s.requested && t.depth == cfg.maxDepth > 0
      && cfg.key(t.url) in Within(cfg, site, root, cfg.maxDepth - 1)
      && !(Kids(cfg, site, cfg.key(t.url)) <= KeySet(cfg, s.requested));
    c :| c in Kids(cfg, site, cfg.key(t.url)) && c !in KeySet(cfg, s.requested);
  }

  /** In particular when no path without repetitions, as long as the limit, ends at a page that is
      nearer. */
  lemma NoDetourNoTrap(cfg: Config, site: Site, root: UrlKey)
    requires forall p :: (Direct(cfg, site, root, p) && |p| == cfg.maxDepth + 1 && cfg.maxDepth > 0
      ==> p[cfg.maxDepth] !in Within(cfg, site, root, cfg.maxDepth - 1))
    ensures NoTrap(cfg, site, root)
  {
    hide Kids, Within;
    forall q | Direct(cfg, site, root, q) && |q| == cfg.maxDepth + 2 && cfg.maxDepth > 0
      ensures q[cfg.maxDepth] !in Within(cfg, site, root, cfg.maxDepth - 1)
    {
      var p := q[..cfg.maxDepth + 1];
      assert Direct(cfg, site, root, p) && p[cfg.maxDepth] == q[cfg.maxDepth];
    }
  }

  /** And when the limit is at least the number of reachable keys less one: there is no path that long. */
  lemma DeepLimitNoTrap(cfg: Config, site: Site, root: UrlKey, reach: set<UrlKey>)
    requires IsReachable(cfg, site, root, reach) && |reach| <= cfg.maxDepth + 1
    ensures NoTrap(cfg, site, root)
  {
    hide Within, Direct, Kids;
    forall q | Direct(cfg, site, root, q) ensures |q| <= |reach| {
      PathFits(cfg, site, root, reach, q);
    }
  }

  lemma PathFits(cfg: Config, site: Site, root: UrlKey, reach: set<UrlKey>, q: seq<UrlKey>)
    requires IsReachable(cfg, site, root, reach) && Direct(cfg, site, root, q)
    ensures |q| <= |reach|
  {
    hide Within, Kids;
    forall i | 0 <= i < |q| ensures q[i] in reach {
      PathStays(cfg, site, root, reach, q, i);
    }
    DistinctCard(q, reach);
  }

  lemma {:induction false} PathStays(cfg: Config, site: Site, root: UrlKey, closed: set<UrlKey>, q: seq<UrlKey>, i: nat)
    requires Direct(cfg, site, root, q) && i < |q|
    requires root in closed && forall k :: k in closed ==> Kids(cfg, site, k) <= closed
    ensures q[i] in closed
  {
    hide Kids;
    if i > 0 {
      PathStays(cfg, site, root, closed, q, i - 1);
      assert q[i - 1 + 1] in Kids(cfg, site, q[i - 1]);
    }
  }
}
