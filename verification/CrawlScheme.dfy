/** A 304 feeds the frontier from stored edges without the scheme test that links of a page
    pass, so a conditional crawl can request what the full crawl of the same site never would. */
module CrawlScheme {
  import opened Common
  import opened CrawlMachine
  import opened CrawlReach
  import opened CrawlOrder

  /** A link that is neither http nor https. */
  function Ftp(): Url { Url("ftp", Some("x.dev"), Some(1), "/", None, None) }

  /** Any link is followed; the one page's stored edges are exactly its links. */
  function OneByOne(): Config {
    Config(1, 100, 1, NodeKey, Anything, Anything, Anything, map[0 := [Ftp()]])
  }

  function Fresh(): Site { Site((k: UrlKey) => Page(None, true, if k == 0 then [Ftp()] else [])) }

  function Unchanged(): Site { Site((k: UrlKey) => if k == 0 then NotModified else Page(None, true, [])) }

  lemma FreshOffers()
    ensures Offered(OneByOne(), 0, Fresh().reply(0)) == []
  {
    assert StripAll([Ftp()]) == [Ftp()];
    assert [Ftp()][1..] == [];
    assert !LinkAllowed(OneByOne(), Ftp());
  }

  lemma UnchangedOffers()
    ensures Offered(OneByOne(), 0, Unchanged().reply(0)) == [Ftp()]
  {
    KeepAll(OneByOne().follows, [Ftp()]);
  }

  function Launched(): State { State({0}, [], [Task(Node(0), 0)], [Task(Node(0), 0)], 0, 0, [], [], false) }

  /** The full crawl: the page, and nothing more. */
  function FullRun(): seq<State> {
    [Start(OneByOne(), Node(0)), Launched(),
     State({0}, [], [], [Task(Node(0), 0)], 1, 0, [], [Node(0)], false)]
  }

  /** The conditional crawl: the stored edge is requested too. */
  function ConditionalRun(): seq<State> {
    var both := [Task(Node(0), 0), Task(Ftp(), 1)];
    [Start(OneByOne(), Node(0)), Launched(),
     State({0, 1}, [Task(Ftp(), 1)], [], [Task(Node(0), 0)], 0, 0, [Node(0)], [], false),
     State({0, 1}, [], [Task(Ftp(), 1)], both, 0, 0, [Node(0)], [], false),
     State({0, 1}, [], [], both, 1, 0, [Node(0)], [Ftp()], false)]
  }

  lemma Launches(site: Site, s: State, s': State)
    requires !s.aborted && s.inFlight == [] && s.successes < 100 && |s.frontier| == 1
    requires s' == s.(frontier := [], inFlight := s.frontier, requested := s.requested + s.frontier)
    ensures SiteStep(OneByOne(), site, s, s')
  {
    assert s.frontier[1..] == [] && [s.frontier[0]] == s.frontier;
    assert CanLaunch(OneByOne(), s) && s' == Launch(s);
  }

  lemma Completes(site: Site, s: State, s': State)
    requires !s.aborted && |s.inFlight| == 1
    requires s' == Complete(OneByOne(), s, 0, site.reply(NodeKey(s.inFlight[0].url)))
    ensures SiteStep(OneByOne(), site, s, s')
  {
    hide Complete;
    assert !CanLaunch(OneByOne(), s);
  }

  lemma FullRunIsARun()
    ensures SiteRun(OneByOne(), Fresh(), Node(0), FullRun())
  {
    var tr := FullRun();
    Launches(Fresh(), tr[0], tr[1]);
    FreshOffers();
    assert tr[1].visited + {0} == {0} && Drop(tr[1].inFlight, 0) == [];
    hide Offered, Drop;
    assert tr[2] == Complete(OneByOne(), tr[1], 0, Fresh().reply(0));
    Completes(Fresh(), tr[1], tr[2]);
    hide SiteStep;
  }

  lemma StoredEdgePushed(tr: seq<State>)
    requires tr == ConditionalRun()
    ensures tr[2] == Complete(OneByOne(), tr[1], 0, Unchanged().reply(0))
  {
    UnchangedOffers();
    assert tr[1].visited + {0} == {0} && {0} + {1} == {0, 1} && Drop(tr[1].inFlight, 0) == [];
    assert [Ftp()][1..] == [];
    hide Offered, Drop;
  }

  lemma StoredEdgeFetched(tr: seq<State>)
    requires tr == ConditionalRun()
    ensures tr[4] == Complete(OneByOne(), tr[3], 0, Unchanged().reply(1))
  {
    assert {0, 1} + {1} == {0, 1} && Drop(tr[3].inFlight, 0) == [];
    assert Children(OneByOne(), tr[3].inFlight[0], Unchanged().reply(1)) == [];
    hide Drop;
  }

  lemma NodeKeys()
    ensures NodeKey(Node(0)) == 0 && NodeKey(Ftp()) == 1
  {}

  lemma ConditionalRunIsARun()
    ensures SiteRun(OneByOne(), Unchanged(), Node(0), ConditionalRun())
  {
    hide Complete, SiteStep, NodeKey;
    var tr := ConditionalRun();
    StoredEdgePushed(tr);
    StoredEdgeFetched(tr);
    assert NodeKey(Node(0)) == 0 && NodeKey(Ftp()) == 1 by {
      NodeKeys();
    }
    Launches(Unchanged(), tr[0], tr[1]);
    Completes(Unchanged(), tr[1], tr[2]);
    Launches(Unchanged(), tr[2], tr[3]);
    Completes(Unchanged(), tr[3], tr[4]);
    forall n | 0 <= n < 4 ensures SiteStep(OneByOne(), Unchanged(), tr[n], tr[n + 1]) {
      assert n == 0 || n == 1 || n == 2 || n == 3;
    }
  }

  /** The stored edges of the page are its links, and yet the two crawls differ: the conditional
      one requests a key the full one never does. */
  lemma StoredEdgesSkipSchemeTest()
    ensures var cfg, full, cond := OneByOne(), FullRun(), ConditionalRun();
      && Fresh().reply(0).links == cfg.known[0]
      && Plain(cfg, Fresh()) && SiteRun(cfg, Fresh(), Node(0), full)
      && Plain(cfg, Unchanged()) && SiteRun(cfg, Unchanged(), Node(0), cond)
      && full[2].frontier == [] && full[2].inFlight == [] && cond[4].frontier == [] && cond[4].inFlight == []
      && KeySet(cfg, full[2].requested) == {0} && KeySet(cfg, cond[4].requested) == {0, 1}
      && !SameLayers(cfg, Fresh(), Unchanged(), 0)
  {
    FullRunIsARun();
    ConditionalRunIsARun();
    hide SiteRun, SameLayers;
    var cfg, full, cond := OneByOne(), FullRun(), ConditionalRun();
    assert KeySet(cfg, full[2].requested) == {0};
    assert cond[4].requested[0] in cond[4].requested && cond[4].requested[1] in cond[4].requested;
    assert KeySet(cfg, cond[4].requested) == {0, 1};
    hide KeySet;
    ConditionalCrawlIff(cfg, Fresh(), Unchanged(), Node(0), full, 2, cond, 4);
  }
}
