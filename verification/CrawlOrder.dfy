/** With more than one fetch in flight the visited set depends on the completion order: a
    page first reached over a longer path keeps the longer depth. */
module CrawlOrder {
  import opened Common
  import opened CrawlMachine
  import opened CrawlReach

  function Node(n: nat): Url {
    Url("http", Some("x.dev"), Some(n), "/", None, None)
  }

  function NodeKey(u: Url): UrlKey {
    if u.port.Some? && u.port.value < 6 then u.port.value else 6
  }

  /** 0 -> 1, 2; 1 -> 3; 2 -> 4; 3 -> 4; 4 -> 5. */
  function Links(k: UrlKey): seq<Url> {
    if k == 0 then [Node(1), Node(2)]
    else if k == 1 then [Node(3)]
    else if k == 2 then [Node(4)]
    else if k == 3 then [Node(4)]
    else if k == 4 then [Node(5)]
    else []
  }

  function Diamond(): Site {
    Site((k: UrlKey) => Page(None, true, Links(k)))
  }

  function Anything(u: Url): bool { true }

  function TwoAtATime(): Config {
    Config(3, 100, 2, NodeKey, Anything, Anything, Anything, map[])
  }

  lemma {:induction false} KeepAll(p: Url -> bool, us: seq<Url>)
    requires forall u :: u in us ==> p(u)
    ensures Keep(p, us) == us
  {
    if us != [] {
      KeepAll(p, us[1..]);
    }
  }

  lemma NodeOffers(k: UrlKey)
    ensures Offered(TwoAtATime(), k, Diamond().reply(k)) == Links(k)
  {
    var cfg := TwoAtATime();
    assert StripAll(Links(k)) == Links(k);
    KeepAll((u: Url) => LinkAllowed(cfg, u), Links(k));
  }

  /** The shape of one completion on this site. */
  lemma NodeCompletes(s: State, i: nat, n: nat)
    requires i < |s.inFlight| && n < 6 && s.inFlight[i].url == Node(n) && n in s.visited && !s.aborted
    ensures var cfg := TwoAtATime(); var d := s.inFlight[i].depth;
      var pushed := Enqueue(cfg, s.visited, s.frontier, if d < 3 then Links(n) else [], d + 1);
      Complete(cfg, s, i, Diamond().reply(n))
      == s.(visited := pushed.0, frontier := pushed.1, inFlight := Drop(s.inFlight, i),
            successes := s.successes + 1, yielded := s.yielded + [Node(n)])
  {
    NodeOffers(n);
    var cfg := TwoAtATime();
    var t := s.inFlight[i];
    assert cfg.key(t.url) == n;
    assert !LeftScope(cfg, t, Diamond().reply(n));
    assert s.visited + {n} == s.visited;
    hide Enqueue, Drop, Links, Keep;
  }

  function Q(n: nat, d: nat): Task { Task(Node(n), d) }

  function Launched(n: nat): (r: seq<Task>)
    requires 0 < n <= 5
  {
    [Q(0, 0), Q(1, 1), Q(2, 1), Q(3, 2), Q(4, 3)][..n]
  }

  /** The run in which the path 0, 1, 3, 4 outruns the fetch of 2. */
  function At(n: nat): State
    requires n <= 10
  {
    if n == 0 then State({0}, [Q(0, 0)], [], [], 0, 0, [], [], false)
    else if n == 1 then State({0}, [], [Q(0, 0)], Launched(1), 0, 0, [], [], false)
    else if n == 2 then State({0, 1, 2}, [Q(1, 1), Q(2, 1)], [], Launched(1), 1, 0, [], [Node(0)], false)
    else if n == 3 then State({0, 1, 2}, [Q(2, 1)], [Q(1, 1)], Launched(2), 1, 0, [], [Node(0)], false)
    else if n == 4 then State({0, 1, 2}, [], [Q(1, 1), Q(2, 1)], Launched(3), 1, 0, [], [Node(0)], false)
    else if n == 5 then State({0, 1, 2, 3}, [Q(3, 2)], [Q(2, 1)], Launched(3), 2, 0, [], [Node(0), Node(1)], false)
    else if n == 6 then State({0, 1, 2, 3}, [], [Q(2, 1), Q(3, 2)], Launched(4), 2, 0, [], [Node(0), Node(1)], false)
    else if n == 7 then
      State({0, 1, 2, 3, 4}, [Q(4, 3)], [Q(2, 1)], Launched(4), 3, 0, [], [Node(0), Node(1), Node(3)], false)
    else if n == 8 then
      State({0, 1, 2, 3, 4}, [], [Q(2, 1), Q(4, 3)], Launched(5), 3, 0, [], [Node(0), Node(1), Node(3)], false)
    else if n == 9 then
      State({0, 1, 2, 3, 4}, [], [Q(4, 3)], Launched(5), 4, 0, [], [Node(0), Node(1), Node(3), Node(2)], false)
    else
      State({0, 1, 2, 3, 4}, [], [], Launched(5), 5, 0, [], [Node(0), Node(1), Node(3), Node(2), Node(4)], false)
  }

  lemma LaunchesAt(n: nat)
    requires n in {0, 2, 3, 5, 7}
    ensures SiteStep(TwoAtATime(), Diamond(), At(n), At(n + 1))
  {
    hide Complete;
    var s := At(n);
    assert s.frontier == [s.frontier[0]] + s.frontier[1..];
    assert Launch(s) == At(n + 1);
    assert CanLaunch(TwoAtATime(), s);
  }

  /** A completion that pushes the links `us` of node `k`, of which only new keys count. */
  lemma NodeStep(s: State, s': State, i: nat, k: nat)
    requires i < |s.inFlight| && k < 6 && s.inFlight[i].url == Node(k) && k in s.visited && !s.aborted
    requires !CanLaunch(TwoAtATime(), s)
    requires var d := s.inFlight[i].depth;
      var pushed := Enqueue(TwoAtATime(), s.visited, s.frontier, if d < 3 then Links(k) else [], d + 1);
      s' == s.(visited := pushed.0, frontier := pushed.1, inFlight := Drop(s.inFlight, i),
               successes := s.successes + 1, yielded := s.yielded + [Node(k)])
    ensures SiteStep(TwoAtATime(), Diamond(), s, s')
  {
    NodeCompletes(s, i, k);
    hide Complete, Enqueue, Links, Drop;
    assert TwoAtATime().key(s.inFlight[i].url) == k;
  }

  lemma PushOne(v: set<UrlKey>, f: seq<Task>, n: nat, d: nat)
    requires n < 6
    ensures Enqueue(TwoAtATime(), v, f, [Node(n)], d) == if n in v then (v, f) else (v + {n}, f + [Q(n, d)])
  {
    assert [Node(n)][1..] == [];
  }

  lemma RootCompletes()
    ensures SiteStep(TwoAtATime(), Diamond(), At(1), At(2))
  {
    var v: set<UrlKey> := {0};
    assert Links(0)[0] == Node(1) && Links(0)[1..] == [Node(2)];
    assert v + {1} == {0, 1} && v + {1} + {2} == {0, 1, 2};
    PushOne(v + {1}, [Q(1, 1)], 2, 1);
    assert [] + [Task(Node(1), 1)] == [Q(1, 1)];
    assert Enqueue(TwoAtATime(), v, [], Links(0), 1)
        == Enqueue(TwoAtATime(), v + {1}, [Q(1, 1)], [Node(2)], 1);
    hide Enqueue;
    NodeStep(At(1), At(2), 0, 0);
  }

  /** A completed page with one link, above the depth limit. */
  lemma OneLinkStep(s: State, s': State, i: nat, k: nat, n: nat)
    requires i < |s.inFlight| && k < 6 && n < 6 && s.inFlight[i] == Q(k, s.inFlight[i].depth) && s.inFlight[i].depth < 3
    requires k in s.visited && !s.aborted && !CanLaunch(TwoAtATime(), s) && Links(k) == [Node(n)]
    requires s' == s.(
      visited := if n in s.visited then s.visited else s.visited + {n},
      frontier := if n in s.visited then s.frontier else s.frontier + [Q(n, s.inFlight[i].depth + 1)],
      inFlight := Drop(s.inFlight, i), successes := s.successes + 1, yielded := s.yielded + [Node(k)])
    ensures SiteStep(TwoAtATime(), Diamond(), s, s')
  {
    hide Enqueue, SiteStep, Complete, NodeKey, Links, Drop;
    PushOne(s.visited, s.frontier, n, s.inFlight[i].depth + 1);
    NodeStep(s, s', i, k);
  }

  lemma FirstCompletes()
    ensures SiteStep(TwoAtATime(), Diamond(), At(4), At(5))
  {
    hide SiteStep;
    assert Drop(At(4).inFlight, 0) == [Q(2, 1)];
    OneLinkStep(At(4), At(5), 0, 1, 3);
  }

  lemma ThirdCompletes()
    ensures SiteStep(TwoAtATime(), Diamond(), At(6), At(7))
  {
    hide SiteStep;
    assert Drop(At(6).inFlight, 1) == [Q(2, 1)];
    OneLinkStep(At(6), At(7), 1, 3, 4);
  }

  lemma SecondCompletes()
    ensures SiteStep(TwoAtATime(), Diamond(), At(8), At(9))
  {
    hide Enqueue;
    PushOne({0, 1, 2, 3, 4}, [], 4, 2);
    NodeStep(At(8), At(9), 0, 2);
  }

  lemma FourthCompletes()
    ensures SiteStep(TwoAtATime(), Diamond(), At(9), At(10))
  {
    NodeStep(At(9), At(10), 0, 4);
  }

  function Overtaking(): seq<State> {
    seq(11, n requires 0 <= n < 11 => At(n))
  }

  lemma OvertakingIsARun()
    ensures SiteRun(TwoAtATime(), Diamond(), Node(0), Overtaking())
  {
    var tr := Overtaking();
    hide SiteStep;
    forall n | 0 <= n < 10 ensures SiteStep(TwoAtATime(), Diamond(), tr[n], tr[n + 1]) {
      if n in {0, 2, 3, 5, 7} {
        LaunchesAt(n);
      } else if n == 1 {
        RootCompletes();
      } else if n == 4 {
        FirstCompletes();
      } else if n == 6 {
        ThirdCompletes();
      } else if n == 8 {
        SecondCompletes();
      } else {
        FourthCompletes();
      }
    }
  }

  /** A drained run with two fetches in flight that misses a page within the depth limit. */
  lemma OvertakenCrawlMissesAPage()
    ensures var cfg, tr := TwoAtATime(), Overtaking();
      && Plain(cfg, Diamond()) && SiteRun(cfg, Diamond(), Node(0), tr)
      && Terminal(cfg, tr[10]) && tr[10].frontier == [] && tr[10].inFlight == [] && !tr[10].aborted
      && 5 in Within(cfg, Diamond(), 0, 3)
      && 5 !in KeySet(cfg, tr[10].requested)
  {
    OvertakingIsARun();
    FiveIsInReach();
    hide SiteRun, Within;
  }

  lemma NodeKid(k: nat, n: nat)
    requires k < 6 && n < 6 && Node(n) in Links(k)
    ensures n in Kids(TwoAtATime(), Diamond(), k)
  {
    NodeOffers(k);
    hide Links, Offered;
  }

  lemma FiveIsInReach()
    ensures 5 in Within(TwoAtATime(), Diamond(), 0, 3)
  {
    NodeKid(0, 2);
    NodeKid(2, 4);
    NodeKid(4, 5);
    hide Kids;
    assert 0 in Within(TwoAtATime(), Diamond(), 0, 0);
    hide Within;
    WithinStep(TwoAtATime(), Diamond(), 0, 0, 0, 2);
    WithinStep(TwoAtATime(), Diamond(), 0, 1, 2, 4);
    WithinStep(TwoAtATime(), Diamond(), 0, 2, 4, 5);
  }
}
