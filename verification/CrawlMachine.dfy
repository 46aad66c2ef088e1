/** The crawl as a step system: a FIFO frontier, a visited set, at most `concurrency`
    fetches in flight, completed in any order. */
module CrawlMachine {
  import opened Common

  /** A frontier entry: a URL and its link depth from the root. */
  datatype Task = Task(url: Url, depth: nat)

  /** The outcome of one fetch, retries included. `final` is the address after
      redirects, if any; `links` are the page's links already joined to it. */
  datatype Reply =
    | Page(final: Option<Url>, linkable: bool, links: seq<Url>)
    | NotModified
    | Failed

  /** `key` is the canonical-URL key, `inScope` the scope test, `follows` the test on
      child links (not an asset, in scope, path allowed), `indexes` the index filters. */
  datatype Config = Config(
    maxDepth: nat,
    maxPages: nat,
    concurrency: nat,
    key: Url -> UrlKey,
    inScope: Url -> bool,
    follows: Url -> bool,
    indexes: Url -> bool,
    known: map<UrlKey, seq<Url>>)

  /** The locals of the crawl loop. `requested` is the launch history. */
  datatype State = State(
    visited: set<UrlKey>,
    frontier: seq<Task>,
    inFlight: seq<Task>,
    requested: seq<Task>,
    successes: nat,
    failed: nat,
    revalidated: seq<Url>,
    yielded: seq<Url>,
    aborted: bool)

  // ---- one step ----

  function Slots(cfg: Config): nat {
    if cfg.concurrency == 0 then 1 else cfg.concurrency
  }

  predicate CanLaunch(cfg: Config, s: State) {
    && !s.aborted
    && |s.inFlight| < Slots(cfg)
    && s.successes + |s.inFlight| < cfg.maxPages
    && s.frontier != []
  }

  function Launch(s: State): State
    requires s.frontier != []
  {
    var t := s.frontier[0];
    s.(frontier := s.frontier[1..], inFlight := s.inFlight + [t], requested := s.requested + [t])
  }

  predicate LinkAllowed(cfg: Config, u: Url) {
    (u.scheme == "http" || u.scheme == "https") && cfg.follows(u)
  }

  function Keep(p: Url -> bool, us: seq<Url>): (r: seq<Url>)
    ensures forall u :: u in r <==> u in us && p(u)
  {
    if us == [] then []
    else if p(us[0]) then [us[0]] + Keep(p, us[1..])
    else Keep(p, us[1..])
  }

  function StripAll(us: seq<Url>): (r: seq<Url>)
    ensures |r| == |us|
  {
    seq(|us|, i requires 0 <= i < |us| => us[i].(fragment := None))
  }

  /** The child links a reply offers, before the depth and scope tests. A 304 offers the
      links known from the last index; those skip the scheme test. */
  function Offered(cfg: Config, key: UrlKey, reply: Reply): seq<Url> {
    match reply
    case Page(_, linkable, links) =>
      if linkable then Keep((u: Url) => LinkAllowed(cfg, u), StripAll(links)) else []
    case NotModified => if key in cfg.known then Keep(cfg.follows, cfg.known[key]) else []
    case Failed => []
  }

  function Effective(t: Task, reply: Reply): Url
    requires reply.Page?
  {
    if reply.final.Some? then reply.final.value else t.url
  }

  predicate LeftScope(cfg: Config, t: Task, reply: Reply)
    requires reply.Page?
  {
    t.depth > 0 && !cfg.inScope(Effective(t, reply))
  }

  /** The links a completed fetch pushes candidates from. */
  function Children(cfg: Config, t: Task, reply: Reply): seq<Url> {
    if t.depth >= cfg.maxDepth || (reply.Page? && LeftScope(cfg, t, reply)) then []
    else Offered(cfg, cfg.key(t.url), reply)
  }

  /** Push every candidate whose key is new. */
  function Enqueue(cfg: Config, visited: set<UrlKey>, frontier: seq<Task>, us: seq<Url>, depth: nat)
    : (r: (set<UrlKey>, seq<Task>))
    decreases us
  {
    if us == [] then (visited, frontier)
    else if cfg.key(us[0]) in visited then Enqueue(cfg, visited, frontier, us[1..], depth)
    else Enqueue(cfg, visited + {cfg.key(us[0])}, frontier + [Task(us[0], depth)], us[1..], depth)
  }

  function Drop<T>(s: seq<T>, i: nat): (r: seq<T>)
    requires i < |s|
    ensures |r| == |s| - 1
    ensures multiset(r) == multiset(s) - multiset{s[i]}
  {
    assert s == s[..i] + [s[i]] + s[i + 1..];
    s[..i] + s[i + 1..]
  }

  /** The visited set before children are pushed. */
  function Marked(cfg: Config, s: State, t: Task, reply: Reply): set<UrlKey> {
    match reply
    case Page(_, _, _) =>
      if LeftScope(cfg, t, reply) then s.visited else s.visited + {cfg.key(Effective(t, reply))}
    case NotModified => s.visited + {cfg.key(t.url)}
    case Failed => s.visited
  }

  /** The fetch at position `i` completes with `reply`. */
  function Complete(cfg: Config, s: State, i: nat, reply: Reply): State
    requires i < |s.inFlight|
  {
    var t := s.inFlight[i];
    var rest := s.(inFlight := Drop(s.inFlight, i));
    var (visited, frontier) :=
      Enqueue(cfg, Marked(cfg, s, t, reply), s.frontier, Children(cfg, t, reply), t.depth + 1);
    match reply
    case Failed =>
      if t.depth == 0 then rest.(aborted := true) else rest.(failed := s.failed + 1)
    case NotModified =>
      rest.(visited := visited, frontier := frontier, revalidated := s.revalidated + [t.url])
    case Page(_, _, _) =>
      var e := Effective(t, reply);
      rest.(visited := visited, frontier := frontier, successes := s.successes + 1,
            yielded := if !LeftScope(cfg, t, reply) && cfg.indexes(e) then s.yielded + [e] else s.yielded)
  }

  function Start(cfg: Config, root: Url): State {
    State({cfg.key(root)}, [Task(root, 0)], [], [], 0, 0, [], [], false)
  }

  /** Nothing left to launch or to wait for. */
  predicate Terminal(cfg: Config, s: State) {
    s.aborted || (!CanLaunch(cfg, s) && s.inFlight == [])
  }

  /** The fill loop runs before the next completion is awaited, so a completion happens
      only when nothing can be launched; which fetch completes is the network's choice. */
  ghost predicate Step(cfg: Config, s: State, s': State) {
    || (CanLaunch(cfg, s) && s' == Launch(s))
    || (!CanLaunch(cfg, s) && !s.aborted
        && exists i: nat, reply :: i < |s.inFlight| && s' == Complete(cfg, s, i, reply))
  }

  ghost predicate Run(cfg: Config, root: Url, tr: seq<State>) {
    && |tr| > 0 && tr[0] == Start(cfg, root)
    && forall n :: 0 <= n < |tr| - 1 ==> Step(cfg, tr[n], tr[n + 1])
  }

  // ---- what every step keeps ----

  /** Every task ever enqueued, in order. */
  function Log(s: State): seq<Task> { s.requested + s.frontier }

  function Keys(cfg: Config, ts: seq<Task>): (r: seq<UrlKey>)
    ensures |r| == |ts|
  {
    seq<UrlKey>(|ts|, i requires 0 <= i < |ts| => cfg.key(ts[i].url))
  }

  /** `depth <= position` holds because a child is enqueued behind its parent. */
  ghost predicate GoodLog(cfg: Config, visited: set<UrlKey>, log: seq<Task>) {
    && Distinct(Keys(cfg, log))
    && (forall j :: 0 <= j < |log| ==> cfg.key(log[j].url) in visited)
    && (forall j :: 0 <= j < |log| ==> log[j].depth <= cfg.maxDepth && log[j].depth <= j)
    && (forall j :: 0 < j < |log| ==> log[j].depth > 0 && cfg.follows(log[j].url))
  }

  /** Slots and budget are respected and every launch is accounted for. */
  ghost predicate Counted(cfg: Config, s: State) {
    && |s.inFlight| <= Slots(cfg)
    && s.successes + |s.inFlight| <= cfg.maxPages
    && |s.yielded| <= s.successes
    && |s.requested| == |s.inFlight| + s.successes + |s.revalidated| + s.failed + (if s.aborted then 1 else 0)
    && (s.aborted ==> |s.requested| == 1)
  }

  /** What is in flight was requested, and while the root is in flight it is alone. */
  ghost predicate RootAlone(s: State) {
    && multiset(s.inFlight) <= multiset(s.requested)
    && (s.requested == [] ==> |Log(s)| == 1)
    && (forall t :: t in s.inFlight && t.depth == 0 ==> |Log(s)| == 1)
  }

  ghost predicate Inv(cfg: Config, root: Url, s: State) {
    && GoodLog(cfg, s.visited, Log(s))
    && |Log(s)| > 0 && Log(s)[0] == Task(root, 0)
    && Counted(cfg, s)
    && RootAlone(s)
  }

  lemma {:induction false} EnqueueExtends(cfg: Config, visited: set<UrlKey>, frontier: seq<Task>, us: seq<Url>,
                                         depth: nat)
    ensures var r := Enqueue(cfg, visited, frontier, us, depth);
      && visited <= r.0
      && frontier <= r.1
      && (forall k :: k in r.0 <==> k in visited || exists u :: u in us && cfg.key(u) == k)
      && (forall j :: |frontier| <= j < |r.1| ==> r.1[j].depth == depth && r.1[j].url in us)
      && (forall k :: k in r.0 && k !in visited ==> exists j :: |frontier| <= j < |r.1| && cfg.key(r.1[j].url) == k)
    decreases us
  {
    if us != [] {
      var k0 := cfg.key(us[0]);
      if k0 in visited {
        EnqueueExtends(cfg, visited, frontier, us[1..], depth);
      } else {
        var f := frontier + [Task(us[0], depth)];
        EnqueueExtends(cfg, visited + {k0}, f, us[1..], depth);
        var r := Enqueue(cfg, visited, frontier, us, depth);
        assert r.1[|frontier|] == f[|frontier|];
      }
    }
  }

  /** Pushing children keeps the log good when the log is the requests followed by the queue. */
  lemma {:induction false} EnqueueKeepsLog(cfg: Config, visited: set<UrlKey>, done: seq<Task>, frontier: seq<Task>,
                                          us: seq<Url>, depth: nat)
    requires GoodLog(cfg, visited, done + frontier)
    requires 0 < depth <= cfg.maxDepth && depth <= |done + frontier|
    requires |done + frontier| > 0
    requires forall u :: u in us ==> cfg.follows(u)
    ensures var r := Enqueue(cfg, visited, frontier, us, depth);
      GoodLog(cfg, r.0, done + r.1)
    decreases us
  {
    if us != [] {
      var k0 := cfg.key(us[0]);
      if k0 in visited {
        EnqueueKeepsLog(cfg, visited, done, frontier, us[1..], depth);
      } else {
        var f := frontier + [Task(us[0], depth)];
        assert done + f == (done + frontier) + [Task(us[0], depth)];
        var ks := Keys(cfg, done + f);
        forall i, j | 0 <= i < j < |ks| ensures ks[i] != ks[j] {
          assert ks[i] == Keys(cfg, done + frontier)[i];
          if j < |done + frontier| {
            assert ks[j] == Keys(cfg, done + frontier)[j];
          }
        }
        EnqueueKeepsLog(cfg, visited + {k0}, done, f, us[1..], depth);
      }
    }
  }

  lemma MoreVisited(cfg: Config, v: set<UrlKey>, w: set<UrlKey>, log: seq<Task>)
    requires GoodLog(cfg, v, log) && v <= w
    ensures GoodLog(cfg, w, log)
  {}

  lemma LaunchKeepsInv(cfg: Config, root: Url, s: State)
    requires Inv(cfg, root, s) && CanLaunch(cfg, s)
    ensures Inv(cfg, root, Launch(s)) && Log(Launch(s)) == Log(s)
  {
    assert s.frontier == [s.frontier[0]] + s.frontier[1..];
    assert Log(Launch(s)) == Log(s);
    assert Log(s)[|s.requested|] == s.frontier[0];
  }

  /** The depth of a task in flight is below the length of the log. */
  lemma InFlightInLog(cfg: Config, root: Url, s: State, i: nat) returns (j: nat)
    requires Inv(cfg, root, s) && i < |s.inFlight|
    ensures j < |s.requested| && s.requested[j] == s.inFlight[i] && Log(s)[j] == s.inFlight[i]
  {
    assert s.inFlight[i] in multiset(s.inFlight);
    assert s.inFlight[i] in s.requested;
    j :| 0 <= j < |s.requested| && s.requested[j] == s.inFlight[i];
  }

  lemma ChildrenFollowed(cfg: Config, t: Task, reply: Reply)
    ensures forall u :: u in Children(cfg, t, reply) ==> cfg.follows(u)
  {}

  /** Whatever the reply, a completion removes one fetch, pushes its children and counts once. */
  lemma CompletionShape(cfg: Config, s: State, i: nat, reply: Reply)
    requires i < |s.inFlight|
    ensures var t := s.inFlight[i]; var s' := Complete(cfg, s, i, reply);
      && s'.requested == s.requested && s'.inFlight == Drop(s.inFlight, i)
      && (s'.visited, s'.frontier)
         == Enqueue(cfg, Marked(cfg, s, t, reply), s.frontier, Children(cfg, t, reply), t.depth + 1)
      && s'.aborted == (s.aborted || (reply.Failed? && t.depth == 0))
      && s'.successes == s.successes + (if reply.Page? then 1 else 0)
      && s'.failed == s.failed + (if reply.Failed? && t.depth > 0 then 1 else 0)
      && s'.revalidated == s.revalidated + (if reply.NotModified? then [t.url] else [])
      && |s.yielded| <= |s'.yielded| <= |s.yielded| + (if reply.Page? then 1 else 0)
  {
    hide LeftScope, Drop, Keep;
  }

  lemma CompleteKeepsLog(cfg: Config, root: Url, s: State, i: nat, reply: Reply)
    requires Inv(cfg, root, s) && i < |s.inFlight|
    ensures var s' := Complete(cfg, s, i, reply);
      && s'.requested == s.requested
      && s.frontier <= s'.frontier && Log(s) <= Log(s')
      && s.visited <= s'.visited
      && GoodLog(cfg, s'.visited, Log(s'))
  {
    hide Complete, Drop, Keep, Offered, Enqueue;
    CompletionShape(cfg, s, i, reply);
    ChildrenFollowed(cfg, s.inFlight[i], reply);
    var j := InFlightInLog(cfg, root, s, i);
    var t := s.inFlight[i];
    var us := Children(cfg, t, reply);
    var v := Marked(cfg, s, t, reply);
    var s' := Complete(cfg, s, i, reply);
    MoreVisited(cfg, s.visited, v, Log(s));
    EnqueueExtends(cfg, v, s.frontier, us, t.depth + 1);
    if us != [] {
      assert t.depth < cfg.maxDepth && t.depth <= j;
      hide GoodLog;
      EnqueueKeepsLog(cfg, v, s.requested, s.frontier, us, t.depth + 1);
    } else {
      EnqueueNothing(cfg, v, s.frontier, t.depth + 1);
    }
  }

  lemma EnqueueNothing(cfg: Config, v: set<UrlKey>, frontier: seq<Task>, depth: nat)
    ensures Enqueue(cfg, v, frontier, [], depth) == (v, frontier)
  {}

  /** Completing the only fetch in flight leaves none; otherwise the root has completed. */
  lemma RootCompletesFirst(cfg: Config, root: Url, s: State, i: nat)
    requires Inv(cfg, root, s) && i < |s.inFlight|
    ensures s.inFlight[i].depth == 0 ==> |s.requested| == 1 && s.inFlight == [s.inFlight[i]]
    ensures forall t :: t in Drop(s.inFlight, i) ==> t.depth > 0
  {
    var j := InFlightInLog(cfg, root, s, i);
    assert s.inFlight[i] in s.inFlight;
    assert |s.inFlight| == |multiset(s.inFlight)| <= |multiset(s.requested)| == |s.requested|;
    forall t | t in Drop(s.inFlight, i) ensures t.depth > 0 {
      assert t in multiset(Drop(s.inFlight, i));
      assert t in multiset(s.inFlight);
    }
  }

  lemma DropKeepsRootAlone(s: State, s': State, i: nat)
    requires RootAlone(s) && i < |s.inFlight| && s.requested != []
    requires s'.requested == s.requested && s'.inFlight == Drop(s.inFlight, i)
    requires forall t :: t in s'.inFlight ==> t.depth > 0
    ensures RootAlone(s')
  {
    hide Drop, Log;
  }

  lemma CompleteKeepsInv(cfg: Config, root: Url, s: State, i: nat, reply: Reply)
    requires Inv(cfg, root, s) && !s.aborted && i < |s.inFlight|
    ensures Inv(cfg, root, Complete(cfg, s, i, reply))
  {
    hide Complete, Enqueue, GoodLog, Marked, Children, Drop, RootAlone;
    RootCompletesFirst(cfg, root, s, i);
    CompleteKeepsLog(cfg, root, s, i, reply);
    CompletionShape(cfg, s, i, reply);
    var j := InFlightInLog(cfg, root, s, i);
    var s' := Complete(cfg, s, i, reply);
    DropKeepsRootAlone(s, s', i);
    assert Log(s')[0] == Log(s)[0];
    assert Counted(cfg, s');
  }

  /** Every reachable state keeps the invariant. */
  lemma {:induction false} RunKeepsInv(cfg: Config, root: Url, tr: seq<State>, n: nat)
    requires Run(cfg, root, tr) && n < |tr|
    ensures Inv(cfg, root, tr[n])
  {
    if n == 0 {
      var s := Start(cfg, root);
      assert Log(s) == [Task(root, 0)];
    } else {
      RunKeepsInv(cfg, root, tr, n - 1);
      var s, s' := tr[n - 1], tr[n];
      assert Step(cfg, s, tr[n - 1 + 1]);
      if CanLaunch(cfg, s) {
        LaunchKeepsInv(cfg, root, s);
      } else {
        var i: nat, reply :| i < |s.inFlight| && s' == Complete(cfg, s, i, reply);
        CompleteKeepsInv(cfg, root, s, i, reply);
      }
    }
  }

  /** At every step: requested keys are pairwise distinct and visited, depths and slots and
      budget are bounded, and every launch is accounted for. */
  lemma CrawlAccounting(cfg: Config, root: Url, tr: seq<State>, n: nat)
    requires Run(cfg, root, tr) && n < |tr|
    ensures var s := tr[n];
      && Distinct(Keys(cfg, s.requested))
      && (forall t :: t in s.requested || t in s.frontier ==> cfg.key(t.url) in s.visited && t.depth <= cfg.maxDepth)
      && |s.inFlight| <= Slots(cfg)
      && s.successes + |s.inFlight| <= cfg.maxPages
      && |s.requested| == |s.inFlight| + s.successes + |s.revalidated| + s.failed + (if s.aborted then 1 else 0)
      && |s.yielded| <= s.successes
  {
    RunKeepsInv(cfg, root, tr, n);
    var s := tr[n];
    var log := Log(s);
    forall i, j | 0 <= i < j < |s.requested|
      ensures Keys(cfg, s.requested)[i] != Keys(cfg, s.requested)[j]
    {
      assert Keys(cfg, log)[i] != Keys(cfg, log)[j];
    }
    forall t | t in s.requested || t in s.frontier
      ensures cfg.key(t.url) in s.visited && t.depth <= cfg.maxDepth
    {
      assert t in log;
      var j :| 0 <= j < |log| && log[j] == t;
    }
  }

  // ---- every run over a finite key space ends ----

  function Measure(space: set<UrlKey>, s: State): nat {
    2 * (|space - s.visited| + |s.frontier|) + |s.inFlight|
  }

  lemma {:induction false} EnqueueMeasure(cfg: Config, space: set<UrlKey>, visited: set<UrlKey>, frontier: seq<Task>,
                                         us: seq<Url>, depth: nat)
    requires forall u :: u in us ==> cfg.key(u) in space
    ensures var r := Enqueue(cfg, visited, frontier, us, depth);
      |space - r.0| + |r.1| == |space - visited| + |frontier|
    decreases us
  {
    if us != [] {
      var k0 := cfg.key(us[0]);
      if k0 in visited {
        EnqueueMeasure(cfg, space, visited, frontier, us[1..], depth);
      } else {
        assert space - visited == (space - (visited + {k0})) + {k0};
        EnqueueMeasure(cfg, space, visited + {k0}, frontier + [Task(us[0], depth)], us[1..], depth);
      }
    }
  }

  /** Every launch and every completion strictly decreases the measure, whatever the reply:
      304s and failures use no budget but use up a key. */
  lemma StepDecreasesMeasure(cfg: Config, space: set<UrlKey>, s: State, i: nat, reply: Reply)
    ensures CanLaunch(cfg, s) ==> Measure(space, Launch(s)) < Measure(space, s)
    ensures i < |s.inFlight| && !s.aborted
      && (forall u :: u in Children(cfg, s.inFlight[i], reply) ==> cfg.key(u) in space)
      ==> Measure(space, Complete(cfg, s, i, reply)) < Measure(space, s)
  {
    if i < |s.inFlight| && !s.aborted
      && (forall u :: u in Children(cfg, s.inFlight[i], reply) ==> cfg.key(u) in space)
    {
      hide Complete, Enqueue, Children, Drop;
      CompletionShape(cfg, s, i, reply);
      var t := s.inFlight[i];
      var v := Marked(cfg, s, t, reply);
      SubsetCard(space - v, space - s.visited);
      EnqueueMeasure(cfg, space, v, s.frontier, Children(cfg, t, reply), t.depth + 1);
    }
  }

  lemma {:induction false} SubsetCard<T>(a: set<T>, b: set<T>)
    requires a <= b
    ensures |a| <= |b|
  {
    if a != {} {
      var x :| x in a;
      SubsetCard(a - {x}, b - {x});
    }
  }

  /** All replies of a run offer children inside `space`. */
  ghost predicate StepWithin(cfg: Config, space: set<UrlKey>, s: State, s': State) {
    || (CanLaunch(cfg, s) && s' == Launch(s))
    || (!CanLaunch(cfg, s) && !s.aborted
        && exists i: nat, reply :: i < |s.inFlight| && s' == Complete(cfg, s, i, reply)
             && forall u :: u in Children(cfg, s.inFlight[i], reply) ==> cfg.key(u) in space)
  }

  /** A run has at most `2 * |space|` steps, budget or no budget. */
  lemma {:induction false} RunsAreBounded(cfg: Config, root: Url, space: set<UrlKey>, tr: seq<State>, n: nat)
    requires n < |tr| && tr[0] == Start(cfg, root) && cfg.key(root) in space
    requires forall m :: 0 <= m < |tr| - 1 ==> StepWithin(cfg, space, tr[m], tr[m + 1])
    ensures n + Measure(space, tr[n]) <= 2 * |space|
  {
    if n == 0 {
      assert space == (space - {cfg.key(root)}) + {cfg.key(root)};
    } else {
      RunsAreBounded(cfg, root, space, tr, n - 1);
      var s, s' := tr[n - 1], tr[n];
      assert StepWithin(cfg, space, s, tr[n - 1 + 1]);
      if CanLaunch(cfg, s) {
        StepDecreasesMeasure(cfg, space, s, 0, Failed);
      } else {
        var i: nat, reply :| i < |s.inFlight| && s' == Complete(cfg, s, i, reply)
          && forall u :: u in Children(cfg, s.inFlight[i], reply) ==> cfg.key(u) in space;
        StepDecreasesMeasure(cfg, space, s, i, reply);
      }
    }
  }
}
