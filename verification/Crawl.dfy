/** The crawler: the loop of `CrawlSource::discover`. */
module Crawl {
  import opened Common
  import opened CrawlMachine
  import opened CrawlReach
  import P = Pacing

  /** What the network answers to the `n`-th completed fetch, of a key with the validator sent. */
  type Network = (nat, UrlKey, Option<string>) -> Reply

  /** How many fetches have completed. */
  function Completions(s: State): nat {
    if |s.requested| >= |s.inFlight| then |s.requested| - |s.inFlight| else 0
  }

  function ReplyTo(cfg: Config, validators: map<UrlKey, string>, network: Network, s: State, t: Task): Reply {
    network(Completions(s), cfg.key(t.url), ValidatorFor(validators, cfg.key(t.url)))
  }

  /** The entity tag known for a key, sent along so that an unchanged page answers 304. */
  function ValidatorFor(validators: map<UrlKey, string>, key: UrlKey): Option<string> {
    if key in validators then Some(validators[key]) else None
  }

  /** The machine's step when replies come from the network. */
  ghost predicate ServedStep(cfg: Config, validators: map<UrlKey, string>, network: Network, s: State, s': State) {
    || (CanLaunch(cfg, s) && s' == Launch(s))
    || (!CanLaunch(cfg, s) && !s.aborted
        && exists i: nat :: i < |s.inFlight|
             && s' == Complete(cfg, s, i, ReplyTo(cfg, validators, network, s, s.inFlight[i])))
  }

  ghost predicate ServedRun(cfg: Config, validators: map<UrlKey, string>, network: Network, root: Url,
                            tr: seq<State>)
  {
    && |tr| > 0 && tr[0] == Start(cfg, root)
    && forall n :: 0 <= n < |tr| - 1 ==> ServedStep(cfg, validators, network, tr[n], tr[n + 1])
  }

  /** Whatever the network does, the loop runs the step system. */
  lemma ServedRunIsRun(cfg: Config, validators: map<UrlKey, string>, network: Network, root: Url, tr: seq<State>)
    requires ServedRun(cfg, validators, network, root, tr)
    ensures Run(cfg, root, tr)
  {
    hide Complete, Launch;
    forall n | 0 <= n < |tr| - 1 ensures Step(cfg, tr[n], tr[n + 1]) {
      assert ServedStep(cfg, validators, network, tr[n], tr[n + 1]);
    }
  }

  /** On a site whose pages answer the same at any time it runs the crawl of that site. */
  lemma ServedRunOfSite(cfg: Config, validators: map<UrlKey, string>, network: Network, root: Url, tr: seq<State>,
                        site: Site)
    requires ServedRun(cfg, validators, network, root, tr)
    requires forall n, k :: network(n, k, ValidatorFor(validators, k)) == site.reply(k)
    ensures SiteRun(cfg, site, root, tr)
  {
    hide Complete, Launch;
    forall n | 0 <= n < |tr| - 1 ensures SiteStep(cfg, site, tr[n], tr[n + 1]) {
      assert ServedStep(cfg, validators, network, tr[n], tr[n + 1]);
    }
  }

  /** Every key there is: 64 bits of hash. */
  ghost const ALL_KEYS: set<UrlKey> := set k: UrlKey | true

  lemma ExtendServed(cfg: Config, validators: map<UrlKey, string>, network: Network, root: Url, tr: seq<State>,
                     s': State)
    requires ServedRun(cfg, validators, network, root, tr)
    requires ServedStep(cfg, validators, network, tr[|tr| - 1], s')
    ensures ServedRun(cfg, validators, network, root, tr + [s'])
    ensures Measure(ALL_KEYS, s') < Measure(ALL_KEYS, tr[|tr| - 1])
  {
    hide Measure, Complete, Launch;
    var s := tr[|tr| - 1];
    if CanLaunch(cfg, s) {
      StepDecreasesMeasure(cfg, ALL_KEYS, s, 0, Failed);
    } else {
      var i: nat :| i < |s.inFlight| && s' == Complete(cfg, s, i, ReplyTo(cfg, validators, network, s, s.inFlight[i]));
      StepDecreasesMeasure(cfg, ALL_KEYS, s, i, ReplyTo(cfg, validators, network, s, s.inFlight[i]));
    }
    hide ServedStep;
    var tr' := tr + [s'];
    forall n | 0 <= n < |tr'| - 1 ensures ServedStep(cfg, validators, network, tr'[n], tr'[n + 1]) {
      if n < |tr| - 1 {
        assert tr'[n] == tr[n] && tr'[n + 1] == tr[n + 1];
      }
    }
  }

  function HostOf(u: Url): string { if u.host.Some? then u.host.value else "" }

  /** The reservations of a crawl: one a launch, in order, at the clock's reading then. */
  function Reservations(launched: seq<Task>, interval: nat, clock: nat -> nat): (r: seq<P.Request>)
    ensures |r| == |launched|
  {
    seq(|launched|, n requires 0 <= n < |launched| => P.Request(HostOf(launched[n].url), interval, clock(n)))
  }

  lemma ReservationsNext(launched: seq<Task>, t: Task, interval: nat, clock: nat -> nat)
    ensures Reservations(launched + [t], interval, clock)
         == Reservations(launched, interval, clock) + [P.Request(HostOf(t.url), interval, clock(|launched|))]
  {}

  class CrawlSource {
    const config: Config
    /** Known entity tags, and the least delay between requests to one host. */
    const validators: map<UrlKey, string>
    const minDelay: nat
    /** Child pages that failed during the last crawl. */
    var failed: nat
    /** Pages revalidated as unchanged during the last crawl. */
    var revalidated: seq<Url>

    constructor (config: Config, validators: map<UrlKey, string>, minDelay: nat)
      ensures this.config == config && this.validators == validators && this.minDelay == minDelay
      ensures failed == 0 && revalidated == []
    {
      this.config, this.validators, this.minDelay := config, validators, minDelay;
      failed := 0;
      revalidated := [];
    }

    /** Drain the revalidated record. */
    method TakeRevalidated() returns (urls: seq<Url>)
      modifies this`revalidated
      ensures urls == old(revalidated) && revalidated == []
    {
      urls := revalidated;
      revalidated := [];
    }

    /** Push every candidate whose key is new. */
    method PushChildren(visited: set<UrlKey>, frontier: seq<Task>, children: seq<Url>, depth: nat)
      returns (visited': set<UrlKey>, frontier': seq<Task>)
      ensures (visited', frontier') == Enqueue(config, visited, frontier, children, depth)
    {
      visited', frontier' := visited, frontier;
      for n := 0 to |children|
        invariant Enqueue(config, visited', frontier', children[n..], depth)
               == Enqueue(config, visited, frontier, children, depth)
      {
        var child := children[n];
        assert children[n..] == [child] + children[n + 1..];
        if config.key(child) !in visited' {
          visited' := visited' + {config.key(child)};
          frontier' := frontier' + [Task(child, depth)];
        }
      }
    }

    /** Crawl from `root`. Which fetch in flight completes next is not determined, nor what the
        network answers. The ghost result is the run of the step system that the loop went
        through; `starts` are the times at which the requests may go out. */
    method Discover(root: Url, network: Network, clock: nat -> nat)
      returns (pages: seq<Url>, requested: seq<Task>, starts: seq<nat>, aborted: bool, ghost tr: seq<State>)
      modifies this
      ensures ServedRun(config, validators, network, root, tr)
      ensures var s := tr[|tr| - 1];
        && Terminal(config, s)
        && s.requested == requested && s.yielded == pages && s.aborted == aborted
        && s.failed == failed && s.revalidated == revalidated
      ensures starts == P.Slots(map[], Reservations(requested, minDelay, clock))
    {
      hide Measure, ServedStep, Complete, Enqueue, Children, MarkedBy, Indexed, Drop, Offered, ValidatorFor,
        Paced, Reservations, HostOf, P.Slots, P.Slot, P.Booked;
      failed, revalidated := 0, [];
      var visited := {config.key(root)};
      var frontier := [Task(root, 0)];
      var inFlight: seq<Task> := [];
      var successes: nat := 0;
      pages, requested, starts, aborted := [], [], [], false;
      tr := [Start(config, root)];
      var pacer := new P.Pacer();
      NothingReserved(minDelay, clock);
      while true
        invariant ServedRun(config, validators, network, root, tr) && !aborted
        invariant tr[|tr| - 1]
               == State(visited, frontier, inFlight, requested, successes, failed, revalidated, pages, aborted)
        invariant fresh(pacer) && Paced(pacer.nextFree, starts, requested, minDelay, clock)
        decreases Measure(ALL_KEYS, tr[|tr| - 1])
      {
        ghost var before := tr[|tr| - 1];
        while |inFlight| < Slots(config) && successes + |inFlight| < config.maxPages && frontier != []
          invariant ServedRun(config, validators, network, root, tr) && !aborted
          invariant tr[|tr| - 1]
                 == State(visited, frontier, inFlight, requested, successes, failed, revalidated, pages, aborted)
          invariant fresh(pacer) && Paced(pacer.nextFree, starts, requested, minDelay, clock)
          invariant Measure(ALL_KEYS, tr[|tr| - 1]) <= Measure(ALL_KEYS, before)
          decreases Measure(ALL_KEYS, tr[|tr| - 1])
        {
          ghost var s := tr[|tr| - 1];
          var task := frontier[0];
          var now := clock(|requested|);
          PacedNext(pacer.nextFree, starts, requested, task, minDelay, clock);
          var delay := pacer.Reserve(HostOf(task.url), minDelay, now);
          starts := starts + [now + delay];
          frontier, inFlight, requested := frontier[1..], inFlight + [task], requested + [task];
          LaunchStep(config, validators, network, s);
          ExtendServed(config, validators, network, root, tr, Launch(s));
          tr := tr + [Launch(s)];
        }
        if inFlight == [] {
          PacedStarts(pacer.nextFree, starts, requested, minDelay, clock);
          return;
        }
        ghost var s := tr[|tr| - 1];
        var i: nat :| i < |inFlight|;
        var task := inFlight[i];
        var key := config.key(task.url);
        var completed := if |requested| >= |inFlight| then |requested| - |inFlight| else 0;
        var reply := network(completed, key, ValidatorFor(validators, key));
        CompleteStep(config, validators, network, s, i);
        ExtendServed(config, validators, network, root, tr, Complete(config, s, i, reply));
        tr := tr + [Complete(config, s, i, reply)];
        CompletionExact(config, s, i, reply);
        inFlight := Drop(inFlight, i);
        visited, frontier, successes, pages, aborted := Absorb(task, reply, visited, frontier, successes, pages);
        if aborted {
          PacedStarts(pacer.nextFree, starts, requested, minDelay, clock);
          return;
        }
      }
    }

    /** Take in one completed fetch: count it, record it, push its children. A failed root ends the crawl. */
    method Absorb(task: Task, reply: Reply, visited: set<UrlKey>, frontier: seq<Task>, successes: nat, pages: seq<Url>)
      returns (visited': set<UrlKey>, frontier': seq<Task>, successes': nat, pages': seq<Url>, aborted: bool)
      modifies this
      ensures (visited', frontier')
           == Enqueue(config, MarkedBy(config, visited, task, reply), frontier, Children(config, task, reply),
                      task.depth + 1)
      ensures successes' == successes + (if reply.Page? then 1 else 0)
      ensures failed == old(failed) + (if reply.Failed? && task.depth > 0 then 1 else 0)
      ensures revalidated == old(revalidated) + (if reply.NotModified? then [task.url] else [])
      ensures pages' == pages + Indexed(config, task, reply)
      ensures aborted == (reply.Failed? && task.depth == 0)
    {
      hide Enqueue, Children, LeftScope, Effective;
      visited', frontier', successes', pages', aborted := visited, frontier, successes, pages, false;
      if reply.Failed? {
        NoChildren(config, task, reply);
        EnqueueNothing(config, visited, frontier, task.depth + 1);
        if task.depth == 0 {
          aborted := true;
        } else {
          failed := failed + 1;
        }
        return;
      }
      if reply.NotModified? {
        visited' := visited' + {config.key(task.url)};
        revalidated := revalidated + [task.url];
      } else {
        successes' := successes' + 1;
        var effective := Effective(task, reply);
        if !LeftScope(config, task, reply) {
          visited' := visited' + {config.key(effective)};
          if config.indexes(effective) {
            pages' := pages' + [effective];
          }
        }
      }
      visited', frontier' := PushChildren(visited', frontier', Children(config, task, reply), task.depth + 1);
    }
  }

  /** The visited set with the page that answered, unless it failed or left the scope. */
  function MarkedBy(cfg: Config, visited: set<UrlKey>, t: Task, reply: Reply): set<UrlKey> {
    if reply.Failed? || (reply.Page? && LeftScope(cfg, t, reply)) then visited
    else visited + {cfg.key(if reply.Page? then Effective(t, reply) else t.url)}
  }

  /** The page to index, if the reply brings one. */
  function Indexed(cfg: Config, t: Task, reply: Reply): seq<Url> {
    if reply.Page? && !LeftScope(cfg, t, reply) && cfg.indexes(Effective(t, reply)) then [Effective(t, reply)] else []
  }

  lemma NoChildren(cfg: Config, t: Task, reply: Reply)
    requires reply.Failed?
    ensures Children(cfg, t, reply) == []
  {}

  /** The pacer's table and the start times handed out are those of the launches so far. */
  ghost predicate Paced(nextFree: map<string, nat>, starts: seq<nat>, launched: seq<Task>, interval: nat,
                        clock: nat -> nat)
  {
    && starts == P.Slots(map[], Reservations(launched, interval, clock))
    && nextFree == P.BookedAll(map[], Reservations(launched, interval, clock))
  }

  lemma PacedStarts(nextFree: map<string, nat>, starts: seq<nat>, launched: seq<Task>, interval: nat,
                    clock: nat -> nat)
    requires Paced(nextFree, starts, launched, interval, clock)
    ensures starts == P.Slots(map[], Reservations(launched, interval, clock))
  {}

  lemma NothingReserved(interval: nat, clock: nat -> nat)
    ensures Paced(map[], [], [], interval, clock)
  {}

  lemma PacedNext(nextFree: map<string, nat>, starts: seq<nat>, launched: seq<Task>, t: Task, interval: nat,
                  clock: nat -> nat)
    requires Paced(nextFree, starts, launched, interval, clock)
    ensures var r := P.Request(HostOf(t.url), interval, clock(|launched|));
      Paced(P.Booked(nextFree, r), starts + [P.Slot(nextFree, r)], launched + [t], interval, clock)
  {
    hide Reservations, P.Slots, P.Slot, P.Booked, P.BookedAll;
    ReservationsNext(launched, t, interval, clock);
    P.SlotsNext(map[], Reservations(launched, interval, clock), P.Request(HostOf(t.url), interval, clock(|launched|)));
  }

  /** Two requests of one crawl to one host go out at least the minimum delay apart, in launch order. */
  lemma CrawlIsPolite(launched: seq<Task>, starts: seq<nat>, interval: nat, clock: nat -> nat, i: nat, j: nat)
    requires starts == P.Slots(map[], Reservations(launched, interval, clock)) && interval > 0
    requires i < j < |launched| && HostOf(launched[i].url) == HostOf(launched[j].url)
    ensures starts[j] >= starts[i] + interval && starts[j] >= clock(j)
  {
    var rs := Reservations(launched, interval, clock);
    P.StartsAreSpaced(map[], rs, i, j);
    P.LaterSlots(map[], rs, j);
    hide P.Slots;
  }

  lemma LaunchStep(cfg: Config, validators: map<UrlKey, string>, network: Network, s: State)
    requires CanLaunch(cfg, s)
    ensures ServedStep(cfg, validators, network, s, Launch(s))
  {}

  lemma CompleteStep(cfg: Config, validators: map<UrlKey, string>, network: Network, s: State, i: nat)
    requires !CanLaunch(cfg, s) && !s.aborted && i < |s.inFlight|
    ensures ServedStep(cfg, validators, network, s,
                       Complete(cfg, s, i, ReplyTo(cfg, validators, network, s, s.inFlight[i])))
  {}

  /** The completion step, field by field. */
  lemma CompletionExact(cfg: Config, s: State, i: nat, reply: Reply)
    requires i < |s.inFlight|
    ensures var t := s.inFlight[i];
      var pushed := Enqueue(cfg, MarkedBy(cfg, s.visited, t, reply), s.frontier, Children(cfg, t, reply), t.depth + 1);
      Complete(cfg, s, i, reply) == State(
        pushed.0, pushed.1, Drop(s.inFlight, i), s.requested,
        s.successes + (if reply.Page? then 1 else 0),
        s.failed + (if reply.Failed? && t.depth > 0 then 1 else 0),
        s.revalidated + (if reply.NotModified? then [t.url] else []),
        s.yielded + Indexed(cfg, t, reply),
        s.aborted || (reply.Failed? && t.depth == 0))
  {
    hide LeftScope, Drop, Keep;
  }
}
