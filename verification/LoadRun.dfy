/** The sequential load, with other participants at work between its calls, is a run of the
    interleaved protocol: what holds of every load of a run holds of it. */
module LoadRun {
  import opened Common
  import opened ObjectStore
  import opened PublishProtocol
  import opened PublishRun

  lemma {:induction false} PathKeepsInv(tr: seq<World>, n: nat)
    requires Path(tr) && n < |tr| && Inv(tr[0])
    ensures Inv(tr[n])
  {
    hide Inv, Step;
    if n > 0 {
      PathKeepsInv(tr, n - 1);
      assert Step(tr[n - 1], tr[n - 1 + 1]);
      StepKeepsInv(tr[n - 1], tr[n]);
    }
  }

  lemma {:induction false} PathGrows(tr: seq<World>, n: nat)
    requires Path(tr) && n < |tr|
    ensures tr[0].history <= tr[n].history
    ensures forall op :: op in tr[n].ops && op !in tr[0].ops ==> tr[n].ops[op].startGen >= |tr[0].history|
  {
    hide Step;
    if n > 0 {
      PathGrows(tr, n - 1);
      assert Step(tr[n - 1], tr[n - 1 + 1]);
      StepGrows(tr[n - 1], tr[n]);
    }
  }

  lemma Joined(tr: seq<World>, more: seq<World>, w: World, w': World, w'': World)
    requires Leads(tr, w, w') && Leads(more, w', w'')
    ensures Leads(tr + more[1..], w, w'')
  {
    hide Step;
    var all := tr + more[1..];
    forall n | 0 <= n < |all| - 1 ensures Step(all[n], all[n + 1]) {
      if n < |tr| - 1 {
        assert all[n] == tr[n] && all[n + 1] == tr[n + 1];
      } else {
        assert all[n] == more[n - (|tr| - 1)] && all[n + 1] == more[n - (|tr| - 1) + 1];
      }
    }
  }

  /** How a load was watched: begun in `w`, HEAD read in `w1`, the image fetched in `w2`. In between
      the others take any steps; the handle itself is left alone. */
  datatype Watch = Watch(w: World, tr1: seq<World>, w1: World, tr2: seq<World>, w2: World)

  ghost predicate Watched(x: Watch, op: nat, h: nat) {
    && Inv(x.w) && op !in x.w.ops
    && Leads(x.tr1, Begin(x.w, op, h, Reading), x.w1)
    && op in x.w1.ops && x.w1.ops[op].handle == h && x.w1.ops[op].phase == Reading
    && SeenBy(x.w1, h) == SeenBy(x.w, h)
    && (x.w1.store.head.Some? ==>
          && Leads(x.tr2, ReadHead(x.w1, op), x.w2)
          && op in x.w2.ops && x.w2.ops[op].handle == h && x.w2.ops[op].phase == Fetching(x.w1.store.head.value)
          && SeenBy(x.w2, h) == SeenBy(x.w, h))
  }

  /** The store as the load's calls see it. */
  predicate Seen(x: Watch, p: R.Poll) {
    p.atMeta == x.w.store && p.atRead == x.w1.store && p.atFetch == x.w2.store
  }

  /** How the operation of a load stands once it has ended. */
  ghost predicate Ended(w: World, op: nat, h: nat, seen: Option<Seen>, end: R.Loading) {
    && SeenBy(w, h) == seen
    && (end.Loaded? ==> seen.Some? && op in w.ops && w.ops[op].phase == Loaded(seen.value, end.image, |w.history|))
    && (end.NoHead? || end.Broken? ==> op in w.ops ==> w.ops[op].phase == Failed)
  }

  lemma BeginsReading(w: World, op: nat, h: nat)
    requires op !in w.ops
    ensures Leads([w] + [Begin(w, op, h, Reading)], w, Begin(w, op, h, Reading))
  {
    assert Step(w, Begin(w, op, h, Reading));
    assert Leads([w], w, w);
    hide Step;
    Extend([w], w, w, Begin(w, op, h, Reading));
  }

  /** Reading HEAD, from the world in which it is read. */
  lemma ReadRuns(x: Watch, op: nat, h: nat) returns (tr: seq<World>)
    requires Watched(x, op, h)
    ensures Leads(tr, x.w, x.w1)
  {
    BeginsReading(x.w, op, h);
    hide Leads;
    Joined([x.w] + [Begin(x.w, op, h, Reading)], x.tr1, x.w, Begin(x.w, op, h, Reading), x.w1);
    tr := [x.w] + [Begin(x.w, op, h, Reading)] + x.tr1[1..];
  }

  lemma FetchRuns(x: Watch, op: nat, h: nat) returns (tr: seq<World>)
    requires Watched(x, op, h) && x.w1.store.head.Some?
    ensures Leads(tr, x.w, x.w2)
  {
    tr := ReadRuns(x, op, h);
    hide Leads, Inv;
    assert OpStep(x.w1, ReadHead(x.w1, op), op);
    tr := Moves(tr, x.w, x.w1, ReadHead(x.w1, op), op);
    Joined(tr, x.tr2, x.w, ReadHead(x.w1, op), x.w2);
    tr := tr + x.tr2[1..];
  }

  /** Every sequential load, whichever of its calls fail, whether or not the image opens, and
      whatever the others do in between, is a sequence of protocol steps with the same remembered
      state and the same end. */
  lemma LoadIsARun(x: Watch, op: nat, h: nat, p: R.Poll, opens: Image -> bool) returns (tr: seq<World>, w': World)
    requires Watched(x, op, h) && Seen(x, p)
    ensures var (seen, end) := R.Load(SeenBy(x.w, h), p, opens);
      Leads(tr, x.w, w') && Ended(w', op, h, seen, end)
  {
    var (seen, end) := R.Load(SeenBy(x.w, h), p, opens);
    hide Inv, Fetch;
    if p.metaFails || end.Unchanged? {
      tr, w' := [x.w], x.w;
      assert Leads([x.w], x.w, x.w);
    } else if p.readFails {
      tr := ReadRuns(x, op, h);
      w' := GiveUp(x.w1, op, false);
      tr := GivesUp(tr, x.w, x.w1, op, false);
    } else if end.NoHead? {
      tr := ReadRuns(x, op, h);
      w' := ReadHead(x.w1, op);
      tr := Moves(tr, x.w, x.w1, w', op);
    } else {
      tr := FetchRuns(x, op, h);
      if end.Loaded? {
        w' := FetchImage(x.w2, op);
        tr := Moves(tr, x.w, x.w2, w', op);
      } else {
        w' := GiveUp(x.w2, op, false);
        tr := GivesUp(tr, x.w, x.w2, op, false);
      }
    }
  }

  /** So a load that succeeds has the image some HEAD named, no older than the HEAD in place when
      it began. */
  lemma LoadWasHead(x: Watch, op: nat, h: nat, p: R.Poll, opens: Image -> bool)
    returns (tr: seq<World>, w': World)
    requires Watched(x, op, h) && Seen(x, p)
    requires R.Load(SeenBy(x.w, h), p, opens).1.Loaded?
    ensures var (seen, end) := R.Load(SeenBy(x.w, h), p, opens);
      && Leads(tr, x.w, w') && Inv(w') && seen.Some? && SeenBy(w', h) == seen
      && Known(w'.history, seen.value) && end.image == ImageOf(seen.value.head)
      && |x.w.history| <= seen.value.head.generation <= |w'.history|
  {
    var (seen, end) := R.Load(SeenBy(x.w, h), p, opens);
    hide R.Load, Watched;
    tr, w' := LoadIsARun(x, op, h, p, opens);
    InvAtStart(x, op, h);
    PathKeepsInv(tr, |tr| - 1);
    hide Inv, StartOk, CallOk, Held, Path;
    OpFacts(w', op);
    StartsHere(x, op, h, tr, w');
  }

  lemma InvAtStart(x: Watch, op: nat, h: nat)
    requires Watched(x, op, h)
    ensures Inv(x.w) && op !in x.w.ops
  {
    hide Inv, Leads;
  }

  lemma StartsHere(x: Watch, op: nat, h: nat, tr: seq<World>, w': World)
    requires Watched(x, op, h) && Leads(tr, x.w, w') && op in w'.ops
    ensures w'.ops[op].startGen >= |x.w.history|
  {
    hide Inv;
    PathGrows(tr, |tr| - 1);
  }

  /** Loads that follow one another never go back: one that begins after another has ended, with
      any steps in between, has a generation at least as high. */
  lemma LaterLoadIsNoOlder(w: World, earlier: Seen, between: seq<World>, x: Watch, op: nat, h: nat, p: R.Poll,
                           opens: Image -> bool)
    requires Known(w.history, earlier) && Leads(between, w, x.w)
    requires Watched(x, op, h) && Seen(x, p) && R.Load(SeenBy(x.w, h), p, opens).1.Loaded?
    ensures var later := R.Load(SeenBy(x.w, h), p, opens).0;
      later.Some? && earlier.head.generation <= later.value.head.generation
  {
    PathGrows(between, |between| - 1);
    hide R.Load, Watched, Path;
    var tr, w' := LoadWasHead(x, op, h, p, opens);
  }
}
