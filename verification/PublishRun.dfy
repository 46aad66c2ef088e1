/** The sequential publish, with any faults, is a run of the interleaved protocol: what holds of
    every run holds of every call. */
module PublishRun {
  import opened Common
  import opened ObjectStore
  import opened PublishProtocol
  import R = Remote

  ghost predicate Path(tr: seq<World>) {
    |tr| > 0 && forall n :: 0 <= n < |tr| - 1 ==> Step(tr[n], tr[n + 1])
  }

  /** A path from `w` that ends in `w'`. */
  ghost predicate Leads(tr: seq<World>, w: World, w': World) {
    Path(tr) && tr[0] == w && tr[|tr| - 1] == w'
  }

  lemma Extend(tr: seq<World>, w: World, w': World, w'': World)
    requires Leads(tr, w, w') && Step(w', w'')
    ensures Leads(tr + [w''], w, w'')
  {
    hide Step;
    var tr' := tr + [w''];
    forall n | 0 <= n < |tr'| - 1 ensures Step(tr'[n], tr'[n + 1]) {}
  }

  /** How the operation of a finished publish stands. */
  ghost predicate Finished(w: World, op: nat, h: nat, image: Image, a: R.Attempt) {
    && op in w.ops && w.store == a.0 && SeenBy(w, h) == a.1
    && w.ops[op].phase == if a.2.Ok? then Published(image, a.2.value.generation, a.2.value.uploaded) else Failed
  }

  /** An operation of `h` that has sent its upload. */
  ghost predicate AtUpload(w: World, op: nat, h: nat, image: Image, prev: Option<Seen>) {
    && op in w.ops && w.ops[op].handle == h && w.ops[op].phase == Uploading(image, prev)
    && PutCall(NextGeneration(prev), image) in w.wire
  }

  ghost predicate AtSwap(w: World, op: nat, h: nat, image: Image, prev: Option<Seen>) {
    && op in w.ops && w.ops[op].handle == h && w.ops[op].phase == Swapping(image, prev)
    && CasCall(op, ExpectedGen(prev), HeadFor(NextGeneration(prev), image)) in w.wire
  }

  lemma GivesUp(tr: seq<World>, w0: World, w: World, op: nat, forget: bool) returns (tr': seq<World>)
    requires Leads(tr, w0, w) && op in w.ops && !Done(w.ops[op].phase)
    ensures Leads(tr', w0, GiveUp(w, op, forget))
  {
    var w' := GiveUp(w, op, forget);
    assert OpStep(w, w', op);
    assert Step(w, w');
    hide Step, GiveUp;
    Extend(tr, w0, w, w');
    tr' := tr + [w'];
  }

  lemma Applies(tr: seq<World>, w0: World, w: World, c: Call) returns (tr': seq<World>)
    requires Leads(tr, w0, w) && c in w.wire
    ensures Leads(tr', w0, Apply(w, c))
  {
    assert Step(w, Apply(w, c));
    hide Step, Apply;
    Extend(tr, w0, w, Apply(w, c));
    tr' := tr + [Apply(w, c)];
  }

  lemma Moves(tr: seq<World>, w0: World, w: World, w': World, op: nat) returns (tr': seq<World>)
    requires Leads(tr, w0, w) && op in w.ops && OpStep(w, w', op)
    ensures Leads(tr', w0, w')
  {
    assert Step(w, w');
    hide Step, OpStep;
    Extend(tr, w0, w, w');
    tr' := tr + [w'];
  }

  /** A handle remembers a HEAD there has been, so a matching swap is on the last one. */
  lemma SwapIsNext(w: World, prev: Option<Seen>)
    requires HistoryOk(w) && KnownPrev(w.history, prev) && CasMatches(w.store, ExpectedGen(prev))
    ensures |w.history| + 1 == NextGeneration(prev)
  {
    if prev.Some? {
      var i := prev.value.head.generation - 1;
      assert w.history[i] == prev.value;
    }
  }

  /** What the rest of a publish does once the upload is acknowledged. */
  function SwapPart(st: Store, prev: Option<Seen>, image: Image, f: R.Faults): R.Attempt {
    var g := NextGeneration(prev);
    var st2 := R.Landed(f.cas, st, Cas(st, ExpectedGen(prev), HeadFor(g, image)));
    if !f.cas.Fine? then (st2, None, Err(R.Unavailable))
    else if !CasMatches(st, ExpectedGen(prev)) then (st2, None, Err(R.Fenced))
    else
      var st3 := if prev.Some? then R.Landed(f.delete, st2, Delete(st2, prev.value.head.generation)) else st2;
      (st3, Some(Seen(st.clock + 1, HeadFor(g, image))), Ok(R.Report(g, true)))
  }

  function UploadPart(st: Store, prev: Option<Seen>, image: Image, f: R.Faults): R.Attempt {
    var g := NextGeneration(prev);
    var st1 := R.Landed(f.put, st, Put(st, g, image));
    if !f.put.Fine? then (st1, None, Err(R.Unavailable))
    else if !PutAccepted(st, g, image) then (st1, None, Err(R.Fenced))
    else SwapPart(st1, prev, image, f)
  }

  lemma DeletePart(tr: seq<World>, w0: World, w: World, op: nat, h: nat, image: Image, prev: Option<Seen>, f: R.Faults)
    returns (tr': seq<World>, w': World)
    requires Leads(tr, w0, w) && op in w.ops && w.ops[op].phase == Published(image, NextGeneration(prev), true)
    requires prev.Some? ==> DeleteCall(prev.value.head.generation) in w.wire
    ensures Leads(tr', w0, w') && w'.ops == w.ops && w'.handles == w.handles
    ensures w'.store == if prev.None? then w.store
                        else R.Landed(f.delete, w.store, Delete(w.store, prev.value.head.generation))
  {
    tr', w' := tr, w;
    if prev.Some? && !f.delete.Fails? {
      var c := DeleteCall(prev.value.head.generation);
      tr' := Applies(tr, w0, w, c);
      w' := Apply(w, c);
    }
  }

  lemma SwapRuns(tr: seq<World>, w0: World, w: World, op: nat, h: nat, image: Image, prev: Option<Seen>, f: R.Faults)
    returns (tr': seq<World>, w': World)
    requires Leads(tr, w0, w) && AtSwap(w, op, h, image, prev) && HistoryOk(w) && KnownPrev(w.history, prev)
    ensures Leads(tr', w0, w') && Finished(w', op, h, image, SwapPart(w.store, prev, image, f))
  {
    var g := NextGeneration(prev);
    var c := CasCall(op, ExpectedGen(prev), HeadFor(g, image));
    if f.cas.Fails? {
      tr' := GivesUp(tr, w0, w, op, true);
      w' := GiveUp(w, op, true);
    } else {
      var tr1 := Applies(tr, w0, w, c);
      var w1 := Apply(w, c);
      if !f.cas.Fine? || !CasMatches(w.store, ExpectedGen(prev)) {
        tr' := GivesUp(tr1, w0, w1, op, true);
        w' := GiveUp(w1, op, true);
      } else {
        SwapIsNext(w, prev);
        assert Won(w1, op);
        var w2 := Swapped(w1, op);
        var tr2 := Moves(tr1, w0, w1, w2, op);
        tr', w' := DeletePart(tr2, w0, w2, op, h, image, prev, f);
      }
    }
  }

  lemma UploadRuns(tr: seq<World>, w0: World, w: World, op: nat, h: nat, image: Image, prev: Option<Seen>, f: R.Faults)
    returns (tr': seq<World>, w': World)
    requires Leads(tr, w0, w) && AtUpload(w, op, h, image, prev) && HistoryOk(w) && KnownPrev(w.history, prev)
    ensures Leads(tr', w0, w') && Finished(w', op, h, image, UploadPart(w.store, prev, image, f))
  {
    var g := NextGeneration(prev);
    var c := PutCall(g, image);
    if f.put.Fails? {
      tr' := GivesUp(tr, w0, w, op, true);
      w' := GiveUp(w, op, true);
    } else {
      var tr1 := Applies(tr, w0, w, c);
      var w1 := Apply(w, c);
      if !f.put.Fine? || !PutAccepted(w.store, g, image) {
        tr' := GivesUp(tr1, w0, w1, op, true);
        w' := GiveUp(w1, op, true);
      } else {
        var w2 := Uploaded(w1, op);
        assert (g, image) in w1.acks;
        var tr2 := Moves(tr1, w0, w1, w2, op);
        assert HistoryOk(w2);
        tr', w' := SwapRuns(tr2, w0, w2, op, h, image, prev, f);
      }
    }
  }

  lemma PublishParts(st: Store, seen: Option<Seen>, image: Image, f: R.Faults)
    requires !(seen.None? && f.read)
    ensures var prev := if seen.Some? then seen else st.head;
      R.Publish(st, seen, image, f)
      == if Names(prev, image) then (st, prev, Ok(R.Report(prev.value.head.generation, false)))
         else UploadPart(st, prev, image, f)
  {}

  lemma DecisionRuns(tr: seq<World>, w0: World, w: World, op: nat, h: nat, image: Image, f: R.Faults)
    returns (tr': seq<World>, w': World)
    requires Leads(tr, w0, w) && op in w.ops && w.ops[op].handle == h && w.ops[op].phase == Deciding(image)
    requires HistoryOk(w) && HandlesOk(w) && !(SeenBy(w, h).None? && f.read)
    ensures Leads(tr', w0, w') && Finished(w', op, h, image, R.Publish(w.store, SeenBy(w, h), image, f))
  {
    PublishParts(w.store, SeenBy(w, h), image, f);
    var prev := Prev(w, op);
    assert KnownPrev(w.history, prev);
    w' := Decide(w, op);
    tr' := Moves(tr, w0, w, w', op);
    hide R.Publish, UploadPart, Leads;
    if !Names(prev, image) {
      var at := w';
      assert HistoryOk(at) && at.store == w.store && at.history == w.history;
      assert AtUpload(at, op, h, image, prev);
      tr', w' := UploadRuns(tr', w0, at, op, h, image, prev, f);
    }
  }

  /** Every sequential publish, whichever of its calls fail or lose their reply, is a sequence of
      protocol steps from any reachable state, and ends with the same store, the same remembered
      state and the same answer. */
  lemma PublishIsARun(w: World, op: nat, h: nat, image: Image, f: R.Faults) returns (tr: seq<World>, w': World)
    requires Inv(w) && op !in w.ops
    ensures Leads(tr, w, w') && Finished(w', op, h, image, R.Publish(w.store, SeenBy(w, h), image, f))
  {
    var w1 := Begin(w, op, h, Deciding(image));
    assert Step(w, w1);
    assert Leads([w], w, w);
    Extend([w], w, w, w1);
    tr := [w] + [w1];
    if SeenBy(w, h).None? && f.read {
      tr := GivesUp(tr, w, w1, op, false);
      w' := GiveUp(w1, op, false);
    } else {
      assert HistoryOk(w1) && HandlesOk(w1) && SeenBy(w1, h) == SeenBy(w, h);
      hide R.Publish, Inv, HistoryOk, HandlesOk, Step, Leads;
      tr, w' := DecisionRuns(tr, w, w1, op, h, image, f);
    }
  }
}
