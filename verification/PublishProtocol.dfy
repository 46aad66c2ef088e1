/** Any number of publishers and readers over one store, interleaved at every store call.
    A request on the wire may be applied at any later time, any number of times or never,
    and its sender may give up on it or crash at any time: this covers crashes, failed calls,
    lost responses and late effects. */
module PublishProtocol {
  import opened Common
  import opened ObjectStore

  datatype Call =
    | PutCall(g: nat, image: Image)
    | CasCall(op: nat, expected: Option<nat>, head: Head)
    | DeleteCall(g: nat)

  /** Where an operation stands. */
  datatype Phase =
    | Deciding(image: Image)
    | Uploading(image: Image, prev: Option<Seen>)
    | Swapping(image: Image, prev: Option<Seen>)
    | Published(image: Image, generation: nat, uploaded: bool)
    | Reading
    | Fetching(seen: Seen)
    | Loaded(seen: Seen, loaded: Image, endGen: nat)
    | Failed

  /** `startGen` records the HEAD generation when the operation began (0: none). */
  datatype Op = Op(handle: nat, startGen: nat, phase: Phase)

  /** `history` lists the HEAD objects there have been and `winners` the operations that
      wrote them; `acks` are the uploads the store has accepted. */
  datatype World = World(
    store: Store,
    history: seq<Seen>,
    winners: seq<nat>,
    wire: set<Call>,
    acks: set<(nat, Image)>,
    handles: map<nat, Option<Seen>>,
    ops: map<nat, Op>)

  function SeenBy(w: World, h: nat): Option<Seen> {
    if h in w.handles then w.handles[h] else None
  }

  /** One operation moves on: it changes phase, may update what its handle remembers, and
      may send calls. */
  function Move(w: World, op: nat, phase: Phase, memo: Option<Option<Seen>>, send: set<Call>): World
    requires op in w.ops
  {
    w.(ops := w.ops[op := w.ops[op].(phase := phase)],
       handles := if memo.Some? then w.handles[w.ops[op].handle := memo.value] else w.handles,
       wire := w.wire + send)
  }

  // ---- steps of an operation ----

  function Begin(w: World, op: nat, h: nat, phase: Phase): World {
    w.(ops := w.ops[op := Op(h, |w.history|, phase)])
  }

  /** What `publish` compares against: the remembered state, else a fresh read of HEAD. */
  function Prev(w: World, op: nat): Option<Seen>
    requires op in w.ops
  {
    var s := SeenBy(w, w.ops[op].handle);
    if s.Some? then s else w.store.head
  }

  /** Compare the image with the previous state; answer at once if it is the same, else send
      the upload. */
  function Decide(w: World, op: nat): World
    requires op in w.ops && w.ops[op].phase.Deciding?
  {
    var image := w.ops[op].phase.image;
    var prev := Prev(w, op);
    if Names(prev, image) then
      Move(w, op, Published(image, prev.value.head.generation, false), Some(prev), {})
    else
      Move(w, op, Uploading(image, prev), if prev.None? then Some(None) else None,
           {PutCall(NextGeneration(prev), image)})
  }

  /** The upload was acknowledged: send the swap. */
  function Uploaded(w: World, op: nat): World
    requires op in w.ops && w.ops[op].phase.Uploading?
  {
    var p := w.ops[op].phase;
    Move(w, op, Swapping(p.image, p.prev), None,
         {CasCall(op, ExpectedGen(p.prev), HeadFor(NextGeneration(p.prev), p.image))})
  }

  predicate Won(w: World, op: nat)
    requires op in w.ops && w.ops[op].phase.Swapping?
  {
    var g := NextGeneration(w.ops[op].phase.prev);
    1 <= g <= |w.winners| && g <= |w.history| && w.winners[g - 1] == op
  }

  /** The swap was acknowledged: remember the new HEAD, send the delete of the old image. */
  function Swapped(w: World, op: nat): World
    requires op in w.ops && w.ops[op].phase.Swapping? && Won(w, op)
  {
    var p := w.ops[op].phase;
    var g := NextGeneration(p.prev);
    Move(w, op, Published(p.image, g, true), Some(Some(w.history[g - 1])),
         if p.prev.Some? then {DeleteCall(p.prev.value.head.generation)} else {})
  }

  /** A load reads HEAD. */
  function ReadHead(w: World, op: nat): World
    requires op in w.ops && w.ops[op].phase.Reading?
  {
    if w.store.head.None? then Move(w, op, Failed, Some(None), {})
    else Move(w, op, Fetching(w.store.head.value), None, {})
  }

  /** A load fetches and verifies the image. */
  function FetchImage(w: World, op: nat): World
    requires op in w.ops && w.ops[op].phase.Fetching?
  {
    var s := w.ops[op].phase.seen;
    var image := Fetch(w.store, s.head);
    if image.Some? then Move(w, op, Loaded(s, image.value, |w.history|), Some(Some(s)), {})
    else Move(w, op, Failed, None, {})
  }

  /** A failed publish forgets the remembered state; a failed load or a crash keeps it. */
  function GiveUp(w: World, op: nat, forget: bool): World
    requires op in w.ops
  {
    Move(w, op, Failed, if forget then Some(None) else None, {})
  }

  /** A handle restarts: a new process remembers nothing. */
  function Restart(w: World, h: nat): World {
    w.(handles := w.handles[h := None])
  }

  // ---- steps of the store ----

  function Apply(w: World, c: Call): World {
    match c
    case PutCall(g, image) =>
      w.(store := Put(w.store, g, image),
         acks := if PutAccepted(w.store, g, image) then w.acks + {(g, image)} else w.acks)
    case CasCall(op, expected, head) =>
      if CasMatches(w.store, expected) then
        w.(store := Cas(w.store, expected, head),
           history := w.history + [Seen(w.store.clock + 1, head)],
           winners := w.winners + [op])
      else w
    case DeleteCall(g) => w.(store := Delete(w.store, g))
  }

  predicate Done(p: Phase) { p.Published? || p.Loaded? || p.Failed? }

  ghost predicate OpStep(w: World, w': World, op: nat)
    requires op in w.ops
  {
    var p := w.ops[op].phase;
    || (p.Deciding? && w' == Decide(w, op))
    || (p.Uploading? && (NextGeneration(p.prev), p.image) in w.acks && w' == Uploaded(w, op))
    || (p.Swapping? && Won(w, op) && w' == Swapped(w, op))
    || (p.Reading? && w' == ReadHead(w, op))
    || (p.Fetching? && w' == FetchImage(w, op))
    || (!Done(p) && exists forget :: w' == GiveUp(w, op, forget))
  }

  ghost predicate Step(w: World, w': World) {
    || (exists op: nat, h: nat, image :: op !in w.ops && w' == Begin(w, op, h, Deciding(image)))
    || (exists op: nat, h: nat :: op !in w.ops && w' == Begin(w, op, h, Reading))
    || (exists op: nat :: op in w.ops && OpStep(w, w', op))
    || (exists c :: c in w.wire && w' == Apply(w, c))
    || (exists h: nat :: w' == Restart(w, h))
  }

  function Init(): World {
    World(Store(None, map[], 0), [], [], {}, {}, map[], map[])
  }

  ghost predicate Run(tr: seq<World>) {
    |tr| > 0 && tr[0] == Init() && forall n :: 0 <= n < |tr| - 1 ==> Step(tr[n], tr[n + 1])
  }

  // ---- the invariant ----

  /** `s` was HEAD at some time. */
  predicate Known(history: seq<Seen>, s: Seen) {
    1 <= s.head.generation <= |history| && history[s.head.generation - 1] == s
  }

  predicate KnownPrev(history: seq<Seen>, prev: Option<Seen>) {
    prev.Some? ==> Known(history, prev.value)
  }

  /** Generations run 1, 2, 3, ... and object generations increase; HEAD is the last entry,
      and the image it names exists with the recorded length and checksum. */
  ghost predicate HistoryOk(w: World) {
    && |w.winners| == |w.history|
    && (forall i :: 0 <= i < |w.history| ==>
          w.history[i].head.generation == i + 1 && w.history[i].headGen <= w.store.clock)
    && (forall i, j :: 0 <= i < j < |w.history| ==> w.history[i].headGen < w.history[j].headGen)
    && w.store.head == (if w.history == [] then None else Some(w.history[|w.history| - 1]))
    && (w.history != [] ==> Fetch(w.store, w.history[|w.history| - 1].head).Some?)
  }

  /** The image of an accepted upload stays in place until HEAD has moved past it. */
  predicate Held(w: World, g: nat, image: Image) {
    |w.history| > g || (g in w.store.images && w.store.images[g] == image)
  }

  ghost predicate CallOk(w: World, c: Call) {
    match c
    case PutCall(g, image) => g > 0
    case CasCall(op, expected, head) =>
      && head.generation > 0
      && Held(w, head.generation, ImageOf(head))
      && (expected.None? ==> head.generation == 1)
      && (expected.Some? ==> 1 < head.generation <= |w.history| + 1
                             && w.history[head.generation - 2].headGen == expected.value)
      && op in w.ops && !w.ops[op].phase.Deciding? && !w.ops[op].phase.Uploading?
    case DeleteCall(g) => 0 < g < |w.history|
  }

  ghost predicate PhaseOk(w: World, op: nat, p: Phase) {
    match p
    case Uploading(_, prev) => KnownPrev(w.history, prev)
    case Swapping(image, prev) =>
      && KnownPrev(w.history, prev)
      && (forall e, head :: CasCall(op, e, head) in w.wire ==> head == HeadFor(NextGeneration(prev), image))
    case Published(image, g, uploaded) =>
      && 1 <= g <= |w.history| && ImageOf(w.history[g - 1].head) == image
      && (uploaded ==> g <= |w.winners| && w.winners[g - 1] == op)
    case Fetching(s) => Known(w.history, s)
    case Loaded(s, image, endGen) =>
      Known(w.history, s) && image == ImageOf(s.head) && s.head.generation <= endGen <= |w.history|
    case _ => true
  }

  /** A load reads a HEAD no older than the one in place when it began. */
  predicate StartOk(w: World, o: Op) {
    && o.startGen <= |w.history|
    && (o.phase.Fetching? ==> o.startGen <= o.phase.seen.head.generation)
    && (o.phase.Loaded? ==> o.startGen <= o.phase.seen.head.generation)
  }

  /** Every written HEAD came from a swap sent by the operation recorded as its writer. */
  ghost predicate WinnersOk(w: World) {
    |w.winners| == |w.history| && forall i :: 0 <= i < |w.history| ==> Sender(w, w.winners[i], w.history[i].head)
  }

  ghost predicate Sender(w: World, op: nat, head: Head) {
    exists e :: CasCall(op, e, head) in w.wire
  }

  ghost predicate CallsOk(w: World) { forall c :: c in w.wire ==> CallOk(w, c) }

  ghost predicate AcksOk(w: World) { forall a :: a in w.acks ==> a.0 > 0 && Held(w, a.0, a.1) }

  ghost predicate HandlesOk(w: World) { forall h :: h in w.handles ==> KnownPrev(w.history, w.handles[h]) }

  ghost predicate OpsOk(w: World) {
    forall op :: op in w.ops ==> PhaseOk(w, op, w.ops[op].phase) && StartOk(w, w.ops[op])
  }

  ghost predicate Inv(w: World) {
    HistoryOk(w) && WinnersOk(w) && CallsOk(w) && AcksOk(w) && HandlesOk(w) && OpsOk(w)
  }

  // ---- every step keeps it ----

  predicate Sent(p: Phase) { !p.Deciding? && !p.Uploading? }

  /** `w'` follows `w` by a step in which no operation but `op` moved. */
  ghost predicate Extends(w: World, w': World, op: nat) {
    && w.history <= w'.history && w.winners <= w'.winners && w.wire <= w'.wire
    && (forall g, image :: Held(w, g, image) ==> Held(w', g, image))
    && (forall o :: o in w.ops ==> o in w'.ops && (o == op || w'.ops[o] == w.ops[o]))
    && (forall o :: o in w'.ops ==> o in w.ops || o == op)
    && (op in w.ops && Sent(w.ops[op].phase) ==> Sent(w'.ops[op].phase))
    && (forall c :: c in w'.wire && c !in w.wire && c.CasCall? ==> c.op == op)
  }

  lemma KnownStays(history: seq<Seen>, history': seq<Seen>, s: Seen)
    requires Known(history, s) && history <= history'
    ensures Known(history', s)
  {}

  lemma CallStays(w: World, w': World, op: nat, c: Call)
    requires CallOk(w, c) && Extends(w, w', op)
    ensures CallOk(w', c)
  {}

  lemma PhaseStays(w: World, w': World, op: nat, o: nat, p: Phase)
    requires PhaseOk(w, o, p) && Extends(w, w', op) && (o != op || w'.wire == w.wire)
    ensures PhaseOk(w', o, p)
  {
    hide Held;
  }

  ghost predicate OpMoved(w: World, w': World, op: nat) {
    op in w'.ops && (op in w.ops ==> w'.ops[op] != w.ops[op])
  }

  lemma ExtendKeepsCalls(w: World, w': World, op: nat)
    requires CallsOk(w) && Extends(w, w', op)
    requires forall c :: c in w'.wire && c !in w.wire ==> CallOk(w', c)
    ensures CallsOk(w')
  {
    hide CallOk, Extends;
    forall c | c in w'.wire ensures CallOk(w', c) {
      if c in w.wire {
        CallStays(w, w', op, c);
      }
    }
  }

  lemma ExtendKeepsOps(w: World, w': World, op: nat)
    requires OpsOk(w) && Extends(w, w', op)
    requires if OpMoved(w, w', op) then PhaseOk(w', op, w'.ops[op].phase) && StartOk(w', w'.ops[op])
             else w'.wire == w.wire
    ensures OpsOk(w')
  {
    hide PhaseOk, CallOk, Held;
    forall o | o in w'.ops ensures PhaseOk(w', o, w'.ops[o].phase) && StartOk(w', w'.ops[o]) {
      if o != op || !OpMoved(w, w', op) {
        PhaseStays(w, w', op, o, w.ops[o].phase);
      }
    }
  }

  lemma ExtendKeepsInv(w: World, w': World, op: nat)
    requires Inv(w) && Extends(w, w', op)
    requires HistoryOk(w') && WinnersOk(w')
    requires forall c :: c in w'.wire && c !in w.wire ==> CallOk(w', c)
    requires forall a :: a in w'.acks && a !in w.acks ==> a.0 > 0 && Held(w', a.0, a.1)
    requires forall h :: h in w'.handles ==>
      (h in w.handles && w'.handles[h] == w.handles[h]) || KnownPrev(w'.history, w'.handles[h])
    requires if OpMoved(w, w', op) then PhaseOk(w', op, w'.ops[op].phase) && StartOk(w', w'.ops[op])
             else w'.wire == w.wire
    ensures Inv(w')
  {
    ExtendKeepsCalls(w, w', op);
    ExtendKeepsOps(w, w', op);
    hide PhaseOk, CallOk, HistoryOk, WinnersOk, CallsOk, OpsOk;
    forall h | h in w'.handles ensures KnownPrev(w'.history, w'.handles[h]) {
      if h in w.handles && w'.handles[h] == w.handles[h] && w.handles[h].Some? {
        KnownStays(w.history, w'.history, w.handles[h].value);
      }
    }
  }

  /** The store and the history are untouched: the history part carries over. */
  lemma SameHistory(w: World, w': World)
    requires HistoryOk(w) && WinnersOk(w)
    requires w'.store == w.store && w'.history == w.history && w'.winners == w.winners && w.wire <= w'.wire
    ensures HistoryOk(w') && WinnersOk(w')
  {
    forall i | 0 <= i < |w'.history| ensures Sender(w', w'.winners[i], w'.history[i].head) {
      assert Sender(w, w.winners[i], w.history[i].head);
    }
  }

  /** A step that leaves the store alone, moves only `op`, and sends only `op`'s swap. */
  lemma QuietStep(w: World, w': World, op: nat, o: Op)
    requires w'.store == w.store && w'.history == w.history && w'.winners == w.winners
    requires w.wire <= w'.wire && forall c :: c in w'.wire && c !in w.wire && c.CasCall? ==> c.op == op
    requires w'.ops == w.ops || w'.ops == w.ops[op := o]
    requires op in w.ops && Sent(w.ops[op].phase) ==> Sent(w'.ops[op].phase)
    ensures Extends(w, w', op)
  {
    assert forall g, image :: Held(w, g, image) ==> Held(w', g, image);
    hide Held;
  }

  lemma MoveKeepsInv(w: World, op: nat, phase: Phase, memo: Option<Option<Seen>>, send: set<Call>)
    requires Inv(w) && op in w.ops && (Sent(w.ops[op].phase) ==> Sent(phase))
    requires memo.Some? ==> KnownPrev(w.history, memo.value)
    requires var w' := Move(w, op, phase, memo, send);
      && (forall c :: c in send ==> CallOk(w', c) && (c.CasCall? ==> c.op == op))
      && PhaseOk(w', op, phase) && StartOk(w', w'.ops[op])
      && phase != w.ops[op].phase
    ensures Inv(Move(w, op, phase, memo, send))
  {
    hide HistoryOk, WinnersOk, CallOk, CallsOk, AcksOk, HandlesOk, OpsOk, Extends, PhaseOk, StartOk, KnownPrev;
    var w' := Move(w, op, phase, memo, send);
    SameHistory(w, w');
    QuietStep(w, w', op, w'.ops[op]);
    forall h | h in w'.handles
      ensures (h in w.handles && w'.handles[h] == w.handles[h]) || KnownPrev(w'.history, w'.handles[h])
    {}
    ExtendKeepsInv(w, w', op);
  }

  lemma OpFacts(w: World, op: nat)
    requires Inv(w) && op in w.ops
    ensures PhaseOk(w, op, w.ops[op].phase) && StartOk(w, w.ops[op])
  {
    hide PhaseOk, HistoryOk, WinnersOk, CallsOk, AcksOk, HandlesOk;
  }

  lemma CallFacts(w: World, c: Call)
    requires Inv(w) && c in w.wire
    ensures CallOk(w, c)
  {
    hide CallOk, HistoryOk, WinnersOk, AcksOk, HandlesOk, OpsOk;
  }

  lemma AckHeld(w: World, a: (nat, Image))
    requires Inv(w) && a in w.acks
    ensures Held(w, a.0, a.1)
  {
    hide HistoryOk, WinnersOk, CallsOk, HandlesOk, OpsOk, Held;
  }

  /** Before its upload is acknowledged, an operation has sent no swap. */
  lemma NoEarlySwap(w: World, op: nat, e: Option<nat>, head: Head)
    requires Inv(w) && op in w.ops && !Sent(w.ops[op].phase)
    ensures CasCall(op, e, head) !in w.wire
  {
    hide HistoryOk, WinnersOk, AcksOk, HandlesOk, OpsOk, Held;
    assert CasCall(op, e, head) in w.wire ==> CallOk(w, CasCall(op, e, head));
  }

  lemma BeginKeepsInv(w: World, op: nat, h: nat, phase: Phase)
    requires Inv(w) && op !in w.ops && (phase.Deciding? || phase.Reading?)
    ensures Inv(Begin(w, op, h, phase))
  {
    hide HistoryOk, WinnersOk, CallOk, CallsOk, AcksOk, HandlesOk, OpsOk, Extends;
    var w' := Begin(w, op, h, phase);
    SameHistory(w, w');
    QuietStep(w, w', op, w'.ops[op]);
    ExtendKeepsInv(w, w', op);
  }

  lemma RestartKeepsInv(w: World, h: nat)
    requires Inv(w)
    ensures Inv(Restart(w, h))
  {
    hide HistoryOk, WinnersOk, CallOk, CallsOk, AcksOk, HandlesOk, OpsOk, PhaseOk, Extends;
    SameHistory(w, Restart(w, h));
    QuietStep(w, Restart(w, h), 0, Op(0, 0, Reading));
    ExtendKeepsInv(w, Restart(w, h), 0);
  }

  lemma FailedOk(w: World, op: nat, memo: Option<Option<Seen>>)
    requires op in w.ops && w.ops[op].startGen <= |w.history|
    ensures var w' := Move(w, op, Failed, memo, {}); PhaseOk(w', op, Failed) && StartOk(w', w'.ops[op])
  {}

  lemma GiveUpKeepsInv(w: World, op: nat, forget: bool)
    requires Inv(w) && op in w.ops && !Done(w.ops[op].phase)
    ensures Inv(GiveUp(w, op, forget))
  {
    OpFacts(w, op);
    FailedOk(w, op, if forget then Some(None) else None);
    hide Inv, PhaseOk, StartOk;
    MoveKeepsInv(w, op, Failed, if forget then Some(None) else None, {});
  }

  lemma HeadIsKnown(w: World)
    requires HistoryOk(w) && w.store.head.Some?
    ensures Known(w.history, w.store.head.value) && w.store.head.value.head.generation == |w.history|
  {}

  lemma PrevIsKnown(w: World, op: nat)
    requires Inv(w) && op in w.ops
    ensures KnownPrev(w.history, Prev(w, op))
  {
    if w.store.head.Some? {
      HeadIsKnown(w);
    }
    hide HistoryOk, WinnersOk, CallsOk, AcksOk, OpsOk;
  }

  lemma DecidedOk(w: World, op: nat, image: Image, prev: Option<Seen>)
    requires op in w.ops && w.ops[op].startGen <= |w.history| && KnownPrev(w.history, prev)
    ensures Names(prev, image) ==>
      var p := Published(image, prev.value.head.generation, false);
      var w' := Move(w, op, p, Some(prev), {});
      PhaseOk(w', op, p) && StartOk(w', w'.ops[op])
    ensures
      var p := Uploading(image, prev);
      var c := PutCall(NextGeneration(prev), image);
      var w' := Move(w, op, p, if prev.None? then Some(None) else None, {c});
      PhaseOk(w', op, p) && StartOk(w', w'.ops[op]) && CallOk(w', c)
  {}

  lemma DecideKeepsInv(w: World, op: nat)
    requires Inv(w) && op in w.ops && w.ops[op].phase.Deciding?
    ensures Inv(Decide(w, op))
  {
    PrevIsKnown(w, op);
    OpFacts(w, op);
    var image, prev := w.ops[op].phase.image, Prev(w, op);
    DecidedOk(w, op, image, prev);
    hide Inv, Prev, Held, PhaseOk, StartOk, CallOk;
    if Names(prev, image) {
      MoveKeepsInv(w, op, Published(image, prev.value.head.generation, false), Some(prev), {});
    } else {
      MoveKeepsInv(w, op, Uploading(image, prev), if prev.None? then Some(None) else None,
                   {PutCall(NextGeneration(prev), image)});
    }
  }

  lemma NewSwapOk(w: World, w': World, op: nat, image: Image, prev: Option<Seen>)
    requires KnownPrev(w.history, prev) && w'.history == w.history && w'.store == w.store
    requires Held(w, NextGeneration(prev), image)
    requires op in w'.ops && w'.ops[op].phase.Swapping?
    ensures CallOk(w', CasCall(op, ExpectedGen(prev), HeadFor(NextGeneration(prev), image)))
  {}

  lemma UploadedKeepsInv(w: World, op: nat)
    requires Inv(w) && op in w.ops && w.ops[op].phase.Uploading?
    requires (NextGeneration(w.ops[op].phase.prev), w.ops[op].phase.image) in w.acks
    ensures Inv(Uploaded(w, op))
  {
    OpFacts(w, op);
    var p := w.ops[op].phase;
    var w' := Uploaded(w, op);
    AckHeld(w, (NextGeneration(p.prev), p.image));
    NewSwapOk(w, w', op, p.image, p.prev);
    hide Inv, CallOk, Held;
    forall e, head | CasCall(op, e, head) in w'.wire ensures head == HeadFor(NextGeneration(p.prev), p.image) {
      NoEarlySwap(w, op, e, head);
    }
    MoveKeepsInv(w, op, Swapping(p.image, p.prev), None,
                 {CasCall(op, ExpectedGen(p.prev), HeadFor(NextGeneration(p.prev), p.image))});
  }

  /** The writer of a HEAD wrote the image it was publishing. */
  lemma WinnerWroteItsImage(w: World, op: nat)
    requires WinnersOk(w) && op in w.ops && w.ops[op].phase.Swapping? && Won(w, op)
    requires PhaseOk(w, op, w.ops[op].phase)
    ensures var p := w.ops[op].phase; var g := NextGeneration(p.prev);
      w.history[g - 1].head == HeadFor(g, p.image) && Known(w.history, w.history[g - 1])
  {
    var g := NextGeneration(w.ops[op].phase.prev);
    assert Sender(w, w.winners[g - 1], w.history[g - 1].head);
    var e :| CasCall(w.winners[g - 1], e, w.history[g - 1].head) in w.wire;
  }

  lemma PublishedOk(w: World, op: nat, image: Image, prev: Option<Seen>)
    requires op in w.ops && w.ops[op].startGen <= |w.history| && KnownPrev(w.history, prev)
    requires var g := NextGeneration(prev);
      g <= |w.history| && g <= |w.winners| && w.winners[g - 1] == op && ImageOf(w.history[g - 1].head) == image
    ensures var g := NextGeneration(prev); var p := Published(image, g, true);
      var w' := Move(w, op, p, Some(Some(w.history[g - 1])),
                     if prev.Some? then {DeleteCall(prev.value.head.generation)} else {});
      PhaseOk(w', op, p) && StartOk(w', w'.ops[op])
      && (prev.Some? ==> CallOk(w', DeleteCall(prev.value.head.generation)))
  {}

  lemma SwappedFacts(w: World, op: nat)
    requires Inv(w) && op in w.ops && w.ops[op].phase.Swapping? && Won(w, op)
    ensures var p := w.ops[op].phase; var g := NextGeneration(p.prev);
      && w.ops[op].startGen <= |w.history| && KnownPrev(w.history, p.prev)
      && ImageOf(w.history[g - 1].head) == p.image && Known(w.history, w.history[g - 1])
  {
    OpFacts(w, op);
    WinnerWroteItsImage(w, op);
    hide Inv, WinnersOk, Held;
  }

  lemma SwappedKeepsInv(w: World, op: nat)
    requires Inv(w) && op in w.ops && w.ops[op].phase.Swapping? && Won(w, op)
    ensures Inv(Swapped(w, op))
  {
    hide Inv, Held, PhaseOk, StartOk, CallOk, Known, HeadFor;
    SwappedFacts(w, op);
    var p := w.ops[op].phase;
    var g := NextGeneration(p.prev);
    PublishedOk(w, op, p.image, p.prev);
    MoveKeepsInv(w, op, Published(p.image, g, true), Some(Some(w.history[g - 1])),
                 if p.prev.Some? then {DeleteCall(p.prev.value.head.generation)} else {});
  }

  lemma ReadOk(w: World, op: nat, s: Seen)
    requires op in w.ops && Known(w.history, s) && w.ops[op].startGen <= s.head.generation
    ensures var p := Fetching(s); var w' := Move(w, op, p, None, {});
      PhaseOk(w', op, p) && StartOk(w', w'.ops[op])
  {}

  lemma ReadKeepsInv(w: World, op: nat)
    requires Inv(w) && op in w.ops && w.ops[op].phase.Reading?
    ensures Inv(ReadHead(w, op))
  {
    OpFacts(w, op);
    if w.store.head.None? {
      FailedOk(w, op, Some(None));
    } else {
      HeadIsKnown(w);
      ReadOk(w, op, w.store.head.value);
    }
    hide Inv, HistoryOk, CallOk, Known, PhaseOk, StartOk;
    if w.store.head.None? {
      MoveKeepsInv(w, op, Failed, Some(None), {});
    } else {
      MoveKeepsInv(w, op, Fetching(w.store.head.value), None, {});
    }
  }

  lemma LoadedOk(w: World, op: nat, s: Seen, image: Image)
    requires op in w.ops && Known(w.history, s) && image == ImageOf(s.head)
    requires w.ops[op].startGen <= s.head.generation
    ensures var p := Loaded(s, image, |w.history|); var w' := Move(w, op, p, Some(Some(s)), {});
      PhaseOk(w', op, p) && StartOk(w', w'.ops[op])
  {}

  lemma FetchKeepsInv(w: World, op: nat)
    requires Inv(w) && op in w.ops && w.ops[op].phase.Fetching?
    ensures Inv(FetchImage(w, op))
  {
    OpFacts(w, op);
    var s := w.ops[op].phase.seen;
    var image := Fetch(w.store, s.head);
    assert Known(w.history, s) && w.ops[op].startGen <= s.head.generation;
    assert image.Some? ==> image.value == ImageOf(s.head);
    FailedOk(w, op, None);
    hide Inv, CallOk, Fetch, Known, ImageOf, PhaseOk, StartOk;
    if image.Some? {
      LoadedOk(w, op, s, image.value);
      MoveKeepsInv(w, op, Loaded(s, image.value, |w.history|), Some(Some(s)), {});
    } else {
      MoveKeepsInv(w, op, Failed, None, {});
    }
  }

  /** A step of the store that at most extends the history. */
  lemma StoreStep(w: World, w': World)
    requires Inv(w) && HistoryOk(w') && WinnersOk(w')
    requires w.history <= w'.history && w.winners <= w'.winners && w'.wire == w.wire
    requires w'.ops == w.ops && w'.handles == w.handles
    requires forall g, image :: Held(w, g, image) ==> Held(w', g, image)
    requires forall a :: a in w'.acks && a !in w.acks ==> a.0 > 0 && Held(w', a.0, a.1)
    ensures Inv(w')
  {
    hide HistoryOk, WinnersOk, CallOk, CallsOk, AcksOk, HandlesOk, OpsOk, PhaseOk, Held;
    assert Extends(w, w', 0);
    hide Extends;
    ExtendKeepsInv(w, w', 0);
  }

  lemma PutAdds(w: World, g: nat, image: Image)
    requires HistoryOk(w)
    ensures HistoryOk(Apply(w, PutCall(g, image)))
  {}

  lemma PutKeepsInv(w: World, g: nat, image: Image)
    requires Inv(w) && PutCall(g, image) in w.wire
    ensures Inv(Apply(w, PutCall(g, image)))
  {
    var w' := Apply(w, PutCall(g, image));
    CallFacts(w, PutCall(g, image));
    PutAdds(w, g, image);
    hide HistoryOk, CallOk, CallsOk, AcksOk, HandlesOk, OpsOk;
    assert WinnersOk(w') by {
      forall i | 0 <= i < |w'.history| ensures Sender(w', w'.winners[i], w'.history[i].head) {
        assert Sender(w, w.winners[i], w.history[i].head);
      }
    }
    StoreStep(w, w');
  }

  lemma DeleteSpares(w: World, g: nat)
    requires HistoryOk(w) && 0 < g < |w.history|
    ensures var w' := Apply(w, DeleteCall(g));
      HistoryOk(w') && forall k, image :: Held(w, k, image) ==> Held(w', k, image)
  {}

  /** A delete only ever names a generation HEAD has moved past. */
  lemma DeleteKeepsInv(w: World, g: nat)
    requires Inv(w) && DeleteCall(g) in w.wire
    ensures Inv(Apply(w, DeleteCall(g)))
  {
    var w' := Apply(w, DeleteCall(g));
    CallFacts(w, DeleteCall(g));
    DeleteSpares(w, g);
    hide HistoryOk, CallOk, CallsOk, AcksOk, HandlesOk, OpsOk, Held;
    assert WinnersOk(w') by {
      forall i | 0 <= i < |w'.history| ensures Sender(w', w'.winners[i], w'.history[i].head) {
        assert Sender(w, w.winners[i], w.history[i].head);
      }
    }
    StoreStep(w, w');
  }

  /** A swap that matches advances HEAD by exactly one generation, onto an uploaded image. */
  lemma SwapAdvances(w: World, op: nat, expected: Option<nat>, head: Head)
    requires HistoryOk(w) && CallOk(w, CasCall(op, expected, head)) && CasMatches(w.store, expected)
    ensures head.generation == |w.history| + 1
    ensures Fetch(w.store, head).Some?
  {
    if w.history != [] {
      var last := |w.history| - 1;
      assert forall i :: 0 <= i < last ==> w.history[i].headGen < w.history[last].headGen;
    }
  }

  lemma SwapExtendsHistory(w: World, op: nat, expected: Option<nat>, head: Head)
    requires HistoryOk(w) && CasMatches(w.store, expected)
    requires head.generation == |w.history| + 1 && Fetch(w.store, head).Some?
    ensures var w' := Apply(w, CasCall(op, expected, head));
      |w.winners| == |w.history| ==> HistoryOk(w')
  {}

  lemma CasKeepsInv(w: World, op: nat, expected: Option<nat>, head: Head)
    requires Inv(w) && CasCall(op, expected, head) in w.wire
    ensures Inv(Apply(w, CasCall(op, expected, head)))
  {
    if CasMatches(w.store, expected) {
      CallFacts(w, CasCall(op, expected, head));
      SwapAdvances(w, op, expected, head);
      SwapExtendsHistory(w, op, expected, head);
      hide HistoryOk, CallOk, CallsOk, AcksOk, HandlesOk, OpsOk;
      var w' := Apply(w, CasCall(op, expected, head));
      assert WinnersOk(w') by {
        forall i | 0 <= i < |w'.history| ensures Sender(w', w'.winners[i], w'.history[i].head) {
          if i < |w.history| {
            assert Sender(w, w.winners[i], w.history[i].head);
          }
        }
      }
      StoreStep(w, w');
    }
  }

  lemma ApplyKeepsInv(w: World, c: Call)
    requires Inv(w) && c in w.wire
    ensures Inv(Apply(w, c))
  {
    hide Inv, Apply;
    match c {
      case PutCall(g, image) => PutKeepsInv(w, g, image);
      case CasCall(op, expected, head) => CasKeepsInv(w, op, expected, head);
      case DeleteCall(g) => DeleteKeepsInv(w, g);
    }
  }

  lemma OpStepKeepsInv(w: World, w': World, op: nat)
    requires Inv(w) && op in w.ops && OpStep(w, w', op)
    ensures Inv(w')
  {
    var p := w.ops[op].phase;
    hide Inv, Decide, Uploaded, Swapped, ReadHead, FetchImage, GiveUp, Won;
    if p.Deciding? && w' == Decide(w, op) {
      DecideKeepsInv(w, op);
    } else if p.Uploading? && (NextGeneration(p.prev), p.image) in w.acks && w' == Uploaded(w, op) {
      UploadedKeepsInv(w, op);
    } else if p.Swapping? && Won(w, op) && w' == Swapped(w, op) {
      SwappedKeepsInv(w, op);
    } else if p.Reading? && w' == ReadHead(w, op) {
      ReadKeepsInv(w, op);
    } else if p.Fetching? && w' == FetchImage(w, op) {
      FetchKeepsInv(w, op);
    } else {
      var forget :| w' == GiveUp(w, op, forget);
      GiveUpKeepsInv(w, op, forget);
    }
  }

  lemma StepKeepsInv(w: World, w': World)
    requires Inv(w) && Step(w, w')
    ensures Inv(w')
  {
    hide Inv, OpStep, Begin, Apply, Restart;
    if op: nat, h: nat, image :| op !in w.ops && w' == Begin(w, op, h, Deciding(image)) {
      BeginKeepsInv(w, op, h, Deciding(image));
    } else if op: nat, h: nat :| op !in w.ops && w' == Begin(w, op, h, Reading) {
      BeginKeepsInv(w, op, h, Reading);
    } else if op: nat :| op in w.ops && OpStep(w, w', op) {
      OpStepKeepsInv(w, w', op);
    } else if c :| c in w.wire && w' == Apply(w, c) {
      ApplyKeepsInv(w, c);
    } else {
      var h: nat :| w' == Restart(w, h);
      RestartKeepsInv(w, h);
    }
  }

  lemma {:induction false} RunKeepsInv(tr: seq<World>, n: nat)
    requires Run(tr) && n < |tr|
    ensures Inv(tr[n])
  {
    if n > 0 {
      hide Inv, Step;
      RunKeepsInv(tr, n - 1);
      assert Step(tr[n - 1], tr[n - 1 + 1]);
      StepKeepsInv(tr[n - 1], tr[n]);
    }
  }

  // ---- what it gives ----

  /** Under every interleaving, HEAD names an image that exists with the recorded length and
      checksum, and HEAD generations run 1, 2, 3, ... */
  lemma HeadIsAlwaysLoadable(tr: seq<World>, n: nat)
    requires Run(tr) && n < |tr|
    ensures var w := tr[n];
      && (w.store.head.Some? ==> Fetch(w.store, w.store.head.value.head) == Some(ImageOf(w.store.head.value.head)))
      && (w.store.head.Some? <==> w.history != [])
      && (w.store.head.Some? ==> w.store.head.value.head.generation == |w.history|)
      && forall i :: 0 <= i < |w.history| ==> w.history[i].head.generation == i + 1
  {
    hide Run, WinnersOk, CallsOk, AcksOk, HandlesOk, OpsOk;
    RunKeepsInv(tr, n);
  }

  /** HEAD only moves forward, one generation at a time: what it named stays in the record. */
  lemma {:induction false} HistoryGrows(tr: seq<World>, m: nat, n: nat)
    requires Run(tr) && m <= n < |tr|
    ensures tr[m].history <= tr[n].history
    ensures forall op :: op in tr[m].ops ==> op in tr[n].ops
    ensures forall op :: op in tr[n].ops && op !in tr[m].ops ==> tr[n].ops[op].startGen >= |tr[m].history|
    ensures forall op :: op in tr[m].ops ==> tr[n].ops[op].startGen == tr[m].ops[op].startGen
    decreases n - m
  {
    hide Step;
    if m < n {
      HistoryGrows(tr, m, n - 1);
      assert Step(tr[n - 1], tr[n - 1 + 1]);
      StepGrows(tr[n - 1], tr[n]);
    }
  }

  lemma OpStepGrows(w: World, w': World, op: nat)
    requires op in w.ops && OpStep(w, w', op)
    ensures w'.history == w.history && w'.ops.Keys == w.ops.Keys
    ensures forall o :: o in w.ops ==> w'.ops[o].startGen == w.ops[o].startGen
  {
    hide CasMatches, Fetch, Names, Prev;
  }

  lemma StepGrows(w: World, w': World)
    requires Step(w, w')
    ensures w.history <= w'.history && |w'.history| <= |w.history| + 1
    ensures forall op :: op in w.ops ==> op in w'.ops && w'.ops[op].startGen == w.ops[op].startGen
    ensures forall op :: op in w'.ops && op !in w.ops ==> w'.ops[op].startGen == |w.history|
  {
    hide OpStep, CasMatches, Put, Delete, PutAccepted;
    if op: nat :| op in w.ops && OpStep(w, w', op) {
      OpStepGrows(w, w', op);
    }
  }

  /** At most one publisher wins from any HEAD state: two publishes that both report an
      upload report different generations. */
  lemma OneWinnerPerGeneration(tr: seq<World>, n: nat, a: nat, b: nat)
    requires Run(tr) && n < |tr| && a in tr[n].ops && b in tr[n].ops && a != b
    requires var p, q := tr[n].ops[a].phase, tr[n].ops[b].phase;
      p.Published? && p.uploaded && q.Published? && q.uploaded
    ensures tr[n].ops[a].phase.generation != tr[n].ops[b].phase.generation
  {
    hide Run, Inv, StartOk, CallOk, Held;
    RunKeepsInv(tr, n);
    OpFacts(tr[n], a);
    OpFacts(tr[n], b);
  }

  /** A publish that reports a generation names an image HEAD had under that generation;
      `uploaded: false` says no more than that. */
  lemma PublishedWasHead(tr: seq<World>, n: nat, op: nat)
    requires Run(tr) && n < |tr| && op in tr[n].ops && tr[n].ops[op].phase.Published?
    ensures var p := tr[n].ops[op].phase;
      1 <= p.generation <= |tr[n].history| && ImageOf(tr[n].history[p.generation - 1].head) == p.image
  {
    hide Run, Inv, StartOk, CallOk, Held;
    RunKeepsInv(tr, n);
    OpFacts(tr[n], op);
  }

  /** A finished load returns the image some HEAD named, and one no older than the HEAD that
      was in place when the load began. */
  lemma LoadedWasHead(tr: seq<World>, n: nat, op: nat)
    requires Run(tr) && n < |tr| && op in tr[n].ops && tr[n].ops[op].phase.Loaded?
    ensures var p := tr[n].ops[op].phase;
      && Known(tr[n].history, p.seen) && p.loaded == ImageOf(p.seen.head)
      && tr[n].ops[op].startGen <= p.seen.head.generation <= p.endGen <= |tr[n].history|
  {
    hide Run, Inv, CallOk, Held;
    RunKeepsInv(tr, n);
    OpFacts(tr[n], op);
  }

  /** Loads that follow one another return nondecreasing generations: `b` began after `a`
      had finished. */
  lemma LoadsAreMonotone(tr: seq<World>, m: nat, n: nat, a: nat, b: nat)
    requires Run(tr) && m <= n < |tr|
    requires a in tr[m].ops && tr[m].ops[a].phase.Loaded?
    requires b !in tr[m].ops && b in tr[n].ops && tr[n].ops[b].phase.Loaded?
    ensures tr[m].ops[a].phase.seen.head.generation <= tr[n].ops[b].phase.seen.head.generation
  {
    hide Run;
    LoadedWasHead(tr, m, a);
    LoadedWasHead(tr, n, b);
    HistoryGrows(tr, m, n);
  }

  lemma DistinctObjectGenerations(w: World, s: Seen, t: Seen)
    requires HistoryOk(w) && Known(w.history, s) && Known(w.history, t)
    ensures s.headGen == t.headGen <==> s == t
  {
    hide Fetch;
  }

  /** The one metadata request of a replica poll is enough: an equal object generation means
      HEAD is what was remembered. */
  lemma EqualObjectGenerationMeansUnchanged(tr: seq<World>, n: nat, h: nat)
    requires Run(tr) && n < |tr| && SeenBy(tr[n], h).Some? && tr[n].store.head.Some?
    ensures tr[n].store.head.value.headGen == SeenBy(tr[n], h).value.headGen
      <==> tr[n].store.head == SeenBy(tr[n], h)
  {
    hide Run, WinnersOk, CallsOk, AcksOk, OpsOk;
    RunKeepsInv(tr, n);
    var w := tr[n];
    HeadIsKnown(w);
    assert KnownPrev(w.history, SeenBy(w, h));
    hide HandlesOk;
    DistinctObjectGenerations(w, SeenBy(w, h).value, w.store.head.value);
  }

  /** A publish that finds its image already named writes nothing and answers with the generation
      it remembers. That generation is still HEAD's if and only if there has been no later one,
      which is if and only if the HEAD object's own generation is the remembered one: a metadata
      request before the call tells. A handle that remembers nothing reads HEAD and is right. */
  lemma UnchangedAnswerIff(tr: seq<World>, n: nat, op: nat)
    requires Run(tr) && n < |tr| && op in tr[n].ops && tr[n].ops[op].phase.Deciding?
    requires Names(Prev(tr[n], op), tr[n].ops[op].phase.image)
    ensures var w, w' := tr[n], Decide(tr[n], op);
      var image, h, prev := w.ops[op].phase.image, w.ops[op].handle, Prev(w, op).value;
      var g := prev.head.generation;
      && w'.ops[op].phase == Published(image, g, false)
      && w'.store == w.store && w'.wire == w.wire && w'.history == w.history && SeenBy(w', h) == Some(prev)
      && 1 <= g <= |w.history| && w.history[g - 1] == prev && w.store.head.Some?
      && (w.store.head.value.head.generation == g <==> |w.history| == g)
      && (|w.history| == g <==> w.store.head.value.headGen == prev.headGen)
      && (|w.history| == g ==> w.store.head.value.head == HeadFor(g, image))
      && (SeenBy(w, h).None? ==> |w.history| == g)
  {
    hide Run, WinnersOk, CallsOk, AcksOk, OpsOk, Fetch;
    RunKeepsInv(tr, n);
    var w := tr[n];
    PrevIsKnown(w, op);
    hide HandlesOk;
    HeadIsKnown(w);
    DistinctObjectGenerations(w, Prev(w, op).value, w.store.head.value);
  }

  /** No late delete and no stale upload touches the image HEAD names: applying any call that
      was ever sent leaves it in place, unless the call moves HEAD itself. */
  lemma LateCallsSpareHead(tr: seq<World>, n: nat, c: Call)
    requires Run(tr) && n < |tr| && c in tr[n].wire && tr[n].store.head.Some?
    ensures var w, w' := tr[n], Apply(tr[n], c); var head := w.store.head.value.head;
      && (w'.store.head == w.store.head ==> Fetch(w'.store, head) == Fetch(w.store, head) == Some(ImageOf(head)))
      && (w'.store.head != w.store.head ==>
            c.CasCall? && w'.store.head.Some? && w'.store.head.value.head.generation == head.generation + 1)
  {
    hide Run;
    RunKeepsInv(tr, n);
    var w := tr[n];
    ApplyKeepsInv(w, c);
    HeadIsKnown(w);
    HeadIsKnown(Apply(w, c));
    hide WinnersOk, CallsOk, AcksOk, HandlesOk, OpsOk;
  }
}
