/** One handle on a bucket: publish and load as the methods run them, with any store call
    failing or losing its reply. */
module Remote {
  import opened Common
  import opened ObjectStore
  import opened IndexFormat
  import opened Images
  import opened Facade
  import opened Lifecycle

  datatype Error = Fenced | Unavailable | Corrupt | Link(cause: Facade.Error)

  /** A call works, has no effect and fails, or has its effect but reports a failure. */
  datatype Fault = Fine | Fails | LosesReply

  datatype Faults = Faults(read: bool, put: Fault, cas: Fault, delete: Fault)

  const NO_FAULTS := Faults(false, Fine, Fine, Fine)

  datatype Report = Report(generation: nat, uploaded: bool)

  type Attempt = (Store, Option<Seen>, Result<Report, Error>)

  function Landed(fault: Fault, before: Store, after: Store): Store {
    if fault.Fails? then before else after
  }

  /** What a publish leaves: the store, the remembered state, the answer. */
  function Publish(st: Store, seen: Option<Seen>, image: Image, f: Faults): Attempt {
    if seen.None? && f.read then (st, seen, Err(Unavailable))
    else
      var prev := if seen.Some? then seen else st.head;
      if Names(prev, image) then (st, prev, Ok(Report(prev.value.head.generation, false)))
      else
        var g := NextGeneration(prev);
        var st1 := Landed(f.put, st, Put(st, g, image));
        if !f.put.Fine? then (st1, None, Err(Unavailable))
        else if !PutAccepted(st, g, image) then (st1, None, Err(Fenced))
        else
          var st2 := Landed(f.cas, st1, Cas(st1, ExpectedGen(prev), HeadFor(g, image)));
          if !f.cas.Fine? then (st2, None, Err(Unavailable))
          else if !CasMatches(st1, ExpectedGen(prev)) then (st2, None, Err(Fenced))
          else
            var st3 := if prev.Some? then Landed(f.delete, st2, Delete(st2, prev.value.head.generation)) else st2;
            (st3, Some(Seen(st1.clock + 1, HeadFor(g, image))), Ok(Report(g, true)))
  }

  class Bucket {
    var store: Store

    constructor ()
      ensures store == Store(None, map[], 0)
    {
      store := Store(None, map[], 0);
    }

    method PutImmutable(g: nat, image: Image, fault: Fault) returns (r: Result<(), Error>)
      modifies this
      ensures store == Landed(fault, old(store), Put(old(store), g, image))
      ensures r == if !fault.Fine? then Err(Unavailable)
                   else if PutAccepted(old(store), g, image) then Ok(()) else Err(Fenced)
    {
      var accepted := PutAccepted(store, g, image);
      if !fault.Fails? {
        store := Put(store, g, image);
      }
      r := if !fault.Fine? then Err(Unavailable) else if accepted then Ok(()) else Err(Fenced);
    }

    method CasHead(expected: Option<nat>, head: Head, fault: Fault) returns (r: Result<nat, Error>)
      modifies this
      ensures store == Landed(fault, old(store), Cas(old(store), expected, head))
      ensures r == if !fault.Fine? then Err(Unavailable)
                   else if CasMatches(old(store), expected) then Ok(old(store).clock + 1) else Err(Fenced)
    {
      var matches := CasMatches(store, expected);
      if !fault.Fails? {
        store := Cas(store, expected, head);
      }
      r := if !fault.Fine? then Err(Unavailable) else if matches then Ok(store.clock) else Err(Fenced);
    }

    method DeleteImage(g: nat, fault: Fault)
      modifies this
      ensures store == Landed(fault, old(store), Delete(old(store), g))
    {
      if !fault.Fails? {
        store := Delete(store, g);
      }
    }
  }

  /** What a load-and-reload goes through: the store as it is at each of its calls, which of them
      fail, the file behind an image's length and checksum, and whether its vector block lies
      aligned in memory. */
  datatype Poll = Poll(atMeta: Store, atRead: Store, atFetch: Store,
                       metaFails: bool, readFails: bool, fetchFails: bool,
                       file: Image -> FileImage, aligned: bool)

  /** How a load ends. */
  datatype Loading = Unchanged | NoHead | Loaded(image: Image) | Broken

  /** What a load remembers, and how it ends. */
  function Load(seen: Option<Seen>, p: Poll, opens: Image -> bool): (Option<Seen>, Loading) {
    var meta := p.atMeta.head;
    if p.metaFails then (seen, Broken)
    else if meta.None? || (seen.Some? && meta.value.headGen == seen.value.headGen) then (seen, Unchanged)
    else if p.readFails then (seen, Broken)
    else if p.atRead.head.None? then (None, NoHead)
    else
      var image := Fetch(p.atFetch, p.atRead.head.value.head);
      if p.fetchFails || image.None? || !opens(image.value) then (seen, Broken)
      else (p.atRead.head, Loaded(image.value))
  }

  class Handle {
    const objects: Bucket
    var seen: Option<Seen>

    constructor (objects: Bucket)
      ensures this.objects == objects && seen == None
    {
      this.objects := objects;
      seen := None;
    }

    /** Upload create-only, swap HEAD conditionally, delete the previous image. */
    method PublishImage(image: Image, f: Faults) returns (r: Result<Report, Error>)
      modifies this, objects
      ensures (objects.store, seen, r) == Publish(old(objects.store), old(seen), image, f)
    {
      var prev := seen;
      if prev.None? {
        if f.read {
          return Err(Unavailable);
        }
        prev := objects.store.head;
        if prev.None? {
          seen := None;
        }
      }
      if Names(prev, image) {
        seen := prev;
        return Ok(Report(prev.value.head.generation, false));
      }
      var g := NextGeneration(prev);
      var put := objects.PutImmutable(g, image, f.put);
      if put.Err? {
        seen := None;
        return Err(put.error);
      }
      var cas := objects.CasHead(ExpectedGen(prev), HeadFor(g, image), f.cas);
      if cas.Err? {
        seen := None;
        return Err(cas.error);
      }
      seen := Some(Seen(cas.value, HeadFor(g, image)));
      if prev.Some? {
        objects.DeleteImage(prev.value.head.generation, f.delete);
      }
      r := Ok(Report(g, true));
    }

    /** Replica refresh in place. When anything fails, a short read, a missing image, a file that
        does not parse or belongs to another embedder, neither the links shown nor what this
        handle remembers change. Otherwise the index shows the links of the image that the
        remembered HEAD names. */
    method LoadIfChangedInto(index: LinkIndex, p: Poll) returns (r: Result<bool, Error>)
      requires index.Valid()
      modifies this`seen, index`openedIndex, index`builder, index`cached
      ensures index.Valid()
      ensures r != Ok(true) ==>
        && index.openedIndex == old(index.openedIndex) && index.builder == old(index.builder)
        && index.cached == old(index.cached)
      ensures r != Ok(true) && old(index.Sound()) ==> index.Sound() && index.Shown() == old(index.Shown())
      ensures r.Err? ==> seen == old(seen)
      ensures r == Ok(true) ==> seen == p.atRead.head && seen.Some?
      ensures r == Ok(true) ==>
        var parsed := ParseImage(index.libs, p.file(ImageOf(seen.value.head)));
        && parsed.Ok? && parsed.value.dim == index.embedder.dim && parsed.value.embedderId == index.embedder.id
        && (index.Sound() <==> GoodParts(parsed.value))
        && (index.Sound() ==> index.Shown() == ContentsShown(parsed.value))
      ensures r == Ok(false) && p.atMeta.head.Some? && p.atRead.head.Some? ==>
        old(seen).Some? && p.atMeta.head.value.headGen == old(seen).value.headGen && seen == old(seen)
      ensures r == Ok(false) && seen != old(seen) ==> seen == None && p.atRead.head == None
      ensures var (seen', end) := Load(old(seen), p, i => Opens(index.libs, index.embedder, p.file(i)));
        seen == seen' && (r.Err? <==> end.Broken?) && (r == Ok(true) <==> end.Loaded?)
    {
      hide ParseImage, Fetch, GoodParts, ContentsShown, Derived, Parallel, EmbedderOk,
        SnapshotOf, ViewWithin, ContentsOf, Compatible;
      if p.metaFails {
        return Err(Unavailable);
      }
      var meta := p.atMeta.head;
      if meta.None? {
        return Ok(false);
      }
      if seen.Some? && meta.value.headGen == seen.value.headGen {
        return Ok(false);
      }
      if p.readFails {
        return Err(Unavailable);
      }
      var read := p.atRead.head;
      if read.None? {
        seen := None;
        return Ok(false);
      }
      if p.fetchFails {
        return Err(Unavailable);
      }
      var image := Fetch(p.atFetch, read.value.head);
      if image.None? {
        return Err(Corrupt);
      }
      FetchedIsNamed(p.atFetch, read.value.head);
      var reloaded := index.ReloadFromBytes(p.file(image.value), p.aligned);
      if reloaded.Err? {
        return Err(Link(reloaded.error));
      }
      seen := read;
      r := Ok(true);
    }
  }

  lemma FetchedIsNamed(st: Store, head: Head)
    ensures Fetch(st, head).Some? ==> Fetch(st, head).value == ImageOf(head)
  {}

  // ---- a publisher without a competitor ----

  function CurrentGeneration(st: Store): nat {
    if st.head.Some? then st.head.value.head.generation else 0
  }

  /** The store is consistent, nobody moved HEAD behind the handle, and the only upload HEAD
      has not reached, if any, is `image` under the next generation. */
  ghost predicate Ready(st: Store, seen: Option<Seen>, image: Image) {
    && (st.head.Some? ==> Fetch(st, st.head.value.head).Some?)
    && (seen.Some? ==> st.head == seen)
    && forall g :: g in st.images && g > CurrentGeneration(st) ==>
         g == CurrentGeneration(st) + 1 && st.images[g] == image
  }

  function Attempts(st: Store, seen: Option<Seen>, image: Image, fs: seq<Faults>): (Store, Option<Seen>)
    decreases |fs|
  {
    if fs == [] then (st, seen)
    else
      var a := Publish(st, seen, image, fs[0]);
      Attempts(a.0, a.1, image, fs[1..])
  }

  lemma AttemptKeepsReady(st: Store, seen: Option<Seen>, image: Image, f: Faults)
    requires Ready(st, seen, image)
    ensures var a := Publish(st, seen, image, f); Ready(a.0, a.1, image)
  {}

  lemma {:induction false} AttemptsKeepReady(st: Store, seen: Option<Seen>, image: Image, fs: seq<Faults>)
    requires Ready(st, seen, image)
    ensures var a := Attempts(st, seen, image, fs); Ready(a.0, a.1, image)
    decreases |fs|
  {
    if fs != [] {
      AttemptKeepsReady(st, seen, image, fs[0]);
      var a := Publish(st, seen, image, fs[0]);
      hide Publish, Ready;
      AttemptsKeepReady(a.0, a.1, image, fs[1..]);
    }
  }

  /** After any failed or lost calls at any step of any number of attempts, the next attempt
      without a fault makes HEAD name the image, loadable, and reports its generation. */
  lemma PublishConverges(st: Store, seen: Option<Seen>, image: Image, fs: seq<Faults>)
    requires Ready(st, seen, image)
    ensures var (st1, seen1) := Attempts(st, seen, image, fs);
      var (st2, seen2, r) := Publish(st1, seen1, image, NO_FAULTS);
      && r.Ok? && st2.head.Some? && seen2 == st2.head
      && st2.head.value.head == HeadFor(r.value.generation, image)
      && Fetch(st2, st2.head.value.head) == Some(image)
  {
    AttemptsKeepReady(st, seen, image, fs);
    hide Publish, Ready, Fetch;
    var (st1, seen1) := Attempts(st, seen, image, fs);
    ReadyPublishes(st1, seen1, image);
  }

  lemma ReadyPublishes(st: Store, seen: Option<Seen>, image: Image)
    requires Ready(st, seen, image)
    ensures var (st', seen', r) := Publish(st, seen, image, NO_FAULTS);
      && r.Ok? && st'.head.Some? && seen' == st'.head
      && st'.head.value.head == HeadFor(r.value.generation, image)
      && Fetch(st', st'.head.value.head) == Some(image)
  {}

  /** No competitor, but possibly an upload stranded by an earlier attempt: a publish without
      a fault succeeds if and only if HEAD already names the image or the next generation is
      free or holds this very image. */
  lemma PublishSucceedsIff(st: Store, seen: Option<Seen>, image: Image)
    requires seen.Some? ==> st.head == seen
    ensures Publish(st, seen, image, NO_FAULTS).2.Ok?
      <==> Names(st.head, image) || PutAccepted(st, CurrentGeneration(st) + 1, image)
  {}

  /** A stranded upload of one image blocks every other image: no number of attempts, with
      or without faults, changes the store. */
  lemma {:induction false} StrandedUploadBlocksOthers(st: Store, seen: Option<Seen>, image: Image, fs: seq<Faults>)
    requires seen.Some? ==> st.head == seen
    requires !Names(st.head, image) && !PutAccepted(st, CurrentGeneration(st) + 1, image)
    ensures var (st1, seen1) := Attempts(st, seen, image, fs);
      st1 == st && (seen1.Some? ==> st.head == seen1) && !Publish(st1, seen1, image, NO_FAULTS).2.Ok?
    decreases |fs|
  {
    if fs != [] {
      var a := Publish(st, seen, image, fs[0]);
      assert a.0 == st && (a.1.Some? ==> st.head == a.1);
      StrandedUploadBlocksOthers(a.0, a.1, image, fs[1..]);
    }
  }

  /** How an upload gets stranded: the swap fails after the upload, and the index changes. */
  lemma FailedSwapStrandsUpload(st: Store, seen: Option<Seen>, image: Image, other: Image)
    requires Ready(st, seen, image) && !Names(st.head, image) && !Names(st.head, other) && other != image
    ensures var (st1, seen1, r) := Publish(st, seen, image, Faults(false, Fine, Fails, Fine));
      && r.Err? && st1.head == st.head && seen1.None?
      && !PutAccepted(st1, CurrentGeneration(st1) + 1, other)
      && Publish(st1, seen1, other, NO_FAULTS).2 == Err(Fenced)
      && Publish(st1, seen1, image, NO_FAULTS).2.Ok?
  {}

  /** A handle that remembers an older HEAD answers `uploaded: false` for an image HEAD no
      longer names. */
  lemma StaleAnswer()
    ensures var x, y := Image(1, 1), Image(2, 2);
      var (st1, a, r1) := Publish(Store(None, map[], 0), None, x, NO_FAULTS);
      var (st2, b, r2) := Publish(st1, None, y, NO_FAULTS);
      var (st3, c, r3) := Publish(st2, a, x, NO_FAULTS);
      && r3 == Ok(Report(1, false)) && st3 == st2 && !Names(st3.head, x)
  {}

  /** Of two publishers that start from one HEAD with different images, the second is fenced. */
  lemma SecondPublisherIsFenced(st: Store, prev: Option<Seen>, x: Image, y: Image)
    requires st.head == prev && x != y && !Names(prev, x) && !Names(prev, y)
    requires PutAccepted(st, NextGeneration(prev), x)
    requires prev.Some? ==> prev.value.headGen <= st.clock
    ensures var (st1, seen1, r1) := Publish(st, prev, x, NO_FAULTS);
      r1.Ok? && (prev.Some? ==> Publish(st1, prev, y, NO_FAULTS).2 == Err(Fenced))
  {}
}
