/** What the index keeps for one document. A string stands for its UTF-8 bytes, one char a
    byte; vector components are reals. */
module Documents {
  import opened Common

  type Term = string

  datatype DocMeta = DocMeta(
    url: string,
    urlKey: UrlKey,
    kind: nat,
    contentHash: nat,
    docLen: nat,
    title: Option<string>,
    snippet: string,
    lang: Option<string>,
    tags: seq<string>,
    fetchedAtMs: nat,
    pinned: bool,
    etag: Option<string>)

  /** Everything kept for one key: metadata, vector, terms and outbound edges. */
  datatype Entry = Entry(meta: DocMeta, vector: seq<real>, terms: seq<Term>, edges: seq<UrlKey>)

  /** A document to add or update. */
  datatype Document = Document(
    url: Url,
    kind: nat,
    contentHash: nat,
    title: Option<string>,
    snippet: string,
    lang: Option<string>,
    tags: seq<string>,
    terms: seq<Term>,
    vector: seq<real>,
    edges: seq<UrlKey>,
    fetchedAtMs: nat,
    etag: Option<string>,
    pinned: bool)

  datatype UpsertOutcome = Added | Updated | Unchanged

  type View = map<UrlKey, Entry>

  // ---- the four mutations on the abstract map ----

  function Upserted(v: View, key: UrlKey, e: Entry): (r: (View, UpsertOutcome)) {
    if key !in v then (v[key := e], Added)
    else if v[key].meta.contentHash == e.meta.contentHash then (v, Unchanged)
    else (v[key := e.(meta := e.meta.(pinned := e.meta.pinned || v[key].meta.pinned))], Updated)
  }

  function Removed(v: View, key: UrlKey): View { v - {key} }

  function Touched(v: View, key: UrlKey, now: nat): View {
    if key in v then v[key := v[key].(meta := v[key].meta.(fetchedAtMs := now))] else v
  }

  function PinEntry(e: Entry, prefix: string, pinned: bool): Entry {
    if prefix <= e.meta.url then e.(meta := e.meta.(pinned := pinned)) else e
  }

  function Pinned(v: View, prefix: string, pinned: bool): View {
    map k | k in v :: PinEntry(v[k], prefix, pinned)
  }

  datatype Mutation =
    | Upsert(key: UrlKey, entry: Entry)
    | Remove(key: UrlKey)
    | Touch(key: UrlKey, now: nat)
    | SetPinned(prefix: string, pinned: bool)

  function Mutate(v: View, m: Mutation): View {
    match m
    case Upsert(key, e) => Upserted(v, key, e).0
    case Remove(key) => Removed(v, key)
    case Touch(key, now) => Touched(v, key, now)
    case SetPinned(prefix, pinned) => Pinned(v, prefix, pinned)
  }

  function MutateAll(v: View, ms: seq<Mutation>): View
    decreases |ms|
  {
    if ms == [] then v else MutateAll(Mutate(v, ms[0]), ms[1..])
  }

  /** A pin survives every upsert, touch and further pin of its key: only an unpin or the
      removal of that key ends it. */
  lemma {:induction false} PinSurvives(v: View, ms: seq<Mutation>, key: UrlKey)
    requires key in v && v[key].meta.pinned
    requires forall m :: m in ms ==> m != Remove(key) && (m.SetPinned? ==> m.pinned)
    ensures key in MutateAll(v, ms) && MutateAll(v, ms)[key].meta.pinned
    decreases |ms|
  {
    if ms != [] {
      var m := ms[0];
      assert m in ms && forall m' :: m' in ms[1..] ==> m' in ms;
      assert key in Mutate(v, m) && Mutate(v, m)[key].meta.pinned;
      PinSurvives(Mutate(v, m), ms[1..], key);
    }
  }

  predicate SameButPin(e: Entry, f: Entry) {
    e.(meta := e.meta.(pinned := true)) == f.(meta := f.meta.(pinned := true))
  }

  /** Mutations of other keys leave an entry alone, apart from its pin. */
  lemma {:induction false} OtherKeysUntouched(v: View, ms: seq<Mutation>, key: UrlKey)
    requires forall m :: m in ms ==> m.SetPinned? || m.key != key
    ensures key in v <==> key in MutateAll(v, ms)
    ensures key in v ==> SameButPin(MutateAll(v, ms)[key], v[key])
    decreases |ms|
  {
    if ms != [] {
      assert ms[0] in ms && forall m' :: m' in ms[1..] ==> m' in ms;
      OtherKeysUntouched(Mutate(v, ms[0]), ms[1..], key);
    }
  }

  /** After an upsert the key is pinned if and only if it was before, or the new entry is and was
      taken: an upsert that reports no change leaves the entry as it is, so it does not pin. Other
      keys keep what they have. */
  lemma UpsertPinsIff(v: View, key: UrlKey, e: Entry)
    ensures var (w, outcome) := Upserted(v, key, e);
      && key in w
      && (w[key].meta.pinned <==> (key in v && v[key].meta.pinned) || (e.meta.pinned && outcome != Unchanged))
      && (outcome == Unchanged <==> key in v && v[key].meta.contentHash == e.meta.contentHash)
      && (outcome == Unchanged ==> w == v)
      && forall k :: k != key ==> (k in w <==> k in v) && (k in v ==> w[k] == v[k])
  {}

  /** Adding a page again, with the same content and a pin this time, does not pin it. */
  lemma RepinningIsIgnored()
    ensures var m := DocMeta("u", 1, 0, 5, 0, None, "", None, [], 0, false, None);
      var e := Entry(m, [], [], []);
      var pinning := e.(meta := m.(pinned := true));
      var (w, outcome) := Upserted(map[1 := e], 1, pinning);
      outcome == Unchanged && pinning.meta.pinned && !w[1].meta.pinned
  {}
}
