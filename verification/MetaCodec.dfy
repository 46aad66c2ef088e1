/** The DocMeta section: a count, then one record per document; files written before the
    freshness columns existed lack the last three fields. */
module MetaCodec {
  import opened Common
  import opened Documents
  import opened Bytes

  const UNKNOWN_KIND: nat := 255

  /** Kinds have stable one-byte tags; anything else reads as unknown. */
  predicate KnownKind(tag: nat) { tag <= 5 || tag == UNKNOWN_KIND }

  function FromTag(tag: nat): nat { if tag <= 5 then tag else UNKNOWN_KIND }

  // ---- what fits the fields ----

  predicate FitsIdentity(d: DocMeta) {
    && FitsText(d.url) && d.kind < 0x100 && d.contentHash < 0x1_0000_0000_0000_0000 && d.docLen < 0x1_0000_0000
  }

  predicate FitsDisplay(d: DocMeta) {
    && FitsOptional(d.title) && FitsText(d.snippet) && FitsOptional(d.lang)
    && |d.tags| < 0x1_0000_0000 && forall t :: t in d.tags ==> FitsText(t)
  }

  predicate FitsFreshness(d: DocMeta) {
    d.fetchedAtMs < 0x1_0000_0000_0000_0000 && FitsOptional(d.etag)
  }

  predicate FitsRaw(d: DocMeta) { FitsIdentity(d) && FitsDisplay(d) && FitsFreshness(d) }

  /** A record that survives the section: every number fits its field and the kind has a tag. */
  predicate FitsMeta(d: DocMeta) { FitsRaw(d) && KnownKind(d.kind) }

  // ---- the layout ----

  function PutTags(tags: seq<string>, tail: seq<Byte>): seq<Byte> {
    if tags == [] then tail else PutText(tags[0], PutTags(tags[1..], tail))
  }

  function PutIdentity(d: DocMeta, tail: seq<Byte>): seq<Byte> {
    PutText(d.url, PutInt(d.urlKey, 8, PutInt(d.kind, 1, PutInt(d.contentHash, 8, PutInt(d.docLen, 4, tail)))))
  }

  function PutDisplay(d: DocMeta, tail: seq<Byte>): seq<Byte> {
    PutOptional(d.title, PutText(d.snippet, PutOptional(d.lang, PutInt(|d.tags|, 4, PutTags(d.tags, tail)))))
  }

  function PutFreshness(d: DocMeta, tail: seq<Byte>): seq<Byte> {
    PutInt(d.fetchedAtMs, 8, PutInt(if d.pinned then 1 else 0, 1, PutOptional(d.etag, tail)))
  }

  function PutMeta(d: DocMeta, hasFreshness: bool, tail: seq<Byte>): seq<Byte> {
    PutIdentity(d, PutDisplay(d, if hasFreshness then PutFreshness(d, tail) else tail))
  }

  function PutAll(docs: seq<DocMeta>, hasFreshness: bool, tail: seq<Byte>): seq<Byte> {
    if docs == [] then tail else PutMeta(docs[0], hasFreshness, PutAll(docs[1..], hasFreshness, tail))
  }

  function Encoded(docs: seq<DocMeta>, hasFreshness: bool): seq<Byte> {
    PutInt(|docs|, 4, PutAll(docs, hasFreshness, []))
  }

  // ---- parsing ----

  datatype Identity = Identity(url: string, urlKey: UrlKey, kind: nat, contentHash: nat, docLen: nat)
  datatype Display = Display(title: Option<string>, snippet: string, lang: Option<string>, tags: seq<string>)
  datatype Freshness = Freshness(fetchedAtMs: nat, pinned: bool, etag: Option<string>)

  /** What files without freshness columns read as: always stale, not pinned. */
  const STALE := Freshness(0, false, None)

  function ParseIdentity(bs: seq<Byte>): Parsed<Identity> {
    var (url, b1) :- ParseText(bs);
    var (key, b2) :- ParseInt(b1, 8);
    var (kind, b3) :- ParseInt(b2, 1);
    var (hash, b4) :- ParseInt(b3, 8);
    var (docLen, b5) :- ParseInt(b4, 4);
    Parsed(Identity(url, KeyOf(key), kind, hash, docLen), b5)
  }

  function ParseTags(bs: seq<Byte>, n: nat): Parsed<seq<string>>
    decreases n
  {
    if n == 0 then Parsed([], bs)
    else
      var (tag, body) :- ParseText(bs);
      var (tags, rest) :- ParseTags(body, n - 1);
      Parsed([tag] + tags, rest)
  }

  function ParseDisplay(bs: seq<Byte>): Parsed<Display> {
    var (title, b1) :- ParseOptional(bs);
    var (snippet, b2) :- ParseText(b1);
    var (lang, b3) :- ParseOptional(b2);
    var (count, b4) :- ParseInt(b3, 4);
    var (tags, b5) :- ParseTags(b4, count);
    Parsed(Display(title, snippet, lang, tags), b5)
  }

  function ParseFreshness(bs: seq<Byte>): Parsed<Freshness> {
    var (at, b1) :- ParseInt(bs, 8);
    var (flag, b2) :- ParseInt(b1, 1);
    if flag > 1 then Malformed
    else
      var (etag, b3) :- ParseOptional(b2);
      Parsed(Freshness(at, flag == 1, etag), b3)
  }

  function MetaOf(i: Identity, s: Display, f: Freshness): DocMeta {
    DocMeta(i.url, i.urlKey, i.kind, i.contentHash, i.docLen, s.title, s.snippet, s.lang, s.tags,
            f.fetchedAtMs, f.pinned, f.etag)
  }

  /** One record, its kind byte as it stands. */
  function ParseMeta(bs: seq<Byte>, hasFreshness: bool): Parsed<DocMeta> {
    var (i, b1) :- ParseIdentity(bs);
    var (s, b2) :- ParseDisplay(b1);
    if hasFreshness then
      var (f, b3) :- ParseFreshness(b2);
      Parsed(MetaOf(i, s, f), b3)
    else Parsed(MetaOf(i, s, STALE), b2)
  }

  function ParseAll(bs: seq<Byte>, hasFreshness: bool, n: nat): Parsed<seq<DocMeta>>
    decreases n
  {
    if n == 0 then Parsed([], bs)
    else
      var (d, body) :- ParseMeta(bs, hasFreshness);
      var (docs, rest) :- ParseAll(body, hasFreshness, n - 1);
      Parsed([d] + docs, rest)
  }

  /** The records of a payload with their kind bytes as they stand. */
  function Records(bs: seq<Byte>, hasFreshness: bool): Option<seq<DocMeta>> {
    var count := ParseInt(bs, 4);
    if count.Malformed? then None
    else
      var p := ParseAll(count.rest, hasFreshness, count.value);
      if p.Malformed? || p.rest != [] then None else Some(p.value)
  }

  function WithKnownKind(d: DocMeta): DocMeta { d.(kind := FromTag(d.kind)) }

  function KnownKinds(docs: seq<DocMeta>): (r: seq<DocMeta>)
    ensures |r| == |docs|
  {
    seq(|docs|, i requires 0 <= i < |docs| => WithKnownKind(docs[i]))
  }

  function Decoded(bs: seq<Byte>, hasFreshness: bool): Option<seq<DocMeta>> {
    var r := Records(bs, hasFreshness);
    if r.None? then None else Some(KnownKinds(r.value))
  }

  function WithoutFreshness(d: DocMeta): DocMeta {
    d.(fetchedAtMs := 0, pinned := false, etag := None)
  }

  function Kept(d: DocMeta, hasFreshness: bool): DocMeta { if hasFreshness then d else WithoutFreshness(d) }

  // ---- the code ----

  /** Append one record field by field. */
  method EncodeMeta(buf: seq<Byte>, d: DocMeta) returns (r: seq<Byte>)
    ensures r == buf + PutMeta(d, true, [])
  {
    hide PutInt, PutText, PutOptional, PutTags;
    var identity := EncodeIdentity(d);
    var display := EncodeDisplay(d);
    var freshness := EncodeFreshness(d);
    r := buf + identity + display + freshness;
    IdentityTail(d, [], display + freshness);
    DisplayTail(d, [], freshness);
    hide PutIdentity, PutDisplay, PutFreshness;
    assert [] + freshness == freshness && [] + (display + freshness) == display + freshness;
    assert r == buf + (identity + (display + freshness));
  }

  method EncodeIdentity(d: DocMeta) returns (r: seq<Byte>)
    ensures r == PutIdentity(d, [])
  {
    r := PutText(d.url, []);
    var rest := Le(d.urlKey, 8) + Le(d.kind, 1) + Le(d.contentHash, 8) + Le(d.docLen, 4);
    TextTail(d.url, [], rest);
    hide PutText, Le;
    assert rest == PutInt(d.urlKey, 8, PutInt(d.kind, 1, PutInt(d.contentHash, 8, PutInt(d.docLen, 4, []))));
    assert [] + rest == rest;
    r := r + rest;
  }

  method EncodeDisplay(d: DocMeta) returns (r: seq<Byte>)
    ensures r == PutDisplay(d, [])
  {
    r := PutOptional(d.title, []) + PutText(d.snippet, []) + PutOptional(d.lang, []);
    DisplayParts(d);
    hide PutDisplay, PutInt, PutText, PutOptional, PutTags;
    r := EncodeTags(r, d.tags, PutDisplay(d, []));
  }

  lemma DisplayParts(d: DocMeta)
    ensures PutDisplay(d, []) == PutOptional(d.title, []) + PutText(d.snippet, []) + PutOptional(d.lang, [])
                                 + PutInt(|d.tags|, 4, PutTags(d.tags, []))
  {
    hide PutInt, PutText, PutOptional, PutTags;
    var t3 := PutInt(|d.tags|, 4, PutTags(d.tags, []));
    var t2 := PutOptional(d.lang, t3);
    var t1 := PutText(d.snippet, t2);
    OptionalTail(d.title, [], t1);
    TextTail(d.snippet, [], t2);
    OptionalTail(d.lang, [], t3);
    assert [] + t1 == t1 && [] + t2 == t2 && [] + t3 == t3;
    var title, snippet, lang := PutOptional(d.title, []), PutText(d.snippet, []), PutOptional(d.lang, []);
    assert title + (snippet + (lang + t3)) == title + snippet + lang + t3;
  }

  method EncodeTags(buf: seq<Byte>, tags: seq<string>, ghost whole: seq<Byte>) returns (r: seq<Byte>)
    requires whole == buf + PutInt(|tags|, 4, PutTags(tags, []))
    ensures r == whole
  {
    r := buf + Le(|tags|, 4);
    assert tags[0..] == tags;
    assert whole == r + PutTags(tags, []);
    for i := 0 to |tags|
      invariant whole == r + PutTags(tags[i..], [])
    {
      assert tags[i] in tags && tags[i..][1..] == tags[i + 1..];
      ghost var tail := PutTags(tags[i + 1..], []);
      TextTail(tags[i], [], tail);
      hide PutText;
      assert [] + tail == tail && whole == r + PutText(tags[i], []) + tail;
      r := r + PutText(tags[i], []);
    }
  }

  method EncodeFreshness(d: DocMeta) returns (r: seq<Byte>)
    ensures r == PutFreshness(d, [])
  {
    r := Le(d.fetchedAtMs, 8) + Le(if d.pinned then 1 else 0, 1) + PutOptional(d.etag, []);
    hide PutOptional, Le;
    assert r == PutInt(d.fetchedAtMs, 8, PutInt(if d.pinned then 1 else 0, 1, PutOptional(d.etag, [])));
  }

  lemma IdentityTail(d: DocMeta, tail: seq<Byte>, extra: seq<Byte>)
    ensures PutIdentity(d, tail) + extra == PutIdentity(d, tail + extra)
  {
    hide PutInt, PutText;
    var t4 := PutInt(d.docLen, 4, tail);
    var t3 := PutInt(d.contentHash, 8, t4);
    var t2 := PutInt(d.kind, 1, t3);
    var t1 := PutInt(d.urlKey, 8, t2);
    TextTail(d.url, t1, extra);
    IntTail(d.urlKey, 8, t2, extra);
    IntTail(d.kind, 1, t3, extra);
    IntTail(d.contentHash, 8, t4, extra);
    IntTail(d.docLen, 4, tail, extra);
  }

  lemma {:induction false} TagsTail(tags: seq<string>, tail: seq<Byte>, extra: seq<Byte>)
    ensures PutTags(tags, tail) + extra == PutTags(tags, tail + extra)
    decreases |tags|
  {
    hide PutText;
    if tags != [] {
      assert tags[0] in tags && forall t :: t in tags[1..] ==> t in tags;
      TagsTail(tags[1..], tail, extra);
      TextTail(tags[0], PutTags(tags[1..], tail), extra);
    }
  }

  lemma DisplayTail(d: DocMeta, tail: seq<Byte>, extra: seq<Byte>)
    ensures PutDisplay(d, tail) + extra == PutDisplay(d, tail + extra)
  {
    hide PutInt, PutText, PutOptional, PutTags;
    var t4 := PutTags(d.tags, tail);
    var t3 := PutInt(|d.tags|, 4, t4);
    var t2 := PutOptional(d.lang, t3);
    var t1 := PutText(d.snippet, t2);
    OptionalTail(d.title, t1, extra);
    TextTail(d.snippet, t2, extra);
    OptionalTail(d.lang, t3, extra);
    IntTail(|d.tags|, 4, t4, extra);
    TagsTail(d.tags, tail, extra);
  }

  lemma MetaTail(d: DocMeta, tail: seq<Byte>)
    ensures PutMeta(d, true, []) + tail == PutMeta(d, true, tail)
  {
    FreshnessTail(d, [], tail);
    assert [] + tail == tail;
    hide PutIdentity, PutDisplay, PutFreshness;
    DisplayTail(d, PutFreshness(d, []), tail);
    IdentityTail(d, PutDisplay(d, PutFreshness(d, [])), tail);
  }

  lemma FreshnessTail(d: DocMeta, tail: seq<Byte>, extra: seq<Byte>)
    ensures PutFreshness(d, tail) + extra == PutFreshness(d, tail + extra)
  {
    hide PutInt, PutOptional;
    var flag := if d.pinned then 1 else 0;
    OptionalTail(d.etag, tail, extra);
    IntTail(flag, 1, PutOptional(d.etag, tail), extra);
    IntTail(d.fetchedAtMs, 8, PutInt(flag, 1, PutOptional(d.etag, tail)), extra);
  }

  /** Encode all documents, always with the freshness columns. */
  method Encode(docs: seq<DocMeta>) returns (buf: seq<Byte>)
    ensures buf == Encoded(docs, true)
  {
    buf := Le(|docs|, 4);
    assert docs[0..] == docs;
    for i := 0 to |docs|
      invariant Encoded(docs, true) == buf + PutAll(docs[i..], true, [])
    {
      hide PutMeta, Encoded, PutAll;
      assert docs[i] in docs;
      ghost var before := buf;
      buf := EncodeMeta(buf, docs[i]);
      NextRecord(docs, i, before);
    }
  }

  lemma NextRecord(docs: seq<DocMeta>, i: nat, buf: seq<Byte>)
    requires i < |docs|
    ensures buf + PutAll(docs[i..], true, []) == buf + PutMeta(docs[i], true, []) + PutAll(docs[i + 1..], true, [])
  {
    assert docs[i] in docs && docs[i..][1..] == docs[i + 1..];
    var tail := PutAll(docs[i + 1..], true, []);
    MetaTail(docs[i], tail);
    hide PutMeta;
    assert PutAll(docs[i..], true, []) == PutMeta(docs[i], true, tail);
    assert buf + PutMeta(docs[i], true, []) + tail == buf + (PutMeta(docs[i], true, []) + tail);
  }

  method DecodeTags(reader: Reader, n: nat) returns (r: Option<seq<string>>)
    modifies reader
    ensures var p := ParseTags(old(reader.rest), n);
      if p.Parsed? then r == Some(p.value) && reader.rest == p.rest else r == None
  {
    var tags: seq<string> := [];
    ghost var whole := ParseTags(reader.rest, n);
    BehindNothing(whole);
    for i := 0 to n
      invariant whole == Behind(tags, ParseTags(reader.rest, n - i))
    {
      hide ParseText;
      var tag := reader.ReadText();
      if tag.None? {
        return None;
      }
      BehindNext(tags, tag.value, ParseTags(reader.rest, n - i - 1));
      tags := tags + [tag.value];
    }
    assert tags + [] == tags;
    r := Some(tags);
  }

  method DecodeIdentity(reader: Reader) returns (r: Option<Identity>)
    modifies reader
    ensures var p := ParseIdentity(old(reader.rest));
      if p.Parsed? then r == Some(p.value) && reader.rest == p.rest else r == None
  {
    hide ParseText, ParseInt;
    var url := reader.ReadText();
    if url.None? { return None; }
    var key := reader.ReadInt(8);
    if key.None? { return None; }
    var kind := reader.ReadInt(1);
    if kind.None? { return None; }
    var contentHash := reader.ReadInt(8);
    if contentHash.None? { return None; }
    var docLen := reader.ReadInt(4);
    if docLen.None? { return None; }
    r := Some(Identity(url.value, KeyOf(key.value), kind.value, contentHash.value, docLen.value));
  }

  method DecodeDisplay(reader: Reader) returns (r: Option<Display>)
    modifies reader
    ensures var p := ParseDisplay(old(reader.rest));
      if p.Parsed? then r == Some(p.value) && reader.rest == p.rest else r == None
  {
    hide ParseText, ParseInt, ParseOptional, ParseTags;
    var title := reader.ReadOptional();
    if title.None? { return None; }
    var snippet := reader.ReadText();
    if snippet.None? { return None; }
    var lang := reader.ReadOptional();
    if lang.None? { return None; }
    var tagCount := reader.ReadInt(4);
    if tagCount.None? { return None; }
    var tags := DecodeTags(reader, tagCount.value);
    if tags.None? { return None; }
    r := Some(Display(title.value, snippet.value, lang.value, tags.value));
  }

  method DecodeFreshness(reader: Reader) returns (r: Option<Freshness>)
    modifies reader
    ensures var p := ParseFreshness(old(reader.rest));
      if p.Parsed? then r == Some(p.value) && reader.rest == p.rest else r == None
  {
    hide ParseInt, ParseOptional;
    var fetchedAtMs := reader.ReadInt(8);
    if fetchedAtMs.None? { return None; }
    var flag := reader.ReadInt(1);
    if flag.None? || flag.value > 1 { return None; }
    var etag := reader.ReadOptional();
    if etag.None? { return None; }
    r := Some(Freshness(fetchedAtMs.value, flag.value == 1, etag.value));
  }

  method DecodeMeta(reader: Reader, hasFreshness: bool) returns (r: Option<DocMeta>)
    modifies reader
    ensures var p := ParseMeta(old(reader.rest), hasFreshness);
      if p.Parsed? then r == Some(WithKnownKind(p.value)) && reader.rest == p.rest else r == None
  {
    hide ParseIdentity, ParseDisplay, ParseFreshness;
    var identity := DecodeIdentity(reader);
    if identity.None? { return None; }
    var display := DecodeDisplay(reader);
    if display.None? { return None; }
    var freshness := STALE;
    if hasFreshness {
      var columns := DecodeFreshness(reader);
      if columns.None? { return None; }
      freshness := columns.value;
    }
    r := Some(MetaOf(identity.value.(kind := FromTag(identity.value.kind)), display.value, freshness));
  }

  method Decode(bytes: seq<Byte>, hasFreshness: bool) returns (r: Option<seq<DocMeta>>)
    ensures r == Decoded(bytes, hasFreshness)
  {
    var reader := new Reader(bytes);
    hide ParseInt, ParseMeta;
    var count := reader.ReadInt(4);
    if count.None? { return None; }
    var n := count.value;
    var docs: seq<DocMeta> := [];
    ghost var records: seq<DocMeta> := [];
    ghost var whole := ParseAll(reader.rest, hasFreshness, n);
    BehindNothing(whole);
    for i := 0 to n
      invariant docs == KnownKinds(records)
      invariant whole == Behind(records, ParseAll(reader.rest, hasFreshness, n - i))
    {
      ghost var next := ParseMeta(reader.rest, hasFreshness);
      var d := DecodeMeta(reader, hasFreshness);
      if d.None? { return None; }
      BehindNext(records, next.value, ParseAll(reader.rest, hasFreshness, n - i - 1));
      assert KnownKinds(records + [next.value]) == KnownKinds(records) + [WithKnownKind(next.value)];
      records := records + [next.value];
      docs := docs + [d.value];
    }
    assert records + [] == records;
    if reader.rest != [] {
      return None;
    }
    r := Some(docs);
  }

  // ---- reading back what was written ----

  lemma ReadIdentity(d: DocMeta, tail: seq<Byte>)
    requires FitsIdentity(d)
    ensures ParseIdentity(PutIdentity(d, tail))
         == Parsed(Identity(d.url, d.urlKey, d.kind, d.contentHash, d.docLen), tail)
  {
    Widths();
    assert KeyOf(d.urlKey) == d.urlKey;
    hide PutInt, ParseInt, PutText, ParseText, Span, FitsText, ByteText, KeyOf;
    var t4 := PutInt(d.docLen, 4, tail);
    var t3 := PutInt(d.contentHash, 8, t4);
    var t2 := PutInt(d.kind, 1, t3);
    var t1 := PutInt(d.urlKey, 8, t2);
    ParsePutText(d.url, t1);
    ParsePutInt(d.urlKey, 8, t2);
    ParsePutInt(d.kind, 1, t3);
    ParsePutInt(d.contentHash, 8, t4);
    ParsePutInt(d.docLen, 4, tail);
  }

  lemma {:induction false} ReadTags(tags: seq<string>, tail: seq<Byte>)
    requires forall t :: t in tags ==> FitsText(t)
    ensures ParseTags(PutTags(tags, tail), |tags|) == Parsed(tags, tail)
    decreases |tags|
  {
    if tags != [] {
      var tag, others := tags[0], tags[1..];
      assert tag in tags && tags == [tag] + others && forall t :: t in others ==> t in tags;
      ReadTags(others, tail);
      ParsePutText(tag, PutTags(others, tail));
      hide PutText, ParseText, FitsText, ByteText;
    }
  }

  lemma ReadDisplay(d: DocMeta, tail: seq<Byte>)
    requires FitsDisplay(d)
    ensures ParseDisplay(PutDisplay(d, tail)) == Parsed(Display(d.title, d.snippet, d.lang, d.tags), tail)
  {
    Widths();
    var t4 := PutTags(d.tags, tail);
    var t3 := PutInt(|d.tags|, 4, t4);
    var t2 := PutOptional(d.lang, t3);
    var t1 := PutText(d.snippet, t2);
    hide PutInt, ParseInt, PutText, ParseText, PutOptional, ParseOptional, PutTags, ParseTags, Span,
      FitsText, FitsOptional;
    ParsePutOptional(d.title, t1);
    ParsePutText(d.snippet, t2);
    ParsePutOptional(d.lang, t3);
    ParsePutInt(|d.tags|, 4, t4);
    ReadTags(d.tags, tail);
  }

  lemma ReadFreshness(d: DocMeta, tail: seq<Byte>)
    requires FitsFreshness(d)
    ensures ParseFreshness(PutFreshness(d, tail)) == Parsed(Freshness(d.fetchedAtMs, d.pinned, d.etag), tail)
  {
    Widths();
    var t2 := PutOptional(d.etag, tail);
    var flag := if d.pinned then 1 else 0;
    var t1 := PutInt(flag, 1, t2);
    hide PutInt, ParseInt, PutOptional, ParseOptional, Span, FitsOptional;
    ParsePutInt(d.fetchedAtMs, 8, t1);
    ParsePutInt(flag, 1, t2);
    ParsePutOptional(d.etag, tail);
  }

  lemma ReadMeta(d: DocMeta, hasFreshness: bool, tail: seq<Byte>)
    requires FitsRaw(d)
    ensures ParseMeta(PutMeta(d, hasFreshness, tail), hasFreshness) == Parsed(Kept(d, hasFreshness), tail)
  {
    var t2 := if hasFreshness then PutFreshness(d, tail) else tail;
    var t1 := PutDisplay(d, t2);
    ReadIdentity(d, t1);
    ReadDisplay(d, t2);
    if hasFreshness {
      ReadFreshness(d, tail);
    }
    hide PutIdentity, ParseIdentity, PutDisplay, ParseDisplay, PutFreshness, ParseFreshness;
  }

  function AllKept(docs: seq<DocMeta>, hasFreshness: bool): (r: seq<DocMeta>)
    ensures |r| == |docs|
  {
    seq(|docs|, i requires 0 <= i < |docs| => Kept(docs[i], hasFreshness))
  }

  lemma {:induction false} ReadAll(docs: seq<DocMeta>, hasFreshness: bool, tail: seq<Byte>)
    requires forall d :: d in docs ==> FitsRaw(d)
    ensures ParseAll(PutAll(docs, hasFreshness, tail), hasFreshness, |docs|)
         == Parsed(AllKept(docs, hasFreshness), tail)
    decreases |docs|
  {
    hide PutMeta, ParseMeta, FitsRaw, Kept;
    if docs != [] {
      assert docs[0] in docs && forall d :: d in docs[1..] ==> d in docs;
      ReadAll(docs[1..], hasFreshness, tail);
      ReadMeta(docs[0], hasFreshness, PutAll(docs[1..], hasFreshness, tail));
      assert AllKept(docs, hasFreshness) == [Kept(docs[0], hasFreshness)] + AllKept(docs[1..], hasFreshness);
    }
  }

  lemma ReadRecords(docs: seq<DocMeta>, hasFreshness: bool)
    requires |docs| < 0x1_0000_0000 && forall d :: d in docs ==> FitsRaw(d)
    ensures Records(Encoded(docs, hasFreshness), hasFreshness) == Some(AllKept(docs, hasFreshness))
  {
    Widths();
    ReadAll(docs, hasFreshness, []);
    ParsePutInt(|docs|, 4, PutAll(docs, hasFreshness, []));
    hide PutInt, ParseInt, PutAll, ParseAll, Span;
  }

  // ---- writing back what was read ----

  lemma WriteIdentity(bs: seq<Byte>, d: DocMeta)
    requires ParseIdentity(bs).Parsed?
    requires ParseIdentity(bs).value == Identity(d.url, d.urlKey, d.kind, d.contentHash, d.docLen)
    ensures FitsIdentity(d) && PutIdentity(d, ParseIdentity(bs).rest) == bs
  {
    hide PutInt, ParseInt, PutText, ParseText, Span, FitsText;
    Widths();
    var p1 := ParseText(bs);
    var p2 := ParseInt(p1.rest, 8);
    var p3 := ParseInt(p2.rest, 1);
    var p4 := ParseInt(p3.rest, 8);
    PutParsedText(bs);
    PutParsedInt(p1.rest, 8);
    assert KeyOf(p2.value) == p2.value;
    PutParsedInt(p2.rest, 1);
    PutParsedInt(p3.rest, 8);
    PutParsedInt(p4.rest, 4);
  }

  lemma {:induction false} WriteTags(bs: seq<Byte>, n: nat)
    requires ParseTags(bs, n).Parsed?
    ensures var p := ParseTags(bs, n);
      |p.value| == n && (forall t :: t in p.value ==> FitsText(t)) && PutTags(p.value, p.rest) == bs
    decreases n
  {
    if n > 0 {
      PutParsedText(bs);
      var p := ParseText(bs);
      hide PutText, ParseText, ByteText;
      WriteTags(p.rest, n - 1);
      var q := ParseTags(p.rest, n - 1);
      var tags := [p.value] + q.value;
      assert tags[1..] == q.value;
      assert forall t :: t in tags ==> FitsText(t);
    }
  }

  lemma WriteDisplay(bs: seq<Byte>, d: DocMeta)
    requires ParseDisplay(bs).Parsed?
    requires ParseDisplay(bs).value == Display(d.title, d.snippet, d.lang, d.tags)
    ensures FitsDisplay(d) && PutDisplay(d, ParseDisplay(bs).rest) == bs
  {
    Widths();
    var p1 := ParseOptional(bs);
    var p2 := ParseText(p1.rest);
    var p3 := ParseOptional(p2.rest);
    var p4 := ParseInt(p3.rest, 4);
    hide PutInt, ParseInt, PutText, ParseText, PutOptional, ParseOptional, PutTags, ParseTags, Span,
      FitsText, FitsOptional;
    PutParsedOptional(bs);
    PutParsedText(p1.rest);
    PutParsedOptional(p2.rest);
    PutParsedInt(p3.rest, 4);
    WriteTags(p4.rest, p4.value);
  }

  lemma WriteFreshness(bs: seq<Byte>, d: DocMeta)
    requires ParseFreshness(bs).Parsed?
    requires ParseFreshness(bs).value == Freshness(d.fetchedAtMs, d.pinned, d.etag)
    ensures FitsFreshness(d) && PutFreshness(d, ParseFreshness(bs).rest) == bs
  {
    Widths();
    var p1 := ParseInt(bs, 8);
    var p2 := ParseInt(p1.rest, 1);
    PutParsedInt(bs, 8);
    PutParsedInt(p1.rest, 1);
    PutParsedOptional(p2.rest);
    assert p2.value == if d.pinned then 1 else 0;
    hide PutInt, ParseInt, PutOptional, ParseOptional, Span, FitsOptional;
  }

  lemma WriteMeta(bs: seq<Byte>, hasFreshness: bool)
    requires ParseMeta(bs, hasFreshness).Parsed?
    ensures var p := ParseMeta(bs, hasFreshness);
      FitsRaw(p.value) && PutMeta(p.value, hasFreshness, p.rest) == bs
  {
    var d := ParseMeta(bs, hasFreshness).value;
    var p1 := ParseIdentity(bs);
    var p2 := ParseDisplay(p1.rest);
    hide PutIdentity, ParseIdentity, PutDisplay, ParseDisplay, PutFreshness, ParseFreshness;
    WriteIdentity(bs, d);
    WriteDisplay(p1.rest, d);
    if hasFreshness {
      WriteFreshness(p2.rest, d);
    }
  }

  lemma {:induction false} WriteAll(bs: seq<Byte>, hasFreshness: bool, n: nat)
    requires ParseAll(bs, hasFreshness, n).Parsed?
    ensures var p := ParseAll(bs, hasFreshness, n);
      && |p.value| == n && (forall d :: d in p.value ==> FitsRaw(d))
      && PutAll(p.value, hasFreshness, p.rest) == bs
    decreases n
  {
    hide PutMeta, ParseMeta, FitsRaw;
    if n > 0 {
      WriteMeta(bs, hasFreshness);
      var p := ParseMeta(bs, hasFreshness);
      WriteAll(p.rest, hasFreshness, n - 1);
      var q := ParseAll(p.rest, hasFreshness, n - 1);
      assert ([p.value] + q.value)[1..] == q.value;
    }
  }

  lemma WriteRecords(bs: seq<Byte>, hasFreshness: bool)
    requires Records(bs, hasFreshness).Some?
    ensures var docs := Records(bs, hasFreshness).value;
      && |docs| < 0x1_0000_0000 && (forall d :: d in docs ==> FitsRaw(d))
      && Encoded(docs, hasFreshness) == bs
  {
    Widths();
    PutParsedInt(bs, 4);
    WriteAll(ParseInt(bs, 4).rest, hasFreshness, ParseInt(bs, 4).value);
    hide PutInt, ParseInt, PutAll, ParseAll, Span;
  }

  // ---- the round trips ----

  lemma KindsKnown(docs: seq<DocMeta>)
    ensures KnownKinds(docs) == docs <==> forall d :: d in docs ==> KnownKind(d.kind)
  {
    if KnownKinds(docs) == docs {
      forall d | d in docs ensures KnownKind(d.kind) {
        var i :| 0 <= i < |docs| && docs[i] == d;
        assert KnownKinds(docs)[i] == WithKnownKind(docs[i]);
      }
    } else {
      var i :| 0 <= i < |docs| && KnownKinds(docs)[i] != docs[i];
      assert docs[i] in docs;
    }
  }

  lemma KeptKinds(docs: seq<DocMeta>, hasFreshness: bool)
    requires forall d :: d in docs ==> KnownKind(d.kind)
    ensures KnownKinds(AllKept(docs, hasFreshness)) == AllKept(docs, hasFreshness)
  {
    var kept := AllKept(docs, hasFreshness);
    forall d | d in kept ensures KnownKind(d.kind) {
      var i :| 0 <= i < |kept| && Kept(docs[i], hasFreshness) == d;
      assert docs[i] in docs;
    }
    KindsKnown(kept);
  }

  predicate FitsSection(docs: seq<DocMeta>) {
    |docs| < 0x1_0000_0000 && forall d :: d in docs ==> FitsMeta(d)
  }

  lemma KeptAll(docs: seq<DocMeta>)
    ensures AllKept(docs, true) == docs
  {}

  /** Decoding gives back exactly what was encoded, provided every count, length and number fits
      its field and every kind has a tag; when one does not, it never does. */
  lemma DecodeEncodedIff(docs: seq<DocMeta>)
    ensures Decoded(Encoded(docs, true), true) == Some(docs) <==> FitsSection(docs)
  {
    hide Records, Encoded, FitsRaw, KnownKinds, AllKept;
    if FitsSection(docs) {
      ReadRecords(docs, true);
      KeptAll(docs);
      KindsKnown(docs);
    }
    if Decoded(Encoded(docs, true), true) == Some(docs) {
      WriteRecords(Encoded(docs, true), true);
      DecodedKinds(Records(Encoded(docs, true), true).value);
    }
  }

  lemma DecodedKinds(records: seq<DocMeta>)
    requires forall d :: d in records ==> FitsRaw(d)
    ensures forall d :: d in KnownKinds(records) ==> FitsMeta(d)
  {
    forall d | d in KnownKinds(records) ensures FitsMeta(d) {
      var i :| 0 <= i < |records| && WithKnownKind(records[i]) == d;
      assert records[i] in records;
    }
  }

  /** A file written without the freshness columns decodes to the same records, stale, unpinned
      and without an entity tag. */
  lemma LegacyRoundTrip(docs: seq<DocMeta>)
    requires FitsSection(docs)
    ensures Decoded(Encoded(docs, false), false) == Some(AllKept(docs, false))
  {
    ReadRecords(docs, false);
    KeptKinds(docs, false);
    hide Records, Encoded, FitsRaw, KnownKinds, AllKept;
  }

  lemma IdentitySize(d: DocMeta, tail: seq<Byte>)
    ensures |PutIdentity(d, tail)| == |d.url| + 25 + |tail|
  {}

  lemma DisplaySize(d: DocMeta, tail: seq<Byte>)
    ensures |PutDisplay(d, tail)| == |PutDisplay(d, [])| + |tail|
  {
    DisplayTail(d, [], tail);
    hide PutDisplay;
    assert [] + tail == tail;
  }

  /** The freshness columns take at least ten bytes a record. */
  lemma {:induction false} FreshnessGrows(docs: seq<DocMeta>)
    ensures |PutAll(KnownKinds(docs), true, [])| >= |PutAll(docs, false, [])| + 10 * |docs|
    decreases |docs|
  {
    if docs != [] {
      FreshnessGrows(docs[1..]);
      var d, e := docs[0], WithKnownKind(docs[0]);
      var legacy, current := PutAll(docs[1..], false, []), PutAll(KnownKinds(docs[1..]), true, []);
      assert KnownKinds(docs) == [e] + KnownKinds(docs[1..]);
      assert |PutFreshness(e, current)| >= 10 + |current|;
      assert PutDisplay(d, []) == PutDisplay(e, []);
      hide PutDisplay, PutIdentity, PutFreshness, FromTag;
      IdentitySize(d, PutDisplay(d, legacy));
      DisplaySize(d, legacy);
      IdentitySize(e, PutDisplay(e, PutFreshness(e, current)));
      DisplaySize(e, PutFreshness(e, current));
    }
  }

  /** Re-encoding an accepted payload gives back its bytes exactly when every kind byte is a
      known tag and, for a file without the freshness columns, there is no record at all. */
  lemma EncodeDecodedIff(bs: seq<Byte>, hasFreshness: bool)
    requires Decoded(bs, hasFreshness).Some?
    ensures Records(bs, hasFreshness).Some?
    ensures Encoded(Decoded(bs, hasFreshness).value, true) == bs <==>
      if hasFreshness then forall d :: d in Records(bs, hasFreshness).value ==> KnownKind(d.kind)
      else Records(bs, hasFreshness).value == []
  {
    var records, docs := Records(bs, hasFreshness).value, Decoded(bs, hasFreshness).value;
    WriteRecords(bs, hasFreshness);
    if hasFreshness {
      KindsKnown(records);
      DecodedKinds(records);
      hide Records, Encoded, FitsRaw, KnownKinds, AllKept;
      ReadRecords(docs, true);
      KeptAll(docs);
    } else {
      FreshnessGrows(records);
      hide Records, FitsRaw, KnownKinds, PutAll, Le;
      if records == [] {
        EmptyAll(docs);
        EmptyAll(records);
      }
    }
  }

  lemma EmptyAll(docs: seq<DocMeta>)
    ensures docs == [] ==> PutAll(docs, true, []) == PutAll(docs, false, []) == []
  {}

  /** A record of a kind this version does not know. */
  const FOREIGN := DocMeta("", 0, 6, 0, 0, None, "", None, [], 0, false, None)

  /** Its payload is accepted and comes out changed: the kind byte is lost. */
  lemma UnknownKindIsRewritten()
    ensures var bs := Encoded([FOREIGN], true);
      && Decoded(bs, true) == Some([FOREIGN.(kind := UNKNOWN_KIND)])
      && Encoded(Decoded(bs, true).value, true) != bs
  {
    var bs := Encoded([FOREIGN], true);
    ReadRecords([FOREIGN], true);
    KeptAll([FOREIGN]);
    assert KnownKinds([FOREIGN]) == [FOREIGN.(kind := UNKNOWN_KIND)];
    hide Records, Encoded, KnownKinds, AllKept;
    EncodeDecodedIff(bs, true);
    assert FOREIGN in Records(bs, true).value && !KnownKind(FOREIGN.kind);
  }
}
