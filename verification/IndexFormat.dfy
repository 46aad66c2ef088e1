/** The index file: header words and sections. The container around them (magic, version,
    directory, checksums, padding) is not modelled. */
module IndexFormat {
  import opened Common
  import opened Bytes
  import opened Platform

  /** A flag word, as the set of its bits. */
  type Flags = set<nat>

  /** Bits of the header's flags. */
  const VECTORS_NORMALIZED: nat := 0
  const META_FRESHNESS: nat := 1
  const LINK_GRAPH: nat := 2

  /** The only section flag: the payload is compressed. */
  const ZSTD: nat := 0

  /** Section kinds; others are ignored on read. */
  const DOC_META: nat := 3
  const DENSE: nat := 5
  const BM25: nat := 6
  const EDGES: nat := 7

  datatype Header = Header(
    flags: Flags,
    dim: Word,
    docCount: Word,
    metricTag: Word,
    embedderId: nat,
    k1Bits: Word,
    bBits: Word,
    avgdlBits: Word)

  datatype Section = Section(flags: Flags, raw: seq<Byte>)

  datatype FileImage = FileImage(header: Header, sections: map<nat, Section>)

  datatype FormatError =
    | SizeOverflow | MissingDense | DenseSize
    | MissingMeta | BadMeta | MetaCount
    | MissingBm25 | BadBm25
    | MissingEdges | BadEdges | EdgeCount
    | BadPayload

  function MetricTag(m: Metric): Word {
    match m
    case Cosine => 0
    case Dot => 1
    case L2 => 2
  }

  /** Unknown tags fall back to cosine. */
  function MetricOf(tag: Word): Metric {
    if tag == 1 then Dot else if tag == 2 then L2 else Cosine
  }

  lemma MetricBack(m: Metric)
    ensures MetricOf(MetricTag(m)) == m
  {}

  /** Only the three tags in use are written back as they were. */
  lemma TagBackIff(tag: Word)
    ensures MetricTag(MetricOf(tag)) == tag <==> tag <= 2
  {}

  /** The vectors are normalised at build time. */
  predicate Normalizes(m: Metric) { m.Cosine? }

  // ---- sections ----

  const MAX_DECOMPRESSED: nat := 0x2000_0000
  const MAX_ZSTD_RATIO: nat := 1024

  /** How many bytes a compressed payload may claim to expand to. */
  function Bound(compressedLen: nat): nat {
    if compressedLen * MAX_ZSTD_RATIO < MAX_DECOMPRESSED then compressedLen * MAX_ZSTD_RATIO else MAX_DECOMPRESSED
  }

  /** A section's bytes, expanded when they are compressed: eight bytes of length, then the payload. */
  function Payload(libs: Libraries, s: Section): Option<seq<Byte>> {
    if ZSTD !in s.flags then Some(s.raw)
    else if |s.raw| < 8 || FromLe(s.raw[..8]) > Bound(|s.raw| - 8) then None
    else
      var data := libs.decompress(s.raw[8..]);
      if data.None? || |data.value| > FromLe(s.raw[..8]) then None else data
  }

  /** A section's payload: absent, or present and readable, or an error. */
  function PayloadOf(libs: Libraries, image: FileImage, kind: nat): Result<Option<seq<Byte>>, FormatError> {
    if kind !in image.sections then Ok(None)
    else
      var data := Payload(libs, image.sections[kind]);
      if data.None? then Err(BadPayload) else Ok(data)
  }

  /** `data` as a compressed section. */
  function Compressed(libs: Libraries, data: seq<Byte>): Section {
    Section({ZSTD}, Le(|data|, 8) + libs.compress(data))
  }

  function Plainly(data: seq<Byte>): Section { Section({}, data) }

  /** A reader will expand the compressed payload. */
  predicate Expands(libs: Libraries, data: seq<Byte>) { |data| <= Bound(|libs.compress(data)|) }

  lemma CompressedParts(libs: Libraries, data: seq<Byte>)
    ensures var s := Compressed(libs, data);
      |s.raw| >= 8 && s.raw[..8] == Le(|data|, 8) && s.raw[8..] == libs.compress(data)
  {}

  lemma WrittenLength(n: nat)
    ensures FromLe(Le(n, 8)) == n <==> n < 0x1_0000_0000_0000_0000
    ensures FromLe(Le(n, 8)) < 0x1_0000_0000_0000_0000
  {
    Widths();
    FromLeBound(Le(n, 8));
    if n < Span(8) {
      ReadWritten(n, 8);
    }
  }

  /** A compressed section reads back if it is at most 512 MiB and at most 1024 times its
      compressed size, and is refused otherwise. */
  lemma CompressedReadsBack(libs: Libraries, data: seq<Byte>)
    requires LibrariesOk(libs)
    ensures Payload(libs, Compressed(libs, data)) == if Expands(libs, data) then Some(data) else None
  {
    CompressedParts(libs, data);
    PayloadBack(libs, data);
    WrittenLength(|data|);
    hide LibrariesOk, Compressed, Le, FromLe;
  }

  /** Left uncompressed a payload is read as well, from another section. */
  lemma PlainPayload(libs: Libraries, data: seq<Byte>)
    ensures Payload(libs, Plainly(data)) == Some(data) && Plainly(data) != Compressed(libs, data)
  {
    hide Le;
    assert Plainly(data).flags != Compressed(libs, data).flags;
  }

  lemma SmallExpands(libs: Libraries, data: seq<Byte>)
    requires LibrariesOk(libs) && |data| <= MAX_ZSTD_RATIO
    ensures Expands(libs, data)
  {
    PayloadBack(libs, data);
  }

  /** Compressed as this version does it: no other flag, the true length, the library's own output. */
  predicate OwnCompression(libs: Libraries, s: Section) {
    var data := Payload(libs, s);
    s.flags == {ZSTD} && data.Some? && s.raw == Le(|data.value|, 8) + libs.compress(data.value)
  }

  /** A section is what this version makes of its payload exactly when its compression is. */
  lemma OwnCompressionIff(libs: Libraries, s: Section, data: seq<Byte>)
    requires LibrariesOk(libs) && Payload(libs, s).Some?
    ensures Compressed(libs, data) == s <==> OwnCompression(libs, s) && Payload(libs, s) == Some(data)
  {
    CompressedReadsBack(libs, data);
    hide LibrariesOk, Payload, Expands, Le;
  }

  /** Sections added one by one; an empty one is left out. */
  function Add(sections: map<nat, Section>, kind: nat, s: Section): map<nat, Section> {
    if s.raw == [] then sections else sections[kind := s]
  }
}
