/** The persisted image of an index: header and sections, what parses, and what a parsed image
    gives back to a builder. */
module Images {
  import opened Common
  import opened Lexical
  import opened Documents
  import opened Builder
  import opened Sparse
  import opened Rebuild
  import opened Platform
  import opened IndexFormat
  import Bm25Codec
  import MetaCodec
  import EdgeCodec

  const U32: nat := 0x1_0000_0000
  const USIZE: nat := 0x1_0000_0000_0000_0000
  const F32_BYTES: nat := 4

  /** Everything an image decodes to. */
  datatype ImageParts = ImageParts(
    dim: nat,
    metric: Metric,
    embedderId: nat,
    meta: seq<DocMeta>,
    dense: seq<real>,
    bm25: Bm25,
    edges: EdgeCodec.EdgeLists)

  function NoEdges(n: nat): EdgeCodec.EdgeLists { seq(n, _ => []) }

  /** The vector block is taken as it lies in the file, whatever the section's flags. */
  function ParseDense(libs: Libraries, image: FileImage, expected: nat): Result<seq<real>, FormatError> {
    if DENSE !in image.sections then if expected == 0 then Ok([]) else Err(MissingDense)
    else if |image.sections[DENSE].raw| != expected * F32_BYTES then Err(DenseSize)
    else Ok(FloatsIn(libs, image.sections[DENSE].raw))
  }

  function ParseMetaSection(libs: Libraries, image: FileImage): Result<seq<DocMeta>, FormatError> {
    var section := PayloadOf(libs, image, DOC_META);
    if section.Err? then Err(section.error)
    else if section.value.None? then Err(MissingMeta)
    else
      var meta := MetaCodec.Decoded(section.value.value, META_FRESHNESS in image.header.flags);
      if meta.None? then Err(BadMeta)
      else if |meta.value| != image.header.docCount then Err(MetaCount)
      else Ok(meta.value)
  }

  function ParseBm25Section(libs: Libraries, image: FileImage): Result<Bm25, FormatError> {
    var section := PayloadOf(libs, image, BM25);
    if section.Err? then Err(section.error)
    else if section.value.None? then Err(MissingBm25)
    else
      var m := Bm25Codec.Decoded(libs, section.value.value);
      if m.None? then Err(BadBm25) else Ok(m.value)
  }

  /** The link graph is optional: without its flag every document has no edges. */
  function ParseEdgeSection(libs: Libraries, image: FileImage): Result<EdgeCodec.EdgeLists, FormatError> {
    if LINK_GRAPH !in image.header.flags then Ok(NoEdges(image.header.docCount))
    else
      var section := PayloadOf(libs, image, EDGES);
      if section.Err? then Err(section.error)
      else if section.value.None? then Err(MissingEdges)
      else
        var edges := EdgeCodec.Decoded(section.value.value);
        if edges.None? then Err(BadEdges)
        else if |edges.value| != image.header.docCount then Err(EdgeCount)
        else Ok(edges.value)
  }

  /** Validate an image and decode it. */
  function ParseImage(libs: Libraries, image: FileImage): Result<ImageParts, FormatError> {
    var h := image.header;
    var expected := Cells(h.docCount, h.dim);
    if expected * F32_BYTES >= USIZE then Err(SizeOverflow)
    else
      var dense := ParseDense(libs, image, expected);
      if dense.Err? then Err(dense.error)
      else
        var meta := ParseMetaSection(libs, image);
        if meta.Err? then Err(meta.error)
        else
          var bm25 := ParseBm25Section(libs, image);
          if bm25.Err? then Err(bm25.error)
          else
            var edges := ParseEdgeSection(libs, image);
            if edges.Err? then Err(edges.error)
            else Ok(ImageParts(h.dim, MetricOf(h.metricTag), h.embedderId, meta.value, dense.value, bm25.value,
                               edges.value))
  }

  /** A cast to 32 bits. */
  function AsU32(n: nat): Word { n % U32 }

  lemma NarrowFits(n: nat)
    ensures AsU32(n) == n <==> n < U32
  {}

  predicate HasEdges(edges: EdgeCodec.EdgeLists) { exists l :: l in edges && l != [] }

  /** The flag word written for an index. */
  function WrittenFlags(metric: Metric, hasEdges: bool): Flags {
    {META_FRESHNESS} + (if Normalizes(metric) then {VECTORS_NORMALIZED} else {})
    + (if hasEdges then {LINK_GRAPH} else {})
  }

  function WrittenHeader(libs: Libraries, x: ImageParts): Header {
    Header(WrittenFlags(x.metric, HasEdges(x.edges)), AsU32(x.dim), AsU32(|x.meta|), MetricTag(x.metric),
           x.embedderId, libs.bits(x.bm25.k1), libs.bits(x.bm25.b), libs.bits(x.bm25.avgdl))
  }

  function WrittenSections(libs: Libraries, x: ImageParts): map<nat, Section> {
    var s1 := Add(map[], DOC_META, Compressed(libs, MetaCodec.Encoded(x.meta, true)));
    var s2 := Add(s1, DENSE, Plainly(PutFloats(libs, x.dense)));
    var s3 := Add(s2, BM25, Plainly(Bm25Codec.Encoded(libs, x.bm25)));
    if HasEdges(x.edges) then Add(s3, EDGES, Compressed(libs, EdgeCodec.Encoded(x.edges))) else s3
  }

  /** The image of an index: an empty vector block and an edge section without edges are left out. */
  function SerializeSections(libs: Libraries, x: ImageParts): FileImage {
    FileImage(WrittenHeader(libs, x), WrittenSections(libs, x))
  }

  /** Which sections are written, and what is in them. */
  lemma SectionsWritten(libs: Libraries, x: ImageParts)
    ensures var s := WrittenSections(libs, x);
      && s.Keys == {DOC_META, BM25} + (if x.dense != [] then {DENSE} else {})
                   + (if HasEdges(x.edges) then {EDGES} else {})
      && s[DOC_META] == Compressed(libs, MetaCodec.Encoded(x.meta, true))
      && s[BM25] == Plainly(Bm25Codec.Encoded(libs, x.bm25))
      && (x.dense != [] ==> s[DENSE] == Plainly(PutFloats(libs, x.dense)))
      && (HasEdges(x.edges) ==> s[EDGES] == Compressed(libs, EdgeCodec.Encoded(x.edges)))
  {
    CompressedParts(libs, MetaCodec.Encoded(x.meta, true));
    CompressedParts(libs, EdgeCodec.Encoded(x.edges));
    TermSectionFilled(libs, x.bm25);
    hide Compressed, MetaCodec.Encoded, EdgeCodec.Encoded, Bm25Codec.Encoded, HasEdges;
  }

  lemma TermSectionFilled(libs: Libraries, m: Bm25)
    ensures Bm25Codec.Encoded(libs, m) != []
  {
    hide Bm25Codec.PutCounts, Bm25Codec.PutRecords, Bm25Codec.RawOf;
  }

  /** What the format can hold: every number fits its field, and what is compressed can be
      expanded again. */
  predicate Packs(libs: Libraries, x: ImageParts) {
    && x.dim < U32 && Cells(|x.meta|, x.dim) * F32_BYTES < USIZE
    && MetaCodec.FitsSection(x.meta) && EdgeCodec.Fits(x.edges) && Bm25Codec.Fits(x.bm25)
    && Expands(libs, MetaCodec.Encoded(x.meta, true))
    && (HasEdges(x.edges) ==> Expands(libs, EdgeCodec.Encoded(x.edges)))
  }

  /** The parts as a reader sees them: floats rounded to 32 bits. */
  function Rounded(libs: Libraries, x: ImageParts): ImageParts {
    x.(dense := StoredAll(libs, x.dense), bm25 := Bm25Codec.Narrowed(libs, x.bm25))
  }

  /** Survives storage: it packs, and its floats are 32 bits wide. */
  ghost predicate Storable(libs: Libraries, x: ImageParts) {
    Packs(libs, x) && Exact(libs, x.dense) && Bm25Codec.Narrowed(libs, x.bm25) == x.bm25
  }

  /** One vector and one edge list per document. */
  predicate Parallel(x: ImageParts) {
    |x.dense| == Cells(|x.meta|, x.dim) && |x.edges| == |x.meta|
  }

  lemma EdgelessLists(edges: EdgeCodec.EdgeLists)
    requires !HasEdges(edges)
    ensures edges == NoEdges(|edges|)
  {
    forall i | 0 <= i < |edges| ensures edges[i] == [] {
      assert edges[i] in edges;
    }
  }

  lemma NoEdgesHasNone(n: nat)
    ensures !HasEdges(NoEdges(n))
  {}

  // ---- reading a written image ----

  lemma FlagsRead(metric: Metric, hasEdges: bool)
    ensures META_FRESHNESS in WrittenFlags(metric, hasEdges)
    ensures LINK_GRAPH in WrittenFlags(metric, hasEdges) <==> hasEdges
  {}

  lemma MetaRead(libs: Libraries, x: ImageParts)
    requires LibrariesOk(libs)
    ensures ParseMetaSection(libs, SerializeSections(libs, x)) == Ok(x.meta)
      <==> MetaCodec.FitsSection(x.meta) && Expands(libs, MetaCodec.Encoded(x.meta, true))
  {
    SectionsWritten(libs, x);
    FlagsRead(x.metric, HasEdges(x.edges));
    CompressedReadsBack(libs, MetaCodec.Encoded(x.meta, true));
    MetaCodec.DecodeEncodedIff(x.meta);
    NarrowFits(|x.meta|);
    MetaFitsCount(x.meta);
    hide LibrariesOk, WrittenSections, WrittenFlags, Expands, Payload, Compressed, HasEdges, AsU32, MetaCodec.Encoded,
      MetaCodec.Decoded, MetaCodec.FitsSection;
  }

  lemma MetaFitsCount(meta: seq<DocMeta>)
    ensures MetaCodec.FitsSection(meta) ==> |meta| < U32
  {}

  lemma TermsRead(libs: Libraries, x: ImageParts)
    requires LibrariesOk(libs)
    ensures Bm25Codec.Fits(x.bm25) ==>
      ParseBm25Section(libs, SerializeSections(libs, x)) == Ok(Bm25Codec.Narrowed(libs, x.bm25))
    ensures ParseBm25Section(libs, SerializeSections(libs, x)) == Ok(x.bm25)
      <==> Bm25Codec.Fits(x.bm25) && Bm25Codec.Narrowed(libs, x.bm25) == x.bm25
  {
    hide LibrariesOk, WrittenSections, WrittenHeader, Compressed, HasEdges, Bm25Codec.PutRaw, Bm25Codec.RawOf,
      Bm25Codec.Decoded, Bm25Codec.Fits, Bm25Codec.Narrowed;
    SectionsWritten(libs, x);
    if Bm25Codec.Fits(x.bm25) {
      Bm25Codec.DecodeEncoded(libs, x.bm25, []);
    }
    Bm25Codec.DecodeEncodedIff(libs, x.bm25);
  }

  lemma NoEdgesRead(libs: Libraries, x: ImageParts)
    requires |x.edges| == |x.meta| < U32 && !HasEdges(x.edges)
    ensures ParseEdgeSection(libs, SerializeSections(libs, x)) == Ok(x.edges) && EdgeCodec.Fits(x.edges)
  {
    EdgelessLists(x.edges);
    hide WrittenSections, WrittenFlags, HasEdges, AsU32, NoEdges, PayloadOf, EdgeCodec.Decoded;
    FlagsRead(x.metric, HasEdges(x.edges));
    NarrowFits(|x.meta|);
  }

  lemma EdgesRead(libs: Libraries, x: ImageParts)
    requires LibrariesOk(libs) && |x.edges| < U32 && |x.edges| == |x.meta|
    ensures ParseEdgeSection(libs, SerializeSections(libs, x)) == Ok(x.edges)
      <==> EdgeCodec.Fits(x.edges) && (HasEdges(x.edges) ==> Expands(libs, EdgeCodec.Encoded(x.edges)))
  {
    hide LibrariesOk, WrittenSections, WrittenFlags, Expands, Payload, Compressed, HasEdges, AsU32, EdgeCodec.Encoded,
      EdgeCodec.Decoded, EdgeCodec.Fits, NoEdges;
    if HasEdges(x.edges) {
      SectionsWritten(libs, x);
      FlagsRead(x.metric, true);
      NarrowFits(|x.meta|);
      CompressedReadsBack(libs, EdgeCodec.Encoded(x.edges));
      EdgeCodec.DecodeEncodedIff(x.edges);
    } else {
      NoEdgesRead(libs, x);
    }
  }

  lemma DenseRead(libs: Libraries, x: ImageParts)
    ensures ParseDense(libs, SerializeSections(libs, x), |x.dense|) == Ok(StoredAll(libs, x.dense))
  {
    SectionsWritten(libs, x);
    FloatsBack(libs, x.dense);
    hide WrittenSections, WrittenHeader, Compressed, HasEdges, FloatsIn, PutFloats, Stored;
    if x.dense == [] {
      assert StoredAll(libs, x.dense) == [];
    }
  }

  /** Reading a written image gives back everything, floats rounded to 32 bits, whether or not
      the vector block and the edge section were written. */
  lemma ParseSerialized(libs: Libraries, x: ImageParts)
    requires LibrariesOk(libs) && Packs(libs, x) && Parallel(x)
    ensures ParseImage(libs, SerializeSections(libs, x)) == Ok(Rounded(libs, x))
  {
    MetaFitsCount(x.meta);
    MetaRead(libs, x);
    TermsRead(libs, x);
    EdgesRead(libs, x);
    DenseRead(libs, x);
    MetricBack(x.metric);
    NarrowFits(x.dim);
    NarrowFits(|x.meta|);
    hide LibrariesOk, WrittenSections, WrittenFlags, ParseMetaSection, ParseBm25Section, ParseEdgeSection, ParseDense,
      Expands, HasEdges, AsU32, Cells, MetaCodec.Encoded, MetaCodec.FitsSection, EdgeCodec.Encoded, EdgeCodec.Fits,
      Bm25Codec.Fits, StoredAll;
  }

  lemma RoundedIff(libs: Libraries, x: ImageParts)
    ensures Rounded(libs, x) == x <==> Exact(libs, x.dense) && Bm25Codec.Narrowed(libs, x.bm25) == x.bm25
  {
    ExactIff(libs, x.dense);
    hide StoredAll, Exact, Bm25Codec.Narrowed;
  }

  /** Parsing the image of an index gives back exactly that index if and only if every number
      fits its field, every float is 32 bits wide, and what was compressed may be expanded. */
  lemma ParseSerializedIff(libs: Libraries, x: ImageParts)
    requires LibrariesOk(libs) && Parallel(x)
    ensures ParseImage(libs, SerializeSections(libs, x)) == Ok(x) <==> Storable(libs, x)
  {
    RoundedIff(libs, x);
    if Packs(libs, x) {
      ParseSerialized(libs, x);
    }
    hide LibrariesOk, Packs, Rounded, SerializeSections, ParseImage;
    if ParseImage(libs, SerializeSections(libs, x)) == Ok(x) {
      ReadBackPacks(libs, x);
    }
  }

  lemma ReadBackPacks(libs: Libraries, x: ImageParts)
    requires LibrariesOk(libs) && Parallel(x)
    requires ParseImage(libs, SerializeSections(libs, x)) == Ok(x)
    ensures Packs(libs, x)
  {
    hide LibrariesOk, WrittenSections, WrittenFlags, ParseImage, ParseMetaSection, ParseBm25Section, ParseEdgeSection,
      ParseDense, Expands, HasEdges, AsU32, Cells, MetaCodec.Encoded, MetaCodec.FitsSection, EdgeCodec.Encoded,
      EdgeCodec.Fits, Bm25Codec.Fits, Bm25Codec.Narrowed;
    var image := SerializeSections(libs, x);
    ParsedSections(libs, image);
    MetaRead(libs, x);
    MetaFitsCount(x.meta);
    TermsRead(libs, x);
    NarrowFits(x.dim);
    NarrowFits(|x.meta|);
    EdgesRead(libs, x);
  }

  lemma ParsedSections(libs: Libraries, image: FileImage)
    requires ParseImage(libs, image).Ok?
    ensures var h, x := image.header, ParseImage(libs, image).value;
      && Cells(h.docCount, h.dim) * F32_BYTES < USIZE
      && ParseDense(libs, image, Cells(h.docCount, h.dim)) == Ok(x.dense)
      && ParseMetaSection(libs, image) == Ok(x.meta) && ParseBm25Section(libs, image) == Ok(x.bm25)
      && ParseEdgeSection(libs, image) == Ok(x.edges)
      && x.dim == h.dim && x.metric == MetricOf(h.metricTag) && x.embedderId == h.embedderId && |x.meta| == h.docCount
  {
    MetaCounted(libs, image);
    hide ParseDense, ParseMetaSection, ParseBm25Section, ParseEdgeSection, Cells;
  }

  lemma MetaCounted(libs: Libraries, image: FileImage)
    ensures ParseMetaSection(libs, image).Ok? ==> |ParseMetaSection(libs, image).value| == image.header.docCount
  {
    hide MetaCodec.Decoded, PayloadOf;
  }

  /** What parsing guarantees: one vector and one edge list per document, postings aligned. */
  lemma ParsedParallel(libs: Libraries, image: FileImage)
    requires LibrariesOk(libs) && ParseImage(libs, image).Ok?
    ensures var x := ParseImage(libs, image).value;
      Parallel(x) && Bm25Codec.Fits(x.bm25) && PostingsAligned(x.bm25) && x.dim == image.header.dim
  {
    ParsedSections(libs, image);
    var x := ParseImage(libs, image).value;
    TermsParsed(libs, image);
    EdgesParsed(libs, image);
    FitsAligned(x.bm25);
    hide LibrariesOk, ParseImage, ParseMetaSection, ParseBm25Section, ParseEdgeSection, Cells, Bm25Codec.Fits, FloatsIn;
  }

  lemma TermsParsed(libs: Libraries, image: FileImage)
    requires LibrariesOk(libs) && ParseBm25Section(libs, image).Ok?
    ensures Bm25Codec.Fits(ParseBm25Section(libs, image).value)
  {
    Bm25Codec.DecodedFits(libs, PayloadOf(libs, image, BM25).value.value);
    hide LibrariesOk, PayloadOf, Bm25Codec.Decoded, Bm25Codec.Fits;
  }

  lemma EdgesParsed(libs: Libraries, image: FileImage)
    requires ParseEdgeSection(libs, image).Ok?
    ensures |ParseEdgeSection(libs, image).value| == image.header.docCount
  {
    hide PayloadOf, EdgeCodec.Decoded;
  }

  lemma FitsAligned(m: Bm25)
    requires Bm25Codec.Fits(m)
    ensures PostingsAligned(m)
  {
    forall i | 0 <= i < |m.terms|
      ensures |m.terms[i].tf| == |m.terms[i].docs| && Distinct(m.terms[i].docs)
    {
      assert m.terms[i] in m.terms && Bm25Codec.FitsPosting(m.terms[i]);
    }
  }

  // ---- writing a read image ----

  /** The sections are those this version writes, as it writes them. */
  ghost predicate CurrentSections(libs: Libraries, s: map<nat, Section>, x: ImageParts) {
    && s.Keys == {DOC_META, BM25} + (if x.dense != [] then {DENSE} else {})
                 + (if HasEdges(x.edges) then {EDGES} else {})
    && CurrentMeta(libs, s[DOC_META])
    && s[BM25].flags == {} && Bm25Codec.Canonical(libs, s[BM25].raw)
    && (x.dense != [] ==> s[DENSE].flags == {})
    && (HasEdges(x.edges) ==> OwnCompression(libs, s[EDGES]))
  }

  /** Metadata of known kinds, compressed as this version does it. */
  ghost predicate CurrentMeta(libs: Libraries, s: Section) {
    && OwnCompression(libs, s)
    && var records := MetaCodec.Records(Payload(libs, s).value, true);
      records.Some? && forall d :: d in records.value ==> MetaCodec.KnownKind(d.kind)
  }

  /** The header repeats what the sections say: flags that follow from metric and edges, a metric
      tag in use, and the three floats of the term index. */
  predicate CurrentHeader(libs: Libraries, h: Header, x: ImageParts) {
    && h.flags == WrittenFlags(x.metric, HasEdges(x.edges)) && h.metricTag <= 2
    && h.k1Bits == libs.bits(x.bm25.k1) && h.bBits == libs.bits(x.bm25.b) && h.avgdlBits == libs.bits(x.bm25.avgdl)
  }

  /** An image as this version writes it. */
  ghost predicate Current(libs: Libraries, image: FileImage, x: ImageParts) {
    CurrentHeader(libs, image.header, x) && CurrentSections(libs, image.sections, x)
  }

  lemma HeaderRewritten(libs: Libraries, image: FileImage)
    requires ParseImage(libs, image).Ok?
    ensures var x := ParseImage(libs, image).value;
      WrittenHeader(libs, x) == image.header <==> CurrentHeader(libs, image.header, x)
  {
    ParsedSections(libs, image);
    TagBackIff(image.header.metricTag);
    NarrowFits(image.header.dim);
    NarrowFits(image.header.docCount);
    hide ParseImage, ParseMetaSection, ParseBm25Section, ParseEdgeSection, ParseDense, Cells, AsU32, HasEdges,
      WrittenFlags;
  }

  lemma MetaRewritten(libs: Libraries, image: FileImage)
    requires LibrariesOk(libs) && ParseMetaSection(libs, image).Ok? && META_FRESHNESS in image.header.flags
    ensures DOC_META in image.sections
    ensures Compressed(libs, MetaCodec.Encoded(ParseMetaSection(libs, image).value, true)) == image.sections[DOC_META]
      <==> CurrentMeta(libs, image.sections[DOC_META])
  {
    var s := image.sections[DOC_META];
    var bytes := Payload(libs, s).value;
    var docs := MetaCodec.Decoded(bytes, true).value;
    MetaCodec.EncodeDecodedIff(bytes, true);
    OwnCompressionIff(libs, s, MetaCodec.Encoded(docs, true));
    hide LibrariesOk, Payload, Compressed, OwnCompression, MetaCodec.Encoded, MetaCodec.Records, MetaCodec.Decoded,
      MetaCodec.KnownKind;
  }

  lemma TermsRewritten(libs: Libraries, image: FileImage)
    requires LibrariesOk(libs) && ParseBm25Section(libs, image).Ok?
    ensures BM25 in image.sections
    ensures Plainly(Bm25Codec.Encoded(libs, ParseBm25Section(libs, image).value)) == image.sections[BM25]
      <==> image.sections[BM25].flags == {} && Bm25Codec.Canonical(libs, image.sections[BM25].raw)
  {
    var s := image.sections[BM25];
    if s.flags == {} {
      assert Payload(libs, s) == Some(s.raw);
      Bm25Codec.EncodeDecodedIff(libs, s.raw);
    }
    hide LibrariesOk, Payload, Bm25Codec.Encoded, Bm25Codec.Decoded, Bm25Codec.Canonical;
  }

  lemma DenseRewritten(libs: Libraries, image: FileImage, expected: nat)
    requires LibrariesOk(libs) && ParseDense(libs, image, expected).Ok?
    requires ParseDense(libs, image, expected).value != []
    ensures DENSE in image.sections
    ensures Plainly(PutFloats(libs, ParseDense(libs, image, expected).value)) == image.sections[DENSE]
      <==> image.sections[DENSE].flags == {}
  {
    FloatsRewritten(libs, image.sections[DENSE].raw);
    hide LibrariesOk, FloatsIn, PutFloats;
  }

  lemma EdgesRewritten(libs: Libraries, image: FileImage)
    requires LibrariesOk(libs) && ParseEdgeSection(libs, image).Ok?
    requires HasEdges(ParseEdgeSection(libs, image).value)
    ensures EDGES in image.sections
    ensures Compressed(libs, EdgeCodec.Encoded(ParseEdgeSection(libs, image).value)) == image.sections[EDGES]
      <==> OwnCompression(libs, image.sections[EDGES])
  {
    NoEdgesHasNone(image.header.docCount);
    var s := image.sections[EDGES];
    EdgeCodec.EncodeDecoded(Payload(libs, s).value);
    OwnCompressionIff(libs, s, Payload(libs, s).value);
    hide LibrariesOk, Payload, Compressed, OwnCompression, EdgeCodec.Encoded, EdgeCodec.Decoded, EdgeCodec.Fits,
      HasEdges, NoEdges;
  }

  lemma SectionsRewritten(libs: Libraries, image: FileImage)
    requires LibrariesOk(libs) && ParseImage(libs, image).Ok? && META_FRESHNESS in image.header.flags
    ensures var x := ParseImage(libs, image).value;
      WrittenSections(libs, x) == image.sections <==> CurrentSections(libs, image.sections, x)
  {
    var x := ParseImage(libs, image).value;
    ParsedSections(libs, image);
    MetaRewritten(libs, image);
    TermsRewritten(libs, image);
    if x.dense != [] {
      DenseRewritten(libs, image, Cells(image.header.docCount, image.header.dim));
    }
    if HasEdges(x.edges) {
      EdgesRewritten(libs, image);
    }
    SectionsWritten(libs, x);
    hide LibrariesOk, ParseImage, ParseMetaSection, ParseBm25Section, ParseEdgeSection, ParseDense, Cells, HasEdges,
      WrittenSections, Compressed, Plainly, OwnCompression, CurrentMeta, MetaCodec.Encoded, EdgeCodec.Encoded,
      Bm25Codec.Encoded, Bm25Codec.Canonical, PutFloats;
    SameSectionsIff(WrittenSections(libs, x), image.sections, x.dense != [], HasEdges(x.edges));
  }

  lemma SameSectionsIff(s: map<nat, Section>, t: map<nat, Section>, dense: bool, edges: bool)
    requires s.Keys == {DOC_META, BM25} + (if dense then {DENSE} else {}) + (if edges then {EDGES} else {})
    ensures s == t <==>
      && s.Keys == t.Keys && s[DOC_META] == t[DOC_META] && s[BM25] == t[BM25]
      && (dense ==> s[DENSE] == t[DENSE]) && (edges ==> s[EDGES] == t[EDGES])
  {}

  /** Writing out a decoded image again gives back the same image if and only if it was a current
      one: header words that agree with the sections, no section but those needed, each compressed
      or not as this version does it, with nothing behind the term index. */
  lemma ReserializeIff(libs: Libraries, image: FileImage)
    requires LibrariesOk(libs) && ParseImage(libs, image).Ok?
    ensures var x := ParseImage(libs, image).value;
      SerializeSections(libs, x) == image <==> Current(libs, image, x)
  {
    var x := ParseImage(libs, image).value;
    HeaderRewritten(libs, image);
    FlagsRead(x.metric, HasEdges(x.edges));
    if META_FRESHNESS in image.header.flags {
      SectionsRewritten(libs, image);
    }
    hide ParseImage, WrittenSections, CurrentSections, WrittenFlags, HasEdges, AsU32;
  }

  /** Headers from which a reader takes the same: flags that only differ in bits it does not test,
      another tag for the same metric, other floats. */
  predicate HeadersAlike(h: Header, g: Header) {
    && h.dim == g.dim && h.docCount == g.docCount && h.embedderId == g.embedderId
    && MetricOf(h.metricTag) == MetricOf(g.metricTag)
    && (META_FRESHNESS in h.flags <==> META_FRESHNESS in g.flags)
    && (LINK_GRAPH in h.flags <==> LINK_GRAPH in g.flags)
  }

  /** Images from which a reader takes the same: payloads may be compressed otherwise or not at
      all, the vector block may carry any flags, and other kinds of section may be there. */
  predicate ReadAlike(libs: Libraries, a: FileImage, b: FileImage) {
    && HeadersAlike(a.header, b.header)
    && PayloadOf(libs, a, DOC_META) == PayloadOf(libs, b, DOC_META)
    && PayloadOf(libs, a, BM25) == PayloadOf(libs, b, BM25)
    && PayloadOf(libs, a, EDGES) == PayloadOf(libs, b, EDGES)
    && (DENSE in a.sections <==> DENSE in b.sections)
    && (DENSE in a.sections ==> a.sections[DENSE].raw == b.sections[DENSE].raw)
  }

  lemma AlikeParses(libs: Libraries, a: FileImage, b: FileImage)
    requires ReadAlike(libs, a, b)
    ensures ParseImage(libs, a) == ParseImage(libs, b)
  {
    hide PayloadOf, MetaCodec.Decoded, EdgeCodec.Decoded, Bm25Codec.Decoded, FloatsIn, Cells;
    assert ParseMetaSection(libs, a) == ParseMetaSection(libs, b);
    assert ParseBm25Section(libs, a) == ParseBm25Section(libs, b);
    assert ParseEdgeSection(libs, a) == ParseEdgeSection(libs, b);
    hide ParseMetaSection, ParseBm25Section, ParseEdgeSection;
  }

  /** Whatever a reader does not look at is lost: an image that reads like the one written for an
      index, but is another, is accepted as that index and comes out changed. */
  lemma StrayPartsAreRewritten(libs: Libraries, x: ImageParts, image: FileImage)
    requires LibrariesOk(libs) && Parallel(x) && Storable(libs, x)
    requires ReadAlike(libs, image, SerializeSections(libs, x)) && image != SerializeSections(libs, x)
    ensures ParseImage(libs, image) == Ok(x)
    ensures !Current(libs, image, x)
  {
    ParseSerializedIff(libs, x);
    AlikeParses(libs, image, SerializeSections(libs, x));
    hide Storable, SerializeSections, ParseImage, Parallel, ReadAlike, Current, LibrariesOk;
    ReserializeIff(libs, image);
  }

  // ---- back to a builder ----

  /** The key map rebuilt on load: of two records with one key the later wins. */
  function UrlIndexOf(meta: seq<DocMeta>): map<UrlKey, DocId> {
    if meta == [] then map[]
    else UrlIndexOf(meta[..|meta| - 1])[meta[|meta| - 1].urlKey := |meta| - 1]
  }

  ghost predicate DistinctKeys(meta: seq<DocMeta>) {
    forall i, j :: 0 <= i < j < |meta| ==> meta[i].urlKey != meta[j].urlKey
  }

  lemma {:induction false} UrlIndexLookup(meta: seq<DocMeta>)
    ensures forall k :: k in UrlIndexOf(meta) ==> UrlIndexOf(meta)[k] < |meta| && meta[UrlIndexOf(meta)[k]].urlKey == k
    ensures forall i :: 0 <= i < |meta| ==> meta[i].urlKey in UrlIndexOf(meta) && UrlIndexOf(meta)[meta[i].urlKey] >= i
  {
    if meta != [] {
      UrlIndexLookup(meta[..|meta| - 1]);
      forall i | 0 <= i < |meta| - 1 ensures meta[..|meta| - 1][i] == meta[i] {}
    }
  }

  /** What converting an index into a builder hands over. */
  function BuilderParts(x: ImageParts): Parts
    requires WellFormed(x.bm25)
  {
    Parts(x.meta, x.dense, AllGathered(x.bm25, |x.bm25.terms|), x.edges, UrlIndexOf(x.meta))
  }

  /** The conversion of a decoded image; `None` is an index out of bounds, met when a posting
      names a document beyond the term index's own count. */
  ghost function IntoParts(x: ImageParts): Option<Parts>
    requires PostingsAligned(x.bm25)
  {
    AlignedInRange(x.bm25);
    if InRange(x.bm25) then Some(BuilderParts(x)) else None
  }

  /** A decoded image makes a consistent builder if and only if no posting names a document out
      of range, no two records share a key, and the term index covers as many documents as the
      metadata. Parsing checks none of the three. */
  lemma BuilderFromImageIff(x: ImageParts)
    requires Parallel(x) && PostingsAligned(x.bm25)
    ensures IntoParts(x).Some? && Aligned(x.dim, IntoParts(x).value)
      <==> InRange(x.bm25) && DistinctKeys(x.meta) && |x.bm25.docLen| == |x.meta|
    ensures WellFormed(x.bm25) <==> InRange(x.bm25)
  {
    AlignedInRange(x.bm25);
    if InRange(x.bm25) {
      PartsAlignedIff(x);
    }
    hide BuilderParts;
  }

  lemma PartsAlignedIff(x: ImageParts)
    requires Parallel(x) && WellFormed(x.bm25)
    ensures Aligned(x.dim, BuilderParts(x)) <==> DistinctKeys(x.meta) && |x.bm25.docLen| == |x.meta|
  {
    UrlIndexLookup(x.meta);
    hide UrlIndexOf, AllGathered, WellFormed, Cells;
    var p := BuilderParts(x);
    if Aligned(x.dim, p) {
      forall i, j | 0 <= i < j < |x.meta| ensures x.meta[i].urlKey != x.meta[j].urlKey {
        assert p.urlIndex[p.meta[i].urlKey] == i && p.urlIndex[p.meta[j].urlKey] == j;
      }
    }
    if DistinctKeys(x.meta) && |x.bm25.docLen| == |x.meta| {
      forall i | 0 <= i < |x.meta| ensures p.urlIndex[x.meta[i].urlKey] == i {
        var j := p.urlIndex[x.meta[i].urlKey];
        assert x.meta[j].urlKey == x.meta[i].urlKey;
      }
    }
  }

  /** A key map that fits the records is the one rebuilt from them. */
  lemma UrlIndexAgrees(dim: nat, p: Parts)
    requires Aligned(dim, p)
    ensures UrlIndexOf(p.meta) == p.urlIndex && DistinctKeys(p.meta)
  {
    UrlIndexLookup(p.meta);
    hide UrlIndexOf, Cells;
    var m := UrlIndexOf(p.meta);
    forall k | k in m ensures k in p.urlIndex && m[k] == p.urlIndex[k] {
      assert p.meta[m[k]].urlKey == k;
    }
    forall k | k in p.urlIndex ensures k in m {
      assert p.meta[p.urlIndex[k]].urlKey == k;
    }
    forall i, j | 0 <= i < j < |p.meta| ensures p.meta[i].urlKey != p.meta[j].urlKey {
      assert p.urlIndex[p.meta[i].urlKey] == i && p.urlIndex[p.meta[j].urlKey] == j;
    }
  }

  // ---- contents, term order aside ----

  /** What is kept for one key; of the terms only their multiset. */
  datatype Content = Content(meta: DocMeta, vector: seq<real>, terms: multiset<Term>, edges: seq<UrlKey>)

  function ContentOf(e: Entry): Content { Content(e.meta, e.vector, multiset(e.terms), e.edges) }

  ghost function ContentsOf(v: View): map<UrlKey, Content> {
    map k | k in v :: ContentOf(v[k])
  }

  ghost function ContentsIn(dim: nat, p: Parts): map<UrlKey, Content>
    requires Aligned(dim, p)
  {
    ContentsOf(ViewOf(dim, p))
  }

  lemma SameContents(dim: nat, p: Parts, q: Parts)
    requires Aligned(dim, p) && Aligned(dim, q) && SameMultisets(p.docTerms, q.docTerms)
    requires q.meta == p.meta && q.dense == p.dense && q.edges == p.edges && q.urlIndex == p.urlIndex
    ensures ContentsIn(dim, q) == ContentsIn(dim, p)
  {
    ViewAt(dim, p);
    ViewAt(dim, q);
    hide ViewOf, VectorAt, Cells;
    forall k | k in p.urlIndex
      ensures ContentOf(Row(dim, q, q.urlIndex[k])) == ContentOf(Row(dim, p, p.urlIndex[k]))
    {}
  }

  lemma SameContentsTerms(dim: nat, p: Parts, q: Parts)
    requires Aligned(dim, p) && Aligned(dim, q) && q.meta == p.meta
    requires ContentsIn(dim, q) == ContentsIn(dim, p)
    ensures SameMultisets(p.docTerms, q.docTerms)
  {
    ViewAt(dim, p);
    ViewAt(dim, q);
    hide ViewOf, VectorAt, Cells;
    forall d | 0 <= d < |p.meta| ensures multiset(p.docTerms[d]) == multiset(q.docTerms[d]) {
      var k := p.meta[d].urlKey;
      assert p.urlIndex[k] == d && q.urlIndex[k] == d;
      assert ContentsIn(dim, p)[k] == ContentOf(Row(dim, p, d));
      assert ContentsIn(dim, q)[k] == ContentOf(Row(dim, q, d));
    }
  }

  /** The parts a builder's image is made from. */
  function PartsForImage(setup: Setup, p: Parts, m: Bm25): ImageParts {
    ImageParts(setup.dim, setup.metric, setup.embedderId, p.meta, p.dense, m, p.edges)
  }

  /** Rounding the floats of a term index leaves its terms as they are. */
  lemma {:induction false} NarrowedGathers(libs: Libraries, m: Bm25, d: DocId, n: nat)
    requires WellFormed(m) && n <= |m.terms|
    ensures WellFormed(Bm25Codec.Narrowed(libs, m))
    ensures Gathered(Bm25Codec.Narrowed(libs, m), d, n) == Gathered(m, d, n)
  {
    if n > 0 {
      NarrowedGathers(libs, m, d, n - 1);
    }
  }

  lemma NarrowedParts(libs: Libraries, x: ImageParts)
    requires WellFormed(x.bm25) && Exact(libs, x.dense)
    ensures WellFormed(Rounded(libs, x).bm25) && BuilderParts(Rounded(libs, x)) == BuilderParts(x)
  {
    var m := x.bm25;
    ExactIff(libs, x.dense);
    NarrowedGathers(libs, m, 0, |m.terms|);
    forall d | 0 <= d < |m.docLen|
      ensures Gathered(Bm25Codec.Narrowed(libs, m), d, |m.terms|) == Gathered(m, d, |m.terms|)
    {
      NarrowedGathers(libs, m, d, |m.terms|);
    }
    hide WellFormed, Gathered, UrlIndexOf, Exact, Stored;
    assert AllGathered(Bm25Codec.Narrowed(libs, m), |m.terms|) == AllGathered(m, |m.terms|);
  }

  /** A term index over these documents fits its section. */
  ghost predicate FitsCorpus(docs: Corpus) {
    && |docs| < U32 && |Vocabulary(docs)| < U32
    && (forall doc :: doc in docs ==> |doc| < U32)
    && (forall t :: t in Vocabulary(docs) ==> Bytes.FitsText(t))
  }

  lemma PostingFits(docs: Corpus, t: Term)
    requires |docs| < U32 && Bytes.FitsText(t)
    ensures Bm25Codec.FitsPosting(PostingFor(docs, t))
  {
    var p := PostingFor(docs, t);
    HitsAscend(docs, t, |docs|);
    IdSetAscends(p.docs);
    hide Hits, Count, Bytes.FitsText, IsIdSet;
  }

  lemma BuiltFits(m: Bm25, docs: Corpus, k1: real, b: real)
    requires Indexes(m, docs, k1, b) && FitsCorpus(docs)
    ensures Bm25Codec.Fits(m)
  {
    IndexShape(m, docs, k1, b);
    var v := Terms(m);
    ListingSize(v, Vocabulary(docs));
    hide Indexes, Vocabulary, PostingFor, Positions, LexLe, Bm25Codec.FitsPosting, Bytes.FitsText;
    forall p | p in m.terms ensures Bm25Codec.FitsPosting(p) {
      var i :| 0 <= i < |m.terms| && m.terms[i] == p;
      assert v[i] in v && p == PostingFor(docs, v[i]);
      PostingFits(docs, v[i]);
    }
    forall len | len in m.docLen ensures len < U32 {
      var d :| 0 <= d < |docs| && m.docLen[d] == len;
      assert docs[d] in docs;
    }
  }

  /** What a builder holds can be stored without loss. */
  ghost predicate FitsFormat(libs: Libraries, dim: nat, p: Parts) {
    && dim < U32 && Cells(|p.meta|, dim) * F32_BYTES < USIZE
    && MetaCodec.FitsSection(p.meta) && EdgeCodec.Fits(p.edges) && FitsCorpus(p.docTerms)
    && Expands(libs, MetaCodec.Encoded(p.meta, true))
    && (HasEdges(p.edges) ==> Expands(libs, EdgeCodec.Encoded(p.edges)))
    && Exact(libs, p.dense)
  }

  lemma FittingPacks(libs: Libraries, setup: Setup, p: Parts, m: Bm25)
    requires Indexes(m, p.docTerms, setup.k1, setup.b) && FitsFormat(libs, setup.dim, p)
    ensures Packs(libs, PartsForImage(setup, p, m))
  {
    BuiltFits(m, p.docTerms, setup.k1, setup.b);
    hide Indexes, FitsCorpus, Bm25Codec.Fits, MetaCodec.Encoded, MetaCodec.FitsSection, EdgeCodec.Encoded,
      EdgeCodec.Fits, Expands, HasEdges, Exact, Cells;
  }

  /** Serialize, parse, into a builder again: keys, metadata, vectors and edges come back row for
      row, and the contents are the same exactly when no term count saturated. */
  lemma BuilderRoundTripIff(libs: Libraries, setup: Setup, p: Parts, m: Bm25)
    requires LibrariesOk(libs) && Aligned(setup.dim, p) && Indexes(m, p.docTerms, setup.k1, setup.b)
    requires FitsFormat(libs, setup.dim, p)
    ensures var parsed := ParseImage(libs, SerializeSections(libs, PartsForImage(setup, p, m)));
      && parsed == Ok(PartsForImage(setup, p, Bm25Codec.Narrowed(libs, m)))
      && WellFormed(parsed.value.bm25)
      && var q := BuilderParts(parsed.value);
      && Aligned(setup.dim, q) && q.(docTerms := p.docTerms) == p
      && (ContentsIn(setup.dim, q) == ContentsIn(setup.dim, p) <==> WithinCounts(p.docTerms))
  {
    var x := PartsForImage(setup, p, m);
    FittingPacks(libs, setup, p, m);
    ParseSerialized(libs, x);
    ExactIff(libs, p.dense);
    IndexIsWellFormed(m, p.docTerms, setup.k1, setup.b);
    UrlIndexAgrees(setup.dim, p);
    PartsAlignedIff(x);
    NarrowedParts(libs, x);
    LosslessIff(m, p.docTerms, setup.k1, setup.b);
    var q := BuilderParts(x);
    hide LibrariesOk, Indexes, WellFormed, Packs, FitsFormat, ParseImage, SerializeSections, StoredAll, Exact,
      UrlIndexOf, AllGathered, Cells, WithinCounts;
    assert Rounded(libs, x) == PartsForImage(setup, p, Bm25Codec.Narrowed(libs, m));
    if WithinCounts(p.docTerms) {
      SameMultisetsSymmetric(q.docTerms, p.docTerms);
      SameContents(setup.dim, p, q);
    }
    if ContentsIn(setup.dim, q) == ContentsIn(setup.dim, p) {
      SameContentsTerms(setup.dim, p, q);
      SameMultisetsSymmetric(p.docTerms, q.docTerms);
    }
  }

  lemma SameMultisetsSymmetric(docs: Corpus, docs': Corpus)
    requires SameMultisets(docs, docs')
    ensures SameMultisets(docs', docs)
  {}

  // ---- images that are accepted and should not be ----

  function NoTerms(libs: Libraries, docLen: seq<nat>, terms: seq<Posting>): Bm25 {
    var zero := libs.float(0);
    Bm25(zero, zero, zero, docLen, terms, Positions(TermsOf(terms)))
  }

  const BLANK := DocMeta("", 0, 0, 0, 0, None, "", None, [], 0, false, None)

  function Small(libs: Libraries, meta: seq<DocMeta>, m: Bm25): ImageParts {
    ImageParts(0, Cosine, 0, meta, [], m, NoEdges(|meta|))
  }

  /** Two records under one key. */
  function SharedKey(libs: Libraries): ImageParts { Small(libs, [BLANK, BLANK], NoTerms(libs, [0, 0], [])) }

  /** A record the term index does not know of. */
  function MissingTerms(libs: Libraries): ImageParts { Small(libs, [BLANK], NoTerms(libs, [], [])) }

  /** A posting for a document that is not there. */
  function StrayPosting(libs: Libraries): ImageParts {
    Small(libs, [BLANK], NoTerms(libs, [0], [Posting("a", [7], [1])]))
  }

  lemma BlankSize(meta: seq<DocMeta>)
    requires |meta| <= 2 && forall d :: d in meta ==> d == BLANK
    ensures |MetaCodec.Encoded(meta, true)| <= MAX_ZSTD_RATIO && MetaCodec.FitsSection(meta)
  {
    BlanksSize(meta);
    hide MetaCodec.PutAll;
  }

  lemma {:induction false} BlanksSize(meta: seq<DocMeta>)
    requires forall d :: d in meta ==> d == BLANK
    ensures |MetaCodec.PutAll(meta, true, [])| <= 60 * |meta|
    decreases |meta|
  {
    hide MetaCodec.PutMeta;
    if meta != [] {
      assert meta[0] in meta && forall d :: d in meta[1..] ==> d in meta;
      BlanksSize(meta[1..]);
      BlankRecordSize(MetaCodec.PutAll(meta[1..], true, []));
    }
  }

  lemma BlankRecordSize(tail: seq<Bytes.Byte>)
    ensures |MetaCodec.PutMeta(BLANK, true, tail)| <= 60 + |tail|
  {
    var t := MetaCodec.PutFreshness(BLANK, tail);
    assert |t| == 10 + |tail|;
    assert |MetaCodec.PutDisplay(BLANK, t)| == 10 + |t|;
    MetaCodec.IdentitySize(BLANK, MetaCodec.PutDisplay(BLANK, t));
    hide MetaCodec.PutFreshness, MetaCodec.PutDisplay, MetaCodec.PutIdentity;
  }

  lemma NoTermsFits(libs: Libraries, docLen: seq<nat>, terms: seq<Posting>)
    requires LibrariesOk(libs) && |docLen| <= 2 && (forall n :: n in docLen ==> n == 0)
    requires terms == [] || terms == [Posting("a", [7], [1])]
    ensures var m := NoTerms(libs, docLen, terms); Bm25Codec.Fits(m) && Bm25Codec.Narrowed(libs, m) == m
  {
    FloatBits(libs, 0);
    hide LibrariesOk, Positions;
  }

  lemma SmallParses(libs: Libraries, meta: seq<DocMeta>, m: Bm25)
    requires LibrariesOk(libs) && |meta| <= 2 && forall d :: d in meta ==> d == BLANK
    requires Bm25Codec.Fits(m) && Bm25Codec.Narrowed(libs, m) == m
    ensures var x := Small(libs, meta, m);
      Parallel(x) && Storable(libs, x) && ParseImage(libs, SerializeSections(libs, x)) == Ok(x)
  {
    var x := Small(libs, meta, m);
    BlankSize(meta);
    SmallExpands(libs, MetaCodec.Encoded(meta, true));
    NoEdgesHasNone(|meta|);
    assert Parallel(x) && EdgeCodec.Fits(x.edges);
    hide LibrariesOk, MetaCodec.Encoded, MetaCodec.FitsSection, Expands, HasEdges, Bm25Codec.Fits, Bm25Codec.Narrowed,
      EdgeCodec.Fits, NoEdges;
    ParseSerializedIff(libs, x);
  }

  /** Accepted by the parser, and no consistent builder. */
  ghost predicate AcceptedButBroken(libs: Libraries, x: ImageParts) {
    && ParseImage(libs, SerializeSections(libs, x)) == Ok(x) && Parallel(x) && PostingsAligned(x.bm25)
    && !(IntoParts(x).Some? && Aligned(x.dim, IntoParts(x).value))
  }

  lemma SmallBreaks(libs: Libraries, meta: seq<DocMeta>, docLen: seq<nat>, terms: seq<Posting>)
    requires LibrariesOk(libs) && |meta| <= 2 && forall d :: d in meta ==> d == BLANK
    requires |docLen| <= 2 && (forall n :: n in docLen ==> n == 0)
    requires terms == [] || terms == [Posting("a", [7], [1])]
    requires var m := NoTerms(libs, docLen, terms); !InRange(m) || !DistinctKeys(meta) || |docLen| != |meta|
    ensures AcceptedButBroken(libs, Small(libs, meta, NoTerms(libs, docLen, terms)))
  {
    var m := NoTerms(libs, docLen, terms);
    NoTermsFits(libs, docLen, terms);
    SmallParses(libs, meta, m);
    FitsAligned(m);
    hide LibrariesOk, ParseImage, SerializeSections, Bm25Codec.Fits, Bm25Codec.Narrowed, Storable, Parallel;
    BuilderFromImageIff(Small(libs, meta, m));
  }

  /** Each of the three conditions fails for an image that parses: one with two records under a
      key, one with fewer documents in the term index, one with a posting out of range. */
  lemma UncheckedImagesParse(libs: Libraries)
    requires LibrariesOk(libs)
    ensures AcceptedButBroken(libs, SharedKey(libs)) && AcceptedButBroken(libs, MissingTerms(libs))
    ensures AcceptedButBroken(libs, StrayPosting(libs)) && IntoParts(StrayPosting(libs)) == None
  {
    hide LibrariesOk, ParseImage, SerializeSections, NoEdges;
    assert !DistinctKeys([BLANK, BLANK]) by {
      assert [BLANK, BLANK][0].urlKey == [BLANK, BLANK][1].urlKey;
    }
    assert !InRange(StrayPosting(libs).bm25) by {
      assert 7 in StrayPosting(libs).bm25.terms[0].docs;
    }
    SmallBreaks(libs, [BLANK, BLANK], [0, 0], []);
    SmallBreaks(libs, [BLANK], [], []);
    SmallBreaks(libs, [BLANK], [0], [Posting("a", [7], [1])]);
  }

  /** The image of an index without documents, and five that read like it: an unknown metric tag,
      a flag bit no reader tests, a stray average length, metadata left uncompressed, and a
      section of unknown kind. All come out as the first. */
  function Blank(libs: Libraries): ImageParts { Small(libs, [], NoTerms(libs, [], [])) }

  function Strays(libs: Libraries): set<FileImage> {
    var image := SerializeSections(libs, Blank(libs));
    var h, s := image.header, image.sections;
    {image.(header := h.(metricTag := 7)), image.(header := h.(flags := h.flags + {9})),
     image.(header := h.(avgdlBits := 1)),
     image.(sections := s[DOC_META := Plainly(MetaCodec.Encoded([], true))]),
     image.(sections := s[99 := Plainly([])])}
  }

  lemma StrayHeaders(libs: Libraries)
    requires LibrariesOk(libs)
    ensures var image := SerializeSections(libs, Blank(libs));
      var h := image.header;
      forall g :: g in {h.(metricTag := 7), h.(flags := h.flags + {9}), h.(avgdlBits := 1)} ==>
        ReadAlike(libs, image.(header := g), image) && g != h
  {
    var image := SerializeSections(libs, Blank(libs));
    FloatBits(libs, 0);
    hide LibrariesOk, WrittenSections, Payload, HasEdges;
    assert 9 !in image.header.flags;
  }

  /** Another section with the same payload reads alike. */
  lemma SamePayloadReadsAlike(libs: Libraries, image: FileImage, kind: nat, s: Section)
    requires kind in image.sections && kind != DENSE && Payload(libs, s) == Payload(libs, image.sections[kind])
    ensures ReadAlike(libs, image.(sections := image.sections[kind := s]), image)
  {
    hide Payload;
  }

  /** A section no reader looks for reads alike. */
  lemma ForeignSectionReadsAlike(libs: Libraries, image: FileImage, kind: nat, s: Section)
    requires kind !in {DOC_META, BM25, EDGES, DENSE}
    ensures ReadAlike(libs, image.(sections := image.sections[kind := s]), image)
  {
    hide Payload;
  }

  lemma StraySections(libs: Libraries)
    requires LibrariesOk(libs)
    ensures var image := SerializeSections(libs, Blank(libs));
      var s := image.sections;
      forall t :: t in {s[DOC_META := Plainly(MetaCodec.Encoded([], true))], s[99 := Plainly([])]} ==>
        ReadAlike(libs, image.(sections := t), image) && t != s
  {
    var data := MetaCodec.Encoded([], true);
    assert |data| == 4;
    hide WrittenHeader, WrittenSections, Expands, HasEdges, MetaCodec.Encoded, LibrariesOk, Payload, Compressed,
      Plainly, ReadAlike;
    SmallExpands(libs, data);
    CompressedReadsBack(libs, data);
    PlainPayload(libs, data);
    SectionsWritten(libs, Blank(libs));
    var image := SerializeSections(libs, Blank(libs));
    assert Blank(libs).meta == [];
    SamePayloadReadsAlike(libs, image, DOC_META, Plainly(data));
    assert image.sections[DOC_META := Plainly(data)][DOC_META] != image.sections[DOC_META];
    ForeignSectionReadsAlike(libs, image, 99, Plainly([]));
    assert 99 !in image.sections && 99 in image.sections[99 := Plainly([])];
  }

  lemma StraysReadAlike(libs: Libraries)
    requires LibrariesOk(libs)
    ensures forall image :: image in Strays(libs) ==>
      ReadAlike(libs, image, SerializeSections(libs, Blank(libs))) && image != SerializeSections(libs, Blank(libs))
  {
    hide LibrariesOk, SerializeSections, MetaCodec.Encoded, ReadAlike, Blank;
    StrayHeaders(libs);
    StraySections(libs);
  }

  lemma StraysAreRewritten(libs: Libraries)
    requires LibrariesOk(libs)
    ensures forall image :: image in Strays(libs) ==>
      ParseImage(libs, image) == Ok(Blank(libs)) && SerializeSections(libs, Blank(libs)) != image
  {
    var x := Blank(libs);
    NoTermsFits(libs, [], []);
    SmallParses(libs, [], NoTerms(libs, [], []));
    StraysReadAlike(libs);
    hide LibrariesOk, Bm25Codec.Fits, Bm25Codec.Narrowed, ParseImage, Storable, Parallel, SerializeSections, Strays,
      ReadAlike, Small;
    forall image | image in Strays(libs) ensures ParseImage(libs, image) == Ok(x) {
      StrayPartsAreRewritten(libs, x, image);
    }
  }

  // ---- an image that is written and refused ----

  /** Metadata that a reader will not expand makes the whole image unreadable. */
  lemma BigMetadataIsRefused(libs: Libraries, x: ImageParts)
    requires LibrariesOk(libs) && Parallel(x)
    requires x.dim < U32 && |x.meta| < U32 && Cells(|x.meta|, x.dim) * F32_BYTES < USIZE
    requires !Expands(libs, MetaCodec.Encoded(x.meta, true))
    ensures ParseImage(libs, SerializeSections(libs, x)) == Err(BadPayload)
  {
    hide LibrariesOk, WrittenSections, WrittenFlags, Payload, Compressed, Expands, HasEdges, AsU32, Cells,
      MetaCodec.Encoded, ParseDense;
    SectionsWritten(libs, x);
    CompressedReadsBack(libs, MetaCodec.Encoded(x.meta, true));
    DenseRead(libs, x);
    NarrowFits(x.dim);
    NarrowFits(|x.meta|);
    assert ParseMetaSection(libs, SerializeSections(libs, x)) == Err(BadPayload);
  }

  /** A record whose snippet alone is longer than a reader expands. */
  function Long(): DocMeta { BLANK.(snippet := seq(MAX_DECOMPRESSED + 1, _ => 'a')) }

  /** One such record, with an empty term document. */
  function TooLong(libs: Libraries): ImageParts { Small(libs, [Long()], NoTerms(libs, [0], [])) }

  lemma SnippetInDisplay(d: DocMeta, tail: seq<Bytes.Byte>)
    ensures |MetaCodec.PutDisplay(d, tail)| >= |d.snippet|
  {
    hide Bytes.PutOptional, MetaCodec.PutTags, Bytes.PutInt;
    var rest := Bytes.PutOptional(d.lang, Bytes.PutInt(|d.tags|, 4, MetaCodec.PutTags(d.tags, tail)));
    Bytes.TextTail(d.snippet, [], rest);
    assert [] + rest == rest;
    SnippetInText(d.snippet, rest);
    Bytes.OptionalTail(d.title, [], Bytes.PutText(d.snippet, rest));
    assert [] + Bytes.PutText(d.snippet, rest) == Bytes.PutText(d.snippet, rest);
  }

  lemma SnippetInText(s: string, tail: seq<Bytes.Byte>)
    ensures |Bytes.PutText(s, tail)| >= |s|
  {}

  lemma LongIsTooLong(libs: Libraries)
    ensures !Expands(libs, MetaCodec.Encoded([Long()], true))
  {
    var d := Long();
    var tail := MetaCodec.PutFreshness(d, []);
    assert |d.snippet| == MAX_DECOMPRESSED + 1;
    SnippetInDisplay(d, tail);
    MetaCodec.IdentitySize(d, MetaCodec.PutDisplay(d, tail));
    hide MetaCodec.PutIdentity, MetaCodec.PutDisplay, MetaCodec.PutFreshness, Long;
    assert [d][1..] == [] && MetaCodec.PutAll([], true, []) == [];
    assert MetaCodec.PutAll([d], true, []) == MetaCodec.PutMeta(d, true, []);
    assert |MetaCodec.Encoded([d], true)| > MAX_DECOMPRESSED;
  }

  lemma LongFits()
    ensures MetaCodec.FitsSection([Long()])
  {
    assert Bytes.FitsText(Long().snippet);
    hide Bytes.FitsText;
  }

  /** Every number of it fits its field, every float is 32 bits wide, and its image is refused. */
  lemma TooLongIsRefused(libs: Libraries)
    requires LibrariesOk(libs)
    ensures var x := TooLong(libs);
      && Parallel(x) && Exact(libs, x.dense) && x.dim < U32 && Cells(|x.meta|, x.dim) * F32_BYTES < USIZE
      && MetaCodec.FitsSection(x.meta) && EdgeCodec.Fits(x.edges)
      && Bm25Codec.Fits(x.bm25) && Bm25Codec.Narrowed(libs, x.bm25) == x.bm25
      && ParseImage(libs, SerializeSections(libs, x)) == Err(BadPayload)
  {
    NoTermsFits(libs, [0], []);
    LongIsTooLong(libs);
    LongFits();
    hide LibrariesOk, MetaCodec.Encoded, MetaCodec.FitsSection, Bm25Codec.Fits, Bm25Codec.Narrowed, SerializeSections,
      ParseImage, Expands, NoTerms, Long;
    BigMetadataIsRefused(libs, TooLong(libs));
  }
}
