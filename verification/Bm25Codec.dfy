/** The BM25 section: three floats, document lengths, then per term its text, document
    frequency, bitmap and term frequencies. */
module Bm25Codec {
  import opened Common
  import opened Bytes
  import opened Platform
  import opened Sparse

  /** A term's record with its bitmap still as bytes. */
  datatype Record = Record(term: string, df: nat, blob: seq<Byte>, tf: seq<nat>)

  /** A section, bitmaps undecoded. */
  datatype RawIndex = RawIndex(k1: Word, b: Word, avgdl: Word, docLen: seq<nat>, records: seq<Record>)

  predicate FitsRecord(r: Record) {
    && FitsText(r.term) && r.df < 0x1_0000_0000 && |r.blob| < 0x1_0000_0000
    && |r.tf| == r.df && forall tf :: tf in r.tf ==> tf < 0x1_0000
  }

  predicate FitsRaw(x: RawIndex) {
    && |x.docLen| < 0x1_0000_0000 && |x.records| < 0x1_0000_0000
    && (forall len :: len in x.docLen ==> len < 0x1_0000_0000)
    && (forall r :: r in x.records ==> FitsRecord(r))
  }

  // ---- the layout ----

  function PutRecord(r: Record, tail: seq<Byte>): seq<Byte> {
    PutText(r.term, PutInt(r.df, 4, PutBlob(r.blob, PutInts(r.tf, 2, tail))))
  }

  function PutRecords(rs: seq<Record>, tail: seq<Byte>): seq<Byte> {
    if rs == [] then tail else PutRecord(rs[0], PutRecords(rs[1..], tail))
  }

  function PutCounts(x: RawIndex, tail: seq<Byte>): seq<Byte> {
    PutInt(|x.docLen|, 4, PutInt(|x.records|, 4, PutInts(x.docLen, 4, tail)))
  }

  function PutHead(x: RawIndex, tail: seq<Byte>): seq<Byte> {
    PutInt(x.k1, 4, PutInt(x.b, 4, PutInt(x.avgdl, 4, tail)))
  }

  function PutRaw(x: RawIndex, tail: seq<Byte>): seq<Byte> {
    PutHead(x, PutCounts(x, PutRecords(x.records, tail)))
  }

  // ---- parsing ----

  function ParseRecord(bs: seq<Byte>): Parsed<Record> {
    var (term, b1) :- ParseText(bs);
    var (df, b2) :- ParseInt(b1, 4);
    var (blob, b3) :- ParseBlob(b2);
    var (tf, b4) :- ParseInts(b3, df, 2);
    Parsed(Record(term, df, blob, tf), b4)
  }

  function ParseRecords(bs: seq<Byte>, n: nat): Parsed<seq<Record>>
    decreases n
  {
    if n == 0 then Parsed([], bs)
    else
      var (r, body) :- ParseRecord(bs);
      var (rs, rest) :- ParseRecords(body, n - 1);
      Parsed([r] + rs, rest)
  }

  function AsWord(v: nat): Word { v % 0x1_0000_0000 }

  function ParseHead(bs: seq<Byte>): Parsed<(Word, Word, Word)> {
    var (k1, b1) :- ParseInt(bs, 4);
    var (b, b2) :- ParseInt(b1, 4);
    var (avgdl, b3) :- ParseInt(b2, 4);
    Parsed((AsWord(k1), AsWord(b), AsWord(avgdl)), b3)
  }

  function ParseCounts(bs: seq<Byte>): Parsed<(seq<nat>, nat)> {
    var (n, b1) :- ParseInt(bs, 4);
    var (count, b2) :- ParseInt(b1, 4);
    var (docLen, b3) :- ParseInts(b2, n, 4);
    Parsed((docLen, count), b3)
  }

  function ParseRaw(bs: seq<Byte>): Parsed<RawIndex> {
    var (head, b1) :- ParseHead(bs);
    var (counts, b2) :- ParseCounts(b1);
    var (records, b3) :- ParseRecords(b2, counts.1);
    Parsed(RawIndex(head.0, head.1, head.2, counts.0, records), b3)
  }

  // ---- bitmaps ----

  function RecordOf(libs: Libraries, p: Posting): Record {
    Record(p.term, |p.docs|, libs.putSet(p.docs), p.tf)
  }

  function RecordsOf(libs: Libraries, ps: seq<Posting>): (r: seq<Record>)
    ensures |r| == |ps|
  {
    seq(|ps|, i requires 0 <= i < |ps| => RecordOf(libs, ps[i]))
  }

  function RawOf(libs: Libraries, m: Bm25): RawIndex {
    RawIndex(libs.bits(m.k1), libs.bits(m.b), libs.bits(m.avgdl), m.docLen, RecordsOf(libs, m.terms))
  }

  /** A record's posting: its bitmap must decode, to as many documents as announced. */
  function PostingOf(libs: Libraries, r: Record): Option<Posting> {
    var docs := libs.parseSet(r.blob);
    if docs.None? || |docs.value| != r.df then None else Some(Posting(r.term, docs.value, r.tf))
  }

  function PostingsOf(libs: Libraries, rs: seq<Record>): Option<seq<Posting>> {
    if rs == [] then Some([])
    else
      var p, ps := PostingOf(libs, rs[0]), PostingsOf(libs, rs[1..]);
      if p.None? || ps.None? then None else Some([p.value] + ps.value)
  }

  /** The section payload of an index. */
  function Encoded(libs: Libraries, m: Bm25): seq<Byte> { PutRaw(RawOf(libs, m), []) }

  /** The index over decoded postings; of two postings for one term the later is looked up. */
  function IndexFrom(libs: Libraries, x: RawIndex, ps: seq<Posting>): Bm25 {
    Bm25(libs.float(x.k1), libs.float(x.b), libs.float(x.avgdl), x.docLen, ps, Positions(TermsOf(ps)))
  }

  /** The index of a payload, if it is one. Bytes left over are ignored. */
  function Decoded(libs: Libraries, bs: seq<Byte>): Option<Bm25> {
    var raw := ParseRaw(bs);
    if raw.Malformed? then None
    else
      var ps := PostingsOf(libs, raw.value.records);
      if ps.None? then None else Some(IndexFrom(libs, raw.value, ps.value))
  }

  // ---- what fits ----

  predicate FitsPosting(p: Posting) {
    && FitsText(p.term) && IsIdSet(p.docs) && |p.docs| < 0x1_0000_0000
    && |p.tf| == |p.docs| && forall tf :: tf in p.tf ==> tf < 0x1_0000
  }

  /** Every number fits its field, and lookup leads to the last posting of a term. */
  predicate Fits(m: Bm25) {
    && |m.docLen| < 0x1_0000_0000 && |m.terms| < 0x1_0000_0000
    && (forall len :: len in m.docLen ==> len < 0x1_0000_0000)
    && (forall p :: p in m.terms ==> FitsPosting(p))
    && m.termIndex == Positions(Terms(m))
  }

  /** The index with its three floats as they are stored. */
  function Narrowed(libs: Libraries, m: Bm25): Bm25 {
    m.(k1 := Stored(libs, m.k1), b := Stored(libs, m.b), avgdl := Stored(libs, m.avgdl))
  }

  // ---- the code ----

  method EncodeRecord(libs: Libraries, buf: seq<Byte>, p: Posting) returns (r: seq<Byte>)
    ensures r == buf + PutRecord(RecordOf(libs, p), [])
  {
    hide PutText, PutBlob, PutInts, Le;
    var blob := libs.putSet(p.docs);
    r := buf + PutText(p.term, []) + Le(|p.docs|, 4) + PutBlob(blob, []);
    r := WriteInts(r, p.tf, 2);
    RecordParts(RecordOf(libs, p));
    var text, df, ids, tf := PutText(p.term, []), Le(|p.docs|, 4), PutBlob(blob, []), PutInts(p.tf, 2, []);
    assert buf + text + df + ids + tf == buf + (text + (df + (ids + tf)));
  }

  lemma RecordParts(r: Record)
    ensures PutRecord(r, []) == PutText(r.term, []) + (Le(r.df, 4) + (PutBlob(r.blob, []) + PutInts(r.tf, 2, [])))
  {
    hide PutText, PutBlob, PutInts, Le;
    var t3 := PutInts(r.tf, 2, []);
    var t2 := PutBlob(r.blob, t3);
    var t1 := PutInt(r.df, 4, t2);
    TextTail(r.term, [], t1);
    BlobTail(r.blob, [], t3);
    assert [] + t1 == t1 && [] + t3 == t3;
  }

  method Encode(libs: Libraries, m: Bm25) returns (buf: seq<Byte>)
    ensures buf == Encoded(libs, m)
  {
    ghost var x := RawOf(libs, m);
    hide Le, PutInts, PutRecords, PutRecord;
    buf := Le(libs.bits(m.k1), 4) + Le(libs.bits(m.b), 4) + Le(libs.bits(m.avgdl), 4);
    buf := buf + Le(|m.docLen|, 4) + Le(|m.terms|, 4);
    buf := WriteInts(buf, m.docLen, 4);
    HeadParts(x, PutRecords(x.records, []));
    assert x.records[0..] == x.records;
    for i := 0 to |m.terms|
      invariant Encoded(libs, m) == buf + PutRecords(x.records[i..], [])
    {
      ghost var before := buf;
      buf := EncodeRecord(libs, buf, m.terms[i]);
      NextRecord(x.records, i, before);
      hide Encoded;
    }
    NoRecords(x.records[|m.terms|..]);
  }

  lemma NoRecords(rs: seq<Record>)
    requires rs == []
    ensures PutRecords(rs, []) == []
  {}

  lemma HeadParts(x: RawIndex, tail: seq<Byte>)
    ensures PutHead(x, PutCounts(x, tail))
         == Le(x.k1, 4) + Le(x.b, 4) + Le(x.avgdl, 4) + Le(|x.docLen|, 4) + Le(|x.records|, 4)
            + PutInts(x.docLen, 4, []) + tail
  {
    hide Le, PutInts;
    IntsTail(x.docLen, 4, [], tail);
    assert [] + tail == tail;
    var lens := PutInts(x.docLen, 4, []);
    var a, b, c, n, k := Le(x.k1, 4), Le(x.b, 4), Le(x.avgdl, 4), Le(|x.docLen|, 4), Le(|x.records|, 4);
    assert a + (b + (c + (n + (k + (lens + tail))))) == a + b + c + n + k + lens + tail;
  }

  lemma NextRecord(rs: seq<Record>, i: nat, buf: seq<Byte>)
    requires i < |rs|
    ensures buf + PutRecords(rs[i..], []) == buf + PutRecord(rs[i], []) + PutRecords(rs[i + 1..], [])
  {
    assert rs[i..][1..] == rs[i + 1..];
    var tail := PutRecords(rs[i + 1..], []);
    RecordTail(rs[i], [], tail);
    hide PutRecord;
    assert [] + tail == tail;
    assert PutRecords(rs[i..], []) == PutRecord(rs[i], tail);
    assert buf + PutRecord(rs[i], []) + tail == buf + (PutRecord(rs[i], []) + tail);
  }

  lemma RecordTail(r: Record, tail: seq<Byte>, extra: seq<Byte>)
    ensures PutRecord(r, tail) + extra == PutRecord(r, tail + extra)
  {
    hide PutText, PutInt, PutBlob, PutInts;
    var t3 := PutInts(r.tf, 2, tail);
    var t2 := PutBlob(r.blob, t3);
    var t1 := PutInt(r.df, 4, t2);
    TextTail(r.term, t1, extra);
    IntTail(r.df, 4, t2, extra);
    BlobTail(r.blob, t3, extra);
    IntsTail(r.tf, 2, tail, extra);
  }

  /** Read one posting. `None` stands for a short input, a bitmap that does not decode and a
      document frequency that differs from the bitmap's size. */
  method DecodePosting(libs: Libraries, reader: Reader) returns (r: Option<Posting>)
    modifies reader
    ensures var p := ParseRecord(old(reader.rest));
      if p.Parsed? && PostingOf(libs, p.value).Some?
      then r == PostingOf(libs, p.value) && reader.rest == p.rest
      else r == None
  {
    hide ParseText, ParseInt, ParseBlob, ParseInts;
    var term := reader.ReadText();
    if term.None? { return None; }
    var df := reader.ReadInt(4);
    if df.None? { return None; }
    var blob := reader.ReadBlob();
    if blob.None? { return None; }
    var docs := libs.parseSet(blob.value);
    if docs.None? || |docs.value| != df.value { return None; }
    var tf := reader.ReadInts(df.value, 2);
    if tf.None? { return None; }
    r := Some(Posting(term.value, docs.value, tf.value));
  }

  /** The postings of the records still to come, behind those already read. */
  function ReadOn(libs: Libraries, ps: seq<Posting>, p: Parsed<seq<Record>>): Option<seq<Posting>> {
    if p.Malformed? || PostingsOf(libs, p.value).None? then None else Some(ps + PostingsOf(libs, p.value).value)
  }

  lemma ReadOnNext(libs: Libraries, ps: seq<Posting>, bs: seq<Byte>, n: nat)
    ensures var p := ParseRecord(bs);
      ReadOn(libs, ps, ParseRecords(bs, n + 1))
      == if p.Malformed? || PostingOf(libs, p.value).None? then None
         else ReadOn(libs, ps + [PostingOf(libs, p.value).value], ParseRecords(p.rest, n))
  {
    hide ParseRecord, PostingOf;
    var p := ParseRecord(bs);
    if p.Parsed? {
      var q := ParseRecords(p.rest, n);
      if q.Parsed? {
        assert ([p.value] + q.value)[1..] == q.value;
        if PostingOf(libs, p.value).Some? && PostingsOf(libs, q.value).Some? {
          assert ps + ([PostingOf(libs, p.value).value] + PostingsOf(libs, q.value).value)
              == ps + [PostingOf(libs, p.value).value] + PostingsOf(libs, q.value).value;
        }
      }
    }
  }

  lemma PositionsNext(ps: seq<Posting>, p: Posting)
    ensures Positions(TermsOf(ps + [p])) == Positions(TermsOf(ps))[p.term := |ps|]
  {
    assert TermsOf(ps + [p]) == TermsOf(ps) + [p.term];
    assert (TermsOf(ps) + [p.term])[..|ps|] == TermsOf(ps);
  }

  /** What a payload decodes to, its three parts read already. */
  lemma DecodedParts(libs: Libraries, bs: seq<Byte>)
    ensures var head := ParseHead(bs);
      && (head.Malformed? || ParseCounts(head.rest).Malformed? ==> Decoded(libs, bs) == None)
      && (head.Parsed? && ParseCounts(head.rest).Parsed? ==>
            var counts := ParseCounts(head.rest);
            var ps := ReadOn(libs, [], ParseRecords(counts.rest, counts.value.1));
            Decoded(libs, bs) == if ps.None? then None else
              Some(IndexFrom(libs, RawIndex(head.value.0, head.value.1, head.value.2, counts.value.0, []), ps.value)))
  {
    hide ParseHead, ParseCounts, ParseRecords, PostingsOf;
    var head := ParseHead(bs);
    if head.Parsed? && ParseCounts(head.rest).Parsed? {
      var counts := ParseCounts(head.rest);
      var p := ParseRecords(counts.rest, counts.value.1);
      if p.Parsed? && PostingsOf(libs, p.value).Some? {
        assert [] + PostingsOf(libs, p.value).value == PostingsOf(libs, p.value).value;
      }
    }
  }

  method Decode(libs: Libraries, bytes: seq<Byte>) returns (r: Option<Bm25>)
    ensures r == Decoded(libs, bytes)
  {
    DecodedParts(libs, bytes);
    hide Decoded, ParseInt, ParseInts, ParseRecord, ParseRecords, PostingOf, PostingsOf, ReadOn, Positions, TermsOf;
    var reader := new Reader(bytes);
    var k1 := reader.ReadInt(4);
    if k1.None? { return None; }
    var b := reader.ReadInt(4);
    if b.None? { return None; }
    var avgdl := reader.ReadInt(4);
    if avgdl.None? { return None; }
    var docCount := reader.ReadInt(4);
    if docCount.None? { return None; }
    var termCount := reader.ReadInt(4);
    if termCount.None? { return None; }
    var docLen := reader.ReadInts(docCount.value, 4);
    if docLen.None? { return None; }
    var terms: seq<Posting> := [];
    var termIndex: map<string, nat> := map[];
    ghost var whole := ReadOn(libs, [], ParseRecords(reader.rest, termCount.value));
    NoPostings(libs);
    for i := 0 to termCount.value
      invariant whole == ReadOn(libs, terms, ParseRecords(reader.rest, termCount.value - i))
      invariant |terms| == i && termIndex == Positions(TermsOf(terms))
    {
      ReadOnNext(libs, terms, reader.rest, termCount.value - i - 1);
      var p := DecodePosting(libs, reader);
      if p.None? { return None; }
      PositionsNext(terms, p.value);
      termIndex := termIndex[p.value.term := i];
      terms := terms + [p.value];
    }
    ReadOnNothing(libs, terms, reader.rest);
    r := Some(Bm25(libs.float(AsWord(k1.value)), libs.float(AsWord(b.value)), libs.float(AsWord(avgdl.value)),
                   docLen.value, terms, termIndex));
  }

  lemma NoPostings(libs: Libraries)
    ensures Positions(TermsOf([])) == map[]
  {}

  lemma ReadOnNothing(libs: Libraries, ps: seq<Posting>, bs: seq<Byte>)
    ensures ReadOn(libs, ps, ParseRecords(bs, 0)) == Some(ps)
  {
    assert ps + [] == ps;
  }

  // ---- reading back what was written ----

  lemma ReadHead(x: RawIndex, tail: seq<Byte>)
    ensures ParseHead(PutHead(x, tail)) == Parsed((x.k1, x.b, x.avgdl), tail)
  {
    Widths();
    hide PutInt, ParseInt, Span;
    ParsePutInt(x.avgdl, 4, tail);
    ParsePutInt(x.b, 4, PutInt(x.avgdl, 4, tail));
    ParsePutInt(x.k1, 4, PutInt(x.b, 4, PutInt(x.avgdl, 4, tail)));
  }

  lemma ReadCounts(x: RawIndex, tail: seq<Byte>)
    requires FitsRaw(x)
    ensures ParseCounts(PutCounts(x, tail)) == Parsed((x.docLen, |x.records|), tail)
  {
    Widths();
    hide PutInt, ParseInt, PutInts, ParseInts, Span, FitsRecord;
    var t2 := PutInts(x.docLen, 4, tail);
    ParsePutInts(x.docLen, 4, tail);
    ParsePutInt(|x.records|, 4, t2);
    ParsePutInt(|x.docLen|, 4, PutInt(|x.records|, 4, t2));
  }

  lemma TwoBytes()
    ensures Span(2) == 0x1_0000
  {
    assert Span(1) == 0x100;
  }

  lemma ReadRecord(r: Record, tail: seq<Byte>)
    requires FitsRecord(r)
    ensures ParseRecord(PutRecord(r, tail)) == Parsed(r, tail)
  {
    Widths();
    TwoBytes();
    hide PutText, ParseText, PutInt, ParseInt, PutBlob, ParseBlob, PutInts, ParseInts, Span, FitsText;
    var t3 := PutInts(r.tf, 2, tail);
    var t2 := PutBlob(r.blob, t3);
    ParsePutText(r.term, PutInt(r.df, 4, t2));
    ParsePutInt(r.df, 4, t2);
    ParsePutBlob(r.blob, t3);
    ParsePutInts(r.tf, 2, tail);
  }

  lemma {:induction false} ReadRecords(rs: seq<Record>, tail: seq<Byte>)
    requires forall r :: r in rs ==> FitsRecord(r)
    ensures ParseRecords(PutRecords(rs, tail), |rs|) == Parsed(rs, tail)
    decreases |rs|
  {
    if rs != [] {
      assert rs[0] in rs && rs == [rs[0]] + rs[1..] && forall r :: r in rs[1..] ==> r in rs;
      hide PutRecord, ParseRecord, FitsRecord;
      ReadRecords(rs[1..], tail);
      ReadRecord(rs[0], PutRecords(rs[1..], tail));
    }
  }

  lemma ReadRaw(x: RawIndex, tail: seq<Byte>)
    requires FitsRaw(x)
    ensures ParseRaw(PutRaw(x, tail)) == Parsed(x, tail)
  {
    var t2 := PutRecords(x.records, tail);
    ReadHead(x, PutCounts(x, t2));
    ReadCounts(x, t2);
    hide PutHead, ParseHead, PutCounts, ParseCounts, PutRecords, ParseRecords, FitsRecord;
    ReadRecords(x.records, tail);
  }

  // ---- writing back what was read ----

  lemma WriteHead(bs: seq<Byte>, x: RawIndex)
    requires ParseHead(bs).Parsed? && ParseHead(bs).value == (x.k1, x.b, x.avgdl)
    ensures PutHead(x, ParseHead(bs).rest) == bs
  {
    Widths();
    hide PutInt, ParseInt, Span;
    PutParsedInt(bs, 4);
    var p1 := ParseInt(bs, 4);
    PutParsedInt(p1.rest, 4);
    var p2 := ParseInt(p1.rest, 4);
    PutParsedInt(p2.rest, 4);
  }

  lemma WriteCounts(bs: seq<Byte>)
    requires ParseCounts(bs).Parsed?
    ensures var (docLen, count) := ParseCounts(bs).value;
      && |docLen| < 0x1_0000_0000 && count < 0x1_0000_0000 && (forall len :: len in docLen ==> len < 0x1_0000_0000)
      && PutInt(|docLen|, 4, PutInt(count, 4, PutInts(docLen, 4, ParseCounts(bs).rest))) == bs
  {
    Widths();
    hide PutInt, ParseInt, PutInts, ParseInts, Span;
    PutParsedInt(bs, 4);
    var p1 := ParseInt(bs, 4);
    PutParsedInt(p1.rest, 4);
    var p2 := ParseInt(p1.rest, 4);
    PutParsedInts(p2.rest, p1.value, 4);
  }

  lemma WriteRecord(bs: seq<Byte>)
    requires ParseRecord(bs).Parsed?
    ensures var p := ParseRecord(bs); FitsRecord(p.value) && PutRecord(p.value, p.rest) == bs
  {
    Widths();
    TwoBytes();
    hide PutText, ParseText, PutInt, ParseInt, PutBlob, ParseBlob, PutInts, ParseInts, Span, FitsText;
    PutParsedText(bs);
    var p1 := ParseText(bs);
    PutParsedInt(p1.rest, 4);
    var p2 := ParseInt(p1.rest, 4);
    PutParsedBlob(p2.rest);
    PutParsedInts(ParseBlob(p2.rest).rest, p2.value, 2);
  }

  lemma {:induction false} WriteRecords(bs: seq<Byte>, n: nat)
    requires ParseRecords(bs, n).Parsed?
    ensures var p := ParseRecords(bs, n);
      |p.value| == n && (forall r :: r in p.value ==> FitsRecord(r)) && PutRecords(p.value, p.rest) == bs
    decreases n
  {
    hide PutRecord, ParseRecord, FitsRecord;
    if n > 0 {
      WriteRecord(bs);
      var p := ParseRecord(bs);
      WriteRecords(p.rest, n - 1);
      var q := ParseRecords(p.rest, n - 1);
      assert ([p.value] + q.value)[1..] == q.value;
    }
  }

  lemma WriteRaw(bs: seq<Byte>)
    requires ParseRaw(bs).Parsed?
    ensures var p := ParseRaw(bs); FitsRaw(p.value) && PutRaw(p.value, p.rest) == bs
  {
    var x := ParseRaw(bs).value;
    var p1 := ParseHead(bs);
    var p2 := ParseCounts(p1.rest);
    WriteHead(bs, x);
    WriteCounts(p1.rest);
    hide PutHead, ParseHead, ParseCounts, PutRecords, ParseRecords, FitsRecord, PutInt, PutInts;
    WriteRecords(p2.rest, p2.value.1);
  }

  // ---- the round trips ----

  lemma RecordFits(libs: Libraries, p: Posting)
    requires LibrariesOk(libs) && FitsPosting(p)
    ensures FitsRecord(RecordOf(libs, p)) && PostingOf(libs, RecordOf(libs, p)) == Some(p)
  {
    SetBack(libs, p.docs);
    hide LibrariesOk, FitsText, IsIdSet;
  }

  lemma {:induction false} PostingsBack(libs: Libraries, ps: seq<Posting>)
    requires LibrariesOk(libs) && forall p :: p in ps ==> FitsPosting(p)
    ensures forall r :: r in RecordsOf(libs, ps) ==> FitsRecord(r)
    ensures PostingsOf(libs, RecordsOf(libs, ps)) == Some(ps)
    decreases |ps|
  {
    if ps != [] {
      assert ps[0] in ps && ps == [ps[0]] + ps[1..] && forall p :: p in ps[1..] ==> p in ps;
      RecordFits(libs, ps[0]);
      hide LibrariesOk, FitsPosting, FitsRecord, RecordOf, PostingOf;
      PostingsBack(libs, ps[1..]);
      assert RecordsOf(libs, ps) == [RecordOf(libs, ps[0])] + RecordsOf(libs, ps[1..]);
    }
  }

  /** Reading a written index gives it back, floats rounded to 32 bits; bytes that follow do no harm. */
  lemma DecodeEncoded(libs: Libraries, m: Bm25, extra: seq<Byte>)
    requires LibrariesOk(libs) && Fits(m)
    ensures Decoded(libs, PutRaw(RawOf(libs, m), extra)) == Some(Narrowed(libs, m))
  {
    PostingsBack(libs, m.terms);
    hide LibrariesOk, FitsPosting, FitsRecord, PostingsOf, RecordsOf, PutRaw, ParseRaw, Positions;
    ReadRaw(RawOf(libs, m), extra);
  }

  lemma PostingFits(libs: Libraries, r: Record)
    requires LibrariesOk(libs) && FitsRecord(r) && PostingOf(libs, r).Some?
    ensures FitsPosting(PostingOf(libs, r).value)
    ensures RecordOf(libs, PostingOf(libs, r).value) == r <==> r.blob == libs.putSet(PostingOf(libs, r).value.docs)
  {
    SetRead(libs, r.blob);
    hide LibrariesOk, FitsText, IsIdSet;
  }

  /** Every bitmap is as this version writes it. */
  predicate CanonicalSets(libs: Libraries, rs: seq<Record>, ps: seq<Posting>)
    requires |rs| == |ps|
  {
    forall i :: 0 <= i < |rs| ==> rs[i].blob == libs.putSet(ps[i].docs)
  }

  lemma {:induction false} PostingsFit(libs: Libraries, rs: seq<Record>)
    requires LibrariesOk(libs) && PostingsOf(libs, rs).Some? && forall r :: r in rs ==> FitsRecord(r)
    ensures var ps := PostingsOf(libs, rs).value;
      && |ps| == |rs| && (forall p :: p in ps ==> FitsPosting(p))
      && (RecordsOf(libs, ps) == rs <==> CanonicalSets(libs, rs, ps))
    decreases |rs|
  {
    if rs != [] {
      assert rs[0] in rs && rs == [rs[0]] + rs[1..] && forall r :: r in rs[1..] ==> r in rs;
      PostingFits(libs, rs[0]);
      hide LibrariesOk, FitsPosting, FitsRecord, RecordOf, PostingOf;
      PostingsFit(libs, rs[1..]);
      var p, qs := PostingOf(libs, rs[0]).value, PostingsOf(libs, rs[1..]).value;
      var ps := [p] + qs;
      hide PostingsOf, CanonicalSets, RecordsOf;
      RecordsNext(libs, rs, p, qs);
      CanonicalNext(libs, rs, ps);
    }
  }

  lemma RecordsNext(libs: Libraries, rs: seq<Record>, p: Posting, qs: seq<Posting>)
    requires |rs| > 0
    ensures RecordsOf(libs, [p] + qs) == rs <==> RecordOf(libs, p) == rs[0] && RecordsOf(libs, qs) == rs[1..]
  {
    hide RecordOf;
    assert RecordsOf(libs, [p] + qs) == [RecordOf(libs, p)] + RecordsOf(libs, qs);
    assert rs == [rs[0]] + rs[1..];
  }

  lemma CanonicalNext(libs: Libraries, rs: seq<Record>, ps: seq<Posting>)
    requires |rs| == |ps| > 0
    ensures CanonicalSets(libs, rs, ps)
      <==> rs[0].blob == libs.putSet(ps[0].docs) && CanonicalSets(libs, rs[1..], ps[1..])
  {
    if rs[0].blob == libs.putSet(ps[0].docs) && CanonicalSets(libs, rs[1..], ps[1..]) {
      forall i | 0 <= i < |rs| ensures rs[i].blob == libs.putSet(ps[i].docs) {
        if i > 0 {
          assert rs[1..][i - 1].blob == libs.putSet(ps[1..][i - 1].docs);
        }
      }
    }
  }

  /** How a decoded index and its records hang together. */
  lemma DecodedShape(libs: Libraries, bs: seq<Byte>)
    requires LibrariesOk(libs) && Decoded(libs, bs).Some?
    ensures var p, m := ParseRaw(bs), Decoded(libs, bs).value;
      && p.Parsed? && FitsRaw(p.value) && PutRaw(p.value, p.rest) == bs
      && PostingsOf(libs, p.value.records) == Some(m.terms)
      && m.docLen == p.value.docLen && m.termIndex == Positions(Terms(m))
      && RawOf(libs, m) == p.value.(records := RecordsOf(libs, m.terms))
      && Narrowed(libs, m) == m
  {
    WriteRaw(bs);
    var x := ParseRaw(bs).value;
    hide PostingsOf, RecordsOf, PutRaw, ParseRaw, Positions, FitsRaw;
    FloatBits(libs, x.k1);
    FloatBits(libs, x.b);
    FloatBits(libs, x.avgdl);
  }

  /** Whatever decodes fits: frequencies aligned, ids ascending, floats 32 bits wide. That
      documents are in range is not among it. */
  lemma DecodedFits(libs: Libraries, bs: seq<Byte>)
    requires LibrariesOk(libs) && Decoded(libs, bs).Some?
    ensures var m := Decoded(libs, bs).value; Fits(m) && Narrowed(libs, m) == m
  {
    DecodedShape(libs, bs);
    hide LibrariesOk, Decoded, Narrowed, RawOf, FitsPosting, FitsRecord, PostingsOf, RecordsOf, PutRaw, ParseRaw,
      Positions, CanonicalSets;
    PostingsFit(libs, ParseRaw(bs).value.records);
  }

  /** Decoding gives back exactly what was encoded if and only if every number fits its field
      and the three floats are 32 bits wide. */
  lemma DecodeEncodedIff(libs: Libraries, m: Bm25)
    requires LibrariesOk(libs)
    ensures Decoded(libs, Encoded(libs, m)) == Some(m) <==> Fits(m) && Narrowed(libs, m) == m
  {
    if Fits(m) {
      DecodeEncoded(libs, m, []);
    }
    hide LibrariesOk, Decoded, PutRaw, Fits, Narrowed;
    if Decoded(libs, Encoded(libs, m)) == Some(m) {
      DecodedFits(libs, Encoded(libs, m));
    }
  }

  /** The payload holds nothing but the index, bitmaps as this version writes them. */
  predicate Canonical(libs: Libraries, bs: seq<Byte>) {
    var p := ParseRaw(bs);
    && p.Parsed? && p.rest == []
    && var ps := PostingsOf(libs, p.value.records);
      ps.Some? && |ps.value| == |p.value.records| && CanonicalSets(libs, p.value.records, ps.value)
  }

  /** Re-encoding an accepted payload gives back its bytes if and only if nothing followed the
      index and every bitmap was written in the library's own form. */
  lemma EncodeDecodedIff(libs: Libraries, bs: seq<Byte>)
    requires LibrariesOk(libs) && Decoded(libs, bs).Some?
    ensures Encoded(libs, Decoded(libs, bs).value) == bs <==> Canonical(libs, bs)
  {
    var m := Decoded(libs, bs).value;
    var p := ParseRaw(bs);
    DecodedShape(libs, bs);
    hide LibrariesOk, Decoded, Narrowed, RawOf, FitsPosting, FitsRecord, PostingsOf, RecordsOf, PutRaw, ParseRaw,
      Positions, CanonicalSets;
    PostingsFit(libs, p.value.records);
    PostingsBack(libs, m.terms);
    if Encoded(libs, m) == bs {
      ReadRaw(RawOf(libs, m), []);
    }
  }

  lemma EncodedTail(libs: Libraries, m: Bm25, extra: seq<Byte>)
    ensures Encoded(libs, m) + extra == PutRaw(RawOf(libs, m), extra)
  {
    var x := RawOf(libs, m);
    hide PutInt, PutInts, PutRecords;
    RecordsTail(x.records, [], extra);
    assert [] + extra == extra;
    var t := PutRecords(x.records, []);
    IntsTail(x.docLen, 4, t, extra);
    var t1 := PutInts(x.docLen, 4, t);
    IntTail(|x.records|, 4, t1, extra);
    var t2 := PutInt(|x.records|, 4, t1);
    IntTail(|x.docLen|, 4, t2, extra);
    var t3 := PutInt(|x.docLen|, 4, t2);
    IntTail(x.avgdl, 4, t3, extra);
    var t4 := PutInt(x.avgdl, 4, t3);
    IntTail(x.b, 4, t4, extra);
    IntTail(x.k1, 4, PutInt(x.b, 4, t4), extra);
  }

  lemma {:induction false} RecordsTail(rs: seq<Record>, tail: seq<Byte>, extra: seq<Byte>)
    ensures PutRecords(rs, tail) + extra == PutRecords(rs, tail + extra)
  {
    hide PutRecord;
    if rs != [] {
      RecordsTail(rs[1..], tail, extra);
      RecordTail(rs[0], PutRecords(rs[1..], tail), extra);
    }
  }

  /** A payload followed by anything is still accepted, as the same index, and comes out changed. */
  lemma TrailingBytesAccepted(libs: Libraries, m: Bm25, extra: seq<Byte>)
    requires LibrariesOk(libs) && Fits(m) && Narrowed(libs, m) == m && extra != []
    ensures var bs := Encoded(libs, m) + extra;
      Decoded(libs, bs) == Some(m) && Encoded(libs, Decoded(libs, bs).value) != bs
  {
    DecodeEncoded(libs, m, extra);
    EncodedTail(libs, m, extra);
    hide LibrariesOk, Decoded, PutRaw, Fits, Narrowed;
  }
}
