/** What the index takes from its libraries: 32-bit floats, roaring bitmaps and zstd. */
module Platform {
  import opened Common
  import opened Lexical
  import opened Sorting
  import opened Bytes

  /** A 32-bit word. */
  type Word = w: int | 0 <= w < 0x1_0000_0000

  /** `bits` rounds to the nearest 32-bit float and gives its bits, `float` reads them back.
      `putSet` and `parseSet` are the portable bitmap format, `compress` is zstd at the level used. */
  datatype Libraries = Libraries(
    bits: real -> Word,
    float: Word -> real,
    putSet: seq<DocId> -> seq<Byte>,
    parseSet: seq<Byte> -> Option<seq<DocId>>,
    compress: seq<Byte> -> seq<Byte>,
    decompress: seq<Byte> -> Option<seq<Byte>>)

  /** The ids of a bitmap, in the order it yields them. */
  predicate IsIdSet(ids: seq<DocId>) {
    && (forall i, j :: 0 <= i < j < |ids| ==> ids[i] < ids[j])
    && (forall d :: d in ids ==> d < 0x1_0000_0000)
  }

  /** Bits survive a float, a bitmap and a payload survive being written; a bitmap of 32-bit ids
      takes less than 4 GiB and a compressed payload at least a byte. */
  ghost predicate LibrariesOk(libs: Libraries) {
    && (forall w: Word :: libs.bits(libs.float(w)) == w)
    && (forall ids :: IsIdSet(ids) ==>
          |libs.putSet(ids)| < 0x1_0000_0000 && libs.parseSet(libs.putSet(ids)) == Some(ids))
    && (forall bs :: libs.parseSet(bs).Some? ==> IsIdSet(libs.parseSet(bs).value))
    && (forall bs :: libs.decompress(libs.compress(bs)) == Some(bs) && libs.compress(bs) != [])
  }

  lemma FloatBits(libs: Libraries, w: Word)
    requires LibrariesOk(libs)
    ensures libs.bits(libs.float(w)) == w
  {}

  lemma SetBack(libs: Libraries, ids: seq<DocId>)
    requires LibrariesOk(libs) && IsIdSet(ids)
    ensures |libs.putSet(ids)| < 0x1_0000_0000 && libs.parseSet(libs.putSet(ids)) == Some(ids)
  {}

  lemma SetRead(libs: Libraries, bs: seq<Byte>)
    requires LibrariesOk(libs) && libs.parseSet(bs).Some?
    ensures IsIdSet(libs.parseSet(bs).value)
  {}

  lemma PayloadBack(libs: Libraries, bs: seq<Byte>)
    requires LibrariesOk(libs)
    ensures libs.decompress(libs.compress(bs)) == Some(bs) && libs.compress(bs) != []
  {}

  lemma IdSetAscends(ids: seq<DocId>)
    ensures IsIdSet(ids) <==> Distinct(ids) && SortedBy(NatLe, ids) && forall d :: d in ids ==> d < 0x1_0000_0000
  {}

  /** What a real is after being stored as a 32-bit float. */
  function Stored(libs: Libraries, x: real): real { libs.float(libs.bits(x)) }

  // ---- blocks of floats ----

  function StoredAll(libs: Libraries, xs: seq<real>): (r: seq<real>)
    ensures |r| == |xs|
  {
    seq(|xs|, i requires 0 <= i < |xs| => Stored(libs, xs[i]))
  }

  /** Every component is a 32-bit float already. */
  ghost predicate Exact(libs: Libraries, xs: seq<real>) {
    forall x :: x in xs ==> Stored(libs, x) == x
  }

  lemma ExactIff(libs: Libraries, xs: seq<real>)
    ensures Exact(libs, xs) <==> StoredAll(libs, xs) == xs
  {
    if StoredAll(libs, xs) == xs {
      forall x | x in xs ensures Stored(libs, x) == x {
        var i :| 0 <= i < |xs| && xs[i] == x;
        assert StoredAll(libs, xs)[i] == Stored(libs, xs[i]);
      }
    }
  }

  function PutFloats(libs: Libraries, xs: seq<real>): (r: seq<Byte>)
    ensures |r| == 4 * |xs|
  {
    if xs == [] then [] else Le(libs.bits(xs[0]), 4) + PutFloats(libs, xs[1..])
  }

  /** Four bytes a float; a remainder is ignored. */
  function FloatsIn(libs: Libraries, raw: seq<Byte>): (r: seq<real>)
    ensures |r| == |raw| / 4
  {
    if |raw| < 4 then [] else [libs.float(WordIn(raw))] + FloatsIn(libs, raw[4..])
  }

  function WordIn(raw: seq<Byte>): Word
    requires |raw| >= 4
  {
    FromLeBound(raw[..4]);
    Widths();
    FromLe(raw[..4])
  }

  lemma {:induction false} FloatsBack(libs: Libraries, xs: seq<real>)
    ensures FloatsIn(libs, PutFloats(libs, xs)) == StoredAll(libs, xs)
  {
    if xs != [] {
      FloatsBack(libs, xs[1..]);
      Widths();
      ReadWritten(libs.bits(xs[0]), 4);
      var head, rest := Le(libs.bits(xs[0]), 4), PutFloats(libs, xs[1..]);
      assert (head + rest)[..4] == head && (head + rest)[4..] == rest;
      assert StoredAll(libs, xs) == [Stored(libs, xs[0])] + StoredAll(libs, xs[1..]);
    }
  }

  lemma {:induction false} FloatsRewritten(libs: Libraries, raw: seq<Byte>)
    requires LibrariesOk(libs) && |raw| % 4 == 0
    ensures PutFloats(libs, FloatsIn(libs, raw)) == raw
  {
    if raw != [] {
      var x := libs.float(WordIn(raw));
      FloatBits(libs, WordIn(raw));
      WriteRead(raw[..4]);
      hide LibrariesOk, Le, FromLe;
      FloatsRewritten(libs, raw[4..]);
      assert FloatsIn(libs, raw)[1..] == FloatsIn(libs, raw[4..]);
      assert raw == raw[..4] + raw[4..];
    }
  }
}
