/** The Edges section: a count, then per document a count and its 64-bit keys. */
module EdgeCodec {
  import opened Common
  import opened Bytes

  type EdgeLists = seq<seq<UrlKey>>

  function PutKeys(keys: seq<UrlKey>, tail: seq<Byte>): seq<Byte> {
    if keys == [] then tail else PutInt(keys[0], 8, PutKeys(keys[1..], tail))
  }

  function PutLists(lists: EdgeLists, tail: seq<Byte>): seq<Byte> {
    if lists == [] then tail
    else PutInt(|lists[0]|, 4, PutKeys(lists[0], PutLists(lists[1..], tail)))
  }

  /** The section payload. */
  function Encoded(lists: EdgeLists): seq<Byte> { PutInt(|lists|, 4, PutLists(lists, [])) }

  function ParseKeys(bs: seq<Byte>, n: nat): Parsed<seq<UrlKey>>
    decreases n
  {
    if n == 0 then Parsed([], bs)
    else
      var (key, body) :- ParseInt(bs, 8);
      var (keys, rest) :- ParseKeys(body, n - 1);
      Parsed([KeyOf(key)] + keys, rest)
  }

  function ParseLists(bs: seq<Byte>, n: nat): Parsed<EdgeLists>
    decreases n
  {
    if n == 0 then Parsed([], bs)
    else
      var (count, body) :- ParseInt(bs, 4);
      var (list, more) :- ParseKeys(body, count);
      var (lists, rest) :- ParseLists(more, n - 1);
      Parsed([list] + lists, rest)
  }

  /** The edge lists of a payload, if it is one: bytes left over make it malformed. */
  function Decoded(bs: seq<Byte>): Option<EdgeLists> {
    var count := ParseInt(bs, 4);
    if count.Malformed? then None
    else
      var p := ParseLists(count.rest, count.value);
      if p.Malformed? || p.rest != [] then None else Some(p.value)
  }

  /** Every count fits its 32-bit field. */
  predicate Fits(lists: EdgeLists) {
    |lists| < 0x1_0000_0000 && forall l :: l in lists ==> |l| < 0x1_0000_0000
  }

  // ---- the code ----

  method Encode(lists: EdgeLists) returns (buf: seq<Byte>)
    ensures buf == Encoded(lists)
  {
    buf := Le(|lists|, 4);
    for i := 0 to |lists|
      invariant Encoded(lists) == buf + PutLists(lists[i..], [])
    {
      var list := lists[i];
      ghost var tail := PutLists(lists[i + 1..], []);
      assert lists[i..][1..] == lists[i + 1..];
      hide PutLists, Encoded, Le;
      assert buf + PutInt(|list|, 4, PutKeys(list, tail)) == buf + Le(|list|, 4) + PutKeys(list, tail);
      buf := buf + Le(|list|, 4);
      assert list[0..] == list;
      for j := 0 to |list|
        invariant Encoded(lists) == buf + PutKeys(list[j..], tail)
      {
        assert list[j..][1..] == list[j + 1..];
        ghost var rest := PutKeys(list[j + 1..], tail);
        assert buf + PutInt(list[j], 8, rest) == buf + Le(list[j], 8) + rest;
        buf := buf + Le(list[j], 8);
      }
    }
  }

  method ReadKeys(reader: Reader, n: nat) returns (r: Option<seq<UrlKey>>)
    modifies reader
    ensures var p := ParseKeys(old(reader.rest), n);
      if p.Parsed? then r == Some(p.value) && reader.rest == p.rest else r == None
  {
    var keys: seq<UrlKey> := [];
    ghost var whole := ParseKeys(reader.rest, n);
    BehindNothing(whole);
    for i := 0 to n
      invariant whole == Behind(keys, ParseKeys(reader.rest, n - i))
    {
      hide ParseInt;
      ghost var before := reader.rest;
      var key := reader.ReadInt(8);
      if key.None? {
        return None;
      }
      BehindNext(keys, KeyOf(key.value), ParseKeys(reader.rest, n - i - 1));
      keys := keys + [KeyOf(key.value)];
    }
    assert keys + [] == keys;
    r := Some(keys);
  }

  method Decode(bytes: seq<Byte>) returns (r: Option<EdgeLists>)
    ensures r == Decoded(bytes)
  {
    var reader := new Reader(bytes);
    var count := reader.ReadInt(4);
    if count.None? {
      return None;
    }
    var n := count.value;
    var out: EdgeLists := [];
    ghost var whole := ParseLists(reader.rest, n);
    BehindNothing(whole);
    hide ParseInt;
    for i := 0 to n
      invariant whole == Behind(out, ParseLists(reader.rest, n - i))
    {
      var edgeCount := reader.ReadInt(4);
      if edgeCount.None? {
        return None;
      }
      var list := ReadKeys(reader, edgeCount.value);
      if list.None? {
        return None;
      }
      BehindNext(out, list.value, ParseLists(reader.rest, n - i - 1));
      out := out + [list.value];
    }
    assert out + [] == out;
    if reader.rest != [] {
      return None;
    }
    r := Some(out);
  }

  // ---- round trips ----

  lemma {:induction false} ParsePutKeys(keys: seq<UrlKey>, tail: seq<Byte>)
    ensures ParseKeys(PutKeys(keys, tail), |keys|) == Parsed(keys, tail)
  {
    if keys != [] {
      Widths();
      ParsePutKeys(keys[1..], tail);
      ParsePutInt(keys[0], 8, PutKeys(keys[1..], tail));
      assert keys == [keys[0]] + keys[1..] && KeyOf(keys[0]) == keys[0];
      hide PutInt, ParseInt, Span, KeyOf;
    }
  }

  lemma ParseOneList(bs: seq<Byte>, n: nat, body: seq<Byte>, list: seq<UrlKey>, more: seq<Byte>, lists: EdgeLists,
                     rest: seq<Byte>)
    requires ParseInt(bs, 4) == Parsed(|list|, body) && ParseKeys(body, |list|) == Parsed(list, more)
    requires ParseLists(more, n) == Parsed(lists, rest)
    ensures ParseLists(bs, n + 1) == Parsed([list] + lists, rest)
  {
    hide ParseInt, ParseKeys;
  }

  lemma {:induction false} ParsePutLists(lists: EdgeLists, tail: seq<Byte>)
    requires forall l :: l in lists ==> |l| < 0x1_0000_0000
    ensures ParseLists(PutLists(lists, tail), |lists|) == Parsed(lists, tail)
    decreases |lists|
  {
    if lists != [] {
      var list, others := lists[0], lists[1..];
      var more := PutLists(others, tail);
      assert list in lists && lists == [list] + others && forall l :: l in others ==> l in lists;
      assert PutLists(lists, tail) == PutInt(|list|, 4, PutKeys(list, more));
      hide PutInt, ParseInt, Span, PutKeys, ParseKeys, PutLists, ParseLists;
      Widths();
      ParsePutLists(others, tail);
      ParsePutKeys(list, more);
      ParsePutInt(|list|, 4, PutKeys(list, more));
      ParseOneList(PutLists(lists, tail), |others|, PutKeys(list, more), list, more, others, tail);
    }
  }

  lemma {:induction false} PutParsedKeys(bs: seq<Byte>, n: nat)
    requires ParseKeys(bs, n).Parsed?
    ensures var p := ParseKeys(bs, n); |p.value| == n && PutKeys(p.value, p.rest) == bs
    decreases n
  {
    if n > 0 {
      Widths();
      PutParsedInt(bs, 8);
      var p := ParseInt(bs, 8);
      PutParsedKeys(p.rest, n - 1);
      assert KeyOf(p.value) == p.value;
      hide PutInt, ParseInt, Span, KeyOf;
      var q := ParseKeys(p.rest, n - 1);
      assert ([KeyOf(p.value)] + q.value)[1..] == q.value;
    }
  }

  lemma {:induction false} PutParsedLists(bs: seq<Byte>, n: nat)
    requires ParseLists(bs, n).Parsed?
    ensures var p := ParseLists(bs, n);
      |p.value| == n && PutLists(p.value, p.rest) == bs && forall l :: l in p.value ==> |l| < 0x1_0000_0000
    decreases n
  {
    if n > 0 {
      Widths();
      hide PutInt, ParseInt, Span, PutKeys, ParseKeys;
      PutParsedInt(bs, 4);
      var p := ParseInt(bs, 4);
      PutParsedKeys(p.rest, p.value);
      var q := ParseKeys(p.rest, p.value);
      PutParsedLists(q.rest, n - 1);
      var r := ParseLists(q.rest, n - 1);
      assert ([q.value] + r.value)[1..] == r.value;
    }
  }

  /** Only one payload decodes to given lists: re-encoding an accepted payload gives back its
      bytes, and what is decoded always fits. */
  lemma EncodeDecoded(bs: seq<Byte>)
    requires Decoded(bs).Some?
    ensures Encoded(Decoded(bs).value) == bs && Fits(Decoded(bs).value)
  {
    Widths();
    PutParsedInt(bs, 4);
    PutParsedLists(ParseInt(bs, 4).rest, ParseInt(bs, 4).value);
    hide PutInt, ParseInt, Span, PutLists, ParseLists;
  }

  /** Decoding gives back exactly the lists that were encoded as long as every count fits its
      field, and never when one does not. */
  lemma DecodeEncodedIff(lists: EdgeLists)
    ensures Decoded(Encoded(lists)) == Some(lists) <==> Fits(lists)
  {
    if Fits(lists) {
      Widths();
      ParsePutLists(lists, []);
      ParsePutInt(|lists|, 4, PutLists(lists, []));
      hide PutInt, ParseInt, Span, PutLists, ParseLists;
    }
    if Decoded(Encoded(lists)) == Some(lists) {
      EncodeDecoded(Encoded(lists));
    }
  }

  lemma EncodedTail(lists: EdgeLists, extra: seq<Byte>)
    ensures Encoded(lists) + extra == PutInt(|lists|, 4, PutLists(lists, extra))
  {
    PutListsTail(lists, [], extra);
    assert [] + extra == extra;
    hide PutLists;
    assert Le(|lists|, 4) + PutLists(lists, []) + extra == Le(|lists|, 4) + (PutLists(lists, []) + extra);
  }

  /** A payload followed by anything is refused. */
  lemma TrailingBytesRefused(bs: seq<Byte>, extra: seq<Byte>)
    requires Decoded(bs).Some? && extra != []
    ensures Decoded(bs + extra) == None
  {
    var lists := Decoded(bs).value;
    EncodeDecoded(bs);
    EncodedTail(lists, extra);
    Widths();
    hide PutInt, ParseInt, Span, PutLists, ParseLists, Encoded;
    ParsePutLists(lists, extra);
    ParsePutInt(|lists|, 4, PutLists(lists, extra));
  }

  lemma {:induction false} PutKeysTail(keys: seq<UrlKey>, tail: seq<Byte>, extra: seq<Byte>)
    ensures PutKeys(keys, tail) + extra == PutKeys(keys, tail + extra)
  {
    if keys != [] {
      PutKeysTail(keys[1..], tail, extra);
      assert Le(keys[0], 8) + PutKeys(keys[1..], tail) + extra == Le(keys[0], 8) + (PutKeys(keys[1..], tail) + extra);
    }
  }

  lemma {:induction false} PutListsTail(lists: EdgeLists, tail: seq<Byte>, extra: seq<Byte>)
    ensures PutLists(lists, tail) + extra == PutLists(lists, tail + extra)
  {
    if lists != [] {
      var more := PutLists(lists[1..], tail);
      PutListsTail(lists[1..], tail, extra);
      PutKeysTail(lists[0], more, extra);
      var keys := PutKeys(lists[0], more);
      assert Le(|lists[0]|, 4) + keys + extra == Le(|lists[0]|, 4) + (keys + extra);
    }
  }
}
