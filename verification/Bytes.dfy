/** Little-endian fields over bytes, and a cursor that reads them back. */
module Bytes {
  import opened Common

  type Byte = b: int | 0 <= b < 256

  /** The number of values of an `n`-byte field. */
  function Span(n: nat): (m: nat)
    ensures m > 0
  {
    if n == 0 then 1 else 256 * Span(n - 1)
  }

  lemma Widths()
    ensures Span(1) == 0x100 && Span(4) == 0x1_0000_0000 && Span(8) == 0x1_0000_0000_0000_0000
  {
    assert Span(1) == 0x100 && Span(2) == 0x1_0000 && Span(3) == 0x100_0000;
    assert Span(5) == 0x100_0000_0000 && Span(6) == 0x1_0000_0000_0000;
  }

  /** The low `n` bytes of `v`, least significant first; anything above is cut off. */
  function Le(v: nat, n: nat): (r: seq<Byte>)
    ensures |r| == n
  {
    if n == 0 then [] else [v % 256] + Le(v / 256, n - 1)
  }

  function FromLe(bs: seq<Byte>): nat {
    if bs == [] then 0 else bs[0] + 256 * FromLe(bs[1..])
  }

  lemma {:induction false} FromLeBound(bs: seq<Byte>)
    ensures FromLe(bs) < Span(|bs|)
  {
    if bs != [] {
      FromLeBound(bs[1..]);
    }
  }

  /** Reading back what was written gives the value when it fits the field. */
  lemma {:induction false} ReadWritten(v: nat, n: nat)
    requires v < Span(n)
    ensures FromLe(Le(v, n)) == v
  {
    if n > 0 {
      ReadWritten(v / 256, n - 1);
    }
  }

  lemma LowByte(b: Byte, v: nat)
    ensures (b + 256 * v) % 256 == b && (b + 256 * v) / 256 == v
  {}

  /** Writing what was read gives back the bytes. */
  lemma {:induction false} WriteRead(bs: seq<Byte>)
    ensures Le(FromLe(bs), |bs|) == bs
  {
    if bs != [] {
      WriteRead(bs[1..]);
      LowByte(bs[0], FromLe(bs[1..]));
      assert bs == [bs[0]] + bs[1..];
    }
  }

  /** An 8-byte field as a key; every such value is one. */
  function KeyOf(v: nat): UrlKey { v % 0x1_0000_0000_0000_0000 }

  // ---- parsing ----

  datatype Parsed<+T> = Malformed | Parsed(value: T, rest: seq<Byte>) {
    predicate IsFailure() { Malformed? }

    function PropagateFailure<U>(): Parsed<U>
      requires IsFailure()
    {
      Malformed
    }

    function Extract(): (T, seq<Byte>)
      requires !IsFailure()
    {
      (value, rest)
    }
  }

  function ParseInt(bs: seq<Byte>, n: nat): Parsed<nat> {
    if |bs| < n then Malformed else Parsed(FromLe(bs[..n]), bs[n..])
  }

  function PutInt(v: nat, n: nat, tail: seq<Byte>): seq<Byte> { Le(v, n) + tail }

  lemma ParsePutInt(v: nat, n: nat, tail: seq<Byte>)
    requires v < Span(n)
    ensures ParseInt(PutInt(v, n, tail), n) == Parsed(v, tail)
  {
    ReadWritten(v, n);
    var bs := PutInt(v, n, tail);
    assert bs[..n] == Le(v, n) && bs[n..] == tail;
  }

  lemma PutParsedInt(bs: seq<Byte>, n: nat)
    requires ParseInt(bs, n).Parsed?
    ensures var p := ParseInt(bs, n); PutInt(p.value, n, p.rest) == bs && p.value < Span(n) && |p.rest| == |bs| - n
  {
    WriteRead(bs[..n]);
    FromLeBound(bs[..n]);
    assert bs == bs[..n] + bs[n..];
  }

  // ---- length-prefixed text, one char a byte ----

  predicate ByteText(s: string) { forall c :: c in s ==> c < 256 as char }

  function Raw(s: string): (r: seq<Byte>)
    ensures |r| == |s|
  {
    seq(|s|, i requires 0 <= i < |s| => ByteOf(s[i]))
  }

  function ByteOf(c: char): Byte { c as int % 256 }

  function TextOf(bs: seq<Byte>): (s: string)
    ensures |s| == |bs| && ByteText(s)
  {
    seq(|bs|, i requires 0 <= i < |bs| => bs[i] as char)
  }

  predicate FitsText(s: string) { ByteText(s) && |s| < 0x1_0000_0000 }

  function ParseText(bs: seq<Byte>): Parsed<string> {
    var (n, body) :- ParseInt(bs, 4);
    if |body| < n then Malformed else Parsed(TextOf(body[..n]), body[n..])
  }

  function PutText(s: string, tail: seq<Byte>): seq<Byte> {
    PutInt(|s|, 4, Raw(s) + tail)
  }

  lemma ParsePutText(s: string, tail: seq<Byte>)
    requires FitsText(s)
    ensures ParseText(PutText(s, tail)) == Parsed(s, tail)
  {
    Widths();
    ParsePutInt(|s|, 4, Raw(s) + tail);
    hide PutInt, ParseInt, Span;
    assert (Raw(s) + tail)[..|s|] == Raw(s) && (Raw(s) + tail)[|s|..] == tail;
    assert TextOf(Raw(s)) == s by {
      assert forall i :: 0 <= i < |s| ==> s[i] in s;
    }
  }

  lemma PutParsedText(bs: seq<Byte>)
    requires ParseText(bs).Parsed?
    ensures var p := ParseText(bs); FitsText(p.value) && PutText(p.value, p.rest) == bs && |p.rest| < |bs|
  {
    Widths();
    PutParsedInt(bs, 4);
    var p := ParseInt(bs, 4);
    var s := TextOf(p.rest[..p.value]);
    hide PutInt, ParseInt, Span;
    assert Raw(s) == p.rest[..p.value];
    assert p.rest == p.rest[..p.value] + p.rest[p.value..];
  }

  /** An optional text: a flag byte, then the text when the flag is one. */
  function ParseOptional(bs: seq<Byte>): Parsed<Option<string>> {
    var (flag, body) :- ParseInt(bs, 1);
    if flag == 0 then Parsed(None, body)
    else if flag == 1 then
      var (s, rest) :- ParseText(body);
      Parsed(Some(s), rest)
    else Malformed
  }

  predicate FitsOptional(o: Option<string>) { o.None? || FitsText(o.value) }

  function PutOptional(o: Option<string>, tail: seq<Byte>): seq<Byte> {
    if o.None? then PutInt(0, 1, tail) else PutInt(1, 1, PutText(o.value, tail))
  }

  lemma ParsePutOptional(o: Option<string>, tail: seq<Byte>)
    requires FitsOptional(o)
    ensures ParseOptional(PutOptional(o, tail)) == Parsed(o, tail)
  {
    Widths();
    if o.None? {
      ParsePutInt(0, 1, tail);
    } else {
      ParsePutText(o.value, tail);
      ParsePutInt(1, 1, PutText(o.value, tail));
    }
    hide PutInt, ParseInt, PutText, ParseText, Span, FitsText;
  }

  lemma PutParsedOptional(bs: seq<Byte>)
    requires ParseOptional(bs).Parsed?
    ensures var p := ParseOptional(bs); FitsOptional(p.value) && PutOptional(p.value, p.rest) == bs && |p.rest| < |bs|
  {
    PutParsedInt(bs, 1);
    var p := ParseInt(bs, 1);
    if p.value == 1 {
      PutParsedText(p.rest);
    }
    hide PutInt, ParseInt, PutText, ParseText, Span, FitsText;
  }

  // ---- blobs, and runs of equally wide fields ----

  function ParseBlob(bs: seq<Byte>): Parsed<seq<Byte>> {
    var (n, body) :- ParseInt(bs, 4);
    if |body| < n then Malformed else Parsed(body[..n], body[n..])
  }

  function PutBlob(blob: seq<Byte>, tail: seq<Byte>): seq<Byte> { PutInt(|blob|, 4, blob + tail) }

  lemma ParsePutBlob(blob: seq<Byte>, tail: seq<Byte>)
    requires |blob| < 0x1_0000_0000
    ensures ParseBlob(PutBlob(blob, tail)) == Parsed(blob, tail)
  {
    Widths();
    ParsePutInt(|blob|, 4, blob + tail);
    hide PutInt, ParseInt, Span;
    assert (blob + tail)[..|blob|] == blob && (blob + tail)[|blob|..] == tail;
  }

  lemma PutParsedBlob(bs: seq<Byte>)
    requires ParseBlob(bs).Parsed?
    ensures var p := ParseBlob(bs); |p.value| < 0x1_0000_0000 && PutBlob(p.value, p.rest) == bs
  {
    Widths();
    PutParsedInt(bs, 4);
    var p := ParseInt(bs, 4);
    hide PutInt, ParseInt, Span;
    assert p.rest == p.rest[..p.value] + p.rest[p.value..];
  }

  /** `n` fields of `width` bytes each. */
  function ParseInts(bs: seq<Byte>, n: nat, width: nat): Parsed<seq<nat>>
    decreases n
  {
    if n == 0 then Parsed([], bs)
    else
      var (v, body) :- ParseInt(bs, width);
      var (vs, rest) :- ParseInts(body, n - 1, width);
      Parsed([v] + vs, rest)
  }

  function PutInts(vs: seq<nat>, width: nat, tail: seq<Byte>): seq<Byte> {
    if vs == [] then tail else PutInt(vs[0], width, PutInts(vs[1..], width, tail))
  }

  lemma {:induction false} ParsePutInts(vs: seq<nat>, width: nat, tail: seq<Byte>)
    requires forall v :: v in vs ==> v < Span(width)
    ensures ParseInts(PutInts(vs, width, tail), |vs|, width) == Parsed(vs, tail)
  {
    if vs != [] {
      assert vs[0] in vs && vs == [vs[0]] + vs[1..] && forall v :: v in vs[1..] ==> v in vs;
      ParsePutInts(vs[1..], width, tail);
      ParsePutInt(vs[0], width, PutInts(vs[1..], width, tail));
      hide PutInt, ParseInt, Span;
    }
  }

  lemma {:induction false} PutParsedInts(bs: seq<Byte>, n: nat, width: nat)
    requires ParseInts(bs, n, width).Parsed?
    ensures var p := ParseInts(bs, n, width);
      |p.value| == n && PutInts(p.value, width, p.rest) == bs && forall v :: v in p.value ==> v < Span(width)
    decreases n
  {
    if n > 0 {
      PutParsedInt(bs, width);
      var p := ParseInt(bs, width);
      hide PutInt, ParseInt, Span;
      PutParsedInts(p.rest, n - 1, width);
      var q := ParseInts(p.rest, n - 1, width);
      assert ([p.value] + q.value)[1..] == q.value;
    }
  }

  lemma BlobTail(blob: seq<Byte>, tail: seq<Byte>, extra: seq<Byte>)
    ensures PutBlob(blob, tail) + extra == PutBlob(blob, tail + extra)
  {
    IntTail(|blob|, 4, blob + tail, extra);
    assert blob + tail + extra == blob + (tail + extra);
  }

  lemma {:induction false} IntsTail(vs: seq<nat>, width: nat, tail: seq<Byte>, extra: seq<Byte>)
    ensures PutInts(vs, width, tail) + extra == PutInts(vs, width, tail + extra)
  {
    if vs != [] {
      IntsTail(vs[1..], width, tail, extra);
      IntTail(vs[0], width, PutInts(vs[1..], width, tail), extra);
      hide PutInt;
    }
  }

  // ---- appending fields ----

  /** Append `vs` to a buffer, field by field. */
  method WriteInts(buf: seq<Byte>, vs: seq<nat>, width: nat) returns (r: seq<Byte>)
    ensures r == buf + PutInts(vs, width, [])
  {
    r := buf;
    assert vs[0..] == vs;
    for i := 0 to |vs|
      invariant r + PutInts(vs[i..], width, []) == buf + PutInts(vs, width, [])
    {
      hide Le;
      assert vs[i..][1..] == vs[i + 1..];
      var tail := PutInts(vs[i + 1..], width, []);
      assert r + (Le(vs[i], width) + tail) == r + Le(vs[i], width) + tail;
      r := r + Le(vs[i], width);
    }
    assert vs[|vs|..] == [] && r + [] == r;
  }

  lemma IntTail(v: nat, n: nat, tail: seq<Byte>, extra: seq<Byte>)
    ensures PutInt(v, n, tail) + extra == PutInt(v, n, tail + extra)
  {
    assert Le(v, n) + tail + extra == Le(v, n) + (tail + extra);
  }

  lemma TextTail(s: string, tail: seq<Byte>, extra: seq<Byte>)
    ensures PutText(s, tail) + extra == PutText(s, tail + extra)
  {
    IntTail(|s|, 4, Raw(s) + tail, extra);
    assert Raw(s) + tail + extra == Raw(s) + (tail + extra);
  }

  lemma OptionalTail(o: Option<string>, tail: seq<Byte>, extra: seq<Byte>)
    ensures PutOptional(o, tail) + extra == PutOptional(o, tail + extra)
  {
    if o.None? {
      IntTail(0, 1, tail, extra);
    } else {
      TextTail(o.value, tail, extra);
      IntTail(1, 1, PutText(o.value, tail), extra);
    }
  }

  // ---- reading lists ----

  /** `first` is read, `p` is what the rest parses to. */
  function Behind<T>(first: seq<T>, p: Parsed<seq<T>>): Parsed<seq<T>> {
    if p.Malformed? then Malformed else Parsed(first + p.value, p.rest)
  }

  lemma BehindNothing<T>(p: Parsed<seq<T>>)
    ensures Behind([], p) == p
  {
    if p.Parsed? {
      assert [] + p.value == p.value;
    }
  }

  lemma BehindNext<T>(first: seq<T>, x: T, p: Parsed<seq<T>>)
    ensures Behind(first, if p.Malformed? then Malformed else Parsed([x] + p.value, p.rest)) == Behind(first + [x], p)
  {
    if p.Parsed? {
      assert first + ([x] + p.value) == first + [x] + p.value;
    }
  }

  // ---- the cursor ----

  /** Reads fields off the front; a short input leaves the cursor where it was. */
  class Reader {
    var rest: seq<Byte>

    constructor (bytes: seq<Byte>)
      ensures rest == bytes
    {
      rest := bytes;
    }

    method ReadInt(n: nat) returns (r: Option<nat>)
      modifies this
      ensures var p := ParseInt(old(rest), n);
        if p.Parsed? then r == Some(p.value) && rest == p.rest else r == None && rest == old(rest)
    {
      if |rest| < n {
        return None;
      }
      r := Some(FromLe(rest[..n]));
      rest := rest[n..];
    }

    method ReadText() returns (r: Option<string>)
      modifies this
      ensures var p := ParseText(old(rest)); if p.Parsed? then r == Some(p.value) && rest == p.rest else r == None
    {
      var n := ReadInt(4);
      if n.None? || |rest| < n.value {
        return None;
      }
      r := Some(TextOf(rest[..n.value]));
      rest := rest[n.value..];
    }

    method ReadOptional() returns (r: Option<Option<string>>)
      modifies this
      ensures var p := ParseOptional(old(rest)); if p.Parsed? then r == Some(p.value) && rest == p.rest else r == None
    {
      var flag := ReadInt(1);
      if flag == Some(0) {
        return Some(None);
      }
      if flag != Some(1) {
        return None;
      }
      var s := ReadText();
      r := if s.None? then None else Some(s);
    }

    method ReadBlob() returns (r: Option<seq<Byte>>)
      modifies this
      ensures var p := ParseBlob(old(rest)); if p.Parsed? then r == Some(p.value) && rest == p.rest else r == None
    {
      var n := ReadInt(4);
      if n.None? || |rest| < n.value {
        return None;
      }
      r := Some(rest[..n.value]);
      rest := rest[n.value..];
    }

    method ReadInts(n: nat, width: nat) returns (r: Option<seq<nat>>)
      modifies this
      ensures var p := ParseInts(old(rest), n, width);
        if p.Parsed? then r == Some(p.value) && rest == p.rest else r == None
    {
      var vs: seq<nat> := [];
      ghost var whole := ParseInts(rest, n, width);
      BehindNothing(whole);
      hide ParseInt;
      for i := 0 to n
        invariant whole == Behind(vs, ParseInts(rest, n - i, width))
      {
        var v := ReadInt(width);
        if v.None? {
          return None;
        }
        BehindNext(vs, v.value, ParseInts(rest, n - i - 1, width));
        vs := vs + [v.value];
      }
      assert vs + [] == vs;
      r := Some(vs);
    }
  }
}
