/** The body of the HEAD object: three 64-bit fields. */
module HeadCodec {
  import opened Common
  import opened Bytes
  import opened ObjectStore

  const HEAD_BODY: nat := 24
  const FIELD_LIMIT: nat := 0x1_0000_0000_0000_0000

  datatype Corrupt = WrongLength | GenerationZero

  function PutHead(h: Head): seq<Byte> {
    Le(h.generation, 8) + Le(h.len, 8) + Le(h.sum, 8)
  }

  function ParseHead(body: seq<Byte>): Result<Head, Corrupt> {
    if |body| != HEAD_BODY then Err(WrongLength)
    else
      var head := Head(FromLe(body[0..8]), FromLe(body[8..16]), FromLe(body[16..24]));
      if head.generation == 0 then Err(GenerationZero) else Ok(head)
  }

  predicate FitsHead(h: Head) {
    0 < h.generation < FIELD_LIMIT && h.len < FIELD_LIMIT && h.sum < FIELD_LIMIT
  }

  /** A body decodes to a head exactly when it is that head's encoding, and the head names a
      generation from 1 up. So the two are inverse, and nothing else is accepted. */
  lemma HeadRoundTripIff(body: seq<Byte>, h: Head)
    ensures ParseHead(body) == Ok(h) <==> FitsHead(h) && body == PutHead(h)
  {
    Widths();
    if ParseHead(body) == Ok(h) {
      var a, b, c := body[0..8], body[8..16], body[16..24];
      WriteRead(a);
      WriteRead(b);
      WriteRead(c);
      FromLeBound(a);
      FromLeBound(b);
      FromLeBound(c);
      hide Le, FromLe, Span;
      assert body == a + b + c;
    }
    if FitsHead(h) && body == PutHead(h) {
      ReadWritten(h.generation, 8);
      ReadWritten(h.len, 8);
      ReadWritten(h.sum, 8);
      hide Le, FromLe, Span;
      assert body[0..8] == Le(h.generation, 8) && body[8..16] == Le(h.len, 8) && body[16..24] == Le(h.sum, 8);
    }
  }

  /** Every refusal has one of the two stated causes. */
  lemma RefusedIff(body: seq<Byte>)
    ensures ParseHead(body).Err? <==> |body| != HEAD_BODY || body[0..8] == Le(0, 8)
  {
    if |body| == HEAD_BODY {
      Widths();
      WriteRead(body[0..8]);
      ReadWritten(0, 8);
      hide Le, FromLe, Span;
    }
  }
}
