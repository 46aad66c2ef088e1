/** The int8 tier: per-row symmetric scalar quantization and its error bound, over the reals. */
module Quant {
  import opened Builder
  import opened Dense

  const LEVELS: int := 127

  function Abs(x: real): real { if x < 0.0 then -x else x }

  function MaxAbs(row: seq<real>): (m: real)
    ensures m >= 0.0
    ensures forall i :: 0 <= i < |row| ==> Abs(row[i]) <= m
    ensures m > 0.0 ==> exists i :: 0 <= i < |row| && Abs(row[i]) == m
  {
    if row == [] then 0.0
    else
      var last := Abs(row[|row| - 1]);
      var m := MaxAbs(row[..|row| - 1]);
      if m < last then last else m
  }

  function ScaleOf(row: seq<real>): (s: real)
    ensures s > 0.0
  {
    if MaxAbs(row) > 0.0 then MaxAbs(row) / (LEVELS as real) else 1.0
  }

  /** Nearest integer, halves away from zero. */
  function Round(x: real): int {
    if x >= 0.0 then (x + 0.5).Floor else -((-x + 0.5).Floor)
  }

  function Clamp(n: int): (c: int)
    ensures -LEVELS <= c <= LEVELS
  {
    if n < -LEVELS then -LEVELS else if n > LEVELS then LEVELS else n
  }

  function CodeOf(x: real, scale: real): (c: int)
    requires scale > 0.0
    ensures -LEVELS <= c <= LEVELS
  {
    Clamp(Round(Scaled(x, scale)))
  }

  /** A component in steps of the scale. */
  function Scaled(x: real, scale: real): real
    requires scale > 0.0
  {
    x * (1.0 / scale)
  }

  function Codes(row: seq<real>): (r: seq<int>)
    ensures |r| == |row| && forall i :: 0 <= i < |r| ==> -LEVELS <= r[i] <= LEVELS
  {
    seq(|row|, i requires 0 <= i < |row| => CodeOf(row[i], ScaleOf(row)))
  }

  method LargestAbs(row: seq<real>) returns (maxAbs: real)
    ensures maxAbs == MaxAbs(row)
  {
    maxAbs := 0.0;
    for i := 0 to |row|
      invariant maxAbs == MaxAbs(row[..i])
    {
      assert row[..i + 1][..i] == row[..i];
      maxAbs := if maxAbs < Abs(row[i]) then Abs(row[i]) else maxAbs;
    }
    assert row[..|row|] == row;
  }

  /** Quantize one row into `out` from position `base`; returns the scale. */
  method EncodeRow(row: seq<real>, out: array<int>, base: nat) returns (scale: real)
    requires base + |row| <= out.Length
    modifies out
    ensures scale == ScaleOf(row)
    ensures out[..] == old(out[..base]) + Codes(row) + old(out[base + |row|..])
  {
    hide CodeOf;
    var maxAbs := LargestAbs(row);
    scale := if maxAbs > 0.0 then maxAbs / (LEVELS as real) else 1.0;
    ghost var codes := Codes(row);
    assert forall i :: 0 <= i < |row| ==> codes[i] == CodeOf(row[i], scale);
    hide ScaleOf, MaxAbs, CodeOf, Codes;
    for i := 0 to |row|
      invariant forall j :: 0 <= j < out.Length ==>
        out[j] == if base <= j < base + i then codes[j - base] else old(out[j])
    {
      out[base + i] := CodeOf(row[i], scale);
    }
    CodesInPlace(out[..], old(out[..]), codes, base);
  }

  lemma CodesInPlace(now: seq<int>, was: seq<int>, codes: seq<int>, base: nat)
    requires |now| == |was| && base + |codes| <= |was|
    requires forall j :: 0 <= j < |was| ==> now[j] == if base <= j < base + |codes| then codes[j - base] else was[j]
    ensures now == was[..base] + codes + was[base + |codes|..]
  {}

  datatype Int8 = Int8(dim: nat, codes: seq<int>, scales: seq<real>)

  function DocCount(cells: nat, dim: nat): (n: nat)
    requires dim > 0
    ensures Cells(n, dim) <= cells
  {
    CellsOfQuotient(cells, dim);
    cells / dim
  }

  lemma CellsOfQuotient(cells: nat, dim: nat)
    requires dim > 0
    ensures Cells(cells / dim, dim) <= cells
  {}

  function RowOf<T>(blob: seq<T>, dim: nat, d: nat, n: nat): (r: seq<T>)
    requires d < n && Cells(n, dim) <= |blob|
    ensures |r| == dim
  {
    RowFits(d, n, dim);
    blob[Cells(d, dim)..Cells(d, dim) + dim]
  }

  /** Row `d` is stored as the codes of the vector, with its scale. */
  ghost predicate RowEncoded(x: Int8, dense: seq<real>, d: nat, n: nat) {
    && d < n && Cells(n, x.dim) <= |dense| && Cells(n, x.dim) == |x.codes| && |x.scales| == n
    && x.scales[d] == ScaleOf(RowOf(dense, x.dim, d, n))
    && RowOf(x.codes, x.dim, d, n) == Codes(RowOf(dense, x.dim, d, n))
  }

  method EncodeInt8(dense: seq<real>, dim: nat) returns (x: Int8)
    requires dim > 0
    ensures x.dim == dim
    ensures forall d: nat :: d < DocCount(|dense|, dim) ==> RowEncoded(x, dense, d, DocCount(|dense|, dim))
  {
    var n := DocCount(|dense|, dim);
    var codes := new int[Cells(n, dim)];
    var scales: seq<real> := [];
    for d := 0 to n
      invariant |scales| == d
      invariant forall e: nat :: e < d ==> scales[e] == ScaleOf(RowOf(dense, dim, e, n))
      invariant forall e: nat :: e < d ==> RowOf(codes[..], dim, e, n) == Codes(RowOf(dense, dim, e, n))
    {
      hide ScaleOf, Codes, Cells, RowOf;
      ghost var was := codes[..];
      var row := RowOf(dense, dim, d, n);
      RowFits(d, n, dim);
      var scale := EncodeRow(row, codes, Cells(d, dim));
      RowWritten(was, codes[..], dim, d, n, Codes(row));
      scales := scales + [scale];
    }
    x := Int8(dim, codes[..], scales);
  }

  lemma RowWritten<T>(was: seq<T>, now: seq<T>, dim: nat, d: nat, n: nat, row: seq<T>)
    requires d < n && |was| == Cells(n, dim) && |row| == dim && Cells(d, dim) + dim <= |was|
    requires now == was[..Cells(d, dim)] + row + was[Cells(d, dim) + dim..]
    ensures RowOf(now, dim, d, n) == row
    ensures forall e: nat :: e < d ==> RowOf(now, dim, e, n) == RowOf(was, dim, e, n)
  {
    hide Cells;
    forall e: nat | e < d ensures RowOf(now, dim, e, n) == RowOf(was, dim, e, n) {
      RowFits(e, d, dim);
    }
  }

  // ---- the error bound ----

  lemma RoundNear(y: real)
    ensures Abs((Round(y) as real) - y) <= 0.5
  {}

  lemma RoundInRange(y: real)
    requires -(LEVELS as real) <= y <= LEVELS as real
    ensures Clamp(Round(y)) == Round(y)
  {}

  lemma Unscale(x: real, scale: real)
    requires scale > 0.0
    ensures Scaled(x, scale) * scale == x
  {
    assert (1.0 / scale) * scale == 1.0;
  }

  /** Dividing by the scale brings every component of the row within the code range. */
  lemma ScaledInRange(x: real, m: real, scale: real)
    requires scale > 0.0 && Abs(x) <= m && m <= scale * (LEVELS as real)
    ensures -(LEVELS as real) <= Scaled(x, scale) <= LEVELS as real
  {
    var y := Scaled(x, scale);
    Unscale(x, scale);
    hide Scaled;
    assert ((LEVELS as real) - y) * scale >= 0.0 && ((LEVELS as real) + y) * scale >= 0.0;
    FactorNonNegative((LEVELS as real) - y, scale);
    FactorNonNegative((LEVELS as real) + y, scale);
  }

  lemma FactorNonNegative(a: real, scale: real)
    requires scale > 0.0 && a * scale >= 0.0
    ensures a >= 0.0
  {}

  lemma ScaleCovers(row: seq<real>)
    ensures MaxAbs(row) <= ScaleOf(row) * (LEVELS as real)
  {}

  lemma StepError(c: real, y: real, scale: real)
    requires scale > 0.0 && Abs(c - y) <= 0.5
    ensures Abs(c * scale - y * scale) <= scale / 2.0
  {
    assert c * scale - y * scale == (c - y) * scale;
    HalfStep(c - y, scale);
  }

  /** A code stands for a component to within half a step. */
  predicate Near(code: int, x: real, scale: real) {
    Abs((code as real) * scale - x) <= scale / 2.0
  }

  lemma CodeIsNear(x: real, m: real, scale: real)
    requires scale > 0.0 && Abs(x) <= m && m <= scale * (LEVELS as real)
    ensures Near(CodeOf(x, scale), x, scale)
  {
    var y := Scaled(x, scale);
    hide Scaled, Round, Clamp;
    ScaledInRange(x, m, scale);
    RoundNear(y);
    RoundInRange(y);
    NearUnscaled(Round(y), x, scale);
  }

  lemma NearUnscaled(c: int, x: real, scale: real)
    requires scale > 0.0 && Abs((c as real) - Scaled(x, scale)) <= 0.5
    ensures Near(c, x, scale)
  {
    Unscale(x, scale);
    hide Scaled;
    StepError(c as real, Scaled(x, scale), scale);
  }

  /** Every component of an encoded row is stored to within half a step. */
  lemma CodeNear(row: seq<real>, i: nat)
    requires i < |row|
    ensures Near(Codes(row)[i], row[i], ScaleOf(row))
  {
    ScaleCovers(row);
    CodeIsNear(row[i], MaxAbs(row), ScaleOf(row));
    hide Near, MaxAbs, ScaleOf, CodeOf;
  }

  lemma HalfStep(e: real, scale: real)
    requires Abs(e) <= 0.5 && scale > 0.0
    ensures Abs(e * scale) <= scale / 2.0
  {
    assert (0.5 - e) * scale >= 0.0 && (0.5 + e) * scale >= 0.0;
  }

  function Times(a: real, b: real): real { a * b }

  function CodeDot(codes: seq<int>, query: seq<real>): real
    requires |codes| == |query|
  {
    if codes == [] then 0.0
    else CodeDot(codes[..|codes| - 1], query[..|query| - 1]) + Times(codes[|codes| - 1] as real, query[|query| - 1])
  }

  function SumAbs(q: seq<real>): real {
    if q == [] then 0.0 else SumAbs(q[..|q| - 1]) + Abs(q[|q| - 1])
  }

  /** `approx` steps stand for `exact` to within half a step for every unit of `sum`. */
  predicate Within(approx: real, exact: real, sum: real, scale: real) {
    Abs(approx * scale - exact) <= scale / 2.0 * sum
  }

  lemma TermError(code: int, scale: real, x: real, q: real)
    requires Near(code, x, scale)
    ensures Within(Times(code as real, q), Times(q, x), Abs(q), scale)
  {
    var e := (code as real) * scale - x;
    assert (code as real) * q * scale - q * x == e * q;
    ScaledError(e, scale / 2.0, q);
  }

  lemma NonNegativeProduct(a: real, b: real)
    requires a >= 0.0 && b >= 0.0
    ensures a * b >= 0.0
  {}

  lemma ScaledError(e: real, bound: real, q: real)
    requires Abs(e) <= bound
    ensures Abs(e * q) <= bound * Abs(q)
  {
    NonNegativeProduct(bound - e, Abs(q));
    NonNegativeProduct(bound + e, Abs(q));
  }

  /** The approximate dot product is within half a step per unit of the query's absolute sum. */
  predicate DotBound(codes: seq<int>, row: seq<real>, query: seq<real>, scale: real)
    requires |codes| == |row| == |query|
  {
    Within(CodeDot(codes, query), DotSum(query, row), SumAbs(query), scale)
  }

  lemma DotErrorStep(codes: seq<int>, row: seq<real>, query: seq<real>, scale: real, n: nat)
    requires |codes| == |row| == |query| == n + 1
    requires DotBound(codes[..n], row[..n], query[..n], scale) && Near(codes[n], row[n], scale)
    ensures DotBound(codes, row, query, scale)
  {
    LastTerms(codes, row, query, n);
    TermError(codes[n], scale, row[n], query[n]);
    hide CodeDot, DotSum, SumAbs, Near, Times, Within, Abs;
    SumErrors(CodeDot(codes[..n], query[..n]), DotSum(query[..n], row[..n]), SumAbs(query[..n]),
              Times(codes[n] as real, query[n]), Times(query[n], row[n]), Abs(query[n]), scale);
  }

  lemma LastTerms(codes: seq<int>, row: seq<real>, query: seq<real>, n: nat)
    requires |codes| == |row| == |query| == n + 1
    ensures CodeDot(codes, query) == CodeDot(codes[..n], query[..n]) + Times(codes[n] as real, query[n])
    ensures DotSum(query, row) == DotSum(query[..n], row[..n]) + Times(query[n], row[n])
    ensures SumAbs(query) == SumAbs(query[..n]) + Abs(query[n])
  {}

  lemma {:induction false} DotError(codes: seq<int>, row: seq<real>, query: seq<real>, scale: real)
    requires |codes| == |row| == |query|
    requires forall i :: 0 <= i < |row| ==> Near(codes[i], row[i], scale)
    ensures DotBound(codes, row, query, scale)
  {
    hide Near;
    if row == [] {
      assert CodeDot(codes, query) == DotSum(query, row) == SumAbs(query) == 0.0;
    } else {
      hide DotBound;
      var n := |row| - 1;
      DotError(codes[..n], row[..n], query[..n], scale);
      DotErrorStep(codes, row, query, scale, n);
    }
  }

  lemma SumErrors(a: real, b: real, s: real, p: real, r: real, t: real, scale: real)
    requires Within(a, b, s, scale) && Within(p, r, t, scale)
    ensures Within(a + p, b + r, s + t, scale)
  {
    assert (a + p) * scale == a * scale + p * scale;
    assert scale / 2.0 * (s + t) == scale / 2.0 * s + scale / 2.0 * t;
  }

  /** Asymmetric dot product of a full-precision query with a stored row. */
  method DotQuery(x: Int8, doc: nat, query: seq<real>) returns (r: real)
    requires doc < |x.scales| && |x.codes| == Cells(|x.scales|, x.dim) && |query| == x.dim
    ensures r == CodeDot(RowOf(x.codes, x.dim, doc, |x.scales|), query) * x.scales[doc]
  {
    var codes := RowOf(x.codes, x.dim, doc, |x.scales|);
    var acc := 0.0;
    for i := 0 to |query|
      invariant acc == CodeDot(codes[..i], query[..i])
    {
      assert codes[..i + 1][..i] == codes[..i] && query[..i + 1][..i] == query[..i];
      acc := acc + Times(codes[i] as real, query[i]);
    }
    assert codes[..|query|] == codes && query[..|query|] == query;
    r := acc * x.scales[doc];
  }

  /** For every encoded row, and every query, the approximate dot product is within half a
      step times the query's absolute sum of the exact one; a row of zeros is no exception. */
  lemma DotIsNearExact(x: Int8, dense: seq<real>, doc: nat, n: nat, query: seq<real>)
    requires RowEncoded(x, dense, doc, n) && |query| == x.dim
    ensures DotBound(RowOf(x.codes, x.dim, doc, n), RowOf(dense, x.dim, doc, n), query, x.scales[doc])
  {
    var row := RowOf(dense, x.dim, doc, n);
    RowBound(row, query);
    hide ScaleOf, DotBound, Codes, RowOf;
  }

  lemma RowBound(row: seq<real>, query: seq<real>)
    requires |row| == |query|
    ensures DotBound(Codes(row), row, query, ScaleOf(row))
  {
    hide Near, ScaleOf, CodeOf, DotBound;
    forall i | 0 <= i < |row| ensures Near(Codes(row)[i], row[i], ScaleOf(row)) {
      CodeNear(row, i);
    }
    hide Codes;
    DotError(Codes(row), row, query, ScaleOf(row));
  }
}
