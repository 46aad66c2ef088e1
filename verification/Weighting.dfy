/** The BM25 formulas over the reals; only the logarithm stays uninterpreted. */
module Weighting {
  function MaxReal(x: real, y: real): real { if x < y then y else x }

  /** How much a document's length dampens its term frequencies. */
  function LengthNorm(dl: nat, avgdl: real, k1: real, b: real): real {
    k1 * (1.0 - b + b * (dl as real) / MaxReal(avgdl, 1.0))
  }

  /** The weight of a frequency `tf` in a document of length `dl`. A zero denominator, where the
      source has an infinity, gives 0. */
  function TermWeight(tf: nat, dl: nat, avgdl: real, k1: real, b: real): real {
    var below := tf as real + LengthNorm(dl, avgdl, k1, b);
    if below == 0.0 then 0.0 else tf as real * (k1 + 1.0) / below
  }

  /** The argument of the logarithm for a term in `df` of `n` documents. */
  function Rarity(n: nat, df: nat): real {
    1.0 + (n as real - df as real + 0.5) / (df as real + 0.5)
  }

  function IdfOf(ln: real -> real, n: nat, df: nat): real { ln(Rarity(n, df)) }

  /** The parameters as they are meant: `k1` not negative, `b` a proportion. */
  predicate Sensible(k1: real, b: real) { k1 >= 0.0 && 0.0 <= b <= 1.0 }

  lemma Crosswise(a: real, x: real, c: real, y: real)
    requires x > 0.0 && y > 0.0
    ensures a / x <= c / y <==> a * y <= c * x
    ensures a / x < c / y <==> a * y < c * x
  {
    var p, q := a / x, c / y;
    assert a * y == p * x * y && c * x == q * y * x;
    assert p * (x * y) == a * y && q * (x * y) == c * x;
    Scales(p, q, x * y);
  }

  lemma Scales(p: real, q: real, z: real)
    requires z > 0.0
    ensures p <= q <==> p * z <= q * z
    ensures p < q <==> p * z < q * z
  {
    if p < q {
      assert (q - p) * z > 0.0;
    } else if q < p {
      assert (p - q) * z > 0.0;
    }
  }

  lemma Product(x: real, y: real)
    ensures x >= 0.0 && y >= 0.0 ==> x * y >= 0.0
    ensures x > 0.0 && y > 0.0 ==> x * y > 0.0
  {}

  lemma ProductGrows(k: real, x: real, y: real)
    requires k >= 0.0 && 0.0 <= x <= y
    ensures 0.0 <= k * x <= k * y
  {
    Product(k, x);
    Product(k, y - x);
  }

  lemma RatioGrows(x: real, y: real, m: real)
    requires 0.0 <= x <= y && m > 0.0
    ensures 0.0 <= x / m <= y / m
  {
    Crosswise(0.0, 1.0, x, m);
    Crosswise(x, m, y, m);
    Product(y - x, m);
  }

  lemma NormGrows(dl: nat, dl': nat, avgdl: real, k1: real, b: real)
    requires Sensible(k1, b) && dl <= dl'
    ensures 0.0 <= LengthNorm(dl, avgdl, k1, b) <= LengthNorm(dl', avgdl, k1, b)
  {
    var m, u, v := MaxReal(avgdl, 1.0), b * (dl as real), b * (dl' as real);
    ProductGrows(b, dl as real, dl' as real);
    RatioGrows(u, v, m);
    ProductGrows(k1, 1.0 - b + u / m, 1.0 - b + v / m);
  }

  /** The weight lies between 0 and `k1 + 1`: however often a term occurs, it saturates. */
  lemma WeightIsBounded(tf: nat, dl: nat, avgdl: real, k1: real, b: real)
    requires Sensible(k1, b)
    ensures 0.0 <= TermWeight(tf, dl, avgdl, k1, b) <= k1 + 1.0
    ensures tf > 0 ==> TermWeight(tf, dl, avgdl, k1, b) > 0.0
  {
    NormGrows(dl, dl, avgdl, k1, b);
    var below := tf as real + LengthNorm(dl, avgdl, k1, b);
    hide LengthNorm;
    if below != 0.0 {
      var above := tf as real * (k1 + 1.0);
      Product(tf as real, k1 + 1.0);
      Crosswise(0.0, 1.0, above, below);
      Crosswise(above, below, k1 + 1.0, 1.0);
      Product(k1 + 1.0, below - tf as real);
      assert above * 1.0 <= (k1 + 1.0) * below;
    }
  }

  lemma WeightOf(tf: nat, dl: nat, avgdl: real, k1: real, b: real)
    requires Sensible(k1, b) && tf > 0
    ensures var c := LengthNorm(dl, avgdl, k1, b);
      c >= 0.0 && TermWeight(tf, dl, avgdl, k1, b) == tf as real * (k1 + 1.0) / (tf as real + c)
  {
    NormGrows(dl, dl, avgdl, k1, b);
    hide LengthNorm;
  }

  /** More occurrences weigh more, strictly so when length is taken into account at all. */
  lemma WeightGrowsWithCount(tf: nat, tf': nat, dl: nat, avgdl: real, k1: real, b: real)
    requires Sensible(k1, b) && 0 < tf <= tf'
    ensures TermWeight(tf, dl, avgdl, k1, b) <= TermWeight(tf', dl, avgdl, k1, b)
    ensures tf < tf' && LengthNorm(dl, avgdl, k1, b) > 0.0 ==>
      TermWeight(tf, dl, avgdl, k1, b) < TermWeight(tf', dl, avgdl, k1, b)
  {
    hide LengthNorm, TermWeight;
    WeightOf(tf, dl, avgdl, k1, b);
    WeightOf(tf', dl, avgdl, k1, b);
    MoreWeighMore(tf as real, tf' as real, LengthNorm(dl, avgdl, k1, b), k1 + 1.0);
  }

  /** The same occurrences weigh no more in a longer document. */
  lemma WeightFallsWithLength(tf: nat, dl: nat, dl': nat, avgdl: real, k1: real, b: real)
    requires Sensible(k1, b) && 0 < tf && dl <= dl'
    ensures TermWeight(tf, dl', avgdl, k1, b) <= TermWeight(tf, dl, avgdl, k1, b)
  {
    hide LengthNorm, TermWeight;
    WeightOf(tf, dl, avgdl, k1, b);
    WeightOf(tf, dl', avgdl, k1, b);
    NormGrows(dl, dl', avgdl, k1, b);
    LongerWeighLess(tf as real, LengthNorm(dl, avgdl, k1, b), LengthNorm(dl', avgdl, k1, b), k1 + 1.0);
  }

  lemma MoreWeighMore(x: real, y: real, c: real, k: real)
    requires 0.0 < x <= y && c >= 0.0 && k > 0.0
    ensures x * k / (x + c) <= y * k / (y + c)
    ensures x < y && c > 0.0 ==> x * k / (x + c) < y * k / (y + c)
  {
    CrossOrder(x, y, c, k);
    Crosswise(x * k, x + c, y * k, y + c);
  }

  lemma CrossOrder(x: real, y: real, c: real, k: real)
    requires 0.0 < x <= y && c >= 0.0 && k > 0.0
    ensures x * k * (y + c) <= y * k * (x + c)
    ensures x < y && c > 0.0 ==> x * k * (y + c) < y * k * (x + c)
  {
    CrossDifference(x, y, c, k);
    Product(c, y - x);
    Product(k, c * (y - x));
  }

  lemma CrossDifference(x: real, y: real, c: real, k: real)
    ensures y * k * (x + c) - x * k * (y + c) == k * (c * (y - x))
  {}

  lemma LongerWeighLess(x: real, c: real, c': real, k: real)
    requires 0.0 < x && 0.0 <= c <= c' && k > 0.0
    ensures x * k / (x + c') <= x * k / (x + c)
  {
    Product(x, k);
    Crosswise(x * k, x + c', x * k, x + c);
    assert x * k * (x + c') - x * k * (x + c) == x * k * (c' - c);
    Product(x * k, c' - c);
  }

  /** A logarithm: 0 at 1 and increasing. */
  ghost predicate Logarithmic(ln: real -> real) {
    ln(1.0) == 0.0 && forall x, y :: 0.0 < x < y ==> ln(x) < ln(y)
  }

  lemma RarityFalls(n: nat, df: nat, df': nat)
    requires df <= df' <= n
    ensures 1.0 < Rarity(n, df') <= Rarity(n, df) && (df < df' ==> Rarity(n, df') < Rarity(n, df))
  {
    var x, y := df as real + 0.5, df' as real + 0.5;
    var a, c := n as real - df as real + 0.5, n as real - df' as real + 0.5;
    Crosswise(c, y, a, x);
    Crosswise(0.0, 1.0, c, y);
    assert a * y - c * x == (n as real + 1.0) * (df' as real - df as real);
    Product(n as real + 1.0, df' as real - df as real);
  }

  /** No indexed term counts against a document, and a rarer term counts for more. */
  lemma IdfIsPositive(ln: real -> real, n: nat, df: nat, df': nat)
    requires Logarithmic(ln) && df <= df' <= n
    ensures 0.0 < IdfOf(ln, n, df') <= IdfOf(ln, n, df) && (df < df' ==> IdfOf(ln, n, df') < IdfOf(ln, n, df))
  {
    RarityFalls(n, df, df');
    hide Rarity;
  }
}
