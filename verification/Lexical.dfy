/** Byte-wise lexicographic order, and enumerations of finite sets. */
module Lexical {
  import opened Common
  import opened Sorting

  predicate LexLe(a: string, b: string)
    decreases |a|
  {
    a == [] || (b != [] && (a[0] < b[0] || (a[0] == b[0] && LexLe(a[1..], b[1..]))))
  }

  lemma {:induction false} LexConnected(a: string, b: string)
    ensures LexLe(a, b) || LexLe(b, a)
    decreases |a|
  {
    if a != [] && b != [] && a[0] == b[0] {
      LexConnected(a[1..], b[1..]);
    }
  }

  lemma {:induction false} LexAntisymmetric(a: string, b: string)
    requires LexLe(a, b) && LexLe(b, a)
    ensures a == b
    decreases |a|
  {
    if a != [] && b != [] {
      LexAntisymmetric(a[1..], b[1..]);
      assert a == [a[0]] + a[1..] && b == [b[0]] + b[1..];
    }
  }

  lemma {:induction false} LexTransitive(a: string, b: string, c: string)
    requires LexLe(a, b) && LexLe(b, c)
    ensures LexLe(a, c)
    decreases |a|
  {
    if a != [] && a[0] == b[0] && b[0] == c[0] {
      LexTransitive(a[1..], b[1..], c[1..]);
    }
  }

  lemma LexTotal()
    ensures TotalOrder(LexLe)
  {
    forall a, b ensures LexLe(a, b) || LexLe(b, a) { LexConnected(a, b); }
    forall a, b | LexLe(a, b) && LexLe(b, a) ensures a == b { LexAntisymmetric(a, b); }
    forall a, b, c | LexLe(a, b) && LexLe(b, c) ensures LexLe(a, c) { LexTransitive(a, b, c); }
  }

  predicate NatLe(a: nat, b: nat) { a <= b }

  lemma NatTotal()
    ensures TotalOrder(NatLe)
  {}

  /** `s` lists the elements of `u`, each once. */
  ghost predicate Lists<T(!new)>(s: seq<T>, u: set<T>) {
    Distinct(s) && forall x :: x in s <==> x in u
  }

  /** Two listings of one set are permutations of each other. */
  lemma ListingsPermute<T(!new)>(s: seq<T>, t: seq<T>, u: set<T>)
    requires Lists(s, u) && Lists(t, u)
    ensures multiset(s) == multiset(t)
  {
    forall x ensures multiset(s)[x] == multiset(t)[x] {
      DistinctCount(s, x);
      DistinctCount(t, x);
    }
  }

  /** A listing is as long as its set is large. */
  lemma {:induction false} ListingSize<T(!new)>(s: seq<T>, u: set<T>)
    requires Lists(s, u)
    ensures |s| == |u|
  {
    if s == [] {
      assert forall x :: x !in u by {
        forall x ensures x !in u {
          assert x in s <==> x in u;
        }
      }
    } else {
      var x := s[|s| - 1];
      var rest := s[..|s| - 1];
      assert s == rest + [x];
      assert x !in rest;
      forall y ensures y in rest <==> y in u - {x} {
        assert y in s <==> y in rest || y == x;
      }
      ListingSize(rest, u - {x});
    }
  }

  /** However a set is listed, sorting gives one result. */
  lemma SortedListing<T(!new)>(le: (T, T) -> bool, s: seq<T>, t: seq<T>, u: set<T>)
    requires TotalOrder(le) && Lists(s, u) && Lists(t, u) && SortedBy(le, t)
    ensures Sort(le, s) == t
  {
    ListingsPermute(s, t, u);
    SortIsUnique(le, s, t);
  }

  /** The elements of a set in an arbitrary order, as hash containers yield them. */
  method Enumerate<T(!new, ==)>(u: set<T>) returns (s: seq<T>)
    ensures Lists(s, u)
  {
    s := [];
    var rest := u;
    while rest != {}
      invariant rest <= u && Distinct(s)
      invariant forall x :: x in s <==> x in u - rest
      decreases |rest|
    {
      var x :| x in rest;
      rest := rest - {x};
      DistinctAppend(s, x);
      assert forall y :: y in s + [x] <==> y in s || y == x;
      s := s + [x];
    }
  }

  /** The distinct elements of a sequence, in order of first occurrence. */
  function Dedup<T(==, !new)>(s: seq<T>): (r: seq<T>)
    ensures forall x :: x in r <==> x in s
  {
    if s == [] then []
    else
      var init := Dedup(s[..|s| - 1]);
      var x := s[|s| - 1];
      assert s == s[..|s| - 1] + [x];
      if x in s[..|s| - 1] then init else init + [x]
  }

  lemma {:induction false} DedupDistinct<T(!new)>(s: seq<T>)
    ensures Distinct(Dedup(s))
  {
    if s != [] {
      DedupDistinct(s[..|s| - 1]);
    }
  }
}
