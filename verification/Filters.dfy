/** Structured metadata filters, evaluated to the set of allowed documents. */
module Filters {
  import opened Common
  import opened Documents

  datatype Filter =
    | All
    | Tag(tag: string)
    | Lang(lang: string)
    | PathPrefix(prefix: string)
    | Kind(kind: nat)
    | FetchedBefore(before: nat)
    | FetchedAfter(after: nat)
    | And(left: Filter, right: Filter)
    | Or(left: Filter, right: Filter)
    | Not(inner: Filter)

  // ---- the path of a stored URL ----

  /** The index of the first char in `stops`, or the length. */
  function FindAny(s: string, stops: set<char>): (i: nat)
    ensures i <= |s| && (i < |s| ==> s[i] in stops)
    ensures forall j :: 0 <= j < i ==> s[j] !in stops
  {
    if s == [] || s[0] in stops then 0 else 1 + FindAny(s[1..], stops)
  }

  /** The index of the first `"://"`, or the length. */
  function FindSeparator(s: string): (i: nat)
    ensures i <= |s| && (i < |s| ==> i + 3 <= |s| && s[i..i + 3] == "://")
  {
    if s == [] then 0 else if "://" <= s then 0 else 1 + FindSeparator(s[1..])
  }

  /** The path part, found without re-parsing the URL. */
  function PathOf(url: string): string {
    var i := FindSeparator(url);
    if i == |url| then url
    else
      var rest := url[i + 3..];
      var afterHost := rest[FindAny(rest, {'/'})..];
      if afterHost == [] then "/" else afterHost[..FindAny(afterHost, {'?', '#'})]
  }

  lemma {:induction false} SeparatorAfter(scheme: string, rest: string)
    requires ':' !in scheme
    ensures FindSeparator(scheme + "://" + rest) == |scheme|
  {
    var s := scheme + "://" + rest;
    if scheme == [] {
      assert s == "://" + rest;
    } else {
      assert s[0] == scheme[0] && s[1..] == scheme[1..] + "://" + rest;
      SeparatorAfter(scheme[1..], rest);
    }
  }

  /** Text free of the stops, then text that starts with one, is cut between the two. */
  lemma {:induction false} CutAt(a: string, b: string, stops: set<char>)
    requires (forall c :: c in a ==> c !in stops) && (b == [] || b[0] in stops)
    ensures FindAny(a + b, stops) == |a| && (a + b)[..|a|] == a && (a + b)[|a|..] == b
  {
    if a == [] {
      assert a + b == b;
    } else {
      assert a[0] in a && (a + b)[1..] == a[1..] + b;
      CutAt(a[1..], b, stops);
    }
  }

  ghost predicate StartsQueryOrFragment(s: string) {
    s == [] || s[0] == '?' || s[0] == '#'
  }

  lemma PathAfterScheme(scheme: string, rest: string)
    requires ':' !in scheme
    ensures var afterHost := rest[FindAny(rest, {'/'})..];
      PathOf(scheme + "://" + rest) == if afterHost == [] then "/" else afterHost[..FindAny(afterHost, {'?', '#'})]
  {
    var url := scheme + "://" + rest;
    SeparatorAfter(scheme, rest);
    assert url[|scheme| + 3..] == rest;
  }

  /** On a URL printed from its parts the shortcut gives exactly the path. */
  lemma PathOfPrinted(scheme: string, authority: string, path: string, suffix: string)
    requires ':' !in scheme && '/' !in authority
    requires path != [] && path[0] == '/' && '?' !in path && '#' !in path && StartsQueryOrFragment(suffix)
    ensures PathOf(scheme + "://" + (authority + path + suffix)) == path
  {
    hide PathOf, FindAny;
    var rest := authority + path + suffix;
    PathAfterScheme(scheme, rest);
    assert rest == authority + (path + suffix);
    CutAt(authority, path + suffix, {'/'});
    CutAt(path, suffix, {'?', '#'});
  }

  /** It relies on there being a path: without one the result is the root as long as no slash
      follows, and a slash in the query or fragment is taken for the start of the path. */
  lemma PathlessUrl(scheme: string, authority: string, query: string, tail: string)
    requires ':' !in scheme && '/' !in authority && '/' !in query && '?' !in tail && '#' !in tail
    ensures PathOf(scheme + "://" + (authority + query)) == "/"
    ensures PathOf(scheme + "://" + (authority + query + ("/" + tail) + [])) == "/" + tail
  {
    var rest := authority + query;
    PathAfterScheme(scheme, rest);
    PathOfPrinted(scheme, rest, "/" + tail, []);
    hide PathOf, FindAny;
    CutAt(rest, [], {'/'});
    assert rest + [] == rest;
  }

  // ---- matching ----

  predicate Matches(f: Filter, d: DocMeta) {
    match f
    case All => true
    case Tag(t) => t in d.tags
    case Lang(l) => d.lang == Some(l)
    case PathPrefix(p) => p <= PathOf(d.url)
    case Kind(k) => d.kind == k
    case FetchedBefore(t) => d.fetchedAtMs < t
    case FetchedAfter(t) => d.fetchedAtMs >= t
    case And(a, b) => Matches(a, d) && Matches(b, d)
    case Or(a, b) => Matches(a, d) || Matches(b, d)
    case Not(a) => !Matches(a, d)
  }

  /** The allowed documents, or `None` for the match-all filter. */
  method Evaluate(f: Filter, docs: seq<DocMeta>) returns (allowed: Option<set<DocId>>)
    ensures allowed.None? <==> f == All
    ensures forall d: DocId :: d < |docs| ==> (Allowed(allowed, d) <==> Matches(f, docs[d]))
    ensures allowed.Some? ==> forall d :: d in allowed.value ==> d < |docs|
  {
    if f == All {
      return None;
    }
    var ids: set<DocId> := {};
    for i := 0 to |docs|
      invariant forall d: DocId :: d in ids <==> d < i && Matches(f, docs[d])
    {
      if Matches(f, docs[i]) {
        ids := ids + {i};
      }
    }
    allowed := Some(ids);
  }
}
