/** The canonical form of a URL and the key hashed from it. A char stands for one byte; the
    port is the one that is not the scheme's default. */
module UrlKeys {
  import opened Common
  import opened Sorting
  import opened Lexical
  import opened Filters

  // ---- decimal ports ----

  function Digit(n: nat): (c: char)
    requires n < 10
    ensures IsDigit(c) && DigitValue(c) == n
  {
    '0' + n as char
  }

  function Decimal(v: nat): (s: string)
    ensures |s| > 0 && forall c :: c in s ==> IsDigit(c)
  {
    if v < 10 then [Digit(v)] else Decimal(v / 10) + [Digit(v % 10)]
  }

  predicate IsDigit(c: char) { '0' <= c <= '9' }

  function DigitValue(c: char): nat { if IsDigit(c) then c as int - '0' as int else 0 }

  function ParseDecimal(s: string): nat {
    if s == [] then 0 else ParseDecimal(s[..|s| - 1]) * 10 + DigitValue(s[|s| - 1])
  }

  lemma {:induction false} ParsePrinted(v: nat)
    ensures ParseDecimal(Decimal(v)) == v
  {
    if v >= 10 {
      ParsePrinted(v / 10);
      var s := Decimal(v);
      assert s[..|s| - 1] == Decimal(v / 10);
    } else {
      assert [Digit(v)][..0] == [];
    }
  }

  /** Fill the digit buffer from its end; the text is the decimal form, which parses back. */
  method FmtU16(value: nat, buf: array<char>) returns (text: string)
    requires value < 0x1_0000 && buf.Length == 5
    modifies buf
    ensures text == Decimal(value) && ParseDecimal(text) == value && |text| <= 5
  {
    ParsePrinted(value);
    ShortDecimal();
    hide Decimal, ParseDecimal, TenTo;
    if value == 0 {
      return "0";
    }
    var v: nat := value;
    var i: nat := buf.Length;
    while v > 0
      invariant i <= 5 && v < TenTo(i)
      invariant Decimal(value) == (if v == 0 then [] else Decimal(v)) + buf[i..]
    {
      DigitStep(v, i);
      ghost var was := buf[i..];
      i := i - 1;
      buf[i] := Digit(v % 10);
      assert buf[i..] == [Digit(v % 10)] + was;
      v := v / 10;
    }
    text := buf[i..];
  }

  function TenTo(i: nat): nat { if i == 0 then 1 else 10 * TenTo(i - 1) }

  lemma ShortDecimal()
    ensures TenTo(5) >= 0x1_0000 && Decimal(0) == "0"
  {}

  lemma DigitStep(v: nat, i: nat)
    requires 0 < v < TenTo(i)
    ensures i > 0 && v / 10 < TenTo(i - 1)
    ensures Decimal(v) == (if v / 10 == 0 then [] else Decimal(v / 10)) + [Digit(v % 10)]
  {}

  // ---- the canonical string ----

  function LowerChar(c: char): char { if 'A' <= c <= 'Z' then (c as int + 32) as char else c }

  function Lower(s: string): (r: string)
    ensures |r| == |s|
  {
    seq(|s|, i requires 0 <= i < |s| => LowerChar(s[i]))
  }

  /** One trailing slash is dropped, except from the root; no path is the root. */
  function StripSlash(path: string): string {
    if |path| > 1 && path[|path| - 1] == '/' then path[..|path| - 1]
    else if path == [] then "/"
    else path
  }

  /** The non-empty segments between ampersands. */
  function Segments(query: string): (r: seq<string>)
    ensures forall s :: s in r ==> s != [] && '&' !in s
    decreases |query|
  {
    if query == [] then []
    else
      var i := FindAny(query, {'&'});
      var rest := if i == |query| then [] else Segments(query[i + 1..]);
      if i == 0 then rest else [query[..i]] + rest
  }

  function Join(segs: seq<string>): string {
    if segs == [] then []
    else if |segs| == 1 then segs[0]
    else segs[0] + "&" + Join(segs[1..])
  }

  function SortedSegments(query: Option<string>): seq<string> {
    if query.None? then [] else Sort(LexLe, Segments(query.value))
  }

  function QueryPart(query: Option<string>): string {
    var segs := SortedSegments(query);
    if segs == [] then [] else "?" + Join(segs)
  }

  function HostPart(host: Option<string>): string { if host.None? then [] else Lower(host.value) }

  function PortPart(port: Option<nat>): string { if port.None? then [] else ":" + Decimal(port.value) }

  function Canonical(u: Url): string {
    u.scheme + "://" + (HostPart(u.host) + PortPart(u.port) + StripSlash(u.path) + QueryPart(u.query))
  }

  // ---- emission in chunks ----

  /** What a state machine is in after reading `s`, char by char. */
  function Fold<S>(step: (S, char) -> S, start: S, s: string): S {
    if s == [] then start else step(Fold(step, start, s[..|s| - 1]), s[|s| - 1])
  }

  /** Reading in pieces is reading the whole. */
  lemma {:induction false} FoldConcat<S>(step: (S, char) -> S, start: S, a: string, b: string)
    ensures Fold(step, start, a + b) == Fold(step, Fold(step, start, a), b)
  {
    if b == [] {
      assert a + b == a;
    } else {
      assert (a + b)[..|a + b| - 1] == a + b[..|b| - 1];
      FoldConcat(step, start, a, b[..|b| - 1]);
    }
  }

  /** Where chunks go: a string that grows or a hasher that is fed. `text` is all it was given;
      the state has no memory of how that was cut into chunks. */
  class Sink<S> {
    const start: S
    const step: (S, char) -> S
    var state: S
    ghost var text: string

    ghost predicate Valid()
      reads this
    {
      state == Fold(step, start, text)
    }

    constructor (start: S, step: (S, char) -> S)
      ensures Valid() && text == [] && this.start == start && this.step == step
    {
      this.start, this.step := start, step;
      state, text := start, [];
    }

    method Push(chunk: string)
      requires Valid()
      modifies this
      ensures Valid() && text == old(text) + chunk
    {
      for i := 0 to |chunk|
        invariant text == old(text) && state == Fold(step, old(state), chunk[..i])
      {
        assert chunk[..i + 1][..i] == chunk[..i];
        state := step(state, chunk[i]);
      }
      assert chunk[..|chunk|] == chunk;
      FoldConcat(step, start, text, chunk);
      text := text + chunk;
    }
  }

  predicate HasUpper(s: string) { exists c :: c in s && 'A' <= c <= 'Z' }

  lemma LowerIsSame(s: string)
    requires !HasUpper(s)
    ensures Lower(s) == s
  {
    forall i | 0 <= i < |s| ensures LowerChar(s[i]) == s[i] {
      assert s[i] in s;
    }
  }

  lemma {:induction false} JoinNext(segs: seq<string>, s: string)
    ensures Join(segs + [s]) == Join(segs) + (if segs == [] then [] else "&") + s
  {
    if |segs| > 1 {
      JoinNext(segs[1..], s);
      assert (segs + [s])[1..] == segs[1..] + [s];
    } else if |segs| == 1 {
      assert (segs + [s])[1..] == [s];
    }
  }

  /** Emit the canonical form chunk by chunk. */
  method CanonicalChunks<S>(u: Url, sink: Sink<S>)
    requires u.port.Some? ==> u.port.value < 0x1_0000
    requires sink.Valid()
    modifies sink
    ensures sink.Valid() && sink.text == old(sink.text) + Canonical(u)
  {
    ghost var before := sink.text;
    hide Decimal, ParseDecimal, QueryPart;
    sink.Push(u.scheme);
    sink.Push("://");
    PushHost(u.host, sink);
    PushPort(u.port, sink);
    PushPath(u.path, sink);
    PushQuery(u.query, sink);
    hide HostPart, PortPart, StripSlash;
    Regroup(before, u.scheme, HostPart(u.host), PortPart(u.port), StripSlash(u.path), QueryPart(u.query));
  }

  lemma Regroup(before: string, scheme: string, host: string, port: string, path: string, query: string)
    ensures before + scheme + "://" + host + port + path + query
         == before + (scheme + "://" + (host + port + path + query))
  {}

  method PushPath<S>(path: string, sink: Sink<S>)
    requires sink.Valid()
    modifies sink
    ensures sink.Valid() && sink.text == old(sink.text) + StripSlash(path)
  {
    if |path| > 1 && path[|path| - 1] == '/' {
      sink.Push(path[..|path| - 1]);
    } else if path == [] {
      sink.Push("/");
    } else {
      sink.Push(path);
    }
  }

  method PushHost<S>(host: Option<string>, sink: Sink<S>)
    requires sink.Valid()
    modifies sink
    ensures sink.Valid() && sink.text == old(sink.text) + HostPart(host)
  {
    if host.Some? {
      if HasUpper(host.value) {
        sink.Push(Lower(host.value));
      } else {
        LowerIsSame(host.value);
        sink.Push(host.value);
      }
    }
  }

  method PushPort<S>(port: Option<nat>, sink: Sink<S>)
    requires port.Some? ==> port.value < 0x1_0000
    requires sink.Valid()
    modifies sink
    ensures sink.Valid() && sink.text == old(sink.text) + PortPart(port)
  {
    if port.Some? {
      sink.Push(":");
      var buf := new char[5];
      var text := FmtU16(port.value, buf);
      sink.Push(text);
    }
  }

  lemma QueryCases(query: Option<string>)
    ensures query.None? || query.value == [] ==> QueryPart(query) == []
    ensures query.Some? ==>
      QueryPart(query) == var segs := Sort(LexLe, Segments(query.value)); if segs == [] then [] else "?" + Join(segs)
  {}

  /** The sorted segments, after `?` and separated by `&`. */
  method PushQuery<S>(query: Option<string>, sink: Sink<S>)
    requires sink.Valid()
    modifies sink
    ensures sink.Valid() && sink.text == old(sink.text) + QueryPart(query)
  {
    QueryCases(query);
    hide QueryPart, SortedSegments, Sort, Segments, Join;
    if query.Some? && query.value != [] {
      var segs := Sort(LexLe, Segments(query.value));
      if segs != [] {
        sink.Push("?");
        PushJoined(segs, sink);
      }
    }
  }

  method PushJoined<S>(segs: seq<string>, sink: Sink<S>)
    requires sink.Valid()
    modifies sink
    ensures sink.Valid() && sink.text == old(sink.text) + Join(segs)
  {
    ghost var before := sink.text;
    for i := 0 to |segs|
      invariant sink.Valid() && sink.text == before + Join(segs[..i])
    {
      JoinNext(segs[..i], segs[i]);
      assert segs[..i + 1] == segs[..i] + [segs[i]];
      hide Join;
      if i > 0 {
        sink.Push("&");
      }
      sink.Push(segs[i]);
      assert sink.text == before + (Join(segs[..i]) + (if i == 0 then [] else "&") + segs[i]);
    }
    assert segs[..|segs|] == segs;
  }

  lemma {:induction false} FoldAppends(s: string)
    ensures Fold(Append, [], s) == s
  {
    if s != [] {
      FoldAppends(s[..|s| - 1]);
    }
  }

  function Append(s: string, c: char): string { s + [c] }

  method Canonicalize(u: Url) returns (s: string)
    requires u.port.Some? ==> u.port.value < 0x1_0000
    ensures s == Canonical(u)
  {
    var sink := new Sink<string>([], Append);
    CanonicalChunks(u, sink);
    FoldAppends(sink.text);
    s := sink.state;
  }

  /** A streaming hasher: a state, its update by one byte, and the digest of a state. */
  datatype Hasher<!S> = Hasher(start: S, update: (S, char) -> S, digest: S -> UrlKey)

  /** The hash of a string fed in one go. */
  function HashOf<S>(h: Hasher<S>, s: string): UrlKey { h.digest(Fold(h.update, h.start, s)) }

  /** The key: streaming the chunks through the hasher gives the hash of the whole canonical
      string, however it is cut. */
  method FromUrl<S>(u: Url, h: Hasher<S>) returns (key: UrlKey)
    requires u.port.Some? ==> u.port.value < 0x1_0000
    ensures key == HashOf(h, Canonical(u))
  {
    var hasher := new Sink<S>(h.start, h.update);
    CanonicalChunks(u, hasher);
    assert hasher.text == Canonical(u);
    key := h.digest(hasher.state);
  }

  // ---- splitting again (section 3 of RFC 3986) ----

  /** Where the host ends in an authority without userinfo: a bracketed address keeps its colons. */
  function HostEnd(authority: string): (i: nat)
    ensures i <= |authority|
  {
    if authority != [] && authority[0] == '[' then
      var close := FindAny(authority, {']'});
      if close < |authority| then close + 1 else close
    else FindAny(authority, {':'})
  }

  function ParsePort(s: string): Option<nat> {
    if |s| > 1 && s[0] == ':' && (forall c :: c in s[1..] ==> IsDigit(c)) then Some(ParseDecimal(s[1..])) else None
  }

  function SplitUrl(s: string): Url {
    var colon := FindSeparator(s);
    SplitRest(s[..colon], if colon < |s| then s[colon + 3..] else [])
  }

  function SplitRest(scheme: string, rest: string): Url {
    var end := FindAny(rest, {'/', '?', '#'});
    SplitTail(scheme, rest[..end], rest[end..])
  }

  function SplitTail(scheme: string, authority: string, tail: string): Url {
    var hostEnd, pathEnd := HostEnd(authority), FindAny(tail, {'?', '#'});
    var after := tail[pathEnd..];
    var hash := FindAny(after, {'#'});
    Url(scheme,
        if hostEnd == 0 then None else Some(authority[..hostEnd]),
        ParsePort(authority[hostEnd..]),
        tail[..pathEnd],
        if hash > 0 then Some(after[1..hash]) else None,
        if hash < |after| then Some(after[hash + 1..]) else None)
  }

  ghost predicate GoodHost(host: string) {
    && host != [] && (forall c :: c in host ==> c != '/' && c != '?' && c != '#')
    && if host[0] == '[' then host[|host| - 1] == ']' && ']' !in host[..|host| - 1] else ':' !in host
  }

  /** What a parsed hierarchical URL looks like. */
  ghost predicate WellFormedUrl(u: Url) {
    && ':' !in u.scheme
    && (u.host.Some? ==> GoodHost(u.host.value))
    && (u.port.Some? ==> u.host.Some? && u.port.value < 0x1_0000)
    && (u.path == [] || u.path[0] == '/') && '?' !in u.path && '#' !in u.path
    && (u.query.Some? ==> '#' !in u.query.value)
  }

  /** The URL with its canonical parts. */
  function Normal(u: Url): Url {
    Url(u.scheme, if u.host.None? then None else Some(Lower(u.host.value)), u.port, StripSlash(u.path),
        if SortedSegments(u.query) == [] then None else Some(Join(SortedSegments(u.query))), None)
  }

  lemma LowerKeepsHost(host: string)
    requires GoodHost(host)
    ensures GoodHost(Lower(host))
  {
    var low := Lower(host);
    forall i | 0 <= i < |low| ensures low[i] == LowerChar(host[i]) && (low[i] == ':' <==> host[i] == ':')
      && (low[i] == ']' <==> host[i] == ']') && low[i] != '/' && low[i] != '?' && low[i] != '#'
    {
      assert host[i] in host;
    }
    if host[0] == '[' {
      forall i | 0 <= i < |low| - 1 ensures low[i] != ']' {
        assert host[i] == host[..|host| - 1][i];
      }
    }
  }

  lemma LowerTwice(s: string)
    ensures Lower(Lower(s)) == Lower(s)
  {}

  lemma HostSplits(host: string, portPart: string)
    requires GoodHost(host) && (portPart == [] || portPart[0] == ':')
    ensures HostEnd(host + portPart) == |host|
  {
    var a := host + portPart;
    if host[0] == '[' {
      CutAt(host[..|host| - 1], "]" + portPart, {']'});
      assert a == host[..|host| - 1] + ("]" + portPart);
    } else {
      CutAt(host, portPart, {':'});
    }
    hide FindAny;
  }

  lemma PortSplits(port: Option<nat>)
    ensures ParsePort(PortPart(port)) == port
    ensures PortPart(port) == [] || PortPart(port)[0] == ':'
    ensures forall c :: c in PortPart(port) ==> c != '/' && c != '?' && c != '#'
  {
    if port.Some? {
      ParsePrinted(port.value);
      assert PortPart(port)[1..] == Decimal(port.value);
    }
    hide Decimal, ParseDecimal;
  }

  /** The authority of the canonical form splits into the same host and port. */
  lemma AuthoritySplits(host: string, port: Option<nat>)
    requires GoodHost(host)
    ensures var a := host + PortPart(port);
      && HostEnd(a) == |host| && a[..|host|] == host && ParsePort(a[|host|..]) == port
      && forall c :: c in a ==> c != '/' && c != '?' && c != '#'
  {
    PortSplits(port);
    HostSplits(host, PortPart(port));
    hide PortPart, HostEnd, ParsePort;
    var a := host + PortPart(port);
    assert a[..|host|] == host && a[|host|..] == PortPart(port);
  }

  lemma {:induction false} JoinMembers(segs: seq<string>, c: char)
    requires c != '&' && forall s :: s in segs ==> c !in s
    ensures c !in Join(segs)
  {
    if |segs| > 1 {
      assert segs[0] in segs && forall s :: s in segs[1..] ==> s in segs;
      JoinMembers(segs[1..], c);
    }
  }

  lemma {:induction false} SegmentChars(query: string, c: char)
    requires c !in query
    ensures forall s :: s in Segments(query) ==> c !in s
    decreases |query|
  {
    if query != [] {
      var i := FindAny(query, {'&'});
      if i < |query| {
        SegmentChars(query[i + 1..], c);
      }
    }
  }

  lemma {:induction false} SegmentsOfJoin(segs: seq<string>)
    requires forall s :: s in segs ==> s != [] && '&' !in s
    ensures Segments(Join(segs)) == segs
  {
    if segs != [] {
      var first, text := segs[0], Join(segs);
      assert first in segs;
      if |segs| == 1 {
        CutAt(text, [], {'&'});
        assert text + [] == text;
      } else {
        var rest := Join(segs[1..]);
        CutAt(first, "&" + rest, {'&'});
        assert text == first + ("&" + rest) && text[|first| + 1..] == rest;
        assert forall s :: s in segs[1..] ==> s in segs;
        SegmentsOfJoin(segs[1..]);
      }
    }
  }

  lemma SortedSegmentsGood(query: Option<string>)
    ensures forall s :: s in SortedSegments(query) ==> s != [] && '&' !in s
    ensures query.Some? && '#' !in query.value ==> '#' !in Join(SortedSegments(query))
  {
    if query.Some? {
      SortMembers(LexLe, Segments(query.value));
      if '#' !in query.value {
        SegmentChars(query.value, '#');
        JoinMembers(SortedSegments(query), '#');
      }
    }
  }

  lemma StrippedPath(path: string)
    requires path == [] || path[0] == '/'
    ensures StripSlash(path) != [] && StripSlash(path)[0] == '/'
    ensures forall c :: c in StripSlash(path) ==> c in path || c == '/'
  {}

  /** Cutting the tail of a URL at its own marks gives back path, query and no fragment. */
  lemma TailSplits(path: string, queryPart: string)
    requires path != [] && '?' !in path && '#' !in path && '#' !in queryPart
    requires queryPart == [] || queryPart[0] == '?'
    ensures var tail := path + queryPart;
      FindAny(tail, {'?', '#'}) == |path| && tail[..|path|] == path && tail[|path|..] == queryPart
      && FindAny(queryPart, {'#'}) == |queryPart|
  {
    CutAt(path, queryPart, {'?', '#'});
    CutAt(queryPart, [], {'#'});
    assert queryPart + [] == queryPart;
  }

  lemma SchemeSplits(scheme: string, rest: string)
    requires ':' !in scheme
    ensures SplitUrl(scheme + "://" + rest) == SplitRest(scheme, rest)
  {
    SeparatorAfter(scheme, rest);
    var s := scheme + "://" + rest;
    assert s[..|scheme|] == scheme && s[|scheme| + 3..] == rest;
    hide SplitRest;
  }

  lemma RestSplits(scheme: string, authority: string, path: string, queryPart: string)
    requires path != [] && path[0] == '/' && forall c :: c in authority ==> c != '/' && c != '?' && c != '#'
    ensures SplitRest(scheme, authority + path + queryPart) == SplitTail(scheme, authority, path + queryPart)
  {
    CutAt(authority, path + queryPart, {'/', '?', '#'});
    assert authority + path + queryPart == authority + (path + queryPart);
    hide SplitTail;
  }

  lemma TailIsParts(scheme: string, authority: string, host: string, port: Option<nat>, path: string, queryPart: string)
    requires HostEnd(authority) == |host| <= |authority| && authority[..|host|] == host
    requires ParsePort(authority[|host|..]) == port
    requires path != [] && '?' !in path && '#' !in path && '#' !in queryPart && (queryPart == [] || queryPart[0] == '?')
    ensures SplitTail(scheme, authority, path + queryPart)
         == Url(scheme, if host == [] then None else Some(host), port, path,
                if queryPart == [] then None else Some(queryPart[1..]), None)
  {
    TailSplits(path, queryPart);
    hide HostEnd, ParsePort, FindAny;
    assert queryPart != [] ==> queryPart[1..|queryPart|] == queryPart[1..];
  }

  lemma NormalParts(u: Url)
    requires WellFormedUrl(u)
    ensures var host := HostPart(u.host);
      Normal(u) == Url(u.scheme, if host == [] then None else Some(host), u.port, StripSlash(u.path),
                       if QueryPart(u.query) == [] then None else Some(QueryPart(u.query)[1..]), None)
  {
    hide StripSlash, SortedSegments, Join;
  }

  lemma CanonicalAuthority(u: Url)
    requires WellFormedUrl(u)
    ensures var host, a := HostPart(u.host), HostPart(u.host) + PortPart(u.port);
      && HostEnd(a) == |host| && a[..|host|] == host && ParsePort(a[|host|..]) == u.port
      && forall c :: c in a ==> c != '/' && c != '?' && c != '#'
  {
    if u.host.Some? {
      LowerKeepsHost(u.host.value);
      AuthoritySplits(HostPart(u.host), u.port);
    }
  }

  /** Splitting the canonical string gives the canonical parts. */
  lemma SplitCanonical(u: Url)
    requires WellFormedUrl(u)
    ensures SplitUrl(Canonical(u)) == Normal(u)
  {
    var host, authority := HostPart(u.host), HostPart(u.host) + PortPart(u.port);
    var path, queryPart := StripSlash(u.path), QueryPart(u.query);
    SortedSegmentsGood(u.query);
    StrippedPath(u.path);
    CanonicalAuthority(u);
    NormalParts(u);
    assert '#' !in queryPart && (queryPart == [] || queryPart[0] == '?');
    hide StripSlash, QueryPart, HostPart, PortPart, Normal, SplitUrl, SplitRest, SplitTail, HostEnd, ParsePort;
    SchemeSplits(u.scheme, authority + path + queryPart);
    RestSplits(u.scheme, authority, path, queryPart);
    TailIsParts(u.scheme, authority, host, u.port, path, queryPart);
  }

  // ---- when two URLs share a key ----

  /** The parts that decide the key. */
  ghost predicate SameResource(u: Url, v: Url) {
    && u.scheme == v.scheme && Normal(u).host == Normal(v).host && u.port == v.port
    && StripSlash(u.path) == StripSlash(v.path)
    && multiset(SegmentsOf(u.query)) == multiset(SegmentsOf(v.query))
  }

  function SegmentsOf(query: Option<string>): seq<string> { if query.None? then [] else Segments(query.value) }

  lemma NormalQueryDecides(q: Option<string>, r: Option<string>)
    requires SortedSegments(q) == [] <==> SortedSegments(r) == []
    requires Join(SortedSegments(q)) == Join(SortedSegments(r))
    ensures multiset(SegmentsOf(q)) == multiset(SegmentsOf(r))
  {
    SortedSegmentsGood(q);
    SortedSegmentsGood(r);
    SegmentsOfJoin(SortedSegments(q));
    SegmentsOfJoin(SortedSegments(r));
    SortPermutes(LexLe, SegmentsOf(q));
    SortPermutes(LexLe, SegmentsOf(r));
    assert SortedSegments(q) == Sort(LexLe, SegmentsOf(q)) && SortedSegments(r) == Sort(LexLe, SegmentsOf(r));
  }

  lemma SameSegmentsSort(q: Option<string>, r: Option<string>)
    requires multiset(SegmentsOf(q)) == multiset(SegmentsOf(r))
    ensures SortedSegments(q) == SortedSegments(r)
  {
    LexTotal();
    SortCongruent(LexLe, SegmentsOf(q), SegmentsOf(r));
    assert SortedSegments(q) == Sort(LexLe, SegmentsOf(q)) && SortedSegments(r) == Sort(LexLe, SegmentsOf(r));
  }

  /** Two URLs have one canonical string, hence one key, exactly when scheme, lower-cased host,
      port, path up to one trailing slash, and the multiset of query segments agree. */
  lemma CanonicalEqualIff(u: Url, v: Url)
    requires WellFormedUrl(u) && WellFormedUrl(v)
    ensures Canonical(u) == Canonical(v) <==> SameResource(u, v)
  {
    if Canonical(u) == Canonical(v) {
      SplitCanonical(u);
      SplitCanonical(v);
      hide Canonical, SplitUrl, StripSlash;
      NormalQueryDecides(u.query, v.query);
    }
    if SameResource(u, v) {
      SameSegmentsSort(u.query, v.query);
      hide StripSlash, SortedSegments, Join, PortPart;
      assert HostPart(u.host) == HostPart(v.host);
    }
  }

  // ---- canonical forms as fixed points ----

  /** Stripping again changes nothing exactly when the path does not end in two slashes or is
      just those two. */
  predicate StableSlash(path: string) {
    path == "//" || !(|path| >= 2 && path[|path| - 2..] == "//")
  }

  lemma StripTwice(path: string)
    ensures StripSlash(StripSlash(path)) == StripSlash(path) <==> StableSlash(path)
  {
    if |path| > 1 && path[|path| - 1] == '/' {
      var p := path[..|path| - 1];
      assert path[|path| - 2..] == [path[|path| - 2], '/'];
      assert |p| > 1 && p[|p| - 1] == '/' ==> p[..|p| - 1] != p;
    } else if |path| >= 2 {
      assert path[|path| - 2..][1] == path[|path| - 1];
    }
  }

  lemma NormalIsWellFormed(u: Url)
    requires WellFormedUrl(u)
    ensures WellFormedUrl(Normal(u))
  {
    SortedSegmentsGood(u.query);
    StrippedPath(u.path);
    if u.host.Some? {
      LowerKeepsHost(u.host.value);
    }
  }

  lemma NormalSegments(u: Url)
    ensures multiset(SegmentsOf(Normal(u).query)) == multiset(SegmentsOf(u.query))
  {
    SortedSegmentsGood(u.query);
    SegmentsOfJoin(SortedSegments(u.query));
    SortPermutes(LexLe, SegmentsOf(u.query));
    assert SortedSegments(u.query) == Sort(LexLe, SegmentsOf(u.query));
  }

  /** Re-splitting and re-printing a canonical string gives it back exactly when the path does
      not end in two slashes or is just those two. */
  lemma CanonicalIsStableIff(u: Url)
    requires WellFormedUrl(u)
    ensures Canonical(SplitUrl(Canonical(u))) == Canonical(u) <==> StableSlash(u.path)
  {
    SplitCanonical(u);
    NormalIsWellFormed(u);
    CanonicalEqualIff(Normal(u), u);
    NormalSegments(u);
    StripTwice(u.path);
    if u.host.Some? {
      LowerTwice(u.host.value);
    }
    hide Canonical, SplitUrl, WellFormedUrl, StripSlash, SegmentsOf, Join, SortedSegments;
    assert SameResource(Normal(u), u) <==> StripSlash(StripSlash(u.path)) == StripSlash(u.path);
  }

  /** A path that ends in two slashes loses one on every pass. */
  lemma DoubleSlashIsNotStable()
    ensures var u := Url("https", Some("x.dev"), None, "/a//", None, None);
      && WellFormedUrl(u) && Canonical(u) == "https://x.dev/a/"
      && Canonical(SplitUrl(Canonical(u))) == "https://x.dev/a"
  {
    var u := Url("https", Some("x.dev"), None, "/a//", None, None);
    hide SplitUrl, Segments, Sort, Join, Decimal;
    SplitCanonical(u);
    PlainCanonical("/a//");
    PlainCanonical("/a/");
    hide Canonical;
  }

  lemma PlainCanonical(path: string)
    requires path in {"/a//", "/a/"}
    ensures var u := Url("https", Some("x.dev"), None, path, None, None);
      && Canonical(u) == "https://x.dev" + path[..|path| - 1]
      && Normal(u) == u.(path := path[..|path| - 1]) && WellFormedUrl(u)
  {
    hide SplitUrl, Segments, Sort, Join, Decimal;
    PlainParts(path);
    hide Lower, StripSlash, SortedSegments, QueryPart, PortPart;
    var tail := path[..|path| - 1];
    assert "https" + "://" + ("x.dev" + [] + tail + []) == "https://x.dev" + tail;
    PlainHost();
    hide GoodHost;
  }

  lemma PlainParts(path: string)
    requires path in {"/a//", "/a/"}
    ensures StripSlash(path) == path[..|path| - 1] && SortedSegments(None) == [] && QueryPart(None) == []
    ensures Lower("x.dev") == "x.dev" && PortPart(None) == []
  {
    hide Segments, Sort, Join, Decimal;
  }

  lemma PlainHost()
    ensures GoodHost("x.dev")
  {}

  /** The path filter, run on a stored canonical URL, sees the canonical path. */
  lemma FilterSeesCanonicalPath(u: Url)
    requires WellFormedUrl(u)
    ensures PathOf(Canonical(u)) == StripSlash(u.path)
  {
    var authority := HostPart(u.host) + PortPart(u.port);
    StrippedPath(u.path);
    if u.host.Some? {
      LowerKeepsHost(u.host.value);
      AuthoritySplits(Lower(u.host.value), u.port);
    }
    PathOfPrinted(u.scheme, authority, StripSlash(u.path), QueryPart(u.query));
  }
}
