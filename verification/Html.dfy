/** The link scanner: one forward pass over the bytes of a page, one char a byte. */
module Html {
  import opened Common
  import opened Filters
  import opened UrlKeys

  const SPACES: set<char> := {' ', '\t', '\n', '\U{0C}', '\r'}
  const NAME_STOPS: set<char> := {'=', '>', '/', ' ', '\t', '\n', '\U{0C}', '\r'}
  const VALUE_STOPS: set<char> := {'>', ' ', '\t', '\n', '\U{0C}', '\r'}

  predicate Alphanumeric(c: char) { 'a' <= c <= 'z' || 'A' <= c <= 'Z' || '0' <= c <= '9' }

  /** The length of the leading run of letters and digits. */
  function NameLength(s: string): (n: nat)
    ensures n <= |s| && (forall i :: 0 <= i < n ==> Alphanumeric(s[i])) && (n < |s| ==> !Alphanumeric(s[n]))
  {
    if s == [] || !Alphanumeric(s[0]) then 0 else 1 + NameLength(s[1..])
  }

  function SkipSpaces(s: string): (r: string)
    ensures |r| <= |s|
  {
    if s != [] && s[0] in SPACES then SkipSpaces(s[1..]) else s
  }

  /** The position of the first occurrence, if any. */
  function IndexOf(s: string, needle: string): (r: Option<nat>)
    ensures r.Some? ==> r.value + |needle| <= |s|
  {
    if |s| < |needle| then None
    else if needle <= s then Some(0)
    else
      if s == [] then None
      else
        var r := IndexOf(s[1..], needle);
        if r.Some? then Some(r.value + 1) else None
  }

  /** The position of the first occurrence up to letter case; `needle` is lower case. */
  function IndexIgnoringCase(s: string, needle: string): (r: Option<nat>)
    ensures r.Some? ==> r.value + |needle| <= |s|
  {
    if |s| < |needle| then None
    else if Lower(s[..|needle|]) == needle then Some(0)
    else
      if s == [] then None
      else
        var r := IndexIgnoringCase(s[1..], needle);
        if r.Some? then Some(r.value + 1) else None
  }

  // ---- what a page's links are ----

  /** An attribute value at the front of `v`, and what follows it. */
  function ValueAt(v: string): (r: (string, string))
    requires v != []
    ensures |r.1| <= |v|
  {
    if v[0] == '"' || v[0] == '\'' then
      var end := FindAny(v[1..], {v[0]});
      if end == |v| - 1 then (v[1..], []) else (v[1..1 + end], v[1 + end + 1..])
    else
      var end := FindAny(v, VALUE_STOPS);
      (v[..end], v[end..])
  }

  /** One part of a tag: its end, or a gap or attribute with the value it gives to `href`. */
  datatype TagPart = TagEnd(rest: string) | Attribute(href: Option<string>, rest: string)

  /** An attribute at the front, its optional value included. */
  function AttributeAt(s: string): (r: TagPart)
    requires s != []
    ensures |r.rest| < |s|
  {
    var nameEnd := FindAny(s, NAME_STOPS);
    var probe := SkipSpaces(s[nameEnd..]);
    if probe != [] && probe[0] == '=' then
      var v := SkipSpaces(probe[1..]);
      if v == [] then TagEnd([])
      else Attribute(if Lower(s[..nameEnd]) == "href" then Some(ValueAt(v).0) else None, ValueAt(v).1)
    else Attribute(None, if nameEnd == 0 then s[1..] else s[nameEnd..])
  }

  /** The part at the front of a non-empty remainder of a tag. A `>` inside quotes does not end it. */
  function NextPart(s: string): (r: TagPart)
    requires s != []
    ensures |r.rest| < |s|
  {
    if s[0] == '>' then TagEnd(s[1..])
    else if s[0] in SPACES || s[0] == '/' then Attribute(None, s[1..])
    else AttributeAt(s)
  }

  /** The rest of a tag from just past its name: the first href value if wanted, and what follows
      the tag. */
  function TagRest(s: string, href: Option<string>, capture: bool): (r: (Option<string>, string))
    ensures |r.1| <= |s|
    decreases |s|
  {
    if s == [] then (href, [])
    else
      var part := NextPart(s);
      if part.TagEnd? then (href, part.rest)
      else TagRest(part.rest, if capture && href.None? then part.href else href, capture)
  }

  predicate EndsName(after: string) {
    after == [] || after[0] in SPACES || after[0] == '>' || after[0] == '/'
  }

  /** What a step of the scan finds, and the rest to scan, if any. */
  type Step = (seq<string>, Option<string>)

  const NOTHING_MORE: Step := ([], None)

  predicate RawText(name: string) { Lower(name) == "script" || Lower(name) == "style" }

  /** An element with name `name`, from just past the name. */
  function ElementStep(name: string, after: string): (r: Step)
    ensures r.1.Some? ==> |r.1.value| <= |after|
  {
    if RawText(name) then
      var end := IndexIgnoringCase(after, "</" + Lower(name));
      if end.None? then NOTHING_MORE else ([], Some(after[end.value..]))
    else if EndsName(after) && Lower(name) == "a" then
      var (href, rest) := TagRest(after, None, true);
      (if href.None? then [] else Cleaned(href.value), Some(rest))
    else ([], Some(TagRest(after, None, false).1))
  }

  /** Markup: `t` starts with `<` and has something after it. */
  function MarkupStep(t: string): (r: Step)
    requires |t| >= 2
    ensures r.1.Some? ==> |r.1.value| < |t|
  {
    if "<!--" <= t then
      var end := IndexOf(t[4..], "-->");
      if end.None? then NOTHING_MORE else ([], Some(t[4 + end.value + 3..]))
    else if t[1] == '/' || t[1] == '!' || t[1] == '?' then
      var end := FindAny(t[1..], {'>'});
      if end == |t| - 1 then NOTHING_MORE else ([], Some(t[1 + end + 1..]))
    else
      var n := NameLength(t[1..]);
      if n == 0 then ([], Some(t[1..])) else ElementStep(t[1..1 + n], t[1 + n..])
  }

  /** One step of the scan: hop to the next `<` and take the markup there. */
  function ScanStep(s: string): (r: Step)
    ensures r.1.Some? ==> |r.1.value| < |s|
  {
    var t := s[FindAny(s, {'<'})..];
    if |t| < 2 then NOTHING_MORE else MarkupStep(t)
  }

  /** The links of a page, in document order. */
  function Links(s: string): seq<string>
    decreases |s|
  {
    var (found, rest) := ScanStep(s);
    if rest.None? then found else found + Links(rest.value)
  }

  // ---- cleaning an href ----

  const BLANKS: set<char> := SPACES + {'\U{0B}'}

  function TrimLeft(s: string): (r: string)
    ensures |r| <= |s|
  {
    if s != [] && s[0] in BLANKS then TrimLeft(s[1..]) else s
  }

  function TrimRight(s: string): (r: string)
    ensures |r| <= |s|
  {
    if s != [] && s[|s| - 1] in BLANKS then TrimRight(s[..|s| - 1]) else s
  }

  function Trim(s: string): string { TrimRight(TrimLeft(s)) }

  function HexValue(c: char): Option<nat> {
    if '0' <= c <= '9' then Some(c as int - '0' as int)
    else if 'a' <= c <= 'f' then Some(c as int - 'a' as int + 10)
    else if 'A' <= c <= 'F' then Some(c as int - 'A' as int + 10)
    else None
  }

  /** The number a digit string stands for. */
  function Digits(s: string, radix: nat): Option<nat> {
    if s == [] then Some(0)
    else
      var init, last := Digits(s[..|s| - 1], radix), HexValue(s[|s| - 1]);
      if init.None? || last.None? || last.value >= radix then None else Some(init.value * radix + last.value)
  }

  /** Integer parsing allows a plus sign and refuses no digits at all. */
  function ParseCode(s: string, radix: nat): Option<nat> {
    var digits := if s != [] && s[0] == '+' then s[1..] else s;
    if digits == [] then None else Digits(digits, radix)
  }

  /** A Unicode scalar value as a char. */
  function CharOf(code: nat): Option<char> {
    if code < 0xD800 || 0xE000 <= code < 0x11_0000 then Some(code as char) else None
  }

  function DecodeEntity(entity: string): Option<char> {
    if entity == "amp" then Some('&')
    else if entity == "lt" then Some('<')
    else if entity == "gt" then Some('>')
    else if entity == "quot" then Some('"')
    else if entity == "apos" || entity == "#39" then Some('\'')
    else if entity == [] || entity[0] != '#' then None
    else
      var num := entity[1..];
      var code := if num != [] && (num[0] == 'x' || num[0] == 'X') then ParseCode(num[1..], 16) else ParseCode(num, 10);
      if code.None? then None else CharOf(code.value)
  }

  /** One char of the decoded text and what follows in the source. */
  function DecodeStep(s: string): (r: (char, string))
    requires s != []
    ensures |r.1| < |s|
  {
    var semi := FindAny(s[1..], {';'});
    if s[0] == '&' && semi < |s| - 1 && DecodeEntity(s[1..1 + semi]).Some?
    then (DecodeEntity(s[1..1 + semi]).value, s[1 + semi + 1..])
    else (s[0], s[1..])
  }

  function Decoded(s: string): string
    decreases |s|
  {
    if s == [] then [] else [DecodeStep(s).0] + Decoded(DecodeStep(s).1)
  }

  /** The link an href stands for: trimmed, decoded when it has an ampersand; none if blank. */
  function Cleaned(raw: string): seq<string> {
    var s := Trim(raw);
    if s == [] then []
    else if '&' !in s then [s]
    else
      var out := Trim(Decoded(s));
      if out == [] then [] else [out]
  }

  // ---- the code ----

  /** What is left of the input from position `i`. */
  function Tail(s: string, i: nat): (r: string)
    requires i <= |s|
    ensures |r| == |s| - i
  {
    s[i..]
  }

  lemma TailNext(s: string, i: nat)
    requires i < |s|
    ensures Tail(s, i)[0] == s[i] && Tail(s, i)[1..] == Tail(s, i + 1)
  {}

  lemma TailCut(s: string, i: nat, k: nat)
    requires i <= k <= |s|
    ensures Tail(s, i)[..k - i] == s[i..k] && Tail(s, i)[k - i..] == Tail(s, k)
  {}

  lemma TailEnds(s: string)
    ensures Tail(s, |s|) == [] && Tail(s, 0) == s
  {}

  /** Advance to the first of `stops` from `i`, or to the end. */
  method RunTo(s: string, i: nat, stops: set<char>) returns (k: nat)
    requires i <= |s|
    ensures i <= k <= |s| && k == i + FindAny(Tail(s, i), stops)
  {
    k := i;
    while k < |s| && s[k] !in stops
      invariant i <= k <= |s| && FindAny(Tail(s, i), stops) == k - i + FindAny(Tail(s, k), stops)
    {
      TailNext(s, k);
      k := k + 1;
    }
    if k < |s| {
      TailNext(s, k);
    }
  }

  method SkipRun(s: string, i: nat) returns (k: nat)
    requires i <= |s|
    ensures i <= k <= |s| && Tail(s, k) == SkipSpaces(Tail(s, i))
  {
    k := i;
    hide Tail;
    while k < |s| && s[k] in SPACES
      invariant i <= k <= |s| && SkipSpaces(Tail(s, i)) == SkipSpaces(Tail(s, k))
    {
      TailNext(s, k);
      k := k + 1;
    }
    if k < |s| {
      TailNext(s, k);
    }
  }

  method NameEnd(s: string, i: nat) returns (k: nat)
    requires i <= |s|
    ensures i <= k <= |s| && k == i + NameLength(Tail(s, i))
  {
    k := i;
    while k < |s| && Alphanumeric(s[k])
      invariant i <= k <= |s| && NameLength(Tail(s, i)) == k - i + NameLength(Tail(s, k))
    {
      TailNext(s, k);
      k := k + 1;
    }
    if k < |s| {
      TailNext(s, k);
    }
  }

  /** The attribute value from `probe`, and the position after it. */
  method ScanValue(bytes: string, probe: nat) returns (value: string, after: nat)
    requires probe < |bytes|
    ensures probe <= after <= |bytes| && (value, Tail(bytes, after)) == ValueAt(Tail(bytes, probe))
  {
    var quote := bytes[probe];
    TailNext(bytes, probe);
    TailEnds(bytes);
    hide Tail, FindAny;
    if quote == '"' || quote == '\'' {
      var end := RunTo(bytes, probe + 1, {quote});
      TailCut(bytes, probe, probe + 1);
      QuotedValue(bytes, probe, end);
      if end < |bytes| {
        value, after := bytes[probe + 1..end], end + 1;
      } else {
        value, after := bytes[probe + 1..], |bytes|;
      }
    } else {
      var end := RunTo(bytes, probe, VALUE_STOPS);
      value, after := bytes[probe..end], end;
      TailCut(bytes, probe, end);
    }
  }

  lemma QuotedValue(bytes: string, probe: nat, end: nat)
    requires probe < |bytes| && (bytes[probe] == '"' || bytes[probe] == '\'')
    requires end == probe + 1 + FindAny(Tail(bytes, probe + 1), {bytes[probe]})
    ensures probe < end <= |bytes|
    ensures ValueAt(Tail(bytes, probe)) ==
      if end == |bytes| then (bytes[probe + 1..], []) else (bytes[probe + 1..end], Tail(bytes, end + 1))
  {
    TailNext(bytes, probe);
    var v := Tail(bytes, probe);
    if end < |bytes| {
      assert v[1..1 + (end - probe - 1)] == bytes[probe + 1..end] && v[end - probe + 1..] == Tail(bytes, end + 1);
    }
    hide FindAny;
  }

  lemma WithoutValue(s: string, n: nat, tail: string)
    requires s != [] && n == FindAny(s, NAME_STOPS) && tail == SkipSpaces(s[n..]) && (tail == [] || tail[0] != '=')
    ensures AttributeAt(s) == Attribute(None, if n == 0 then s[1..] else s[n..])
  {
    hide FindAny, SkipSpaces;
  }

  lemma WithValue(s: string, n: nat, tail: string, v: string)
    requires s != [] && n == FindAny(s, NAME_STOPS) && tail == SkipSpaces(s[n..]) && tail != [] && tail[0] == '='
    requires v == SkipSpaces(tail[1..])
    ensures AttributeAt(s) == if v == [] then TagEnd([])
                              else Attribute(if Lower(s[..n]) == "href" then Some(ValueAt(v).0) else None, ValueAt(v).1)
  {
    hide FindAny, SkipSpaces, ValueAt, Lower;
  }

  lemma ValuelessAt(bytes: string, pos: nat, nameEnd: nat, probe: nat)
    requires pos < |bytes| && pos <= nameEnd <= probe <= |bytes|
    requires nameEnd == pos + FindAny(Tail(bytes, pos), NAME_STOPS)
    requires Tail(bytes, probe) == SkipSpaces(Tail(bytes, nameEnd)) && (probe < |bytes| ==> bytes[probe] != '=')
    ensures AttributeAt(Tail(bytes, pos)) == Attribute(None, Tail(bytes, if nameEnd > pos then nameEnd else pos + 1))
  {
    hide FindAny, SkipSpaces, Tail, AttributeAt;
    TailCut(bytes, pos, nameEnd);
    TailNext(bytes, pos);
    if probe < |bytes| {
      TailNext(bytes, probe);
    }
    WithoutValue(Tail(bytes, pos), nameEnd - pos, Tail(bytes, probe));
  }

  lemma ValueFollows(bytes: string, pos: nat, nameEnd: nat, probe: nat, start: nat)
    requires pos < |bytes| && pos <= nameEnd <= probe < start <= |bytes|
    requires nameEnd == pos + FindAny(Tail(bytes, pos), NAME_STOPS)
    requires Tail(bytes, probe) == SkipSpaces(Tail(bytes, nameEnd)) && bytes[probe] == '='
    requires Tail(bytes, start) == SkipSpaces(Tail(bytes, probe + 1))
    ensures AttributeAt(Tail(bytes, pos)) ==
      if start == |bytes| then TagEnd([])
      else Attribute(if Lower(bytes[pos..nameEnd]) == "href" then Some(ValueAt(Tail(bytes, start)).0) else None,
                     ValueAt(Tail(bytes, start)).1)
  {
    TailCut(bytes, pos, nameEnd);
    TailNext(bytes, probe);
    hide FindAny, SkipSpaces, Tail, AttributeAt, ValueAt, Lower;
    WithValue(Tail(bytes, pos), nameEnd - pos, Tail(bytes, probe), Tail(bytes, start));
  }

  method ScanAttribute(bytes: string, pos: nat) returns (ended: bool, href: Option<string>, after: nat)
    requires pos < |bytes|
    ensures pos < after <= |bytes|
    ensures AttributeAt(Tail(bytes, pos)) ==
      if ended then TagEnd(Tail(bytes, after)) else Attribute(href, Tail(bytes, after))
  {
    hide SkipSpaces, FindAny, ValueAt, Lower, AttributeAt, Tail;
    ended, href := false, None;
    var nameEnd := RunTo(bytes, pos, NAME_STOPS);
    var probe := SkipRun(bytes, nameEnd);
    if probe < |bytes| && bytes[probe] == '=' {
      var start := SkipRun(bytes, probe + 1);
      ValueFollows(bytes, pos, nameEnd, probe, start);
      if start >= |bytes| {
        TailEnds(bytes);
        return true, None, |bytes|;
      }
      var value;
      value, after := ScanValue(bytes, start);
      href := if Lower(bytes[pos..nameEnd]) == "href" then Some(value) else None;
    } else {
      ValuelessAt(bytes, pos, nameEnd, probe);
      after := if nameEnd > pos then nameEnd else pos + 1;
    }
  }

  /** One part of a tag from `pos`: a blank, slash or attribute, or its end. */
  method ScanPart(bytes: string, pos: nat) returns (ended: bool, href: Option<string>, after: nat)
    requires pos < |bytes|
    ensures pos < after <= |bytes|
    ensures NextPart(Tail(bytes, pos)) ==
      if ended then TagEnd(Tail(bytes, after)) else Attribute(href, Tail(bytes, after))
  {
    var c := bytes[pos];
    TailNext(bytes, pos);
    hide AttributeAt, Tail;
    if c == '>' {
      return true, None, pos + 1;
    }
    if c in SPACES || c == '/' {
      return false, None, pos + 1;
    }
    ended, href, after := ScanAttribute(bytes, pos);
  }

  /** Scan a tag's attributes from just past its name to just past its `>`. */
  method ScanTag(bytes: string, start: nat, capture: bool) returns (href: Option<string>, next: nat)
    requires start <= |bytes|
    ensures start <= next <= |bytes|
    ensures (href, Tail(bytes, next)) == TagRest(Tail(bytes, start), None, capture)
  {
    var pos := start;
    href := None;
    TailEnds(bytes);
    hide NextPart, Tail;
    while pos < |bytes|
      invariant start <= pos <= |bytes|
      invariant TagRest(Tail(bytes, start), None, capture) == TagRest(Tail(bytes, pos), href, capture)
      decreases |bytes| - pos
    {
      var ended, value, after := ScanPart(bytes, pos);
      if ended {
        return href, after;
      }
      if capture && href.None? {
        href := value;
      }
      pos := after;
    }
    next := |bytes|;
  }

  // ---- searching ----

  function Shifted(r: Option<nat>, n: nat): Option<nat> { if r.None? then None else Some(r.value + n) }

  /** The first match from position `i`, as a position in the whole text. */
  function IndexFrom(s: string, needle: string, i: nat): Option<nat>
    requires i <= |s|
  {
    Shifted(IndexIgnoringCase(Tail(s, i), needle), i)
  }

  /** Search for a lower-case needle that starts with `<`, ignoring case: hop from `<` to `<`. */
  method FindCi(hay: string, start: nat, needle: string) returns (r: Option<nat>)
    requires start <= |hay| && needle != [] && needle[0] == '<'
    ensures r == IndexFrom(hay, needle, start)
  {
    var i := start;
    hide IndexFrom;
    while i + |needle| <= |hay|
      invariant i <= |hay|
      invariant IndexFrom(hay, needle, start) == IndexFrom(hay, needle, i)
      decreases |hay| - i
    {
      var pos, hit := Hop(hay, needle, i);
      if hit {
        return Some(pos);
      }
      if pos == |hay| {
        return None;
      }
      i := pos + 1;
    }
    NoRoom(hay, needle, i);
    r := None;
  }

  lemma NoRoom(s: string, needle: string, i: nat)
    requires i <= |s| < i + |needle|
    ensures IndexFrom(s, needle, i) == None
  {}

  /** The next `<`, and whether the needle is there. */
  method Hop(hay: string, needle: string, i: nat) returns (pos: nat, hit: bool)
    requires needle != [] && needle[0] == '<' && i <= |hay|
    ensures i <= pos <= |hay| && (hit ==> pos < |hay|)
    ensures IndexFrom(hay, needle, i) ==
      if hit then Some(pos) else if pos == |hay| then None else IndexFrom(hay, needle, pos + 1)
  {
    pos := RunTo(hay, i, {'<'});
    SkipTo(hay, needle, i, pos);
    hide FindAny, Tail, IndexFrom, Lower;
    if pos == |hay| {
      NoRoom(hay, needle, pos);
      return pos, false;
    }
    AtMark(hay, needle, pos);
    hit := pos + |needle| <= |hay| && Lower(hay[pos..pos + |needle|]) == needle;
  }

  lemma SkipTo(hay: string, needle: string, i: nat, pos: nat)
    requires needle != [] && needle[0] == '<' && i <= pos <= |hay| && pos == i + FindAny(Tail(hay, i), {'<'})
    ensures IndexFrom(hay, needle, i) == IndexFrom(hay, needle, pos)
  {
    TailCut(hay, i, pos);
    hide FindAny, Tail, IndexIgnoringCase, Shifted;
    var rest := Tail(hay, pos);
    NoMatchBefore(Tail(hay, i), needle, pos - i);
    ShiftTwice(IndexIgnoringCase(rest, needle), pos - i, i);
  }

  lemma ShiftTwice(r: Option<nat>, a: nat, b: nat)
    ensures Shifted(Shifted(r, a), b) == Shifted(r, a + b)
  {}

  lemma AtMark(hay: string, needle: string, pos: nat)
    requires pos < |hay|
    ensures IndexFrom(hay, needle, pos) ==
      if pos + |needle| <= |hay| && Lower(hay[pos..pos + |needle|]) == needle then Some(pos)
      else IndexFrom(hay, needle, pos + 1)
  {
    TailNext(hay, pos);
    if pos + |needle| <= |hay| {
      TailHead(hay, pos, pos + |needle|);
    }
    hide Tail, IndexIgnoringCase, Lower;
    if pos + |needle| <= |hay| && Lower(hay[pos..pos + |needle|]) == needle {
      MatchHere(Tail(hay, pos), needle);
    } else {
      NoMatchHere(Tail(hay, pos), needle);
    }
  }

  lemma TailHead(s: string, i: nat, k: nat)
    requires i <= k <= |s|
    ensures Tail(s, i)[..k - i] == s[i..k]
  {}

  lemma MatchHere(s: string, needle: string)
    requires |needle| <= |s| && Lower(s[..|needle|]) == needle
    ensures IndexIgnoringCase(s, needle) == Some(0)
  {}

  lemma NoMatchHere(s: string, needle: string)
    requires s != [] && !(|needle| <= |s| && Lower(s[..|needle|]) == needle)
    ensures IndexIgnoringCase(s, needle) == Shifted(IndexIgnoringCase(s[1..], needle), 1)
  {
    hide Lower;
  }

  lemma MarkNeeded(s: string, needle: string)
    requires s != [] && s[0] != '<' && needle != [] && needle[0] == '<'
    ensures !(|needle| <= |s| && Lower(s[..|needle|]) == needle)
  {
    assert |needle| <= |s| ==> Lower(s[..|needle|])[0] == LowerChar(s[0]);
  }

  /** There is no match before the first `<`. */
  lemma {:induction false} NoMatchBefore(s: string, needle: string, n: nat)
    requires needle != [] && needle[0] == '<' && n <= FindAny(s, {'<'})
    ensures IndexIgnoringCase(s, needle) == Shifted(IndexIgnoringCase(s[n..], needle), n)
  {
    hide IndexIgnoringCase, Lower;
    if n == 0 {
      assert s[0..] == s;
    } else {
      assert s[1..][n - 1..] == s[n..];
      NoMatchBefore(s[1..], needle, n - 1);
      hide FindAny;
      MarkNeeded(s, needle);
      NoMatchHere(s, needle);
    }
  }

  // ---- the scan ----

  /** A step in terms of positions: where the scan goes on. */
  ghost predicate Goes(step: Step, bytes: string, found: seq<string>, next: Option<nat>)
    requires next.Some? ==> next.value <= |bytes|
  {
    step == (found, if next.None? then None else Some(Tail(bytes, next.value)))
  }

  /** Decode the entities of a text; unknown ones pass through. */
  method DecodeEntities(s: string) returns (out: string)
    ensures out == Decoded(s)
  {
    out := [];
    var i: nat := 0;
    TailEnds(s);
    hide Tail, DecodeStep;
    while i < |s|
      invariant i <= |s|
      invariant Decoded(s) == out + Decoded(Tail(s, i))
      decreases |s| - i
    {
      var c, next := DecodeOne(s, i);
      assert out + ([c] + Decoded(Tail(s, next))) == out + [c] + Decoded(Tail(s, next));
      out := out + [c];
      i := next;
    }
    assert Decoded([]) == [];
  }

  /** One char of the decoded text. */
  method DecodeOne(s: string, i: nat) returns (c: char, next: nat)
    requires i < |s|
    ensures i < next <= |s| && DecodeStep(Tail(s, i)) == (c, Tail(s, next))
  {
    TailNext(s, i);
    ghost var t := Tail(s, i);
    c, next := s[i], i + 1;
    if s[i] == '&' {
      var semi := RunTo(s, i + 1, {';'});
      if semi < |s| {
        var entity := s[i + 1..semi];
        assert t[1..1 + (semi - i - 1)] == entity && t[1 + (semi - i - 1) + 1..] == Tail(s, semi + 1);
        hide DecodeEntity, FindAny;
        var decoded := DecodeEntity(entity);
        if decoded.Some? {
          c, next := decoded.value, semi + 1;
        }
      }
    }
  }

  /** Trim, decode only if needed, and push a non-empty href. */
  method PushHref(links: seq<string>, raw: string) returns (r: seq<string>)
    ensures r == links + Cleaned(raw)
  {
    hide Trim, Decoded;
    var s := Trim(raw);
    if s == [] {
      return links;
    }
    if '&' !in s {
      return links + [s];
    }
    var out := DecodeEntities(s);
    out := Trim(out);
    r := if out == [] then links else links + [out];
  }

  /** From just past an element's name. */
  method ScanElement(bytes: string, name: string, j: nat, links: seq<string>)
    returns (links': seq<string>, next: Option<nat>)
    requires j <= |bytes|
    ensures next.Some? ==> j <= next.value <= |bytes|
    ensures exists found :: links' == links + found && Goes(ElementStep(name, Tail(bytes, j)), bytes, found, next)
  {
    links', next := links, None;
    assert links + [] == links;
    if j < |bytes| {
      TailNext(bytes, j);
    }
    if RawText(name) {
      var close := if Lower(name) == "script" then "</script" else "</style";
      assert close == "</" + Lower(name);
      next := FindCi(bytes, j, close);
      CloseAt(bytes, name, j, close, next);
      assert Goes(ElementStep(name, Tail(bytes, j)), bytes, [], next);
      return;
    }
    hide Tail, TagRest, IndexIgnoringCase, Lower, Cleaned;
    var boundary := j >= |bytes| || bytes[j] in SPACES || bytes[j] == '>' || bytes[j] == '/';
    assert boundary <==> EndsName(Tail(bytes, j));
    if boundary && Lower(name) == "a" {
      var href, end := ScanTag(bytes, j, true);
      next := Some(end);
      if href.Some? {
        links' := PushHref(links, href.value);
      }
      ghost var found := if href.None? then [] else Cleaned(href.value);
      assert Goes(ElementStep(name, Tail(bytes, j)), bytes, found, next);
      assert links' == links + found;
    } else {
      var _, end := ScanTag(bytes, j, false);
      next := Some(end);
      assert Goes(ElementStep(name, Tail(bytes, j)), bytes, [], next);
    }
  }

  lemma CloseAt(bytes: string, name: string, j: nat, close: string, next: Option<nat>)
    requires j <= |bytes| && RawText(name) && close == "</" + Lower(name) && next == IndexFrom(bytes, close, j)
    ensures next.Some? ==> j <= next.value <= |bytes|
    ensures Goes(ElementStep(name, Tail(bytes, j)), bytes, [], next)
  {
    if next.Some? {
      TailCut(bytes, j, next.value);
    }
    hide IndexIgnoringCase, Tail, Lower;
  }

  lemma CommentAt(bytes: string, p: nat)
    requires p + 2 <= |bytes| && "<!--" <= Tail(bytes, p)
    ensures p + 4 <= |bytes|
    ensures var end := IndexOf(Tail(bytes, p + 4), "-->");
      var next := if end.None? then None else Some(p + 4 + end.value + 3);
      && (next.Some? ==> p < next.value <= |bytes|)
      && Goes(MarkupStep(Tail(bytes, p)), bytes, [], next)
  {
    var t := Tail(bytes, p);
    assert p + 4 <= |bytes|;
    TailCut(bytes, p, p + 4);
    var end := IndexOf(t[4..], "-->");
    if end.Some? {
      TailCut(bytes, p, p + 4 + end.value + 3);
    }
    hide IndexOf, Tail;
  }

  lemma ClosingAt(bytes: string, p: nat, end: nat)
    requires p + 2 <= |bytes| && !("<!--" <= Tail(bytes, p))
    requires bytes[p + 1] == '/' || bytes[p + 1] == '!' || bytes[p + 1] == '?'
    requires end == p + 1 + FindAny(Tail(bytes, p + 1), {'>'})
    ensures p < end <= |bytes|
    ensures Goes(MarkupStep(Tail(bytes, p)), bytes, [], if end == |bytes| then None else Some(end + 1))
  {
    var t := Tail(bytes, p);
    TailNext(bytes, p);
    assert t[1] == bytes[p + 1];
    if end < |bytes| {
      TailCut(bytes, p, end + 1);
    }
    hide FindAny, Tail;
  }

  lemma ElementAt(bytes: string, p: nat, j: nat)
    requires p + 2 <= |bytes| && !("<!--" <= Tail(bytes, p))
    requires bytes[p + 1] != '/' && bytes[p + 1] != '!' && bytes[p + 1] != '?'
    requires j == p + 1 + NameLength(Tail(bytes, p + 1))
    ensures p < j <= |bytes|
    ensures MarkupStep(Tail(bytes, p)) ==
      if j == p + 1 then ([], Some(Tail(bytes, p + 1))) else ElementStep(bytes[p + 1..j], Tail(bytes, j))
  {
    var t := Tail(bytes, p);
    TailNext(bytes, p);
    assert t[1] == bytes[p + 1];
    TailCut(bytes, p, j);
    assert t[1..1 + (j - p - 1)] == bytes[p + 1..j];
    hide NameLength, Tail, ElementStep;
  }

  /** The markup at `p`: a comment, a closing tag or declaration, a bare `<`, or an element. */
  method ScanMarkup(bytes: string, p: nat, links: seq<string>) returns (links': seq<string>, next: Option<nat>)
    requires p + 2 <= |bytes|
    ensures next.Some? ==> p < next.value <= |bytes|
    ensures exists found :: links' == links + found && Goes(MarkupStep(Tail(bytes, p)), bytes, found, next)
  {
    links', next := links, None;
    assert links + [] == links;
    if "<!--" <= bytes[p..] {
      assert Tail(bytes, p) == bytes[p..];
      CommentAt(bytes, p);
      hide MarkupStep, IndexOf;
      var end := IndexOf(bytes[p + 4..], "-->");
      assert Tail(bytes, p + 4) == bytes[p + 4..];
      next := if end.None? then None else Some(p + 4 + end.value + 3);
      return;
    }
    assert !("<!--" <= Tail(bytes, p));
    hide MarkupStep, ElementStep, Tail, FindAny, NameLength;
    if bytes[p + 1] == '/' || bytes[p + 1] == '!' || bytes[p + 1] == '?' {
      var end := RunTo(bytes, p + 1, {'>'});
      ClosingAt(bytes, p, end);
      next := if end == |bytes| then None else Some(end + 1);
      return;
    }
    var j := NameEnd(bytes, p + 1);
    ElementAt(bytes, p, j);
    if j == p + 1 {
      next := Some(p + 1);
      assert Goes(MarkupStep(Tail(bytes, p)), bytes, [], next);
      return;
    }
    links', next := ScanElement(bytes, bytes[p + 1..j], j, links);
  }

  lemma StepFrom(bytes: string, i: nat, p: nat)
    requires i <= |bytes| && p == i + FindAny(Tail(bytes, i), {'<'})
    ensures p <= |bytes|
    ensures ScanStep(Tail(bytes, i)) == if p + 2 > |bytes| then NOTHING_MORE else MarkupStep(Tail(bytes, p))
  {
    TailCut(bytes, i, p);
    hide FindAny, Tail, MarkupStep;
  }

  lemma LinksFrom(bytes: string, i: nat, p: nat, found: seq<string>, next: Option<nat>)
    requires i <= |bytes| && p == i + FindAny(Tail(bytes, i), {'<'}) && p + 2 <= |bytes|
    requires (next.Some? ==> next.value <= |bytes|) && Goes(MarkupStep(Tail(bytes, p)), bytes, found, next)
    ensures Links(Tail(bytes, i)) == if next.None? then found else found + Links(Tail(bytes, next.value))
  {
    StepFrom(bytes, i, p);
    hide FindAny, Tail, ScanStep, MarkupStep;
  }

  lemma LinksEnd(bytes: string, i: nat, p: nat)
    requires i <= |bytes| && p == i + FindAny(Tail(bytes, i), {'<'}) && p + 2 > |bytes|
    ensures Links(Tail(bytes, i)) == []
  {
    StepFrom(bytes, i, p);
    hide FindAny, Tail, ScanStep;
  }

  /** The links still to come from `next`. */
  ghost function LinksAfter(bytes: string, next: Option<nat>): seq<string>
    requires next.Some? ==> next.value <= |bytes|
  {
    if next.None? then [] else Links(Tail(bytes, next.value))
  }

  /** What is found so far and what is still to come are the links of the page. */
  ghost predicate Covers(bytes: string, links: seq<string>, next: Option<nat>)
    requires next.Some? ==> next.value <= |bytes|
  {
    Links(bytes) == links + LinksAfter(bytes, next)
  }

  lemma CoversNext(bytes: string, i: nat, links: seq<string>, found: seq<string>, next: Option<nat>)
    requires i <= |bytes| && Covers(bytes, links, Some(i)) && (next.Some? ==> next.value <= |bytes|)
    requires Links(Tail(bytes, i)) == found + LinksAfter(bytes, next)
    ensures Covers(bytes, links + found, next)
  {
    hide Links, Tail;
    assert links + (found + LinksAfter(bytes, next)) == links + found + LinksAfter(bytes, next);
  }

  lemma CoversEnds(bytes: string, links: seq<string>)
    ensures Covers(bytes, [], Some(0))
    ensures Covers(bytes, links, None) || Covers(bytes, links, Some(|bytes|)) ==> links == Links(bytes)
  {
    TailEnds(bytes);
    assert Links([]) == [];
    hide Links, Tail;
    assert [] + Links(bytes) == Links(bytes) && links + [] == links;
  }

  /** One round: hop to the next `<` and take what is there. */
  method ScanRound(bytes: string, i: nat, links: seq<string>) returns (links': seq<string>, next: Option<nat>)
    requires i <= |bytes| && Covers(bytes, links, Some(i))
    ensures (next.Some? ==> i < next.value <= |bytes|) && Covers(bytes, links', next)
  {
    hide Tail, FindAny, MarkupStep, Links, Goes, Covers;
    var p := RunTo(bytes, i, {'<'});
    if p + 2 > |bytes| {
      LinksEnd(bytes, i, p);
      CoversNext(bytes, i, links, [], None);
      assert links + [] == links;
      return links, None;
    }
    links', next := ScanMarkup(bytes, p, links);
    ghost var found :| links' == links + found && Goes(MarkupStep(Tail(bytes, p)), bytes, found, next);
    LinksFrom(bytes, i, p, found, next);
    assert found + [] == found;
    CoversNext(bytes, i, links, found, next);
  }

  /** All outbound links of a page, in document order: one forward pass in which every round
      advances. */
  method ExtractLinks(bytes: string) returns (links: seq<string>)
    ensures links == Links(bytes)
  {
    links := [];
    var i: nat := 0;
    CoversEnds(bytes, []);
    hide Covers, Links;
    while i < |bytes|
      invariant i <= |bytes| && Covers(bytes, links, Some(i))
      decreases |bytes| - i
    {
      var next: Option<nat>;
      links, next := ScanRound(bytes, i, links);
      if next.None? {
        CoversEnds(bytes, links);
        return;
      }
      i := next.value;
    }
    CoversEnds(bytes, links);
  }
}
