/** Pages printed from tokens, and what the link scanner makes of them. */
module HtmlTokens {
  import opened Common
  import opened Filters
  import opened UrlKeys
  import opened Html

  datatype Value = Bare | DoubleQuoted(text: string) | SingleQuoted(text: string) | Unquoted(text: string)

  /** An attribute with the blanks and slashes before it and the blanks on either side of its
      equals sign. */
  datatype Attr = Attr(gap: string, name: string, before: string, after: string, value: Value)

  /** An element's name is its leading letters and digits; `suffix` is what else is written there,
      as in `my-el`. */
  datatype Token =
    | Text(text: string)
    | Comment(text: string)
    | Closing(mark: char, text: string)
    | Raw(name: string, inner: string, closing: string)
    | Element(name: string, suffix: string, attrs: seq<Attr>, gap: string)

  // ---- printing ----

  /** A value as it is written after the equals sign. */
  function Written(v: Value): string {
    match v
    case Bare => []
    case DoubleQuoted(text) => ['"'] + (text + ['"'])
    case SingleQuoted(text) => ['\''] + (text + ['\''])
    case Unquoted(text) => text
  }

  /** What follows the name of an attribute, up to `more`. */
  function PrintValue(a: Attr, more: string): string {
    if a.value.Bare? then more else a.before + (['='] + (a.after + (Written(a.value) + more)))
  }

  function PrintAttrs(attrs: seq<Attr>, tail: string): string {
    if attrs == [] then tail
    else attrs[0].gap + (attrs[0].name + PrintValue(attrs[0], PrintAttrs(attrs[1..], tail)))
  }

  /** A token, followed by the rest of the page. */
  function Print(t: Token, rest: string): string {
    match t
    case Text(text) => text + rest
    case Comment(text) => "<!--" + (text + "-->" + rest)
    case Closing(mark, text) => ['<', mark] + (text + (">" + rest))
    case Raw(name, inner, closing) => "<" + (name + (inner + "</" + closing + (">" + rest)))
    case Element(name, suffix, attrs, gap) => "<" + (name + (suffix + PrintAttrs(attrs, gap + (">" + rest))))
  }

  function PrintAll(ts: seq<Token>): string {
    if ts == [] then [] else Print(ts[0], PrintAll(ts[1..]))
  }

  // ---- which tokens are well formed ----

  predicate Blank(s: string) { forall c :: c in s ==> c in SPACES }

  predicate Filler(s: string) { forall c :: c in s ==> c in SPACES || c == '/' }

  predicate GoodValue(v: Value) {
    match v
    case Bare => true
    case DoubleQuoted(text) => '"' !in text
    case SingleQuoted(text) => '\'' !in text
    case Unquoted(text) =>
      text != [] && text[0] != '"' && text[0] != '\'' && forall c :: c in text ==> c !in VALUE_STOPS
  }

  predicate AttrName(name: string) { name != [] && forall c :: c in name ==> c !in NAME_STOPS }

  predicate GoodAttr(a: Attr) { AttrName(a.name) && GoodValue(a.value) && Blank(a.before) && Blank(a.after) }

  /** What may stand between an attribute with value `v` and the next: after a bare name something,
      after an unquoted value a blank first, after a quoted one anything or nothing. */
  predicate GapAfter(v: Value, gap: string) {
    Filler(gap) && (v.Bare? ==> gap != []) && (v.Unquoted? ==> gap != [] && gap[0] in SPACES)
  }

  /** And before the end of the tag: no slash straight after an unquoted value. */
  predicate EndGap(v: Value, gap: string) {
    Filler(gap) && (v.Unquoted? && gap != [] ==> gap[0] in SPACES)
  }

  predicate GoodAttrs(v: Value, attrs: seq<Attr>, gap: string)
    decreases |attrs|
  {
    if attrs == [] then EndGap(v, gap)
    else GapAfter(v, attrs[0].gap) && GoodAttr(attrs[0]) && GoodAttrs(attrs[0].value, attrs[1..], gap)
  }

  predicate GoodName(name: string) { name != [] && forall c :: c in name ==> Alphanumeric(c) }

  /** Written behind an element's name without being part of it. */
  predicate GoodSuffix(suffix: string) { suffix != [] ==> AttrName(suffix) && !Alphanumeric(suffix[0]) }

  /** A `<` that does not start markup: nothing it could open follows. */
  predicate Opens(c: char) { Alphanumeric(c) || c == '/' || c == '!' || c == '?' }

  predicate GoodText(text: string) {
    forall i :: 0 <= i < |text| && text[i] == '<' ==> i + 1 < |text| && !Opens(text[i + 1])
  }

  predicate Good(t: Token) {
    match t
    case Text(text) => GoodText(text)
    case Comment(text) => IndexOf(text + "-->", "-->") == Some(|text|)
    case Closing(mark, text) => mark in {'/', '!', '?'} && '>' !in text && !("--" <= text)
    case Raw(name, inner, closing) =>
      && GoodName(name) && RawText(name) && Lower(closing) == Lower(name) && GoodName(closing)
      && (inner != [] ==> !Alphanumeric(inner[0]))
      && IndexIgnoringCase(inner + "</" + closing, "</" + Lower(name)) == Some(|inner|)
    case Element(name, suffix, attrs, gap) =>
      GoodName(name) && !RawText(name) && GoodSuffix(suffix) && GoodAttrs(Bare, attrs, gap)
  }

  // ---- the links a page has by its tokens ----

  function FirstHref(attrs: seq<Attr>): Option<string> {
    if attrs == [] then None
    else if Lower(attrs[0].name) == "href" && !attrs[0].value.Bare? then Some(attrs[0].value.text)
    else FirstHref(attrs[1..])
  }

  predicate Anchor(t: Token) { t.Element? && Lower(t.name) == "a" && t.suffix == [] }

  function HrefOf(t: Token): seq<string> {
    if Anchor(t) && FirstHref(t.attrs).Some? then Cleaned(FirstHref(t.attrs).value) else []
  }

  function Hrefs(ts: seq<Token>): seq<string> {
    if ts == [] then [] else HrefOf(ts[0]) + Hrefs(ts[1..])
  }

  // ---- inside a tag ----

  /** Something that ends an attribute. */
  predicate StartsGap(s: string) { s != [] && (s[0] in SPACES || s[0] == '/' || s[0] == '>') }

  lemma {:induction false} SkipBlank(gap: string, s: string)
    requires Blank(gap)
    ensures SkipSpaces(gap + s) == SkipSpaces(s)
  {
    if gap == [] {
      assert gap + s == s;
    } else {
      assert gap[0] in gap && (gap + s)[1..] == gap[1..] + s && forall c :: c in gap[1..] ==> c in gap;
      SkipBlank(gap[1..], s);
    }
  }

  lemma GapStep(gap: string, s: string)
    requires Filler(gap) && gap != []
    ensures NextPart(gap + s) == Attribute(None, gap[1..] + s) && Filler(gap[1..])
  {
    var t := gap + s;
    assert gap[0] in gap && t[0] == gap[0] && t[1..] == gap[1..] + s && forall c :: c in gap[1..] ==> c in gap;
    hide AttributeAt;
  }

  lemma {:induction false} TagSkips(gap: string, s: string, href: Option<string>, capture: bool)
    requires Filler(gap)
    ensures TagRest(gap + s, href, capture) == TagRest(s, href, capture)
  {
    if gap == [] {
      assert gap + s == s;
    } else {
      GapStep(gap, s);
      hide NextPart, Filler;
      TagSkips(gap[1..], s, href, capture);
    }
  }

  lemma QuotedSlices(quote: char, t: string, more: string)
    ensures var text := [quote] + (t + [quote]) + more;
      && text != [] && text[0] == quote && text[1..] == t + ([quote] + more)
      && text[1..1 + |t|] == t && text[1 + |t| + 1..] == more && |text| == |t| + 2 + |more|
  {}

  lemma ReadQuoted(quote: char, t: string, more: string)
    requires (quote == '"' || quote == '\'') && quote !in t
    ensures ValueAt([quote] + (t + [quote]) + more) == (t, more)
  {
    CutAt(t, [quote] + more, {quote});
    QuotedSlices(quote, t, more);
    hide FindAny;
  }

  lemma ReadUnquoted(t: string, more: string)
    requires GoodValue(Unquoted(t)) && more != [] && (more[0] in SPACES || more[0] == '>')
    ensures ValueAt(t + more) == (t, more)
  {
    assert t[0] in t;
    CutAt(t, more, VALUE_STOPS);
    hide FindAny;
  }

  /** What must follow a value for it to end where it should. */
  predicate Ends(v: Value, more: string) {
    v.Unquoted? ==> more != [] && (more[0] in SPACES || more[0] == '>')
  }

  lemma ReadValue(v: Value, more: string)
    requires GoodValue(v) && !v.Bare? && Ends(v, more)
    ensures var text := Written(v) + more;
      text != [] && text[0] !in SPACES && ValueAt(text) == (v.text, more)
  {
    match v
    case DoubleQuoted(t) =>
      ReadQuoted('"', t, more);
      hide ValueAt;
    case SingleQuoted(t) =>
      ReadQuoted('\'', t, more);
      hide ValueAt;
    case Unquoted(t) =>
      assert t[0] in t;
      ReadUnquoted(t, more);
      hide ValueAt;
  }

  lemma NameCut(name: string, tail: string)
    requires AttrName(name) && tail != [] && tail[0] in NAME_STOPS
    ensures var s := name + tail;
      && NextPart(s) == AttributeAt(s) && FindAny(s, NAME_STOPS) == |name|
      && s[..|name|] == name && s[|name|..] == tail
  {
    var s := name + tail;
    assert name[0] in name && s[0] == name[0];
    CutAt(name, tail, NAME_STOPS);
    hide FindAny, AttributeAt;
  }

  /** An attribute without a value, from its name. */
  lemma ReadBare(name: string, more: string)
    requires AttrName(name) && StartsGap(more)
    requires SkipSpaces(more) == [] || SkipSpaces(more)[0] != '='
    ensures NextPart(name + more) == Attribute(None, more)
  {
    NameCut(name, more);
    hide FindAny, SkipSpaces, NextPart, AttributeAt;
    WithoutValue(name + more, |name|, SkipSpaces(more));
  }

  lemma NoBlanks(s: string)
    requires s == [] || s[0] !in SPACES
    ensures SkipSpaces(s) == s
  {}

  /** Blanks on either side of the equals sign are skipped. */
  lemma EqualsSkipped(a: Attr, text: string)
    requires Blank(a.before) && Blank(a.after) && text != [] && text[0] !in SPACES
    ensures var probe := ['='] + (a.after + text);
      && SkipSpaces(a.before + probe) == probe && probe[0] == '=' && SkipSpaces(probe[1..]) == text
      && (a.before + probe)[0] in NAME_STOPS
  {
    var probe := ['='] + (a.after + text);
    SkipBlank(a.before, probe);
    SkipBlank(a.after, text);
    assert probe[1..] == a.after + text;
    assert a.before != [] ==> a.before[0] in a.before;
    NoBlanks(probe);
    NoBlanks(text);
    hide SkipSpaces;
  }

  /** An attribute with a value, from its name. */
  lemma ReadValued(a: Attr, more: string)
    requires GoodAttr(a) && !a.value.Bare? && Ends(a.value, more)
    ensures NextPart(a.name + PrintValue(a, more))
         == Attribute(if Lower(a.name) == "href" then Some(a.value.text) else None, more)
  {
    var text := Written(a.value) + more;
    var probe := ['='] + (a.after + text);
    ReadValue(a.value, more);
    EqualsSkipped(a, text);
    var value := PrintValue(a, more);
    assert value == a.before + probe;
    hide FindAny, SkipSpaces, ValueAt, Lower, PrintValue, Written, NextPart, AttributeAt, GoodValue, Blank;
    NameCut(a.name, value);
    WithValue(a.name + value, |a.name|, probe, text);
  }

  lemma {:induction false} FillerNoEquals(gap: string, s: string)
    requires Filler(gap) && s != [] && s[0] !in SPACES && s[0] != '='
    ensures SkipSpaces(gap + s) != [] && SkipSpaces(gap + s)[0] != '='
  {
    if gap == [] {
      assert gap + s == s;
    } else {
      assert gap[0] in gap && (gap + s)[0] == gap[0] && (gap + s)[1..] == gap[1..] + s;
      assert forall c :: c in gap[1..] ==> c in gap;
      FillerNoEquals(gap[1..], s);
    }
  }

  /** What follows an attribute ends it, and does not look like a value. */
  lemma AfterAttr(v: Value, attrs: seq<Attr>, gap: string, rest: string)
    requires GoodAttrs(v, attrs, gap)
    ensures var more := PrintAttrs(attrs, gap + (">" + rest));
      && Ends(v, more) && (v.Bare? ==> StartsGap(more) && SkipSpaces(more) != [] && SkipSpaces(more)[0] != '=')
  {
    if attrs == [] {
      assert gap != [] ==> gap[0] in gap;
      FillerNoEquals(gap, ">" + rest);
    } else {
      var a := attrs[0];
      assert (a.gap != [] ==> a.gap[0] in a.gap) && a.name[0] in a.name;
      var tail := a.name + PrintValue(a, PrintAttrs(attrs[1..], gap + (">" + rest)));
      assert tail[0] == a.name[0];
      FillerNoEquals(a.gap, tail);
      hide SkipSpaces, PrintValue;
    }
  }

  lemma ReadAttr(a: Attr, more: string)
    requires GoodAttr(a) && Ends(a.value, more)
    requires a.value.Bare? ==> StartsGap(more) && SkipSpaces(more) != [] && SkipSpaces(more)[0] != '='
    ensures NextPart(a.name + PrintValue(a, more))
         == Attribute(if Lower(a.name) == "href" && !a.value.Bare? then Some(a.value.text) else None, more)
  {
    hide NextPart, SkipSpaces, Blank, GoodValue, Lower;
    if a.value.Bare? {
      ReadBare(a.name, more);
    } else {
      ReadValued(a, more);
    }
  }

  /** One attribute consumed. */
  lemma NextAttr(a: Attr, more: string, href: Option<string>, capture: bool)
    requires Filler(a.gap) && a.name != []
    ensures var s := a.name + PrintValue(a, more);
      var part := NextPart(s);
      part.Attribute? ==>
        TagRest(a.gap + s, href, capture)
        == TagRest(part.rest, if capture && href.None? then part.href else href, capture)
  {
    var s := a.name + PrintValue(a, more);
    TagSkips(a.gap, s, href, capture);
    hide NextPart, PrintValue;
  }

  /** Scanning a printed tag gives its first href and what follows the tag. */
  lemma {:induction false} ReadAttrs(v: Value, attrs: seq<Attr>, gap: string, rest: string, href: Option<string>,
                                     capture: bool)
    requires GoodAttrs(v, attrs, gap)
    ensures TagRest(PrintAttrs(attrs, gap + (">" + rest)), href, capture)
         == (if capture && href.None? then FirstHref(attrs) else href, rest)
    decreases |attrs|
  {
    if attrs == [] {
      TagSkips(gap, ">" + rest, href, capture);
      assert (">" + rest)[1..] == rest;
    } else {
      var a, others := attrs[0], attrs[1..];
      var more := PrintAttrs(others, gap + (">" + rest));
      AfterAttr(a.value, others, gap, rest);
      ReadAttr(a, more);
      NextAttr(a, more, href, capture);
      var given := if Lower(a.name) == "href" && !a.value.Bare? then Some(a.value.text) else None;
      hide NextPart, PrintValue, Lower, SkipSpaces, GoodAttr, TagRest;
      ReadAttrs(a.value, others, gap, rest, if capture && href.None? then given else href, capture);
    }
  }

  /** What is written behind an element's name reads like an attribute without a value. */
  lemma ReadSuffix(suffix: string, attrs: seq<Attr>, gap: string, rest: string, href: Option<string>, capture: bool)
    requires GoodSuffix(suffix) && GoodAttrs(Bare, attrs, gap)
    ensures TagRest(suffix + PrintAttrs(attrs, gap + (">" + rest)), href, capture)
         == (if capture && href.None? then FirstHref(attrs) else href, rest)
  {
    var tail := PrintAttrs(attrs, gap + (">" + rest));
    if suffix == [] {
      assert suffix + tail == tail;
      ReadAttrs(Bare, attrs, gap, rest, href, capture);
    } else {
      var a := Attr([], suffix, [], [], Bare);
      hide TagRest, Lower;
      assert ([a] + attrs)[1..] == attrs;
      assert PrintAttrs([a] + attrs, gap + (">" + rest)) == [] + (suffix + tail);
      assert [] + (suffix + tail) == suffix + tail;
      assert GoodAttrs(DoubleQuoted([]), [a] + attrs, gap);
      ReadAttrs(DoubleQuoted([]), [a] + attrs, gap, rest, href, capture);
    }
  }

  // ---- token by token ----

  lemma {:induction false} IndexKept(s: string, needle: string, more: string)
    requires IndexOf(s, needle).Some? && needle != []
    ensures IndexOf(s + more, needle) == IndexOf(s, needle)
  {
    var t := s + more;
    assert t[..|needle|] == s[..|needle|] && t[1..] == s[1..] + more;
    if !(needle <= s) {
      IndexKept(s[1..], needle, more);
    }
  }

  lemma {:induction false} CloseKept(s: string, needle: string, more: string)
    requires IndexIgnoringCase(s, needle).Some? && needle != []
    ensures IndexIgnoringCase(s + more, needle) == IndexIgnoringCase(s, needle)
  {
    hide Lower;
    var t := s + more;
    assert t[..|needle|] == s[..|needle|] && t[1..] == s[1..] + more;
    if Lower(s[..|needle|]) != needle {
      CloseKept(s[1..], needle, more);
    }
  }

  lemma {:induction false} NameCounts(name: string, after: string)
    requires GoodName(name) && (after != [] ==> !Alphanumeric(after[0]))
    ensures NameLength(name + after) == |name|
  {
    var s := name + after;
    assert name[0] in name && s[0] == name[0] && s[1..] == name[1..] + after;
    if |name| > 1 {
      assert forall c :: c in name[1..] ==> c in name;
      NameCounts(name[1..], after);
    } else {
      assert s[1..] == after;
    }
  }

  /** Markup at the front is taken at once. */
  lemma TakesMarkup(t: string)
    requires |t| >= 2 && t[0] == '<'
    ensures Links(t) == var step := MarkupStep(t); if step.1.None? then step.0 else step.0 + Links(step.1.value)
  {
    assert t[0..] == t;
    hide MarkupStep;
  }

  lemma NoBrackets(text: string, rest: string)
    requires '<' !in text
    ensures Links(text + rest) == Links(rest)
  {
    hide ScanStep, Links;
    var k := FindAny(rest, {'<'});
    var tail := rest[k..];
    CutAt(text + rest[..k], tail, {'<'});
    assert text + rest == (text + rest[..k]) + tail;
    hide FindAny;
    SameStep(text + rest, rest);
    SameLinks(text + rest, rest);
  }

  lemma SameLinks(s: string, t: string)
    requires ScanStep(s) == ScanStep(t)
    ensures Links(s) == Links(t)
  {
    hide ScanStep;
  }

  /** The scan depends on what starts at the first `<`. */
  lemma SameStep(s: string, t: string)
    requires s[FindAny(s, {'<'})..] == t[FindAny(t, {'<'})..]
    ensures ScanStep(s) == ScanStep(t)
  {
    hide FindAny, MarkupStep;
  }

  /** A `<` with nothing to open behind it is text. */
  lemma BracketSkipped(s: string)
    requires |s| >= 2 && s[0] == '<' && !Opens(s[1])
    ensures Links(s) == Links(s[1..])
  {
    assert !("<!--" <= s) && NameLength(s[1..]) == 0;
    hide FindAny, IndexOf, ElementStep, Links;
    SteppedOver(s, s[1..]);
  }

  lemma GoodTail(text: string, k: nat)
    requires GoodText(text) && k <= |text|
    ensures GoodText(text[k..])
  {
    var s := text[k..];
    forall i | 0 <= i < |s| && s[i] == '<' ensures i + 1 < |s| && !Opens(s[i + 1]) {
      assert text[k + i] == '<';
    }
  }

  lemma {:induction false} TextSkipped(text: string, rest: string)
    requires GoodText(text)
    ensures Links(text + rest) == Links(rest)
    decreases |text|
  {
    hide Links;
    if '<' !in text {
      NoBrackets(text, rest);
    } else {
      var k := FirstBracket(text);
      var s := text[k..] + rest;
      assert text + rest == text[..k] + s;
      NoBrackets(text[..k], s);
      assert text[k] == '<' && s[0] == text[k] && s[1] == text[k + 1] && s[1..] == text[k + 1..] + rest;
      BracketSkipped(s);
      GoodTail(text, k + 1);
      TextSkipped(text[k + 1..], rest);
    }
  }

  lemma FirstBracket(text: string) returns (k: nat)
    requires '<' in text
    ensures k < |text| && text[k] == '<' && '<' !in text[..k]
  {
    k := FindAny(text, {'<'});
    assert forall j :: 0 <= j < k ==> text[..k][j] != '<';
  }

  lemma CommentSkipped(text: string, rest: string)
    requires Good(Comment(text))
    ensures Links(Print(Comment(text), rest)) == Links(rest)
  {
    var t := Print(Comment(text), rest);
    IndexKept(text + "-->", "-->", rest);
    assert t[4..] == text + "-->" + rest;
    assert t[4 + |text| + 3..] == rest;
    assert "<!--" <= t;
    hide IndexOf, Links;
    TakesMarkup(t);
    assert [] + Links(rest) == Links(rest);
  }

  lemma NotAComment(mark: char, text: string, rest: string)
    requires !("--" <= text)
    ensures !("<!--" <= Print(Closing(mark, text), rest))
  {
    var t := Print(Closing(mark, text), rest);
    assert |text| >= 2 ==> t[2] == text[0] && t[3] == text[1] && (text[0] != '-' || text[1] != '-');
    assert |text| == 1 ==> t[3] == '>';
    assert |text| == 0 ==> t[2] == '>';
  }

  lemma ClosingSlices(mark: char, text: string, rest: string)
    ensures var t, body := Print(Closing(mark, text), rest), [mark] + text;
      && |t| >= 2 && t[0] == '<' && t[1] == mark && t[1..] == body + (">" + rest)
      && t[1 + |body| + 1..] == rest && |t| > 1 + |body|
  {}

  lemma ClosingStep(mark: char, text: string, rest: string)
    requires Good(Closing(mark, text))
    ensures MarkupStep(Print(Closing(mark, text), rest)) == ([], Some(rest))
  {
    ClosingSlices(mark, text, rest);
    NotAComment(mark, text, rest);
    hide FindAny, IndexOf, NameLength, ElementStep, Print;
    CutAt([mark] + text, ">" + rest, {'>'});
  }

  /** Markup that yields nothing is stepped over. */
  lemma SteppedOver(t: string, rest: string)
    requires |t| >= 2 && t[0] == '<' && MarkupStep(t) == ([], Some(rest))
    ensures Links(t) == Links(rest)
  {
    hide MarkupStep, Links;
    TakesMarkup(t);
    assert [] + Links(rest) == Links(rest);
  }

  lemma ClosingSkipped(mark: char, text: string, rest: string)
    requires Good(Closing(mark, text))
    ensures Links(Print(Closing(mark, text), rest)) == Links(rest)
  {
    ClosingStep(mark, text, rest);
    hide MarkupStep, Links, Good;
    SteppedOver(Print(Closing(mark, text), rest), rest);
  }

  lemma NameSlices(name: string, after: string)
    requires name != []
    ensures var t := "<" + (name + after);
      && |t| >= 2 && t[0] == '<' && t[1] == name[0] && t[1..] == name + after
      && t[1..1 + |name|] == name && t[1 + |name|..] == after
  {}

  /** The element branch is taken for a printed name. */
  lemma ElementTaken(name: string, after: string)
    requires GoodName(name) && (after != [] ==> !Alphanumeric(after[0]))
    ensures MarkupStep("<" + (name + after)) == ElementStep(name, after)
  {
    NameSlices(name, after);
    NameCounts(name, after);
    assert name[0] in name;
    var t := "<" + (name + after);
    assert !("<!--" <= t);
    hide ElementStep, NameLength, FindAny, IndexOf, GoodName;
  }

  lemma RawSlices(inner: string, closing: string, rest: string)
    ensures var after, tail := inner + "</" + closing + (">" + rest), Print(Closing('/', closing), rest);
      after == inner + tail && after[|inner|..] == tail && after[0] == if inner == [] then '<' else inner[0]
  {
    var after, tail := inner + "</" + closing + (">" + rest), Print(Closing('/', closing), rest);
    assert after == inner + tail;
  }

  lemma RawElementStep(name: string, inner: string, closing: string, rest: string)
    requires Good(Raw(name, inner, closing))
    ensures ElementStep(name, inner + "</" + closing + (">" + rest)) == ([], Some(Print(Closing('/', closing), rest)))
  {
    CloseKept(inner + "</" + closing, "</" + Lower(name), ">" + rest);
    RawSlices(inner, closing, rest);
    hide IndexIgnoringCase, Lower, TagRest, Print;
  }

  lemma RawStep(name: string, inner: string, closing: string, rest: string)
    requires Good(Raw(name, inner, closing))
    ensures MarkupStep(Print(Raw(name, inner, closing), rest)) == ([], Some(Print(Closing('/', closing), rest)))
  {
    RawElementStep(name, inner, closing, rest);
    RawSlices(inner, closing, rest);
    hide IndexIgnoringCase, MarkupStep, ElementStep, Lower;
    ElementTaken(name, inner + "</" + closing + (">" + rest));
  }

  lemma RawSkipped(name: string, inner: string, closing: string, rest: string)
    requires Good(Raw(name, inner, closing))
    ensures Links(Print(Raw(name, inner, closing), rest)) == Links(rest)
  {
    RawStep(name, inner, closing, rest);
    GoodCloses(closing);
    ClosingSkipped('/', closing, rest);
    var t := Print(Raw(name, inner, closing), rest);
    assert |t| >= 2 && t[0] == '<';
    hide MarkupStep, Links, Good, Print;
    SteppedOver(t, Print(Closing('/', closing), rest));
  }

  lemma GoodCloses(closing: string)
    requires GoodName(closing)
    ensures '>' !in closing && !("--" <= closing)
  {
    assert closing[0] in closing;
  }

  /** What follows an element's name ends it unless there is a suffix. */
  lemma AfterName(suffix: string, attrs: seq<Attr>, gap: string, rest: string)
    requires GoodSuffix(suffix) && GoodAttrs(Bare, attrs, gap)
    ensures var after := suffix + PrintAttrs(attrs, gap + (">" + rest));
      after != [] && !Alphanumeric(after[0]) && (EndsName(after) <==> suffix == [])
  {
    AfterAttr(Bare, attrs, gap, rest);
    hide PrintAttrs, SkipSpaces, GoodAttrs;
    var after := suffix + PrintAttrs(attrs, gap + (">" + rest));
    if suffix != [] {
      assert after[0] == suffix[0] && suffix[0] in suffix;
    }
  }

  lemma ElementRead(name: string, suffix: string, attrs: seq<Attr>, gap: string, rest: string)
    requires Good(Element(name, suffix, attrs, gap))
    ensures Links(Print(Element(name, suffix, attrs, gap), rest))
         == HrefOf(Element(name, suffix, attrs, gap)) + Links(rest)
  {
    var after := suffix + PrintAttrs(attrs, gap + (">" + rest));
    AfterName(suffix, attrs, gap, rest);
    ElementTaken(name, after);
    ReadSuffix(suffix, attrs, gap, rest, None, true);
    ReadSuffix(suffix, attrs, gap, rest, None, false);
    hide Links, TagRest, Cleaned, FirstHref, Lower, MarkupStep, PrintAttrs, SkipSpaces, GoodAttrs;
    TakesMarkup("<" + (name + after));
  }

  /** One token: its own link, then the links of the rest. */
  lemma TokenRead(t: Token, rest: string)
    requires Good(t)
    ensures Links(Print(t, rest)) == HrefOf(t) + Links(rest)
  {
    assert [] + Links(rest) == Links(rest);
    match t
    case Text(text) => TextSkipped(text, rest);
    case Comment(text) => CommentSkipped(text, rest);
    case Closing(mark, text) => ClosingSkipped(mark, text, rest);
    case Raw(name, inner, closing) => RawSkipped(name, inner, closing, rest);
    case Element(name, suffix, attrs, gap) => ElementRead(name, suffix, attrs, gap, rest);
  }

  /** For every page printed from well-formed tokens the scan returns exactly the first href of
      each anchor, cleaned, in document order: nothing from text, comments, raw text, closing tags
      or other elements. */
  lemma {:induction false} PrintedPageLinks(ts: seq<Token>)
    requires forall t :: t in ts ==> Good(t)
    ensures Links(PrintAll(ts)) == Hrefs(ts)
  {
    if ts != [] {
      assert ts[0] in ts && forall t :: t in ts[1..] ==> t in ts;
      PrintedPageLinks(ts[1..]);
      TokenRead(ts[0], PrintAll(ts[1..]));
      hide Print, HrefOf, Links;
    }
  }

  // ---- entities ----

  predicate Special(c: char) { c in {'&', '<', '>', '"', '\''} }

  function EntityName(c: char): string
    requires Special(c)
  {
    if c == '&' then "amp" else if c == '<' then "lt" else if c == '>' then "gt" else if c == '"' then "quot" else "#39"
  }

  /** A char, written as an entity where it would be read as markup. */
  function EscapedChar(c: char): string {
    if Special(c) then "&" + (EntityName(c) + ";") else [c]
  }

  function Escaped(s: string): string {
    if s == [] then [] else EscapedChar(s[0]) + Escaped(s[1..])
  }

  lemma NameDecodes(c: char)
    requires Special(c)
    ensures ';' !in EntityName(c) && DecodeEntity(EntityName(c)) == Some(c)
  {}

  lemma DecodeEscapedChar(c: char, rest: string)
    ensures DecodeStep(EscapedChar(c) + rest) == (c, rest)
  {
    if Special(c) {
      DecodeNamed(c, rest);
    } else {
      assert ([c] + rest)[1..] == rest;
      hide DecodeEntity, FindAny;
    }
  }

  lemma DecodeNamed(c: char, rest: string)
    requires Special(c)
    ensures DecodeStep("&" + (EntityName(c) + ";") + rest) == (c, rest)
  {
    hide DecodeEntity, EntityName, FindAny;
    var name := EntityName(c);
    var s := "&" + (name + ";") + rest;
    NameDecodes(c);
    CutAt(name, ";" + rest, {';'});
    assert s[1..] == name + (";" + rest);
    assert s[1..1 + |name|] == name && s[1 + |name| + 1..] == rest;
  }

  /** Decoding undoes escaping, for every text. */
  lemma {:induction false} DecodeUndoesEscape(s: string)
    ensures Decoded(Escaped(s)) == s
  {
    if s != [] {
      DecodeUndoesEscape(s[1..]);
      DecodeEscapedChar(s[0], Escaped(s[1..]));
      hide DecodeStep, EscapedChar;
      assert s == [s[0]] + s[1..];
    }
  }

  // ---- targets in, targets out ----

  /** A link target as `push_href` would leave it: not blank, and without blanks around it. */
  predicate CleanTarget(s: string) { s != [] && s[0] !in BLANKS && s[|s| - 1] !in BLANKS }

  lemma TrimKeeps(s: string)
    requires CleanTarget(s)
    ensures Trim(s) == s
  {}

  lemma {:induction false} EscapedEnds(s: string)
    requires s != []
    ensures var e := Escaped(s);
      && e != [] && e[0] == EscapedChar(s[0])[0]
      && e[|e| - 1] == (if Special(s[|s| - 1]) then ';' else s[|s| - 1])
    decreases |s|
  {
    if |s| > 1 {
      EscapedEnds(s[1..]);
    } else {
      assert Escaped(s[1..]) == [];
    }
  }

  lemma {:induction false} EscapedPlain(s: string)
    ensures '&' !in Escaped(s) ==> Escaped(s) == s
    ensures '"' !in Escaped(s)
  {
    if s != [] {
      hide EscapedChar;
      EscapedPlain(s[1..]);
      EscapedCharPlain(s[0]);
      assert s == [s[0]] + s[1..];
    }
  }

  lemma EscapedCharPlain(c: char)
    ensures '&' !in EscapedChar(c) ==> EscapedChar(c) == [c]
    ensures '"' !in EscapedChar(c)
  {
    if Special(c) {
      assert EscapedChar(c)[0] == '&';
    }
  }

  lemma EscapedIsClean(s: string)
    requires CleanTarget(s)
    ensures CleanTarget(Escaped(s)) && Trim(Escaped(s)) == Escaped(s)
  {
    EscapedEnds(s);
    hide Escaped;
    TrimKeeps(Escaped(s));
  }

  /** A target that is escaped into an attribute comes out of it as it was. */
  lemma CleanedUndoesEscape(s: string)
    requires CleanTarget(s)
    ensures Cleaned(Escaped(s)) == [s] && GoodValue(DoubleQuoted(Escaped(s)))
  {
    EscapedIsClean(s);
    EscapedPlain(s);
    DecodeUndoesEscape(s);
    TrimKeeps(s);
    assert s != [] && Escaped(s) != [];
    hide Escaped, Decoded, Trim, CleanTarget;
  }

  /** The token is an anchor for exactly this target, or, for `None`, no anchor with an href. */
  predicate LinksTo(t: Token, target: Option<string>) {
    if Anchor(t) && FirstHref(t.attrs).Some?
    then target.Some? && CleanTarget(target.value) && FirstHref(t.attrs).value == Escaped(target.value)
    else target.None?
  }

  function Somes(targets: seq<Option<string>>): seq<string> {
    if targets == [] then []
    else (if targets[0].Some? then [targets[0].value] else []) + Somes(targets[1..])
  }

  /** Targets escaped into the anchors of a page are exactly what the scan returns, in order. */
  lemma {:induction false} PrintedPageTargets(ts: seq<Token>, targets: seq<Option<string>>)
    requires |targets| == |ts| && forall i :: 0 <= i < |ts| ==> Good(ts[i]) && LinksTo(ts[i], targets[i])
    ensures Links(PrintAll(ts)) == Somes(targets)
  {
    hide Good, Links, PrintAll;
    assert forall t :: t in ts ==> Good(t);
    PrintedPageLinks(ts);
    TargetsAreHrefs(ts, targets);
  }

  lemma {:induction false} TargetsAreHrefs(ts: seq<Token>, targets: seq<Option<string>>)
    requires |targets| == |ts| && forall i :: 0 <= i < |ts| ==> LinksTo(ts[i], targets[i])
    ensures Hrefs(ts) == Somes(targets)
  {
    if ts != [] {
      assert LinksTo(ts[0], targets[0]);
      assert forall i :: 0 <= i < |ts[1..]| ==> ts[1..][i] == ts[i + 1] && targets[1..][i] == targets[i + 1];
      if targets[0].Some? {
        CleanedUndoesEscape(targets[0].value);
      }
      hide Cleaned, Escaped, FirstHref, CleanTarget, Anchor;
      TargetsAreHrefs(ts[1..], targets[1..]);
    }
  }
}
