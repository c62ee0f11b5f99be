/**
  The scanning half of the HTML and XML reader: what each round of its loop takes from the input, and that the
  rounds together take every character exactly once.

  A string is a sequence of UTF-16 code units. Library calls whose result is not of interest here are a
  parameter: `decode` replaces character references, `attributes` reads an attribute list, `lower` is
  `toLowerCase`, which may change a string's length. `head` reads the inside of a start tag: most of what is
  proved holds however that is done, and in a `Standard` library it is `ReadHead`.
*/
module ArticleTokens {
  import opened Common

  datatype Library = Library(
    decode: string -> string,
    attributes: string -> map<string, string>,
    lower: string -> string,
    head: string -> Option<Head>)

  // ---------- Strings ----------

  predicate At(s: string, needle: string, i: nat) {
    i + |needle| <= |s| && Same(s, needle, i)
  }

  predicate Same(s: string, needle: string, i: nat)
    requires i + |needle| <= |s|
    decreases |needle|
  {
    needle == "" || (s[i] == needle[0] && Same(s, needle[1..], i + 1))
  }

  lemma {:induction false} SameIsSlice(s: string, needle: string, i: nat)
    requires i + |needle| <= |s|
    ensures Same(s, needle, i) <==> s[i..i + |needle|] == needle
    decreases |needle|
  {
    if needle != "" {
      SameIsSlice(s, needle[1..], i + 1);
      assert s[i..i + |needle|] == [s[i]] + s[i + 1..i + |needle|];
      assert needle == [needle[0]] + needle[1..];
    }
  }

  /** The first match at or after `start`, if any. */
  function IndexOf(s: string, needle: string, start: nat): (r: Option<nat>)
    ensures r.Some? ==> start <= r.value && At(s, needle, r.value)
    decreases |s| - start
  {
    if start + |needle| > |s| then None
    else if At(s, needle, start) then Some(start)
    else IndexOf(s, needle, start + 1)
  }

  /** Nothing before the match found, or nothing at all, matches. */
  lemma {:induction false} IndexOfFirst(s: string, needle: string, start: nat)
    ensures forall i: nat :: start <= i && At(s, needle, i) ==>
              IndexOf(s, needle, start).Some? && IndexOf(s, needle, start).value <= i
    decreases |s| - start
  {
    if start + |needle| <= |s| && !At(s, needle, start) {
      IndexOfFirst(s, needle, start + 1);
    }
  }

  function Slice(s: string, a: nat, b: nat): string {
    var start := Min(a, |s|);
    var end := Min(b, |s|);
    if start <= end then s[start..end] else ""
  }

  /** White space and line terminators, as `trim` and the pattern class of the same meaning have them. */
  predicate Space(c: char) {
    var code := c as int;
    || 0x09 <= code <= 0x0D || code == 0x20 || code == 0xA0 || code == 0x1680 || 0x2000 <= code <= 0x200A
    || code == 0x2028 || code == 0x2029 || code == 0x202F || code == 0x205F || code == 0x3000 || code == 0xFEFF
  }

  function TrimStart(s: string): string {
    if s != "" && Space(s[0]) then TrimStart(s[1..]) else s
  }

  function TrimEnd(s: string): string {
    if s != "" && Space(s[|s| - 1]) then TrimEnd(s[..|s| - 1]) else s
  }

  function Trim(s: string): string {
    TrimEnd(TrimStart(s))
  }

  /** How many characters from the start satisfy `p`. */
  function Span(s: string, p: char -> bool): (n: nat)
    ensures n <= |s|
  {
    if s != "" && p(s[0]) then 1 + Span(s[1..], p) else 0
  }

  predicate NameChar(c: char) {
    'a' <= c <= 'z' || 'A' <= c <= 'Z' || '0' <= c <= '9' || c == '_' || c == '-' || c == ':'
  }

  function AsciiLower(s: string): (r: string)
    ensures |r| == |s|
  {
    seq(|s|, i requires 0 <= i < |s| => if 'A' <= s[i] <= 'Z' then s[i] + 32 as char else s[i])
  }

  // ---------- Tags ----------

  datatype Head = Head(tag: string, attrs: map<string, string>, selfClosing: bool)

  /** The inside of a start tag; `None` is one without a tag name, which is skipped. */
  function ReadHead(attributes: string -> map<string, string>, content: string): Option<Head> {
    var trimmed := Trim(content);
    var selfClosing := trimmed != "" && trimmed[|trimmed| - 1] in {'/', '?'};
    var clean := if selfClosing then Trim(trimmed[..|trimmed| - 1]) else trimmed;
    var n := Span(clean, NameChar);
    if n == 0 then None
    else Some(Head(AsciiLower(clean[..n]), attributes(clean[n..]), selfClosing))
  }

  ghost predicate Standard(lib: Library) {
    forall content {:trigger ReadHead(lib.attributes, content)} ::
      lib.head(content) == ReadHead(lib.attributes, content)
  }

  /** The name an end tag closes. */
  function CloseName(lib: Library, content: string): string {
    var name := lib.lower(Trim(content));
    name[..Span(name, c => !Space(c))]
  }

  /**
    The names the table of void elements answers for. The table is a plain object, so it answers for the two
    lower-case names every object has as well.
  */
  const VOID := {"area", "base", "br", "col", "embed", "hr", "img", "input", "link", "meta", "param", "source",
                 "track", "wbr", "constructor", "__proto__"}
  const RAW := {"script", "style"}

  /** The element has no content and is never open. */
  predicate Leaf(h: Head) {
    h.selfClosing || h.tag in VOID
  }

  // ---------- Tokens ----------

  datatype Token =
    | Text(text: string)
    | CData(text: string, ended: bool)
    | Comment(text: string, ended: bool)
    | Declaration(text: string)
    | EndTag(text: string, ended: bool)
    | StartTag(text: string, ended: bool)
    | RawElement(text: string, raw: string, closing: string)   // a start tag, its raw text, and what closed it

  /** The input a token was read from. */
  function Source(k: Token): string {
    match k
    case Text(text) => text
    case CData(text, ended) => "<![CDATA[" + text + if ended then "]]>" else ""
    case Comment(text, ended) => "<!--" + text + if ended then "-->" else ""
    case Declaration(text) => text
    case EndTag(text, ended) => "</" + text + if ended then ">" else ""
    case StartTag(text, ended) => "<" + text + if ended then ">" else ""
    case RawElement(text, raw, closing) => "<" + text + ">" + raw + closing
  }

  /** From after an opening mark to its end mark: what lies between, whether the end mark is there, what follows. */
  function Enclosed(input: string, start: nat, end: string): (r: (string, bool, nat))
    requires start <= |input|
    ensures start <= r.2 <= |input|
  {
    match IndexOf(input, end, start)
    case None => (input[start..], false, |input|)
    case Some(e) => (input[start..e], true, e + |end|)
  }

  /** A raw text element runs to its end tag, sought in the lower-cased input; positions past the end are clamped. */
  function NextRaw(lib: Library, input: string, content: string, tag: string, start: nat): (r: (Token, nat))
    requires start <= |input|
    ensures r.1 >= start
  {
    var close := "</" + tag + ">";
    match IndexOf(lib.lower(input), close, start)
    case None => (RawElement(content, input[start..], ""), |input|)
    case Some(e) => (RawElement(content, Slice(input, start, e), Slice(input, e, e + |close|)), e + |close|)
  }

  /** The token of a complete start tag with that inside, and where it ends; one without a name is just its source. */
  function StartToken(lib: Library, input: string, content: string, start: nat): (r: (Token, nat))
    requires start <= |input|
    ensures r.1 >= start
  {
    var head := lib.head(content);
    if head.None? || Leaf(head.value) || head.value.tag !in RAW then (StartTag(content, true), start)
    else NextRaw(lib, input, content, head.value.tag, start)
  }

  function NextStartTag(lib: Library, input: string, pos: nat): (r: (Token, nat))
    requires pos < |input| && input[pos] == '<'
    ensures r.1 > pos
  {
    var (content, ended, next) := Enclosed(input, pos + 1, ">");
    if ended then StartToken(lib, input, content, next) else (StartTag(content, false), next)
  }

  function NextMarkup(lib: Library, input: string, pos: nat): (r: (Token, nat))
    requires pos < |input| && input[pos] == '<'
    ensures r.1 > pos
  {
    if At(input, "<![CDATA[", pos) then
      var (text, ended, next) := Enclosed(input, pos + 9, "]]>"); (CData(text, ended), next)
    else if At(input, "<!--", pos) then
      var (text, ended, next) := Enclosed(input, pos + 4, "-->"); (Comment(text, ended), next)
    else if At(input, "<!", pos) || At(input, "<?", pos) then
      match IndexOf(input, ">", pos)
      case None => (Declaration(input[pos..]), |input|)
      case Some(e) => (Declaration(input[pos..e + 1]), e + 1)
    else if At(input, "</", pos) then
      var (text, ended, next) := Enclosed(input, pos + 2, ">"); (EndTag(text, ended), next)
    else NextStartTag(lib, input, pos)
  }

  /** Where the text at `pos` ends. */
  function TextEnd(input: string, pos: nat): (r: nat)
    requires pos < |input| && input[pos] != '<'
    ensures r > pos
  {
    match IndexOf(input, "<", pos)
    case None => |input|
    case Some(e) => e
  }

  function Next(lib: Library, input: string, pos: nat): (r: (Token, nat))
    requires pos < |input|
    ensures r.1 > pos
  {
    if input[pos] == '<' then NextMarkup(lib, input, pos)
    else (Text(input[pos..TextEnd(input, pos)]), TextEnd(input, pos))
  }

  function Lex(lib: Library, input: string, pos: nat): seq<Token>
    decreases |input| - pos
  {
    if pos >= |input| then [] else
    var (token, next) := Next(lib, input, pos);
    [token] + Lex(lib, input, next)
  }

  // ---------- Nothing is lost ----------

  lemma ThreeParts(s: string, a: nat, b: nat, c: nat, d: nat)
    requires a <= b <= c <= d <= |s|
    ensures s[a..d] == s[a..b] + s[b..c] + s[c..d]
  {}

  lemma ClosedSource(input: string, open: string, pos: nat, e: nat, end: string)
    requires At(input, open, pos) && pos + |open| <= e && At(input, end, e)
    ensures e + |end| <= |input| && input[pos..e + |end|] == open + input[pos + |open|..e] + end
  {
    SameIsSlice(input, open, pos);
    SameIsSlice(input, end, e);
    ThreeParts(input, pos, pos + |open|, e, e + |end|);
  }

  lemma OpenSource(input: string, open: string, pos: nat)
    requires At(input, open, pos)
    ensures input[pos..] == open + input[pos + |open|..]
  {
    SameIsSlice(input, open, pos);
    ThreeParts(input, pos, pos + |open|, |input|, |input|);
  }

  lemma EnclosedSource(input: string, open: string, pos: nat, end: string)
    requires At(input, open, pos)
    ensures var r := Enclosed(input, pos + |open|, end);
            r.2 <= |input| && input[pos..r.2] == open + r.0 + if r.1 then end else ""
  {
    match IndexOf(input, end, pos + |open|)
    case None => OpenSource(input, open, pos);
    case Some(e) => ClosedSource(input, open, pos, e, end);
  }

  lemma SlicesJoin(s: string, a: nat, b: nat, c: nat)
    requires a <= |s| && a <= b <= c
    ensures Slice(s, a, b) + Slice(s, b, c) == s[a..Min(c, |s|)]
  {}

  lemma SourceOfRaw(content: string, raw: string, closing: string)
    ensures Source(RawElement(content, raw, closing)) == "<" + content + ">" + (raw + closing)
  {}

  lemma RawSource(lib: Library, input: string, content: string, tag: string, pos: nat, start: nat)
    requires pos <= start <= |input| && input[pos..start] == "<" + content + ">"
    ensures var r := NextRaw(lib, input, content, tag, start); Source(r.0) == input[pos..Min(r.1, |input|)]
  {
    var r := NextRaw(lib, input, content, tag, start);
    var end := Min(r.1, |input|);
    assert r.0.raw + r.0.closing == input[start..end] by {
      match IndexOf(lib.lower(input), "</" + tag + ">", start)
      case None =>
      case Some(e) => SlicesJoin(input, start, e, r.1);
    }
    SourceOfRaw(content, r.0.raw, r.0.closing);
    ThreeParts(input, pos, start, end, end);
  }

  lemma StartTokenSource(lib: Library, input: string, content: string, pos: nat, start: nat)
    requires pos <= start <= |input| && input[pos..start] == "<" + content + ">"
    ensures var r := StartToken(lib, input, content, start); Source(r.0) == input[pos..Min(r.1, |input|)]
  {
    var head := lib.head(content);
    if head.Some? { RawSource(lib, input, content, head.value.tag, pos, start); }
  }

  lemma StartTagSource(lib: Library, input: string, pos: nat)
    requires pos < |input| && input[pos] == '<'
    ensures var r := NextStartTag(lib, input, pos); Source(r.0) == input[pos..Min(r.1, |input|)]
  {
    assert input[pos..pos + 1] == "<";
    SameIsSlice(input, "<", pos);
    EnclosedSource(input, "<", pos, ">");
    var (content, ended, next) := Enclosed(input, pos + 1, ">");
    if ended { StartTokenSource(lib, input, content, pos, next); }
  }

  lemma NextSource(lib: Library, input: string, pos: nat)
    requires pos < |input|
    ensures var r := Next(lib, input, pos); Source(r.0) == input[pos..Min(r.1, |input|)]
  {
    if input[pos] == '<' {
      if At(input, "<![CDATA[", pos) {
        EnclosedSource(input, "<![CDATA[", pos, "]]>");
      } else if At(input, "<!--", pos) {
        EnclosedSource(input, "<!--", pos, "-->");
      } else if At(input, "<!", pos) || At(input, "<?", pos) {
      } else if At(input, "</", pos) {
        EnclosedSource(input, "</", pos, ">");
      } else {
        StartTagSource(lib, input, pos);
      }
    }
  }

  function Sources(tokens: seq<Token>): string {
    if tokens == [] then "" else Source(tokens[0]) + Sources(tokens[1..])
  }

  lemma SourcesCons(token: Token, rest: seq<Token>)
    ensures Sources([token] + rest) == Source(token) + Sources(rest)
  {
    assert ([token] + rest)[1..] == rest;
  }

  lemma LexCons(lib: Library, input: string, pos: nat)
    requires pos < |input|
    ensures Lex(lib, input, pos) == [Next(lib, input, pos).0] + Lex(lib, input, Next(lib, input, pos).1)
  {}

  lemma SuffixSplit(s: string, a: nat, b: nat)
    requires a <= b <= |s|
    ensures s[a..b] + s[b..] == s[a..]
  {}

  /** The tokens of an input, put back together, are the input: no character is skipped or read twice. */
  lemma {:induction false} TokensTileInput(lib: Library, input: string, pos: nat)
    requires pos <= |input|
    ensures Sources(Lex(lib, input, pos)) == input[pos..]
    decreases |input| - pos
  {
    if pos < |input| {
      var r := Next(lib, input, pos);
      NextSource(lib, input, pos);
      LexCons(lib, input, pos);
      SourcesCons(r.0, Lex(lib, input, r.1));
      if r.1 <= |input| {
        TokensTileInput(lib, input, r.1);
        SuffixSplit(input, pos, r.1);
      }
    }
  }
}
