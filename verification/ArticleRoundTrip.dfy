/** Writing a plain tree in balanced tags and reading it back gives that tree, with its texts decoded. */
module ArticleRoundTrip {
  import opened Common
  import opened ArticleTokens
  import opened ArticleTree

  /** How a set of attributes is written after the tag name. */
  type Writer = map<string, string> -> string

  function Write(w: Writer, t: Tree): string {
    match t
    case Element(tag, attrs, children) =>
      "<" + (tag + w(attrs)) + ">" + if tag in VOID then "" else WriteAll(w, children) + ("</" + tag + ">")
    case TextNode(text) => text
    case CommentNode(text) => "<!--" + text + "-->"
  }

  function WriteAll(w: Writer, f: Forest): string {
    if f == [] then "" else Write(w, f[0]) + WriteAll(w, f[1..])
  }

  // ---------- Plain trees ----------

  predicate Has(s: string, a: string, i: nat) {
    i + |a| <= |s| && s[i..i + |a|] == a
  }

  predicate PlainTag(tag: string) {
    tag != "" && forall c :: c in tag ==> NameChar(c) && !('A' <= c <= 'Z')
  }

  /** The attributes read back as they are, and nothing about how they are written looks like another part of a tag. */
  predicate PlainAttrs(lib: Library, w: Writer, attrs: map<string, string>) {
    var text := w(attrs);
    && lib.attributes(text) == attrs
    && '>' !in text
    && (text != "" ==> !NameChar(text[0]) && text[|text| - 1] !in {'/', '?'} && !Space(text[|text| - 1]))
  }

  ghost predicate Plain(lib: Library, w: Writer, t: Tree) {
    match t
    case Element(tag, attrs, children) =>
      && PlainTag(tag) && PlainAttrs(lib, w, attrs)
      && (tag in VOID ==> children == [])
      && if tag in RAW then PlainRaw(tag, children) else AllPlain(lib, w, children)
    case TextNode(text) => text != "" && '<' !in text
    case CommentNode(text) => NoEarlyEnd(text, "-->")
  }

  /** The end mark after the text is the first there is. */
  ghost predicate NoEarlyEnd(text: string, mark: string) {
    forall k: nat :: k < |text| ==> !Has(text + mark, mark, k)
  }

  function EndMark(tag: string): string {
    "</" + tag + ">"
  }

  function RawText(children: Forest): string {
    if |children| == 1 && children[0].TextNode? then children[0].text else ""
  }

  /** The content of a script or style is one text, in which its end tag does not occur in any case. */
  ghost predicate PlainRaw(tag: string, children: Forest) {
    |children| == 1 && children[0].TextNode? && NoEarlyEnd(AsciiLower(children[0].text), EndMark(tag))
  }

  /** No two texts are neighbours: they would read as one. */
  ghost predicate AllPlain(lib: Library, w: Writer, f: Forest) {
    f != [] ==>
      && Plain(lib, w, f[0])
      && (|f| > 1 && f[0].TextNode? ==> !f[1].TextNode?)
      && AllPlain(lib, w, f[1..])
  }

  function Decoded(lib: Library, t: Tree): Tree {
    match t
    case Element(tag, attrs, children) => if tag in RAW then t else Element(tag, attrs, AllDecoded(lib, children))
    case TextNode(text) => TextNode(lib.decode(text))
    case CommentNode(_) => t
  }

  function AllDecoded(lib: Library, f: Forest): (r: Forest)
    ensures |r| == |f|
  {
    if f == [] then [] else [Decoded(lib, f[0])] + AllDecoded(lib, f[1..])
  }

  /** `toLowerCase` leaves names without capitals alone. */
  ghost predicate LowersNames(lib: Library) {
    forall name :: PlainTag(name) ==> lib.lower(name) == name
  }

  predicate HasRaw(t: Tree) {
    t.Element? && (t.tag in RAW || AnyRaw(t.children))
  }

  /** Whether scripts or styles are in the forest. */
  predicate AnyRaw(f: Forest) {
    f != [] && (HasRaw(f[0]) || AnyRaw(f[1..]))
  }

  /**
    `toLowerCase` shows the end tags of scripts and styles where they are: no character before them changes its
    length, and none becomes a letter of theirs but a letter of that name.
  */
  ghost predicate MarksStay(lib: Library, input: string) {
    forall tag, i: nat {:trigger At(AsciiLower(input), EndMark(tag), i)} :: tag in RAW ==>
      (At(lib.lower(input), EndMark(tag), i) <==> At(AsciiLower(input), EndMark(tag), i))
  }

  // ---------- Strings at a position ----------

  lemma HasAt(s: string, a: string, i: nat)
    ensures Has(s, a, i) <==> At(s, a, i)
  {
    if i + |a| <= |s| { SameIsSlice(s, a, i); }
  }

  lemma HasSplit(s: string, a: string, b: string, i: nat)
    requires Has(s, a + b, i)
    ensures Has(s, a, i) && Has(s, b, i + |a|)
  {
    assert s[i..i + |a|] == s[i..i + |a + b|][..|a|] == a;
    assert s[i + |a|..i + |a| + |b|] == s[i..i + |a + b|][|a|..] == b;
  }

  lemma HasIndex(s: string, a: string, i: nat, k: nat)
    requires Has(s, a, i) && k < |a|
    ensures s[i + k] == a[k]
  {
    assert s[i..i + |a|][k] == s[i + k];
  }

  lemma HasPart(s: string, a: string, i: nat, lo: nat, hi: nat)
    requires Has(s, a, i) && lo <= hi <= |a|
    ensures s[i + lo..i + hi] == a[lo..hi]
  {
    forall k | 0 <= k < hi - lo ensures s[i + lo..i + hi][k] == a[lo..hi][k] {
      HasIndex(s, a, i, lo + k);
    }
  }

  lemma AtIndex(s: string, a: string, i: nat, k: nat)
    requires At(s, a, i) && k < |a|
    ensures s[i + k] == a[k]
  {
    HasAt(s, a, i);
    HasIndex(s, a, i, k);
  }

  lemma AtChar(s: string, c: char, i: nat)
    ensures At(s, [c], i) <==> i < |s| && s[i] == c
  {
    HasAt(s, [c], i);
  }

  lemma IndexIs(s: string, needle: string, start: nat, e: nat)
    requires start <= e && At(s, needle, e) && forall i: nat :: start <= i < e ==> !At(s, needle, i)
    ensures IndexOf(s, needle, start) == Some(e)
  {
    IndexOfFirst(s, needle, start);
  }

  /** The text up to the first occurrence of a closing character. */
  lemma EnclosedTo(s: string, text: string, c: char, i: nat)
    requires Has(s, text, i) && Has(s, [c], i + |text|) && c !in text
    ensures Enclosed(s, i, [c]) == (text, true, i + |text| + 1)
  {
    HasAt(s, [c], i + |text|);
    forall k: nat | i <= k < i + |text| ensures !At(s, [c], k) {
      AtChar(s, c, k);
      HasIndex(s, text, i, k - i);
    }
    IndexIs(s, [c], i, i + |text|);
  }

  // ---------- Tokens of written trees ----------

  lemma {:induction false} TrimNothing(s: string)
    requires s != "" ==> !Space(s[0]) && !Space(s[|s| - 1])
    ensures Trim(s) == s
  {}

  lemma {:induction false} SpanIs(s: string, p: char -> bool, n: nat)
    requires n <= |s| && (forall i :: 0 <= i < n ==> p(s[i])) && (n < |s| ==> !p(s[n]))
    ensures Span(s, p) == n
  {
    if n > 0 { SpanIs(s[1..], p, n - 1); }
  }

  lemma NamesNotSpaces(c: char)
    requires NameChar(c)
    ensures !Space(c) && c !in {'/', '?', '>', '!', '<'}
  {}

  lemma PlainTagChars(tag: string)
    requires PlainTag(tag)
    ensures forall i :: 0 <= i < |tag| ==> NameChar(tag[i]) && !('A' <= tag[i] <= 'Z')
    ensures !Space(tag[0]) && !Space(tag[|tag| - 1]) && tag[|tag| - 1] !in {'/', '?'} && '>' !in tag
    ensures AsciiLower(tag) == tag
  {
    forall i | 0 <= i < |tag| ensures NameChar(tag[i]) && !('A' <= tag[i] <= 'Z') { assert tag[i] in tag; }
    NamesNotSpaces(tag[0]);
    NamesNotSpaces(tag[|tag| - 1]);
  }

  lemma StartTrimmed(lib: Library, w: Writer, tag: string, attrs: map<string, string>)
    requires PlainTag(tag) && PlainAttrs(lib, w, attrs)
    ensures var text := tag + w(attrs); Trim(text) == text && text[|text| - 1] !in {'/', '?'}
  {
    PlainTagChars(tag);
    var text := tag + w(attrs);
    assert text[|text| - 1] == if w(attrs) == "" then tag[|tag| - 1] else w(attrs)[|w(attrs)| - 1];
    TrimNothing(text);
  }

  lemma NoEndInContent(lib: Library, w: Writer, tag: string, attrs: map<string, string>)
    requires PlainTag(tag) && PlainAttrs(lib, w, attrs)
    ensures '>' !in tag + w(attrs)
  {
    PlainTagChars(tag);
  }

  lemma PlainHead(lib: Library, w: Writer, tag: string, attrs: map<string, string>)
    requires PlainTag(tag) && PlainAttrs(lib, w, attrs)
    ensures ReadHead(lib.attributes, tag + w(attrs)) == Some(Head(tag, attrs, false))
  {
    var text := tag + w(attrs);
    PlainTagChars(tag);
    StartTrimmed(lib, w, tag, attrs);
    SpanIs(text, NameChar, |tag|);
    assert text[..|tag|] == tag && text[|tag|..] == w(attrs);
  }

  lemma WrittenHead(lib: Library, w: Writer, tag: string, attrs: map<string, string>)
    requires Standard(lib) && PlainTag(tag) && PlainAttrs(lib, w, attrs)
    ensures lib.head(tag + w(attrs)) == Some(Head(tag, attrs, false))
  {
    PlainHead(lib, w, tag, attrs);
  }

  lemma WrittenCloseName(lib: Library, tag: string)
    requires PlainTag(tag) && LowersNames(lib)
    ensures CloseName(lib, tag) == tag && '>' !in tag
  {
    assert tag[0] in tag && tag[|tag| - 1] in tag;
    NamesNotSpaces(tag[0]);
    NamesNotSpaces(tag[|tag| - 1]);
    TrimNothing(tag);
    forall i | 0 <= i < |tag| ensures !Space(tag[i]) && tag[i] != '>' {
      assert tag[i] in tag;
      NamesNotSpaces(tag[i]);
    }
    SpanIs(tag, c => !Space(c), |tag|);
  }

  /** What is not `!`, `?` or `/` after the opening bracket begins the name of a start tag. */
  lemma MarkupIsStartTag(lib: Library, input: string, pos: nat)
    requires pos + 1 < |input| && input[pos] == '<' && input[pos + 1] !in {'!', '?', '/'}
    ensures Next(lib, input, pos) == NextStartTag(lib, input, pos)
  {
    if At(input, "<![CDATA[", pos) { AtIndex(input, "<![CDATA[", pos, 1); }
    if At(input, "<!--", pos) { AtIndex(input, "<!--", pos, 1); }
    if At(input, "<!", pos) { AtIndex(input, "<!", pos, 1); }
    if At(input, "<?", pos) { AtIndex(input, "<?", pos, 1); }
    if At(input, "</", pos) { AtIndex(input, "</", pos, 1); }
  }

  lemma MarkupIsEndTag(lib: Library, input: string, pos: nat)
    requires Has(input, "</", pos)
    ensures var (text, ended, next) := Enclosed(input, pos + 2, ">");
            Next(lib, input, pos) == (EndTag(text, ended), next)
  {
    HasAt(input, "</", pos);
    HasIndex(input, "</", pos, 0);
    HasIndex(input, "</", pos, 1);
    if At(input, "<![CDATA[", pos) { AtIndex(input, "<![CDATA[", pos, 1); }
    if At(input, "<!--", pos) { AtIndex(input, "<!--", pos, 1); }
    if At(input, "<!", pos) { AtIndex(input, "<!", pos, 1); }
    if At(input, "<?", pos) { AtIndex(input, "<?", pos, 1); }
  }

  lemma MarkupIsComment(lib: Library, input: string, pos: nat)
    requires Has(input, "<!--", pos)
    ensures var r := Enclosed(input, pos + 4, "-->"); Next(lib, input, pos) == (Comment(r.0, r.1), r.2)
  {
    HasAt(input, "<!--", pos);
    HasIndex(input, "<!--", pos, 0);
    HasIndex(input, "<!--", pos, 2);
    if At(input, "<![CDATA[", pos) { AtIndex(input, "<![CDATA[", pos, 2); }
  }

  lemma StartTagAt(lib: Library, input: string, pos: nat, content: string, head: Head)
    requires pos < |input| && input[pos] == '<' && Enclosed(input, pos + 1, ">") == (content, true, pos + |content| + 2)
    requires lib.head(content) == Some(head) && head.tag !in RAW
    ensures NextStartTag(lib, input, pos) == (StartTag(content, true), pos + |content| + 2)
  {}

  lemma NameAfterBracket(lib: Library, input: string, pos: nat, tag: string)
    requires PlainTag(tag) && pos + 1 < |input| && input[pos] == '<' && input[pos + 1] == tag[0]
    ensures Next(lib, input, pos) == NextStartTag(lib, input, pos)
  {
    PlainTagChars(tag);
    NamesNotSpaces(tag[0]);
    MarkupIsStartTag(lib, input, pos);
  }

  lemma WrittenEnd(lib: Library, input: string, pos: nat, tag: string)
    requires PlainTag(tag) && Has(input, "</", pos) && Has(input, tag, pos + 2) && Has(input, ">", pos + 2 + |tag|)
    ensures Next(lib, input, pos) == (EndTag(tag, true), pos + |tag| + 3)
  {
    MarkupIsEndTag(lib, input, pos);
    PlainTagChars(tag);
    EnclosedTo(input, tag, '>', pos + 2);
  }

  lemma WrittenText(lib: Library, input: string, pos: nat, text: string)
    requires text != "" && '<' !in text && Has(input, text, pos)
    requires pos + |text| < |input| ==> input[pos + |text|] == '<'
    ensures Next(lib, input, pos) == (Text(text), pos + |text|)
  {
    HasIndex(input, text, pos, 0);
    forall k: nat | pos <= k < pos + |text| ensures !At(input, "<", k) {
      AtChar(input, '<', k);
      HasIndex(input, text, pos, k - pos);
    }
    if pos + |text| < |input| {
      AtChar(input, '<', pos + |text|);
      IndexIs(input, "<", pos, pos + |text|);
    } else if IndexOf(input, "<", pos).Some? {
      AtChar(input, '<', IndexOf(input, "<", pos).value);
    }
  }

  lemma NoMarkInside(input: string, start: nat, text: string, mark: string, k: nat)
    requires NoEarlyEnd(text, mark) && Has(input, text + mark, start) && start <= k < start + |text|
    ensures !Has(input, mark, k)
  {
    var whole := text + mark;
    HasPart(input, whole, start, k - start, k - start + |mark|);
    assert !Has(whole, mark, k - start);
  }

  /** A text in which an end mark does not begin early runs to that mark wherever it stands. */
  lemma RunsToMark(input: string, start: nat, text: string, mark: string)
    requires NoEarlyEnd(text, mark) && Has(input, text + mark, start)
    ensures Enclosed(input, start, mark) == (text, true, start + |text| + |mark|)
  {
    HasSplit(input, text, mark, start);
    HasAt(input, mark, start + |text|);
    forall k: nat | start <= k < start + |text| ensures !At(input, mark, k) {
      NoMarkInside(input, start, text, mark, k);
      HasAt(input, mark, k);
    }
    IndexIs(input, mark, start, start + |text|);
  }

  // ---------- Raw text ----------

  lemma LowerHas(s: string, a: string, i: nat)
    requires Has(s, a, i)
    ensures Has(AsciiLower(s), AsciiLower(a), i)
  {
    forall k | 0 <= k < |a| ensures AsciiLower(s)[i..i + |a|][k] == AsciiLower(a)[k] {
      HasIndex(s, a, i, k);
    }
  }

  lemma LowerMark(text: string, tag: string)
    requires tag in RAW
    ensures AsciiLower(text + EndMark(tag)) == AsciiLower(text) + EndMark(tag)
  {}

  /** The end tag of a raw text is the first the lower-cased input shows. */
  lemma RawEnd(lib: Library, input: string, start: nat, text: string, tag: string)
    requires tag in RAW && MarksStay(lib, input) && NoEarlyEnd(AsciiLower(text), EndMark(tag))
    requires Has(input, text + EndMark(tag), start)
    ensures IndexOf(lib.lower(input), EndMark(tag), start) == Some(start + |text|)
  {
    var mark, low := EndMark(tag), AsciiLower(input);
    LowerHas(input, text + mark, start);
    LowerMark(text, tag);
    HasSplit(low, AsciiLower(text), mark, start);
    HasAt(low, mark, start + |text|);
    forall k: nat | start <= k < start + |text| ensures !At(lib.lower(input), mark, k) {
      NoMarkInside(low, start, AsciiLower(text), mark, k);
      HasAt(low, mark, k);
    }
    IndexIs(lib.lower(input), mark, start, start + |text|);
  }

  lemma WrittenRaw(lib: Library, input: string, start: nat, content: string, tag: string, text: string)
    requires tag in RAW && MarksStay(lib, input) && NoEarlyEnd(AsciiLower(text), EndMark(tag))
    requires Has(input, text + EndMark(tag), start)
    ensures NextRaw(lib, input, content, tag, start) ==
            (RawElement(content, text, EndMark(tag)), start + |text + EndMark(tag)|)
  {
    RawEnd(lib, input, start, text, tag);
    HasSplit(input, text, EndMark(tag), start);
  }

  lemma RawTagAt(lib: Library, input: string, pos: nat, content: string, head: Head)
    requires pos < |input| && input[pos] == '<' && Enclosed(input, pos + 1, ">") == (content, true, pos + |content| + 2)
    requires lib.head(content) == Some(head) && !Leaf(head) && head.tag in RAW
    ensures NextStartTag(lib, input, pos) == NextRaw(lib, input, content, head.tag, pos + |content| + 2)
  {}

  // ---------- Reading written trees: the tokens ----------

  function Tokens(w: Writer, t: Tree): seq<Token> {
    match t
    case Element(tag, attrs, children) =>
      if tag in RAW then [RawElement(tag + w(attrs), RawText(children), EndMark(tag))] else
      [StartTag(tag + w(attrs), true)] + if tag in VOID then [] else AllTokens(w, children) + [EndTag(tag, true)]
    case TextNode(text) => [Text(text)]
    case CommentNode(text) => [Comment(text, true)]
  }

  function AllTokens(w: Writer, f: Forest): seq<Token> {
    if f == [] then [] else Tokens(w, f[0]) + AllTokens(w, f[1..])
  }

  type Scanner = nat -> (Token, nat)

  /** Scanning with any function for the next token. */
  function Scan(next: Scanner, length: nat, pos: nat): seq<Token>
    decreases length - pos
  {
    if pos >= length || next(pos).1 <= pos then [] else [next(pos).0] + Scan(next, length, next(pos).1)
  }

  ghost predicate ScansWith(next: Scanner, lib: Library, input: string) {
    forall pos: nat {:trigger Next(lib, input, pos)} :: pos < |input| ==> next(pos) == Next(lib, input, pos)
  }

  lemma {:induction false} LexIsScan(lib: Library, input: string, pos: nat, next: Scanner)
    requires ScansWith(next, lib, input)
    ensures Lex(lib, input, pos) == Scan(next, |input|, pos)
    decreases |input| - pos
  {
    if pos < |input| {
      LexIsScan(lib, input, Next(lib, input, pos).1, next);
    }
  }

  /** From `start` to `end` the scanner reads exactly these tokens. */
  ghost predicate Reads(next: Scanner, length: nat, start: nat, end: nat, tokens: seq<Token>) {
    Scan(next, length, start) == tokens + Scan(next, length, end)
  }

  lemma ReadsOne(next: Scanner, length: nat, pos: nat, end: nat, token: Token)
    requires pos < length && pos < end && next(pos) == (token, end)
    ensures Reads(next, length, pos, end, [token])
  {}

  lemma ReadNext(lib: Library, input: string, next: Scanner, pos: nat, end: nat, token: Token)
    requires ScansWith(next, lib, input) && pos < |input| && Next(lib, input, pos) == (token, end)
    ensures Reads(next, |input|, pos, end, [token])
  {
    ReadsOne(next, |input|, pos, end, token);
  }

  lemma ReadsMore(next: Scanner, length: nat, a: nat, b: nat, c: nat, first: seq<Token>, second: seq<Token>)
    requires Reads(next, length, a, b, first) && Reads(next, length, b, c, second)
    ensures Reads(next, length, a, c, first + second)
  {}

  /** Where a start tag is written, it ends at the first closing bracket. */
  lemma StartEnclosed(lib: Library, w: Writer, input: string, pos: nat, tag: string, attrs: map<string, string>)
    requires PlainTag(tag) && PlainAttrs(lib, w, attrs) && Has(input, "<" + (tag + w(attrs)) + ">", pos)
    ensures pos < |input| && input[pos] == '<' && Has(input, tag + w(attrs), pos + 1)
    ensures Enclosed(input, pos + 1, ">") == (tag + w(attrs), true, pos + |tag + w(attrs)| + 2)
  {
    var content := tag + w(attrs);
    HasSplit(input, "<" + content, ">", pos);
    HasSplit(input, "<", content, pos);
    HasIndex(input, "<", pos, 0);
    NoEndInContent(lib, w, tag, attrs);
    EnclosedTo(input, content, '>', pos + 1);
  }

  lemma StartIsNext(lib: Library, input: string, pos: nat, tag: string, rest: string)
    requires PlainTag(tag) && pos < |input| && input[pos] == '<' && Has(input, tag + rest, pos + 1)
    ensures Next(lib, input, pos) == NextStartTag(lib, input, pos)
  {
    HasIndex(input, tag + rest, pos + 1, 0);
    NameAfterBracket(lib, input, pos, tag);
  }

  /** Where a start tag is written, the scanner reads one, with that content and head. */
  lemma StartAt(
      lib: Library, w: Writer, input: string, pos: nat, tag: string, attrs: map<string, string>, content: string)
    requires Standard(lib) && PlainTag(tag) && PlainAttrs(lib, w, attrs) && content == tag + w(attrs)
    requires Has(input, "<" + content + ">", pos)
    ensures pos < |input| && input[pos] == '<' && Next(lib, input, pos) == NextStartTag(lib, input, pos)
    ensures Enclosed(input, pos + 1, ">") == (content, true, pos + |content| + 2)
    ensures lib.head(content) == Some(Head(tag, attrs, false))
  {
    StartEnclosed(lib, w, input, pos, tag, attrs);
    StartIsNext(lib, input, pos, tag, w(attrs));
    WrittenHead(lib, w, tag, attrs);
  }

  lemma ReadStart(
      lib: Library, w: Writer, input: string, next: Scanner, pos: nat, tag: string, attrs: map<string, string>)
    requires Standard(lib) && ScansWith(next, lib, input) && PlainTag(tag) && tag !in RAW && PlainAttrs(lib, w, attrs)
    requires Has(input, "<" + (tag + w(attrs)) + ">", pos)
    ensures Reads(next, |input|, pos, pos + |tag + w(attrs)| + 2, [StartTag(tag + w(attrs), true)])
  {
    var content := tag + w(attrs);
    StartAt(lib, w, input, pos, tag, attrs, content);
    StartTagAt(lib, input, pos, content, Head(tag, attrs, false));
    ReadNext(lib, input, next, pos, pos + |content| + 2, StartTag(content, true));
  }

  lemma ReadEnd(lib: Library, input: string, next: Scanner, pos: nat, tag: string)
    requires ScansWith(next, lib, input) && PlainTag(tag) && Has(input, "</" + tag + ">", pos)
    ensures Reads(next, |input|, pos, pos + |tag| + 3, [EndTag(tag, true)])
  {
    HasSplit(input, "</" + tag, ">", pos);
    HasSplit(input, "</", tag, pos);
    WrittenEnd(lib, input, pos, tag);
    ReadNext(lib, input, next, pos, pos + |tag| + 3, EndTag(tag, true));
  }

  lemma ReadText(lib: Library, input: string, next: Scanner, pos: nat, text: string)
    requires ScansWith(next, lib, input) && text != "" && '<' !in text && Has(input, text, pos)
    requires pos + |text| < |input| ==> input[pos + |text|] == '<'
    ensures Reads(next, |input|, pos, pos + |text|, [Text(text)])
  {
    WrittenText(lib, input, pos, text);
    ReadNext(lib, input, next, pos, pos + |text|, Text(text));
  }

  lemma ReadComment(lib: Library, input: string, next: Scanner, pos: nat, text: string)
    requires ScansWith(next, lib, input) && NoEarlyEnd(text, "-->") && Has(input, "<!--" + (text + "-->"), pos)
    ensures Reads(next, |input|, pos, pos + |text| + 7, [Comment(text, true)])
  {
    HasSplit(input, "<!--", text + "-->", pos);
    RunsToMark(input, pos + 4, text, "-->");
    MarkupIsComment(lib, input, pos);
    ReadNext(lib, input, next, pos, pos + |text| + 7, Comment(text, true));
  }

  /** The start tag, the children and the end tag of a written element, each in its place. */
  lemma ElementParts(w: Writer, input: string, pos: nat, t: Tree)
    requires t.Element? && t.tag !in VOID && Has(input, Write(w, t), pos)
    ensures var a := pos + |t.tag + w(t.attrs)| + 2;
            var b := a + |WriteAll(w, t.children)|;
            && Has(input, "<" + (t.tag + w(t.attrs)) + ">", pos)
            && Has(input, WriteAll(w, t.children), a)
            && Has(input, "</" + t.tag + ">", b)
            && pos + |Write(w, t)| == b + |t.tag| + 3
  {
    var start := "<" + (t.tag + w(t.attrs)) + ">";
    var inside, end := WriteAll(w, t.children), "</" + t.tag + ">";
    HasSplit(input, start, inside + end, pos);
    HasSplit(input, inside, end, pos + |start|);
  }

  lemma EndTagStarts(input: string, pos: nat, tag: string)
    requires Has(input, "</" + tag + ">", pos)
    ensures pos < |input| && input[pos] == '<'
  {
    HasIndex(input, "</" + tag + ">", pos, 0);
  }

  lemma ReadsThree(
      next: Scanner, length: nat, a: nat, b: nat, c: nat, d: nat, x: seq<Token>, y: seq<Token>, z: seq<Token>)
    requires Reads(next, length, a, b, x) && Reads(next, length, b, c, y) && Reads(next, length, c, d, z)
    ensures Reads(next, length, a, d, x + (y + z))
  {
    ReadsMore(next, length, b, c, d, y, z);
    ReadsMore(next, length, a, b, d, x, y + z);
  }

  /** The tree is plain and written at `pos`, and a text ends where a tag begins. */
  ghost predicate TreeAt(lib: Library, w: Writer, input: string, pos: nat, t: Tree) {
    && Plain(lib, w, t) && Has(input, Write(w, t), pos)
    && (HasRaw(t) ==> MarksStay(lib, input))
    && var end := pos + |Write(w, t)|;
    t.TextNode? && end < |input| ==> input[end] == '<'
  }

  ghost predicate ForestAt(lib: Library, w: Writer, input: string, pos: nat, f: Forest) {
    && AllPlain(lib, w, f) && Has(input, WriteAll(w, f), pos)
    && (AnyRaw(f) ==> MarksStay(lib, input))
    && var end := pos + |WriteAll(w, f)|;
    end < |input| ==> input[end] == '<'
  }

  lemma {:induction false} ReadTree(lib: Library, w: Writer, input: string, next: Scanner, pos: nat, t: Tree)
    requires Standard(lib) && ScansWith(next, lib, input) && TreeAt(lib, w, input, pos, t)
    ensures Reads(next, |input|, pos, pos + |Write(w, t)|, Tokens(w, t))
    decreases t, 1
  {
    match t
    case TextNode(text) => ReadText(lib, input, next, pos, text);
    case CommentNode(text) =>
      assert Write(w, t) == "<!--" + (text + "-->");
      ReadComment(lib, input, next, pos, text);
    case Element(tag, attrs, children) =>
      if tag in VOID {
        ReadVoid(lib, w, input, next, pos, t);
      } else if tag in RAW {
        ReadRaw(lib, w, input, next, pos, t);
      } else {
        ReadElement(lib, w, input, next, pos, t);
      }
  }

  lemma ReadVoid(lib: Library, w: Writer, input: string, next: Scanner, pos: nat, t: Tree)
    requires Standard(lib) && ScansWith(next, lib, input) && t.Element? && Plain(lib, w, t) && t.tag in VOID
    requires Has(input, Write(w, t), pos)
    ensures Reads(next, |input|, pos, pos + |Write(w, t)|, Tokens(w, t))
  {
    assert Write(w, t) == "<" + (t.tag + w(t.attrs)) + ">";
    ReadStart(lib, w, input, next, pos, t.tag, t.attrs);
  }

  lemma NextIsRaw(lib: Library, w: Writer, input: string, pos: nat, tag: string, attrs: map<string, string>)
    requires Standard(lib) && PlainTag(tag) && PlainAttrs(lib, w, attrs) && tag in RAW
    requires Has(input, "<" + (tag + w(attrs)) + ">", pos)
    ensures var start := pos + |tag + w(attrs)| + 2;
            start <= |input| && Next(lib, input, pos) == NextRaw(lib, input, tag + w(attrs), tag, start)
  {
    StartAt(lib, w, input, pos, tag, attrs, tag + w(attrs));
    RawTagAt(lib, input, pos, tag + w(attrs), Head(tag, attrs, false));
  }

  lemma NextRawAt(lib: Library, w: Writer, input: string, pos: nat, start: nat, tag: string, attrs: map<string, string>,
                  text: string)
    requires Standard(lib) && PlainTag(tag) && PlainAttrs(lib, w, attrs)
    requires tag in RAW && MarksStay(lib, input) && NoEarlyEnd(AsciiLower(text), EndMark(tag))
    requires Has(input, "<" + (tag + w(attrs)) + ">", pos) && start == pos + |tag + w(attrs)| + 2
    requires Has(input, text + EndMark(tag), start)
    ensures pos < |input|
    ensures Next(lib, input, pos) == (RawElement(tag + w(attrs), text, EndMark(tag)), start + |text + EndMark(tag)|)
  {
    NextIsRaw(lib, w, input, pos, tag, attrs);
    WrittenRaw(lib, input, start, tag + w(attrs), tag, text);
  }

  lemma NextOfRaw(lib: Library, w: Writer, input: string, pos: nat, t: Tree)
    requires Standard(lib) && t.Element? && Plain(lib, w, t) && t.tag in RAW
    requires Has(input, Write(w, t), pos) && MarksStay(lib, input)
    ensures pos < |input| && Tokens(w, t) == [Next(lib, input, pos).0]
    ensures Next(lib, input, pos).1 == pos + |Write(w, t)|
  {
    RawParts(w, input, pos, t);
    NextRawAt(lib, w, input, pos, pos + |t.tag + w(t.attrs)| + 2, t.tag, t.attrs, RawText(t.children));
  }

  lemma ReadRaw(lib: Library, w: Writer, input: string, next: Scanner, pos: nat, t: Tree)
    requires Standard(lib) && ScansWith(next, lib, input) && t.Element? && Plain(lib, w, t) && t.tag in RAW
    requires Has(input, Write(w, t), pos) && MarksStay(lib, input)
    ensures Reads(next, |input|, pos, pos + |Write(w, t)|, Tokens(w, t))
  {
    NextOfRaw(lib, w, input, pos, t);
    ReadNext(lib, input, next, pos, pos + |Write(w, t)|, Next(lib, input, pos).0);
  }

  lemma RawParts(w: Writer, input: string, pos: nat, t: Tree)
    requires t.Element? && t.tag in RAW && |t.children| == 1 && t.children[0].TextNode? && Has(input, Write(w, t), pos)
    ensures var start, end := pos + |t.tag + w(t.attrs)| + 2, RawText(t.children) + EndMark(t.tag);
            && Has(input, "<" + (t.tag + w(t.attrs)) + ">", pos)
            && Has(input, end, start)
            && pos + |Write(w, t)| == start + |end|
  {
    RawWritten(w, t);
    HasSplit(input, "<" + (t.tag + w(t.attrs)) + ">", RawText(t.children) + EndMark(t.tag), pos);
  }

  lemma RawWritten(w: Writer, t: Tree)
    requires t.Element? && t.tag in RAW && |t.children| == 1 && t.children[0].TextNode?
    ensures Write(w, t) == "<" + (t.tag + w(t.attrs)) + ">" + (RawText(t.children) + EndMark(t.tag))
  {
    assert t.children[1..] == [];
    assert WriteAll(w, t.children) == t.children[0].text;
  }

  lemma ElementInside(lib: Library, w: Writer, input: string, pos: nat, a: nat, b: nat, t: Tree)
    requires TreeAt(lib, w, input, pos, t) && t.Element? && t.tag !in VOID && t.tag !in RAW
    requires a == pos + |t.tag + w(t.attrs)| + 2 && b == a + |WriteAll(w, t.children)|
    ensures Has(input, "<" + (t.tag + w(t.attrs)) + ">", pos) && ForestAt(lib, w, input, a, t.children)
    ensures Has(input, "</" + t.tag + ">", b) && pos + |Write(w, t)| == b + |t.tag| + 3
  {
    ElementParts(w, input, pos, t);
    EndTagStarts(input, b, t.tag);
  }

  lemma ElementTokens(w: Writer, t: Tree)
    requires t.Element? && t.tag !in VOID && t.tag !in RAW
    ensures Tokens(w, t) ==
            [StartTag(t.tag + w(t.attrs), true)] + (AllTokens(w, t.children) + [EndTag(t.tag, true)])
  {}

  lemma {:induction false} ReadElement(lib: Library, w: Writer, input: string, next: Scanner, pos: nat, t: Tree)
    requires Standard(lib) && ScansWith(next, lib, input) && TreeAt(lib, w, input, pos, t)
    requires t.Element? && t.tag !in VOID && t.tag !in RAW
    ensures Reads(next, |input|, pos, pos + |Write(w, t)|, Tokens(w, t))
    decreases t, 0
  {
    var a := pos + |t.tag + w(t.attrs)| + 2;
    var b := a + |WriteAll(w, t.children)|;
    ElementInside(lib, w, input, pos, a, b, t);
    ReadForest(lib, w, input, next, a, t.children);
    ReadAround(lib, w, input, next, pos, t.tag, t.attrs, a, b, AllTokens(w, t.children));
    ElementTokens(w, t);
  }

  lemma ReadAround(
      lib: Library, w: Writer, input: string, next: Scanner, pos: nat, tag: string, attrs: map<string, string>,
      a: nat, b: nat, inside: seq<Token>)
    requires Standard(lib) && ScansWith(next, lib, input) && PlainTag(tag) && tag !in RAW && PlainAttrs(lib, w, attrs)
    requires Has(input, "<" + (tag + w(attrs)) + ">", pos) && Has(input, "</" + tag + ">", b)
    requires a == pos + |tag + w(attrs)| + 2 && Reads(next, |input|, a, b, inside)
    ensures Reads(next, |input|, pos, b + |tag| + 3,
                  [StartTag(tag + w(attrs), true)] + (inside + [EndTag(tag, true)]))
  {
    ReadStart(lib, w, input, next, pos, tag, attrs);
    ReadEnd(lib, input, next, b, tag);
    ReadsThree(next, |input|, pos, a, b, b + |tag| + 3,
               [StartTag(tag + w(attrs), true)], inside, [EndTag(tag, true)]);
  }

  lemma WriteStartsTag(w: Writer, t: Tree)
    requires !t.TextNode?
    ensures Write(w, t) != "" && Write(w, t)[0] == '<'
  {}

  /** A text is followed by a tag, or by nothing. */
  lemma TextThenTag(lib: Library, w: Writer, input: string, pos: nat, f: Forest)
    requires f != [] && f[0].TextNode? && AllPlain(lib, w, f)
    requires Has(input, WriteAll(w, f[1..]), pos)
    requires var end := pos + |WriteAll(w, f[1..])|; end < |input| ==> input[end] == '<'
    ensures pos < |input| ==> input[pos] == '<'
  {
    if |f| > 1 {
      assert f[1..][0] == f[1];
      WriteStartsTag(w, f[1]);
      HasIndex(input, WriteAll(w, f[1..]), pos, 0);
    } else {
      assert f[1..] == [];
    }
  }

  lemma ForestParts(w: Writer, input: string, pos: nat, middle: nat, f: Forest)
    requires f != [] && Has(input, WriteAll(w, f), pos) && middle == pos + |Write(w, f[0])|
    ensures Has(input, Write(w, f[0]), pos) && Has(input, WriteAll(w, f[1..]), middle)
    ensures pos + |WriteAll(w, f)| == middle + |WriteAll(w, f[1..])|
  {
    HasSplit(input, Write(w, f[0]), WriteAll(w, f[1..]), pos);
  }

  lemma ForestHead(lib: Library, w: Writer, input: string, pos: nat, middle: nat, f: Forest)
    requires f != [] && ForestAt(lib, w, input, pos, f) && middle == pos + |Write(w, f[0])|
    ensures TreeAt(lib, w, input, pos, f[0])
  {
    ForestParts(w, input, pos, middle, f);
    if f[0].TextNode? { TextThenTag(lib, w, input, middle, f); }
  }

  lemma ForestTail(lib: Library, w: Writer, input: string, pos: nat, middle: nat, f: Forest)
    requires f != [] && ForestAt(lib, w, input, pos, f) && middle == pos + |Write(w, f[0])|
    ensures ForestAt(lib, w, input, middle, f[1..]) && pos + |WriteAll(w, f)| == middle + |WriteAll(w, f[1..])|
  {
    ForestParts(w, input, pos, middle, f);
  }

  lemma {:induction false} ReadForest(lib: Library, w: Writer, input: string, next: Scanner, pos: nat, f: Forest)
    requires Standard(lib) && ScansWith(next, lib, input) && ForestAt(lib, w, input, pos, f)
    ensures Reads(next, |input|, pos, pos + |WriteAll(w, f)|, AllTokens(w, f))
    decreases f, 2
  {
    if f != [] {
      var middle, end := pos + |Write(w, f[0])|, pos + |WriteAll(w, f)|;
      ForestHead(lib, w, input, pos, middle, f);
      ForestTail(lib, w, input, pos, middle, f);
      ReadTree(lib, w, input, next, pos, f[0]);
      ReadForest(lib, w, input, next, middle, f[1..]);
      ReadsForest(w, next, |input|, pos, middle, end, f);
    }
  }

  lemma ReadsForest(w: Writer, next: Scanner, length: nat, pos: nat, middle: nat, end: nat, f: Forest)
    requires f != [] && Reads(next, length, pos, middle, Tokens(w, f[0]))
    requires Reads(next, length, middle, end, AllTokens(w, f[1..]))
    ensures Reads(next, length, pos, end, AllTokens(w, f))
  {
    ReadsMore(next, length, pos, middle, end, Tokens(w, f[0]), AllTokens(w, f[1..]));
  }

  // ---------- Reading written trees: the stack ----------

  function AddAll(stack: Stack, f: Forest): (r: Stack)
    ensures |r| == |stack|
    decreases |f|
  {
    if f == [] then stack else AddAll(AddChild(stack, f[0]), f[1..])
  }

  lemma {:induction false} AddAllIs(stack: Stack, f: Forest)
    ensures var top := |stack| - 1;
            AddAll(stack, f) == stack[top := stack[top].(children := stack[top].children + f)]
    decreases |f|
  {
    var top := |stack| - 1;
    if f == [] {
      assert stack[top].children + f == stack[top].children;
    } else {
      AddAllIs(AddChild(stack, f[0]), f[1..]);
      assert stack[top].children + [f[0]] + f[1..] == stack[top].children + f;
    }
  }

  type Builder = (Stack, Token) -> Stack

  function Fold(apply: Builder, stack: Stack, tokens: seq<Token>): Stack
    decreases |tokens|
  {
    if tokens == [] then stack else Fold(apply, apply(stack, tokens[0]), tokens[1..])
  }

  lemma {:induction false} FoldSplit(apply: Builder, stack: Stack, p: seq<Token>, q: seq<Token>)
    ensures Fold(apply, stack, p + q) == Fold(apply, Fold(apply, stack, p), q)
    decreases |p|
  {
    if p == [] {
      assert p + q == q;
    } else {
      FoldSplit(apply, apply(stack, p[0]), p[1..], q);
      assert (p + q)[1..] == p[1..] + q;
    }
  }

  lemma FoldOne(apply: Builder, stack: Stack, token: Token)
    ensures Fold(apply, stack, [token]) == apply(stack, token)
  {
    assert [token][1..] == [];
  }

  ghost predicate BuildsWith(apply: Builder, lib: Library) {
    forall stack: Stack, token {:trigger Apply(lib, stack, token)} :: apply(stack, token) == Apply(lib, stack, token)
  }

  lemma {:induction false} BuildIsFold(lib: Library, stack: Stack, tokens: seq<Token>, apply: Builder)
    requires BuildsWith(apply, lib)
    ensures Build(lib, stack, tokens) == Fold(apply, stack, tokens)
    decreases |tokens|
  {
    if tokens != [] {
      BuildIsFold(lib, Apply(lib, stack, tokens[0]), tokens[1..], apply);
    }
  }

  lemma ApplyStart(lib: Library, w: Writer, stack: Stack, tag: string, attrs: map<string, string>)
    requires Standard(lib) && PlainTag(tag) && PlainAttrs(lib, w, attrs)
    ensures Apply(lib, stack, StartTag(tag + w(attrs), true)) ==
            if tag in VOID then AddChild(stack, Element(tag, attrs, [])) else stack + [Frame(tag, attrs, [])]
  {
    WrittenHead(lib, w, tag, attrs);
  }

  /** Closing the element just opened puts it, with its children, where it was opened. */
  lemma ApplyEnd(lib: Library, stack: Stack, tag: string, attrs: map<string, string>, children: Forest)
    requires PlainTag(tag) && LowersNames(lib)
    ensures Apply(lib, AddAll(stack + [Frame(tag, attrs, [])], children), EndTag(tag, true)) ==
            AddChild(stack, Element(tag, attrs, children))
  {
    WrittenCloseName(lib, tag);
    var opening: Stack := stack + [Frame(tag, attrs, [])];
    AddAllIs(opening, children);
    var inner := AddAll(opening, children);
    assert [] + children == children;
    assert inner[..|inner| - 1] == stack;
    assert CloseDownTo(inner, |stack|) == CloseTop(inner);
  }

  lemma {:induction false} BuildTree(lib: Library, w: Writer, apply: Builder, stack: Stack, t: Tree)
    requires Standard(lib) && BuildsWith(apply, lib) && LowersNames(lib) && Plain(lib, w, t)
    ensures Fold(apply, stack, Tokens(w, t)) == AddChild(stack, Decoded(lib, t))
    decreases t, 1
  {
    match t
    case TextNode(text) =>
      assert apply(stack, Text(text)) == Apply(lib, stack, Text(text));
      FoldOne(apply, stack, Text(text));
    case CommentNode(text) =>
      assert apply(stack, Comment(text, true)) == Apply(lib, stack, Comment(text, true));
      FoldOne(apply, stack, Comment(text, true));
    case Element(tag, attrs, children) =>
      var token := StartTag(tag + w(attrs), true);
      ApplyStart(lib, w, stack, tag, attrs);
      assert apply(stack, token) == Apply(lib, stack, token);
      if tag in RAW {
        BuildRaw(lib, w, apply, stack, t);
      } else if tag in VOID {
        assert Tokens(w, t) == [token];
        FoldOne(apply, stack, token);
      } else {
        BuildElement(lib, w, apply, stack, t);
      }
  }

  lemma BuildRaw(lib: Library, w: Writer, apply: Builder, stack: Stack, t: Tree)
    requires Standard(lib) && BuildsWith(apply, lib) && t.Element? && Plain(lib, w, t) && t.tag in RAW
    ensures Fold(apply, stack, Tokens(w, t)) == AddChild(stack, Decoded(lib, t))
  {
    var token := RawElement(t.tag + w(t.attrs), RawText(t.children), EndMark(t.tag));
    WrittenHead(lib, w, t.tag, t.attrs);
    assert apply(stack, token) == Apply(lib, stack, token);
    assert t.children == [TextNode(RawText(t.children))];
    FoldOne(apply, stack, token);
  }

  lemma {:induction false} BuildElement(lib: Library, w: Writer, apply: Builder, stack: Stack, t: Tree)
    requires Standard(lib) && BuildsWith(apply, lib) && LowersNames(lib)
    requires t.Element? && Plain(lib, w, t) && t.tag !in VOID && t.tag !in RAW
    requires apply(stack, StartTag(t.tag + w(t.attrs), true)) == stack + [Frame(t.tag, t.attrs, [])]
    ensures Fold(apply, stack, Tokens(w, t)) == AddChild(stack, Decoded(lib, t))
    decreases t, 0
  {
    var opening: Stack := stack + [Frame(t.tag, t.attrs, [])];
    var first, inside, last := StartTag(t.tag + w(t.attrs), true), AllTokens(w, t.children), EndTag(t.tag, true);
    var children := AllDecoded(lib, t.children);
    FoldSplit(apply, stack, [first], inside + [last]);
    FoldSplit(apply, opening, inside, [last]);
    FoldOne(apply, stack, first);
    BuildForest(lib, w, apply, opening, t.children);
    ApplyEnd(lib, stack, t.tag, t.attrs, children);
    assert apply(AddAll(opening, children), last) == Apply(lib, AddAll(opening, children), last);
    FoldOne(apply, AddAll(opening, children), last);
  }

  lemma {:induction false} BuildForest(lib: Library, w: Writer, apply: Builder, stack: Stack, f: Forest)
    requires Standard(lib) && BuildsWith(apply, lib) && LowersNames(lib) && AllPlain(lib, w, f)
    ensures Fold(apply, stack, AllTokens(w, f)) == AddAll(stack, AllDecoded(lib, f))
    decreases f, 2
  {
    if f != [] {
      FoldSplit(apply, stack, Tokens(w, f[0]), AllTokens(w, f[1..]));
      BuildTree(lib, w, apply, stack, f[0]);
      BuildForest(lib, w, apply, AddChild(stack, Decoded(lib, f[0])), f[1..]);
      assert AllDecoded(lib, f)[1..] == AllDecoded(lib, f[1..]);
    }
  }

  lemma LexWritten(lib: Library, w: Writer, f: Forest)
    requires Standard(lib) && AllPlain(lib, w, f)
    requires AnyRaw(f) ==> MarksStay(lib, WriteAll(w, f))
    ensures Lex(lib, WriteAll(w, f), 0) == AllTokens(w, f)
  {
    var input := WriteAll(w, f);
    var next: Scanner := (pos: nat) => if pos < |input| then Next(lib, input, pos) else (Text(""), pos);
    assert ScansWith(next, lib, input);
    assert input[0..|input|] == input;
    ReadForest(lib, w, input, next, 0, f);
    LexIsScan(lib, input, 0, next);
    assert Scan(next, |input|, |input|) == [];
  }

  /** What is written as the balanced tag form of plain trees is read back as those trees. */
  lemma ParseWritten(lib: Library, w: Writer, f: Forest)
    requires Standard(lib) && LowersNames(lib) && AllPlain(lib, w, f)
    requires AnyRaw(f) ==> MarksStay(lib, WriteAll(w, f))
    ensures Parse(lib, WriteAll(w, f)) == AllDecoded(lib, f)
  {
    LexWritten(lib, w, f);
    var apply: Builder := (stack, token) => Apply(lib, stack, token);
    assert BuildsWith(apply, lib);
    BuildIsFold(lib, ROOT, AllTokens(w, f), apply);
    BuildForest(lib, w, apply, ROOT, f);
    AddAllIs(ROOT, AllDecoded(lib, f));
    assert [] + AllDecoded(lib, f) == AllDecoded(lib, f);
  }

  // ---------- Void elements with content ----------

  /** An element written with its end tag, whether the reader takes it for void or not. */
  function Balanced(w: Writer, tag: string, attrs: map<string, string>, f: Forest): string {
    "<" + (tag + w(attrs)) + ">" + (WriteAll(w, f) + EndMark(tag))
  }

  lemma BalancedParts(w: Writer, input: string, tag: string, attrs: map<string, string>, f: Forest, a: nat, b: nat)
    requires input == Balanced(w, tag, attrs, f) && a == |tag + w(attrs)| + 2 && b == a + |WriteAll(w, f)|
    ensures Has(input, "<" + (tag + w(attrs)) + ">", 0) && Has(input, WriteAll(w, f), a) && Has(input, EndMark(tag), b)
    ensures |input| == b + |tag| + 3 && input[b] == '<'
  {
    var start := "<" + (tag + w(attrs)) + ">";
    assert input[0..|input|] == input;
    HasSplit(input, start, WriteAll(w, f) + EndMark(tag), 0);
    HasSplit(input, WriteAll(w, f), EndMark(tag), a);
    EndTagStarts(input, b, tag);
  }

  function BalancedTokens(w: Writer, tag: string, attrs: map<string, string>, f: Forest): seq<Token> {
    [StartTag(tag + w(attrs), true)] + (AllTokens(w, f) + [EndTag(tag, true)])
  }

  lemma ReadBalanced(
      lib: Library, w: Writer, input: string, next: Scanner, tag: string, attrs: map<string, string>, f: Forest)
    requires Standard(lib) && PlainTag(tag) && tag !in RAW && PlainAttrs(lib, w, attrs) && AllPlain(lib, w, f)
    requires input == Balanced(w, tag, attrs, f) && (AnyRaw(f) ==> MarksStay(lib, input)) && ScansWith(next, lib, input)
    ensures Reads(next, |input|, 0, |input|, BalancedTokens(w, tag, attrs, f))
  {
    var a := |tag + w(attrs)| + 2;
    var b := a + |WriteAll(w, f)|;
    BalancedParts(w, input, tag, attrs, f, a, b);
    assert ForestAt(lib, w, input, a, f);
    ReadForest(lib, w, input, next, a, f);
    ReadAround(lib, w, input, next, 0, tag, attrs, a, b, AllTokens(w, f));
  }

  lemma LexBalanced(lib: Library, w: Writer, input: string, tag: string, attrs: map<string, string>, f: Forest)
    requires Standard(lib) && PlainTag(tag) && tag !in RAW && PlainAttrs(lib, w, attrs) && AllPlain(lib, w, f)
    requires input == Balanced(w, tag, attrs, f) && (AnyRaw(f) ==> MarksStay(lib, input))
    ensures Lex(lib, input, 0) == BalancedTokens(w, tag, attrs, f)
  {
    var next: Scanner := (pos: nat) => if pos < |input| then Next(lib, input, pos) else (Text(""), pos);
    assert ScansWith(next, lib, input);
    ReadBalanced(lib, w, input, next, tag, attrs, f);
    LexIsScan(lib, input, 0, next);
    assert Scan(next, |input|, |input|) == [];
  }

  /** The end tag finds nothing to close: below it is only the root. */
  lemma StrayEnd(lib: Library, f: Forest, tag: string)
    requires PlainTag(tag) && LowersNames(lib)
    ensures Apply(lib, AddAll(ROOT, f), EndTag(tag, true)) == AddAll(ROOT, f)
  {
    WrittenCloseName(lib, tag);
  }

  lemma BuildVoid(lib: Library, w: Writer, apply: Builder, tag: string, attrs: map<string, string>, f: Forest)
    requires Standard(lib) && LowersNames(lib) && BuildsWith(apply, lib)
    requires PlainTag(tag) && tag in VOID && PlainAttrs(lib, w, attrs) && AllPlain(lib, w, f)
    ensures Fold(apply, ROOT, BalancedTokens(w, tag, attrs, f)) ==
            AddAll(ROOT, [Element(tag, attrs, [])] + AllDecoded(lib, f))
  {
    var first, last, inside := StartTag(tag + w(attrs), true), EndTag(tag, true), AllTokens(w, f);
    var node, later := Element(tag, attrs, []), AllDecoded(lib, f);
    var begun: Stack := AddChild(ROOT, node);
    FoldSplit(apply, ROOT, [first], inside + [last]);
    FoldSplit(apply, begun, inside, [last]);
    FoldOne(apply, ROOT, first);
    ApplyStart(lib, w, ROOT, tag, attrs);
    assert apply(ROOT, first) == Apply(lib, ROOT, first);
    BuildForest(lib, w, apply, begun, f);
    assert ([node] + later)[1..] == later;
    assert AddAll(begun, later) == AddAll(ROOT, [node] + later);
    FoldOne(apply, AddAll(begun, later), last);
    assert apply(AddAll(begun, later), last) == Apply(lib, AddAll(begun, later), last);
    StrayEnd(lib, [node] + later, tag);
  }

  /** A void element has no content: what is written inside comes after it, and its end tag is ignored. */
  lemma VoidContentFollows(lib: Library, w: Writer, tag: string, attrs: map<string, string>, f: Forest)
    requires Standard(lib) && LowersNames(lib)
    requires PlainTag(tag) && tag in VOID && PlainAttrs(lib, w, attrs) && AllPlain(lib, w, f)
    requires AnyRaw(f) ==> MarksStay(lib, Balanced(w, tag, attrs, f))
    ensures Parse(lib, Balanced(w, tag, attrs, f)) == [Element(tag, attrs, [])] + AllDecoded(lib, f)
  {
    var apply: Builder := (stack, token) => Apply(lib, stack, token);
    var trees := [Element(tag, attrs, [])] + AllDecoded(lib, f);
    assert BuildsWith(apply, lib);
    LexBalanced(lib, w, Balanced(w, tag, attrs, f), tag, attrs, f);
    BuildIsFold(lib, ROOT, BalancedTokens(w, tag, attrs, f), apply);
    BuildVoid(lib, w, apply, tag, attrs, f);
    AddAllIs(ROOT, trees);
    assert [] + trees == trees;
  }

  lemma BalancedIsWritten(lib: Library, w: Writer, tag: string, attrs: map<string, string>, f: Forest)
    requires PlainTag(tag) && tag !in VOID && tag !in RAW && PlainAttrs(lib, w, attrs) && AllPlain(lib, w, f)
    ensures var t := Element(tag, attrs, f);
            && WriteAll(w, [t]) == Balanced(w, tag, attrs, f) && AllPlain(lib, w, [t]) && (AnyRaw([t]) ==> AnyRaw(f))
            && AllDecoded(lib, [t]) == [Element(tag, attrs, AllDecoded(lib, f))]
  {
    var t := Element(tag, attrs, f);
    assert [t][1..] == [];
    assert WriteAll(w, [t]) == Write(w, t) + "";
    assert Plain(lib, w, t) && HasRaw(t) == AnyRaw(t.children);
    assert AnyRaw([t]) == (HasRaw([t][0]) || AnyRaw([t][1..]));
    assert AllDecoded(lib, [t]) == [Decoded(lib, t)] + [];
  }

  /** The balanced form of an element that is not a script or style reads back unless it is void and has content. */
  lemma BalancedReadsBackIff(lib: Library, w: Writer, tag: string, attrs: map<string, string>, f: Forest)
    requires Standard(lib) && LowersNames(lib)
    requires PlainTag(tag) && tag !in RAW && PlainAttrs(lib, w, attrs) && AllPlain(lib, w, f)
    requires AnyRaw(f) ==> MarksStay(lib, Balanced(w, tag, attrs, f))
    ensures Parse(lib, Balanced(w, tag, attrs, f)) == [Element(tag, attrs, AllDecoded(lib, f))] <==>
            tag !in VOID || f == []
  {
    if tag in VOID {
      VoidContentFollows(lib, w, tag, attrs, f);
    } else {
      BalancedIsWritten(lib, w, tag, attrs, f);
      ParseWritten(lib, w, [Element(tag, attrs, f)]);
    }
  }

  const NO_ATTRIBUTES: Writer := _ => ""

  lemma ConstructorPlain(lib: Library)
    requires lib.attributes("") == map[]
    ensures PlainTag("constructor") && PlainAttrs(lib, NO_ATTRIBUTES, map[]) && "constructor" in VOID
    ensures AllPlain(lib, NO_ATTRIBUTES, [TextNode("text")]) && !AnyRaw([TextNode("text")])
  {
    assert [TextNode("text")][1..] == [];
  }

  lemma ConstructorWritten()
    ensures Balanced(NO_ATTRIBUTES, "constructor", map[], [TextNode("text")]) == "<constructor>text</constructor>"
  {
    assert [TextNode("text")][1..] == [];
    assert WriteAll(NO_ATTRIBUTES, [TextNode("text")]) == "text";
    assert "constructor" + "" == "constructor";
  }

  /** `constructor` is no element of HTML, yet it loses its content. */
  lemma ConstructorIsVoid(lib: Library)
    requires Standard(lib) && LowersNames(lib) && lib.attributes("") == map[]
    ensures Parse(lib, "<constructor>text</constructor>") ==
            [Element("constructor", map[], []), TextNode(lib.decode("text"))]
  {
    var f := [TextNode("text")];
    ConstructorPlain(lib);
    ConstructorWritten();
    VoidContentFollows(lib, NO_ATTRIBUTES, "constructor", map[], f);
    assert f[1..] == [] && AllDecoded(lib, f) == [TextNode(lib.decode("text"))] + [];
  }
}
