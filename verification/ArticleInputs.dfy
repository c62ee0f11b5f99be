/** Inputs that are not balanced tags, and what they are read as: unclosed elements, cut-off tags, declarations. */
module ArticleInputs {
  import opened Common
  import opened ArticleTokens
  import opened ArticleTree
  import opened ArticleRoundTrip
  import opened ArticleClosing

  // ---------- Reading in pieces ----------

  function ScannerOf(lib: Library, input: string): Scanner {
    (pos: nat) => if pos < |input| then Next(lib, input, pos) else (Text(""), pos)
  }

  lemma ScannerScans(lib: Library, input: string)
    ensures ScansWith(ScannerOf(lib, input), lib, input)
  {}

  lemma LexRead(lib: Library, input: string, tokens: seq<Token>)
    requires Reads(ScannerOf(lib, input), |input|, 0, |input|, tokens)
    ensures Lex(lib, input, 0) == tokens
  {
    ScannerScans(lib, input);
    LexIsScan(lib, input, 0, ScannerOf(lib, input));
    assert Scan(ScannerOf(lib, input), |input|, |input|) == [];
  }

  function BuilderOf(lib: Library): Builder {
    (stack, token) => Apply(lib, stack, token)
  }

  lemma BuilderBuilds(lib: Library)
    ensures BuildsWith(BuilderOf(lib), lib)
  {}

  // ---------- Elements left open ----------

  /** A start tag. */
  function Start(w: Writer, tag: string, attrs: map<string, string>): string {
    "<" + (tag + w(attrs)) + ">"
  }

  /** Two elements are opened, one in the other, each with content. */
  function TwoOpen(
      w: Writer, t: string, at: map<string, string>, f: Forest, u: string, au: map<string, string>, g: Forest,
      rest: string): string
  {
    Start(w, t, at) + (WriteAll(w, f) + (Start(w, u, au) + (WriteAll(w, g) + rest)))
  }

  predicate OpensPlainly(lib: Library, w: Writer, tag: string, attrs: map<string, string>) {
    PlainTag(tag) && tag !in VOID && tag !in RAW && PlainAttrs(lib, w, attrs)
  }

  lemma ReadPlainForest(lib: Library, w: Writer, input: string, next: Scanner, a: nat, b: nat, f: Forest)
    requires Standard(lib) && ScansWith(next, lib, input) && AllPlain(lib, w, f)
    requires AnyRaw(f) ==> MarksStay(lib, input)
    requires Has(input, WriteAll(w, f), a) && b == a + |WriteAll(w, f)| && (b < |input| ==> input[b] == '<')
    ensures Reads(next, |input|, a, b, AllTokens(w, f))
  {
    assert ForestAt(lib, w, input, a, f);
    ReadForest(lib, w, input, next, a, f);
  }

  /** A start tag, and a forest after it that a tag or the end follows. */
  lemma ReadOpened(
      lib: Library, w: Writer, input: string, next: Scanner, pos: nat, a: nat, b: nat, tag: string,
      attrs: map<string, string>, f: Forest)
    requires Standard(lib) && ScansWith(next, lib, input) && OpensPlainly(lib, w, tag, attrs) && AllPlain(lib, w, f)
    requires AnyRaw(f) ==> MarksStay(lib, input)
    requires Has(input, Start(w, tag, attrs), pos) && a == pos + |Start(w, tag, attrs)|
    requires Has(input, WriteAll(w, f), a) && b == a + |WriteAll(w, f)| && (b < |input| ==> input[b] == '<')
    ensures Reads(next, |input|, pos, b, OpenedTokens(w, tag, attrs, f))
  {
    ReadStart(lib, w, input, next, pos, tag, attrs);
    ReadPlainForest(lib, w, input, next, a, b, f);
    ReadsMore(next, |input|, pos, a, b, [StartTag(tag + w(attrs), true)], AllTokens(w, f));
  }

  function OpenedTokens(w: Writer, tag: string, attrs: map<string, string>, f: Forest): seq<Token> {
    [StartTag(tag + w(attrs), true)] + AllTokens(w, f)
  }

  lemma StartBegins(w: Writer, tag: string, attrs: map<string, string>)
    ensures Start(w, tag, attrs) != "" && Start(w, tag, attrs)[0] == '<'
  {}

  lemma ReadTwoOpen(
      lib: Library, w: Writer, input: string, next: Scanner, t: string, at: map<string, string>, f: Forest, u: string,
      au: map<string, string>, g: Forest, rest: string, end: nat)
    requires Standard(lib) && OpensPlainly(lib, w, t, at) && OpensPlainly(lib, w, u, au)
    requires AllPlain(lib, w, f) && AllPlain(lib, w, g) && (AnyRaw(f) || AnyRaw(g) ==> MarksStay(lib, input))
    requires ScansWith(next, lib, input)
    requires input == TwoOpen(w, t, at, f, u, au, g, rest) && (rest != "" ==> rest[0] == '<')
    requires end + |rest| == |input|
    ensures Has(input, rest, end)
    ensures Reads(next, |input|, 0, end, OpenedTokens(w, t, at, f) + OpenedTokens(w, u, au, g))
  {
    var s1, s2 := Start(w, t, at), Start(w, u, au);
    var a := |s1|;
    var b := a + |WriteAll(w, f)|;
    var c := b + |s2|;
    TwoOpenParts(w, input, t, at, f, u, au, g, rest, a, b, c, end);
    ReadOpened(lib, w, input, next, 0, a, b, t, at, f);
    ReadOpened(lib, w, input, next, b, c, end, u, au, g);
    ReadsMore(next, |input|, 0, b, end, OpenedTokens(w, t, at, f), OpenedTokens(w, u, au, g));
  }

  lemma TwoOpenParts(
      w: Writer, input: string, t: string, at: map<string, string>, f: Forest, u: string, au: map<string, string>,
      g: Forest, rest: string, a: nat, b: nat, c: nat, end: nat)
    requires input == TwoOpen(w, t, at, f, u, au, g, rest) && (rest != "" ==> rest[0] == '<')
    requires a == |Start(w, t, at)| && b == a + |WriteAll(w, f)| && c == b + |Start(w, u, au)|
    requires end == c + |WriteAll(w, g)|
    ensures Has(input, Start(w, t, at), 0) && Has(input, WriteAll(w, f), a) && Has(input, Start(w, u, au), b)
    ensures Has(input, WriteAll(w, g), c) && Has(input, rest, end)
    ensures b < |input| && input[b] == '<' && (end < |input| ==> input[end] == '<')
  {
    FiveParts(input, Start(w, t, at), WriteAll(w, f), Start(w, u, au), WriteAll(w, g), rest);
    StartBegins(w, u, au);
    HasIndex(input, Start(w, u, au), b, 0);
    if rest != "" { HasIndex(input, rest, end, 0); }
  }

  lemma FiveParts(input: string, a: string, b: string, c: string, d: string, e: string)
    requires input == a + (b + (c + (d + e)))
    ensures Has(input, a, 0) && Has(input, b, |a|) && Has(input, c, |a| + |b|)
    ensures Has(input, d, |a| + |b| + |c|) && Has(input, e, |a| + |b| + |c| + |d|)
  {
    assert input[0..|input|] == input;
    HasSplit(input, a, b + (c + (d + e)), 0);
    HasSplit(input, b, c + (d + e), |a|);
    HasSplit(input, c, d + e, |a| + |b|);
    HasSplit(input, d, e, |a| + |b| + |c|);
  }

  lemma BuildOpened(lib: Library, w: Writer, stack: Stack, tag: string, attrs: map<string, string>, f: Forest)
    requires Standard(lib) && LowersNames(lib) && OpensPlainly(lib, w, tag, attrs) && AllPlain(lib, w, f)
    ensures Fold(BuilderOf(lib), stack, OpenedTokens(w, tag, attrs, f)) ==
            stack + [Frame(tag, attrs, AllDecoded(lib, f))]
  {
    var apply, first := BuilderOf(lib), StartTag(tag + w(attrs), true);
    var begun: Stack := stack + [Frame(tag, attrs, [])];
    BuilderBuilds(lib);
    FoldSplit(apply, stack, [first], AllTokens(w, f));
    FoldOne(apply, stack, first);
    ApplyStart(lib, w, stack, tag, attrs);
    assert apply(stack, first) == Apply(lib, stack, first);
    BuildForest(lib, w, apply, begun, f);
    AddAllIs(begun, AllDecoded(lib, f));
    assert [] + AllDecoded(lib, f) == AllDecoded(lib, f);
  }

  function BothOpen(t: Frame, u: Frame): Stack {
    ROOT + [t] + [u]
  }

  lemma BuildTwoOpen(
      lib: Library, w: Writer, t: string, at: map<string, string>, f: Forest, u: string, au: map<string, string>,
      g: Forest)
    requires Standard(lib) && LowersNames(lib) && OpensPlainly(lib, w, t, at) && OpensPlainly(lib, w, u, au)
    requires AllPlain(lib, w, f) && AllPlain(lib, w, g)
    ensures Fold(BuilderOf(lib), ROOT, OpenedTokens(w, t, at, f) + OpenedTokens(w, u, au, g)) ==
            BothOpen(Frame(t, at, AllDecoded(lib, f)), Frame(u, au, AllDecoded(lib, g)))
  {
    FoldSplit(BuilderOf(lib), ROOT, OpenedTokens(w, t, at, f), OpenedTokens(w, u, au, g));
    BuildOpened(lib, w, ROOT, t, at, f);
    BuildOpened(lib, w, ROOT + [Frame(t, at, AllDecoded(lib, f))], u, au, g);
  }

  lemma NestedTwo(t: Frame, u: Frame)
    ensures Nested([t, u]) == Element(t.tag, t.attrs, t.children + [Element(u.tag, u.attrs, u.children)])
  {
    assert [t, u][1..] == [u] && u.children + [] == u.children;
  }

  /** Elements that are never closed end with the input, each in the one opened before it. */
  lemma UnclosedAtEnd(
      lib: Library, w: Writer, t: string, at: map<string, string>, f: Forest, u: string, au: map<string, string>,
      g: Forest)
    requires Standard(lib) && LowersNames(lib) && OpensPlainly(lib, w, t, at) && OpensPlainly(lib, w, u, au)
    requires AllPlain(lib, w, f) && AllPlain(lib, w, g)
    requires AnyRaw(f) || AnyRaw(g) ==> MarksStay(lib, TwoOpen(w, t, at, f, u, au, g, ""))
    ensures Parse(lib, TwoOpen(w, t, at, f, u, au, g, "")) ==
            [Element(t, at, AllDecoded(lib, f) + [Element(u, au, AllDecoded(lib, g))])]
  {
    var tf, uf := Frame(t, at, AllDecoded(lib, f)), Frame(u, au, AllDecoded(lib, g));
    LexTwoOpen(lib, w, TwoOpen(w, t, at, f, u, au, g, ""), t, at, f, u, au, g);
    BuilderBuilds(lib);
    BuildIsFold(lib, ROOT, OpenedTokens(w, t, at, f) + OpenedTokens(w, u, au, g), BuilderOf(lib));
    BuildTwoOpen(lib, w, t, at, f, u, au, g);
    FinishTwo(tf, uf);
  }

  lemma LexTwoOpen(
      lib: Library, w: Writer, input: string, t: string, at: map<string, string>, f: Forest, u: string,
      au: map<string, string>, g: Forest)
    requires Standard(lib) && OpensPlainly(lib, w, t, at) && OpensPlainly(lib, w, u, au)
    requires AllPlain(lib, w, f) && AllPlain(lib, w, g) && (AnyRaw(f) || AnyRaw(g) ==> MarksStay(lib, input))
    requires input == TwoOpen(w, t, at, f, u, au, g, "")
    ensures Lex(lib, input, 0) == OpenedTokens(w, t, at, f) + OpenedTokens(w, u, au, g)
  {
    ScannerScans(lib, input);
    ReadTwoOpen(lib, w, input, ScannerOf(lib, input), t, at, f, u, au, g, "", |input|);
    LexRead(lib, input, OpenedTokens(w, t, at, f) + OpenedTokens(w, u, au, g));
  }

  lemma FinishTwo(t: Frame, u: Frame)
    ensures Finish(BothOpen(t, u)) == [Element(t.tag, t.attrs, t.children + [Element(u.tag, u.attrs, u.children)])]
  {
    FinishNests(BothOpen(t, u));
    assert BothOpen(t, u)[1..] == [t, u];
    NestedTwo(t, u);
  }

  function CrossedTokens(
      w: Writer, t: string, at: map<string, string>, f: Forest, u: string, au: map<string, string>, g: Forest,
      h: Forest)
    : seq<Token>
  {
    OpenedTokens(w, t, at, f) + OpenedTokens(w, u, au, g) + ([EndTag(t, true)] + AllTokens(w, h))
  }

  lemma ReadCrossed(
      lib: Library, w: Writer, input: string, next: Scanner, t: string, at: map<string, string>, f: Forest, u: string,
      au: map<string, string>, g: Forest, h: Forest)
    requires Standard(lib) && OpensPlainly(lib, w, t, at) && OpensPlainly(lib, w, u, au)
    requires AllPlain(lib, w, f) && AllPlain(lib, w, g) && AllPlain(lib, w, h) && ScansWith(next, lib, input)
    requires AnyRaw(f) || AnyRaw(g) || AnyRaw(h) ==> MarksStay(lib, input)
    requires input == TwoOpen(w, t, at, f, u, au, g, EndMark(t) + WriteAll(w, h))
    ensures Reads(next, |input|, 0, |input|, CrossedTokens(w, t, at, f, u, au, g, h))
  {
    var rest := EndMark(t) + WriteAll(w, h);
    var end := |input| - |rest|;
    ReadTwoOpen(lib, w, input, next, t, at, f, u, au, g, rest, end);
    ReadTail(lib, w, input, next, t, h, end);
    ReadsMore(next, |input|, 0, end, |input|, OpenedTokens(w, t, at, f) + OpenedTokens(w, u, au, g),
              [EndTag(t, true)] + AllTokens(w, h));
  }

  lemma ReadTail(lib: Library, w: Writer, input: string, next: Scanner, t: string, h: Forest, end: nat)
    requires Standard(lib) && ScansWith(next, lib, input) && PlainTag(t) && AllPlain(lib, w, h)
    requires AnyRaw(h) ==> MarksStay(lib, input)
    requires Has(input, EndMark(t) + WriteAll(w, h), end) && end + |EndMark(t) + WriteAll(w, h)| == |input|
    ensures Reads(next, |input|, end, |input|, [EndTag(t, true)] + AllTokens(w, h))
  {
    var later := end + |t| + 3;
    HasSplit(input, EndMark(t), WriteAll(w, h), end);
    ReadEnd(lib, input, next, end, t);
    ReadPlainForest(lib, w, input, next, later, |input|, h);
    ReadsMore(next, |input|, end, later, |input|, [EndTag(t, true)], AllTokens(w, h));
  }

  lemma BuildCrossed(lib: Library, w: Writer, tf: Frame, uf: Frame, h: Forest)
    requires Standard(lib) && LowersNames(lib) && AllPlain(lib, w, h) && PlainTag(tf.tag) && tf.tag != uf.tag
    ensures Fold(BuilderOf(lib), BothOpen(tf, uf), [EndTag(tf.tag, true)] + AllTokens(w, h)) ==
            AddAll(ROOT, [Nested([tf, uf])] + AllDecoded(lib, h))
  {
    var apply, stack, last := BuilderOf(lib), BothOpen(tf, uf), EndTag(tf.tag, true);
    var closed: Stack := AddChild(ROOT, Nested([tf, uf]));
    BuilderBuilds(lib);
    FoldSplit(apply, stack, [last], AllTokens(w, h));
    FoldOne(apply, stack, last);
    WrittenCloseName(lib, tf.tag);
    assert LastOpen(stack, tf.tag, 1);
    EndTagCloses(lib, stack, tf.tag, 1);
    assert stack[1..] == [tf, uf] && Folded(stack, 1) == closed;
    assert apply(stack, last) == Apply(lib, stack, last);
    BuildForest(lib, w, apply, closed, h);
    assert ([Nested([tf, uf])] + AllDecoded(lib, h))[1..] == AllDecoded(lib, h);
  }

  /** An end tag ends what was left open inside its element: that stays inside, and what follows comes after both. */
  lemma CrossedElements(
      lib: Library, w: Writer, t: string, at: map<string, string>, f: Forest, u: string, au: map<string, string>,
      g: Forest, h: Forest)
    requires Standard(lib) && LowersNames(lib) && OpensPlainly(lib, w, t, at) && OpensPlainly(lib, w, u, au) && t != u
    requires AllPlain(lib, w, f) && AllPlain(lib, w, g) && AllPlain(lib, w, h)
    requires AnyRaw(f) || AnyRaw(g) || AnyRaw(h) ==>
               MarksStay(lib, TwoOpen(w, t, at, f, u, au, g, EndMark(t) + WriteAll(w, h)))
    ensures Parse(lib, TwoOpen(w, t, at, f, u, au, g, EndMark(t) + WriteAll(w, h))) ==
            [Element(t, at, AllDecoded(lib, f) + [Element(u, au, AllDecoded(lib, g))])] + AllDecoded(lib, h)
  {
    var input := TwoOpen(w, t, at, f, u, au, g, EndMark(t) + WriteAll(w, h));
    var two, after := OpenedTokens(w, t, at, f) + OpenedTokens(w, u, au, g), [EndTag(t, true)] + AllTokens(w, h);
    var tf, uf := Frame(t, at, AllDecoded(lib, f)), Frame(u, au, AllDecoded(lib, g));
    var trees := [Nested([tf, uf])] + AllDecoded(lib, h);
    ScannerScans(lib, input);
    ReadCrossed(lib, w, input, ScannerOf(lib, input), t, at, f, u, au, g, h);
    LexRead(lib, input, two + after);
    BuilderBuilds(lib);
    BuildIsFold(lib, ROOT, two + after, BuilderOf(lib));
    FoldSplit(BuilderOf(lib), ROOT, two, after);
    BuildTwoOpen(lib, w, t, at, f, u, au, g);
    BuildCrossed(lib, w, tf, uf, h);
    AddAllIs(ROOT, trees);
    assert [] + trees == trees;
    NestedTwo(tf, uf);
  }

  // ---------- The inside of a start tag ----------

  predicate AllSpace(s: string) {
    forall c :: c in s ==> Space(c)
  }

  predicate Tight(s: string) {
    s != "" ==> !Space(s[0]) && !Space(s[|s| - 1])
  }

  lemma {:induction false} TrimStartPad(a: string, s: string)
    requires AllSpace(a) && (s != "" ==> !Space(s[0]))
    ensures TrimStart(a + s) == s
  {
    if a == "" {
      assert a + s == s;
    } else {
      assert a[0] in a;
      ConsSplit(a, s);
      TrimStartPad(a[1..], s);
    }
  }

  lemma {:induction false} TrimEndPad(s: string, b: string)
    requires AllSpace(b) && (s != "" ==> !Space(s[|s| - 1]))
    ensures TrimEnd(s + b) == s
    decreases |b|
  {
    if b == "" {
      assert s + b == s;
    } else {
      var n := |b| - 1;
      assert b[n] in b;
      assert (s + b)[..|s + b| - 1] == s + b[..n];
      TrimEndPad(s, b[..n]);
    }
  }

  /** Spaces around do not count. */
  lemma TrimPads(a: string, s: string, b: string)
    requires AllSpace(a) && AllSpace(b) && Tight(s)
    ensures Trim(a + s + b) == s
  {
    if s == "" {
      assert a + s + b == (a + b) + "";
      TrimStartPad(a + b, "");
    } else {
      assert a + s + b == a + (s + b);
      TrimStartPad(a, s + b);
      TrimEndPad(s, b);
    }
  }

  /** Capitals become the small letters at their place in the alphabet; everything else stays. */
  lemma LowerCased(s: string, i: nat)
    requires i < |s|
    ensures AsciiLower(s)[i] == if 'A' <= s[i] <= 'Z' then 'a' + (s[i] - 'A') else s[i]
  {}

  predicate NameText(name: string) {
    name != "" && forall c :: c in name ==> NameChar(c)
  }

  /** What may follow the name: nothing, or text that neither continues it nor ends like a tag does. */
  predicate AttributeText(rest: string) {
    rest != "" ==> !NameChar(rest[0]) && !Space(rest[|rest| - 1]) && rest[|rest| - 1] !in {'/', '?'}
  }

  lemma NameThenRest(name: string, rest: string)
    requires NameText(name) && AttributeText(rest)
    ensures Tight(name + rest) && (name + rest)[|name + rest| - 1] !in {'/', '?'}
    ensures Span(name + rest, NameChar) == |name|
  {
    forall i | 0 <= i < |name| ensures NameChar((name + rest)[i]) { assert name[i] in name; }
    NamesNotSpaces((name + rest)[0]);
    if rest == "" { NamesNotSpaces(name[|name| - 1]); }
    SpanIs(name + rest, NameChar, |name|);
  }

  lemma HeadFrom(
      attributes: string -> map<string, string>, content: string, trimmed: string, name: string, rest: string,
      closed: bool)
    requires NameText(name) && AttributeText(rest) && Trim(content) == trimmed
    requires if closed then trimmed != "" && trimmed[|trimmed| - 1] in {'/', '?'}
                            && Trim(trimmed[..|trimmed| - 1]) == name + rest
             else trimmed == name + rest
    ensures ReadHead(attributes, content) == Some(Head(AsciiLower(name), attributes(rest), closed))
  {
    NameThenRest(name, rest);
    assert (name + rest)[..|name|] == name && (name + rest)[|name|..] == rest;
  }

  lemma PaddedOpen(before: string, inside: string, between: string, after: string)
    requires AllSpace(before) && AllSpace(between) && AllSpace(after) && Tight(inside)
    ensures Trim(before + (inside + (between + "")) + after) == inside
  {
    assert before + (inside + (between + "")) + after == before + inside + (between + after);
    TrimPads(before, inside, between + after);
  }

  lemma PaddedClosed(before: string, inside: string, between: string, close: string, after: string)
    requires AllSpace(before) && AllSpace(between) && AllSpace(after) && Tight(inside) && inside != ""
    requires close in {"/", "?"}
    ensures Trim(before + (inside + (between + close)) + after) == inside + (between + close)
    ensures var trimmed := inside + (between + close);
            && trimmed[|trimmed| - 1] in {'/', '?'} && Trim(trimmed[..|trimmed| - 1]) == inside
  {
    var trimmed := inside + (between + close);
    TrimPads(before, trimmed, after);
    assert trimmed[..|trimmed| - 1] == "" + inside + between;
    TrimPads("", inside, between);
  }

  /**
    A start tag has the name it begins with, in small letters, and the attributes of what follows; a closing slash or
    question mark makes it self-closing, and spaces at either end or before that do not count.
  */
  lemma HeadOf(
      attributes: string -> map<string, string>, before: string, name: string, rest: string, between: string,
      close: string, after: string)
    requires NameText(name) && AttributeText(rest) && close in {"", "/", "?"}
    requires AllSpace(before) && AllSpace(between) && AllSpace(after)
    ensures ReadHead(attributes, before + (name + rest + (between + close)) + after) ==
            Some(Head(AsciiLower(name), attributes(rest), close != ""))
  {
    var content := before + (name + rest + (between + close)) + after;
    NameThenRest(name, rest);
    if close == "" {
      PaddedOpen(before, name + rest, between, after);
      HeadFrom(attributes, content, name + rest, name, rest, false);
    } else {
      PaddedClosed(before, name + rest, between, close, after);
      HeadFrom(attributes, content, name + rest + (between + close), name, rest, true);
    }
  }

  lemma {:induction false} TrimEndKeepsStart(s: string)
    requires s != "" && !Space(s[0])
    ensures TrimEnd(s) != "" && TrimEnd(s)[0] == s[0]
    decreases |s|
  {
    if Space(s[|s| - 1]) { TrimEndKeepsStart(s[..|s| - 1]); }
  }

  /** A tag that begins with no name, spaces aside, is none. */
  lemma HeadOfNone(attributes: string -> map<string, string>, before: string, c: char, rest: string)
    requires AllSpace(before) && !Space(c) && !NameChar(c)
    ensures ReadHead(attributes, before + ([c] + rest)) == None
  {
    TrimStartPad(before, [c] + rest);
    TrimEndKeepsStart([c] + rest);
    var trimmed := TrimEnd([c] + rest);
    if trimmed[|trimmed| - 1] in {'/', '?'} && |trimmed| > 1 {
      var cut := trimmed[..|trimmed| - 1];
      assert TrimStart(cut) == cut;
      TrimEndKeepsStart(cut);
    }
  }

  /** The void elements of HTML, and the two names that every object of the source language answers to. */
  lemma VoidNames(tag: string)
    ensures tag in VOID <==>
            || tag in ["area", "base", "br", "col", "embed", "hr", "img"]
            || tag in ["input", "link", "meta", "param", "source", "track", "wbr"]
            || tag == "constructor" || tag == "__proto__"
  {}

  // ---------- One token before plain trees ----------

  lemma LexAfter(lib: Library, w: Writer, input: string, k: Token, a: nat, f: Forest)
    requires Standard(lib) && AllPlain(lib, w, f) && (AnyRaw(f) ==> MarksStay(lib, input))
    requires input != "" && Next(lib, input, 0) == (k, a)
    requires Has(input, WriteAll(w, f), a) && a + |WriteAll(w, f)| == |input|
    ensures Lex(lib, input, 0) == [k] + AllTokens(w, f)
  {
    var next := ScannerOf(lib, input);
    ScannerScans(lib, input);
    ReadNext(lib, input, next, 0, a, k);
    ReadPlainForest(lib, w, input, next, a, |input|, f);
    ReadsMore(next, |input|, 0, a, |input|, [k], AllTokens(w, f));
    LexRead(lib, input, [k] + AllTokens(w, f));
  }

  /** A token that leaves `nodes` under the root, and the trees after it. */
  lemma ParseAfter(lib: Library, w: Writer, input: string, k: Token, a: nat, f: Forest, nodes: Forest)
    requires Standard(lib) && LowersNames(lib) && AllPlain(lib, w, f) && (AnyRaw(f) ==> MarksStay(lib, input))
    requires input != "" && Next(lib, input, 0) == (k, a)
    requires Has(input, WriteAll(w, f), a) && a + |WriteAll(w, f)| == |input|
    requires Apply(lib, ROOT, k) == AddAll(ROOT, nodes)
    ensures Parse(lib, input) == nodes + AllDecoded(lib, f)
  {
    var apply, begun := BuilderOf(lib), AddAll(ROOT, nodes);
    LexAfter(lib, w, input, k, a, f);
    BuilderBuilds(lib);
    BuildIsFold(lib, ROOT, [k] + AllTokens(w, f), apply);
    FoldSplit(apply, ROOT, [k], AllTokens(w, f));
    FoldOne(apply, ROOT, k);
    assert apply(ROOT, k) == Apply(lib, ROOT, k);
    BuildForest(lib, w, apply, begun, f);
    AddAllIs(ROOT, nodes);
    AddAllIs(begun, AllDecoded(lib, f));
    assert [] + nodes == nodes;
  }

  lemma AddOne(t: Tree)
    ensures AddAll(ROOT, [t]) == AddChild(ROOT, t)
  {
    assert [t][1..] == [];
  }

  lemma MarkupIs(lib: Library, input: string, open: string)
    requires Has(input, open, 0) && open in {"<![CDATA[", "<!", "<?", "</"}
    requires open == "<!" ==> !At(input, "<![CDATA[", 0) && !At(input, "<!--", 0)
    ensures input != "" && input[0] == '<' && At(input, open, 0)
    ensures open == "<![CDATA[" ==> Next(lib, input, 0) == NextMarkup(lib, input, 0)
    ensures open in {"<!", "<?"} ==> Next(lib, input, 0) == NextMarkup(lib, input, 0)
    ensures open == "<?" ==> !At(input, "<![CDATA[", 0) && !At(input, "<!--", 0)
  {
    HasAt(input, open, 0);
    HasIndex(input, open, 0, 0);
    HasIndex(input, open, 0, 1);
    if At(input, "<![CDATA[", 0) { AtIndex(input, "<![CDATA[", 0, 1); }
    if At(input, "<!--", 0) { AtIndex(input, "<!--", 0, 1); }
  }

  lemma CDataAt(lib: Library, input: string, text: string, rest: string)
    requires input == "<![CDATA[" + (text + "]]>" + rest) && NoEarlyEnd(text, "]]>")
    ensures input != "" && Next(lib, input, 0) == (CData(text, true), |text| + 12)
    ensures Has(input, rest, |text| + 12) && |text| + 12 + |rest| == |input|
  {
    assert input[0..|input|] == input;
    HasSplit(input, "<![CDATA[", text + "]]>" + rest, 0);
    HasSplit(input, text + "]]>", rest, 9);
    MarkupIs(lib, input, "<![CDATA[");
    RunsToMark(input, 9, text, "]]>");
  }

  /** CDATA is text as it stands, with no references decoded. */
  lemma CDataIsText(lib: Library, w: Writer, text: string, f: Forest)
    requires Standard(lib) && LowersNames(lib) && AllPlain(lib, w, f) && NoEarlyEnd(text, "]]>")
    requires AnyRaw(f) ==> MarksStay(lib, "<![CDATA[" + (text + "]]>" + WriteAll(w, f)))
    ensures Parse(lib, "<![CDATA[" + (text + "]]>" + WriteAll(w, f))) == [TextNode(text)] + AllDecoded(lib, f)
  {
    var input := "<![CDATA[" + (text + "]]>" + WriteAll(w, f));
    CDataAt(lib, input, text, WriteAll(w, f));
    AddOne(TextNode(text));
    ParseAfter(lib, w, input, CData(text, true), |text| + 12, f, [TextNode(text)]);
  }

  lemma DeclarationAt(lib: Library, input: string, open: string, text: string, rest: string)
    requires input == open + text + ">" + rest && open in {"<!", "<?"} && '>' !in text
    requires open == "<!" ==> !Has(text, "--", 0) && !Has(text, "[CDATA[", 0)
    ensures var a := |text| + 3;
            && input != "" && a <= |input| && Next(lib, input, 0) == (Declaration(input[0..a]), a)
            && Has(input, rest, a) && a + |rest| == |input|
  {
    assert input[0..|input|] == input;
    HasSplit(input, open + text + ">", rest, 0);
    HasSplit(input, open + text, ">", 0);
    HasSplit(input, open, text, 0);
    HasIndex(input, ">", 2 + |text|, 0);
    if open == "<!" {
      NotComment(input, text);
      NotCData(input, text);
    }
    MarkupIs(lib, input, open);
    DeclarationEnd(input, open, text);
  }

  /** A declaration or processing instruction leaves nothing. */
  lemma DeclarationIgnored(lib: Library, w: Writer, open: string, text: string, f: Forest)
    requires Standard(lib) && LowersNames(lib) && AllPlain(lib, w, f) && open in {"<!", "<?"} && '>' !in text
    requires open == "<!" ==> !Has(text, "--", 0) && !Has(text, "[CDATA[", 0)
    requires AnyRaw(f) ==> MarksStay(lib, open + text + ">" + WriteAll(w, f))
    ensures Parse(lib, open + text + ">" + WriteAll(w, f)) == AllDecoded(lib, f)
  {
    var input := open + text + ">" + WriteAll(w, f);
    DeclarationAt(lib, input, open, text, WriteAll(w, f));
    ParseAfter(lib, w, input, Declaration(input[0..|text| + 3]), |text| + 3, f, []);
    assert [] + AllDecoded(lib, f) == AllDecoded(lib, f);
  }

  lemma NotComment(input: string, text: string)
    requires Has(input, text, 2) && 2 + |text| < |input| && input[2 + |text|] == '>' && !Has(text, "--", 0)
    ensures !At(input, "<!--", 0)
  {
    if |text| >= 2 {
      HasIndex(input, text, 2, 0);
      HasIndex(input, text, 2, 1);
      assert text[0..2] == [text[0], text[1]];
    }
    AtOnly(input, "<!--", 0, 2);
    AtOnly(input, "<!--", 0, 3);
  }

  lemma AtOnly(s: string, a: string, i: nat, k: nat)
    requires k < |a|
    ensures At(s, a, i) ==> i + k < |s| && s[i + k] == a[k]
  {
    if At(s, a, i) { AtIndex(s, a, i, k); }
  }

  lemma NotCData(input: string, text: string)
    requires Has(input, text, 2) && 2 + |text| < |input| && input[2 + |text|] == '>' && !Has(text, "[CDATA[", 0)
    ensures !At(input, "<![CDATA[", 0)
  {
    if |text| >= 7 {
      var k :| 0 <= k < 7 && text[0..7][k] != "[CDATA["[k] by { Differ(text[0..7], "[CDATA["); }
      HasIndex(input, text, 2, k);
      AtOnly(input, "<![CDATA[", 0, k + 2);
    } else {
      AtOnly(input, "<![CDATA[", 0, |text| + 2);
    }
  }

  lemma Differ(a: string, b: string)
    requires a != b && |a| == |b|
    ensures exists k :: 0 <= k < |a| && a[k] != b[k]
  {}

  /** The declaration ends at the first closing bracket. */
  lemma DeclarationEnd(input: string, open: string, text: string)
    requires Has(input, open, 0) && open in {"<!", "<?"} && Has(input, text, 2) && '>' !in text
    requires Has(input, ">", 2 + |text|)
    ensures IndexOf(input, ">", 0) == Some(2 + |text|)
  {
    HasAt(input, ">", 2 + |text|);
    HasIndex(input, ">", 2 + |text|, 0);
    forall k: nat | k < 2 + |text| ensures !At(input, ">", k) {
      AtChar(input, '>', k);
      if k < 2 { HasIndex(input, open, 0, k); } else { HasIndex(input, text, 2, k - 2); }
    }
    IndexIs(input, ">", 0, 2 + |text|);
  }

  lemma SelfClosingHead(lib: Library, name: string, rest: string, between: string, close: string, content: string)
    requires Standard(lib) && NameText(name) && AttributeText(rest) && AllSpace(between) && close in {"/", "?"}
    requires content == name + rest + (between + close)
    ensures lib.head(content) == Some(Head(AsciiLower(name), lib.attributes(rest), true))
  {
    assert "" + content + "" == content;
    HeadOf(lib.attributes, "", name, rest, between, close, "");
  }

  lemma LeafApplied(lib: Library, content: string, head: Head)
    requires lib.head(content) == Some(head) && head.selfClosing
    ensures Apply(lib, ROOT, StartTag(content, true)) == AddAll(ROOT, [Element(head.tag, head.attrs, [])])
  {
    AddOne(Element(head.tag, head.attrs, []));
  }

  lemma NameFirst(name: string, rest: string)
    requires NameText(name)
    ensures name + rest != "" && (name + rest)[0] !in {'!', '?', '/'}
  {
    assert name[0] in name;
    NamesNotSpaces(name[0]);
  }

  /** A self-closing start tag is an element without content, whatever its name. */
  lemma SelfClosing(
      lib: Library, w: Writer, name: string, rest: string, between: string, close: string, f: Forest, content: string)
    requires Standard(lib) && LowersNames(lib) && AllPlain(lib, w, f)
    requires NameText(name) && AttributeText(rest) && AllSpace(between) && close in {"/", "?"}
    requires content == name + rest + (between + close) && '>' !in content
    requires AnyRaw(f) ==> MarksStay(lib, "<" + content + ">" + WriteAll(w, f))
    ensures Parse(lib, "<" + content + ">" + WriteAll(w, f)) ==
            [Element(AsciiLower(name), lib.attributes(rest), [])] + AllDecoded(lib, f)
  {
    SelfClosingHead(lib, name, rest, between, close, content);
    LeafApplied(lib, content, Head(AsciiLower(name), lib.attributes(rest), true));
    assert content == name + (rest + (between + close));
    NameFirst(name, rest + (between + close));
    ParseTag(lib, w, "<" + content + ">" + WriteAll(w, f), content, f,
             [Element(AsciiLower(name), lib.attributes(rest), [])]);
  }

  /** A start tag that leaves `nodes`, and the trees after it. */
  lemma ParseTag(lib: Library, w: Writer, input: string, content: string, f: Forest, nodes: Forest)
    requires Standard(lib) && LowersNames(lib) && AllPlain(lib, w, f) && (AnyRaw(f) ==> MarksStay(lib, input))
    requires input == "<" + content + ">" + WriteAll(w, f) && content != "" && '>' !in content
    requires content[0] !in {'!', '?', '/'} && (lib.head(content).None? || Leaf(lib.head(content).value))
    requires Apply(lib, ROOT, StartTag(content, true)) == AddAll(ROOT, nodes)
    ensures Parse(lib, input) == nodes + AllDecoded(lib, f)
  {
    TagTextAt(lib, input, content, content[0], WriteAll(w, f));
    ParseAfter(lib, w, input, StartTag(content, true), |content| + 2, f, nodes);
  }

  lemma TagTextAt(lib: Library, input: string, content: string, c: char, rest: string)
    requires input == "<" + content + ">" + rest && content != "" && content[0] == c && '>' !in content
    requires c !in {'!', '?', '/'} && (lib.head(content).None? || Leaf(lib.head(content).value))
    ensures input != "" && Next(lib, input, 0) == (StartTag(content, true), |content| + 2)
    ensures Has(input, rest, |content| + 2) && |content| + 2 + |rest| == |input|
  {
    assert input[0..|input|] == input;
    HasSplit(input, "<" + content + ">", rest, 0);
    HasSplit(input, "<" + content, ">", 0);
    HasSplit(input, "<", content, 0);
    HasIndex(input, "<", 0, 0);
    HasIndex(input, content, 1, 0);
    EnclosedTo(input, content, '>', 1);
    MarkupIsStartTag(lib, input, 0);
  }

  lemma NamelessHead(lib: Library, c: char, rest: string, content: string)
    requires Standard(lib) && !Space(c) && !NameChar(c) && content == [c] + rest
    ensures lib.head(content) == None
  {
    assert "" + content == content;
    HeadOfNone(lib.attributes, "", c, rest);
  }

  lemma NamelessApplied(lib: Library, content: string)
    requires lib.head(content) == None
    ensures Apply(lib, ROOT, StartTag(content, true)) == AddAll(ROOT, [])
  {}

  /** A start tag without a name leaves nothing. */
  lemma NamelessTagIgnored(lib: Library, w: Writer, c: char, rest: string, f: Forest, content: string)
    requires Standard(lib) && LowersNames(lib) && AllPlain(lib, w, f) && content == [c] + rest
    requires !Space(c) && !NameChar(c) && c !in {'!', '?', '/', '>'} && '>' !in rest
    requires AnyRaw(f) ==> MarksStay(lib, "<" + content + ">" + WriteAll(w, f))
    ensures Parse(lib, "<" + content + ">" + WriteAll(w, f)) == AllDecoded(lib, f)
  {
    NamelessHead(lib, c, rest, content);
    NamelessApplied(lib, content);
    ParseTag(lib, w, "<" + content + ">" + WriteAll(w, f), content, f, []);
    assert [] + AllDecoded(lib, f) == AllDecoded(lib, f);
  }

  // ---------- Cut off ----------

  lemma LexBefore(lib: Library, w: Writer, input: string, f: Forest, tail: string, k: Token)
    requires Standard(lib) && AllPlain(lib, w, f) && (AnyRaw(f) ==> MarksStay(lib, input))
    requires input == WriteAll(w, f) + tail && tail != "" && tail[0] == '<'
    requires Next(lib, input, |WriteAll(w, f)|) == (k, |input|)
    ensures Lex(lib, input, 0) == AllTokens(w, f) + [k]
  {
    var next, a := ScannerOf(lib, input), |WriteAll(w, f)|;
    ScannerScans(lib, input);
    assert input[0..|input|] == input;
    HasSplit(input, WriteAll(w, f), tail, 0);
    HasIndex(input, tail, a, 0);
    ReadPlainForest(lib, w, input, next, 0, a, f);
    ReadNext(lib, input, next, a, |input|, k);
    ReadsMore(next, |input|, 0, a, |input|, AllTokens(w, f), [k]);
    LexRead(lib, input, AllTokens(w, f) + [k]);
  }

  lemma NoBracket(input: string, needle: string, start: nat)
    requires needle != "" && needle[|needle| - 1] == '>' && start <= |input| && '>' !in input[start..]
    ensures IndexOf(input, needle, start) == None
  {
    var last := |needle| - 1;
    forall k: nat | start <= k ensures !At(input, needle, k) {
      AtOnly(input, needle, k, last);
      assert k + last < |input| ==> input[k + last] in input[start..] by {
        if k + last < |input| { assert input[start..][k + last - start] == input[k + last]; }
      }
    }
  }

  /** What comes of a tag that the input ends in: a token that was not ended. */
  lemma CutOffToken(lib: Library, input: string, a: nat)
    requires a < |input| && input[a] == '<' && '>' !in input[a..]
    ensures var (k, next) := Next(lib, input, a);
            && next == |input|
            && match k
               case CData(text, ended) => !ended && At(input, "<![CDATA[", a) && text == input[a + 9..]
               case Comment(_, ended) => !ended && !At(input, "<![CDATA[", a)
               case Declaration(_) => !At(input, "<![CDATA[", a)
               case EndTag(_, ended) => !ended && !At(input, "<![CDATA[", a)
               case StartTag(_, ended) => !ended && !At(input, "<![CDATA[", a)
               case _ => false
  {
    forall k: nat | a <= k <= |input| ensures '>' !in input[k..] { assert input[k..] == input[a..][k - a..]; }
    NoBracket(input, ">", a);
    NoBracket(input, ">", a + 1);
    if At(input, "<![CDATA[", a) { NoBracket(input, "]]>", a + 9); }
    if At(input, "<!--", a) { NoBracket(input, "-->", a + 4); }
    if At(input, "</", a) { NoBracket(input, ">", a + 2); }
  }

  /** A tag, comment or declaration that the input ends in is dropped; a CDATA section is text to the end. */
  lemma CutOffDropped(lib: Library, w: Writer, f: Forest, tail: string)
    requires Standard(lib) && LowersNames(lib) && AllPlain(lib, w, f)
    requires tail != "" && tail[0] == '<' && '>' !in tail && (AnyRaw(f) ==> MarksStay(lib, WriteAll(w, f) + tail))
    ensures Parse(lib, WriteAll(w, f) + tail) ==
            AllDecoded(lib, f) + if At(tail, "<![CDATA[", 0) then [TextNode(tail[9..])] else []
  {
    var input, a := WriteAll(w, f) + tail, |WriteAll(w, f)|;
    var (k, end) := Next(lib, input, a);
    assert input[a..] == tail;
    CutOffToken(lib, input, a);
    LexBefore(lib, w, input, f, tail, k);
    BuildBefore(lib, w, f, k);
    CDataAtTail(input, tail, a);
    CutOffApplied(lib, AllDecoded(lib, f), k, input, a);
    if At(tail, "<![CDATA[", 0) { assert input[a + 9..] == tail[9..]; }
  }

  lemma BuildBefore(lib: Library, w: Writer, f: Forest, k: Token)
    requires Standard(lib) && LowersNames(lib) && AllPlain(lib, w, f)
    ensures Build(lib, ROOT, AllTokens(w, f) + [k]) == Apply(lib, AddAll(ROOT, AllDecoded(lib, f)), k)
  {
    var apply, stack := BuilderOf(lib), AddAll(ROOT, AllDecoded(lib, f));
    BuilderBuilds(lib);
    BuildIsFold(lib, ROOT, AllTokens(w, f) + [k], apply);
    FoldSplit(apply, ROOT, AllTokens(w, f), [k]);
    BuildForest(lib, w, apply, ROOT, f);
    FoldOne(apply, stack, k);
    assert apply(stack, k) == Apply(lib, stack, k);
  }

  lemma CutOffApplied(lib: Library, trees: Forest, k: Token, input: string, a: nat)
    requires a < |input|
    requires match k
             case CData(text, _) => At(input, "<![CDATA[", a) && text == input[a + 9..]
             case Comment(_, ended) => !ended && !At(input, "<![CDATA[", a)
             case Declaration(_) => !At(input, "<![CDATA[", a)
             case EndTag(_, ended) => !ended && !At(input, "<![CDATA[", a)
             case StartTag(_, ended) => !ended && !At(input, "<![CDATA[", a)
             case _ => false
    ensures Finish(Apply(lib, AddAll(ROOT, trees), k)) ==
            trees + if At(input, "<![CDATA[", a) then [TextNode(input[a + 9..])] else []
  {
    AddAllIs(ROOT, trees);
    assert [] + trees == trees && trees + [] == trees;
  }

  lemma CDataAtTail(input: string, tail: string, a: nat)
    requires a <= |input| && input[a..] == tail
    ensures At(input, "<![CDATA[", a) <==> At(tail, "<![CDATA[", 0)
  {
    HasAt(input, "<![CDATA[", a);
    HasAt(tail, "<![CDATA[", 0);
    if |tail| >= 9 { assert input[a..a + 9] == tail[0..9]; }
  }
}
