/** The building half: what each token does to the open elements, and what the finished tree holds. */
module ArticleTree {
  import opened Common
  import opened ArticleTokens

  datatype Tree =
    | Element(tag: string, attrs: map<string, string>, children: seq<Tree>)
    | TextNode(text: string)
    | CommentNode(text: string)

  type Forest = seq<Tree>

  /** An open element, with the children it has so far. The bottom one is the root. */
  datatype Frame = Frame(tag: string, attrs: map<string, string>, children: Forest)

  type Stack = q: seq<Frame> | |q| >= 1 witness [Frame("", map[], [])]

  const ROOT: Stack := [Frame("", map[], [])]

  // ---------- Building ----------

  function AddChild(stack: Stack, child: Tree): Stack {
    var top := |stack| - 1;
    stack[top := stack[top].(children := stack[top].children + [child])]
  }

  /** Close the top element: it becomes the last child of the one below. */
  function CloseTop(stack: Stack): Stack
    requires |stack| > 1
  {
    var top := stack[|stack| - 1];
    AddChild(stack[..|stack| - 1], Element(top.tag, top.attrs, top.children))
  }

  function CloseDownTo(stack: Stack, height: nat): Stack
    requires 1 <= height <= |stack|
    decreases |stack|
  {
    if |stack| == height then stack else CloseDownTo(CloseTop(stack), height)
  }

  /** The height of the nearest open element of that name; the root has none. 0 when nothing matches. */
  function Matching(stack: Stack, name: string): (i: nat)
    ensures i < |stack|
    ensures i > 0 ==> stack[i].tag == name
    ensures forall j :: i < j < |stack| && j > 0 ==> stack[j].tag != name
    decreases |stack|
  {
    if |stack| == 1 then 0
    else if stack[|stack| - 1].tag == name then |stack| - 1
    else Matching(stack[..|stack| - 1], name)
  }

  /** An end tag closes the nearest open element of its name, and everything inside; others are ignored. */
  function Close(stack: Stack, name: string): Stack {
    var i := Matching(stack, name);
    if i == 0 then stack else CloseDownTo(stack, i)
  }

  function Apply(lib: Library, stack: Stack, token: Token): Stack {
    match token
    case Text(text) => AddChild(stack, TextNode(lib.decode(text)))
    case CData(text, _) => AddChild(stack, TextNode(text))
    case Comment(text, ended) => if ended then AddChild(stack, CommentNode(text)) else stack
    case Declaration(_) => stack
    case EndTag(text, ended) => if ended then Close(stack, CloseName(lib, text)) else stack
    case StartTag(text, ended) =>
      (match lib.head(text)
       case None => stack
       case Some(head) =>
         if !ended then stack
         else if Leaf(head) then AddChild(stack, Element(head.tag, head.attrs, []))
         else stack + [Frame(head.tag, head.attrs, [])])
    case RawElement(text, raw, _) =>
      (match lib.head(text)
       case None => stack
       case Some(head) => AddChild(stack, Element(head.tag, head.attrs, [TextNode(raw)])))
  }

  function Build(lib: Library, stack: Stack, tokens: seq<Token>): Stack
    decreases |tokens|
  {
    if tokens == [] then stack else Build(lib, Apply(lib, stack, tokens[0]), tokens[1..])
  }

  /** The root's children once every element still open is closed. */
  function Finish(stack: Stack): Forest {
    CloseDownTo(stack, 1)[0].children
  }

  function Parse(lib: Library, input: string): Forest {
    Finish(Build(lib, ROOT, Lex(lib, input, 0)))
  }

  // ---------- The texts, in order ----------

  /** The texts of a forest's text nodes, in document order; `raw` says whether those of scripts and styles count. */
  function Texts(f: Forest, raw: bool): seq<string> {
    if f == [] then [] else TreeTexts(f[0], raw) + Texts(f[1..], raw)
  }

  function TreeTexts(t: Tree, raw: bool): seq<string> {
    match t
    case Element(tag, _, children) => if tag in RAW && !raw then [] else Texts(children, raw)
    case TextNode(text) => [text]
    case CommentNode(_) => []
  }

  /** The text a token stands for. */
  function TokenTexts(lib: Library, token: Token, raw: bool): seq<string> {
    match token
    case Text(text) => [lib.decode(text)]
    case CData(text, _) => [text]
    case RawElement(_, text, _) => if raw then [text] else []
    case _ => []
  }

  function AllTokenTexts(lib: Library, tokens: seq<Token>, raw: bool): seq<string> {
    if tokens == [] then [] else TokenTexts(lib, tokens[0], raw) + AllTokenTexts(lib, tokens[1..], raw)
  }

  /** The texts on the stack: an open element is inside the one below it, after that one's children. */
  function StackTexts(stack: seq<Frame>, raw: bool): seq<string> {
    if stack == [] then [] else StackTexts(stack[..|stack| - 1], raw) + Texts(stack[|stack| - 1].children, raw)
  }

  /** Scripts and styles are never open: their content is read with their start tag. */
  ghost predicate NoneRaw(stack: seq<Frame>) {
    forall i :: 0 <= i < |stack| ==> stack[i].tag !in RAW
  }

  /** What the scanner guarantees of a token. */
  predicate Scanned(lib: Library, k: Token) {
    && (k.RawElement? ==> lib.head(k.text).Some? && lib.head(k.text).value.tag in RAW)
    && (k.StartTag? && k.ended && lib.head(k.text).Some? && !Leaf(lib.head(k.text).value) ==>
      lib.head(k.text).value.tag !in RAW)
  }

  lemma StartTokenScanned(lib: Library, input: string, content: string, start: nat)
    requires start <= |input|
    ensures Scanned(lib, StartToken(lib, input, content, start).0)
  {}

  lemma StartTagScanned(lib: Library, input: string, pos: nat)
    requires pos < |input| && input[pos] == '<'
    ensures Scanned(lib, NextStartTag(lib, input, pos).0)
  {
    var (content, ended, next) := Enclosed(input, pos + 1, ">");
    if ended { StartTokenScanned(lib, input, content, next); }
  }

  lemma MarkupScanned(lib: Library, input: string, pos: nat)
    requires pos < |input| && input[pos] == '<' && Scanned(lib, NextStartTag(lib, input, pos).0)
    ensures Scanned(lib, NextMarkup(lib, input, pos).0)
  {
    var k := NextMarkup(lib, input, pos).0;
    assert k == NextStartTag(lib, input, pos).0 || k.CData? || k.Comment? || k.Declaration? || k.EndTag?;
  }

  lemma NextScanned(lib: Library, input: string, pos: nat)
    requires pos < |input|
    ensures Scanned(lib, Next(lib, input, pos).0)
  {
    if input[pos] == '<' {
      StartTagScanned(lib, input, pos);
      MarkupScanned(lib, input, pos);
    }
  }

  lemma {:induction false} LexScanned(lib: Library, input: string, pos: nat)
    ensures forall k :: k in Lex(lib, input, pos) ==> Scanned(lib, k)
    decreases |input| - pos
  {
    if pos < |input| {
      LexCons(lib, input, pos);
      NextScanned(lib, input, pos);
      LexScanned(lib, input, Next(lib, input, pos).1);
    }
  }

  lemma {:induction false} TextsAppend(f: Forest, t: Tree, raw: bool)
    ensures Texts(f + [t], raw) == Texts(f, raw) + TreeTexts(t, raw)
  {
    if f == [] {
      assert [t][1..] == [];
    } else {
      TextsAppend(f[1..], t, raw);
      ConsSplit(f, [t]);
      Associative(TreeTexts(f[0], raw), Texts(f[1..], raw), TreeTexts(t, raw));
    }
  }

  lemma AddChildTexts(stack: Stack, t: Tree, raw: bool)
    requires NoneRaw(stack)
    ensures StackTexts(AddChild(stack, t), raw) == StackTexts(stack, raw) + TreeTexts(t, raw)
    ensures NoneRaw(AddChild(stack, t)) && |AddChild(stack, t)| == |stack|
  {
    var top := |stack| - 1;
    TextsAppend(stack[top].children, t, raw);
    assert AddChild(stack, t)[..top] == stack[..top];
  }

  lemma {:induction false} CloseTexts(stack: Stack, height: nat, raw: bool)
    requires 1 <= height <= |stack| && NoneRaw(stack)
    ensures StackTexts(CloseDownTo(stack, height), raw) == StackTexts(stack, raw)
    ensures NoneRaw(CloseDownTo(stack, height)) && |CloseDownTo(stack, height)| == height
    decreases |stack|
  {
    if |stack| > height {
      var top := stack[|stack| - 1];
      AddChildTexts(stack[..|stack| - 1], Element(top.tag, top.attrs, top.children), raw);
      CloseTexts(CloseTop(stack), height, raw);
    }
  }

  lemma StartTexts(lib: Library, stack: Stack, token: Token, raw: bool)
    requires NoneRaw(stack) && Scanned(lib, token) && token.StartTag?
    ensures StackTexts(Apply(lib, stack, token), raw) == StackTexts(stack, raw)
    ensures NoneRaw(Apply(lib, stack, token))
  {
    if token.ended && lib.head(token.text).Some? {
      var head := lib.head(token.text).value;
      AddChildTexts(stack, Element(head.tag, head.attrs, []), raw);
      assert (stack + [Frame(head.tag, head.attrs, [])])[..|stack|] == stack;
    }
  }

  /** Each token adds its own text after all those before, wherever in the tree that is. */
  lemma ApplyTexts(lib: Library, stack: Stack, token: Token, raw: bool)
    requires NoneRaw(stack) && Scanned(lib, token)
    ensures StackTexts(Apply(lib, stack, token), raw) == StackTexts(stack, raw) + TokenTexts(lib, token, raw)
    ensures NoneRaw(Apply(lib, stack, token))
  {
    match token
    case Text(text) => AddChildTexts(stack, TextNode(lib.decode(text)), raw);
    case CData(text, _) => AddChildTexts(stack, TextNode(text), raw);
    case Comment(text, _) => AddChildTexts(stack, CommentNode(text), raw);
    case Declaration(_) =>
    case EndTag(text, _) =>
      var i := Matching(stack, CloseName(lib, text));
      if i > 0 { CloseTexts(stack, i, raw); }
    case StartTag(_, _) => StartTexts(lib, stack, token, raw);
    case RawElement(text, rawText, _) =>
      var head := lib.head(text).value;
      AddChildTexts(stack, Element(head.tag, head.attrs, [TextNode(rawText)]), raw);
      assert Texts([TextNode(rawText)], raw) == [rawText];
  }

  lemma {:induction false} BuildTexts(lib: Library, stack: Stack, tokens: seq<Token>, raw: bool)
    requires NoneRaw(stack) && forall k :: k in tokens ==> Scanned(lib, k)
    ensures StackTexts(Build(lib, stack, tokens), raw) == StackTexts(stack, raw) + AllTokenTexts(lib, tokens, raw)
    ensures NoneRaw(Build(lib, stack, tokens))
    decreases |tokens|
  {
    if tokens != [] {
      assert tokens[0] in tokens;
      ApplyTexts(lib, stack, tokens[0], raw);
      BuildTexts(lib, Apply(lib, stack, tokens[0]), tokens[1..], raw);
    }
  }

  lemma RootTexts(stack: Stack, raw: bool)
    requires NoneRaw(stack)
    ensures Texts(Finish(stack), raw) == StackTexts(stack, raw)
  {
    CloseTexts(stack, 1, raw);
    var root := CloseDownTo(stack, 1);
    assert root[..0] == [] && StackTexts([], raw) == [];
  }

  /**
    The texts of the parsed tree, in document order, are the input's text, CDATA and raw segments in the order
    they stand in the input, whatever tags are unbalanced or never closed. Without the raw segments, they are
    the texts outside scripts and styles.
  */
  lemma TextsInInputOrder(lib: Library, input: string, raw: bool)
    ensures Texts(Parse(lib, input), raw) == AllTokenTexts(lib, Lex(lib, input, 0), raw)
  {
    LexScanned(lib, input, 0);
    BuildTexts(lib, ROOT, Lex(lib, input, 0), raw);
    RootTexts(Build(lib, ROOT, Lex(lib, input, 0)), raw);
    assert ROOT[..0] == [] && StackTexts(ROOT, raw) == [];
  }

  // ---------- Text content and search ----------

  /** The visible text of a node: scripts, styles and comments have none. */
  function GetTextContent(t: Tree): string {
    match t
    case TextNode(text) => text
    case CommentNode(_) => ""
    case Element(tag, _, children) => if tag == "script" || tag == "style" then "" else TextContents(children)
  }

  function TextContents(f: Forest): string {
    if f == [] then "" else GetTextContent(f[0]) + TextContents(f[1..])
  }

  function Concat(q: seq<string>): string {
    if q == [] then "" else q[0] + Concat(q[1..])
  }

  lemma {:induction false} ConcatSplit(p: seq<string>, q: seq<string>)
    ensures Concat(p + q) == Concat(p) + Concat(q)
  {
    if p == [] {
      assert p + q == q;
    } else {
      ConcatSplit(p[1..], q);
      ConsSplit(p, q);
      Associative(p[0], Concat(p[1..]), Concat(q));
    }
  }

  lemma {:induction false} ContentIsTexts(f: Forest)
    ensures TextContents(f) == Concat(Texts(f, false))
  {
    if f != [] {
      ContentIsTexts(f[1..]);
      ConcatSplit(TreeTexts(f[0], false), Texts(f[1..], false));
      match f[0]
      case Element(_, _, children) => ContentIsTexts(children);
      case TextNode(text) => assert [text][1..] == [];
      case CommentNode(_) =>
    }
  }

  /** The text content of a parsed document is its decoded text and its CDATA, joined in input order. */
  lemma ParsedTextContent(lib: Library, input: string)
    ensures TextContents(Parse(lib, input)) == Concat(AllTokenTexts(lib, Lex(lib, input, 0), false))
  {
    ContentIsTexts(Parse(lib, input));
    TextsInInputOrder(lib, input, false);
  }

  /** All nodes of a forest, each before its children. */
  function Preorder(f: Forest): seq<Tree> {
    if f == [] then [] else [f[0]] + Below(f[0]) + Preorder(f[1..])
  }

  function Below(t: Tree): seq<Tree> {
    if t.Element? then Preorder(t.children) else []
  }

  function Matches(nodes: seq<Tree>, p: Tree -> bool): seq<Tree> {
    if nodes == [] then [] else (if p(nodes[0]) then [nodes[0]] else []) + Matches(nodes[1..], p)
  }

  lemma {:induction false} MatchesSplit(a: seq<Tree>, b: seq<Tree>, p: Tree -> bool)
    ensures Matches(a + b, p) == Matches(a, p) + Matches(b, p)
  {
    if a == [] {
      assert a + b == b;
    } else {
      MatchesSplit(a[1..], b, p);
      ConsSplit(a, b);
      Associative(if p(a[0]) then [a[0]] else [], Matches(a[1..], p), Matches(b, p));
    }
  }

  lemma MatchesOne(t: Tree, p: Tree -> bool)
    ensures Matches([t], p) == if p(t) then [t] else []
  {
    assert [t][1..] == [];
  }

  lemma MatchesNode(t: Tree, p: Tree -> bool)
    ensures Matches([t] + Below(t), p) == (if p(t) then [t] else []) + Matches(Below(t), p)
  {
    MatchesSplit([t], Below(t), p);
    MatchesOne(t, p);
  }

  lemma MatchesCons(f: Forest, p: Tree -> bool)
    requires f != []
    ensures Matches(Preorder(f), p) == Matches([f[0]] + Below(f[0]), p) + Matches(Preorder(f[1..]), p)
  {
    MatchesSplit([f[0]] + Below(f[0]), Preorder(f[1..]), p);
  }

  lemma MatchesStep(r: seq<Tree>, f: Forest, p: Tree -> bool)
    requires f != []
    ensures r + Matches([f[0]] + Below(f[0]), p) + Matches(Preorder(f[1..]), p) == r + Matches(Preorder(f), p)
  {
    MatchesCons(f, p);
  }

  function FindFirst(t: Tree, p: Tree -> bool): Option<Tree> {
    if p(t) then Some(t) else if t.Element? then FindFirstIn(t.children, p) else None
  }

  function FindFirstIn(f: Forest, p: Tree -> bool): Option<Tree> {
    if f == [] then None else
    var found := FindFirst(f[0], p);
    if found.Some? then found else FindFirstIn(f[1..], p)
  }

  function First<T>(q: seq<T>): Option<T> {
    if q == [] then None else Some(q[0])
  }

  /** The walk that collects every match, children after their parent. */
  method FindNodes(t: Tree, p: Tree -> bool, results: seq<Tree>) returns (r: seq<Tree>)
    ensures r == results + Matches([t] + Below(t), p)
    decreases t
  {
    MatchesNode(t, p);
    r := if p(t) then results + [t] else results;
    if t.Element? {
      ghost var start := r;
      for i := 0 to |t.children|
        invariant r + Matches(Preorder(t.children[i..]), p) == start + Matches(Preorder(t.children), p)
      {
        assert t.children[i..][0] == t.children[i] && t.children[i..][1..] == t.children[i + 1..];
        MatchesStep(r, t.children[i..], p);
        r := FindNodes(t.children[i], p, r);
      }
      assert t.children[|t.children|..] == [] && Matches(Preorder([]), p) == [];
      assert r == start + Matches(Below(t), p);
    }
  }

  lemma FirstOfSum<T>(a: seq<T>, b: seq<T>)
    ensures First(a + b) == if a == [] then First(b) else First(a)
  {
    if a == [] { assert a + b == b; }
  }

  /** Stopping at the first match finds the first of all matches. */
  lemma {:induction false} FindFirstIsFirst(t: Tree, p: Tree -> bool)
    ensures FindFirst(t, p) == First(Matches([t] + Below(t), p))
    decreases t, 1
  {
    MatchesNode(t, p);
    FirstOfSum(if p(t) then [t] else [], Matches(Below(t), p));
    if t.Element? { FindFirstInIsFirst(t.children, p); }
  }

  lemma {:induction false} FindFirstInIsFirst(f: Forest, p: Tree -> bool)
    ensures FindFirstIn(f, p) == First(Matches(Preorder(f), p))
    decreases f, 0
  {
    if f != [] {
      MatchesCons(f, p);
      FirstOfSum(Matches([f[0]] + Below(f[0]), p), Matches(Preorder(f[1..]), p));
      FindFirstIsFirst(f[0], p);
      FindFirstInIsFirst(f[1..], p);
    }
  }
}
