/**
  The reader as code: one loop over the input that keeps a stack of open nodes and mutates their children.
  It is proved to build exactly the tree that scanning and then building defines.
*/
module ArticleParser {
  import opened Common
  import opened ArticleTokens
  import opened ArticleTree
  import T = ArticleTree

  datatype Kind = RootKind | ElementKind | TextKind | CommentKind

  class Node {
    const kind: Kind
    const tag: string
    const attrs: map<string, string>
    const text: string
    var children: seq<Node>

    constructor (kind: Kind, tag: string, attrs: map<string, string>, text: string)
      ensures this.kind == kind && this.tag == tag && this.attrs == attrs && this.text == text && children == []
    {
      this.kind, this.tag, this.attrs, this.text := kind, tag, attrs, text;
      children := [];
    }
  }

  // ---------- What nodes stand for ----------

  /** The node, with all nodes below it in `closed`, is this tree. */
  ghost predicate Represents(n: Node, t: Tree, closed: set<Node>)
    reads closed
    decreases t
  {
    && n in closed
    && match t
       case Element(tag, attrs, children) =>
         n.kind.ElementKind? && n.tag == tag && n.attrs == attrs && AllRepresent(n.children, children, closed)
       case TextNode(text) => n.kind.TextKind? && n.text == text
       case CommentNode(text) => n.kind.CommentKind? && n.text == text
  }

  ghost predicate AllRepresent(nodes: seq<Node>, f: Forest, closed: set<Node>)
    reads closed
    decreases f
  {
    |nodes| == |f| && forall j :: 0 <= j < |f| ==> Represents(nodes[j], f[j], closed)
  }

  lemma {:induction false} MoreClosed(n: Node, t: Tree, closed: set<Node>, more: set<Node>)
    requires Represents(n, t, closed) && closed <= more
    ensures Represents(n, t, more)
    decreases t
  {
    if t.Element? { AllMoreClosed(n.children, t.children, closed, more); }
  }

  lemma {:induction false} AllMoreClosed(nodes: seq<Node>, f: Forest, closed: set<Node>, more: set<Node>)
    requires AllRepresent(nodes, f, closed) && closed <= more
    ensures AllRepresent(nodes, f, more)
    decreases f
  {
    forall j | 0 <= j < |f| ensures Represents(nodes[j], f[j], more) { MoreClosed(nodes[j], f[j], closed, more); }
  }

  /** An open node has the children of its frame, and then, as its last child, the open node above it. */
  ghost predicate OpenNode(stack: seq<Node>, frames: Stack, closed: set<Node>, i: nat)
    requires i < |stack| == |frames|
    reads closed, stack[i]
  {
    var n, f := stack[i], frames[i];
    && n !in closed && n.tag == f.tag && n.attrs == f.attrs && n.kind == (if i == 0 then RootKind else ElementKind)
    && |n.children| == |f.children| + (if i + 1 < |stack| then 1 else 0)
    && AllRepresent(n.children[..|f.children|], f.children, closed)
    && (i + 1 < |stack| ==> n.children[|f.children|] == stack[i + 1])
  }

  /** The stack is a path of last children from the root down. */
  ghost predicate Holds(stack: seq<Node>, frames: Stack, closed: set<Node>)
    reads closed, stack
  {
    && |stack| == |frames|
    && (forall i, j :: 0 <= i < j < |stack| ==> stack[i] != stack[j])
    && (forall i {:trigger OpenNode(stack, frames, closed, i)} ::
          0 <= i < |stack| ==> OpenNode(stack, frames, closed, i))
  }

  ghost function Nodes(stack: seq<Node>, closed: set<Node>): set<Node> {
    closed + set n | n in stack
  }

  // ---------- Pushing and popping ----------

  method AddNode(stack: seq<Node>, child: Node, ghost t: Tree, ghost below: set<Node>,
                 ghost frames: Stack, ghost closed: set<Node>)
    requires Holds(stack, frames, closed)
    requires Represents(child, t, below) && below !! Nodes(stack, closed)
    modifies stack[|stack| - 1]
    ensures Holds(stack, T.AddChild(frames, t), closed + below)
  {
    var top := |stack| - 1;
    ghost var after := T.AddChild(frames, t);
    assert OpenNode(stack, frames, closed, top);
    stack[top].children := stack[top].children + [child];
    forall i | 0 <= i < |stack| ensures OpenNode(stack, after, closed + below, i) {
      assert old(OpenNode(stack, frames, closed, i));
      AllMoreClosed(stack[i].children[..|frames[i].children|], frames[i].children, closed, closed + below);
      if i == top { MoreClosed(child, t, below, closed + below); }
    }
  }

  method Open(stack: seq<Node>, node: Node, ghost frames: Stack, ghost closed: set<Node>) returns (r: seq<Node>)
    requires Holds(stack, frames, closed) && node !in Nodes(stack, closed)
    requires node.kind.ElementKind? && node.children == []
    modifies stack[|stack| - 1]
    ensures r == stack + [node] && Holds(r, frames + [Frame(node.tag, node.attrs, [])], closed)
  {
    var top := |stack| - 1;
    assert OpenNode(stack, frames, closed, top);
    stack[top].children := stack[top].children + [node];
    r := stack + [node];
    ghost var after: Stack := frames + [Frame(node.tag, node.attrs, [])];
    forall i | 0 <= i < |r| ensures OpenNode(r, after, closed, i) {
      if i <= top { assert old(OpenNode(stack, frames, closed, i)); }
    }
  }

  lemma CloseTopHolds(stack: seq<Node>, frames: Stack, closed: set<Node>)
    requires Holds(stack, frames, closed) && |stack| > 1
    ensures Holds(stack[..|stack| - 1], CloseTop(frames), closed + {stack[|stack| - 1]})
  {
    var top := |stack| - 1;
    var node, frame := stack[top], frames[top];
    var more := closed + {node};
    assert OpenNode(stack, frames, closed, top);
    AllMoreClosed(node.children[..|frame.children|], frame.children, closed, more);
    assert node.children[..|frame.children|] == node.children;
    assert Represents(node, Element(frame.tag, frame.attrs, frame.children), more);
    var after := CloseTop(frames);
    forall i | 0 <= i < top ensures OpenNode(stack[..top], after, more, i) {
      assert OpenNode(stack, frames, closed, i);
      AllMoreClosed(stack[i].children[..|frames[i].children|], frames[i].children, closed, more);
    }
  }

  /** Cutting the stack changes no node: what is cut off was in place all along. */
  lemma {:induction false} CloseHolds(stack: seq<Node>, frames: Stack, closed: set<Node>, height: nat)
    returns (more: set<Node>)
    requires Holds(stack, frames, closed) && 1 <= height <= |stack|
    ensures Holds(stack[..height], CloseDownTo(frames, height), more) && closed <= more <= Nodes(stack, closed)
    decreases |stack|
  {
    if height == |stack| {
      more := closed;
      assert stack[..height] == stack;
    } else {
      CloseTopHolds(stack, frames, closed);
      var top := |stack| - 1;
      more := CloseHolds(stack[..top], CloseTop(frames), closed + {stack[top]}, height);
      assert stack[..top][..height] == stack[..height];
    }
  }

  // ---------- Rounds ----------

  method AddText(stack: seq<Node>, text: string, ghost frames: Stack, ghost closed: set<Node>)
    returns (ghost more: set<Node>)
    requires Holds(stack, frames, closed)
    modifies stack[|stack| - 1]
    ensures Holds(stack, T.AddChild(frames, TextNode(text)), more) && closed <= more && fresh(more - closed)
  {
    var node := new Node(TextKind, "", map[], text);
    AddNode(stack, node, TextNode(text), {node}, frames, closed);
    more := closed + {node};
  }

  /** An end tag cuts the stack below the nearest open node of its name, if there is one. */
  method CloseNamed(stack: seq<Node>, name: string, ghost frames: Stack, ghost closed: set<Node>)
    returns (r: seq<Node>, ghost more: set<Node>)
    requires Holds(stack, frames, closed)
    ensures Holds(r, Close(frames, name), more) && Nodes(r, more) <= Nodes(stack, closed) && r[0] == stack[0]
    ensures (forall j :: 0 < j < |stack| ==> stack[j].tag != name) ==> r == stack
    ensures forall i :: 0 < i < |stack| && stack[i].tag == name ==>
              (forall j :: i < j < |stack| ==> stack[j].tag != name) ==> r == stack[..i]
  {
    r, more := stack, closed;
    var i := |stack| - 1;
    while i > 0
      invariant 0 <= i < |stack|
      invariant Matching(frames, name) == Matching(frames[..i + 1], name)
      invariant forall j :: i < j < |stack| ==> stack[j].tag != name
    {
      assert OpenNode(stack, frames, closed, i);
      if stack[i].tag == name {
        r := stack[..i];
        more := CloseHolds(stack, frames, closed, i);
        return;
      }
      assert frames[..i + 1][..i] == frames[..i];
      i := i - 1;
    }
  }

  method ReadRaw(lib: Library, input: string, ghost content: string, start: nat, stack: seq<Node>, node: Node,
                 ghost frames: Stack, ghost closed: set<Node>)
    returns (next: nat, ghost more: set<Node>)
    requires Holds(stack, frames, closed) && start <= |input|
    requires node.kind.ElementKind? && node !in Nodes(stack, closed)
    modifies stack[|stack| - 1], node
    ensures var r := NextRaw(lib, input, content, node.tag, start);
            && next == r.1
            && Holds(stack, T.AddChild(frames, Element(node.tag, node.attrs, [TextNode(r.0.raw)])), more)
    ensures fresh(more - closed - {node})
  {
    var close := "</" + node.tag + ">";
    var closeIdx := IndexOf(lib.lower(input), close, start);
    var raw := if closeIdx.None? then input[start..] else Slice(input, start, closeIdx.value);
    var text := new Node(TextKind, "", map[], raw);
    node.children := [text];
    ghost var below := {node, text};
    assert Represents(text, TextNode(raw), below);
    AddNode(stack, node, Element(node.tag, node.attrs, [TextNode(raw)]), below, frames, closed);
    more := closed + below;
    next := if closeIdx.None? then |input| else closeIdx.value + |close|;
  }

  /** The element of a start tag is added, with its raw text if it has that, or opened. */
  method PlaceElement(lib: Library, input: string, ghost content: string, head: Head, start: nat, stack: seq<Node>,
                      ghost frames: Stack, ghost closed: set<Node>)
    returns (r: seq<Node>, next: nat, ghost more: set<Node>)
    requires Holds(stack, frames, closed) && start <= |input| && lib.head(content) == Some(head)
    modifies stack[|stack| - 1]
    ensures var token := StartToken(lib, input, content, start);
            next == token.1 && Holds(r, Apply(lib, frames, token.0), more)
    ensures r[0] == stack[0] && fresh(Nodes(r, more) - Nodes(stack, closed))
  {
    r, next, more := stack, start, closed;
    var node := new Node(ElementKind, head.tag, head.attrs, "");
    if Leaf(head) {
      AddNode(stack, node, Element(head.tag, head.attrs, []), {node}, frames, closed);
      more := closed + {node};
    } else if head.tag in RAW {
      next, more := ReadRaw(lib, input, content, start, stack, node, frames, closed);
    } else {
      r := Open(stack, node, frames, closed);
    }
  }

  method PlaceContent(lib: Library, input: string, content: string, start: nat, stack: seq<Node>,
                      ghost frames: Stack, ghost closed: set<Node>)
    returns (r: seq<Node>, next: nat, ghost more: set<Node>)
    requires Holds(stack, frames, closed) && start <= |input|
    modifies stack[|stack| - 1]
    ensures var token := StartToken(lib, input, content, start);
            next == token.1 && Holds(r, Apply(lib, frames, token.0), more)
    ensures r[0] == stack[0] && fresh(Nodes(r, more) - Nodes(stack, closed))
  {
    r, next, more := stack, start, closed;
    var read := lib.head(content);
    if read.None? { return; }
    r, next, more := PlaceElement(lib, input, content, read.value, start, stack, frames, closed);
  }

  lemma StartTagToken(lib: Library, input: string, pos: nat, end: Option<nat>)
    requires pos < |input| && input[pos] == '<' && end == IndexOf(input, ">", pos + 1)
    ensures NextStartTag(lib, input, pos) ==
            if end.None? then (StartTag(input[pos + 1..], false), |input|)
            else StartToken(lib, input, input[pos + 1..end.value], end.value + 1)
  {
    var r := Enclosed(input, pos + 1, ">");
    assert r == if end.None? then (input[pos + 1..], false, |input|)
                else (input[pos + 1..end.value], true, end.value + 1);
  }

  method ReadStartTag(
      lib: Library, input: string, pos: nat, stack: seq<Node>, ghost frames: Stack, ghost closed: set<Node>)
    returns (r: seq<Node>, next: nat, ghost more: set<Node>)
    requires Holds(stack, frames, closed) && pos < |input| && input[pos] == '<'
    modifies stack[|stack| - 1]
    ensures next == NextStartTag(lib, input, pos).1
    ensures Holds(r, Apply(lib, frames, NextStartTag(lib, input, pos).0), more)
    ensures r[0] == stack[0] && fresh(Nodes(r, more) - Nodes(stack, closed))
  {
    r, more := stack, closed;
    var tagEnd := IndexOf(input, ">", pos + 1);
    StartTagToken(lib, input, pos, tagEnd);
    if tagEnd.None? { return r, |input|, more; }
    var content := input[pos + 1..tagEnd.value];
    r, next, more := PlaceContent(lib, input, content, tagEnd.value + 1, stack, frames, closed);
  }

  method ReadCData(input: string, pos: nat, stack: seq<Node>, ghost frames: Stack, ghost closed: set<Node>)
    returns (next: nat, ghost more: set<Node>)
    requires Holds(stack, frames, closed) && pos + 9 <= |input|
    modifies stack[|stack| - 1]
    ensures var r := Enclosed(input, pos + 9, "]]>");
            next == r.2 && Holds(stack, T.AddChild(frames, TextNode(r.0)), more)
    ensures closed <= more && fresh(more - closed)
  {
    var end := IndexOf(input, "]]>", pos + 9);
    if end.None? {
      more := AddText(stack, input[pos + 9..], frames, closed);
      next := |input|;
    } else {
      more := AddText(stack, input[pos + 9..end.value], frames, closed);
      next := end.value + 3;
    }
  }

  method ReadComment(input: string, pos: nat, stack: seq<Node>, ghost frames: Stack, ghost closed: set<Node>)
    returns (next: nat, ghost more: set<Node>)
    requires Holds(stack, frames, closed) && pos + 4 <= |input|
    modifies stack[|stack| - 1]
    ensures var r := Enclosed(input, pos + 4, "-->");
            next == r.2 && Holds(stack, if r.1 then T.AddChild(frames, CommentNode(r.0)) else frames, more)
    ensures closed <= more && fresh(more - closed)
  {
    more := closed;
    var end := IndexOf(input, "-->", pos + 4);
    if end.None? { return |input|, more; }
    var node := new Node(CommentKind, "", map[], input[pos + 4..end.value]);
    AddNode(stack, node, CommentNode(node.text), {node}, frames, closed);
    more := closed + {node};
    next := end.value + 3;
  }

  method ReadMarkup(
      lib: Library, input: string, pos: nat, stack: seq<Node>, ghost frames: Stack, ghost closed: set<Node>)
    returns (r: seq<Node>, next: nat, ghost more: set<Node>)
    requires Holds(stack, frames, closed) && pos < |input| && input[pos] == '<'
    modifies stack[|stack| - 1]
    ensures next == NextMarkup(lib, input, pos).1
    ensures Holds(r, Apply(lib, frames, NextMarkup(lib, input, pos).0), more)
    ensures r[0] == stack[0] && fresh(Nodes(r, more) - Nodes(stack, closed))
  {
    r, more := stack, closed;
    if At(input, "<![CDATA[", pos) {
      next, more := ReadCData(input, pos, stack, frames, closed);
      return;
    }
    if At(input, "<!--", pos) {
      next, more := ReadComment(input, pos, stack, frames, closed);
      return;
    }
    if At(input, "<!", pos) || At(input, "<?", pos) {
      var end := IndexOf(input, ">", pos);
      next := if end.None? then |input| else end.value + 1;
      return;
    }
    if At(input, "</", pos) {
      var end := IndexOf(input, ">", pos + 2);
      if end.None? { return r, |input|, more; }
      r, more := CloseNamed(stack, CloseName(lib, input[pos + 2..end.value]), frames, closed);
      return r, end.value + 1, more;
    }
    r, next, more := ReadStartTag(lib, input, pos, stack, frames, closed);
  }

  lemma Round(lib: Library, input: string, pos: nat, frames: Stack, token: Token, next: nat)
    requires pos < |input| && Next(lib, input, pos) == (token, next)
    ensures Build(lib, frames, Lex(lib, input, pos)) == Build(lib, Apply(lib, frames, token), Lex(lib, input, next))
  {
    LexCons(lib, input, pos);
  }

  /** The text before the next tag, if there is any. */
  method ReadText(lib: Library, input: string, pos: nat, stack: seq<Node>, ghost frames: Stack, ghost closed: set<Node>)
    returns (next: nat, ghost after: Stack, ghost more: set<Node>)
    requires Holds(stack, frames, closed) && pos < |input|
    modifies stack[|stack| - 1]
    ensures pos <= next <= |input| && (next < |input| ==> input[next] == '<') && Holds(stack, after, more)
    ensures Build(lib, after, Lex(lib, input, next)) == Build(lib, frames, Lex(lib, input, pos))
    ensures closed <= more && fresh(more - closed)
  {
    after, more := frames, closed;
    if input[pos] == '<' { return pos, after, more; }
    var nextLt := IndexOf(input, "<", pos);
    next := if nextLt.None? then |input| else nextLt.value;
    more := AddText(stack, lib.decode(input[pos..next]), frames, closed);
    after := Apply(lib, frames, Text(input[pos..next]));
    assert next == TextEnd(input, pos);
    Round(lib, input, pos, frames, Text(input[pos..next]), next);
  }

  method ReadTag(lib: Library, input: string, pos: nat, stack: seq<Node>, ghost frames: Stack, ghost closed: set<Node>)
    returns (r: seq<Node>, next: nat, ghost after: Stack, ghost more: set<Node>)
    requires Holds(stack, frames, closed) && pos < |input| && input[pos] == '<'
    modifies stack[|stack| - 1]
    ensures next > pos && Holds(r, after, more)
    ensures Build(lib, after, Lex(lib, input, next)) == Build(lib, frames, Lex(lib, input, pos))
    ensures r[0] == stack[0] && fresh(Nodes(r, more) - Nodes(stack, closed))
  {
    ghost var token := NextMarkup(lib, input, pos).0;
    Round(lib, input, pos, frames, token, NextMarkup(lib, input, pos).1);
    r, next, more := ReadMarkup(lib, input, pos, stack, frames, closed);
    after := Apply(lib, frames, token);
  }

  /** Whatever is still open at the end of the input is where it belongs in the tree. */
  lemma FinishHolds(stack: seq<Node>, frames: Stack, closed: set<Node>) returns (all: set<Node>)
    requires Holds(stack, frames, closed)
    ensures AllRepresent(stack[0].children, Finish(frames), all) && all <= Nodes(stack, closed)
    ensures OpenNode(stack, frames, closed, 0)
  {
    all := CloseHolds(stack, frames, closed, 1);
    assert OpenNode(stack, frames, closed, 0);
    var root := CloseDownTo(frames, 1);
    assert OpenNode(stack[..1], root, all, 0);
    assert stack[0].children[..|root[0].children|] == stack[0].children;
  }

  method ReadAll(lib: Library, input: string, root: Node)
    returns (stack: seq<Node>, ghost frames: Stack, ghost closed: set<Node>)
    requires Holds([root], ROOT, {})
    modifies root
    ensures Holds(stack, frames, closed) && stack[0] == root && fresh(Nodes(stack, closed) - {root})
    ensures frames == Build(lib, ROOT, Lex(lib, input, 0))
  {
    stack, frames, closed := [root], ROOT, {};
    var pos := 0;
    ghost var whole := Build(lib, ROOT, Lex(lib, input, 0));
    while pos < |input|
      invariant Holds(stack, frames, closed) && stack[0] == root && fresh(Nodes(stack, closed) - {root})
      invariant Build(lib, frames, Lex(lib, input, pos)) == whole
      decreases |input| - pos
    {
      pos, frames, closed := ReadText(lib, input, pos, stack, frames, closed);
      if pos == |input| { break; }
      stack, pos, frames, closed := ReadTag(lib, input, pos, stack, frames, closed);
    }
  }

  /** The parsed document: its root's children are the forest that `Parse` defines, all of them new nodes. */
  method ParseXmlOrHtml(lib: Library, input: string) returns (root: Node, ghost closed: set<Node>)
    ensures root.kind.RootKind? && fresh(root) && fresh(closed)
    ensures AllRepresent(root.children, Parse(lib, input), closed)
  {
    root := new Node(RootKind, "", map[], "");
    assert OpenNode([root], ROOT, {}, 0);
    var stack;
    ghost var frames;
    stack, frames, closed := ReadAll(lib, input, root);
    closed := FinishHolds(stack, frames, closed);
  }
}
