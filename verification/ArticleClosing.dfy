/** What an end tag does to the elements still open, and what becomes of those that are never closed. */
module ArticleClosing {
  import opened Common
  import opened ArticleTokens
  import opened ArticleTree
  import opened ArticleRoundTrip

  /** The open elements as a tree: each is the last child of the one before. */
  function Nested(frames: seq<Frame>): Tree
    requires frames != []
  {
    Element(frames[0].tag, frames[0].attrs,
            frames[0].children + if |frames| == 1 then [] else [Nested(frames[1..])])
  }

  /** The frames from `i` on, nested, are added to the frame below them. */
  function Folded(stack: Stack, i: nat): Stack
    requires 0 < i < |stack|
  {
    stack[..i - 1] + [stack[i - 1].(children := stack[i - 1].children + [Nested(stack[i..])])]
  }

  lemma {:induction false} NestedMerge(frames: seq<Frame>)
    requires |frames| >= 2
    ensures var n := |frames| - 2;
            var last := Element(frames[n + 1].tag, frames[n + 1].attrs, frames[n + 1].children);
            Nested(frames[..n] + [frames[n].(children := frames[n].children + [last])]) == Nested(frames)
    decreases |frames|
  {
    var n := |frames| - 2;
    var top := frames[n + 1];
    var last := Element(top.tag, top.attrs, top.children);
    var merged := frames[..n] + [frames[n].(children := frames[n].children + [last])];
    assert top.children + [] == top.children;
    if n == 0 {
      assert frames[1..] == [top];
      assert Nested(frames[1..]) == Element(top.tag, top.attrs, top.children + []);
      assert merged[0].children + [] == merged[0].children;
    } else {
      NestedMerge(frames[1..]);
      assert frames[..n][1..] == frames[1..][..n - 1];
      ConsSplit(frames[..n], [merged[n]]);
    }
  }

  /** Folding the top into the frame below it first makes no difference. */
  lemma FoldedLater(stack: Stack, next: Stack, i: nat)
    requires 0 < i < |stack| - 1
    requires var n := |stack| - 1;
             var last := Element(stack[n].tag, stack[n].attrs, stack[n].children);
             next == stack[..n - 1] + [stack[n - 1].(children := stack[n - 1].children + [last])]
    ensures Folded(next, i) == Folded(stack, i)
  {
    var n := |stack| - 1;
    NestedMerge(stack[i..]);
    assert next[i..] == stack[i..][..n - 1 - i] + [next[n - 1]];
    assert next[..i - 1] == stack[..i - 1] && next[i - 1] == stack[i - 1];
  }

  lemma ClosedTop(stack: Stack)
    requires |stack| > 1
    ensures var n := |stack| - 1;
            var last := Element(stack[n].tag, stack[n].attrs, stack[n].children);
            CloseTop(stack) == stack[..n - 1] + [stack[n - 1].(children := stack[n - 1].children + [last])]
  {}

  lemma {:induction false} CloseDownFolds(stack: Stack, i: nat)
    requires 0 < i < |stack|
    ensures CloseDownTo(stack, i) == Folded(stack, i)
    decreases |stack|
  {
    var n := |stack| - 1;
    ClosedTop(stack);
    if n == i {
      assert stack[i..] == [stack[n]] && stack[n].children + [] == stack[n].children;
      assert CloseDownTo(CloseTop(stack), i) == CloseTop(stack);
    } else {
      CloseDownFolds(CloseTop(stack), i);
      FoldedLater(stack, CloseTop(stack), i);
    }
  }

  /** The names of the open elements, the root left out. */
  function OpenNames(stack: Stack): seq<string> {
    seq(|stack| - 1, i requires 0 <= i < |stack| - 1 => stack[i + 1].tag)
  }

  /** The element is open at that height, and no other of its name above it. */
  predicate LastOpen(stack: Stack, name: string, i: nat) {
    0 < i < |stack| && stack[i].tag == name && forall j :: i < j < |stack| ==> stack[j].tag != name
  }

  lemma MatchingIs(stack: Stack, name: string, i: nat)
    requires LastOpen(stack, name, i)
    ensures Matching(stack, name) == i
  {}

  /**
    An end tag ends the last open element of its name, and with it all that were left open inside: nested as they
    were opened, they become the last child of what is below. Only what is below stays open.
  */
  lemma EndTagCloses(lib: Library, stack: Stack, text: string, i: nat)
    requires LastOpen(stack, CloseName(lib, text), i)
    ensures Apply(lib, stack, EndTag(text, true)) == Folded(stack, i)
    ensures OpenNames(Apply(lib, stack, EndTag(text, true))) == OpenNames(stack)[..i - 1]
  {
    MatchingIs(stack, CloseName(lib, text), i);
    CloseDownFolds(stack, i);
  }

  /** An end tag whose name is not open, or that is cut off, changes nothing. */
  lemma EndTagIgnored(lib: Library, stack: Stack, text: string, ended: bool)
    requires !ended || forall j :: 0 < j < |stack| ==> stack[j].tag != CloseName(lib, text)
    ensures Apply(lib, stack, EndTag(text, ended)) == stack
  {}

  /** At the end of the input the elements still open are nested as they were opened. */
  lemma FinishNests(stack: Stack)
    ensures Finish(stack) == if |stack| == 1 then stack[0].children else stack[0].children + [Nested(stack[1..])]
  {
    if |stack| > 1 { CloseDownFolds(stack, 1); }
  }

  /** The name an end tag closes is its lower-cased text up to the first space. */
  lemma CloseNameIs(lib: Library, text: string, name: string, rest: string)
    requires lib.lower(Trim(text)) == name + rest
    requires (forall c :: c in name ==> !Space(c)) && (rest != "" ==> Space(rest[0]))
    ensures CloseName(lib, text) == name
  {
    SpanIs(name + rest, c => !Space(c), |name|);
  }
}
