/** Removing listed paths from a JSON payload, against one pass that keeps what no listed path leads to. */
module PiiStripping {
  import opened Common

  type Key = string
  type Path = seq<Key>

  /** A scalar's text stands for it. Keys of one object are distinct in JSON; nothing here depends on it. */
  datatype Json = Scalar(text: string) | Arr(items: seq<Json>) | Obj(members: seq<Member>)
  datatype Member = Member(key: Key, value: Json)

  /** The segments between the dots, at least one. */
  function Segments(path: string): (r: Path)
    ensures r != []
  {
    if path == "" then [""]
    else
      var rest := Segments(path[1..]);
      if path[0] == '.' then [""] + rest else [[path[0]] + rest[0]] + rest[1..]
  }

  function Dotted(path: Path): string
    requires path != []
  {
    if |path| == 1 then path[0] else path[0] + "." + Dotted(path[1..])
  }

  /** The segments have no dots in them, and put together with dots they are the path again. */
  lemma {:induction false} SegmentsRejoin(path: string)
    ensures Dotted(Segments(path)) == path
    ensures forall s :: s in Segments(path) ==> '.' !in s
  {
    if path != "" {
      var rest := Segments(path[1..]);
      SegmentsRejoin(path[1..]);
      if path[0] == '.' {
        assert ([""] + rest)[1..] == rest;
      } else {
        assert ([[path[0]] + rest[0]] + rest[1..])[1..] == rest[1..];
      }
    }
  }

  predicate Usable(path: Path) {
    path != [] && "" !in path
  }

  // ---------- One path ----------

  /** Arrays are transparent: each element is stripped of the same path. */
  function Remove(t: Json, path: Path): Json {
    if path == [] || path[0] == "" then t else
    match t
    case Scalar(_) => t
    case Arr(items) => Arr(RemoveItems(items, path))
    case Obj(members) => Obj(if |path| == 1 then Without(members, path[0]) else RemoveMembers(members, path))
  }

  function RemoveItems(items: seq<Json>, path: Path): (r: seq<Json>)
    ensures |r| == |items|
  {
    if items == [] then [] else [Remove(items[0], path)] + RemoveItems(items[1..], path)
  }

  function Without(members: seq<Member>, key: Key): seq<Member> {
    if members == [] then []
    else (if members[0].key == key then [] else [members[0]]) + Without(members[1..], key)
  }

  function RemoveMembers(members: seq<Member>, path: Path): (r: seq<Member>)
    requires |path| > 1
    ensures |r| == |members|
  {
    if members == [] then [] else
    var m := members[0];
    [if m.key == path[0] then Member(m.key, Remove(m.value, path[1..])) else m] + RemoveMembers(members[1..], path)
  }

  function Strip(t: Json, paths: seq<Path>): Json
    decreases |paths|
  {
    if paths == [] then t else Strip(Remove(t, paths[0]), paths[1..])
  }

  // ---------- One pass ----------

  /** What the paths that lead into `key` still have to go. */
  function Tails(paths: set<Path>, key: Key): set<Path> {
    set p | p in paths && |p| > 1 && p[0] == key :: p[1..]
  }

  /** Keep exactly the members that no path ends at, and look for the rest of the paths inside them. */
  function Prune(t: Json, paths: set<Path>): Json {
    match t
    case Scalar(_) => t
    case Arr(items) => Arr(PruneItems(items, paths))
    case Obj(members) => Obj(PruneMembers(members, paths))
  }

  function PruneItems(items: seq<Json>, paths: set<Path>): seq<Json> {
    if items == [] then [] else [Prune(items[0], paths)] + PruneItems(items[1..], paths)
  }

  function PruneMember(m: Member, paths: set<Path>): seq<Member> {
    if [m.key] in paths then [] else [Member(m.key, Prune(m.value, Tails(paths, m.key)))]
  }

  function PruneMembers(members: seq<Member>, paths: set<Path>): seq<Member> {
    if members == [] then [] else PruneMember(members[0], paths) + PruneMembers(members[1..], paths)
  }

  lemma {:induction false} PruneNothing(t: Json)
    ensures Prune(t, {}) == t
    decreases t, 1
  {
    match t
    case Scalar(_) =>
    case Arr(items) => PruneNoItems(items);
    case Obj(members) => PruneNoMembers(members);
  }

  lemma {:induction false} PruneNoItems(items: seq<Json>)
    ensures PruneItems(items, {}) == items
    decreases items, 0
  {
    if items != [] {
      PruneNothing(items[0]);
      PruneNoItems(items[1..]);
    }
  }

  lemma {:induction false} PruneNoMembers(members: seq<Member>)
    ensures PruneMembers(members, {}) == members
    decreases members, 0
  {
    if members != [] {
      assert Tails({}, members[0].key) == {};
      PruneNothing(members[0].value);
      PruneNoMembers(members[1..]);
    }
  }

  /** A path with an empty segment removes nothing. */
  lemma {:induction false} UnusableRemovesNothing(t: Json, path: Path)
    requires !Usable(path)
    ensures Remove(t, path) == t
    decreases t, 1
  {
    if path != [] && path[0] != "" {
      match t
      case Scalar(_) =>
      case Arr(items) => UnusableItems(items, path);
      case Obj(members) =>
        var i :| 0 <= i < |path| && path[i] == "";
        UnusableMembers(members, path);
    }
  }

  lemma {:induction false} UnusableItems(items: seq<Json>, path: Path)
    requires !Usable(path)
    ensures RemoveItems(items, path) == items
    decreases items, 0
  {
    if items != [] {
      UnusableRemovesNothing(items[0], path);
      UnusableItems(items[1..], path);
    }
  }

  lemma {:induction false} UnusableMembers(members: seq<Member>, path: Path)
    requires |path| > 1 && path[0] != "" && !Usable(path)
    ensures RemoveMembers(members, path) == members
    decreases members, 0
  {
    if members != [] {
      assert path == [path[0]] + path[1..];
      UnusableRemovesNothing(members[0].value, path[1..]);
      UnusableMembers(members[1..], path);
    }
  }

  /** Removing one more path after a pass is the pass with one more path. */
  lemma {:induction false} RemoveAfterPrune(t: Json, paths: set<Path>, path: Path)
    requires Usable(path)
    ensures Remove(Prune(t, paths), path) == Prune(t, paths + {path})
    decreases t, 1
  {
    assert path[0] in path;
    match t
    case Scalar(_) =>
    case Arr(items) => RemoveAfterPruneItems(items, paths, path);
    case Obj(members) => RemoveAfterPruneMembers(members, paths, path);
  }

  lemma {:induction false} RemoveAfterPruneItems(items: seq<Json>, paths: set<Path>, path: Path)
    requires Usable(path)
    ensures RemoveItems(PruneItems(items, paths), path) == PruneItems(items, paths + {path})
    decreases items, 0
  {
    if items != [] {
      RemoveAfterPrune(items[0], paths, path);
      RemoveAfterPruneItems(items[1..], paths, path);
      assert PruneItems(items, paths)[1..] == PruneItems(items[1..], paths);
    }
  }

  /** The part of `Remove` for an object's members. */
  function RemoveFrom(members: seq<Member>, path: Path): seq<Member>
    requires path != []
  {
    if |path| == 1 then Without(members, path[0]) else RemoveMembers(members, path)
  }

  lemma RemoveFromCons(m: seq<Member>, rest: seq<Member>, path: Path)
    requires path != [] && |m| <= 1
    ensures RemoveFrom(m + rest, path) == RemoveFrom(m, path) + RemoveFrom(rest, path)
  {
    if m == [] {
      assert m + rest == rest;
    } else {
      var all := m + rest;
      assert all[0] == m[0] && all[1..] == rest && m[1..] == [];
      if |path| == 1 {
        assert Without(m, path[0]) == if m[0].key == path[0] then [] else [m[0]];
      } else {
        assert RemoveMembers(m, path) == [RemoveMembers(all, path)[0]];
      }
    }
  }

  lemma TailsMore(paths: set<Path>, path: Path, key: Key)
    requires path != []
    ensures Tails(paths + {path}, key) == Tails(paths, key) + if |path| > 1 && path[0] == key then {path[1..]} else {}
  {}

  lemma {:induction false} RemoveAfterPruneMember(m: Member, paths: set<Path>, path: Path)
    requires Usable(path)
    ensures RemoveFrom(PruneMember(m, paths), path) == PruneMember(m, paths + {path})
    decreases m, 0
  {
    TailsMore(paths, path, m.key);
    var kept := PruneMember(m, paths);
    if kept != [] {
      assert kept[1..] == [];
      if |path| > 1 && path[0] == m.key {
        assert Usable(path[1..]) by { forall k | k in path[1..] ensures k in path {} }
        RemoveAfterPrune(m.value, Tails(paths, m.key), path[1..]);
      } else {
        assert |path| == 1 && path[0] == m.key ==> path == [m.key];
        assert Tails(paths + {path}, m.key) == Tails(paths, m.key);
        assert RemoveFrom(kept, path) == if path == [m.key] then [] else kept by {
          if |path| == 1 {
            assert Without(kept, path[0]) == if m.key == path[0] then [] else [kept[0]];
          } else {
            assert RemoveMembers(kept, path) == [kept[0]] + RemoveMembers(kept[1..], path);
          }
        }
      }
    }
  }

  lemma {:induction false} RemoveAfterPruneMembers(members: seq<Member>, paths: set<Path>, path: Path)
    requires Usable(path)
    ensures RemoveFrom(PruneMembers(members, paths), path) == PruneMembers(members, paths + {path})
    decreases members, 0
  {
    if members != [] {
      RemoveAfterPruneMember(members[0], paths, path);
      RemoveAfterPruneMembers(members[1..], paths, path);
      RemoveFromCons(PruneMember(members[0], paths), PruneMembers(members[1..], paths), path);
    }
  }

  // ---------- All paths ----------

  function UsablePaths(paths: seq<Path>): set<Path> {
    set p | p in paths && Usable(p)
  }

  lemma {:induction false} StripAfterPrune(t: Json, done: set<Path>, paths: seq<Path>)
    ensures Strip(Prune(t, done), paths) == Prune(t, done + UsablePaths(paths))
    decreases |paths|
  {
    if paths == [] {
      assert done + UsablePaths(paths) == done;
    } else {
      var p := paths[0];
      assert UsablePaths(paths) == UsablePaths(paths[1..]) + if Usable(p) then {p} else {} by {
        assert paths == [p] + paths[1..];
      }
      if Usable(p) {
        RemoveAfterPrune(t, done, p);
        StripAfterPrune(t, done + {p}, paths[1..]);
        assert done + {p} + UsablePaths(paths[1..]) == done + UsablePaths(paths);
      } else {
        UnusableRemovesNothing(Prune(t, done), p);
        StripAfterPrune(t, done, paths[1..]);
        assert UsablePaths(paths) == UsablePaths(paths[1..]);
      }
    }
  }

  /** Removing the paths one after the other is one pass over all the usable ones. */
  lemma StripIsPrune(t: Json, paths: seq<Path>)
    ensures Strip(t, paths) == Prune(t, UsablePaths(paths))
  {
    PruneNothing(t);
    StripAfterPrune(t, {}, paths);
    assert {} + UsablePaths(paths) == UsablePaths(paths);
  }

  /** The order of the list, and repeated or unusable entries, make no difference. */
  lemma OrderDoesNotMatter(t: Json, p: seq<Path>, q: seq<Path>)
    requires UsablePaths(p) == UsablePaths(q)
    ensures Strip(t, p) == Strip(t, q)
  {
    StripIsPrune(t, p);
    StripIsPrune(t, q);
  }

  lemma StripTwice(t: Json, paths: seq<Path>)
    ensures Strip(Strip(t, paths), paths) == Strip(t, paths)
  {
    StripIsPrune(t, paths);
    StripAfterPrune(t, UsablePaths(paths), paths);
    assert UsablePaths(paths) + UsablePaths(paths) == UsablePaths(paths);
  }

  // ---------- What is kept ----------

  datatype Label = IsScalar(text: string) | IsArr | IsObj

  /** A node of the payload: the keys that lead to it, and what it is itself. */
  datatype Node = Node(path: Path, kind: Label)

  /** All nodes in document order, under the keys `at`. */
  function Nodes(t: Json, at: Path): seq<Node> {
    match t
    case Scalar(text) => [Node(at, IsScalar(text))]
    case Arr(items) => [Node(at, IsArr)] + ItemNodes(items, at)
    case Obj(members) => [Node(at, IsObj)] + MemberNodes(members, at)
  }

  function ItemNodes(items: seq<Json>, at: Path): seq<Node> {
    if items == [] then [] else Nodes(items[0], at) + ItemNodes(items[1..], at)
  }

  function MemberNodes(members: seq<Member>, at: Path): seq<Node> {
    if members == [] then [] else Nodes(members[0].value, at + [members[0].key]) + MemberNodes(members[1..], at)
  }

  /** Some path, from the keys `at` on, leads to the node or to something the node is inside. */
  ghost predicate Listed(n: Node, at: Path, paths: set<Path>) {
    exists p :: p in paths && at + p <= n.path
  }

  ghost function Unlisted(nodes: seq<Node>, at: Path, paths: set<Path>): seq<Node> {
    if nodes == [] then []
    else (if Listed(nodes[0], at, paths) then [] else [nodes[0]]) + Unlisted(nodes[1..], at, paths)
  }

  lemma {:induction false} UnlistedSplit(a: seq<Node>, b: seq<Node>, at: Path, paths: set<Path>)
    ensures Unlisted(a + b, at, paths) == Unlisted(a, at, paths) + Unlisted(b, at, paths)
  {
    if a == [] {
      assert a + b == b;
    } else {
      UnlistedSplit(a[1..], b, at, paths);
      assert (a + b)[0] == a[0] && (a + b)[1..] == a[1..] + b;
      var kept := if Listed(a[0], at, paths) then [] else [a[0]];
      assert Unlisted(a + b, at, paths) == kept + (Unlisted(a[1..], at, paths) + Unlisted(b, at, paths));
    }
  }

  ghost predicate Under(nodes: seq<Node>, at: Path) {
    forall n :: n in nodes ==> at <= n.path
  }

  lemma {:induction false} NodesUnder(t: Json, at: Path)
    ensures Under(Nodes(t, at), at)
    decreases t, 1
  {
    match t
    case Scalar(_) =>
    case Arr(items) => ItemNodesUnder(items, at);
    case Obj(members) => MemberNodesUnder(members, at);
  }

  lemma {:induction false} ItemNodesUnder(items: seq<Json>, at: Path)
    ensures Under(ItemNodes(items, at), at)
    decreases items, 0
  {
    if items != [] {
      NodesUnder(items[0], at);
      ItemNodesUnder(items[1..], at);
    }
  }

  lemma {:induction false} MemberNodesUnder(members: seq<Member>, at: Path)
    ensures Under(MemberNodes(members, at), at)
    decreases members, 0
  {
    if members != [] {
      NodesUnder(members[0].value, at + [members[0].key]);
      MemberNodesUnder(members[1..], at);
    }
  }

  /** Under a key that a path ends at, every node is listed. */
  lemma {:induction false} AllListed(nodes: seq<Node>, at: Path, key: Key, paths: set<Path>)
    requires Under(nodes, at + [key]) && [key] in paths
    ensures Unlisted(nodes, at, paths) == []
  {
    if nodes != [] {
      assert at + [key] <= nodes[0].path;
      AllListed(nodes[1..], at, key, paths);
    }
  }

  lemma ListedAbove(n: Node, at: Path, key: Key, paths: set<Path>, p: Path)
    requires at + [key] <= n.path && [key] !in paths && [] !in paths && p in paths && at + p <= n.path
    ensures Listed(n, at + [key], Tails(paths, key))
  {
    assert p[0] == (at + p)[|at|] == n.path[|at|] == key;
    assert p == [key] + p[1..];
    assert |p| == 1 ==> p == [key];
    assert at + [key] + p[1..] == at + p;
    assert p[1..] in Tails(paths, key);
  }

  lemma ListedFromTail(n: Node, at: Path, key: Key, paths: set<Path>, q: Path)
    requires q in Tails(paths, key) && at + [key] + q <= n.path
    ensures Listed(n, at, paths)
  {
    var p :| p in paths && |p| > 1 && p[0] == key && q == p[1..];
    assert at + p == at + [key] + q;
  }

  /** Under a key that no path ends at, the paths that matter are the ones that go on below it. */
  lemma ListedBelow(n: Node, at: Path, key: Key, paths: set<Path>)
    requires at + [key] <= n.path && [key] !in paths && [] !in paths
    ensures Listed(n, at, paths) <==> Listed(n, at + [key], Tails(paths, key))
  {
    if Listed(n, at, paths) {
      var p :| p in paths && at + p <= n.path;
      ListedAbove(n, at, key, paths, p);
    }
    if Listed(n, at + [key], Tails(paths, key)) {
      var q :| q in Tails(paths, key) && at + [key] + q <= n.path;
      ListedFromTail(n, at, key, paths, q);
    }
  }

  lemma {:induction false} UnlistedBelow(nodes: seq<Node>, at: Path, key: Key, paths: set<Path>)
    requires Under(nodes, at + [key]) && [key] !in paths && [] !in paths
    ensures Unlisted(nodes, at, paths) == Unlisted(nodes, at + [key], Tails(paths, key))
  {
    if nodes != [] {
      ListedBelow(nodes[0], at, key, paths);
      UnlistedBelow(nodes[1..], at, key, paths);
    }
  }

  lemma {:induction false} PrunedNodes(t: Json, at: Path, paths: set<Path>)
    requires [] !in paths
    ensures Nodes(Prune(t, paths), at) == Unlisted(Nodes(t, at), at, paths)
    decreases t, 1
  {
    match t
    case Scalar(text) => RootUnlisted(Node(at, IsScalar(text)), [], at, paths);
    case Arr(items) =>
      PrunedItems(items, at, paths);
      RootUnlisted(Node(at, IsArr), ItemNodes(items, at), at, paths);
    case Obj(members) =>
      PrunedMembers(members, at, paths);
      RootUnlisted(Node(at, IsObj), MemberNodes(members, at), at, paths);
  }

  lemma RootUnlisted(n: Node, rest: seq<Node>, at: Path, paths: set<Path>)
    requires n.path == at && [] !in paths
    ensures Unlisted([n] + rest, at, paths) == [n] + Unlisted(rest, at, paths)
  {
    assert forall p :: p in paths ==> |at + p| > |at|;
    assert ([n] + rest)[1..] == rest;
  }

  lemma {:induction false} PrunedItems(items: seq<Json>, at: Path, paths: set<Path>)
    requires [] !in paths
    ensures ItemNodes(PruneItems(items, paths), at) == Unlisted(ItemNodes(items, at), at, paths)
    decreases items, 0
  {
    if items != [] {
      PrunedNodes(items[0], at, paths);
      PrunedItems(items[1..], at, paths);
      UnlistedSplit(Nodes(items[0], at), ItemNodes(items[1..], at), at, paths);
      assert PruneItems(items, paths)[1..] == PruneItems(items[1..], paths);
    }
  }

  lemma {:induction false} PrunedMembers(members: seq<Member>, at: Path, paths: set<Path>)
    requires [] !in paths
    ensures MemberNodes(PruneMembers(members, paths), at) == Unlisted(MemberNodes(members, at), at, paths)
    decreases members, 0
  {
    if members != [] {
      var m := members[0];
      var here := at + [m.key];
      PrunedMembers(members[1..], at, paths);
      UnlistedSplit(Nodes(m.value, here), MemberNodes(members[1..], at), at, paths);
      NodesUnder(m.value, here);
      if [m.key] in paths {
        AllListed(Nodes(m.value, here), at, m.key, paths);
        assert PruneMembers(members, paths) == PruneMembers(members[1..], paths);
      } else {
        PrunedNodes(m.value, here, Tails(paths, m.key));
        UnlistedBelow(Nodes(m.value, here), at, m.key, paths);
        assert PruneMembers(members, paths)[1..] == PruneMembers(members[1..], paths);
      }
    }
  }

  /** Stripping keeps, in order and unchanged, exactly the nodes that no usable path leads to or above. */
  lemma StripKeepsUnlisted(t: Json, paths: seq<Path>)
    ensures Nodes(Strip(t, paths), []) == Unlisted(Nodes(t, []), [], UsablePaths(paths))
  {
    StripIsPrune(t, paths);
    PrunedNodes(t, [], UsablePaths(paths));
  }

  lemma {:induction false} UnlistedAreNot(nodes: seq<Node>, at: Path, paths: set<Path>)
    ensures forall n :: n in Unlisted(nodes, at, paths) <==> n in nodes && !Listed(n, at, paths)
  {
    if nodes != [] { UnlistedAreNot(nodes[1..], at, paths); }
  }

  /** No usable path resolves to anything afterwards. */
  lemma NothingResolves(t: Json, paths: seq<Path>, path: Path)
    requires path in paths && Usable(path)
    ensures forall n :: n in Nodes(Strip(t, paths), []) ==> !(path <= n.path)
  {
    StripKeepsUnlisted(t, paths);
    UnlistedAreNot(Nodes(t, []), [], UsablePaths(paths));
    forall n | n in Nodes(Strip(t, paths), []) ensures !(path <= n.path) {
      assert [] + path == path;
    }
  }

  // ---------- The list as it is written ----------

  function SegmentsOf(paths: seq<string>): (r: seq<Path>)
    ensures |r| == |paths|
  {
    if paths == [] then [] else [Segments(paths[0])] + SegmentsOf(paths[1..])
  }

  predicate DotFree(path: Path) {
    forall key :: key in path ==> '.' !in key
  }

  lemma {:induction false} SegmentsCons(key: Key, path: string)
    requires '.' !in key
    ensures Segments(key + "." + path) == [key] + Segments(path)
  {
    if key == "" {
      assert key + "." + path == "." + path;
      assert ("." + path)[1..] == path;
    } else {
      assert (key + "." + path)[1..] == key[1..] + "." + path;
      SegmentsCons(key[1..], path);
      assert ([key[1..]] + Segments(path))[1..] == Segments(path);
      assert [key[0]] + key[1..] == key;
    }
  }

  lemma {:induction false} SegmentsOne(key: Key)
    requires '.' !in key
    ensures Segments(key) == [key]
  {
    if key != "" {
      SegmentsOne(key[1..]);
      assert [key[0]] + key[1..] == key && [key[1..]][1..] == [];
    }
  }

  /** Keys without dots, put together with dots, are taken apart again as they were. */
  lemma {:induction false} DottedSplits(path: Path)
    requires path != [] && DotFree(path)
    ensures Segments(Dotted(path)) == path
  {
    assert path[0] in path;
    if |path| == 1 {
      SegmentsOne(path[0]);
      assert path == [path[0]];
    } else {
      forall key | key in path[1..] ensures '.' !in key { assert key in path; }
      DottedSplits(path[1..]);
      SegmentsCons(path[0], Dotted(path[1..]));
      assert path == [path[0]] + path[1..];
    }
  }

  lemma {:induction false} InSegmentsOf(paths: seq<string>, path: Path)
    ensures path in SegmentsOf(paths) <==> exists p :: p in paths && Segments(p) == path
  {
    if paths != [] {
      InSegmentsOf(paths[1..], path);
      assert SegmentsOf(paths) == [Segments(paths[0])] + SegmentsOf(paths[1..]);
      if path in SegmentsOf(paths[1..]) {
        var p :| p in paths[1..] && Segments(p) == path;
        assert p in paths;
      }
      forall p | p in paths && Segments(p) == path ensures path in SegmentsOf(paths) {
        assert p == paths[0] || p in paths[1..];
      }
    }
  }

  /** The list has these keys, joined by dots; none of them is empty or has a dot in it. */
  predicate IsListed(path: Path, paths: seq<string>) {
    path != [] && "" !in path && DotFree(path) && Dotted(path) in paths
  }

  lemma UsableIsListed(paths: seq<string>, path: Path)
    ensures path in UsablePaths(SegmentsOf(paths)) <==> IsListed(path, paths)
  {
    InSegmentsOf(paths, path);
    if path in SegmentsOf(paths) {
      var p :| p in paths && Segments(p) == path;
      SegmentsRejoin(p);
    }
    if IsListed(path, paths) { DottedSplits(path); }
  }

  /** A listed path names the node, or something the node is inside. */
  ghost predicate Named(n: Node, paths: seq<string>) {
    exists q :: IsListed(q, paths) && q <= n.path
  }

  ghost function Unnamed(nodes: seq<Node>, paths: seq<string>): seq<Node> {
    if nodes == [] then [] else (if Named(nodes[0], paths) then [] else [nodes[0]]) + Unnamed(nodes[1..], paths)
  }

  lemma ListedIsNamed(n: Node, paths: seq<string>)
    ensures Listed(n, [], UsablePaths(SegmentsOf(paths))) <==> Named(n, paths)
  {
    if Listed(n, [], UsablePaths(SegmentsOf(paths))) {
      var p :| p in UsablePaths(SegmentsOf(paths)) && [] + p <= n.path;
      UsableIsListed(paths, p);
      assert [] + p == p;
    }
    if Named(n, paths) {
      var q :| IsListed(q, paths) && q <= n.path;
      UsableIsListed(paths, q);
      assert [] + q == q;
    }
  }

  lemma {:induction false} UnlistedIsUnnamed(nodes: seq<Node>, paths: seq<string>)
    ensures Unlisted(nodes, [], UsablePaths(SegmentsOf(paths))) == Unnamed(nodes, paths)
  {
    if nodes != [] {
      ListedIsNamed(nodes[0], paths);
      UnlistedIsUnnamed(nodes[1..], paths);
    }
  }

  /** Of the payload exactly those nodes are kept, in order and unchanged, that no listed path names or leads to. */
  lemma StripKeepsUnnamed(t: Json, paths: seq<string>)
    ensures Nodes(Strip(t, SegmentsOf(paths)), []) == Unnamed(Nodes(t, []), paths)
  {
    StripKeepsUnlisted(t, SegmentsOf(paths));
    UnlistedIsUnnamed(Nodes(t, []), paths);
  }

  lemma {:induction false} UnnamedAre(nodes: seq<Node>, paths: seq<string>)
    ensures forall n :: n in Unnamed(nodes, paths) <==> n in nodes && !Named(n, paths)
  {
    if nodes != [] { UnnamedAre(nodes[1..], paths); }
  }

  /** Afterwards no node is at a listed path, if its keys have no dots in them and are not empty. */
  lemma NoNodeListed(t: Json, paths: seq<string>, n: Node)
    requires n in Nodes(Strip(t, SegmentsOf(paths)), []) && n.path != [] && "" !in n.path && DotFree(n.path)
    ensures Dotted(n.path) !in paths
  {
    StripKeepsUnnamed(t, paths);
    UnnamedAre(Nodes(t, []), paths);
    assert IsListed(n.path, paths) ==> Named(n, paths);
  }

  lemma OtherKeyKept(m: Member, path: Path)
    requires |path| > 1 && path[0] != m.key
    ensures Remove(Obj([m]), path) == Obj([m])
  {
    assert [m][1..] == [];
    assert RemoveMembers([m], path) == [m] + RemoveMembers([m][1..], path);
  }

  lemma EmailSegments()
    ensures Segments("author.email") == ["author", "email"]
  {
    SegmentsOne("email");
    SegmentsCons("author", "email");
    assert "author" + "." + "email" == "author.email";
  }

  /** A key that has a dot in it is out of reach of the list, also of the very path that is the key. */
  lemma DottedKeyKept(text: string)
    ensures var t := Obj([Member("author.email", Scalar(text))]);
            Strip(t, SegmentsOf(["author.email"])) == t
  {
    EmailSegments();
    OtherKeyKept(Member("author.email", Scalar(text)), ["author", "email"]);
    StripOne(Obj([Member("author.email", Scalar(text))]), "author.email");
  }

  lemma StripOne(t: Json, path: string)
    ensures Strip(t, SegmentsOf([path])) == Remove(t, Segments(path))
  {
    assert [path][1..] == [];
    var q := Segments(path);
    assert SegmentsOf([path]) == [q] && [q][1..] == [];
  }
}
