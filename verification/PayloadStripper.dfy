/** Stripping as code: the payload is cloned, and keys are deleted in the clone's objects, in place. */
module PayloadStripper {
  import opened Common
  import opened PiiStripping

  datatype Value = Text(text: string) | Ref(node: Container)
  datatype Entry = Entry(key: Key, value: Value)

  /** An array or an object; an array's entries have the empty key. `Repr` is what can be reached from it. */
  class Container {
    const isArray: bool
    var entries: seq<Entry>
    ghost const Repr: set<Container>

    constructor (isArray: bool, entries: seq<Entry>, ghost below: set<Container>)
      ensures this.isArray == isArray && this.entries == entries && Repr == below + {this}
    {
      this.isArray, this.entries, Repr := isArray, entries, below + {this};
    }
  }

  ghost function Reach(v: Value): set<Container> {
    if v.Ref? then v.node.Repr else {}
  }

  function Size(t: Json): nat {
    match t
    case Scalar(_) => 0
    case Arr(items) => |items|
    case Obj(members) => |members|
  }

  function KeyAt(t: Json, i: nat): Key
    requires i < Size(t)
  {
    if t.Arr? then "" else t.members[i].key
  }

  function Child(t: Json, i: nat): Json
    requires i < Size(t)
  {
    if t.Arr? then t.items[i] else t.members[i].value
  }

  /** The value is a tree of containers, no two branches sharing any, that stands for `t`. */
  ghost predicate Shape(v: Value, t: Json)
    reads Reach(v)
    decreases t
  {
    if t.Scalar? then v == Text(t.text)
    else
      && v.Ref? && v.node in v.node.Repr && v.node.isArray == t.Arr?
      && |v.node.entries| == Size(t)
      && (forall i, j :: 0 <= i < j < |v.node.entries| ==>
            Reach(v.node.entries[i].value) !! Reach(v.node.entries[j].value))
      && forall i :: 0 <= i < Size(t) ==>
           && v.node.entries[i].key == KeyAt(t, i)
           && Reach(v.node.entries[i].value) <= v.node.Repr - {v.node}
           && Shape(v.node.entries[i].value, Child(t, i))
  }

  /** A fresh copy of the payload. */
  method Clone(t: Json) returns (v: Value)
    ensures Shape(v, t) && fresh(Reach(v))
    decreases t
  {
    if t.Scalar? { return Text(t.text); }
    var entries: seq<Entry> := [];
    ghost var below := {};
    for i := 0 to Size(t)
      invariant |entries| == i && fresh(below)
      invariant forall j, k :: 0 <= j < k < i ==> Reach(entries[j].value) !! Reach(entries[k].value)
      invariant forall j :: 0 <= j < i ==>
        && entries[j].key == KeyAt(t, j) && Reach(entries[j].value) <= below && Shape(entries[j].value, Child(t, j))
    {
      var child := Clone(Child(t, i));
      entries := entries + [Entry(KeyAt(t, i), child)];
      below := below + Reach(child);
    }
    var node := new Container(t.Arr?, entries, below);
    v := Ref(node);
  }

  function Drop(entries: seq<Entry>, key: Key): seq<Entry> {
    if entries == [] then [] else (if entries[0].key == key then [] else [entries[0]]) + Drop(entries[1..], key)
  }

  /** Entries that stand for an object's members. */
  ghost predicate Stand(entries: seq<Entry>, members: seq<Member>, within: set<Container>)
    reads within
  {
    && |entries| == |members|
    && (forall i, j :: 0 <= i < j < |entries| ==> Reach(entries[i].value) !! Reach(entries[j].value))
    && forall i :: 0 <= i < |members| ==>
         && entries[i].key == members[i].key
         && Reach(entries[i].value) <= within && Shape(entries[i].value, members[i].value)
  }

  lemma StandTail(entries: seq<Entry>, members: seq<Member>, within: set<Container>)
    requires Stand(entries, members, within) && entries != []
    ensures Stand(entries[1..], members[1..], within)
    ensures forall e :: e in entries[1..] ==> Reach(entries[0].value) !! Reach(e.value)
  {
    forall i | 0 <= i < |members| - 1
      ensures entries[1..][i].key == members[1..][i].key && Shape(entries[1..][i].value, members[1..][i].value)
    {
      assert entries[i + 1].key == members[i + 1].key;
    }
  }

  lemma StandCons(e: Entry, rest: seq<Entry>, m: Member, members: seq<Member>, within: set<Container>)
    requires Stand(rest, members, within)
    requires e.key == m.key && Reach(e.value) <= within && Shape(e.value, m.value)
    requires forall x :: x in rest ==> Reach(e.value) !! Reach(x.value)
    ensures Stand([e] + rest, [m] + members, within)
  {}

  lemma {:induction false} DropStands(entries: seq<Entry>, members: seq<Member>, key: Key, within: set<Container>)
    requires Stand(entries, members, within)
    ensures Stand(Drop(entries, key), Without(members, key), within)
    ensures forall e :: e in Drop(entries, key) ==> e in entries
  {
    if entries != [] {
      StandTail(entries, members, within);
      DropStands(entries[1..], members[1..], key, within);
      assert entries[0].key == members[0].key;
      if entries[0].key != key {
        StandCons(entries[0], Drop(entries[1..], key), members[0], Without(members[1..], key), within);
      }
    }
  }

  method RemoveNestedField(target: Value, path: Path, ghost t: Json)
    requires Shape(target, t)
    modifies Reach(target)
    ensures Shape(target, Remove(t, path))
    decreases t, 1
  {
    if target.Text? || path == [] { return; }
    var current := path[0];
    if current == "" { return; }
    var node := target.node;
    if node.isArray {
      RemoveFromItems(target, path, t);
    } else if |path| == 1 {
      DropStands(node.entries, t.members, current, node.Repr - {node});
      node.entries := Drop(node.entries, current);
    } else {
      RemoveFromFields(target, path, t);
    }
  }

  method RemoveFromItems(target: Value, path: Path, ghost t: Json)
    requires t.Arr? && Shape(target, t)
    modifies Reach(target)
    ensures Shape(target, Arr(RemoveItems(t.items, path)))
    decreases t, 0
  {
    var node := target.node;
    ghost var now := t.items;
    for i := 0 to |node.entries|
      invariant node.entries == old(node.entries) && |now| == |t.items|
      invariant forall j :: 0 <= j < |now| ==> now[j] == if j < i then Remove(t.items[j], path) else t.items[j]
      invariant Shape(target, Arr(now))
    {
      RemoveNestedField(node.entries[i].value, path, t.items[i]);
      now := now[i := Remove(t.items[i], path)];
      assert forall j :: 0 <= j < |now| ==> Shape(node.entries[j].value, now[j]);
    }
    RemoveItemsAt(t.items, path);
    assert now == RemoveItems(t.items, path);
  }

  method RemoveFromFields(target: Value, path: Path, ghost t: Json)
    requires t.Obj? && Shape(target, t) && |path| > 1
    modifies Reach(target)
    ensures Shape(target, Obj(RemoveMembers(t.members, path)))
    decreases t, 0
  {
    var node := target.node;
    ghost var now := t.members;
    for i := 0 to |node.entries|
      invariant node.entries == old(node.entries) && |now| == |t.members|
      invariant forall j :: 0 <= j < |now| ==>
                  now[j] == if j < i then RemovedMember(t.members[j], path) else t.members[j]
      invariant Shape(target, Obj(now))
    {
      if node.entries[i].key == path[0] {
        RemoveNestedField(node.entries[i].value, path[1..], t.members[i].value);
      }
      now := now[i := RemovedMember(t.members[i], path)];
      assert forall j :: 0 <= j < |now| ==> Shape(node.entries[j].value, now[j].value);
    }
    RemoveMembersAt(t.members, path);
    assert now == RemoveMembers(t.members, path);
  }

  function RemovedMember(m: Member, path: Path): Member
    requires |path| > 1
  {
    if m.key == path[0] then Member(m.key, Remove(m.value, path[1..])) else m
  }

  lemma {:induction false} RemoveItemsAt(items: seq<Json>, path: Path)
    ensures forall j :: 0 <= j < |items| ==> RemoveItems(items, path)[j] == Remove(items[j], path)
  {
    if items != [] { RemoveItemsAt(items[1..], path); }
  }

  lemma {:induction false} RemoveMembersAt(members: seq<Member>, path: Path)
    requires |path| > 1
    ensures forall j :: 0 <= j < |members| ==> RemoveMembers(members, path)[j] == RemovedMember(members[j], path)
  {
    if members != [] { RemoveMembersAt(members[1..], path); }
  }

  /**
    The payload is left alone; the result is a new tree that stands for the stripped payload: of its nodes, those
    that no listed path names or leads to.
  */
  method StripPii(payload: Json, paths: seq<string>) returns (result: Value)
    ensures fresh(Reach(result)) && Shape(result, Strip(payload, SegmentsOf(paths)))
    ensures exists t :: Shape(result, t) && Nodes(t, []) == Unnamed(Nodes(payload, []), paths)
  {
    StripKeepsUnnamed(payload, paths);
    result := Clone(payload);
    ghost var t := payload;
    for i := 0 to |paths|
      invariant Shape(result, t) && fresh(Reach(result))
      invariant Strip(t, SegmentsOf(paths[i..])) == Strip(payload, SegmentsOf(paths))
    {
      assert paths[i..][0] == paths[i] && paths[i..][1..] == paths[i + 1..];
      var path := Segments(paths[i]);
      assert SegmentsOf(paths[i..])[1..] == SegmentsOf(paths[i + 1..]);
      RemoveNestedField(result, path, t);
      t := Remove(t, path);
    }
    assert paths[|paths|..] == [];
  }
}
