/** Configuration trees, and lodash's `get`, `set` and `merge` on them. */
module ConfigTree {
  import opened Text

  datatype Item = StrItem(text: string) | NumItem(number: int) | BoolItem(on: bool)

  datatype Value = Null | Str(text: string) | Num(number: int) | Bool(on: bool) | List(items: seq<Item>)

  datatype Tree = Leaf(value: Value) | Node(children: map<string, Tree>)

  type Path = seq<string>

  const NIL := Leaf(Null)

  /** `_.get`: None is undefined. */
  function Get(t: Tree, path: Path): Option<Tree>
    decreases |path|
  {
    if path == [] then Some(t)
    else if t.Node? && path[0] in t.children then Get(t.children[path[0]], path[1..])
    else None
  }

  predicate IsNil(t: Option<Tree>) {
    t.None? || t.value == NIL
  }

  function Children(t: Tree): map<string, Tree> {
    if t.Node? then t.children else map[]
  }

  function Child(t: Tree, key: string): Option<Tree> {
    if key in Children(t) then Some(Children(t)[key]) else None
  }

  /** `_.set`: objects are made on the way wherever there is none. */
  function Set(t: Tree, path: Path, x: Tree): Tree
    decreases |path|
  {
    if path == [] then x
    else
      var child := if path[0] in Children(t) then Children(t)[path[0]] else NIL;
      Node(Children(t)[path[0] := Set(child, path[1..], x)])
  }

  /** A path along which `p` and `q` part. */
  predicate Unrelated(p: Path, q: Path)
    decreases |p|
  {
    && p != [] && q != []
    && (p[0] != q[0] || Unrelated(p[1..], q[1..]))
  }

  lemma {:induction false} GetSet(t: Tree, path: Path, x: Tree)
    ensures Get(Set(t, path, x), path) == Some(x)
    decreases |path|
  {
    if path != [] {
      var child := if path[0] in Children(t) then Children(t)[path[0]] else NIL;
      GetSet(child, path[1..], x);
    }
  }

  lemma {:induction false} GetSetBelow(t: Tree, path: Path, x: Tree, rest: Path)
    ensures Get(Set(t, path, x), path + rest) == Get(x, rest)
    decreases |path|
  {
    if path == [] {
      assert path + rest == rest;
    } else {
      var child := if path[0] in Children(t) then Children(t)[path[0]] else NIL;
      GetSetBelow(child, path[1..], x, rest);
      assert (path + rest)[1..] == path[1..] + rest;
    }
  }

  lemma {:induction false} GetBelow(t: Tree, path: Path, rest: Path)
    ensures Get(t, path + rest) == if Get(t, path).None? then None else Get(Get(t, path).value, rest)
    decreases |path|
  {
    if path == [] {
      assert path + rest == rest;
    } else {
      assert (path + rest)[1..] == path[1..] + rest;
      if t.Node? && path[0] in t.children {
        GetBelow(t.children[path[0]], path[1..], rest);
      }
    }
  }

  lemma {:induction false} GetSetElsewhere(t: Tree, path: Path, x: Tree, other: Path)
    requires Unrelated(path, other)
    ensures Get(Set(t, path, x), other) == Get(t, other)
    decreases |path|
  {
    if path[0] == other[0] {
      var child := if path[0] in Children(t) then Children(t)[path[0]] else NIL;
      GetSetElsewhere(child, path[1..], x, other[1..]);
    }
  }

  lemma {:induction false} SetSet(t: Tree, path: Path, x: Tree, y: Tree)
    ensures Set(Set(t, path, x), path, y) == Set(t, path, y)
    decreases |path|
  {
    if path != [] {
      var child := if path[0] in Children(t) then Children(t)[path[0]] else NIL;
      SetSet(child, path[1..], x, y);
      var once := Set(t, path, x);
      assert Children(once)[path[0] := Set(child, path[1..], y)] == Children(t)[path[0] := Set(child, path[1..], y)];
    }
  }

  /** Setting below a path is setting at the path. */
  lemma {:induction false} SetBelow(t: Tree, path: Path, rest: Path, x: Tree)
    ensures Set(t, path + rest, x) == Set(t, path, Set(if Get(t, path).Some? then Get(t, path).value else NIL, rest, x))
    decreases |path|
  {
    if path == [] {
      assert path + rest == rest;
    } else {
      assert (path + rest)[1..] == path[1..] + rest;
      var child := if path[0] in Children(t) then Children(t)[path[0]] else NIL;
      SetBelow(child, path[1..], rest, x);
      assert Get(child, path[1..]) == Get(t, path) || (Get(t, path).None? && child == NIL);
      if child == NIL {
        NilHasNothing(path[1..]);
      }
    }
  }

  lemma NilHasNothing(path: Path)
    ensures Get(NIL, path) == if path == [] then Some(NIL) else None
  {
  }

  lemma {:induction false} SetSame(t: Tree, path: Path)
    requires Get(t, path).Some?
    ensures Set(t, path, Get(t, path).value) == t
    decreases |path|
  {
    if path != [] {
      SetSame(t.children[path[0]], path[1..]);
      assert t.children[path[0] := t.children[path[0]]] == t.children;
    }
  }

  // ---- Merging.

  /** No object meets a scalar or list: then `merge` keeps every layer's shape. */
  ghost predicate Compatible(a: Tree, b: Tree)
    decreases a
  {
    if a.Node? then b.Node? && forall k :: k in a.children && k in b.children ==> Compatible(a.children[k], b.children[k])
    else b.Leaf?
  }

  ghost predicate NullFree(t: Tree) {
    match t
    case Leaf(v) => v != Null
    case Node(children) => forall k :: k in children ==> NullFree(children[k])
  }

  /** Lists merge by position; any other source value replaces. */
  function MergeValue(a: Value, b: Value): Value {
    if a.List? && b.List? && |b.items| < |a.items| then List(b.items + a.items[|b.items|..]) else b
  }

  /** `_.merge(a, b)`; a scalar or list takes the place of an object, and an object that of a scalar. */
  function Merge(a: Tree, b: Tree): Tree
    decreases a
  {
    if b.Leaf? then if a.Leaf? then Leaf(MergeValue(a.value, b.value)) else b
    else if a.Leaf? then b
    else
      Node(map k | k in a.children.Keys + b.children.Keys ::
        if k !in b.children then a.children[k]
        else if k !in a.children then b.children[k]
        else Merge(a.children[k], b.children[k]))
  }

  ghost predicate MergedAt(a: Option<Tree>, b: Option<Tree>, m: Option<Tree>) {
    if b.None? then m == a
    else if a.None? then m == b
    else Compatible(a.value, b.value) && m == Some(Merge(a.value, b.value))
  }

  lemma {:induction false} GetMerge(a: Tree, b: Tree, path: Path)
    requires Compatible(a, b)
    ensures MergedAt(Get(a, path), Get(b, path), Get(Merge(a, b), path))
    decreases |path|
  {
    if path != [] && a.Node? && path[0] in a.children && path[0] in b.children {
      GetMerge(a.children[path[0]], b.children[path[0]], path[1..]);
    }
  }

  lemma {:induction false} MergeNullFree(a: Tree, b: Tree)
    requires Compatible(a, b) && NullFree(a) && NullFree(b)
    ensures NullFree(Merge(a, b))
    decreases a
  {
    if a.Node? {
      forall k | k in a.children && k in b.children
        ensures NullFree(Merge(a.children[k], b.children[k]))
      {
        MergeNullFree(a.children[k], b.children[k]);
      }
    }
  }

  lemma {:induction false} MergeCompatible(a: Tree, b: Tree, c: Tree)
    requires Compatible(a, b) && Compatible(a, c) && Compatible(b, c)
    ensures Compatible(Merge(a, b), c)
    decreases a
  {
    if a.Node? {
      forall k | k in a.children && k in b.children && k in c.children
        ensures Compatible(Merge(a.children[k], b.children[k]), c.children[k])
      {
        MergeCompatible(a.children[k], b.children[k], c.children[k]);
      }
    }
  }

  lemma {:induction false} NullFreeGet(t: Tree, path: Path)
    requires NullFree(t) && Get(t, path).Some?
    ensures NullFree(Get(t, path).value)
    decreases |path|
  {
    if path != [] {
      NullFreeGet(t.children[path[0]], path[1..]);
    }
  }

  lemma ListsMergeByPosition(a: seq<Item>, b: seq<Item>)
    ensures var m := MergeValue(List(a), List(b));
      && m.List? && |m.items| == (if |b| < |a| then |a| else |b|)
      && forall i :: 0 <= i < |m.items| ==> m.items[i] == if i < |b| then b[i] else a[i]
  {
  }

  /** Where both trees have something, the merged one has the two merged; of a section and a value the later one stands. */
  lemma {:induction false} MergeAt(a: Tree, b: Tree, path: Path)
    requires Get(a, path).Some? && Get(b, path).Some?
    ensures Get(Merge(a, b), path) == Some(Merge(Get(a, path).value, Get(b, path).value))
    ensures Get(a, path).value.Node? != Get(b, path).value.Node? ==> Get(Merge(a, b), path) == Get(b, path)
    decreases |path|
  {
    if path != [] {
      MergeAt(a.children[path[0]], b.children[path[0]], path[1..]);
    }
  }

  /** Where only one of two sections has a key, its subtree is taken over as it is. */
  lemma MergeKeys(a: Tree, b: Tree, key: string)
    requires a.Node? && b.Node?
    ensures Child(b, key).None? ==> Child(Merge(a, b), key) == Child(a, key)
    ensures Child(a, key).None? ==> Child(Merge(a, b), key) == Child(b, key)
  {
  }
}
