/** The folder tree, built through an index of ids over shared nodes, and the walk from a folder to its ancestors. */
module FolderTree {
  import opened Text

  datatype Folder = Folder(id: nat, parentId: Option<nat>, name: string)

  function NodeId(id: nat): string {
    "folder-" + Dec(id)
  }

  lemma NodeIdInjective(a: nat, b: nat)
    requires NodeId(a) == NodeId(b)
    ensures a == b
  {
    assert NodeId(a)[7..] == Dec(a) && NodeId(b)[7..] == Dec(b);
    DecInjective(a, b);
  }

  /** A missing parent and the id 0 are both no parent. */
  function ParentNodeId(f: Folder): Option<string> {
    if f.parentId.Some? && f.parentId.value != 0 then Some(NodeId(f.parentId.value)) else None
  }

  // ---- The tree as it should be, over positions in the list.

  /** The last of the first n folders with the node id: the one the index keeps. */
  function Indexed(folders: seq<Folder>, n: nat, nodeId: string): (r: Option<nat>)
    requires n <= |folders|
    ensures r.Some? ==> r.value < n && NodeId(folders[r.value].id) == nodeId
  {
    if n == 0 then None
    else if NodeId(folders[n - 1].id) == nodeId then Some(n - 1)
    else Indexed(folders, n - 1, nodeId)
  }

  function ParentOf(folders: seq<Folder>, j: nat): (r: Option<nat>)
    requires j < |folders|
    ensures r.Some? ==> r.value < |folders|
  {
    match ParentNodeId(folders[j])
    case None => None
    case Some(id) =>
      var parent := Indexed(folders, |folders|, id);
      if parent == Some(j) then None else parent
  }

  /** Quadratic reference: of the first n folders those whose parent is i, in order. */
  function ChildrenOf(folders: seq<Folder>, i: nat, n: nat): (r: seq<nat>)
    requires n <= |folders|
    ensures forall k :: 0 <= k < |r| ==> r[k] < n && ParentOf(folders, r[k]) == Some(i)
  {
    if n == 0 then []
    else ChildrenOf(folders, i, n - 1) + if ParentOf(folders, n - 1) == Some(i) then [n - 1] else []
  }

  class FolderNode {
    const id: string
    const parentId: Option<string>
    const folder: Folder
    var children: seq<FolderNode>

    constructor (folder: Folder)
      ensures this.folder == folder && id == NodeId(folder.id) && parentId == ParentNodeId(folder) && children == []
    {
      this.folder := folder;
      id := NodeId(folder.id);
      parentId := ParentNodeId(folder);
      children := [];
    }
  }

  ghost predicate NodesFor(nodes: seq<FolderNode>, folders: seq<Folder>) {
    && |nodes| == |folders|
    && (forall i :: 0 <= i < |nodes| ==>
         nodes[i].folder == folders[i] && nodes[i].id == NodeId(folders[i].id) && nodes[i].parentId == ParentNodeId(folders[i]))
    && (forall i, k :: 0 <= i < k < |nodes| ==> nodes[i] != nodes[k])
  }

  function Pick<T>(s: seq<T>, at: seq<nat>): (r: seq<T>)
    requires forall k :: 0 <= k < |at| ==> at[k] < |s|
    ensures |r| == |at| && forall k :: 0 <= k < |at| ==> r[k] == s[at[k]]
  {
    seq(|at|, k requires 0 <= k < |at| => s[at[k]])
  }

  method NewNodes(folders: seq<Folder>) returns (nodes: seq<FolderNode>)
    ensures NodesFor(nodes, folders)
    ensures forall i :: 0 <= i < |nodes| ==> fresh(nodes[i]) && nodes[i].children == []
  {
    nodes := [];
    for n := 0 to |folders|
      invariant |nodes| == n && NodesFor(nodes, folders[..n])
      invariant forall i :: 0 <= i < |nodes| ==> fresh(nodes[i]) && nodes[i].children == []
    {
      var node := new FolderNode(folders[n]);
      nodes := nodes + [node];
    }
  }

  /** The index maps each node id to the last node that has it. */
  ghost predicate Indexes(byId: map<string, FolderNode>, nodes: seq<FolderNode>, folders: seq<Folder>) {
    && |nodes| == |folders|
    && (forall id :: id in byId <==> Indexed(folders, |folders|, id).Some?)
    && (forall id :: id in byId ==> byId[id] == nodes[Indexed(folders, |folders|, id).value])
  }

  method IndexNodes(nodes: seq<FolderNode>, ghost folders: seq<Folder>) returns (byId: map<string, FolderNode>)
    requires NodesFor(nodes, folders)
    ensures Indexes(byId, nodes, folders)
  {
    byId := map[];
    for n := 0 to |nodes|
      invariant forall id :: id in byId <==> Indexed(folders, n, id).Some?
      invariant forall id :: id in byId ==> byId[id] == nodes[Indexed(folders, n, id).value]
    {
      byId := byId[nodes[n].id := nodes[n]];
    }
  }

  ghost predicate ChildrenUpTo(nodes: seq<FolderNode>, folders: seq<Folder>, n: nat)
    requires |nodes| == |folders| && n <= |folders|
    reads nodes
  {
    forall i :: 0 <= i < |nodes| ==> nodes[i].children == Pick(nodes, ChildrenOf(folders, i, n))
  }

  lemma PickMore<T>(s: seq<T>, at: seq<nat>, n: nat)
    requires n < |s| && forall k :: 0 <= k < |at| ==> at[k] < |s|
    ensures Pick(s, at + [n]) == Pick(s, at) + [s[n]]
  {
  }

  lemma ChildrenMore(folders: seq<Folder>, i: nat, n: nat)
    requires n < |folders|
    ensures ChildrenOf(folders, i, n + 1) == ChildrenOf(folders, i, n) + if ParentOf(folders, n) == Some(i) then [n] else []
  {
  }

  lemma NoChildrenYet(nodes: seq<FolderNode>, folders: seq<Folder>)
    requires |nodes| == |folders| && forall i :: 0 <= i < |nodes| ==> nodes[i].children == []
    ensures ChildrenUpTo(nodes, folders, 0)
  {
  }

  lemma SameNode(nodes: seq<FolderNode>, folders: seq<Folder>, i: nat, k: nat)
    requires NodesFor(nodes, folders) && i < |nodes| && k < |nodes|
    ensures nodes[i] == nodes[k] <==> i == k
    ensures nodes[i].parentId == ParentNodeId(folders[i])
  {
  }

  /** The node the index gives for a parent's id is the parent's. */
  lemma ParentNode(nodes: seq<FolderNode>, folders: seq<Folder>, byId: map<string, FolderNode>, n: nat)
    requires NodesFor(nodes, folders) && n < |nodes|
    requires Indexes(byId, nodes, folders)
    ensures ParentOf(folders, n).Some?
       <==> nodes[n].parentId.Some? && nodes[n].parentId.value in byId && byId[nodes[n].parentId.value] != nodes[n]
    ensures ParentOf(folders, n).Some? ==> byId[nodes[n].parentId.value] == nodes[ParentOf(folders, n).value]
  {
    assert |nodes| == |folders|;
    SameNode(nodes, folders, n, n);
    var id := ParentNodeId(folders[n]);
    if id.Some? {
      InIndex(byId, nodes, folders, id.value);
      var index := Indexed(folders, |folders|, id.value);
      hide Indexed, NodeId, ParentNodeId, NodesFor, Indexes;
      if index.Some? {
        SameNode(nodes, folders, index.value, n);
      }
    }
  }

  lemma InIndex(byId: map<string, FolderNode>, nodes: seq<FolderNode>, folders: seq<Folder>, id: string)
    requires Indexes(byId, nodes, folders)
    ensures id in byId <==> Indexed(folders, |folders|, id).Some?
    ensures id in byId ==> Indexed(folders, |folders|, id).value < |nodes| && byId[id] == nodes[Indexed(folders, |folders|, id).value]
  {
    hide Indexed;
  }

  /** Pushes a node to the children of its parent, which stands at one position only. */
  method Hang(ghost nodes: seq<FolderNode>, ghost at: nat, parent: FolderNode, node: FolderNode)
    requires at < |nodes| && nodes[at] == parent && forall i, k :: 0 <= i < k < |nodes| ==> nodes[i] != nodes[k]
    modifies parent
    ensures forall i :: 0 <= i < |nodes| ==> nodes[i].children == old(nodes[i].children) + if i == at then [node] else []
  {
    parent.children := parent.children + [node];
  }

  lemma NextChildren(nodes: seq<FolderNode>, folders: seq<Folder>, i: nat, n: nat)
    requires n < |folders| == |nodes|
    ensures Pick(nodes, ChildrenOf(folders, i, n + 1))
         == Pick(nodes, ChildrenOf(folders, i, n)) + if ParentOf(folders, n) == Some(i) then [nodes[n]] else []
  {
    hide Pick, ParentOf, ChildrenOf;
    ChildrenMore(folders, i, n);
    PickMore(nodes, ChildrenOf(folders, i, n), n);
    assert ChildrenOf(folders, i, n) + [] == ChildrenOf(folders, i, n);
    assert Pick(nodes, ChildrenOf(folders, i, n)) + [] == Pick(nodes, ChildrenOf(folders, i, n));
  }

  /** Hangs the n-th node under its parent, if the index knows one other than the node itself. */
  method AttachNode(nodes: seq<FolderNode>, ghost folders: seq<Folder>, byId: map<string, FolderNode>, n: nat)
    requires NodesFor(nodes, folders) && n < |nodes|
    requires Indexes(byId, nodes, folders)
    requires ChildrenUpTo(nodes, folders, n)
    modifies nodes
    ensures ChildrenUpTo(nodes, folders, n + 1)
  {
    var node := nodes[n];
    ParentNode(nodes, folders, byId, n);
    assert |nodes| == |folders| && forall i, k :: 0 <= i < k < |nodes| ==> nodes[i] != nodes[k];
    hide Pick, Indexed, NodeId, ParentOf, ChildrenOf, NodesFor, Indexes;
    ghost var at := ParentOf(folders, n);
    if node.parentId.Some? && node.parentId.value in byId {
      var parent := byId[node.parentId.value];
      if parent != node {
        Hang(nodes, at.value, parent, node);
      }
    }
    forall i | 0 <= i < |nodes|
      ensures nodes[i].children == Pick(nodes, ChildrenOf(folders, i, n + 1))
    {
      NextChildren(nodes, folders, i, n);
      assert old(nodes[i].children) == Pick(nodes, ChildrenOf(folders, i, n));
    }
  }

  method AttachNodes(nodes: seq<FolderNode>, ghost folders: seq<Folder>, byId: map<string, FolderNode>)
    requires NodesFor(nodes, folders) && Indexes(byId, nodes, folders)
    requires |nodes| == |folders| && ChildrenUpTo(nodes, folders, 0)
    modifies nodes
    ensures ChildrenUpTo(nodes, folders, |folders|)
  {
    hide Pick, Indexed, NodeId, ParentOf, NodesFor, ChildrenOf, Indexes, ChildrenUpTo;
    for n := 0 to |nodes|
      invariant ChildrenUpTo(nodes, folders, n)
    {
      AttachNode(nodes, folders, byId, n);
    }
  }

  /** Every node gets exactly the children the quadratic filter gives it, in input order. */
  method BuildFolderNodes(folders: seq<Folder>) returns (nodes: seq<FolderNode>)
    ensures NodesFor(nodes, folders)
    ensures forall i :: 0 <= i < |nodes| ==> fresh(nodes[i])
    ensures forall i :: 0 <= i < |nodes| ==> nodes[i].children == Pick(nodes, ChildrenOf(folders, i, |folders|))
  {
    nodes := NewNodes(folders);
    var byId := IndexNodes(nodes, folders);
    NoChildrenYet(nodes, folders);
    hide Pick, Indexed, NodeId, ParentOf, ChildrenOf, Indexes;
    AttachNodes(nodes, folders, byId);
  }

  // ---- What a tree this is.

  ghost predicate DistinctIds(folders: seq<Folder>) {
    forall i, k :: 0 <= i < k < |folders| ==> folders[i].id != folders[k].id
  }

  lemma {:induction false} IndexedLast(folders: seq<Folder>, n: nat, id: nat, i: nat)
    requires n <= |folders|
    ensures Indexed(folders, n, NodeId(id)) == Some(i)
       <==> i < n && folders[i].id == id && forall k :: i < k < n ==> folders[k].id != id
  {
    hide NodeId;
    if n > 0 {
      IndexedLast(folders, n - 1, id, i);
      if NodeId(folders[n - 1].id) == NodeId(id) {
        NodeIdInjective(folders[n - 1].id, id);
      }
    }
  }

  /** A folder's parent is the last of the folders with the id it names, unless that is 0 or the folder itself. */
  lemma ParentById(folders: seq<Folder>, i: nat, j: nat)
    requires i < |folders| && j < |folders|
    ensures ParentOf(folders, j) == Some(i)
       <==> i != j && folders[j].parentId == Some(folders[i].id) && folders[i].id != 0
            && forall k :: i < k < |folders| ==> folders[k].id != folders[i].id
  {
    if folders[j].parentId.Some? {
      IndexedLast(folders, |folders|, folders[j].parentId.value, i);
    }
    hide NodeId, Indexed;
  }

  lemma {:induction false} ChildrenComplete(folders: seq<Folder>, i: nat, n: nat, j: nat)
    requires j < n <= |folders| && ParentOf(folders, j) == Some(i)
    ensures j in ChildrenOf(folders, i, n)
    decreases n
  {
    hide *;
    ChildrenMore(folders, i, n - 1);
    if j < n - 1 {
      ChildrenComplete(folders, i, n - 1, j);
    }
    InEither(ChildrenOf(folders, i, n - 1), if ParentOf(folders, n - 1) == Some(i) then [n - 1] else [], j);
  }

  lemma InEither(a: seq<nat>, b: seq<nat>, x: nat)
    ensures x in a + b <==> x in a || x in b
  {
  }

  lemma {:induction false} ChildrenIncreasing(folders: seq<Folder>, i: nat, n: nat)
    requires n <= |folders|
    ensures forall k, l :: 0 <= k < l < |ChildrenOf(folders, i, n)| ==> ChildrenOf(folders, i, n)[k] < ChildrenOf(folders, i, n)[l]
  {
    hide ParentOf;
    if n > 0 {
      ChildrenIncreasing(folders, i, n - 1);
    }
  }

  /** A folder stands in one children list at most, that of its parent, and there once. */
  lemma OneChildrenList(folders: seq<Folder>, j: nat, i: nat, k: nat, i': nat, k': nat)
    requires j < |folders|
    requires k < |ChildrenOf(folders, i, |folders|)| && ChildrenOf(folders, i, |folders|)[k] == j
    requires k' < |ChildrenOf(folders, i', |folders|)| && ChildrenOf(folders, i', |folders|)[k'] == j
    ensures i == i' && k == k' && ParentOf(folders, j) == Some(i)
  {
    ChildrenIncreasing(folders, i, |folders|);
  }

  /** A way down from a root to folder j through children lists. */
  ghost predicate RootPath(folders: seq<Folder>, p: seq<nat>, j: nat) {
    && p != [] && p[|p| - 1] == j
    && (forall k :: 0 <= k < |p| ==> p[k] < |folders|)
    && ParentOf(folders, p[0]).None?
    && forall k :: 0 <= k < |p| - 1 ==> p[k + 1] in ChildrenOf(folders, p[k], |folders|)
  }

  ghost predicate Ranks(folders: seq<Folder>, rank: seq<nat>) {
    && |rank| == |folders|
    && forall j :: 0 <= j < |folders| && ParentOf(folders, j).Some? ==> rank[ParentOf(folders, j).value] < rank[j]
  }

  /** Parent links never lead back: positions can be ranked so that parents come before children. */
  ghost predicate Acyclic(folders: seq<Folder>) {
    exists rank :: Ranks(folders, rank)
  }

  /** There is at most one way down to a folder. */
  lemma {:induction false} PathsAgree(folders: seq<Folder>, p: seq<nat>, q: seq<nat>, j: nat)
    requires j < |folders| && RootPath(folders, p, j) && RootPath(folders, q, j)
    ensures p == q
    decreases |p|
  {
    if ParentOf(folders, j).None? {
      assert |p| > 1 ==> p[|p| - 2 + 1] in ChildrenOf(folders, p[|p| - 2], |folders|);
      assert |q| > 1 ==> q[|q| - 2 + 1] in ChildrenOf(folders, q[|q| - 2], |folders|);
      assert p == [j] && q == [j];
    } else {
      var i := ParentOf(folders, j).value;
      PathStep(folders, p, j, i);
      PathStep(folders, q, j, i);
      PathsAgree(folders, p[..|p| - 1], q[..|q| - 1], i);
      assert p == p[..|p| - 1] + [j] && q == q[..|q| - 1] + [j];
    }
  }

  lemma PathStep(folders: seq<Folder>, p: seq<nat>, j: nat, i: nat)
    requires j < |folders| && RootPath(folders, p, j) && ParentOf(folders, j) == Some(i)
    ensures |p| > 1 && RootPath(folders, p[..|p| - 1], i)
  {
    assert p[|p| - 2 + 1] in ChildrenOf(folders, p[|p| - 2], |folders|);
  }

  lemma PathExtends(folders: seq<Folder>, q: seq<nat>, i: nat, j: nat)
    requires RootPath(folders, q, i) && j in ChildrenOf(folders, i, |folders|) && j < |folders|
    ensures RootPath(folders, q + [j], j)
  {
    hide ChildrenOf, ParentOf;
  }

  lemma {:induction false} PathExists(folders: seq<Folder>, rank: seq<nat>, j: nat) returns (p: seq<nat>)
    requires Ranks(folders, rank) && j < |folders|
    ensures RootPath(folders, p, j)
    decreases rank[j]
  {
    if ParentOf(folders, j).None? {
      p := [j];
    } else {
      hide RootPath, ChildrenOf, ParentOf;
      var i := ParentOf(folders, j).value;
      var q := PathExists(folders, rank, i);
      ChildrenComplete(folders, i, |folders|, j);
      PathExtends(folders, q, i, j);
      p := q + [j];
    }
  }

  ghost function Depth(folders: seq<Folder>, j: nat): nat {
    if exists p :: RootPath(folders, p, j) then var p :| RootPath(folders, p, j); |p| else 0
  }

  ghost predicate OnlyPath(folders: seq<Folder>, p: seq<nat>, j: nat) {
    forall q :: RootPath(folders, q, j) ==> q == p
  }

  ghost predicate ReachedOnce(folders: seq<Folder>, j: nat) {
    exists p :: RootPath(folders, p, j) && OnlyPath(folders, p, j)
  }

  lemma AcyclicReachesOnce(folders: seq<Folder>, j: nat)
    requires Acyclic(folders) && j < |folders|
    ensures ReachedOnce(folders, j)
  {
    var rank :| Ranks(folders, rank);
    var p := PathExists(folders, rank, j);
    forall q | RootPath(folders, q, j)
      ensures q == p
    {
      PathsAgree(folders, q, p, j);
    }
    assert OnlyPath(folders, p, j);
  }

  lemma DeeperThanParent(folders: seq<Folder>, j: nat, i: nat)
    requires j < |folders| && ParentOf(folders, j) == Some(i) && ReachedOnce(folders, j)
    ensures Depth(folders, i) < Depth(folders, j)
  {
    hide Depth, RootPath, ParentOf;
    var p :| RootPath(folders, p, j);
    PathStep(folders, p, j, i);
    DepthOf(folders, p, j);
    DepthOf(folders, p[..|p| - 1], i);
  }

  lemma DepthOf(folders: seq<Folder>, p: seq<nat>, j: nat)
    requires j < |folders| && RootPath(folders, p, j)
    ensures Depth(folders, j) == |p|
  {
    hide RootPath;
    var q :| RootPath(folders, q, j) && |q| == Depth(folders, j);
    PathsAgree(folders, p, q, j);
  }

  /** The roots reach every folder, each in exactly one way, if and only if parent links are acyclic. */
  lemma RootsReachAllIffAcyclic(folders: seq<Folder>)
    ensures Acyclic(folders) <==> forall j :: 0 <= j < |folders| ==> ReachedOnce(folders, j)
  {
    if Acyclic(folders) {
      forall j | 0 <= j < |folders|
        ensures ReachedOnce(folders, j)
      {
        AcyclicReachesOnce(folders, j);
      }
    }
    if forall j :: 0 <= j < |folders| ==> ReachedOnce(folders, j) {
      var rank := seq(|folders|, (j: nat) requires j < |folders| => Depth(folders, j));
      forall j | 0 <= j < |folders| && ParentOf(folders, j).Some?
        ensures rank[ParentOf(folders, j).value] < rank[j]
      {
        DeeperThanParent(folders, j, ParentOf(folders, j).value);
      }
      assert Ranks(folders, rank);
    }
  }

  // ---- Ancestors.

  function IndexOf(list: seq<Folder>, id: nat): (n: nat)
    ensures n <= |list|
    ensures n < |list| ==> list[n].id == id
    ensures forall k :: 0 <= k < n ==> list[k].id != id
  {
    if list == [] || list[0].id == id then 0 else 1 + IndexOf(list[1..], id)
  }

  /** Where a position of the list without the folder at `index` stands in the list. */
  function Shift(n: nat, index: nat): nat {
    if n < index then n else n + 1
  }

  function Drop(list: seq<Folder>, index: nat): (r: seq<Folder>)
    requires index < |list|
    ensures |r| == |list| - 1 && forall n :: 0 <= n < |r| ==> r[n] == list[Shift(n, index)]
  {
    list[..index] + list[index + 1..]
  }

  /** The walk drops each folder it has passed from the list, so it ends even when parent links run in a circle. */
  method GetSelfAndAncestors(selfId: Option<nat>, list: seq<Folder>, returnList: seq<Folder>)
    returns (r: seq<Folder>, ghost at: seq<nat>)
    ensures WalksAt(selfId, list, at) && r == returnList + Pick(list, at)
    ensures DistinctIds(list) ==> IsWalk(selfId, list, Pick(list, at))
    decreases |list|
  {
    hide WalksAt, IsWalk, Drop, Pick, DistinctIds;
    at := [];
    NowhereToGo(selfId, list);
    if selfId.None? {
      return returnList, [];
    }
    var index := IndexOf(list, selfId.value);
    if index == |list| {
      return returnList, [];
    }
    var self := list[index];
    var filteredList := Drop(list, index);
    ghost var further: seq<nat>;
    r, further := GetSelfAndAncestors(self.parentId, filteredList, returnList + [self]);
    at := [index] + Shifted(further, index);
    WalksOn(list, index, further);
    ShiftsInto(list, index, further);
    PutTogether(returnList, self, Pick(filteredList, further));
    if DistinctIds(list) {
      Dropped(list, index);
      WalkStep(list, index, Pick(filteredList, further));
    }
  }

  lemma PutTogether(a: seq<Folder>, f: Folder, b: seq<Folder>)
    ensures a + [f] + b == a + ([f] + b)
  {
  }

  // ---- The walk by positions: with ids that are not distinct too.

  ghost predicate InRange(list: seq<Folder>, at: seq<nat>) {
    forall i :: 0 <= i < |at| ==> at[i] < |list|
  }

  /** The id the walk looks for after its first k folders. */
  function SoughtAfter(selfId: Option<nat>, list: seq<Folder>, at: seq<nat>, k: nat): Option<nat>
    requires k <= |at| && forall i :: 0 <= i < |at| ==> at[i] < |list|
  {
    if k == 0 then selfId else list[at[k - 1]].parentId
  }

  /** Position n is the first one not used yet that has the id. */
  ghost predicate FirstUnused(list: seq<Folder>, used: seq<nat>, id: Option<nat>, n: nat) {
    && n < |list| && n !in used && id == Some(list[n].id)
    && forall m :: 0 <= m < n && m !in used ==> list[m].id != list[n].id
  }

  ghost predicate NoneUnused(list: seq<Folder>, used: seq<nat>, id: Option<nat>) {
    forall n :: 0 <= n < |list| && n !in used ==> id != Some(list[n].id)
  }

  /**
   * The walk goes to the first folder with the id sought that it has not been to, from there on by its parent's id, and
   * stops when there is none.
   */
  ghost predicate WalksAt(selfId: Option<nat>, list: seq<Folder>, at: seq<nat>)
    ensures WalksAt(selfId, list, at) ==> forall i :: 0 <= i < |at| ==> at[i] < |list|
  {
    && InRange(list, at)
    && (forall k :: 0 <= k < |at| ==> FirstUnused(list, at[..k], SoughtAfter(selfId, list, at, k), at[k]))
    && NoneUnused(list, at, SoughtAfter(selfId, list, at, |at|))
  }

  lemma NowhereToGo(selfId: Option<nat>, list: seq<Folder>)
    ensures selfId.None? || IndexOf(list, selfId.value) == |list| ==> WalksAt(selfId, list, []) && IsWalk(selfId, list, [])
    ensures Pick(list, []) == []
  {
  }

  function Shifted(at: seq<nat>, index: nat): (r: seq<nat>)
    ensures |r| == |at| && forall k :: 0 <= k < |at| ==> r[k] == Shift(at[k], index)
  {
    seq(|at|, k requires 0 <= k < |at| => Shift(at[k], index))
  }

  /** The position of the shorter list that stands at n, if n is not the dropped one. */
  function Unshift(n: nat, index: nat): nat
    requires n != index
  {
    if n < index then n else n - 1
  }

  lemma UsedAlike(further: seq<nat>, index: nat, n: nat)
    requires n != index
    ensures n in [index] + Shifted(further, index) <==> Unshift(n, index) in further
  {
    var at := [index] + Shifted(further, index);
    if n in at {
      var k :| 0 <= k < |at| && at[k] == n;
      assert Shifted(further, index)[k - 1] == n;
      assert further[k - 1] == Unshift(n, index);
    }
    if Unshift(n, index) in further {
      var k :| 0 <= k < |further| && further[k] == Unshift(n, index);
      assert at[k + 1] == n;
    }
  }

  lemma Unused(list: seq<Folder>, index: nat, further: seq<nat>, n: nat)
    requires index < |list| && n < |list| && n !in [index] + Shifted(further, index)
    ensures n != index && Unshift(n, index) < |list| - 1 && Unshift(n, index) !in further
    ensures Drop(list, index)[Unshift(n, index)] == list[n]
  {
    hide Drop;
    assert ([index] + Shifted(further, index))[0] == index;
    UsedAlike(further, index, n);
  }

  lemma FirstUnusedShifts(list: seq<Folder>, index: nat, used: seq<nat>, id: Option<nat>, n: nat)
    requires index < |list| && FirstUnused(Drop(list, index), used, id, n)
    ensures FirstUnused(list, [index] + Shifted(used, index), id, Shift(n, index))
  {
    hide Drop;
    UsedAlike(used, index, Shift(n, index));
    forall m | 0 <= m < Shift(n, index) && m !in [index] + Shifted(used, index)
      ensures list[m].id != list[Shift(n, index)].id
    {
      Unused(list, index, used, m);
    }
  }

  lemma ShiftsInto(list: seq<Folder>, index: nat, further: seq<nat>)
    requires index < |list| && forall i :: 0 <= i < |further| ==> further[i] < |list| - 1
    ensures InRange(list, [index] + Shifted(further, index))
    ensures Pick(list, [index] + Shifted(further, index)) == [list[index]] + Pick(Drop(list, index), further)
  {
    hide Drop;
    var more := Shifted(further, index);
    forall i | 0 <= i < |further|
      ensures more[i] < |list| && list[more[i]] == Drop(list, index)[further[i]]
    {
    }
    forall k | 0 <= k < |[index] + more|
      ensures ([index] + more)[k] < |list|
    {
      assert k > 0 ==> ([index] + more)[k] == more[k - 1];
    }
  }

  lemma ShiftedTake(further: seq<nat>, index: nat, k: nat)
    requires k < |further|
    ensures ([index] + Shifted(further, index))[..k + 1] == [index] + Shifted(further[..k], index)
    ensures ([index] + Shifted(further, index))[k + 1] == Shift(further[k], index)
  {
  }

  lemma SoughtShifts(list: seq<Folder>, index: nat, further: seq<nat>, k: nat)
    requires index < |list| && k <= |further| && forall i :: 0 <= i < |further| ==> further[i] < |list| - 1
    ensures InRange(list, [index] + Shifted(further, index))
    ensures SoughtAfter(Some(list[index].id), list, [index] + Shifted(further, index), k + 1)
         == SoughtAfter(list[index].parentId, Drop(list, index), further, k)
  {
    ShiftsInto(list, index, further);
    hide Drop, Pick;
  }

  lemma StepShifts(list: seq<Folder>, index: nat, further: seq<nat>, k: nat)
    requires index < |list| && k < |further| && WalksAt(list[index].parentId, Drop(list, index), further)
    ensures InRange(list, [index] + Shifted(further, index))
    ensures var at := [index] + Shifted(further, index);
      FirstUnused(list, at[..k + 1], SoughtAfter(Some(list[index].id), list, at, k + 1), at[k + 1])
  {
    var at := [index] + Shifted(further, index);
    var parent, fewer := list[index].parentId, Drop(list, index);
    assert FirstUnused(fewer, further[..k], SoughtAfter(parent, fewer, further, k), further[k]);
    ShiftedTake(further, index, k);
    hide Drop, FirstUnused, WalksAt, Shifted, Shift, SoughtAfter;
    FirstUnusedShifts(list, index, further[..k], SoughtAfter(parent, fewer, further, k), further[k]);
    SoughtShifts(list, index, further, k);
  }

  lemma NoneShifts(list: seq<Folder>, index: nat, further: seq<nat>, id: Option<nat>)
    requires index < |list| && NoneUnused(Drop(list, index), further, id)
    ensures NoneUnused(list, [index] + Shifted(further, index), id)
  {
    hide Drop;
    forall n | 0 <= n < |list| && n !in [index] + Shifted(further, index)
      ensures id != Some(list[n].id)
    {
      Unused(list, index, further, n);
    }
  }

  lemma WalksOn(list: seq<Folder>, index: nat, further: seq<nat>)
    requires index < |list| && WalksAt(list[index].parentId, Drop(list, index), further)
    requires forall k :: 0 <= k < index ==> list[k].id != list[index].id
    ensures WalksAt(Some(list[index].id), list, [index] + Shifted(further, index))
  {
    var at, self := [index] + Shifted(further, index), Some(list[index].id);
    ShiftsInto(list, index, further);
    SoughtShifts(list, index, further, |further|);
    NoneShifts(list, index, further, SoughtAfter(list[index].parentId, Drop(list, index), further, |further|));
    assert FirstUnused(list, at[..0], self, at[0]);
    forall k | 0 <= k < |at|
      ensures FirstUnused(list, at[..k], SoughtAfter(self, list, at, k), at[k])
    {
      hide FirstUnused, Drop, NoneUnused, SoughtAfter, Pick;
      if k > 0 {
        StepShifts(list, index, further, k - 1);
      } else {
        FirstSought(self, list, at);
      }
    }
  }

  lemma FirstSought(selfId: Option<nat>, list: seq<Folder>, at: seq<nat>)
    requires forall i :: 0 <= i < |at| ==> at[i] < |list|
    ensures SoughtAfter(selfId, list, at, 0) == selfId
  {
  }

  ghost predicate Knows(list: seq<Folder>, id: Option<nat>) {
    id.Some? && exists k :: 0 <= k < |list| && list[k].id == id.value
  }

  ghost predicate Visited(r: seq<Folder>, id: Option<nat>) {
    id.Some? && exists k :: 0 <= k < |r| && r[k].id == id.value
  }

  function NextId(selfId: Option<nat>, r: seq<Folder>): Option<nat> {
    if r == [] then selfId else r[|r| - 1].parentId
  }

  /**
   * The walk starts at the folder asked for, follows parent links one by one, never repeats a folder, and stops only
   * when the next one is unknown or has been visited.
   */
  ghost predicate IsWalk(selfId: Option<nat>, list: seq<Folder>, r: seq<Folder>) {
    && (forall k :: 0 <= k < |r| ==> r[k] in list)
    && (forall i, k :: 0 <= i < k < |r| ==> r[i].id != r[k].id)
    && (r != [] ==> selfId == Some(r[0].id))
    && (forall k :: 0 <= k < |r| - 1 ==> r[k].parentId == Some(r[k + 1].id))
    && (!Knows(list, NextId(selfId, r)) || Visited(r, NextId(selfId, r)))
  }

  lemma Dropped(list: seq<Folder>, index: nat)
    requires DistinctIds(list) && index < |list|
    ensures DistinctIds(Drop(list, index))
    ensures forall f :: f in Drop(list, index) ==> f in list && f.id != list[index].id
    ensures forall f :: f in list && f.id != list[index].id ==> f in Drop(list, index)
  {
    var fewer := Drop(list, index);
    forall k | 0 <= k < |fewer|
      ensures fewer[k] == list[if k < index then k else k + 1]
    {
    }
    forall k | 0 <= k < |list| && k != index
      ensures list[k] == fewer[if k < index then k else k - 1]
    {
    }
  }

  lemma WalkStops(list: seq<Folder>, index: nat, rest: seq<Folder>)
    requires DistinctIds(list) && index < |list|
    requires IsWalk(list[index].parentId, Drop(list, index), rest)
    ensures var next := NextId(list[index].parentId, rest); !Knows(list, next) || Visited([list[index]] + rest, next)
  {
    var next, r := NextId(list[index].parentId, rest), [list[index]] + rest;
    Dropped(list, index);
    assert Knows(Drop(list, index), next) ==> Visited(rest, next);
    hide Drop, DistinctIds, NextId, IsWalk;
    if Knows(list, next) {
      var k :| 0 <= k < |list| && list[k].id == next.value;
      if list[k].id == list[index].id {
        assert r[0].id == next.value;
      } else {
        assert list[k] in Drop(list, index);
        assert Knows(Drop(list, index), next);
        var v :| 0 <= v < |rest| && rest[v].id == next.value;
        assert r[v + 1].id == next.value;
      }
    }
  }

  lemma WalkStep(list: seq<Folder>, index: nat, rest: seq<Folder>)
    requires DistinctIds(list) && index < |list|
    requires IsWalk(list[index].parentId, Drop(list, index), rest)
    ensures IsWalk(Some(list[index].id), list, [list[index]] + rest)
  {
    var self, r := list[index], [list[index]] + rest;
    WalkStops(list, index, rest);
    assert NextId(Some(self.id), r) == NextId(self.parentId, rest);
    Dropped(list, index);
    forall k | 0 <= k < |r|
      ensures r[k] in list
    {
      if k > 0 {
        assert r[k] == rest[k - 1] && rest[k - 1] in Drop(list, index);
      }
    }
    forall k | 0 <= k < |r| - 1
      ensures r[k].parentId == Some(r[k + 1].id)
    {
      if k > 0 {
        assert r[k] == rest[k - 1] && r[k + 1] == rest[k - 1 + 1];
      }
    }
    forall i, k | 0 <= i < k < |r|
      ensures r[i].id != r[k].id
    {
      assert r[k] == rest[k - 1] && rest[k - 1] in Drop(list, index);
    }
  }

  /** Those properties leave one list only. */
  lemma {:induction false} WalkUnique(selfId: Option<nat>, list: seq<Folder>, r: seq<Folder>, s: seq<Folder>)
    requires DistinctIds(list) && IsWalk(selfId, list, r) && IsWalk(selfId, list, s)
    ensures r == s
  {
    if |r| <= |s| {
      ShorterWalk(selfId, list, r, s);
    } else {
      ShorterWalk(selfId, list, s, r);
    }
  }

  lemma SameFolder(list: seq<Folder>, f: Folder, g: Folder)
    requires DistinctIds(list) && f in list && g in list && f.id == g.id
    ensures f == g
  {
  }

  lemma {:induction false} WalksAgree(selfId: Option<nat>, list: seq<Folder>, r: seq<Folder>, s: seq<Folder>, n: nat)
    requires DistinctIds(list) && IsWalk(selfId, list, r) && IsWalk(selfId, list, s) && n <= |r| <= |s|
    ensures r[..n] == s[..n]
  {
    if n > 0 {
      WalksAgree(selfId, list, r, s, n - 1);
      if n > 1 {
        assert r[n - 2] == r[..n - 1][n - 2] && s[n - 2] == s[..n - 1][n - 2];
        assert r[n - 2].parentId == Some(r[n - 2 + 1].id) && s[n - 2].parentId == Some(s[n - 2 + 1].id);
      }
      SameFolder(list, r[n - 1], s[n - 1]);
      assert r[..n] == r[..n - 1] + [r[n - 1]] && s[..n] == s[..n - 1] + [s[n - 1]];
    }
  }

  lemma ShorterWalk(selfId: Option<nat>, list: seq<Folder>, r: seq<Folder>, s: seq<Folder>)
    requires DistinctIds(list) && IsWalk(selfId, list, r) && IsWalk(selfId, list, s) && |r| <= |s|
    ensures r == s
  {
    WalksAgree(selfId, list, r, s, |r|);
    if |r| < |s| {
      var next := s[|r|];
      assert |r| > 0 ==> r[|r| - 1] == s[..|r|][|r| - 1];
      assert |r| > 0 ==> s[|r| - 1].parentId == Some(s[|r| - 1 + 1].id);
      assert NextId(selfId, r) == Some(next.id);
      var n :| 0 <= n < |list| && list[n] == next;
      assert Knows(list, NextId(selfId, r));
    }
  }
}
