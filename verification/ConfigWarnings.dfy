/** The warnings collected while loading: unrecognized keys, conflicts with the system layer, deprecated keys. */
module ConfigWarnings {
  import opened Text
  import opened ConfigTree
  import opened ConfigProvider

  // ---- Conflict warnings.

  ghost predicate LeafPath(t: Tree, path: Path) {
    Get(t, path).Some? && Get(t, path).value.Leaf?
  }

  ghost predicate NoRepeats(s: seq<Path>) {
    forall i, k :: 0 <= i < k < |s| ==> s[i] != s[k]
  }

  /** The paths, below `parent`, of the leaves under some of an object's keys that the target also has. */
  ghost predicate Conflict(obj: map<string, Tree>, keys: set<string>, target: Tree, parent: Path, path: Path) {
    && |path| > |parent| && path[..|parent|] == parent && path[|parent|] in keys && path[|parent|] in obj
    && LeafPath(obj[path[|parent|]], path[|parent| + 1..])
    && Get(target, path).Some?
  }

  /** None is the error of asking null, whose type is "object" too, for its keys. */
  method Traverse(obj: Tree, target: Tree, parent: Path) returns (results: Option<seq<Path>>)
    requires obj.Node?
    ensures results.Some? <==> NullFree(obj)
    ensures results.Some? ==> NoRepeats(results.value)
    ensures results.Some? ==> forall path :: path in results.value <==> Conflict(obj.children, obj.children.Keys, target, parent, path)
    decreases obj
  {
    var found: seq<Path> := [];
    var keys := obj.children.Keys;
    ghost var done: set<string> := {};
    while keys != {}
      invariant keys !! done && keys + done == obj.children.Keys
      invariant forall k :: k in done ==> NullFree(obj.children[k])
      invariant forall path :: path in found <==> Conflict(obj.children, done, target, parent, path)
      invariant NoRepeats(found)
      decreases keys
    {
      var key :| key in keys;
      var path, value := parent + [key], obj.children[key];
      var more: seq<Path> := [];
      if value == NIL {
        return None;
      } else if value.Node? {
        var below := Traverse(value, target, path);
        if below.None? {
          return None;
        }
        more := below.value;
      } else if Get(target, path).Some? {
        more := [path];
      }
      ConflictBelow(obj.children, key, target, parent);
      forall p
        ensures p in more <==> Conflict(obj.children, {key}, target, parent, p)
      {
      }
      ConflictsJoined(found, more, obj.children, done, key, target, parent);
      found := found + more;
      keys, done := keys - {key}, done + {key};
    }
    assert done == obj.children.Keys;
    results := Some(found);
  }

  /** The two lists belong to different keys. */
  lemma ConflictsJoined(a: seq<Path>, b: seq<Path>, obj: map<string, Tree>, done: set<string>, key: string, target: Tree, parent: Path)
    requires key !in done && NoRepeats(a) && NoRepeats(b)
    requires forall path :: path in a <==> Conflict(obj, done, target, parent, path)
    requires forall path :: path in b <==> Conflict(obj, {key}, target, parent, path)
    ensures NoRepeats(a + b)
    ensures forall path :: path in a + b <==> Conflict(obj, done + {key}, target, parent, path)
  {
    forall i, k | 0 <= i < |a| && 0 <= k < |b|
      ensures a[i] != b[k]
    {
      assert a[i] in a && b[k] in b;
    }
    NoRepeatsJoined(a, b);
    forall path
      ensures path in a + b <==> Conflict(obj, done + {key}, target, parent, path)
    {
      assert path in a + b <==> path in a || path in b;
    }
  }

  lemma ConflictBelow(obj: map<string, Tree>, key: string, target: Tree, parent: Path)
    requires key in obj
    ensures obj[key].Leaf? ==> forall p :: Conflict(obj, {key}, target, parent, p)
                                      <==> p == parent + [key] && Get(target, p).Some?
    ensures obj[key].Node? ==> forall p :: Conflict(obj, {key}, target, parent, p)
                                      <==> Conflict(obj[key].children, obj[key].children.Keys, target, parent + [key], p)
  {
    var v, n := obj[key], |parent|;
    forall p
      ensures v.Leaf? ==> (Conflict(obj, {key}, target, parent, p) <==> p == parent + [key] && Get(target, p).Some?)
      ensures v.Node? ==> (Conflict(obj, {key}, target, parent, p) <==> Conflict(v.children, v.children.Keys, target, parent + [key], p))
    {
      if |p| > n {
        assert p[..n + 1] == p[..n] + [p[n]];
        if p[..n] == parent && p[n] == key {
          if p[n + 1..] != [] {
            assert p[n + 1..][0] == p[n + 1] && p[n + 1..][1..] == p[n + 2..];
          } else {
            assert p == parent + [key];
          }
        }
      }
    }
  }

  /** Every leaf path of the source that the target also has, each once; an error if the source holds a null. */
  method CheckConflicts(source: Tree, target: Tree) returns (results: Option<seq<Path>>)
    requires source.Node?
    ensures results.Some? <==> NullFree(source)
    ensures results.Some? ==> NoRepeats(results.value)
    ensures results.Some? ==> forall path :: path in results.value <==> LeafPath(source, path) && Get(target, path).Some?
  {
    results := Traverse(source, target, []);
    forall path: Path
      ensures Conflict(source.children, source.children.Keys, target, [], path) <==> LeafPath(source, path) && Get(target, path).Some?
    {
      if path != [] {
        assert path[..0] == [] && path[0 + 1..] == path[1..];
      }
    }
  }

  /** Those are exactly the user's values that lookup ignores, wherever the system layer does not hold a null. */
  lemma ConflictIffIgnored(s: Source, path: Path)
    requires Clean(s.user) && "config" !in Children(s.system) && LeafPath(s.user, path)
    ensures (Get(s.system, path).Some? <==> Winner(s, path) != User) <==> Get(s.system, path) != Some(NIL)
  {
    NilIffAbsent(s.user, path);
  }

  /** The same walk over the deprecated entries: those a configuration still has, each once. */
  method CheckDeprecations(config: Tree, deprecations: Tree) returns (results: Option<seq<Path>>)
    requires deprecations.Node?
    ensures results.Some? <==> NullFree(deprecations)
    ensures results.Some? ==> NoRepeats(results.value)
    ensures results.Some? ==> forall path :: path in results.value <==> LeafPath(deprecations, path) && Get(config, path).Some?
  {
    results := CheckConflicts(deprecations, config);
  }

  // ---- Unrecognized keys.

  /** What counts as known: the defaults, the deprecated entries, and custom plugin registries. */
  datatype Known = Known(defaults: Tree, deprecated: Tree)

  predicate CustomRegistry(path: Path) {
    && |path| >= 3 && path[0] == "pluginSystem" && path[1] == "registries" && path[2] != ""
    && (|path| == 3 || (|path| == 4 && path[3] in {"owner", "repo", "file"}))
  }

  predicate Recognized(known: Known, path: Path) {
    Get(known.defaults, path).Some? || Get(known.deprecated, path).Some? || CustomRegistry(path)
  }

  /** The walk comes to the path: it is not among the plugins' own, and every section around it, inside `parent`, is recognized. */
  ghost predicate Reached(known: Known, parent: Path, path: Path) {
    && path != [] && path[0] != "plugins"
    && forall n :: |parent| < n < |path| ==> Recognized(known, path[..n])
  }

  /** The path is one of the object at `parent`, and begins there with one of the keys. */
  ghost predicate Inside(obj: map<string, Tree>, keys: set<string>, parent: Path, path: Path) {
    && |path| > |parent| && path[..|parent|] == parent && path[|parent|] in keys && path[|parent|] in obj
    && Get(obj[path[|parent|]], path[|parent| + 1..]).Some?
  }

  ghost predicate Unknown(known: Known, obj: map<string, Tree>, keys: set<string>, parent: Path, path: Path) {
    Inside(obj, keys, parent, path) && Reached(known, parent, path) && !Recognized(known, path)
  }

  /** A null the walk takes for a section. */
  ghost predicate Stumbles(known: Known, obj: map<string, Tree>, keys: set<string>, parent: Path, path: Path) {
    && Inside(obj, keys, parent, path) && Reached(known, parent, path) && Recognized(known, path)
    && Get(obj[path[|parent|]], path[|parent| + 1..]).value == NIL
  }

  ghost predicate Passable(known: Known, obj: map<string, Tree>, keys: set<string>, parent: Path) {
    forall path :: !Stumbles(known, obj, keys, parent, path)
  }

  lemma InsideBelow(obj: map<string, Tree>, key: string, parent: Path, path: Path)
    requires key in obj
    ensures Inside(obj, {key}, parent, path) && path != parent + [key] ==>
              obj[key].Node? && Inside(obj[key].children, obj[key].children.Keys, parent + [key], path)
    ensures obj[key].Node? && Inside(obj[key].children, obj[key].children.Keys, parent + [key], path) ==>
              Inside(obj, {key}, parent, path) && path != parent + [key]
    ensures Inside(obj, {key}, parent, parent + [key])
  {
    var n := |parent|;
    assert (parent + [key])[..n] == parent && (parent + [key])[n + 1..] == [];
    if |path| > n + 1 {
      assert path[..n + 1] == path[..n] + [path[n]];
      assert path[n + 1..][0] == path[n + 1] && path[n + 1..][1..] == path[n + 2..];
    } else if |path| == n + 1 {
      assert path == path[..n] + [path[n]];
    }
  }

  lemma ReachedBelow(known: Known, parent: Path, key: string, path: Path)
    requires |path| > |parent| + 1 && path[..|parent| + 1] == parent + [key]
    ensures Reached(known, parent, path) <==> Recognized(known, parent + [key]) && Reached(known, parent + [key], path)
  {
  }

  /** What one key contributes. */
  lemma KeyBelow(known: Known, obj: map<string, Tree>, key: string, parent: Path, path: Path)
    requires key in obj && (parent + [key])[0] != "plugins"
    ensures var here := parent + [key];
      && (Unknown(known, obj, {key}, parent, path) <==>
            if !Recognized(known, here) then path == here
            else obj[key].Node? && Unknown(known, obj[key].children, obj[key].children.Keys, here, path))
      && (Stumbles(known, obj, {key}, parent, path) <==>
            && Recognized(known, here)
            && if obj[key].Leaf? then path == here && obj[key] == NIL
               else Stumbles(known, obj[key].children, obj[key].children.Keys, here, path))
  {
    hide Recognized;
    var here, n := parent + [key], |parent|;
    InsideBelow(obj, key, parent, path);
    if |path| > n && path[..n] == parent && path[n] == key {
      assert path[..n + 1] == here;
      assert path[0] == here[0];
      if |path| == n + 1 {
        assert path == here && path[n + 1..] == [];
      } else {
        ReachedBelow(known, parent, key, path);
        assert path[n + 1..][0] == path[n + 1] && path[n + 1..][1..] == path[n + 2..];
      }
    }
  }

  lemma KeySkipped(known: Known, obj: map<string, Tree>, parent: Path)
    requires parent == []
    ensures Passable(known, obj, {"plugins"}, parent) && forall path :: !Unknown(known, obj, {"plugins"}, parent, path)
  {
  }

  /** Keys are looked at one by one. */
  lemma KeysApart(known: Known, obj: map<string, Tree>, done: set<string>, key: string, parent: Path, path: Path)
    ensures Unknown(known, obj, done + {key}, parent, path)
       <==> Unknown(known, obj, done, parent, path) || Unknown(known, obj, {key}, parent, path)
    ensures Stumbles(known, obj, done + {key}, parent, path)
       <==> Stumbles(known, obj, done, parent, path) || Stumbles(known, obj, {key}, parent, path)
    ensures key !in done ==> !(Unknown(known, obj, done, parent, path) && Unknown(known, obj, {key}, parent, path))
  {
    hide Reached, Recognized;
  }

  lemma KeyDone(known: Known, obj: map<string, Tree>, done: set<string>, key: string, parent: Path,
                found: seq<Path>, more: seq<Path>)
    requires key !in done && NoRepeats(found) && NoRepeats(more)
    requires Passable(known, obj, done, parent) && Passable(known, obj, {key}, parent)
    requires forall path :: path in found <==> Unknown(known, obj, done, parent, path)
    requires forall path :: path in more <==> Unknown(known, obj, {key}, parent, path)
    ensures NoRepeats(found + more) && Passable(known, obj, done + {key}, parent)
    ensures forall path :: path in found + more <==> Unknown(known, obj, done + {key}, parent, path)
  {
    hide Unknown, Stumbles;
    forall path
      ensures path in found + more <==> Unknown(known, obj, done + {key}, parent, path)
      ensures !Stumbles(known, obj, done + {key}, parent, path)
    {
      KeysApart(known, obj, done, key, parent, path);
    }
    forall i, k | 0 <= i < |found| && 0 <= k < |more|
      ensures found[i] != more[k]
    {
      KeysApart(known, obj, done, key, parent, found[i]);
    }
    NoRepeatsJoined(found, more);
  }

  lemma NoRepeatsJoined(a: seq<Path>, b: seq<Path>)
    requires NoRepeats(a) && NoRepeats(b) && forall i, k :: 0 <= i < |a| && 0 <= k < |b| ==> a[i] != b[k]
    ensures NoRepeats(a + b)
  {
  }

  /** A key with a section under it, after the walk has been through that. */
  lemma SectionDone(known: Known, obj: map<string, Tree>, key: string, parent: Path)
    requires key in obj && (parent + [key])[0] != "plugins" && Recognized(known, parent + [key]) && obj[key].Node?
    ensures var here := parent + [key];
      && (Passable(known, obj, {key}, parent) <==> Passable(known, obj[key].children, obj[key].children.Keys, here))
      && forall path :: Unknown(known, obj, {key}, parent, path) <==> Unknown(known, obj[key].children, obj[key].children.Keys, here, path)
  {
    var here := parent + [key];
    forall path
      ensures Unknown(known, obj, {key}, parent, path) <==> Unknown(known, obj[key].children, obj[key].children.Keys, here, path)
      ensures Stumbles(known, obj, {key}, parent, path) <==> Stumbles(known, obj[key].children, obj[key].children.Keys, here, path)
    {
      KeyBelow(known, obj, key, parent, path);
    }
    hide Unknown, Stumbles;
  }

  lemma EntryDone(known: Known, obj: map<string, Tree>, key: string, parent: Path)
    requires key in obj && (parent + [key])[0] != "plugins" && !(Recognized(known, parent + [key]) && obj[key].Node?)
    ensures var here := parent + [key];
      && (Passable(known, obj, {key}, parent) <==> !(Recognized(known, here) && obj[key] == NIL))
      && forall path :: Unknown(known, obj, {key}, parent, path) <==> !Recognized(known, here) && path == here
  {
    var here := parent + [key];
    forall path
      ensures Unknown(known, obj, {key}, parent, path) <==> !Recognized(known, here) && path == here
      ensures Stumbles(known, obj, {key}, parent, path) <==> Recognized(known, here) && obj[key] == NIL && path == here
    {
      KeyBelow(known, obj, key, parent, path);
    }
    hide Unknown, Stumbles;
    assert Stumbles(known, obj, {key}, parent, here) <==> Recognized(known, here) && obj[key] == NIL;
  }

  method TraverseUnrecognized(obj: Tree, parent: Path, known: Known) returns (results: Option<seq<Path>>)
    requires obj.Node? && (parent != [] ==> parent[0] != "plugins")
    ensures results.Some? <==> Passable(known, obj.children, obj.children.Keys, parent)
    ensures results.Some? ==> NoRepeats(results.value)
    ensures results.Some? ==> forall path :: path in results.value <==> Unknown(known, obj.children, obj.children.Keys, parent, path)
    decreases obj
  {
    var found: seq<Path> := [];
    var keys := obj.children.Keys;
    ghost var done: set<string> := {};
    while keys != {}
      invariant keys !! done && keys + done == obj.children.Keys
      invariant Passable(known, obj.children, done, parent) && NoRepeats(found)
      invariant forall path :: path in found <==> Unknown(known, obj.children, done, parent, path)
      decreases keys
    {
      var key :| key in keys;
      var path, value := parent + [key], obj.children[key];
      var more: seq<Path> := [];
      hide Unknown, Stumbles, Recognized;
      if path == ["plugins"] {
        assert |parent| == 0 && key == path[0] == "plugins";
        KeySkipped(known, obj.children, parent);
      } else {
        assert path[0] != "plugins";
        if !Recognized(known, path) {
          EntryDone(known, obj.children, key, parent);
          more := [path];
        } else if value.Node? {
          SectionDone(known, obj.children, key, parent);
          var below := TraverseUnrecognized(value, path, known);
          if below.None? {
            SubsetStumbles(known, obj.children, key, parent);
            return None;
          }
          more := below.value;
        } else {
          EntryDone(known, obj.children, key, parent);
          if value == NIL {
            SubsetStumbles(known, obj.children, key, parent);
            return None;
          }
        }
      }
      KeyDone(known, obj.children, done, key, parent, found, more);
      found := found + more;
      keys, done := keys - {key}, done + {key};
    }
    assert done == obj.children.Keys;
    results := Some(found);
  }

  lemma SubsetStumbles(known: Known, obj: map<string, Tree>, key: string, parent: Path)
    requires key in obj && !Passable(known, obj, {key}, parent)
    ensures !Passable(known, obj, obj.Keys, parent)
  {
    var path :| Stumbles(known, obj, {key}, parent, path);
    assert Stumbles(known, obj, obj.Keys, parent, path);
  }

  /** The walk trips over a null under a recognized key. */
  ghost predicate Trips(known: Known, t: Tree) {
    exists path :: Reached(known, [], path) && Recognized(known, path) && Get(t, path) == Some(NIL)
  }

  /** A path of the configuration that the walk comes to and nobody knows. */
  ghost predicate Reported(known: Known, t: Tree, path: Path) {
    Get(t, path).Some? && Reached(known, [], path) && !Recognized(known, path)
  }

  lemma FromTheTop(t: Tree, path: Path)
    requires t.Node?
    ensures Inside(t.children, t.children.Keys, [], path) <==> path != [] && Get(t, path).Some?
    ensures path != [] && Get(t, path).Some? ==> Get(t.children[path[0]], path[1..]) == Get(t, path)
  {
    if path != [] {
      assert path[..0] == [] && path[0 + 1..] == path[1..];
    }
  }

  method CheckUnrecognized(newConfig: Tree, known: Known) returns (results: Option<seq<Path>>)
    requires newConfig.Node?
    ensures results.Some? <==> !Trips(known, newConfig)
    ensures results.Some? ==> NoRepeats(results.value)
    ensures results.Some? ==> forall path :: path in results.value <==> Reported(known, newConfig, path)
  {
    results := TraverseUnrecognized(newConfig, [], known);
    forall path: Path
      ensures Unknown(known, newConfig.children, newConfig.children.Keys, [], path) <==> Reported(known, newConfig, path)
      ensures Stumbles(known, newConfig.children, newConfig.children.Keys, [], path)
         <==> Reached(known, [], path) && Recognized(known, path) && Get(newConfig, path) == Some(NIL)
    {
      FromTheTop(newConfig, path);
    }
    hide Unknown, Stumbles, Reached, Recognized, Reported;
  }

  lemma NullFreeNeverTrips(known: Known, t: Tree)
    requires NullFree(t)
    ensures !Trips(known, t)
  {
    forall path | Get(t, path) == Some(NIL)
      ensures false
    {
      NullFreeGet(t, path);
    }
  }

  /** Outside the plugins a path is covered by a warning if and only if it, or a section around it, is not recognized. */
  lemma CoveredIffUnknown(known: Known, t: Tree, path: Path)
    requires path != [] && path[0] != "plugins" && Get(t, path).Some?
    ensures (exists n :: 0 < n <= |path| && Reported(known, t, path[..n]))
       <==> exists n :: 0 < n <= |path| && !Recognized(known, path[..n])
  {
    hide Recognized;
    if n :| 0 < n <= |path| && !Recognized(known, path[..n]) {
      var m := 1;
      while Recognized(known, path[..m])
        invariant 0 < m <= n && forall k :: 0 < k < m ==> Recognized(known, path[..k])
        decreases n - m
      {
        m := m + 1;
      }
      assert path == path[..m] + path[m..];
      GetBelow(t, path[..m], path[m..]);
      forall k | 0 < k < m
        ensures Recognized(known, path[..m][..k])
      {
        assert path[..m][..k] == path[..k];
      }
      assert Reported(known, t, path[..m]);
    }
  }

  /** Nothing under `plugins` is ever reported. */
  lemma PluginsAreTheirOwn(known: Known, t: Tree, path: Path)
    requires path != [] && path[0] == "plugins"
    ensures !Reported(known, t, path)
  {
  }

  /** Of a custom registry the section and three keys are known without being listed anywhere, and nothing else. */
  lemma RegistryKeys(known: Known, name: string, key: string, more: Path)
    requires name != "" && Get(known.defaults, ["pluginSystem", "registries", name]).None?
    requires Get(known.deprecated, ["pluginSystem", "registries", name]).None?
    ensures Recognized(known, ["pluginSystem", "registries", name])
    ensures Recognized(known, ["pluginSystem", "registries", name, key] + more)
       <==> more == [] && (key == "owner" || key == "repo" || key == "file")
  {
    var registry := ["pluginSystem", "registries", name];
    assert ["pluginSystem", "registries", name, key] + more == registry + ([key] + more);
    GetBelow(known.defaults, registry, [key] + more);
    GetBelow(known.deprecated, registry, [key] + more);
    hide Get;
  }
}
