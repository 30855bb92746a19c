/** Layered configuration: lookup by layer, the merged cache and reloading. */
module ConfigProvider {
  import opened Text
  import opened ConfigTree

  datatype Source = Source(defaults: Tree, user: Tree, system: Tree)

  // ---- Layers.

  /** The field `config` of a layer's Config object: a top-level section of that name takes its place. */
  function ConfigField(layer: Tree): Tree {
    if "config" in Children(layer) then layer.children["config"] else layer
  }

  /** A Config object as a tree: its own members, overlaid by the layer's top-level keys. */
  function ConfigObject(own: map<string, Tree>, layer: Tree): Tree {
    Node(own + Children(layer))
  }

  predicate LayerHas(layer: Tree, path: Path) {
    !IsNil(Get(ConfigField(layer), path))
  }

  datatype Layer = Default | User | System

  /** The layer that answers for a path. */
  function Winner(s: Source, path: Path): Layer {
    if LayerHas(s.system, path) then System else if LayerHas(s.user, path) then User else Default
  }

  function LayerOf(s: Source, l: Layer): Tree {
    match l
    case Default => s.defaults
    case User => s.user
    case System => s.system
  }

  function Resolve(s: Source, path: Path): Option<Tree> {
    Get(ConfigField(LayerOf(s, Winner(s, path))), path)
  }

  /** No object meets a scalar or list. */
  ghost predicate Usable(s: Source) {
    && s.defaults.Node?
    && Compatible(s.defaults, s.user) && Compatible(s.defaults, s.system) && Compatible(s.user, s.system)
  }

  function Merged(s: Source): Tree {
    Merge(Merge(Merge(Node(map[]), s.defaults), s.user), s.system)
  }

  lemma EmptyMerge(t: Tree)
    requires t.Node?
    ensures Compatible(Node(map[]), t) && Merge(Node(map[]), t) == t
  {
    assert Merge(Node(map[]), t).children == t.children;
  }

  ghost predicate Clean(t: Tree) {
    NullFree(t) && "config" !in Children(t)
  }

  ghost predicate CleanSource(s: Source) {
    Usable(s) && Clean(s.defaults) && Clean(s.user) && Clean(s.system)
  }

  lemma NilIffAbsent(t: Tree, path: Path)
    requires NullFree(t)
    ensures IsNil(Get(t, path)) <==> Get(t, path).None?
  {
    if Get(t, path).Some? {
      NullFreeGet(t, path);
    }
  }

  ghost predicate Scalar(t: Option<Tree>) {
    t.Some? && t.value.Leaf? && !t.value.value.List?
  }

  /** The merged tree and the layered lookup agree about every scalar: what either gives, the other gives. */
  lemma MergedAgreesWithLayers(s: Source, path: Path)
    requires CleanSource(s)
    ensures Scalar(Get(Merged(s), path)) <==> Scalar(Resolve(s, path))
    ensures Scalar(Resolve(s, path)) ==> Get(Merged(s), path) == Resolve(s, path)
  {
    MergeFacts(s, path);
  }

  /** What the layers below the winning one merge to. */
  function Below(s: Source, path: Path): Option<Tree> {
    match Winner(s, path)
    case Default => None
    case User => Get(s.defaults, path)
    case System => Get(Merge(s.defaults, s.user), path)
  }

  predicate LongerList(below: Option<Tree>, v: Value) {
    below.Some? && below.value.Leaf? && below.value.value.List? && v.List? && |v.items| < |below.value.value.items|
  }

  /** At any leaf, lists included, the two agree if and only if no longer list lies below the one lookup gives. */
  lemma LeafAgreesIffNoLongerList(s: Source, path: Path)
    requires CleanSource(s) && Resolve(s, path).Some? && Resolve(s, path).value.Leaf?
    ensures Get(Merged(s), path) == Resolve(s, path) <==> !LongerList(Below(s, path), Resolve(s, path).value.value)
  {
    MergeFacts(s, path);
  }

  const LONG := List([NumItem(1), NumItem(2)])

  const SHORT := List([NumItem(3)])

  const SHORTENED := Source(Node(map["a" := Leaf(LONG)]), Node(map["a" := Leaf(SHORT)]), Node(map[]))

  lemma ShortenedLayers()
    ensures CleanSource(SHORTENED) && Get(SHORTENED.system, ["a"]) == None
    ensures Get(SHORTENED.defaults, ["a"]) == Some(Leaf(LONG)) && Get(SHORTENED.user, ["a"]) == Some(Leaf(SHORT))
  {
    assert ["a"][1..] == [];
    assert NullFree(Leaf(LONG)) && NullFree(Leaf(SHORT));
  }

  /** A short list over a longer one: lookup gives the short one, the merged tree the long one with its start replaced. */
  lemma ShorterListDiffers()
    ensures CleanSource(SHORTENED) && LongerList(Below(SHORTENED, ["a"]), SHORT)
    ensures Resolve(SHORTENED, ["a"]) == Some(Leaf(SHORT))
    ensures Get(Merged(SHORTENED), ["a"]) == Some(Leaf(List([NumItem(3), NumItem(2)])))
  {
    ShortenedLayers();
    MergeFacts(SHORTENED, ["a"]);
    hide CleanSource, Get, Merged;
    assert SHORT.items + LONG.items[1..] == [NumItem(3), NumItem(2)];
  }

  lemma MergeFacts(s: Source, path: Path)
    requires CleanSource(s)
    ensures var du := Get(Merge(s.defaults, s.user), path);
      && MergedAt(Get(s.defaults, path), Get(s.user, path), du)
      && Compatible(Merge(s.defaults, s.user), s.system)
      && MergedAt(du, Get(s.system, path), Get(Merged(s), path))
    ensures LayerHas(s.defaults, path) <==> Get(s.defaults, path).Some?
    ensures LayerHas(s.user, path) <==> Get(s.user, path).Some?
    ensures LayerHas(s.system, path) <==> Get(s.system, path).Some?
  {
    EmptyMerge(s.defaults);
    GetMerge(s.defaults, s.user, path);
    MergeCompatible(s.defaults, s.user, s.system);
    GetMerge(Merge(s.defaults, s.user), s.system, path);
    NilIffAbsent(s.defaults, path);
    NilIffAbsent(s.user, path);
    NilIffAbsent(s.system, path);
  }

  /** The merged tree has a path exactly when some layer has it. */
  lemma HasIffSomeLayer(s: Source, path: Path)
    requires CleanSource(s)
    ensures !IsNil(Get(Merged(s), path))
       <==> LayerHas(s.defaults, path) || LayerHas(s.user, path) || LayerHas(s.system, path)
  {
    MergeFacts(s, path);
    EmptyMerge(s.defaults);
    MergeNullFree(s.defaults, s.user);
    MergeNullFree(Merge(s.defaults, s.user), s.system);
    NilIffAbsent(Merged(s), path);
  }

  // ---- What the user layer may override.

  predicate UserCanOverride(own: map<string, Tree>, s: Source, path: Path) {
    IsNil(Get(ConfigObject(own, s.system), path))
  }

  lemma OverridableIsNotSystem(own: map<string, Tree>, s: Source, path: Path)
    requires path != [] && UserCanOverride(own, s, path) && "config" !in Children(s.system)
    ensures !LayerHas(s.system, path)
  {
    if s.system.Node? && path[0] in s.system.children {
      assert (own + s.system.children)[path[0]] == s.system.children[path[0]];
    }
  }

  /**
   * The user can override exactly what the system layer has no value for, and of the members of the system layer's own
   * object those that are nil.
   */
  lemma OverridableIff(own: map<string, Tree>, s: Source, path: Path)
    requires path != [] && "config" !in Children(s.system)
    ensures path[0] !in own || path[0] in Children(s.system) ==> (UserCanOverride(own, s, path) <==> !LayerHas(s.system, path))
    ensures path[0] in own && path[0] !in Children(s.system) ==> (UserCanOverride(own, s, path) <==> IsNil(Get(own[path[0]], path[1..])))
  {
    var all := own + Children(s.system);
    assert path[0] in Children(s.system) ==> all[path[0]] == Children(s.system)[path[0]];
    assert path[0] !in Children(s.system) && path[0] in own ==> all[path[0]] == own[path[0]];
  }

  /** A top-level section named `config` stands for its whole layer in every lookup. */
  lemma ConfigSectionTakesOver(s: Source, path: Path)
    requires "config" in Children(s.system)
    ensures LayerHas(s.system, path) <==> !IsNil(Get(s.system, ["config"] + path))
    ensures LayerHas(s.system, path) ==> Resolve(s, path) == Get(s.system, ["config"] + path)
  {
    GetBelow(s.system, ["config"], path);
    assert ["config"][1..] == [];
  }

  // ---- The provider: a merged cache, and its top-level keys mirrored as members of the provider itself.

  ghost predicate MirrorsTop(mirror: map<string, Option<Tree>>, merged: Tree) {
    && (forall k :: k in Children(merged) ==> k in mirror && mirror[k] == Some(Children(merged)[k]))
    && (forall k :: k in mirror && k !in Children(merged) ==> mirror[k] == None)
  }

  class BksConfigProvider {
    const own: map<string, Tree>
    var source: Source
    var mergedConfig: Tree
    var mirror: map<string, Option<Tree>>

    ghost predicate Valid()
      reads this
    {
      mergedConfig == Merged(source) && MirrorsTop(mirror, mergedConfig)
    }

    constructor Create(own: map<string, Tree>, source: Source)
      ensures Valid() && this.source == source && this.own == own
    {
      this.own := own;
      this.source := source;
      mergedConfig := Merged(source);
      var top := Children(Merged(source));
      mirror := map k | k in top :: Some(top[k]);
    }

    method Apply(source: Source)
      modifies `source, `mergedConfig
      ensures this.source == source && mergedConfig == Merged(source)
    {
      this.source := source;
      mergedConfig := Merged(source);
    }

    /** Keys that were mirrored and are gone become undefined. */
    method ForgetDropped(previousKeys: set<string>)
      requires previousKeys <= mirror.Keys
      modifies `mirror
      ensures mirror == map k | k in old(mirror) ::
                if k in previousKeys && k !in Children(mergedConfig) then None else old(mirror)[k]
    {
      var top, keys := Children(mergedConfig), previousKeys;
      while keys != {}
        invariant keys <= previousKeys && mirror.Keys == old(mirror).Keys
        invariant forall k :: k in mirror ==>
          mirror[k] == if k in previousKeys - keys && k !in top then None else old(mirror)[k]
        decreases keys
      {
        var key :| key in keys;
        if key !in top {
          mirror := mirror[key := None];
        }
        keys := keys - {key};
      }
    }

    method AssignTop()
      modifies `mirror
      ensures mirror == old(mirror) + map k | k in Children(mergedConfig) :: Some(Children(mergedConfig)[k])
    {
      var top := Children(mergedConfig);
      var keys := top.Keys;
      while keys != {}
        invariant keys <= top.Keys && mirror.Keys == old(mirror).Keys + (top.Keys - keys)
        invariant forall k :: k in mirror ==> mirror[k] == if k in top.Keys - keys then Some(top[k]) else old(mirror)[k]
        decreases keys
      {
        var key :| key in keys;
        mirror := mirror[key := Some(top[key])];
        keys := keys - {key};
      }
    }

    /** After any reload the mirrored keys are the new merged ones, and every other one is undefined. */
    method Reload(source: Source)
      requires Valid()
      modifies this
      ensures Valid() && this.source == source
      ensures mirror.Keys == old(mirror.Keys) + Children(mergedConfig).Keys
    {
      hide Merged;
      var previousKeys := Children(mergedConfig).Keys;
      Apply(source);
      ForgetDropped(previousKeys);
      AssignTop();
    }

    predicate CanOverride(path: Path): (r: bool)
      reads this
      ensures path != [] && path[0] !in own && "config" !in Children(source.system) ==> (r <==> !LayerHas(source.system, path))
    {
      if path != [] && "config" !in Children(source.system) then
        OverridableIff(own, source, path);
        UserCanOverride(own, source, path)
      else
      UserCanOverride(own, source, path)
    }

    predicate HasPath(path: Path)
      reads this
    {
      !IsNil(Get(mergedConfig, path))
    }

    lemma HasPathIffSomeLayer(path: Path)
      requires Valid() && CleanSource(source)
      ensures HasPath(path) <==> LayerHas(source.defaults, path) || LayerHas(source.user, path) || LayerHas(source.system, path)
    {
      HasIffSomeLayer(source, path);
    }

    /** The system layer answers first, then the user layer, then the defaults. */
    function GetPath(path: Path): (r: Option<Tree>)
      reads this
      ensures LayerHas(source.system, path) ==> r == Get(ConfigField(source.system), path)
      ensures !LayerHas(source.system, path) && LayerHas(source.user, path) ==> r == Get(ConfigField(source.user), path)
      ensures !LayerHas(source.system, path) && !LayerHas(source.user, path) ==> r == Get(ConfigField(source.defaults), path)
    {
      Resolve(source, path)
    }
  }
}
