/** Filling every database section with the defaults of `db.default`, in place. */
module ConfigDefaults {
  import opened Text
  import opened ConfigTree

  /** The section each database type is configured under, in the order of the type list. */
  const SECTIONS: seq<string> :=
    ["sqlite", "sqlserver", "redshift", "cockroachdb", "mysql", "postgres", "mariadb", "cassandra", "scylladb", "oracle",
     "bigquery", "firebird", "tidb", "starrocks", "libsql", "clickhouse", "duckdb", "greengage", "mongodb",
     "sqlanywhere", "surrealdb", "redis", "trino", "bedrock", "dynamodb", "snowflake"]

  function NonEmptyStrings(items: seq<Item>): (r: seq<Item>)
    ensures forall x :: x in r <==> x in items && x.StrItem? && x.text != ""
  {
    if items == [] then []
    else (if items[0].StrItem? && items[0].text != "" then [items[0]] else []) + NonEmptyStrings(items[1..])
  }

  /** A default as it is handed out: an empty string becomes null, a list of strings loses its empty entries. */
  function Sanitize(v: Value): Value {
    if v == Str("") then Null
    else if v.List? && v.items != [] && v.items[0].StrItem? then List(NonEmptyStrings(v.items))
    else v
  }

  lemma {:induction false} NonEmptyConcat(a: seq<Item>, b: seq<Item>)
    ensures NonEmptyStrings(a + b) == NonEmptyStrings(a) + NonEmptyStrings(b)
  {
    if a == [] {
      assert a + b == b;
    } else {
      assert (a + b)[1..] == a[1..] + b;
      NonEmptyConcat(a[1..], b);
    }
  }

  /** Of a list that starts with a string every empty string goes, wherever it stands, and every other string stays. */
  lemma SanitizedList(before: seq<Item>, item: Item, after: seq<Item>)
    requires (before + [item] + after)[0].StrItem?
    ensures Sanitize(List(before + [item] + after))
         == List(NonEmptyStrings(before) + (if item.StrItem? && item.text != "" then [item] else []) + NonEmptyStrings(after))
  {
    NonEmptyConcat(before + [item], after);
    NonEmptyConcat(before, [item]);
    NonEmptyOne(item);
    hide NonEmptyStrings;
  }

  lemma NonEmptyOne(item: Item)
    ensures NonEmptyStrings([item]) == if item.StrItem? && item.text != "" then [item] else []
  {
    assert [item][1..] == [];
  }

  /** The way an empty list is written becomes an empty list, an empty string no value; the rest stands for itself. */
  lemma SanitizedValue(v: Value)
    ensures Sanitize(List([StrItem("")])) == List([])
    ensures Sanitize(v) == Null <==> v == Null || v == Str("")
    ensures (v.List? && (v.items == [] || !v.items[0].StrItem?)) || (!v.List? && v != Str("")) ==> Sanitize(v) == v
  {
    assert [StrItem("")][1..] == [];
  }

  /** The database types, in the order of `DatabaseTypes`. */
  const DATABASE_TYPES: seq<string> :=
    ["sqlite", "sqlserver", "redshift", "cockroachdb", "mysql", "postgresql", "mariadb", "cassandra", "scylladb", "oracle",
     "bigquery", "firebird", "tidb", "starrocks", "libsql", "clickhouse", "duckdb", "greengage", "mongodb",
     "sqlanywhere", "surrealdb", "redis", "trino", "bedrock", "dynamodb", "snowflake"]

  function SectionOf(databaseType: string): string {
    if databaseType == "postgresql" then "postgres" else databaseType
  }

  /** Every database type has its section, and every section is one's. */
  lemma SectionPerType(n: nat)
    requires n < |DATABASE_TYPES|
    ensures |SECTIONS| == |DATABASE_TYPES| && SECTIONS[n] == SectionOf(DATABASE_TYPES[n])
  {
  }

  ghost predicate HasLeaf(d: Tree) {
    match d
    case Leaf(_) => true
    case Node(children) => exists k :: k in children && HasLeaf(children[k])
  }

  /** What populating makes of a value: a reference definition, key by key. */
  ghost function Fill(t: Option<Tree>, d: Tree): Option<Tree>
    decreases d, 1
  {
    match d
    case Leaf(v) => if IsNil(t) then Some(Leaf(Sanitize(v))) else t
    case Node(_) =>
      var here := if t.Some? then Children(t.value) else map[];
      var filled := Filled(here, d);
      if filled == map[] && (t.None? || t.value.Leaf?) then t else Some(Node(here + filled))
  }

  ghost function Filled(here: map<string, Tree>, d: Tree): map<string, Tree>
    requires d.Node?
    decreases d, 0
  {
    map k | k in d.children && Fill(At(here, k), d.children[k]).Some? :: Fill(At(here, k), d.children[k]).value
  }

  function At(here: map<string, Tree>, k: string): Option<Tree> {
    if k in here then Some(here[k]) else None
  }

  lemma {:induction false} FillNothing(t: Option<Tree>, d: Tree)
    ensures Fill(t, d).None? <==> t.None? && !HasLeaf(d)
    ensures t == Some(NIL) && !HasLeaf(d) ==> Fill(t, d) == t
    ensures t.Some? && t.value.Node? ==> Fill(t, d).Some? && Fill(t, d).value.Node?
    ensures d.Node? && HasLeaf(d) ==> Fill(t, d).Some? && Fill(t, d).value.Node?
    decreases d
  {
    if d.Node? {
      var here := if t.Some? then Children(t.value) else map[];
      forall k | k in d.children
        ensures Fill(At(here, k), d.children[k]).None? <==> k !in here && !HasLeaf(d.children[k])
      {
        FillNothing(At(here, k), d.children[k]);
      }
    }
  }

  // ---- Populating in place, one key after the other.

  function Put(t: Tree, path: Path, x: Option<Tree>): Tree {
    if x.None? then t else Set(t, path, x.value)
  }

  function Restrict(m: map<string, Tree>, keys: set<string>): map<string, Tree> {
    map k | k in m && k in keys :: m[k]
  }

  function GetIn(t: Option<Tree>, key: string): Option<Tree> {
    if t.None? then None else Child(t.value, key)
  }

  lemma RestrictAll(m: map<string, Tree>)
    ensures Restrict(m, m.Keys) == m && Restrict(m, {}) == map[]
  {
  }

  lemma FillLeaf(t: Option<Tree>, v: Value)
    ensures Fill(t, Leaf(v)) == if IsNil(t) then Some(Leaf(Sanitize(v))) else t
  {
  }

  lemma FillEmpty(t: Option<Tree>)
    ensures Fill(t, Node(map[])) == t
  {
    if t.Some? && t.value.Node? {
      assert t.value.children + map[] == t.value.children;
    }
  }

  lemma FilledStep(here: map<string, Tree>, defaults: map<string, Tree>, done: set<string>, key: string)
    requires key in defaults && key !in done
    ensures var x, filled := Fill(At(here, key), defaults[key]), Filled(here, Node(Restrict(defaults, done)));
      && key !in filled
      && Filled(here, Node(Restrict(defaults, done + {key}))) == if x.None? then filled else filled[key := x.value]
  {
    var some, more := Restrict(defaults, done), Restrict(defaults, done + {key});
    assert forall k :: k in some ==> k in more && more[k] == some[k];
    assert more[key] == defaults[key];
  }

  /** Handling one more key of the defaults sets that key, or leaves everything as it is. */
  lemma FillStep(t: Option<Tree>, defaults: map<string, Tree>, done: set<string>, key: string)
    requires key in defaults && key !in done
    ensures var r, r' := Fill(t, Node(Restrict(defaults, done))), Fill(t, Node(Restrict(defaults, done + {key})));
      && (r.None? ==> t.None?)
      && GetIn(r, key) == GetIn(t, key)
      && var x := Fill(GetIn(t, key), defaults[key]);
         r' == if x.None? then r else Some(Set(if r.Some? then r.value else NIL, [key], x.value))
  {
    hide Filled, Restrict;
    var here := if t.Some? then Children(t.value) else map[];
    var filled, x := Filled(here, Node(Restrict(defaults, done))), Fill(At(here, key), defaults[key]);
    FilledStep(here, defaults, done, key);
    if x.Some? {
      assert here + filled[key := x.value] == (here + filled)[key := x.value];
      var r := Fill(t, Node(Restrict(defaults, done)));
      var root := if r.Some? then r.value else NIL;
      assert Children(root) == here + filled;
      SetKey(root, key, x.value);
    }
  }

  lemma GetKey(t: Tree, key: string)
    ensures Get(t, [key]) == Child(t, key)
  {
  }

  lemma SetKey(t: Tree, key: string, x: Tree)
    ensures Set(t, [key], x) == Node(Children(t)[key := x])
  {
  }

  class RawConfig {
    var config: Tree

    constructor (config: Tree)
      ensures this.config == config
    {
      this.config := config;
    }

    /** `d`, the section of defaults, stands elsewhere in the same tree and stays as it is. */
    method PopulateDefaults(parent: Path, defaultPath: Path, d: Tree)
      requires parent != [] && Unrelated(parent, defaultPath) && Get(config, defaultPath) == Some(d) && d.Node?
      modifies this
      ensures config == Put(old(config), parent, Fill(Get(old(config), parent), d))
      ensures Get(config, defaultPath) == Some(d)
      decreases d
    {
      var defaultObj := d.children;
      var keys := defaultObj.Keys;
      ghost var before := config;
      ghost var section := Get(config, parent);
      hide Restrict, Fill, Set, Get, Sanitize;
      RestrictAll(defaultObj);
      FillEmpty(section);
      if section.Some? {
        SetSame(config, parent);
      }
      ghost var done: set<string>, r := {}, section;
      while keys != {}
        invariant keys !! done && keys + done == defaultObj.Keys
        invariant r == Fill(section, Node(Restrict(defaultObj, done))) && config == Put(before, parent, r)
        invariant Get(config, defaultPath) == Some(d)
        decreases keys
      {
        var key :| key in keys;
        var value, defaultValue := Get(config, parent + [key]), defaultObj[key];
        FillKey(before, parent, section, defaultObj, done, key);
        PathsApart(parent, defaultPath, key);
        GetBelow(config, defaultPath, [key]);
        GetKey(d, key);
        if defaultValue.Node? {
          PopulateDefaults(parent + [key], defaultPath + [key], defaultValue);
        } else {
          FillLeaf(value, defaultValue.value);
          if IsNil(value) {
            config := Set(config, parent + [key], Leaf(Sanitize(defaultValue.value)));
          } else {
            SetSame(config, parent + [key]);
          }
        }
        keys, done := keys - {key}, done + {key};
        r := Fill(section, Node(Restrict(defaultObj, done)));
        GetPut(before, parent, r, defaultPath);
      }
      assert done == defaultObj.Keys;
    }

    /** False is the error thrown when `db.default` holds no value at all. */
    method ProcessRawConfig() returns (ok: bool)
      requires ProperShape(config)
      modifies this
      ensures ok <==> Loads(old(config))
      ensures ok ==> config == Processed(old(config))
    {
      if !HasDefaults(config) {
        return true;
      }
      hide Fill, HasLeaf, Get, Set, SectionsFilled, Processed, WithDb;
      var d := DefaultsOf(config);
      if d.Leaf? {
        return false;
      }
      ghost var before := config;
      FillNothing(None, d);
      InDb(before, "default_parsed", Fill(None, d));
      InDb(before, "default", None);
      PopulateDefaults(["db", "default_parsed"], ["db", "default"], d);
      var parsed := Get(config, ["db", "default_parsed"]);
      if parsed.None? {
        return false;
      }
      assert config == WithDb(before, before.children["db"].children["default_parsed" := parsed.value]);
      DefaultReplaced(before, parsed.value);
      var db := config.children["db"].children - {"default_parsed"};
      config := Node(config.children["db" := Node(db["default" := parsed.value])]);
      for n := 0 to |SECTIONS|
        invariant config == WithDb(before, SectionsFilled(before, parsed.value, n))
      {
        SectionStep(before, parsed.value, n);
        PopulateDefaults(["db", SECTIONS[n]], ["db", "default"], parsed.value);
      }
      ProcessedIs(before);
      return true;
    }
  }

  predicate HasDefaults(config: Tree) {
    "db" in Children(config) && "default" in Children(config.children["db"])
  }

  function DefaultsOf(config: Tree): Tree
    requires HasDefaults(config)
  {
    config.children["db"].children["default"]
  }

  /** A value without keys of its own. */
  predicate Keyless(v: Value) {
    v.Null? || v.Num? || v.Bool? || v == Str("") || v == List([])
  }

  /** `db.default`, when there is one, is a section or has no keys at all, and nobody uses the scratch key. */
  predicate ProperShape(config: Tree) {
    HasDefaults(config) ==>
      && (DefaultsOf(config).Leaf? ==> Keyless(DefaultsOf(config).value))
      && "default_parsed" !in config.children["db"].children
  }

  /** Processing does not throw: `db.default`, when there is one, holds some value. */
  ghost predicate Loads(config: Tree) {
    ProperShape(config) && (HasDefaults(config) ==> DefaultsOf(config).Node? && HasLeaf(DefaultsOf(config)))
  }

  function WithDb(config: Tree, db: map<string, Tree>): Tree {
    Node(Children(config)["db" := Node(db)])
  }

  function FirstSections(n: nat): set<string>
    requires n <= |SECTIONS|
  {
    set s | s in SECTIONS[..n]
  }

  /** The db entries with sanitized defaults and the first n sections filled from them. */
  ghost function SectionsFilled(config: Tree, parsed: Tree, n: nat): map<string, Tree>
    requires HasDefaults(config) && n <= |SECTIONS|
  {
    var db := config.children["db"].children;
    db["default" := parsed]
    + map s | s in FirstSections(n) && Fill(At(db, s), parsed).Some? :: Fill(At(db, s), parsed).value
  }

  /** The processed configuration, as a reference definition. */
  ghost function Processed(config: Tree): Tree
    requires Loads(config)
  {
    if !HasDefaults(config) then config
    else
      FillNothing(None, DefaultsOf(config));
      WithDb(config, SectionsFilled(config, Fill(None, DefaultsOf(config)).value, |SECTIONS|))
  }

  lemma ProcessedIs(config: Tree)
    requires ProperShape(config) && HasDefaults(config) && DefaultsOf(config).Node? && Fill(None, DefaultsOf(config)).Some?
    ensures Loads(config)
    ensures Processed(config) == WithDb(config, SectionsFilled(config, Fill(None, DefaultsOf(config)).value, |SECTIONS|))
  {
    FillNothing(None, DefaultsOf(config));
  }

  predicate HasDb(config: Tree) {
    config.Node? && "db" in config.children && config.children["db"].Node?
  }

  lemma InDb(config: Tree, key: string, x: Option<Tree>)
    requires HasDb(config)
    ensures var db := config.children["db"].children;
      && Get(config, ["db", key]) == At(db, key)
      && Put(config, ["db", key], x) == if x.None? then config else WithDb(config, db[key := x.value])
    ensures x.Some? ==> Get(Put(config, ["db", key], x), ["db", key]) == x
    ensures key != "default" ==> Unrelated(["db", key], ["db", "default"])
  {
    var db := config.children["db"];
    assert ["db", key][1..] == [key];
    GetKey(db, key);
    if x.Some? {
      SetKey(db, key, x.value);
      GetSet(config, ["db", key], x.value);
    }
    if key != "default" {
      assert ["db", "default"][1..] == ["default"];
      assert Unrelated([key], ["default"]);
    }
  }

  lemma DefaultReplaced(config: Tree, parsed: Tree)
    requires HasDefaults(config) && "default_parsed" !in config.children["db"].children
    ensures var db := config.children["db"].children;
      var after := WithDb(config, db["default_parsed" := parsed]);
      && HasDb(after) && after.children["db"].children - {"default_parsed"} == db
      && Node(after.children["db" := Node(db["default" := parsed])]) == WithDb(config, SectionsFilled(config, parsed, 0))
  {
    var db := config.children["db"].children;
    assert SectionsFilled(config, parsed, 0) == db["default" := parsed];
    var after := WithDb(config, db["default_parsed" := parsed]);
    assert after.children["db" := Node(db["default" := parsed])] == config.children["db" := Node(db["default" := parsed])];
  }

  lemma FirstSectionsStep(n: nat)
    requires n < |SECTIONS|
    ensures FirstSections(n + 1) == FirstSections(n) + {SECTIONS[n]}
    ensures "default" !in FirstSections(n) && SECTIONS[n] != "default"
  {
    hide SECTIONS;
    assert SECTIONS[..n + 1] == SECTIONS[..n] + [SECTIONS[n]];
    forall i | 0 <= i < |SECTIONS|
      ensures SECTIONS[i] != "default"
    {
      SectionNames(i);
    }
  }

  lemma SectionStep(config: Tree, parsed: Tree, n: nat)
    requires HasDefaults(config) && n < |SECTIONS|
    ensures var now := WithDb(config, SectionsFilled(config, parsed, n));
      var section := ["db", SECTIONS[n]];
      && Get(now, ["db", "default"]) == Some(parsed)
      && Unrelated(section, ["db", "default"])
      && Put(now, section, Fill(Get(now, section), parsed)) == WithDb(config, SectionsFilled(config, parsed, n + 1))
  {
    hide SECTIONS, Fill, Get, Put, FirstSections, WithDb;
    var s := SECTIONS[n];
    FirstSectionsStep(n);
    var filled := SectionsFilled(config, parsed, n);
    var now := WithDb(config, filled);
    WithDbHas(config, filled);
    InDb(now, "default", None);
    InDb(now, s, Fill(At(filled, s), parsed));
    SectionsFilledStep(config, parsed, n);
    WithDbTwice(config, filled, SectionsFilled(config, parsed, n + 1));
  }

  lemma SectionsFilledStep(config: Tree, parsed: Tree, n: nat)
    requires HasDefaults(config) && n < |SECTIONS|
    ensures var s, filled := SECTIONS[n], SectionsFilled(config, parsed, n);
      var x := Fill(At(filled, s), parsed);
      SectionsFilled(config, parsed, n + 1) == if x.None? then filled else filled[s := x.value]
  {
    hide SECTIONS, Fill, FirstSections;
    var s, db := SECTIONS[n], config.children["db"].children;
    FirstSectionsStep(n);
    FillTwice(At(db, s), parsed);
    assert Fill(At(SectionsFilled(config, parsed, n), s), parsed) == Fill(At(db, s), parsed);
  }

  lemma WithDbHas(config: Tree, db: map<string, Tree>)
    ensures HasDb(WithDb(config, db)) && WithDb(config, db).children["db"] == Node(db)
  {
  }

  lemma WithDbTwice(config: Tree, db: map<string, Tree>, db': map<string, Tree>)
    ensures WithDb(WithDb(config, db), db') == WithDb(config, db')
  {
    assert Children(config)["db" := Node(db)]["db" := Node(db')] == Children(config)["db" := Node(db')];
  }

  // ---- Filling twice is filling once.

  lemma {:induction false} FillTwice(t: Option<Tree>, d: Tree)
    ensures Fill(Fill(t, d), d) == Fill(t, d)
    decreases d
  {
    if d.Node? {
      var here := if t.Some? then Children(t.value) else map[];
      var filled := Filled(here, d);
      var once := here + filled;
      forall k | k in d.children
        ensures Fill(At(once, k), d.children[k]) == Fill(At(here, k), d.children[k])
      {
        if k in filled {
          FillTwice(At(here, k), d.children[k]);
        } else {
          FillNothing(At(here, k), d.children[k]);
        }
      }
      if Fill(t, d) == Some(Node(once)) {
        assert Filled(once, d) == filled;
        assert once + filled == once;
      }
    }
  }

  lemma SectionNames(n: nat)
    requires n < |SECTIONS|
    ensures SECTIONS[n] != "default" && SECTIONS[n] != "default_parsed"
  {
  }

  lemma FillKey(before: Tree, parent: Path, section: Option<Tree>, defaults: map<string, Tree>, done: set<string>, key: string)
    requires key in defaults && key !in done && section == Get(before, parent)
    ensures var r, r' := Fill(section, Node(Restrict(defaults, done))), Fill(section, Node(Restrict(defaults, done + {key})));
      && Get(Put(before, parent, r), parent + [key]) == GetIn(section, key)
      && Put(before, parent, r') == Put(Put(before, parent, r), parent + [key], Fill(GetIn(section, key), defaults[key]))
  {
    hide Fill, Restrict;
    FillStep(section, defaults, done, key);
    var r := Fill(section, Node(Restrict(defaults, done)));
    KeyOf(before, parent, section, r, key);
    PutKey(before, parent, section, r, key, Fill(GetIn(section, key), defaults[key]));
  }

  lemma GetPut(t: Tree, path: Path, x: Option<Tree>, other: Path)
    requires Unrelated(path, other)
    ensures Get(Put(t, path, x), other) == Get(t, other)
  {
    if x.Some? {
      GetSetElsewhere(t, path, x.value, other);
    }
  }

  lemma {:induction false} PathsApart(p: Path, q: Path, key: string)
    requires Unrelated(p, q)
    ensures Unrelated(p + [key], q + [key])
    decreases |p|
  {
    if p[0] == q[0] {
      assert (p + [key])[1..] == p[1..] + [key] && (q + [key])[1..] == q[1..] + [key];
      PathsApart(p[1..], q[1..], key);
    }
  }

  /** What stands at a key of the section while the section is being filled. */
  lemma KeyOf(before: Tree, parent: Path, section: Option<Tree>, r: Option<Tree>, key: string)
    requires section == Get(before, parent) && (r.None? ==> section.None?)
    ensures Get(Put(before, parent, r), parent + [key]) == GetIn(r, key)
  {
    GetBelow(before, parent, [key]);
    if r.Some? {
      GetSetBelow(before, parent, r.value, [key]);
      assert Get(r.value, [key]) == Child(r.value, key);
    }
  }

  lemma PutKey(before: Tree, parent: Path, section: Option<Tree>, r: Option<Tree>, key: string, x: Option<Tree>)
    requires section == Get(before, parent) && (r.None? ==> section.None?)
    ensures Put(Put(before, parent, r), parent + [key], x)
         == Put(before, parent, if x.None? then r else Some(Set(if r.Some? then r.value else NIL, [key], x.value)))
  {
    if x.Some? {
      SetBelow(Put(before, parent, r), parent, [key], x.value);
      if r.Some? {
        GetSet(before, parent, r.value);
        SetSet(before, parent, r.value, Set(r.value, [key], x.value));
      }
    }
  }

  // ---- What a processed configuration holds.

  function GetOpt(t: Option<Tree>, path: Path): Option<Tree> {
    if t.None? then None else Get(t.value, path)
  }

  /** At a leaf of the defaults, filling gives the sanitized default exactly where there was no value. */
  lemma {:induction false} FillAtLeaf(t: Option<Tree>, d: Tree, path: Path)
    requires Get(d, path).Some? && Get(d, path).value.Leaf?
    ensures HasLeaf(d)
    ensures GetOpt(Fill(t, d), path)
         == if IsNil(GetOpt(t, path)) then Some(Leaf(Sanitize(Get(d, path).value.value))) else GetOpt(t, path)
    decreases |path|
  {
    if path != [] {
      var here := if t.Some? then Children(t.value) else map[];
      FillAtLeaf(At(here, path[0]), d.children[path[0]], path[1..]);
      assert GetOpt(t, path) == GetOpt(At(here, path[0]), path[1..]);
    }
  }

  ghost predicate SectionAt(d: Tree, path: Path) {
    Get(d, path).Some? && Get(d, path).value.Node? && HasLeaf(Get(d, path).value)
  }

  /** A value survives filling if and only if the defaults have no section with values in its place. */
  lemma {:induction false} FillKeeps(t: Tree, d: Tree, path: Path)
    requires Get(t, path).Some? && Get(t, path).value.Leaf? && Get(t, path).value != NIL
    ensures GetOpt(Fill(Some(t), d), path) == Get(t, path) <==> !SectionAt(d, path)
    decreases |path|
  {
    FillNothing(Some(t), d);
    if path != [] && d.Node? {
      if path[0] in d.children {
        FillKeeps(t.children[path[0]], d.children[path[0]], path[1..]);
        FillNothing(Some(t.children[path[0]]), d.children[path[0]]);
      }
    } else if path == [] && d.Node? && !HasLeaf(d) {
      assert Fill(Some(t), d) == Some(t) by {
        forall k | k in d.children
          ensures Fill(None, d.children[k]).None?
        {
          FillNothing(None, d.children[k]);
        }
      }
    }
  }

  /** The sanitized defaults have their sections where the raw ones have them. */
  lemma {:induction false} FreshSections(d: Tree, path: Path)
    requires Fill(None, d).Some?
    ensures SectionAt(Fill(None, d).value, path) <==> SectionAt(d, path)
    decreases |path|
  {
    FillNothing(None, d);
    if path == [] {
      if d.Node? && HasLeaf(d) {
        FreshHasLeaf(d);
      }
    } else if d.Node? && path[0] in d.children {
      FillNothing(None, d.children[path[0]]);
      if Fill(None, d.children[path[0]]).Some? {
        FreshSections(d.children[path[0]], path[1..]);
      } else {
        NoLeafBelow(d.children[path[0]], path[1..]);
      }
    }
  }

  lemma {:induction false} NoLeafBelow(d: Tree, path: Path)
    requires !HasLeaf(d)
    ensures !SectionAt(d, path)
    decreases |path|
  {
    if path != [] && d.Node? && path[0] in d.children {
      NoLeafBelow(d.children[path[0]], path[1..]);
    }
  }

  lemma {:induction false} FreshHasLeaf(d: Tree)
    requires HasLeaf(d)
    ensures Fill(None, d).Some? && HasLeaf(Fill(None, d).value)
    decreases d
  {
    FillNothing(None, d);
    if d.Node? {
      var k :| k in d.children && HasLeaf(d.children[k]);
      FreshHasLeaf(d.children[k]);
      assert k in Fill(None, d).value.children && HasLeaf(Fill(None, d).value.children[k]);
    }
  }

  lemma ProcessedSection(config: Tree, s: string)
    requires Loads(config) && HasDefaults(config) && s in SECTIONS
    ensures Fill(None, DefaultsOf(config)).Some?
    ensures Get(Processed(config), ["db", "default"]) == Fill(None, DefaultsOf(config))
    ensures Get(Processed(config), ["db", s]) == Fill(At(config.children["db"].children, s), Fill(None, DefaultsOf(config)).value)
  {
    FillNothing(None, DefaultsOf(config));
    var parsed := Fill(None, DefaultsOf(config)).value;
    hide Fill, Get, Put, SECTIONS;
    var filled := SectionsFilled(config, parsed, |SECTIONS|);
    assert SECTIONS[..|SECTIONS|] == SECTIONS;
    WithDbHas(config, filled);
    InDb(WithDb(config, filled), "default", None);
    InDb(WithDb(config, filled), s, None);
    forall i | 0 <= i < |SECTIONS|
      ensures SECTIONS[i] != "default"
    {
      SectionNames(i);
    }
    FreshHasLeaf(DefaultsOf(config));
    FillNothing(At(config.children["db"].children, s), parsed);
  }

  /**
   * In every database section, every leaf path of `db.default` has an entry: the value the section had there, or the
   * sanitized default where it had none.
   */
  lemma DefaultsReachEverySection(config: Tree, s: string, path: Path)
    requires Loads(config) && HasDefaults(config) && s in SECTIONS
    requires Get(DefaultsOf(config), path).Some? && Get(DefaultsOf(config), path).value.Leaf?
    ensures Get(Processed(config), ["db", s] + path)
         == if IsNil(Get(config, ["db", s] + path)) then Some(Leaf(Sanitize(Get(DefaultsOf(config), path).value.value)))
            else Get(config, ["db", s] + path)
  {
    hide Fill, Get, SECTIONS, Processed, Sanitize;
    var d := DefaultsOf(config);
    FillAtLeaf(None, d, path);
    ProcessedSection(config, s);
    var parsed := Fill(None, d).value;
    var section := At(config.children["db"].children, s);
    SanitizeTwice(Get(d, path).value.value);
    FillAtLeaf(section, parsed, path);
    InDb(config, s, None);
    GetBelow(config, ["db", s], path);
    GetBelow(Processed(config), ["db", s], path);
  }

  lemma SanitizeTwice(v: Value)
    ensures Sanitize(Sanitize(v)) == Sanitize(v)
  {
    if v.List? && v.items != [] && v.items[0].StrItem? {
      NonEmptyTwice(v.items);
    }
  }

  lemma {:induction false} NonEmptyTwice(items: seq<Item>)
    ensures NonEmptyStrings(NonEmptyStrings(items)) == NonEmptyStrings(items)
    ensures NonEmptyStrings(items) != [] ==> NonEmptyStrings(items)[0].StrItem?
  {
    if items != [] {
      NonEmptyTwice(items[1..]);
      if items[0].StrItem? && items[0].text != "" {
        assert ([items[0]] + NonEmptyStrings(items[1..]))[1..] == NonEmptyStrings(items[1..]);
      } else {
        assert NonEmptyStrings(items) == NonEmptyStrings(items[1..]);
      }
    }
  }

  /** No value a section already had changes, unless the defaults have a section with values in its place. */
  lemma SectionValuesKept(config: Tree, s: string, path: Path)
    requires Loads(config) && HasDefaults(config) && s in SECTIONS
    requires Get(config, ["db", s] + path).Some?
    requires Get(config, ["db", s] + path).value.Leaf? && Get(config, ["db", s] + path).value != NIL
    ensures Get(Processed(config), ["db", s] + path) == Get(config, ["db", s] + path) <==> !SectionAt(DefaultsOf(config), path)
  {
    hide Fill, Get, SECTIONS, Processed;
    var d := DefaultsOf(config);
    ProcessedSection(config, s);
    FreshSections(d, path);
    InDb(config, s, None);
    GetBelow(config, ["db", s], path);
    GetBelow(Processed(config), ["db", s], path);
    FillKeeps(config.children["db"].children[s], Fill(None, d).value, path);
  }

  /** Filling brings in nothing but what the section or the defaults have. */
  lemma {:induction false} FillBrings(t: Option<Tree>, d: Tree, path: Path)
    requires GetOpt(Fill(t, d), path).Some?
    ensures GetOpt(t, path).Some? || Get(d, path).Some?
    decreases |path|
  {
    if path != [] && d.Node? {
      var here := if t.Some? then Children(t.value) else map[];
      if path[0] in d.children {
        FillBrings(At(here, path[0]), d.children[path[0]], path[1..]);
      }
    }
  }

  /** A database section ends with entries of its own and of the defaults only. */
  lemma NothingElseAppears(config: Tree, s: string, path: Path)
    requires Loads(config) && HasDefaults(config) && s in SECTIONS
    requires Get(Processed(config), ["db", s] + path).Some?
    ensures Get(config, ["db", s] + path).Some? || Get(DefaultsOf(config), path).Some?
  {
    hide Fill, Get, SECTIONS, Processed;
    var d := DefaultsOf(config);
    ProcessedSection(config, s);
    var parsed := Fill(None, d).value;
    InDb(config, s, None);
    GetBelow(config, ["db", s], path);
    GetBelow(Processed(config), ["db", s], path);
    FillBrings(At(config.children["db"].children, s), parsed, path);
    if Get(parsed, path).Some? {
      FillBrings(None, d, path);
    }
  }

  /** `db.default` itself ends with every one of its values sanitized. */
  lemma DefaultsSanitized(config: Tree, path: Path)
    requires Loads(config) && HasDefaults(config)
    requires Get(DefaultsOf(config), path).Some? && Get(DefaultsOf(config), path).value.Leaf?
    ensures Get(Processed(config), ["db", "default"] + path) == Some(Leaf(Sanitize(Get(DefaultsOf(config), path).value.value)))
  {
    assert "sqlite" in SECTIONS;
    hide Fill, Get, SECTIONS, Processed, Sanitize;
    ProcessedSection(config, "sqlite");
    FillAtLeaf(None, DefaultsOf(config), path);
    GetBelow(Processed(config), ["db", "default"], path);
  }

  const X_SECTION := Node(map["x" := Node(map["y" := Leaf(Num(1))])])

  const X_VALUE := Node(map["x" := Leaf(Num(5))])

  /** The defaults have a section where `sqlite` has a value. */
  const MIXED := Node(map["db" := Node(map["default" := X_SECTION, "sqlite" := X_VALUE])])

  lemma MixedShape()
    ensures Loads(MIXED) && HasDefaults(MIXED) && DefaultsOf(MIXED) == X_SECTION
    ensures Get(MIXED, ["db", "sqlite"] + ["x"]) == Some(Leaf(Num(5)))
  {
    hide SECTIONS;
    XSectionHolds();
    assert DefaultsOf(MIXED) == X_SECTION;
    InDb(MIXED, "sqlite", None);
    GetBelow(MIXED, ["db", "sqlite"], ["x"]);
    GetKey(X_VALUE, "x");
  }

  lemma XSectionHolds()
    ensures HasLeaf(X_SECTION) && SectionAt(X_SECTION, ["x"])
  {
    var x := X_SECTION.children["x"];
    assert HasLeaf(x.children["y"]);
    assert HasLeaf(x);
    GetKey(X_SECTION, "x");
  }

  /** A value where the defaults have a section is replaced by that section. */
  lemma SectionReplacesValue()
    ensures Loads(MIXED) && HasDefaults(MIXED) && SectionAt(DefaultsOf(MIXED), ["x"])
    ensures Get(MIXED, ["db", "sqlite", "x"]) == Some(Leaf(Num(5))) && Get(Processed(MIXED), ["db", "sqlite", "x"]) != Some(Leaf(Num(5)))
  {
    MixedShape();
    XSectionHolds();
    assert "sqlite" in SECTIONS;
    hide SECTIONS, MIXED, Loads, Processed, X_SECTION, Get, SectionAt;
    assert ["db", "sqlite"] + ["x"] == ["db", "sqlite", "x"];
    SectionValuesKept(MIXED, "sqlite", ["x"]);
  }

  /** Nothing outside the sections and the defaults themselves changes. */
  lemma ElsewhereUnchanged(config: Tree, path: Path)
    requires Loads(config)
    requires path != [] && (path[0] == "db" ==> |path| > 1 && path[1] !in SECTIONS && path[1] != "default")
    ensures Get(Processed(config), path) == Get(config, path)
  {
    if HasDefaults(config) && path[0] == "db" {
      hide Fill, SECTIONS;
      FillNothing(None, DefaultsOf(config));
      var filled := SectionsFilled(config, Fill(None, DefaultsOf(config)).value, |SECTIONS|);
      assert Get(Processed(config), path) == Get(Node(filled), path[1..]);
      assert path[1] in filled <==> path[1] in config.children["db"].children;
    }
  }

  lemma {:induction false} FreshTwice(d: Tree)
    requires Fill(None, d).Some?
    ensures Fill(None, Fill(None, d).value) == Fill(None, d)
    decreases d
  {
    match d
    case Leaf(v) => SanitizeTwice(v);
    case Node(_) =>
      var filled := Filled(map[], d);
      forall k | k in filled
        ensures Fill(None, filled[k]) == Some(filled[k])
      {
        FreshTwice(d.children[k]);
      }
      assert Fill(None, d) == Some(Node(map[] + filled));
      assert map[] + filled == filled;
      assert Filled(map[], Node(filled)) == filled;
  }

  /** Processing a processed configuration changes nothing. */
  lemma ProcessTwice(config: Tree)
    requires Loads(config)
    ensures Loads(Processed(config))
    ensures Processed(Processed(config)) == Processed(config)
  {
    if HasDefaults(config) {
      hide Fill, SECTIONS, SectionsFilled;
      var d := DefaultsOf(config);
      FreshHasLeaf(d);
      FreshTwice(d);
      FillNothing(None, d);
      var parsed := Fill(None, d).value;
      var once := SectionsFilled(config, parsed, |SECTIONS|);
      FilledSections(config, parsed);
      FilledAgain(config, parsed);
      WithDbTwice(config, once, once);
    }
  }

  lemma FilledSections(config: Tree, parsed: Tree)
    requires HasDefaults(config) && "default_parsed" !in config.children["db"].children
    ensures var once := SectionsFilled(config, parsed, |SECTIONS|);
      "default" in once && once["default"] == parsed && "default_parsed" !in once
  {
    hide Fill, SECTIONS;
    forall i | 0 <= i < |SECTIONS|
      ensures SECTIONS[i] != "default" && SECTIONS[i] != "default_parsed"
    {
      SectionNames(i);
    }
  }

  lemma NoDefaultSection()
    ensures "default" !in FirstSections(|SECTIONS|)
  {
    hide SECTIONS;
    forall i | 0 <= i < |SECTIONS|
      ensures SECTIONS[i] != "default"
    {
      SectionNames(i);
    }
  }

  lemma FilledAgain(config: Tree, parsed: Tree)
    requires HasDefaults(config) && "default_parsed" !in config.children["db"].children
    ensures var once := SectionsFilled(config, parsed, |SECTIONS|);
      HasDefaults(WithDb(config, once)) && SectionsFilled(WithDb(config, once), parsed, |SECTIONS|) == once
  {
    hide Fill, SECTIONS;
    FilledSections(config, parsed);
    NoDefaultSection();
    var db, once := config.children["db"].children, SectionsFilled(config, parsed, |SECTIONS|);
    forall s | s in FirstSections(|SECTIONS|)
      ensures Fill(At(once, s), parsed) == Fill(At(db, s), parsed)
    {
      FillTwice(At(db, s), parsed);
    }
    var again := SectionsFilled(WithDb(config, once), parsed, |SECTIONS|);
    assert again == once;
  }
}
