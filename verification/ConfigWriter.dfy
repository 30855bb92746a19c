/** Writing a user value: the file is loaded, changed and written, and all layers are loaded again. */
module ConfigWriter {
  import opened Text
  import opened ConfigTree
  import opened ConfigDefaults
  import opened ConfigProvider
  import opened ConfigWarnings

  /** The configuration files as parsed. */
  datatype Files = Files(defaults: Tree, user: Tree, system: Tree, deprecated: Tree)

  /** A user file that cannot be processed is ignored. */
  ghost function LoadUser(file: Tree): Tree
    requires ProperShape(file)
  {
    if Loads(file) then Processed(file) else Node(map[])
  }

  ghost predicate Shaped(f: Files) {
    && f.defaults.Node? && f.user.Node? && f.system.Node? && f.deprecated.Node?
    && ProperShape(f.defaults) && ProperShape(f.user) && ProperShape(f.system) && ProperShape(f.deprecated)
  }

  /** The files other than the user's can be processed. */
  ghost predicate Readable(f: Files) {
    Shaped(f) && Loads(f.defaults) && Loads(f.system) && Loads(f.deprecated)
  }

  /** Nor does collecting the warnings run into a null. */
  ghost predicate Loadable(f: Files) {
    && Readable(f) && NullFree(LoadUser(f.user)) && NullFree(Processed(f.deprecated))
    && !Trips(Known(Processed(f.defaults), Processed(f.deprecated)), Processed(f.system))
  }

  ghost function Load(f: Files): Source
    requires Readable(f)
  {
    Source(Processed(f.defaults), LoadUser(f.user), Processed(f.system))
  }

  /** The writer sets the path in what it has loaded, and writes all of that back. */
  ghost function WrittenFile(file: Tree, path: Path, v: Value): Tree
    requires Loads(file)
  {
    Set(Processed(file), path, Leaf(v))
  }

  ghost function AfterWrite(f: Files, path: Path, v: Value): Files
    requires Loads(f.user)
  {
    f.(user := WrittenFile(f.user, path, v))
  }

  /** What the provider holds after the write and the reload: an error while loading leaves it as it was. */
  ghost function Reloaded(f: Files, path: Path, v: Value): Source
    requires Loadable(f) && Loads(f.user) && path != [] && ProperShape(WrittenFile(f.user, path, v))
  {
    if Loadable(AfterWrite(f, path, v)) then Load(AfterWrite(f, path, v)) else Load(f)
  }

  // ---- Where a path leads.

  /** An entry of `db.default`. */
  predicate InDefaults(path: Path) {
    |path| > 2 && path[0] == "db" && path[1] == "default"
  }

  /** A database section, or an entry of one. */
  predicate InSection(path: Path) {
    |path| >= 2 && path[0] == "db" && path[1] in SECTIONS
  }

  /** The sections' names of an entry of `db.default` above the entry itself. */
  predicate AboveMirror(path: Path, other: Path) {
    InDefaults(path) && InSection(other) && |other| < |path| && other[2..] == path[2..|other|]
  }

  /** Whether a written value is what is loaded again, going by the user layer before the write. */
  ghost predicate ComesBack(user: Tree, path: Path, v: Value) {
    if path == ["db", "default"] then false
    else if InDefaults(path) then Sanitize(v) == v
    else if InSection(path) && HasDefaults(user) then !SectionAt(DefaultsOf(user), path[2..])
    else true
  }

  /** Whether a write leaves a null in the user layer, going by that layer before the write. */
  ghost predicate BringsNull(user: Tree, path: Path, v: Value) {
    if path == ["db", "default"] then false
    else if InDefaults(path) then v == Null || v == Str("")
    else if InSection(path) && HasDefaults(user) then v == Null && !ValuesAt(DefaultsOf(user), path[2..])
    else v == Null
  }

  /** The defaults have a value, or a section with values. */
  ghost predicate ValuesAt(d: Tree, path: Path) {
    Get(d, path).Some? && HasLeaf(Get(d, path).value)
  }

  /** The section entry at `other` had no value, and takes the one written to the defaults. */
  predicate Mirrored(s: Source, path: Path, v: Value, other: Path) {
    && InDefaults(path) && InSection(other) && other[2..] == path[2..]
    && Sanitize(v) != Null && !LayerHas(s.user, other) && !LayerHas(s.system, other)
  }

  // ---- The children of `db`, and what a write does to them.

  function Db(t: Tree): map<string, Tree> {
    if "db" in Children(t) then Children(t.children["db"]) else map[]
  }

  function OrEmpty(t: Option<Tree>): Tree {
    if t.Some? then t.value else Node(map[])
  }

  lemma DbGet(t: Tree, y: string, rest: Path)
    ensures Get(t, ["db", y] + rest) == GetOpt(At(Db(t), y), rest)
  {
    var path := ["db", y] + rest;
    assert path[1..] == [y] + rest && path[1..][1..] == rest;
    if "db" in Children(t) {
      assert Get(t, path) == Get(t.children["db"], [y] + rest);
    }
  }

  lemma DbSet(t: Tree, x: string, rest: Path, v: Value)
    ensures Db(Set(t, ["db", x] + rest, Leaf(v))) == Db(t)[x := Set(OrEmpty(At(Db(t), x)), rest, Leaf(v))]
  {
    var path := ["db", x] + rest;
    assert path[1..] == [x] + rest && path[1..][1..] == rest;
    var db := if "db" in Children(t) then Children(t)["db"] else NIL;
    assert Children(db) == Db(t);
    var child := if x in Db(t) then Db(t)[x] else NIL;
    NilIsEmpty(rest, Leaf(v));
    assert Set(db, [x] + rest, Leaf(v)) == Node(Db(t)[x := Set(child, rest, Leaf(v))]) by {
      assert ([x] + rest)[1..] == rest;
    }
    assert Set(t, path, Leaf(v)).children["db"] == Set(db, [x] + rest, Leaf(v));
  }

  lemma NilIsEmpty(rest: Path, x: Tree)
    ensures Set(NIL, rest, x) == Set(Node(map[]), rest, x)
  {
  }

  lemma EmptyHasNothing(q: Path)
    requires q != []
    ensures Get(Node(map[]), q) == None
  {
  }

  // ---- Filling a section from changed defaults, and a changed section from defaults.

  /** Filling works child by child. */
  lemma FillAt(t: Option<Tree>, d: Tree, q: Path)
    requires d.Node? && q != []
    ensures GetOpt(Fill(t, d), q)
         == GetOpt(if q[0] in d.children then Fill(GetIn(t, q[0]), d.children[q[0]]) else GetIn(t, q[0]), q[1..])
  {
    var here := if t.Some? then Children(t.value) else map[];
    assert GetIn(t, q[0]) == At(here, q[0]);
    assert q[0] in Filled(here, d) <==> q[0] in d.children && Fill(At(here, q[0]), d.children[q[0]]).Some?;
    if q[0] in d.children {
      FillNothing(At(here, q[0]), d.children[q[0]]);
    }
  }

  lemma FilledChildren(t: Option<Tree>, d: Tree, j: string)
    requires d.Node? && Fill(t, d) == t && j in d.children
    ensures Fill(GetIn(t, j), d.children[j]) == GetIn(t, j)
  {
    var here := if t.Some? then Children(t.value) else map[];
    FillNothing(At(here, j), d.children[j]);
    assert j in Filled(here, d) <==> Fill(At(here, j), d.children[j]).Some?;
    assert j in Filled(here, d) ==> Filled(here, d)[j] == Fill(At(here, j), d.children[j]).value;
    assert Fill(t, d) == Some(Node(here + Filled(here, d))) || Filled(here, d) == map[];
    if Fill(t, d) == Some(Node(here + Filled(here, d))) {
      assert (here + Filled(here, d)) == here;
    }
  }

  /** A value set in a filled section leaves the rest of it filled. */
  lemma {:induction false} FillSetElsewhere(t: Option<Tree>, d: Tree, p: Path, v: Value, q: Path)
    requires Fill(t, d) == t && Unrelated(p, q)
    ensures GetOpt(Fill(Some(Set(OrEmpty(t), p, Leaf(v))), d), q) == GetOpt(t, q)
    decreases |p|
  {
    hide Fill;
    var t', k := Set(OrEmpty(t), p, Leaf(v)), p[0];
    GetSetElsewhere(OrEmpty(t), p, Leaf(v), q);
    assert GetOpt(t, q) == Get(OrEmpty(t), q);
    if d.Leaf? {
      FillLeaf(Some(t'), d.value);
    } else {
      FillAt(Some(t'), d, q);
      if q[0] in d.children {
        FilledChildren(t, d, q[0]);
        if q[0] == k {
          NilIsEmpty(p[1..], Leaf(v));
          assert GetIn(Some(t'), k) == Some(Set(OrEmpty(GetIn(t, k)), p[1..], Leaf(v)));
          FillSetElsewhere(GetIn(t, k), d.children[k], p[1..], v, q[1..]);
          assert GetOpt(t, q) == GetOpt(GetIn(t, k), q[1..]);
        } else {
          assert GetIn(Some(t'), q[0]) == GetIn(t, q[0]);
        }
      }
    }
  }

  /** A default added or changed at `p` touches nothing of a filled section but what stands at or above `p`. */
  lemma {:induction false} FillFromMore(t: Option<Tree>, d: Tree, p: Path, w: Value, q: Path)
    requires Fill(t, d) == t && !(q <= p)
    ensures GetOpt(Fill(t, Set(d, p, Leaf(w))), q) == GetOpt(t, q)
    decreases |p|
  {
    hide Fill;
    if p == [] {
      FillLeaf(t, w);
    } else {
      var d', k := Set(d, p, Leaf(w)), p[0];
      FillAt(t, d', q);
      assert GetOpt(t, q) == GetOpt(GetIn(t, q[0]), q[1..]);
      if q[0] == k {
        var child := OrEmpty(Child(d, k));
        NilIsEmpty(p[1..], Leaf(w));
        assert d'.children[k] == Set(child, p[1..], Leaf(w));
        if k in Children(d) {
          FilledChildren(t, d, k);
        } else {
          FillEmpty(GetIn(t, k));
        }
        assert !(q[1..] <= p[1..]) by {
          assert q == [q[0]] + q[1..] && p == [p[0]] + p[1..];
        }
        FillFromMore(GetIn(t, k), child, p[1..], w, q[1..]);
      } else if q[0] in Children(d) {
        FilledChildren(t, d, q[0]);
      }
    }
  }

  /** Sanitized defaults: nothing more to do. */
  ghost predicate Sanitized(d: Tree) {
    d == Node(map[]) || Fill(None, d) == Some(d)
  }

  lemma SanitizedChildren(d: Tree, j: string)
    requires Sanitized(d) && j in Children(d)
    ensures Sanitized(d.children[j]) && Fill(None, d.children[j]) == Some(d.children[j])
  {
    assert map[] + Filled(map[], d) == Filled(map[], d);
    assert j in Filled(map[], d);
  }

  lemma FreshNode(children: map<string, Tree>, want: map<string, Tree>)
    requires children != map[] && children.Keys == want.Keys
    requires forall j :: j in children ==> Fill(None, children[j]) == Some(want[j])
    ensures Fill(None, Node(children)) == Some(Node(want))
  {
    assert Filled(map[], Node(children)) == want;
    assert map[] + want == want;
  }

  /** Sanitizing after a write sanitizes the written value. */
  lemma {:induction false} SanitizedSet(d: Tree, p: Path, v: Value)
    requires Sanitized(d)
    ensures Fill(None, Set(d, p, Leaf(v))) == Some(Set(d, p, Leaf(Sanitize(v))))
    decreases |p|
  {
    hide Sanitize, Fill;
    if p == [] {
      FillLeaf(None, v);
    } else {
      hide Sanitized;
      EmptyIsSanitized();
      var d', k, child := Set(d, p, Leaf(v)), p[0], OrEmpty(Child(d, p[0]));
      NilIsEmpty(p[1..], Leaf(v));
      NilIsEmpty(p[1..], Leaf(Sanitize(v)));
      if k in Children(d) {
        SanitizedChildren(d, k);
      }
      SanitizedSet(child, p[1..], v);
      var want := Children(d)[k := Set(child, p[1..], Leaf(Sanitize(v)))];
      forall j | j in d'.children
        ensures Fill(None, d'.children[j]) == Some(want[j])
      {
        if j != k {
          SanitizedChildren(d, j);
        }
      }
      assert k in d'.children && d'.children.Keys == want.Keys;
      FreshNode(d'.children, want);
    }
  }

  lemma EmptyIsSanitized()
    ensures Sanitized(Node(map[]))
  {
  }

  /** Where the defaults have a section with values, so has whatever is filled from them. */
  lemma {:induction false} FillSection(t: Option<Tree>, d: Tree, path: Path)
    requires SectionAt(d, path)
    ensures GetOpt(Fill(t, d), path).Some? && GetOpt(Fill(t, d), path).value.Node?
    decreases |path|
  {
    if path == [] {
      FillNothing(t, d);
    } else {
      FillAt(t, d, path);
      FillSection(GetIn(t, path[0]), d.children[path[0]], path[1..]);
    }
  }

  // ---- What processing makes of the three parts of a file.

  lemma SectionAfter(file: Tree, y: string, rest: Path)
    requires Loads(file) && y in SECTIONS
    ensures HasDefaults(file) ==> Fill(None, DefaultsOf(file)).Some?
    ensures Get(Processed(file), ["db", y] + rest)
         == GetOpt(if HasDefaults(file) then Fill(At(Db(file), y), Fill(None, DefaultsOf(file)).value) else At(Db(file), y), rest)
  {
    hide Fill, SECTIONS, Get;
    if HasDefaults(file) {
      ProcessedSection(file, y);
      GetBelow(Processed(file), ["db", y], rest);
    } else {
      DbGet(file, y, rest);
    }
  }

  lemma DefaultsAfter(file: Tree, rest: Path)
    requires Loads(file)
    ensures Get(Processed(file), ["db", "default"] + rest)
         == if HasDefaults(file) then GetOpt(Fill(None, DefaultsOf(file)), rest) else None
  {
    assert "sqlite" in SECTIONS;
    hide Fill, SECTIONS, Get;
    if HasDefaults(file) {
      ProcessedSection(file, "sqlite");
      GetBelow(Processed(file), ["db", "default"], rest);
    } else {
      DbGet(file, "default", rest);
    }
  }

  /** What has been loaded is filled already. */
  lemma LoadedIsFilled(user: Tree)
    requires Loads(user) && Processed(user) == user
    ensures HasDefaults(user) <==> "default" in Db(user)
    ensures HasDefaults(user) ==> DefaultsOf(user) == Db(user)["default"] && Fill(None, DefaultsOf(user)) == Some(DefaultsOf(user))
    ensures HasDefaults(user) ==> forall s :: s in SECTIONS ==> Fill(At(Db(user), s), DefaultsOf(user)) == At(Db(user), s)
  {
    hide Fill, SECTIONS, Processed;
    if HasDefaults(user) {
      DefaultsAfter(user, []);
      DbGet(user, "default", []);
      forall s | s in SECTIONS
        ensures Fill(At(Db(user), s), DefaultsOf(user)) == At(Db(user), s)
      {
        SectionAfter(user, s, []);
        DbGet(user, s, []);
      }
    }
  }

  function SanitizedDefaults(user: Tree): Tree {
    OrEmpty(At(Db(user), "default"))
  }

  lemma SectionsFilledFrom(user: Tree, s: string)
    requires Loads(user) && Processed(user) == user && s in SECTIONS
    ensures Sanitized(SanitizedDefaults(user))
    ensures Fill(At(Db(user), s), SanitizedDefaults(user)) == At(Db(user), s)
  {
    hide Fill, SECTIONS, Processed;
    LoadedIsFilled(user);
    FillEmpty(At(Db(user), s));
  }

  /** A written file loads again, unless the defaults as a whole were replaced by a value. */
  lemma WrittenLoads(user: Tree, path: Path, v: Value)
    requires Loads(user) && path != [] && path != ["db", "default"] && ProperShape(Set(user, path, Leaf(v)))
    ensures Loads(Set(user, path, Leaf(v)))
  {
    var file := Set(user, path, Leaf(v));
    if HasDefaults(file) {
      if path[0] != "db" {
        assert file.children["db"] == user.children["db"];
      } else if |path| > 1 {
        assert path == ["db", path[1]] + path[2..];
        DbSet(user, path[1], path[2..], v);
        assert DefaultsOf(file) == Db(file)["default"];
        if path[1] == "default" {
          SetHasLeaf(OrEmpty(At(Db(user), "default")), path[2..], v);
        } else {
          assert DefaultsOf(file) == DefaultsOf(user);
        }
      }
    }
  }

  lemma {:induction false} SetHasLeaf(t: Tree, path: Path, v: Value)
    ensures HasLeaf(Set(t, path, Leaf(v)))
    decreases |path|
  {
    if path != [] {
      var child := if path[0] in Children(t) then Children(t)[path[0]] else NIL;
      SetHasLeaf(child, path[1..], v);
      assert path[0] in Set(t, path, Leaf(v)).children;
    }
  }

  // ---- The user layer after a write.

  /** Among the database sections and their defaults. */
  predicate Managed(path: Path) {
    |path| >= 2 && path[0] == "db" && (path[1] == "default" || path[1] in SECTIONS)
  }

  /** A write outside `db` leaves everything in there as it is. */
  lemma DbUntouched(user: Tree, path: Path, v: Value)
    requires Loads(user) && Processed(user) == user && path != [] && path[0] != "db"
    requires Loads(Set(user, path, Leaf(v)))
    ensures Get(Processed(Set(user, path, Leaf(v))), ["db"]) == Get(user, ["db"])
  {
    hide SECTIONS, Fill;
    var file := Set(user, path, Leaf(v));
    assert "db" in Children(user) <==> "db" in Children(file);
    if HasDefaults(file) {
      FillNothing(None, DefaultsOf(file));
      assert file.children["db"] == user.children["db"];
      assert Processed(file).children["db"] == Processed(user).children["db"];
    }
  }

  lemma DefaultsAfterWrite(user: Tree, x: string, rest: Path, v: Value, q: Path)
    requires var file := Set(user, ["db", x] + rest, Leaf(v));
      Loads(user) && Processed(user) == user && Loads(file)
    requires x == "default" ==> Unrelated(rest, q)
    ensures Get(Processed(Set(user, ["db", x] + rest, Leaf(v))), ["db", "default"] + q) == Get(user, ["db", "default"] + q)
  {
    hide Fill, SECTIONS, Processed, Get;
    var file := Set(user, ["db", x] + rest, Leaf(v));
    LoadedIsFilled(user);
    DbSet(user, x, rest, v);
    DbGet(user, "default", q);
    DefaultsAfter(file, q);
    if x == "default" {
      var d := SanitizedDefaults(user);
      SanitizedSet(d, rest, v);
      GetSetElsewhere(d, rest, Leaf(Sanitize(v)), q);
      EmptyHasNothing(q);
    }
  }

  /** What a section holds after a write to `db`. */
  lemma SectionAfterWrite(user: Tree, x: string, rest: Path, v: Value, s: string, q: Path)
    requires var file := Set(user, ["db", x] + rest, Leaf(v));
      Loads(user) && Processed(user) == user && Loads(file)
    requires s in SECTIONS && x == s ==> Unrelated(rest, q)
    requires s in SECTIONS && x == "default" ==> rest != [] && (q == rest || !(q <= rest))
    requires s in SECTIONS
    ensures Get(Processed(Set(user, ["db", x] + rest, Leaf(v))), ["db", s] + q)
         == if x == "default" && q == rest && IsNil(Get(user, ["db", s] + q)) then Some(Leaf(Sanitize(v)))
            else Get(user, ["db", s] + q)
  {
    hide Fill, SECTIONS, Processed, Get;
    var file, d, t := Set(user, ["db", x] + rest, Leaf(v)), SanitizedDefaults(user), At(Db(user), s);
    LoadedIsFilled(user);
    SectionsFilledFrom(user, s);
    DbSet(user, x, rest, v);
    DbGet(user, s, q);
    SectionAfter(file, s, q);
    DefaultIsNoSection();
    if x == "default" {
      SanitizedSet(d, rest, v);
      if q == rest {
        GetSet(d, rest, Leaf(Sanitize(v)));
        SanitizeTwice(v);
        FillAtLeaf(t, Set(d, rest, Leaf(Sanitize(v))), q);
      } else {
        FillFromMore(t, d, rest, Sanitize(v), q);
      }
    } else if x == s {
      FillSetElsewhere(t, d, rest, v, q);
      FillEmpty(Some(Set(OrEmpty(t), rest, Leaf(v))));
    }
  }

  lemma DefaultIsNoSection()
    ensures "default" !in SECTIONS
  {
  }

  /** What the user layer answers after a write: everything as before, but for the mirrors of a default. */
  lemma UserAfterWrite(user: Tree, path: Path, v: Value, other: Path)
    requires Loads(user) && Processed(user) == user && Loads(Set(user, path, Leaf(v)))
    requires path != [] && path != ["db", "default"] && Unrelated(path, other) && !AboveMirror(path, other)
    ensures Get(Processed(Set(user, path, Leaf(v))), other)
         == if InDefaults(path) && InSection(other) && other[2..] == path[2..] && IsNil(Get(user, other))
            then Some(Leaf(Sanitize(v))) else Get(user, other)
  {
    DefaultIsNoSection();
    hide Fill, SECTIONS, Processed, Get, Loads;
    var file := Set(user, path, Leaf(v));
    if other[0] == "db" && path[0] != "db" {
      DbUntouched(user, path, v);
      assert other == ["db"] + other[1..];
      GetBelow(Processed(file), ["db"], other[1..]);
      GetBelow(user, ["db"], other[1..]);
    } else if Managed(other) {
      assert path[1..] != [];
      var x, rest, s, q := path[1], path[2..], other[1], other[2..];
      assert path == ["db", x] + rest && other == ["db", s] + q;
      assert Unrelated(path[1..], other[1..]) && path[1..][1..] == rest && other[1..][1..] == q;
      if s == "default" {
        DefaultsAfterWrite(user, x, rest, v, q);
      } else {
        assert x == "default" ==> rest != [];
        assert q <= rest ==> q == rest[..|q|] && rest[..|q|] == path[2..|other|];
        SectionAfterWrite(user, x, rest, v, s, q);
      }
    } else {
      assert other[0] == "db" ==> |other| > 1;
      ElsewhereUnchanged(file, other);
      GetSetElsewhere(user, path, Leaf(v), other);
    }
  }

  /** And what it answers for the written path itself. */
  lemma UserAtWrite(user: Tree, path: Path, v: Value)
    requires Loads(user) && Processed(user) == user && Loads(Set(user, path, Leaf(v)))
    requires path != [] && path != ["db", "default"] && v != Null
    ensures var got := Get(Processed(Set(user, path, Leaf(v))), path);
      && (InDefaults(path) ==> got == Some(Leaf(Sanitize(v))))
      && (!InDefaults(path) ==> !IsNil(got) && (got == Some(Leaf(v)) <==> ComesBack(user, path, v)))
  {
    DefaultIsNoSection();
    hide Fill, SECTIONS, Processed, Get, Loads;
    var file := Set(user, path, Leaf(v));
    GetSet(user, path, Leaf(v));
    if Managed(path) {
      var x, rest := path[1], path[2..];
      assert path == ["db", x] + rest;
      DbSet(user, x, rest, v);
      LoadedIsFilled(user);
      if x == "default" {
        var d := SanitizedDefaults(user);
        DefaultsAfter(file, rest);
        SanitizedSet(d, rest, v);
        GetSet(d, rest, Leaf(Sanitize(v)));
      } else {
        SectionAtWrite(user, x, rest, v);
      }
    } else if path == ["db"] {
      assert Children(file)["db"] == Leaf(v) by {
        assert path[1..] == [];
      }
      assert !HasDefaults(file);
      NothingProcessed(file);
    } else {
      assert path[0] == "db" ==> |path| > 1;
      ElsewhereUnchanged(file, path);
    }
  }

  lemma NothingProcessed(file: Tree)
    requires Loads(file) && !HasDefaults(file)
    ensures Processed(file) == file
  {
  }

  lemma SectionAtWrite(user: Tree, s: string, rest: Path, v: Value)
    requires var file := Set(user, ["db", s] + rest, Leaf(v)); Loads(user) && Processed(user) == user && Loads(file)
    requires s in SECTIONS && v != Null
    ensures var got := Get(Processed(Set(user, ["db", s] + rest, Leaf(v))), ["db", s] + rest);
      !IsNil(got) && (got == Some(Leaf(v)) <==> !(HasDefaults(user) && SectionAt(DefaultsOf(user), rest)))
  {
    hide Fill, SECTIONS, Processed, Get, SectionAt;
    var path := ["db", s] + rest;
    var file := Set(user, path, Leaf(v));
    DefaultIsNoSection();
    LoadedIsFilled(user);
    DbSet(user, s, rest, v);
    GetSet(user, path, Leaf(v));
    if HasDefaults(user) {
      SectionValuesKept(file, s, rest);
      if SectionAt(DefaultsOf(user), rest) {
        SectionAfter(file, s, rest);
        FillSection(At(Db(file), s), DefaultsOf(user), rest);
      }
    } else {
      NothingProcessed(file);
    }
  }

  // ---- The layers together.

  /** No layer has a top-level section that would take the place of its Config object's field. */
  ghost predicate NoConfigKey(f: Files) {
    "config" !in Children(f.defaults) && "config" !in Children(f.user) && "config" !in Children(f.system)
  }

  lemma ProcessedKeys(file: Tree)
    requires Loads(file) && "config" !in Children(file)
    ensures "config" !in Children(Processed(file))
  {
    if HasDefaults(file) {
      hide Fill, SectionsFilled;
      FillNothing(None, DefaultsOf(file));
    }
  }

  lemma SourceKeys(f: Files)
    requires Readable(f) && NoConfigKey(f)
    ensures var s := Load(f);
      "config" !in Children(s.defaults) && "config" !in Children(s.user) && "config" !in Children(s.system)
  {
    hide Processed, Loads;
    ProcessedKeys(f.defaults);
    ProcessedKeys(f.system);
    if Loads(f.user) {
      ProcessedKeys(f.user);
    }
  }

  lemma SetKeys(t: Tree, path: Path, x: Tree)
    requires path != [] && path[0] != "config" && "config" !in Children(t)
    ensures "config" !in Children(Set(t, path, x))
  {
  }

  /** The default layer never answers with an empty string, nor with a value for all of `db.default`. */
  lemma DefaultsAreSanitized(file: Tree, rest: Path, v: Value)
    requires Loads(file) && Get(Processed(file), ["db", "default"] + rest) == Some(Leaf(v))
    ensures rest != [] && Sanitize(v) == v
  {
    hide SECTIONS, Processed, Sanitize;
    ProcessTwice(file);
    var d := Processed(file);
    LoadedIsFilled(d);
    DbGet(d, "default", rest);
    if rest != [] {
      FillAtLeaf(None, DefaultsOf(d), rest);
      SanitizeTwice(v);
    }
  }

  /** Lookup in the files as written. */
  lemma WrittenThenGet(own: map<string, Tree>, f: Files, path: Path, v: Value)
    requires Readable(f) && Loads(f.user) && NoConfigKey(f)
    requires path != [] && path[0] != "config" && v != Null && UserCanOverride(own, Load(f), path)
    requires ProperShape(WrittenFile(f.user, path, v))
    ensures Resolve(Load(AfterWrite(f, path, v)), path) == Some(Leaf(v)) <==> ComesBack(Load(f).user, path, v)
  {
    hide SECTIONS, Processed, Get, Set, SectionAt;
    var user, f' := Processed(f.user), AfterWrite(f, path, v);
    var file := Set(user, path, Leaf(v));
    ProcessTwice(f.user);
    SourceKeys(f);
    SetKeys(user, path, Leaf(v));
    WrittenReadable(f, path, v);
    SourceKeys(f');
    OverridableIsNotSystem(own, Load(f), path);
    if path == ["db", "default"] {
      ReplacedDefaults(user, v);
      assert path == ["db", "default"] + [];
      EmptyHasNothing(path);
      if Get(Processed(f.defaults), path) == Some(Leaf(v)) {
        DefaultsAreSanitized(f.defaults, [], v);
      }
    } else {
      WrittenLoads(user, path, v);
      UserAtWrite(user, path, v);
      if InDefaults(path) && Sanitize(v) == Null && Get(Processed(f.defaults), path) == Some(Leaf(v)) {
        assert path == ["db", "default"] + path[2..];
        DefaultsAreSanitized(f.defaults, path[2..], v);
      }
    }
  }

  /** With `db.default` itself replaced by a value the file does not load any more. */
  lemma ReplacedDefaults(user: Tree, v: Value)
    ensures !Loads(Set(user, ["db", "default"], Leaf(v)))
  {
    assert ["db", "default"] == ["db", "default"] + [];
    DbSet(user, "default", [], v);
    assert DefaultsOf(Set(user, ["db", "default"], Leaf(v))) == Leaf(v);
  }

  lemma WrittenElsewhere(f: Files, path: Path, v: Value, other: Path)
    requires Readable(f) && Loads(f.user) && NoConfigKey(f)
    requires path != [] && path[0] != "config" && path != ["db", "default"] && ProperShape(WrittenFile(f.user, path, v))
    requires Unrelated(path, other) && !AboveMirror(path, other)
    ensures Resolve(Load(AfterWrite(f, path, v)), other)
         == if Mirrored(Load(f), path, v, other) then Some(Leaf(Sanitize(v))) else Resolve(Load(f), other)
  {
    hide SECTIONS, Processed, Get, Set;
    var user, f' := Processed(f.user), AfterWrite(f, path, v);
    ProcessTwice(f.user);
    SourceKeys(f);
    SetKeys(user, path, Leaf(v));
    WrittenReadable(f, path, v);
    SourceKeys(f');
    WrittenLoads(user, path, v);
    UserAfterWrite(user, path, v, other);
  }

  // ---- Nulls: what a write brings into the user layer.

  /** Defaults none of which is handed out as null. */
  ghost predicate Solid(d: Tree) {
    match d
    case Leaf(v) => Sanitize(v) != Null
    case Node(children) => forall k :: k in children ==> Solid(children[k])
  }

  lemma {:induction false} SanitizedSolid(d: Tree)
    requires Sanitized(d) && NullFree(d)
    ensures Solid(d)
    decreases d
  {
    match d
    case Leaf(v) => FillLeaf(None, v);
    case Node(children) =>
      forall k | k in children
        ensures Solid(children[k])
      {
        SanitizedChildren(d, k);
        SanitizedSolid(children[k]);
      }
  }

  lemma {:induction false} SolidSet(d: Tree, path: Path, v: Value)
    requires Solid(d) && Sanitize(v) != Null
    ensures Solid(Set(d, path, Leaf(v)))
    decreases |path|
  {
    if path != [] {
      NilIsEmpty(path[1..], Leaf(v));
      SolidSet(OrEmpty(Child(d, path[0])), path[1..], v);
    }
  }

  lemma {:induction false} NullFreeSet(t: Tree, path: Path, v: Value)
    requires NullFree(t) && v != Null
    ensures NullFree(Set(t, path, Leaf(v)))
    decreases |path|
  {
    if path != [] {
      NilIsEmpty(path[1..], Leaf(v));
      NullFreeSet(OrEmpty(Child(t, path[0])), path[1..], v);
    }
  }

  ghost predicate NoNull(t: Option<Tree>) {
    t.Some? ==> NullFree(t.value)
  }

  lemma {:induction false} FillNullFree(t: Option<Tree>, d: Tree)
    requires NoNull(t) && Solid(d)
    ensures NoNull(Fill(t, d))
    decreases d
  {
    if d.Node? {
      var here := if t.Some? then Children(t.value) else map[];
      forall k | k in d.children
        ensures NoNull(Fill(At(here, k), d.children[k]))
      {
        FillNullFree(At(here, k), d.children[k]);
      }
    }
  }

  lemma {:induction false} FreshSolid(d: Tree)
    requires Solid(d) && Fill(None, d).Some?
    ensures Solid(Fill(None, d).value)
    decreases d
  {
    match d
    case Leaf(v) => SanitizeTwice(v);
    case Node(children) =>
      var filled := Filled(map[], d);
      assert map[] + filled == filled;
      forall k | k in filled
        ensures Solid(filled[k])
      {
        FreshSolid(children[k]);
      }
  }

  lemma FilledNullFree(file: Tree, parsed: Tree)
    requires file.Node? && HasDefaults(file) && NullFree(parsed)
    requires forall k :: k in file.children && k != "db" ==> NullFree(file.children[k])
    requires forall s :: s in SECTIONS ==> NoNull(Fill(At(Db(file), s), parsed))
    requires forall k :: k in Db(file) && k != "default" && k !in SECTIONS ==> NullFree(Db(file)[k])
    ensures NullFree(WithDb(file, SectionsFilled(file, parsed, |SECTIONS|)))
  {
    DefaultIsNoSection();
    hide SECTIONS, Fill;
    assert SECTIONS[..|SECTIONS|] == SECTIONS;
    var filled := SectionsFilled(file, parsed, |SECTIONS|);
    forall k | k in filled
      ensures NullFree(filled[k])
    {
      if k in SECTIONS {
        assert NoNull(Fill(At(Db(file), k), parsed));
        FillNothing(At(Db(file), k), parsed);
      }
    }
    assert NullFree(Node(filled));
  }

  lemma ProcessedNullFree(file: Tree)
    requires Loads(file) && NullFree(file) && (HasDefaults(file) ==> Solid(DefaultsOf(file)))
    ensures NullFree(Processed(file))
  {
    if HasDefaults(file) {
      var d := DefaultsOf(file);
      hide SECTIONS, Fill;
      FillNothing(None, d);
      FreshSolid(d);
      FillNullFree(None, d);
      var parsed := Fill(None, d).value;
      assert NullFree(file.children["db"]);
      forall s | s in SECTIONS
        ensures NoNull(Fill(At(Db(file), s), parsed))
      {
        FillNullFree(At(Db(file), s), parsed);
      }
      FilledNullFree(file, parsed);
    }
  }

  /** An entry set to null stays null exactly where the defaults have nothing to put there. */
  lemma {:induction false} NullFilledIff(t: Option<Tree>, d: Tree, path: Path)
    requires NoNull(t) && Solid(d) && Fill(t, d) == t
    ensures NoNull(Fill(Some(Set(OrEmpty(t), path, NIL)), d)) <==> ValuesAt(d, path)
    decreases |path|
  {
    if path == [] {
      NullFilledHere(d);
    } else {
      var k, t' := path[0], Set(OrEmpty(t), path, NIL);
      NilIsEmpty(path[1..], NIL);
      assert GetIn(Some(t'), k) == Some(Set(OrEmpty(GetIn(t, k)), path[1..], NIL));
      if d.Node? && k in d.children {
        FilledChildren(t, d, k);
        NullFilledIff(GetIn(t, k), d.children[k], path[1..]);
        NullFilledBelow(t, t', d, k);
      } else {
        NullStays(OrEmpty(t), path);
        if d.Node? {
          GetFilled(Some(t'), d, k);
        } else {
          FillLeaf(Some(t'), d.value);
        }
        NullAt(Fill(Some(t'), d), k, path[1..]);
      }
    }
  }

  lemma NullFilledHere(d: Tree)
    requires Solid(d)
    ensures NoNull(Fill(Some(NIL), d)) <==> HasLeaf(d)
  {
    FillNothing(Some(NIL), d);
    match d
    case Leaf(v) => FillLeaf(Some(NIL), v);
    case Node(_) =>
      FillNothing(None, d);
      FillNullFree(None, d);
      assert Children(NIL) == map[];
  }

  lemma FilledChild(t: Tree, d: Tree, j: string)
    requires t.Node? && d.Node?
    ensures Fill(Some(t), d).Some? && Fill(Some(t), d).value.Node?
    ensures Child(Fill(Some(t), d).value, j) == if j in d.children then Fill(Child(t, j), d.children[j]) else Child(t, j)
  {
    hide *;
    FillNothing(Some(t), d);
    FillAt(Some(t), d, [j]);
    assert [j][1..] == [];
    GetOne(Fill(Some(t), d).value, j);
    GetOne(t, j);
    GetWhole(if j in d.children then Fill(GetIn(Some(t), j), d.children[j]) else GetIn(Some(t), j));
  }

  lemma GetOne(t: Tree, j: string)
    ensures GetOpt(Some(t), [j]) == Child(t, j) && GetIn(Some(t), j) == Child(t, j)
  {
    GetKey(t, j);
  }

  lemma KeptChild(t: Option<Tree>, t': Tree, d: Tree, j: string)
    requires NoNull(t) && Fill(t, d) == t && d.Node? && t'.Node? && Child(t', j) == GetIn(t, j)
    ensures NoNull(if j in d.children then Fill(Child(t', j), d.children[j]) else Child(t', j))
  {
    if j in d.children {
      FilledChildren(t, d, j);
    }
    hide Fill;
  }

  /** Outside the entry's own key everything was filled before and has no null. */
  lemma NullFilledBelow(t: Option<Tree>, t': Tree, d: Tree, k: string)
    requires NoNull(t) && Fill(t, d) == t && d.Node? && t'.Node? && k in d.children && k in t'.children
    requires forall j :: j != k ==> Child(t', j) == GetIn(t, j)
    ensures NoNull(Fill(Some(t'), d)) <==> NoNull(Fill(Some(t'.children[k]), d.children[k]))
  {
    var r := Fill(Some(t'), d).value;
    FilledChild(t', d, k);
    FillNothing(Some(t'.children[k]), d.children[k]);
    forall j | j != k
      ensures NoNull(Child(r, j))
    {
      hide *;
      FilledChild(t', d, j);
      KeptChild(t, t', d, j);
    }
    hide Fill;
    OneChildLeft(r, k);
  }

  lemma OneChildLeft(t: Tree, k: string)
    requires t.Node? && k in t.children && forall j :: j != k ==> NoNull(Child(t, j))
    ensures NullFree(t) <==> NullFree(t.children[k])
  {
    forall j | j in t.children && j != k
      ensures NullFree(t.children[j])
    {
      assert NoNull(Child(t, j));
    }
  }

  lemma GetFilled(t: Option<Tree>, d: Tree, k: string)
    requires d.Node? && k !in d.children
    ensures GetOpt(Fill(t, d), [k]) == GetOpt(t, [k])
  {
    FillAt(t, d, [k]);
  }

  lemma NullStays(t: Tree, path: Path)
    requires path != []
    ensures var t' := Set(t, path, NIL); GetOpt(Some(t'), [path[0]]).Some? && Get(GetOpt(Some(t'), [path[0]]).value, path[1..]) == Some(NIL)
  {
    var t' := Set(t, path, NIL);
    GetSet(t, path, NIL);
    assert path == [path[0]] + path[1..];
    GetBelow(t', [path[0]], path[1..]);
  }

  lemma NullAt(t: Option<Tree>, k: string, rest: Path)
    requires GetOpt(t, [k]).Some? && Get(GetOpt(t, [k]).value, rest) == Some(NIL)
    ensures !NoNull(t)
  {
    assert t.Some?;
    GetBelow(t.value, [k], rest);
    NullFound(t.value, [k] + rest);
  }

  lemma NullFound(t: Tree, path: Path)
    requires Get(t, path) == Some(NIL)
    ensures !NullFree(t)
  {
    if NullFree(t) {
      NullFreeGet(t, path);
    }
  }

  lemma DbItself(t: Tree, v: Value)
    ensures !HasDefaults(Set(t, ["db"], Leaf(v)))
  {
  }

  lemma WrittenNullFree(user: Tree, path: Path, v: Value)
    requires Loads(user) && Processed(user) == user && NullFree(user) && path != [] && v != Null
    requires path != ["db", "default"] && Loads(Set(user, path, Leaf(v))) && !(InDefaults(path) && Sanitize(v) == Null)
    ensures NullFree(Processed(Set(user, path, Leaf(v))))
  {
    hide Processed, SECTIONS, Fill;
    var file := Set(user, path, Leaf(v));
    NullFreeSet(user, path, v);
    DbItself(user, v);
    if HasDefaults(file) {
      LoadedIsFilled(user);
      if HasDefaults(user) {
        assert NullFree(user.children["db"]) && NullFree(DefaultsOf(user));
        SanitizedSolid(DefaultsOf(user));
      }
      if path[0] == "db" {
        assert |path| > 1 by {
          assert path == [path[0]] + path[1..];
        }
        assert path == ["db", path[1]] + path[2..];
        DbSet(user, path[1], path[2..], v);
        if path[1] == "default" {
          SolidSet(SanitizedDefaults(user), path[2..], v);
        }
      }
      assert DefaultsOf(file) == Db(file)["default"];
    }
    ProcessedNullFree(file);
  }

  /** A null in a section that the defaults fill again. */
  lemma NullRefilled(user: Tree, s: string, rest: Path)
    requires Loads(user) && Processed(user) == user && NullFree(user) && HasDefaults(user) && s in SECTIONS
    requires Loads(Set(user, ["db", s] + rest, NIL))
    ensures NullFree(Processed(Set(user, ["db", s] + rest, NIL))) <==> ValuesAt(DefaultsOf(user), rest)
  {
    DefaultIsNoSection();
    hide Processed, SECTIONS, Fill, Get, ValuesAt;
    var path := ["db", s] + rest;
    var file, d, t := Set(user, path, NIL), DefaultsOf(user), At(Db(user), s);
    LoadedIsFilled(user);
    DbSet(user, s, rest, Null);
    assert NullFree(user.children["db"]) && NullFree(d);
    SanitizedSolid(d);
    NullFilledIff(t, d, rest);
    if ValuesAt(d, rest) {
      forall y | y in SECTIONS
        ensures NoNull(Fill(At(Db(file), y), d))
      {
        assert y != s ==> At(Db(file), y) == At(Db(user), y);
      }
      SetOneKey(user, path, NIL);
      FilledNullFree(file, d);
      ProcessedIs(file);
    } else {
      FillNothing(Some(Set(OrEmpty(t), rest, NIL)), d);
      SectionAfter(file, s, []);
      GetWhole(Fill(Some(Set(OrEmpty(t), rest, NIL)), d));
      assert ["db", s] + [] == ["db", s];
      NullBelow(Processed(file), ["db", s]);
    }
  }

  lemma GetWhole(t: Option<Tree>)
    ensures GetOpt(t, []) == t
  {
  }

  lemma SetOneKey(t: Tree, path: Path, x: Tree)
    requires path != [] && t.Node?
    ensures Set(t, path, x).Node?
    ensures forall k :: k != path[0] ==> Child(Set(t, path, x), k) == Child(t, k)
    ensures forall k :: k in Set(t, path, x).children && k != path[0] ==> k in t.children && Set(t, path, x).children[k] == t.children[k]
  {
  }

  lemma NullBelow(t: Tree, path: Path)
    requires Get(t, path).Some? && !NullFree(Get(t, path).value)
    ensures !NullFree(t)
  {
    if NullFree(t) {
      NullFreeGet(t, path);
    }
  }

  /** Elsewhere a null is loaded as it was written. */
  lemma NullComesBack(user: Tree, path: Path)
    requires Loads(user) && Processed(user) == user && Loads(Set(user, path, NIL))
    requires path != [] && path != ["db", "default"] && !(InSection(path) && HasDefaults(user))
    ensures Get(Processed(Set(user, path, NIL)), path) == Some(NIL)
  {
    DefaultIsNoSection();
    hide Fill, SECTIONS, Processed, Get, Loads;
    var file := Set(user, path, NIL);
    GetSet(user, path, NIL);
    if Managed(path) {
      var x, rest := path[1], path[2..];
      assert path == ["db", x] + rest;
      DbSet(user, x, rest, Null);
      LoadedIsFilled(user);
      if x == "default" {
        var d := SanitizedDefaults(user);
        DefaultsAfter(file, rest);
        SanitizedSet(d, rest, Null);
        GetSet(d, rest, NIL);
      } else {
        NothingProcessed(file);
      }
    } else if path == ["db"] {
      DbItself(user, Null);
      NothingProcessed(file);
    } else {
      assert path[0] == "db" ==> |path| > 1;
      ElsewhereUnchanged(file, path);
    }
  }

  // ---- The theorems.

  /**
   * A write makes loading fail exactly if it leaves a null in the user layer, which the conflict check throws on: a
   * null, or an empty string below `db.default`, unless the defaults fill the entry again.
   */
  lemma LoadsAfterWriteIff(f: Files, path: Path, v: Value)
    requires Loadable(f) && Loads(f.user) && path != [] && ProperShape(WrittenFile(f.user, path, v))
    ensures Loadable(AfterWrite(f, path, v)) <==> !BringsNull(Load(f).user, path, v)
  {
    hide SECTIONS, Processed, Set, Trips, ValuesAt;
    var user := Processed(f.user);
    var file := Set(user, path, Leaf(v));
    ProcessTwice(f.user);
    SetIsNode(user, path, v);
    if path == ["db", "default"] {
      ReplacedDefaults(user, v);
    } else {
      WrittenLoads(user, path, v);
      if v != Null {
        if InDefaults(path) && Sanitize(v) == Null {
          UserAtWrite(user, path, v);
          NullFound(Processed(file), path);
        } else {
          WrittenNullFree(user, path, v);
        }
      } else if InSection(path) && HasDefaults(user) {
        assert path == ["db", path[1]] + path[2..];
        NullRefilled(user, path[1], path[2..]);
        assert !InDefaults(path) by {
          DefaultIsNoSection();
        }
      } else {
        NullComesBack(user, path);
        NullFound(Processed(file), path);
      }
    }
  }

  lemma SetIsNode(t: Tree, path: Path, v: Value)
    requires path != []
    ensures Set(t, path, Leaf(v)).Node?
  {
  }

  /**
   * After a write and the reload, lookup answers with the written value if and only if the path and value are such
   * that processing the file does not put something else there.
   */
  lemma WriteThenGet(own: map<string, Tree>, f: Files, path: Path, v: Value)
    requires Loadable(f) && Loads(f.user) && NoConfigKey(f)
    requires path != [] && path[0] != "config" && v != Null && UserCanOverride(own, Load(f), path)
    requires ProperShape(WrittenFile(f.user, path, v))
    ensures Resolve(Reloaded(f, path, v), path) == Some(Leaf(v)) <==> ComesBack(Load(f).user, path, v)
  {
    hide SECTIONS, Processed, Get, Set, SectionAt, Trips, Loads;
    LoadsAfterWriteIff(f, path, v);
    WrittenThenGet(own, f, path, v);
    if InDefaults(path) && v == Str("") {
      SourceKeys(f);
      OverridableIsNotSystem(own, Load(f), path);
      NeverEmpty(f.user, path);
      NeverEmpty(f.defaults, path);
    }
  }

  /** Setting a section's entry to null gives it back the value of the defaults. */
  lemma NullGivesDefault(own: map<string, Tree>, f: Files, path: Path, x: Value)
    requires Loadable(f) && Loads(f.user) && NoConfigKey(f) && UserCanOverride(own, Load(f), path)
    requires InSection(path) && HasDefaults(Load(f).user) && Get(DefaultsOf(Load(f).user), path[2..]) == Some(Leaf(x))
    requires ProperShape(WrittenFile(f.user, path, Null))
    ensures Resolve(Reloaded(f, path, Null), path) == Some(Leaf(x))
  {
    DefaultIsNoSection();
    hide SECTIONS, Processed, Set, Trips, Sanitize;
    var user, f' := Processed(f.user), AfterWrite(f, path, Null);
    var file, rest := Set(user, path, NIL), path[2..];
    assert ValuesAt(DefaultsOf(user), rest);
    LoadsAfterWriteIff(f, path, Null);
    assert Loadable(f');
    ProcessTwice(f.user);
    WrittenLoads(user, path, Null);
    WrittenReadable(f, path, Null);
    SourceKeys(f);
    SetKeys(user, path, NIL);
    SourceKeys(f');
    OverridableIsNotSystem(own, Load(f), path);
    assert path == ["db", path[1]] + rest;
    SectionDefault(user, path[1], rest, x);
    hide Loads, Get, BringsNull, ValuesAt, HasDefaults, DefaultsOf;
    assert Load(f').user == Processed(file) && Get(Load(f').user, path) == Some(Leaf(x));
    assert Reloaded(f, path, Null) == Load(f');
    assert LayerHas(Load(f').user, path);
  }

  lemma DbDefaults(t: Tree)
    ensures HasDefaults(t) <==> "default" in Db(t)
    ensures HasDefaults(t) ==> DefaultsOf(t) == Db(t)["default"]
  {
  }

  lemma SectionDefault(user: Tree, s: string, rest: Path, x: Value)
    requires Loads(user) && Processed(user) == user && NullFree(user) && HasDefaults(user) && s in SECTIONS
    requires Get(DefaultsOf(user), rest) == Some(Leaf(x)) && Loads(Set(user, ["db", s] + rest, NIL))
    ensures x != Null && Get(Processed(Set(user, ["db", s] + rest, NIL)), ["db", s] + rest) == Some(Leaf(x))
  {
    DefaultIsNoSection();
    hide SECTIONS, Processed, Set, Fill, Sanitize, Db;
    var file := Set(user, ["db", s] + rest, NIL);
    assert NIL == Leaf(Null);
    DbSet(user, s, rest, Null);
    LoadedIsFilled(user);
    DbDefaults(file);
    DbDefaults(user);
    GetSet(user, ["db", s] + rest, NIL);
    DefaultsReachEverySection(file, s, rest);
    FillAtLeaf(None, DefaultsOf(user), rest);
    assert NullFree(user.children["db"]) && NullFree(DefaultsOf(user));
    NullFreeGet(DefaultsOf(user), rest);
  }

  lemma NeverEmpty(file: Tree, path: Path)
    requires Loads(file) && InDefaults(path)
    ensures Get(Processed(file), path) != Some(Leaf(Str("")))
  {
    hide SECTIONS, Processed, Loads;
    assert path == ["db", "default"] + path[2..];
    if Get(Processed(file), path) == Some(Leaf(Str(""))) {
      DefaultsAreSanitized(file, path[2..], Str(""));
    }
  }

  /**
   * Lookups along other paths: an entry of a database section that neither the user nor the system layer had takes the
   * value written to the same entry of `db.default`; every other answer stays. So an answer stays if and only if the
   * path is no such mirror, or the answer was that value already.
   */
  lemma WriteElsewhere(f: Files, path: Path, v: Value, other: Path)
    requires Loadable(f) && Loads(f.user) && NoConfigKey(f)
    requires path != [] && path[0] != "config" && path != ["db", "default"] && ProperShape(WrittenFile(f.user, path, v))
    requires Unrelated(path, other) && !AboveMirror(path, other)
    ensures Resolve(Reloaded(f, path, v), other)
         == if Mirrored(Load(f), path, v, other) then Some(Leaf(Sanitize(v))) else Resolve(Load(f), other)
    ensures Resolve(Reloaded(f, path, v), other) == Resolve(Load(f), other)
       <==> !Mirrored(Load(f), path, v, other) || Resolve(Load(f), other) == Some(Leaf(Sanitize(v)))
  {
    hide SECTIONS, Processed, Get, Set, Trips, Loads;
    LoadsAfterWriteIff(f, path, v);
    WrittenElsewhere(f, path, v, other);
  }

  /** A path the writer refuses is answered by the system layer, whatever the user layer holds. */
  lemma SystemValueStays(own: map<string, Tree>, s: Source, path: Path, user: Tree)
    requires path != [] && !UserCanOverride(own, s, path)
    requires path[0] !in own && "config" !in Children(s.system)
    ensures Resolve(s.(user := user), path) == Resolve(s, path) && Winner(s, path) == System
  {
    if s.system.Node? && path[0] in s.system.children {
      assert (own + s.system.children)[path[0]] == s.system.children[path[0]];
    }
  }

  const NO_FILES := Files(Node(map[]), Node(map[]), Node(map[]), Node(map[]))

  lemma NothingLoaded(file: Tree)
    requires file == Node(map[])
    ensures Loads(file) && Processed(file) == file && NullFree(file) && forall path :: path != [] ==> Get(file, path) == None
  {
  }

  const FOO := ["db", "default", "foo"]

  const SQLITE_FOO := ["db", "sqlite", "foo"]

  lemma NoFilesLoad()
    ensures Loadable(NO_FILES) && Loads(NO_FILES.user)
  {
    NothingLoaded(Node(map[]));
    NullFreeNeverTrips(Known(Node(map[]), Node(map[])), Node(map[]));
  }

  lemma ExamplePaths()
    ensures Unrelated(FOO, SQLITE_FOO) && InDefaults(FOO) && InSection(SQLITE_FOO) && !AboveMirror(FOO, SQLITE_FOO)
    ensures SQLITE_FOO[2..] == FOO[2..]
  {
    assert FOO[1..] == ["default", "foo"] && SQLITE_FOO[1..] == ["sqlite", "foo"];
    assert FOO[2..] == ["foo"] && SQLITE_FOO[2..] == ["foo"];
  }

  lemma NothingResolved()
    ensures Readable(NO_FILES) && Resolve(Load(NO_FILES), SQLITE_FOO) == None
    ensures Mirrored(Load(NO_FILES), FOO, Num(5), SQLITE_FOO) && !BringsNull(Load(NO_FILES).user, FOO, Num(5))
    ensures NoConfigKey(NO_FILES) && FOO != [] && FOO[0] != "config" && FOO != ["db", "default"] && Sanitize(Num(5)) == Num(5)
  {
    NothingLoaded(Node(map[]));
    ExamplePaths();
    hide Processed, Loads, Set, Get, SECTIONS, InSection, Unrelated, AboveMirror;
  }

  /** Writing one default gives an entry to a section nobody wrote to. */
  lemma WriteReachesSections()
    ensures Loadable(NO_FILES) && Loads(NO_FILES.user) && Unrelated(FOO, SQLITE_FOO)
    ensures Resolve(Load(NO_FILES), SQLITE_FOO) == None && Loadable(AfterWrite(NO_FILES, FOO, Num(5)))
    ensures Resolve(Load(AfterWrite(NO_FILES, FOO, Num(5))), SQLITE_FOO) == Some(Leaf(Num(5)))
  {
    NoFilesLoad();
    NothingLoaded(Node(map[]));
    ExampleShape(Num(5));
    ExamplePaths();
    NothingResolved();
    assert ProperShape(WrittenFile(NO_FILES.user, FOO, Num(5)));
    hide Mirrored, BringsNull, Resolve, Load, Loadable, Readable, Loads, Processed, Set, FOO, SQLITE_FOO, Unrelated, AboveMirror, ProperShape;
    LoadsAfterWriteIff(NO_FILES, FOO, Num(5));
    WriteElsewhere(NO_FILES, FOO, Num(5), SQLITE_FOO);
  }

  /** An empty string written to a default is written, and then nothing can be loaded any more. */
  lemma EmptyStringBreaksLoading()
    ensures Loadable(NO_FILES) && Loads(NO_FILES.user) && UserCanOverride(map[], Load(NO_FILES), FOO)
    ensures Readable(AfterWrite(NO_FILES, FOO, Str(""))) && !Loadable(AfterWrite(NO_FILES, FOO, Str("")))
  {
    NoFilesLoad();
    NothingLoaded(Node(map[]));
    ExampleShape(Str(""));
    ExamplePaths();
    SetIsNode(Node(map[]), FOO, Str(""));
    hide Processed, Loads, Set, Get, SECTIONS, InSection, InDefaults, Unrelated, AboveMirror, FOO, Trips, NullFree;
    assert ConfigObject(map[], Node(map[])) == Node(map[]);
    LoadsAfterWriteIff(NO_FILES, FOO, Str(""));
  }

  /** So is a null written anywhere without defaults. */
  lemma NullBreaksLoading()
    ensures Loadable(NO_FILES) && Loads(NO_FILES.user) && UserCanOverride(map[], Load(NO_FILES), ["a"])
    ensures Shaped(AfterWrite(NO_FILES, ["a"], Null)) && !Loadable(AfterWrite(NO_FILES, ["a"], Null))
  {
    NoFilesLoad();
    NothingLoaded(Node(map[]));
    assert ProperShape(Set(Node(map[]), ["a"], NIL));
    SetIsNode(Node(map[]), ["a"], Null);
    assert ConfigObject(map[], Node(map[])) == Node(map[]);
    hide Processed, Loads, Set, SECTIONS, Trips, NullFree;
    LoadsAfterWriteIff(NO_FILES, ["a"], Null);
  }

  /** A null in the system layer: the user's value is reported as a conflict, and lookup answers with it all the same. */
  lemma NullMisreported()
    ensures var f := NO_FILES.(user := Node(map["x" := Node(map["y" := Leaf(Num(1))])]), system := Node(map["x" := Node(map["y" := NIL])]));
      && Loadable(f) && LeafPath(Load(f).user, ["x", "y"]) && Get(Load(f).system, ["x", "y"]).Some?
      && Winner(Load(f), ["x", "y"]) == User
  {
    var one, nothing := Node(map["y" := Leaf(Num(1))]), Node(map["y" := NIL]);
    var user, system, none := Node(map["x" := one]), Node(map["x" := nothing]), Node(map[]);
    NothingLoaded(none);
    assert NullFree(one);
    assert ["x", "y"][1..] == ["y"] && ["y"][1..] == [];
    assert Get(one, ["y"]) == Some(Leaf(Num(1))) && Get(nothing, ["y"]) == Some(NIL);
    var known := Known(none, none);
    forall path | Get(system, path) == Some(NIL)
      ensures !Recognized(known, path)
    {
      assert path[0] == "x";
    }
    assert Processed(user) == user && Processed(system) == system;
  }

  lemma ExampleShape(v: Value)
    ensures var file := Set(Node(map[]), FOO, Leaf(v)); Loads(file) && ProperShape(file)
  {
    var file := Set(Node(map[]), FOO, Leaf(v));
    assert FOO == ["db", "default"] + ["foo"];
    DbSet(Node(map[]), "default", ["foo"], v);
    assert ProperShape(file);
    NothingLoaded(Node(map[]));
    WrittenLoads(Node(map[]), FOO, v);
  }

  // ---- The handler, on the files and the provider.

  datatype WriteResult = Refused | LoadFailed | Done

  class ConfigHandlers {
    const provider: BksConfigProvider
    var files: Files

    /** The provider holds what the files say. */
    ghost predicate Valid()
      reads this, provider
    {
      provider.Valid() && Loadable(files) && provider.source == Load(files)
    }

    constructor (provider: BksConfigProvider, files: Files)
      requires provider.Valid() && Loadable(files) && provider.source == Load(files)
      ensures Valid() && this.provider == provider && this.files == files
    {
      this.provider := provider;
      this.files := files;
    }

    /** False is the error of a file that cannot be processed. */
    static method LoadConfig(file: Tree) returns (ok: bool, config: Tree)
      requires ProperShape(file)
      ensures ok <==> Loads(file)
      ensures ok ==> config == Processed(file)
    {
      var raw := new RawConfig(file);
      ok := raw.ProcessRawConfig();
      config := raw.config;
    }

    /** `collectConfigWarnings`, of which only the errors matter here. */
    static method CollectWarnings(known: Known, user: Tree, system: Tree) returns (ok: bool)
      requires known.deprecated.Node? && user.Node? && system.Node?
      ensures ok <==> !Trips(known, system) && NullFree(user) && NullFree(known.deprecated)
    {
      hide Trips, NullFree;
      if NullFree(user) {
        NullFreeNeverTrips(known, user);
      }
      var unrecognized := CheckUnrecognized(system, known);
      if unrecognized.None? {
        return false;
      }
      unrecognized := CheckUnrecognized(user, known);
      if unrecognized.None? {
        return false;
      }
      var conflicts := CheckConflicts(user, system);
      var deprecations := CheckDeprecations(user, known.deprecated);
      ok := conflicts.Some? && deprecations.Some?;
    }

    /** `loadBksConfigSource`; None is an error. Only a user file that cannot be processed is passed over. */
    method LoadSource() returns (source: Option<Source>)
      requires Shaped(files)
      ensures source == if Loadable(files) then Some(Load(files)) else None
    {
      var ok, defaults := LoadConfig(files.defaults);
      if !ok {
        return None;
      }
      var system, deprecated, user;
      ok, system := LoadConfig(files.system);
      if !ok {
        return None;
      }
      ok, deprecated := LoadConfig(files.deprecated);
      if !ok {
        return None;
      }
      ok, user := LoadConfig(files.user);
      if !ok {
        user := Node(map[]);
      }
      hide Trips, NullFree;
      ok := CollectWarnings(Known(defaults, deprecated), user, system);
      source := if ok then Some(Source(defaults, user, system)) else None;
    }

    /** False is an error: the system layer has a value there, or the user file does not load. */
    method Write(path: Path, value: Value) returns (ok: bool)
      requires Valid() && path != []
      modifies `files
      ensures ok <==> UserCanOverride(provider.own, provider.source, path) && Loads(old(files).user)
      ensures files == if ok then AfterWrite(old(files), path, value) else old(files)
    {
      hide Processed;
      if !provider.CanOverride(path) {
        return false;
      }
      var userConfig;
      ok, userConfig := LoadConfig(files.user);
      if ok {
        files := files.(user := Set(userConfig, path, Leaf(value)));
      }
    }

    /** `config/writeUserValue`: write, then load all layers again. A failure to load comes after the write. */
    method WriteUserValue(path: Path, value: Value) returns (result: WriteResult)
      requires Valid() && path != []
      requires Loads(files.user) ==> ProperShape(WrittenFile(files.user, path, value))
      modifies this, provider
      ensures result != LoadFailed ==> Valid()
      ensures result == Refused <==> old(!(UserCanOverride(provider.own, provider.source, path) && Loads(files.user)))
      ensures result == LoadFailed <==> result != Refused && BringsNull(old(provider.source).user, path, value)
      ensures files == if result == Refused then old(files) else AfterWrite(old(files), path, value)
      ensures provider.source == if result == Refused then old(provider.source) else Reloaded(old(files), path, value)
      ensures result != Refused && old(NoConfigKey(files)) && path[0] != "config" && value != Null ==>
        (provider.GetPath(path) == Some(Leaf(value)) <==> ComesBack(old(provider.source).user, path, value))
    {
      hide Loads, Processed, Merged, MirrorsTop, ComesBack, BringsNull, Set, Get, UserCanOverride, Trips, NullFree;
      var ok := Write(path, value);
      if !ok {
        return Refused;
      }
      LoadsAfterWriteIff(old(files), path, value);
      WrittenReadable(old(files), path, value);
      if old(NoConfigKey(files)) && path[0] != "config" && value != Null {
        WriteThenGet(provider.own, old(files), path, value);
      }
      var source := LoadSource();
      if source.None? {
        return LoadFailed;
      }
      provider.Reload(source.value);
      result := Done;
    }
  }

  lemma WrittenReadable(f: Files, path: Path, v: Value)
    requires Readable(f) && Loads(f.user) && path != [] && ProperShape(WrittenFile(f.user, path, v))
    ensures Readable(AfterWrite(f, path, v))
  {
    hide Processed, Loads;
    SetIsNode(Processed(f.user), path, v);
  }
}
