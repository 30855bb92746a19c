/** Vimrc directives, and the removal of superseded mappings that must not change the keymap they build. */
module Vimrc {
  import opened Text

  datatype Mode = Normal | Insert | Visual

  datatype Value = Flag(on: bool) | Text(text: string)

  /** Without a mode a directive speaks of every mode. */
  datatype Directive =
    | Map(lhs: string, rhs: string, mode: Option<Mode>, noremap: bool)
    | Unmap(lhs: string, mode: Option<Mode>)
    | MapClear(mode: Option<Mode>)
    | SetOption(name: string, value: Value)

  // ---- What running directives does.

  datatype Binding = Binding(rhs: string, noremap: bool)

  /** A place in the keymap where one mapping of a key can stand. */
  type Slot = (Option<Mode>, string)

  datatype Editor = Editor(bindings: map<Slot, Binding>, options: map<string, Value>)

  /**
   * Which slots of a key a mode reaches: without a mode all three, as in Vim, or a slot of its own, as in CodeMirror.
   * The theorems hold for every choice.
   */
  type Reach = Option<Mode> -> set<Option<Mode>>

  function Apply(d: Directive, e: Editor, reach: Reach): Editor {
    match d
    case Map(lhs, rhs, mode, noremap) =>
      Editor(e.bindings + (map c | c in reach(mode) :: (c, lhs) := Binding(rhs, noremap)), e.options)
    case Unmap(lhs, mode) =>
      Editor(map s | s in e.bindings && !(s.1 == lhs && s.0 in reach(mode)) :: e.bindings[s], e.options)
    case MapClear(mode) =>
      Editor(map s | s in e.bindings && s.0 !in reach(mode) :: e.bindings[s], e.options)
    case SetOption(name, value) =>
      Editor(e.bindings, e.options[name := value])
  }

  function Run(ds: seq<Directive>, e: Editor, reach: Reach): Editor {
    if ds == [] then e else Run(ds[1..], Apply(ds[0], e, reach), reach)
  }

  // ---- Superseded mappings.

  predicate SameKey(a: Directive, b: Directive) {
    a.Map? && b.Map? && a.lhs == b.lhs && a.mode == b.mode
  }

  predicate Superseded(d: Directive, later: seq<Directive>) {
    exists i :: 0 <= i < |later| && SameKey(later[i], d)
  }

  /** Reference: exactly the directives that no later mapping of the same key and mode replaces, in order. */
  function KeepLast(ds: seq<Directive>): seq<Directive> {
    if ds == [] then []
    else if Superseded(ds[0], ds[1..]) then KeepLast(ds[1..])
    else [ds[0]] + KeepLast(ds[1..])
  }

  /** Later mappings win: each pushes out the earlier one of its key and goes to the end. */
  method DedupeMappings(directives: seq<Directive>) returns (result: seq<Directive>)
    ensures result == KeepLast(directives)
  {
    result := [];
    for n := 0 to |directives|
      invariant result == KeepLast(directives[..n])
    {
      var directive := directives[n];
      assert directives[..n + 1] == directives[..n] + [directive];
      KeepLastAppend(directives[..n], directive);
      if directive.Map? {
        var superseded := 0;
        while superseded < |result| && !SameKey(result[superseded], directive)
          invariant 0 <= superseded <= |result|
          invariant forall i :: 0 <= i < superseded ==> !SameKey(result[i], directive)
        {
          superseded := superseded + 1;
        }
        KeepLastUnique(directives[..n]);
        WithoutKeySplice(result, directive, superseded);
        if superseded < |result| {
          result := result[..superseded] + result[superseded + 1..];
        }
      } else {
        KeepLastUnique(directives[..n]);
        WithoutKeySplice(result, directive, |result|);
      }
      result := result + [directive];
    }
    assert directives[..|directives|] == directives;
  }

  function WithoutKey(ds: seq<Directive>, d: Directive): seq<Directive> {
    if ds == [] then []
    else (if SameKey(ds[0], d) then [] else [ds[0]]) + WithoutKey(ds[1..], d)
  }

  lemma {:induction false} KeepLastAppend(ds: seq<Directive>, d: Directive)
    ensures KeepLast(ds + [d]) == WithoutKey(KeepLast(ds), d) + [d]
  {
    if ds == [] {
      assert ds + [d] == [d];
    } else {
      assert (ds + [d])[1..] == ds[1..] + [d];
      assert (ds + [d])[0] == ds[0];
      KeepLastAppend(ds[1..], d);
      SupersededAppend(ds[0], ds[1..], d);
      if !Superseded(ds[0], ds[1..]) {
        assert ([ds[0]] + KeepLast(ds[1..]))[1..] == KeepLast(ds[1..]);
      }
    }
  }

  lemma SupersededAppend(x: Directive, ds: seq<Directive>, d: Directive)
    ensures Superseded(x, ds + [d]) <==> Superseded(x, ds) || SameKey(x, d)
  {
    var all := ds + [d];
    if Superseded(x, ds) {
      var i :| 0 <= i < |ds| && SameKey(ds[i], x);
      assert all[i] == ds[i];
    }
    assert all[|ds|] == d;
  }

  ghost predicate UniqueKeys(ds: seq<Directive>) {
    forall i, k :: 0 <= i < k < |ds| ==> !SameKey(ds[i], ds[k])
  }

  lemma {:induction false} KeepLastMember(ds: seq<Directive>, i: nat) returns (k: nat)
    requires i < |KeepLast(ds)|
    ensures k < |ds| && ds[k] == KeepLast(ds)[i]
  {
    if Superseded(ds[0], ds[1..]) {
      k := KeepLastMember(ds[1..], i);
      k := k + 1;
    } else if i == 0 {
      k := 0;
    } else {
      k := KeepLastMember(ds[1..], i - 1);
      k := k + 1;
    }
  }

  /** At most one mapping per key and mode is left. */
  lemma {:induction false} KeepLastUnique(ds: seq<Directive>)
    ensures UniqueKeys(KeepLast(ds))
  {
    if ds != [] {
      KeepLastUnique(ds[1..]);
      var rest := KeepLast(ds[1..]);
      if !Superseded(ds[0], ds[1..]) {
        forall i | 0 <= i < |rest|
          ensures !SameKey(ds[0], rest[i])
        {
          var k := KeepLastMember(ds[1..], i);
          assert !SameKey(ds[1..][k], ds[0]);
        }
      }
    }
  }

  lemma {:induction false} WithoutNothing(ds: seq<Directive>, d: Directive)
    requires forall i :: 0 <= i < |ds| ==> !SameKey(ds[i], d)
    ensures WithoutKey(ds, d) == ds
  {
    hide SameKey;
    if ds != [] {
      WithoutNothing(ds[1..], d);
    }
  }

  lemma {:induction false} WithoutKeySplice(ds: seq<Directive>, d: Directive, k: nat)
    requires UniqueKeys(ds) && k <= |ds|
    requires forall i :: 0 <= i < k ==> !SameKey(ds[i], d)
    requires k < |ds| ==> SameKey(ds[k], d)
    ensures WithoutKey(ds, d) == if k < |ds| then ds[..k] + ds[k + 1..] else ds
  {
    if k == |ds| {
      WithoutNothing(ds, d);
    } else if k == 0 {
      forall i | 0 <= i < |ds[1..]|
        ensures !SameKey(ds[1..][i], d)
      {
        assert !SameKey(ds[0], ds[i + 1]);
      }
      WithoutNothing(ds[1..], d);
      assert WithoutKey(ds, d) == [] + WithoutKey(ds[1..], d);
    } else {
      hide SameKey;
      WithoutKeySplice(ds[1..], d, k - 1);
      assert ds[..k] + ds[k + 1..] == [ds[0]] + (ds[1..][..k - 1] + ds[1..][k..]);
    }
  }

  // ---- The keymap is preserved.

  /** Two editors that can differ only in what the mapping `m` is about to write. */
  ghost predicate AgreeOff(a: Editor, b: Editor, m: Directive, reach: Reach)
    requires m.Map?
  {
    && a.options == b.options
    && forall s: Slot :: !(s.1 == m.lhs && s.0 in reach(m.mode)) ==>
         (s in a.bindings <==> s in b.bindings) && (s in a.bindings ==> a.bindings[s] == b.bindings[s])
  }

  lemma ApplyAgrees(d: Directive, a: Editor, b: Editor, m: Directive, reach: Reach)
    requires m.Map? && AgreeOff(a, b, m, reach)
    ensures AgreeOff(Apply(d, a, reach), Apply(d, b, reach), m, reach)
    ensures SameKey(d, m) ==> Apply(d, a, reach) == Apply(d, b, reach)
  {
    if SameKey(d, m) {
      var x, y := Apply(d, a, reach).bindings, Apply(d, b, reach).bindings;
      forall s: Slot
        ensures s in x <==> s in y
        ensures s in x ==> x[s] == y[s]
      {
      }
      assert x == y;
    }
  }

  /** A later mapping of the same key wipes out the difference. */
  lemma {:induction false} RunForgets(ds: seq<Directive>, a: Editor, b: Editor, m: Directive, reach: Reach)
    requires m.Map? && AgreeOff(a, b, m, reach) && Superseded(m, ds)
    ensures Run(ds, a, reach) == Run(ds, b, reach)
  {
    ApplyAgrees(ds[0], a, b, m, reach);
    if !SameKey(ds[0], m) {
      var i :| 0 <= i < |ds| && SameKey(ds[i], m);
      assert ds[1..][i - 1] == ds[i];
      RunForgets(ds[1..], Apply(ds[0], a, reach), Apply(ds[0], b, reach), m, reach);
    }
  }

  /** For every directive list, starting editor and reach of modes, the shortened list ends in the same editor. */
  lemma {:induction false} DedupePreservesKeymap(ds: seq<Directive>, e: Editor, reach: Reach)
    ensures Run(KeepLast(ds), e, reach) == Run(ds, e, reach)
  {
    if ds != [] {
      var next := Apply(ds[0], e, reach);
      if Superseded(ds[0], ds[1..]) {
        assert AgreeOff(e, next, ds[0], reach);
        RunForgets(ds[1..], e, next, ds[0], reach);
        DedupePreservesKeymap(ds[1..], e, reach);
      } else {
        DedupePreservesKeymap(ds[1..], next, reach);
        assert ([ds[0]] + KeepLast(ds[1..]))[1..] == KeepLast(ds[1..]);
      }
    }
  }

  function NonMappings(ds: seq<Directive>): seq<Directive> {
    if ds == [] then [] else (if ds[0].Map? then [] else [ds[0]]) + NonMappings(ds[1..])
  }

  /** Only mappings collapse: everything else stays, in its order. */
  lemma {:induction false} DedupeKeepsTheRest(ds: seq<Directive>)
    ensures NonMappings(KeepLast(ds)) == NonMappings(ds)
  {
    if ds != [] {
      DedupeKeepsTheRest(ds[1..]);
      if !Superseded(ds[0], ds[1..]) {
        assert ([ds[0]] + KeepLast(ds[1..]))[1..] == KeepLast(ds[1..]);
      }
    }
  }

  /** The mapping left for a key is the last one written for it. */
  lemma {:induction false} LastMappingSurvives(ds: seq<Directive>, k: nat) returns (i: nat)
    requires k < |ds| && !Superseded(ds[k], ds[k + 1..])
    ensures i < |KeepLast(ds)| && KeepLast(ds)[i] == ds[k]
  {
    if k == 0 {
      i := 0;
    } else {
      assert ds[1..][k..] == ds[k + 1..];
      i := LastMappingSurvives(ds[1..], k - 1);
      if !Superseded(ds[0], ds[1..]) {
        i := i + 1;
      }
    }
  }

  // ---- What a list of directives comes to, slot by slot and option by option.

  function Lookup<K, V>(m: map<K, V>, key: K): Option<V> {
    if key in m then Some(m[key]) else None
  }

  predicate Touches(d: Directive, s: Slot, reach: Reach) {
    match d
    case Map(lhs, _, mode, _) => s.1 == lhs && s.0 in reach(mode)
    case Unmap(lhs, mode) => s.1 == lhs && s.0 in reach(mode)
    case MapClear(mode) => s.0 in reach(mode)
    case SetOption(_, _) => false
  }

  lemma TouchedOrKept(d: Directive, e: Editor, reach: Reach, s: Slot)
    ensures var after := Lookup(Apply(d, e, reach).bindings, s);
      if !Touches(d, s, reach) then after == Lookup(e.bindings, s)
      else after == if d.Map? then Some(Binding(d.rhs, d.noremap)) else None
  {
  }

  /** The last directive that reaches a slot decides what stands there; without one it keeps what it had. */
  lemma {:induction false} LastTouchDecides(ds: seq<Directive>, e: Editor, reach: Reach, s: Slot, k: nat)
    requires k <= |ds| && forall i :: k <= i < |ds| ==> !Touches(ds[i], s, reach)
    requires k > 0 ==> Touches(ds[k - 1], s, reach)
    ensures Lookup(Run(ds, e, reach).bindings, s)
         == if k == 0 then Lookup(e.bindings, s)
            else if ds[k - 1].Map? then Some(Binding(ds[k - 1].rhs, ds[k - 1].noremap)) else None
  {
    hide Apply, Touches;
    if ds != [] {
      TouchedOrKept(ds[0], e, reach, s);
      LastTouchDecides(ds[1..], Apply(ds[0], e, reach), reach, s, if k == 0 then 0 else k - 1);
    }
  }

  predicate Sets(d: Directive, name: string) {
    d.SetOption? && d.name == name
  }

  /** The last value set for an option is the one it has. */
  lemma {:induction false} LastSetDecides(ds: seq<Directive>, e: Editor, reach: Reach, name: string, k: nat)
    requires k <= |ds| && forall i :: k <= i < |ds| ==> !Sets(ds[i], name)
    requires k > 0 ==> Sets(ds[k - 1], name)
    ensures Lookup(Run(ds, e, reach).options, name) == if k == 0 then Lookup(e.options, name) else Some(ds[k - 1].value)
  {
    if ds != [] {
      LastSetDecides(ds[1..], Apply(ds[0], e, reach), reach, name, if k == 0 then 0 else k - 1);
    }
  }
}
