/**
 * A keymap on which mappings pile up, as they do on the editor's Vim object: an unmap takes the newest mapping away and
 * uncovers the one below. When dropping superseded mappings still does not show.
 */
module VimrcStack {
  import opened Text
  import opened Vimrc

  datatype Entry = Entry(slot: Slot, binding: Binding)

  /** The newest mapping comes first. */
  datatype Stacked = Stacked(keymap: seq<Entry>, options: map<string, Value>)

  function RemoveFirst(keymap: seq<Entry>, slot: Slot): seq<Entry> {
    if keymap == [] then []
    else if keymap[0].slot == slot then keymap[1..]
    else [keymap[0]] + RemoveFirst(keymap[1..], slot)
  }

  function RemoveModes(keymap: seq<Entry>, modes: set<Option<Mode>>): (r: seq<Entry>)
    ensures forall i :: 0 <= i < |r| ==> r[i].slot.0 !in modes
  {
    if keymap == [] then []
    else (if keymap[0].slot.0 in modes then [] else [keymap[0]]) + RemoveModes(keymap[1..], modes)
  }

  /** A mode, or its absence, names a slot of its own; `clears` says what a mapclear empties. */
  function Push(d: Directive, e: Stacked, clears: Reach): Stacked {
    match d
    case Map(lhs, rhs, mode, noremap) => e.(keymap := [Entry((mode, lhs), Binding(rhs, noremap))] + e.keymap)
    case Unmap(lhs, mode) => e.(keymap := RemoveFirst(e.keymap, (mode, lhs)))
    case MapClear(mode) => e.(keymap := RemoveModes(e.keymap, clears(mode)))
    case SetOption(name, value) => e.(options := e.options[name := value])
  }

  function PushAll(ds: seq<Directive>, e: Stacked, clears: Reach): Stacked {
    if ds == [] then e else PushAll(ds[1..], Push(ds[0], e, clears), clears)
  }

  /** The mapping a key runs where the slots of some modes count: the newest of them. */
  function Visible(keymap: seq<Entry>, lhs: string, modes: set<Option<Mode>>): Option<Binding> {
    if keymap == [] then None
    else if keymap[0].slot.1 == lhs && keymap[0].slot.0 in modes then Some(keymap[0].binding)
    else Visible(keymap[1..], lhs, modes)
  }

  ghost predicate LookAlike(a: Stacked, b: Stacked) {
    && a.options == b.options
    && forall lhs, modes :: Visible(a.keymap, lhs, modes) == Visible(b.keymap, lhs, modes)
  }

  // ---- Maps and unmaps of one slot.

  predicate MapsTo(d: Directive, slot: Slot) {
    d.Map? && (d.mode, d.lhs) == slot
  }

  predicate Unmaps(d: Directive, slot: Slot) {
    d.Unmap? && (d.mode, d.lhs) == slot
  }

  function Maps(ds: seq<Directive>, slot: Slot): nat {
    if ds == [] then 0 else (if MapsTo(ds[0], slot) then 1 else 0) + Maps(ds[1..], slot)
  }

  function UnmapCount(ds: seq<Directive>, slot: Slot): nat {
    if ds == [] then 0 else (if Unmaps(ds[0], slot) then 1 else 0) + UnmapCount(ds[1..], slot)
  }

  /** How often the slot is unmapped after its last mapping. */
  function UnmapsAfter(ds: seq<Directive>, slot: Slot): nat {
    if ds == [] then 0
    else if MapsTo(ds[0], slot) && Maps(ds[1..], slot) == 0 then UnmapCount(ds[1..], slot)
    else UnmapsAfter(ds[1..], slot)
  }

  function Moved(d: Directive, slot: Slot, h: nat): nat {
    if MapsTo(d, slot) then h + 1 else if Unmaps(d, slot) && h > 0 then h - 1 else h
  }

  /** How many mappings of the slot lie below its last one, if there are h to begin with. */
  function Below(ds: seq<Directive>, slot: Slot, h: nat): nat {
    if ds == [] then h
    else if MapsTo(ds[0], slot) && Maps(ds[1..], slot) == 0 then h
    else Below(ds[1..], slot, Moved(ds[0], slot, h))
  }

  predicate Wipes(d: Directive, slot: Slot, clears: Reach) {
    d.MapClear? && slot.0 in clears(d.mode)
  }

  predicate Wiped(ds: seq<Directive>, slot: Slot, clears: Reach) {
    ds != [] && (Wipes(ds[0], slot, clears) || Wiped(ds[1..], slot, clears))
  }

  /** What comes after the slot was last cleared. */
  function Tail(ds: seq<Directive>, slot: Slot, clears: Reach): seq<Directive> {
    if ds == [] then []
    else if Wiped(ds[1..], slot, clears) then Tail(ds[1..], slot, clears)
    else if Wipes(ds[0], slot, clears) then ds[1..]
    else ds
  }

  /**
   * Since it was last cleared the slot has a superseded mapping and is unmapped after its last one; and if it was
   * cleared at all, not more often than mappings lie below that.
   */
  ghost predicate Uncovered(ds: seq<Directive>, slot: Slot, clears: Reach) {
    var tail := Tail(ds, slot, clears);
    && Maps(tail, slot) >= 2 && UnmapsAfter(tail, slot) > 0
    && (Wiped(ds, slot, clears) ==> UnmapsAfter(tail, slot) <= Below(tail, slot, 0))
  }

  ghost predicate NothingUncovered(ds: seq<Directive>, clears: Reach) {
    forall slot: Slot :: !Uncovered(ds, slot, clears)
  }

  lemma {:induction false} MapsSuperseded(d: Directive, later: seq<Directive>)
    requires d.Map?
    ensures Superseded(d, later) <==> Maps(later, (d.mode, d.lhs)) > 0
  {
    if later != [] {
      MapsSuperseded(d, later[1..]);
      if Superseded(d, later[1..]) {
        var i :| 0 <= i < |later[1..]| && SameKey(later[1..][i], d);
        assert SameKey(later[i + 1], d);
      }
      if Superseded(d, later) && !SameKey(later[0], d) {
        var i :| 0 <= i < |later| && SameKey(later[i], d);
        assert later[1..][i - 1] == later[i];
      }
    }
  }

  // ---- Where nothing is uncovered.

  /** The keymap without the slots in `drop`, and with the newest mapping only of those in `once`. */
  function Trim(keymap: seq<Entry>, drop: set<Slot>, once: set<Slot>): seq<Entry> {
    if keymap == [] then []
    else
      var slot := keymap[0].slot;
      if slot in drop then Trim(keymap[1..], drop, once)
      else if slot in once then [keymap[0]] + Trim(keymap[1..], drop + {slot}, once - {slot})
      else [keymap[0]] + Trim(keymap[1..], drop, once)
  }

  lemma {:induction false} TrimRemoveFirst(keymap: seq<Entry>, drop: set<Slot>, once: set<Slot>, slot: Slot)
    requires slot !in once
    ensures Trim(RemoveFirst(keymap, slot), drop, once)
         == if slot in drop then Trim(keymap, drop, once) else RemoveFirst(Trim(keymap, drop, once), slot)
  {
    if keymap != [] {
      var s := keymap[0].slot;
      if s != slot {
        var rest := RemoveFirst(keymap[1..], slot);
        assert ([keymap[0]] + rest)[1..] == rest;
        TrimRemoveFirst(keymap[1..], drop, once, slot);
        TrimRemoveFirst(keymap[1..], drop + {s}, once - {s}, slot);
        if s !in drop {
          var more := if s in once then Trim(keymap[1..], drop + {s}, once - {s}) else Trim(keymap[1..], drop, once);
          assert ([keymap[0]] + more)[1..] == more;
        }
      } else if slot !in drop {
        assert ([keymap[0]] + Trim(keymap[1..], drop, once))[1..] == Trim(keymap[1..], drop, once);
      }
    }
  }

  /** Only the slots that occur matter. */
  lemma {:induction false} TrimSameSlots(keymap: seq<Entry>, drop: set<Slot>, once: set<Slot>, drop': set<Slot>, once': set<Slot>)
    requires forall i :: 0 <= i < |keymap| ==> (keymap[i].slot in drop <==> keymap[i].slot in drop')
    requires forall i :: 0 <= i < |keymap| ==> (keymap[i].slot in once <==> keymap[i].slot in once')
    ensures Trim(keymap, drop, once) == Trim(keymap, drop', once')
  {
    if keymap != [] {
      var s := keymap[0].slot;
      TrimSameSlots(keymap[1..], drop, once, drop', once');
      TrimSameSlots(keymap[1..], drop + {s}, once - {s}, drop' + {s}, once' - {s});
    }
  }

  lemma {:induction false} TrimRemoveModes(keymap: seq<Entry>, drop: set<Slot>, once: set<Slot>, modes: set<Option<Mode>>)
    ensures Trim(RemoveModes(keymap, modes), drop, once) == RemoveModes(Trim(keymap, drop, once), modes)
  {
    if keymap != [] {
      var s, rest := keymap[0].slot, RemoveModes(keymap[1..], modes);
      TrimRemoveModes(keymap[1..], drop, once, modes);
      TrimRemoveModes(keymap[1..], drop + {s}, once - {s}, modes);
      if s.0 in modes {
        assert RemoveModes(keymap, modes) == rest;
        TrimSameSlots(rest, drop, once, drop + {s}, once - {s});
      } else {
        assert ([keymap[0]] + rest)[1..] == rest;
      }
      if s !in drop {
        var more := if s in once then Trim(keymap[1..], drop + {s}, once - {s}) else Trim(keymap[1..], drop, once);
        assert ([keymap[0]] + more)[1..] == more;
      }
    }
  }

  lemma {:induction false} VisibleTrimmed(keymap: seq<Entry>, drop: set<Slot>, once: set<Slot>, lhs: string, modes: set<Option<Mode>>)
    requires forall s :: s in drop ==> !(s.1 == lhs && s.0 in modes)
    ensures Visible(Trim(keymap, drop, once), lhs, modes) == Visible(keymap, lhs, modes)
  {
    if keymap != [] {
      var s := keymap[0].slot;
      if s in drop {
        VisibleTrimmed(keymap[1..], drop, once, lhs, modes);
      } else {
        var more := if s in once then Trim(keymap[1..], drop + {s}, once - {s}) else Trim(keymap[1..], drop, once);
        assert ([keymap[0]] + more)[1..] == more;
        if !(s.1 == lhs && s.0 in modes) {
          VisibleTrimmed(keymap[1..], drop + {s}, once - {s}, lhs, modes);
          VisibleTrimmed(keymap[1..], drop, once, lhs, modes);
        }
      }
    }
  }

  /**
   * How the slots with superseded mappings are followed: those that end empty are never looked at; those with one
   * mapping since they were last cleared are looked at from then on; of the others only the last mapping matters.
   */
  datatype Plan = Plan(gone: set<Slot>, late: set<Slot>, dirty: set<Slot>)

  function Dropped(plan: Plan, rest: seq<Directive>, clears: Reach): set<Slot> {
    plan.gone + (set s | s in plan.late && Wiped(rest, s, clears)) + set s | s in plan.dirty && Maps(rest, s) > 0
  }

  function Once(plan: Plan, rest: seq<Directive>): set<Slot> {
    set s | s in plan.dirty && Maps(rest, s) == 0
  }

  /** The two keymaps differ in nothing that can still show, given what is left to run. */
  ghost predicate SameButHidden(a: Stacked, b: Stacked, plan: Plan, rest: seq<Directive>, clears: Reach) {
    var drop, once := Dropped(plan, rest, clears), Once(plan, rest);
    a.options == b.options && Trim(a.keymap, drop, once) == Trim(b.keymap, drop, once)
  }

  ghost predicate SlotSafe(plan: Plan, s: Slot, rest: seq<Directive>, clears: Reach) {
    if s in plan.gone then s !in plan.late && s !in plan.dirty
    else if s in plan.late then s !in plan.dirty && Maps(Tail(rest, s, clears), s) <= 1
    else if s in plan.dirty then if Maps(rest, s) > 0 then UnmapsAfter(rest, s) == 0 else UnmapCount(rest, s) == 0
    else Maps(rest, s) <= 1
  }

  ghost predicate Safe(plan: Plan, rest: seq<Directive>, clears: Reach) {
    forall s: Slot :: SlotSafe(plan, s, rest, clears)
  }

  lemma {:induction false} TailWhole(ds: seq<Directive>, slot: Slot, clears: Reach)
    requires !Wiped(ds, slot, clears)
    ensures Tail(ds, slot, clears) == ds
  {
  }

  lemma SafeStep(plan: Plan, ds: seq<Directive>, clears: Reach)
    requires ds != [] && Safe(plan, ds, clears)
    ensures Safe(plan, ds[1..], clears)
  {
    forall s: Slot
      ensures SlotSafe(plan, s, ds[1..], clears)
    {
      assert SlotSafe(plan, s, ds, clears);
      if !Wiped(ds[1..], s, clears) {
        TailWhole(ds[1..], s, clears);
      }
    }
  }

  lemma SupersededStep(d: Directive, rest: seq<Directive>, a: Stacked, b: Stacked, plan: Plan, clears: Reach)
    requires d.Map? && Superseded(d, rest) && SameButHidden(a, b, plan, [d] + rest, clears) && Safe(plan, [d] + rest, clears)
    ensures SameButHidden(Push(d, a, clears), b, plan, rest, clears)
  {
    var slot: Slot := (d.mode, d.lhs);
    MapsSuperseded(d, rest);
    assert ([d] + rest)[1..] == rest;
    assert Maps([d] + rest, slot) >= 2 && Wiped([d] + rest, slot, clears) == Wiped(rest, slot, clears);
    assert SlotSafe(plan, slot, [d] + rest, clears);
    if !Wiped(rest, slot, clears) {
      TailWhole([d] + rest, slot, clears);
    }
    forall s | s in plan.dirty
      ensures Maps([d] + rest, s) > 0 <==> Maps(rest, s) > 0
    {
      assert s != slot ==> Maps([d] + rest, s) == Maps(rest, s);
    }
    forall s | s in plan.late
      ensures Wiped([d] + rest, s, clears) == Wiped(rest, s, clears)
    {
    }
    assert Dropped(plan, rest, clears) == Dropped(plan, [d] + rest, clears);
    assert Once(plan, rest) == Once(plan, [d] + rest);
    assert slot in Dropped(plan, rest, clears);
    assert ([Entry(slot, Binding(d.rhs, d.noremap))] + a.keymap)[1..] == a.keymap;
  }

  lemma TrimPushed(entry: Entry, keymap: seq<Entry>, drop: set<Slot>, once: set<Slot>)
    ensures Trim([entry] + keymap, drop, once)
         == if entry.slot in drop then Trim(keymap, drop, once)
            else if entry.slot in once then [entry] + Trim(keymap, drop + {entry.slot}, once - {entry.slot})
            else [entry] + Trim(keymap, drop, once)
  {
    assert ([entry] + keymap)[1..] == keymap;
  }

  lemma LastMapStep(d: Directive, rest: seq<Directive>, a: Stacked, b: Stacked, plan: Plan, clears: Reach)
    requires d.Map? && !Superseded(d, rest) && SameButHidden(a, b, plan, [d] + rest, clears) && Safe(plan, [d] + rest, clears)
    ensures SameButHidden(Push(d, a, clears), Push(d, b, clears), plan, rest, clears)
  {
    var slot: Slot := (d.mode, d.lhs);
    var entry := Entry(slot, Binding(d.rhs, d.noremap));
    MapsSuperseded(d, rest);
    assert ([d] + rest)[1..] == rest;
    assert SlotSafe(plan, slot, [d] + rest, clears);
    var drop, once := Dropped(plan, [d] + rest, clears), Once(plan, [d] + rest);
    var drop', once' := Dropped(plan, rest, clears), Once(plan, rest);
    forall s | s != slot
      ensures s in drop <==> s in drop'
      ensures s in once <==> s in once'
    {
      assert Maps([d] + rest, s) == Maps(rest, s);
      assert Wiped([d] + rest, s, clears) == Wiped(rest, s, clears);
    }
    assert slot in plan.late ==> (slot in drop <==> slot in drop');
    TrimPushed(entry, a.keymap, drop', once');
    TrimPushed(entry, b.keymap, drop', once');
    if slot in plan.dirty {
      assert slot in drop && slot !in once && slot in once' && slot !in drop';
      assert drop' + {slot} == drop && once' - {slot} == once;
    } else {
      assert drop' == drop && once' == once;
    }
  }

  lemma OtherSlots(d: Directive, rest: seq<Directive>, plan: Plan, clears: Reach)
    requires !d.Map?
    ensures Once(plan, rest) == Once(plan, [d] + rest)
    ensures !d.MapClear? ==> Dropped(plan, rest, clears) == Dropped(plan, [d] + rest, clears)
    ensures forall s :: !Wipes(d, s, clears) ==> (s in Dropped(plan, rest, clears) <==> s in Dropped(plan, [d] + rest, clears))
  {
    assert ([d] + rest)[1..] == rest;
    forall s: Slot
      ensures Maps([d] + rest, s) == Maps(rest, s)
      ensures !Wipes(d, s, clears) ==> Wiped([d] + rest, s, clears) == Wiped(rest, s, clears)
    {
    }
  }

  lemma UnmapStep(lhs: string, mode: Option<Mode>, rest: seq<Directive>, a: Stacked, b: Stacked, plan: Plan, clears: Reach)
    requires var d := Unmap(lhs, mode); SameButHidden(a, b, plan, [d] + rest, clears) && Safe(plan, [d] + rest, clears)
    ensures var d := Unmap(lhs, mode); SameButHidden(Push(d, a, clears), Push(d, b, clears), plan, rest, clears)
  {
    var d, slot: Slot := Unmap(lhs, mode), (mode, lhs);
    OtherSlots(d, rest, plan, clears);
    assert ([d] + rest)[1..] == rest;
    assert Unmaps(d, slot) && UnmapCount([d] + rest, slot) > 0 && SlotSafe(plan, slot, [d] + rest, clears);
    var drop, once := Dropped(plan, rest, clears), Once(plan, rest);
    assert slot !in once;
    TrimRemoveFirst(a.keymap, drop, once, slot);
    TrimRemoveFirst(b.keymap, drop, once, slot);
  }

  lemma ClearStep(mode: Option<Mode>, rest: seq<Directive>, a: Stacked, b: Stacked, plan: Plan, clears: Reach)
    requires SameButHidden(a, b, plan, [MapClear(mode)] + rest, clears)
    ensures SameButHidden(Push(MapClear(mode), a, clears), Push(MapClear(mode), b, clears), plan, rest, clears)
  {
    var d := MapClear(mode);
    OtherSlots(d, rest, plan, clears);
    var drop, drop', once := Dropped(plan, [d] + rest, clears), Dropped(plan, rest, clears), Once(plan, rest);
    TrimRemoveModes(a.keymap, drop, once, clears(mode));
    TrimRemoveModes(b.keymap, drop, once, clears(mode));
    TrimSameSlots(RemoveModes(a.keymap, clears(mode)), drop, once, drop', once);
    TrimSameSlots(RemoveModes(b.keymap, clears(mode)), drop, once, drop', once);
  }

  lemma OtherStep(d: Directive, rest: seq<Directive>, a: Stacked, b: Stacked, plan: Plan, clears: Reach)
    requires !d.Map? && SameButHidden(a, b, plan, [d] + rest, clears) && Safe(plan, [d] + rest, clears)
    ensures SameButHidden(Push(d, a, clears), Push(d, b, clears), plan, rest, clears)
  {
    match d
    case Unmap(lhs, mode) => UnmapStep(lhs, mode, rest, a, b, plan, clears);
    case MapClear(mode) => ClearStep(mode, rest, a, b, plan, clears);
    case SetOption(_, _) => OtherSlots(d, rest, plan, clears);
  }

  lemma {:induction false} RunHides(ds: seq<Directive>, a: Stacked, b: Stacked, plan: Plan, clears: Reach)
    requires SameButHidden(a, b, plan, ds, clears) && Safe(plan, ds, clears)
    ensures SameButHidden(PushAll(ds, a, clears), PushAll(KeepLast(ds), b, clears), plan, [], clears)
    decreases |ds|
  {
    hide SameButHidden, Safe, Push, Superseded;
    if ds != [] {
      var d, rest := ds[0], ds[1..];
      assert ds == [d] + rest;
      SafeStep(plan, ds, clears);
      if Superseded(d, rest) {
        SupersedesMap(d, rest);
        SupersededStep(d, rest, a, b, plan, clears);
        RunHides(rest, Push(d, a, clears), b, plan, clears);
      } else {
        if d.Map? {
          LastMapStep(d, rest, a, b, plan, clears);
        } else {
          OtherStep(d, rest, a, b, plan, clears);
        }
        RunHides(rest, Push(d, a, clears), Push(d, b, clears), plan, clears);
        assert ([d] + KeepLast(rest))[1..] == KeepLast(rest);
      }
    }
  }

  lemma SupersedesMap(d: Directive, rest: seq<Directive>)
    requires Superseded(d, rest)
    ensures d.Map?
  {
  }

  function SlotsOf(ds: seq<Directive>): set<Slot> {
    set i | 0 <= i < |ds| && ds[i].Map? :: (ds[i].mode, ds[i].lhs)
  }

  lemma {:induction false} MapsInSlots(ds: seq<Directive>, slot: Slot)
    requires Maps(ds, slot) > 0
    ensures slot in SlotsOf(ds)
  {
    if MapsTo(ds[0], slot) {
      assert slot == (ds[0].mode, ds[0].lhs);
    } else {
      MapsInSlots(ds[1..], slot);
      var i :| 0 <= i < |ds[1..]| && ds[1..][i].Map? && slot == (ds[1..][i].mode, ds[1..][i].lhs);
      assert ds[i + 1] == ds[1..][i];
    }
  }

  // ---- How many mappings of a slot lie on top of each other.

  function Height(keymap: seq<Entry>, slot: Slot): nat {
    if keymap == [] then 0 else (if keymap[0].slot == slot then 1 else 0) + Height(keymap[1..], slot)
  }

  lemma {:induction false} HeightRemoved(keymap: seq<Entry>, removed: Slot, slot: Slot)
    ensures Height(RemoveFirst(keymap, removed), slot)
         == if removed == slot && Height(keymap, slot) > 0 then Height(keymap, slot) - 1 else Height(keymap, slot)
  {
    if keymap != [] && keymap[0].slot != removed {
      HeightRemoved(keymap[1..], removed, slot);
      assert ([keymap[0]] + RemoveFirst(keymap[1..], removed))[1..] == RemoveFirst(keymap[1..], removed);
    }
  }

  lemma {:induction false} HeightCleared(keymap: seq<Entry>, modes: set<Option<Mode>>, slot: Slot)
    ensures Height(RemoveModes(keymap, modes), slot) == if slot.0 in modes then 0 else Height(keymap, slot)
  {
    if keymap != [] {
      HeightCleared(keymap[1..], modes, slot);
      var rest := RemoveModes(keymap[1..], modes);
      assert keymap[0].slot.0 in modes ==> RemoveModes(keymap, modes) == rest;
      assert ([keymap[0]] + rest)[1..] == rest;
    }
  }

  lemma {:induction false} HeightShows(keymap: seq<Entry>, slot: Slot)
    ensures Visible(keymap, slot.1, {slot.0}).Some? <==> Height(keymap, slot) > 0
  {
    if keymap != [] {
      HeightShows(keymap[1..], slot);
    }
  }

  lemma {:induction false} NoHeight(keymap: seq<Entry>, slot: Slot)
    requires Height(keymap, slot) == 0
    ensures forall i :: 0 <= i < |keymap| ==> keymap[i].slot != slot
  {
    if keymap != [] {
      NoHeight(keymap[1..], slot);
    }
  }

  function Levelled(d: Directive, slot: Slot, clears: Reach, h: nat): nat {
    if Wipes(d, slot, clears) then 0 else Moved(d, slot, h)
  }

  function Level(ds: seq<Directive>, slot: Slot, clears: Reach, h: nat): nat {
    if ds == [] then h else Level(ds[1..], slot, clears, Levelled(ds[0], slot, clears, h))
  }

  lemma HeightStep(d: Directive, e: Stacked, slot: Slot, clears: Reach)
    ensures Height(Push(d, e, clears).keymap, slot) == Levelled(d, slot, clears, Height(e.keymap, slot))
  {
    match d
    case Map(lhs, rhs, mode, noremap) =>
      assert ([Entry((mode, lhs), Binding(rhs, noremap))] + e.keymap)[1..] == e.keymap;
    case Unmap(lhs, mode) => HeightRemoved(e.keymap, (mode, lhs), slot);
    case MapClear(mode) => HeightCleared(e.keymap, clears(mode), slot);
    case SetOption(_, _) =>
  }

  lemma {:induction false} HeightIsLevel(ds: seq<Directive>, e: Stacked, slot: Slot, clears: Reach)
    ensures Height(PushAll(ds, e, clears).keymap, slot) == Level(ds, slot, clears, Height(e.keymap, slot))
    decreases |ds|
  {
    hide Push, Levelled;
    if ds != [] {
      HeightStep(ds[0], e, slot, clears);
      HeightIsLevel(ds[1..], Push(ds[0], e, clears), slot, clears);
    }
  }

  /** What came before the slot was last cleared is forgotten. */
  lemma {:induction false} LevelOfTail(ds: seq<Directive>, slot: Slot, clears: Reach, h: nat)
    requires Wiped(ds, slot, clears)
    ensures Level(ds, slot, clears, h) == Level(Tail(ds, slot, clears), slot, clears, 0)
    ensures !Wiped(Tail(ds, slot, clears), slot, clears)
  {
    if Wiped(ds[1..], slot, clears) {
      LevelOfTail(ds[1..], slot, clears, Levelled(ds[0], slot, clears, h));
    }
  }

  function Minus(a: nat, b: nat): nat {
    if a < b then 0 else a - b
  }

  lemma {:induction false} LevelUnmapped(ds: seq<Directive>, slot: Slot, clears: Reach, h: nat)
    requires !Wiped(ds, slot, clears) && Maps(ds, slot) == 0
    ensures Level(ds, slot, clears, h) == Minus(h, UnmapCount(ds, slot))
  {
    if ds != [] {
      LevelUnmapped(ds[1..], slot, clears, Levelled(ds[0], slot, clears, h));
    }
  }

  /** Not cleared, a slot ends with its last mapping on top of those below it, less what is unmapped after that. */
  lemma {:induction false} LevelMapped(ds: seq<Directive>, slot: Slot, clears: Reach, h: nat)
    requires !Wiped(ds, slot, clears) && Maps(ds, slot) > 0
    ensures Level(ds, slot, clears, h) == Minus(Below(ds, slot, h) + 1, UnmapsAfter(ds, slot))
  {
    if MapsTo(ds[0], slot) && Maps(ds[1..], slot) == 0 {
      LevelUnmapped(ds[1..], slot, clears, h + 1);
    } else {
      LevelMapped(ds[1..], slot, clears, Levelled(ds[0], slot, clears, h));
    }
  }

  lemma {:induction false} LevelAtLeast(ds: seq<Directive>, slot: Slot, clears: Reach, h: nat)
    requires !Wiped(ds, slot, clears)
    ensures Level(ds, slot, clears, h) + UnmapCount(ds, slot) >= h + Maps(ds, slot)
  {
    if ds != [] {
      LevelAtLeast(ds[1..], slot, clears, Levelled(ds[0], slot, clears, h));
    }
  }

  /** Below an only mapping lies what was there, less what is unmapped before it. */
  lemma {:induction false} BelowOnly(ds: seq<Directive>, slot: Slot, h: nat)
    requires Maps(ds, slot) == 1
    ensures UnmapsAfter(ds, slot) <= UnmapCount(ds, slot)
    ensures Below(ds, slot, h) == Minus(h, UnmapCount(ds, slot) - UnmapsAfter(ds, slot))
  {
    if !MapsTo(ds[0], slot) {
      BelowOnly(ds[1..], slot, Moved(ds[0], slot, h));
    }
  }

  lemma {:induction false} KeepLastCounts(ds: seq<Directive>, slot: Slot, clears: Reach)
    ensures Maps(KeepLast(ds), slot) == if Maps(ds, slot) > 0 then 1 else 0
    ensures UnmapCount(KeepLast(ds), slot) == UnmapCount(ds, slot)
    ensures UnmapsAfter(KeepLast(ds), slot) == UnmapsAfter(ds, slot)
    ensures Wiped(KeepLast(ds), slot, clears) == Wiped(ds, slot, clears)
    ensures Tail(KeepLast(ds), slot, clears) == KeepLast(Tail(ds, slot, clears))
  {
    if ds != [] {
      KeepLastCounts(ds[1..], slot, clears);
      if ds[0].Map? {
        MapsSuperseded(ds[0], ds[1..]);
      }
      if !Superseded(ds[0], ds[1..]) {
        assert ([ds[0]] + KeepLast(ds[1..]))[1..] == KeepLast(ds[1..]);
      }
      if !Wiped(ds[1..], slot, clears) {
        TailWhole(KeepLast(ds[1..]), slot, clears);
      }
    }
  }

  lemma {:induction false} UnmapsAfterOfTail(ds: seq<Directive>, slot: Slot, clears: Reach)
    ensures Maps(Tail(ds, slot, clears), slot) <= Maps(ds, slot)
    ensures Maps(Tail(ds, slot, clears), slot) > 0 ==> UnmapsAfter(ds, slot) == UnmapsAfter(Tail(ds, slot, clears), slot)
  {
    if ds != [] {
      UnmapsAfterOfTail(ds[1..], slot, clears);
      if !Wiped(ds[1..], slot, clears) {
        TailWhole(ds[1..], slot, clears);
      }
    }
  }

  /** The shortened list keeps one mapping of a slot and all its unmaps. */
  lemma LevelShortened(ds: seq<Directive>, slot: Slot, clears: Reach, h: nat)
    requires Wiped(ds, slot, clears)
    ensures var tail := Tail(ds, slot, clears);
      Level(KeepLast(ds), slot, clears, h) == if Maps(tail, slot) == 0 then 0 else Minus(1, UnmapsAfter(tail, slot))
  {
    var tail := Tail(ds, slot, clears);
    KeepLastCounts(ds, slot, clears);
    LevelOfTail(KeepLast(ds), slot, clears, h);
    KeepLastCounts(tail, slot, clears);
    hide Level, Below, Tail, KeepLast, Wiped, Maps, UnmapsAfter, UnmapCount;
    if Maps(tail, slot) == 0 {
      LevelUnmapped(KeepLast(tail), slot, clears, 0);
    } else {
      LevelMapped(KeepLast(tail), slot, clears, 0);
      BelowOnly(KeepLast(tail), slot, 0);
    }
  }

  lemma LevelWritten(ds: seq<Directive>, slot: Slot, clears: Reach, h: nat)
    requires Wiped(ds, slot, clears)
    ensures var tail := Tail(ds, slot, clears);
      Level(ds, slot, clears, h)
      == if Maps(tail, slot) == 0 then 0 else Minus(Below(tail, slot, 0) + 1, UnmapsAfter(tail, slot))
  {
    var tail := Tail(ds, slot, clears);
    LevelOfTail(ds, slot, clears, h);
    hide Level, Below, Tail, Wiped, Maps, UnmapsAfter, UnmapCount;
    if Maps(tail, slot) == 0 {
      LevelUnmapped(tail, slot, clears, 0);
    } else {
      LevelMapped(tail, slot, clears, 0);
    }
  }

  // ---- Where nothing is uncovered nothing shows.

  function PlanFor(ds: seq<Directive>, clears: Reach): Plan {
    var often := set s | s in SlotsOf(ds) && Maps(ds, s) >= 2;
    Plan(set s | s in often && (Maps(Tail(ds, s, clears), s) == 0 || (Maps(Tail(ds, s, clears), s) >= 2 && UnmapsAfter(Tail(ds, s, clears), s) > 0)),
         set s | s in often && Maps(Tail(ds, s, clears), s) == 1,
         set s | s in often && Maps(Tail(ds, s, clears), s) >= 2 && UnmapsAfter(Tail(ds, s, clears), s) == 0)
  }

  lemma PlanIsSafe(ds: seq<Directive>, clears: Reach)
    ensures Safe(PlanFor(ds, clears), ds, clears)
  {
    var plan := PlanFor(ds, clears);
    forall s: Slot
      ensures SlotSafe(plan, s, ds, clears)
    {
      UnmapsAfterOfTail(ds, s, clears);
      if Maps(ds, s) > 0 {
        MapsInSlots(ds, s);
      }
    }
  }

  /** The slots that are never looked at end empty, as the list is written and shortened. */
  lemma GoneEndsEmpty(ds: seq<Directive>, e: Stacked, slot: Slot, clears: Reach)
    requires !Uncovered(ds, slot, clears) && slot in PlanFor(ds, clears).gone
    ensures Height(PushAll(ds, e, clears).keymap, slot) == 0 && Height(PushAll(KeepLast(ds), e, clears).keymap, slot) == 0
  {
    if !Wiped(ds, slot, clears) {
      TailWhole(ds, slot, clears);
    }
    assert Wiped(ds, slot, clears);
    HeightIsLevel(ds, e, slot, clears);
    HeightIsLevel(KeepLast(ds), e, slot, clears);
    LevelWritten(ds, slot, clears, Height(e.keymap, slot));
    LevelShortened(ds, slot, clears, Height(e.keymap, slot));
    hide Level, Below, Tail, Wiped, Maps, UnmapsAfter, KeepLast, PushAll, Height;
  }

  lemma NothingOfGone(ds: seq<Directive>, e: Stacked, clears: Reach)
    requires NothingUncovered(ds, clears)
    ensures var plan := PlanFor(ds, clears);
      && (forall i :: 0 <= i < |PushAll(ds, e, clears).keymap| ==> PushAll(ds, e, clears).keymap[i].slot !in plan.gone)
      && forall i :: 0 <= i < |PushAll(KeepLast(ds), e, clears).keymap| ==> PushAll(KeepLast(ds), e, clears).keymap[i].slot !in plan.gone
  {
    hide PlanFor, PushAll, KeepLast;
    var plan, a, b := PlanFor(ds, clears), PushAll(ds, e, clears).keymap, PushAll(KeepLast(ds), e, clears).keymap;
    forall slot | slot in plan.gone
      ensures (forall i :: 0 <= i < |a| ==> a[i].slot != slot) && forall i :: 0 <= i < |b| ==> b[i].slot != slot
    {
      assert !Uncovered(ds, slot, clears);
      GoneEndsEmpty(ds, e, slot, clears);
      NoHeight(a, slot);
      NoHeight(b, slot);
    }
  }

  lemma PlanEnds(plan: Plan, clears: Reach)
    ensures Dropped(plan, [], clears) == plan.gone && Once(plan, []) == plan.dirty
  {
  }

  /** A list that uncovers nothing leaves every visible mapping and every option as they were. */
  lemma StackedDedupe(ds: seq<Directive>, e: Stacked, clears: Reach)
    requires NothingUncovered(ds, clears)
    ensures LookAlike(PushAll(KeepLast(ds), e, clears), PushAll(ds, e, clears))
  {
    var plan := PlanFor(ds, clears);
    PlanIsSafe(ds, clears);
    RunHides(ds, e, e, plan, clears);
    NothingOfGone(ds, e, clears);
    PlanEnds(plan, clears);
    hide NothingUncovered, KeepLast, PushAll, PlanFor, Dropped, Once;
    var a, b := PushAll(ds, e, clears), PushAll(KeepLast(ds), e, clears);
    TrimSameSlots(a.keymap, plan.gone, plan.dirty, {}, plan.dirty);
    TrimSameSlots(b.keymap, plan.gone, plan.dirty, {}, plan.dirty);
    forall lhs, modes
      ensures Visible(b.keymap, lhs, modes) == Visible(a.keymap, lhs, modes)
    {
      VisibleTrimmed(a.keymap, {}, plan.dirty, lhs, modes);
      VisibleTrimmed(b.keymap, {}, plan.dirty, lhs, modes);
    }
  }

  // ---- Where something is uncovered it shows in some editor.

  /** An editor with n mappings of a slot. */
  lemma Piled(slot: Slot, n: nat) returns (e: Stacked)
    ensures Height(e.keymap, slot) == n
  {
    var keymap := [];
    for k := 0 to n
      invariant Height(keymap, slot) == k
    {
      assert ([Entry(slot, Binding("", false))] + keymap)[1..] == keymap;
      keymap := [Entry(slot, Binding("", false))] + keymap;
    }
    e := Stacked(keymap, map[]);
  }

  lemma {:induction false} UnmapsAfterAtMost(ds: seq<Directive>, slot: Slot)
    ensures UnmapsAfter(ds, slot) <= UnmapCount(ds, slot)
  {
    if ds != [] {
      UnmapsAfterAtMost(ds[1..], slot);
    }
  }

  /** From one less than all unmaps the shortened list uses everything up, and the list as written does not. */
  lemma UnclearedLevels(ds: seq<Directive>, slot: Slot, clears: Reach)
    requires !Wiped(ds, slot, clears) && Maps(ds, slot) >= 2 && UnmapsAfter(ds, slot) > 0
    ensures UnmapCount(ds, slot) > 0
    ensures Level(ds, slot, clears, UnmapCount(ds, slot) - 1) > 0 && Level(KeepLast(ds), slot, clears, UnmapCount(ds, slot) - 1) == 0
  {
    UnmapsAfterAtMost(ds, slot);
    KeepLastCounts(ds, slot, clears);
    hide Level, Below, Tail, Wiped, Maps, UnmapsAfter, UnmapCount, KeepLast;
    var n := UnmapCount(ds, slot) - 1;
    LevelAtLeast(ds, slot, clears, n);
    LevelMapped(KeepLast(ds), slot, clears, n);
    BelowOnly(KeepLast(ds), slot, n);
  }

  lemma Uncovers(ds: seq<Directive>, slot: Slot, clears: Reach) returns (e: Stacked)
    requires Uncovered(ds, slot, clears)
    ensures !LookAlike(PushAll(KeepLast(ds), e, clears), PushAll(ds, e, clears))
  {
    if Wiped(ds, slot, clears) {
      e := Piled(slot, 0);
      LevelWritten(ds, slot, clears, 0);
      LevelShortened(ds, slot, clears, 0);
    } else {
      TailWhole(ds, slot, clears);
      UnclearedLevels(ds, slot, clears);
      e := Piled(slot, UnmapCount(ds, slot) - 1);
    }
    hide Maps, UnmapCount, UnmapsAfter, PushAll, KeepLast, Level, Tail, Wiped, Below;
    HeightIsLevel(ds, e, slot, clears);
    HeightIsLevel(KeepLast(ds), e, slot, clears);
    HeightShows(PushAll(ds, e, clears).keymap, slot);
    HeightShows(PushAll(KeepLast(ds), e, clears).keymap, slot);
  }

  /**
   * Dropping superseded mappings shows in no editor if and only if no slot is uncovered: none that has a superseded
   * mapping since it was last cleared is unmapped after its last one, unless it was cleared and the unmaps then use up
   * all that lay below.
   */
  lemma StackedDedupeIff(ds: seq<Directive>, clears: Reach)
    ensures (forall e: Stacked :: LookAlike(PushAll(KeepLast(ds), e, clears), PushAll(ds, e, clears)))
       <==> NothingUncovered(ds, clears)
  {
    hide PushAll, KeepLast, LookAlike, Uncovered;
    if NothingUncovered(ds, clears) {
      forall e: Stacked
        ensures LookAlike(PushAll(KeepLast(ds), e, clears), PushAll(ds, e, clears))
      {
        StackedDedupe(ds, e, clears);
      }
    } else {
      var slot: Slot :| Uncovered(ds, slot, clears);
      var e := Uncovers(ds, slot, clears);
    }
  }

  /** `nmap a b`, `nmap a c`, `nunmap a`: the list as written ends with the first mapping, the shortened one with none. */
  lemma UnmapUncovers(clears: Reach)
    ensures var ds := [Map("a", "b", Some(Normal), false), Map("a", "c", Some(Normal), false), Unmap("a", Some(Normal))];
      && Visible(PushAll(ds, Stacked([], map[]), clears).keymap, "a", {Some(Normal)}) == Some(Binding("b", false))
      && Visible(PushAll(KeepLast(ds), Stacked([], map[]), clears).keymap, "a", {Some(Normal)}) == None
  {
    var b, c, u := Map("a", "b", Some(Normal), false), Map("a", "c", Some(Normal), false), Unmap("a", Some(Normal));
    var ds := [b, c, u];
    assert ds[1..] == [c, u] && [c, u][1..] == [u] && [u][1..] == [];
    assert SameKey([c, u][0], b);
    assert KeepLast([u]) == [u] + KeepLast([]);
    assert !Superseded(c, [u]);
    assert KeepLast([c, u]) == [c] + KeepLast([u]);
    assert KeepLast(ds) == [c, u];
    var slot: Slot := (Some(Normal), "a");
    var eb, ec := Entry(slot, Binding("b", false)), Entry(slot, Binding("c", false));
    var e0 := Stacked([], map[]);
    assert Push(b, e0, clears) == Stacked([eb], map[]);
    assert Push(c, Stacked([eb], map[]), clears) == Stacked([ec, eb], map[]);
    assert Push(u, Stacked([ec, eb], map[]), clears) == Stacked([eb], map[]);
    assert Push(c, e0, clears) == Stacked([ec], map[]);
    assert Push(u, Stacked([ec], map[]), clears) == Stacked([], map[]);
    assert PushAll([u], Stacked([ec, eb], map[]), clears) == Stacked([eb], map[]);
    assert PushAll([c, u], Stacked([eb], map[]), clears) == Stacked([eb], map[]);
    assert PushAll([u], Stacked([ec], map[]), clears) == Stacked([], map[]);
    assert PushAll([c, u], e0, clears) == Stacked([], map[]);
  }

  /** Options know no stack: they come out as on the other editor, for which the last value set decides. */
  lemma {:induction false} SameOptions(ds: seq<Directive>, e: Stacked, clears: Reach, other: Editor, reach: Reach)
    requires e.options == other.options
    ensures PushAll(ds, e, clears).options == Run(ds, other, reach).options
  {
    if ds != [] {
      SameOptions(ds[1..], Push(ds[0], e, clears), clears, Apply(ds[0], other, reach), reach);
    }
  }

  /** The mappings that lie at a slot, newest first. */
  function PileAt(keymap: seq<Entry>, slot: Slot): seq<Binding> {
    if keymap == [] then []
    else (if keymap[0].slot == slot then [keymap[0].binding] else []) + PileAt(keymap[1..], slot)
  }

  lemma {:induction false} PileRemoved(keymap: seq<Entry>, slot: Slot, other: Slot)
    ensures PileAt(RemoveFirst(keymap, slot), other)
         == if slot == other && PileAt(keymap, other) != [] then PileAt(keymap, other)[1..] else PileAt(keymap, other)
  {
    if keymap != [] {
      PileRemoved(keymap[1..], slot, other);
      if keymap[0].slot != slot {
        var rest := RemoveFirst(keymap[1..], slot);
        assert ([keymap[0]] + rest)[1..] == rest;
      }
    }
  }

  lemma {:induction false} PileCleared(keymap: seq<Entry>, modes: set<Option<Mode>>, slot: Slot)
    ensures PileAt(RemoveModes(keymap, modes), slot) == if slot.0 in modes then [] else PileAt(keymap, slot)
  {
    if keymap != [] {
      PileCleared(keymap[1..], modes, slot);
      var rest := RemoveModes(keymap[1..], modes);
      assert ([keymap[0]] + rest)[1..] == rest && [] + rest == rest;
    }
  }

  /** A mapping goes on top of its slot's pile, an unmap takes the top off, a mapclear takes the pile. */
  lemma PileStep(d: Directive, e: Stacked, clears: Reach, slot: Slot)
    ensures var before, after := PileAt(e.keymap, slot), PileAt(Push(d, e, clears).keymap, slot);
      after == if MapsTo(d, slot) then [Binding(d.rhs, d.noremap)] + before
               else if Wipes(d, slot, clears) || (Unmaps(d, slot) && before == []) then []
               else if Unmaps(d, slot) then before[1..]
               else before
  {
    match d
    case Map(lhs, rhs, mode, noremap) =>
      var entry := Entry((mode, lhs), Binding(rhs, noremap));
      assert ([entry] + e.keymap)[1..] == e.keymap;
    case Unmap(lhs, mode) => PileRemoved(e.keymap, (mode, lhs), slot);
    case MapClear(mode) => PileCleared(e.keymap, clears(mode), slot);
    case SetOption(_, _) =>
  }
}
