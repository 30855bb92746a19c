/** The store's connect and disconnect actions, interleaved at their awaits. */
module ConnectionStore {
  import opened Text

  type Config = string

  /** The part of the store's state that the actions share. */
  datatype Store = Store(connecting: bool, connected: bool, usedConfig: Option<Config>)

  // ---- Mutations.

  function NewConnection(s: Store, config: Option<Config>): Store {
    s.(usedConfig := config)
  }

  function ClearConnection(s: Store): Store {
    s.(usedConfig := None, connected := false)
  }

  function Connected(s: Store): Store {
    s.(connected := true)
  }

  function Connecting(s: Store, on: bool): Store {
    s.(connecting := on)
  }

  // ---- Actions, by what they are waiting for.

  datatype Outcome = Refused | ReturnedFalse | Threw | ReturnedTrue | Disconnected

  datatype Proc =
    | Resolving
    | Creating(config: Config)
    | Bootstrapping(config: Config, left: nat)
    | Loading(config: Config, left: nat, since: nat)
    | RollbackDisconnecting
    | RollbackClearing
    | RollbackTitle
    | Housekeeping(config: Config, left: nat, since: nat)
    | DriverDisconnecting
    | UtilityClearing
    | DisconnectTitle(left: nat)
    | Finished(outcome: Outcome, created: bool)

  /** `disconnects` counts how often a disconnect has cleared the store; `username` is whether one is known. */
  datatype State = State(store: Store, username: bool, procs: seq<Proc>, disconnects: nat)

  /** Schema, features, version, server configuration, recent connections. */
  const BOOTSTRAP_AWAITS := 5

  /** Where the stretch that commits the connection may throw. */
  datatype CommitResult = CommitDone(loads: nat) | ThrewBeforeConnected | ThrewAfterConnected

  datatype Resolution = ResolveThrew | NoConfig | Resolved(config: Config)

  datatype Step =
    | StartConnect
    | StartDisconnect
    | Resolve(p: nat, resolution: Resolution)
    | Settle(p: nat, ok: bool)
    | CommitConnection(p: nat, result: CommitResult)
    | StartHousekeeping(p: nat, awaits: nat)

  /** Past the guard and not finished. */
  predicate Active(p: Proc) {
    match p
    case DriverDisconnecting => false
    case UtilityClearing => false
    case DisconnectTitle(_) => false
    case Finished(_, _) => false
    case _ => true
  }

  predicate Enabled(s: State, step: Step) {
    match step
    case StartConnect => true
    case StartDisconnect => true
    case Resolve(p, _) => p < |s.procs| && s.procs[p].Resolving?
    case Settle(p, _) =>
      && p < |s.procs| && !s.procs[p].Resolving? && !s.procs[p].Finished?
      && (s.procs[p].Bootstrapping? ==> s.procs[p].left > 0)
      && (s.procs[p].Loading? ==> s.procs[p].left > 0)
    case CommitConnection(p, _) => p < |s.procs| && s.procs[p].Bootstrapping? && s.procs[p].left == 0
    case StartHousekeeping(p, _) => p < |s.procs| && s.procs[p].Loading? && s.procs[p].left == 0
  }

  function Put(s: State, p: nat, proc: Proc, store: Store): State
    requires p < |s.procs|
  {
    s.(procs := s.procs[p := proc], store := store)
  }

  /** The `finally` block. */
  function Finish(s: State, p: nat, outcome: Outcome, created: bool): State
    requires p < |s.procs|
  {
    Put(s, p, Finished(outcome, created), Connecting(s.store, false))
  }

  /** An await of a process comes back, or throws. */
  function Settled(s: State, p: nat, ok: bool): State
    requires p < |s.procs| && Enabled(s, Settle(p, ok))
  {
    match s.procs[p]
    case Creating(config) => if ok then Put(s, p, Bootstrapping(config, BOOTSTRAP_AWAITS), s.store) else Finish(s, p, Threw, false)
    case Bootstrapping(config, left) => Put(s, p, if ok then Bootstrapping(config, left - 1) else RollbackDisconnecting, s.store)
    case Loading(config, left, since) => Put(s, p, if ok then Loading(config, left - 1, since) else RollbackDisconnecting, s.store)
    case RollbackDisconnecting => Put(s, p, RollbackClearing, s.store)
    case RollbackClearing => Put(s, p, RollbackTitle, NewConnection(ClearConnection(s.store), None))
    case RollbackTitle => Finish(s, p, Threw, true)
    case Housekeeping(config, left, since) =>
      if ok && left > 0 then Put(s, p, Housekeeping(config, left - 1, since), s.store) else Finish(s, p, ReturnedTrue, true)
    case DriverDisconnecting => Put(s, p, UtilityClearing, s.store)
    case UtilityClearing =>
      Put(s, p, DisconnectTitle(1), NewConnection(ClearConnection(s.store), None)).(disconnects := s.disconnects + 1)
    case DisconnectTitle(left) =>
      Put(s, p, if ok && left > 0 then DisconnectTitle(left - 1) else Finished(if ok then Disconnected else Threw, false), s.store)
    case _ => s
  }

  function Next(s: State, step: Step): State
    requires Enabled(s, step)
  {
    match step
    case StartConnect =>
      if s.store.connecting then s.(procs := s.procs + [Finished(Refused, false)])
      else s.(procs := s.procs + [Resolving], store := Connecting(s.store, true))
    case StartDisconnect => s.(procs := s.procs + [DriverDisconnecting])
    case Resolve(p, result) =>
      (match result
       case ResolveThrew => Finish(s, p, Threw, false)
       case NoConfig => Finish(s, p, ReturnedFalse, false)
       case Resolved(c) => if s.username then Put(s, p, Creating(c), s.store) else Finish(s, p, Threw, false))
    case Settle(p, ok) => Settled(s, p, ok)
    case CommitConnection(p, result) =>
      var config := s.procs[p].config;
      var used := NewConnection(s.store, Some(config));
      (match result
       case ThrewBeforeConnected => Put(s, p, RollbackDisconnecting, used)
       case ThrewAfterConnected => Put(s, p, RollbackDisconnecting, Connected(used))
       case CommitDone(loads) => Put(s, p, Loading(config, loads, s.disconnects), Connected(used)))
    case StartHousekeeping(p, awaits) =>
      Put(s, p, Housekeeping(s.procs[p].config, awaits, s.procs[p].since), s.store)
  }

  function Exec(s: State, steps: seq<Step>): Option<State>
    decreases |steps|
  {
    if steps == [] then Some(s)
    else if Enabled(s, steps[0]) then Exec(Next(s, steps[0]), steps[1..])
    else None
  }

  function Initial(username: bool): State {
    State(Store(false, false, None), username, [], 0)
  }

  // ---- What every interleaving keeps.

  ghost predicate ProcOk(s: State, p: Proc) {
    match p
    case RollbackTitle => !s.store.connected && s.store.usedConfig.None?
    case Loading(config, _, since) => Bound(s, config, since)
    case Housekeeping(config, _, since) => Bound(s, config, since)
    case _ => true
  }

  /** The connection made for `config` stands exactly as long as no disconnect has cleared the store since. */
  ghost predicate Bound(s: State, config: Config, since: nat) {
    && since <= s.disconnects
    && (since == s.disconnects ==> s.store.connected && s.store.usedConfig == Some(config))
    && (since < s.disconnects ==> !s.store.connected && s.store.usedConfig.None?)
  }

  ghost predicate Inv(s: State) {
    && (s.store.connecting <==> exists p :: 0 <= p < |s.procs| && Active(s.procs[p]))
    && (forall p, q :: 0 <= p < |s.procs| && 0 <= q < |s.procs| && Active(s.procs[p]) && Active(s.procs[q]) ==> p == q)
    && (s.store.connected ==> s.store.usedConfig.Some?)
    && (forall p :: 0 <= p < |s.procs| ==> ProcOk(s, s.procs[p]))
  }

  /** Replacing an active process by another active one. */
  lemma ActiveMoves(s: State, p: nat, proc: Proc, store: Store)
    requires Inv(s) && p < |s.procs| && Active(s.procs[p]) && Active(proc)
    requires store.connecting && (store.connected ==> store.usedConfig.Some?)
    requires ProcOk(Put(s, p, proc, store), proc)
    ensures Inv(Put(s, p, proc, store))
  {
    var s' := Put(s, p, proc, store);
    assert Active(s'.procs[p]);
    forall q | 0 <= q < |s'.procs|
      ensures ProcOk(s', s'.procs[q]) && (Active(s'.procs[q]) ==> q == p)
    {
      assert ProcOk(s, s.procs[q]);
    }
  }

  lemma ActiveFinishes(s: State, p: nat, outcome: Outcome, created: bool)
    requires Inv(s) && p < |s.procs| && Active(s.procs[p])
    ensures Inv(Finish(s, p, outcome, created))
  {
    var s' := Finish(s, p, outcome, created);
    forall q | 0 <= q < |s'.procs|
      ensures ProcOk(s', s'.procs[q]) && !Active(s'.procs[q])
    {
      assert ProcOk(s, s.procs[q]);
    }
  }

  /** A disconnect leaves the guard alone. */
  lemma OtherMoves(s: State, p: nat, proc: Proc, clears: bool)
    requires Inv(s) && p < |s.procs| && !Active(s.procs[p]) && !Active(proc)
    ensures var store := if clears then NewConnection(ClearConnection(s.store), None) else s.store;
      Inv(Put(s, p, proc, store).(disconnects := s.disconnects + if clears then 1 else 0))
  {
    var store := if clears then NewConnection(ClearConnection(s.store), None) else s.store;
    var s' := Put(s, p, proc, store).(disconnects := s.disconnects + if clears then 1 else 0);
    forall q | 0 <= q < |s'.procs|
      ensures ProcOk(s', s'.procs[q])
    {
      assert ProcOk(s, s.procs[q]);
    }
    if s.store.connecting {
      var a :| 0 <= a < |s.procs| && Active(s.procs[a]);
      assert Active(s'.procs[a]);
    }
  }

  lemma ProcStarts(s: State, proc: Proc, store: Store)
    requires Inv(s) && store.connected == s.store.connected && store.usedConfig == s.store.usedConfig
    requires proc in {Resolving, DriverDisconnecting, Finished(Refused, false)}
    requires if proc == Resolving then !s.store.connecting && store.connecting else store.connecting == s.store.connecting
    ensures Inv(s.(procs := s.procs + [proc], store := store))
  {
    var s' := s.(procs := s.procs + [proc], store := store);
    forall q | 0 <= q < |s'.procs|
      ensures ProcOk(s', s'.procs[q])
    {
      assert q < |s.procs| ==> ProcOk(s, s.procs[q]);
    }
    if store.connecting {
      if proc == Resolving {
        assert Active(s'.procs[|s.procs|]);
      } else {
        var a :| 0 <= a < |s.procs| && Active(s.procs[a]);
        assert Active(s'.procs[a]);
      }
    }
  }

  lemma RollbackSettles(s: State, p: nat, ok: bool)
    requires Inv(s) && p < |s.procs|
    requires s.procs[p] in {RollbackDisconnecting, RollbackClearing, RollbackTitle}
    ensures Inv(Settled(s, p, ok))
  {
    InvStore(s);
    hide Inv;
    match s.procs[p]
    case RollbackDisconnecting => ActiveMoves(s, p, RollbackClearing, s.store);
    case RollbackClearing => ActiveMoves(s, p, RollbackTitle, NewConnection(ClearConnection(s.store), None));
    case RollbackTitle => ActiveFinishes(s, p, Threw, true);
    case _ =>
  }

  lemma DisconnectSettles(s: State, p: nat, ok: bool)
    requires Inv(s) && p < |s.procs|
    requires s.procs[p].DriverDisconnecting? || s.procs[p].UtilityClearing? || s.procs[p].DisconnectTitle?
    ensures Inv(Settled(s, p, ok))
  {
    hide Inv;
    match s.procs[p]
    case DriverDisconnecting => OtherMoves(s, p, UtilityClearing, false);
    case UtilityClearing => OtherMoves(s, p, DisconnectTitle(1), true);
    case DisconnectTitle(left) =>
      OtherMoves(s, p, if ok && left > 0 then DisconnectTitle(left - 1) else Finished(if ok then Disconnected else Threw, false), false);
    case _ =>
  }

  lemma ConnectSettles(s: State, p: nat, ok: bool)
    requires Inv(s) && p < |s.procs| && Enabled(s, Settle(p, ok))
    requires s.procs[p].Creating? || s.procs[p].Bootstrapping? || s.procs[p].Loading? || s.procs[p].Housekeeping?
    ensures Inv(Settled(s, p, ok))
  {
    assert ProcOk(s, s.procs[p]);
    InvStore(s);
    hide Inv;
    match s.procs[p]
    case Creating(config) =>
      if ok {
        ActiveMoves(s, p, Bootstrapping(config, BOOTSTRAP_AWAITS), s.store);
      } else {
        ActiveFinishes(s, p, Threw, false);
      }
    case Bootstrapping(config, left) =>
      ActiveMoves(s, p, if ok then Bootstrapping(config, left - 1) else RollbackDisconnecting, s.store);
    case Loading(config, left, since) =>
      ActiveMoves(s, p, if ok then Loading(config, left - 1, since) else RollbackDisconnecting, s.store);
    case Housekeeping(config, left, since) =>
      if ok && left > 0 {
        ActiveMoves(s, p, Housekeeping(config, left - 1, since), s.store);
      } else {
        ActiveFinishes(s, p, ReturnedTrue, true);
      }
    case _ =>
  }

  lemma SettledKeeps(s: State, p: nat, ok: bool)
    requires Inv(s) && p < |s.procs| && Enabled(s, Settle(p, ok))
    ensures Inv(Settled(s, p, ok))
  {
    hide Inv, Settled;
    var proc := s.procs[p];
    if proc.Creating? || proc.Bootstrapping? || proc.Loading? || proc.Housekeeping? {
      ConnectSettles(s, p, ok);
    } else if proc in {RollbackDisconnecting, RollbackClearing, RollbackTitle} {
      RollbackSettles(s, p, ok);
    } else {
      DisconnectSettles(s, p, ok);
    }
  }

  lemma InvStore(s: State)
    requires Inv(s)
    ensures s.store.connected ==> s.store.usedConfig.Some?
    ensures forall p :: 0 <= p < |s.procs| && Active(s.procs[p]) ==> s.store.connecting
  {
  }

  lemma NextKeeps(s: State, step: Step)
    requires Inv(s) && Enabled(s, step)
    ensures Inv(Next(s, step))
  {
    InvStore(s);
    match step
    case StartConnect =>
      ProcStarts(s, if s.store.connecting then Finished(Refused, false) else Resolving, Connecting(s.store, true));
    case StartDisconnect => ProcStarts(s, DriverDisconnecting, s.store);
    case Resolve(p, result) =>
      if result.Resolved? && s.username {
        ActiveMoves(s, p, Creating(result.config), s.store);
      } else {
        ActiveFinishes(s, p, ReturnedFalse, false);
        ActiveFinishes(s, p, Threw, false);
      }
    case Settle(p, ok) => SettledKeeps(s, p, ok);
    case CommitConnection(p, result) =>
      var config := s.procs[p].config;
      var used := NewConnection(s.store, Some(config));
      match result {
        case ThrewBeforeConnected => ActiveMoves(s, p, RollbackDisconnecting, used);
        case ThrewAfterConnected => ActiveMoves(s, p, RollbackDisconnecting, Connected(used));
        case CommitDone(loads) => ActiveMoves(s, p, Loading(config, loads, s.disconnects), Connected(used));
      }
    case StartHousekeeping(p, awaits) =>
      assert ProcOk(s, s.procs[p]);
      ActiveMoves(s, p, Housekeeping(s.procs[p].config, awaits, s.procs[p].since), s.store);
  }

  lemma {:induction false} RunKeeps(s: State, steps: seq<Step>)
    requires Inv(s) && Exec(s, steps).Some?
    ensures Inv(Exec(s, steps).value)
    decreases |steps|
  {
    hide Inv, Next, Enabled;
    if steps != [] {
      NextKeeps(s, steps[0]);
      RunKeeps(Next(s, steps[0]), steps[1..]);
    }
  }

  /**
   * In every interleaving at most one connect is past the guard, the flag is set exactly while one is, and the
   * connected screen never lacks its configuration.
   */
  lemma GuardHolds(username: bool, steps: seq<Step>)
    requires Exec(Initial(username), steps).Some?
    ensures var s := Exec(Initial(username), steps).value;
      && (s.store.connecting <==> exists p :: 0 <= p < |s.procs| && Active(s.procs[p]))
      && (forall p, q :: 0 <= p < |s.procs| && 0 <= q < |s.procs| && Active(s.procs[p]) && Active(s.procs[q]) ==> p == q)
      && (s.store.connected ==> s.store.usedConfig.Some?)
  {
    RunKeeps(Initial(username), steps);
  }

  /** A refused connect leaves the store, and with it the running connect's flag, as it was. */
  lemma RefusalChangesNothing(username: bool, steps: seq<Step>, p: nat)
    requires Exec(Initial(username), steps).Some?
    requires var s := Exec(Initial(username), steps).value; p < |s.procs| && Active(s.procs[p])
    ensures var s := Exec(Initial(username), steps).value;
      Next(s, StartConnect) == s.(procs := s.procs + [Finished(Refused, false)])
  {
    GuardHolds(username, steps);
  }

  /** The step by which process p ends with an outcome. */
  ghost predicate Ends(s: State, step: Step, p: nat, outcome: Outcome, created: bool) {
    && Enabled(s, step) && p < |s.procs| && Active(s.procs[p])
    && p < |Next(s, step).procs| && Next(s, step).procs[p] == Finished(outcome, created)
  }

  /** A connect that throws after `conn/create` succeeded leaves the store disconnected and without configuration. */
  lemma FailedConnectEndsClean(username: bool, steps: seq<Step>, step: Step, p: nat)
    requires Exec(Initial(username), steps).Some? && Ends(Exec(Initial(username), steps).value, step, p, Threw, true)
    ensures var s := Next(Exec(Initial(username), steps).value, step);
      !s.store.connected && s.store.usedConfig.None? && !s.store.connecting
  {
    RunKeeps(Initial(username), steps);
    var s := Exec(Initial(username), steps).value;
    assert ProcOk(s, s.procs[p]);
  }

  /** One that throws before leaves the connection there was alone. */
  lemma EarlyFailureKeepsConnection(username: bool, steps: seq<Step>, step: Step, p: nat)
    requires Exec(Initial(username), steps).Some? && Ends(Exec(Initial(username), steps).value, step, p, Threw, false)
    ensures var s := Exec(Initial(username), steps).value;
      Next(s, step).store == s.store.(connecting := false)
  {
    hide Exec;
    var s := Exec(Initial(username), steps).value;
    assert step.Settle? ==> s.procs[p].Creating?;
  }

  /** What a connect that returned true still holds at that moment. */
  function CommittedAt(p: Proc): nat
    requires p.Housekeeping?
  {
    p.since
  }

  /**
   * A connect that returns true leaves the store connected with its configuration if and only if no disconnect has
   * cleared the store since it committed the connection.
   */
  lemma ReturnedTrueIsConnected(username: bool, steps: seq<Step>, step: Step, p: nat)
    requires Exec(Initial(username), steps).Some? && Ends(Exec(Initial(username), steps).value, step, p, ReturnedTrue, true)
    ensures var s := Exec(Initial(username), steps).value;
      && s.procs[p].Housekeeping?
      && (Next(s, step).store == Store(false, true, Some(s.procs[p].config)) <==> CommittedAt(s.procs[p]) == s.disconnects)
      && (CommittedAt(s.procs[p]) < s.disconnects ==> Next(s, step).store == Store(false, false, None))
  {
    RunKeeps(Initial(username), steps);
    var s := Exec(Initial(username), steps).value;
    assert ProcOk(s, s.procs[p]);
  }

  // ---- A connect that returns true although the store is disconnected.

  ghost predicate Moves(s: State, step: Step, s': State) {
    Enabled(s, step) && Next(s, step) == s'
  }

  lemma ExecMoves(s: State, step: Step, s': State, rest: seq<Step>)
    requires Moves(s, step, s')
    ensures Exec(s, [step] + rest) == Exec(s', rest)
  {
    assert ([step] + rest)[1..] == rest;
  }

  /** Bootstrapping goes on until nothing is left to wait for. */
  lemma {:induction false} Bootstraps(s: State, config: Config, left: nat)
    requires s.procs == [Bootstrapping(config, left)]
    ensures Exec(s, seq(left, _ => Settle(0, true))) == Some(s.(procs := [Bootstrapping(config, 0)]))
    decreases left
  {
    var steps := seq(left, _ => Settle(0, true));
    if left > 0 {
      var s' := s.(procs := [Bootstrapping(config, left - 1)]);
      assert Moves(s, Settle(0, true), s');
      Bootstraps(s', config, left - 1);
      assert steps == [Settle(0, true)] + seq(left - 1, _ => Settle(0, true));
      ExecMoves(s, Settle(0, true), s', seq(left - 1, _ => Settle(0, true)));
    } else {
      assert s.procs == [Bootstrapping(config, 0)];
    }
  }

  lemma {:induction false} ExecConcat(s: State, a: seq<Step>, b: seq<Step>)
    requires Exec(s, a).Some?
    ensures Exec(s, a + b) == Exec(Exec(s, a).value, b)
    decreases |a|
  {
    if a == [] {
      assert a + b == b;
    } else {
      assert (a + b)[1..] == a[1..] + b;
      ExecConcat(Next(s, a[0]), a[1..], b);
    }
  }

  function ConnectingSteps(config: Config): seq<Step> {
    [StartConnect, Resolve(0, Resolved(config)), Settle(0, true)]
  }

  /** The connect commits, a disconnect clears the store, and only then is what the connect waits for there. */
  function DisconnectedMeanwhile(config: Config): seq<Step> {
    ConnectingSteps(config) + seq(BOOTSTRAP_AWAITS, _ => Settle(0, true))
    + [CommitConnection(0, CommitDone(1)), StartDisconnect, Settle(1, true), Settle(1, true), Settle(0, true), StartHousekeeping(0, 0)]
  }

  lemma Creates(config: Config)
    ensures Exec(Initial(true), ConnectingSteps(config))
         == Some(State(Store(true, false, None), true, [Bootstrapping(config, BOOTSTRAP_AWAITS)], 0))
  {
    hide Exec;
    var store := Store(true, false, None);
    var s1, s2 := State(store, true, [Resolving], 0), State(store, true, [Creating(config)], 0);
    var s3 := State(store, true, [Bootstrapping(config, BOOTSTRAP_AWAITS)], 0);
    assert Moves(Initial(true), StartConnect, s1);
    assert Moves(s1, Resolve(0, Resolved(config)), s2);
    assert Moves(s2, Settle(0, true), s3);
    var last := [Settle(0, true)];
    assert ConnectingSteps(config) == [StartConnect] + ([Resolve(0, Resolved(config))] + last);
    ExecMoves(Initial(true), StartConnect, s1, [Resolve(0, Resolved(config))] + last);
    ExecMoves(s1, Resolve(0, Resolved(config)), s2, last);
    assert last == last + [];
    ExecMoves(s2, Settle(0, true), s3, []);
    NothingLeft(s3);
  }

  lemma NothingLeft(s: State)
    ensures Exec(s, []) == Some(s)
  {
  }

  lemma ClearsMeanwhile(config: Config)
    ensures Exec(State(Store(true, false, None), true, [Bootstrapping(config, 0)], 0),
                 [CommitConnection(0, CommitDone(1)), StartDisconnect, Settle(1, true), Settle(1, true), Settle(0, true), StartHousekeeping(0, 0)])
         == Some(State(Store(true, false, None), true, [Housekeeping(config, 0, 0), DisconnectTitle(1)], 1))
  {
    hide Exec;
    var on, off := Store(true, true, Some(config)), Store(true, false, None);
    var s0, s1 := State(off, true, [Bootstrapping(config, 0)], 0), State(on, true, [Loading(config, 1, 0)], 0);
    var s2 := State(on, true, [Loading(config, 1, 0), DriverDisconnecting], 0);
    var s3 := State(on, true, [Loading(config, 1, 0), UtilityClearing], 0);
    var s4 := State(off, true, [Loading(config, 1, 0), DisconnectTitle(1)], 1);
    var s5 := State(off, true, [Loading(config, 0, 0), DisconnectTitle(1)], 1);
    var s6 := State(off, true, [Housekeeping(config, 0, 0), DisconnectTitle(1)], 1);
    assert Moves(s0, CommitConnection(0, CommitDone(1)), s1) && Moves(s1, StartDisconnect, s2);
    assert Moves(s2, Settle(1, true), s3) && Moves(s3, Settle(1, true), s4);
    assert Moves(s4, Settle(0, true), s5) && Moves(s5, StartHousekeeping(0, 0), s6);
    hide Moves;
    ExecMoves(s5, StartHousekeeping(0, 0), s6, []);
    ExecMoves(s4, Settle(0, true), s5, [StartHousekeeping(0, 0)] + []);
    ExecMoves(s3, Settle(1, true), s4, [Settle(0, true)] + ([StartHousekeeping(0, 0)] + []));
    ExecMoves(s2, Settle(1, true), s3, [Settle(1, true)] + ([Settle(0, true)] + ([StartHousekeeping(0, 0)] + [])));
    var tail := [Settle(1, true)] + ([Settle(1, true)] + ([Settle(0, true)] + ([StartHousekeeping(0, 0)] + [])));
    ExecMoves(s1, StartDisconnect, s2, tail);
    ExecMoves(s0, CommitConnection(0, CommitDone(1)), s1, [StartDisconnect] + tail);
    assert [CommitConnection(0, CommitDone(1))] + ([StartDisconnect] + tail)
        == [CommitConnection(0, CommitDone(1)), StartDisconnect, Settle(1, true), Settle(1, true), Settle(0, true), StartHousekeeping(0, 0)];
    NothingLeft(s6);
  }

  /** Such a run exists for every configuration: the connect ends by returning true, and the store is disconnected. */
  lemma ReturnedTrueDisconnected(config: Config)
    ensures Exec(Initial(true), DisconnectedMeanwhile(config)).Some?
    ensures var s := Exec(Initial(true), DisconnectedMeanwhile(config)).value;
      Ends(s, Settle(0, true), 0, ReturnedTrue, true) && Next(s, Settle(0, true)).store == Store(false, false, None)
  {
    hide Exec;
    var boot := seq(BOOTSTRAP_AWAITS, _ => Settle(0, true));
    var rest := [CommitConnection(0, CommitDone(1)), StartDisconnect, Settle(1, true), Settle(1, true), Settle(0, true), StartHousekeeping(0, 0)];
    var s0 := State(Store(true, false, None), true, [Bootstrapping(config, BOOTSTRAP_AWAITS)], 0);
    Creates(config);
    Bootstraps(s0, config, BOOTSTRAP_AWAITS);
    ExecConcat(Initial(true), ConnectingSteps(config), boot);
    ExecConcat(Initial(true), ConnectingSteps(config) + boot, rest);
    ClearsMeanwhile(config);
  }

  // ---- The stretches of the actions between awaits, on the store's own fields.

  class StoreState {
    const username: bool
    var connecting: bool
    var connected: bool
    var usedConfig: Option<Config>
    var procs: seq<Proc>
    var disconnects: nat

    function View(): State
      reads this
    {
      State(Store(connecting, connected, usedConfig), username, procs, disconnects)
    }

    ghost predicate Valid()
      reads this
    {
      Inv(View())
    }

    constructor (username: bool)
      ensures View() == Initial(username) && Valid()
    {
      this.username := username;
      connecting, connected, usedConfig, procs, disconnects := false, false, None, [], 0;
    }

    method CommitNewConnection(config: Option<Config>)
      modifies `usedConfig
      ensures View().store == NewConnection(old(View()).store, config)
    {
      usedConfig := config;
    }

    method CommitClearConnection()
      modifies `usedConfig, `connected
      ensures View().store == ClearConnection(old(View()).store)
    {
      usedConfig := None;
      connected := false;
    }

    /** The start of connect, up to its first await; false is the error thrown when one is under way. */
    method Guard() returns (ok: bool)
      requires Valid()
      modifies this
      ensures View() == Next(old(View()), StartConnect) && Valid()
      ensures ok <==> !old(connecting)
    {
      NextKeeps(View(), StartConnect);
      if connecting {
        procs := procs + [Finished(Refused, false)];
        return false;
      }
      connecting := true;
      procs := procs + [Resolving];
      ok := true;
    }

    method BeginDisconnect()
      requires Valid()
      modifies this
      ensures View() == Next(old(View()), StartDisconnect) && Valid()
    {
      NextKeeps(View(), StartDisconnect);
      procs := procs + [DriverDisconnecting];
    }

    /** The `finally` block. */
    method Finally(p: nat, outcome: Outcome, created: bool)
      requires p < |procs|
      modifies this
      ensures View() == Finish(old(View()), p, outcome, created)
    {
      connecting := false;
      procs := procs[p := Finished(outcome, created)];
    }

    method OnResolved(p: nat, resolution: Resolution)
      requires Valid() && Enabled(View(), Resolve(p, resolution))
      modifies this
      ensures View() == Next(old(View()), Resolve(p, resolution)) && Valid()
    {
      NextKeeps(View(), Resolve(p, resolution));
      hide Inv;
      match resolution
      case ResolveThrew => Finally(p, Threw, false);
      case NoConfig => Finally(p, ReturnedFalse, false);
      case Resolved(config) =>
        if username {
          procs := procs[p := Creating(config)];
        } else {
          Finally(p, Threw, false);
        }
    }

    /** Configuration first, then the switch to the connected screen; either may be followed by a failure. */
    method Commit(p: nat, result: CommitResult)
      requires Valid() && Enabled(View(), CommitConnection(p, result))
      modifies this
      ensures View() == Next(old(View()), CommitConnection(p, result)) && Valid()
    {
      NextKeeps(View(), CommitConnection(p, result));
      hide Inv;
      var config := procs[p].config;
      CommitNewConnection(Some(config));
      if result == ThrewBeforeConnected {
        procs := procs[p := RollbackDisconnecting];
        return;
      }
      connected := true;
      procs := procs[p := if result == ThrewAfterConnected then RollbackDisconnecting else Loading(config, result.loads, disconnects)];
    }

    method BeginHousekeeping(p: nat, awaits: nat)
      requires Valid() && Enabled(View(), StartHousekeeping(p, awaits))
      modifies this
      ensures View() == Next(old(View()), StartHousekeeping(p, awaits)) && Valid()
    {
      NextKeeps(View(), StartHousekeeping(p, awaits));
      procs := procs[p := Housekeeping(procs[p].config, awaits, procs[p].since)];
    }

    /** What an action does when the await it stands at comes back, or throws. */
    method OnSettled(p: nat, ok: bool)
      requires Valid() && Enabled(View(), Settle(p, ok))
      modifies this
      ensures View() == Next(old(View()), Settle(p, ok)) && Valid()
    {
      NextKeeps(View(), Settle(p, ok));
      hide Inv, Settled;
      if procs[p] in {RollbackDisconnecting, RollbackClearing, RollbackTitle} {
        RollbackConnection(p, ok);
      } else if Active(procs[p]) {
        Connect(p, ok);
      } else {
        Disconnect(p, ok);
      }
    }

    method Connect(p: nat, ok: bool)
      requires Enabled(View(), Settle(p, ok)) && Active(procs[p])
      requires procs[p] !in {RollbackDisconnecting, RollbackClearing, RollbackTitle}
      modifies this
      ensures View() == Settled(old(View()), p, ok)
    {
      match procs[p]
      case Creating(config) =>
        if ok {
          procs := procs[p := Bootstrapping(config, BOOTSTRAP_AWAITS)];
        } else {
          Finally(p, Threw, false);
        }
      case Bootstrapping(config, left) => procs := procs[p := if ok then Bootstrapping(config, left - 1) else RollbackDisconnecting];
      case Loading(config, left, since) => procs := procs[p := if ok then Loading(config, left - 1, since) else RollbackDisconnecting];
      case Housekeeping(config, left, since) =>
        if ok && left > 0 {
          procs := procs[p := Housekeeping(config, left - 1, since)];
        } else {
          Finally(p, ReturnedTrue, true);
        }
      case _ =>
    }

    /** Every failure on the way is logged and the rollback goes on. */
    method RollbackConnection(p: nat, ok: bool)
      requires p < |procs| && procs[p] in {RollbackDisconnecting, RollbackClearing, RollbackTitle}
      modifies this
      ensures View() == Settled(old(View()), p, ok)
    {
      match procs[p]
      case RollbackDisconnecting => procs := procs[p := RollbackClearing];
      case RollbackClearing =>
        CommitClearConnection();
        CommitNewConnection(None);
        procs := procs[p := RollbackTitle];
      case RollbackTitle => Finally(p, Threw, true);
      case _ =>
    }

    method Disconnect(p: nat, ok: bool)
      requires p < |procs| && !Active(procs[p]) && !procs[p].Finished?
      modifies this
      ensures View() == Settled(old(View()), p, ok)
    {
      match procs[p]
      case DriverDisconnecting => procs := procs[p := UtilityClearing];
      case UtilityClearing =>
        CommitClearConnection();
        CommitNewConnection(None);
        procs, disconnects := procs[p := DisconnectTitle(1)], disconnects + 1;
      case DisconnectTitle(left) =>
        procs := procs[p := if ok && left > 0 then DisconnectTitle(left - 1) else Finished(if ok then Disconnected else Threw, false)];
      case _ =>
    }
  }
}
