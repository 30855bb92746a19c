/**
 * The fate of a connect or disconnect, read off what its own awaits came back with: over every interleaving a process is
 * where its own steps have brought it, whatever the others do.
 */
module ConnectionTrace {
  import opened Text
  import opened ConnectionStore

  type History = seq<Step>

  predicate Concerns(step: Step, p: nat) {
    match step
    case StartConnect => false
    case StartDisconnect => false
    case Resolve(q, _) => q == p
    case Settle(q, _) => q == p
    case CommitConnection(q, _) => q == p
    case StartHousekeeping(q, _) => q == p
  }

  /** The steps of a run that concern process p, in order. */
  function Of(steps: seq<Step>, p: nat): History {
    if steps == [] then []
    else
      var n := |steps| - 1;
      Of(steps[..n], p) + if Concerns(steps[n], p) then [steps[n]] else []
  }

  // ---- What a connect goes through.

  function Fine(p: nat, n: nat): History {
    seq(n, _ => Settle(p, true))
  }

  /** Resolved, created, and n of the bootstrap awaits come back. */
  function Booted(p: nat, config: Config, n: nat): History {
    [Resolve(p, Resolved(config)), Settle(p, true)] + Fine(p, n)
  }

  /** Committed, and n of the loads come back. */
  function Committed(p: nat, config: Config, loads: nat, n: nat): History {
    Booted(p, config, BOOTSTRAP_AWAITS) + [CommitConnection(p, CommitDone(loads))] + Fine(p, n)
  }

  /** Everything loaded, and n of the housekeeping awaits come back. */
  function Kept(p: nat, config: Config, loads: nat, awaits: nat, n: nat): History {
    Committed(p, config, loads, loads) + [StartHousekeeping(p, awaits)] + Fine(p, n)
  }

  /** The first failure after the server connection was made and before housekeeping. */
  ghost predicate Broke(p: nat, h: History) {
    h != [] &&
    var good, bad := h[..|h| - 1], h[|h| - 1];
    || (bad == Settle(p, false) && exists config, n: nat :: n < BOOTSTRAP_AWAITS && good == Booted(p, config, n))
    || (bad in {CommitConnection(p, ThrewBeforeConnected), CommitConnection(p, ThrewAfterConnected)}
        && exists config :: good == Booted(p, config, BOOTSTRAP_AWAITS))
    || (bad == Settle(p, false) && exists config, loads: nat, n: nat :: n < loads && good == Committed(p, config, loads, n))
  }

  predicate Settles(h: History, p: nat) {
    forall i :: 0 <= i < |h| ==> h[i].Settle? && h[i].p == p
  }

  /** Broken, and n of the rollback's three awaits back, well or badly. */
  ghost predicate RolledBack(p: nat, h: History, n: nat) {
    |h| > n && Broke(p, h[..|h| - n]) && Settles(h[|h| - n..], p)
  }

  /** Housekeeping is over: its last await came back, or one of them failed. */
  ghost predicate KeptAll(p: nat, h: History) {
    h != [] && h[|h| - 1] in {Settle(p, true), Settle(p, false)} &&
    exists config, loads: nat, awaits: nat, n: nat ::
      h[..|h| - 1] == Kept(p, config, loads, awaits, n) && (n == awaits || (n < awaits && h[|h| - 1] == Settle(p, false)))
  }

  ghost predicate FailedEarly(p: nat, h: History, username: bool) {
    || h == [Resolve(p, ResolveThrew)]
    || (!username && exists config :: h == [Resolve(p, Resolved(config))])
    || (username && exists config :: h == [Resolve(p, Resolved(config)), Settle(p, false)])
  }

  /** A disconnect clears after its second await, and then waits for the window title. */
  ghost predicate Disconnecting(p: nat, h: History, n: nat) {
    |h| == 2 + n && Settles(h, p) && forall i :: 2 <= i < |h| ==> h[i] == Settle(p, true)
  }

  /** Where a process is, by its own steps. */
  ghost predicate Stands(proc: Proc, p: nat, h: History, username: bool) {
    match proc
    case Resolving => h == []
    case Creating(config) => username && h == [Resolve(p, Resolved(config))]
    case Bootstrapping(config, left) => username && left <= BOOTSTRAP_AWAITS && h == Booted(p, config, BOOTSTRAP_AWAITS - left)
    case Loading(config, left, _) => username && exists loads: nat, n: nat :: n + left == loads && h == Committed(p, config, loads, n)
    case RollbackDisconnecting => username && RolledBack(p, h, 0)
    case RollbackClearing => username && RolledBack(p, h, 1)
    case RollbackTitle => username && RolledBack(p, h, 2)
    case Housekeeping(config, left, _) =>
      username && exists loads: nat, awaits: nat, n: nat :: n + left == awaits && h == Kept(p, config, loads, awaits, n)
    case DriverDisconnecting => h == []
    case UtilityClearing => |h| == 1 && Settles(h, p)
    case DisconnectTitle(left) => left <= 1 && Disconnecting(p, h, 1 - left)
    case Finished(outcome, created) =>
      if created then username && (if outcome == Threw then RolledBack(p, h, 3) else outcome == ReturnedTrue && KeptAll(p, h))
      else match outcome
           case Refused => h == []
           case ReturnedFalse => h == [Resolve(p, NoConfig)]
           case Threw => FailedEarly(p, h, username) || DisconnectBroke(p, h)
           case Disconnected => Disconnecting(p, h, 2)
           case ReturnedTrue => false
  }

  /** A disconnect throws when waiting for the window title fails. */
  ghost predicate DisconnectBroke(p: nat, h: History) {
    |h| > 2 && h[|h| - 1] == Settle(p, false) && |h| <= 4 && Disconnecting(p, h[..|h| - 1], |h| - 3)
  }

  // ---- One step of its own.

  lemma FineMore(p: nat, n: nat)
    ensures Fine(p, n) + [Settle(p, true)] == Fine(p, n + 1)
  {
  }

  lemma Appended<T>(a: seq<T>, b: seq<T>, c: seq<T>)
    ensures a + b + c == a + (b + c)
  {
  }

  lemma BootedMore(p: nat, config: Config, n: nat)
    ensures Booted(p, config, n) + [Settle(p, true)] == Booted(p, config, n + 1)
  {
    FineMore(p, n);
    Appended([Resolve(p, Resolved(config)), Settle(p, true)], Fine(p, n), [Settle(p, true)]);
  }

  lemma CommittedMore(p: nat, config: Config, loads: nat, n: nat)
    ensures Committed(p, config, loads, n) + [Settle(p, true)] == Committed(p, config, loads, n + 1)
  {
    FineMore(p, n);
    Appended(Booted(p, config, BOOTSTRAP_AWAITS) + [CommitConnection(p, CommitDone(loads))], Fine(p, n), [Settle(p, true)]);
  }

  lemma KeptMore(p: nat, config: Config, loads: nat, awaits: nat, n: nat)
    ensures Kept(p, config, loads, awaits, n) + [Settle(p, true)] == Kept(p, config, loads, awaits, n + 1)
  {
    FineMore(p, n);
    Appended(Committed(p, config, loads, loads) + [StartHousekeeping(p, awaits)], Fine(p, n), [Settle(p, true)]);
  }

  lemma FirstOfEach(p: nat, config: Config, loads: nat, awaits: nat)
    ensures Booted(p, config, 0) == [Resolve(p, Resolved(config)), Settle(p, true)]
    ensures Committed(p, config, loads, 0) == Booted(p, config, BOOTSTRAP_AWAITS) + [CommitConnection(p, CommitDone(loads))]
    ensures Kept(p, config, loads, awaits, 0) == Committed(p, config, loads, loads) + [StartHousekeeping(p, awaits)]
  {
    assert Fine(p, 0) == [];
  }

  lemma BreaksHere(p: nat, good: History, bad: Step)
    requires Broke(p, good + [bad])
    ensures RolledBack(p, good + [bad], 0)
  {
    var h := good + [bad];
    assert h[..|h| - 0] == h && h[|h| - 0..] == [];
  }

  lemma RollsOn(p: nat, h: History, n: nat, ok: bool)
    requires RolledBack(p, h, n)
    ensures RolledBack(p, h + [Settle(p, ok)], n + 1)
  {
    hide Broke;
    var h' := h + [Settle(p, ok)];
    assert h'[..|h'| - (n + 1)] == h[..|h| - n];
    assert h'[|h'| - (n + 1)..] == h[|h| - n..] + [Settle(p, ok)];
  }

  lemma BootstrapSettles(p: nat, config: Config, left: nat, h: History, ok: bool)
    requires 0 < left <= BOOTSTRAP_AWAITS && h == Booted(p, config, BOOTSTRAP_AWAITS - left)
    ensures var h' := h + [Settle(p, ok)];
      if ok then h' == Booted(p, config, BOOTSTRAP_AWAITS - (left - 1)) else RolledBack(p, h', 0)
  {
    var n, h' := BOOTSTRAP_AWAITS - left, h + [Settle(p, ok)];
    hide Booted;
    if ok {
      BootedMore(p, config, n);
    } else {
      assert h'[..|h'| - 1] == Booted(p, config, n);
      BreaksHere(p, h, Settle(p, false));
    }
  }

  lemma LoadSettles(p: nat, config: Config, left: nat, loads: nat, h: History, ok: bool)
    requires 0 < left <= loads && h == Committed(p, config, loads, loads - left)
    ensures var h' := h + [Settle(p, ok)];
      if ok then h' == Committed(p, config, loads, loads - left + 1) else RolledBack(p, h', 0)
  {
    var n, h' := loads - left, h + [Settle(p, ok)];
    hide Committed, Booted;
    if ok {
      CommittedMore(p, config, loads, n);
    } else {
      assert h'[..|h'| - 1] == Committed(p, config, loads, n);
      BreaksHere(p, h, Settle(p, false));
    }
  }

  lemma KeepingSettles(p: nat, config: Config, left: nat, loads: nat, awaits: nat, h: History, ok: bool)
    requires left <= awaits && h == Kept(p, config, loads, awaits, awaits - left)
    ensures var h' := h + [Settle(p, ok)];
      if ok && left > 0 then h' == Kept(p, config, loads, awaits, awaits - left + 1) else KeptAll(p, h')
  {
    var n, h' := awaits - left, h + [Settle(p, ok)];
    hide Kept, Committed, Booted;
    if ok && left > 0 {
      KeptMore(p, config, loads, awaits, n);
    } else {
      assert h'[..|h'| - 1] == Kept(p, config, loads, awaits, n);
      assert h'[|h'| - 1] == Settle(p, ok);
    }
  }

  lemma CommitSettles(p: nat, config: Config, h: History, result: CommitResult)
    requires h == Booted(p, config, BOOTSTRAP_AWAITS)
    ensures var h' := h + [CommitConnection(p, result)];
      if result.CommitDone? then h' == Committed(p, config, result.loads, 0) else RolledBack(p, h', 0)
  {
    var h' := h + [CommitConnection(p, result)];
    if result.CommitDone? {
      FirstOfEach(p, config, result.loads, 0);
    } else {
      hide Booted;
      assert h'[..|h'| - 1] == Booted(p, config, BOOTSTRAP_AWAITS);
      BreaksHere(p, h, CommitConnection(p, result));
    }
  }

  lemma TitleSettles(p: nat, left: nat, h: History, ok: bool)
    requires left <= 1 && Disconnecting(p, h, 1 - left)
    ensures var h' := h + [Settle(p, ok)];
      if ok then Disconnecting(p, h', 2 - left) else DisconnectBroke(p, h')
  {
    var h' := h + [Settle(p, ok)];
    assert h'[..|h'| - 1] == h;
  }

  lemma ClearingSettles(p: nat, h: History, ok: bool)
    requires |h| <= 1 && Settles(h, p)
    ensures Settles(h + [Settle(p, ok)], p) && (|h| == 1 ==> Disconnecting(p, h + [Settle(p, ok)], 0))
  {
  }

  lemma ConnectStands(s: State, p: nat, ok: bool, h: History)
    requires p < |s.procs| && Enabled(s, Settle(p, ok)) && Stands(s.procs[p], p, h, s.username)
    requires s.procs[p].Creating? || s.procs[p].Bootstrapping? || s.procs[p].Loading? || s.procs[p].Housekeeping?
    ensures Stands(Settled(s, p, ok).procs[p], p, h + [Settle(p, ok)], s.username)
  {
    match s.procs[p]
    case Creating(config) =>
      FirstOfEach(p, config, 0, 0);
      hide Booted;
    case Bootstrapping(config, left) =>
      BootstrapSettles(p, config, left, h, ok);
      hide Booted, RolledBack;
    case Loading(config, left, since) =>
      hide Committed, RolledBack;
      var loads: nat, n: nat :| n + left == loads && h == Committed(p, config, loads, n);
      LoadSettles(p, config, left, loads, h, ok);
    case Housekeeping(config, left, since) =>
      hide Kept, KeptAll;
      var loads: nat, awaits: nat, n: nat :| n + left == awaits && h == Kept(p, config, loads, awaits, n);
      KeepingSettles(p, config, left, loads, awaits, h, ok);
    case _ =>
  }

  lemma OthersStand(s: State, p: nat, ok: bool, h: History)
    requires p < |s.procs| && Enabled(s, Settle(p, ok)) && Stands(s.procs[p], p, h, s.username)
    requires !(s.procs[p].Creating? || s.procs[p].Bootstrapping? || s.procs[p].Loading? || s.procs[p].Housekeeping?)
    ensures Stands(Settled(s, p, ok).procs[p], p, h + [Settle(p, ok)], s.username)
  {
    hide RolledBack, Disconnecting, DisconnectBroke, FailedEarly;
    match s.procs[p]
    case RollbackDisconnecting => RollsOn(p, h, 0, ok);
    case RollbackClearing => RollsOn(p, h, 1, ok);
    case RollbackTitle => RollsOn(p, h, 2, ok);
    case DriverDisconnecting => ClearingSettles(p, h, ok);
    case UtilityClearing => ClearingSettles(p, h, ok);
    case DisconnectTitle(left) => TitleSettles(p, left, h, ok);
    case _ =>
  }

  lemma OwnStep(s: State, step: Step, p: nat, h: History)
    requires Enabled(s, step) && Concerns(step, p) && Stands(s.procs[p], p, h, s.username)
    ensures p < |s.procs| && Stands(Next(s, step).procs[p], p, h + [step], s.username)
  {
    match step
    case Resolve(_, result) => hide Booted, Disconnecting;
    case Settle(_, ok) =>
      hide Stands, Settled;
      if s.procs[p].Creating? || s.procs[p].Bootstrapping? || s.procs[p].Loading? || s.procs[p].Housekeeping? {
        ConnectStands(s, p, ok, h);
      } else {
        OthersStand(s, p, ok, h);
      }
    case CommitConnection(_, result) =>
      hide Booted, Committed, RolledBack;
      CommitSettles(p, s.procs[p].config, h, result);
      if result.CommitDone? {
        assert 0 + result.loads == result.loads && h + [step] == Committed(p, s.procs[p].config, result.loads, 0);
      }
    case StartHousekeeping(_, awaits) =>
      hide Booted, Committed, Kept;
      var config := s.procs[p].config;
      var loads: nat, n: nat :| n + 0 == loads && h == Committed(p, config, loads, n);
      FirstOfEach(p, config, loads, awaits);
      assert 0 + awaits == awaits && h + [step] == Kept(p, config, loads, awaits, 0);
  }

  lemma OtherStep(s: State, step: Step, p: nat)
    requires Enabled(s, step) && !Concerns(step, p)
    ensures |s.procs| <= |Next(s, step).procs| && Next(s, step).username == s.username
    ensures p < |s.procs| ==> Next(s, step).procs[p] == s.procs[p]
    ensures |s.procs| <= p < |Next(s, step).procs| ==> Stands(Next(s, step).procs[p], p, [], s.username)
  {
  }

  // ---- Over every run.

  lemma ExecLast(s: State, steps: seq<Step>)
    requires steps != [] && Exec(s, steps).Some?
    ensures Exec(s, steps[..|steps| - 1]).Some? && Enabled(Exec(s, steps[..|steps| - 1]).value, steps[|steps| - 1])
    ensures Exec(s, steps) == Some(Next(Exec(s, steps[..|steps| - 1]).value, steps[|steps| - 1]))
    decreases |steps|
  {
    var n := |steps| - 1;
    hide Next, Enabled;
    if n > 0 {
      ExecLast(Next(s, steps[0]), steps[1..]);
      assert steps[..n][1..] == steps[1..][..n - 1];
    } else {
      assert steps[1..] == [];
    }
  }

  /** The process, if there is one, stands where the steps have brought it; before it begins it has none. */
  ghost predicate StandsBy(s: State, p: nat, h: History) {
    if p < |s.procs| then Stands(s.procs[p], p, h, s.username) else h == []
  }

  lemma OneMore(s: State, step: Step, p: nat, h: History)
    requires Enabled(s, step) && StandsBy(s, p, h)
    ensures Next(s, step).username == s.username
    ensures StandsBy(Next(s, step), p, if Concerns(step, p) then h + [step] else h)
  {
    hide Stands, Next, Enabled;
    if Concerns(step, p) {
      ConcernsExisting(s, step, p);
      hide Concerns;
      OwnStep(s, step, p, h);
    } else {
      hide Concerns;
      OtherStep(s, step, p);
    }
  }

  lemma ConcernsExisting(s: State, step: Step, p: nat)
    requires Enabled(s, step) && Concerns(step, p)
    ensures p < |s.procs| && |Next(s, step).procs| == |s.procs| && Next(s, step).username == s.username
  {
  }

  lemma OfLast(steps: seq<Step>, p: nat)
    requires steps != []
    ensures var n := |steps| - 1;
      Of(steps, p) == if Concerns(steps[n], p) then Of(steps[..n], p) + [steps[n]] else Of(steps[..n], p)
  {
  }

  /**
   * In every interleaving each process stands where its own steps have brought it: a connect ends by returning true
   * exactly after getting through to its housekeeping, by throwing with a rollback exactly after the first failure
   * between the server connection and that, and so on; no other process has a say.
   */
  lemma {:induction false} OwnStepsDecide(username: bool, steps: seq<Step>, p: nat)
    requires Exec(Initial(username), steps).Some?
    ensures Exec(Initial(username), steps).value.username == username
    ensures StandsBy(Exec(Initial(username), steps).value, p, Of(steps, p))
    decreases |steps|
  {
    if steps == [] {
      NothingLeft(Initial(username));
    } else {
      hide *;
      var n := |steps| - 1;
      ExecLast(Initial(username), steps);
      OwnStepsDecide(username, steps[..n], p);
      OneMore(Exec(Initial(username), steps[..n]).value, steps[n], p, Of(steps[..n], p));
      OfLast(steps, p);
    }
  }

  // ---- Housekeeping never fails a connect.

  predicate KeepsHouse(h: History) {
    exists i :: 0 <= i < |h| && h[i].StartHousekeeping?
  }

  predicate ReachedHousekeeping(proc: Proc) {
    proc.Housekeeping? || proc == Finished(ReturnedTrue, true)
  }

  lemma NotYetHousekeeping(p: nat, config: Config, loads: nat, n: nat)
    ensures !KeepsHouse(Booted(p, config, n)) && !KeepsHouse(Committed(p, config, loads, n))
  {
  }

  lemma SettlesOnly(a: History, b: History, p: nat)
    requires Settles(b, p)
    ensures KeepsHouse(a + b) <==> KeepsHouse(a)
  {
    if i :| 0 <= i < |a| && a[i].StartHousekeeping? {
      assert (a + b)[i].StartHousekeeping?;
    }
    if i :| 0 <= i < |a + b| && (a + b)[i].StartHousekeeping? {
      assert i >= |a| ==> (a + b)[i] == b[i - |a|];
    }
  }

  lemma KeptHouse(p: nat, config: Config, loads: nat, awaits: nat, n: nat, more: History)
    ensures KeepsHouse(Kept(p, config, loads, awaits, n) + more)
  {
    var h := Kept(p, config, loads, awaits, n) + more;
    assert h[|Committed(p, config, loads, loads)|] == StartHousekeeping(p, awaits);
  }

  lemma BrokenEarlier(p: nat, h: History, n: nat)
    requires RolledBack(p, h, n)
    ensures !KeepsHouse(h)
  {
    var broke := h[..|h| - n];
    var good, bad := broke[..|broke| - 1], broke[|broke| - 1];
    assert !KeepsHouse(good) by {
      forall config, loads: nat, m: nat
        ensures !KeepsHouse(Booted(p, config, m)) && !KeepsHouse(Committed(p, config, loads, m))
      {
        NotYetHousekeeping(p, config, loads, m);
      }
      hide Booted, Committed, KeepsHouse;
    }
    assert broke == good + [bad] && h == broke + h[|h| - n..];
    hide Broke, Booted, Committed;
    SettlesOnly(broke, h[|h| - n..], p);
    forall i | 0 <= i < |broke|
      ensures !broke[i].StartHousekeeping?
    {
      assert i < |good| ==> good[i] == broke[i];
    }
  }

  lemma HousekeepingShows(proc: Proc, p: nat, h: History, username: bool)
    requires Stands(proc, p, h, username)
    ensures KeepsHouse(h) <==> ReachedHousekeeping(proc)
  {
    match proc
    case Bootstrapping(config, left) =>
      NotYetHousekeeping(p, config, 0, BOOTSTRAP_AWAITS - left);
      hide Booted, Committed, KeepsHouse;
    case Loading(config, left, _) =>
      hide Booted, Committed, KeepsHouse;
      var loads: nat, n: nat :| n + left == loads && h == Committed(p, config, loads, n);
      NotYetHousekeeping(p, config, loads, n);
    case Housekeeping(config, left, _) =>
      hide Kept, KeepsHouse;
      var loads: nat, awaits: nat, n: nat :| n + left == awaits && h == Kept(p, config, loads, awaits, n);
      KeptHouse(p, config, loads, awaits, n, []);
      assert h + [] == h;
    case RollbackDisconnecting => BrokenEarlier(p, h, 0);
    case RollbackClearing => BrokenEarlier(p, h, 1);
    case RollbackTitle => BrokenEarlier(p, h, 2);
    case Finished(outcome, created) => FinishedShows(proc, p, h, username);
    case _ => hide Kept, Committed, Booted;
  }

  lemma FinishedShows(proc: Proc, p: nat, h: History, username: bool)
    requires Stands(proc, p, h, username) && proc.Finished?
    ensures KeepsHouse(h) <==> ReachedHousekeeping(proc)
  {
    hide Kept, Committed, Booted, RolledBack;
    if proc.created {
      if proc.outcome == Threw {
        BrokenEarlier(p, h, 3);
      } else {
        hide KeepsHouse;
        var config, loads: nat, awaits: nat, n: nat :| h[..|h| - 1] == Kept(p, config, loads, awaits, n);
        KeptHouse(p, config, loads, awaits, n, [h[|h| - 1]]);
        assert h == h[..|h| - 1] + [h[|h| - 1]];
      }
    }
  }

  /**
   * Over every run a connect that has come to its housekeeping is still at it or has returned true, whatever fails
   * there; and no other connect has.
   */
  lemma HousekeepingNeverFails(username: bool, steps: seq<Step>, p: nat)
    requires Exec(Initial(username), steps).Some? && p < |Exec(Initial(username), steps).value.procs|
    ensures KeepsHouse(Of(steps, p)) <==> ReachedHousekeeping(Exec(Initial(username), steps).value.procs[p])
  {
    OwnStepsDecide(username, steps, p);
    hide Exec, KeepsHouse, Stands;
    HousekeepingShows(Exec(Initial(username), steps).value.procs[p], p, Of(steps, p), username);
  }

  /** A step of housekeeping touches at most the flag, and that exactly when the connect is done. */
  lemma HousekeepingTouchesTheFlag(s: State, p: nat, ok: bool)
    requires p < |s.procs| && s.procs[p].Housekeeping? && Enabled(s, Settle(p, ok))
    ensures var s' := Next(s, Settle(p, ok));
      && ReachedHousekeeping(s'.procs[p])
      && s'.store == if s'.procs[p].Finished? then s.store.(connecting := false) else s.store
  {
  }

  /** A connect gets past the guard exactly while no other is under way, connected or not, and sets the flag. */
  lemma AdmittedIffFree(s: State)
    ensures var t, p := Next(s, StartConnect), |s.procs|;
      && |t.procs| == p + 1 && t.procs[..p] == s.procs
      && t.procs[p] == (if s.store.connecting then Finished(Refused, false) else Resolving)
      && t.store == s.store.(connecting := true)
  {
  }

  // ---- What touches the connection.

  predicate Clears(s: State, step: Step) {
    step.Settle? && step.p < |s.procs| && (s.procs[step.p].RollbackClearing? || s.procs[step.p].UtilityClearing?)
  }

  /** Only a commit puts a configuration and the switch there, and only a rollback or a disconnect takes them away. */
  lemma OnlyCommitsAndClears(s: State, step: Step)
    requires Enabled(s, step)
    ensures var t := Next(s, step).store;
      && t.usedConfig == (if step.CommitConnection? then Some(s.procs[step.p].config) else if Clears(s, step) then None else s.store.usedConfig)
      && t.connected == if step.CommitConnection? && step.result != ThrewBeforeConnected then true
                        else !Clears(s, step) && s.store.connected
    ensures Next(s, step).disconnects == s.disconnects + if Clears(s, step) && s.procs[step.p].UtilityClearing? then 1 else 0
  {
  }
}
