/**
 * Auto-rollback of manual transactions: per tab a warning timer, then a rollback timer, kept in a map that query,
 * transaction and release handlers rearm or clear while driver calls are pending.
 */
module TransactionTimers {
  import opened Text

  type Tab = int
  type TimerId = nat

  /** `manualTransactionTimeout` and `autoRollbackWarningWindow` of a connection type, in milliseconds. */
  datatype Limits = Limits(timeout: int, window: int)

  const MAX_DELAY := 0x7fff_ffff

  /** What `setTimeout` makes of a delay: out of range means one millisecond. */
  function Delay(ms: int): (r: int)
    ensures 1 <= r <= MAX_DELAY
  {
    if 1 <= ms <= MAX_DELAY then ms else 1
  }

  function WarnDelay(c: Limits): nat {
    Delay(c.timeout - c.window)
  }

  function RollbackDelay(c: Limits): nat {
    Delay(c.window)
  }

  datatype Kind = Warning | Rollback

  datatype Timer = Timer(tab: Tab, kind: Kind, due: int, limits: Limits)

  /** Handlers that wait for the driver before they touch the timers. */
  datatype Op = Query(hasActiveTransaction: bool) | StartTransaction | Commit | RollbackByUser | Release | AutoRollback

  /** What happened, in order: the only part of the state that is kept for the statements alone. */
  datatype Event =
    | Armed(tab: Tab, at: int, limits: Limits)
    | Cleared(tab: Tab, at: int)
    | Warned(tab: Tab, at: int)
    | RollbackIssued(tab: Tab, at: int)
    | Lapsed(tab: Tab, at: int)

  datatype State = State(
    now: int,
    connection: Option<Limits>,
    transactionTimeouts: map<Tab, TimerId>,
    live: map<TimerId, Timer>,
    nextId: TimerId,
    waiting: multiset<(Tab, Op)>,
    log: seq<Event>)

  // ---- Atomic pieces of the handlers.

  function Clear(s: State, tab: Tab): State {
    var s' := s.(log := s.log + [Cleared(tab, s.now)]);
    if tab in s.transactionTimeouts then
      s'.(transactionTimeouts := s.transactionTimeouts - {tab}, live := s.live - {s.transactionTimeouts[tab]})
    else s'
  }

  function SetTimer(s: State, timer: Timer): State {
    s.(live := s.live[s.nextId := timer],
       transactionTimeouts := s.transactionTimeouts[timer.tab := s.nextId],
       nextId := s.nextId + 1)
  }

  function Arm(s: State, tab: Tab, c: Limits): State {
    SetTimer(s.(log := s.log + [Armed(tab, s.now, c)]), Timer(tab, Warning, s.now + WarnDelay(c), c))
  }

  /** Without a connection the old timer is gone before the connection type is read, which throws. */
  function CreateOrReset(s: State, tab: Tab, mustExist: bool): State {
    if mustExist && tab !in s.transactionTimeouts then s
    else
      var cleared := Clear(s, tab);
      match s.connection
      case None => cleared
      case Some(c) => Arm(cleared, tab, c)
  }

  /** The rest of a handler, once its driver call has succeeded. */
  function Continue(s: State, tab: Tab, op: Op): State {
    match op
    case Query(hasActiveTransaction) => CreateOrReset(s, tab, !hasActiveTransaction)
    case StartTransaction => CreateOrReset(s, tab, false)
    case Commit => Clear(s, tab)
    case RollbackByUser => Clear(s, tab)
    case Release => Clear(s, tab)
    case AutoRollback => Clear(s, tab)
  }

  /** A timer's callback up to its first await. */
  function Callback(s: State, timer: Timer): State {
    match timer.kind
    case Warning =>
      SetTimer(s.(log := s.log + [Warned(timer.tab, s.now)]),
               Timer(timer.tab, Rollback, s.now + RollbackDelay(timer.limits), timer.limits))
    case Rollback =>
      if s.connection.None? then s.(log := s.log + [Lapsed(timer.tab, s.now)])
      else s.(waiting := s.waiting + multiset{(timer.tab, AutoRollback)}, log := s.log + [RollbackIssued(timer.tab, s.now)])
  }

  datatype Step =
    | Begin(tab: Tab, op: Op)
    | Settle(tab: Tab, op: Op, ok: bool)
    | ResetTimeout(tab: Tab)
    | Fire(id: TimerId)
    | Tick(ms: nat)
    | SetConnection(connection: Option<Limits>)

  /** Driver calls settle at any moment after they began; timers fire at any moment from when they are due. */
  predicate Enabled(s: State, step: Step) {
    match step
    case Begin(_, op) => op != AutoRollback
    case Settle(tab, op, _) => (tab, op) in s.waiting
    case ResetTimeout(_) => true
    case Fire(id) => id in s.live && s.live[id].due <= s.now
    case Tick(_) => true
    case SetConnection(_) => true
  }

  function Next(s: State, step: Step): State
    requires Enabled(s, step)
  {
    match step
    case Begin(tab, op) => if s.connection.None? then s else s.(waiting := s.waiting + multiset{(tab, op)})
    case Settle(tab, op, ok) =>
      var s' := s.(waiting := s.waiting - multiset{(tab, op)});
      if ok then Continue(s', tab, op) else s'
    case ResetTimeout(tab) => CreateOrReset(s, tab, true)
    case Fire(id) => Callback(s.(live := s.live - {id}), s.live[id])
    case Tick(ms) => s.(now := s.now + ms)
    case SetConnection(c) => s.(connection := c)
  }

  function Exec(s: State, steps: seq<Step>): Option<State>
    decreases |steps|
  {
    if steps == [] then Some(s)
    else if Enabled(s, steps[0]) then Exec(Next(s, steps[0]), steps[1..])
    else None
  }

  function Initial(): State {
    State(0, None, map[], map[], 0, multiset{}, [])
  }

  // ---- What the log says about a tab.

  datatype Phase =
    | Idle
    | Counting(armedAt: int, limits: Limits)
    | AwaitingRollback(armedAt: int, warnedAt: int, limits: Limits)

  function Advance(p: Phase, e: Event): Phase {
    match e
    case Armed(_, at, c) => Counting(at, c)
    case Cleared(_, _) => Idle
    case Warned(_, at) => if p.Counting? then AwaitingRollback(p.armedAt, at, p.limits) else Idle
    case RollbackIssued(_, _) => Idle
    case Lapsed(_, _) => Idle
  }

  /** Armed and not yet warned, warned and not yet rolled back, or neither, going by the tab's own events. */
  function PhaseOf(log: seq<Event>, tab: Tab): Phase {
    if log == [] then Idle
    else
      var e, before := log[|log| - 1], PhaseOf(log[..|log| - 1], tab);
      if e.tab == tab then Advance(before, e) else before
  }

  lemma PhaseAppend(log: seq<Event>, e: Event)
    ensures forall tab :: PhaseOf(log + [e], tab) == if e.tab == tab then Advance(PhaseOf(log, tab), e) else PhaseOf(log, tab)
  {
    assert (log + [e])[..|log|] == log;
  }

  /** The last event is allowed by the log before it. */
  ghost predicate EventAllowed(before: seq<Event>, e: Event) {
    var p := PhaseOf(before, e.tab);
    match e
    case Armed(_, _, _) => true
    case Cleared(_, _) => true
    case Lapsed(_, _) => true
    case Warned(_, at) => p.Counting? && p.armedAt + WarnDelay(p.limits) <= at
    case RollbackIssued(_, at) =>
      && p.AwaitingRollback?
      && p.armedAt + WarnDelay(p.limits) <= p.warnedAt
      && p.warnedAt + RollbackDelay(p.limits) <= at
  }

  /**
   * Every rollback follows a warning, and that an arming, with both delays kept and neither a clear, another arming
   * nor another rollback of the tab in between.
   */
  ghost predicate Safe(log: seq<Event>) {
    forall k :: 0 <= k < |log| ==> EventAllowed(log[..k], log[k])
  }

  lemma SafeAppend(log: seq<Event>, e: Event)
    requires Safe(log) && EventAllowed(log, e)
    ensures Safe(log + [e])
  {
    forall k | 0 <= k < |log + [e]|
      ensures EventAllowed((log + [e])[..k], (log + [e])[k])
    {
      assert (log + [e])[..k] == log[..k];
      if k == |log| {
        assert log[..k] == log;
      }
    }
  }

  /** A live timer is the one in its tab's map entry, and it is due no sooner than the log says. */
  ghost predicate Justified(s: State, id: TimerId)
    requires id in s.live
  {
    var t := s.live[id];
    var p := PhaseOf(s.log, t.tab);
    && id < s.nextId
    && t.tab in s.transactionTimeouts && s.transactionTimeouts[t.tab] == id
    && match t.kind
       case Warning => p.Counting? && p.limits == t.limits && p.armedAt + WarnDelay(t.limits) <= t.due
       case Rollback =>
         && p.AwaitingRollback? && p.limits == t.limits
         && p.armedAt + WarnDelay(t.limits) <= p.warnedAt
         && p.warnedAt + RollbackDelay(t.limits) <= t.due
  }

  ghost predicate Inv(s: State) {
    && (forall id :: id in s.live ==> Justified(s, id))
    && (forall tab :: tab in s.transactionTimeouts ==> s.transactionTimeouts[tab] < s.nextId)
    && Safe(s.log)
  }

  lemma ClearKeeps(s: State, tab: Tab)
    requires Inv(s)
    ensures Inv(Clear(s, tab)) && forall id :: id in Clear(s, tab).live ==> Clear(s, tab).live[id].tab != tab
    ensures PhaseOf(Clear(s, tab).log, tab) == Idle
  {
    PhaseAppend(s.log, Cleared(tab, s.now));
    SafeAppend(s.log, Cleared(tab, s.now));
    var s' := Clear(s, tab);
    forall id | id in s'.live
      ensures s'.live[id].tab != tab && Justified(s', id)
    {
      assert Justified(s, id);
    }
  }

  /** A timer set for a tab with no other live timer, with its event logged, is justified. */
  lemma SetTimerKeeps(s: State, e: Event, timer: Timer)
    requires Inv(s) && EventAllowed(s.log, e) && e.tab == timer.tab
    requires forall id :: id in s.live ==> s.live[id].tab != timer.tab
    requires var p := Advance(PhaseOf(s.log, timer.tab), e);
      match timer.kind
      case Warning => p.Counting? && p.limits == timer.limits && p.armedAt + WarnDelay(timer.limits) <= timer.due
      case Rollback =>
        && p.AwaitingRollback? && p.limits == timer.limits
        && p.armedAt + WarnDelay(timer.limits) <= p.warnedAt
        && p.warnedAt + RollbackDelay(timer.limits) <= timer.due
    ensures Inv(SetTimer(s.(log := s.log + [e]), timer))
  {
    PhaseAppend(s.log, e);
    SafeAppend(s.log, e);
    var s' := SetTimer(s.(log := s.log + [e]), timer);
    forall id | id in s'.live
      ensures Justified(s', id)
    {
      if id != s.nextId {
        assert Justified(s, id);
      }
    }
  }

  lemma CreateOrResetKeeps(s: State, tab: Tab, mustExist: bool)
    requires Inv(s)
    ensures Inv(CreateOrReset(s, tab, mustExist))
  {
    hide Inv, PhaseOf, Safe;
    ClearKeeps(s, tab);
    if s.connection.Some? {
      var c := s.connection.value;
      assert EventAllowed(Clear(s, tab).log, Armed(tab, s.now, c));
      SetTimerKeeps(Clear(s, tab), Armed(tab, s.now, c), Timer(tab, Warning, s.now + WarnDelay(c), c));
    }
  }

  lemma DropTimer(s: State, id: TimerId)
    requires Inv(s) && id in s.live
    ensures Inv(s.(live := s.live - {id}))
    ensures forall other :: other in s.live - {id} ==> s.live[other].tab != s.live[id].tab
  {
    var s' := s.(live := s.live - {id});
    assert Justified(s, id);
    forall other | other in s'.live
      ensures Justified(s', other) && s'.live[other].tab != s.live[id].tab
    {
      assert Justified(s, other);
    }
  }

  lemma IssueKeeps(s: State, e: Event, waiting: multiset<(Tab, Op)>)
    requires Inv(s) && (e.RollbackIssued? || e.Lapsed?) && EventAllowed(s.log, e)
    requires forall id :: id in s.live ==> s.live[id].tab != e.tab
    ensures Inv(s.(waiting := waiting, log := s.log + [e]))
  {
    PhaseAppend(s.log, e);
    SafeAppend(s.log, e);
    var s' := s.(waiting := waiting, log := s.log + [e]);
    forall id | id in s'.live
      ensures Justified(s', id)
    {
      assert Justified(s, id);
    }
  }

  lemma FireKeeps(s: State, id: TimerId)
    requires Inv(s) && Enabled(s, Fire(id))
    ensures Inv(Next(s, Fire(id)))
  {
    var t, s' := s.live[id], s.(live := s.live - {id});
    assert Justified(s, id);
    DropTimer(s, id);
    hide Inv, PhaseOf, Safe;
    match t.kind
    case Warning =>
      SetTimerKeeps(s', Warned(t.tab, s.now), Timer(t.tab, Rollback, s.now + RollbackDelay(t.limits), t.limits));
    case Rollback =>
      if s.connection.None? {
        IssueKeeps(s', Lapsed(t.tab, s.now), s.waiting);
      } else {
        IssueKeeps(s', RollbackIssued(t.tab, s.now), s.waiting + multiset{(t.tab, AutoRollback)});
      }
  }

  lemma ContinueKeeps(s: State, tab: Tab, op: Op)
    requires Inv(s)
    ensures Inv(Continue(s, tab, op))
  {
    hide Inv, CreateOrReset, Clear;
    match op
    case Query(hasActiveTransaction) => CreateOrResetKeeps(s, tab, !hasActiveTransaction);
    case StartTransaction => CreateOrResetKeeps(s, tab, false);
    case Commit => ClearKeeps(s, tab);
    case RollbackByUser => ClearKeeps(s, tab);
    case Release => ClearKeeps(s, tab);
    case AutoRollback => ClearKeeps(s, tab);
  }

  lemma NextKeeps(s: State, step: Step)
    requires Inv(s) && Enabled(s, step)
    ensures Inv(Next(s, step))
  {
    hide Inv, CreateOrReset, Continue, Callback;
    match step
    case Begin(tab, op) => SameTimers(s, Next(s, step));
    case Settle(tab, op, ok) =>
      var s' := s.(waiting := s.waiting - multiset{(tab, op)});
      SameTimers(s, s');
      ContinueKeeps(s', tab, op);
    case ResetTimeout(tab) => CreateOrResetKeeps(s, tab, true);
    case Fire(id) => FireKeeps(s, id);
    case Tick(ms) => SameTimers(s, Next(s, step));
    case SetConnection(c) => SameTimers(s, Next(s, step));
  }

  lemma SameTimers(s: State, s': State)
    requires Inv(s)
    requires s'.live == s.live && s'.transactionTimeouts == s.transactionTimeouts && s'.nextId == s.nextId && s'.log == s.log
    ensures Inv(s')
  {
    forall id | id in s'.live
      ensures Justified(s', id)
    {
      assert Justified(s, id);
    }
  }

  /** In every interleaving every live timer is its tab's map entry, and every rollback in the log is due. */
  lemma {:induction false} RunKeeps(s: State, steps: seq<Step>)
    requires Inv(s) && Exec(s, steps).Some?
    ensures Inv(Exec(s, steps).value)
    ensures var t := Exec(s, steps).value;
      forall id :: id in t.live ==> t.live[id].tab in t.transactionTimeouts && t.transactionTimeouts[t.live[id].tab] == id
    decreases |steps|
  {
    if steps == [] {
      LiveInMap(s);
    } else {
      hide Inv, Next, Enabled;
      NextKeeps(s, steps[0]);
      RunKeeps(Next(s, steps[0]), steps[1..]);
    }
  }

  lemma LiveInMap(s: State)
    requires Inv(s)
    ensures forall id :: id in s.live ==> s.live[id].tab in s.transactionTimeouts && s.transactionTimeouts[s.live[id].tab] == id
  {
    forall id | id in s.live
      ensures s.live[id].tab in s.transactionTimeouts && s.transactionTimeouts[s.live[id].tab] == id
    {
      assert Justified(s, id);
    }
  }

  lemma AtMostOneLiveTimerPerTab(steps: seq<Step>, a: TimerId, b: TimerId)
    requires Exec(Initial(), steps).Some?
    requires var s := Exec(Initial(), steps).value; a in s.live && b in s.live && s.live[a].tab == s.live[b].tab
    ensures a == b
  {
    RunKeeps(Initial(), steps);
  }

  // ---- Who arms and who disarms.

  predicate Arms(op: Op) {
    op == StartTransaction || op == Query(true)
  }

  /** The tab has one live timer, the warning set at this moment for the full first delay, and counts as armed now. */
  ghost predicate ArmedNow(s: State, tab: Tab, c: Limits) {
    && tab in s.transactionTimeouts && s.transactionTimeouts[tab] in s.live
    && s.live[s.transactionTimeouts[tab]] == Timer(tab, Warning, s.now + WarnDelay(c), c)
    && (forall id :: id in s.live && s.live[id].tab == tab ==> id == s.transactionTimeouts[tab])
    && PhaseOf(s.log, tab) == Counting(s.now, c)
  }

  /** What arms does so at once, for the full first delay, and replaces whatever timer the tab had. */
  lemma ArmingReplaces(s: State, tab: Tab, op: Op)
    requires Inv(s) && Enabled(s, Settle(tab, op, true)) && Arms(op) && s.connection.Some?
    ensures ArmedNow(Next(s, Settle(tab, op, true)), tab, s.connection.value)
  {
    var s' := s.(waiting := s.waiting - multiset{(tab, op)});
    SameTimers(s, s');
    ClearKeeps(s', tab);
    SameClock(s', tab);
    SettledArms(s, tab, op);
    hide *;
    ArmArms(Clear(s', tab), tab, s.connection.value);
  }

  lemma SettledArms(s: State, tab: Tab, op: Op)
    requires Enabled(s, Settle(tab, op, true)) && Arms(op) && s.connection.Some?
    ensures Next(s, Settle(tab, op, true)) == Arm(Clear(s.(waiting := s.waiting - multiset{(tab, op)}), tab), tab, s.connection.value)
  {
    hide Clear, Arm;
  }

  /** The ways to keep a transaction alive: the request itself, or a query that is not inside one. */
  predicate Resets(step: Step, tab: Tab) {
    step == ResetTimeout(tab) || step == Settle(tab, Query(false), true)
  }

  lemma ResetRearms(s: State, tab: Tab)
    requires Inv(s) && tab in s.transactionTimeouts
    ensures var s' := CreateOrReset(s, tab, true);
      match s.connection
      case Some(c) => ArmedNow(s', tab, c)
      case None => tab !in s'.transactionTimeouts && forall id :: id in s'.live ==> s'.live[id].tab != tab
  {
    ClearKeeps(s, tab);
    hide Inv, Clear, Arm, ArmedNow;
    if s.connection.Some? {
      ArmArms(Clear(s, tab), tab, s.connection.value);
      SameClock(s, tab);
    }
  }

  lemma SameClock(s: State, tab: Tab)
    ensures Clear(s, tab).now == s.now && Clear(s, tab).connection == s.connection
  {
  }

  lemma ArmArms(s: State, tab: Tab, c: Limits)
    requires forall id :: id in s.live ==> s.live[id].tab != tab
    ensures ArmedNow(Arm(s, tab, c), tab, c)
  {
    hide WarnDelay;
    PhaseAppend(s.log, Armed(tab, s.now, c));
  }

  /**
   * Keeping a transaction alive starts the count again for a tab that has a timer, or takes the timer away if the
   * connection is gone; a tab without one it leaves as it was.
   */
  lemma ResetKeepsAlive(s: State, step: Step, tab: Tab)
    requires Inv(s) && Enabled(s, step) && Resets(step, tab)
    ensures var s' := Next(s, step);
      if tab !in s.transactionTimeouts then
        s'.transactionTimeouts == s.transactionTimeouts && s'.live == s.live && s'.log == s.log
      else match s.connection
           case Some(c) => ArmedNow(s', tab, c)
           case None => tab !in s'.transactionTimeouts && forall id :: id in s'.live ==> s'.live[id].tab != tab
  {
    var t := if step.Settle? then s.(waiting := s.waiting - multiset{(tab, Query(false))}) else s;
    SameTimers(s, t);
    assert Next(s, step) == CreateOrReset(t, tab, true);
    if tab in s.transactionTimeouts {
      hide Inv, CreateOrReset, ArmedNow;
      ResetRearms(t, tab);
    }
  }

  // ---- What leaves a tab's timer alone, and what a timer does that is left alone.

  /** A step about the tab that can change its timers: a call of its own that succeeded, a reset, or its timer. */
  ghost predicate Touches(s: State, step: Step, tab: Tab) {
    match step
    case Settle(other, _, ok) => ok && other == tab
    case ResetTimeout(other) => other == tab
    case Fire(id) => id in s.live && s.live[id].tab == tab
    case _ => false
  }

  /** The tab's entry, its live timers and what the log says about it are the same. */
  ghost predicate SameFor(s: State, s': State, tab: Tab) {
    && (tab in s.transactionTimeouts <==> tab in s'.transactionTimeouts)
    && (tab in s.transactionTimeouts ==> s'.transactionTimeouts[tab] == s.transactionTimeouts[tab])
    && (forall id :: id in s.live && s.live[id].tab == tab ==> id in s'.live && s'.live[id] == s.live[id])
    && (forall id :: id in s'.live && s'.live[id].tab == tab ==> id in s.live && s.live[id] == s'.live[id])
    && PhaseOf(s'.log, tab) == PhaseOf(s.log, tab)
  }

  lemma ClearSameFor(s: State, other: Tab, tab: Tab)
    requires Inv(s) && Timed(s) && other != tab
    ensures SameFor(s, Clear(s, other), tab)
  {
    PhaseAppend(s.log, Cleared(other, s.now));
    hide PhaseOf, Safe;
    forall id | id in s.live && s.live[id].tab == tab
      ensures id in Clear(s, other).live
    {
      assert Justified(s, id);
    }
  }

  lemma SetTimerSameFor(s: State, e: Event, timer: Timer, tab: Tab)
    requires Inv(s) && e.tab != tab && timer.tab != tab
    ensures SameFor(s, SetTimer(s.(log := s.log + [e]), timer), tab)
  {
    LiveBelow(s);
    PhaseAppend(s.log, e);
    hide Inv, PhaseOf;
  }

  lemma CreateOrResetSameFor(s: State, other: Tab, mustExist: bool, tab: Tab)
    requires Inv(s) && Timed(s) && other != tab
    ensures SameFor(s, CreateOrReset(s, other, mustExist), tab)
  {
    ClearKeeps(s, other);
    ClearSameFor(s, other, tab);
    hide Inv, Timed, Clear, Arm, SameFor;
    if mustExist && other !in s.transactionTimeouts {
      SameForItself(s, tab);
    } else if s.connection.Some? {
      ArmSameFor(Clear(s, other), other, s.connection.value, tab);
      SameForAll(s, Clear(s, other), Arm(Clear(s, other), other, s.connection.value), tab);
    }
  }

  lemma ArmSameFor(s: State, other: Tab, c: Limits, tab: Tab)
    requires Inv(s) && other != tab
    ensures SameFor(s, Arm(s, other, c), tab)
  {
    hide Inv, SameFor, WarnDelay;
    SetTimerSameFor(s, Armed(other, s.now, c), Timer(other, Warning, s.now + WarnDelay(c), c), tab);
  }

  lemma SameForItself(s: State, tab: Tab)
    ensures SameFor(s, s, tab)
  {
  }

  lemma SameForAll(a: State, b: State, c: State, tab: Tab)
    requires SameFor(a, b, tab) && SameFor(b, c, tab)
    ensures SameFor(a, c, tab)
  {
  }

  lemma DropSameFor(s: State, id: TimerId, tab: Tab)
    requires id in s.live && s.live[id].tab != tab
    ensures SameFor(s, s.(live := s.live - {id}), tab)
  {
    hide PhaseOf;
  }

  lemma LogSameFor(s: State, e: Event, waiting: multiset<(Tab, Op)>, tab: Tab)
    requires e.tab != tab
    ensures SameFor(s, s.(waiting := waiting, log := s.log + [e]), tab)
  {
    PhaseAppend(s.log, e);
    hide PhaseOf;
  }

  lemma CallbackSameFor(s: State, timer: Timer, tab: Tab)
    requires Inv(s) && timer.tab != tab
    ensures SameFor(s, Callback(s, timer), tab)
  {
    hide Inv, SetTimer, SameFor, RollbackDelay;
    if timer.kind == Warning {
      SetTimerSameFor(s, Warned(timer.tab, s.now), Timer(timer.tab, Rollback, s.now + RollbackDelay(timer.limits), timer.limits), tab);
    } else {
      LogSameFor(s, Lapsed(timer.tab, s.now), s.waiting, tab);
      LogSameFor(s, RollbackIssued(timer.tab, s.now), s.waiting + multiset{(timer.tab, AutoRollback)}, tab);
    }
  }

  lemma FireSameFor(s: State, id: TimerId, tab: Tab)
    requires Inv(s) && Enabled(s, Fire(id)) && s.live[id].tab != tab
    ensures SameFor(s, Next(s, Fire(id)), tab)
  {
    var timer, s' := s.live[id], s.(live := s.live - {id});
    DropTimer(s, id);
    DropSameFor(s, id, tab);
    hide Inv, Callback, SameFor;
    CallbackSameFor(s', timer, tab);
    SameForAll(s, s', Callback(s', timer), tab);
  }

  lemma ContinueSameFor(s: State, other: Tab, op: Op, tab: Tab)
    requires Inv(s) && Timed(s) && other != tab
    ensures SameFor(s, Continue(s, other, op), tab)
  {
    ClearSameFor(s, other, tab);
    CreateOrResetSameFor(s, other, true, tab);
    CreateOrResetSameFor(s, other, false, tab);
    hide Inv, Timed, PhaseOf, Clear, CreateOrReset, SameFor;
  }

  lemma SettleSameFor(s: State, other: Tab, op: Op, ok: bool, tab: Tab)
    requires Inv(s) && Timed(s) && Enabled(s, Settle(other, op, ok)) && !(ok && other == tab)
    ensures SameFor(s, Next(s, Settle(other, op, ok)), tab)
  {
    var s' := s.(waiting := s.waiting - multiset{(other, op)});
    SameTimers(s, s');
    assert Timed(s');
    hide Inv, Timed, PhaseOf, Continue;
    if ok {
      ContinueSameFor(s', other, op, tab);
    }
  }

  lemma StepLeavesAlone(s: State, step: Step, tab: Tab)
    requires Inv(s) && Timed(s) && Enabled(s, step) && !Touches(s, step, tab)
    ensures SameFor(s, Next(s, step), tab)
  {
    hide Inv, Timed, PhaseOf, CreateOrReset, Continue, Callback;
    match step
    case Begin(_, _) =>
    case Settle(other, op, ok) => SettleSameFor(s, other, op, ok, tab);
    case ResetTimeout(other) => CreateOrResetSameFor(s, other, true, tab);
    case Fire(id) => FireSameFor(s, id, tab);
    case Tick(_) =>
    case SetConnection(_) =>
  }

  /** No step of the run touches the tab. */
  ghost predicate LeftAlone(s: State, steps: seq<Step>, tab: Tab)
    requires Exec(s, steps).Some?
    decreases |steps|
  {
    steps == [] || (!Touches(s, steps[0], tab) && LeftAlone(Next(s, steps[0]), steps[1..], tab))
  }

  /**
   * Other tabs, failed calls, calls that begin, time and changes of the connection leave a tab's timer as it is, over
   * every run.
   */
  lemma {:induction false} RunLeavesAlone(s: State, steps: seq<Step>, tab: Tab)
    requires Inv(s) && Timed(s) && Exec(s, steps).Some? && LeftAlone(s, steps, tab)
    ensures SameFor(s, Exec(s, steps).value, tab)
    decreases |steps|
  {
    hide Inv, Timed, Next, Enabled, Touches, PhaseOf;
    if steps != [] {
      NextKeeps(s, steps[0]);
      NextTimed(s, steps[0]);
      StepLeavesAlone(s, steps[0], tab);
      RunLeavesAlone(Next(s, steps[0]), steps[1..], tab);
    }
  }

  /** What a due timer does, whatever else is going on. */
  ghost predicate FiringDone(s: State, timer: Timer, s': State) {
    match timer.kind
    case Warning =>
      && timer.tab in s'.transactionTimeouts && s'.transactionTimeouts[timer.tab] in s'.live
      && s'.live[s'.transactionTimeouts[timer.tab]] == Timer(timer.tab, Rollback, s.now + RollbackDelay(timer.limits), timer.limits)
      && s'.waiting == s.waiting && s'.log == s.log + [Warned(timer.tab, s.now)]
    case Rollback =>
      && (forall id :: id in s'.live ==> s'.live[id].tab != timer.tab)
      && if s.connection.Some? then
           s'.waiting == s.waiting + multiset{(timer.tab, AutoRollback)} && s'.log == s.log + [RollbackIssued(timer.tab, s.now)]
         else s'.waiting == s.waiting && s'.log == s.log + [Lapsed(timer.tab, s.now)]
  }

  lemma FiringDoes(s: State, id: TimerId)
    requires Inv(s) && Enabled(s, Fire(id))
    ensures FiringDone(s, s.live[id], Next(s, Fire(id)))
  {
    DropTimer(s, id);
    hide Inv, RollbackDelay;
  }

  /**
   * A tab that is armed and then left alone is warned and rolled back: in any run that leaves it alone its timer stays,
   * can fire as soon as it is due, and then warns and sets the second timer, or issues the rollback. Every live timer
   * is one of the two.
   */
  lemma LeftAloneRollsBack(s: State, steps: seq<Step>, id: TimerId)
    requires Inv(s) && Timed(s) && id in s.live && Exec(s, steps).Some? && LeftAlone(s, steps, s.live[id].tab)
    ensures var t := Exec(s, steps).value;
      && id in t.live && t.live[id] == s.live[id]
      && (s.live[id].due <= t.now ==> Enabled(t, Fire(id)) && FiringDone(t, s.live[id], Next(t, Fire(id))))
  {
    RunKeeps(s, steps);
    RunLeavesAlone(s, steps, s.live[id].tab);
    var t := Exec(s, steps).value;
    hide Inv, Exec, FiringDone, Next;
    if s.live[id].due <= t.now {
      FiringDoes(t, id);
    }
  }

  // ---- Every call that comes back was made.

  /** How often a run makes the call: handlers when there is a connection, rollbacks by their timer. */
  ghost function Calls(s: State, steps: seq<Step>, tab: Tab, op: Op): nat
    requires Exec(s, steps).Some?
    decreases |steps|
  {
    if steps == [] then 0
    else (if MakesCall(s, steps[0], tab, op) then 1 else 0) + Calls(Next(s, steps[0]), steps[1..], tab, op)
  }

  ghost predicate MakesCall(s: State, step: Step, tab: Tab, op: Op) {
    && s.connection.Some?
    && match step
       case Begin(t, o) => t == tab && o == op
       case Fire(id) => op == AutoRollback && id in s.live && s.live[id].tab == tab && s.live[id].kind == Rollback
       case _ => false
  }

  function Answers(steps: seq<Step>, tab: Tab, op: Op): nat {
    if steps == [] then 0
    else (if steps[0].Settle? && steps[0].tab == tab && steps[0].op == op then 1 else 0) + Answers(steps[1..], tab, op)
  }

  lemma StepBalances(s: State, step: Step, tab: Tab, op: Op)
    requires Enabled(s, step)
    ensures Next(s, step).waiting[(tab, op)] + (if step.Settle? && step.tab == tab && step.op == op then 1 else 0)
         == s.waiting[(tab, op)] + if MakesCall(s, step, tab, op) then 1 else 0
  {
    hide Continue, CreateOrReset, Callback;
    match step
    case Settle(other, o, ok) => SameWaiting(s.(waiting := s.waiting - multiset{(other, o)}), other, o);
    case ResetTimeout(other) => SameWaiting(s, other, Query(false));
    case Fire(id) => FireBalances(s, id, tab, op);
    case _ =>
  }

  lemma FireBalances(s: State, id: TimerId, tab: Tab, op: Op)
    requires Enabled(s, Fire(id))
    ensures Next(s, Fire(id)).waiting[(tab, op)] == s.waiting[(tab, op)] + if MakesCall(s, Fire(id), tab, op) then 1 else 0
  {
    hide RollbackDelay;
  }

  lemma SameWaiting(s: State, tab: Tab, op: Op)
    ensures Continue(s, tab, op).waiting == s.waiting && CreateOrReset(s, tab, true).waiting == s.waiting
  {
    hide WarnDelay;
  }

  /** What waits for the driver is what was called and has not come back, over every run and for every kind of call. */
  lemma {:induction false} CallsBalance(s: State, steps: seq<Step>, tab: Tab, op: Op)
    requires Exec(s, steps).Some?
    ensures Exec(s, steps).value.waiting[(tab, op)] + Answers(steps, tab, op) == s.waiting[(tab, op)] + Calls(s, steps, tab, op)
    decreases |steps|
  {
    hide Next, Enabled, MakesCall;
    if steps != [] {
      StepBalances(s, steps[0], tab, op);
      CallsBalance(Next(s, steps[0]), steps[1..], tab, op);
    }
  }

  /** A commit, rollback or release leaves the tab without a timer. */
  lemma EndingDisarms(s: State, tab: Tab, op: Op)
    requires Inv(s) && Enabled(s, Settle(tab, op, true)) && !op.Query? && op != StartTransaction
    ensures var s' := Next(s, Settle(tab, op, true));
      tab !in s'.transactionTimeouts && forall id :: id in s'.live ==> s'.live[id].tab != tab
  {
    NextKeeps(s, Settle(tab, op, true));
    LiveInMap(Next(s, Settle(tab, op, true)));
  }

  ghost predicate ArmsTab(step: Step, tab: Tab) {
    step.Settle? && step.ok && step.tab == tab && Arms(step.op)
  }

  /** From position `from` on the log holds nothing about the tab but clears. */
  ghost predicate QuietSince(log: seq<Event>, from: nat, tab: Tab) {
    from <= |log| && forall k :: from <= k < |log| && log[k].tab == tab ==> log[k].Cleared?
  }

  lemma ResetQuiet(s: State, tab: Tab, other: Tab, mustExist: bool)
    requires tab !in s.transactionTimeouts && (other == tab ==> mustExist)
    ensures var s' := CreateOrReset(s, other, mustExist);
      tab !in s'.transactionTimeouts && s.log <= s'.log && QuietSince(s'.log, |s.log|, tab)
  {
  }

  lemma QuietFire(s: State, id: TimerId, tab: Tab)
    requires Enabled(s, Fire(id)) && s.live[id].tab != tab && tab !in s.transactionTimeouts
    ensures var s' := Next(s, Fire(id));
      tab !in s'.transactionTimeouts && s.log <= s'.log && QuietSince(s'.log, |s.log|, tab)
  {
    hide RollbackDelay;
  }

  lemma QuietSettle(s: State, other: Tab, op: Op, ok: bool, tab: Tab)
    requires Enabled(s, Settle(other, op, ok)) && !ArmsTab(Settle(other, op, ok), tab) && tab !in s.transactionTimeouts
    ensures var s' := Next(s, Settle(other, op, ok));
      tab !in s'.transactionTimeouts && s.log <= s'.log && QuietSince(s'.log, |s.log|, tab)
  {
    hide CreateOrReset;
    var s' := s.(waiting := s.waiting - multiset{(other, op)});
    if ok && (op.Query? || op == StartTransaction) {
      ResetQuiet(s', tab, other, op.Query? && !op.hasActiveTransaction);
    }
  }

  lemma QuietStep(s: State, step: Step, tab: Tab)
    requires Inv(s) && Enabled(s, step) && tab !in s.transactionTimeouts && !ArmsTab(step, tab)
    ensures var s' := Next(s, step);
      tab !in s'.transactionTimeouts && s.log <= s'.log && QuietSince(s'.log, |s.log|, tab)
  {
    LiveInMap(s);
    hide Inv, CreateOrReset, Callback, Continue;
    match step
    case Begin(_, _) =>
    case Settle(other, op, ok) => QuietSettle(s, other, op, ok, tab);
    case ResetTimeout(other) => ResetQuiet(s, tab, other, true);
    case Fire(id) => QuietFire(s, id, tab);
    case Tick(_) =>
    case SetConnection(_) =>
  }

  /** A tab without a timer stays without one, and nothing is warned or rolled back, until something arms it. */
  lemma {:induction false} QuietRun(s: State, steps: seq<Step>, tab: Tab)
    requires Inv(s) && Exec(s, steps).Some? && tab !in s.transactionTimeouts
    requires forall k :: 0 <= k < |steps| ==> !ArmsTab(steps[k], tab)
    ensures var t := Exec(s, steps).value;
      tab !in t.transactionTimeouts && s.log <= t.log && QuietSince(t.log, |s.log|, tab)
    decreases |steps|
  {
    hide Inv, Next, Enabled, ArmsTab;
    if steps != [] {
      NextKeeps(s, steps[0]);
      QuietStep(s, steps[0], tab);
      QuietRun(Next(s, steps[0]), steps[1..], tab);
      var u, t := Next(s, steps[0]), Exec(s, steps).value;
      forall k | |s.log| <= k < |t.log| && t.log[k].tab == tab
        ensures t.log[k].Cleared?
      {
        assert k < |u.log| ==> t.log[k] == u.log[k];
      }
    }
  }

  /**
   * Once a commit, rollback or release has succeeded, no run warns of or issues a rollback of the tab, nor gives it a
   * live timer, before a transaction starts or a query runs inside one.
   */
  lemma NoRollbackAfterEnding(s: State, tab: Tab, op: Op, steps: seq<Step>)
    requires Inv(s) && Enabled(s, Settle(tab, op, true)) && !op.Query? && op != StartTransaction
    requires Exec(Next(s, Settle(tab, op, true)), steps).Some?
    requires forall k :: 0 <= k < |steps| ==> !ArmsTab(steps[k], tab)
    ensures var s' := Next(s, Settle(tab, op, true));
      var t := Exec(s', steps).value;
      QuietSince(t.log, |s'.log|, tab) && forall id :: id in t.live ==> t.live[id].tab != tab
  {
    var s' := Next(s, Settle(tab, op, true));
    EndingDisarms(s, tab, op);
    NextKeeps(s, Settle(tab, op, true));
    hide Inv, Next;
    QuietRun(s', steps, tab);
    RunKeeps(s', steps);
  }

  // ---- The timeout is kept, exactly when the two delays add up to it.

  /** The delays, as `setTimeout` takes them, last at least the configured timeout. */
  predicate Patient(c: Limits) {
    c.timeout <= WarnDelay(c) + RollbackDelay(c)
  }

  /** Both delays fit a timer, and the warning comes first. */
  predicate Fits(c: Limits) {
    1 <= c.window <= MAX_DELAY && 1 <= c.timeout - c.window <= MAX_DELAY
  }

  /** Limits that fit are kept to the millisecond: the warning comes its window ahead of the timeout, the rollback at it. */
  lemma FittingLimitsAreExact(c: Limits)
    requires Fits(c)
    ensures Patient(c) && Exec(Initial(), Impatient(c)).Some?
    ensures Exec(Initial(), Impatient(c)).value.log
         == [Cleared(1, 0), Armed(1, 0, c), Warned(1, c.timeout - c.window), RollbackIssued(1, c.timeout)]
  {
    ImpatientRun(c);
    hide Exec;
  }

  /** Delays that fit 31 bits are taken as they are, others are none. */
  lemma DelaysTaken(ms: int)
    ensures 1 <= ms <= 2_147_483_647 ==> Delay(ms) == ms
    ensures ms < 1 || 2_147_483_647 < ms ==> Delay(ms) == 1
  {
  }

  /** A timeout of three million seconds with a window of a minute: the warning is due after a millisecond. */
  lemma HugeTimeoutIsImpatient()
    ensures var c := Limits(3_000_000_000, 60_000); !Patient(c) && WarnDelay(c) + RollbackDelay(c) == 60_001
  {
  }

  /** No rollback of a transaction armed under `c` is issued before its timeout has passed since the last arming. */
  ghost predicate NeverEarly(log: seq<Event>, c: Limits) {
    forall k :: 0 <= k < |log| && log[k].RollbackIssued? ==>
      var p := PhaseOf(log[..k], log[k].tab);
      && p.AwaitingRollback?
      && (p.limits == c ==> p.armedAt + c.timeout <= log[k].at)
  }

  lemma RollbackNeverEarly(steps: seq<Step>, c: Limits)
    requires Exec(Initial(), steps).Some? && Patient(c)
    ensures NeverEarly(Exec(Initial(), steps).value.log, c)
  {
    RunKeeps(Initial(), steps);
    var log := Exec(Initial(), steps).value.log;
    forall k | 0 <= k < |log| && log[k].RollbackIssued?
      ensures var p := PhaseOf(log[..k], log[k].tab);
        p.AwaitingRollback? && (p.limits == c ==> p.armedAt + c.timeout <= log[k].at)
    {
      assert EventAllowed(log[..k], log[k]);
    }
  }

  /** The shortest way to a rollback: start a transaction and let both timers fire as soon as they may. */
  function Impatient(c: Limits): seq<Step> {
    [SetConnection(Some(c)), Begin(1, StartTransaction), Settle(1, StartTransaction, true),
     Tick(WarnDelay(c)), Fire(0), Tick(RollbackDelay(c)), Fire(1)]
  }

  ghost predicate Moves(s: State, step: Step, s': State) {
    Enabled(s, step) && Next(s, step) == s'
  }

  lemma ExecAt(s: State, steps: seq<Step>, k: nat, s': State)
    requires k < |steps| && Moves(s, steps[k], s')
    ensures Exec(s, steps[k..]) == Exec(s', steps[k + 1..])
  {
    assert steps[k..][1..] == steps[k + 1..];
  }

  function JustArmed(c: Limits): State {
    State(0, Some(c), map[1 := 0], map[0 := Timer(1, Warning, WarnDelay(c), c)], 1, multiset{}, [Cleared(1, 0), Armed(1, 0, c)])
  }

  function JustWarned(c: Limits): State {
    var w := WarnDelay(c);
    State(w, Some(c), map[1 := 1], map[1 := Timer(1, Rollback, w + RollbackDelay(c), c)], 2, multiset{},
          [Cleared(1, 0), Armed(1, 0, c), Warned(1, w)])
  }

  function JustIssued(c: Limits): State {
    var at := WarnDelay(c) + RollbackDelay(c);
    State(at, Some(c), map[1 := 1], map[], 2, multiset{(1, AutoRollback)},
          [Cleared(1, 0), Armed(1, 0, c), Warned(1, WarnDelay(c)), RollbackIssued(1, at)])
  }

  lemma ArmingMoves(c: Limits)
    ensures Moves(Initial().(connection := Some(c), waiting := multiset{(1, StartTransaction)}),
                  Settle(1, StartTransaction, true), JustArmed(c))
  {
    var s := Initial().(connection := Some(c));
    assert multiset{(1, StartTransaction)} - multiset{(1, StartTransaction)} == multiset{};
    assert CreateOrReset(s, 1, false) == JustArmed(c);
  }

  lemma WarningMoves(c: Limits)
    ensures Moves(JustArmed(c).(now := WarnDelay(c)), Fire(0), JustWarned(c))
  {
    var s := JustArmed(c).(now := WarnDelay(c));
    assert s.live - {0} == map[];
    assert s.transactionTimeouts[1 := 1] == map[1 := 1];
    assert s.log + [Warned(1, WarnDelay(c))] == JustWarned(c).log;
  }

  lemma StartingMoves(c: Limits)
    ensures var s := Initial().(connection := Some(c));
      && Moves(Initial(), SetConnection(Some(c)), s)
      && Moves(s, Begin(1, StartTransaction), s.(waiting := multiset{(1, StartTransaction)}))
  {
    assert multiset{} + multiset{(1, StartTransaction)} == multiset{(1, StartTransaction)};
    assert Moves(Initial(), SetConnection(Some(c)), Initial().(connection := Some(c)));
  }

  lemma TickMoves(s: State, ms: nat)
    ensures Moves(s, Tick(ms), s.(now := s.now + ms))
  {
  }

  lemma RollbackMoves(c: Limits)
    ensures var s := JustWarned(c).(now := WarnDelay(c) + RollbackDelay(c));
      Moves(s, Fire(1), s.(live := s.live - {1}, waiting := multiset{(1, AutoRollback)}, log := s.log + [RollbackIssued(1, s.now)]))
  {
    assert multiset{} + multiset{(1, AutoRollback)} == multiset{(1, AutoRollback)};
  }

  lemma ImpatientRun(c: Limits)
    ensures Exec(Initial(), Impatient(c)).Some?
    ensures Exec(Initial(), Impatient(c)).value == JustIssued(c)
  {
    hide Exec, Moves, WarnDelay, RollbackDelay;
    var w, r := WarnDelay(c), RollbackDelay(c);
    var s1 := Initial().(connection := Some(c));
    var s2 := s1.(waiting := multiset{(1, StartTransaction)});
    var s4 := JustArmed(c).(now := w);
    var s6 := JustWarned(c).(now := w + r);
    var s7 := s6.(live := s6.live - {1}, waiting := multiset{(1, AutoRollback)}, log := s6.log + [RollbackIssued(1, w + r)]);
    StartingMoves(c);
    ArmingMoves(c);
    TickMoves(JustArmed(c), w);
    WarningMoves(c);
    TickMoves(JustWarned(c), r);
    RollbackMoves(c);
    var steps := Impatient(c);
    assert steps[0..] == steps;
    ExecAt(Initial(), steps, 0, s1);
    ExecAt(s1, steps, 1, s2);
    ExecAt(s2, steps, 2, JustArmed(c));
    ExecAt(JustArmed(c), steps, 3, s4);
    ExecAt(s4, steps, 4, JustWarned(c));
    ExecAt(JustWarned(c), steps, 5, s6);
    ExecAt(s6, steps, 6, s7);
    assert steps[7..] == [];
    ExecDone(s7);
    assert s6.live - {1} == map[];
  }

  lemma ExecDone(s: State)
    ensures Exec(s, []) == Some(s)
  {
  }

  /**
   * The timeout is kept in every run if and only if the limits are patient. Delays that fit a timer are enough for
   * that; the window may be as long as it likes otherwise, even above the timeout.
   */
  lemma NeverEarlyIffPatient(c: Limits)
    ensures c.window <= MAX_DELAY && c.timeout - c.window <= MAX_DELAY ==> Patient(c)
    ensures Patient(c) <==> forall steps :: Exec(Initial(), steps).Some? ==> NeverEarly(Exec(Initial(), steps).value.log, c)
  {
    if Patient(c) {
      forall steps | Exec(Initial(), steps).Some?
        ensures NeverEarly(Exec(Initial(), steps).value.log, c)
      {
        RollbackNeverEarly(steps, c);
      }
    } else {
      ImpatientRun(c);
      var log := Exec(Initial(), Impatient(c)).value.log;
      var log3 := [Cleared(1, 0), Armed(1, 0, c), Warned(1, WarnDelay(c))];
      assert log[..3] == log3;
      PhaseAppend([], Cleared(1, 0));
      PhaseAppend([Cleared(1, 0)], Armed(1, 0, c));
      PhaseAppend([Cleared(1, 0), Armed(1, 0, c)], Warned(1, WarnDelay(c)));
      assert [Cleared(1, 0)] + [Armed(1, 0, c)] == [Cleared(1, 0), Armed(1, 0, c)];
      assert [Cleared(1, 0), Armed(1, 0, c)] + [Warned(1, WarnDelay(c))] == log3;
      assert PhaseOf(log3, 1) == AwaitingRollback(0, WarnDelay(c), c);
      assert !NeverEarly(log, c);
    }
  }

  // ---- A timer may be lost: what the clear after an awaited rollback hits.

  ghost predicate HasLive(s: State, tab: Tab) {
    tab in s.transactionTimeouts && s.transactionTimeouts[tab] in s.live
  }

  /** What is armed or warned has a live timer of its own. */
  ghost predicate Timed(s: State) {
    && (forall tab :: tab in s.transactionTimeouts && s.transactionTimeouts[tab] in s.live ==> s.live[s.transactionTimeouts[tab]].tab == tab)
    && (forall tab :: PhaseOf(s.log, tab) != Idle ==> HasLive(s, tab))
  }

  lemma ClearTimed(s: State, tab: Tab)
    requires Inv(s) && Timed(s)
    ensures Timed(Clear(s, tab))
  {
    PhaseAppend(s.log, Cleared(tab, s.now));
    hide Inv, PhaseOf;
    var s' := Clear(s, tab);
    forall other | PhaseOf(s'.log, other) != Idle
      ensures HasLive(s', other)
    {
      assert other != tab && HasLive(s, other);
    }
  }

  lemma SetTimed(s: State, e: Event, timer: Timer)
    requires Inv(s) && Timed(s) && e.tab == timer.tab
    ensures Timed(SetTimer(s.(log := s.log + [e]), timer))
  {
    LiveBelow(s);
    PhaseAppend(s.log, e);
    hide Inv, PhaseOf;
    var s' := SetTimer(s.(log := s.log + [e]), timer);
    forall other | PhaseOf(s'.log, other) != Idle
      ensures HasLive(s', other)
    {
      assert other != timer.tab ==> HasLive(s, other);
    }
  }

  lemma LiveBelow(s: State)
    requires Inv(s)
    ensures forall id :: id in s.live ==> id < s.nextId
    ensures forall tab :: tab in s.transactionTimeouts ==> s.transactionTimeouts[tab] < s.nextId
  {
    forall id | id in s.live
      ensures id < s.nextId
    {
      assert Justified(s, id);
    }
  }

  lemma ArmTimed(s: State, tab: Tab, c: Limits)
    requires Inv(s) && Timed(s)
    ensures Timed(Arm(s, tab, c))
  {
    hide Inv, Timed, WarnDelay;
    SetTimed(s, Armed(tab, s.now, c), Timer(tab, Warning, s.now + WarnDelay(c), c));
  }

  lemma CreateOrResetTimed(s: State, tab: Tab, mustExist: bool)
    requires Inv(s) && Timed(s)
    ensures Timed(CreateOrReset(s, tab, mustExist))
  {
    ClearKeeps(s, tab);
    ClearTimed(s, tab);
    hide Inv, Timed, Clear, Arm;
    if s.connection.Some? {
      ArmTimed(Clear(s, tab), tab, s.connection.value);
    }
  }

  /** A timer that fires is gone; the phase of its tab goes with it, or to the timer set in its place. */
  lemma FireTimed(s: State, id: TimerId)
    requires Inv(s) && Timed(s) && Enabled(s, Fire(id))
    ensures Timed(Next(s, Fire(id)))
  {
    assert Justified(s, id);
    DropTimer(s, id);
    var t, s' := s.live[id], s.(live := s.live - {id});
    var e := if t.kind == Warning then Warned(t.tab, s.now)
             else if s.connection.None? then Lapsed(t.tab, s.now) else RollbackIssued(t.tab, s.now);
    PhaseAppend(s.log, e);
    LiveBelow(s');
    hide Inv, PhaseOf, RollbackDelay;
    var next := Next(s, Fire(id));
    forall other | PhaseOf(next.log, other) != Idle
      ensures HasLive(next, other)
    {
      if other != t.tab {
        assert HasLive(s, other);
      }
    }
  }

  lemma NextTimed(s: State, step: Step)
    requires Inv(s) && Timed(s) && Enabled(s, step)
    ensures Timed(Next(s, step))
  {
    match step
    case Fire(id) => FireTimed(s, id);
    case ResetTimeout(tab) => CreateOrResetTimed(s, tab, true);
    case Settle(tab, op, ok) =>
      var s' := s.(waiting := s.waiting - multiset{(tab, op)});
      SameTimers(s, s');
      assert Timed(s');
      ClearTimed(s', tab);
      CreateOrResetTimed(s', tab, true);
      CreateOrResetTimed(s', tab, false);
      hide Inv, Timed, Clear, CreateOrReset;
    case Begin(_, _) =>
    case Tick(_) =>
    case SetConnection(_) =>
  }

  lemma {:induction false} RunTimed(s: State, steps: seq<Step>)
    requires Inv(s) && Timed(s) && Exec(s, steps).Some?
    ensures Timed(Exec(s, steps).value)
    decreases |steps|
  {
    hide Inv, Timed, Next, Enabled;
    if steps != [] {
      NextKeeps(s, steps[0]);
      NextTimed(s, steps[0]);
      RunTimed(Next(s, steps[0]), steps[1..]);
    }
  }

  /** The tab was armed, and neither cleared nor rolled back since. */
  ghost predicate ArmedSince(log: seq<Event>, tab: Tab) {
    exists k :: 0 <= k < |log| && log[k].Armed? && log[k].tab == tab
      && forall n :: k < n < |log| && log[n].tab == tab ==> log[n].Armed? || log[n].Warned?
  }

  lemma {:induction false} PhaseIffArmed(log: seq<Event>, tab: Tab)
    requires Safe(log)
    ensures PhaseOf(log, tab) != Idle <==> ArmedSince(log, tab)
  {
    if log != [] {
      var before, e := log[..|log| - 1], log[|log| - 1];
      assert log == before + [e];
      assert EventAllowed(log[..|before|], log[|before|]) && log[..|before|] == before;
      forall k | 0 <= k < |before|
        ensures EventAllowed(before[..k], before[k])
      {
        assert EventAllowed(log[..k], log[k]) && before[..k] == log[..k];
      }
      PhaseIffArmed(before, tab);
      PhaseAppend(before, e);
      ArmedAppend(before, e, tab);
      hide PhaseOf, Safe, ArmedSince;
    }
  }

  lemma ArmedAppend(log: seq<Event>, e: Event, tab: Tab)
    ensures ArmedSince(log + [e], tab)
       <==> if e.tab != tab || e.Warned? then ArmedSince(log, tab) else e.Armed?
  {
    var all := log + [e];
    assert all[|log|] == e;
    if ArmedSince(all, tab) {
      var k :| 0 <= k < |all| && all[k].Armed? && all[k].tab == tab
               && forall n :: k < n < |all| && all[n].tab == tab ==> all[n].Armed? || all[n].Warned?;
      assert k < |log| ==> log[k] == all[k];
      assert forall n :: k < n < |log| ==> log[n] == all[n];
    }
    if ArmedSince(log, tab) {
      var k :| 0 <= k < |log| && log[k].Armed? && log[k].tab == tab
               && forall n :: k < n < |log| && log[n].tab == tab ==> log[n].Armed? || log[n].Warned?;
      assert all[k] == log[k];
      assert forall n :: k < n < |log| ==> log[n] == all[n];
    }
  }

  /**
   * In every run the end of an automatic rollback takes a live timer away from its tab if and only if the tab has been
   * armed since it was last cleared or rolled back.
   */
  lemma RollbackDisarmsIff(steps: seq<Step>, tab: Tab)
    requires Exec(Initial(), steps).Some? && Enabled(Exec(Initial(), steps).value, Settle(tab, AutoRollback, true))
    ensures var s := Exec(Initial(), steps).value;
      && (HasLive(s, tab) <==> ArmedSince(s.log, tab))
      && !HasLive(Next(s, Settle(tab, AutoRollback, true)), tab)
  {
    RunKeeps(Initial(), steps);
    RunTimed(Initial(), steps);
    var s := Exec(Initial(), steps).value;
    PhaseIffArmed(s.log, tab);
    if HasLive(s, tab) {
      assert Justified(s, s.transactionTimeouts[tab]);
    }
    hide Inv, PhaseOf, Exec;
  }

  /** The tab is armed again while its rollback is under way. */
  function Rearmed(c: Limits): State {
    var s := JustIssued(c);
    State(s.now, Some(c), map[1 := 2], map[2 := Timer(1, Warning, s.now + WarnDelay(c), c)], 3, multiset{(1, AutoRollback)},
          s.log + [Cleared(1, s.now), Armed(1, s.now, c)])
  }

  lemma RearmingMoves(c: Limits)
    ensures var s := JustIssued(c);
      && Moves(s, Begin(1, StartTransaction), s.(waiting := multiset{(1, AutoRollback), (1, StartTransaction)}))
      && Moves(s.(waiting := multiset{(1, AutoRollback), (1, StartTransaction)}), Settle(1, StartTransaction, true), Rearmed(c))
  {
    var s := JustIssued(c);
    assert multiset{(1, AutoRollback)} + multiset{(1, StartTransaction)} == multiset{(1, AutoRollback), (1, StartTransaction)};
    assert multiset{(1, AutoRollback), (1, StartTransaction)} - multiset{(1, StartTransaction)} == multiset{(1, AutoRollback)};
    hide WarnDelay, RollbackDelay;
    assert CreateOrReset(s, 1, false) == Rearmed(c);
  }

  lemma {:induction false} ExecConcat(s: State, a: seq<Step>, b: seq<Step>)
    requires Exec(s, a).Some?
    ensures Exec(s, a + b) == Exec(Exec(s, a).value, b)
    decreases |a|
  {
    if a == [] {
      assert a + b == b;
    } else {
      assert (a + b)[1..] == a[1..] + b;
      ExecConcat(Next(s, a[0]), a[1..], b);
    }
  }

  /** A transaction started while the rollback is under way loses its timer when that rollback ends. */
  lemma TimerCanBeLost(c: Limits)
    ensures var steps := Impatient(c) + [Begin(1, StartTransaction), Settle(1, StartTransaction, true)];
      && Exec(Initial(), steps) == Some(Rearmed(c)) && HasLive(Rearmed(c), 1)
      && Enabled(Rearmed(c), Settle(1, AutoRollback, true))
      && var t := Next(Rearmed(c), Settle(1, AutoRollback, true)); t.live == map[] && t.transactionTimeouts == map[]
  {
    ImpatientRun(c);
    RearmingMoves(c);
    var s, steps := JustIssued(c), [Begin(1, StartTransaction), Settle(1, StartTransaction, true)];
    ExecConcat(Initial(), Impatient(c), steps);
    var s' := s.(waiting := multiset{(1, AutoRollback), (1, StartTransaction)});
    var t := Clear(Rearmed(c).(waiting := multiset{}), 1);
    assert t.live == map[] && t.transactionTimeouts == map[];
    hide Exec, Moves, WarnDelay, RollbackDelay;
    assert steps[0..] == steps && steps[2..] == [];
    ExecAt(s, steps, 0, s');
    ExecAt(s', steps, 1, Rearmed(c));
    ExecDone(Rearmed(c));
  }

  // ---- The handlers on a session's own fields.

  class Session {
    var now: int
    var connection: Option<Limits>
    var transactionTimeouts: map<Tab, TimerId>
    var live: map<TimerId, Timer>
    var nextId: TimerId
    var waiting: multiset<(Tab, Op)>
    ghost var log: seq<Event>

    ghost function View(): State
      reads this
    {
      State(now, connection, transactionTimeouts, live, nextId, waiting, log)
    }

    ghost predicate Valid()
      reads this
    {
      Inv(View())
    }

    constructor ()
      ensures View() == Initial() && Valid()
    {
      now, connection, nextId := 0, None, 0;
      transactionTimeouts, live, waiting, log := map[], map[], multiset{}, [];
    }

    method ClearTransactionTimeout(tab: Tab)
      requires Valid()
      modifies this
      ensures View() == Clear(old(View()), tab) && Valid()
    {
      ClearKeeps(View(), tab);
      log := log + [Cleared(tab, now)];
      if tab in transactionTimeouts {
        var timeout := transactionTimeouts[tab];
        transactionTimeouts := transactionTimeouts - {tab};
        live := live - {timeout};
      }
    }

    method SetTimeout(tab: Tab, kind: Kind, ms: int, limits: Limits) returns (id: TimerId)
      modifies `live, `nextId
      ensures id == old(nextId) && nextId == old(nextId) + 1
      ensures live == old(live)[id := Timer(tab, kind, now + Delay(ms), limits)]
    {
      id, nextId := nextId, nextId + 1;
      live := live[id := Timer(tab, kind, now + Delay(ms), limits)];
    }

    method CreateOrResetTransactionTimeout(tab: Tab, mustExist: bool)
      requires Valid()
      modifies this
      ensures View() == CreateOrReset(old(View()), tab, mustExist) && Valid()
    {
      CreateOrResetKeeps(View(), tab, mustExist);
      hide Inv, Clear, Arm;
      if mustExist && tab !in transactionTimeouts {
        return;
      }
      ClearTransactionTimeout(tab);
      if connection.Some? {
        ArmWarning(tab, connection.value);
      }
    }

    method ArmWarning(tab: Tab, limits: Limits)
      modifies this
      ensures View() == Arm(old(View()), tab, limits)
    {
      log := log + [Armed(tab, now, limits)];
      var timeout := SetTimeout(tab, Warning, limits.timeout - limits.window, limits);
      transactionTimeouts := transactionTimeouts[tab := timeout];
    }

    method OnTimer(id: TimerId)
      requires Valid() && Enabled(View(), Fire(id))
      modifies this
      ensures View() == Next(old(View()), Fire(id)) && Valid()
    {
      FireKeeps(View(), id);
      hide Inv, Delay;
      var timer := live[id];
      live := live - {id};
      match timer.kind
      case Warning =>
        log := log + [Warned(timer.tab, now)];
        var warningWindowTimeout := SetTimeout(timer.tab, Rollback, timer.limits.window, timer.limits);
        transactionTimeouts := transactionTimeouts[timer.tab := warningWindowTimeout];
      case Rollback =>
        if connection.Some? {
          log := log + [RollbackIssued(timer.tab, now)];
          waiting := waiting + multiset{(timer.tab, AutoRollback)};
        } else {
          log := log + [Lapsed(timer.tab, now)];
        }
    }

    method OnSettled(tab: Tab, op: Op, ok: bool)
      requires Valid() && Enabled(View(), Settle(tab, op, ok))
      modifies this
      ensures View() == Next(old(View()), Settle(tab, op, ok)) && Valid()
    {
      NextKeeps(View(), Settle(tab, op, ok));
      waiting := waiting - multiset{(tab, op)};
      SameTimers(old(View()), View());
      if ok {
        match op
        case Query(hasActiveTransaction) => CreateOrResetTransactionTimeout(tab, !hasActiveTransaction);
        case StartTransaction => CreateOrResetTransactionTimeout(tab, false);
        case Commit => ClearTransactionTimeout(tab);
        case RollbackByUser => ClearTransactionTimeout(tab);
        case Release => ClearTransactionTimeout(tab);
        case AutoRollback => ClearTransactionTimeout(tab);
      }
    }
  }
}
