/**
 * The audit log that SQLite triggers keep of saved queries: each audit holds only the changed fields, and replaying
 * the log by id must give every state a query ever had.
 */
module QueryAudit {
  import opened Text

  type QueryId = int
  type AuditId = nat

  /** A row of favorite_query; `title` and `text` are NOT NULL columns. */
  datatype Row = Row(title: string, text: string, createdAt: int, updatedAt: int)

  datatype Action = Create | Update

  /** A row of query_audit: None is NULL, "not changed". */
  datatype Audit = Audit(
    id: AuditId,
    queryId: QueryId,
    previous: Option<AuditId>,
    action: Action,
    title: Option<string>,
    text: Option<string>,
    createdAt: int)

  /** `narrowed` is whether the later migration has replaced the append-only trigger. */
  datatype State = State(rows: map<QueryId, Row>, audits: seq<Audit>, nextId: AuditId, narrowed: bool)

  datatype Column = Id | FavoriteQueryId | PreviousAuditId | ActionColumn | TitleColumn | TextColumn | CreatedAt | UpdatedAt | Version

  datatype Step =
    | InsertQuery(q: QueryId, row: Row)
    | UpdateQuery(q: QueryId, row: Row, previous: Option<AuditId>)
    | DeleteQuery(q: QueryId)
    | UpdateAudit(columns: set<Column>, audits: seq<Audit>)
    | NarrowTrigger

  // ---- The triggers.

  function CreateAudit(id: AuditId, q: QueryId, row: Row): Audit {
    Audit(id, q, None, Create, Some(row.title), Some(row.text), row.createdAt)
  }

  function UpdateAuditOf(id: AuditId, q: QueryId, before: Row, row: Row, previous: Option<AuditId>): Audit {
    Audit(id, q, previous, Update,
          if row.title != before.title then Some(row.title) else None,
          if row.text != before.text then Some(row.text) else None,
          row.updatedAt)
  }

  /** A taken id violates the primary key and changes nothing. */
  function Insert(s: State, q: QueryId, row: Row): State {
    if q in s.rows then s
    else s.(rows := s.rows[q := row], audits := s.audits + [CreateAudit(s.nextId, q, row)], nextId := s.nextId + 1)
  }

  predicate Changed(a: Row, b: Row) {
    a.title != b.title || a.text != b.text
  }

  function UpdateRow(s: State, q: QueryId, row: Row, previous: Option<AuditId>): State {
    if q !in s.rows then s
    else
      var s' := s.(rows := s.rows[q := row]);
      if Changed(s.rows[q], row) then
        s'.(audits := s.audits + [UpdateAuditOf(s.nextId, q, s.rows[q], row, previous)], nextId := s.nextId + 1)
      else s'
  }

  /** The subquery of the update trigger: an audit of the query with the latest `createdAt`, whichever wins a tie. */
  ghost predicate LatestByTime(audits: seq<Audit>, q: QueryId, previous: Option<AuditId>) {
    match previous
    case None => forall i :: 0 <= i < |audits| ==> audits[i].queryId != q
    case Some(id) =>
      exists k :: 0 <= k < |audits| && audits[k].queryId == q && audits[k].id == id &&
                  forall i :: 0 <= i < |audits| && audits[i].queryId == q ==> audits[i].createdAt <= audits[k].createdAt
  }

  function Without(audits: seq<Audit>, q: QueryId): (r: seq<Audit>)
    ensures forall i :: 0 <= i < |r| ==> r[i].queryId != q && r[i] in audits
  {
    if audits == [] then []
    else (if audits[0].queryId == q then [] else [audits[0]]) + Without(audits[1..], q)
  }

  function IdsOf(audits: seq<Audit>, q: QueryId): set<AuditId> {
    set i | 0 <= i < |audits| && audits[i].queryId == q :: audits[i].id
  }

  /** ON DELETE SET NULL: links to deleted audits are dropped. */
  function Detach(rest: seq<Audit>, gone: set<AuditId>): (r: seq<Audit>)
    ensures |r| == |rest| && forall i :: 0 <= i < |r| ==> SameButPrevious(rest[i], r[i])
  {
    seq(|rest|, i requires 0 <= i < |rest| =>
      if rest[i].previous.Some? && rest[i].previous.value in gone then rest[i].(previous := None) else rest[i])
  }

  /** Some audit of the query has a link to the one before it. */
  predicate Referenced(audits: seq<Audit>, q: QueryId) {
    exists i :: 0 <= i < |audits| && audits[i].queryId == q && audits[i].previous.Some?
  }

  /** ON DELETE CASCADE with ON DELETE SET NULL inside it: those updates also fire the append-only trigger. */
  function Delete(s: State, q: QueryId): State {
    if q !in s.rows || (!s.narrowed && Referenced(s.audits, q)) then s
    else s.(rows := s.rows - {q}, audits := Detach(Without(s.audits, q), IdsOf(s.audits, q)))
  }

  /** Whether the BEFORE UPDATE trigger lets a statement with this SET list through. */
  predicate UpdateAllowed(narrowed: bool, columns: set<Column>) {
    narrowed && columns <= {PreviousAuditId}
  }

  /** `b` is what an UPDATE that sets only `columns` can make of `a`. */
  ghost predicate OnlyTouches(a: Audit, b: Audit, columns: set<Column>) {
    && (Id in columns || a.id == b.id)
    && (FavoriteQueryId in columns || a.queryId == b.queryId)
    && (PreviousAuditId in columns || a.previous == b.previous)
    && (ActionColumn in columns || a.action == b.action)
    && (TitleColumn in columns || a.title == b.title)
    && (TextColumn in columns || a.text == b.text)
    && (CreatedAt in columns || a.createdAt == b.createdAt)
  }

  ghost predicate Enabled(s: State, step: Step) {
    match step
    case InsertQuery(_, _) => true
    case UpdateQuery(q, _, previous) => LatestByTime(s.audits, q, previous)
    case DeleteQuery(_) => true
    case UpdateAudit(columns, audits) =>
      |audits| == |s.audits| && forall i :: 0 <= i < |audits| ==> OnlyTouches(s.audits[i], audits[i], columns)
    case NarrowTrigger => true
  }

  function Next(s: State, step: Step): State {
    match step
    case InsertQuery(q, row) => Insert(s, q, row)
    case UpdateQuery(q, row, previous) => UpdateRow(s, q, row, previous)
    case DeleteQuery(q) => Delete(s, q)
    case UpdateAudit(columns, audits) => if UpdateAllowed(s.narrowed, columns) then s.(audits := audits) else s
    case NarrowTrigger => s.(narrowed := true)
  }

  ghost predicate Allowed(s: State, steps: seq<Step>)
    decreases |steps|
  {
    steps == [] || (Enabled(s, steps[0]) && Allowed(Next(s, steps[0]), steps[1..]))
  }

  function Exec(s: State, steps: seq<Step>): State
    decreases |steps|
  {
    if steps == [] then s else Exec(Next(s, steps[0]), steps[1..])
  }

  // ---- Replaying the log.

  /** The last non-NULL title among the query's audits with an id up to `upto`. */
  function ReplayTitle(audits: seq<Audit>, q: QueryId, upto: AuditId): Option<string> {
    if audits == [] then None
    else
      var a := audits[|audits| - 1];
      if a.queryId == q && a.id <= upto && a.title.Some? then a.title
      else ReplayTitle(audits[..|audits| - 1], q, upto)
  }

  function ReplayText(audits: seq<Audit>, q: QueryId, upto: AuditId): Option<string> {
    if audits == [] then None
    else
      var a := audits[|audits| - 1];
      if a.queryId == q && a.id <= upto && a.text.Some? then a.text
      else ReplayText(audits[..|audits| - 1], q, upto)
  }

  ghost predicate ReplaysTo(audits: seq<Audit>, q: QueryId, upto: AuditId, row: Row) {
    ReplayTitle(audits, q, upto) == Some(row.title) && ReplayText(audits, q, upto) == Some(row.text)
  }

  lemma ReplayAppend(audits: seq<Audit>, a: Audit, q: QueryId, upto: AuditId)
    ensures ReplayTitle(audits + [a], q, upto)
         == if a.queryId == q && a.id <= upto && a.title.Some? then a.title else ReplayTitle(audits, q, upto)
    ensures ReplayText(audits + [a], q, upto)
         == if a.queryId == q && a.id <= upto && a.text.Some? then a.text else ReplayText(audits, q, upto)
  {
    assert (audits + [a])[..|audits|] == audits;
  }

  /** An audit id above every id in the log replays like the whole log. */
  lemma {:induction false} ReplayAll(audits: seq<Audit>, q: QueryId, a: AuditId, b: AuditId)
    requires forall i :: 0 <= i < |audits| ==> audits[i].id <= a && audits[i].id <= b
    ensures ReplayTitle(audits, q, a) == ReplayTitle(audits, q, b)
    ensures ReplayText(audits, q, a) == ReplayText(audits, q, b)
  {
    if audits != [] {
      ReplayAll(audits[..|audits| - 1], q, a, b);
    }
  }

  lemma {:induction false} ReplayWithout(audits: seq<Audit>, gone: QueryId, q: QueryId, upto: AuditId)
    requires q != gone
    ensures ReplayTitle(Without(audits, gone), q, upto) == ReplayTitle(audits, q, upto)
    ensures ReplayText(Without(audits, gone), q, upto) == ReplayText(audits, q, upto)
  {
    if audits != [] {
      var before, a := audits[..|audits| - 1], audits[|audits| - 1];
      assert audits == before + [a];
      ReplayWithout(before, gone, q, upto);
      WithoutAppend(before, a, gone);
      if a.queryId != gone {
        ReplayAppend(Without(before, gone), a, q, upto);
      } else {
        assert Without(audits, gone) == Without(before, gone);
      }
    }
  }

  lemma {:induction false} WithoutAppend(audits: seq<Audit>, a: Audit, q: QueryId)
    ensures Without(audits + [a], q) == Without(audits, q) + if a.queryId == q then [] else [a]
  {
    if audits == [] {
      assert audits + [a] == [a];
    } else {
      assert (audits + [a])[1..] == audits[1..] + [a];
      WithoutAppend(audits[1..], a, q);
    }
  }

  ghost predicate SameButPrevious(a: Audit, b: Audit) {
    a == b.(previous := a.previous)
  }

  lemma {:induction false} ReplaySameContent(x: seq<Audit>, y: seq<Audit>, q: QueryId, upto: AuditId)
    requires |x| == |y| && forall i :: 0 <= i < |x| ==> SameButPrevious(x[i], y[i])
    ensures ReplayTitle(x, q, upto) == ReplayTitle(y, q, upto)
    ensures ReplayText(x, q, upto) == ReplayText(y, q, upto)
  {
    if x != [] {
      assert SameButPrevious(x[|x| - 1], y[|y| - 1]);
      ReplaySameContent(x[..|x| - 1], y[..|y| - 1], q, upto);
    }
  }

  // ---- What every write keeps.

  ghost predicate Increasing(audits: seq<Audit>, below: AuditId) {
    && (forall i :: 0 <= i < |audits| ==> audits[i].id < below)
    && (forall i, k :: 0 <= i < k < |audits| ==> audits[i].id < audits[k].id)
  }

  /** Ids grow, every audited query exists, and replaying all of a query's audits gives its row. */
  ghost predicate Inv(s: State) {
    && Increasing(s.audits, s.nextId)
    && (forall i :: 0 <= i < |s.audits| ==> s.audits[i].queryId in s.rows)
    && (forall q :: q in s.rows ==> ReplaysTo(s.audits, q, s.nextId, s.rows[q]))
  }

  lemma AppendKeeps(s: State, q: QueryId, row: Row, a: Audit)
    requires Inv(s) && a.id == s.nextId && a.queryId == q
    requires if q in s.rows
      then (a.title == if row.title != s.rows[q].title then Some(row.title) else None)
           && (a.text == if row.text != s.rows[q].text then Some(row.text) else None)
      else a.title == Some(row.title) && a.text == Some(row.text)
    ensures Inv(s.(rows := s.rows[q := row], audits := s.audits + [a], nextId := s.nextId + 1))
    ensures ReplaysTo(s.audits + [a], q, a.id, row)
  {
    var s' := s.(rows := s.rows[q := row], audits := s.audits + [a], nextId := s.nextId + 1);
    ReplayAppend(s.audits, a, q, a.id);
    forall p | p in s'.rows
      ensures ReplaysTo(s'.audits, p, s'.nextId, s'.rows[p])
    {
      ReplayAppend(s.audits, a, p, s'.nextId);
      ReplayAll(s.audits, p, s.nextId, s'.nextId);
    }
  }

  lemma {:induction false} WithoutIncreasing(audits: seq<Audit>, below: AuditId, q: QueryId)
    requires Increasing(audits, below)
    ensures Increasing(Without(audits, q), below)
  {
    if audits != [] {
      WithoutIncreasing(audits[1..], below, q);
      forall i | 0 <= i < |Without(audits[1..], q)|
        ensures audits[0].id < Without(audits[1..], q)[i].id
      {
        assert Without(audits[1..], q)[i] in audits[1..];
      }
    }
  }

  lemma DeleteKeeps(s: State, q: QueryId)
    requires Inv(s)
    ensures Inv(Delete(s, q))
  {
    var s' := Delete(s, q);
    if s' != s {
      WithoutIncreasing(s.audits, s.nextId, q);
      forall p | p in s'.rows
        ensures ReplaysTo(s'.audits, p, s'.nextId, s'.rows[p])
      {
        ReplayWithout(s.audits, q, p, s.nextId);
        ReplaySameContent(Without(s.audits, q), s'.audits, p, s.nextId);
      }
    }
  }

  lemma UpdateAuditKeeps(s: State, audits: seq<Audit>)
    requires Inv(s) && |audits| == |s.audits|
    requires forall i :: 0 <= i < |audits| ==> SameButPrevious(s.audits[i], audits[i])
    ensures Inv(s.(audits := audits))
  {
    var s' := s.(audits := audits);
    forall q | q in s'.rows
      ensures ReplaysTo(s'.audits, q, s'.nextId, s'.rows[q])
    {
      ReplaySameContent(s.audits, audits, q, s.nextId);
    }
    forall i | 0 <= i < |audits|
      ensures audits[i].id == s.audits[i].id && audits[i].queryId == s.audits[i].queryId
    {
      assert SameButPrevious(s.audits[i], audits[i]);
    }
  }

  /** What is left after a deletion is what stood there but for links. */
  lemma DeletedLeaves(s: State, q: QueryId)
    requires Delete(s, q) != s
    ensures var rest, after := Without(s.audits, q), Delete(s, q).audits;
      |after| == |rest| && forall i :: 0 <= i < |rest| ==> SameButPrevious(rest[i], after[i])
  {
    hide Without, SameButPrevious, IdsOf;
  }

  /** Times are not replayed, and the trigger is no part of the log. */
  lemma SideChangeKeeps(s: State, q: QueryId, row: Row)
    requires Inv(s)
    ensures q in s.rows && !Changed(s.rows[q], row) ==> Inv(s.(rows := s.rows[q := row]))
    ensures Inv(s.(narrowed := true))
  {
  }

  lemma NextKeeps(s: State, step: Step)
    requires Inv(s) && Enabled(s, step)
    ensures Inv(Next(s, step))
  {
    hide Inv;
    match step
    case InsertQuery(q, row) =>
      if q !in s.rows {
        AppendKeeps(s, q, row, CreateAudit(s.nextId, q, row));
      }
    case UpdateQuery(q, row, previous) =>
      if q in s.rows && Changed(s.rows[q], row) {
        AppendKeeps(s, q, row, UpdateAuditOf(s.nextId, q, s.rows[q], row, previous));
      }
      SideChangeKeeps(s, q, row);
    case DeleteQuery(q) => DeleteKeeps(s, q);
    case UpdateAudit(columns, audits) =>
      if UpdateAllowed(s.narrowed, columns) {
        AllowedUpdateIsHarmless(s.audits, audits, columns);
        UpdateAuditKeeps(s, audits);
      }
    case NarrowTrigger => SideChangeKeeps(s, 0, Row("", "", 0, 0));
  }

  /** What the trigger lets through changes no audit but in its link to the previous one. */
  lemma AllowedUpdateIsHarmless(x: seq<Audit>, y: seq<Audit>, columns: set<Column>)
    requires |x| == |y| && forall i :: 0 <= i < |x| ==> OnlyTouches(x[i], y[i], columns)
    requires UpdateAllowed(true, columns)
    ensures forall i :: 0 <= i < |x| ==> SameButPrevious(x[i], y[i])
  {
    forall i | 0 <= i < |x|
      ensures SameButPrevious(x[i], y[i])
    {
      assert OnlyTouches(x[i], y[i], columns);
      assert Id !in columns && FavoriteQueryId !in columns && ActionColumn !in columns;
      assert TitleColumn !in columns && TextColumn !in columns && CreatedAt !in columns;
    }
  }

  ghost predicate HasAudit(s: State, id: AuditId) {
    exists i :: 0 <= i < |s.audits| && s.audits[i].id == id
  }

  ghost predicate AllOf(audits: seq<Audit>, id: AuditId, q: QueryId) {
    forall i :: 0 <= i < |audits| && audits[i].id == id ==> audits[i].queryId == q
  }

  /** No write makes an audit with an id that has been given out before. */
  lemma AuditWasThere(s: State, step: Step, id: AuditId)
    requires Inv(s) && Enabled(s, step) && id < s.nextId && HasAudit(Next(s, step), id)
    ensures HasAudit(s, id)
  {
    var s' := Next(s, step);
    var k :| 0 <= k < |s'.audits| && s'.audits[k].id == id;
    match step
    case InsertQuery(q, row) => assert s.audits[k].id == id;
    case UpdateQuery(q, row, previous) => assert s.audits[k].id == id;
    case DeleteQuery(q) =>
      if s' != s {
        assert Without(s.audits, q)[k] in s.audits;
      }
    case NarrowTrigger =>
    case UpdateAudit(columns, audits) =>
      if UpdateAllowed(s.narrowed, columns) {
        AllowedUpdateIsHarmless(s.audits, audits, columns);
        assert SameButPrevious(s.audits[k], audits[k]);
      }
  }

  /** One write leaves the replay up to an existing audit as it was, as long as that audit is still there. */
  lemma StepKeepsHistory(s: State, step: Step, q: QueryId, id: AuditId, row: Row)
    requires Inv(s) && Enabled(s, step) && id < s.nextId && ReplaysTo(s.audits, q, id, row)
    requires AllOf(s.audits, id, q)
    requires HasAudit(Next(s, step), id)
    ensures ReplaysTo(Next(s, step).audits, q, id, row)
    ensures AllOf(Next(s, step).audits, id, q)
  {
    match step
    case InsertQuery(p, r) =>
      ReplayAppend(s.audits, CreateAudit(s.nextId, p, r), q, id);
    case UpdateQuery(p, r, previous) =>
      if p in s.rows {
        ReplayAppend(s.audits, UpdateAuditOf(s.nextId, p, s.rows[p], r, previous), q, id);
      }
    case DeleteQuery(p) => DeleteKeepsHistory(s, p, q, id, row);
    case UpdateAudit(columns, audits) =>
      if UpdateAllowed(s.narrowed, columns) {
        AllowedUpdateIsHarmless(s.audits, audits, columns);
        ReplaySameContent(s.audits, audits, q, id);
        forall i | 0 <= i < |audits| && audits[i].id == id
          ensures audits[i].queryId == q
        {
          assert SameButPrevious(s.audits[i], audits[i]);
        }
      }
    case NarrowTrigger =>
  }

  lemma DeleteKeepsHistory(s: State, p: QueryId, q: QueryId, id: AuditId, row: Row)
    requires ReplaysTo(s.audits, q, id, row) && AllOf(s.audits, id, q) && HasAudit(Delete(s, p), id)
    ensures ReplaysTo(Delete(s, p).audits, q, id, row) && AllOf(Delete(s, p).audits, id, q)
  {
    var s' := Delete(s, p);
    if s' != s {
      var k :| 0 <= k < |s'.audits| && s'.audits[k].id == id;
      assert Without(s.audits, p)[k] in s.audits && s'.audits[k].queryId != p;
      ReplayWithout(s.audits, p, q, id);
      ReplaySameContent(Without(s.audits, p), s'.audits, q, id);
      forall i | 0 <= i < |s'.audits| && s'.audits[i].id == id
        ensures s'.audits[i].queryId == q
      {
        assert Without(s.audits, p)[i] in s.audits;
      }
    }
  }

  lemma {:induction false} GoneForGood(s: State, steps: seq<Step>, id: AuditId)
    requires Inv(s) && Allowed(s, steps) && id < s.nextId && !HasAudit(s, id)
    ensures !HasAudit(Exec(s, steps), id)
    decreases |steps|
  {
    if steps != [] {
      if HasAudit(Next(s, steps[0]), id) {
        AuditWasThere(s, steps[0], id);
      }
      NextIdGrows(s, steps[0]);
      NextKeeps(s, steps[0]);
      GoneForGood(Next(s, steps[0]), steps[1..], id);
    }
  }

  lemma {:induction false} RunKeepsHistory(s: State, steps: seq<Step>, q: QueryId, id: AuditId, row: Row)
    requires Inv(s) && Allowed(s, steps) && id < s.nextId && ReplaysTo(s.audits, q, id, row)
    requires AllOf(s.audits, id, q)
    requires HasAudit(Exec(s, steps), id)
    ensures ReplaysTo(Exec(s, steps).audits, q, id, row)
    decreases |steps|
  {
    if steps != [] {
      NextKeeps(s, steps[0]);
      if !HasAudit(Next(s, steps[0]), id) {
        NextIdGrows(s, steps[0]);
        GoneForGood(Next(s, steps[0]), steps[1..], id);
      }
      StepKeepsHistory(s, steps[0], q, id, row);
      RunKeepsHistory(Next(s, steps[0]), steps[1..], q, id, row);
    }
  }

  lemma NextIdGrows(s: State, step: Step)
    ensures s.nextId <= Next(s, step).nextId
  {
  }

  ghost predicate Kept(audits: seq<Audit>, a: Audit) {
    exists k :: 0 <= k < |audits| && SameButPrevious(a, audits[k])
  }

  lemma DeleteAppendsOnly(s: State, q: QueryId, a: Audit)
    requires Increasing(s.audits, s.nextId) && Kept(s.audits, a) && HasAudit(Delete(s, q), a.id)
    ensures Kept(Delete(s, q).audits, a)
  {
    var s' := Delete(s, q);
    if s' != s {
      var k :| 0 <= k < |s.audits| && SameButPrevious(a, s.audits[k]);
      var n :| 0 <= n < |s'.audits| && s'.audits[n].id == a.id;
      var rest := Without(s.audits, q);
      hide Without, Detach, Delete, IdsOf;
      var m :| 0 <= m < |s.audits| && s.audits[m] == rest[n];
      assert m == k;
      assert SameButPrevious(a, s'.audits[n]);
    }
  }

  lemma StepAppendsOnly(s: State, step: Step, a: Audit)
    requires Inv(s) && Enabled(s, step) && Kept(s.audits, a) && HasAudit(Next(s, step), a.id)
    ensures Kept(Next(s, step).audits, a)
  {
    hide ReplaysTo, HasAudit, Increasing;
    match step
    case DeleteQuery(q) => DeleteAppendsOnly(s, q, a);
    case InsertQuery(q, row) =>
      var k :| 0 <= k < |s.audits| && SameButPrevious(a, s.audits[k]);
      assert Insert(s, q, row).audits[k] == s.audits[k];
    case UpdateQuery(q, row, previous) =>
      var k :| 0 <= k < |s.audits| && SameButPrevious(a, s.audits[k]);
      assert UpdateRow(s, q, row, previous).audits[k] == s.audits[k];
    case UpdateAudit(columns, audits) =>
      if UpdateAllowed(s.narrowed, columns) {
        var k :| 0 <= k < |s.audits| && SameButPrevious(a, s.audits[k]);
        AllowedUpdateIsHarmless(s.audits, audits, columns);
        assert SameButPrevious(s.audits[k], audits[k]);
      }
    case NarrowTrigger =>
  }

  /** Append-only over every run: an audit that is still there is what it was, but for its link. */
  lemma {:induction false} RunAppendsOnly(s: State, steps: seq<Step>, a: Audit)
    requires Inv(s) && Allowed(s, steps) && Kept(s.audits, a) && HasAudit(Exec(s, steps), a.id)
    ensures Kept(Exec(s, steps).audits, a)
    decreases |steps|
  {
    if steps != [] {
      NextKeeps(s, steps[0]);
      if !HasAudit(Next(s, steps[0]), a.id) {
        NextIdGrows(s, steps[0]);
        GoneForGood(Next(s, steps[0]), steps[1..], a.id);
      }
      StepAppendsOnly(s, steps[0], a);
      RunAppendsOnly(Next(s, steps[0]), steps[1..], a);
    }
  }

  ghost predicate Writes(step: Step, q: QueryId) {
    (step.InsertQuery? || step.UpdateQuery?) && step.q == q
  }

  /** The write creates a row, or changes its title or text. */
  ghost predicate Informs(s: State, step: Step, q: QueryId) {
    Writes(step, q) && if step.InsertQuery? then q !in s.rows else q in s.rows && Changed(s.rows[q], step.row)
  }

  /**
   * Over every run: a write to a query adds one audit exactly when it creates the row or changes title or text, and
   * replaying the final log up to that audit, wherever it still stands, gives the query's row as it was right after
   * that write.
   */
  lemma HistoryReplays(s: State, step: Step, q: QueryId, steps: seq<Step>)
    requires Inv(s) && Enabled(s, step) && Writes(step, q) && Allowed(Next(s, step), steps)
    ensures if Informs(s, step, q) then |Next(s, step).audits| == |s.audits| + 1 && Next(s, step).audits[|s.audits|].id == s.nextId
            else Next(s, step).audits == s.audits
    ensures Informs(s, step, q) && HasAudit(Exec(Next(s, step), steps), s.nextId) ==>
      q in Next(s, step).rows && ReplaysTo(Exec(Next(s, step), steps).audits, q, s.nextId, Next(s, step).rows[q])
  {
    if Informs(s, step, q) && HasAudit(Exec(Next(s, step), steps), s.nextId) {
      StepReplays(s, step, q, steps);
    }
  }

  lemma StepReplays(s: State, step: Step, q: QueryId, steps: seq<Step>)
    requires Inv(s) && Enabled(s, step) && Informs(s, step, q) && Allowed(Next(s, step), steps)
    requires HasAudit(Exec(Next(s, step), steps), s.nextId)
    ensures q in Next(s, step).rows
    ensures ReplaysTo(Exec(Next(s, step), steps).audits, q, s.nextId, Next(s, step).rows[q])
  {
    NextKeeps(s, step);
    var s', row := Next(s, step), step.row;
    if step.InsertQuery? {
      AppendKeeps(s, q, row, CreateAudit(s.nextId, q, row));
    } else {
      AppendKeeps(s, q, row, UpdateAuditOf(s.nextId, q, s.rows[q], row, step.previous));
    }
    RunKeepsHistory(s', steps, q, s.nextId, row);
  }

  /** After every run the whole log gives every current row. */
  lemma {:induction false} CurrentRowReplays(s: State, steps: seq<Step>)
    requires Inv(s) && Allowed(s, steps)
    ensures Inv(Exec(s, steps))
    ensures forall q :: q in Exec(s, steps).rows ==>
              ReplaysTo(Exec(s, steps).audits, q, Exec(s, steps).nextId, Exec(s, steps).rows[q])
    decreases |steps|
  {
    if steps != [] {
      NextKeeps(s, steps[0]);
      CurrentRowReplays(Next(s, steps[0]), steps[1..]);
    }
  }

  // ---- Links to the previous audit, and what the first append-only trigger made of deletions.

  /** Every audit but a query's first links to an earlier audit of the query. */
  ghost predicate Linked(audits: seq<Audit>) {
    forall i :: 0 <= i < |audits| ==> LinkedAt(audits[..i], audits[i])
  }

  ghost predicate LinkedAt(before: seq<Audit>, a: Audit) {
    && (a.previous.None? <==> forall k :: 0 <= k < |before| ==> before[k].queryId != a.queryId)
    && (a.previous.Some? ==> exists k :: 0 <= k < |before| && before[k].queryId == a.queryId && before[k].id == a.previous.value)
  }

  /** As long as the first trigger is in place nothing can unlink an audit. */
  ghost predicate LinkInv(s: State) {
    Inv(s) && (!s.narrowed ==> Linked(s.audits))
  }

  lemma LinkedAppend(audits: seq<Audit>, a: Audit)
    ensures Linked(audits + [a]) <==> Linked(audits) && LinkedAt(audits, a)
  {
    var all := audits + [a];
    assert all[..|audits|] == audits;
    if Linked(all) {
      assert LinkedAt(all[..|audits|], all[|audits|]);
      forall i | 0 <= i < |audits|
        ensures LinkedAt(audits[..i], audits[i])
      {
        assert all[..i] == audits[..i] && LinkedAt(all[..i], all[i]);
      }
    }
    if Linked(audits) && LinkedAt(audits, a) {
      forall i | 0 <= i < |all|
        ensures LinkedAt(all[..i], all[i])
      {
        assert i < |audits| ==> all[..i] == audits[..i];
      }
    }
  }

  lemma {:induction false} WithoutHas(audits: seq<Audit>, q: QueryId, k: nat)
    requires k < |audits| && audits[k].queryId != q
    ensures audits[k] in Without(audits, q)
  {
    if k > 0 {
      WithoutHas(audits[1..], q, k - 1);
    }
  }

  lemma {:induction false} LinkedWithout(audits: seq<Audit>, q: QueryId)
    requires Linked(audits)
    ensures Linked(Without(audits, q))
  {
    if audits != [] {
      var before, a := audits[..|audits| - 1], audits[|audits| - 1];
      assert audits == before + [a];
      LinkedAppend(before, a);
      LinkedWithout(before, q);
      WithoutAppend(before, a, q);
      var rest := Without(before, q);
      if a.queryId == q {
        assert Without(audits, q) == rest;
      } else {
        forall k | 0 <= k < |before| && before[k].queryId == a.queryId
          ensures before[k] in rest
        {
          WithoutHas(before, q, k);
        }
        forall k | 0 <= k < |rest|
          ensures rest[k] in before
        {
        }
        LinkedAppend(rest, a);
      }
    }
  }

  lemma InsertLinks(s: State, q: QueryId, row: Row)
    requires Inv(s) && Linked(s.audits)
    ensures Linked(Insert(s, q, row).audits)
  {
    if q !in s.rows {
      LinkedAppend(s.audits, CreateAudit(s.nextId, q, row));
    }
  }

  lemma UpdateLinks(s: State, q: QueryId, row: Row, previous: Option<AuditId>)
    requires Linked(s.audits) && LatestByTime(s.audits, q, previous)
    ensures Linked(UpdateRow(s, q, row, previous).audits)
  {
    if q in s.rows {
      LinkedAppend(s.audits, UpdateAuditOf(s.nextId, q, s.rows[q], row, previous));
    }
  }

  lemma LinkKeeps(s: State, step: Step)
    requires LinkInv(s) && Enabled(s, step)
    ensures LinkInv(Next(s, step))
  {
    NextKeeps(s, step);
    if !s.narrowed {
      hide Inv, Linked;
      match step
      case InsertQuery(q, row) => InsertLinks(s, q, row);
      case UpdateQuery(q, row, previous) => UpdateLinks(s, q, row, previous);
      case DeleteQuery(q) =>
        LinkedWithout(s.audits, q);
        NothingToDetach(s, q);
      case UpdateAudit(_, _) =>
      case NarrowTrigger =>
    }
  }

  lemma LinkStaysInQuery(audits: seq<Audit>, nextId: AuditId, q: QueryId, k: nat)
    requires Increasing(audits, nextId) && Linked(audits) && k < |audits|
    requires audits[k].queryId != q && audits[k].previous.Some?
    ensures audits[k].previous.value !in IdsOf(audits, q)
  {
    assert LinkedAt(audits[..k], audits[k]);
    var j :| 0 <= j < k && audits[j].queryId == audits[k].queryId && audits[j].id == audits[k].previous.value;
    hide Linked, LinkedAt;
    forall i | 0 <= i < |audits| && audits[i].queryId == q
      ensures audits[i].id != audits[k].previous.value
    {
      assert i < j || j < i;
    }
  }

  /** Links stay within a query, so deleting one query leaves the other audits as they are. */
  lemma NothingToDetach(s: State, q: QueryId)
    requires Inv(s) && Linked(s.audits)
    ensures Detach(Without(s.audits, q), IdsOf(s.audits, q)) == Without(s.audits, q)
  {
    var rest, gone := Without(s.audits, q), IdsOf(s.audits, q);
    forall i | 0 <= i < |rest|
      ensures !(rest[i].previous.Some? && rest[i].previous.value in gone)
    {
      var k :| 0 <= k < |s.audits| && s.audits[k] == rest[i];
      hide Increasing, Linked, Without, IdsOf, ReplaysTo;
      if rest[i].previous.Some? {
        LinkStaysInQuery(s.audits, s.nextId, q, k);
      }
    }
  }

  lemma {:induction false} RunKeepsLinks(s: State, steps: seq<Step>)
    requires LinkInv(s) && Allowed(s, steps)
    ensures LinkInv(Exec(s, steps))
    decreases |steps|
  {
    hide LinkInv, Enabled, Next;
    if steps != [] {
      LinkKeeps(s, steps[0]);
      RunKeepsLinks(Next(s, steps[0]), steps[1..]);
    }
  }

  ghost predicate AtMostOneAudit(audits: seq<Audit>, q: QueryId) {
    forall i, k :: 0 <= i < k < |audits| ==> !(audits[i].queryId == q && audits[k].queryId == q)
  }

  lemma ReferencedIffTwo(audits: seq<Audit>, q: QueryId)
    requires Linked(audits)
    ensures Referenced(audits, q) <==> !AtMostOneAudit(audits, q)
  {
    if k :| 0 <= k < |audits| && audits[k].queryId == q && audits[k].previous.Some? {
      assert LinkedAt(audits[..k], audits[k]);
    }
    forall i, k | 0 <= i < k < |audits| && audits[i].queryId == q && audits[k].queryId == q
      ensures Referenced(audits, q)
    {
      assert LinkedAt(audits[..k], audits[k]) && audits[..k][i].queryId == q;
    }
  }

  /** After any run under the first trigger a query can be deleted exactly while it has at most one audit. */
  lemma FirstTriggerBlocksDelete(s: State, steps: seq<Step>, q: QueryId)
    requires LinkInv(s) && Allowed(s, steps) && !Exec(s, steps).narrowed && q in Exec(s, steps).rows
    ensures q !in Delete(Exec(s, steps), q).rows <==> AtMostOneAudit(Exec(s, steps).audits, q)
  {
    RunKeepsLinks(s, steps);
    hide Exec, Linked, Referenced, AtMostOneAudit;
    ReferencedIffTwo(Exec(s, steps).audits, q);
  }

  // ---- What every statement does to the two tables.

  /**
   * The query is gone with all its audits and every link to them; nothing else has changed. `at` says where each audit
   * that is left stood before.
   */
  ghost predicate TakenOut(s: State, t: State, q: QueryId, at: seq<nat>) {
    && RowTakenOut(s.rows, t.rows, q) && t.nextId == s.nextId && t.narrowed == s.narrowed
    && AuditsTakenOut(s, t.audits, q, at)
  }

  ghost predicate RowTakenOut(before: map<QueryId, Row>, after: map<QueryId, Row>, q: QueryId) {
    && q !in after && (forall p :: p in after ==> p in before)
    && forall p :: p in before && p != q ==> p in after && after[p] == before[p]
  }

  ghost predicate AuditsTakenOut(s: State, after: seq<Audit>, q: QueryId, at: seq<nat>) {
    && |at| == |after| && (forall i, k :: 0 <= i < k < |at| ==> at[i] < at[k])
    && (forall k :: 0 <= k < |at| ==> at[k] < |s.audits| && s.audits[at[k]].queryId != q)
    && (forall n :: 0 <= n < |s.audits| && s.audits[n].queryId != q ==> n in at)
    && forall k :: 0 <= k < |at| ==>
         && SameButPrevious(s.audits[at[k]], after[k])
         && after[k].previous == if LinksInto(s, q, at[k]) then None else s.audits[at[k]].previous
  }

  /** The n-th audit is linked to one of the query's. */
  ghost predicate LinksInto(s: State, q: QueryId, n: nat)
    requires n < |s.audits|
  {
    s.audits[n].previous.Some? && exists i :: 0 <= i < |s.audits| && s.audits[i].queryId == q && s.audits[i].id == s.audits[n].previous.value
  }

  /** `at` lists the positions of the audits that are not the query's, in order, and `rest` those audits. */
  ghost predicate Positions(audits: seq<Audit>, q: QueryId, rest: seq<Audit>, at: seq<nat>) {
    && |at| == |rest| && (forall i, k :: 0 <= i < k < |at| ==> at[i] < at[k])
    && (forall k :: 0 <= k < |at| ==> at[k] < |audits| && audits[at[k]].queryId != q && rest[k] == audits[at[k]])
    && forall n :: 0 <= n < |audits| && audits[n].queryId != q ==> n in at
  }

  lemma PositionsAppend(audits: seq<Audit>, a: Audit, q: QueryId, rest: seq<Audit>, at: seq<nat>)
    requires Positions(audits, q, rest, at)
    ensures if a.queryId == q then Positions(audits + [a], q, rest, at) else Positions(audits + [a], q, rest + [a], at + [|audits|])
  {
    var all := audits + [a];
    assert forall n :: 0 <= n < |audits| ==> all[n] == audits[n];
    if a.queryId != q {
      assert (at + [|audits|])[|at|] == |audits|;
      assert forall n :: n in at ==> n in at + [|audits|];
    }
  }

  lemma NoPositions(q: QueryId)
    ensures Positions([], q, Without([], q), [])
  {
  }

  lemma WithoutLast(audits: seq<Audit>, q: QueryId)
    requires audits != []
    ensures var n := |audits| - 1;
      Without(audits, q) == if audits[n].queryId == q then Without(audits[..n], q) else Without(audits[..n], q) + [audits[n]]
  {
    var n := |audits| - 1;
    hide *;
    WithoutAppend(audits[..n], audits[n], q);
    assert audits == audits[..n] + [audits[n]];
    assert Without(audits[..n], q) + [] == Without(audits[..n], q);
  }

  lemma PositionsLast(audits: seq<Audit>, q: QueryId, at: seq<nat>)
    requires audits != [] && Positions(audits[..|audits| - 1], q, Without(audits[..|audits| - 1], q), at)
    ensures var n := |audits| - 1;
      Positions(audits, q, Without(audits, q), if audits[n].queryId == q then at else at + [n])
  {
    var n := |audits| - 1;
    hide *;
    WithoutLast(audits, q);
    PositionsAppend(audits[..n], audits[n], q, Without(audits[..n], q), at);
    assert audits == audits[..n] + [audits[n]];
  }

  lemma {:induction false} WithoutAt(audits: seq<Audit>, q: QueryId) returns (at: seq<nat>)
    ensures Positions(audits, q, Without(audits, q), at)
    decreases |audits|
  {
    hide *;
    if audits == [] {
      NoPositions(q);
      at := [];
    } else {
      var n := |audits| - 1;
      var before := WithoutAt(audits[..n], q);
      PositionsLast(audits, q, before);
      at := if audits[n].queryId == q then before else before + [n];
    }
  }

  lemma LinksIntoIds(s: State, q: QueryId, n: nat)
    requires n < |s.audits|
    ensures LinksInto(s, q, n) <==> s.audits[n].previous.Some? && s.audits[n].previous.value in IdsOf(s.audits, q)
  {
  }

  lemma DetachedAudits(s: State, q: QueryId, rest: seq<Audit>, at: seq<nat>)
    requires Positions(s.audits, q, rest, at)
    ensures AuditsTakenOut(s, Detach(rest, IdsOf(s.audits, q)), q, at)
  {
    var after := Detach(rest, IdsOf(s.audits, q));
    forall k | 0 <= k < |at|
      ensures SameButPrevious(s.audits[at[k]], after[k])
      ensures after[k].previous == if LinksInto(s, q, at[k]) then None else s.audits[at[k]].previous
    {
      LinksIntoIds(s, q, at[k]);
      hide IdsOf, LinksInto;
    }
    hide Detach, IdsOf, LinksInto;
  }

  lemma DeleteTakesOut(s: State, q: QueryId) returns (at: seq<nat>)
    requires q in s.rows && (s.narrowed || !Referenced(s.audits, q))
    ensures TakenOut(s, Delete(s, q), q, at)
  {
    at := WithoutAt(s.audits, q);
    DetachedAudits(s, q, Without(s.audits, q), at);
    hide AuditsTakenOut, Positions, Referenced, Detach, Without, IdsOf;
  }

  /**
   * After any run a query can be deleted if and only if it is there and either the narrow trigger is in place or it has
   * at most one audit; then it goes with all its audits and the links to them. Otherwise nothing changes.
   */
  lemma DeleteOutcome(s: State, steps: seq<Step>, q: QueryId) returns (at: seq<nat>)
    requires LinkInv(s) && Allowed(s, steps)
    ensures var t := Exec(s, steps);
      var u := Next(t, DeleteQuery(q));
      if q in t.rows && (t.narrowed || AtMostOneAudit(t.audits, q)) then TakenOut(t, u, q, at) else u == t
  {
    RunKeepsLinks(s, steps);
    var t := Exec(s, steps);
    if !t.narrowed {
      ReferencedIffTwo(t.audits, q);
    }
    at := [];
    hide Exec, AtMostOneAudit, Referenced, TakenOut;
    if q in t.rows && (t.narrowed || AtMostOneAudit(t.audits, q)) {
      at := DeleteTakesOut(t, q);
    }
  }

  /** The queries' own table, as if nobody kept a log. */
  function PlainNext(rows: map<QueryId, Row>, step: Step): map<QueryId, Row> {
    match step
    case InsertQuery(q, row) => if q in rows then rows else rows[q := row]
    case UpdateQuery(q, row, _) => if q in rows then rows[q := row] else rows
    case DeleteQuery(q) => rows - {q}
    case UpdateAudit(_, _) => rows
    case NarrowTrigger => rows
  }

  function PlainExec(rows: map<QueryId, Row>, steps: seq<Step>): map<QueryId, Row>
    decreases |steps|
  {
    if steps == [] then rows else PlainExec(PlainNext(rows, steps[0]), steps[1..])
  }

  /** The first trigger stands in the way of a deletion. */
  ghost predicate Blocked(s: State, step: Step) {
    step.DeleteQuery? && step.q in s.rows && !s.narrowed && !AtMostOneAudit(s.audits, step.q)
  }

  lemma RowsStep(s: State, step: Step)
    requires LinkInv(s)
    ensures Next(s, step).rows == if Blocked(s, step) then s.rows else PlainNext(s.rows, step)
    ensures s.narrowed ==> Next(s, step).narrowed
  {
    match step
    case DeleteQuery(q) =>
      if !s.narrowed {
        ReferencedIffTwo(s.audits, q);
      }
      hide Referenced, AtMostOneAudit, LinkInv;
      assert q !in s.rows ==> s.rows - {q} == s.rows;
    case _ =>
  }

  /** Under the narrow trigger the log costs the queries nothing: their table is what it would be without one. */
  lemma {:induction false} AuditingIsInvisible(s: State, steps: seq<Step>)
    requires LinkInv(s) && s.narrowed && Allowed(s, steps)
    ensures Exec(s, steps).rows == PlainExec(s.rows, steps)
    decreases |steps|
  {
    if steps != [] {
      RowsStep(s, steps[0]);
      LinkKeeps(s, steps[0]);
      hide LinkInv, Enabled, Next, PlainNext;
      AuditingIsInvisible(Next(s, steps[0]), steps[1..]);
    }
  }

  lemma ReplayedFromSomething(audits: seq<Audit>, q: QueryId, upto: AuditId)
    requires ReplayTitle(audits, q, upto).Some?
    ensures exists i :: 0 <= i < |audits| && audits[i].queryId == q
  {
    if forall i :: 0 <= i < |audits| ==> audits[i].queryId != q {
      NoAuditsNoReplay(audits, q, upto);
    }
  }

  /**
   * A write that informs appends one audit: a new id, the query, the write's time stamp, `create` exactly for the
   * query's first one, a link to one of its latest, and only what the log did not replay to before.
   */
  lemma WriteLogged(s: State, step: Step, q: QueryId)
    requires Inv(s) && Enabled(s, step) && Informs(s, step, q)
    ensures var t, first := Next(s, step), forall i :: 0 <= i < |s.audits| ==> s.audits[i].queryId != q;
      && |t.audits| == |s.audits| + 1 && t.audits[..|s.audits|] == s.audits && t.rows == s.rows[q := step.row]
      && var a := t.audits[|s.audits|];
         && a.id == s.nextId && t.nextId == s.nextId + 1 && a.queryId == q && (forall i :: 0 <= i < |s.audits| ==> s.audits[i].id < a.id)
         && a.createdAt == (if step.InsertQuery? then step.row.createdAt else step.row.updatedAt)
         && (a.action == Create <==> first) && LatestByTime(s.audits, q, a.previous)
         && a.title == (if ReplayTitle(s.audits, q, s.nextId) == Some(step.row.title) then None else Some(step.row.title))
         && a.text == if ReplayText(s.audits, q, s.nextId) == Some(step.row.text) then None else Some(step.row.text)
  {
    if step.InsertQuery? {
      NoAuditsNoReplay(s.audits, q, s.nextId);
    } else {
      assert ReplaysTo(s.audits, q, s.nextId, s.rows[q]);
      ReplayedFromSomething(s.audits, q, s.nextId);
    }
  }

  lemma StandsUnlessDeletedStep(s: State, step: Step, a: Audit)
    requires Inv(s) && Enabled(s, step) && Kept(s.audits, a) && step != DeleteQuery(a.queryId)
    ensures Kept(Next(s, step).audits, a)
  {
    var k :| 0 <= k < |s.audits| && SameButPrevious(a, s.audits[k]);
    if step.DeleteQuery? && Next(s, step) != s {
      WithoutHas(s.audits, step.q, k);
      var rest := Without(s.audits, step.q);
      var n :| 0 <= n < |rest| && rest[n] == s.audits[k];
      assert SameButPrevious(rest[n], Next(s, step).audits[n]);
      assert HasAudit(Next(s, step), a.id);
    } else {
      assert Next(s, step).audits[k].id == s.audits[k].id by {
        SameIdAt(s, step, k);
      }
    }
    StepAppendsOnly(s, step, a);
  }

  lemma SameIdAt(s: State, step: Step, k: nat)
    requires Enabled(s, step) && k < |s.audits| && (step.DeleteQuery? ==> Next(s, step) == s)
    ensures k < |Next(s, step).audits| && Next(s, step).audits[k].id == s.audits[k].id
  {
    if step.UpdateAudit? && UpdateAllowed(s.narrowed, step.columns) {
      AllowedUpdateIsHarmless(s.audits, step.audits, step.columns);
      assert SameButPrevious(s.audits[k], step.audits[k]);
    }
  }

  /** Only the deletion of its query makes an audit go. */
  lemma {:induction false} StandsUnlessDeleted(s: State, steps: seq<Step>, a: Audit)
    requires Inv(s) && Allowed(s, steps) && Kept(s.audits, a)
    requires forall k :: 0 <= k < |steps| ==> steps[k] != DeleteQuery(a.queryId)
    ensures Kept(Exec(s, steps).audits, a)
    decreases |steps|
  {
    hide Inv, Kept, Enabled, Next;
    if steps != [] {
      NextKeeps(s, steps[0]);
      StandsUnlessDeletedStep(s, steps[0], a);
      StandsUnlessDeleted(Next(s, steps[0]), steps[1..], a);
    }
  }

  /** An UPDATE of the audit table goes through, as it stands, exactly for the link alone under the narrow trigger. */
  lemma UpdateTakenIff(s: State, columns: set<Column>, audits: seq<Audit>)
    ensures Next(s, UpdateAudit(columns, audits))
         == if s.narrowed && forall c :: c in columns ==> c == PreviousAuditId then s.(audits := audits) else s
  {
  }

  // ---- Resolving a snapshot by time, as the audit model does, instead of by id.

  /** Ordered by createdAt, then id, both descending: whether `a` comes first. */
  predicate Newer(a: Audit, b: Audit) {
    a.createdAt > b.createdAt || (a.createdAt == b.createdAt && a.id > b.id)
  }

  /** The newest audit of the query up to a time that carries a title, or a text. */
  function NewestUpTo(audits: seq<Audit>, q: QueryId, time: int, carries: Audit -> bool): Option<Audit> {
    if audits == [] then None
    else
      var a, best := audits[|audits| - 1], NewestUpTo(audits[..|audits| - 1], q, time, carries);
      if a.queryId == q && a.createdAt <= time && carries(a) && (best.None? || Newer(a, best.value)) then Some(a) else best
  }

  predicate HasTitle(a: Audit) {
    a.title.Some?
  }

  predicate HasText(a: Audit) {
    a.text.Some?
  }

  function TitleByTime(audits: seq<Audit>, q: QueryId, time: int): Option<string> {
    match NewestUpTo(audits, q, time, HasTitle)
    case None => None
    case Some(a) => a.title
  }

  function TextByTime(audits: seq<Audit>, q: QueryId, time: int): Option<string> {
    match NewestUpTo(audits, q, time, HasText)
    case None => None
    case Some(a) => a.text
  }

  /** The query's timestamps never go back. */
  ghost predicate ClockMonotone(audits: seq<Audit>, q: QueryId) {
    forall i, k :: 0 <= i < k < |audits| && audits[i].queryId == q && audits[k].queryId == q ==> audits[i].createdAt <= audits[k].createdAt
  }

  /** `last` is the last audit of the query that is stamped with its time. */
  ghost predicate LastAtItsTime(audits: seq<Audit>, q: QueryId, last: nat) {
    && last < |audits| && audits[last].queryId == q
    && forall k :: last < k < |audits| && audits[k].queryId == q ==> audits[k].createdAt > audits[last].createdAt
  }

  /** Writes stamped no earlier than a query's audits so far keep its clock from going back. */
  lemma WritesKeepClock(s: State, step: Step, q: QueryId)
    requires Inv(s) && Enabled(s, step) && ClockMonotone(s.audits, q)
    requires step.UpdateQuery? && step.q == q ==>
      forall i :: 0 <= i < |s.audits| && s.audits[i].queryId == q ==> s.audits[i].createdAt <= step.row.updatedAt
    ensures ClockMonotone(Next(s, step).audits, q)
  {
    hide ReplaysTo;
    match step
    case InsertQuery(_, _) =>
    case UpdateQuery(_, _, _) =>
    case DeleteQuery(p) =>
      if Next(s, step) != s {
        WithoutClock(s.audits, p, q);
        var rest := Without(s.audits, p);
        forall i | 0 <= i < |rest|
          ensures Next(s, step).audits[i].createdAt == rest[i].createdAt && Next(s, step).audits[i].queryId == rest[i].queryId
        {
          assert SameButPrevious(rest[i], Next(s, step).audits[i]);
        }
      }
    case UpdateAudit(columns, audits) =>
      if UpdateAllowed(s.narrowed, columns) {
        AllowedUpdateIsHarmless(s.audits, audits, columns);
        forall i | 0 <= i < |audits|
          ensures audits[i].createdAt == s.audits[i].createdAt && audits[i].queryId == s.audits[i].queryId
        {
          assert SameButPrevious(s.audits[i], audits[i]);
        }
      }
    case NarrowTrigger =>
  }

  lemma {:induction false} WithoutClock(audits: seq<Audit>, p: QueryId, q: QueryId)
    requires ClockMonotone(audits, q)
    ensures ClockMonotone(Without(audits, p), q)
  {
    if audits != [] {
      var rest := audits[1..];
      forall i, k | 0 <= i < k < |rest| && rest[i].queryId == q && rest[k].queryId == q
        ensures rest[i].createdAt <= rest[k].createdAt
      {
        assert rest[i] == audits[i + 1] && rest[k] == audits[k + 1];
      }
      WithoutClock(rest, p, q);
      forall k | 0 <= k < |Without(rest, p)| && audits[0].queryId == q && Without(rest, p)[k].queryId == q
        ensures audits[0].createdAt <= Without(rest, p)[k].createdAt
      {
        var i :| 0 <= i < |rest| && rest[i] == Without(rest, p)[k];
        assert audits[i + 1] == rest[i];
      }
    }
  }

  lemma {:induction false} NewestIsLast(audits: seq<Audit>, below: AuditId, q: QueryId, time: int, carries: Audit -> bool)
    requires Increasing(audits, below) && ClockMonotone(audits, q)
    ensures var best := NewestUpTo(audits, q, time, carries);
      best.Some? ==> exists k :: 0 <= k < |audits| && audits[k] == best.value && best.value.queryId == q
  {
    if audits != [] {
      NewestIsLast(audits[..|audits| - 1], below, q, time, carries);
    }
  }

  /** The audit found is the latest that qualifies, by time and then by id. */
  lemma {:induction false} NewestIsLatest(audits: seq<Audit>, below: AuditId, q: QueryId, time: int, carries: Audit -> bool)
    requires Increasing(audits, below)
    ensures match NewestUpTo(audits, q, time, carries)
            case None => forall i :: 0 <= i < |audits| ==> !(audits[i].queryId == q && audits[i].createdAt <= time && carries(audits[i]))
            case Some(a) =>
              && a in audits && a.queryId == q && a.createdAt <= time && carries(a)
              && forall i :: 0 <= i < |audits| && audits[i].queryId == q && audits[i].createdAt <= time && carries(audits[i]) ==>
                   audits[i].createdAt < a.createdAt || (audits[i].createdAt == a.createdAt && audits[i].id <= a.id)
  {
    if audits != [] {
      var before := audits[..|audits| - 1];
      NewestIsLatest(before, below, q, time, carries);
      assert forall i :: 0 <= i < |before| ==> audits[i] == before[i];
    }
  }

  /** With a clock that never goes back the last audit that qualifies is the newest. */
  lemma NewestStep(audits: seq<Audit>, below: AuditId, q: QueryId, time: int, carries: Audit -> bool)
    requires audits != [] && Increasing(audits, below) && ClockMonotone(audits, q)
    ensures var a, before := audits[|audits| - 1], audits[..|audits| - 1];
      NewestUpTo(audits, q, time, carries)
      == if a.queryId == q && a.createdAt <= time && carries(a) then Some(a) else NewestUpTo(before, q, time, carries)
  {
    NewestIsLast(audits[..|audits| - 1], below, q, time, carries);
  }

  lemma {:induction false} ByTimeIsById(audits: seq<Audit>, below: AuditId, q: QueryId, time: int, upto: AuditId)
    requires Increasing(audits, below) && ClockMonotone(audits, q)
    requires forall i :: 0 <= i < |audits| && audits[i].queryId == q ==> (audits[i].createdAt <= time <==> audits[i].id <= upto)
    ensures TitleByTime(audits, q, time) == ReplayTitle(audits, q, upto)
    ensures TextByTime(audits, q, time) == ReplayText(audits, q, upto)
  {
    if audits != [] {
      var before := audits[..|audits| - 1];
      NewestStep(audits, below, q, time, HasTitle);
      NewestStep(audits, below, q, time, HasText);
      ByTimeIsById(before, below, q, time, upto);
      hide NewestUpTo, Increasing, ClockMonotone;
    }
  }

  /**
   * With a clock that never goes back, what the model shows for an audit is the state after the last audit of the
   * query with the same timestamp: the audit's own state exactly as far as no later write shares its second.
   */
  lemma SnapshotByTime(s: State, q: QueryId, k: nat, last: nat)
    requires Inv(s) && ClockMonotone(s.audits, q) && LastAtItsTime(s.audits, q, last)
    requires k <= last && s.audits[k].queryId == q && s.audits[k].createdAt == s.audits[last].createdAt
    ensures TitleByTime(s.audits, q, s.audits[k].createdAt) == ReplayTitle(s.audits, q, s.audits[last].id)
    ensures TextByTime(s.audits, q, s.audits[k].createdAt) == ReplayText(s.audits, q, s.audits[last].id)
  {
    forall i | 0 <= i < |s.audits| && s.audits[i].queryId == q
      ensures s.audits[i].createdAt <= s.audits[k].createdAt <==> s.audits[i].id <= s.audits[last].id
    {
      if i > last {
        assert s.audits[last].id < s.audits[i].id;
      } else if i < last {
        assert s.audits[i].id < s.audits[last].id;
      }
    }
    ByTimeIsById(s.audits, s.nextId, q, s.audits[k].createdAt, s.audits[last].id);
  }

  // ---- Every audit says something new, so two in one second cannot both show their own state.

  /** An audit carries a title or a text, and carries none that the audits before it already replay to. */
  ghost predicate InformsAfter(before: seq<Audit>, a: Audit) {
    && (a.title.Some? || a.text.Some?)
    && (a.title.Some? ==> a.title != ReplayTitle(before, a.queryId, a.id))
    && (a.text.Some? ==> a.text != ReplayText(before, a.queryId, a.id))
  }

  ghost predicate Informative(audits: seq<Audit>) {
    forall k :: 0 <= k < |audits| ==> InformsAfter(audits[..k], audits[k])
  }

  lemma InformativeAppend(audits: seq<Audit>, a: Audit)
    ensures Informative(audits + [a]) <==> Informative(audits) && InformsAfter(audits, a)
  {
    hide InformsAfter;
    var all := audits + [a];
    assert all[..|audits|] == audits && all[|audits|] == a;
    if Informative(all) {
      forall k | 0 <= k < |audits|
        ensures InformsAfter(audits[..k], audits[k])
      {
        assert all[..k] == audits[..k];
      }
    }
    if Informative(audits) && InformsAfter(audits, a) {
      forall k | 0 <= k < |all|
        ensures InformsAfter(all[..k], all[k])
      {
        assert k < |audits| ==> all[..k] == audits[..k];
      }
    }
  }

  lemma {:induction false} NoAuditsNoReplay(audits: seq<Audit>, q: QueryId, upto: AuditId)
    requires forall i :: 0 <= i < |audits| ==> audits[i].queryId != q
    ensures ReplayTitle(audits, q, upto) == None && ReplayText(audits, q, upto) == None
  {
    if audits != [] {
      NoAuditsNoReplay(audits[..|audits| - 1], q, upto);
    }
  }

  lemma {:induction false} InformativeWithout(audits: seq<Audit>, q: QueryId)
    requires Informative(audits)
    ensures Informative(Without(audits, q))
  {
    if audits != [] {
      var before, a := audits[..|audits| - 1], audits[|audits| - 1];
      assert audits == before + [a];
      InformativeAppend(before, a);
      InformativeWithout(before, q);
      WithoutAppend(before, a, q);
      if a.queryId == q {
        assert Without(audits, q) == Without(before, q);
      } else {
        ReplayWithout(before, q, a.queryId, a.id);
        InformativeAppend(Without(before, q), a);
      }
    }
  }

  lemma InformativeSame(x: seq<Audit>, y: seq<Audit>)
    requires Informative(x) && |x| == |y| && forall i :: 0 <= i < |x| ==> SameButPrevious(x[i], y[i])
    ensures Informative(y)
  {
    forall k | 0 <= k < |y|
      ensures InformsAfter(y[..k], y[k])
    {
      assert InformsAfter(x[..k], x[k]) && SameButPrevious(x[k], y[k]);
      ReplaySameContent(x[..k], y[..k], y[k].queryId, y[k].id);
    }
  }

  lemma InformativeInsert(s: State, q: QueryId, row: Row)
    requires Inv(s) && Informative(s.audits)
    ensures Informative(Insert(s, q, row).audits)
  {
    if q !in s.rows {
      NoAuditsNoReplay(s.audits, q, s.nextId);
      hide Informative, Inv, ReplayTitle, ReplayText;
      InformativeAppend(s.audits, CreateAudit(s.nextId, q, row));
    }
  }

  lemma InformativeUpdate(s: State, q: QueryId, row: Row, previous: Option<AuditId>)
    requires Inv(s) && Informative(s.audits)
    ensures Informative(UpdateRow(s, q, row, previous).audits)
  {
    if q in s.rows && Changed(s.rows[q], row) {
      RowReplays(s, q);
      hide Informative, Inv, ReplayTitle, ReplayText;
      InformativeAppend(s.audits, UpdateAuditOf(s.nextId, q, s.rows[q], row, previous));
    }
  }

  lemma InformativeDelete(s: State, q: QueryId)
    requires Informative(s.audits)
    ensures Informative(Delete(s, q).audits)
  {
    if Delete(s, q) != s {
      hide *;
      InformativeWithout(s.audits, q);
      DeletedLeaves(s, q);
      InformativeSame(Without(s.audits, q), Delete(s, q).audits);
    }
  }

  lemma InformativeKeeps(s: State, step: Step)
    requires Inv(s) && Enabled(s, step) && Informative(s.audits)
    ensures Informative(Next(s, step).audits)
  {
    hide Informative, Inv, Insert, UpdateRow, Delete;
    match step
    case InsertQuery(q, row) => InformativeInsert(s, q, row);
    case UpdateQuery(q, row, previous) => InformativeUpdate(s, q, row, previous);
    case DeleteQuery(q) => InformativeDelete(s, q);
    case UpdateAudit(columns, audits) =>
      if UpdateAllowed(s.narrowed, columns) {
        AllowedUpdateIsHarmless(s.audits, audits, columns);
        InformativeSame(s.audits, audits);
      }
    case NarrowTrigger =>
  }

  /** The writes of a run to a query carry timestamps no earlier than those before them. */
  ghost predicate Timely(s: State, steps: seq<Step>, q: QueryId)
    decreases |steps|
  {
    steps == [] ||
    (StampedLast(s, steps[0], q) && Timely(Next(s, steps[0]), steps[1..], q))
  }

  ghost predicate StampedLast(s: State, step: Step, q: QueryId) {
    step.UpdateQuery? && step.q == q ==>
      forall i :: 0 <= i < |s.audits| && s.audits[i].queryId == q ==> s.audits[i].createdAt <= step.row.updatedAt
  }

  lemma {:induction false} RunKeepsHistoryReadable(s: State, steps: seq<Step>, q: QueryId)
    requires Inv(s) && Informative(s.audits) && ClockMonotone(s.audits, q)
    requires Allowed(s, steps) && Timely(s, steps, q)
    ensures var t := Exec(s, steps); Inv(t) && Informative(t.audits) && ClockMonotone(t.audits, q)
    decreases |steps|
  {
    hide Inv, Informative, ClockMonotone, Enabled, Next;
    if steps != [] {
      NextKeeps(s, steps[0]);
      InformativeKeeps(s, steps[0]);
      WritesKeepClock(s, steps[0], q);
      RunKeepsHistoryReadable(Next(s, steps[0]), steps[1..], q);
    }
  }

  /** What the model shows for the k-th audit is the state replayed up to it. */
  ghost predicate ShowsItself(audits: seq<Audit>, q: QueryId, k: nat)
    requires k < |audits|
  {
    && TitleByTime(audits, q, audits[k].createdAt) == ReplayTitle(audits, q, audits[k].id)
    && TextByTime(audits, q, audits[k].createdAt) == ReplayText(audits, q, audits[k].id)
  }

  ghost predicate StampsDiffer(audits: seq<Audit>, q: QueryId) {
    forall i, k :: 0 <= i < k < |audits| && audits[i].queryId == q && audits[k].queryId == q ==>
      audits[i].createdAt != audits[k].createdAt
  }

  /** Up to an audit's id the log replays as if it ended there. */
  lemma {:induction false} ReplayCut(audits: seq<Audit>, below: AuditId, q: QueryId, k: nat, upto: AuditId)
    requires Increasing(audits, below) && k <= |audits|
    requires forall i :: k <= i < |audits| ==> upto < audits[i].id
    ensures ReplayTitle(audits, q, upto) == ReplayTitle(audits[..k], q, upto)
    ensures ReplayText(audits, q, upto) == ReplayText(audits[..k], q, upto)
    decreases |audits|
  {
    if k == |audits| {
      assert audits[..k] == audits;
    } else {
      var before := audits[..|audits| - 1];
      ReplayCut(before, below, q, k, upto);
      assert before[..k] == audits[..k];
    }
  }

  lemma ReplayAt(audits: seq<Audit>, below: AuditId, q: QueryId, k: nat)
    requires Increasing(audits, below) && k < |audits| && audits[k].queryId == q
    ensures var before, a := audits[..k], audits[k];
      && ReplayTitle(audits, q, a.id) == (if a.title.Some? then a.title else ReplayTitle(before, q, a.id))
      && ReplayText(audits, q, a.id) == if a.text.Some? then a.text else ReplayText(before, q, a.id)
  {
    hide ReplayTitle, ReplayText;
    assert audits[..k + 1] == audits[..k] + [audits[k]];
    ReplayAppend(audits[..k], audits[k], q, audits[k].id);
    ReplayCut(audits, below, q, k + 1, audits[k].id);
  }

  lemma ReplayUntil(audits: seq<Audit>, below: AuditId, q: QueryId, j: nat, k: nat)
    requires Increasing(audits, below) && j < k < |audits|
    requires forall i :: j < i < k ==> audits[i].queryId != q
    ensures ReplayTitle(audits, q, audits[j].id) == ReplayTitle(audits[..k], q, audits[k].id)
    ensures ReplayText(audits, q, audits[j].id) == ReplayText(audits[..k], q, audits[k].id)
  {
    hide ReplayTitle, ReplayText;
    ReplayCut(audits, below, q, j + 1, audits[j].id);
    ReplayQuiet(audits, below, q, j + 1, k, audits[j].id, audits[k].id);
  }

  /** Between two audits of a query with none of its in between, the later one changes the replay. */
  lemma NextAuditShows(audits: seq<Audit>, below: AuditId, q: QueryId, j: nat, k: nat)
    requires Increasing(audits, below) && Informative(audits) && j < k < |audits|
    requires audits[j].queryId == q && audits[k].queryId == q
    requires forall i :: j < i < k ==> audits[i].queryId != q
    ensures !(ReplayTitle(audits, q, audits[j].id) == ReplayTitle(audits, q, audits[k].id)
              && ReplayText(audits, q, audits[j].id) == ReplayText(audits, q, audits[k].id))
  {
    assert InformsAfter(audits[..k], audits[k]);
    hide Informative, ReplayTitle, ReplayText, Increasing;
    ReplayAt(audits, below, q, k);
    ReplayUntil(audits, below, q, j, k);
  }

  /** A stretch without audits of the query replays to what was there before it. */
  lemma {:induction false} ReplayQuiet(audits: seq<Audit>, below: AuditId, q: QueryId, j: nat, k: nat, a: AuditId, b: AuditId)
    requires Increasing(audits, below) && j <= k <= |audits|
    requires forall i :: j <= i < k ==> audits[i].queryId != q
    requires forall i :: 0 <= i < j ==> audits[i].id <= a && audits[i].id <= b
    ensures ReplayTitle(audits[..j], q, a) == ReplayTitle(audits[..k], q, b)
    ensures ReplayText(audits[..j], q, a) == ReplayText(audits[..k], q, b)
    decreases k - j
  {
    if j == k {
      ReplayAll(audits[..j], q, a, b);
    } else {
      ReplayQuiet(audits, below, q, j, k - 1, a, b);
      assert audits[..k][..k - 1] == audits[..k - 1];
    }
  }

  /** The last audit of the query that has the timestamp of the k-th. */
  lemma LastOfItsSecond(audits: seq<Audit>, q: QueryId, k: nat) returns (last: nat)
    requires k < |audits| && audits[k].queryId == q && ClockMonotone(audits, q)
    ensures k <= last && LastAtItsTime(audits, q, last) && audits[last].createdAt == audits[k].createdAt
  {
    last := k;
    for n := k + 1 to |audits|
      invariant k <= last < n && audits[last].queryId == q && audits[last].createdAt == audits[k].createdAt
      invariant forall i :: last < i < n && audits[i].queryId == q ==> audits[i].createdAt > audits[k].createdAt
    {
      if audits[n].queryId == q && audits[n].createdAt == audits[k].createdAt {
        last := n;
      }
    }
  }

  lemma PreviousOfQuery(audits: seq<Audit>, q: QueryId, i: nat, last: nat) returns (j: nat)
    requires i < last < |audits| && audits[i].queryId == q
    ensures i <= j < last && audits[j].queryId == q && forall n :: j < n < last ==> audits[n].queryId != q
  {
    j := last - 1;
    while audits[j].queryId != q
      invariant i <= j < last && forall n :: j < n < last ==> audits[n].queryId != q
      decreases j
    {
      j := j - 1;
    }
  }

  lemma SharedSecondHides(s: State, q: QueryId, i: nat, k: nat) returns (j: nat)
    requires Inv(s) && Informative(s.audits) && ClockMonotone(s.audits, q) && i < k < |s.audits|
    requires s.audits[i].queryId == q && s.audits[k].queryId == q && s.audits[i].createdAt == s.audits[k].createdAt
    ensures j < |s.audits| && s.audits[j].queryId == q && !ShowsItself(s.audits, q, j)
  {
    assert Increasing(s.audits, s.nextId);
    hide Inv, Informative;
    var last := LastOfItsSecond(s.audits, q, k);
    j := PreviousOfQuery(s.audits, q, i, last);
    assert s.audits[i].createdAt <= s.audits[j].createdAt <= s.audits[last].createdAt;
    SnapshotByTime(s, q, j, last);
    NextAuditShows(s.audits, s.nextId, q, j, last);
  }

  /**
   * After every run whose writes to a query carry timestamps that never go back, the model shows each of the query's
   * audits its own state if and only if no two of them were made in the same second.
   */
  lemma SnapshotsIffStampsDiffer(s: State, steps: seq<Step>, q: QueryId)
    requires Inv(s) && Informative(s.audits) && ClockMonotone(s.audits, q)
    requires Allowed(s, steps) && Timely(s, steps, q)
    ensures var audits := Exec(s, steps).audits;
      (forall k :: 0 <= k < |audits| && audits[k].queryId == q ==> ShowsItself(audits, q, k)) <==> StampsDiffer(audits, q)
  {
    RunKeepsHistoryReadable(s, steps, q);
    var t := Exec(s, steps);
    hide Inv, Informative, ShowsItself, Exec;
    if StampsDiffer(t.audits, q) {
      forall k | 0 <= k < |t.audits| && t.audits[k].queryId == q
        ensures ShowsItself(t.audits, q, k)
      {
        OwnSecondShows(t, q, k);
      }
    }
    forall i, k | 0 <= i < k < |t.audits| && t.audits[i].queryId == q && t.audits[k].queryId == q
                  && t.audits[i].createdAt == t.audits[k].createdAt
      ensures exists j :: 0 <= j < |t.audits| && t.audits[j].queryId == q && !ShowsItself(t.audits, q, j)
    {
      var j := SharedSecondHides(t, q, i, k);
    }
  }

  lemma OwnSecondShows(s: State, q: QueryId, k: nat)
    requires Inv(s) && ClockMonotone(s.audits, q) && StampsDiffer(s.audits, q) && k < |s.audits| && s.audits[k].queryId == q
    ensures ShowsItself(s.audits, q, k)
  {
    hide Inv;
    forall i | k < i < |s.audits| && s.audits[i].queryId == q
      ensures s.audits[i].createdAt > s.audits[k].createdAt
    {
      assert s.audits[k].createdAt <= s.audits[i].createdAt && s.audits[k].createdAt != s.audits[i].createdAt;
    }
    SnapshotByTime(s, q, k, k);
  }

  // ---- A query's first audit is its creation.

  ghost predicate FirstOfQuery(before: seq<Audit>, a: Audit) {
    forall i :: 0 <= i < |before| ==> before[i].queryId != a.queryId
  }

  /** A `create` audit is a query's first one, and that carries title and text both. */
  ghost predicate OpensWell(before: seq<Audit>, a: Audit) {
    && (a.action == Create <==> FirstOfQuery(before, a))
    && (FirstOfQuery(before, a) ==> a.title.Some? && a.text.Some?)
  }

  ghost predicate CreationFirst(audits: seq<Audit>) {
    forall k :: 0 <= k < |audits| ==> OpensWell(audits[..k], audits[k])
  }

  lemma CreationFirstAppend(audits: seq<Audit>, a: Audit)
    ensures CreationFirst(audits + [a]) <==> CreationFirst(audits) && OpensWell(audits, a)
  {
    hide OpensWell;
    var all := audits + [a];
    assert all[..|audits|] == audits && all[|audits|] == a;
    if CreationFirst(all) {
      forall k | 0 <= k < |audits|
        ensures OpensWell(audits[..k], audits[k])
      {
        assert all[..k] == audits[..k];
      }
    }
    if CreationFirst(audits) && OpensWell(audits, a) {
      forall k | 0 <= k < |all|
        ensures OpensWell(all[..k], all[k])
      {
        assert k < |audits| ==> all[..k] == audits[..k];
      }
    }
  }

  lemma SameFirst(before: seq<Audit>, a: Audit, q: QueryId)
    requires a.queryId != q
    ensures FirstOfQuery(Without(before, q), a) <==> FirstOfQuery(before, a)
  {
    var rest := Without(before, q);
    forall i | 0 <= i < |before| && before[i].queryId == a.queryId
      ensures !FirstOfQuery(rest, a)
    {
      WithoutHas(before, q, i);
    }
    forall i | 0 <= i < |rest| && rest[i].queryId == a.queryId
      ensures !FirstOfQuery(before, a)
    {
      assert rest[i] in before;
    }
  }

  lemma {:induction false} CreationFirstWithout(audits: seq<Audit>, q: QueryId)
    requires CreationFirst(audits)
    ensures CreationFirst(Without(audits, q))
  {
    if audits != [] {
      hide CreationFirst, Without;
      var before, a := audits[..|audits| - 1], audits[|audits| - 1];
      assert audits == before + [a];
      CreationFirstAppend(before, a);
      CreationFirstWithout(before, q);
      WithoutAppend(before, a, q);
      if a.queryId == q {
        assert Without(audits, q) == Without(before, q);
      } else {
        SameFirst(before, a, q);
        hide FirstOfQuery;
        CreationFirstAppend(Without(before, q), a);
      }
    } else {
      assert Without(audits, q) == [];
    }
  }

  lemma CreationFirstSame(x: seq<Audit>, y: seq<Audit>)
    requires CreationFirst(x) && |x| == |y| && forall i :: 0 <= i < |x| ==> SameButPrevious(x[i], y[i])
    ensures CreationFirst(y)
  {
    forall k | 0 <= k < |y|
      ensures OpensWell(y[..k], y[k])
    {
      assert OpensWell(x[..k], x[k]) && SameButPrevious(x[k], y[k]);
      forall i | 0 <= i < k
        ensures x[..k][i].queryId == y[..k][i].queryId
      {
        assert SameButPrevious(x[i], y[i]);
      }
    }
  }

  lemma CreationFirstInsert(s: State, q: QueryId, row: Row)
    requires Inv(s) && CreationFirst(s.audits)
    ensures CreationFirst(Insert(s, q, row).audits)
  {
    if q !in s.rows {
      hide CreationFirst, ReplaysTo;
      CreationFirstAppend(s.audits, CreateAudit(s.nextId, q, row));
    }
  }

  lemma CreationFirstUpdate(s: State, q: QueryId, row: Row, previous: Option<AuditId>)
    requires Inv(s) && CreationFirst(s.audits)
    ensures CreationFirst(UpdateRow(s, q, row, previous).audits)
  {
    if q in s.rows && Changed(s.rows[q], row) {
      RowReplays(s, q);
      ReplayedFromSomething(s.audits, q, s.nextId);
      hide CreationFirst, Inv, ReplayTitle, ReplayText, ReplaysTo;
      CreationFirstAppend(s.audits, UpdateAuditOf(s.nextId, q, s.rows[q], row, previous));
    }
  }

  lemma CreationFirstDelete(s: State, q: QueryId)
    requires CreationFirst(s.audits)
    ensures CreationFirst(Delete(s, q).audits)
  {
    if Delete(s, q) != s {
      hide *;
      CreationFirstWithout(s.audits, q);
      DeletedLeaves(s, q);
      CreationFirstSame(Without(s.audits, q), Delete(s, q).audits);
    }
  }

  lemma CreationFirstStep(s: State, step: Step)
    requires Inv(s) && Enabled(s, step) && CreationFirst(s.audits)
    ensures CreationFirst(Next(s, step).audits)
  {
    hide CreationFirst, Inv, Insert, UpdateRow, Delete;
    match step
    case InsertQuery(q, row) => CreationFirstInsert(s, q, row);
    case UpdateQuery(q, row, previous) => CreationFirstUpdate(s, q, row, previous);
    case DeleteQuery(q) => CreationFirstDelete(s, q);
    case UpdateAudit(columns, audits) =>
      if UpdateAllowed(s.narrowed, columns) {
        AllowedUpdateIsHarmless(s.audits, audits, columns);
        CreationFirstSame(s.audits, audits);
      }
    case NarrowTrigger =>
  }

  /** Over every run the `create` audits are the first ones of their queries, and hold the whole query. */
  lemma {:induction false} CreationStaysFirst(s: State, steps: seq<Step>)
    requires Inv(s) && CreationFirst(s.audits) && Allowed(s, steps)
    ensures CreationFirst(Exec(s, steps).audits)
    decreases |steps|
  {
    hide Inv, CreationFirst, Enabled, Next;
    if steps != [] {
      NextKeeps(s, steps[0]);
      CreationFirstStep(s, steps[0]);
      CreationStaysFirst(Next(s, steps[0]), steps[1..]);
    }
  }

  // ---- Restoring a query to what an audit shows.

  /**
   * What the restoring statement's subquery finds: a text of the query's audits up to a time with the latest time stamp,
   * whichever wins a tie.
   */
  ghost predicate FindsText(audits: seq<Audit>, q: QueryId, time: int, text: string) {
    exists k :: 0 <= k < |audits| && CarriesText(audits, q, time, k) && audits[k].text == Some(text)
      && forall i :: 0 <= i < |audits| && CarriesText(audits, q, time, i) ==> audits[i].createdAt <= audits[k].createdAt
  }

  ghost predicate CarriesText(audits: seq<Audit>, q: QueryId, time: int, k: nat)
    requires k < |audits|
  {
    audits[k].queryId == q && audits[k].createdAt <= time && audits[k].text.Some?
  }

  /** The row after restoring, the title resolved before the statement, the text by it; None is the error without a title. */
  function Restored(s: State, q: QueryId, time: int, text: string, updatedAt: int): Option<Row>
    requires q in s.rows
  {
    match TitleByTime(s.audits, q, time)
    case None => None
    case Some(title) => Some(Row(title, text, s.rows[q].createdAt, updatedAt))
  }

  lemma FoundTextIsShown(audits: seq<Audit>, below: AuditId, q: QueryId, time: int, text: string)
    requires Increasing(audits, below) && StampsDiffer(audits, q) && FindsText(audits, q, time, text)
    ensures TextByTime(audits, q, time) == Some(text)
  {
    NewestIsLatest(audits, below, q, time, HasText);
    var k :| 0 <= k < |audits| && CarriesText(audits, q, time, k) && audits[k].text == Some(text)
             && forall i :: 0 <= i < |audits| && CarriesText(audits, q, time, i) ==> audits[i].createdAt <= audits[k].createdAt;
    var a := NewestUpTo(audits, q, time, HasText);
    hide NewestUpTo;
    assert HasText(audits[k]) && a.Some?;
    var m :| 0 <= m < |audits| && audits[m] == a.value;
    assert CarriesText(audits, q, time, m);
    assert audits[m].createdAt == audits[k].createdAt;
    assert m == k;
  }

  lemma RestoreAt(t: State, q: QueryId, k: nat, text: string, updatedAt: int, previous: Option<AuditId>)
    requires Inv(t) && CreationFirst(t.audits) && ClockMonotone(t.audits, q) && StampsDiffer(t.audits, q)
    requires q in t.rows && k < |t.audits| && t.audits[k].queryId == q
    requires FindsText(t.audits, q, t.audits[k].createdAt, text) && LatestByTime(t.audits, q, previous)
    ensures var row := Restored(t, q, t.audits[k].createdAt, text, updatedAt);
      && row.Some? && ReplaysTo(t.audits, q, t.audits[k].id, row.value)
      && Inv(Next(t, UpdateQuery(q, row.value, previous)))
  {
    OwnSecondShows(t, q, k);
    AlwaysTitled(t, q, k);
    FoundTextIsShown(t.audits, t.nextId, q, t.audits[k].createdAt, text);
    RestoredRow(t, q, k, text, updatedAt);
    hide *;
    var step := UpdateQuery(q, Restored(t, q, t.audits[k].createdAt, text, updatedAt).value, previous);
    JustUpdates(t, step);
    NextKeeps(t, step);
  }

  lemma JustUpdates(s: State, step: Step)
    requires step.UpdateQuery? && LatestByTime(s.audits, step.q, step.previous)
    ensures Enabled(s, step)
    ensures step.q in s.rows ==> step.q in Next(s, step).rows && Next(s, step).rows[step.q] == step.row
  {
  }

  lemma RowReplays(s: State, q: QueryId)
    requires Inv(s) && q in s.rows
    ensures ReplaysTo(s.audits, q, s.nextId, s.rows[q])
  {
  }

  /**
   * After every run whose time stamps never go back and differ, restoring any of a query's audits gives the query the
   * title and text it had right after that audit's write, and the log goes on to replay to them.
   */
  lemma RestoreGoesBack(s: State, steps: seq<Step>, q: QueryId, k: nat, text: string, updatedAt: int, previous: Option<AuditId>)
    requires Inv(s) && Informative(s.audits) && CreationFirst(s.audits) && ClockMonotone(s.audits, q)
    requires Allowed(s, steps) && Timely(s, steps, q)
    requires var t := Exec(s, steps);
      && q in t.rows && StampsDiffer(t.audits, q) && k < |t.audits| && t.audits[k].queryId == q
      && FindsText(t.audits, q, t.audits[k].createdAt, text) && LatestByTime(t.audits, q, previous)
    ensures var t := Exec(s, steps);
      var row := Restored(t, q, t.audits[k].createdAt, text, updatedAt);
      && row.Some?
      && var u := Next(t, UpdateQuery(q, row.value, previous));
      q in u.rows && ReplaysTo(t.audits, q, t.audits[k].id, u.rows[q]) && ReplaysTo(u.audits, q, u.nextId, u.rows[q])
  {
    hide *;
    RunKeepsHistoryReadable(s, steps, q);
    CreationStaysFirst(s, steps);
    var t := Exec(s, steps);
    RestoreAt(t, q, k, text, updatedAt, previous);
    var step := UpdateQuery(q, Restored(t, q, t.audits[k].createdAt, text, updatedAt).value, previous);
    JustUpdates(t, step);
    RowReplays(Next(t, step), q);
  }

  /** Restoring the k-th audit gives the state replayed up to it. */
  ghost predicate GoesBack(t: State, q: QueryId, k: nat, text: string)
    requires q in t.rows && k < |t.audits|
  {
    forall updatedAt :: ReplaysBack(t, q, k, Restored(t, q, t.audits[k].createdAt, text, updatedAt))
  }

  ghost predicate ReplaysBack(t: State, q: QueryId, k: nat, row: Option<Row>)
    requires k < |t.audits|
  {
    row.Some? && ReplaysTo(t.audits, q, t.audits[k].id, row.value)
  }

  lemma SharedSecondMisleads(t: State, q: QueryId, i: nat, k: nat) returns (j: nat, text: string)
    requires Inv(t) && Informative(t.audits) && CreationFirst(t.audits) && ClockMonotone(t.audits, q) && q in t.rows
    requires i < k < |t.audits| && t.audits[i].queryId == q && t.audits[k].queryId == q && t.audits[i].createdAt == t.audits[k].createdAt
    ensures j < |t.audits| && t.audits[j].queryId == q && FindsText(t.audits, q, t.audits[j].createdAt, text) && !GoesBack(t, q, j, text)
  {
    assert Increasing(t.audits, t.nextId);
    hide Inv, Informative, CreationFirst;
    j := SharedSecondHides(t, q, i, k);
    AlwaysTitled(t, q, j);
    AlwaysThere(t, q, j, HasText);
    NewestTextFound(t.audits, t.nextId, q, t.audits[j].createdAt);
    text := TextByTime(t.audits, q, t.audits[j].createdAt).value;
    hide TextByTime, TitleByTime, ReplayTitle, ReplayText, ClockMonotone;
    assert !ReplaysBack(t, q, j, Restored(t, q, t.audits[j].createdAt, text, 0));
  }

  /**
   * After every run whose time stamps never go back, restoring any of a query's audits, whichever text wins a tie, gives
   * the query that audit's own state if and only if no two of them carry the same time stamp.
   */
  lemma RestoresIffStampsDiffer(s: State, steps: seq<Step>, q: QueryId)
    requires Inv(s) && Informative(s.audits) && CreationFirst(s.audits) && ClockMonotone(s.audits, q)
    requires Allowed(s, steps) && Timely(s, steps, q) && q in Exec(s, steps).rows
    ensures var t := Exec(s, steps);
      (forall k, text :: 0 <= k < |t.audits| && t.audits[k].queryId == q && FindsText(t.audits, q, t.audits[k].createdAt, text) ==>
         GoesBack(t, q, k, text)) <==> StampsDiffer(t.audits, q)
  {
    RunKeepsHistoryReadable(s, steps, q);
    CreationStaysFirst(s, steps);
    var t := Exec(s, steps);
    assert Increasing(t.audits, t.nextId);
    hide Inv, Informative, CreationFirst, ClockMonotone, Exec, Allowed, Timely, FindsText, GoesBack;
    if StampsDiffer(t.audits, q) {
      forall k, text | 0 <= k < |t.audits| && t.audits[k].queryId == q && FindsText(t.audits, q, t.audits[k].createdAt, text)
        ensures GoesBack(t, q, k, text)
      {
        OwnSecondRestores(t, q, k, text);
      }
    }
    forall i, k | 0 <= i < k < |t.audits| && t.audits[i].queryId == q && t.audits[k].queryId == q
                  && t.audits[i].createdAt == t.audits[k].createdAt
      ensures exists j, text :: 0 <= j < |t.audits| && t.audits[j].queryId == q
                && FindsText(t.audits, q, t.audits[j].createdAt, text) && !GoesBack(t, q, j, text)
    {
      var j, text := SharedSecondMisleads(t, q, i, k);
    }
  }

  lemma OwnSecondRestores(t: State, q: QueryId, k: nat, text: string)
    requires Inv(t) && CreationFirst(t.audits) && ClockMonotone(t.audits, q) && StampsDiffer(t.audits, q)
    requires q in t.rows && k < |t.audits| && t.audits[k].queryId == q && FindsText(t.audits, q, t.audits[k].createdAt, text)
    ensures GoesBack(t, q, k, text)
  {
    OwnSecondShows(t, q, k);
    AlwaysTitled(t, q, k);
    FoundTextIsShown(t.audits, t.nextId, q, t.audits[k].createdAt, text);
    hide Inv, CreationFirst, ClockMonotone, StampsDiffer, FindsText;
    forall updatedAt
      ensures ReplaysBack(t, q, k, Restored(t, q, t.audits[k].createdAt, text, updatedAt))
    {
      RestoredRow(t, q, k, text, updatedAt);
    }
  }

  lemma AlwaysThere(s: State, q: QueryId, k: nat, carries: Audit -> bool)
    requires Inv(s) && CreationFirst(s.audits) && ClockMonotone(s.audits, q) && k < |s.audits| && s.audits[k].queryId == q
    requires forall a: Audit :: a.title.Some? && a.text.Some? ==> carries(a)
    ensures NewestUpTo(s.audits, q, s.audits[k].createdAt, carries).Some?
  {
    var first := FirstAudit(s.audits, q, k);
    assert OpensWell(s.audits[..first], s.audits[first]);
    assert FirstOfQuery(s.audits[..first], s.audits[first]);
    assert first < k ==> s.audits[first].createdAt <= s.audits[k].createdAt;
    assert carries(s.audits[first]);
    hide CreationFirst, ReplaysTo, ClockMonotone, NewestUpTo;
    NewestIsLatest(s.audits, s.nextId, q, s.audits[k].createdAt, carries);
  }

  lemma AlwaysTitled(s: State, q: QueryId, k: nat)
    requires Inv(s) && CreationFirst(s.audits) && ClockMonotone(s.audits, q) && k < |s.audits| && s.audits[k].queryId == q
    ensures TitleByTime(s.audits, q, s.audits[k].createdAt).Some?
  {
    AlwaysThere(s, q, k, HasTitle);
    hide Inv, CreationFirst, ClockMonotone;
    NewestIsLatest(s.audits, s.nextId, q, s.audits[k].createdAt, HasTitle);
    hide NewestUpTo;
  }

  /** The query's first audit carries a title and a text, so restoring finds both, with time stamps that never go back. */
  lemma RestoreFindsText(s: State, steps: seq<Step>, q: QueryId, k: nat)
    requires Inv(s) && Informative(s.audits) && CreationFirst(s.audits) && ClockMonotone(s.audits, q)
    requires Allowed(s, steps) && Timely(s, steps, q)
    requires var t := Exec(s, steps); k < |t.audits| && t.audits[k].queryId == q
    ensures var t := Exec(s, steps);
      && TitleByTime(t.audits, q, t.audits[k].createdAt).Some?
      && exists text :: FindsText(t.audits, q, t.audits[k].createdAt, text)
  {
    RunKeepsHistoryReadable(s, steps, q);
    CreationStaysFirst(s, steps);
    var t := Exec(s, steps);
    hide Exec, Allowed, Timely, Informative;
    AlwaysTitled(t, q, k);
    AlwaysThere(t, q, k, HasText);
    NewestTextFound(t.audits, t.nextId, q, t.audits[k].createdAt);
  }

  lemma NewestTextFound(audits: seq<Audit>, below: AuditId, q: QueryId, time: int)
    requires Increasing(audits, below) && NewestUpTo(audits, q, time, HasText).Some?
    ensures TextByTime(audits, q, time).Some? && FindsText(audits, q, time, TextByTime(audits, q, time).value)
  {
    NewestIsLatest(audits, below, q, time, HasText);
    var a := NewestUpTo(audits, q, time, HasText).value;
    hide NewestUpTo;
    var m :| 0 <= m < |audits| && audits[m] == a;
    assert CarriesText(audits, q, time, m) && audits[m].text == Some(a.text.value);
    forall i | 0 <= i < |audits| && CarriesText(audits, q, time, i)
      ensures audits[i].createdAt <= audits[m].createdAt
    {
      assert HasText(audits[i]);
    }
    assert FindsText(audits, q, time, a.text.value);
  }

  lemma FirstAudit(audits: seq<Audit>, q: QueryId, k: nat) returns (first: nat)
    requires k < |audits| && audits[k].queryId == q
    ensures first <= k && audits[first].queryId == q && forall i :: 0 <= i < first ==> audits[i].queryId != q
  {
    first := 0;
    while audits[first].queryId != q
      invariant first <= k && forall i :: 0 <= i < first ==> audits[i].queryId != q
      decreases k - first
    {
      first := first + 1;
    }
  }

  lemma RestoredRow(s: State, q: QueryId, k: nat, text: string, updatedAt: int)
    requires q in s.rows && k < |s.audits| && ShowsItself(s.audits, q, k)
    requires TitleByTime(s.audits, q, s.audits[k].createdAt).Some?
    requires TextByTime(s.audits, q, s.audits[k].createdAt) == Some(text)
    ensures var row := Restored(s, q, s.audits[k].createdAt, text, updatedAt);
      row.Some? && ReplaysTo(s.audits, q, s.audits[k].id, row.value)
  {
    hide TitleByTime, TextByTime, ReplayTitle, ReplayText;
  }

  const EMPTY := State(map[], [], 1, false)

  const SAVED := Row("a", "x", 0, 0)

  const RENAMED := Row("b", "x", 0, 0)

  const SAVE_AND_RENAME := [InsertQuery(7, SAVED), UpdateQuery(7, RENAMED, Some(1))]

  const BOTH_AUDITS := [CreateAudit(1, 7, SAVED), UpdateAuditOf(2, 7, SAVED, RENAMED, Some(1))]

  lemma SaveAndRenameRun()
    ensures Allowed(EMPTY, SAVE_AND_RENAME) && Timely(EMPTY, SAVE_AND_RENAME, 7)
    ensures Exec(EMPTY, SAVE_AND_RENAME).audits == BOTH_AUDITS
  {
    var s1 := Next(EMPTY, SAVE_AND_RENAME[0]);
    assert s1.audits == [CreateAudit(1, 7, SAVED)] && s1.nextId == 2;
    var s2 := Next(s1, SAVE_AND_RENAME[1]);
    assert s2.audits == BOTH_AUDITS;
    assert SAVE_AND_RENAME[1..] == [SAVE_AND_RENAME[1]] && [SAVE_AND_RENAME[1]][1..] == [];
    assert LatestByTime(s1.audits, 7, Some(1)) by {
      assert s1.audits[0].queryId == 7 && s1.audits[0].id == 1;
    }
    assert Exec(s1, [SAVE_AND_RENAME[1]]) == Exec(s2, []);
  }

  lemma SaveAndRenameShown()
    ensures ReplayTitle(BOTH_AUDITS, 7, 1) == Some("a") && TitleByTime(BOTH_AUDITS, 7, 0) == Some("b")
  {
    var first := CreateAudit(1, 7, SAVED);
    assert BOTH_AUDITS[..1] == [first] && [first][..0] == [];
    assert NewestUpTo([first], 7, 0, HasTitle) == Some(first);
  }

  /** Saved and renamed, a query can no longer be deleted under the first trigger. */
  lemma RenamedCannotBeDeleted()
    ensures LinkInv(EMPTY) && Allowed(EMPTY, SAVE_AND_RENAME)
    ensures var s := Exec(EMPTY, SAVE_AND_RENAME); !s.narrowed && 7 in s.rows && 7 in Delete(s, 7).rows
  {
    SaveAndRenameRun();
    EmptyIsSound();
    SaveAndRenameRows();
    hide Exec, Allowed;
    assert BOTH_AUDITS[1].queryId == 7 && BOTH_AUDITS[1].previous.Some?;
  }

  lemma SaveAndRenameRows()
    ensures var s := Exec(EMPTY, SAVE_AND_RENAME); !s.narrowed && 7 in s.rows
  {
    var s1 := Next(EMPTY, SAVE_AND_RENAME[0]);
    var s2 := Next(s1, SAVE_AND_RENAME[1]);
    assert SAVE_AND_RENAME[1..] == [SAVE_AND_RENAME[1]] && [SAVE_AND_RENAME[1]][1..] == [];
    assert Exec(s1, [SAVE_AND_RENAME[1]]) == Exec(s2, []);
  }

  /** A query saved and renamed in one second: its first audit shows the later title. */
  lemma SameSecondShowsLater()
    ensures Inv(EMPTY) && Informative(EMPTY.audits) && Allowed(EMPTY, SAVE_AND_RENAME) && Timely(EMPTY, SAVE_AND_RENAME, 7)
    ensures var audits := Exec(EMPTY, SAVE_AND_RENAME).audits;
      |audits| == 2 && ReplayTitle(audits, 7, audits[0].id) == Some("a") && TitleByTime(audits, 7, audits[0].createdAt) == Some("b")
  {
    SaveAndRenameRun();
    SaveAndRenameShown();
    hide Exec, Allowed, Timely, ReplayTitle, TitleByTime;
  }

  // ---- Single steps of the cascade, at the n-th audit.

  lemma IdsAppend(audits: seq<Audit>, q: QueryId, n: nat)
    requires n < |audits|
    ensures IdsOf(audits[..n + 1], q) == IdsOf(audits[..n], q) + if audits[n].queryId == q then {audits[n].id} else {}
  {
    var x, y := audits[..n + 1], audits[..n];
    assert x[n] == audits[n];
    forall id | id in IdsOf(y, q)
      ensures id in IdsOf(x, q)
    {
      var i :| 0 <= i < |y| && y[i].queryId == q && y[i].id == id;
      assert x[i] == y[i];
    }
    forall id | id in IdsOf(x, q)
      ensures id in IdsOf(y, q) || (audits[n].queryId == q && id == audits[n].id)
    {
      var i :| 0 <= i < |x| && x[i].queryId == q && x[i].id == id;
      assert i < n ==> y[i] == x[i];
    }
  }

  lemma DetachMore(rest: seq<Audit>, gone: set<AuditId>, id: AuditId)
    ensures Detach(rest, gone + {id}) == Detach(Detach(rest, gone), {id})
  {
  }

  lemma CascadeStep(audits: seq<Audit>, q: QueryId, n: nat)
    requires n < |audits| && audits[n].queryId == q
    ensures var gone, id := IdsOf(audits[..n], q), audits[n].id;
      && IdsOf(audits[..n + 1], q) == gone + {id}
      && Detach(Without(audits[..n + 1], q), gone + {id}) == Detach(Detach(Without(audits[..n], q), gone), {id})
      && Detach(audits[n + 1..], gone + {id}) == Detach(Detach(audits[n..], gone)[1..], {id})
  {
    var gone, id := IdsOf(audits[..n], q), audits[n].id;
    IdsAppend(audits, q, n);
    assert audits[..n + 1] == audits[..n] + [audits[n]];
    WithoutAppend(audits[..n], audits[n], q);
    assert Without(audits[..n + 1], q) == Without(audits[..n], q);
    DetachMore(Without(audits[..n], q), gone, id);
    DetachMore(audits[n + 1..], gone, id);
    assert Detach(audits[n + 1..], gone) == Detach(audits[n..], gone)[1..];
  }

  lemma KeepStep(audits: seq<Audit>, q: QueryId, n: nat)
    requires n < |audits| && audits[n].queryId != q
    ensures var gone := IdsOf(audits[..n], q);
      && IdsOf(audits[..n + 1], q) == gone
      && Detach(Without(audits[..n + 1], q), gone) == Detach(Without(audits[..n], q), gone) + [Detach(audits[n..], gone)[0]]
      && Detach(audits[n + 1..], gone) == Detach(audits[n..], gone)[1..]
  {
    IdsAppend(audits, q, n);
    assert audits[..n + 1] == audits[..n] + [audits[n]];
    WithoutAppend(audits[..n], audits[n], q);
  }

  /** No audit links into the query's first ones, up to n, and none of those is linked. */
  ghost predicate Unlinked(audits: seq<Audit>, q: QueryId, n: nat)
    requires n <= |audits|
  {
    && (forall i :: 0 <= i < |audits| && audits[i].previous.Some? ==> audits[i].previous.value !in IdsOf(audits[..n], q))
    && (forall i :: 0 <= i < n && audits[i].queryId == q ==> audits[i].previous.None?)
  }

  lemma UnlinkedDetachesNothing(audits: seq<Audit>, q: QueryId, n: nat)
    requires n <= |audits| && Unlinked(audits, q, n)
    ensures Detach(Without(audits[..n], q), IdsOf(audits[..n], q)) == Without(audits[..n], q)
    ensures Detach(audits[n..], IdsOf(audits[..n], q)) == audits[n..]
  {
    var kept := Without(audits[..n], q);
    forall i | 0 <= i < |kept|
      ensures !(kept[i].previous.Some? && kept[i].previous.value in IdsOf(audits[..n], q))
    {
      assert kept[i] in audits[..n];
    }
  }

  lemma CascadeStart(audits: seq<Audit>, q: QueryId)
    ensures IdsOf(audits[..0], q) == {} && Unlinked(audits, q, 0)
    ensures Detach(Without(audits[..0], q), {}) == [] && Detach(audits[0..], {}) == audits
  {
  }

  lemma CascadeEnd(audits: seq<Audit>, q: QueryId)
    ensures Unlinked(audits, q, |audits|) ==> !Referenced(audits, q)
  {
  }

  lemma UnlinkedStep(audits: seq<Audit>, q: QueryId, n: nat)
    requires n < |audits| && audits[n].queryId != q && Unlinked(audits, q, n)
    ensures Unlinked(audits, q, n + 1)
  {
    IdsAppend(audits, q, n);
  }

  /** What is left of the table when the first n audits and the n-th one have been looked at. */
  function Others(audits: seq<Audit>, q: QueryId, n: nat): seq<Audit>
    requires n < |audits|
  {
    Without(audits[..n], q) + audits[n + 1..]
  }

  ghost predicate LinkedTo(audits: seq<Audit>, id: AuditId) {
    exists i :: 0 <= i < |audits| && audits[i].previous == Some(id)
  }

  lemma OthersAreAudits(audits: seq<Audit>, q: QueryId, n: nat, a: Audit)
    requires n < |audits|
    ensures a in Others(audits, q, n) ==> a in audits
    ensures a in audits && a != audits[n] ==> a in Others(audits, q, n) || (a.queryId == q && a in audits[..n])
  {
    if a in audits && a != audits[n] {
      var j :| 0 <= j < |audits| && audits[j] == a;
      if j < n {
        assert audits[..n][j] == a;
        if a.queryId != q {
          WithoutHas(audits[..n], q, j);
        }
      } else {
        assert audits[n + 1..][j - n - 1] == a;
      }
    }
  }

  /** Deleting the n-th audit sets a link to NULL, and so aborts, only if the query has a linked audit. */
  lemma LinkFound(s: State, q: QueryId, n: nat)
    requires Inv(s) && Linked(s.audits)
    requires n < |s.audits| && s.audits[n].queryId == q && LinkedTo(Others(s.audits, q, n), s.audits[n].id)
    ensures Referenced(s.audits, q)
  {
    hide ReplaysTo, Without, Others;
    var audits, others := s.audits, Others(s.audits, q, n);
    var i :| 0 <= i < |others| && others[i].previous == Some(audits[n].id);
    OthersAreAudits(audits, q, n, others[i]);
    var j :| 0 <= j < |audits| && audits[j] == others[i];
    assert LinkedAt(audits[..j], audits[j]);
    var k :| 0 <= k < j && audits[..j][k].queryId == audits[j].queryId && audits[..j][k].id == audits[n].id;
    assert k == n;
  }

  lemma NoLinkFound(s: State, q: QueryId, n: nat)
    requires Inv(s) && Linked(s.audits)
    requires n < |s.audits| && s.audits[n].queryId == q && !LinkedTo(Others(s.audits, q, n), s.audits[n].id)
    requires Unlinked(s.audits, q, n)
    ensures Unlinked(s.audits, q, n + 1)
  {
    var audits, id := s.audits, s.audits[n].id;
    assert audits[n].previous.None? by {
      assert LinkedAt(audits[..n], audits[n]);
    }
    IdsAppend(audits, q, n);
    forall j | 0 <= j < |audits| && audits[j].previous.Some?
      ensures audits[j].previous.value != id
    {
      OthersAreAudits(audits, q, n, audits[j]);
    }
  }

  // ---- The two tables and their triggers.

  /** The first n of the existing rows. */
  function Baseline(existing: seq<(QueryId, Row)>, n: nat): map<QueryId, Row>
    requires n <= |existing|
  {
    if n == 0 then map[] else Baseline(existing, n - 1)[existing[n - 1].0 := existing[n - 1].1]
  }

  lemma {:induction false} BaselineHolds(existing: seq<(QueryId, Row)>, n: nat)
    requires n <= |existing| && forall i, k :: 0 <= i < k < |existing| ==> existing[i].0 != existing[k].0
    ensures Baseline(existing, n).Keys == set i | 0 <= i < n :: existing[i].0
    ensures forall i :: 0 <= i < n ==> Baseline(existing, n)[existing[i].0] == existing[i].1
    ensures forall i :: n <= i < |existing| ==> existing[i].0 !in Baseline(existing, n)
  {
    if n > 0 {
      BaselineHolds(existing, n - 1);
    }
  }

  /** The first n existing rows with a baseline audit each. */
  ghost function Seeded(existing: seq<(QueryId, Row)>, n: nat): State
    requires n <= |existing|
  {
    State(Baseline(existing, n), seq(n, i requires 0 <= i < n => CreateAudit(i + 1, existing[i].0, existing[i].1)), n + 1, false)
  }

  lemma SeededStep(existing: seq<(QueryId, Row)>, n: nat)
    requires n < |existing| && forall i, k :: 0 <= i < k < |existing| ==> existing[i].0 != existing[k].0
    ensures Insert(Seeded(existing, n), existing[n].0, existing[n].1) == Seeded(existing, n + 1)
  {
    BaselineHolds(existing, n);
    assert existing[n].0 !in Baseline(existing, n);
    var s, t := Insert(Seeded(existing, n), existing[n].0, existing[n].1), Seeded(existing, n + 1);
    assert s.audits == t.audits;
  }

  lemma SeededHolds(existing: seq<(QueryId, Row)>)
    requires forall i, k :: 0 <= i < k < |existing| ==> existing[i].0 != existing[k].0
    ensures var s := Seeded(existing, |existing|);
      && s.rows.Keys == (set i | 0 <= i < |existing| :: existing[i].0)
      && (forall i :: 0 <= i < |existing| ==> s.rows[existing[i].0] == existing[i].1)
      && |s.audits| == |existing| && s.nextId == |existing| + 1 && !s.narrowed
      && forall i :: 0 <= i < |existing| ==> s.audits[i] == CreateAudit(i + 1, existing[i].0, existing[i].1)
  {
    BaselineHolds(existing, |existing|);
  }

  lemma EmptyIsSound()
    ensures LinkInv(State(map[], [], 1, false)) && Informative([])
  {
  }

  lemma EveryRowReplays(s: State)
    requires LinkInv(s)
    ensures forall q :: q in s.rows ==> ReplaysTo(s.audits, q, s.nextId, s.rows[q])
  {
  }

  class AuditDatabase {
    var favoriteQueries: map<QueryId, Row>
    var audits: seq<Audit>
    var nextAuditId: AuditId
    var narrowed: bool

    ghost function View(): State
      reads this
    {
      State(favoriteQueries, audits, nextAuditId, narrowed)
    }

    ghost predicate Valid()
      reads this
    {
      LinkInv(View()) && Informative(audits)
    }

    /** The migration: a baseline audit for every query there is. */
    constructor (existing: seq<(QueryId, Row)>)
      requires forall i, k :: 0 <= i < k < |existing| ==> existing[i].0 != existing[k].0
      ensures Valid() && !narrowed
      ensures favoriteQueries.Keys == set i | 0 <= i < |existing| :: existing[i].0
      ensures forall i :: 0 <= i < |existing| ==> favoriteQueries[existing[i].0] == existing[i].1
      ensures forall q :: q in favoriteQueries ==> ReplaysTo(audits, q, nextAuditId, favoriteQueries[q])
      ensures |audits| == |existing| && nextAuditId == |existing| + 1
      ensures forall i :: 0 <= i < |existing| ==> audits[i] == CreateAudit(i + 1, existing[i].0, existing[i].1)
    {
      favoriteQueries, audits, nextAuditId, narrowed := map[], [], 1, false;
      new;
      EmptyIsSound();
      hide LinkInv, Inv, Informative, Insert;
      for n := 0 to |existing|
        invariant Valid() && View() == Seeded(existing, n)
      {
        SeededStep(existing, n);
        InsertQuery(existing[n].0, existing[n].1);
      }
      hide Seeded;
      SeededHolds(existing);
      EveryRowReplays(View());
    }

    method InsertQuery(q: QueryId, row: Row)
      requires Valid()
      modifies this
      ensures View() == Insert(old(View()), q, row) && Valid()
    {
      LinkKeeps(View(), Step.InsertQuery(q, row));
      InformativeKeeps(View(), Step.InsertQuery(q, row));
      if q !in favoriteQueries {
        favoriteQueries := favoriteQueries[q := row];
        audits := audits + [CreateAudit(nextAuditId, q, row)];
        nextAuditId := nextAuditId + 1;
      }
    }

    method UpdateQuery(q: QueryId, row: Row, previous: Option<AuditId>)
      requires Valid() && LatestByTime(audits, q, previous)
      modifies this
      ensures View() == UpdateRow(old(View()), q, row, previous) && Valid()
    {
      LinkKeeps(View(), Step.UpdateQuery(q, row, previous));
      InformativeKeeps(View(), Step.UpdateQuery(q, row, previous));
      if q in favoriteQueries {
        var before := favoriteQueries[q];
        favoriteQueries := favoriteQueries[q := row];
        if Changed(before, row) {
          audits := audits + [UpdateAuditOf(nextAuditId, q, before, row, previous)];
          nextAuditId := nextAuditId + 1;
        }
      }
    }

    /** An UPDATE of the audit table; false is the trigger's abort, which a statement that matches no row does not meet. */
    method UpdateAudits(columns: set<Column>, matches: bool, updated: seq<Audit>) returns (ok: bool)
      requires Valid() && Enabled(View(), Step.UpdateAudit(columns, updated)) && (!matches ==> updated == audits)
      modifies this
      ensures View() == Next(old(View()), Step.UpdateAudit(columns, updated)) && Valid()
      ensures ok <==> !matches || (narrowed && forall c :: c in columns ==> c == PreviousAuditId)
    {
      LinkKeeps(View(), Step.UpdateAudit(columns, updated));
      InformativeKeeps(View(), Step.UpdateAudit(columns, updated));
      if !matches {
        return true;
      }
      ok := UpdateAllowed(narrowed, columns);
      if ok {
        audits := updated;
      }
    }

    /** The later migration. */
    method NarrowTrigger()
      requires Valid()
      modifies this
      ensures View() == Next(old(View()), Step.NarrowTrigger) && Valid()
    {
      LinkKeeps(View(), Step.NarrowTrigger);
      InformativeKeeps(View(), Step.NarrowTrigger);
      narrowed := true;
    }

    /** Deletes the audits of a query one by one, in id order, dropping the links to each. */
    static method Cascade(ghost s: State, audits: seq<Audit>, q: QueryId, narrowed: bool) returns (ok: bool, kept: seq<Audit>)
      requires LinkInv(s) && audits == s.audits && narrowed == s.narrowed
      ensures ok <==> narrowed || !Referenced(audits, q)
      ensures ok ==> kept == Detach(Without(audits, q), IdsOf(audits, q))
    {
      hide Detach, Linked, Inv, Unlinked, Referenced, Without, IdsOf;
      CascadeStart(audits, q);
      kept := [];
      var rest := audits;
      ghost var gone: set<AuditId> := {};
      for n := 0 to |audits|
        invariant gone == IdsOf(audits[..n], q)
        invariant kept == Detach(Without(audits[..n], q), gone) && rest == Detach(audits[n..], gone)
        invariant !narrowed ==> Unlinked(audits, q, n)
      {
        var a := rest[0];
        assert SameButPrevious(audits[n..][0], a);
        if a.queryId == q {
          CascadeStep(audits, q, n);
          var others := kept + rest[1..];
          if !narrowed {
            UnlinkedDetachesNothing(audits, q, n);
            assert others == Others(audits, q, n);
            if exists i :: 0 <= i < |others| && others[i].previous == Some(a.id) {
              LinkFound(s, q, n);
              return false, [];
            }
            NoLinkFound(s, q, n);
          }
          kept, rest, gone := Detach(kept, {a.id}), Detach(rest[1..], {a.id}), gone + {a.id};
        } else {
          KeepStep(audits, q, n);
          kept, rest := kept + [a], rest[1..];
          if !narrowed {
            UnlinkedStep(audits, q, n);
          }
        }
      }
      assert audits[..|audits|] == audits;
      CascadeEnd(audits, q);
      ok := true;
    }

    /** An abort in the cascade takes the whole statement back. */
    method DeleteQuery(q: QueryId) returns (ok: bool)
      requires Valid()
      modifies this
      ensures View() == Delete(old(View()), q) && Valid()
      ensures ok <==> narrowed || q !in old(favoriteQueries) || !Referenced(old(audits), q)
    {
      LinkKeeps(View(), Step.DeleteQuery(q));
      InformativeKeeps(View(), Step.DeleteQuery(q));
      if q !in favoriteQueries {
        return true;
      }
      var kept;
      ok, kept := Cascade(View(), audits, q, narrowed);
      if ok {
        favoriteQueries, audits := favoriteQueries - {q}, kept;
      }
    }
  }
}
