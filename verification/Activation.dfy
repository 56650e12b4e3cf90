/** The activation of a calibration artifact: the trigger procedures as guards of database steps, and
    the audit that a deployment runs over what they let through. */
module Activation {
  import opened Prelude
  import opened Sequences

  /** The largest PostgreSQL BIGINT. */
  const MAX_BIGINT: int := 0x7FFF_FFFF_FFFF_FFFF

  /** The single row of mismatch_calibration_activation. */
  datatype ActivationRow = ActivationRow(id: int, artifactId: Option<Text>, revision: int, updatedAt: int)

  /** A row of mismatch_calibration_activation_events, without the request that it records. */
  datatype Event = Event(
    previousArtifactId: Option<Text>, artifactId: Option<Text>, previousRevision: int, revision: int,
    occurredAt: int, recordedAt: int)

  /** Both tables; events are in the order of their ids. */
  datatype Tables = Tables(activation: ActivationRow, events: seq<Event>)

  predicate IsBigint(n: int) {
    -MAX_BIGINT - 1 <= n <= MAX_BIGINT
  }

  // ----- column checks and trigger procedures

  predicate EventChecks(e: Event) {
    && IsBigint(e.previousRevision) && IsBigint(e.revision) && IsBigint(e.occurredAt) && IsBigint(e.recordedAt)
    && e.previousRevision >= 0 && e.revision == e.previousRevision + 1
    && e.occurredAt >= 0 && e.recordedAt >= e.occurredAt
  }

  predicate ActivationChecks(a: ActivationRow) {
    a.id == 1 && IsBigint(a.revision) && IsBigint(a.updatedAt) && a.revision >= 0 && a.updatedAt >= 0
  }

  predicate IsUniqueRevision(t: Tables, e: Event) {
    forall other :: other in t.events ==> other.revision != e.revision
  }

  /** validate_mismatch_calibration_activation_event */
  predicate ExtendsState(a: ActivationRow, e: Event) {
    && e.previousRevision == a.revision && e.previousArtifactId == a.artifactId
    && e.revision == a.revision + 1 && e.recordedAt > a.updatedAt
  }

  predicate IsEventOf(e: Event, before: ActivationRow, after: ActivationRow) {
    && e.previousRevision == before.revision && e.revision == after.revision
    && e.previousArtifactId == before.artifactId && e.artifactId == after.artifactId && e.recordedAt == after.updatedAt
  }

  /** require_mismatch_calibration_activation_event */
  predicate HasMatchingEvent(t: Tables, a: ActivationRow) {
    && a.id == t.activation.id && a.revision == t.activation.revision + 1 && a.updatedAt > t.activation.updatedAt
    && exists e :: e in t.events && IsEventOf(e, t.activation, a)
  }

  /** require_mismatch_calibration_activation_state */
  predicate IsReflected(a: ActivationRow, e: Event) {
    a.revision >= e.revision && (a.revision == e.revision ==> a.artifactId == e.artifactId)
  }

  // ----- transactions

  /** What a transaction sees and has inserted. It holds the lock on the activation row, which both
      an insert and an update take first. */
  datatype Tx = Tx(owner: nat, tables: Tables, inserted: seq<Event>)

  datatype System = System(committed: Tables, open: Option<Tx>)

  datatype Action = InsertEvent(event: Event) | UpdateActivation(row: ActivationRow) | ChangeFact | Commit | Abort

  /** The transaction of a session: its own, or a new one if the row is free; a session has to wait
      while another one holds the row. */
  function TxOf(s: System, owner: nat): Option<Tx> {
    match s.open
    case None => Some(Tx(owner, s.committed, []))
    case Some(tx) => if tx.owner == owner then Some(tx) else None
  }

  /** An error rolls the transaction back. */
  function RollBack(s: System): System {
    s.(open := None)
  }

  function Insert(s: System, tx: Tx, e: Event): System {
    if EventChecks(e) && ExtendsState(tx.tables.activation, e) && IsUniqueRevision(tx.tables, e) then
      s.(open := Some(Tx(tx.owner, tx.tables.(events := tx.tables.events + [e]), tx.inserted + [e])))
    else RollBack(s)
  }

  function Update(s: System, tx: Tx, a: ActivationRow): System {
    if ActivationChecks(a) && HasMatchingEvent(tx.tables, a) then
      s.(open := Some(tx.(tables := tx.tables.(activation := a))))
    else RollBack(s)
  }

  /** The deferred trigger looks at every inserted event when the transaction commits. */
  predicate MayCommit(tx: Tx) {
    forall e :: e in tx.inserted ==> IsReflected(tx.tables.activation, e)
  }

  function CommitTx(s: System, tx: Tx): System {
    if MayCommit(tx) then System(tx.tables, None) else RollBack(s)
  }

  /** One statement of a session. Changing or deleting an event, or deleting the row, is refused. */
  function Act(s: System, owner: nat, action: Action): System {
    match TxOf(s, owner)
    case None => s
    case Some(tx) =>
      match action
      case InsertEvent(e) => Insert(s, tx, e)
      case UpdateActivation(a) => Update(s, tx, a)
      case ChangeFact => RollBack(s)
      case Commit => CommitTx(s, tx)
      case Abort => RollBack(s)
  }

  datatype Turn = Turn(owner: nat, action: Action)

  /** Revision 0, nothing active, no events. */
  function Genesis(createdAt: nat): System {
    System(Tables(ActivationRow(1, None, 0, createdAt), []), None)
  }

  function Run(createdAt: nat, turns: seq<Turn>): System {
    if turns == [] then Genesis(createdAt)
    else
      var turn := turns[|turns| - 1];
      Act(Run(createdAt, turns[..|turns| - 1]), turn.owner, turn.action)
  }

  // ----- the chain of events

  function ArtifactAfter(events: seq<Event>, n: nat): Option<Text>
    requires n <= |events|
  {
    if n == 0 then None else events[n - 1].artifactId
  }

  /** Event i + 1 follows the one before it. */
  predicate FollowsAt(events: seq<Event>, i: nat)
    requires i < |events|
  {
    var e := events[i];
    && e.revision == i + 1 && e.previousRevision == i && e.previousArtifactId == ArtifactAfter(events, i)
    && 0 <= e.occurredAt <= e.recordedAt
    && (i > 0 ==> e.recordedAt > events[i - 1].recordedAt)
  }

  predicate IsChain(events: seq<Event>) {
    forall i :: 0 <= i < |events| ==> FollowsAt(events, i)
  }

  /** The activation row is the tail of the chain. */
  predicate IsTail(a: ActivationRow, events: seq<Event>) {
    && a.revision == |events| && a.artifactId == ArtifactAfter(events, |events|)
    && (events != [] ==> a.updatedAt == events[|events| - 1].recordedAt)
  }

  predicate IsLinked(t: Tables) {
    t.activation.updatedAt >= 0 && IsChain(t.events) && IsTail(t.activation, t.events)
  }

  /** Within a transaction: linked, or linked but for one event not yet reflected. */
  predicate IsHalfway(t: Tables) {
    && t.events != []
    && IsLinked(t.(events := t.events[..|t.events| - 1]))
    && EventChecks(t.events[|t.events| - 1]) && ExtendsState(t.activation, t.events[|t.events| - 1])
  }

  predicate TxInv(tx: Tx) {
    && (forall e :: e in tx.inserted ==> e in tx.tables.events)
    && (IsLinked(tx.tables) || (IsHalfway(tx.tables) && tx.tables.events[|tx.tables.events| - 1] in tx.inserted))
  }

  predicate Inv(s: System) {
    IsLinked(s.committed) && (s.open.Some? ==> TxInv(s.open.value))
  }

  lemma ChainSnoc(events: seq<Event>, e: Event)
    requires IsChain(events)
    ensures IsChain(events + [e]) <==> FollowsAt(events + [e], |events|)
  {
    var longer := events + [e];
    forall i | 0 <= i < |events|
      ensures FollowsAt(longer, i)
    {
      assert FollowsAt(events, i);
    }
  }

  /** Halfway, the next revision is already taken. */
  lemma HalfwayRefuses(t: Tables, e: Event)
    requires IsHalfway(t) && ExtendsState(t.activation, e)
    ensures !IsUniqueRevision(t, e)
  {
    assert t.events[|t.events| - 1] in t.events;
  }

  lemma LinkedGoesHalfway(t: Tables, e: Event)
    requires IsLinked(t) && EventChecks(e) && ExtendsState(t.activation, e)
    ensures IsHalfway(t.(events := t.events + [e]))
  {
    assert (t.events + [e])[..|t.events|] == t.events;
  }

  lemma InsertKeeps(s: System, tx: Tx, e: Event)
    requires Inv(s) && TxInv(tx)
    ensures Inv(Insert(s, tx, e))
  {
    if EventChecks(e) && ExtendsState(tx.tables.activation, e) {
      if IsHalfway(tx.tables) {
        HalfwayRefuses(tx.tables, e);
      } else {
        LinkedGoesHalfway(tx.tables, e);
      }
    }
  }

  /** In a linked chain, no event is beyond the activation row. */
  lemma NoneBeyond(t: Tables, e: Event)
    requires IsLinked(t) && e in t.events
    ensures e.revision <= t.activation.revision
    ensures e.revision == t.activation.revision ==> e == t.events[|t.events| - 1]
  {
    var i :| 0 <= i < |t.events| && t.events[i] == e;
    assert FollowsAt(t.events, i);
  }

  lemma UpdateKeeps(s: System, tx: Tx, a: ActivationRow)
    requires Inv(s) && TxInv(tx)
    ensures Inv(Update(s, tx, a))
  {
    var t := tx.tables;
    if ActivationChecks(a) && HasMatchingEvent(t, a) {
      var e :| e in t.events && IsEventOf(e, t.activation, a);
      if IsLinked(t) {
        NoneBeyond(t, e);
        assert false;
      }
      HalfwayJoins(t, a, e);
    }
  }

  /** Halfway, the row of the pending event makes the chain linked again. */
  lemma HalfwayJoins(t: Tables, a: ActivationRow, e: Event)
    requires IsHalfway(t) && e in t.events && ActivationChecks(a) && IsEventOf(e, t.activation, a)
    requires a.revision == t.activation.revision + 1
    ensures IsLinked(t.(activation := a))
  {
    HalfwayMatch(t, e);
    var before := t.events[..|t.events| - 1];
    assert t.events == before + [e];
    ChainSnoc(before, e);
  }

  /** Halfway, only the last event is beyond the activation row. */
  lemma HalfwayMatch(t: Tables, e: Event)
    requires IsHalfway(t) && e in t.events && e.revision == t.activation.revision + 1
    ensures e == t.events[|t.events| - 1]
  {
    var before := t.(events := t.events[..|t.events| - 1]);
    assert t.events == before.events + [t.events[|t.events| - 1]];
    if e in before.events {
      NoneBeyond(before, e);
    }
  }

  lemma CommitKeeps(s: System, tx: Tx)
    requires Inv(s) && TxInv(tx)
    ensures Inv(CommitTx(s, tx))
  {
    if IsHalfway(tx.tables) {
      HalfwayIsUnreflected(tx.tables);
    }
  }

  lemma HalfwayIsUnreflected(t: Tables)
    requires IsHalfway(t)
    ensures !IsReflected(t.activation, t.events[|t.events| - 1])
  {
  }

  lemma ActKeeps(s: System, owner: nat, action: Action)
    requires Inv(s)
    ensures Inv(Act(s, owner, action))
  {
    var found := TxOf(s, owner);
    if found.Some? {
      match action
      case InsertEvent(e) => InsertKeeps(s, found.value, e);
      case UpdateActivation(a) => UpdateKeeps(s, found.value, a);
      case ChangeFact =>
      case Commit => CommitKeeps(s, found.value);
      case Abort =>
    }
  }

  /** Every committed state of any sequence of statements from any sessions is a linked chain. */
  lemma {:induction false} RunKeeps(createdAt: nat, turns: seq<Turn>)
    ensures Inv(Run(createdAt, turns))
  {
    if turns != [] {
      var turn := turns[|turns| - 1];
      RunKeeps(createdAt, turns[..|turns| - 1]);
      ActKeeps(Run(createdAt, turns[..|turns| - 1]), turn.owner, turn.action);
    }
  }

  // ----- the audit of a deployment

  function RevisionLeq(): (Event, Event) -> bool {
    (a: Event, b: Event) => a.revision <= b.revision
  }

  /** The checks of one event, given what came before it. */
  predicate EventPasses(e: Event, index: nat, previousArtifactId: Option<Text>, previousRecordedAt: Option<int>) {
    && IsSafeInteger(e.revision) && e.revision == index + 1
    && IsSafeInteger(e.previousRevision) && e.previousRevision == index
    && e.previousArtifactId == previousArtifactId
    && IsSafeInteger(e.recordedAt) && e.recordedAt >= 0
    && (previousRecordedAt.Some? ==> e.recordedAt > previousRecordedAt.value)
    && IsSafeInteger(e.occurredAt) && 0 <= e.occurredAt <= e.recordedAt
  }

  function RecordedAfter(events: seq<Event>, n: nat): Option<int>
    requires n <= |events|
  {
    if n == 0 then None else Some(events[n - 1].recordedAt)
  }

  predicate PassesAt(events: seq<Event>, i: nat)
    requires i < |events|
  {
    EventPasses(events[i], i, ArtifactAfter(events, i), RecordedAfter(events, i))
  }

  predicate FirstPass(events: seq<Event>, n: nat)
    requires n <= |events|
  {
    forall i :: 0 <= i < n ==> PassesAt(events, i)
  }

  /** What the audit accepts of an activation row and the events by revision. */
  predicate ChainPasses(a: ActivationRow, events: seq<Event>) {
    && |events| == a.revision && FirstPass(events, |events|)
    && (if a.revision == 0 then a.artifactId.None?
        else ArtifactAfter(events, |events|) == a.artifactId && RecordedAfter(events, |events|) == Some(a.updatedAt))
  }

  predicate AuditPasses(t: Tables) {
    && t.activation.id == 1
    && IsSafeInteger(t.activation.revision) && t.activation.revision >= 0
    && IsSafeInteger(t.activation.updatedAt) && t.activation.updatedAt >= 0
    && ChainPasses(t.activation, SortBy(RevisionLeq(), t.events))
  }

  /** assertMismatchCalibrationActivationEventChain over the rows it reads, which throws where this
      returns false. */
  method AuditChain(a: ActivationRow, rows: seq<Event>) returns (ok: bool)
    ensures ok <==> ChainPasses(a, rows)
  {
    if |rows| != a.revision {
      return false;
    }
    var previousArtifactId: Option<Text> := None;
    var previousRecordedAt: Option<int> := None;
    for index := 0 to |rows|
      invariant FirstPass(rows, index)
      invariant previousArtifactId == ArtifactAfter(rows, index) && previousRecordedAt == RecordedAfter(rows, index)
    {
      if !EventPasses(rows[index], index, previousArtifactId, previousRecordedAt) {
        assert !PassesAt(rows, index);
        return false;
      }
      previousArtifactId := rows[index].artifactId;
      previousRecordedAt := Some(rows[index].recordedAt);
    }
    return if a.revision == 0 then a.artifactId.None?
           else previousArtifactId == a.artifactId && previousRecordedAt == Some(a.updatedAt);
  }

  method Audit(t: Tables) returns (ok: bool)
    ensures ok <==> AuditPasses(t)
  {
    if t.activation.id != 1 || !IsSafeInteger(t.activation.revision) || t.activation.revision < 0 {
      return false;
    }
    if !IsSafeInteger(t.activation.updatedAt) || t.activation.updatedAt < 0 {
      return false;
    }
    ok := AuditChain(t.activation, SortBy(RevisionLeq(), t.events));
  }

  // ----- the audit accepts what the triggers let through

  lemma {:induction false} AscendingIsSorted(events: seq<Event>, k: int)
    requires forall i :: 0 <= i < |events| ==> events[i].revision == k + i
    ensures Sorted(RevisionLeq(), events)
  {
    if events != [] {
      AscendingIsSorted(events[1..], k + 1);
      forall y | y in multiset(events[1..])
        ensures RevisionLeq()(events[0], y)
      {
        assert y in events[1..];
      }
    }
  }

  lemma ChainStaysSorted(events: seq<Event>)
    requires IsChain(events)
    ensures SortBy(RevisionLeq(), events) == events
  {
    forall i | 0 <= i < |events|
      ensures events[i].revision == 1 + i
    {
      assert FollowsAt(events, i);
    }
    AscendingIsSorted(events, 1);
    SortedStays(RevisionLeq(), events);
  }

  /** Times only rise along a chain. */
  lemma {:induction false} RecordedBefore(events: seq<Event>, i: nat, j: nat)
    requires IsChain(events) && i <= j < |events|
    ensures events[i].recordedAt <= events[j].recordedAt
  {
    if i < j {
      RecordedBefore(events, i, j - 1);
      assert FollowsAt(events, j);
    }
  }

  lemma LinkedPasses(t: Tables)
    requires IsLinked(t) && IsSafeInteger(t.activation.revision) && IsSafeInteger(t.activation.updatedAt)
    ensures ChainPasses(t.activation, t.events)
  {
    forall i | 0 <= i < |t.events|
      ensures PassesAt(t.events, i)
    {
      assert FollowsAt(t.events, i);
      RecordedBefore(t.events, i, |t.events| - 1);
    }
  }

  predicate HasRowOne(s: System) {
    s.committed.activation.id == 1 && (s.open.Some? ==> s.open.value.tables.activation.id == 1)
  }

  lemma {:induction false} RowStaysOne(createdAt: nat, turns: seq<Turn>)
    ensures HasRowOne(Run(createdAt, turns))
  {
    if turns != [] {
      RowStaysOne(createdAt, turns[..|turns| - 1]);
    }
  }

  /** The audit accepts a committed state that the triggers let through exactly when its revision and
      its time are safe integers. The columns allow larger ones. */
  lemma AuditAcceptsIff(createdAt: nat, turns: seq<Turn>)
    ensures var t := Run(createdAt, turns).committed;
            AuditPasses(t) <==> IsSafeInteger(t.activation.revision) && IsSafeInteger(t.activation.updatedAt)
  {
    var t := Run(createdAt, turns).committed;
    RunKeeps(createdAt, turns);
    RowStaysOne(createdAt, turns);
    ChainStaysSorted(t.events);
    if IsSafeInteger(t.activation.revision) && IsSafeInteger(t.activation.updatedAt) {
      LinkedPasses(t);
    }
  }

  /** An event recorded after the last safe integer passes every trigger, and the audit refuses the
      state it leaves. */
  lemma LateEventFailsAudit()
    ensures var late := MAX_SAFE_INTEGER + 1;
            var e := Event(None, Some([65]), 0, 1, 0, late);
            var row := ActivationRow(1, Some([65]), 1, late);
            var s := Act(Act(Act(Genesis(0), 0, InsertEvent(e)), 0, UpdateActivation(row)), 0, Commit);
            s.committed == Tables(row, [e]) && s.open.None? && !AuditPasses(s.committed)
  {
    var late := MAX_SAFE_INTEGER + 1;
    var e := Event(None, Some([65]), 0, 1, 0, late);
    var row := ActivationRow(1, Some([65]), 1, late);
    var s1 := Act(Genesis(0), 0, InsertEvent(e));
    assert s1.open == Some(Tx(0, Tables(Genesis(0).committed.activation, [e]), [e])) by {
      assert [] + [e] == [e];
    }
    assert e in [e] && IsEventOf(e, Genesis(0).committed.activation, row);
    var s2 := Act(s1, 0, UpdateActivation(row));
    assert s2.open == Some(Tx(0, Tables(row, [e]), [e]));
  }

  // ----- the tables themselves

  class ActivationTables {
    var committed: Tables
    var open: Option<Tx>

    ghost function Abstract(): System
      reads this
    {
      System(committed, open)
    }

    constructor (createdAt: nat)
      ensures Abstract() == Genesis(createdAt)
    {
      committed, open := Tables(ActivationRow(1, None, 0, createdAt), []), None;
    }

    /** Inserts an event past its checks and triggers; an error rolls the transaction back. */
    method InsertEvent(owner: nat, e: Event)
      modifies this
      ensures Abstract() == Act(old(Abstract()), owner, Action.InsertEvent(e))
    {
      if open.Some? && open.value.owner != owner {
        return;
      }
      var tx := if open.Some? then open.value else Tx(owner, committed, []);
      var current := tx.tables.activation;
      if !EventChecks(e) || e.previousRevision != current.revision || e.previousArtifactId != current.artifactId
         || e.revision != current.revision + 1 || e.recordedAt <= current.updatedAt
         || !IsUniqueRevision(tx.tables, e) {
        open := None;
        return;
      }
      open := Some(Tx(owner, Tables(current, tx.tables.events + [e]), tx.inserted + [e]));
    }

    method UpdateActivation(owner: nat, row: ActivationRow)
      modifies this
      ensures Abstract() == Act(old(Abstract()), owner, Action.UpdateActivation(row))
    {
      if open.Some? && open.value.owner != owner {
        return;
      }
      var tx := if open.Some? then open.value else Tx(owner, committed, []);
      var before := tx.tables.activation;
      if !ActivationChecks(row) || row.id != before.id || row.revision != before.revision + 1
         || row.updatedAt <= before.updatedAt || !exists e :: e in tx.tables.events && IsEventOf(e, before, row) {
        open := None;
        return;
      }
      open := Some(Tx(owner, Tables(row, tx.tables.events), tx.inserted));
    }

    method Commit(owner: nat)
      modifies this
      ensures Abstract() == Act(old(Abstract()), owner, Action.Commit)
    {
      if open.None? || open.value.owner != owner {
        return;
      }
      var tx := open.value;
      var reflected := forall e :: e in tx.inserted ==> IsReflected(tx.tables.activation, e);
      if reflected {
        committed := tx.tables;
      }
      open := None;
    }
  }
}
