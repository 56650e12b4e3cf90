/** Database migrations: the status of a schema against a registry, one run of the migrator, and any
    number of migrators at once under an advisory lock. */
module Migrations {
  import opened Prelude
  import opened Sequences

  datatype Migration = Migration(version: int, name: Text, checksum: Text)
  datatype Row = Row(version: int, name: Text, checksum: Text, appliedAt: int)

  type Registry = seq<Migration>

  datatype Problem =
    | TableMissing
    | UnknownMigration(version: int, name: Text)
    | NameMismatch(version: int)
    | ChecksumMismatch(version: int)
    | HistoryGap(version: int, laterVersion: int)
    | PendingMigration(version: int, name: Text)

  datatype Status = Status(
    ready: bool, initialized: bool, currentVersion: int, requiredVersion: int, applied: seq<Row>,
    pending: seq<Migration>, problems: seq<Problem>)

  // ----- the registry

  function VersionOf(m: Migration): int { m.version }
  function NameOf(m: Migration): Text { m.name }
  function RowVersion(row: Row): int { row.version }

  /** Sixty-four lower-case hexadecimal digits. */
  predicate IsChecksum(t: Text) {
    |t| == 64 && forall i :: 0 <= i < 64 ==> 48 <= t[i] <= 57 || 97 <= t[i] <= 102
  }

  predicate IsValid(registry: Registry) {
    && StrictlyIncreasing(Map(VersionOf, registry))
    && NoDuplicates(Map(NameOf, registry))
    && (forall m :: m in registry ==> 0 < m.version <= MAX_SAFE_INTEGER && m.name != [] && IsChecksum(m.checksum))
  }

  /** One more migration after valid ones. */
  predicate Extends(registry: Registry, m: Migration) {
    && 0 < m.version <= MAX_SAFE_INTEGER && m.name != [] && IsChecksum(m.checksum)
    && (registry != [] ==> registry[|registry| - 1].version < m.version)
    && m.name !in Map(NameOf, registry)
  }

  lemma ValidSnoc(registry: Registry, m: Migration)
    ensures IsValid(registry + [m]) <==> IsValid(registry) && Extends(registry, m)
  {
    var all := registry + [m];
    MapSnoc(VersionOf, registry, m);
    MapSnoc(NameOf, registry, m);
    NoDuplicatesSnoc(Map(NameOf, registry), m.name);
    VersionsSnoc(Map(VersionOf, registry), m.version);
    assert forall x :: x in all <==> x in registry || x == m;
  }

  lemma VersionsSnoc(s: seq<int>, x: int)
    ensures StrictlyIncreasing(s + [x]) <==> StrictlyIncreasing(s) && (s != [] ==> s[|s| - 1] < x)
  {
    var t := s + [x];
    assert t[|s|] == x && forall i :: 0 <= i < |s| ==> t[i] == s[i];
  }

  lemma {:induction false} InvalidPrefix(registry: Registry, n: nat)
    requires n <= |registry| && !IsValid(registry[..n])
    ensures !IsValid(registry)
    decreases |registry| - n
  {
    if n < |registry| {
      assert registry[..n + 1] == registry[..n] + [registry[n]];
      ValidSnoc(registry[..n], registry[n]);
      InvalidPrefix(registry, n + 1);
    } else {
      assert registry[..n] == registry;
    }
  }

  lemma ValidPrefix(registry: Registry, n: nat)
    requires n <= |registry| && IsValid(registry)
    ensures IsValid(registry[..n])
  {
    if !IsValid(registry[..n]) {
      InvalidPrefix(registry, n);
    }
  }

  /** validateMigrationRegistry; the source throws where this is false. */
  method ValidateRegistry(registry: Registry) returns (valid: bool)
    ensures valid <==> IsValid(registry)
  {
    var previousVersion := 0;
    var names: set<Text> := {};
    for i := 0 to |registry|
      invariant IsValid(registry[..i])
      invariant previousVersion == if i == 0 then 0 else registry[i - 1].version
      invariant forall name :: name in names <==> name in Map(NameOf, registry[..i])
    {
      var m := registry[i];
      assert registry[..i + 1] == registry[..i] + [m];
      ValidSnoc(registry[..i], m);
      MapSnoc(NameOf, registry[..i], m);
      if !IsSafeInteger(m.version) || m.version <= previousVersion || m.name == [] || m.name in names
         || !IsChecksum(m.checksum) {
        InvalidPrefix(registry, i + 1);
        return false;
      }
      previousVersion := m.version;
      names := names + {m.name};
    }
    assert registry[..|registry|] == registry;
    return true;
  }

  // ----- the status of a schema

  function Find(registry: Registry, version: int): (r: Option<Migration>)
    ensures r.Some? ==> r.value in registry && r.value.version == version
    ensures r.None? ==> forall m :: m in registry ==> m.version != version
  {
    if registry == [] then None
    else if registry[0].version == version then Some(registry[0])
    else Find(registry[1..], version)
  }

  function RowProblem(registry: Registry, row: Row): seq<Problem> {
    match Find(registry, row.version)
    case None => [UnknownMigration(row.version, row.name)]
    case Some(expected) =>
      (if row.name != expected.name then [NameMismatch(row.version)] else [])
      + (if row.checksum != expected.checksum then [ChecksumMismatch(row.version)] else [])
  }

  predicate IsApplied(applied: seq<Row>, version: int) {
    exists row :: row in applied && row.version == version
  }

  function FirstLater(applied: seq<Row>, version: int): (r: Option<Row>)
    ensures r.Some? ==> r.value in applied && r.value.version > version
    ensures r.None? ==> forall row :: row in applied ==> row.version <= version
  {
    if applied == [] then None
    else if applied[0].version > version then Some(applied[0])
    else FirstLater(applied[1..], version)
  }

  function GapProblem(applied: seq<Row>, m: Migration): seq<Problem> {
    if IsApplied(applied, m.version) then []
    else
      match FirstLater(applied, m.version)
      case None => []
      case Some(row) => [HistoryGap(m.version, row.version)]
  }

  function Concat<S, T>(f: S -> seq<T>, s: seq<S>): seq<T> {
    if s == [] then [] else Concat(f, s[..|s| - 1]) + f(s[|s| - 1])
  }

  function RowProblems(registry: Registry): Row -> seq<Problem> {
    (row: Row) => RowProblem(registry, row)
  }

  function GapProblems(applied: seq<Row>): Migration -> seq<Problem> {
    (m: Migration) => GapProblem(applied, m)
  }

  function IsPending(applied: seq<Row>): Migration -> bool {
    (m: Migration) => !IsApplied(applied, m.version)
  }

  function PendingProblem(m: Migration): Problem {
    PendingMigration(m.version, m.name)
  }

  function MaxVersion(applied: seq<Row>): int {
    if applied == [] then 0
    else
      var rest := MaxVersion(applied[..|applied| - 1]);
      if applied[|applied| - 1].version > rest then applied[|applied| - 1].version else rest
  }

  /** The problems that keep the migrator from running. */
  function BlockingProblems(registry: Registry, applied: seq<Row>): seq<Problem> {
    Concat(RowProblems(registry), applied) + Concat(GapProblems(applied), registry)
  }

  function StatusOf(registry: Registry, applied: seq<Row>, initialized: bool): Status {
    var pending := Filter(IsPending(applied), registry);
    var problems := (if initialized then [] else [TableMissing]) + BlockingProblems(registry, applied)
                    + Map(PendingProblem, pending);
    Status(initialized && problems == [], initialized, MaxVersion(applied),
           if registry == [] then 0 else registry[|registry| - 1].version, applied, pending, problems)
  }

  /** A map from versions that agrees with a search. */
  ghost predicate IsLookup(byVersion: map<int, Migration>, registry: Registry) {
    forall v :: Find(registry, v) == if v in byVersion then Some(byVersion[v]) else None
  }

  lemma ConcatSnoc<S, T>(f: S -> seq<T>, s: seq<S>, x: S)
    ensures Concat(f, s + [x]) == Concat(f, s) + f(x)
  {
    assert (s + [x])[..|s|] == s;
  }

  lemma {:induction false} FindSnoc(registry: Registry, m: Migration, v: int)
    ensures Find(registry + [m], v) == if Find(registry, v).Some? then Find(registry, v)
                                       else if m.version == v then Some(m) else None
  {
    if registry != [] {
      assert (registry + [m])[1..] == registry[1..] + [m];
      FindSnoc(registry[1..], m, v);
    }
  }

  method IndexRegistry(registry: Registry) returns (byVersion: map<int, Migration>)
    requires IsValid(registry)
    ensures IsLookup(byVersion, registry)
  {
    byVersion := map[];
    for i := 0 to |registry|
      invariant IsLookup(byVersion, registry[..i])
    {
      var m := registry[i];
      assert registry[..i + 1] == registry[..i] + [m];
      forall v
        ensures Find(registry[..i + 1], v) == if Find(registry[..i], v).Some? then Find(registry[..i], v)
                                              else if m.version == v then Some(m) else None
      {
        FindSnoc(registry[..i], m, v);
      }
      ValidPrefix(registry, i + 1);
      NewVersion(registry[..i], m);
      byVersion := byVersion[m.version := m];
    }
    assert registry[..|registry|] == registry;
  }

  lemma NewVersion(registry: Registry, m: Migration)
    requires IsValid(registry + [m])
    ensures forall x :: x in registry ==> x.version < m.version
  {
    var versions := Map(VersionOf, registry + [m]);
    forall x | x in registry
      ensures x.version < m.version
    {
      var i :| 0 <= i < |registry| && registry[i] == x;
      assert versions[i] < versions[|registry|];
    }
  }

  method AddPending(blocking: seq<Problem>, pending: seq<Migration>) returns (problems: seq<Problem>)
    ensures problems == blocking + Map(PendingProblem, pending)
  {
    problems := blocking;
    for i := 0 to |pending|
      invariant problems == blocking + Map(PendingProblem, pending[..i])
    {
      assert pending[..i + 1] == pending[..i] + [pending[i]];
      MapSnoc(PendingProblem, pending[..i], pending[i]);
      problems := problems + [PendingMigration(pending[i].version, pending[i].name)];
    }
    assert pending[..|pending|] == pending;
  }

  method BuildStatus(registry: Registry, applied: seq<Row>, initialized: bool) returns (status: Option<Status>)
    ensures status == if IsValid(registry) then Some(StatusOf(registry, applied, initialized)) else None
  {
    var valid := ValidateRegistry(registry);
    if !valid {
      return None;
    }
    var expectedByVersion := IndexRegistry(registry);
    var rowProblems := CollectRowProblems(registry, expectedByVersion, applied);
    var gapProblems := CollectGapProblems(registry, applied);
    var pending := Filter(IsPending(applied), registry);
    var problems := AddPending((if initialized then [] else [TableMissing]) + (rowProblems + gapProblems), pending);
    return Some(Status(initialized && problems == [], initialized, MaxVersion(applied),
                       if registry == [] then 0 else registry[|registry| - 1].version, applied, pending, problems));
  }

  method CheckRow(registry: Registry, expectedByVersion: map<int, Migration>, row: Row) returns (problems: seq<Problem>)
    requires IsLookup(expectedByVersion, registry)
    ensures problems == RowProblem(registry, row)
  {
    assert Find(registry, row.version)
        == if row.version in expectedByVersion then Some(expectedByVersion[row.version]) else None;
    if row.version !in expectedByVersion {
      return [UnknownMigration(row.version, row.name)];
    }
    var expected := expectedByVersion[row.version];
    problems := [];
    if row.name != expected.name {
      problems := problems + [NameMismatch(row.version)];
    }
    if row.checksum != expected.checksum {
      problems := problems + [ChecksumMismatch(row.version)];
    }
  }

  lemma ConcatNext<S, T>(f: S -> seq<T>, s: seq<S>, i: nat)
    requires i < |s|
    ensures Concat(f, s[..i + 1]) == Concat(f, s[..i]) + f(s[i])
  {
    assert s[..i + 1] == s[..i] + [s[i]];
    ConcatSnoc(f, s[..i], s[i]);
  }

  method CollectRowProblems(registry: Registry, expectedByVersion: map<int, Migration>, applied: seq<Row>)
    returns (problems: seq<Problem>)
    requires IsLookup(expectedByVersion, registry)
    ensures problems == Concat(RowProblems(registry), applied)
  {
    problems := [];
    for i := 0 to |applied|
      invariant problems == Concat(RowProblems(registry), applied[..i])
    {
      ConcatNext(RowProblems(registry), applied, i);
      var found := CheckRow(registry, expectedByVersion, applied[i]);
      problems := problems + found;
    }
    assert applied[..|applied|] == applied;
  }

  method CollectGapProblems(registry: Registry, applied: seq<Row>) returns (problems: seq<Problem>)
    ensures problems == Concat(GapProblems(applied), registry)
  {
    problems := [];
    for i := 0 to |registry|
      invariant problems == Concat(GapProblems(applied), registry[..i])
    {
      var m := registry[i];
      ConcatNext(GapProblems(applied), registry, i);
      if !IsApplied(applied, m.version) {
        var later := FirstLater(applied, m.version);
        if later.Some? {
          problems := problems + [HistoryGap(m.version, later.value.version)];
        }
      }
    }
    assert registry[..|registry|] == registry;
  }

  // ----- when a schema is ready

  predicate IsRecordOf(row: Row, m: Migration) {
    row.version == m.version && row.name == m.name && row.checksum == m.checksum
  }

  /** The rows are the registry's entries, one by one. */
  predicate AreRecords(applied: seq<Row>, registry: Registry) {
    |applied| == |registry| && forall i :: 0 <= i < |applied| ==> IsRecordOf(applied[i], registry[i])
  }

  lemma {:induction false} ConcatEmpty<S, T>(f: S -> seq<T>, s: seq<S>)
    ensures Concat(f, s) == [] <==> forall x :: x in s ==> f(x) == []
  {
    if s != [] {
      ConcatEmpty(f, s[..|s| - 1]);
      assert s == s[..|s| - 1] + [s[|s| - 1]];
      assert forall x :: x in s <==> x in s[..|s| - 1] || x == s[|s| - 1];
    }
  }

  lemma SameVersion(registry: Registry, a: Migration, b: Migration)
    requires StrictlyIncreasing(Map(VersionOf, registry)) && a in registry && b in registry && a.version == b.version
    ensures a == b
  {
    var versions := Map(VersionOf, registry);
    var i :| 0 <= i < |registry| && registry[i] == a;
    var j :| 0 <= j < |registry| && registry[j] == b;
    assert versions[i] == versions[j];
  }

  lemma RowIsRecord(registry: Registry, row: Row)
    requires StrictlyIncreasing(Map(VersionOf, registry))
    ensures RowProblem(registry, row) == [] <==> exists m :: m in registry && IsRecordOf(row, m)
  {
    var found := Find(registry, row.version);
    forall m | m in registry && IsRecordOf(row, m)
      ensures found == Some(m)
    {
      SameVersion(registry, m, found.value);
    }
  }

  lemma NoProblemsMeansSameVersions(registry: Registry, applied: seq<Row>)
    requires StrictlyIncreasing(Map(VersionOf, registry)) && StrictlyIncreasing(Map(RowVersion, applied))
    requires forall row :: row in applied ==> exists m :: m in registry && IsRecordOf(row, m)
    requires forall m :: m in registry ==> IsApplied(applied, m.version)
    ensures Map(RowVersion, applied) == Map(VersionOf, registry)
  {
    var a, b := Map(RowVersion, applied), Map(VersionOf, registry);
    forall v: int | v in a
      ensures v in b
    {
      var i :| 0 <= i < |a| && a[i] == v;
      assert applied[i] in applied;
      var m :| m in registry && IsRecordOf(applied[i], m);
      var j :| 0 <= j < |registry| && registry[j] == m;
      assert b[j] == v;
    }
    forall v: int | v in b
      ensures v in a
    {
      var j :| 0 <= j < |b| && b[j] == v;
      assert registry[j] in registry;
      var row :| row in applied && row.version == v;
      var i :| 0 <= i < |applied| && applied[i] == row;
      assert a[i] == v;
    }
    IncreasingUnique(a, b);
  }

  lemma RecordsHaveNoProblems(registry: Registry, applied: seq<Row>)
    requires AreRecords(applied, registry)
    ensures forall row :: row in applied ==> exists m :: m in registry && IsRecordOf(row, m)
    ensures forall m :: m in registry ==> IsApplied(applied, m.version)
  {
    forall row | row in applied
      ensures exists m :: m in registry && IsRecordOf(row, m)
    {
      var i :| 0 <= i < |applied| && applied[i] == row;
      assert registry[i] in registry;
    }
    forall m | m in registry
      ensures IsApplied(applied, m.version)
    {
      var i :| 0 <= i < |registry| && registry[i] == m;
      assert applied[i] in applied && IsRecordOf(applied[i], m);
    }
  }

  /** No row is at odds with the registry, and none of the registry is missing. */
  predicate IsComplete(registry: Registry, applied: seq<Row>) {
    && (forall row :: row in applied ==> RowProblem(registry, row) == [])
    && (forall m :: m in registry ==> IsApplied(applied, m.version))
  }

  lemma ReadyIffComplete(registry: Registry, applied: seq<Row>, initialized: bool)
    ensures StatusOf(registry, applied, initialized).ready <==> initialized && IsComplete(registry, applied)
  {
    ConcatEmpty(RowProblems(registry), applied);
    ConcatEmpty(GapProblems(applied), registry);
    var pending := Filter(IsPending(applied), registry);
    assert forall m :: m in pending ==> m in registry && !IsApplied(applied, m.version);
    if StatusOf(registry, applied, initialized).ready {
      assert Map(PendingProblem, pending) == [];
      assert pending == [];
      forall m | m in registry
        ensures IsApplied(applied, m.version)
      {
        assert m !in pending;
      }
    } else if initialized && IsComplete(registry, applied) {
      SomeIn(pending);
    }
  }

  lemma SomeIn<T>(s: seq<T>)
    ensures s == [] || exists x :: x in s
  {
    if s != [] {
      assert s[0] in s;
    }
  }

  /** A schema is ready exactly when the table exists and its rows, by version, are the registry's
      entries by version, name and checksum. */
  lemma ReadyMeansEqual(registry: Registry, applied: seq<Row>, initialized: bool)
    requires IsValid(registry) && StrictlyIncreasing(Map(RowVersion, applied))
    ensures StatusOf(registry, applied, initialized).ready <==> initialized && AreRecords(applied, registry)
  {
    ReadyIffComplete(registry, applied, initialized);
    forall row | row in applied
      ensures RowProblem(registry, row) == [] <==> exists m :: m in registry && IsRecordOf(row, m)
    {
      RowIsRecord(registry, row);
    }
    if IsComplete(registry, applied) {
      NoProblemsMeansSameVersions(registry, applied);
      CompleteAreRecords(registry, applied);
    } else if AreRecords(applied, registry) {
      RecordsHaveNoProblems(registry, applied);
    }
  }

  lemma CompleteAreRecords(registry: Registry, applied: seq<Row>)
    requires StrictlyIncreasing(Map(VersionOf, registry)) && Map(RowVersion, applied) == Map(VersionOf, registry)
    requires forall row :: row in applied ==> exists m :: m in registry && IsRecordOf(row, m)
    ensures AreRecords(applied, registry)
  {
    assert |applied| == |Map(RowVersion, applied)| == |registry|;
    forall i | 0 <= i < |applied|
      ensures IsRecordOf(applied[i], registry[i])
    {
      assert applied[i] in applied && registry[i] in registry;
      var m :| m in registry && IsRecordOf(applied[i], m);
      assert Map(RowVersion, applied)[i] == Map(VersionOf, registry)[i];
      SameVersion(registry, m, registry[i]);
    }
  }

  // ----- one run of the migrator

  /** The largest PostgreSQL INTEGER. */
  const MAX_INTEGER: int := 0x7FFF_FFFF

  /** A transaction: what was applied when it began, and the rows it sees now. */
  datatype Tx = Tx(applied: seq<Row>, rows: seq<Row>)

  function RowLeq(): (Row, Row) -> bool {
    (a: Row, b: Row) => a.version <= b.version
  }

  /** The table's rows, none while it is missing. */
  function Rows(table: Option<seq<Row>>): seq<Row> {
    if table.None? then [] else table.value
  }

  /** One turn of the loop; none if the migration fails or its row cannot be inserted. */
  function ApplyOne(tx: Tx, m: Migration, succeeds: bool, now: int): Option<Tx> {
    if IsApplied(tx.applied, m.version) then Some(tx)
    else if !succeeds || m.version > MAX_INTEGER || IsApplied(tx.rows, m.version) then None
    else Some(tx.(rows := Insert(RowLeq(), Row(m.version, m.name, m.checksum, now), tx.rows)))
  }

  function ApplyFirst(tx: Tx, registry: Registry, up: Migration -> bool, now: int, n: nat): Option<Tx>
    requires n <= |registry|
  {
    if n == 0 then Some(tx)
    else
      match ApplyFirst(tx, registry, up, now, n - 1)
      case None => None
      case Some(before) => ApplyOne(before, registry[n - 1], up(registry[n - 1]), now)
  }

  datatype RunError = InvalidRegistry | Incompatible(problems: seq<Problem>) | MigrationFailed

  datatype Outcome = Outcome(result: Result<Status, RunError>, table: Option<seq<Row>>)

  /** runDatabaseMigrations, alone with the database: what it returns and the table it leaves. */
  function RunOnce(registry: Registry, table: Option<seq<Row>>, up: Migration -> bool, now: int): Outcome {
    var applied := Rows(table);
    if !IsValid(registry) then Outcome(Err(InvalidRegistry), table)
    else if BlockingProblems(registry, applied) != [] then
      Outcome(Err(Incompatible(BlockingProblems(registry, applied))), table)
    else
      match ApplyFirst(Tx(applied, applied), registry, up, now, |registry|)
      case None => Outcome(Err(MigrationFailed), table)
      case Some(tx) => Outcome(Ok(StatusOf(registry, tx.rows, true)), Some(tx.rows))
  }

  class Database {
    var table: Option<seq<Row>>  // the committed schema_migrations

    method RunMigrations(registry: Registry, up: Migration -> bool, now: int) returns (r: Result<Status, RunError>)
      modifies this
      ensures Outcome(r, table) == RunOnce(registry, old(table), up, now)
    {
      var valid := ValidateRegistry(registry);
      if !valid {
        return Err(InvalidRegistry);
      }
      var applied := Rows(table);
      var blocking := BlockingProblems(registry, applied);
      if blocking != [] {
        return Err(Incompatible(blocking));
      }
      var tx := Tx(applied, applied);
      for i := 0 to |registry|
        invariant ApplyFirst(Tx(applied, applied), registry, up, now, i) == Some(tx)
        invariant table == old(table)
      {
        var next := ApplyOne(tx, registry[i], up(registry[i]), now);
        if next.None? {
          FailureStays(Tx(applied, applied), registry, up, now, i + 1, |registry|);
          return Err(MigrationFailed);
        }
        tx := next.value;
      }
      table := Some(tx.rows);
      return Ok(StatusOf(registry, tx.rows, true));
    }
  }

  lemma {:induction false} FailureStays(tx: Tx, registry: Registry, up: Migration -> bool, now: int, n: nat, k: nat)
    requires n <= k <= |registry| && ApplyFirst(tx, registry, up, now, n).None?
    ensures ApplyFirst(tx, registry, up, now, k).None?
  {
    if n < k {
      FailureStays(tx, registry, up, now, n, k - 1);
    }
  }

  // ----- histories: the first so many entries of a registry, recorded

  predicate IsHistory(all: Registry, rows: seq<Row>) {
    |rows| <= |all| && AreRecords(rows, all[..|rows|])
  }

  lemma HistoryVersions(all: Registry, rows: seq<Row>)
    requires IsValid(all) && IsHistory(all, rows)
    ensures StrictlyIncreasing(Map(RowVersion, rows))
    ensures forall i :: 0 <= i < |all| ==> (IsApplied(rows, all[i].version) <==> i < |rows|)
  {
    var versions := Map(VersionOf, all);
    forall i, j | 0 <= i < j < |rows|
      ensures Map(RowVersion, rows)[i] < Map(RowVersion, rows)[j]
    {
      assert versions[i] < versions[j];
      assert IsRecordOf(rows[i], all[..|rows|][i]) && IsRecordOf(rows[j], all[..|rows|][j]);
    }
    forall i | 0 <= i < |all|
      ensures IsApplied(rows, all[i].version) <==> i < |rows|
    {
      AppliedIff(all, rows, i);
    }
  }

  lemma AppliedIff(all: Registry, rows: seq<Row>, i: nat)
    requires IsValid(all) && IsHistory(all, rows) && i < |all|
    ensures IsApplied(rows, all[i].version) <==> i < |rows|
  {
    if i < |rows| {
      assert rows[i] in rows && IsRecordOf(rows[i], all[..|rows|][i]);
    }
    if IsApplied(rows, all[i].version) {
      var row :| row in rows && row.version == all[i].version;
      var j :| 0 <= j < |rows| && rows[j] == row;
      assert IsRecordOf(rows[j], all[..|rows|][j]);
      assert Map(VersionOf, all)[j] == Map(VersionOf, all)[i];
    }
  }

  /** A history keeps a migrator from running exactly when it is longer than what the migrator knows. */
  lemma HistoryBlocksIff(all: Registry, rows: seq<Row>, known: nat)
    requires IsValid(all) && IsHistory(all, rows) && known <= |all|
    ensures BlockingProblems(all[..known], rows) == [] <==> |rows| <= known
  {
    var registry := all[..known];
    ValidPrefix(all, known);
    HistoryVersions(all, rows);
    ConcatEmpty(RowProblems(registry), rows);
    ConcatEmpty(GapProblems(rows), registry);
    if |rows| <= known {
      forall row | row in rows
        ensures RowProblem(registry, row) == []
      {
        var i :| 0 <= i < |rows| && rows[i] == row;
        assert IsRecordOf(row, all[..|rows|][i]) && registry[i] in registry && registry[i] == all[i];
        RowIsRecord(registry, row);
      }
      forall m | m in registry
        ensures GapProblem(rows, m) == []
      {
        NoGap(all, rows, known, m);
      }
    } else {
      UnknownRow(all, rows, known);
    }
  }

  lemma NoGap(all: Registry, rows: seq<Row>, known: nat, m: Migration)
    requires IsValid(all) && IsHistory(all, rows) && known <= |all| && m in all[..known]
    ensures GapProblem(rows, m) == []
  {
    var i :| 0 <= i < known && all[i] == m;
    AppliedIff(all, rows, i);
    if i >= |rows| {
      forall row | row in rows
        ensures row.version < m.version
      {
        RowsBelow(all, rows, i, row);
      }
    }
  }

  lemma RowsBelow(all: Registry, rows: seq<Row>, i: nat, row: Row)
    requires IsValid(all) && IsHistory(all, rows) && |rows| <= i < |all| && row in rows
    ensures row.version < all[i].version
  {
    var j :| 0 <= j < |rows| && rows[j] == row;
    assert IsRecordOf(row, all[..|rows|][j]);
    assert Map(VersionOf, all)[j] < Map(VersionOf, all)[i];
  }

  lemma UnknownRow(all: Registry, rows: seq<Row>, known: nat)
    requires IsValid(all) && IsHistory(all, rows) && known < |rows|
    ensures rows[known] in rows && RowProblem(all[..known], rows[known]) != []
  {
    var registry, row := all[..known], rows[known];
    assert IsRecordOf(row, all[..|rows|][known]);
    forall m | m in registry
      ensures m.version != row.version
    {
      var j :| 0 <= j < known && all[j] == m;
      assert Map(VersionOf, all)[j] < Map(VersionOf, all)[known];
    }
  }

  /** A transaction that has come to entry n of the registry. */
  predicate IsAt(all: Registry, tx: Tx, n: nat) {
    && n <= |all| && IsHistory(all, tx.applied)
    && IsHistory(all, tx.rows) && |tx.rows| == IntMax(|tx.applied|, n) && tx.applied <= tx.rows
  }

  lemma TurnAdvances(all: Registry, tx: Tx, n: nat, succeeds: bool, now: int)
    requires IsValid(all) && IsAt(all, tx, n) && n < |all|
    ensures ApplyOne(tx, all[n], succeeds, now).Some? ==> IsAt(all, ApplyOne(tx, all[n], succeeds, now).value, n + 1)
    ensures n < |tx.applied| || (succeeds && all[n].version <= MAX_INTEGER) ==>
              ApplyOne(tx, all[n], succeeds, now).Some?
  {
    AppliedIff(all, tx.applied, n);
    AppliedIff(all, tx.rows, n);
    if n >= |tx.applied| {
      forall row | row in tx.rows
        ensures row.version < all[n].version
      {
        RowsBelow(all, tx.rows, n, row);
      }
      var m := all[n];
      var row := Row(m.version, m.name, m.checksum, now);
      InsertAtEnd(RowLeq(), row, tx.rows);
      RecordsSnoc(all, tx.rows, row);
    }
  }

  lemma RecordsSnoc(all: Registry, rows: seq<Row>, row: Row)
    requires IsHistory(all, rows) && |rows| < |all| && IsRecordOf(row, all[|rows|])
    ensures IsHistory(all, rows + [row])
  {
    var longer := rows + [row];
    forall i | 0 <= i < |longer|
      ensures IsRecordOf(longer[i], all[..|longer|][i])
    {
      if i < |rows| {
        assert IsRecordOf(rows[i], all[..|rows|][i]);
      }
    }
  }

  // ----- any number of migrators

  datatype Phase =
    | Idle
    | Locked
    | Running(tx: Tx, next: nat)
    | Committed
    | Finished(status: Status)
    | Failed

  /** A migrator that knows the first so many entries of the registry. */
  datatype Runner = Runner(known: nat, phase: Phase)

  datatype System = System(table: Option<seq<Row>>, lock: Option<nat>, runners: seq<Runner>)

  datatype Action = Acquire | Begin | Advance(succeeds: bool, now: int) | Commit | Report | Crash

  function WithPhase(s: System, i: nat, phase: Phase): System
    requires i < |s.runners|
  {
    s.(runners := s.runners[i := s.runners[i].(phase := phase)])
  }

  /** The run ends: a transaction that is still open is rolled back, and the lock released. */
  function Fail(s: System, i: nat): System
    requires i < |s.runners|
  {
    var failed := WithPhase(s, i, Failed);
    if s.lock == Some(i) then failed.(lock := None) else failed
  }

  function AcquireLock(s: System, i: nat): System
    requires i < |s.runners|
  {
    if s.lock.None? then WithPhase(s, i, Locked).(lock := Some(i)) else s
  }

  function BeginTx(all: Registry, s: System, i: nat): System
    requires i < |s.runners| && s.runners[i].known <= |all|
  {
    if BlockingProblems(all[..s.runners[i].known], Rows(s.table)) != [] then Fail(s, i)
    else WithPhase(s, i, Running(Tx(Rows(s.table), Rows(s.table)), 0))
  }

  function AdvanceTx(all: Registry, s: System, i: nat, succeeds: bool, now: int): System
    requires i < |s.runners| && s.runners[i].known <= |all| && s.runners[i].phase.Running?
  {
    var Running(tx, next) := s.runners[i].phase;
    if next >= s.runners[i].known then s
    else
      match ApplyOne(tx, all[next], succeeds, now)
      case None => Fail(s, i)
      case Some(after) => WithPhase(s, i, Running(after, next + 1))
  }

  function CommitTx(s: System, i: nat): System
    requires i < |s.runners| && s.runners[i].phase.Running?
  {
    var Running(tx, next) := s.runners[i].phase;
    if next < s.runners[i].known then s else WithPhase(s, i, Committed).(table := Some(tx.rows))
  }

  function ReportStatus(all: Registry, s: System, i: nat): System
    requires i < |s.runners| && s.runners[i].known <= |all|
  {
    WithPhase(s, i, Finished(StatusOf(all[..s.runners[i].known], Rows(s.table), s.table.Some?))).(lock := None)
  }

  /** A step of migrator i; nothing happens where the step is not the migrator's next one. */
  function Act(all: Registry, s: System, i: nat, action: Action): (t: System)
    requires i < |s.runners| && s.runners[i].known <= |all|
    ensures KnowTheSame(s, t)
  {
    var phase := s.runners[i].phase;
    match action
    case Acquire => if phase.Idle? then AcquireLock(s, i) else s
    case Begin => if phase.Locked? then BeginTx(all, s, i) else s
    case Advance(succeeds, now) => if phase.Running? then AdvanceTx(all, s, i, succeeds, now) else s
    case Commit => if phase.Running? then CommitTx(s, i) else s
    case Report => if phase.Committed? then ReportStatus(all, s, i) else s
    case Crash => if HoldsLock(phase) then Fail(s, i) else s
  }

  predicate HoldsLock(phase: Phase) {
    phase.Locked? || phase.Running? || phase.Committed?
  }

  predicate RunnerInv(all: Registry, s: System, i: nat)
    requires i < |s.runners|
  {
    var runner := s.runners[i];
    && runner.known <= |all|
    && (HoldsLock(runner.phase) <==> s.lock == Some(i))
    && (match runner.phase
        case Running(tx, next) => next <= runner.known && IsAt(all, tx, next) && |tx.applied| <= runner.known
                                  && tx.applied == Rows(s.table)
        case Committed => s.table.Some? && |s.table.value| == runner.known
        case Finished(status) => status.ready
        case _ => true)
  }

  /** What every interleaving keeps. */
  predicate Inv(all: Registry, s: System) {
    && IsHistory(all, Rows(s.table))
    && (s.lock.Some? ==> s.lock.value < |s.runners|)
    && (forall i :: 0 <= i < |s.runners| ==> RunnerInv(all, s, i))
  }

  predicate KnowTheSame(s: System, t: System) {
    |s.runners| == |t.runners| && forall i :: 0 <= i < |s.runners| ==> t.runners[i].known == s.runners[i].known
  }

  predicate IsStart(all: Registry, s: System) {
    && IsHistory(all, Rows(s.table)) && s.lock.None?
    && (forall i :: 0 <= i < |s.runners| ==> s.runners[i].known <= |all| && s.runners[i].phase.Idle?)
  }

  datatype Turn = Turn(runner: nat, action: Action)

  function Run(all: Registry, start: System, turns: seq<Turn>): (s: System)
    requires IsStart(all, start)
    ensures KnowTheSame(start, s)
  {
    if turns == [] then start
    else
      var before, turn := Run(all, start, turns[..|turns| - 1]), turns[|turns| - 1];
      if turn.runner < |before.runners| then Act(all, before, turn.runner, turn.action) else before
  }

  /** Only the migrator that acts changes, and only a commit writes the table. */
  lemma ActFrames(all: Registry, s: System, i: nat, action: Action)
    requires i < |s.runners| && s.runners[i].known <= |all|
    ensures |Act(all, s, i, action).runners| == |s.runners|
    ensures forall j :: 0 <= j < |s.runners| && j != i ==> Act(all, s, i, action).runners[j] == s.runners[j]
    ensures Act(all, s, i, action).runners[i].known == s.runners[i].known
    ensures !action.Commit? ==> Act(all, s, i, action).table == s.table
  {
  }

  lemma OthersKeep(all: Registry, s: System, t: System, i: nat)
    requires Inv(all, s) && i < |s.runners| && |t.runners| == |s.runners|
    requires forall j :: 0 <= j < |s.runners| && j != i ==> t.runners[j] == s.runners[j]
    requires HoldsLock(s.runners[i].phase) || t.table == s.table
    requires t.lock == s.lock || (s.lock.None? && t.lock == Some(i)) || (s.lock == Some(i) && t.lock.None?)
    ensures forall j :: 0 <= j < |s.runners| && j != i ==> RunnerInv(all, t, j)
  {
    forall j | 0 <= j < |s.runners| && j != i
      ensures RunnerInv(all, t, j)
    {
      assert RunnerInv(all, s, j) && RunnerInv(all, s, i);
    }
  }

  lemma BeginKeeps(all: Registry, s: System, i: nat)
    requires IsValid(all) && Inv(all, s) && i < |s.runners| && s.runners[i].phase.Locked?
    ensures RunnerInv(all, s, i) && RunnerInv(all, BeginTx(all, s, i), i)
  {
    assert RunnerInv(all, s, i);
    HistoryBlocksIff(all, Rows(s.table), s.runners[i].known);
  }

  lemma AdvanceKeeps(all: Registry, s: System, i: nat, succeeds: bool, now: int)
    requires IsValid(all) && Inv(all, s) && i < |s.runners| && s.runners[i].phase.Running?
    ensures RunnerInv(all, s, i) && RunnerInv(all, AdvanceTx(all, s, i, succeeds, now), i)
  {
    assert RunnerInv(all, s, i);
    var tx, next := s.runners[i].phase.tx, s.runners[i].phase.next;
    if next < s.runners[i].known {
      TurnAdvances(all, tx, next, succeeds, now);
    }
  }

  lemma ReportKeeps(all: Registry, s: System, i: nat)
    requires IsValid(all) && Inv(all, s) && i < |s.runners| && s.runners[i].phase.Committed?
    ensures RunnerInv(all, s, i) && RunnerInv(all, ReportStatus(all, s, i), i)
  {
    assert RunnerInv(all, s, i);
    var known := s.runners[i].known;
    ValidPrefix(all, known);
    HistoryVersions(all, Rows(s.table));
    ReadyMeansEqual(all[..known], Rows(s.table), true);
  }

  lemma ActKeeps(all: Registry, s: System, i: nat, action: Action)
    requires IsValid(all) && Inv(all, s) && i < |s.runners|
    ensures RunnerInv(all, s, i) && Inv(all, Act(all, s, i, action))
  {
    assert RunnerInv(all, s, i);
    var t := Act(all, s, i, action);
    ActFrames(all, s, i, action);
    assert RunnerInv(all, t, i) by {
      match action
      case Begin => if s.runners[i].phase.Locked? { BeginKeeps(all, s, i); }
      case Advance(succeeds, now) => if s.runners[i].phase.Running? { AdvanceKeeps(all, s, i, succeeds, now); }
      case Report => if s.runners[i].phase.Committed? { ReportKeeps(all, s, i); }
      case _ =>
    }
    OthersKeep(all, s, t, i);
  }

  /** Migrators that know different parts of one registry, interleaved in any way and crashing
      anywhere: what is committed is always the first so many entries of the registry, and every
      migrator that finishes has found its schema ready. */
  lemma {:induction false} RunKeeps(all: Registry, start: System, turns: seq<Turn>)
    requires IsValid(all) && IsStart(all, start)
    ensures Inv(all, Run(all, start, turns))
  {
    if turns != [] {
      var init, turn := turns[..|turns| - 1], turns[|turns| - 1];
      RunKeeps(all, start, init);
      if turn.runner < |start.runners| {
        ActKeeps(all, Run(all, start, init), turn.runner, turn.action);
      }
    }
  }

  /** So no version is ever recorded twice. */
  lemma VersionsRecordedOnce(all: Registry, start: System, turns: seq<Turn>)
    requires IsValid(all) && IsStart(all, start)
    ensures StrictlyIncreasing(Map(RowVersion, Rows(Run(all, start, turns).table)))
  {
    RunKeeps(all, start, turns);
    HistoryVersions(all, Rows(Run(all, start, turns).table));
  }

  /** The committed history only grows, and a step in which a migration fails leaves it as it is. */
  lemma HistoryGrows(all: Registry, s: System, i: nat, action: Action)
    requires IsValid(all) && Inv(all, s) && i < |s.runners|
    ensures RunnerInv(all, s, i) && Rows(s.table) <= Rows(Act(all, s, i, action).table)
    ensures Act(all, s, i, action).runners[i].phase.Failed? ==> Act(all, s, i, action).table == s.table
  {
    assert RunnerInv(all, s, i);
  }

  // ----- one run against a history

  predicate AllSucceed(all: Registry, rows: seq<Row>, known: nat, up: Migration -> bool) {
    forall i :: |rows| <= i < known && i < |all| ==> up(all[i]) && all[i].version <= MAX_INTEGER
  }

  /** The loop has come to entry n, or a migration has failed. */
  predicate HasCome(all: Registry, rows: seq<Row>, tx: Option<Tx>, n: nat, allSucceed: bool) {
    && (tx.Some? ==> IsAt(all, tx.value, n) && tx.value.applied == rows)
    && (allSucceed ==> tx.Some?)
  }

  lemma TurnComes(all: Registry, rows: seq<Row>, tx: Tx, n: nat, succeeds: bool, now: int, allSucceed: bool)
    requires IsValid(all) && n < |all| && HasCome(all, rows, Some(tx), n, allSucceed)
    requires allSucceed && |rows| <= n ==> succeeds && all[n].version <= MAX_INTEGER
    ensures HasCome(all, rows, ApplyOne(tx, all[n], succeeds, now), n + 1, allSucceed)
  {
    TurnAdvances(all, tx, n, succeeds, now);
  }

  lemma {:induction false} FirstApplied(
    all: Registry, rows: seq<Row>, known: nat, up: Migration -> bool, now: int, n: nat)
    requires IsValid(all) && IsHistory(all, rows) && n <= known <= |all|
    ensures HasCome(all, rows, ApplyFirst(Tx(rows, rows), all[..known], up, now, n), n,
                    AllSucceed(all, rows, known, up))
  {
    if n > 0 {
      FirstApplied(all, rows, known, up, now, n - 1);
      var before := ApplyFirst(Tx(rows, rows), all[..known], up, now, n - 1);
      assert all[..known][n - 1] == all[n - 1];
      if before.Some? {
        TurnComes(all, rows, before.value, n - 1, up(all[n - 1]), now, AllSucceed(all, rows, known, up));
      }
    }
  }

  /** A run against a history: it refuses a longer one, and otherwise either leaves the table alone
      or brings it to exactly what it knows and finds it ready; if everything pending succeeds, it
      is the latter. */
  lemma RunOnceIsAllOrNothing(all: Registry, table: Option<seq<Row>>, known: nat, up: Migration -> bool, now: int)
    requires IsValid(all) && IsHistory(all, Rows(table)) && known <= |all|
    ensures var r := RunOnce(all[..known], table, up, now);
            && (r.result.Err? ==> r.table == table)
            && (r.result.Ok? ==> r.result.value.ready && Rows(table) <= Rows(r.table)
                                 && |Rows(table)| <= known && |Rows(r.table)| == known && IsHistory(all, Rows(r.table)))
            && (|Rows(table)| <= known && AllSucceed(all, Rows(table), known, up) ==> r.result.Ok?)
  {
    var registry, rows := all[..known], Rows(table);
    ValidPrefix(all, known);
    HistoryBlocksIff(all, rows, known);
    FirstApplied(all, rows, known, up, now, known);
    var tx := ApplyFirst(Tx(rows, rows), registry, up, now, known);
    if |rows| <= known && tx.Some? {
      HistoryVersions(all, tx.value.rows);
      ReadyMeansEqual(registry, tx.value.rows, true);
    }
  }
}
