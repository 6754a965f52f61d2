/**
 * The schema migrator: loading the chain, validating the recorded history, applying and baselining.
 *
 * A run may stop after any durable command: `stop` says how many more commands take effect before the process
 * dies or a command fails. One advisory lock serialises runs, so runs follow each other. What SQL text does to the
 * catalogue objects is the parameter `effect`; a checksum stands for the file's SHA-256 digest.
 */
module MigrationRunner {
  import opened Common
  import SqlSplitter

  datatype Migration = Migration(version: int, name: string, checksum: seq<int>, transactional: bool, sql: string)

  datatype Applied = Applied(name: string, checksum: seq<int>)

  type History = map<int, Applied>

  // ---------------------------------------------------------------- the chain of migration files

  /** Versions are 1, 2, 3, ... without a gap. */
  predicate IsChain(migrations: seq<Migration>) {
    |migrations| > 0 && forall i :: 0 <= i < |migrations| ==> migrations[i].version == i + 1
  }

  /** The check after sorting the files by version. */
  method CheckChain(migrations: seq<Migration>) returns (ok: bool)
    ensures ok <==> IsChain(migrations)
  {
    var index := 0;
    while index < |migrations|
      invariant 0 <= index <= |migrations|
      invariant forall i :: 0 <= i < index ==> migrations[i].version == i + 1
    {
      if migrations[index].version != index + 1 {
        return false;
      }
      if index > 0 && migrations[index - 1].version == migrations[index].version {
        return false;
      }
      index := index + 1;
    }
    ok := |migrations| > 0;
  }

  function Recorded(m: Migration): Applied {
    Applied(m.name, m.checksum)
  }

  /** The history is exactly the first so many migrations, with their names and checksums. */
  predicate PrefixHistory(migrations: seq<Migration>, applied: History) {
    && |applied| <= |migrations|
    && (forall v :: v in applied ==> 1 <= v <= |applied|)
    && (forall v :: 1 <= v <= |applied| ==> v in applied && applied[v] == Recorded(migrations[v - 1]))
  }

  predicate Ready(migrations: seq<Migration>, applied: History) {
    PrefixHistory(migrations, applied) && |applied| == |migrations|
  }

  // ---------------------------------------------------------------- validating a history

  datatype HistoryError = UnknownVersion(version: int) | NameChanged(version: int) | ChecksumChanged(version: int) | Gap(version: int)

  predicate Justified(migrations: seq<Migration>, applied: History, e: HistoryError) {
    match e
    case UnknownVersion(v) => v in applied && !(1 <= v <= |migrations|)
    case NameChanged(v) => v in applied && 1 <= v <= |migrations| && applied[v].name != migrations[v - 1].name
    case ChecksumChanged(v) => v in applied && 1 <= v <= |migrations| && applied[v].checksum != migrations[v - 1].checksum
    case Gap(v) => 1 <= v <= |applied| && v !in applied
  }

  /** As many keys as there are numbers from 1 to k, all of them present: then there are no others. */
  lemma Pigeonhole(applied: History)
    requires forall v :: 1 <= v <= |applied| ==> v in applied
    ensures forall v :: v in applied ==> 1 <= v <= |applied|
  {
    var k := |applied|;
    assert Interval(k) <= applied.Keys;
    SameSizeSubset(Interval(k), applied.Keys);
  }

  method ByVersion(migrations: seq<Migration>) returns (byVersion: map<int, Migration>)
    requires IsChain(migrations)
    ensures forall v :: v in byVersion <==> 1 <= v <= |migrations|
    ensures forall v :: v in byVersion ==> byVersion[v] == migrations[v - 1]
  {
    byVersion := map[];
    for i := 0 to |migrations|
      invariant forall v :: v in byVersion <==> 1 <= v <= i
      invariant forall v :: v in byVersion ==> byVersion[v] == migrations[v - 1]
    {
      byVersion := byVersion[migrations[i].version := migrations[i]];
    }
  }

  predicate Matches(migrations: seq<Migration>, applied: History, v: int)
    requires v in applied
  {
    1 <= v <= |migrations| && applied[v] == Recorded(migrations[v - 1])
  }

  method ValidateApplied(migrations: seq<Migration>, applied: History) returns (r: Result<(), HistoryError>)
    requires IsChain(migrations)
    ensures r.Ok? <==> PrefixHistory(migrations, applied)
    ensures r.Err? ==> Justified(migrations, applied, r.error)
  {
    hide PrefixHistory, IsChain;
    var byVersion := ByVersion(migrations);
    var unseen: set<int> := applied.Keys;
    while unseen != {}
      invariant unseen <= applied.Keys
      invariant forall v :: v in applied && v !in unseen ==> Matches(migrations, applied, v)
      decreases |unseen|
    {
      NonEmpty(unseen);
      var version :| version in unseen;
      unseen := unseen - {version};
      if version !in byVersion {
        NotMatching(migrations, applied, version);
        return Err(UnknownVersion(version));
      }
      if applied[version].name != byVersion[version].name {
        NotMatching(migrations, applied, version);
        return Err(NameChanged(version));
      }
      if applied[version].checksum != byVersion[version].checksum {
        NotMatching(migrations, applied, version);
        return Err(ChecksumChanged(version));
      }
    }
    var version := 1;
    while version <= |applied|
      invariant 1 <= version <= |applied| + 1
      invariant forall v :: 1 <= v < version ==> v in applied
    {
      if version !in applied {
        NotMatching(migrations, applied, version);
        return Err(Gap(version));
      }
      version := version + 1;
    }
    AllMatching(migrations, applied);
    r := Ok(());
  }

  lemma NotMatching(migrations: seq<Migration>, applied: History, v: int)
    requires if v in applied then !Matches(migrations, applied, v) else 1 <= v <= |applied|
    ensures !PrefixHistory(migrations, applied)
  {
  }

  lemma AllMatching(migrations: seq<Migration>, applied: History)
    requires forall v :: v in applied ==> Matches(migrations, applied, v)
    requires forall v :: 1 <= v <= |applied| ==> v in applied
    ensures PrefixHistory(migrations, applied)
  {
    Pigeonhole(applied);
    assert |applied| > 0 ==> |applied| in applied;
  }

  /** The start-up gate: the reported version is the newest one recorded. */
  method ValidateReady(migrations: seq<Migration>, applied: History) returns (ok: bool, current: int)
    requires IsChain(migrations)
    ensures ok <==> Ready(migrations, applied)
    ensures !ok && PrefixHistory(migrations, applied) ==> current == |applied| < |migrations|
  {
    current := 0;
    var valid := ValidateApplied(migrations, applied);
    if valid.Err? {
      return false, 0;
    }
    if |applied| != |migrations| {
      var unseen: set<int> := applied.Keys;
      while unseen != {}
        invariant unseen <= applied.Keys && 0 <= current <= |applied|
        invariant forall v :: v in applied && v !in unseen ==> v <= current
        decreases |unseen|
      {
        NonEmpty(unseen);
        var version :| version in unseen;
        unseen := unseen - {version};
        if version > current {
          current := version;
        }
      }
      assert PrefixHistory(migrations, applied) && |applied| > 0 ==> |applied| in applied;
      return false, current;
    }
    ok := true;
  }

  // ---------------------------------------------------------------- the database and one run

  /** The catalogue objects that the completion verifier of migration 14 looks at. */
  datatype Objects = Objects(indexExists: bool, indexValid: bool, statistics: bool)

  predicate Complete(o: Objects) {
    o.indexExists && o.indexValid && o.statistics
  }

  predicate Partial(o: Objects) {
    !Complete(o) && (o.indexExists || o.statistics)
  }

  type Effect = (string, Objects) -> Objects

  /** Statement number `index` of a script outside a transaction. */
  datatype Ran = Ran(version: int, index: nat, statement: string)

  /** `bodies` and `ran` log the committed transactional bodies and the single statements ever executed. */
  datatype Database = Database(
    history: Option<History>,
    tables: bool,
    objects: Objects,
    bodies: seq<int>,
    ran: seq<Ran>,
    hasMessages: bool,
    fingerprint: int)

  datatype RunError =
    | Stopped
    | BadChain
    | BaselineRequired
    | BadHistory
    | MaintenanceRequired
    | NoVerifier
    | PartialObjects
    | BadSql
    | ObjectsMissing
    | UnsupportedTarget
    | HistoryExists
    | NoTables
    | FingerprintMismatch

  datatype Outcome = Outcome(db: Database, left: nat, error: Option<RunError>)

  function Fail(db: Database, left: nat, e: RunError): Outcome {
    Outcome(db, left, Some(e))
  }

  function Record(db: Database, m: Migration): Database
    requires db.history.Some?
  {
    db.(history := Some(db.history.value[m.version := Recorded(m)]))
  }

  function RunOne(db: Database, version: int, index: nat, statement: string, effect: Effect): Database {
    db.(objects := effect(statement, db.objects), ran := db.ran + [Ran(version, index, statement)])
  }

  /** Statements outside a transaction, from number `i` on: each that runs is durable at once. */
  function RunStatements(db: Database, version: int, statements: seq<string>, i: nat, effect: Effect, stop: nat): Outcome
    requires i <= |statements|
    decreases |statements| - i
  {
    if i == |statements| then Outcome(db, stop, None)
    else if stop == 0 then Fail(db, 0, Stopped)
    else RunStatements(RunOne(db, version, i, statements[i], effect), version, statements, i + 1, effect, stop - 1)
  }

  function RecordIfAble(db: Database, m: Migration, stop: nat): Outcome
    requires db.history.Some?
  {
    if stop == 0 then Fail(db, 0, Stopped) else Outcome(Record(db, m), stop - 1, None)
  }

  function Apply(db: Database, m: Migration, effect: Effect, stop: nat): (o: Outcome)
    requires db.history.Some?
    ensures o.db.history.Some?
  {
    if m.transactional then
      if stop == 0 then Fail(db, 0, Stopped)
      else Outcome(Record(db.(objects := effect(m.sql, db.objects), bodies := db.bodies + [m.version]), m), stop - 1, None)
    else if m.version != 14 then Fail(db, stop, NoVerifier)
    else if Partial(db.objects) then Fail(db, stop, PartialObjects)
    else if Complete(db.objects) then RecordIfAble(db, m, stop)
    else
      match SqlSplitter.Split(m.sql)
      case Err(_) => Fail(db, stop, BadSql)
      case Ok(statements) =>
        var o := RunStatements(db, m.version, statements, 0, effect, stop);
        RunStatementsKeepsHistory(db, m.version, statements, 0, effect, stop);
        if o.error.Some? then o
        else if !Complete(o.db.objects) then Fail(o.db, o.left, ObjectsMissing)
        else RecordIfAble(o.db, m, o.left)
  }

  /** The log entries of statements `i` up to `j`. */
  function Logged(version: int, statements: seq<string>, i: nat, j: nat): seq<Ran>
    requires i <= j <= |statements|
  {
    seq(j - i, k requires 0 <= k < j - i => Ran(version, i + k, statements[i + k]))
  }

  /** The statements run in order until the commands are used up; nothing else changes but the objects. */
  lemma {:induction false} RunStatementsKeepsHistory(db: Database, version: int, statements: seq<string>, i: nat, effect: Effect, stop: nat)
    requires i <= |statements|
    ensures var o, j := RunStatements(db, version, statements, i, effect, stop), Min(i + stop, |statements|);
            && o.db == db.(objects := o.db.objects, ran := db.ran + Logged(version, statements, i, j))
            && o.left == stop - (j - i)
            && o.error == if j == |statements| then None else Some(Stopped)
    decreases |statements| - i
  {
    if i < |statements| && stop > 0 {
      var db' := RunOne(db, version, i, statements[i], effect);
      var j := Min(i + stop, |statements|);
      RunStatementsKeepsHistory(db', version, statements, i + 1, effect, stop - 1);
      assert [Ran(version, i, statements[i])] + Logged(version, statements, i + 1, j) == Logged(version, statements, i, j);
      assert db'.ran + Logged(version, statements, i + 1, j) == db.ran + Logged(version, statements, i, j);
    } else {
      assert db.ran + [] == db.ran;
    }
  }

  predicate NeedsMaintenance(m: Migration) {
    m.version == 15 || m.version == 16
  }

  /** The loop over the chain, from migration `i` on. */
  function UpFrom(db: Database, migrations: seq<Migration>, i: nat, applied: History, allow: bool, effect: Effect, stop: nat): Outcome
    requires i <= |migrations| && db.history.Some?
    decreases |migrations| - i
  {
    if i == |migrations| then Outcome(db, stop, None)
    else if migrations[i].version in applied then UpFrom(db, migrations, i + 1, applied, allow, effect, stop)
    else if NeedsMaintenance(migrations[i]) && !allow && db.hasMessages then Fail(db, stop, MaintenanceRequired)
    else
      var o := Apply(db, migrations[i], effect, stop);
      if o.error.Some? then o
      else UpFrom(o.db, migrations, i + 1, applied, allow, effect, o.left)
  }

  function Up(db: Database, migrations: seq<Migration>, allow: bool, effect: Effect, stop: nat): Outcome {
    if !IsChain(migrations) then Fail(db, stop, BadChain)
    else if db.history.None? && db.tables then Fail(db, stop, BaselineRequired)
    else if db.history.None? && stop == 0 then Fail(db, 0, Stopped)
    else
      var (db1, left) := if db.history.None? then (db.(history := Some(map[]), tables := true), stop - 1) else (db, stop);
      var applied := db1.history.value;
      if !PrefixHistory(migrations, applied) then Fail(db1, left, BadHistory)
      else UpFrom(db1, migrations, 0, applied, allow, effect, left)
  }

  /** The history of the first `k` migrations. */
  function HistoryOf(migrations: seq<Migration>, k: nat): (h: History)
    requires k <= |migrations|
    ensures |h| == k && forall v :: v in h <==> 1 <= v <= k
    ensures forall v :: v in h ==> h[v] == Recorded(migrations[v - 1])
  {
    if k == 0 then map[] else HistoryOf(migrations, k - 1)[k := Recorded(migrations[k - 1])]
  }

  lemma HistoryOfIsPrefix(migrations: seq<Migration>, k: nat)
    requires k <= |migrations|
    ensures PrefixHistory(migrations, HistoryOf(migrations, k))
  {
  }

  /** Numbers that stand for the two reviewed schema fingerprints. */
  const FINGERPRINT_015 := 15
  const FINGERPRINT_016 := 16

  function Baseline(db: Database, migrations: seq<Migration>, target: int, stop: nat): Outcome {
    if !IsChain(migrations) then Fail(db, stop, BadChain)
    else if !(target == 15 || target == 16) || target > |migrations| then Fail(db, stop, UnsupportedTarget)
    else if db.history.Some? then Fail(db, stop, HistoryExists)
    else if !db.tables then Fail(db, stop, NoTables)
    else if db.fingerprint != (if target == 15 then FINGERPRINT_015 else FINGERPRINT_016) then Fail(db, stop, FingerprintMismatch)
    else if stop == 0 then Fail(db, 0, Stopped)
    else Outcome(db.(history := Some(HistoryOf(migrations, target))), stop - 1, None)
  }

  // ---------------------------------------------------------------- the runner's code

  method RowsOf(migrations: seq<Migration>, target: nat) returns (rows: History)
    requires IsChain(migrations) && target <= |migrations|
    ensures rows == HistoryOf(migrations, target)
  {
    rows := map[];
    for i := 0 to target
      invariant rows == HistoryOf(migrations, i)
    {
      rows := rows[migrations[i].version := Recorded(migrations[i])];
    }
  }

  /** A database and the migrator connected to it; every method may be cut short by `stop`. */
  class Runner {
    const effect: Effect
    var history: Option<History>
    var tables: bool
    var objects: Objects
    ghost var bodies: seq<int>
    ghost var ran: seq<Ran>
    var hasMessages: bool
    var fingerprint: int

    ghost function View(): Database
      reads this
    {
      Database(history, tables, objects, bodies, ran, hasMessages, fingerprint)
    }

    constructor (effect: Effect)
      ensures this.effect == effect
      ensures View() == Database(None, false, Objects(false, false, false), [], [], false, 0)
    {
      this.effect := effect;
      history, tables, objects, hasMessages, fingerprint := None, false, Objects(false, false, false), false, 0;
      bodies, ran := [], [];
    }

    method ExecAll(version: int, statements: seq<string>, stop: nat) returns (left: nat, error: Option<RunError>)
      modifies this
      ensures Outcome(View(), left, error) == RunStatements(old(View()), version, statements, 0, effect, stop)
    {
      left := stop;
      var i := 0;
      while i < |statements|
        invariant 0 <= i <= |statements|
        invariant RunStatements(View(), version, statements, i, effect, left)
               == RunStatements(old(View()), version, statements, 0, effect, stop)
      {
        if left == 0 {
          return 0, Some(Stopped);
        }
        left := left - 1;
        objects := effect(statements[i], objects);
        ran := ran + [Ran(version, i, statements[i])];
        i := i + 1;
      }
      error := None;
    }

    method RecordMigration(m: Migration)
      requires history.Some?
      modifies this`history
      ensures View() == Record(old(View()), m)
    {
      history := Some(history.value[m.version := Recorded(m)]);
    }

    method ApplyMigration(m: Migration, stop: nat) returns (left: nat, error: Option<RunError>)
      requires history.Some?
      modifies this
      ensures Outcome(View(), left, error) == Apply(old(View()), m, effect, stop)
      ensures error.None? ==> history == Some(old(history.value)[m.version := Applied(m.name, m.checksum)])
      ensures error.Some? ==> history == old(history)
      ensures m.transactional ==> (error.None? <==> stop > 0)
      ensures m.transactional && error.None? ==>
        bodies == old(bodies) + [m.version] && objects == effect(m.sql, old(objects)) && ran == old(ran)
      ensures m.transactional && error.Some? ==> View() == old(View())
      ensures !m.transactional ==> bodies == old(bodies)
      ensures !m.transactional && error.None? ==>
        m.version == 14 && objects.indexExists && objects.indexValid && objects.statistics
      ensures !m.transactional && m.version != 14 ==> error == Some(NoVerifier) && View() == old(View())
      ensures !m.transactional && m.version == 14 && (old(objects).indexExists || old(objects).statistics) ==>
        objects == old(objects) && ran == old(ran)
        && (error == Some(PartialObjects) <==>
              !(old(objects).indexExists && old(objects).indexValid && old(objects).statistics))
    {
      hide SqlSplitter.Split, RunStatements;
      if m.transactional {
        if stop == 0 {
          return 0, Some(Stopped);
        }
        objects := effect(m.sql, objects);
        bodies := bodies + [m.version];
        RecordMigration(m);
        return stop - 1, None;
      }
      if m.version != 14 {
        return stop, Some(NoVerifier);
      }
      if Partial(objects) {
        return stop, Some(PartialObjects);
      }
      left := stop;
      if !Complete(objects) {
        var statements := SqlSplitter.SplitSqlStatements(m.sql);
        if statements.Err? {
          return stop, Some(BadSql);
        }
        RunStatementsKeepsHistory(View(), m.version, statements.value, 0, effect, stop);
        left, error := ExecAll(m.version, statements.value, stop);
        if error.Some? {
          return;
        }
        if !Complete(objects) || Partial(objects) {
          return left, Some(ObjectsMissing);
        }
      }
      if left == 0 {
        return 0, Some(Stopped);
      }
      left := left - 1;
      RecordMigration(m);
      error := None;
    }

    method UpAll(migrations: seq<Migration>, allow: bool, stop: nat) returns (left: nat, error: Option<RunError>)
      modifies this
      ensures Outcome(View(), left, error) == Up(old(View()), migrations, allow, effect, stop)
      ensures old(history).None? && old(tables) && IsChain(migrations) ==> error == Some(BaselineRequired)
    {
      hide Apply, IsChain, PrefixHistory;
      left := stop;
      var ok := CheckChain(migrations);
      if !ok {
        return stop, Some(BadChain);
      }
      if history.None? {
        if tables {
          return stop, Some(BaselineRequired);
        }
        if left == 0 {
          return 0, Some(Stopped);
        }
        left := left - 1;
        history, tables := Some(map[]), true;
      }
      var applied := history.value;
      var valid := ValidateApplied(migrations, applied);
      if valid.Err? {
        return left, Some(BadHistory);
      }
      var i := 0;
      while i < |migrations|
        invariant 0 <= i <= |migrations| && history.Some?
        invariant UpFrom(View(), migrations, i, applied, allow, effect, left) == Up(old(View()), migrations, allow, effect, stop)
      {
        if migrations[i].version !in applied {
          if (migrations[i].version == 15 || migrations[i].version == 16) && !allow && hasMessages {
            return left, Some(MaintenanceRequired);
          }
          var failed;
          left, failed := ApplyMigration(migrations[i], left);
          if failed.Some? {
            return left, failed;
          }
        }
        i := i + 1;
      }
      error := None;
    }

    method BaselineAt(migrations: seq<Migration>, target: int, stop: nat) returns (left: nat, error: Option<RunError>)
      modifies this
      ensures Outcome(View(), left, error) == Baseline(old(View()), migrations, target, stop)
      ensures error.None? <==>
        && IsChain(migrations) && (target == 15 || target == 16) && target <= |migrations| && old(history).None? && tables
        && fingerprint == (if target == 15 then FINGERPRINT_015 else FINGERPRINT_016) && stop > 0
      ensures error.Some? ==> View() == old(View())
      ensures error.None? ==>
        && history.Some? && (forall v :: v in history.value <==> 1 <= v <= target)
        && (forall v :: v in history.value ==> history.value[v] == Applied(migrations[v - 1].name, migrations[v - 1].checksum))
        && View() == old(View()).(history := history)
    {
      hide HistoryOf;
      var ok := CheckChain(migrations);
      if !ok {
        return stop, Some(BadChain);
      }
      var expected := if target == 15 then FINGERPRINT_015 else FINGERPRINT_016;
      if (target != 15 && target != 16) || target > |migrations| {
        return stop, Some(UnsupportedTarget);
      }
      if history.Some? {
        return stop, Some(HistoryExists);
      }
      if !tables {
        return stop, Some(NoTables);
      }
      if fingerprint != expected {
        return stop, Some(FingerprintMismatch);
      }
      if stop == 0 {
        return 0, Some(Stopped);
      }
      var rows := RowsOf(migrations, target);
      history := Some(rows);
      return stop - 1, None;
    }
  }
}
