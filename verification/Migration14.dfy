/**
 * Migration 14, the only one that runs outside a transaction: over whole lives of a database, exactly when it ends up
 * recorded although some of its statements never ran.
 */
module Migration14 {
  import opened Common
  import opened MigrationRunner
  import opened MigrationRuns
  import SqlSplitter
  import SqlSplitterLaws

  /** The chain's fourteenth migration is a script of these statements. */
  predicate HasScript(full: seq<Migration>, statements: seq<string>) {
    && IsChain(full) && |full| >= 14 && !full[13].transactional
    && SqlSplitter.Split(full[13].sql) == Ok(statements) && statements != []
  }

  // ---------------------------------------------------------------- one attempt

  /**
   * When migration 14 is recorded, all its statements ran in that attempt if and only if its objects were not
   * complete before.
   */
  lemma Migration14RunsAllOrNothing(db: Database, m: Migration, effect: Effect, stop: nat, statements: seq<string>)
    requires db.history.Some? && m.version == 14 && !m.transactional && SqlSplitter.Split(m.sql) == Ok(statements)
    requires Apply(db, m, effect, stop).error.None?
    ensures Apply(db, m, effect, stop).db.ran
         == db.ran + Logged(14, statements, 0, if Complete(db.objects) then 0 else |statements|)
  {
    hide RunStatements, SqlSplitter.Split;
    RunStatementsKeepsHistory(db, m.version, statements, 0, effect, stop);
    assert db.ran + [] == db.ran;
  }

  /** How many statements an attempt at migration 14 runs: none when one of its objects exists. */
  function Attempted(o: Outcome, n: nat): nat {
    if Complete(o.db.objects) || Partial(o.db.objects) then 0 else Min(o.left, n)
  }

  /** Whatever its outcome, an attempt runs that many first statements, and nothing else of the log changes. */
  lemma AttemptRunsAPrefix(db: Database, m: Migration, effect: Effect, stop: nat, statements: seq<string>)
    requires db.history.Some? && m.version == 14 && !m.transactional && SqlSplitter.Split(m.sql) == Ok(statements)
    ensures var o := Apply(db, m, effect, stop);
            o.db.ran == db.ran + Logged(14, statements, 0, Attempted(Outcome(db, stop, None), |statements|))
    ensures Apply(db, m, effect, stop).error.None? && !Complete(db.objects) ==> !Partial(db.objects) && stop >= |statements|
    ensures Complete(db.objects) && stop > 0 ==> Apply(db, m, effect, stop).error.None?
    ensures Complete(db.objects) && stop == 0 ==> Apply(db, m, effect, stop).error.Some?
  {
    hide RunStatements, SqlSplitter.Split;
    RunStatementsKeepsHistory(db, m.version, statements, 0, effect, stop);
    assert db.ran + [] == db.ran;
  }

  // ---------------------------------------------------------------- a run of `up` around its attempt

  /** The loop over the first 13 migrations, and then the rest. */
  lemma {:induction false} UpFromSplits(db: Database, chain: seq<Migration>, i: nat, applied: History, allow: bool, effect: Effect, stop: nat)
    requires i <= 13 <= |chain| && db.history.Some?
    ensures var o := UpFrom(db, chain[..13], i, applied, allow, effect, stop);
            && o.db.history.Some?
            && UpFrom(db, chain, i, applied, allow, effect, stop)
               == if o.error.Some? then o else UpFrom(o.db, chain, 13, applied, allow, effect, o.left)
    decreases 13 - i
  {
    hide Apply;
    if i < 13 {
      assert chain[..13][i] == chain[i];
      if chain[i].version in applied {
        UpFromSplits(db, chain, i + 1, applied, allow, effect, stop);
      } else {
        var o := Apply(db, chain[i], effect, stop);
        UpFromSplits(o.db, chain, i + 1, applied, allow, effect, o.left);
      }
    }
  }

  lemma OtherApplyKeepsLog(db: Database, m: Migration, effect: Effect, stop: nat)
    requires db.history.Some? && m.version != 14
    ensures var o := Apply(db, m, effect, stop);
            o.db.ran == db.ran && (14 in o.db.history.value <==> 14 in db.history.value)
  {
  }

  /** Other migrations neither run single statements nor record migration 14. */
  lemma {:induction false} OthersKeepLog(db: Database, chain: seq<Migration>, i: nat, applied: History, allow: bool, effect: Effect, stop: nat)
    requires i <= |chain| && db.history.Some? && forall k :: i <= k < |chain| ==> chain[k].version != 14
    ensures var o := UpFrom(db, chain, i, applied, allow, effect, stop);
            && o.db.history.Some? && o.db.ran == db.ran && (14 in o.db.history.value <==> 14 in db.history.value)
    decreases |chain| - i
  {
    hide Apply;
    if i < |chain| {
      OtherApplyKeepsLog(db, chain[i], effect, stop);
      var o := Apply(db, chain[i], effect, stop);
      if chain[i].version in applied {
        OthersKeepLog(db, chain, i + 1, applied, allow, effect, stop);
      } else {
        OthersKeepLog(o.db, chain, i + 1, applied, allow, effect, o.left);
      }
    }
  }

  predicate Recorded14(db: Database) {
    db.history.Some? && 14 in db.history.value
  }

  /** The database and the commands left when a run of `up` comes to migration 14, if it does. */
  function Reached(db: Database, chain: seq<Migration>, allow: bool, effect: Effect, stop: nat): Option<Outcome> {
    if |chain| < 14 || Recorded14(db) || (db.history.Some? && !PrefixHistory(chain, db.history.value)) then None
    else
      var o := Up(db, chain[..13], allow, effect, stop);
      if o.error.Some? then None else Some(o)
  }

  lemma ShorterPrefix(chain: seq<Migration>, h: History)
    requires |chain| >= 14 && PrefixHistory(chain, h) && 14 !in h
    ensures PrefixHistory(chain[..13], h)
  {
    assert |h| >= 14 ==> 14 in h;
  }

  /** A run of `up` that does not come to migration 14 leaves log and record alone. */
  lemma UnreachedKeepsLog(db: Database, chain: seq<Migration>, allow: bool, effect: Effect, stop: nat)
    requires IsChain(chain) && Reached(db, chain, allow, effect, stop).None?
    ensures var o := Up(db, chain, allow, effect, stop);
            o.db.ran == db.ran && (Recorded14(o.db) <==> Recorded14(db))
  {
    hide Apply, UpFrom, PrefixHistory;
    UpIsUpFrom(db, chain, allow, effect, stop);
    var (db1, left) := Started(db, stop);
    if db1.history.Some? && PrefixHistory(chain, db1.history.value) {
      var applied := db1.history.value;
      if |chain| < 14 {
        OthersKeepLog(db1, chain, 0, applied, allow, effect, left);
      } else if 14 in applied {
        AppliedKeepsLog(db1, chain, 0, applied, allow, effect, left);
      } else {
        ShorterPrefix(chain, applied);
        UpIsUpFrom(db, chain[..13], allow, effect, stop);
        UpFromSplits(db1, chain, 0, applied, allow, effect, left);
        OthersKeepLog(db1, chain[..13], 0, applied, allow, effect, left);
      }
    }
  }

  /** The database after the history table exists, when the run gets so far. */
  function Started(db: Database, stop: nat): (Database, nat) {
    if db.history.None? && !db.tables && stop > 0 then (db.(history := Some(map[]), tables := true), stop - 1) else (db, stop)
  }

  lemma UpIsUpFrom(db: Database, chain: seq<Migration>, allow: bool, effect: Effect, stop: nat)
    requires IsChain(chain)
    ensures var (db1, left) := Started(db, stop);
            if db1.history.Some? && PrefixHistory(chain, db1.history.value)
            then Up(db, chain, allow, effect, stop) == UpFrom(db1, chain, 0, db1.history.value, allow, effect, left)
            else Up(db, chain, allow, effect, stop).error.Some? && Up(db, chain, allow, effect, stop).db == db
    ensures db.history.None? ==> PrefixHistory(chain, map[])
  {
    hide UpFrom;
    EmptyHistory(chain);
  }

  /** Once migration 14 is in the history that a run loads, the run passes it by. */
  lemma {:induction false} AppliedKeepsLog(db: Database, chain: seq<Migration>, i: nat, applied: History, allow: bool, effect: Effect, stop: nat)
    requires i <= |chain| && db.history.Some? && 14 in applied && 14 in db.history.value
    ensures var o := UpFrom(db, chain, i, applied, allow, effect, stop);
            o.db.history.Some? && o.db.ran == db.ran && 14 in o.db.history.value
    decreases |chain| - i
  {
    hide Apply;
    if i < |chain| {
      if chain[i].version in applied {
        AppliedKeepsLog(db, chain, i + 1, applied, allow, effect, stop);
      } else {
        OtherApplyKeepsLog(db, chain[i], effect, stop);
        var o := Apply(db, chain[i], effect, stop);
        AppliedKeepsLog(o.db, chain, i + 1, applied, allow, effect, o.left);
      }
    }
  }

  /** A run of `up` that comes to migration 14 runs what its attempt runs, and records it when the attempt does. */
  lemma ReachedRunsTheAttempt(db: Database, chain: seq<Migration>, allow: bool, effect: Effect, stop: nat, statements: seq<string>)
    requires HasScript(chain, statements) && Reached(db, chain, allow, effect, stop).Some?
    ensures var at := Reached(db, chain, allow, effect, stop).value;
            var o := Up(db, chain, allow, effect, stop);
            && at.db.history.Some?
            && o.db.ran == db.ran + Logged(14, statements, 0, Attempted(at, |statements|))
            && (Recorded14(o.db) <==> Apply(at.db, chain[13], effect, at.left).error.None?)
  {
    hide Apply, UpFrom, PrefixHistory;
    var (db1, left) := Started(db, stop);
    var applied := if db1.history.Some? then db1.history.value else map[];
    UpIsUpFrom(db, chain, allow, effect, stop);
    UpIsUpFrom(db, chain[..13], allow, effect, stop);
    if db.history.Some? {
      ShorterPrefix(chain, applied);
    }
    UpFromSplits(db1, chain, 0, applied, allow, effect, left);
    OthersKeepLog(db1, chain[..13], 0, applied, allow, effect, left);
    var at := Reached(db, chain, allow, effect, stop).value;
    AttemptThenRest(at.db, chain, applied, allow, effect, at.left, statements);
  }

  lemma AttemptThenRest(db: Database, chain: seq<Migration>, applied: History, allow: bool, effect: Effect, stop: nat, statements: seq<string>)
    requires HasScript(chain, statements) && db.history.Some? && 14 !in applied && 14 !in db.history.value
    ensures var o := UpFrom(db, chain, 13, applied, allow, effect, stop);
            && o.db.ran == db.ran + Logged(14, statements, 0, Attempted(Outcome(db, stop, None), |statements|))
            && (Recorded14(o.db) <==> Apply(db, chain[13], effect, stop).error.None?)
  {
    hide Apply;
    var o := Apply(db, chain[13], effect, stop);
    AttemptRunsAPrefix(db, chain[13], effect, stop, statements);
    ApplyRecordsOrKeeps(db, chain[13], effect, stop);
    if o.error.None? {
      OthersKeepLog(o.db, chain, 14, applied, allow, effect, o.left);
    }
  }

  // ---------------------------------------------------------------- many runs

  /** The operation is an `up` that comes to migration 14 with neither object there and commands for every statement. */
  predicate RunsWholeScript(db: Database, full: seq<Migration>, effect: Effect, op: Op, n: nat)
    requires ValidOp(full, op)
  {
    op.UpOp?
    && var at := Reached(db, full[..op.length], op.allow, effect, op.stop);
       at.Some? && !Complete(at.value.db.objects) && !Partial(at.value.db.objects) && at.value.left >= n
  }

  /** The operation records migration 14 unseen: a baseline, or an `up` that comes to it with its objects complete. */
  predicate RecordsUnseen(db: Database, full: seq<Migration>, effect: Effect, op: Op)
    requires ValidOp(full, op)
  {
    || (op.BaselineOp? && Baseline(db, full[..op.length], op.target, op.stop).error.None?)
    || (op.UpOp?
        && var at := Reached(db, full[..op.length], op.allow, effect, op.stop);
           at.Some? && Complete(at.value.db.objects) && at.value.left > 0)
  }

  /** How many of the script's first statements the operation runs. */
  function Progress(db: Database, full: seq<Migration>, effect: Effect, op: Op, n: nat): nat
    requires ValidOp(full, op)
  {
    if !op.UpOp? then 0
    else
      var at := Reached(db, full[..op.length], op.allow, effect, op.stop);
      if at.None? then 0 else Attempted(at.value, n)
  }

  lemma UpOpEffect(db: Database, full: seq<Migration>, effect: Effect, op: Op, statements: seq<string>)
    requires HasScript(full, statements) && ValidOp(full, op) && op.UpOp?
    ensures Progress(db, full, effect, op, |statements|) <= |statements|
    ensures var db' := Perform(db, full, effect, op);
            && db'.ran == db.ran + Logged(14, statements, 0, Progress(db, full, effect, op, |statements|))
            && (Recorded14(db) ==> Recorded14(db') && !RecordsUnseen(db, full, effect, op)
                                   && Progress(db, full, effect, op, |statements|) == 0)
            && (!Recorded14(db) && Recorded14(db') ==>
                  RecordsUnseen(db, full, effect, op) || RunsWholeScript(db, full, effect, op, |statements|))
            && (RecordsUnseen(db, full, effect, op) ==> Recorded14(db'))
  {
    hide Up, Apply, SqlSplitter.Split;
    var chain := full[..op.length];
    var at := Reached(db, chain, op.allow, effect, op.stop);
    assert IsChain(chain);
    if at.None? {
      UnreachedKeepsLog(db, chain, op.allow, effect, op.stop);
      assert db.ran + [] == db.ran;
    } else {
      assert HasScript(chain, statements) && chain[13] == full[13];
      ReachedRunsTheAttempt(db, chain, op.allow, effect, op.stop, statements);
      AttemptRunsAPrefix(at.value.db, chain[13], effect, at.value.left, statements);
    }
  }

  /** What one operation does to the log and the record of migration 14. */
  lemma OpEffect(db: Database, full: seq<Migration>, effect: Effect, op: Op, statements: seq<string>)
    requires HasScript(full, statements) && ValidOp(full, op)
    ensures Progress(db, full, effect, op, |statements|) <= |statements|
    ensures Progress(db, full, effect, op, |statements|) == |statements| <==> RunsWholeScript(db, full, effect, op, |statements|)
    ensures RecordsUnseen(db, full, effect, op) ==> Progress(db, full, effect, op, |statements|) == 0
    ensures var db' := Perform(db, full, effect, op);
            && db'.ran == db.ran + Logged(14, statements, 0, Progress(db, full, effect, op, |statements|))
            && (Recorded14(db) ==> Recorded14(db') && !RecordsUnseen(db, full, effect, op)
                                   && Progress(db, full, effect, op, |statements|) == 0)
            && (!Recorded14(db) && Recorded14(db') ==>
                  RecordsUnseen(db, full, effect, op) || RunsWholeScript(db, full, effect, op, |statements|))
            && (RecordsUnseen(db, full, effect, op) ==> Recorded14(db'))
  {
    hide Up, Apply, Reached, SqlSplitter.Split, HistoryOf;
    if op.UpOp? {
      UpOpEffect(db, full, effect, op, statements);
    } else {
      assert db.ran + [] == db.ran;
    }
  }

  /** Statement `i` of migration 14 is in the log. */
  predicate HasRun(db: Database, i: nat) {
    exists k :: 0 <= k < |db.ran| && db.ran[k].version == 14 && db.ran[k].index == i
  }

  lemma HasRunAfter(db: Database, db': Database, statements: seq<string>, e: nat, i: nat)
    requires e <= |statements| && db'.ran == db.ran + Logged(14, statements, 0, e)
    ensures HasRun(db', i) <==> HasRun(db, i) || i < e
  {
    if HasRun(db, i) {
      var k :| 0 <= k < |db.ran| && db.ran[k].version == 14 && db.ran[k].index == i;
      assert db'.ran[k] == db.ran[k];
    }
    if i < e {
      assert db'.ran[|db.ran| + i] == Ran(14, i, statements[i]);
    }
    if HasRun(db', i) {
      var k :| 0 <= k < |db'.ran| && db'.ran[k].version == 14 && db'.ran[k].index == i;
      assert k < |db.ran| ==> db'.ran[k] == db.ran[k];
      assert k >= |db.ran| ==> db'.ran[k] == Logged(14, statements, 0, e)[k - |db.ran|];
    }
  }

  predicate AllValid(full: seq<Migration>, ops: seq<Op>) {
    forall i :: 0 <= i < |ops| ==> ValidOp(full, ops[i])
  }

  /** Operation `k` of the life runs the whole script; operation `k` records it unseen. */
  predicate WholeAt(db: Database, full: seq<Migration>, effect: Effect, ops: seq<Op>, n: nat, k: nat)
    requires AllValid(full, ops) && k < |ops|
  {
    RunsWholeScript(PerformAll(db, full, effect, ops[..k]), full, effect, ops[k], n)
  }

  predicate UnseenAt(db: Database, full: seq<Migration>, effect: Effect, ops: seq<Op>, k: nat)
    requires AllValid(full, ops) && k < |ops|
  {
    RecordsUnseen(PerformAll(db, full, effect, ops[..k]), full, effect, ops[k])
  }

  lemma SameInFront(db: Database, full: seq<Migration>, effect: Effect, ops: seq<Op>, n: nat, k: nat)
    requires AllValid(full, ops) && k < |ops| - 1
    ensures WholeAt(db, full, effect, ops[..|ops| - 1], n, k) <==> WholeAt(db, full, effect, ops, n, k)
    ensures UnseenAt(db, full, effect, ops[..|ops| - 1], k) <==> UnseenAt(db, full, effect, ops, k)
  {
    assert ops[..|ops| - 1][..k] == ops[..k] && ops[..|ops| - 1][k] == ops[k];
  }

  /** The statements that ever ran are the script's first ones, and all of them exactly if one operation ran the whole script. */
  lemma {:induction false} RanIsAPrefix(db: Database, full: seq<Migration>, effect: Effect, ops: seq<Op>, statements: seq<string>, i: nat)
    requires HasScript(full, statements) && AllValid(full, ops) && db.ran == [] && i < |statements|
    ensures var end, n := PerformAll(db, full, effect, ops), |statements|;
            && (HasRun(end, n - 1) ==> HasRun(end, i))
            && (HasRun(end, n - 1) <==> exists k :: 0 <= k < |ops| && WholeAt(db, full, effect, ops, n, k))
    decreases |ops|
  {
    hide Perform, RunsWholeScript, Progress, HasScript, HasRun, WholeAt;
    var n := |statements|;
    if ops == [] {
      NothingRan(db, n - 1);
    } else {
      var front, last := ops[..|ops| - 1], ops[|ops| - 1];
      var before, end := PerformAll(db, full, effect, front), PerformAll(db, full, effect, ops);
      RanIsAPrefix(db, full, effect, front, statements, i);
      OpEffect(before, full, effect, last, statements);
      var e := Progress(before, full, effect, last, n);
      HasRunAfter(before, end, statements, e, i);
      HasRunAfter(before, end, statements, e, n - 1);
      forall k | 0 <= k < |front| ensures WholeAt(db, full, effect, front, n, k) <==> WholeAt(db, full, effect, ops, n, k) {
        SameInFront(db, full, effect, ops, n, k);
      }
      LastIsWhole(db, full, effect, ops, n);
    }
  }

  lemma NothingRan(db: Database, i: nat)
    requires db.ran == []
    ensures !HasRun(db, i)
  {
  }

  lemma LastIsWhole(db: Database, full: seq<Migration>, effect: Effect, ops: seq<Op>, n: nat)
    requires AllValid(full, ops) && ops != []
    ensures var before := PerformAll(db, full, effect, ops[..|ops| - 1]);
            && (WholeAt(db, full, effect, ops, n, |ops| - 1) <==> RunsWholeScript(before, full, effect, ops[|ops| - 1], n))
            && (UnseenAt(db, full, effect, ops, |ops| - 1) <==> RecordsUnseen(before, full, effect, ops[|ops| - 1]))
  {
  }

  /** One operation records the migration unseen and none before it runs the whole script. */
  ghost predicate Unseen(db: Database, full: seq<Migration>, effect: Effect, ops: seq<Op>, n: nat)
    requires AllValid(full, ops)
  {
    exists j :: 0 <= j < |ops| && UnseenAt(db, full, effect, ops, j)
                && forall k :: 0 <= k < j ==> !WholeAt(db, full, effect, ops, n, k)
  }

  /**
   * Over any sequence of runs, stopped anywhere, by binaries of any length, with the outside world changing the
   * objects in between: migration 14 ends up recorded although one of its statements never ran, if and only if
   * some baseline, or some `up` that found its objects complete, records it before any `up` has come to it with
   * neither object there and got through the whole script.
   */
  lemma {:induction false} RecordedShortExactlyWhen(db: Database, full: seq<Migration>, effect: Effect, ops: seq<Op>, statements: seq<string>)
    requires HasScript(full, statements) && AllValid(full, ops) && db.ran == [] && !Recorded14(db)
    ensures var end := PerformAll(db, full, effect, ops);
            Recorded14(end) && (exists i :: 0 <= i < |statements| && !HasRun(end, i))
            <==> Unseen(db, full, effect, ops, |statements|)
  {
    hide PerformAll, HasRun, Unseen;
    var end, n := PerformAll(db, full, effect, ops), |statements|;
    RecordedUnseen(db, full, effect, ops, statements);
    forall i | 0 <= i < n ensures HasRun(end, n - 1) ==> HasRun(end, i) {
      RanIsAPrefix(db, full, effect, ops, statements, i);
    }
  }

  lemma ScriptNotEmpty(full: seq<Migration>, statements: seq<string>)
    requires HasScript(full, statements)
    ensures statements != []
  {
  }

  lemma {:induction false} RecordedUnseen(db: Database, full: seq<Migration>, effect: Effect, ops: seq<Op>, statements: seq<string>)
    requires HasScript(full, statements) && AllValid(full, ops) && db.ran == [] && !Recorded14(db)
    ensures var end := PerformAll(db, full, effect, ops);
            Recorded14(end) && !HasRun(end, |statements| - 1) <==> Unseen(db, full, effect, ops, |statements|)
    decreases |ops|
  {
    hide Perform, RunsWholeScript, RecordsUnseen, Progress, HasScript, HasRun, WholeAt, UnseenAt, Recorded14;
    ScriptNotEmpty(full, statements);
    if ops != [] {
      var n, last := |statements|, |ops| - 1;
      var front := ops[..last];
      var before, end := PerformAll(db, full, effect, front), PerformAll(db, full, effect, ops);
      RecordedUnseen(db, full, effect, front, statements);
      RanIsAPrefix(db, full, effect, front, statements, n - 1);
      OpEffect(before, full, effect, ops[last], statements);
      HasRunAfter(before, end, statements, Progress(before, full, effect, ops[last], n), n - 1);
      forall k | 0 <= k < last
        ensures WholeAt(db, full, effect, front, n, k) <==> WholeAt(db, full, effect, ops, n, k)
        ensures UnseenAt(db, full, effect, front, k) <==> UnseenAt(db, full, effect, ops, k)
      {
        SameInFront(db, full, effect, ops, n, k);
      }
      LastIsWhole(db, full, effect, ops, n);
    }
  }

  // ---------------------------------------------------------------- interrupted scripts

  /** The objects after the statements from number `i` up to `j`. */
  function ObjectsAfter(objects: Objects, statements: seq<string>, effect: Effect, i: nat, j: nat): Objects
    requires i <= j <= |statements|
    decreases j - i
  {
    if i == j then objects else ObjectsAfter(effect(statements[i], objects), statements, effect, i + 1, j)
  }

  lemma {:induction false} StoppedStatements(db: Database, version: int, statements: seq<string>, i: nat, effect: Effect, c: nat)
    requires i + c < |statements|
    ensures var o := RunStatements(db, version, statements, i, effect, c);
            o.error == Some(Stopped) && o.db.objects == ObjectsAfter(db.objects, statements, effect, i, i + c)
    decreases c
  {
    if c > 0 {
      StoppedStatements(RunOne(db, version, i, statements[i], effect), version, statements, i + 1, effect, c - 1);
    }
  }

  /**
   * The completion check looks at objects only: a run stopped after `c` statements that already produced the objects
   * is followed by a run that records the migration without the remaining statements.
   */
  lemma InterruptedScriptIsRecordedShort(db: Database, m: Migration, effect: Effect, statements: seq<string>, c: nat, stop: nat)
    requires db.history.Some? && m.version == 14 && !m.transactional && SqlSplitter.Split(m.sql) == Ok(statements)
    requires !db.objects.indexExists && !db.objects.statistics && c < |statements| && stop > 0
    requires Complete(ObjectsAfter(db.objects, statements, effect, 0, c))
    ensures var first := Apply(db, m, effect, c);
            var second := Apply(first.db, m, effect, stop);
            && first.error == Some(Stopped) && second.error.None?
            && second.db.history == Some(db.history.value[14 := Recorded(m)])
            && second.db.ran == db.ran + Logged(14, statements, 0, c)
  {
    hide RunStatements, SqlSplitter.Split, ObjectsAfter;
    StoppedStatements(db, m.version, statements, 0, effect, c);
    RunStatementsKeepsHistory(db, m.version, statements, 0, effect, c);
  }

  /** The first statement creates the index, the second the statistics object; the others create nothing. */
  function CreatesObjects(statements: seq<string>): Effect
    requires |statements| == 4
  {
    (statement, o: Objects) =>
      if statement == statements[0] then o.(indexExists := true, indexValid := true)
      else if statement == statements[1] then o.(statistics := true)
      else o
  }

  /**
   * The migration's four statements, stopped after two: the next run records it, and the last two statements, which
   * set the statistics target and analyze the table, never run. Nothing about their texts matters but that the first
   * two differ.
   */
  lemma FourStatementsStoppedAfterTwo(db: Database, name: string, checksum: seq<int>, statements: seq<string>)
    requires |statements| == 4 && statements[0] != statements[1] && SqlSplitterLaws.WellSplit(statements)
    requires db.history.Some? && db.objects == Objects(false, false, false) && db.ran == []
    ensures var m := Migration(14, name, checksum, false, SqlSplitterLaws.Join(statements));
            var first := Apply(db, m, CreatesObjects(statements), 2);
            var second := Apply(first.db, m, CreatesObjects(statements), 1);
            && first.error == Some(Stopped) && second.error.None? && Recorded14(second.db)
            && HasRun(second.db, 0) && HasRun(second.db, 1) && !HasRun(second.db, 2) && !HasRun(second.db, 3)
  {
    hide Apply, SqlSplitter.Segments, SqlSplitterLaws.WellSplit;
    var m := Migration(14, name, checksum, false, SqlSplitterLaws.Join(statements));
    SqlSplitterLaws.JoinSplits(statements);
    assert SqlSplitter.Split(m.sql) == Ok(statements);
    var effect := CreatesObjects(statements);
    assert Complete(ObjectsAfter(db.objects, statements, effect, 0, 2)) by { TwoStatements(statements); }
    InterruptedScriptIsRecordedShort(db, m, effect, statements, 2, 1);
    var ran := Apply(Apply(db, m, effect, 2).db, m, effect, 1).db.ran;
    assert ran == [Ran(14, 0, statements[0]), Ran(14, 1, statements[1])];
    assert ran[0].index == 0 && ran[1].index == 1;
  }

  lemma TwoStatements(statements: seq<string>)
    requires |statements| == 4 && statements[0] != statements[1]
    ensures Complete(ObjectsAfter(Objects(false, false, false), statements, CreatesObjects(statements), 0, 2))
  {
    var effect := CreatesObjects(statements);
    var one := effect(statements[0], Objects(false, false, false));
    var two := effect(statements[1], one);
    assert ObjectsAfter(two, statements, effect, 2, 2) == two;
    assert ObjectsAfter(one, statements, effect, 1, 2) == two;
  }
}
