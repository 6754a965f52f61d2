/**
 * Whole lives of a database: any sequence of migrator runs, each stopped anywhere, by binaries that carry longer or
 * shorter versions of one common chain, with the outside world changing in between.
 */
module MigrationRuns {
  import opened Common
  import opened MigrationRunner
  import SqlSplitter

  /** The versions of the transactional migrations after the first `a` and up to the first `b`. */
  function Bodies(migrations: seq<Migration>, a: nat, b: nat): seq<int>
    requires a <= b <= |migrations|
    decreases b
  {
    if a == b then []
    else Bodies(migrations, a, b - 1) + (if migrations[b - 1].transactional then [migrations[b - 1].version] else [])
  }

  lemma {:induction false} BodiesConcat(migrations: seq<Migration>, a: nat, b: nat, c: nat)
    requires a <= b <= c <= |migrations|
    ensures Bodies(migrations, a, b) + Bodies(migrations, b, c) == Bodies(migrations, a, c)
    decreases c
  {
    if b < c {
      BodiesConcat(migrations, a, b, c - 1);
    }
  }

  lemma {:induction false} BodiesOfPrefix(full: seq<Migration>, n: nat, a: nat, b: nat)
    requires a <= b <= n <= |full|
    ensures Bodies(full[..n], a, b) == Bodies(full, a, b)
    decreases b
  {
    if a < b {
      BodiesOfPrefix(full, n, a, b - 1);
    }
  }

  lemma ApplyRecordsOrKeeps(db: Database, m: Migration, effect: Effect, stop: nat)
    requires db.history.Some?
    ensures var o := Apply(db, m, effect, stop);
            if o.error.None? then
              && o.db.history == Some(db.history.value[m.version := Recorded(m)])
              && o.db.bodies == db.bodies + (if m.transactional then [m.version] else [])
            else o.db.history == db.history && o.db.bodies == db.bodies
  {
    hide SqlSplitter.Split, RunStatements;
    if !m.transactional {
      match SqlSplitter.Split(m.sql)
      case Err(_) =>
      case Ok(statements) => RunStatementsKeepsHistory(db, m.version, statements, 0, effect, stop);
    }
  }

  lemma RecordedNext(migrations: seq<Migration>, h: History, k: nat)
    requires IsChain(migrations) && PrefixHistory(migrations, h) && |h| == k < |migrations|
    ensures var h' := h[migrations[k].version := Recorded(migrations[k])]; PrefixHistory(migrations, h') && |h'| == k + 1
  {
  }

  lemma UpFromOnce(db: Database, migrations: seq<Migration>, i: nat, applied: History, allow: bool, effect: Effect, stop: nat)
    requires i <= |migrations| && db.history.Some?
    ensures var r := UpFrom(db, migrations, i, applied, allow, effect, stop);
            if i == |migrations| then r == Outcome(db, stop, None)
            else if migrations[i].version in applied then r == UpFrom(db, migrations, i + 1, applied, allow, effect, stop)
            else if NeedsMaintenance(migrations[i]) && !allow && db.hasMessages then r == Fail(db, stop, MaintenanceRequired)
            else
              var o := Apply(db, migrations[i], effect, stop);
              r == if o.error.Some? then o else UpFrom(o.db, migrations, i + 1, applied, allow, effect, o.left)
  {
    hide Apply;
  }

  lemma NoBodies(migrations: seq<Migration>, k: nat)
    ensures k <= |migrations| ==> Bodies(migrations, k, k) == []
  {
  }

  lemma OneBody(migrations: seq<Migration>, i: nat, k: nat)
    requires i < k <= |migrations|
    ensures Bodies(migrations, i, k) == (if migrations[i].transactional then [migrations[i].version] else []) + Bodies(migrations, i + 1, k)
  {
    BodiesConcat(migrations, i, i + 1, k);
    assert Bodies(migrations, i, i) == [];
  }

  lemma PrefixIsShort(migrations: seq<Migration>, h: History)
    requires PrefixHistory(migrations, h)
    ensures |h| <= |migrations|
  {
  }

  lemma NextInPrefix(migrations: seq<Migration>, h: History, i: nat)
    requires IsChain(migrations) && PrefixHistory(migrations, h) && i < |migrations|
    ensures migrations[i].version == i + 1 && |h| <= |migrations|
    ensures i + 1 in h <==> i < |h|
  {
  }

  /** From migration `i` on, the loop extends the history one by one, and runs each new body once. */
  lemma {:induction false} UpFromExtends(db: Database, migrations: seq<Migration>, i: nat, applied: History, allow: bool,
                                         effect: Effect, stop: nat)
    requires IsChain(migrations) && i <= |migrations| && PrefixHistory(migrations, applied)
    requires db.history.Some? && PrefixHistory(migrations, db.history.value) && |db.history.value| == Max(|applied|, i)
    ensures var o, k := UpFrom(db, migrations, i, applied, allow, effect, stop), |db.history.value|;
            && o.db.history.Some? && PrefixHistory(migrations, o.db.history.value) && k <= |o.db.history.value| <= |migrations|
            && o.db.bodies == db.bodies + Bodies(migrations, k, |o.db.history.value|)
            && (o.error.None? ==> |o.db.history.value| == |migrations|)
    decreases |migrations| - i
  {
    hide Apply, IsChain, PrefixHistory, NeedsMaintenance, UpFrom, Bodies, Recorded;
    UpFromOnce(db, migrations, i, applied, allow, effect, stop);
    NoBodies(migrations, |db.history.value|);
    if i == |migrations| {
      PrefixIsShort(migrations, db.history.value);
    } else {
      NextInPrefix(migrations, applied, i);
      NextInPrefix(migrations, db.history.value, i);
      if migrations[i].version in applied {
        UpFromExtends(db, migrations, i + 1, applied, allow, effect, stop);
      } else if !(NeedsMaintenance(migrations[i]) && !allow && db.hasMessages) {
        ApplyRecordsOrKeeps(db, migrations[i], effect, stop);
        var o := Apply(db, migrations[i], effect, stop);
        if o.error.None? {
          var end := UpFrom(o.db, migrations, i + 1, applied, allow, effect, o.left);
          RecordedNext(migrations, db.history.value, i);
          UpFromExtends(o.db, migrations, i + 1, applied, allow, effect, o.left);
          OneBody(migrations, i, |end.db.history.value|);
        }
      }
    }
  }

  /**
   * One run of `up` on any database: a history that is not a prefix of the chain is refused and left alone, and
   * otherwise, wherever the run stops, the history only grows to a longer prefix and each new body has run once.
   */
  lemma UpKeepsPrefix(db: Database, migrations: seq<Migration>, allow: bool, effect: Effect, stop: nat)
    requires IsChain(migrations)
    ensures var o := Up(db, migrations, allow, effect, stop);
            var before := if db.history.Some? then db.history.value else map[];
            && (o.error == Some(BadHistory) <==> db.history.Some? && !PrefixHistory(migrations, db.history.value))
            && (o.error == Some(BadHistory) ==> o.db == db)
            && (o.error == Some(BaselineRequired) ==> o.db == db)
            && (o.error != Some(BadHistory) && o.db.history.Some? ==>
                  var after := o.db.history.value;
                  && PrefixHistory(migrations, after) && |before| <= |after| <= |migrations|
                  && o.db.bodies == db.bodies + Bodies(migrations, |before|, |after|))
            && (o.db.history.None? ==> o.db == db)
  {
    hide UpFrom;
    var start := db.history.None? && !db.tables && stop > 0;
    var db1 := if start then db.(history := Some(map[]), tables := true) else db;
    var left := if start then stop - 1 else stop;
    if db1.history.Some? && PrefixHistory(migrations, db1.history.value) {
      UpFromExtends(db1, migrations, 0, db1.history.value, allow, effect, left);
      UpFromErrors(db1, migrations, 0, db1.history.value, allow, effect, left);
    }
  }

  lemma {:induction false} UpFromErrors(db: Database, migrations: seq<Migration>, i: nat, applied: History, allow: bool,
                                        effect: Effect, stop: nat)
    requires i <= |migrations| && db.history.Some?
    ensures var e := UpFrom(db, migrations, i, applied, allow, effect, stop).error;
            e != Some(BadHistory) && e != Some(BaselineRequired)
    decreases |migrations| - i
  {
    hide Apply;
    if i < |migrations| {
      ApplyErrors(db, migrations[i], effect, stop);
      var o := Apply(db, migrations[i], effect, stop);
      if migrations[i].version in applied {
        UpFromErrors(db, migrations, i + 1, applied, allow, effect, stop);
      } else {
        UpFromErrors(o.db, migrations, i + 1, applied, allow, effect, o.left);
      }
    }
  }

  lemma ApplyErrors(db: Database, m: Migration, effect: Effect, stop: nat)
    requires db.history.Some?
    ensures Apply(db, m, effect, stop).error != Some(BadHistory) && Apply(db, m, effect, stop).error != Some(BaselineRequired)
  {
    hide SqlSplitter.Split, RunStatements;
    if !m.transactional {
      match SqlSplitter.Split(m.sql)
      case Err(_) =>
      case Ok(statements) => RunStatementsKeepsHistory(db, m.version, statements, 0, effect, stop);
    }
  }

  /**
   * Maintenance is respected: while there are messages and the operator has not allowed it, no run records migration
   * 15 or 16; and only such a migration, in that situation, is ever refused for maintenance.
   */
  lemma {:induction false} UpFromRespectsMaintenance(db: Database, migrations: seq<Migration>, i: nat, applied: History, allow: bool,
                                                     effect: Effect, stop: nat, v: int)
    requires i <= |migrations| && db.history.Some? && (v == 15 || v == 16) && v !in db.history.value
    ensures var o := UpFrom(db, migrations, i, applied, allow, effect, stop);
            && o.db.hasMessages == db.hasMessages
            && (db.hasMessages && !allow ==> o.db.history.Some? && v !in o.db.history.value)
            && (o.error == Some(MaintenanceRequired) ==>
                  db.hasMessages && !allow && exists k :: i <= k < |migrations| && (migrations[k].version == 15 || migrations[k].version == 16)
                                                          && migrations[k].version !in applied)
    decreases |migrations| - i
  {
    hide Apply;
    UpFromOnce(db, migrations, i, applied, allow, effect, stop);
    if i < |migrations| {
      ApplyKeepsMessages(db, migrations[i], effect, stop);
      ApplyRecordsOrKeeps(db, migrations[i], effect, stop);
      var o := Apply(db, migrations[i], effect, stop);
      if migrations[i].version in applied {
        UpFromRespectsMaintenance(db, migrations, i + 1, applied, allow, effect, stop, v);
      } else if !(NeedsMaintenance(migrations[i]) && !allow && db.hasMessages) && o.error.None? {
        if db.hasMessages && !allow {
          UpFromRespectsMaintenance(o.db, migrations, i + 1, applied, allow, effect, o.left, v);
        } else {
          OnlyThenRefused(o.db, migrations, i + 1, applied, allow, effect, o.left);
        }
      }
    }
  }

  lemma ApplyKeepsMessages(db: Database, m: Migration, effect: Effect, stop: nat)
    requires db.history.Some?
    ensures var o := Apply(db, m, effect, stop); o.db.hasMessages == db.hasMessages && o.error != Some(MaintenanceRequired)
  {
    hide SqlSplitter.Split, RunStatements;
    if !m.transactional {
      match SqlSplitter.Split(m.sql)
      case Err(_) =>
      case Ok(statements) => RunStatementsKeepsHistory(db, m.version, statements, 0, effect, stop);
    }
  }

  lemma {:induction false} OnlyThenRefused(db: Database, migrations: seq<Migration>, i: nat, applied: History, allow: bool,
                                           effect: Effect, stop: nat)
    requires i <= |migrations| && db.history.Some? && (allow || !db.hasMessages)
    ensures var o := UpFrom(db, migrations, i, applied, allow, effect, stop);
            o.db.hasMessages == db.hasMessages && o.error != Some(MaintenanceRequired)
    decreases |migrations| - i
  {
    hide Apply;
    UpFromOnce(db, migrations, i, applied, allow, effect, stop);
    if i < |migrations| {
      ApplyKeepsMessages(db, migrations[i], effect, stop);
      var o := Apply(db, migrations[i], effect, stop);
      if migrations[i].version in applied {
        OnlyThenRefused(db, migrations, i + 1, applied, allow, effect, stop);
      } else if o.error.None? {
        OnlyThenRefused(o.db, migrations, i + 1, applied, allow, effect, o.left);
      }
    }
  }

  /** While there are messages and nobody allowed it, `up` records neither migration 15 nor 16; otherwise it never asks. */
  lemma UpRespectsMaintenance(db: Database, migrations: seq<Migration>, allow: bool, effect: Effect, stop: nat, v: int)
    requires (v == 15 || v == 16) && (db.history.Some? ==> v !in db.history.value)
    ensures var o := Up(db, migrations, allow, effect, stop);
            && (db.hasMessages && !allow && o.db.history.Some? ==> v !in o.db.history.value)
            && (o.error == Some(MaintenanceRequired) ==> db.hasMessages && !allow)
  {
    hide UpFrom;
    var start := db.history.None? && !db.tables && stop > 0;
    var db1 := if start then db.(history := Some(map[]), tables := true) else db;
    var left := if start then stop - 1 else stop;
    if db1.history.Some? {
      UpFromRespectsMaintenance(db1, migrations, 0, db1.history.value, allow, effect, left, v);
    }
  }

  /** A successful `up` leaves a database that the application's start-up gate accepts. */
  lemma SuccessfulUpIsReady(db: Database, migrations: seq<Migration>, allow: bool, effect: Effect, stop: nat)
    requires Up(db, migrations, allow, effect, stop).error.None?
    ensures var o := Up(db, migrations, allow, effect, stop); o.db.history.Some? && Ready(migrations, o.db.history.value)
  {
    hide UpFrom;
    var db1 := if db.history.None? then db.(history := Some(map[]), tables := true) else db;
    var left := if db.history.None? then stop - 1 else stop;
    UpFromExtends(db1, migrations, 0, db1.history.value, allow, effect, left);
  }

  // ---------------------------------------------------------------- many runs

  /** Each binary carries the first `length` migrations of the common chain. */
  datatype Op =
    | UpOp(length: nat, allow: bool, stop: nat)
    | BaselineOp(length: nat, target: int, stop: nat)
    | Outside(tables: bool, objects: Objects, hasMessages: bool, fingerprint: int)

  predicate ValidOp(full: seq<Migration>, op: Op) {
    op.Outside? || 1 <= op.length <= |full|
  }

  function Perform(db: Database, full: seq<Migration>, effect: Effect, op: Op): Database
    requires ValidOp(full, op)
  {
    match op
    case UpOp(n, allow, stop) => Up(db, full[..n], allow, effect, stop).db
    case BaselineOp(n, target, stop) => Baseline(db, full[..n], target, stop).db
    case Outside(tables, objects, hasMessages, fingerprint) =>
      db.(tables := tables, objects := objects, hasMessages := hasMessages, fingerprint := fingerprint)
  }

  function PerformAll(db: Database, full: seq<Migration>, effect: Effect, ops: seq<Op>): Database
    requires forall i :: 0 <= i < |ops| ==> ValidOp(full, ops[i])
    decreases |ops|
  {
    if ops == [] then db
    else Perform(PerformAll(db, full, effect, ops[..|ops| - 1]), full, effect, ops[|ops| - 1])
  }

  /** The history is a prefix of the chain, and after its first `t` entries every body has run once, in order. */
  ghost predicate Consistent(full: seq<Migration>, db: Database, t: nat) {
    match db.history
    case None => db.bodies == [] && t == 0
    case Some(h) => PrefixHistory(full, h) && t <= |h| && db.bodies == Bodies(full, t, |h|)
  }

  lemma PrefixOfPrefix(full: seq<Migration>, n: nat, h: History)
    requires n <= |full|
    ensures PrefixHistory(full[..n], h) <==> PrefixHistory(full, h) && |h| <= n
  {
  }

  lemma UpKeepsConsistent(db: Database, full: seq<Migration>, effect: Effect, n: nat, allow: bool, stop: nat, t: nat)
    requires IsChain(full) && Consistent(full, db, t) && 1 <= n <= |full|
    ensures Consistent(full, Up(db, full[..n], allow, effect, stop).db, t)
  {
    hide Up, PrefixHistory;
    var chain := full[..n];
    assert IsChain(chain);
    UpKeepsPrefix(db, chain, allow, effect, stop);
    var o := Up(db, chain, allow, effect, stop);
    if db.history.None? {
      EmptyHistory(chain);
    }
    if o.error != Some(BadHistory) && o.db.history.Some? {
      var before := if db.history.Some? then db.history.value else map[];
      var after := o.db.history.value;
      PrefixOfPrefix(full, n, after);
      BodiesOfPrefix(full, n, |before|, |after|);
      BodiesConcat(full, t, |before|, |after|);
    }
  }

  lemma EmptyHistory(migrations: seq<Migration>)
    ensures PrefixHistory(migrations, map[])
  {
  }

  /** Operation `k` is a baseline that records a history. */
  predicate TakesEffect(db: Database, full: seq<Migration>, effect: Effect, ops: seq<Op>, k: nat)
    requires k < |ops| && forall i :: 0 <= i < |ops| ==> ValidOp(full, ops[i])
  {
    assert ValidOp(full, ops[k]);
    ops[k].BaselineOp?
    && Baseline(PerformAll(db, full, effect, ops[..k]), full[..ops[k].length], ops[k].target, ops[k].stop).error.None?
  }

  lemma TakesEffectInFront(db: Database, full: seq<Migration>, effect: Effect, ops: seq<Op>, k: nat)
    requires k < |ops| - 1 && forall i :: 0 <= i < |ops| ==> ValidOp(full, ops[i])
    ensures TakesEffect(db, full, effect, ops[..|ops| - 1], k) <==> TakesEffect(db, full, effect, ops, k)
  {
    assert ops[..|ops| - 1][..k] == ops[..k];
  }

  lemma PerformKeepsHistory(db: Database, full: seq<Migration>, effect: Effect, op: Op)
    requires IsChain(full) && ValidOp(full, op) && db.history.Some?
    ensures Perform(db, full, effect, op).history.Some?
  {
    hide Up;
    if op.UpOp? {
      assert IsChain(full[..op.length]);
      UpKeepsPrefix(db, full[..op.length], op.allow, effect, op.stop);
    }
  }

  /** Once a baseline has recorded a history there is always one, so no later baseline takes effect. */
  lemma {:induction false} BaselineStays(db: Database, full: seq<Migration>, effect: Effect, ops: seq<Op>, k: nat)
    requires IsChain(full) && k < |ops| && forall i :: 0 <= i < |ops| ==> ValidOp(full, ops[i])
    requires TakesEffect(db, full, effect, ops, k)
    ensures PerformAll(db, full, effect, ops).history.Some?
    decreases |ops|
  {
    hide Perform;
    var front, last := ops[..|ops| - 1], ops[|ops| - 1];
    if k < |front| {
      TakesEffectInFront(db, full, effect, ops, k);
      BaselineStays(db, full, effect, front, k);
      PerformKeepsHistory(PerformAll(db, full, effect, front), full, effect, last);
    } else {
      BaselineRecords(PerformAll(db, full, effect, front), full, effect, last);
    }
  }

  lemma BaselineRecords(db: Database, full: seq<Migration>, effect: Effect, op: Op)
    requires op.BaselineOp? && ValidOp(full, op) && Baseline(db, full[..op.length], op.target, op.stop).error.None?
    ensures db.history.None? && Perform(db, full, effect, op).history.Some?
  {
  }

  /**
   * Starting from an empty database, any sequence of runs, stopped anywhere, keeps the history an exact prefix of
   * the common chain. At most one baseline takes effect; after its target, or after the start if none does, each
   * transactional body has run exactly once, in order.
   */
  lemma {:induction false} HistoryStaysAPrefix(db: Database, full: seq<Migration>, effect: Effect, ops: seq<Op>, t: nat)
    returns (t': nat)
    requires IsChain(full) && Consistent(full, db, t)
    requires forall i :: 0 <= i < |ops| ==> ValidOp(full, ops[i])
    ensures Consistent(full, PerformAll(db, full, effect, ops), t')
    ensures forall k :: 0 <= k < |ops| && TakesEffect(db, full, effect, ops, k) ==> t' == ops[k].target
    ensures (forall k :: 0 <= k < |ops| ==> !TakesEffect(db, full, effect, ops, k)) ==> t' == t
    ensures forall j, k :: 0 <= j < k < |ops| && TakesEffect(db, full, effect, ops, j) ==> !TakesEffect(db, full, effect, ops, k)
    decreases |ops|
  {
    hide Up, Baseline, Consistent, TakesEffect;
    t' := t;
    if ops != [] {
      var n := |ops| - 1;
      var front, last := ops[..n], ops[n];
      var start := HistoryStaysAPrefix(db, full, effect, front, t);
      t' := start;
      var before := PerformAll(db, full, effect, front);
      LastTakesEffect(db, full, effect, ops);
      match last {
        case UpOp(length, allow, stop) => UpKeepsConsistent(before, full, effect, length, allow, stop, t');
        case BaselineOp(length, target, stop) => t' := BaselineKeepsConsistent(before, full, length, target, stop, start);
        case Outside(_, _, _, _) => OutsideKeepsConsistent(before, Perform(before, full, effect, last), full, t');
      }
      forall k | 0 <= k < n
        ensures TakesEffect(db, full, effect, front, k) <==> TakesEffect(db, full, effect, ops, k)
        ensures TakesEffect(db, full, effect, ops, k) ==> !TakesEffect(db, full, effect, ops, n)
      {
        TakesEffectInFront(db, full, effect, ops, k);
        if TakesEffect(db, full, effect, front, k) {
          BaselineStays(db, full, effect, front, k);
        }
      }
    }
  }

  lemma LastTakesEffect(db: Database, full: seq<Migration>, effect: Effect, ops: seq<Op>)
    requires ops != [] && forall i :: 0 <= i < |ops| ==> ValidOp(full, ops[i])
    ensures var n := |ops| - 1;
            var before, last := PerformAll(db, full, effect, ops[..n]), ops[n];
            && (TakesEffect(db, full, effect, ops, n) <==>
                  last.BaselineOp? && Baseline(before, full[..last.length], last.target, last.stop).error.None?)
            && (TakesEffect(db, full, effect, ops, n) ==> before.history.None?)
  {
    hide PerformAll;
  }

  lemma OutsideKeepsConsistent(db: Database, db': Database, full: seq<Migration>, t: nat)
    requires Consistent(full, db, t) && db'.history == db.history && db'.bodies == db.bodies
    ensures Consistent(full, db', t)
  {
  }

  lemma BaselineKeepsConsistent(db: Database, full: seq<Migration>, n: nat, target: int, stop: nat, t: nat) returns (t': nat)
    requires IsChain(full) && Consistent(full, db, t) && 1 <= n <= |full|
    ensures Consistent(full, Baseline(db, full[..n], target, stop).db, t')
    ensures t' == if Baseline(db, full[..n], target, stop).error.None? then target else t
  {
    hide HistoryOf, PrefixHistory;
    var o := Baseline(db, full[..n], target, stop);
    if o.error.Some? {
      t' := t;
    } else {
      HistoryOfIsPrefix(full[..n], target);
      PrefixOfPrefix(full, n, o.db.history.value);
      t' := target;
    }
  }
}
