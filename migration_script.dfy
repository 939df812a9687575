/** The stand-alone migration runner of scripts/run-migrations.ts. It reads
    the exported migration list and, in list order, applies each migration
    whose `file` name is not yet recorded in `_drizzle_migrations`: inside one
    transaction it runs the migration's SQL and records the name, committing
    both or rolling both back. The first failure ends the run (the process
    exits with status 1); what was committed before stays. */
module MigrationScript {
  import opened JsValues

  datatype Migration = Migration(file: string, sql: string)

  /** What the run finds in `export.json`. */
  datatype ExportFile =
    | NoExportFile
    | MalformedJson
    | NotAnArray
    | MigrationList(migrations: seq<Migration>)

  datatype RunOutcome = NothingToApply | AllApplied | ExitedWithError

  /** What running a list from a recorded-name state does: the migrations
      applied, in order, and the one that failed, if any. */
  datatype Trace = Trace(applied: seq<Migration>, failed: Option<Migration>)

  function Names(ms: seq<Migration>): seq<string> {
    if ms == [] then [] else [ms[0].file] + Names(ms[1..])
  }

  function Scripts(ms: seq<Migration>): seq<string> {
    if ms == [] then [] else [ms[0].sql] + Scripts(ms[1..])
  }

  /** Whether the transaction of `m` throws: its SQL fails, or recording its
      name fails. The database's answers are inputs of the model. */
  predicate TransactionFails(m: Migration, sqlFails: string -> bool, recordFails: string -> bool) {
    sqlFails(m.sql) || recordFails(m.file)
  }

  /** The loop of the script as a function of the recorded names. */
  function Run(recorded: seq<string>, ms: seq<Migration>, sqlFails: string -> bool, recordFails: string -> bool): (t: Trace)
    ensures |t.applied| <= |ms|
    ensures t.failed.Some? ==> t.failed.value.file !in recorded
    decreases |ms|
  {
    if ms == [] then Trace([], None)
    else if ms[0].file in recorded then Run(recorded, ms[1..], sqlFails, recordFails)
    else if TransactionFails(ms[0], sqlFails, recordFails) then Trace([], Some(ms[0]))
    else
      var rest := Run(recorded + [ms[0].file], ms[1..], sqlFails, recordFails);
      Trace([ms[0]] + rest.applied, rest.failed)
  }

  /** The database as the script sees it: the names in `_drizzle_migrations`
      in insertion order and the SQL committed, in order. */
  class SqliteDatabase {
    var hasMigrationsTable: bool
    var recorded: seq<string>
    var committed: seq<string>

    constructor (recorded0: seq<string>, committed0: seq<string>)
      ensures recorded == recorded0 && committed == committed0 && !hasMigrationsTable
    {
      hasMigrationsTable, recorded, committed := false, recorded0, committed0;
    }

    /** One migration inside BEGIN ... COMMIT / ROLLBACK: on success both the
        SQL and the record are kept, on failure neither. */
    method ApplyInTransaction(m: Migration, sqlFails: string -> bool, recordFails: string -> bool) returns (ok: bool)
      modifies this
      ensures ok == !TransactionFails(m, sqlFails, recordFails)
      ensures hasMigrationsTable == old(hasMigrationsTable)
      ensures ok ==> recorded == old(recorded) + [m.file] && committed == old(committed) + [m.sql]
      ensures !ok ==> recorded == old(recorded) && committed == old(committed)
    {
      var savedRecorded, savedCommitted := recorded, committed;  // BEGIN TRANSACTION
      ok := !sqlFails(m.sql);
      if ok {
        committed := committed + [m.sql];
        ok := !recordFails(m.file);
        if ok {
          recorded := recorded + [m.file];  // COMMIT
        }
      }
      if !ok {
        recorded, committed := savedRecorded, savedCommitted;  // ROLLBACK
      }
    }

    /** `runMigrations`: the new recorded names and committed SQL are those of
        the migrations `Run` applies, together and in list order. */
    method RunMigrations(exportFile: ExportFile, sqlFails: string -> bool, recordFails: string -> bool) returns (outcome: RunOutcome)
      modifies this
      ensures hasMigrationsTable
      ensures !exportFile.MigrationList? || exportFile.migrations == [] ==>
        recorded == old(recorded) && committed == old(committed)
      ensures exportFile.NoExportFile? || exportFile.NotAnArray? || exportFile == MigrationList([]) ==> outcome == NothingToApply
      ensures exportFile.MalformedJson? ==> outcome == ExitedWithError
      ensures exportFile.MigrationList? && exportFile.migrations != [] ==>
        var t := Run(old(recorded), exportFile.migrations, sqlFails, recordFails);
        && recorded == old(recorded) + Names(t.applied)
        && committed == old(committed) + Scripts(t.applied)
        && outcome == (if t.failed.Some? then ExitedWithError else AllApplied)
    {
      hasMigrationsTable := true;  // CREATE TABLE IF NOT EXISTS _drizzle_migrations
      match exportFile {
        case NoExportFile => return NothingToApply;
        case MalformedJson => return ExitedWithError;
        case NotAnArray => return NothingToApply;
        case MigrationList(ms) =>
          if ms == [] {
            return NothingToApply;
          }
          var failed := ApplyAll(ms, sqlFails, recordFails);
          return if failed then ExitedWithError else AllApplied;
      }
    }

    /** The loop over a non-empty list: each migration not yet recorded runs
        in its own transaction, and the first failure ends the loop. */
    method ApplyAll(ms: seq<Migration>, sqlFails: string -> bool, recordFails: string -> bool) returns (failed: bool)
      requires hasMigrationsTable
      modifies this
      ensures hasMigrationsTable
      ensures var t := Run(old(recorded), ms, sqlFails, recordFails);
        && recorded == old(recorded) + Names(t.applied)
        && committed == old(committed) + Scripts(t.applied)
        && failed == t.failed.Some?
    {
      ghost var applied: seq<Migration> := [];
      var i := 0;
      while i < |ms|
        invariant 0 <= i <= |ms| && hasMigrationsTable
        invariant recorded == old(recorded) + Names(applied)
        invariant committed == old(committed) + Scripts(applied)
        invariant Run(old(recorded), ms, sqlFails, recordFails)
               == Prepend(applied, Run(recorded, ms[i..], sqlFails, recordFails))
      {
        var m := ms[i];
        assert ms[i..][1..] == ms[i + 1..];
        RunStep(recorded, ms[i..], sqlFails, recordFails);
        if m.file in recorded {
          i := i + 1;
          continue;
        }
        ghost var rest := Run(recorded + [m.file], ms[i + 1..], sqlFails, recordFails);
        var ok := ApplyInTransaction(m, sqlFails, recordFails);
        if !ok {
          assert applied + [] == applied;
          return true;
        }
        PrependTwice(applied, m, rest);
        NamesAppend(applied, m);
        ScriptsAppend(applied, m);
        applied := applied + [m];
        i := i + 1;
      }
      assert ms[i..] == [];
      assert applied + [] == applied;
      return false;
    }
  }

  function Prepend(done: seq<Migration>, t: Trace): Trace {
    Trace(done + t.applied, t.failed)
  }

  lemma PrependTwice(done: seq<Migration>, m: Migration, t: Trace)
    ensures Prepend(done, Prepend([m], t)) == Prepend(done + [m], t)
  {
    assert done + ([m] + t.applied) == (done + [m]) + t.applied;
  }

  /** One step of `Run` on a non-empty list. */
  lemma RunStep(recorded: seq<string>, ms: seq<Migration>, sqlFails: string -> bool, recordFails: string -> bool)
    requires ms != []
    ensures Run(recorded, ms, sqlFails, recordFails) ==
      if ms[0].file in recorded then Run(recorded, ms[1..], sqlFails, recordFails)
      else if TransactionFails(ms[0], sqlFails, recordFails) then Trace([], Some(ms[0]))
      else Prepend([ms[0]], Run(recorded + [ms[0].file], ms[1..], sqlFails, recordFails))
  {
  }

  lemma {:induction false} NamesAppend(ms: seq<Migration>, m: Migration)
    ensures Names(ms + [m]) == Names(ms) + [m.file]
  {
    if ms != [] {
      assert (ms + [m])[1..] == ms[1..] + [m];
      NamesAppend(ms[1..], m);
    }
  }

  lemma {:induction false} ScriptsAppend(ms: seq<Migration>, m: Migration)
    ensures Scripts(ms + [m]) == Scripts(ms) + [m.sql]
  {
    if ms != [] {
      assert (ms + [m])[1..] == ms[1..] + [m];
      ScriptsAppend(ms[1..], m);
    }
  }

  /** Only migrations of the list whose names were not recorded are applied,
      and only those whose transaction succeeds. */
  lemma {:induction false} RunAppliesOnlyNew(recorded: seq<string>, ms: seq<Migration>, sqlFails: string -> bool, recordFails: string -> bool)
    ensures forall m | m in Run(recorded, ms, sqlFails, recordFails).applied ::
      m in ms && m.file !in recorded && !TransactionFails(m, sqlFails, recordFails)
    decreases |ms|
  {
    if ms != [] {
      var rec' := if ms[0].file in recorded then recorded else recorded + [ms[0].file];
      RunAppliesOnlyNew(rec', ms[1..], sqlFails, recordFails);
      if ms[0].file !in recorded && !TransactionFails(ms[0], sqlFails, recordFails) {
        assert Run(recorded, ms, sqlFails, recordFails).applied == [ms[0]] + Run(rec', ms[1..], sqlFails, recordFails).applied;
      }
    }
  }

  predicate DistinctNames(ms: seq<Migration>) {
    forall i, j | 0 <= i < j < |ms| :: ms[i].file != ms[j].file
  }

  /** No name is applied twice in one run. */
  lemma {:induction false} RunAppliesEachNameOnce(recorded: seq<string>, ms: seq<Migration>, sqlFails: string -> bool, recordFails: string -> bool)
    ensures DistinctNames(Run(recorded, ms, sqlFails, recordFails).applied)
    decreases |ms|
  {
    if ms != [] {
      var rec' := if ms[0].file in recorded then recorded else recorded + [ms[0].file];
      RunAppliesEachNameOnce(rec', ms[1..], sqlFails, recordFails);
      if ms[0].file !in recorded && !TransactionFails(ms[0], sqlFails, recordFails) {
        var t := Run(recorded, ms, sqlFails, recordFails);
        var rest := Run(rec', ms[1..], sqlFails, recordFails);
        RunAppliesOnlyNew(rec', ms[1..], sqlFails, recordFails);
        assert t.applied == [ms[0]] + rest.applied;
        forall i, j | 0 <= i < j < |t.applied| ensures t.applied[i].file != t.applied[j].file {
          if i == 0 {
            assert t.applied[j] == rest.applied[j - 1];
            assert t.applied[j] in rest.applied;
            assert t.applied[j].file !in rec';
            assert t.applied[0].file in rec';
          } else {
            assert t.applied[i] == rest.applied[i - 1] && t.applied[j] == rest.applied[j - 1];
          }
        }
      }
    }
  }

  /** A run that does not fail leaves every migration of the list recorded. */
  lemma {:induction false} CompletedRunRecordsAll(recorded: seq<string>, ms: seq<Migration>, sqlFails: string -> bool, recordFails: string -> bool)
    requires Run(recorded, ms, sqlFails, recordFails).failed.None?
    ensures forall m | m in ms :: m.file in recorded + Names(Run(recorded, ms, sqlFails, recordFails).applied)
    decreases |ms|
  {
    if ms != [] {
      var t := Run(recorded, ms, sqlFails, recordFails);
      if ms[0].file in recorded {
        CompletedRunRecordsAll(recorded, ms[1..], sqlFails, recordFails);
      } else {
        var rest := Run(recorded + [ms[0].file], ms[1..], sqlFails, recordFails);
        CompletedRunRecordsAll(recorded + [ms[0].file], ms[1..], sqlFails, recordFails);
        assert t.applied == [ms[0]] + rest.applied;
        assert recorded + Names(t.applied) == recorded + [ms[0].file] + Names(rest.applied);
      }
    }
  }

  /** When every name of the list is already recorded, a run applies nothing. */
  lemma {:induction false} AllRecordedAppliesNothing(recorded: seq<string>, ms: seq<Migration>, sqlFails: string -> bool, recordFails: string -> bool)
    requires forall m | m in ms :: m.file in recorded
    ensures Run(recorded, ms, sqlFails, recordFails) == Trace([], None)
    decreases |ms|
  {
    if ms != [] {
      assert ms[0] in ms;
      AllRecordedAppliesNothing(recorded, ms[1..], sqlFails, recordFails);
    }
  }

  /** Running the same list again after a run that did not fail applies
      nothing and does not fail, whatever the database would now answer. */
  lemma RerunAppliesNothing(recorded: seq<string>, ms: seq<Migration>,
                            sqlFails: string -> bool, recordFails: string -> bool,
                            sqlFails2: string -> bool, recordFails2: string -> bool)
    requires Run(recorded, ms, sqlFails, recordFails).failed.None?
    ensures Run(recorded + Names(Run(recorded, ms, sqlFails, recordFails).applied), ms, sqlFails2, recordFails2) == Trace([], None)
  {
    CompletedRunRecordsAll(recorded, ms, sqlFails, recordFails);
    AllRecordedAppliesNothing(recorded + Names(Run(recorded, ms, sqlFails, recordFails).applied), ms, sqlFails2, recordFails2);
  }

  /** The position in the list of the migration a run stops at (the length
      of the list when none fails). */
  function FailurePosition(recorded: seq<string>, ms: seq<Migration>, sqlFails: string -> bool, recordFails: string -> bool): nat
    decreases |ms|
  {
    if ms == [] then 0
    else if ms[0].file in recorded then 1 + FailurePosition(recorded, ms[1..], sqlFails, recordFails)
    else if TransactionFails(ms[0], sqlFails, recordFails) then 0
    else 1 + FailurePosition(recorded + [ms[0].file], ms[1..], sqlFails, recordFails)
  }

  /** The migration a failing run reports sits at `FailurePosition`; its
      transaction fails and its name is not recorded, before or after. */
  lemma {:induction false} FailedMigrationLocated(recorded: seq<string>, ms: seq<Migration>, sqlFails: string -> bool, recordFails: string -> bool)
    requires Run(recorded, ms, sqlFails, recordFails).failed.Some?
    ensures var t := Run(recorded, ms, sqlFails, recordFails);
      var k := FailurePosition(recorded, ms, sqlFails, recordFails);
      && k < |ms|
      && ms[k] == t.failed.value
      && TransactionFails(ms[k], sqlFails, recordFails)
      && ms[k].file !in recorded + Names(t.applied)
    decreases |ms|
  {
    var t := Run(recorded, ms, sqlFails, recordFails);
    if ms[0].file in recorded {
      FailedMigrationLocated(recorded, ms[1..], sqlFails, recordFails);
    } else if !TransactionFails(ms[0], sqlFails, recordFails) {
      var rec' := recorded + [ms[0].file];
      var rest := Run(rec', ms[1..], sqlFails, recordFails);
      FailedMigrationLocated(rec', ms[1..], sqlFails, recordFails);
      assert t.applied == [ms[0]] + rest.applied;
      assert rec' + Names(rest.applied) == recorded + Names(t.applied);
    }
  }

  /** What a failing run applied is exactly what running the list before the
      failing migration applies, without failure. */
  lemma {:induction false} FailedRunAppliedPrefix(recorded: seq<string>, ms: seq<Migration>, sqlFails: string -> bool, recordFails: string -> bool)
    requires Run(recorded, ms, sqlFails, recordFails).failed.Some?
    ensures FailurePosition(recorded, ms, sqlFails, recordFails) <= |ms|
    ensures var k := FailurePosition(recorded, ms, sqlFails, recordFails);
      Run(recorded, ms[..k], sqlFails, recordFails) == Trace(Run(recorded, ms, sqlFails, recordFails).applied, None)
    decreases |ms|
  {
    var k := FailurePosition(recorded, ms, sqlFails, recordFails);
    if ms[0].file in recorded {
      FailedRunAppliedPrefix(recorded, ms[1..], sqlFails, recordFails);
      assert ms[..k][1..] == ms[1..][..k - 1];
    } else if TransactionFails(ms[0], sqlFails, recordFails) {
      assert ms[..k] == [];
    } else {
      FailedRunAppliedPrefix(recorded + [ms[0].file], ms[1..], sqlFails, recordFails);
      assert ms[..k][1..] == ms[1..][..k - 1];
      assert ms[..k][0] == ms[0];
    }
  }

  /** A failing run stops at the first migration whose transaction fails: it
      sits at some position k of the list, is not recorded, and what was
      applied is exactly what running the list before k applies; nothing after
      it is attempted. */
  lemma FailureStopsTheRun(recorded: seq<string>, ms: seq<Migration>, sqlFails: string -> bool, recordFails: string -> bool)
    requires Run(recorded, ms, sqlFails, recordFails).failed.Some?
    ensures var t := Run(recorded, ms, sqlFails, recordFails);
      exists k | 0 <= k < |ms| ::
        && ms[k] == t.failed.value
        && TransactionFails(ms[k], sqlFails, recordFails)
        && ms[k].file !in recorded + Names(t.applied)
        && Run(recorded, ms[..k], sqlFails, recordFails) == Trace(t.applied, None)
  {
    FailedMigrationLocated(recorded, ms, sqlFails, recordFails);
    FailedRunAppliedPrefix(recorded, ms, sqlFails, recordFails);
  }
}
