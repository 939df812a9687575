/** The application-side migration runner, `runMigrations` of
    lib/db/migrations/index.ts. It loads the exported migration list, walks it
    in order and, per entry, executes its SQL, calls `seedProducts`, warns
    about an unknown JS function or skips an entry of unknown shape. The first
    error aborts the walk and is rethrown. Nothing records which migrations
    ran, so every call walks the whole list again. */
module MigrationIndex {
  import opened JsValues
  import opened Catalog
  import opened SeedProducts

  /** What the loop body does with one entry. */
  datatype Step =
    | Unreadable              // `migration.name` throws on null or undefined
    | ExecuteSql(sql: JsValue)
    | CallSeedProducts
    | UnknownFunction         // only a warning
    | UnknownFormat           // only a warning

  function Classify(m: JsValue): (step: Step)
    ensures step == Unreadable <==> IsNullish(m)
    ensures step.ExecuteSql? ==> Truthy(step.sql)
    ensures step == CallSeedProducts ==> Field(m, "function") == JsString("seedProducts")
  {
    if IsNullish(m) then Unreadable
    else if Truthy(Field(m, "sql")) then ExecuteSql(Field(m, "sql"))
    else if Field(m, "type") == JsString("js") && Truthy(Field(m, "function")) then
      if Field(m, "function") == JsString("seedProducts") then CallSeedProducts else UnknownFunction
    else UnknownFormat
  }

  /** A truthy `sql` wins over a JS description: such an entry runs its SQL
      even when it also says `type: 'js'` and names `seedProducts`. */
  lemma SqlTakesPrecedence(m: JsValue)
    requires !IsNullish(m) && Truthy(Field(m, "sql"))
    ensures Classify(m) == ExecuteSql(Field(m, "sql"))
  {
  }

  /** `seedProducts` runs for exactly the entries without truthy `sql` whose
      `type` is the text "js" and whose `function` is the text "seedProducts". */
  lemma SeedCalledOnlyByName(m: JsValue)
    ensures Classify(m) == CallSeedProducts <==>
      && !IsNullish(m) && !Truthy(Field(m, "sql"))
      && Field(m, "type") == JsString("js") && Field(m, "function") == JsString("seedProducts")
  {
  }

  datatype MigrationError =
    | ImportFailed                  // the dynamic import of the list throws
    | InvalidFormat                 // "Invalid migrations format: not an array"
    | EntryUnreadable(index: nat)
    | SqlFailed(index: nat)
    | SeedFailed(index: nat, cause: SeedError)

  datatype Outcome = Completed | Failed(error: MigrationError)

  /** Where the walk stopped: the failing entry, or the end of the list. */
  function StopIndex(o: Outcome, ms: seq<JsValue>): nat {
    match o
    case Completed => |ms|
    case Failed(e) => if e.ImportFailed? || e.InvalidFormat? then 0 else e.index
  }

  /** `migrationsModule.default || []`, when it is an array. */
  function MigrationList(exported: JsValue): Option<seq<JsValue>> {
    var migrations := Or(exported, JsArray([]));
    if migrations.JsArray? then Some(migrations.elems) else None
  }

  /** The SQL texts of the SQL entries of `ms`, in order. */
  function SqlOf(ms: seq<JsValue>): seq<JsValue> {
    if ms == [] then []
    else (match Classify(ms[0]) case ExecuteSql(q) => [q] case _ => []) + SqlOf(ms[1..])
  }

  lemma {:induction false} SqlOfAppend(ms: seq<JsValue>, ns: seq<JsValue>)
    ensures SqlOf(ms + ns) == SqlOf(ms) + SqlOf(ns)
    decreases |ms|
  {
    if ms != [] {
      assert (ms + ns)[0] == ms[0];
      assert (ms + ns)[1..] == ms[1..] + ns;
      SqlOfAppend(ms[1..], ns);
    } else {
      assert ms + ns == ns;
    }
  }

  /** The loop, from entry `from` on: the state it leaves and how it ends.
      `sqlFails` says which SQL texts the database rejects; a rejected
      statement changes nothing. */
  function RunFrom(s: DbState, ms: seq<JsValue>, from: nat, env: SeedEnv, catalog: seq<Product>,
                   driver: Driver, sqlFails: JsValue -> bool): (r: (DbState, Outcome))
    ensures s.executed <= r.0.executed && s.products <= r.0.products
    ensures r.1.Failed? ==> !r.1.error.ImportFailed? && !r.1.error.InvalidFormat? && from <= r.1.error.index < |ms|
    decreases |ms| - from
  {
    if from >= |ms| then (s, Completed)
    else
      match Classify(ms[from])
      case Unreadable => (s, Failed(EntryUnreadable(from)))
      case ExecuteSql(q) =>
        if sqlFails(q) then (s, Failed(SqlFailed(from)))
        else RunFrom(s.(executed := s.executed + [q]), ms, from + 1, env, catalog, driver, sqlFails)
      case CallSeedProducts =>
        var (seeded, r) := Seed(s, env, catalog, driver);
        if r.Err? then (seeded, Failed(SeedFailed(from, r.error)))
        else RunFrom(seeded, ms, from + 1, env, catalog, driver, sqlFails)
      case UnknownFunction => RunFrom(s, ms, from + 1, env, catalog, driver, sqlFails)
      case UnknownFormat => RunFrom(s, ms, from + 1, env, catalog, driver, sqlFails)
  }

  /** `runMigrations` as a function of the database state. `exported` is the
      imported list, None when the import throws. */
  function RunAll(s: DbState, exported: Option<JsValue>, env: SeedEnv, catalog: seq<Product>,
                  driver: Driver, sqlFails: JsValue -> bool): (r: (DbState, Outcome))
    ensures s.executed <= r.0.executed && s.products <= r.0.products
    ensures r.1 == Failed(ImportFailed) || r.1 == Failed(InvalidFormat) ==> r.0 == s
  {
    if exported.None? then (s, Failed(ImportFailed))
    else
      match MigrationList(exported.value)
      case None => (s, Failed(InvalidFormat))
      case Some(ms) => RunFrom(s, ms, 0, env, catalog, driver, sqlFails)
  }

  /** Whether the walk goes on past entry `m` in state `s`. */
  predicate PassesEntry(s: DbState, m: JsValue, env: SeedEnv, catalog: seq<Product>, driver: Driver,
                        sqlFails: JsValue -> bool)
  {
    match Classify(m)
    case Unreadable => false
    case ExecuteSql(q) => !sqlFails(q)
    case CallSeedProducts => Seed(s, env, catalog, driver).1.Ok?
    case UnknownFunction => true
    case UnknownFormat => true
  }

  /** The state after an entry the walk goes past. */
  function AfterEntry(s: DbState, m: JsValue, env: SeedEnv, catalog: seq<Product>, driver: Driver): DbState {
    match Classify(m)
    case ExecuteSql(q) => s.(executed := s.executed + [q])
    case CallSeedProducts => Seed(s, env, catalog, driver).0
    case _ => s
  }

  /** One entry of the walk: past it the walk goes on from the next entry;
      at an entry it does not pass it stops there with no SQL executed. */
  lemma RunFromStep(s: DbState, ms: seq<JsValue>, from: nat, env: SeedEnv,
                    catalog: seq<Product>, driver: Driver, sqlFails: JsValue -> bool)
    requires from < |ms|
    ensures PassesEntry(s, ms[from], env, catalog, driver, sqlFails) ==>
      RunFrom(s, ms, from, env, catalog, driver, sqlFails)
        == RunFrom(AfterEntry(s, ms[from], env, catalog, driver), ms, from + 1, env, catalog, driver, sqlFails)
    ensures !PassesEntry(s, ms[from], env, catalog, driver, sqlFails) ==>
      && RunFrom(s, ms, from, env, catalog, driver, sqlFails).0.executed == s.executed
      && StopIndex(RunFrom(s, ms, from, env, catalog, driver, sqlFails).1, ms) == from
  {
  }

  /** The walk executes exactly the SQL of the entries before the one where it
      stopped, in order. */
  lemma {:induction false} RunFromExecutesPrefix(s: DbState, ms: seq<JsValue>, from: nat, env: SeedEnv,
                                                catalog: seq<Product>, driver: Driver, sqlFails: JsValue -> bool)
    requires from <= |ms|
    ensures var (s', o) := RunFrom(s, ms, from, env, catalog, driver, sqlFails);
      && from <= StopIndex(o, ms) <= |ms|
      && s'.executed == s.executed + SqlOf(ms[from..StopIndex(o, ms)])
    decreases |ms| - from
  {
    if from == |ms| {
      assert ms[from..|ms|] == [];
    } else if !PassesEntry(s, ms[from], env, catalog, driver, sqlFails) {
      RunFromStep(s, ms, from, env, catalog, driver, sqlFails);
      assert ms[from..from] == [];
    } else {
      var next := AfterEntry(s, ms[from], env, catalog, driver);
      RunFromStep(s, ms, from, env, catalog, driver, sqlFails);
      RunFromExecutesPrefix(next, ms, from + 1, env, catalog, driver, sqlFails);
      var stop := StopIndex(RunFrom(next, ms, from + 1, env, catalog, driver, sqlFails).1, ms);
      assert ms[from..stop] == [ms[from]] + ms[from + 1..stop];
      SqlOfAppend([ms[from]], ms[from + 1..stop]);
      assert [ms[from]][1..] == [];
      assert next.executed == s.executed + SqlOf([ms[from]]);
    }
  }

  /** The walk stops early only at an entry that throws: an unreadable entry,
      SQL the database rejects, or a failing `seedProducts`. */
  lemma {:induction false} RunFromStopsAtFailure(s: DbState, ms: seq<JsValue>, from: nat, env: SeedEnv,
                                                catalog: seq<Product>, driver: Driver, sqlFails: JsValue -> bool)
    requires from <= |ms|
    ensures var o := RunFrom(s, ms, from, env, catalog, driver, sqlFails).1;
      o.Failed? ==>
        && !o.error.ImportFailed? && !o.error.InvalidFormat?
        && from <= o.error.index < |ms|
        && (o.error.EntryUnreadable? ==> IsNullish(ms[o.error.index]))
        && (o.error.SqlFailed? ==> Classify(ms[o.error.index]).ExecuteSql? && sqlFails(Classify(ms[o.error.index]).sql))
        && (o.error.SeedFailed? ==> Classify(ms[o.error.index]) == CallSeedProducts)
    decreases |ms| - from
  {
    if from < |ms| && PassesEntry(s, ms[from], env, catalog, driver, sqlFails) {
      var next := AfterEntry(s, ms[from], env, catalog, driver);
      assert RunFrom(s, ms, from, env, catalog, driver, sqlFails) == RunFrom(next, ms, from + 1, env, catalog, driver, sqlFails);
      RunFromStopsAtFailure(next, ms, from + 1, env, catalog, driver, sqlFails);
    }
  }

  /** A list that is neither falsy nor an array is rejected before anything
      runs; a falsy one counts as the empty list. */
  lemma ListFormatChecked(s: DbState, exported: JsValue, env: SeedEnv, catalog: seq<Product>,
                          driver: Driver, sqlFails: JsValue -> bool)
    ensures Truthy(exported) && !exported.JsArray? ==>
      RunAll(s, Some(exported), env, catalog, driver, sqlFails) == (s, Failed(InvalidFormat))
    ensures !Truthy(exported) ==>
      RunAll(s, Some(exported), env, catalog, driver, sqlFails) == (s, Completed)
  {
  }

  /** There is no record of applied migrations: two complete runs in a row
      execute every SQL entry twice. */
  lemma EveryCallRerunsAll(s: DbState, exported: JsValue, env: SeedEnv, catalog: seq<Product>,
                           driver: Driver, sqlFails: JsValue -> bool)
    requires RunAll(s, Some(exported), env, catalog, driver, sqlFails).1 == Completed
    requires var s1 := RunAll(s, Some(exported), env, catalog, driver, sqlFails).0;
      RunAll(s1, Some(exported), env, catalog, driver, sqlFails).1 == Completed
    ensures MigrationList(exported).Some?
    ensures var s1 := RunAll(s, Some(exported), env, catalog, driver, sqlFails).0;
      var s2 := RunAll(s1, Some(exported), env, catalog, driver, sqlFails).0;
      var ms := MigrationList(exported).value;
      s2.executed == s.executed + SqlOf(ms) + SqlOf(ms)
  {
    var ms := MigrationList(exported).value;
    var s1 := RunAll(s, Some(exported), env, catalog, driver, sqlFails).0;
    RunFromExecutesPrefix(s, ms, 0, env, catalog, driver, sqlFails);
    RunFromExecutesPrefix(s1, ms, 0, env, catalog, driver, sqlFails);
    assert ms[0..|ms|] == ms;
  }

  /** `runMigrations(db)`. */
  method RunMigrations(db: PgDatabase, exported: Option<JsValue>, env: SeedEnv, catalog: seq<Product>,
                       driver: Driver, sqlFails: JsValue -> bool) returns (outcome: Outcome)
    modifies db
    ensures (db.State(), outcome) == RunAll(old(db.State()), exported, env, catalog, driver, sqlFails)
  {
    if exported.None? {
      return Failed(ImportFailed);
    }
    var list := MigrationList(exported.value);
    if list.None? {
      return Failed(InvalidFormat);
    }
    var ms := list.value;
    var i := 0;
    while i < |ms|
      invariant 0 <= i <= |ms|
      invariant RunFrom(old(db.State()), ms, 0, env, catalog, driver, sqlFails)
             == RunFrom(db.State(), ms, i, env, catalog, driver, sqlFails)
      decreases |ms| - i
    {
      var m := ms[i];
      match Classify(m) {
        case Unreadable =>
          return Failed(EntryUnreadable(i));
        case ExecuteSql(q) =>
          if sqlFails(q) {
            return Failed(SqlFailed(i));
          }
          db.executed := db.executed + [q];
        case CallSeedProducts =>
          var r := db.SeedProducts(env, catalog, driver);
          if r.Err? {
            return Failed(SeedFailed(i, r.error));
          }
        case UnknownFunction =>
        case UnknownFormat =>
      }
      i := i + 1;
    }
    return Completed;
  }
}
