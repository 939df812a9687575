/** Product seeding of lib/db/migrations/001_seed_products.ts. `seedProducts`
    creates the products table if needed, reads the row count (a missing count
    reads as 0) and, only when the count is 0 and seeding is enabled, inserts
    the catalogue one product at a time, with no transaction around the
    inserts. It returns the count read before seeding. */
module SeedProducts {
  import opened JsValues
  import opened Catalog

  const SeedingEnabledKey := "db_seeding_enabled"

  /** Where the code runs: `inBrowser` when both `window` and `localStorage`
      exist, and then the stored value of `SeedingEnabledKey`, if any. */
  datatype SeedEnv = SeedEnv(inBrowser: bool, storedFlag: Option<string>)

  /** `isSeedingEnabled` */
  predicate IsSeedingEnabled(env: SeedEnv)
    ensures !env.inBrowser ==> IsSeedingEnabled(env)
    ensures env.inBrowser && env.storedFlag.Some? && env.storedFlag.value != "true" ==> !IsSeedingEnabled(env)
  {
    !env.inBrowser || env.storedFlag.None? || env.storedFlag == Some("true")
  }

  /** Seeding is on outside a browser. In a browser it is on exactly when the
      flag is absent or the text "true"; any other stored text turns it off. */
  lemma SeedingFlag(env: SeedEnv)
    ensures !env.inBrowser ==> IsSeedingEnabled(env)
    ensures env.inBrowser && env.storedFlag.None? ==> IsSeedingEnabled(env)
    ensures env.inBrowser && env.storedFlag == Some("true") ==> IsSeedingEnabled(env)
    ensures env.inBrowser && env.storedFlag.Some? && env.storedFlag.value != "true" ==> !IsSeedingEnabled(env)
  {
  }

  /** How the database driver answers, besides the table's contents: whether
      the CREATE TABLE and the COUNT query throw, whether the count result
      carries a `count` (`rows?.[0]?.count`), and which inserts throw. */
  datatype Driver = Driver(createFails: bool, countFails: bool, countReported: bool, insertFails: Product -> bool)

  datatype SeedError = CreateTableFailed | CountFailed | InsertFailed(product: Product)

  datatype Result<+T, +E> = Ok(value: T) | Err(error: E)

  /** The part of the Postgres database the migrations touch: the SQL executed
      by SQL migrations, whether the products table exists, and its rows. */
  datatype DbState = DbState(executed: seq<JsValue>, hasProductsTable: bool, products: seq<Product>)

  /** `parseInt(rows?.[0]?.count || '0', 10)` */
  function ReadCount(s: DbState, driver: Driver): nat {
    if driver.countReported then |s.products| else 0
  }

  /** How many products of the catalogue insert before the first failing one. */
  function InsertablePrefix(catalog: seq<Product>, insertFails: Product -> bool): (n: nat)
    ensures n <= |catalog|
    ensures forall j | 0 <= j < n :: !insertFails(catalog[j])
    ensures n < |catalog| ==> insertFails(catalog[n])
    decreases |catalog|
  {
    if catalog == [] || insertFails(catalog[0]) then 0
    else 1 + InsertablePrefix(catalog[1..], insertFails)
  }

  /** `seedProducts` as a function of the database state: the new state and
      the returned count, or the error it rethrows. */
  function Seed(s: DbState, env: SeedEnv, catalog: seq<Product>, driver: Driver): (r: (DbState, Result<nat, SeedError>))
    ensures r.0.executed == s.executed && s.products <= r.0.products
    ensures r.1 == Err(CreateTableFailed) ==> r.0 == s
    ensures r.1.Ok? ==> r.0.hasProductsTable
  {
    if driver.createFails then (s, Err(CreateTableFailed))
    else
      var created := s.(hasProductsTable := true);
      if driver.countFails then (created, Err(CountFailed))
      else
        var count := ReadCount(created, driver);
        if count != 0 || !IsSeedingEnabled(env) then (created, Ok(count))
        else
          var n := InsertablePrefix(catalog, driver.insertFails);
          var seeded := created.(products := created.products + catalog[..n]);
          if n < |catalog| then (seeded, Err(InsertFailed(catalog[n]))) else (seeded, Ok(count))
  }

  /** A failing CREATE TABLE is rethrown before anything else happens. */
  lemma CreateFailureChangesNothing(s: DbState, env: SeedEnv, catalog: seq<Product>, driver: Driver)
    requires driver.createFails
    ensures Seed(s, env, catalog, driver) == (s, Err(CreateTableFailed))
  {
  }

  /** Rows are added only to a table whose count reads 0 while seeding is
      enabled; then they are the catalogue, in order, up to the first failing
      insert (earlier inserts stay). Otherwise the rows are unchanged. The
      result, when not an error, is the count read before seeding, 0 even
      after the table was filled. */
  lemma SeedAddsCatalogueOnlyToEmptyTable(s: DbState, env: SeedEnv, catalog: seq<Product>, driver: Driver)
    ensures var (s', r) := Seed(s, env, catalog, driver);
      && s'.executed == s.executed
      && (ReadCount(s, driver) != 0 || !IsSeedingEnabled(env) || driver.createFails || driver.countFails ==> s'.products == s.products)
      && (ReadCount(s, driver) == 0 && IsSeedingEnabled(env) && !driver.createFails && !driver.countFails ==>
            exists n | 0 <= n <= |catalog| :: s'.products == s.products + catalog[..n]
                                              && (r.Ok? <==> n == |catalog|))
      && (r.Ok? ==> r.value == ReadCount(s, driver))
  {
    var n := InsertablePrefix(catalog, driver.insertFails);
    assert 0 <= n <= |catalog|;
  }

  /** Seeding twice inserts nothing the second time once the first run filled
      the table with a non-empty catalogue and the count is reported. */
  lemma SecondSeedInsertsNothing(s: DbState, env: SeedEnv, catalog: seq<Product>, driver: Driver)
    requires catalog != [] && driver.countReported
    requires Seed(s, env, catalog, driver).1.Ok?
    requires |Seed(s, env, catalog, driver).0.products| > 0
    ensures var s1 := Seed(s, env, catalog, driver).0;
      Seed(s1, env, catalog, driver).0.products == s1.products
  {
  }

  class PgDatabase {
    var executed: seq<JsValue>
    var hasProductsTable: bool
    var products: seq<Product>

    function State(): DbState
      reads this
    {
      DbState(executed, hasProductsTable, products)
    }

    constructor (s: DbState)
      ensures State() == s
    {
      executed, hasProductsTable, products := s.executed, s.hasProductsTable, s.products;
    }

    /** `seedProducts(db)` */
    method SeedProducts(env: SeedEnv, catalog: seq<Product>, driver: Driver) returns (r: Result<nat, SeedError>)
      modifies this
      ensures (State(), r) == Seed(old(State()), env, catalog, driver)
    {
      if driver.createFails {
        return Err(CreateTableFailed);
      }
      hasProductsTable := true;
      if driver.countFails {
        return Err(CountFailed);
      }
      var count := if driver.countReported then |products| else 0;
      if count != 0 || !IsSeedingEnabled(env) {
        return Ok(count);
      }
      ghost var n := InsertablePrefix(catalog, driver.insertFails);
      ghost var before := products;
      var i := 0;
      while i < |catalog|
        invariant 0 <= i <= n
        invariant products == before + catalog[..i]
        invariant executed == old(executed) && hasProductsTable
      {
        if driver.insertFails(catalog[i]) {
          return Err(InsertFailed(catalog[i]));
        }
        products := products + [catalog[i]];
        assert catalog[..i + 1] == catalog[..i] + [catalog[i]];
        i := i + 1;
      }
      assert catalog[..i] == catalog;
      return Ok(count);
    }
  }
}
