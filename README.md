# ErrorFix storefront — a verified model of its core logic

This project models the non-UI logic of the ErrorFix storefront, a Next.js demo shop, in Dafny and proves properties of that model. It covers:

- **Client stores** (`lib/store.ts`):
  - the persisted auth store (`login`, `logout`, the mocked `authenticateUser` email check);
  - the purchase store (`makePurchase`, `resetPurchaseState`) with its three fields `processingPurchase`, `purchaseComplete` and `purchaseError`;
  - `resetAppState`, which drops the persisted cart.
- **API routes**:
  - the purchase endpoint (`app/api/checkout/purchase/route.ts`): an ordered chain of early returns;
  - the login endpoint (`app/api/auth/login/route.ts`): the misspelt-header rule, the email check, and the configured user-id scheme.
- **Product reads**:
  - the related-products choice of the product page: same category, not the viewed product, first four;
  - `getAllProducts` and `parseJsonField` of the product repository;
  - `safeJsonParse` of `lib/db/db-server.ts`.
- **Migrations**:
  - the stand-alone SQLite runner `scripts/run-migrations.ts`: per-migration transactions, skipping names already recorded, stopping at the first failure;
  - the application runner `lib/db/migrations/index.ts`: SQL entries, the `seedProducts` JS entry, no record of what ran;
  - `seedProducts` (`lib/db/migrations/001_seed_products.ts`).

JavaScript semantics that the code relies on are written out in `js_values.dfy`:

- truthiness, and `a || b`;
- property reads, where reading from `null` or `undefined` throws;
- `String(...)` coercion, including the coercion `regex.test` applies. It throws on an object with an own `toString` key, or on an array holding one;
- `substring` with its clamping and swapping of indexes.

The email pattern `/^[^\s@]+@[^\s@]+\.[^\s@]+$/` has two definitions:

- a position-by-position definition of what the pattern accepts;
- the split-at-first-`@` check that the model computes with.

They are proved equivalent.

Inputs the code takes from outside become parameters:

- `JSON.parse` becomes a partial function `parse`, where None means it throws;
- `Number(...)` becomes `toNumber`;
- `Math.random().toString(36)` becomes a text `random36`;
- the clock becomes `now`;
- how `fetch` settles becomes a `FetchOutcome`;
- which database statements throw is given by oracle functions of the statement alone.

Where the code updates state in place, the model is a class. Its methods' `ensures` state the new state; where the code loops (the two migration runners and `seedProducts`), the loop is proved equal to a function:

- the zustand stores become `AuthStore` and `PurchaseStore`;
- browser storage becomes `BrowserStorage`;
- the SQLite database of the script becomes `SqliteDatabase`;
- the Postgres database of the application runner becomes `PgDatabase`.

Where the code computes a value, the model is a function.

Some behaviour of the code is easy to misread:

- **Rejection message.** On a rejected purchase other than a 401, the stored text is `data.error || 'An error occurred while processing your payment.'` and the returned text is `data.error || 'Payment processing failed. Please try again.'`.
- **Purchase state.** The purchase status is the three independent fields `processingPurchase`, `purchaseComplete` and `purchaseError`. In particular:
  - `purchaseComplete` is never cleared by a later purchase;
  - on a rejection without a truthy `error` (lib/store.ts:150 and 155), and on the exception path (lib/store.ts:170 and 175), the stored and returned failure texts differ. On a 401, and on a rejection with a truthy `error`, they are the same.
- **Login.** Client-side login never calls the login endpoint. Its only failure is the fixed "Invalid email or password" text.
- **Logout.** Logout removes the `cart` key from `localStorage`. The in-memory cart is not part of this model.
- **Bearer header.** `fetch` strips trailing whitespace from header values, so the "Bearer " sent for an empty id arrives as "Bearer" and is answered "Authentication required".

## Model

| member | source | states |
|---|---|---|
| EmailFormat.IndexOfAt | lib/store.ts:34 | finds the first `@`: the position holds `@` and no `@` comes before it; None exactly when the text has no `@` |
| EmailFormat.ValidEmailIsPattern | lib/store.ts:25-26 | the split-at-first-`@` check accepts exactly the texts that `/^[^\s@]+@[^\s@]+\.[^\s@]+$/` accepts (both directions) |
| EmailFormat.LocalPart | lib/store.ts:34 | `email.split('@')[0]` is a prefix of the text with no `@` in it, and is followed by `@` whenever it is shorter than the text |
| EmailFormat.LocalPartOfValidEmail | app/api/auth/login/route.ts:61-65 | on an accepted address, the name is non-empty; the address is name + "@" + domain; the name has only `[^\s@]` characters; the domain is `[^\s@]+\.[^\s@]+` with no second `@` |
| JsValues.ToJsString | app/api/auth/login/route.ts:34 | the coercion throws exactly when `CoercionThrows` holds: an object with an own `toString` key, or an array with such an element at any depth |
| EmailFormat.CoercedNonTextNeverValid | app/api/auth/login/route.ts:33-34 | a number, boolean, null, undefined or object that `regex.test` coerces to text without throwing never passes the email check |
| DbServer.SafeJsonParse | lib/db/db-server.ts:34-49 | null or undefined gives `[]`; a non-string is returned unchanged; a string gives its decoding, or `[]` when decoding throws |
| ProductRepository.ParseJsonField | lib/db/repositories/ProductRepository.ts:64-76 | a falsy value gives `[]`; another non-string is returned unchanged; a non-empty string gives its decoding, or `[]` when decoding throws |
| ProductRepository.DecodersDifferOnlyOnZeroAndFalse | lib/db/repositories/ProductRepository.ts:64-76 | `parseJsonField` and `safeJsonParse` give different results exactly on `0` and `false` (when `JSON.parse("")` throws, as it does) |
| ProductRepository.RowToProduct | lib/db/repositories/ProductRepository.ts:39-52 | a row converts exactly when none of its `String`/`Number` coercions throws. Then id, name, description and category are the columns' text; the flags are the columns' truthiness; images, sizes and colors go through `parseJsonField` |
| ProductRepository.GetAllProducts | lib/db/repositories/ProductRepository.ts:10-59 | in the browser, when the query throws, or when some row's conversion throws, the result is `[]`; otherwise one product per row, the i-th converted from the i-th row; it never throws |
| RelatedProducts.SelectRelated | app/components/ClientProductDetail.tsx:49-51 | holds min(4, number related) products, each in the viewed product's category and not the viewed product; the k-th related product of the catalogue (k < 4) is at position k |
| RelatedProducts.RelatedOfShape | app/components/ClientProductDetail.tsx:49-50 | the filtered list has one entry per related product and holds only related products |
| RelatedProducts.RelatedOfPrefix | app/components/ClientProductDetail.tsx:49-51 | filtering a prefix of the catalogue gives a prefix of the filtered list, so `slice(0, 4)` keeps catalogue order |
| RelatedProducts.RelatedOfAt | app/components/ClientProductDetail.tsx:49-50 | a related product at catalogue position j sits in the filtered list at the number of related products before j |
| PurchaseRoute.HandlePurchase | app/api/checkout/purchase/route.ts:11-67 | the status is one of 200, 400, 401 and 500. A 500 says "Payment processing failed"; a 401 says one of the two credential messages; a 400 says one of the cart or payment messages. An acceptance echoes a truthy `totalAmount`, counts a non-empty `items` array, and has a transaction id of at most 13 characters. Which check answers is fixed, in order, by the three lemmas below |
| PurchaseRoute.UndecodableBodyFailsFirst | app/api/checkout/purchase/route.ts:14-15 | a body that fails to decode, or decodes to null, gives 500 "Payment processing failed" whatever the headers |
| PurchaseRoute.AuthenticationCheckedBeforeCart | app/api/checkout/purchase/route.ts:17-33 | with a decodable body, a missing or non-`Bearer ` header gives 401 "Authentication required"; exactly "Bearer " gives 401 "Invalid authentication", whatever the cart |
| PurchaseRoute.CartCheckedBeforePayment | app/api/checkout/purchase/route.ts:35-47 | after the credential checks pass, a missing, non-array or empty `items` gives 400 "No items in cart" whatever the payment fields; otherwise a falsy `paymentDetails` or `totalAmount` gives 400 "Missing payment details or total amount" |
| PurchaseRoute.AcceptedExactlyWhenComplete | app/api/checkout/purchase/route.ts:35-59 | accepted exactly when all hold: the body decodes; the token is non-empty; `items` is a non-empty array; `paymentDetails` and `totalAmount` are truthy. A total of `0` otherwise valid gives 400 |
| LoginRoute.GenerateUserId | app/api/auth/login/route.ts:45-59 | the `legacy` scheme gives `legacy-` followed by at most 3 random characters; `standard` gives at most 13 |
| LoginRoute.HandleLogin | app/api/auth/login/route.ts:13-81 | a login succeeds only if the misspelt-header rule passes and the body's `email` is that user's email, a string matching the pattern; the id starts `legacy-`; the name is the non-empty text before the `@` |
| LoginRoute.UndecodableBodyGivesAuthError | app/api/auth/login/route.ts:30-31 | once the header rule passes, a body that fails to decode or decodes to null or undefined gives 500 AUTH_ERROR |
| LoginRoute.LoginOutcomeForTextEmail | app/api/auth/login/route.ts:33-67 | for a string email: only `authentication` set gives 401 AUTH_FAILED; otherwise the user when the email matches the pattern, else 400 INVALID_EMAIL |
| LoginRoute.WrongHeaderRejectedBeforeBody | app/api/auth/login/route.ts:16-28 | a request with `authentication` but no `Authorization` gets 401 AUTH_FAILED before the body is read |
| LoginRoute.PasswordIgnored | app/api/auth/login/route.ts:30-31 | changing, adding or removing `password` never changes the response |
| LoginRoute.NonTextEmailNeverLogsIn | app/api/auth/login/route.ts:33-65 | a non-string email never logs in. A coercion that throws gives 500. Other non-arrays give 400. An array gives 400 when its text fails the pattern, and 500 when it passes, because `split` then throws |
| LoginRoute.SingletonArrayEmailThrows | app/api/auth/login/route.ts:61-79 | `["a@b.co"]` as the email passes the format check and ends in 500 AUTH_ERROR |
| Store.AuthenticateUser | lib/store.ts:19-40 | a user exists exactly when the email matches the pattern; it keeps the email, takes `random36.substring(2, 15)` as id, and its name is the non-empty text before the first `@` |
| Store.TrimEnd | lib/store.ts:125 | removes exactly the trailing HTTP whitespace: the result is a prefix, does not end in whitespace, and everything cut off is whitespace |
| Store.TrimStart | lib/store.ts:125 | removes exactly the leading HTTP whitespace: the result is a suffix, does not start with whitespace, and everything cut off is whitespace |
| Store.NormalizeHeaderValue | lib/store.ts:125 | the value a header arrives with is a slice of the value sent, everything cut off on either side is HTTP whitespace, and the slice neither starts nor ends with HTTP whitespace |
| Store.BearerHeader | lib/store.ts:122-126 | a header is sent exactly when the user is authenticated and set; it then starts with "Bearer " and its token is the user's id |
| Store.TrimEndOfConcat | lib/store.ts:125 | trimming the end of `a + b` reaches into `a` exactly when `b` is all whitespace |
| Store.BearerHeaderAsReceived | lib/store.ts:125 | `"Bearer " + id` arrives as "Bearer" when the id is empty or all whitespace, and as "Bearer " + the id without its trailing whitespace otherwise |
| Store.NonEmptyTokenPassesCredentials | app/api/checkout/purchase/route.ts:17-33 | a decodable body with a header of "Bearer " and a non-empty token is never answered 401 |
| Store.BearerHeaderMeetsEndpoint | lib/store.ts:124-126 | the header `makePurchase` sends, as the endpoint receives it, gives 401 "Authentication required" when signed out or when the id is empty or all whitespace, and no 401 otherwise |
| Store.BrowserStorage.RemoveItem | lib/store.ts:46 | exactly the given key is removed |
| Store.ResetAppState | lib/store.ts:43-48 | the `cart` key is removed in a browser; outside a browser storage is unchanged |
| Store.PurchaseStore.constructor | lib/store.ts:105-109 | starts not processing, not complete, with no error |
| Store.PurchaseStore.ResetPurchaseState | lib/store.ts:180-186 | returns to the initial state |
| Store.PurchaseStore.BeginPurchase | lib/store.ts:112 | sets processing and clears the error; completion is untouched |
| Store.PurchaseStore.FinishPurchase | lib/store.ts:131-177 | processing ends on every path. Success exactly on an ok response with a decodable body, which sets complete. Otherwise a truthy error is stored and returned: the 401 message; the exception texts (also when a non-ok, non-401 body is null); or the server's `error` with different stored and returned fallbacks |
| Store.PurchaseStore.FailWithException | lib/store.ts:166-177 | stores the long exception text, returns "Payment processing failed. Please try again.", and leaves completion alone |
| Store.PurchaseStore.MakePurchase | lib/store.ts:111-178 | sends the bearer header exactly when a user is signed in. On top of `FinishPurchase`'s outcome mapping: a success leaves no stored error; a failure always leaves one |
| Store.AuthStore.constructor | lib/store.ts:58-62 | starts signed out, with `isAuthenticated` matching `user` |
| Store.AuthStore.Login | lib/store.ts:64-84 | keeps `isAuthenticated` iff a user is set. Succeeds exactly when the email matches the pattern, whatever the password, and then signs in that user. A failure returns the fixed text and changes nothing |
| Store.AuthStore.Logout | lib/store.ts:86-97 | signs out; the purchase store ends in its initial state; in a browser the `cart` key is removed from storage, and the other keys the model holds (all but `auth-storage`) are unchanged |
| MigrationScript.SqliteDatabase.ApplyInTransaction | scripts/run-migrations.ts:63-83 | on success both the SQL and the name are kept; on failure neither (rollback) |
| MigrationScript.Run | scripts/run-migrations.ts:52-84 | the reference definition of the loop: never applies more migrations than listed, and a reported failure is a migration not recorded before the run |
| MigrationScript.SqliteDatabase.RunMigrations | scripts/run-migrations.ts:18-98 | the recorded names and committed SQL grow by exactly the migrations `Run` applies, in list order. A missing, non-array or empty list applies nothing; malformed JSON or a failing migration exits with error |
| MigrationScript.SqliteDatabase.ApplyAll | scripts/run-migrations.ts:52-84 | the loop leaves the recorded names and committed SQL grown by exactly what `Run` applies, and reports a failure exactly when `Run` stops at one |
| MigrationScript.RunAppliesOnlyNew | scripts/run-migrations.ts:52-59 | every applied migration is from the list, was not recorded before, and its transaction succeeded |
| MigrationScript.RunAppliesEachNameOnce | scripts/run-migrations.ts:52-76 | no name is applied twice in one run, even when the list repeats it |
| MigrationScript.CompletedRunRecordsAll | scripts/run-migrations.ts:52-84 | after a run without failure every name of the list is recorded |
| MigrationScript.AllRecordedAppliesNothing | scripts/run-migrations.ts:54-59 | when every name is already recorded the run applies nothing and cannot fail |
| MigrationScript.RerunAppliesNothing | scripts/run-migrations.ts:52-84 | running the same list again after a completed run applies nothing, whatever the database would answer |
| MigrationScript.FailedMigrationLocated | scripts/run-migrations.ts:78-83 | the reported failing migration is in the list, its transaction fails, and its name stays unrecorded |
| MigrationScript.FailedRunAppliedPrefix | scripts/run-migrations.ts:64-83 | a failed run applied exactly what the list before the failing migration applies |
| MigrationScript.FailureStopsTheRun | scripts/run-migrations.ts:78-83 | a failed run stops at a position k: the failing, unrecorded migration is there, and what was kept is the result of the list before k |
| SeedProducts.IsSeedingEnabled | lib/db/migrations/001_seed_products.ts:9-17 | seeding is on outside a browser, and off in a browser whose stored flag is any text other than "true" |
| SeedProducts.SeedingFlag | lib/db/migrations/001_seed_products.ts:9-17 | seeding is on outside a browser; in a browser it is on when the flag is absent or exactly "true", and off for any other stored value |
| SeedProducts.InsertablePrefix | lib/db/migrations/001_seed_products.ts:66-87 | the count of catalogue products before the first failing insert: all before it insert, the one at it fails |
| SeedProducts.Seed | lib/db/migrations/001_seed_products.ts:22-103 | the reference definition of `seedProducts`: the executed SQL is untouched, rows are only ever added, a failing CREATE TABLE changes nothing, and a success leaves the table existing |
| SeedProducts.CreateFailureChangesNothing | lib/db/migrations/001_seed_products.ts:27-49 | a failing CREATE TABLE is rethrown with the state unchanged |
| SeedProducts.SeedAddsCatalogueOnlyToEmptyTable | lib/db/migrations/001_seed_products.ts:51-94 | rows are added only when the count reads 0 and seeding is on. Then a catalogue prefix is added, all of it exactly on success, earlier inserts kept on failure. The result is the count before seeding |
| SeedProducts.SecondSeedInsertsNothing | lib/db/migrations/001_seed_products.ts:53-61 | after a successful seed that filled the table, seeding again adds no rows |
| SeedProducts.PgDatabase.SeedProducts | lib/db/migrations/001_seed_products.ts:22-103 | the new state and result are those of `Seed`; inserts go one by one, in catalogue order, with no transaction |
| MigrationIndex.Classify | lib/db/migrations/index.ts:19-49 | an entry is unreadable exactly when null or undefined; a chosen SQL is truthy; `seedProducts` is called only for an entry whose `function` is that text |
| MigrationIndex.SqlTakesPrecedence | lib/db/migrations/index.ts:22-31 | an entry with truthy `sql` runs its SQL even when it also describes a JS migration |
| MigrationIndex.SeedCalledOnlyByName | lib/db/migrations/index.ts:31-41 | `seedProducts` runs exactly for entries with no truthy `sql`, `type` "js" and `function` "seedProducts" |
| MigrationIndex.RunFrom | lib/db/migrations/index.ts:19-50 | the reference definition of the walk: executed SQL and rows only grow, and a failure names an entry at or after the starting one |
| MigrationIndex.RunAll | lib/db/migrations/index.ts:7-72 | the reference definition of `runMigrations`: executed SQL and rows only grow, and a failed import or a list that is not an array changes nothing |
| MigrationIndex.RunFromExecutesPrefix | lib/db/migrations/index.ts:19-50 | the SQL executed is exactly the SQL entries before where the walk stopped, in order |
| MigrationIndex.RunFromStopsAtFailure | lib/db/migrations/index.ts:19-49 | the walk stops early only at an entry that throws: unreadable, rejected SQL or a failing `seedProducts` |
| MigrationIndex.ListFormatChecked | lib/db/migrations/index.ts:15-17 | a truthy non-array list is rejected with nothing run; a falsy one is the empty list |
| MigrationIndex.EveryCallRerunsAll | lib/db/migrations/index.ts:7-72 | with no record of applied migrations, two complete runs execute every SQL entry twice |
| MigrationIndex.RunMigrations | lib/db/migrations/index.ts:7-72 | the new database state and the outcome are those of `RunAll`: the list checks, then the walk |

## Left out

- Rendering, styling, the cart context and cart page logic, and the other database drivers and scripts: none of these are part of this model.
- Timing is not modelled: the artificial delays (`setTimeout` of 800 ms and 1500 ms), and the `setTimeout(..., 0)` that defers the purchase reset in `logout`. The model runs the reset immediately after the auth fields are cleared.
- Concurrency is not modelled: two `makePurchase` calls interleaving, or multiple tabs.
- zustand's `persist` serialisation of the auth store is not modelled; only its fields are.
- Store.AuthStore.Logout: the `persist` write of the `auth-storage` key that follows `set` (lib/store.ts:88) is not modelled, and neither is that write throwing (for example on a full storage quota), which would end `logout` before `resetAppState`. The same holds for the write after `set` in `login` (lib/store.ts:69).
- Numbers are mathematical integers, so NaN, floating-point prices and ratings, and `Number(...)` coercion are not modelled (`toNumber` is a parameter). `NumberToString` covers integers only.
- `JSON.parse` is not modelled: it is an arbitrary partial function `parse`. `request.json()` and `response.json()` are modelled by an optional decoded body.
- Inherited properties of JS objects are not modelled: property reads see own object fields, plus `length` of arrays and strings.
- Console logging is not modelled, including log lines that would coerce an entry's fields to text (lib/db/migrations/index.ts:20, 40). Neither are the table listings after migrations: they are read-only, and in `index.ts` their failure is caught.
- Store.AuthStore.Login: the `catch` branch (lines 77-82) is not modelled. `authenticateUser` catches everything itself and never throws, and the only other throw, from the `persist` write after `set`, is not modelled (see above).
- LoginRoute.HandleLogin: `Object.fromEntries(request.headers.entries())` and the configuration fields other than `idGenerationMethod` are not modelled, because they never influence the response.
- MigrationScript.SqliteDatabase.RunMigrations: list entries are modelled as records with text `file` and `sql`, and entries of other shapes are not modelled. A failing connection or CREATE TABLE of `_drizzle_migrations` is not modelled either. Nor is a throw from the per-migration `SELECT ... WHERE name = ?` check (line 54) or from `BEGIN TRANSACTION` (line 64); either would end the script with exit code 1. Migration SQL that carries its own `COMMIT` or `ROLLBACK` is not modelled: it would break the "kept together or rolled back together" result that `ApplyInTransaction` states.
- SeedProducts.PgDatabase.SeedProducts: what the SQL of CREATE TABLE and INSERT contains is not modelled; rows are stored as catalogue products, and which statements throw is an input.
- MigrationIndex.RunFrom: running an SQL entry only records its text in `executed`. Its effect on the products table is not modelled, for example an SQL migration that creates or fills `products` before `seedProducts` runs.
- Store.BearerHeaderMeetsEndpoint: a header value that `fetch` refuses (NUL, CR or LF inside it, or a character above U+00FF) makes `fetch` throw, which is the `FetchThrew` outcome; the lemma is about a request that was sent.
- ProductRepository.GetAllProducts: a failing `getSQLiteConnection` is folded into the query throwing.
- Random ids, the clock and the network are inputs, so id uniqueness is not a property of the model.
- The failure oracles `sqlFails`, `recordFails` and `insertFails` depend only on the statement or product. So within one run, the same SQL text or product cannot succeed once and fail later, as a duplicate key or a repeated CREATE TABLE could. No proved property relies on this.
