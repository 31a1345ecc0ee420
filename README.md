# Midnight Raver$ landing page — data-access core in Dafny

A model of the landing page's server-side data access and the integer logic of its page:

- **Users** (`wrappers.dfy`, `schema.dfy`, `db.dfy`): `upsertUser` turns a partial user record into
  an insert record (`values`) and a conflict-update record (`updateSet`), then writes them with one
  atomic insert-or-update keyed on the unique `openId`. `getUserByOpenId` looks a user up.
- **Leads** (`db.dfy`, `routers.dfy`): `leads.create` validates its four fields and then calls
  `createLead`, which appends one row. `leads.list` returns every row through `getAllLeads`.
- **Storage** (`schema.dfy`): the `users` and `leads_midnight_ravers` tables are datatypes.
  - `Valid()` predicates hold the table constraints: unique `openId`, distinct serial ids and
    the varchar bounds.
  - Not-null columns are plain `string`s; nullable ones are `Option<string>`.
  - `UserTable.Upsert` and `LeadTable.Insert` say what storage does with a write: fill in the
    defaults, keep the columns a conflict update leaves out, and reject over-length values.
- **Page** (`home.dfy`): the countdown decomposition of a distance in milliseconds, the
  `String(n).padStart(2, '0')` display, and the page state. That state is a class holding the form
  record, the `submitted` flag and the countdown, changed by the page's handlers.

Conventions:
- `Field<T> = Absent | Null | Value(v)` separates a key that is not there (`undefined`) from an
  explicit `null`.
- `Db.Store` is the storage handle. It holds the two tables and an `available` flag that stands for
  `getDb()` returning a connection.
- Errors that the source throws are `Err` values. `MissingIdentifier` is the missing `openId`,
  `StorageUnavailable` is "Database not available", and `PersistenceError` is a write rejected by
  storage.
- The current time and the configured owner identifier are passed in as parameters.
- The validator library's email check is passed in as the function `isEmail`.

On `lastSignedIn`, the model follows the code rather than the natural expectation:
- One might expect every login to refresh `lastSignedIn`. The code (server/db.ts:66-72) puts
  `lastSignedIn` in the update set only when the caller supplied it, or when nothing else was
  shaped. So a login that supplies, say, a name but no `lastSignedIn` leaves the stored
  `lastSignedIn` as it was.
- The same applies to the owner. Calling `upsertUser({openId: owner})` shapes the update set
  `{role: 'admin'}`, so calling it twice does not refresh `lastSignedIn`
  (`Db.OwnerReloginKeepsLastSignedIn`). Only for other identifiers does a bare repeated call
  refresh it (`Db.RepeatedLoginRefreshesLastSignedIn`).

## Model

| member | source | states |
|---|---|---|
| `Schema.UserTable.Upsert` | drizzle/schema.ts:15-26 | Insert-or-update on the unique `openId`. It succeeds exactly when every string of the insert record (`openId` included) is accepted by its column, that is within its varchar bound and free of U+0000, and the update set is accepted too. On a conflict the update set must fit its columns. On a plain insert it must still be free of U+0000, because every parameter is bound before any conflict is looked for. The table stays valid, its keys become the old keys plus `openId`, and every other row is unchanged. A new row gets a fresh id, role `"user"` unless one is given, `createdAt = updatedAt = now`, `lastSignedIn` as given or `now`, and NULL for absent nullable columns. A conflict keeps id, `openId`, `createdAt`, `updatedAt` and every column the update set leaves out. Each written column gets exactly the written value, NULL included. |
| `Schema.LeadTable.Insert` | drizzle/schema.ts:36-43 | Appends exactly when the four values fit 255/320/50/100 characters and none contains U+0000. The old rows are kept as a prefix and one row is added with the four values verbatim, `createdAt = now` and an id distinct from every earlier id. The table stays valid. |
| `Db.ShapeUpsert` | server/db.ts:36-72 | `name`, `email` and `loginMethod` go into both records exactly as supplied, or into neither when absent; an explicit `null` is carried. An explicit role goes into both records; failing that, the owner gets `'admin'` in both; otherwise neither record has a role. `values` always has `lastSignedIn`, the supplied one or `now`. `updateSet` is never empty. Without a supplied `lastSignedIn`, `updateSet` carries `lastSignedIn = now` exactly when no text field and no role was shaped. |
| `Db.BuildUpsertSets` | server/db.ts:36-72 | The step-by-step construction (the `forEach(assignNullable)` loop, then the role and `lastSignedIn` branches, the default and the fallback) yields exactly `ShapeUpsert`'s two records. |
| `Db.UpsertUserOutcome` | server/db.ts:24-83 | An empty `openId` raises `MissingIdentifier` before storage is consulted. With no database the call returns normally and nothing changes. Otherwise the only error is a rejected write. After a successful write exactly one row has the `openId`, no other row changed, and the table is still valid. |
| `Db.CreateLeadOutcome` | server/db.ts:102-129 | With no database it raises `StorageUnavailable`. Otherwise it succeeds exactly when the four fields are accepted by their columns (length bounds, no U+0000), and raises `PersistenceError` when they are not. On success it appends exactly one row with the four fields verbatim, and storage supplies the id (distinct) and `createdAt`. The caller's `id` and `createdAt` are ignored. |
| `Db.CallerKeysIgnored` | server/db.ts:112-117 | The outcome of `createLead` does not depend on the `id` or `createdAt` in the caller's record; the new row's id is the table's serial counter and its `createdAt` is `now`. |
| `Db.Store.UpsertUser` | server/db.ts:24-83 | The store method: its result and its new `users` table are those of `UpsertUserOutcome`. Leads and availability are untouched, and a failed call changes nothing. |
| `Db.Store.GetUserByOpenId` | server/db.ts:85-95 | With no database it returns "not found". A key containing U+0000 makes the query raise `PersistenceError`. Otherwise it returns a row exactly when some row has that `openId`, and that row is the one stored under it. |
| `Db.Store.CreateLead` | server/db.ts:102-129 | The store method: its result and new `leads` table are those of `CreateLeadOutcome`. Users are untouched, and a failed call changes nothing. |
| `Db.Store.GetAllLeads` | server/db.ts:135-141 | With no database it raises `StorageUnavailable`; otherwise it returns every lead row. |
| `Db.RepeatedLoginRefreshesLastSignedIn` | server/db.ts:66-72 | Two bare upserts of a non-owner identifier both succeed. Exactly one row then has that identifier, and its `lastSignedIn` is the second call's time. |
| `Db.OwnerReloginKeepsLastSignedIn` | server/db.ts:58-72 | Two bare upserts of the owner identifier both succeed. The row's role is `'admin'`, and the second call leaves `lastSignedIn` as the first left it. |
| `Db.OwnerIsAdmin` | server/db.ts:58-64 | A successful upsert of the owner identifier without an explicit role leaves the owner's row with role `'admin'`, whether the row was inserted or updated. |
| `Db.OmittedNameIsKept` | server/db.ts:44-52 | After an upsert with `name` A, a second upsert that omits `name` succeeds and leaves `name` as A. |
| `Db.DuplicateLeadsAreDistinctRows` | server/db.ts:112-121 | Creating the same lead twice appends two rows. They have equal `fullName`, `email`, `phone` and `instagram` and distinct ids: there is no de-duplication. |
| `Routers.Issues` | server/routers.ts:24-31 | Validation passes exactly when `fullName`, `phone` and `instagram` are non-empty and `email` passes the email check. Each failing key gets exactly one issue with the schema's message, and there is no other issue. |
| `Routers.AsInsertLead` | server/routers.ts:32-33 | The record handed to `createLead` is the parsed input, with no caller-chosen id or timestamp. |
| `Routers.Create` | server/routers.ts:22-35 | Invalid input returns the issues and leaves the store unchanged, so `createLead` never runs. Valid input is handed unchanged to `createLead`. The call returns `{success: true}` exactly when `createLead` succeeds, and a `createLead` error propagates. |
| `Routers.List` | server/routers.ts:36-38 | Returns exactly what `getAllLeads` returns, its error included. |
| `Routers.OverlongPhoneFailsAfterValidation` | server/routers.ts:26-29 | A phone longer than 50 characters passes validation when the other fields are valid, and is then rejected by storage with `PersistenceError`. |
| `Routers.CreatedLeadIsListed` | server/routers.ts:32-38 | For valid input that fits the columns, creation succeeds. The listed rows are then the earlier rows followed by one row carrying the four input fields. |
| `Home.CountdownOf` | client/src/pages/Home.tsx:60-74 | A negative distance gives all zeros. Otherwise `days >= 0`, `hours < 24`, `minutes < 60` and `seconds < 60`. With `S = days·86400000 + hours·3600000 + minutes·60000 + seconds·1000`, the distance satisfies `S <= distance < S + 1000`. |
| `Home.CountdownDecomposes` | client/src/pages/Home.tsx:69-72 | The nested remainders computed by the four divisions are in range and add back up to within one second of the distance. |
| `Home.CountdownOfMillis` | client/src/pages/Home.tsx:69-72 | Round trip: any in-range countdown, turned into milliseconds and padded with less than a second, decomposes back into itself. |
| `Home.DecimalString` | client/src/pages/Home.tsx:260 | `String(n)` is all decimal digits. It has one digit exactly when `n < 10`, starts with `'0'` only for zero, and reads back as `n`. |
| `Home.PadStart` | client/src/pages/Home.tsx:260 | `padStart(width, fill)` has length `max(|s|, width)`, ends with `s`, and is `fill` before that. |
| `Home.LeadingZerosParse` | client/src/pages/Home.tsx:260 | Prefixing zeros does not change the number a digit string reads as. |
| `Home.TwoDigits` | client/src/pages/Home.tsx:260-281 | Each countdown unit's display has at least two digits. It has a leading `'0'` exactly when the value is below ten, and it reads back as the value. |
| `Home.WithField` | client/src/pages/Home.tsx:106-111 | The spread-copy update sets the named field to the value and leaves the other three fields as they were. |
| `Home.EditsOfDistinctFieldsCommute` | client/src/pages/Home.tsx:106-111 | Edits to two different inputs give the same record in either order. |
| `Home.LandingPage.constructor` | client/src/pages/Home.tsx:13-25 | The page starts with an empty form, `submitted` false and a zero countdown. |
| `Home.LandingPage.HandleChange` | client/src/pages/Home.tsx:106-111 | Only the named form field changes; `submitted` and the countdown are untouched. |
| `Home.LandingPage.HandleSubmit` | client/src/pages/Home.tsx:94-97 | The payload sent is exactly the current form record, and the state does not change. |
| `Home.LandingPage.OnMutationSettled` | client/src/pages/Home.tsx:29-38 | `submitted` becomes `old(submitted) || success`. It turns true only on success and never reverts, so the form and the countdown (`ShowsForm`, `ShowsCountdown`) disappear for good. Nothing else changes. |
| `Home.LandingPage.UpdateCountdown` | client/src/pages/Home.tsx:60-74 | One timer tick sets the countdown to `CountdownOf(target - now)` and changes nothing else. |

## Left out

- `getDb` lazy initialisation (server/db.ts:7-21) is modelled only as the store's `available` flag. Creating the connection is foreign I/O, so the flag never changes in the model.
- Transient storage faults are not modelled. `available` stands for "a connection is configured" (`DATABASE_URL` set); the driver connects lazily, so an unreachable server would make any query throw. On writes that would take the same `PersistenceError` path as an over-length value. On reads, `getUserByOpenId` (server/db.ts:92) and `getAllLeads` (server/db.ts:141) would throw from the query, which the model's `Db.Store.GetUserByOpenId` and `Db.Store.GetAllLeads` do not capture: with `available` they answer from the table, except that a lookup key containing U+0000 raises.
- PostgreSQL truncates an over-length varchar value whose excess characters are all spaces. The model rejects every over-length value.
- Serial ids: the model advances its counter only when a row is inserted. PostgreSQL also uses up sequence values on conflicts and failed inserts. Ids are promised distinct, not consecutive.
- The clock: the two `new Date()` readings in `upsertUser` (server/db.ts:67, 71) and the database's `now()` defaults are one `now` parameter per call. The configured owner identifier is a parameter too.
- `Routers.Issues`: the validator library's email regular expression is not modelled; the `isEmail` parameter stands for it. Its type checks (a key that is missing or not a string) and the stripping of unknown keys are also not modelled: the input is already four strings.
- `Db.UpsertUserOutcome`: a runtime `null` for `role` or `lastSignedIn`, or a missing `openId`, is excluded by the insert type. A missing `openId` is modelled as the empty string, which takes the same `MissingIdentifier` path.
- `createLead`'s return value, the driver's query result, is modelled as `()`.
- Concurrent upserts and inserts are not modelled; each storage write is one atomic step.
- Parsing the target date `"2025-10-29T00:00:00"` depends on the time zone, so the target is given in milliseconds.
- Lead order: `getAllLeads` (server/db.ts:141) has no ORDER BY, so storage promises no order. The model returns rows in insertion order; this order in `Db.Store.GetAllLeads`, `Routers.List` and `Routers.CreatedLeadIsListed` is a choice of the model, not a promise of the code.
- JavaScript number semantics: distances are exact integers.
- Not modelled: React rendering, the intro and play-button timers, audio and mute, the `isPending` button state, toasts and console logging. A failed mutation only shows a toast, so `OnMutationSettled(false)` changes nothing.
- `auth.me` and `auth.logout` (server/routers.ts:12-19) handle session cookies and are not part of this model.
- `updatedAt` is never refreshed by an update (the code sets it only through its default), and the model does not refresh it either.
