# Egg tracker: entity store and aggregation engine

A Dafny model of the server core of the egg tracker. The core has two parts:

- **Entity store.** It holds chickens and egg records. A chicken is created from a name. An egg is recorded for an existing chicken on a calendar date. The chickens can be listed.
- **Aggregation engine.** It computes two statistics from the store:
  - per-chicken egg totals: every chicken appears, including chickens with no eggs, ordered by name;
  - per-day egg totals: one row per date that has at least one egg, in ascending date order.

The database is modelled as an immutable `Store` value. It holds:

- the `chickens` table and the `egg_records` table, each a sequence in insertion order;
- the next value of each serial id sequence;
- a logical clock that stands for `defaultNow()`.

Every write returns a `Step`: the store after the call together with the caller's result. A refused call returns the store it was given, which is how "no write on failure" is stated. The read operations are functions from a store to rows. They return no store, so they cannot change it.

Modules:

- `Dates`: the calendar date of `laid_date`, as a (year, month, day) triple compared lexicographically.
- `Names`: the order of `ORDER BY name`, plain lexicographic order on characters.
- `Schema`: the entities, the inputs, the statistics rows, the two error kinds, and the create-chicken input schema.
- `Store`: the tables, their integrity invariant `WellFormed`, and the create, list and record handlers.
- `Aggregation`: the two statistics handlers, with the group-by and the order-by written out.
- `Api`: the router, which runs the input schemas before the handlers. It also holds the invariant `Valid` of every reachable store and the lemmas that relate several calls.

Three points about what the code does:

- **Name validation.** The server accepts any name of at least one character. A name made only of spaces is accepted, and nothing is trimmed. Only the browser form refuses whitespace-only names (client/src/components/ChickenForm.tsx:19), and it sends names untrimmed.
- **Ties in the per-chicken statistics.** The query orders by name and has no tie-break. The model's sort happens to be deterministic, but the contracts promise only two things: names are non-decreasing, and the rows are a permutation of the joined rows.
- **Order of the chicken list.** The query that lists chickens has no `ORDER BY`. The tests expect insertion order, and the model returns insertion order.

## Model

| member | source | states |
|---|---|---|
| Dates.BeforeIsStrictTotalOrder | server/src/handlers/get_daily_egg_stats.ts:16 | dates are strictly totally ordered, so ordering by date is well defined |
| Names.NameLeTotal | server/src/handlers/get_chicken_egg_stats.ts:18 | any two names are comparable under the name order |
| Names.NameLeTransitive | server/src/handlers/get_chicken_egg_stats.ts:18 | the name order is transitive |
| Names.NameLeAntisymmetric | server/src/handlers/get_chicken_egg_stats.ts:18 | two names that are each at most the other are equal |
| Schema.ParseCreateChickenInput | server/src/schema.ts:13-15 | a name is accepted exactly when it has at least one character, and is passed on unchanged; otherwise the error is a validation error with the message "Chicken name is required" |
| Schema.OnlyEmptyNameRejected | server/src/schema.ts:14 | the empty name is refused; a name of one space is accepted as is |
| Store.EmptyIsWellFormed | server/src/db/schema.ts:5-17 | a fresh database satisfies the table invariant and holds no rows |
| Store.InsertChicken | server/src/handlers/create_chicken.ts:5-21 | the returned chicken has the input name; the chickens become the old ones plus exactly that chicken; egg records are unchanged; created_at lies between the clock readings before and after; in a well-formed store the id is positive and greater than every existing id, and the store stays well formed |
| Store.GetChickens | server/src/handlers/get_chickens.ts:5-12 | returns as many chickens as are stored, exactly the stored ones, with ids ascending in a well-formed store |
| Store.FindChicken | server/src/handlers/record_egg.ts:9-17 | finds a chicken exactly when one with the id exists, returning one with that id; otherwise the error is not-found naming the id |
| Store.RecordEgg | server/src/handlers/record_egg.ts:6-33 | fails exactly when no chicken has the id, with a not-found error naming it and the store unchanged; on success appends exactly one record carrying the input chicken id and date, leaves chickens unchanged, and gives it a positive id above every existing record id; keeps the store well formed |
| Store.ReferencesSurviveInsert | server/src/db/schema.ts:14 | adding a chicken never breaks an egg record's reference to a chicken |
| Aggregation.EggsOfAppend | server/src/handlers/get_chicken_egg_stats.ts:13-16 | appending a record raises its chicken's count by one and no other chicken's |
| Aggregation.EggsOnAppend | server/src/handlers/get_daily_egg_stats.ts:12-15 | appending a record raises its date's count by one and no other date's |
| Aggregation.EggsOfUnreferenced | server/src/handlers/get_chicken_egg_stats.ts:13 | a chicken that no record references has a count of zero |
| Aggregation.JoinedRows | server/src/handlers/get_chicken_egg_stats.ts:10-17 | the left join grouped by chicken gives exactly one row per chicken, with its id and name and the number of records referencing it, zero included |
| Aggregation.InsertByName | server/src/handlers/get_chicken_egg_stats.ts:18 | inserting a row into a name-sorted list keeps it sorted, adds exactly that row, and adds its eggs to the total |
| Aggregation.SortByName | server/src/handlers/get_chicken_egg_stats.ts:18 | the result is sorted by non-decreasing name, is a permutation of the input, and keeps the egg total |
| Aggregation.GetChickenEggStats | server/src/handlers/get_chicken_egg_stats.ts:6-26 | one row per chicken, as a permutation of the joined rows; every chicken's row appears, with its record count, zero included; every row belongs to a stored chicken and counts exactly that chicken's records; rows are sorted by name |
| Aggregation.ExistingIdMatchesOnce | server/src/db/schema.ts:6 | with serial ids, an id that occurs among the chickens occurs exactly once |
| Aggregation.JoinedTotalSplit | server/src/handlers/get_chicken_egg_stats.ts:16 | a record contributes to the joined total once for each chicken whose id it carries |
| Aggregation.JoinedTotalIsEggCount | server/src/db/schema.ts:14 | with chicken ids ascending in store order (hence unique) and resolving references, the joined counts add up to the number of records |
| Aggregation.ChickenStatsTotalIsEggCount | server/src/handlers/get_chicken_egg_stats.ts:13-17 | when chicken ids ascend in store order (hence are unique) and every record references a chicken, the per-chicken totals add up to the number of egg records |
| Aggregation.AddEggBump | server/src/handlers/get_daily_egg_stats.ts:12-15 | a record whose date already has a row increments only that row |
| Aggregation.AddEggInsert | server/src/handlers/get_daily_egg_stats.ts:15-16 | a record with a new date earliest of all gets a new front row with one egg |
| Aggregation.AddEggSkip | server/src/handlers/get_daily_egg_stats.ts:15-16 | a record dated after the first row leaves that row in front of the updated rest |
| Aggregation.BeforeAllAdded | server/src/handlers/get_daily_egg_stats.ts:16 | a date earlier than all existing dates and the new one stays earlier than every date after the update |
| Aggregation.AddEgg | server/src/handlers/get_daily_egg_stats.ts:12-16 | counting one more egg for a date keeps the dates strictly ascending, adds that date, raises that date's count by one and no other, raises the total by one, and keeps every count positive |
| Aggregation.GroupByDate | server/src/handlers/get_daily_egg_stats.ts:9-17 | grouping records by date gives strictly ascending dates, exactly the dates that occur, positive counts, each date's count equal to its number of records, and a total equal to the number of records |
| Aggregation.RowsOnAscending | server/src/handlers/get_daily_egg_stats.ts:15 | when row dates are strictly ascending (hence distinct), the count attributed to a row's date is that row's count |
| Aggregation.RowsOnAbsent | server/src/handlers/get_daily_egg_stats.ts:15 | a date carried by no row has no count |
| Aggregation.GetDailyEggStats | server/src/handlers/get_daily_egg_stats.ts:6-23 | dates strictly ascending, hence distinct; each row counts exactly the records of its date and is positive; every record's date has a row and every row's date has a record; totals add up to the number of records; empty exactly when there are no records |
| Api.CreateChicken | server/src/index.ts:29-31 | refuses exactly the empty name, with the validation error and the store unchanged; otherwise the handler appends exactly the new chicken with the given name and leaves egg records alone; keeps the reachable-store invariant |
| Api.RecordEggPreservesValid | server/src/handlers/record_egg.ts:9-26 | recording an egg, whether it succeeds or fails, keeps the reachable-store invariant |
| Api.RunAppendsOnly | server/src/handlers/create_chicken.ts:8-13 | any sequence of calls only appends, through both writes (this insert and the egg insert at server/src/handlers/record_egg.ts:20-26): earlier chickens and records keep their place, and the clock never goes back |
| Api.RunKeepsValid | server/src/index.ts:29-39 | any sequence of calls from a valid store ends in a valid store |
| Api.ReachableStoresAreValid | server/src/db/schema.ts:5-17 | every store reachable from a fresh database is valid: unique ascending positive ids, resolving references, non-empty names |
| Api.ReachableStatsAddUp | server/src/handlers/get_chicken_egg_stats.ts:13-17 | in every store reachable from a fresh database, the per-chicken totals and the per-day totals each add up to the number of egg records |
| Api.ChickenIdsIncrease | server/src/tests/create_chicken.test.ts:65-77 | two successive creations both succeed, with positive and strictly increasing ids |
| Api.DuplicateNamesAllowed | server/src/db/schema.ts:7 | creating the same name twice gives two chickens with distinct ids |
| Api.ListingFollowsInsertionOrder | server/src/tests/get_chickens.test.ts:46-65 | after a creation, the list is the earlier list followed by the new chicken |
| Api.UnknownChickenRejected | server/src/tests/record_egg.test.ts:75-82 | recording an egg for an id that was never handed out fails with not-found naming it, and nothing is written |
| Api.NewChickenHasZeroRow | server/src/tests/get_chicken_egg_stats.test.ts:17-36 | a newly created chicken appears in the per-chicken statistics with zero eggs |
| Api.RecordEggCountsOnce | server/src/tests/record_egg.test.ts:109-141 | a recorded egg adds one to its own chicken's count and its own date's count, and to no other |
| Api.DuplicateEggsBothCounted | server/src/tests/record_egg.test.ts:84-107 | recording the same chicken and date twice gives two records with distinct ids, both counted for the chicken and for the day |
| Api.HenriettaScenario | server/src/tests/create_chicken.test.ts:10-27 | a composite scenario on a fresh database whose id sequences start at 1 with no gaps: creating "Henrietta" (as in this test) and recording one egg give id 1 to both; each statistic has one row with one egg; an unknown chicken id (999 here, 99999 in server/src/tests/record_egg.test.ts:75-82) is refused with not-found and nothing written |
| Api.NameOrderScenario | server/src/tests/get_chicken_egg_stats.test.ts:95-116 | chickens created as "Zara" then "Alice" appear with Alice first |

## Left out

- Transport: the RPC router, the HTTP server, CORS, serialization, environment configuration and the health check. All that is kept is that the input schemas run before the handlers (`Api`).
- The browser client, including its refusal of whitespace-only names, its refusal of future dates in the date picker, and its own totals and top-producer reductions.
- Date text: `laid_date` travels as a `'YYYY-MM-DD'` string, which the database parses. The model takes an already parsed date. The model accepts every (year, month, day) triple, including calendar-invalid ones such as 2024-02-30. The database would refuse those, so `RecordEgg` records dates the source rejects.
- JavaScript `Date` conversion of the returned `laid_date` and its time-zone behaviour. The model returns the stored date itself.
- Wall-clock time. `created_at` is a reading of a logical clock that every insert advances by one.
- Non-integer numbers. The record-egg schema accepts any number as `chicken_id`. Ids here are integers, so fractional ids are not modelled.
- Serial-sequence gaps. The model's ids are consecutive from 1, while the database only guarantees that they are unique and increasing. Most contracts state only uniqueness and increase. Three members depend on the gap-free counter starting at 1:
  - `Api.HenriettaScenario` and `Api.NameOrderScenario` assume a fresh sequence that starts at 1 and has no gaps.
  - `Api.UnknownChickenRejected` is stated in terms of the next counter value.
- Store.RecordEgg: ids are unbounded integers, not the database's 32-bit `integer` columns (server/src/db/schema.ts:13-14). A `chicken_id` outside the 32-bit range (2147483648, say) makes the source's lookup fail with the database's out-of-range error, which the handler rethrows. The model instead answers not-found naming that id. Modelling database error codes is out of scope.
- Store.InsertChicken: always succeeds, with no bound on ids. The source's `serial` sequence runs out after 2147483647 rows, and then the insert fails (server/src/db/schema.ts:6). The handler also accepts every name, but a PostgreSQL `text` column cannot hold U+0000. So a name containing it makes the source's insert fail, and the handler rethrows the error (server/src/handlers/create_chicken.ts:22-24). The model stores such a name.
- Api.CreateChicken: refuses only the empty name. The source also fails for a non-empty name containing U+0000, at the insert rather than at the schema. Names here are sequences of characters, not JavaScript strings. A JavaScript string holding a lone surrogate is stored as U+FFFD, so the stored name differs from the input. The model cannot express such an input and does not model that replacement.
- Api.UnknownChickenRejected: claims not-found for every id at or above the next counter value. That also covers ids outside the 32-bit range, which the database refuses with an out-of-range error instead.
- Collation. Names are compared character by character, not under the database's locale collation rules.
- Error text. The not-found error carries the missing id, which the message "Chicken with id N not found" spells out. The message string itself is not built.
- Concurrency. The existence check and the insert of `recordEgg` are two separate queries with no transaction between them. Each call is modelled as atomic.
- Storage failures, and the logging and rethrowing of errors in every handler.
- Update and deletion of chickens or egg records: the source has neither.
