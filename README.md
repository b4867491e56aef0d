# magnetite-cms data-access core, modelled in Dafny

This project models the data-access core of the magnetite-cms backend:

- the **TTL cache** (`src/database/cache.rs`): a table from a tagged key (`Page(path)` or `User(id)`) to a tagged value snapshot with an absolute expiry, its getters, its setters and the body of its background sweep;
- the **command dispatcher** (`cmd` in `src/database/process.rs`): one sequential step of the data-access actor, which consults or updates the cache, calls the store and produces exactly one reply for each of GetPage, SetPage, DeletePage, NewPage, GetUser, SetUser, DeleteUser and NewUser;
- the **HTML rendering** of a page (`page_to_response` in `src/web/html.rs`): the metadata entries joined by newlines and the body, spliced into a fixed template.

Files and modules:

- `schema.dfy` (`Schema`): `Page`, `AdminUser`, `Uuid`, `Instant`, `TTL`, and the `Option` and `Result` wrappers.
- `cache.dfy` (`Cache`): the table as pure functions (`LookupPage`, `WithPage`, `Swept`, …) and the class `Cache`, whose `storage` field the methods update in place.
- `store.dfy` (`Store`): an abstract store of two maps, `path -> Page` and `id -> AdminUser`, as the class `Store`.
- `process.dfy` (`Process`): `Command`, `Reply`, the specification function `Step` and the method `Cmd` proved against it.
- `html.dfy` (`Html`): `JoinLines`, its inverse `SplitLines`, and `RenderPage`.

Modelling decisions:

- **Time.** An instant is an integer number of whole seconds since the Unix epoch. It is bounded by the range of chrono's `NaiveDateTime`, from -262143-01-01T00:00:00 to +262142-12-31T23:59:59 (`MIN_INSTANT`, `MAX_INSTANT`). The current time is a parameter `now`; nothing reads a clock. `TTL` is 60 seconds (`TimeDelta::minutes(1)`). `CheckedAdd` plays the part of `checked_add_signed`. Its `None` case is the overflow path, on which the setters do nothing.
- **Store.** SQL is not modelled. Each store operation takes a flag `fail` that stands for a connection, pool or transport failure; a failed operation changes nothing and reports `Unavailable`. For the rest:
  - `fetch_one` of a missing row is `NotFound`.
  - `UPDATE` and `DELETE` succeed even when they touch no row.
  - `INSERT` of an existing key is `Conflict`.
  - The page `UPDATE` sets every column except `path` and `metadata` (`UpdatedPage`). The page `INSERT` supplies seven values and no metadata, so the new row's metadata is left at the column default, modelled as the empty list (`InsertedPage`).
  - A ghost counter `calls` counts store operations, so "no store access" can be stated.
- **Dispatcher state.** `Step` is a function of the command, the two relations, the cache table, `now` and `fail`. It gives the reply, the next state and whether the store was called. `Cmd` is the imperative dispatcher over a `Store` and a `Cache` object, and its postcondition ties it to `Step`. The reply is `Cmd`'s return value. `Reply` has one variant per reply channel type.
- **Cache discipline, as the code does it.** Reads are cache-aside and only `SetPage` writes through:
  - `DeletePage` and `DeleteUser` do not evict the cache entry.
  - `SetUser`, `NewPage` and `NewUser` do not write the cache.
  - A uniqueness violation is reported as the store's own error, here `Conflict`.
- **Sweep.** `SweepExpired` walks a snapshot of the keys and removes expired entries from the live table. It compares every entry with one `now`, where the source re-reads the clock for each entry.
- **Interleaving.** `Run` runs a sequence of whole dispatcher commands and sweep passes one after another. It is not a model of channels or tasks. The cache lock is taken per cache call (`src/database/cache.rs:73, 89, 108, 119`), not per command. So a sweep can also run while a read that missed waits on the store, between the miss and the `set_page`/`set_user` that caches the fetched row. `SweepDuringStoreCall` proves that this order ends exactly as the sweep-first order that `Run` covers, because a miss stays a miss after a sweep (`MissSurvivesSweep`).

## Model

| member | source | states |
|---|---|---|
| `Cache.Cache.constructor` | src/database/cache.rs:36-37 | a new cache starts with an empty table |
| `Cache.Cache.GetPage` | src/database/cache.rs:70-84 | returns the page stored under `Page(path)`, or `None` when the key is absent or holds a user; never looks at the expiry; in a well-keyed table a present key always yields `Some`; the answer is `LookupPage` of the table |
| `Cache.Cache.GetUser` | src/database/cache.rs:86-99 | the same for `User(id)` and users; the answer is `LookupUser` of the table |
| `Cache.Cache.SetPage` | src/database/cache.rs:101-110 | the new table is `WithPage(old table, page, now)`; well-keyedness is preserved |
| `Cache.Cache.SetUser` | src/database/cache.rs:112-121 | the new table is `WithUser(old table, user, now)`; well-keyedness is preserved |
| `Cache.Cache.SweepExpired` | src/database/cache.rs:45-56 | after a walk over a snapshot of the keys, the table is `Swept(old table, now)`; well-keyedness is preserved |
| `Schema.CheckedAdd` | src/database/cache.rs:103-106 | `None` exactly when `t + d` leaves the range of `NaiveDateTime`; otherwise the instant `d` seconds after `t` |
| `Cache.LookupPage` | src/database/cache.rs:73-83 | `Some` exactly when the key `Page(path)` is present and holds a page, with that page; in a well-keyed table the page has the requested path |
| `Cache.LookupUser` | src/database/cache.rs:89-98 | `Some` exactly when the key `User(id)` is present and holds a user, with that user; in a well-keyed table the user has the requested id |
| `Cache.WithPage` | src/database/cache.rs:101-110 | on overflow of `now + TTL` the table is unchanged; otherwise key `Page(p.path)` holds `p` with expiry `now + 60`, replacing any old value and expiry; every other key keeps its value; no other key appears; well-keyedness is preserved |
| `Cache.WithUser` | src/database/cache.rs:112-121 | the same for key `User(u.id)` |
| `Cache.Swept` | src/database/cache.rs:45-56 | a key survives exactly when it was present and its expiry is not before `now`; survivors keep their values, and all of them have expiry `>= now` |
| `Cache.GetPageAfterSetPage` | src/database/cache.rs:70-84 | after a non-overflowing set of `p`, the page lookup of `p.path` returns `p` |
| `Cache.GetUserAfterSetUser` | src/database/cache.rs:86-121 | after a non-overflowing set of `u`, the user lookup of `u.id` returns `u` |
| `Cache.LookupMatchesVariant` | src/database/cache.rs:76-80 | in a well-keyed table a present key holds the matching variant, so the `_ => None` arm is never taken |
| `Cache.ExpiredEntryStillServed` | src/database/cache.rs:70-84 | an entry whose expiry has passed but that has not been swept is still returned |
| `Cache.ExpiredUserStillServed` | src/database/cache.rs:86-99 | a user entry whose expiry has passed but that has not been swept is still returned |
| `Cache.MissSurvivesSweep` | src/database/cache.rs:45-56 | a page or user lookup that misses still misses after a sweep |
| `Cache.SweptEntryMisses` | src/database/cache.rs:45-56 | an entry whose expiry is before the sweep's instant is gone afterwards, and the lookup of its key misses |
| `Cache.SweptIdempotent` | src/database/cache.rs:45-56 | a second sweep at the same instant changes nothing |
| `Cache.SweptShrinks` | src/database/cache.rs:45-56 | a sweep never adds keys and keeps the table well keyed |
| `Store.Fetch` | src/database/process.rs:21-29 | `fetch_one` succeeds exactly when the store is up and the key is present, with the stored row; otherwise `Unavailable` or `NotFound` |
| `Store.UpdatedPage` | src/database/process.rs:34-48 | the page `UPDATE` keeps the stored path and metadata and takes every other field from the new page |
| `Store.InsertedPage` | src/database/process.rs:70-77 | the page `INSERT` stores every field of the new page except metadata, which is empty |
| `Store.Store.FetchPage` | src/database/process.rs:21-23 | one store call; the result is `Fetch` of the page relation; a fetched row has the requested path |
| `Store.Store.FetchUser` | src/database/process.rs:94-96 | one store call; the result is `Fetch` of the user relation; a fetched row has the requested id |
| `Store.Store.UpdatePage` | src/database/process.rs:34-50 | one store call; `Ok` unless the store fails; a matching row is replaced by `UpdatedPage`; no row is touched otherwise |
| `Store.Store.UpdateUser` | src/database/process.rs:107-116 | one store call; `Ok` unless the store fails; a matching row takes the new username, enabled flag and email |
| `Store.Store.DeletePage` | src/database/process.rs:60-61 | one store call; `Ok` unless the store fails, whether or not a row matched; the path is gone afterwards |
| `Store.Store.DeleteUser` | src/database/process.rs:125-126 | one store call; `Ok` unless the store fails; the id is gone afterwards |
| `Store.Store.InsertPage` | src/database/process.rs:70-78 | one store call; `Conflict` on an existing path, `Unavailable` on failure, else the row is added |
| `Store.Store.InsertUser` | src/database/process.rs:135-140 | one store call; `Conflict` on an existing id, `Unavailable` on failure, else the row is added |
| `Process.Step` | src/database/process.rs:11-148 | every command gets one reply of its channel's type; a step that does not call the store changes nothing; a store failure, or any error reply, leaves store and cache unchanged (no negative caching); only GetPage, GetUser and SetPage can change the cache, and only at the key of the entity the command names; store keyedness and cache well-keyedness are preserved |
| `Process.Cmd` | src/database/process.rs:11-148 | the imperative dispatcher: its reply, new store, new cache and store-call count are those `Step` gives for the old state |
| `Process.GetHitServedFromCache` | src/database/process.rs:13-19 | a GetPage or GetUser that uses the cache (lines 13-19 and 86-92) and hits replies `Ok(cached value)`, calls no store and changes nothing |
| `Process.GetPageMissFetchesAndCaches` | src/database/process.rs:21-31 | a page read that misses, or that skips the cache, calls the store, replies with the stored row and caches it, so the cache warms even on a forced refresh |
| `Process.GetUserMissFetchesAndCaches` | src/database/process.rs:94-104 | the same for user reads |
| `Process.GetStoreErrorCachesNothing` | src/database/process.rs:25-28 | a read that reaches a failing or row-less store (lines 25-28 and 98-101) replies with that error and changes nothing |
| `Process.SetPageWritesThrough` | src/database/process.rs:52-57 | SetPage on success replies `Ok(())` and the cache then serves the new page; on store failure it replies the error and nothing changes |
| `Process.SetPageMetadataDiverges` | src/database/process.rs:34-56 | when the stored metadata differs from the new page's, after SetPage the cache holds the new metadata and the store the old |
| `Process.NoWriteThroughExceptSetPage` | src/database/process.rs:69-147 | SetUser, NewPage and NewUser (lines 69-85, 106-123, 134-147) never change the cache, whatever the store answers, even when the user row was updated |
| `Process.NewOnExistingKeyConflicts` | src/database/process.rs:69-85 | a NewPage or NewUser (lines 69-85 and 134-147) on an existing key replies `Conflict` and changes nothing |
| `Process.DeleteDoesNotEvict` | src/database/process.rs:59-68 | a successful DeletePage or DeleteUser (lines 59-68 and 124-133) replies `Ok(())` and removes the row, and the cache is unchanged |
| `Process.StaleReadAfterDeletePage` | src/database/process.rs:13-68 | after a successful delete of a cached page, a cache-using GetPage returns the deleted page without calling the store |
| `Process.StaleReadAfterDeleteUser` | src/database/process.rs:86-133 | the same for users |
| `Process.ReadAfterSetPage` | src/database/process.rs:13-57 | after a successful, non-overflowing SetPage, a cache-using GetPage returns the new page without calling the store |
| `Process.SweepDuringStoreCall` | src/database/process.rs:13-31 | a sweep that runs while a missed read (lines 13-31 and 86-104) waits on the store gives the same reply, store and cache as a sweep just before the command |
| `Process.ReadAfterExpiryAndSweepQueries` | src/database/process.rs:13-57 | after a successful SetPage at `now1` and a sweep at some `now2 > now1 + TTL`, a cache-using GetPage of that path calls the store |
| `Process.ExpiredEntryReadQueries` | src/database/process.rs:13-31 | after a sweep at `t`, a cache-using GetPage or GetUser (lines 13-31 and 86-104) of an entry that expired before `t` calls the store |
| `Process.Run` | src/database/process.rs:11-148 | commands and sweep passes run in sequence: one reply per command, each of its command's type, and store keyedness and cache well-keyedness hold at the end |
| `Html.RenderPage` | src/web/html.rs:11-26 | the document is the fixed head prefix, then the metadata joined by newlines, then the fixed middle, then the body unchanged, then the fixed suffix |
| `Html.SplitLines` | src/web/html.rs:12 | the inverse of the join: at least one line, none holding a newline |
| `Html.JoinSingle` | src/web/html.rs:12 | a single metadata entry is inserted verbatim |
| `Html.JoinCons` | src/web/html.rs:12 | one more entry adds itself and exactly one separator |
| `Html.JoinBoundaries` | src/web/html.rs:12 | the join starts with the first entry and ends with the last, so no separator leads or trails |
| `Html.JoinSplit` | src/web/html.rs:12 | joining the lines of any string gives it back |
| `Html.SplitJoin` | src/web/html.rs:12 | splitting the join of newline-free entries gives back the entries (the empty list gives one empty line) |
| `Html.RenderEmptyMetadata` | src/web/html.rs:12-18 | empty metadata leaves the head slot empty |
| `Html.RenderRecoversPage` | src/web/html.rs:12-26 | for a page with non-empty metadata whose entries hold no newline, the rendered document gives back the body unchanged, with no escaping, and the metadata entry by entry |
| `Html.JoinLines` | src/web/html.rs:12 | the join's length is the entries' total length plus one separator between each two entries; two or more entries give a newline |

## Left out

- The actor loop, the request facade and the data-base setup in `src/database.rs`: channel plumbing, a connection pool and concurrency. Its `process_cmd` is an older version of `cmd`. `Run` only gives the serial order.
- The `Arc<Mutex<..>>` sharing, the spawned task and its 5-second sleep, and `close` aborting that task (`src/database/cache.rs:31-42, 66-68`): task and time mechanics. Only the sweep body is modelled.
- Cache.Cache.SweepExpired: compares every entry with one `now`. The source re-reads `Utc::now()` for each entry, so a later entry can be judged against a slightly later instant.
- Sub-second resolution of `NaiveDateTime`: instants are whole seconds, so the overflow bound is exact only to the second.
- SQL semantics and the sqlx/Postgres driver: the store is two maps with a failure flag. Errors other than a missing row or a uniqueness violation all become `Unavailable`.
- The table definitions (migrations) are not part of this model. The column that receives each positional `INSERT` value is assumed to be the field of the same name.
- `HttpResponse::Ok().content_type(..)` (`src/web/html.rs:28-30`): a library call. Only the string is modelled.
- `src/main.rs` (environment, cancellation, Ctrl-C handling), `src/web.rs` (the HTTP server) and `src/util.rs` (console printing): lifecycle, I/O and output.
- `src/database/schema.rs` is only a struct, and an older one. `Page` follows the fields `cmd` and `page_to_response` use.
- The reply is sent before the cache write in SetPage's success branch (`src/database/process.rs:55-56`). Nothing in a single sequential step can observe that order.
