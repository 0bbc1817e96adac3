# Exercise tracker: the user log and its query

A model of the exercise-tracking API in `index.js`. Clients create users,
append exercises to a user's embedded log, and read that log back through a
query with an optional inclusive date range (`from`, `to`) and a `limit`.
Two parts are modelled:

- **The log query** (`LogQuery.dfy`) is the `GET /api/users/:_id/logs`
  pipeline as pure functions. It runs the date-range `filter` (only when
  both `from` and `to` are truthy), then `slice(0, parseInt(limit))` (only
  when `limit` is truthy), then the `map` that renders dates, then the
  count. Dates are JavaScript time values in milliseconds, `Option<int>`,
  where `None` is an Invalid Date and every comparison with it is false.
  `new Date(text)`, `parseInt` and `toDateString` are library behaviour.
  They are fields of a `Runtime` value passed in, so every property holds
  whatever those functions return. `Array.prototype.slice(0, end)` is
  written out: NaN counts as 0, a negative end counts back from the length,
  and the end is clamped to the length.
- **The user store** (`UserStore.dfy`) is a class over `map<Id, User>` plus
  the sequence of standalone exercise records. `CreateUser`, `AddExercise`
  and `GetLogs` are its methods. The current time is a parameter `now`.
  A body date that is an Invalid Date fails the exercise schema's `Date`
  cast, so only valid dates, in whole seconds, reach a user's log.
  Store-assigned identifiers are drawn from a counter, so a new identifier
  was never handed out before.

`Wrappers.dfy` holds the `Option` and `Result` datatypes.

## Model

| member | source | states |
|---|---|---|
| `LogQuery.FilterByDate` | index.js:181-184 | The filtered log is no longer than the log, and every surviving entry's date lies within the range. |
| `LogQuery.FilterKeeps` | index.js:178-184 | An entry survives exactly when it is in the log, its date is valid, both bounds are valid, and `from <= date <= to`, both ends inclusive. |
| `LogQuery.FilterIsSubsequence` | index.js:181-184 | The filtered log is a subsequence of the log, so insertion order is preserved. |
| `LogQuery.FilterAppend` | index.js:181-184 | Filtering `a + b` gives `filter(a) + filter(b)`: survivors keep their relative order. |
| `LogQuery.FilterAllInRange` | index.js:181-184 | When every date lies in the range, the filter returns the log unchanged. |
| `LogQuery.DateStage` | index.js:177-185 | If `from` or `to` is absent or empty, the log is returned unchanged. Otherwise the result is `FilterByDate` on the parsed bounds, so multiplicity and order follow that function's lemmas. An entry is kept exactly when it is in the log and within the parsed range. |
| `LogQuery.DateStageIsSubsequence` | index.js:177-185 | The date step yields a subsequence of the stored log. |
| `LogQuery.SlicePrefix` | index.js:189 | `slice(0, end)` returns a prefix. It is empty for NaN, `min(n, len)` long for `n >= 0`, and `max(len + n, 0)` long for `n < 0`. |
| `LogQuery.SliceCountsBack` | index.js:189 | A negative end `n` drops exactly the last `-n` entries. |
| `LogQuery.SliceStable` | index.js:189 | Once a sequence has at least `n` elements, appending more leaves `slice(0, n)` unchanged. |
| `LogQuery.LimitStage` | index.js:188-190 | The result is a prefix. An absent or empty `limit` changes nothing. A truthy `limit` parsing to NaN (`"abc"`) yields an empty log. A truthy `limit` parsing to `n` keeps `min(n, len)` entries for `n >= 0`, so `"0"` keeps none, and `max(len + n, 0)` entries for `n < 0`. |
| `LogQuery.Format` | index.js:194-198 | Rendering keeps the length and order. Each item has its source entry's description and duration, and its date as `toDateString`, or "Invalid Date". |
| `LogQuery.FormatAppend` | index.js:194-198 | Rendering `a + b` gives `render(a) + render(b)`. |
| `LogQuery.QueryLog` | index.js:174-201 | `count` equals the length of the returned log, which is never longer than the stored log. An empty log gives count 0 and no items. |
| `LogQuery.QueryLogSelects` | index.js:174-201 | The selected entries are a subsequence of the stored log. The reply has one item per selected entry, in order, with that entry's description, duration and rendered date. With a date range, every selected entry lies within it. |
| `LogQuery.QueryLogUnfiltered` | index.js:174-201 | With no range and no limit, the reply is the whole log rendered item by item, and its count is the log's length. |
| `LogQuery.QueryLogLimitOnly` | index.js:188-201 | With a limit `n >= 0` and no date range, the reply is the first `min(n, len)` entries of the log, rendered in order. |
| `LogQuery.QueryLogAppend` | index.js:135-139 | Without a limit, appending an entry to the log appends that entry's own reply, which is empty or one item, to the old reply. |
| `LogQuery.QueryLogLimitStable` | index.js:177-190 | When the filtered log already holds `limit` entries, appending entries does not change the reply, because the limit keeps the oldest entries. |
| `UserStore.Store.constructor` | index.js:43 | The store starts with no users and no exercise records. |
| `UserStore.Store.CreateUser` | index.js:71-84 | With a truthy username, adds one user under a previously unused identifier, with that username and an empty log, and replies with both. With a missing or empty username (the schema's `required` check), nothing changes and there is no reply. |
| `UserStore.WholeSeconds` | index.js:37 | The date read back from a log entry's text form is the time value floored to a whole second: a multiple of 1000, at most the original and less than 1000 below it. |
| `UserStore.Store.AddExercise` | index.js:103-159 | An unknown user gives NotFound and nothing changes. A missing description or duration, or a body date that parses to an Invalid Date, gives ServerError and nothing changes. Otherwise exactly one entry is appended to that user's log, with the date set to the parsed body date or `now` when absent. The log entry keeps that date in whole seconds; the exercise record and the reply keep it exactly. Other users, earlier entries and usernames are unchanged, and every stored log date stays valid. |
| `UserStore.Store.GetLogs` | index.js:163-213 | NotFound exactly when the user is unknown. Otherwise the reply has the user's name, the query's page of that user's log, and a count equal to its length that never exceeds the stored log's length. |

## Left out

- Express setup, CORS, static files, route wiring and JSON/HTTP status serialisation (index.js:1-12, 217-219): framework plumbing.
- The MongoDB connection and the persistence done by `save()` (index.js:16-24, 80, 141-142): the store is an in-memory map. Store-assigned ObjectIds are a counter. A malformed identifier string, which makes `findById` throw and the handler answer 500, cannot occur with numeric identifiers.
- Parsing dates with `new Date(...)`, `parseInt`, and rendering with `toDateString()`: JavaScript library behaviour, taken as the functions in `Runtime`.
- UserStore.WholeSeconds: a log entry's `date` is a `String` in the user schema (index.js:37). The model takes `new Date(...)` to read back that text form exactly to the second, and does not model the text itself.
- `duration` is a whole number of minutes. A fractional JavaScript Number is not modelled. A value that cannot be cast to a Number counts as missing.
- Concurrency: two requests interleaving the exercise-record write and the user write (index.js:141-142). Each handler is one atomic step here. A failure after the exercise record is saved but before the user is saved is also not modelled.
- The list-users handler (index.js:89-97) returns the stored collection unchanged. It holds no logic, so it is not part of this model.
- `console.log` calls and the catch-all 500 answers for storage failures.
- Query parameters repeated in the URL, which Express passes as arrays, are not modelled. Each parameter is absent or one string.
