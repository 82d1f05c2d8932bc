# Smart Waste Logger: a Dafny model of its lookup, aggregation and authentication logic

The Smart Waste Logger is a small web application. A user uploads a photo, an image
classifier names the item, a carbon table gives the item's material, recyclability and
estimated CO2, and the result is stored as one log entry for that user. The stored entries
feed a personal dashboard, a personal log page and a public leaderboard. Users register and
log in with a username or email and a password.

This project models the three pieces of that application which compute something:

- **Impact lookup** (`carbon.dfy`, module `Carbon`): `estimate_impact` picks the first table
  row whose label equals the classifier's label exactly, and falls back to
  `("unknown", False, 0.05)`; `get_item_data` wraps the triple in a record.
- **Log aggregation and leaderboard** (`waste_log.dfy`, `summary.dfy`, `sorting.dfy`,
  `dashboard.dfy`): the `WasteLog` row, the total CO2 (null and zero estimates skipped), the
  recyclable percentage (guarded against zero entries), the per-day CO2 trend loop, the
  `logs[-5:]` slice, the dashboard, the log page, the public leaderboard with its sort, and the
  append done by `/classify`.
- **Registration and login** (`auth.dfy`, `passwords.dfy`): the duplicate check before a user is
  added, login by username or email with one generic failure, the session write on success and
  the session clear on logout.

CO2 amounts are exact `real`s. The log store and the user list are sequences in insertion
order. The impact lookup, the summaries and the leaderboard rows are pure functions. The
trend loop and the leaderboard loop are methods with loop invariants. The user store and the
log store are classes whose methods change their fields in place. The session is a class
with two fields; the module-level methods `Login` and `Logout` change them.

Python's `list.sort` is stable and compares keys only with `<`. Module `Sorting` gives it a
reference definition: a stable insertion sort under any strict weak order. The model proves
that this sort returns an ordered permutation of its input and keeps the input order of
elements whose keys tie. The same sort models `order_by(WasteLog.timestamp)`. SQL leaves the
order of equal timestamps open; the model keeps such entries in store order.

Three details of the code matter here:

- The code's total-CO2 guard `if entry.co2_estimate` skips zero estimates as well as null
  ones. Zero adds nothing to a sum, so skipping it changes no total.
- The trend loop adds `log.co2_estimate` with no null guard. An entry without an estimate makes
  `0 + None` raise, so the dashboard request fails. `BuildTrend` and `Index` return
  `Err(TypeError)` in that case.
- The dashboard's day key is the UTC date of the stored `datetime.utcnow()` timestamp. No other
  time zone is applied.

## Model

| member | source | states |
|---|---|---|
| `Carbon.FirstMatch` | waste_logger_app/carbon_utils.py:11 | no position is returned exactly when no row's label equals the query; otherwise the position holds an exactly equal label and every earlier row's label differs |
| `Carbon.EstimateImpact` | waste_logger_app/carbon_utils.py:10-17 | with no matching row the result is `("unknown", false, 0.05)`; otherwise it is the material, recyclable flag and co2_kg of the first matching row in table order |
| `Carbon.LaterRowsIrrelevant` | waste_logger_app/carbon_utils.py:14-16 | once a prefix of the table contains a match, appending any rows leaves the result unchanged |
| `Carbon.NonMatchingRowIrrelevant` | waste_logger_app/carbon_utils.py:11 | a row whose label differs from the query in any way can be inserted anywhere without changing the result |
| `Carbon.GetItemData` | waste_logger_app/carbon_utils.py:19-26 | the record's material, recyclable and co2_kg fields equal the three components of the lookup on the same table and label |
| `Sorting.Sort` | waste_logger_app/main.py:206 | defines the stable sort that `list.sort` performs, as insertion from the right; its properties are the three lemmas below |
| `Sorting.SortSorted` | waste_logger_app/main.py:206 | under a strict weak order, no element of the sorted list comes strictly before an element to its left |
| `Sorting.SortPermutes` | waste_logger_app/main.py:206 | the sorted list has the same multiset of elements as the input |
| `Sorting.SortStable` | waste_logger_app/main.py:206 | for every key, the elements tying with it appear in the sorted list in the same order as in the input |
| `WasteLog.LogsOf` | waste_logger_app/main.py:194 | an entry is in the filtered list exactly when it is in the store and has that username |
| `WasteLog.LogsOfCounts` | waste_logger_app/main.py:194-195 | the filtered list holds each of the user's entries as many times as the store does, and no other entry |
| `Summary.TotalCo2` | waste_logger_app/main.py:56 | defines the total CO2 as the sum over the list of each entry's truthy estimate; its properties are the two lemmas below |
| `Summary.TotalCo2SkipsFalsy` | waste_logger_app/main.py:56 | an entry whose estimate is null or 0 adds nothing to the total CO2, wherever it stands |
| `Summary.TotalCo2CountsTruthy` | waste_logger_app/main.py:56 | an entry with a non-zero estimate adds exactly that estimate to the total CO2 |
| `Summary.RecyclableCountBounds` | waste_logger_app/main.py:58 | the recyclable count lies in [0, n]; it is n exactly when every entry is recyclable and 0 exactly when none is |
| `Summary.PercentRecyclable` | waste_logger_app/main.py:59 | the percentage is 0 for no entries, equals 100 times count over n otherwise, always lies in [0, 100], is 100 exactly when all of at least one entry are recyclable and 0 exactly when none is |
| `Summary.Summarize` | waste_logger_app/main.py:56-59 | defines the pair (total CO2, recyclable percentage) that `/`, `/log` and each leaderboard row compute with the same formula |
| `Summary.SummarizeOrderIndependent` | waste_logger_app/main.py:55-59 | two lists holding the same entries in any order give the same total CO2 and percentage |
| `Summary.RawTotalIsTotalCo2` | waste_logger_app/main.py:56-65 | when every entry has an estimate, the trend's unguarded sum equals the guarded total CO2 |
| `Summary.TrendConservesTotal` | waste_logger_app/main.py:62-65 | a map with one key per day carrying that day's CO2 has values that add up to the CO2 of all entries |
| `Summary.BuildTrend` | waste_logger_app/main.py:62-65 | raises exactly when some entry has no estimate; otherwise the keys are exactly the entries' days, each value is that day's CO2, and the values sum to the total CO2 |
| `Summary.Recent` | waste_logger_app/main.py:74 | the result is the last min(5, n) entries, in the same order |
| `Passwords.HashPassword` | waste_logger_app/routes/auth.py:34 | a password verifies against its own hash, whatever the salt |
| `Passwords.WrongPasswordRejected` | waste_logger_app/routes/auth.py:52 | a different password does not verify against the hash |
| `Auth.FindUser` | waste_logger_app/routes/auth.py:25 | no position is returned exactly when no user has the username or the email; otherwise it is the first user that has either |
| `Auth.Authenticate` | waste_logger_app/routes/auth.py:51-56 | login succeeds exactly when the first user whose username or email equals the identifier verifies the password, and then returns that user; an unknown identifier fails with the generic error |
| `Auth.WrongPasswordFails` | waste_logger_app/routes/auth.py:52-56 | a failed password check for the selected user gives the same error as an unknown identifier |
| `Auth.AppendKeepsUnique` | waste_logger_app/routes/auth.py:25-37 | appending a user who clashes with nobody on username or email keeps both unique |
| `Auth.UserStore.Register` | waste_logger_app/routes/auth.py:25-37 | rejected with the store unchanged exactly when some user has the username or the email; otherwise appends exactly one user with the given username, email and hashed password; keeps usernames and emails unique |
| `Auth.RegisterTwiceScenario` | waste_logger_app/routes/auth.py:25-37 | asserts that registering the same username a second time fails with the duplicate error and leaves exactly one user |
| `Auth.LoginScenario` | waste_logger_app/routes/auth.py:51-65 | asserts that a registered user logs in by email, that a wrong password then fails and leaves the session as it was, and that logout empties it |
| `Auth.Login` | waste_logger_app/routes/auth.py:51-59 | the outcome is the authentication decision; on success the session holds the user's id and username; on failure the session is unchanged |
| `Auth.Logout` | waste_logger_app/routes/auth.py:65 | the session is empty afterwards |
| `Dashboard.FindById` | waste_logger_app/main.py:50 | no position is returned exactly when no user has the id; otherwise it is the first user with it |
| `Dashboard.ResolveUsername` | waste_logger_app/main.py:48-52 | a username is shown exactly when the id is truthy and names a user, and it is that user's username |
| `Dashboard.DashboardLogs` | waste_logger_app/main.py:55 | defines the dashboard query: the user's entries sorted by timestamp, none for a missing username; its properties are the lemma below |
| `Dashboard.DashboardLogsAreTheUsers` | waste_logger_app/main.py:55 | the dashboard's list has the same multiset of entries as the user's filtered list, holds exactly the user's entries, and is in non-decreasing timestamp order |
| `Dashboard.Index` | waste_logger_app/main.py:46-76 | fails exactly when the trend loop raises; otherwise the totals, the five most recent entries and the day trend are those of the user's time-ordered entries, and the trend sums to the total CO2 |
| `Dashboard.ViewLog` | waste_logger_app/main.py:145-153 | the listed entries are exactly the session user's entries; with no session user there are none |
| `Dashboard.ViewLogAgreesWithIndex` | waste_logger_app/main.py:149-153 | `/log` and `/` report the same total CO2 and percentage for the same user |
| `Dashboard.RowFor` | waste_logger_app/main.py:194-204 | defines one leaderboard row: the username, and the total CO2, recyclable percentage and entry count of that user's entries |
| `Dashboard.BuiltRows` | waste_logger_app/main.py:193-205 | one row per user, in the users' order, each built from that user's entries |
| `Dashboard.RanksAbove` | waste_logger_app/main.py:206 | defines Python's `<` on the key `(total_co2, -recyclable_percent)`: lower CO2 first, equal CO2 with the higher percentage first |
| `Dashboard.RanksAboveIsStrictWeakOrder` | waste_logger_app/main.py:206 | the sort key `(total_co2, -recyclable_percent)` is a strict weak order |
| `Dashboard.PublicDashboard` | waste_logger_app/main.py:186-206 | the leaderboard is the stable sort of the built rows by that key |
| `Dashboard.LeaderboardOrdered` | waste_logger_app/main.py:191-206 | the leaderboard has one row per user, is a permutation of the built rows, is ordered by total CO2 ascending and ties by recyclable percentage descending, and keeps the users' order among full ties |
| `Dashboard.LeaderboardExample` | waste_logger_app/main.py:206 | totals 5, 2, 2 with percentages 10, 90, 50 rank as (2, 90), (2, 50), (5, 10) |
| `Dashboard.LogStore.Classify` | waste_logger_app/main.py:112-129 | appends exactly one entry and changes no existing one; label and confidence come from the classifier, material, recyclable and CO2 from the lookup, and the username from the session or "guest" |
| `Dashboard.AppendUpdatesTotals` | waste_logger_app/main.py:128-129 | a new entry adds its contribution and one entry to its owner's figures and leaves every other user's unchanged |

## Left out

- Image handling: decoding the upload, saving it under a timestamped file name and rendering
  the result page are not modelled. `Classify` receives the file name as a parameter.
- The classifier (`model_loader.py`) is an oracle. `Classify` receives its label and
  confidence as parameters.
- The clock is a parameter: `Classify` receives the timestamp that `datetime.utcnow()` would
  give.
- `load_carbon_table` reads a CSV file with pandas. The model receives the loaded table as a
  value. `Carbon.GetItemData` therefore takes the table as a parameter instead of loading it.
- The lookup cannot modify the table because Dafny values are immutable. No separate lemma
  states this.
- Pandas type conversion of the CSV columns, and labels read as NaN, are not modelled.
- `round(..., 2)` on the totals and percentages is display rounding and is left out. As a
  consequence, the leaderboard is sorted on the unrounded values. Two users whose totals round
  to the same value, but differ before rounding, are ordered by CO2 here. Python would order
  them by recyclable percentage.
- Floating point is left out. Reals add associatively, so `Summary.SummarizeOrderIndependent`
  holds for the model. A float total can differ in its last bits between `/log` (store order)
  and `/` (timestamp order).
- Python dicts iterate in insertion order. The trend is a Dafny `map`, so the order in which
  the chart receives its days is not modelled.
- Web framework plumbing is left out: routing, templates, redirects, the session cookie
  middleware, the 401-to-`/login` handler and `require_login`. `require_login` is not part of
  this model. `Index` receives the user id that `require_login` returns.
- Only the `user_id` and `username` session keys are modelled. Logout clears both.
- `Passwords.HashPassword`: `waste_logger_app/utils/auth` is not part of this model. The digest
  is a transparent stand-in that records the salt and the password. The routes rely on one
  property, that a password verifies against its own hash, and it holds by construction.
  The stand-in is stronger than bcrypt in one respect: bcrypt ignores bytes past the 72nd,
  and the stand-in distinguishes them. One-way hashing and constant-time comparison are
  not modelled. bcrypt's random salt is a parameter.
- The `users` table and the `User` model (`waste_logger_app/models/user.py`) are not part of
  this model. `Auth.User` mirrors the fields the routes use. Registration does not rely on a
  database uniqueness constraint: the route's own check enforces uniqueness, and that check is
  what the model specifies.
- Among the `WasteLog` columns, only `recyclable` and `co2_estimate` are nullable in the model:
  they are the columns the routes read by truthiness. `username` is always present:
  `/classify` always writes one, the session's username or `"guest"` from
  `request.session.get("username", "guest")`, so the column default never applies. A query for a missing username (`== None`, that is
  `IS NULL`) therefore finds no entries.
- `main_old.py`, `waste_logger.py` (CSV logging), `add_filename_column.py` (a one-off
  migration), the engine and session setup of `database.py`, and `schemas/user.py` (a pydantic
  declaration no shown route uses) are outside the modelled core.
- Auth.FindUser: the queries at waste_logger_app/routes/auth.py:25 and :51 end in `.first()`
  with no `ORDER BY`, so the database may return any matching row. The model returns the
  first match in store order.
- Auth.Authenticate: registration compares username with username and email with email only.
  User A ("a", "x") and user B ("x", "b") can therefore both register, and a login with the
  identifier "x" then matches both. The model checks only the first one in store order.
  The source leaves open which row the database returns.
- Dashboard.FindById: the query at waste_logger_app/main.py:50 has no `ORDER BY`. Ids are
  unique, so the order does not change the result.
- WasteLog.LogsOf: the queries at waste_logger_app/main.py:149 and :194 end in `.all()` with
  no `ORDER BY`. The model returns the entries in store order. Totals do not depend on this
  order (`Summary.SummarizeOrderIndependent`), but the order of the `/log` listing does.
- Dashboard.BuiltRows: `db.query(User).all()` at waste_logger_app/main.py:189 has no
  `ORDER BY`. The model takes the users in store order. The tie order of the leaderboard
  ("keeps the users' order") is relative to that order.
- Concurrency between requests is left out. Each modelled operation runs alone.
