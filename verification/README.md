# Climbing tracker backend: leaderboard and user rules

A Dafny model of the two pieces of logic in a small climbing-tracking web
backend whose behaviour lives in SQL run by the database:

- **The leaderboard** (`get_leaderboard`). It joins `users`, `climbing` and
  `routes` and drops rows whose route has no grade. It groups by user and
  reduces each group to a climb count and a hardest grade. It then orders the
  groups by `total_climbs` or by `hardest_grade`, using the other key as the
  tie-break.
- **The user rules.** `authenticateUser` checks a user id, an email and a
  password against the `users` table. `create_user` registers a user with a
  hashed password. `update_user` authenticates, then rewrites name, email and
  age.

The tables are immutable values (`Schema`). Primary keys are map keys, and
`climbing` is a sequence of rows. Every operation is a pure function from the
tables and the request to the response and, for writes, the new table. A
transaction is therefore all-or-nothing by construction.

Grades are a type parameter `G` with a comparison `le`, and every operation
requires only `TotalOrder(le)`. The concrete grade column type is never fixed.

`ORDER BY` says nothing about the order of rows that tie on both keys. So the
specification of a correct answer, `IsLeaderboard`, does not fix that order.
`Leaderboard` computes one correct answer with an insertion sort.
`LeaderboardUniqueUpToTies` proves that any two correct answers hold the same
entries and agree on both keys at every position.

Modules:

| file | module | contents |
|---|---|---|
| `wrappers.dfy` | `Wrappers` | `Option` |
| `grade_order.dfy` | `GradeOrder` | the total-order assumption on grades; SQL `MAX` |
| `schema.dfy` | `Schema` | the `users`, `routes` and `climbing` tables |
| `seq_facts.dfy` | `SeqFacts` | repetition-free sequences and permutations |
| `ranking.dfy` | `Ranking` | entries, the two `ORDER BY` rules, the sort, uniqueness up to ties |
| `leaderboard.dfy` | `Leaderboard` | query parameters, join, filter, group, count, max, result envelope |
| `leaderboard_example.dfy` | `LeaderboardExample` | a worked instance with integer grades |
| `users.dfy` | `Users` | authentication, registration, profile update |

Two points of the code shape the model:

- The authentication query selects the password digest along with the id,
  name and email (`src/api/user.py:34`), and `authenticateUser` returns that
  row, so `AuthenticatedUser` carries the digest.
- `create_user` does no check of its own before the INSERT. Any rejection by
  the database, whatever its cause, is an input (`inserted == None`).

## Model

| member | source | states |
|---|---|---|
| `Leaderboard.ParseQueryParams` | src/api/leaderboard.py:9-14 | an absent `sort_by` means `total_climbs`; a given value is accepted exactly when it is the string value of one of the two options, and then it selects that option |
| `Leaderboard.ParseWireName` | src/api/leaderboard.py:9-11 | each option's string value reads back as that same option |
| `GradeOrder.MaxGrade` | src/api/leaderboard.py:26 | `MAX` over a non-empty group returns one of the group's grades, and no grade in the group is above it |
| `Leaderboard.GradesOfCount` | src/api/leaderboard.py:25-34 | a user's group has exactly one row for each climbing row that joins a known user and a route with a non-null grade |
| `Leaderboard.GradesOfMembers` | src/api/leaderboard.py:29-34 | the grades in a user's group are exactly the grades of that user's climbs on graded routes |
| `Leaderboard.GroupKeys` | src/api/leaderboard.py:29-36 | the group keys have no repeats, and a user is a key exactly when the user has a climb that survives both joins and the null-grade filter |
| `Leaderboard.HasGradedClimbBeforeStep` | src/api/leaderboard.py:29-34 | one more climbing row adds its user to the climbers exactly when the row joins and its route is graded |
| `Leaderboard.EntryFor` | src/api/leaderboard.py:22-36 | a user's row carries the user's name, a climb count equal to the number of the user's graded climbs (so at least 1), and the highest grade among them |
| `Leaderboard.EntryOfUnique` | src/api/leaderboard.py:35-36 | two rows for the same user that both meet the aggregate specification are identical, so one user yields one row |
| `Leaderboard.Aggregate` | src/api/leaderboard.py:21-37 | before ordering: each row is its user's correct aggregate; each user with a graded climb has a row; no user has two rows; users without graded climbs have none |
| `Leaderboard.OrderedAggregateIsLeaderboard` | src/api/leaderboard.py:39-44 | a reordering of the aggregated rows that satisfies the chosen `ORDER BY` is a correct answer |
| `Leaderboard.Leaderboard` | src/api/leaderboard.py:21-57 | the result is correct: exactly the users with a graded climb, each once, with the right count and hardest grade, in the chosen order |
| `Leaderboard.LeaderboardUniqueUpToTies` | src/api/leaderboard.py:39-44 | any two correct answers have the same entries, and at each position the same `total_climbs` and `hardest_grade`; they differ only among full ties |
| `Leaderboard.GetLeaderboard` | src/api/leaderboard.py:46-66 | the response succeeds exactly when the query raises nothing; on success the list is a correct answer for the requested key; on failure it carries the exception's text and no list |
| `Ranking.AtLeastTotalOrder` | src/api/leaderboard.py:39-42 | each `ORDER BY` rule (primary key descending, then the other key descending) is a total order on the pair of keys |
| `Ranking.SortedAllPairs` | src/api/leaderboard.py:39-42 | when neighbours are in order, every earlier entry ranks at least as high as every later one |
| `Ranking.Insert` | src/api/leaderboard.py:39-44 | inserting into an ordered list keeps it ordered, adds exactly the one entry, and adds no repeats |
| `Ranking.SortBy` | src/api/leaderboard.py:39-44 | the sort returns a permutation of its input that is ordered by the chosen rule |
| `Ranking.SortedUpToTies` | src/api/leaderboard.py:39-44 | two ordered permutations of the same entries agree on both keys at every position |
| `LeaderboardExample.ExampleOrderings` | src/api/leaderboard.py:21-42 | user 1 (three climbs, best grade 10), user 2 (one climb, grade 12), user 3 (ungraded climbs only): by `total_climbs` the only answer is [1, 2], by `hardest_grade` it is [2, 1]; user 3 never appears |
| `Users.SelectUser` | src/api/user.py:33-39 | a row is found exactly when the table has that user id with that email, and the found row is that one |
| `Users.Authenticate` | src/api/user.py:32-48 | succeeds exactly when the id and email match one row and the password verifies against its stored digest; on success it returns that row's id, name, email and digest; otherwise, when the query and `verify` return normally, 401 "Invalid email or password" |
| `Users.RejectionIndistinguishable` | src/api/user.py:41-47 | a missing row and a wrong password give the same rejection |
| `Users.CreateUser` | src/api/user.py:50-79 | success exactly when the insert returns an id not already in the table; the new row holds the given name, email and age and the hash of the password; other rows are unchanged; on failure there is no id and no change |
| `Users.CreatedUserAuthenticates` | src/api/user.py:55-71 | if the hash library's digests verify their own plaintext, a newly registered user authenticates with the registered id, email and password |
| `Users.UpdateUser` | src/api/user.py:81-103 | a 401 happens exactly when authentication fails, and then nothing is written; success exactly when authentication passes and the UPDATE commits; it then changes only that row's name, email and age, keeps its password, and keeps every other row; when authentication passes but the UPDATE raises a database error, the reply is `success: false` and nothing is written |
| `Users.UpdatedUserAuthenticates` | src/api/user.py:85-96 | after a successful update the user authenticates with the new email and the unchanged password |
| `Users.UpdateKeepsOthersAuthentication` | src/api/user.py:85-96 | an update never changes the outcome of authenticating any other user id |
| `Users.UpdateIdempotent` | src/api/user.py:81-100 | repeating a successful update with the new email succeeds and leaves the table as it was |

## Left out

- HTTP routing, request-body validation and the API-key dependency (src/api/user.py:9-13). They are framework wiring. The `auth` module is not part of this model. `ParseQueryParams` keeps only the enum's values and its default; its `None` stands for the framework's validation error.
- Database engine, connections and transaction mechanics. Each operation is one all-or-nothing step. Database failures are inputs: `fault` for the leaderboard query, `inserted` for the INSERT, `committed` for the UPDATE. A failure of the authentication SELECT is not an input; see the `Users.UpdateUser` line below.
- Concurrency. `update_user` authenticates and updates in two separate transactions. A write between them is outside this sequential model.
- The internals of `sha256_crypt`. `hash` and `verify` are arbitrary total functions, so the model assumes both return; the random salt is an input. `verify(p, hash(p))` enters only as the hypothesis `VerifiesOwnHash` of `CreatedUserAuthenticates`. Nothing is assumed about `verify` on a digest of a different plaintext.
- Email uniqueness and id generation belong to the database schema. The id the database returns is an input.
- Users.UpdateUser: has no outcome for a database error in the authentication SELECT (src/api/user.py:38-39). `update_user` calls `authenticateUser` at src/api/user.py:83, outside its `try`, so such an error escapes as an uncaught exception, neither a 401 nor `success: false`.
- Users.Authenticate: models the SELECT and `verify` as always completing. A database error raised by the SELECT (src/api/user.py:38-39) or an exception raised by `pwd_context.verify` (src/api/user.py:46, which has no handler) propagates to the caller, so it is neither a 401 nor an outcome of the model; through src/api/user.py:83 the same holds for `update_user`.
- Users.CreateUser: assumes `hash` returns. `pwd_context.hash` at src/api/user.py:55 runs before and outside the `try` at src/api/user.py:69, so an exception from it escapes uncaught, with no `success: false` reply; the model has no such outcome.
- Exceptions other than database errors in `update_user`. Only `SQLAlchemyError` is caught there, and the model treats every UPDATE failure as one.
- `print` and the exact text of database error messages. The leaderboard failure carries the exception text as an opaque string.
- The concrete grade representation. Grades need only a total order.
- The order among leaderboard rows that tie on both keys. `IsLeaderboard` leaves it open, and `Leaderboard` returns just one of the allowed orders.
