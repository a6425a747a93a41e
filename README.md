# dhtracker backend: a verified model

dhtracker is a tracker for downhill skate runs. Riders sign in with an
external identity (Google or Facebook), register the spots they ride and log
runs at them. Each run is a number of laps on a given date. The app shows
personal statistics and public leaderboards.

This project models the Express backend that serves all of that. It covers:

- the leaderboard route;
- the run, spot and authentication routes;
- the bearer-token middleware;
- the Postgres schema those handlers rely on.

The database is modelled as the `Store` class (module `Schema`). It holds
three tables, `users`, `spots` and `runs`, as sequences of rows. Each SQL
statement that writes becomes one method of `Store`; each SELECT is a
function of a `Tables` snapshot (the store's tables at that moment). Every
method keeps the store invariant `Consistent`, which covers:

- the primary keys;
- `UNIQUE(email)`;
- `UNIQUE(auth_provider, auth_provider_id)`;
- the VARCHAR, INTEGER and DECIMAL(10, 2) column types;
- the foreign keys, with their `ON DELETE CASCADE` and `ON DELETE SET NULL`
  effects.

Handlers come in two kinds:

- A handler that writes is a method that takes the store and calls its
  methods.
- A read-only handler is a function of a `Tables` snapshot.

A handler that can fail returns a `Reply`: either a status and a payload,
or a status and an error message. The messages and status codes are the
handler's own. Three read-only handlers have no failure of their own in the
model and return their payload directly: `SpotRoutes.ListSpots`,
`RunRoutes.ListMyRuns` and `Aggregates.MyStats`. Their database-error path
(500) is listed under "Left out".

The following are parameters of the handlers, not parts of the model:

- the current time (`now`);
- the bounds of the current year (`yearStart`, `yearEnd`);
- the uuid Postgres generates for a new row;
- the database's text-to-timestamp conversion;
- the JWT library's `verify` and `sign`.

Some representation choices:

- Distances are exact, held as integer hundredths of a metre.
- Timestamps are integers.
- JSON request fields are modelled with their JavaScript truthiness and
  `typeof`.

Behaviour of the code worth noting. Where it differs from the app's own
description of itself, the model follows the code:

- A rank is the row's position plus one (`index + 1`). Users with equal
  metrics get different ranks, not a shared dense rank
  (`Leaderboard.Ranked`).
- The leaderboard's `limit` is clamped only from above, at 1000.
  `Math.min(parseInt(limit) || 100, 1000)` passes a negative number through to `LIMIT`, which Postgres
  refuses, so the handler answers 500 (`Leaderboard.GetLeaderboard`).
- The "positive number" check on `distanceMeters` runs on the JSON number.
  The DECIMAL(10, 2) column then rounds it, so a distance below 0.005 m
  passes the check and is stored as 0.00 (`Numbers.TinyPositiveRoundsToZero`).
  For that reason the store invariant states that distances are
  non-negative, not positive.
- PUT /spots/:id with an explicit `"name": null` passes the builder and then
  breaks the NOT NULL constraint, which gives 500. An explicit
  `"description": ""` clears the description to NULL.
- Postgres checks a VARCHAR(n) value when it is stored. Text longer than n
  characters is refused (500) unless everything past the n-th character is
  spaces; then it is cut to n characters and stored
  (`Schema.VarcharCast`, `SpotRoutes.PaddedNameIsCut`). The login lookup
  compares the provider id exactly. So a provider id over 255 characters
  that ends in spaces logs in once, with the cut id stored. Every later
  login with the same body finds no owner, tries to insert the same identity
  again, and gets 500 (`AuthRoutes.LoginTwice`).

## Model

| member | source | states |
|---|---|---|
| Schema.Store.constructor | backend/src/db/schema.ts:9-43 | A fresh database has three empty tables and satisfies the invariant. |
| Schema.Store.InsertUser | backend/src/db/schema.ts:9-18 | Takes a row whose texts have already been through their VARCHAR casts. The insert succeeds exactly when the row breaks no key, uniqueness or width constraint. On success the row is appended; otherwise nothing changes. The invariant is kept. |
| Schema.Store.InsertSpot | backend/src/db/schema.ts:23-30 | Takes a row whose name has already been through its VARCHAR cast. The insert succeeds exactly when the id is new, the name and DECIMAL(10, 2) distance fit, and the creator exists. On success the row is appended; otherwise nothing changes. |
| Schema.Store.InsertRun | backend/src/db/schema.ts:35-43 | The insert succeeds exactly when the id is new, the spot and the user exist, and the lap count fits INTEGER. On success the row is appended; otherwise nothing changes. |
| Schema.Store.ReplaceSpot | backend/src/db/schema.ts:23-30 | Overwrites one spot row, keeping its id and creator. The invariant is kept. |
| Schema.Store.SetPublicProfile | backend/src/db/schema.ts:15 | Only the flag of the user with that id changes. |
| Schema.Store.DeleteSpot | backend/src/db/schema.ts:37 | Removes the spot and, through the cascade, every run at it. The invariant is kept. |
| Schema.Store.DeleteUser | backend/src/db/schema.ts:28-38 | Removes the user and their runs. Their spots stay, with the creator set to NULL. |
| Schema.FindUser | backend/src/db/schema.ts:10 | Gives the index of a user with that id, or None exactly when no such user exists. |
| Schema.FindIdentity | backend/src/db/schema.ts:17 | Gives the index of a user holding the (provider, provider id) pair, or None exactly when no user holds it. |
| Schema.FindSpot | backend/src/db/schema.ts:24 | Gives the index of the spot with that id, or None exactly when there is none. |
| Schema.VarcharCast | backend/src/db/schema.ts:11-14 | Storing text in VARCHAR(n): text that fits is kept. Longer text is cut to its first n characters exactly when everything past them is spaces, and is refused otherwise. |
| Schema.Consistent | backend/src/db/schema.ts:9-43 | The store invariant: primary keys, the two UNIQUE constraints, column widths and ranges, the foreign keys, and positive lap counts and non-negative distances. |
| Schema.InsertUserConsistent | backend/src/db/schema.ts:9-18 | Appending a user that passes the constraints keeps the store consistent. |
| Schema.InsertSpotConsistent | backend/src/db/schema.ts:23-30 | Appending a spot that passes the constraints, with a distance of at least 0, keeps the store consistent. |
| Schema.InsertRunConsistent | backend/src/db/schema.ts:35-43 | Appending a run that passes the constraints, with at least one lap, keeps the store consistent. |
| Schema.ReplaceSpotConsistent | backend/src/db/schema.ts:23-30 | Replacing a spot row while keeping its id and creator keeps the store consistent. |
| Schema.SetPublicFlag | backend/src/db/schema.ts:15 | The users with the given id get the new flag. Every other row, and every other column, is unchanged. |
| Schema.SetPublicFlagConsistent | backend/src/db/schema.ts:9-18 | Changing profile flags keeps the store consistent. |
| Schema.SameIdsSameUsers | backend/src/db/schema.ts:10 | Two user tables with the same ids row by row contain the same ids. |
| Schema.ReleaseCreator | backend/src/db/schema.ts:28 | ON DELETE SET NULL: spots created by the deleted user lose their creator. Nothing else changes. |
| Schema.DeleteSpotRows | backend/src/db/schema.ts:37 | Afterwards the spots are exactly the other spots, and the runs are exactly those at other spots. Users are unchanged. |
| Schema.DeleteUserRows | backend/src/db/schema.ts:28-38 | Afterwards the users are exactly the others, and the runs are exactly those by others. Spots keep their positions; the deleted user's spots lose their creator. |
| Schema.DeleteSpotConsistent | backend/src/db/schema.ts:37 | Deleting a spot with its cascade keeps the store consistent. |
| Schema.DeleteUserConsistent | backend/src/db/schema.ts:28-38 | Deleting a user with both cascades keeps the store consistent. |
| Schema.DeleteUserKeepsRunReferences | backend/src/db/schema.ts:37-38 | After a user is deleted, every remaining run still has its spot and its user. |
| Schema.DeleteUserKeepsSpots | backend/src/db/schema.ts:26-28 | After a user is deleted, every spot still fits its columns, and a creator it still names exists. |
| Sequences.Filter | backend/src/routes/leaderboard.ts:32 | Keeps exactly the rows that satisfy the condition. |
| Sequences.FilterCons | backend/src/routes/leaderboard.ts:32 | A filter keeps the first row exactly when it satisfies the condition, then filters the rest. |
| Sequences.FilterKeepsAll | backend/src/routes/runs.ts:14 | A condition that every row meets filters nothing out. |
| Sequences.DistinctByAppend | backend/src/db/schema.ts:10-12 | Appending a row with a new key keeps the keys unique. |
| Sequences.DistinctByPrepend | backend/src/routes/leaderboard.ts:33 | A row with a new key can go in front of a list with unique keys. |
| Sequences.DistinctByTail | backend/src/db/schema.ts:10 | Dropping the first row keeps keys unique, and no later row shares its key. |
| Sequences.DistinctByReplace | backend/src/db/schema.ts:24 | Replacing a row with one of the same key keeps the keys unique. |
| Sequences.DistinctBySameKeys | backend/src/db/schema.ts:10-17 | Rewriting rows without changing their keys keeps a column unique. |
| Sequences.FilterDistinct | backend/src/db/schema.ts:37-38 | Removing rows keeps unique keys unique. |
| Sequences.DistinctByKeyDeterminesRow | backend/src/db/schema.ts:10-17 | With unique keys, a row is determined by its key. |
| Ordering.InsertDescPerm | backend/src/routes/leaderboard.ts:35 | Inserting into a sorted list adds exactly that element. |
| Ordering.InsertDescSorted | backend/src/routes/leaderboard.ts:35 | Inserting into a list sorted in descending order keeps it sorted. |
| Ordering.SortDescCorrect | backend/src/routes/leaderboard.ts:35-36 | `ORDER BY key DESC` gives a non-increasing permutation of its input. |
| Ordering.SortDescMembers | backend/src/routes/leaderboard.ts:35 | Sorting neither adds nor drops elements. |
| Ordering.InsertDescDistinct | backend/src/routes/leaderboard.ts:35 | Inserting a row with a new key into a list keeps that key unique. |
| Ordering.SortDescDistinct | backend/src/routes/leaderboard.ts:35 | Sorting keeps a unique column unique. |
| Numbers.ParseIntOfNumeral | backend/src/routes/leaderboard.ts:10 | `parseInt` reads back the decimal numeral of every integer. |
| Numbers.ParseIntOfNatural | backend/src/routes/spots.ts:124-145 | `parseInt` reads back the numeral of every natural number. |
| Numbers.ParseSignedOfNumeral | backend/src/routes/leaderboard.ts:10 | An integer's numeral starts with no white space and, read with its sign, gives the integer back. |
| Numbers.JsParseInt | backend/src/routes/leaderboard.ts:10 | `parseInt` gives NaN for text that, after leading white space, is empty or starts with neither a sign nor a digit. |
| Numbers.DigitsValueOfNumeral | backend/src/routes/leaderboard.ts:10 | The digits of a numeral have the value of the number they print. |
| Numbers.NumeralReadsBack | backend/src/routes/leaderboard.ts:10 | The digits of a numeral, read without a sign, give the number back. |
| Numbers.IntegerColumn | backend/src/db/schema.ts:39 | An INTEGER column accepts exactly the integral numbers in the 32-bit range, and stores the same value. |
| Numbers.RoundToCents | backend/src/db/schema.ts:26 | A number is rounded half away from zero to two decimals; the sign is kept. |
| Numbers.DecimalCents | backend/src/db/schema.ts:26 | DECIMAL(10, 2) accepts exactly the rounded values below 10^8 in magnitude, and stores the rounded value. |
| Numbers.DecimalCentsExact | backend/src/db/schema.ts:26 | A value with two decimals that fits is stored exactly. |
| Numbers.TinyPositiveRoundsToZero | backend/src/routes/spots.ts:74-82 | A positive distance of 0.004 passes the handler's check and is stored as 0. |
| Basics.OrNull | backend/src/routes/runs.ts:60 | `field \|\| null` is NULL exactly for a falsy field; otherwise it is the given non-empty text. |
| Basics.ServerError | backend/src/routes/runs.ts:73-76 | A caught database error is a 500 reply. |
| Aggregates.TotalAppend | backend/src/routes/runs.ts:87-100 | A SUM over one more row adds that row's term. |
| Aggregates.TotalSame | backend/src/routes/runs.ts:103-111 | SUMs of terms that agree on every row are equal. |
| Aggregates.TotalBounded | backend/src/routes/runs.ts:87-100 | A SUM of terms bounded row by row is bounded the same way. |
| Aggregates.TotalScaled | backend/src/routes/runs.ts:103-111 | A SUM of terms that are d times other terms is d times their SUM. |
| Aggregates.MyStats | backend/src/routes/runs.ts:80-124 | The caller's statistics. In a consistent store total laps equal lifetime runs, this year's runs lie between 0 and lifetime runs, and the total distance is at least 0. |
| Aggregates.TotalLapsAreLifetimeRuns | backend/src/routes/runs.ts:95-111 | In a consistent store (where every run's spot exists) the inner-join lap sum equals the plain lap sum. |
| Aggregates.YearLapsWithinLifetime | backend/src/routes/runs.ts:87-100 | The laps inside the inclusive year window are between 0 and the lifetime laps. |
| Aggregates.DistanceNonNegative | backend/src/routes/runs.ts:103-111 | The SUM of laps times spot distance is at least 0. |
| Aggregates.DistanceTermNonNegative | backend/src/routes/runs.ts:105 | One run's laps times its spot's distance is at least 0. |
| Aggregates.StatsWithoutRuns | backend/src/routes/runs.ts:113-119 | A user without runs has all four statistics 0 (COALESCE). |
| Aggregates.DistanceAtOneSpotLength | backend/src/routes/runs.ts:103-111 | When all of a user's runs are at spots of one length d, the total distance is d times the total laps. |
| Aggregates.StatsAfterNewRun | backend/src/routes/runs.ts:56-61 | Logging a run leaves every other user's four figures unchanged. For its owner it adds its laps to lifetime runs, and to this year's runs exactly when its date is inside the window. When its spot exists it also adds its laps to total laps, and laps times the spot's distance to the total distance. |
| Leaderboard.ParseBoardType | backend/src/routes/leaderboard.ts:9 | An absent `type` means runsThisYear. A given `type` selects a board exactly when it is one of the four names, and then that board. |
| Leaderboard.ParseBoardTypeOfName | backend/src/routes/leaderboard.ts:19-106 | Each of the four names selects its own board. |
| Leaderboard.EffectiveLimit | backend/src/routes/leaderboard.ts:9-10 | An absent `limit` gives 100. The limit is at most 1000 and never 0. |
| Leaderboard.EffectiveLimitOfNumeral | backend/src/routes/leaderboard.ts:10 | For `limit=k`: 0 gives 100, a value above 1000 gives 1000, and anything else (a negative value included) is kept. |
| Leaderboard.EffectiveLimitOfNonNumber | backend/src/routes/leaderboard.ts:10 | A `limit` that parses to NaN falls back to 100. |
| Leaderboard.AggregateOf | backend/src/routes/leaderboard.ts:22-33 | One grouped row per user: the user's id and name, total laps equal to lifetime runs (the same SUM), and all figures 0 for a user without runs (COALESCE). |
| Leaderboard.PublicAggregates | backend/src/routes/leaderboard.ts:23-33 | One aggregate row for every public user, and only for public users. |
| Leaderboard.Ranking | backend/src/routes/leaderboard.ts:32-35 | The candidates before LIMIT are a permutation of the public users' rows whose metric is positive. |
| Leaderboard.Ranked | backend/src/routes/leaderboard.ts:110-118 | Entry i has rank i + 1 and carries the i-th row with all four figures. |
| Leaderboard.Board | backend/src/routes/leaderboard.ts:32-36 | At most `limit` entries, ranked 1..n in order, each with its metric above 0, and non-increasing in the metric. |
| Leaderboard.RankingOrdered | backend/src/routes/leaderboard.ts:34-35 | The candidates before LIMIT all have a positive metric and are sorted by it, largest first. |
| Leaderboard.GetLeaderboard | backend/src/routes/leaderboard.ts:8-123 | An unknown `type` gives 400 "Invalid leaderboard type". A negative limit gives 500. Otherwise the reply is 200 with the board of at most min(limit, 1000) entries. |
| Leaderboard.BoardEntriesArePublicUsers | backend/src/routes/leaderboard.ts:23-33 | Every entry is the aggregate row of a public user. |
| Leaderboard.BoardIdsArePublic | backend/src/routes/leaderboard.ts:32 | Every entry's user id belongs to a public user. |
| Leaderboard.BoardListsUsersOnce | backend/src/routes/leaderboard.ts:29-36 | When user ids are unique, no user appears twice on a board. |
| Leaderboard.PublicAggregatesDistinct | backend/src/routes/leaderboard.ts:29-33 | `GROUP BY u.id` over unique ids gives one row per user id. |
| Leaderboard.BoardLeavesOutOnlyLowerRanked | backend/src/routes/leaderboard.ts:34-36 | A public user with a positive metric is on the board, unless the board is full and their metric is no greater than the last entry's. |
| Leaderboard.PrivateUsersNeverListed | backend/src/routes/leaderboard.ts:32 | When user ids are unique, a user with a private profile appears on no board. |
| Leaderboard.PublicIdsExclude | backend/src/db/schema.ts:10 | With unique ids, entries that all name public users name no private user. |
| Leaderboard.HidingRemovesFromBoards | backend/src/routes/leaderboard.ts:32 | After a user turns their profile private, they are on no board, whatever the rest of the store holds. |
| Leaderboard.HiddenIdNotPublic | backend/src/routes/auth.ts:88-91 | After a user's flag is cleared, no public user has their id. |
| Leaderboard.BoardAgreesWithMyStats | backend/src/routes/leaderboard.ts:25-31 | In a consistent store the board's four figures for a user equal the ones GET /runs/me/stats reports to that user. |
| RunRoutes.ViewOf | backend/src/routes/runs.ts:10-15 | A joined row carries its own run. |
| RunRoutes.JoinSpots | backend/src/routes/runs.ts:14 | The inner join gives one row for each run whose spot exists, and none for the others, in the order of the runs. |
| RunRoutes.JoinSpotsKeepsAll | backend/src/routes/runs.ts:14 | When every run has its spot, the join drops nothing and keeps the order. |
| RunRoutes.JoinSpotsFrom | backend/src/routes/runs.ts:14 | Every joined row comes from one of the input runs. |
| RunRoutes.JoinSpotsJoined | backend/src/routes/runs.ts:11-14 | Every joined row carries its spot's name and distance. |
| RunRoutes.JoinSpotsSorted | backend/src/routes/runs.ts:14-16 | Joining runs that are sorted by date, newest first, gives rows in the same order. |
| RunRoutes.JoinSpotsNotAfter | backend/src/routes/runs.ts:14 | Runs logged no later than d give joined rows logged no later than d. |
| RunRoutes.ListMyRuns | backend/src/routes/runs.ts:8-35 | GET /runs/me lists only the caller's runs from the store, newest `date_logged` first. |
| RunRoutes.MyRunsAreComplete | backend/src/routes/runs.ts:10-17 | In a consistent store the list holds each of the caller's runs exactly once. |
| RunRoutes.RunsOf | backend/src/routes/runs.ts:19-29 | The run column of the joined rows, in order. |
| RunRoutes.RunsOfCons | backend/src/routes/runs.ts:19-29 | The run column of a row followed by more rows is that row's run, then the rest. |
| RunRoutes.LoggedAt | backend/src/routes/runs.ts:60 | `dateLogged \|\| new Date()`: a falsy date is now; otherwise the database's conversion of the text. |
| RunRoutes.NewRun | backend/src/routes/runs.ts:56-61 | The inserted row belongs to the caller and has the given spot and lap count (integral, at least 1). Falsy notes become NULL; the date defaults to now. It is None exactly when the lap count or the date does not convert. |
| RunRoutes.CreateRun | backend/src/routes/runs.ts:38-77 | POST /runs gives, in order: 400 for missing fields; 400 for a count that is not a positive number; 404 for an unknown spot. It gives 201 exactly when the row converts and inserts, and then the run is appended and nothing else changes. Once those three checks pass, every failure is 500 "Internal server error". Every failure leaves the store unchanged. |
| SpotRoutes.CreatorName | backend/src/routes/spots.ts:14 | The LEFT JOIN gives a name exactly when the spot has a creator whose row exists. |
| SpotRoutes.CreatorNameShown | backend/src/routes/spots.ts:10-16 | In a consistent store a spot's creator name is that user's name. |
| SpotRoutes.SpotsOf | backend/src/routes/spots.ts:17-25 | The spot column of the list, in order. |
| SpotRoutes.ListSpots | backend/src/routes/spots.ts:8-31 | GET /spots lists every spot exactly once (a permutation), with its creator's name, newest `created_at` first. |
| SpotRoutes.GetSpot | backend/src/routes/spots.ts:34-63 | GET /spots/:id is 200 exactly when the spot exists, with that spot and its creator's name; otherwise it is 404 "Spot not found". |
| SpotRoutes.GetSpotIsListed | backend/src/routes/spots.ts:34-63 | The single-spot view is one of the rows of the list. |
| SpotRoutes.NewSpot | backend/src/routes/spots.ts:78-83 | The inserted spot has the caller as creator, the name after its VARCHAR(255) cast, and the distance rounded to hundredths (at least 0). A falsy description becomes NULL. It is None exactly when the name cast or DECIMAL(10, 2) refuses its value. |
| SpotRoutes.PaddedNameIsCut | backend/src/routes/spots.ts:78-83 | A name of 255 characters followed by spaces is stored as those 255 characters, not refused. |
| SpotRoutes.CreateSpot | backend/src/routes/spots.ts:66-98 | POST /spots gives 400 for missing fields and 400 for a distance that is not a positive number. It gives 201 exactly when the row converts and inserts, and then the spot is appended. Once both checks pass, every failure is 500 "Internal server error". Every failure leaves the store unchanged. |
| SpotRoutes.Supplied | backend/src/routes/spots.ts:121-137 | Each column is in the SET list exactly when its field is defined in the body. |
| SpotRoutes.PlanUpdate | backend/src/routes/spots.ts:119-145 | The SET builder rejects an invalid distance, then an empty update. Otherwise it gives placeholders $1..$k in the order name, distance, description, one value per placeholder, and the id bound last at $(k+1) = values.length. |
| SpotRoutes.PushColumn | backend/src/routes/spots.ts:123-137 | One supplied field appends its `column = $k` clause with the next placeholder number and its bound value, and advances the counter. |
| SpotRoutes.NumberNext | backend/src/routes/spots.ts:121-137 | Pushing a supplied column takes the next placeholder, and binds that column's value. |
| SpotRoutes.BindIdLast | backend/src/routes/spots.ts:143-145 | After the supplied fields are numbered, pushing the id binds it to the last placeholder. |
| SpotRoutes.JoinClauses | backend/src/routes/spots.ts:145 | `updates.join(', ')`: no clauses give empty text, and one clause gives its own text. |
| SpotRoutes.JoinClausesAppend | backend/src/routes/spots.ts:145 | Joining two non-empty lists of clauses puts exactly one ", " between their joins. |
| SpotRoutes.SuppliedClauses | backend/src/routes/spots.ts:123-137 | One `column = $k` clause per supplied column, numbered from 1 in the order name, distance, description. |
| SpotRoutes.UpdateTextOfPlan | backend/src/routes/spots.ts:119-147 | The statement a built plan sends is `UPDATE spots SET` with the supplied columns' clauses numbered from 1, then `WHERE id = $(k+1)`. |
| SpotRoutes.UpdateNameAndDescriptionText | backend/src/routes/spots.ts:119-147 | A PUT with a name and a description sends `UPDATE spots SET name = $1, description = $2 WHERE id = $3`. |
| SpotRoutes.NameAndDescriptionClauses | backend/src/routes/spots.ts:145 | The name and description clauses join to `name = $1, description = $2`. |
| SpotRoutes.PlaceholderNumeralsReadBack | backend/src/routes/spots.ts:123-145 | Each `$k` placeholder written into the statement reads back as its own position, and the WHERE placeholder as the number of values. |
| SpotRoutes.Assign | backend/src/routes/spots.ts:124-136 | One SET clause changes only its own column (the name through its VARCHAR cast). The id, creator and creation time are kept. |
| SpotRoutes.Execute | backend/src/routes/spots.ts:144-148 | Running the SET list never changes the id, the creator or the creation time, and leaves the name alone when no clause sets it. |
| SpotRoutes.Patched | backend/src/routes/spots.ts:119-148 | The effect of a PUT on the spot. Absent fields keep their values; supplied ones take the converted value (the name after its VARCHAR(255) cast). Id, creator and creation time never change. It fails exactly for a NULL name, a name the cast refuses or an overflowing distance. |
| SpotRoutes.ExecuteSuffix | backend/src/routes/spots.ts:143-148 | Running the numbered SET clauses from position k on applies the supplied columns from k on. |
| SpotRoutes.ApplySuppliedIsPatched | backend/src/routes/spots.ts:121-137 | Setting the supplied columns one by one gives the field-by-field effect. |
| SpotRoutes.ExecuteNumberedIsPatched | backend/src/routes/spots.ts:119-148 | Every placeholder of a built statement refers to a bound value, and running the statement has exactly the field-by-field effect. |
| SpotRoutes.UpdateSpot | backend/src/routes/spots.ts:101-163 | PUT /spots/:id gives, in order: 404 for an unknown spot; 403 for a caller who is not the creator; 400 for an invalid distance; 400 for no fields. It gives 200 exactly when the update applies, and then only that spot changes, to the patched row. Once those four checks pass, every failure is 500 "Internal server error". Every failure leaves the store unchanged. |
| SpotRoutes.DeleteSpot | backend/src/routes/spots.ts:166-189 | DELETE /spots/:id gives 404 for an unknown spot and 403 for a caller who is not the creator. It succeeds exactly for the creator, and then deletes the spot and its runs. Every failure leaves the store unchanged. |
| AuthRoutes.NewUser | backend/src/routes/auth.ts:31-36 | A user created at first login has the given identity, email and name, each after its VARCHAR cast, and a public profile. It is None exactly when a cast refuses a value. |
| AuthRoutes.IdentityOwner | backend/src/routes/auth.ts:22-25 | The owner of a (provider, provider id) pair, or None exactly when no user holds it. |
| AuthRoutes.OwnerIsUnique | backend/src/db/schema.ts:17 | In a consistent store the owner found is the user holding the pair. |
| AuthRoutes.LongIdentityHasNoOwner | backend/src/routes/auth.ts:22-25 | In a consistent store a provider id longer than its column matches no user. |
| AuthRoutes.VarcharCastKeeps | backend/src/db/schema.ts:11-14 | Text that fits its column is stored unchanged. |
| AuthRoutes.Login | backend/src/routes/auth.ts:9-50 | POST /auth/login gives 400 for missing fields and 400 for an unknown provider. A known identity logs in as its user and changes nothing. A new identity succeeds exactly when the public user row converts and inserts; any other failure (a taken email included) is 500. The token is signed for the user and the login time. On success the user holds the stored identity. Every failure leaves the store unchanged. |
| AuthRoutes.LoginTwice | backend/src/routes/auth.ts:22-45 | After a successful login, exactly one user holds the stored identity. When the provider id fits its column, a second login at any time is the same user. A longer, space-padded one makes the second login fail with 500. |
| AuthRoutes.GetMe | backend/src/routes/auth.ts:53-77 | GET /auth/me is 200 with the caller's profile exactly when the caller exists; otherwise it is 404 "User not found". |
| AuthRoutes.GetMeReturnsTheUser | backend/src/routes/auth.ts:64-72 | In a consistent store the profile shown is that user's row, without the provider id. |
| AuthRoutes.UpdateProfile | backend/src/routes/auth.ts:80-98 | PATCH /auth/me refuses a non-boolean with 400 and changes nothing. Otherwise only the caller's flag changes, and the reply is success. |
| AuthRoutes.ToggleShowsInProfile | backend/src/routes/auth.ts:88-91 | After the toggle the caller's profile shows the new flag and nothing else, and every other user's profile is unchanged. |
| Middleware.VerifyToken | backend/src/middleware/auth.ts:14-21 | An exception from verification becomes null, and never escapes; otherwise the result is the decoded user id. |
| Middleware.Split | backend/src/middleware/auth.ts:25 | `split(' ')` gives at least one field, and no field contains a space. |
| Middleware.JoinSplit | backend/src/middleware/auth.ts:25 | Joining the fields with single spaces gives the header back. |
| Middleware.SplitWord | backend/src/middleware/auth.ts:25 | Text without a space is a single field. |
| Middleware.SplitTwoWords | backend/src/middleware/auth.ts:25 | Two words joined by one space are exactly two fields. |
| Middleware.SplitPrefixFields | backend/src/middleware/auth.ts:25 | Text followed by a space and more text splits into the fields of the first part, then more fields. |
| Middleware.BearerToken | backend/src/middleware/auth.ts:24-25 | There is a token exactly when the header is present, non-empty and has at least two space-separated fields; the token is the second field. |
| Middleware.Authenticate | backend/src/middleware/auth.ts:23-38 | 401 exactly when there is no non-empty token. 403 exactly when the token does not verify to a non-empty user id. Otherwise the request proceeds as the verified user. |
| Middleware.AnySchemeAccepted | backend/src/middleware/auth.ts:25 | The first word is never checked: any scheme word followed by a token gives that token. |
| Middleware.NoSpaceIsUnauthenticated | backend/src/middleware/auth.ts:25-29 | A header without a space gets 401. |
| Middleware.DoubleSpaceIsUnauthenticated | backend/src/middleware/auth.ts:25-29 | Two spaces after the scheme leave the token empty, which gets 401. |
| Middleware.Exchange.constructor | backend/src/middleware/auth.ts:23 | A request starts with its header, no user id, no status and no call to `next`. |
| Middleware.Exchange.AuthenticateToken | backend/src/middleware/auth.ts:23-38 | On 401 or 403 it writes the status, leaves `userId` alone and does not call `next`. Otherwise it sets `userId` to the verified id, calls `next` exactly once and writes no status. |

## Left out

- The web and mobile front ends, the mobile HTTP client, `formatDistance`,
  and the build and configuration scripts. These are user interface and I/O.
- `generateToken` and `jwt.verify`, which are JWT cryptography. They are the
  function parameters `sign` and `jwtVerify`. `sign` takes the user id and
  the login time, because the token carries its issue time and a 30-day
  expiry; two logins at different times may get different tokens. The 401 and 403 reply bodies
  are not modelled, only the status codes.
- The pg connection pool, running the DDL, and server start-up. The schema
  is used only as the source of the store invariant.
- Concurrency between requests. Each request is one atomic step on the
  store, so the check-then-insert races in login, in run creation and in the
  creator check before update or delete are not modelled.
- The clock and time zones. `now`, `yearStart` and `yearEnd` are
  parameters, and timestamps are integers.
- How the database parses text into a timestamp. This is the
  `parseTimestamp` parameter of run creation, which is None for text that is
  not a timestamp.
- The `parseInt`/`parseFloat` conversions of database values in the reply
  mappers (floating point). Replies carry the exact stored values.
- The order of rows that tie on the sort key, in the leaderboard, in the
  run list and in the spot list. The SQL leaves it unspecified; the model
  picks one order and states only the ordering the SQL guarantees.
- Leaderboard.EffectiveLimit: `parseInt` is modelled on exact integers. The
  loss of precision of JavaScript numbers above 2^53 is not modelled.
- RunRoutes.NewRun, SpotRoutes.NewSpot, SpotRoutes.Patched: JSON request
  numbers are exact reals (`JsValue.Num`), not IEEE doubles, so these see no
  rounding. A numeral such as `1.0000000000000000001` becomes the double 1,
  which the source stores; the model refuses it as non-integral. A
  `distanceMeters` of `1e-400` becomes 0, which the source refuses with 400;
  the model stores it as 0.00.
- The uuid text format. A malformed id makes Postgres raise an error (500),
  while the model compares ids as plain text and finds no row (404).
- Request bodies whose text fields hold JSON numbers, booleans, arrays or
  objects. Text fields are absent, null or a string.
- Repeated query parameters (`?type=a&type=b`), which Express hands over as
  an array.
- The database-error path (500) of the three read-only handlers without a
  `Reply`: `Aggregates.MyStats` (GET /runs/me/stats),
  `RunRoutes.ListMyRuns` (GET /runs/me) and `SpotRoutes.ListSpots`
  (GET /spots).
- The response field names (camelCase mapping of the columns). Payloads are
  the model's rows.
