/** GET /leaderboard: the `type` and `limit` query parameters, the per-user
    aggregate row of the SQL query, and the pipeline public users -> HAVING
    metric > 0 -> ORDER BY metric DESC -> LIMIT -> rank = index + 1. */
module Leaderboard {
  import opened Basics
  import opened Numbers
  import opened Sequences
  import opened Ordering
  import opened Schema
  import opened Aggregates

  /** The four values of `type`, one per `case` of the handler's switch. */
  datatype BoardType = RunsThisYear | LifetimeRuns | TotalDistance | TotalLaps

  function TypeName(b: BoardType): string
  {
    match b
    case RunsThisYear => "runsThisYear"
    case LifetimeRuns => "lifetimeRuns"
    case TotalDistance => "totalDistance"
    case TotalLaps => "totalLaps"
  }

  /** The `type` query parameter: absent means "runsThisYear"; a string that
      is none of the four names selects no query. */
  function ParseBoardType(q: Option<string>): (r: Option<BoardType>)
    ensures q.None? ==> r == Some(RunsThisYear)
    ensures q.Some? ==> (r.Some? <==> exists b :: TypeName(b) == q.value)
    ensures q.Some? && r.Some? ==> TypeName(r.value) == q.value
  {
    match q
    case None => Some(RunsThisYear)
    case Some(s) =>
      if s == TypeName(RunsThisYear) then Some(RunsThisYear)
      else if s == TypeName(LifetimeRuns) then Some(LifetimeRuns)
      else if s == TypeName(TotalDistance) then Some(TotalDistance)
      else if s == TypeName(TotalLaps) then Some(TotalLaps)
      else (assert forall b :: TypeName(b) != s; None)
  }

  /** Each of the four names selects its own board. */
  lemma ParseBoardTypeOfName(b: BoardType)
    ensures ParseBoardType(Some(TypeName(b))) == Some(b)
  {
  }

  /** `Math.min(parseInt(limit) || 100, 1000)`: NaN and 0 fall back to 100,
      the value is capped at 1000, and there is no lower bound. */
  function EffectiveLimit(q: Option<string>): (n: int)
    ensures q.None? ==> n == 100
    ensures n <= 1000 && n != 0
  {
    var parsed := match q
      case None => Some(100)
      case Some(s) => JsParseInt(s);
    match parsed
    case None => 100
    case Some(v) => if v == 0 then 100 else if v < 1000 then v else 1000
  }

  /** What `limit=k` yields for a decimal numeral: 0 becomes 100, anything
      above 1000 becomes 1000, a negative number passes through. */
  lemma EffectiveLimitOfNumeral(k: int)
    ensures k == 0 ==> EffectiveLimit(Some(IntToString(k))) == 100
    ensures k != 0 ==> EffectiveLimit(Some(IntToString(k))) == if k < 1000 then k else 1000
  {
    ParseIntOfNumeral(k);
  }

  /** A `limit` with no leading digits is NaN, and falls back to 100. */
  lemma EffectiveLimitOfNonNumber(s: string)
    requires JsParseInt(s).None?
    ensures EffectiveLimit(Some(s)) == 100
  {
  }

  /** One row of the grouped query: a user with the four aggregates over the
      runs LEFT JOINed to the user and to their spots. */
  datatype Aggregate = Aggregate(userId: string, userName: string, runsThisYear: int,
                                 lifetimeRuns: int, totalDistance: int, totalLaps: int)

  /** A row of the reply: its rank and the full aggregate row, whatever
      `type` was asked for (the JSON object lists the same fields flat). */
  datatype Entry = Entry(rank: int, row: Aggregate)

  /** The grouped row of user `u`. `total_laps` is the same SUM as
      `lifetime_runs`; a run whose spot row is missing adds nothing to the
      distance (the LEFT JOIN gives NULL, which SUM skips). */
  function AggregateOf(t: Tables, u: User, yearStart: int, yearEnd: int): (a: Aggregate)
    ensures a.userId == u.id && a.userName == u.name
    ensures a.totalLaps == a.lifetimeRuns
    ensures (forall r :: r in t.runs ==> r.userId != u.id) ==>
      a.runsThisYear == 0 && a.lifetimeRuns == 0 && a.totalDistance == 0
  {
    var a := Aggregate(u.id, u.name,
      Total(t.runs, YearTerm(u.id, yearStart, yearEnd)),
      Total(t.runs, LapsTerm(u.id)),
      Total(t.runs, DistanceTerm(t.spots, u.id)),
      Total(t.runs, LapsTerm(u.id)));
    if forall r :: r in t.runs ==> r.userId != u.id then
      StatsWithoutRuns(t, u.id, yearStart, yearEnd);
      a
    else a
  }

  function Metric(a: Aggregate, b: BoardType): int
  {
    match b
    case RunsThisYear => a.runsThisYear
    case LifetimeRuns => a.lifetimeRuns
    case TotalDistance => a.totalDistance
    case TotalLaps => a.totalLaps
  }

  function MetricKey(b: BoardType): Aggregate -> int { (a: Aggregate) => Metric(a, b) }

  function PositiveIn(b: BoardType): Aggregate -> bool { (a: Aggregate) => Metric(a, b) > 0 }

  /** `WHERE u.is_public_profile = true GROUP BY u.id`: one aggregate per
      public user of `users`. */
  function PublicAggregates(t: Tables, users: seq<User>, yearStart: int, yearEnd: int): (r: seq<Aggregate>)
    ensures forall u :: u in users && u.isPublicProfile ==> AggregateOf(t, u, yearStart, yearEnd) in r
    ensures forall a :: a in r ==>
      exists u :: u in users && u.isPublicProfile && a == AggregateOf(t, u, yearStart, yearEnd)
  {
    if users == [] then []
    else
      var rest := PublicAggregates(t, users[1..], yearStart, yearEnd);
      assert forall u :: u in users ==> u == users[0] || u in users[1..];
      if users[0].isPublicProfile then [AggregateOf(t, users[0], yearStart, yearEnd)] + rest else rest
  }

  /** HAVING metric > 0, ORDER BY metric DESC: the candidates before LIMIT. */
  function Ranking(t: Tables, b: BoardType, yearStart: int, yearEnd: int): (r: seq<Aggregate>)
    ensures multiset(r) == multiset(Filter(PublicAggregates(t, t.users, yearStart, yearEnd), PositiveIn(b)))
  {
    var candidates := Filter(PublicAggregates(t, t.users, yearStart, yearEnd), PositiveIn(b));
    SortDescCorrect(candidates, MetricKey(b));
    SortDesc(candidates, MetricKey(b))
  }

  /** `rows.map((row, index) => ({ rank: index + 1, ... }))`. */
  function Ranked(rows: seq<Aggregate>): (r: seq<Entry>)
    ensures |r| == |rows|
    ensures forall i :: 0 <= i < |r| ==> r[i] == Entry(i + 1, rows[i])
  {
    seq(|rows|, i requires 0 <= i < |rows| => Entry(i + 1, rows[i]))
  }

  /** The board for a valid `type` and a non-negative limit: at most `limit`
      entries, ranked 1..n in order, every selected metric positive, the
      metric non-increasing down the board. */
  function Board(t: Tables, b: BoardType, limit: int, yearStart: int, yearEnd: int): (r: seq<Entry>)
    requires limit >= 0
    ensures |r| <= limit
    ensures forall i :: 0 <= i < |r| ==> r[i].rank == i + 1 && Metric(r[i].row, b) > 0
    ensures forall i, j :: 0 <= i < j < |r| ==> Metric(r[i].row, b) >= Metric(r[j].row, b)
  {
    var rows := Ranking(t, b, yearStart, yearEnd);
    RankingOrdered(t, b, yearStart, yearEnd);
    var n := if limit < |rows| then limit else |rows|;
    Ranked(rows[..n])
  }

  /** The candidates are sorted by the metric, and every one has a positive
      metric. */
  lemma RankingOrdered(t: Tables, b: BoardType, yearStart: int, yearEnd: int)
    ensures var rows := Ranking(t, b, yearStart, yearEnd);
      (forall i :: 0 <= i < |rows| ==> Metric(rows[i], b) > 0)
      && (forall i, j :: 0 <= i < j < |rows| ==> Metric(rows[i], b) >= Metric(rows[j], b))
  {
    var candidates := Filter(PublicAggregates(t, t.users, yearStart, yearEnd), PositiveIn(b));
    var rows := Ranking(t, b, yearStart, yearEnd);
    SortDescCorrect(candidates, MetricKey(b));
    SortDescMembers(candidates, MetricKey(b));
    forall i | 0 <= i < |rows| ensures Metric(rows[i], b) > 0 {
      assert rows[i] in rows;
    }
    forall i, j | 0 <= i < j < |rows| ensures Metric(rows[i], b) >= Metric(rows[j], b) {
      assert MetricKey(b)(rows[i]) >= MetricKey(b)(rows[j]);
    }
  }

  /** The handler. An unknown `type` is rejected before any query; a
      negative limit reaches Postgres, which refuses a negative LIMIT. */
  function GetLeaderboard(t: Tables, typeParam: Option<string>, limitParam: Option<string>,
                          yearStart: int, yearEnd: int): (r: Reply<seq<Entry>>)
    ensures ParseBoardType(typeParam).None? ==> r == Fail(400, "Invalid leaderboard type")
    ensures ParseBoardType(typeParam).Some? && EffectiveLimit(limitParam) < 0 ==> r.Fail? && r.status == 500
    ensures r.Ok? <==> ParseBoardType(typeParam).Some? && EffectiveLimit(limitParam) > 0
    ensures r.Ok? ==> r.status == 200 && |r.payload| <= EffectiveLimit(limitParam) <= 1000
    ensures r.Ok? ==> r.payload == Board(t, ParseBoardType(typeParam).value, EffectiveLimit(limitParam), yearStart, yearEnd)
  {
    match ParseBoardType(typeParam)
    case None => Fail(400, "Invalid leaderboard type")
    case Some(b) =>
      var limit := EffectiveLimit(limitParam);
      if limit < 0 then ServerError()
      else Ok(200, Board(t, b, limit, yearStart, yearEnd))
  }

  // ---------------------------------------------------------------------
  // What the board contains

  /** Every entry is the aggregate row of a public user. */
  lemma BoardEntriesArePublicUsers(t: Tables, b: BoardType, limit: int, yearStart: int, yearEnd: int)
    requires limit >= 0
    ensures forall e :: e in Board(t, b, limit, yearStart, yearEnd) ==>
      exists u :: u in t.users && u.isPublicProfile && e.row == AggregateOf(t, u, yearStart, yearEnd)
  {
    var candidates := Filter(PublicAggregates(t, t.users, yearStart, yearEnd), PositiveIn(b));
    SortDescMembers(candidates, MetricKey(b));
    var rows := Ranking(t, b, yearStart, yearEnd);
    var r := Board(t, b, limit, yearStart, yearEnd);
    forall e | e in r
      ensures exists u :: u in t.users && u.isPublicProfile && e.row == AggregateOf(t, u, yearStart, yearEnd)
    {
      var i :| 0 <= i < |r| && r[i] == e;
      assert e.row == rows[i] && rows[i] in rows;
    }
  }

  /** A public user with a positive metric is on the board, unless the board
      is full and their metric is at most the last entry's. */
  lemma BoardLeavesOutOnlyLowerRanked(t: Tables, b: BoardType, limit: int, yearStart: int, yearEnd: int, u: User)
    requires limit >= 0
    requires u in t.users && u.isPublicProfile && Metric(AggregateOf(t, u, yearStart, yearEnd), b) > 0
    ensures var r := Board(t, b, limit, yearStart, yearEnd);
            (exists i :: 0 <= i < |r| && r[i].row == AggregateOf(t, u, yearStart, yearEnd))
            || (|r| == limit && (limit > 0 ==>
                  Metric(AggregateOf(t, u, yearStart, yearEnd), b) <= Metric(r[limit - 1].row, b)))
  {
    var a := AggregateOf(t, u, yearStart, yearEnd);
    var candidates := Filter(PublicAggregates(t, t.users, yearStart, yearEnd), PositiveIn(b));
    assert a in candidates;
    SortDescMembers(candidates, MetricKey(b));
    SortDescCorrect(candidates, MetricKey(b));
    var rows := Ranking(t, b, yearStart, yearEnd);
    var r := Board(t, b, limit, yearStart, yearEnd);
    var j :| 0 <= j < |rows| && rows[j] == a;
    var n := if limit < |rows| then limit else |rows|;
    if j < n {
      assert r[j].row == a;
    } else {
      assert n == limit;
      if limit > 0 {
        assert r[limit - 1].row == rows[limit - 1];
        assert MetricKey(b)(rows[limit - 1]) >= MetricKey(b)(rows[j]);
      }
    }
  }

  /** Some public user has the id. */
  predicate PublicId(users: seq<User>, id: string)
  {
    exists u :: u in users && u.isPublicProfile && u.id == id
  }

  /** Every entry names a public user. */
  lemma BoardIdsArePublic(t: Tables, b: BoardType, limit: int, yearStart: int, yearEnd: int)
    requires limit >= 0
    ensures forall e :: e in Board(t, b, limit, yearStart, yearEnd) ==> PublicId(t.users, e.row.userId)
  {
    BoardEntriesArePublicUsers(t, b, limit, yearStart, yearEnd);
    forall e | e in Board(t, b, limit, yearStart, yearEnd) ensures PublicId(t.users, e.row.userId) {
      var u :| u in t.users && u.isPublicProfile && e.row == AggregateOf(t, u, yearStart, yearEnd);
      assert e.row.userId == u.id;
    }
  }

  function RowUserId(a: Aggregate): string { a.userId }

  /** With unique user ids, the grouped query has one row per user id. */
  lemma {:induction false} PublicAggregatesDistinct(t: Tables, users: seq<User>, yearStart: int, yearEnd: int)
    requires DistinctBy(users, UserIdOf)
    ensures DistinctBy(PublicAggregates(t, users, yearStart, yearEnd), RowUserId)
  {
    if users != [] {
      var tail := users[1..];
      DistinctByTail(users, UserIdOf);
      PublicAggregatesDistinct(t, tail, yearStart, yearEnd);
      var rest := PublicAggregates(t, tail, yearStart, yearEnd);
      if users[0].isPublicProfile {
        var a0 := AggregateOf(t, users[0], yearStart, yearEnd);
        forall a | a in rest ensures RowUserId(a) != RowUserId(a0) {
          var u :| u in tail && u.isPublicProfile && a == AggregateOf(t, u, yearStart, yearEnd);
          assert UserIdOf(u) != UserIdOf(users[0]);
        }
        DistinctByPrepend(a0, rest, RowUserId);
      }
    }
  }

  /** No user is listed twice on a board. */
  lemma BoardListsUsersOnce(t: Tables, b: BoardType, limit: int, yearStart: int, yearEnd: int)
    requires DistinctBy(t.users, UserIdOf) && limit >= 0
    ensures var r := Board(t, b, limit, yearStart, yearEnd);
      forall i, j :: 0 <= i < j < |r| ==> r[i].row.userId != r[j].row.userId
  {
    var aggregates := PublicAggregates(t, t.users, yearStart, yearEnd);
    PublicAggregatesDistinct(t, t.users, yearStart, yearEnd);
    FilterDistinct(aggregates, PositiveIn(b), RowUserId);
    SortDescDistinct(Filter(aggregates, PositiveIn(b)), MetricKey(b), RowUserId);
    var rows := Ranking(t, b, yearStart, yearEnd);
    var r := Board(t, b, limit, yearStart, yearEnd);
    forall i, j | 0 <= i < j < |r| ensures r[i].row.userId != r[j].row.userId {
      assert r[i].row == rows[i] && r[j].row == rows[j];
      assert RowUserId(rows[i]) != RowUserId(rows[j]);
    }
  }

  /** A user whose profile is private appears on no board. */
  lemma PrivateUsersNeverListed(t: Tables, b: BoardType, limit: int, yearStart: int, yearEnd: int, v: User)
    requires DistinctBy(t.users, UserIdOf) && limit >= 0
    requires v in t.users && !v.isPublicProfile
    ensures forall e :: e in Board(t, b, limit, yearStart, yearEnd) ==> e.row.userId != v.id
  {
    var r := Board(t, b, limit, yearStart, yearEnd);
    BoardIdsArePublic(t, b, limit, yearStart, yearEnd);
    PublicIdsExclude(t.users, r, v);
  }

  /** Entries that all name public users do not name a private one. */
  lemma PublicIdsExclude(users: seq<User>, entries: seq<Entry>, v: User)
    requires DistinctBy(users, UserIdOf) && v in users && !v.isPublicProfile
    requires forall e :: e in entries ==> PublicId(users, e.row.userId)
    ensures forall e :: e in entries ==> e.row.userId != v.id
  {
    forall e | e in entries ensures e.row.userId != v.id {
      var u :| u in users && u.isPublicProfile && u.id == e.row.userId;
      if u.id == v.id {
        var i :| 0 <= i < |users| && users[i] == u;
        DistinctByKeyDeterminesRow(users, UserIdOf, v, i);
      }
    }
  }

  /** Turning the profile private (PATCH /auth/me) takes the user off every
      board. */
  lemma HidingRemovesFromBoards(t: Tables, id: string, b: BoardType, limit: int, yearStart: int, yearEnd: int)
    requires limit >= 0
    ensures var hidden := t.(users := SetPublicFlag(t.users, id, false));
            forall e :: e in Board(hidden, b, limit, yearStart, yearEnd) ==> e.row.userId != id
  {
    var t' := t.(users := SetPublicFlag(t.users, id, false));
    BoardIdsArePublic(t', b, limit, yearStart, yearEnd);
    HiddenIdNotPublic(t.users, id);
  }

  /** After the flag of `id` is cleared, no public user has that id. */
  lemma HiddenIdNotPublic(users: seq<User>, id: string)
    ensures !PublicId(SetPublicFlag(users, id, false), id)
  {
    var us := SetPublicFlag(users, id, false);
    forall u | u in us && u.id == id ensures !u.isPublicProfile {
      var i :| 0 <= i < |us| && us[i] == u;
    }
  }

  /** In a consistent store the leaderboard's figures for a user are the
      ones GET /runs/me/stats reports to that user. */
  lemma BoardAgreesWithMyStats(t: Tables, u: User, yearStart: int, yearEnd: int)
    requires Consistent(t)
    ensures var a := AggregateOf(t, u, yearStart, yearEnd);
            var s := MyStats(t, u.id, yearStart, yearEnd);
            a.runsThisYear == s.runsThisYear && a.lifetimeRuns == s.lifetimeRuns
            && a.totalDistance == s.totalDistance && a.totalLaps == s.totalLaps
  {
    TotalLapsAreLifetimeRuns(t, u.id);
  }
}
