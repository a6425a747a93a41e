/** The per-user statistics: the SUM queries of GET /runs/me/stats and the
    aggregate columns of the leaderboard query. Each query sums one term per
    row of `runs`; the term is 0 for rows the WHERE clause, the join or the
    CASE expression leaves out. */
module Aggregates {
  import opened Basics
  import opened Schema

  /** `COALESCE(SUM(term), 0)` over the runs table (0 when no row counts). */
  function Total(runs: seq<Run>, term: Run -> int): int
  {
    if runs == [] then 0 else term(runs[0]) + Total(runs[1..], term)
  }

  /** `WHERE user_id = $1`, `SUM(number_of_runs)`. */
  function LapsTerm(userId: string): Run -> int
  {
    (r: Run) => if r.userId == userId then r.numberOfRuns else 0
  }

  /** The same with `date_logged >= yearStart AND date_logged <= yearEnd`:
      both bounds are inclusive. */
  function YearTerm(userId: string, yearStart: int, yearEnd: int): Run -> int
  {
    (r: Run) => if r.userId == userId && yearStart <= r.dateLogged <= yearEnd then r.numberOfRuns else 0
  }

  /** `SUM(r.number_of_runs)` over `runs JOIN spots`: a run whose spot row is
      missing has no joined row. */
  function JoinedLapsTerm(spots: seq<Spot>, userId: string): Run -> int
  {
    (r: Run) => if r.userId == userId && FindSpot(spots, r.spotId).Some? then r.numberOfRuns else 0
  }

  /** `SUM(r.number_of_runs * s.distance_meters)`, in hundredths of a metre.
      With an inner join a run without a spot has no row; with the
      leaderboard's LEFT JOIN its product is NULL, which SUM skips: the term
      is 0 either way. */
  function DistanceTerm(spots: seq<Spot>, userId: string): Run -> int
  {
    (r: Run) =>
      if r.userId != userId then 0
      else match FindSpot(spots, r.spotId)
        case None => 0
        case Some(i) => r.numberOfRuns * spots[i].distanceCents
  }

  /** The statistics of one user. The JSON reply carries the distance as a
      number of metres; here it stays in hundredths. */
  datatype UserStats = UserStats(userId: string, runsThisYear: int, lifetimeRuns: int,
                                 totalDistance: int, totalLaps: int)

  // ---------------------------------------------------------------------
  // Facts about sums

  lemma {:induction false} TotalAppend(runs: seq<Run>, r: Run, term: Run -> int)
    ensures Total(runs + [r], term) == Total(runs, term) + term(r)
  {
    if runs != [] {
      assert (runs + [r])[1..] == runs[1..] + [r];
      TotalAppend(runs[1..], r, term);
    }
  }

  lemma {:induction false} TotalSame(runs: seq<Run>, f: Run -> int, g: Run -> int)
    requires forall r :: r in runs ==> f(r) == g(r)
    ensures Total(runs, f) == Total(runs, g)
  {
    if runs != [] {
      TotalSame(runs[1..], f, g);
    }
  }

  lemma {:induction false} TotalBounded(runs: seq<Run>, f: Run -> int, g: Run -> int)
    requires forall r :: r in runs ==> 0 <= f(r) <= g(r)
    ensures 0 <= Total(runs, f) <= Total(runs, g)
  {
    if runs != [] {
      TotalBounded(runs[1..], f, g);
    }
  }

  lemma {:induction false} TotalScaled(runs: seq<Run>, f: Run -> int, g: Run -> int, d: int)
    requires forall r :: r in runs ==> f(r) == d * g(r)
    ensures Total(runs, f) == d * Total(runs, g)
  {
    if runs != [] {
      TotalScaled(runs[1..], f, g, d);
    }
  }

  // ---------------------------------------------------------------------
  // GET /runs/me/stats

  /** The three queries of the statistics handler, for the user the token
      names. An unknown user is not an error: every sum is 0. In a
      consistent store total laps equal lifetime runs, this year's laps are
      part of them, and nothing is negative. */
  function MyStats(t: Tables, userId: string, yearStart: int, yearEnd: int): (s: UserStats)
    ensures s.userId == userId
    ensures Consistent(t) ==> s.totalLaps == s.lifetimeRuns
    ensures Consistent(t) ==> 0 <= s.runsThisYear <= s.lifetimeRuns && s.totalDistance >= 0
  {
    var s := UserStats(userId,
      Total(t.runs, YearTerm(userId, yearStart, yearEnd)),
      Total(t.runs, LapsTerm(userId)),
      Total(t.runs, DistanceTerm(t.spots, userId)),
      Total(t.runs, JoinedLapsTerm(t.spots, userId)));
    if Consistent(t) then
      TotalLapsAreLifetimeRuns(t, userId);
      YearLapsWithinLifetime(t, userId, yearStart, yearEnd);
      DistanceNonNegative(t, userId);
      s
    else s
  }

  /** In a consistent store every run has its spot, so the joined lap sum
      equals the plain one. */
  lemma TotalLapsAreLifetimeRuns(t: Tables, userId: string)
    requires Consistent(t)
    ensures Total(t.runs, JoinedLapsTerm(t.spots, userId)) == Total(t.runs, LapsTerm(userId))
  {
    forall r | r in t.runs ensures JoinedLapsTerm(t.spots, userId)(r) == LapsTerm(userId)(r) {
      assert HasSpot(t.spots, r.spotId);
    }
    TotalSame(t.runs, JoinedLapsTerm(t.spots, userId), LapsTerm(userId));
  }

  lemma YearLapsWithinLifetime(t: Tables, userId: string, yearStart: int, yearEnd: int)
    requires Consistent(t)
    ensures 0 <= Total(t.runs, YearTerm(userId, yearStart, yearEnd)) <= Total(t.runs, LapsTerm(userId))
  {
    TotalBounded(t.runs, YearTerm(userId, yearStart, yearEnd), LapsTerm(userId));
  }

  lemma DistanceNonNegative(t: Tables, userId: string)
    requires Consistent(t)
    ensures Total(t.runs, DistanceTerm(t.spots, userId)) >= 0
  {
    var term := DistanceTerm(t.spots, userId);
    assert forall s :: s in t.spots ==> s.distanceCents >= 0;
    assert forall r :: r in t.runs ==> r.numberOfRuns >= 1;
    forall r | r in t.runs ensures 0 <= term(r) <= term(r) {
      DistanceTermNonNegative(t.spots, userId, r);
    }
    TotalBounded(t.runs, term, term);
  }

  lemma DistanceTermNonNegative(spots: seq<Spot>, userId: string, r: Run)
    requires forall s :: s in spots ==> s.distanceCents >= 0
    requires r.numberOfRuns >= 0
    ensures DistanceTerm(spots, userId)(r) >= 0
  {
    match FindSpot(spots, r.spotId)
    case None =>
    case Some(i) =>
      assert spots[i] in spots;
  }

  /** A user with no runs has all four statistics 0. */
  lemma StatsWithoutRuns(t: Tables, userId: string, yearStart: int, yearEnd: int)
    requires forall r :: r in t.runs ==> r.userId != userId
    ensures MyStats(t, userId, yearStart, yearEnd) == UserStats(userId, 0, 0, 0, 0)
  {
    TotalSame(t.runs, YearTerm(userId, yearStart, yearEnd), LapsTerm(userId));
    TotalSame(t.runs, DistanceTerm(t.spots, userId), LapsTerm(userId));
    TotalSame(t.runs, JoinedLapsTerm(t.spots, userId), LapsTerm(userId));
    TotalScaled(t.runs, LapsTerm(userId), LapsTerm(userId), 0);
  }

  /** When all of a user's runs are at spots of one distance `d`, the total
      distance is `d` times the laps. */
  lemma DistanceAtOneSpotLength(t: Tables, userId: string, d: int)
    requires forall r :: r in t.runs && r.userId == userId ==>
      FindSpot(t.spots, r.spotId).Some? && t.spots[FindSpot(t.spots, r.spotId).value].distanceCents == d
    ensures Total(t.runs, DistanceTerm(t.spots, userId)) == d * Total(t.runs, JoinedLapsTerm(t.spots, userId))
  {
    TotalScaled(t.runs, DistanceTerm(t.spots, userId), JoinedLapsTerm(t.spots, userId), d);
  }

  /** Logging a run adds its laps to its owner's sums, and its laps times its
      spot's distance to the owner's distance; every other user's figures
      stay as they were. */
  lemma StatsAfterNewRun(t: Tables, r: Run, userId: string, yearStart: int, yearEnd: int)
    ensures var before := MyStats(t, userId, yearStart, yearEnd);
            var after := MyStats(t.(runs := t.runs + [r]), userId, yearStart, yearEnd);
            r.userId != userId ==> after == before
    ensures var before := MyStats(t, userId, yearStart, yearEnd);
            var after := MyStats(t.(runs := t.runs + [r]), userId, yearStart, yearEnd);
            r.userId == userId ==>
              after.lifetimeRuns == before.lifetimeRuns + r.numberOfRuns
              && after.runsThisYear == before.runsThisYear
                   + (if yearStart <= r.dateLogged <= yearEnd then r.numberOfRuns else 0)
    ensures var before := MyStats(t, userId, yearStart, yearEnd);
            var after := MyStats(t.(runs := t.runs + [r]), userId, yearStart, yearEnd);
            r.userId == userId && HasSpot(t.spots, r.spotId) ==>
              after.totalLaps == before.totalLaps + r.numberOfRuns
              && after.totalDistance == before.totalDistance
                   + r.numberOfRuns * t.spots[FindSpot(t.spots, r.spotId).value].distanceCents
  {
    TotalAppend(t.runs, r, LapsTerm(userId));
    TotalAppend(t.runs, r, YearTerm(userId, yearStart, yearEnd));
    TotalAppend(t.runs, r, JoinedLapsTerm(t.spots, userId));
    TotalAppend(t.runs, r, DistanceTerm(t.spots, userId));
  }
}
