/** The `/runs` routes of backend/src/routes/runs.ts: the caller's run log,
    logging a run, and the caller's statistics (the last is
    `Aggregates.MyStats`). Every route sits behind the token check, so each
    handler receives the caller's user id. */
module RunRoutes {
  import opened Basics
  import opened Numbers
  import opened Sequences
  import opened Ordering
  import opened Schema

  // ---------------------------------------------------------------------
  // GET /runs/me

  /** One row of the run log: the run with its spot's name and distance. */
  datatype RunView = RunView(run: Run, spotName: string, spotDistanceCents: int)

  function OwnedBy(userId: string): Run -> bool { (r: Run) => r.userId == userId }

  function DateKey(r: Run): int { r.dateLogged }

  /** `v` carries the name and distance of its run's spot. */
  predicate JoinedWith(spots: seq<Spot>, v: RunView)
  {
    FindSpot(spots, v.run.spotId).Some?
    && v.spotName == spots[FindSpot(spots, v.run.spotId).value].name
    && v.spotDistanceCents == spots[FindSpot(spots, v.run.spotId).value].distanceCents
  }

  /** A run joined with its spot. */
  function ViewOf(spots: seq<Spot>, r: Run): (v: RunView)
    requires FindSpot(spots, r.spotId).Some?
    ensures v.run == r
  {
    var s := spots[FindSpot(spots, r.spotId).value];
    RunView(r, s.name, s.distanceCents)
  }

  /** The run's spot row exists. */
  function SpotFound(spots: seq<Spot>): Run -> bool
  {
    (x: Run) => HasSpot(spots, x.spotId)
  }

  /** `runs JOIN spots ON r.spot_id = s.id`: a run whose spot row is missing
      has no joined row; the others keep their order, one row each. */
  function JoinSpots(spots: seq<Spot>, runs: seq<Run>): (r: seq<RunView>)
    ensures RunsOf(r) == Filter(runs, SpotFound(spots))
  {
    if runs == [] then []
    else
      var rest := JoinSpots(spots, runs[1..]);
      FilterCons(runs, SpotFound(spots));
      if FindSpot(spots, runs[0].spotId).None? then rest
      else
        var v := ViewOf(spots, runs[0]);
        RunsOfCons(v, rest);
        [v] + rest
  }

  lemma RunsOfCons(v: RunView, rest: seq<RunView>)
    ensures RunsOf([v] + rest) == [v.run] + RunsOf(rest)
  {
    assert forall i :: 0 < i < |rest| + 1 ==> ([v] + rest)[i] == rest[i - 1];
  }

  /** `ORDER BY r.date_logged DESC`. */
  predicate NewestFirst(vs: seq<RunView>)
  {
    forall i, j :: 0 <= i < j < |vs| ==> vs[i].run.dateLogged >= vs[j].run.dateLogged
  }

  /** The caller's runs, newest `date_logged` first. Sorting before the join
      gives the rows of "join, then ORDER BY": the join drops rows without
      changing the order of the others. */
  function ListMyRuns(t: Tables, userId: string): (r: seq<RunView>)
    ensures forall v :: v in r ==> v.run in t.runs && v.run.userId == userId
    ensures NewestFirst(r)
  {
    var mine := Filter(t.runs, OwnedBy(userId));
    var sorted := SortDesc(mine, DateKey);
    SortDescCorrect(mine, DateKey);
    SortDescMembers(mine, DateKey);
    JoinSpotsSorted(t.spots, sorted);
    JoinSpotsFrom(t.spots, sorted);
    JoinSpotsJoined(t.spots, sorted);
    JoinSpots(t.spots, sorted)
  }

  /** When every run has its spot, the join drops nothing. */
  lemma JoinSpotsKeepsAll(spots: seq<Spot>, runs: seq<Run>)
    requires forall x :: x in runs ==> HasSpot(spots, x.spotId)
    ensures RunsOf(JoinSpots(spots, runs)) == runs
  {
    FilterKeepsAll(runs, SpotFound(spots));
  }

  /** Every joined row comes from a run of the input. */
  lemma {:induction false} JoinSpotsFrom(spots: seq<Spot>, runs: seq<Run>)
    ensures forall v :: v in JoinSpots(spots, runs) ==> v.run in runs
  {
    if runs != [] {
      JoinSpotsFrom(spots, runs[1..]);
    }
  }

  /** Every joined row carries its own spot's name and distance. */
  lemma {:induction false} JoinSpotsJoined(spots: seq<Spot>, runs: seq<Run>)
    ensures forall v :: v in JoinSpots(spots, runs) ==> JoinedWith(spots, v)
  {
    if runs != [] {
      JoinSpotsJoined(spots, runs[1..]);
    }
  }

  /** The join keeps the relative order of the rows it keeps. */
  lemma {:induction false} JoinSpotsSorted(spots: seq<Spot>, runs: seq<Run>)
    requires NonIncreasing(runs, DateKey)
    ensures NewestFirst(JoinSpots(spots, runs))
  {
    if runs != [] {
      var tail := runs[1..];
      assert NonIncreasing(tail, DateKey) by {
        forall a, b | 0 <= a < b < |tail| ensures DateKey(tail[a]) >= DateKey(tail[b]) {
          assert tail[a] == runs[a + 1] && tail[b] == runs[b + 1];
        }
      }
      JoinSpotsSorted(spots, tail);
      if FindSpot(spots, runs[0].spotId).Some? {
        forall x | x in tail ensures x.dateLogged <= runs[0].dateLogged {
          var m :| 0 <= m < |tail| && tail[m] == x;
          assert DateKey(runs[0]) >= DateKey(runs[m + 1]);
        }
        JoinSpotsNotAfter(spots, tail, runs[0].dateLogged);
        NewestFirstCons(ViewOf(spots, runs[0]), JoinSpots(spots, tail));
      }
    }
  }

  /** Runs logged no later than `d` give joined rows logged no later than
      `d`. */
  lemma {:induction false} JoinSpotsNotAfter(spots: seq<Spot>, runs: seq<Run>, d: int)
    requires forall x :: x in runs ==> x.dateLogged <= d
    ensures forall v :: v in JoinSpots(spots, runs) ==> v.run.dateLogged <= d
  {
    if runs != [] {
      assert forall x :: x in runs[1..] ==> x in runs;
      JoinSpotsNotAfter(spots, runs[1..], d);
    }
  }

  /** A row no older than every row of a list sorted newest first can go in
      front of it. */
  lemma NewestFirstCons(v: RunView, rest: seq<RunView>)
    requires NewestFirst(rest)
    requires forall w :: w in rest ==> w.run.dateLogged <= v.run.dateLogged
    ensures NewestFirst([v] + rest)
  {
    var r := [v] + rest;
    forall i, j | 0 <= i < j < |r| ensures r[i].run.dateLogged >= r[j].run.dateLogged {
      assert r[j] == rest[j - 1];
      if i > 0 {
        assert r[i] == rest[i - 1];
      }
    }
  }

  /** In a consistent store every run has its spot, so the log holds each of
      the caller's runs exactly once. */
  lemma MyRunsAreComplete(t: Tables, userId: string)
    requires Consistent(t)
    ensures multiset(RunsOf(ListMyRuns(t, userId))) == multiset(Filter(t.runs, OwnedBy(userId)))
  {
    var mine := Filter(t.runs, OwnedBy(userId));
    var sorted := SortDesc(mine, DateKey);
    SortDescCorrect(mine, DateKey);
    SortDescMembers(mine, DateKey);
    JoinSpotsKeepsAll(t.spots, sorted);
  }

  /** The run column of a list of log rows. */
  function RunsOf(vs: seq<RunView>): (r: seq<Run>)
    ensures |r| == |vs| && forall i :: 0 <= i < |vs| ==> r[i] == vs[i].run
  {
    seq(|vs|, i requires 0 <= i < |vs| => vs[i].run)
  }

  // ---------------------------------------------------------------------
  // POST /runs

  /** The JSON body of POST /runs. */
  datatype RunBody = RunBody(spotId: Field, numberOfRuns: JsValue, notes: Field, dateLogged: Field)

  /** `!spotId || !numberOfRuns`. */
  predicate RunBodyMissing(body: RunBody)
  {
    FieldFalsy(body.spotId) || Falsy(body.numberOfRuns)
  }

  /** `dateLogged || new Date()`: the text of a given date is converted by
      the database (`parseTimestamp`, which fails on text that is not a
      timestamp); a falsy one is the current time. */
  function LoggedAt(dateLogged: Field, now: int, parseTimestamp: string -> Option<int>): (r: Option<int>)
    ensures FieldFalsy(dateLogged) ==> r == Some(now)
    ensures !FieldFalsy(dateLogged) ==> r == parseTimestamp(dateLogged.s)
  {
    if FieldFalsy(dateLogged) then Some(now) else parseTimestamp(dateLogged.s)
  }

  /** The row the INSERT would store, or None when a value does not convert
      to its column (a non-integral or out-of-range lap count, or text that
      is not a timestamp). */
  function NewRun(body: RunBody, userId: string, newId: string, now: int,
                  parseTimestamp: string -> Option<int>): (r: Option<Run>)
    requires !RunBodyMissing(body) && !NotPositiveNumber(body.numberOfRuns)
    ensures r.Some? <==> IntegerColumn(body.numberOfRuns.n).Some? && LoggedAt(body.dateLogged, now, parseTimestamp).Some?
    ensures r.Some? ==>
      r.value.id == newId && r.value.spotId == body.spotId.s && r.value.userId == userId
      && r.value.numberOfRuns as real == body.numberOfRuns.n && r.value.numberOfRuns >= 1
      && r.value.notes == OrNull(body.notes) && r.value.createdAt == now
      && Some(r.value.dateLogged) == LoggedAt(body.dateLogged, now, parseTimestamp)
  {
    match (IntegerColumn(body.numberOfRuns.n), LoggedAt(body.dateLogged, now, parseTimestamp))
    case (Some(laps), Some(date)) => Some(Run(newId, body.spotId.s, userId, laps, OrNull(body.notes), date, now))
    case _ => None
  }

  /** POST /runs: validate the body, check that the spot exists, then insert
      the run for the caller. `newId` is the uuid the database generates and
      `now` its clock. */
  method CreateRun(db: Store, userId: string, body: RunBody, newId: string, now: int,
                   parseTimestamp: string -> Option<int>) returns (reply: Reply<Run>)
    requires db.Valid()
    modifies db
    ensures db.Valid()
    ensures RunBodyMissing(body) ==> reply == Fail(400, "spotId and numberOfRuns are required")
    ensures !RunBodyMissing(body) && NotPositiveNumber(body.numberOfRuns) ==>
      reply == Fail(400, "numberOfRuns must be a positive number")
    ensures !RunBodyMissing(body) && !NotPositiveNumber(body.numberOfRuns) && !HasSpot(old(db.spots), body.spotId.s) ==>
      reply == Fail(404, "Spot not found")
    ensures reply.Ok? <==>
      !RunBodyMissing(body) && !NotPositiveNumber(body.numberOfRuns)
      && NewRun(body, userId, newId, now, parseTimestamp).Some?
      && CanInsertRun(old(db.Snapshot()), NewRun(body, userId, newId, now, parseTimestamp).value)
    ensures reply.Ok? ==>
      reply.status == 201
      && Some(reply.payload) == NewRun(body, userId, newId, now, parseTimestamp)
      && db.Snapshot() == old(db.Snapshot()).(runs := old(db.runs) + [reply.payload])
    ensures reply.Fail? && reply.status != 400 && reply.status != 404 ==> reply == ServerError()
    ensures !RunBodyMissing(body) && !NotPositiveNumber(body.numberOfRuns) && HasSpot(old(db.spots), body.spotId.s)
            && !reply.Ok? ==>
      reply == ServerError()
    ensures reply.Fail? ==> db.Snapshot() == old(db.Snapshot())
  {
    if RunBodyMissing(body) {
      return Fail(400, "spotId and numberOfRuns are required");
    }
    if NotPositiveNumber(body.numberOfRuns) {
      return Fail(400, "numberOfRuns must be a positive number");
    }
    if FindSpot(db.spots, body.spotId.s).None? {
      return Fail(404, "Spot not found");
    }
    var row := NewRun(body, userId, newId, now, parseTimestamp);
    if row.None? {
      return ServerError();
    }
    var ok := db.InsertRun(row.value);
    if !ok {
      return ServerError();
    }
    reply := Ok(201, row.value);
  }
}
