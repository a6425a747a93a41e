/** The database: the three tables of backend/src/db/schema.ts, their
    constraints, the statements the handlers send (INSERT, UPDATE, DELETE with
    its cascades), and the `Store` object that holds the tables and changes
    them in place. */
module Schema {
  import opened Basics
  import opened Numbers
  import opened Sequences

  /** A row of `users`. `authProvider` is the text of the provider name. */
  datatype User = User(id: string, name: string, email: string, authProvider: string,
                       authProviderId: string, isPublicProfile: bool, createdAt: int)

  /** A row of `spots`. The DECIMAL(10, 2) distance is held in hundredths of
      a metre; `creatorUserId` is nullable (ON DELETE SET NULL). */
  datatype Spot = Spot(id: string, name: string, distanceCents: int, description: Option<string>,
                       creatorUserId: Option<string>, createdAt: int)

  /** A row of `runs`: `numberOfRuns` laps at a spot, logged at `dateLogged`. */
  datatype Run = Run(id: string, spotId: string, userId: string, numberOfRuns: int,
                     notes: Option<string>, dateLogged: int, createdAt: int)

  /** The contents of the database at one moment. */
  datatype Tables = Tables(users: seq<User>, spots: seq<Spot>, runs: seq<Run>)

  // Keys of the PRIMARY KEY and UNIQUE constraints.
  function UserIdOf(u: User): string { u.id }
  function EmailOf(u: User): string { u.email }
  function IdentityOf(u: User): (string, string) { (u.authProvider, u.authProviderId) }
  function SpotIdOf(s: Spot): string { s.id }
  function RunIdOf(r: Run): string { r.id }

  const NameWidth: int := 255
  const EmailWidth: int := 255
  const ProviderWidth: int := 50
  const ProviderIdWidth: int := 255

  predicate AllSpaces(s: string)
  {
    forall k :: 0 <= k < |s| ==> s[k] == ' '
  }

  /** Storing text in a VARCHAR(n) column (an INSERT value or an UPDATE's SET
      value): text of at most n characters is kept; longer text is cut to its
      first n characters when everything past them is spaces, and is refused
      ("value too long") otherwise. */
  function VarcharCast(x: string, n: nat): (r: Option<string>)
    ensures r.Some? <==> |x| <= n || AllSpaces(x[n..])
    ensures r.Some? ==> r.value <= x && |r.value| == (if |x| <= n then |x| else n)
    ensures r.Some? ==> AllSpaces(x[|r.value|..])
  {
    if |x| <= n then Some(x) else if AllSpaces(x[n..]) then Some(x[..n]) else None
  }

  /** The VARCHAR widths of `users`. */
  predicate UserFits(u: User)
  {
    |u.name| <= NameWidth && |u.email| <= EmailWidth
    && |u.authProvider| <= ProviderWidth && |u.authProviderId| <= ProviderIdWidth
  }

  /** VARCHAR(255) name and DECIMAL(10, 2) distance of `spots`. */
  predicate SpotFits(s: Spot)
  {
    |s.name| <= NameWidth && -DecimalBound < s.distanceCents < DecimalBound
  }

  /** The INTEGER lap count of `runs`. */
  predicate RunFits(r: Run)
  {
    MinInt32 <= r.numberOfRuns <= MaxInt32
  }

  predicate HasUser(users: seq<User>, id: string)
  {
    exists u :: u in users && u.id == id
  }

  predicate HasSpot(spots: seq<Spot>, id: string)
  {
    exists s :: s in spots && s.id == id
  }

  predicate HasRun(runs: seq<Run>, id: string)
  {
    exists r :: r in runs && r.id == id
  }

  /** The store invariant. The first three lines are the DDL's constraints:
      primary keys, UNIQUE(email), UNIQUE(auth_provider, auth_provider_id),
      column types and the foreign keys. The last line is kept by the
      handlers, which only ever store positive lap counts and distances that
      passed a "positive number" check. */
  predicate Consistent(t: Tables)
  {
    DistinctBy(t.users, UserIdOf) && DistinctBy(t.users, EmailOf) && DistinctBy(t.users, IdentityOf)
    && DistinctBy(t.spots, SpotIdOf) && DistinctBy(t.runs, RunIdOf)
    && (forall u :: u in t.users ==> UserFits(u))
    && (forall s :: s in t.spots ==> SpotFits(s) && (s.creatorUserId.Some? ==> HasUser(t.users, s.creatorUserId.value)))
    && (forall r :: r in t.runs ==> RunFits(r) && HasSpot(t.spots, r.spotId) && HasUser(t.users, r.userId))
    && (forall s :: s in t.spots ==> s.distanceCents >= 0) && (forall r :: r in t.runs ==> r.numberOfRuns >= 1)
  }

  // ---------------------------------------------------------------------
  // SELECT ... WHERE key = $1

  /** The row of `users` with the given id. */
  function FindUser(users: seq<User>, id: string): (r: Option<nat>)
    ensures r.Some? ==> r.value < |users| && users[r.value].id == id
    ensures r.None? <==> !HasUser(users, id)
  {
    if users == [] then None
    else if users[0].id == id then Some(0)
    else match FindUser(users[1..], id)
      case None => (assert forall u :: u in users ==> u == users[0] || u in users[1..]; None)
      case Some(k) => Some(k + 1)
  }

  /** The row of `users` with the given login identity. */
  function FindIdentity(users: seq<User>, provider: string, providerId: string): (r: Option<nat>)
    ensures r.Some? ==> r.value < |users| && IdentityOf(users[r.value]) == (provider, providerId)
    ensures r.None? <==> forall u :: u in users ==> IdentityOf(u) != (provider, providerId)
  {
    if users == [] then None
    else if IdentityOf(users[0]) == (provider, providerId) then Some(0)
    else match FindIdentity(users[1..], provider, providerId)
      case None => (assert forall u :: u in users ==> u == users[0] || u in users[1..]; None)
      case Some(k) => Some(k + 1)
  }

  /** The row of `spots` with the given id. */
  function FindSpot(spots: seq<Spot>, id: string): (r: Option<nat>)
    ensures r.Some? ==> r.value < |spots| && spots[r.value].id == id
    ensures r.None? <==> !HasSpot(spots, id)
  {
    if spots == [] then None
    else if spots[0].id == id then Some(0)
    else match FindSpot(spots[1..], id)
      case None => (assert forall s :: s in spots ==> s == spots[0] || s in spots[1..]; None)
      case Some(k) => Some(k + 1)
  }

  // ---------------------------------------------------------------------
  // INSERT: the constraints a new row must meet

  predicate CanInsertUser(t: Tables, u: User)
  {
    !HasUser(t.users, u.id) && UserFits(u)
    && (forall v :: v in t.users ==> v.email != u.email && IdentityOf(v) != IdentityOf(u))
  }

  predicate CanInsertSpot(t: Tables, s: Spot)
  {
    !HasSpot(t.spots, s.id) && SpotFits(s)
    && (s.creatorUserId.Some? ==> HasUser(t.users, s.creatorUserId.value))
  }

  predicate CanInsertRun(t: Tables, r: Run)
  {
    !HasRun(t.runs, r.id) && RunFits(r) && HasSpot(t.spots, r.spotId) && HasUser(t.users, r.userId)
  }

  lemma InsertUserConsistent(t: Tables, u: User)
    requires Consistent(t) && CanInsertUser(t, u)
    ensures Consistent(t.(users := t.users + [u]))
  {
    DistinctByAppend(t.users, u, UserIdOf);
    DistinctByAppend(t.users, u, EmailOf);
    DistinctByAppend(t.users, u, IdentityOf);
  }

  lemma InsertSpotConsistent(t: Tables, s: Spot)
    requires Consistent(t) && CanInsertSpot(t, s) && s.distanceCents >= 0
    ensures Consistent(t.(spots := t.spots + [s]))
  {
    DistinctByAppend(t.spots, s, SpotIdOf);
    var t' := t.(spots := t.spots + [s]);
    forall r | r in t'.runs ensures HasSpot(t'.spots, r.spotId) {
      var w :| w in t.spots && w.id == r.spotId;
      assert w in t'.spots;
    }
  }

  lemma InsertRunConsistent(t: Tables, r: Run)
    requires Consistent(t) && CanInsertRun(t, r) && r.numberOfRuns >= 1
    ensures Consistent(t.(runs := t.runs + [r]))
  {
    DistinctByAppend(t.runs, r, RunIdOf);
  }

  // ---------------------------------------------------------------------
  // UPDATE

  /** `UPDATE spots SET ... WHERE id = $k` on the row at index `i`: the id
      and the creator are not among the columns the handler sets. */
  lemma ReplaceSpotConsistent(t: Tables, i: nat, s: Spot)
    requires Consistent(t) && i < |t.spots|
    requires s.id == t.spots[i].id && s.creatorUserId == t.spots[i].creatorUserId
    requires SpotFits(s) && s.distanceCents >= 0
    ensures Consistent(t.(spots := t.spots[i := s]))
  {
    DistinctByReplace(t.spots, i, s, SpotIdOf);
    var t' := t.(spots := t.spots[i := s]);
    forall r | r in t'.runs ensures HasSpot(t'.spots, r.spotId) {
      var w :| w in t.spots && w.id == r.spotId;
      var j :| 0 <= j < |t.spots| && t.spots[j] == w;
      assert t'.spots[j] in t'.spots && t'.spots[j].id == r.spotId;
    }
    forall w | w in t'.spots
      ensures SpotFits(w) && w.distanceCents >= 0
      ensures w.creatorUserId.Some? ==> HasUser(t'.users, w.creatorUserId.value)
    {
      var j :| 0 <= j < |t'.spots| && t'.spots[j] == w;
      if j != i {
        assert w == t.spots[j] && w in t.spots;
      }
    }
  }

  /** `UPDATE users SET is_public_profile = flag WHERE id = id`. */
  function SetPublicFlag(users: seq<User>, id: string, flag: bool): (r: seq<User>)
    ensures |r| == |users|
    ensures forall i :: 0 <= i < |users| ==>
      r[i] == if users[i].id == id then users[i].(isPublicProfile := flag) else users[i]
  {
    seq(|users|, i requires 0 <= i < |users| =>
      if users[i].id == id then users[i].(isPublicProfile := flag) else users[i])
  }

  lemma SetPublicFlagConsistent(t: Tables, id: string, flag: bool)
    requires Consistent(t)
    ensures Consistent(t.(users := SetPublicFlag(t.users, id, flag)))
  {
    var us := SetPublicFlag(t.users, id, flag);
    DistinctBySameKeys(t.users, us, UserIdOf);
    DistinctBySameKeys(t.users, us, EmailOf);
    DistinctBySameKeys(t.users, us, IdentityOf);
    SameIdsSameUsers(t.users, us);
    forall y | y in us ensures UserFits(y) {
      var j :| 0 <= j < |us| && us[j] == y;
      assert t.users[j] in t.users;
    }
  }

  /** Two user tables with the same ids row by row know the same users. */
  lemma SameIdsSameUsers(a: seq<User>, b: seq<User>)
    requires |a| == |b| && forall i :: 0 <= i < |a| ==> a[i].id == b[i].id
    ensures forall id :: HasUser(a, id) ==> HasUser(b, id)
  {
    forall id | HasUser(a, id) ensures HasUser(b, id) {
      var u :| u in a && u.id == id;
      var j :| 0 <= j < |a| && a[j] == u;
      assert b[j] in b;
    }
  }

  // ---------------------------------------------------------------------
  // DELETE and the foreign keys' ON DELETE actions

  function OtherSpot(id: string): Spot -> bool { (s: Spot) => s.id != id }
  function NotAtSpot(id: string): Run -> bool { (r: Run) => r.spotId != id }
  function OtherUser(id: string): User -> bool { (u: User) => u.id != id }
  function NotByUser(id: string): Run -> bool { (r: Run) => r.userId != id }

  /** ON DELETE SET NULL on `spots.creator_user_id`. */
  function ReleaseCreator(spots: seq<Spot>, id: string): (r: seq<Spot>)
    ensures |r| == |spots|
    ensures forall i :: 0 <= i < |spots| ==>
      r[i] == if spots[i].creatorUserId == Some(id) then spots[i].(creatorUserId := None) else spots[i]
  {
    seq(|spots|, i requires 0 <= i < |spots| =>
      if spots[i].creatorUserId == Some(id) then spots[i].(creatorUserId := None) else spots[i])
  }

  /** `DELETE FROM spots WHERE id = id`, with ON DELETE CASCADE on
      `runs.spot_id`. */
  function DeleteSpotRows(t: Tables, id: string): (r: Tables)
    ensures r.users == t.users
    ensures forall s :: s in r.spots <==> s in t.spots && s.id != id
    ensures forall x :: x in r.runs <==> x in t.runs && x.spotId != id
  {
    Tables(t.users, Filter(t.spots, OtherSpot(id)), Filter(t.runs, NotAtSpot(id)))
  }

  /** Deleting a user: ON DELETE CASCADE on `runs.user_id` and ON DELETE SET
      NULL on `spots.creator_user_id`. */
  function DeleteUserRows(t: Tables, id: string): (r: Tables)
    ensures forall u :: u in r.users <==> u in t.users && u.id != id
    ensures forall x :: x in r.runs <==> x in t.runs && x.userId != id
    ensures |r.spots| == |t.spots|
    ensures forall i :: 0 <= i < |t.spots| ==>
      r.spots[i] == if t.spots[i].creatorUserId == Some(id) then t.spots[i].(creatorUserId := None) else t.spots[i]
  {
    Tables(Filter(t.users, OtherUser(id)), ReleaseCreator(t.spots, id), Filter(t.runs, NotByUser(id)))
  }

  lemma DeleteSpotConsistent(t: Tables, id: string)
    requires Consistent(t)
    ensures Consistent(DeleteSpotRows(t, id))
  {
    var t' := DeleteSpotRows(t, id);
    FilterDistinct(t.spots, OtherSpot(id), SpotIdOf);
    FilterDistinct(t.runs, NotAtSpot(id), RunIdOf);
    forall r | r in t'.runs ensures HasSpot(t'.spots, r.spotId) {
      var w :| w in t.spots && w.id == r.spotId;
      assert w in t'.spots;
    }
  }

  lemma DeleteUserConsistent(t: Tables, id: string)
    requires Consistent(t)
    ensures Consistent(DeleteUserRows(t, id))
  {
    var t' := DeleteUserRows(t, id);
    FilterDistinct(t.users, OtherUser(id), UserIdOf);
    FilterDistinct(t.users, OtherUser(id), EmailOf);
    FilterDistinct(t.users, OtherUser(id), IdentityOf);
    FilterDistinct(t.runs, NotByUser(id), RunIdOf);
    DistinctBySameKeys(t.spots, t'.spots, SpotIdOf);
    DeleteUserKeepsRunReferences(t, id);
    DeleteUserKeepsSpots(t, id);
  }

  /** After deleting a user, every remaining run still has its spot and its
      user. */
  lemma DeleteUserKeepsRunReferences(t: Tables, id: string)
    requires Consistent(t)
    ensures var t' := DeleteUserRows(t, id);
      forall r :: r in t'.runs ==> HasSpot(t'.spots, r.spotId) && HasUser(t'.users, r.userId)
  {
    var t' := DeleteUserRows(t, id);
    forall r | r in t'.runs ensures HasSpot(t'.spots, r.spotId) {
      var w :| w in t.spots && w.id == r.spotId;
      var j :| 0 <= j < |t.spots| && t.spots[j] == w;
      assert t'.spots[j].id == w.id && t'.spots[j] in t'.spots;
    }
    forall r | r in t'.runs ensures HasUser(t'.users, r.userId) {
      var v :| v in t.users && v.id == r.userId;
      assert v in t'.users;
    }
  }

  /** After deleting a user, every spot still fits its columns and names an
      existing creator, if any. */
  lemma DeleteUserKeepsSpots(t: Tables, id: string)
    requires Consistent(t)
    ensures var t' := DeleteUserRows(t, id);
      forall s :: s in t'.spots ==>
        SpotFits(s) && s.distanceCents >= 0 && (s.creatorUserId.Some? ==> HasUser(t'.users, s.creatorUserId.value))
  {
    var t' := DeleteUserRows(t, id);
    forall s | s in t'.spots
      ensures SpotFits(s) && s.distanceCents >= 0
      ensures s.creatorUserId.Some? ==> HasUser(t'.users, s.creatorUserId.value)
    {
      var j :| 0 <= j < |t'.spots| && t'.spots[j] == s;
      assert t.spots[j] in t.spots;
      if s.creatorUserId.Some? {
        var v :| v in t.users && v.id == s.creatorUserId.value;
        assert v in t'.users;
      }
    }
  }

  // ---------------------------------------------------------------------
  // The database object

  /** The database the handlers talk to. Each method is one SQL statement,
      executed atomically: a statement that breaks a constraint fails and
      changes nothing. */
  class Store {
    var users: seq<User>
    var spots: seq<Spot>
    var runs: seq<Run>

    function Snapshot(): Tables
      reads this
    {
      Tables(users, spots, runs)
    }

    ghost predicate Valid()
      reads this
    {
      Consistent(Snapshot())
    }

    constructor ()
      ensures Valid() && Snapshot() == Tables([], [], [])
    {
      users, spots, runs := [], [], [];
    }

    /** INSERT INTO users. */
    method InsertUser(u: User) returns (ok: bool)
      requires Valid()
      modifies this
      ensures Valid()
      ensures ok == CanInsertUser(old(Snapshot()), u)
      ensures Snapshot() == if ok then old(Snapshot()).(users := old(users) + [u]) else old(Snapshot())
    {
      ok := CanInsertUser(Snapshot(), u);
      if ok {
        InsertUserConsistent(Snapshot(), u);
        users := users + [u];
      }
    }

    /** INSERT INTO spots. */
    method InsertSpot(s: Spot) returns (ok: bool)
      requires Valid() && s.distanceCents >= 0
      modifies this
      ensures Valid()
      ensures ok == CanInsertSpot(old(Snapshot()), s)
      ensures Snapshot() == if ok then old(Snapshot()).(spots := old(spots) + [s]) else old(Snapshot())
    {
      ok := CanInsertSpot(Snapshot(), s);
      if ok {
        InsertSpotConsistent(Snapshot(), s);
        spots := spots + [s];
      }
    }

    /** INSERT INTO runs. */
    method InsertRun(r: Run) returns (ok: bool)
      requires Valid() && r.numberOfRuns >= 1
      modifies this
      ensures Valid()
      ensures ok == CanInsertRun(old(Snapshot()), r)
      ensures Snapshot() == if ok then old(Snapshot()).(runs := old(runs) + [r]) else old(Snapshot())
    {
      ok := CanInsertRun(Snapshot(), r);
      if ok {
        InsertRunConsistent(Snapshot(), r);
        runs := runs + [r];
      }
    }

    /** UPDATE spots SET ... WHERE id = $k, on the row found at index `i`. */
    method ReplaceSpot(i: nat, s: Spot)
      requires Valid() && i < |spots|
      requires s.id == spots[i].id && s.creatorUserId == spots[i].creatorUserId
      requires SpotFits(s) && s.distanceCents >= 0
      modifies this
      ensures Valid()
      ensures Snapshot() == old(Snapshot()).(spots := old(spots)[i := s])
    {
      ReplaceSpotConsistent(Snapshot(), i, s);
      spots := spots[i := s];
    }

    /** UPDATE users SET is_public_profile = $1 WHERE id = $2 (no row
        matches when the id is unknown; that is not an error). */
    method SetPublicProfile(id: string, flag: bool)
      requires Valid()
      modifies this
      ensures Valid()
      ensures Snapshot() == old(Snapshot()).(users := SetPublicFlag(old(users), id, flag))
    {
      SetPublicFlagConsistent(Snapshot(), id, flag);
      users := SetPublicFlag(users, id, flag);
    }

    /** DELETE FROM spots WHERE id = $1, cascading to the spot's runs. */
    method DeleteSpot(id: string)
      requires Valid()
      modifies this
      ensures Valid()
      ensures Snapshot() == DeleteSpotRows(old(Snapshot()), id)
    {
      DeleteSpotConsistent(Snapshot(), id);
      var t := DeleteSpotRows(Snapshot(), id);
      spots, runs := t.spots, t.runs;
    }

    /** Deleting a user row: no handler does it, but the schema fixes what
        happens to the user's runs (deleted) and spots (creator set to
        NULL). */
    method DeleteUser(id: string)
      requires Valid()
      modifies this
      ensures Valid()
      ensures Snapshot() == DeleteUserRows(old(Snapshot()), id)
    {
      DeleteUserConsistent(Snapshot(), id);
      var t := DeleteUserRows(Snapshot(), id);
      users, spots, runs := t.users, t.spots, t.runs;
    }
  }
}
