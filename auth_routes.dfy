/** The `/auth` routes of backend/src/routes/auth.ts: login with an external
    identity (find or create the user, then issue a token), reading the
    caller's profile, and switching the profile between public and
    private. */
module AuthRoutes {
  import opened Basics
  import opened Sequences
  import opened Schema

  // ---------------------------------------------------------------------
  // POST /auth/login

  /** The JSON body of POST /auth/login. */
  datatype LoginBody = LoginBody(provider: Field, providerId: Field, email: Field, name: Field)

  /** The `{ token, userId }` reply of a login. */
  datatype Session = Session(token: string, userId: string)

  /** `!provider || !providerId || !email || !name`. */
  predicate LoginMissing(body: LoginBody)
  {
    FieldFalsy(body.provider) || FieldFalsy(body.providerId) || FieldFalsy(body.email) || FieldFalsy(body.name)
  }

  predicate KnownProvider(provider: string)
  {
    provider == "google" || provider == "facebook"
  }

  /** The row inserted at a first login: each text goes through its VARCHAR
      column's cast, and the profile starts public. None is the "value too
      long" error. */
  function NewUser(body: LoginBody, newId: string, now: int): (r: Option<User>)
    requires !LoginMissing(body)
    ensures r.Some? <==>
      VarcharCast(body.name.s, NameWidth).Some? && VarcharCast(body.email.s, EmailWidth).Some?
      && VarcharCast(body.provider.s, ProviderWidth).Some? && VarcharCast(body.providerId.s, ProviderIdWidth).Some?
    ensures r.Some? ==>
      r.value.id == newId && r.value.name == VarcharCast(body.name.s, NameWidth).value
      && r.value.email == VarcharCast(body.email.s, EmailWidth).value
      && IdentityOf(r.value) == (VarcharCast(body.provider.s, ProviderWidth).value,
                                 VarcharCast(body.providerId.s, ProviderIdWidth).value)
      && r.value.isPublicProfile && r.value.createdAt == now && UserFits(r.value)
  {
    match (VarcharCast(body.name.s, NameWidth), VarcharCast(body.email.s, EmailWidth),
           VarcharCast(body.provider.s, ProviderWidth), VarcharCast(body.providerId.s, ProviderIdWidth))
    case (Some(name), Some(email), Some(provider), Some(providerId)) =>
      Some(User(newId, name, email, provider, providerId, true, now))
    case _ => None
  }

  /** Some user already has this email address. */
  predicate EmailTaken(users: seq<User>, email: string)
  {
    exists v :: v in users && v.email == email
  }

  /** The id of the user holding the identity, if any. */
  function IdentityOwner(users: seq<User>, provider: string, providerId: string): (r: Option<string>)
    ensures r.None? <==> forall u :: u in users ==> IdentityOf(u) != (provider, providerId)
    ensures r.Some? ==> exists u :: u in users && IdentityOf(u) == (provider, providerId) && u.id == r.value
  {
    match FindIdentity(users, provider, providerId)
    case None => None
    case Some(k) => assert users[k] in users; Some(users[k].id)
  }

  /** With the identity unique, the owner found is the only user holding it. */
  lemma OwnerIsUnique(t: Tables, provider: string, providerId: string, u: User)
    requires Consistent(t) && u in t.users && IdentityOf(u) == (provider, providerId)
    ensures IdentityOwner(t.users, provider, providerId) == Some(u.id)
  {
    var k := FindIdentity(t.users, provider, providerId).value;
    DistinctByKeyDeterminesRow(t.users, IdentityOf, u, k);
  }

  /** Every stored provider id fits its column, so a longer one has no
      owner. */
  lemma LongIdentityHasNoOwner(t: Tables, provider: string, providerId: string)
    requires Consistent(t) && |providerId| > ProviderIdWidth
    ensures IdentityOwner(t.users, provider, providerId).None?
  {
    forall u | u in t.users ensures IdentityOf(u) != (provider, providerId) {
      assert UserFits(u);
    }
  }

  /** Text that fits its column is stored unchanged. */
  lemma VarcharCastKeeps(x: string, n: nat)
    requires |x| <= n
    ensures VarcharCast(x, n) == Some(x)
  {
    assert VarcharCast(x, n).value == x[..|x|];
  }

  /** POST /auth/login. An identity seen before logs in as its user and
      changes nothing; a new one creates a public user, which fails (500)
      when the email address, the identity or the generated id is taken or a
      value is too long for its column. `sign` is the token issuer; the token
      depends on the user id and on the time of signing (its `iat` and
      `exp` claims). */
  method Login(db: Store, body: LoginBody, newId: string, now: int, sign: (string, int) -> string)
    returns (reply: Reply<Session>)
    requires db.Valid()
    modifies db
    ensures db.Valid()
    ensures LoginMissing(body) ==> reply == Fail(400, "Missing required fields")
    ensures !LoginMissing(body) && !KnownProvider(body.provider.s) ==> reply == Fail(400, "Invalid auth provider")
    ensures !LoginMissing(body) && KnownProvider(body.provider.s)
            && IdentityOwner(old(db.users), body.provider.s, body.providerId.s).Some? ==>
      var id := IdentityOwner(old(db.users), body.provider.s, body.providerId.s).value;
      reply == Ok(200, Session(sign(id, now), id)) && db.Snapshot() == old(db.Snapshot())
    ensures !LoginMissing(body) && KnownProvider(body.provider.s)
            && IdentityOwner(old(db.users), body.provider.s, body.providerId.s).None? ==>
      (reply.Ok? <==> NewUser(body, newId, now).Some? && CanInsertUser(old(db.Snapshot()), NewUser(body, newId, now).value))
      && (!reply.Ok? ==> reply == ServerError())
      && (EmailTaken(old(db.users), body.email.s) ==> reply == ServerError())
      && (reply.Ok? ==>
            reply == Ok(200, Session(sign(newId, now), newId))
            && db.Snapshot() == old(db.Snapshot()).(users := old(db.users) + [NewUser(body, newId, now).value]))
    ensures reply.Ok? ==>
      !LoginMissing(body) && VarcharCast(body.providerId.s, ProviderIdWidth).Some?
      && IdentityOwner(db.users, body.provider.s, VarcharCast(body.providerId.s, ProviderIdWidth).value)
         == Some(reply.payload.userId)
    ensures reply.Fail? ==> db.Snapshot() == old(db.Snapshot())
  {
    if LoginMissing(body) {
      return Fail(400, "Missing required fields");
    }
    if !KnownProvider(body.provider.s) {
      return Fail(400, "Invalid auth provider");
    }
    var userId: string;
    var found := IdentityOwner(db.users, body.provider.s, body.providerId.s);
    if found.None? {
      if EmailTaken(db.users, body.email.s) {
        var v :| v in db.users && v.email == body.email.s;
        assert UserFits(v);
        VarcharCastKeeps(body.email.s, EmailWidth);
      }
      var row := NewUser(body, newId, now);
      if row.None? {
        return ServerError();
      }
      var ok := db.InsertUser(row.value);
      if !ok {
        return ServerError();
      }
      userId := row.value.id;
      OwnerIsUnique(db.Snapshot(), body.provider.s, VarcharCast(body.providerId.s, ProviderIdWidth).value, row.value);
    } else {
      userId := found.value;
      var u :| u in db.users && IdentityOf(u) == (body.provider.s, body.providerId.s) && u.id == userId;
      assert UserFits(u);
      VarcharCastKeeps(body.providerId.s, ProviderIdWidth);
    }
    reply := Ok(200, Session(sign(userId, now), userId));
  }

  /** Two logins with the same identity, at any two times. Once the first
      succeeds, exactly one user holds the stored identity. When the provider
      id fits its column the second login is the same user. A longer one,
      padded with spaces, was stored cut to 255 characters, so the second
      login finds no owner, tries to insert the same identity again and
      fails with 500. */
  method LoginTwice(db: Store, body: LoginBody, firstId: string, secondId: string,
                    firstNow: int, secondNow: int, sign: (string, int) -> string)
    returns (first: Reply<Session>, second: Reply<Session>)
    requires db.Valid()
    modifies db
    ensures db.Valid()
    ensures first.Ok? ==>
      !LoginMissing(body) && VarcharCast(body.providerId.s, ProviderIdWidth).Some?
      && forall u :: u in db.users && IdentityOf(u) == (body.provider.s, VarcharCast(body.providerId.s, ProviderIdWidth).value) ==>
           u.id == first.payload.userId
    ensures first.Ok? && body.providerId.Given? && |body.providerId.s| <= ProviderIdWidth ==>
      second.Ok? && second.payload.userId == first.payload.userId
    ensures first.Ok? && body.providerId.Given? && |body.providerId.s| > ProviderIdWidth ==>
      second == ServerError()
  {
    ghost var before := db.Snapshot();
    first := Login(db, body, firstId, firstNow, sign);
    ghost var middle := db.Snapshot();
    second := Login(db, body, secondId, secondNow, sign);
    if first.Ok? {
      var stored := VarcharCast(body.providerId.s, ProviderIdWidth).value;
      if |body.providerId.s| <= ProviderIdWidth {
        VarcharCastKeeps(body.providerId.s, ProviderIdWidth);
      } else {
        LongIdentityHasNoOwner(before, body.provider.s, body.providerId.s);
        LongIdentityHasNoOwner(middle, body.provider.s, body.providerId.s);
        var u := NewUser(body, firstId, firstNow).value;
        assert u in middle.users && IdentityOf(u) == IdentityOf(NewUser(body, secondId, secondNow).value);
      }
      forall u | u in db.users && IdentityOf(u) == (body.provider.s, stored)
        ensures u.id == first.payload.userId
      {
        OwnerIsUnique(db.Snapshot(), body.provider.s, stored, u);
      }
    }
  }

  // ---------------------------------------------------------------------
  // GET /auth/me

  /** The columns GET /auth/me reads: every column but the provider's id. */
  datatype Profile = Profile(id: string, name: string, email: string, authProvider: string,
                             isPublicProfile: bool, createdAt: int)

  function ProfileOf(u: User): Profile
  {
    Profile(u.id, u.name, u.email, u.authProvider, u.isPublicProfile, u.createdAt)
  }

  /** GET /auth/me for the user the token names. */
  function GetMe(t: Tables, userId: string): (r: Reply<Profile>)
    ensures r.Ok? <==> HasUser(t.users, userId)
    ensures r.Fail? ==> r == Fail(404, "User not found")
    ensures r.Ok? ==> r.status == 200 && r.payload.id == userId
  {
    match FindUser(t.users, userId)
    case None => Fail(404, "User not found")
    case Some(k) => Ok(200, ProfileOf(t.users[k]))
  }

  /** In a consistent store the profile is that of the user with the id. */
  lemma GetMeReturnsTheUser(t: Tables, u: User)
    requires Consistent(t) && u in t.users
    ensures GetMe(t, u.id) == Ok(200, ProfileOf(u))
  {
    var k := FindUser(t.users, u.id).value;
    DistinctByKeyDeterminesRow(t.users, UserIdOf, u, k);
  }

  // ---------------------------------------------------------------------
  // PATCH /auth/me

  /** PATCH /auth/me: a boolean `isPublicProfile` becomes the caller's flag;
      anything else is refused. An unknown caller matches no row. */
  method UpdateProfile(db: Store, userId: string, isPublicProfile: JsValue) returns (reply: Reply<Done>)
    requires db.Valid()
    modifies db
    ensures db.Valid()
    ensures !isPublicProfile.Bool? ==>
      reply == Fail(400, "isPublicProfile must be a boolean") && db.Snapshot() == old(db.Snapshot())
    ensures isPublicProfile.Bool? ==>
      reply == Ok(200, Success)
      && db.Snapshot() == old(db.Snapshot()).(users := SetPublicFlag(old(db.users), userId, isPublicProfile.b))
  {
    if !isPublicProfile.Bool? {
      return Fail(400, "isPublicProfile must be a boolean");
    }
    db.SetPublicProfile(userId, isPublicProfile.b);
    reply := Ok(200, Success);
  }

  /** After the toggle the caller's profile shows the new flag, and every
      other user's profile is as before. */
  lemma {:induction false} ToggleShowsInProfile(t: Tables, userId: string, flag: bool, other: string)
    requires Consistent(t)
    ensures var t' := t.(users := SetPublicFlag(t.users, userId, flag));
      (GetMe(t', userId).Ok? <==> GetMe(t, userId).Ok?)
      && (GetMe(t', userId).Ok? ==> GetMe(t', userId).payload == GetMe(t, userId).payload.(isPublicProfile := flag))
      && (other != userId ==> GetMe(t', other) == GetMe(t, other))
  {
    var us := SetPublicFlag(t.users, userId, flag);
    SameIdsSameUsers(t.users, us);
    SameIdsSameUsers(us, t.users);
    SetPublicFlagConsistent(t, userId, flag);
    var t' := t.(users := us);
    if HasUser(t.users, userId) {
      var k := FindUser(t.users, userId).value;
      GetMeReturnsTheUser(t, t.users[k]);
      GetMeReturnsTheUser(t', us[k]);
    }
    if HasUser(t.users, other) && other != userId {
      var k := FindUser(t.users, other).value;
      GetMeReturnsTheUser(t, t.users[k]);
      GetMeReturnsTheUser(t', us[k]);
    }
  }
}
