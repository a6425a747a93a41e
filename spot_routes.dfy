/** The `/spots` routes of backend/src/routes/spots.ts: listing and reading
    spots (public), and creating, updating and deleting them (behind the
    token check; only a spot's creator may update or delete it). */
module SpotRoutes {
  import opened Basics
  import opened Numbers
  import opened Sequences
  import opened Ordering
  import opened Schema

  // ---------------------------------------------------------------------
  // GET /spots and GET /spots/:id

  /** A spot with the name of its creator, if any. */
  datatype SpotView = SpotView(spot: Spot, creatorName: Option<string>)

  /** `LEFT JOIN users u ON s.creator_user_id = u.id`: NULL when the spot has
      no creator or the creator's row is missing. */
  function CreatorName(users: seq<User>, s: Spot): (r: Option<string>)
    ensures r.Some? <==> s.creatorUserId.Some? && HasUser(users, s.creatorUserId.value)
  {
    match s.creatorUserId
    case None => None
    case Some(id) =>
      match FindUser(users, id)
      case None => None
      case Some(k) => Some(users[k].name)
  }

  /** In a consistent store a spot with a creator shows that user's name. */
  lemma CreatorNameShown(t: Tables, s: Spot, u: User)
    requires Consistent(t) && s in t.spots && u in t.users && s.creatorUserId == Some(u.id)
    ensures CreatorName(t.users, s) == Some(u.name)
  {
    var k := FindUser(t.users, u.id).value;
    DistinctByKeyDeterminesRow(t.users, UserIdOf, u, k);
  }

  function CreatedKey(s: Spot): int { s.createdAt }

  /** The spot column of a list of views. */
  function SpotsOf(vs: seq<SpotView>): (r: seq<Spot>)
    ensures |r| == |vs| && forall i :: 0 <= i < |vs| ==> r[i] == vs[i].spot
  {
    seq(|vs|, i requires 0 <= i < |vs| => vs[i].spot)
  }

  /** Every spot with its creator's name, newest `created_at` first. */
  function ListSpots(t: Tables): (r: seq<SpotView>)
    ensures multiset(SpotsOf(r)) == multiset(t.spots)
    ensures forall i :: 0 <= i < |r| ==> r[i].creatorName == CreatorName(t.users, r[i].spot)
    ensures forall i, j :: 0 <= i < j < |r| ==> r[i].spot.createdAt >= r[j].spot.createdAt
  {
    var sorted := SortDesc(t.spots, CreatedKey);
    SortDescCorrect(t.spots, CreatedKey);
    var r := seq(|sorted|, i requires 0 <= i < |sorted| => SpotView(sorted[i], CreatorName(t.users, sorted[i])));
    assert SpotsOf(r) == sorted;
    r
  }

  /** GET /spots/:id. */
  function GetSpot(t: Tables, id: string): (r: Reply<SpotView>)
    ensures r.Ok? <==> HasSpot(t.spots, id)
    ensures r.Fail? ==> r == Fail(404, "Spot not found")
    ensures r.Ok? ==>
      r.status == 200 && r.payload.spot in t.spots && r.payload.spot.id == id
      && r.payload.creatorName == CreatorName(t.users, r.payload.spot)
  {
    match FindSpot(t.spots, id)
    case None => Fail(404, "Spot not found")
    case Some(k) => Ok(200, SpotView(t.spots[k], CreatorName(t.users, t.spots[k])))
  }

  /** The single-spot view is one of the rows of the list. */
  lemma GetSpotIsListed(t: Tables, id: string)
    requires GetSpot(t, id).Ok?
    ensures GetSpot(t, id).payload in ListSpots(t)
  {
    var v := GetSpot(t, id).payload;
    var r := ListSpots(t);
    assert v.spot in multiset(SpotsOf(r));
    var i :| 0 <= i < |r| && SpotsOf(r)[i] == v.spot;
    assert r[i] == v;
  }

  // ---------------------------------------------------------------------
  // POST /spots

  /** The JSON body of POST /spots and PUT /spots/:id. */
  datatype SpotBody = SpotBody(name: Field, distanceMeters: JsValue, description: Field)

  /** `!name || !distanceMeters`. */
  predicate SpotBodyMissing(body: SpotBody)
  {
    FieldFalsy(body.name) || Falsy(body.distanceMeters)
  }

  /** The row the INSERT would store for `userId`, or None when the name does
      not go into VARCHAR(255) or the distance does not fit DECIMAL(10, 2). */
  function NewSpot(body: SpotBody, userId: string, newId: string, now: int): (r: Option<Spot>)
    requires !SpotBodyMissing(body) && !NotPositiveNumber(body.distanceMeters)
    ensures r.Some? <==> VarcharCast(body.name.s, NameWidth).Some? && DecimalCents(body.distanceMeters.n).Some?
    ensures r.Some? ==>
      r.value.id == newId && r.value.name == VarcharCast(body.name.s, NameWidth).value
      && r.value.creatorUserId == Some(userId)
      && r.value.distanceCents == RoundToCents(body.distanceMeters.n) && r.value.distanceCents >= 0
      && r.value.description == OrNull(body.description) && r.value.createdAt == now
      && SpotFits(r.value)
  {
    match (VarcharCast(body.name.s, NameWidth), DecimalCents(body.distanceMeters.n))
    case (Some(name), Some(c)) => Some(Spot(newId, name, c, OrNull(body.description), Some(userId), now))
    case _ => None
  }

  /** A name of 255 characters followed by spaces is cut to those 255
      characters and stored, not refused. */
  lemma PaddedNameIsCut(body: SpotBody, userId: string, newId: string, now: int, name: string, pad: string)
    requires |name| == NameWidth && |pad| > 0 && AllSpaces(pad) && body.name == Given(name + pad)
    requires body.distanceMeters.Num? && 0.0 < body.distanceMeters.n < 1000.0
    ensures NewSpot(body, userId, newId, now).Some?
    ensures NewSpot(body, userId, newId, now).value.name == name
  {
    var x := name + pad;
    assert x[NameWidth..] == pad;
    assert x[..NameWidth] == name;
    var c := RoundToCents(body.distanceMeters.n);
    assert c as real - 0.5 < 100000.0;
  }

  /** POST /spots: validate the body, then insert the spot with the caller as
      its creator. */
  method CreateSpot(db: Store, userId: string, body: SpotBody, newId: string, now: int)
    returns (reply: Reply<Spot>)
    requires db.Valid()
    modifies db
    ensures db.Valid()
    ensures SpotBodyMissing(body) ==> reply == Fail(400, "Name and distanceMeters are required")
    ensures !SpotBodyMissing(body) && NotPositiveNumber(body.distanceMeters) ==>
      reply == Fail(400, "distanceMeters must be a positive number")
    ensures reply.Ok? <==>
      !SpotBodyMissing(body) && !NotPositiveNumber(body.distanceMeters)
      && NewSpot(body, userId, newId, now).Some?
      && CanInsertSpot(old(db.Snapshot()), NewSpot(body, userId, newId, now).value)
    ensures reply.Ok? ==>
      reply.status == 201 && Some(reply.payload) == NewSpot(body, userId, newId, now)
      && db.Snapshot() == old(db.Snapshot()).(spots := old(db.spots) + [reply.payload])
    ensures reply.Fail? && reply.status != 400 ==> reply == ServerError()
    ensures !SpotBodyMissing(body) && !NotPositiveNumber(body.distanceMeters) && !reply.Ok? ==>
      reply == ServerError()
    ensures reply.Fail? ==> db.Snapshot() == old(db.Snapshot())
  {
    if SpotBodyMissing(body) {
      return Fail(400, "Name and distanceMeters are required");
    }
    if NotPositiveNumber(body.distanceMeters) {
      return Fail(400, "distanceMeters must be a positive number");
    }
    var row := NewSpot(body, userId, newId, now);
    if row.None? {
      return ServerError();
    }
    var ok := db.InsertSpot(row.value);
    if !ok {
      return ServerError();
    }
    reply := Ok(201, row.value);
  }

  // ---------------------------------------------------------------------
  // PUT /spots/:id: the dynamic UPDATE statement

  datatype Column = NameColumn | DistanceColumn | DescriptionColumn

  /** A bound parameter value. */
  datatype Param = Text(s: string) | Number(x: real) | SqlNull

  /** `column = $placeholder`. */
  datatype SetClause = SetClause(column: Column, placeholder: nat)

  /** What the builder produces: a 400 reply, or the SET clauses with the
      parameter values and the placeholder of `WHERE id = $k`. */
  datatype UpdatePlan = Rejected(message: string)
                      | Statement(updates: seq<SetClause>, values: seq<Param>, wherePlaceholder: nat)

  /** The columns the body supplies (`!== undefined`), in the order the
      handler tests them. */
  function Supplied(body: SpotBody): (cs: seq<Column>)
    ensures NameColumn in cs <==> !body.name.Absent?
    ensures DistanceColumn in cs <==> !body.distanceMeters.Undefined?
    ensures DescriptionColumn in cs <==> !body.description.Absent?
  {
    (if body.name.Absent? then [] else [NameColumn])
    + (if body.distanceMeters.Undefined? then [] else [DistanceColumn])
    + (if body.description.Absent? then [] else [DescriptionColumn])
  }

  /** A supplied distance that is not a positive number. */
  predicate DistanceRejected(body: SpotBody)
  {
    !body.distanceMeters.Undefined? && NotPositiveNumber(body.distanceMeters)
  }

  /** The value bound for a supplied column: the name as given (JSON null is
      bound as NULL), the distance number, and `description || null`. */
  function ParamFor(body: SpotBody, c: Column): Param
    requires c == DistanceColumn ==> body.distanceMeters.Num?
  {
    match c
    case NameColumn => if body.name.Given? then Text(body.name.s) else SqlNull
    case DistanceColumn => Number(body.distanceMeters.n)
    case DescriptionColumn => if FieldFalsy(body.description) then SqlNull else Text(body.description.s)
  }

  /** The plan binds `$1..$k` to the supplied columns in order and the spot id
      to `$(k+1)`, the last of the values. */
  predicate Numbered(plan: UpdatePlan, body: SpotBody, id: string)
  {
    !DistanceRejected(body) && plan.Statement?
    && |plan.updates| == |Supplied(body)| && |plan.values| == |plan.updates| + 1
    && (forall i :: 0 <= i < |plan.updates| ==>
          plan.updates[i] == SetClause(Supplied(body)[i], i + 1)
          && plan.values[i] == ParamFor(body, Supplied(body)[i]))
    && plan.values[|plan.updates|] == Text(id)
    && plan.wherePlaceholder == |plan.values|
  }

  /** The first `|cols|` clauses and values of a plan under construction. */
  ghost predicate NumberedSoFar(updates: seq<SetClause>, values: seq<Param>, body: SpotBody, cols: seq<Column>)
  {
    (DistanceColumn in cols ==> body.distanceMeters.Num?)
    && |updates| == |values| == |cols|
    && forall i :: 0 <= i < |cols| ==>
         updates[i] == SetClause(cols[i], i + 1) && values[i] == ParamFor(body, cols[i])
  }

  /** The builder of the PUT handler: it appends a SET clause and a value for
      each supplied field, numbering placeholders with a running counter, and
      binds the id last. */
  method PlanUpdate(body: SpotBody, id: string) returns (plan: UpdatePlan)
    ensures DistanceRejected(body) ==> plan == Rejected("distanceMeters must be a positive number")
    ensures !DistanceRejected(body) && Supplied(body) == [] ==> plan == Rejected("No fields to update")
    ensures !DistanceRejected(body) && Supplied(body) != [] ==> Numbered(plan, body, id)
  {
    var updates: seq<SetClause> := [];
    var values: seq<Param> := [];
    var paramCount: nat := 1;
    ghost var cols: seq<Column> := [];

    if !body.name.Absent? {
      updates, values, paramCount := PushColumn(updates, values, paramCount, body, cols, NameColumn);
      cols := cols + [NameColumn];
    }
    if !body.distanceMeters.Undefined? {
      if NotPositiveNumber(body.distanceMeters) {
        assert DistanceRejected(body);
        return Rejected("distanceMeters must be a positive number");
      }
      updates, values, paramCount := PushColumn(updates, values, paramCount, body, cols, DistanceColumn);
      cols := cols + [DistanceColumn];
    }
    if !body.description.Absent? {
      updates, values, paramCount := PushColumn(updates, values, paramCount, body, cols, DescriptionColumn);
      cols := cols + [DescriptionColumn];
    }
    assert cols == Supplied(body) && !DistanceRejected(body);

    if |updates| == 0 {
      assert Supplied(body) == [];
      return Rejected("No fields to update");
    }
    BindIdLast(updates, values, paramCount, body, cols, id);
    values := values + [Text(id)];
    plan := Statement(updates, values, paramCount);
  }

  /** One `updates.push(`column = $${paramCount++}`)` with the matching
      `values.push(...)`: the column gets the next placeholder and its value. */
  method PushColumn(updates: seq<SetClause>, values: seq<Param>, paramCount: nat, body: SpotBody,
                    ghost cols: seq<Column>, c: Column)
    returns (updates': seq<SetClause>, values': seq<Param>, paramCount': nat)
    requires NumberedSoFar(updates, values, body, cols) && paramCount == |cols| + 1
    requires c == DistanceColumn ==> body.distanceMeters.Num?
    ensures updates' == updates + [SetClause(c, paramCount)] && values' == values + [ParamFor(body, c)]
    ensures NumberedSoFar(updates', values', body, cols + [c]) && paramCount' == |cols + [c]| + 1
  {
    NumberNext(updates, values, body, cols, c);
    updates' := updates + [SetClause(c, paramCount)];
    paramCount' := paramCount + 1;
    values' := values + [ParamFor(body, c)];
  }

  /** One more supplied column gets the next placeholder and its value. */
  lemma NumberNext(updates: seq<SetClause>, values: seq<Param>, body: SpotBody, cols: seq<Column>, c: Column)
    requires NumberedSoFar(updates, values, body, cols)
    requires c == DistanceColumn ==> body.distanceMeters.Num?
    ensures NumberedSoFar(updates + [SetClause(c, |cols| + 1)], values + [ParamFor(body, c)], body, cols + [c])
  {
  }

  /** Appending the id to a complete prefix gives a numbered plan. */
  lemma BindIdLast(updates: seq<SetClause>, values: seq<Param>, paramCount: nat, body: SpotBody, cols: seq<Column>, id: string)
    requires NumberedSoFar(updates, values, body, cols) && paramCount == |cols| + 1
    requires cols == Supplied(body) && !DistanceRejected(body)
    ensures Numbered(Statement(updates, values + [Text(id)], paramCount), body, id)
  {
    var plan := Statement(updates, values + [Text(id)], paramCount);
    forall i | 0 <= i < |updates|
      ensures plan.updates[i] == SetClause(Supplied(body)[i], i + 1)
      ensures plan.values[i] == ParamFor(body, Supplied(body)[i])
    {
      assert plan.values[i] == values[i];
    }
  }

  /** `updates.join(', ')`: no clauses give no text and one clause its own
      text; `JoinClausesAppend` gives the separator between any two parts. */
  function JoinClauses(cs: seq<SetClause>): (r: string)
    ensures cs == [] <==> r == ""
    ensures |cs| == 1 ==> r == ClauseText(cs[0])
  {
    if cs == [] then ""
    else if |cs| == 1 then ClauseText(cs[0])
    else ClauseText(cs[0]) + ", " + JoinClauses(cs[1..])
  }

  function ColumnName(c: Column): string
  {
    match c
    case NameColumn => "name"
    case DistanceColumn => "distance_meters"
    case DescriptionColumn => "description"
  }

  function ClauseText(c: SetClause): string
  {
    ColumnName(c.column) + " = $" + NatToString(c.placeholder)
  }

  /** Joining two non-empty lists of clauses puts one ", " between them. */
  lemma {:induction false} JoinClausesAppend(a: seq<SetClause>, b: seq<SetClause>)
    requires a != [] && b != []
    ensures JoinClauses(a + b) == JoinClauses(a) + ", " + JoinClauses(b)
    decreases |a|
  {
    var ab := a + b;
    JoinClausesUnfold(ab);
    var head := ClauseText(a[0]);
    assert ab[0] == a[0];
    if |a| == 1 {
      assert ab[1..] == b;
    } else {
      assert ab[1..] == a[1..] + b;
      JoinClausesAppend(a[1..], b);
      JoinClausesUnfold(a);
      SeparatorRegroups(head, JoinClauses(a[1..]), JoinClauses(b));
    }
  }

  /** Regrouping text around two separators. */
  lemma SeparatorRegroups(h: string, x: string, y: string)
    ensures h + ", " + (x + ", " + y) == (h + ", " + x) + ", " + y
  {
  }

  /** Two or more clauses join as the first, a separator and the rest. */
  lemma JoinClausesUnfold(cs: seq<SetClause>)
    requires |cs| >= 2
    ensures JoinClauses(cs) == ClauseText(cs[0]) + ", " + JoinClauses(cs[1..])
  {
  }

  /** The text of the statement, up to its RETURNING list. */
  function UpdateText(updates: seq<SetClause>, wherePlaceholder: nat): string
  {
    "UPDATE spots SET " + JoinClauses(updates) + " WHERE id = $" + NatToString(wherePlaceholder)
  }

  /** The clause `column = $k` for each supplied column, numbered from 1. */
  function SuppliedClauses(body: SpotBody): (cs: seq<SetClause>)
    ensures |cs| == |Supplied(body)|
    ensures forall i :: 0 <= i < |cs| ==> cs[i] == SetClause(Supplied(body)[i], i + 1)
  {
    seq(|Supplied(body)|, i requires 0 <= i < |Supplied(body)| => SetClause(Supplied(body)[i], i + 1))
  }

  /** The statement the builder produced sets the supplied columns, in the
      order name, distance, description, to `$1`, `$2`, ..., and selects the
      row by `$(k+1)`. */
  lemma UpdateTextOfPlan(plan: UpdatePlan, body: SpotBody, id: string)
    requires Numbered(plan, body, id)
    ensures UpdateText(plan.updates, plan.wherePlaceholder)
      == "UPDATE spots SET " + JoinClauses(SuppliedClauses(body)) + " WHERE id = $" + NatToString(|Supplied(body)| + 1)
  {
    assert plan.updates == SuppliedClauses(body);
  }

  /** A PUT with a name and a description and no distance. */
  lemma UpdateNameAndDescriptionText(plan: UpdatePlan, name: string, description: string, id: string)
    requires Numbered(plan, SpotBody(Given(name), Undefined, Given(description)), id)
    ensures UpdateText(plan.updates, plan.wherePlaceholder) == "UPDATE spots SET name = $1, description = $2 WHERE id = $3"
  {
    var body := SpotBody(Given(name), Undefined, Given(description));
    assert Supplied(body) == [NameColumn, DescriptionColumn];
    UpdateTextOfPlan(plan, body, id);
    assert SuppliedClauses(body) == [SetClause(NameColumn, 1), SetClause(DescriptionColumn, 2)];
    NameAndDescriptionClauses();
    SmallNumerals();
    StatementGlue("name = $1, description = $2", "3");
  }

  // Proof step of `UpdateNameAndDescriptionText`: joining the literal pieces.
  lemma StatementGlue(setList: string, where: string)
    requires setList == "name = $1, description = $2" && where == "3"
    ensures "UPDATE spots SET " + setList + " WHERE id = $" + where
      == "UPDATE spots SET name = $1, description = $2 WHERE id = $3"
  {
  }

  lemma NameAndDescriptionClauses()
    ensures JoinClauses([SetClause(NameColumn, 1), SetClause(DescriptionColumn, 2)]) == "name = $1, description = $2"
  {
    var c1, c2 := SetClause(NameColumn, 1), SetClause(DescriptionColumn, 2);
    assert [c1, c2] == [c1] + [c2];
    JoinClausesAppend([c1], [c2]);
    SmallClauseTexts();
    ClauseListGlue(ClauseText(c1), ClauseText(c2));
  }

  // Proof step of `NameAndDescriptionClauses`: the text of each clause.
  lemma SmallClauseTexts()
    ensures ClauseText(SetClause(NameColumn, 1)) == "name = $1"
    ensures ClauseText(SetClause(DescriptionColumn, 2)) == "description = $2"
  {
    SmallNumerals();
  }

  // Proof step of `NameAndDescriptionClauses`: joining the literal pieces.
  lemma ClauseListGlue(first: string, second: string)
    requires first == "name = $1" && second == "description = $2"
    ensures first + ", " + second == "name = $1, description = $2"
  {
  }

  // Proof step of the two lemmas above: the numerals of 1, 2 and 3.
  lemma SmallNumerals()
    ensures NatToString(1) == "1" && NatToString(2) == "2" && NatToString(3) == "3"
  {
    assert DigitChar(1) == '1' && DigitChar(2) == '2' && DigitChar(3) == '3';
  }

  /** The placeholder numerals in the text read back as the numbers the
      builder counted. */
  lemma PlaceholderNumeralsReadBack(plan: UpdatePlan, body: SpotBody, id: string)
    requires Numbered(plan, body, id)
    ensures forall i :: 0 <= i < |plan.updates| ==> JsParseInt(NatToString(plan.updates[i].placeholder)) == Some(i + 1)
    ensures JsParseInt(NatToString(plan.wherePlaceholder)) == Some(|plan.values|)
  {
    forall i | 0 <= i < |plan.updates|
      ensures JsParseInt(NatToString(plan.updates[i].placeholder)) == Some(i + 1)
    {
      ParseIntOfNatural(i + 1);
    }
    ParseIntOfNatural(|plan.values|);
  }

  /** Executing one SET clause on the row: the column's type conversion and
      its constraints (NOT NULL, VARCHAR(255), DECIMAL(10, 2)). None is a
      database error. The handler binds only text or NULL to the name and
      the description and only numbers to the distance; other pairings are
      errors here. */
  function Assign(s: Spot, c: Column, p: Param): (r: Option<Spot>)
    ensures r.Some? ==>
      r.value.id == s.id && r.value.creatorUserId == s.creatorUserId && r.value.createdAt == s.createdAt
    ensures r.Some? && c != NameColumn ==> r.value.name == s.name
    ensures r.Some? && c != DistanceColumn ==> r.value.distanceCents == s.distanceCents
    ensures r.Some? && c != DescriptionColumn ==> r.value.description == s.description
  {
    match (c, p)
    case (NameColumn, Text(x)) =>
      (match VarcharCast(x, NameWidth)
       case None => None
       case Some(y) => Some(s.(name := y)))
    case (DistanceColumn, Number(x)) =>
      (match DecimalCents(x)
       case None => None
       case Some(cents) => Some(s.(distanceCents := cents)))
    case (DescriptionColumn, Text(x)) => Some(s.(description := Some(x)))
    case (DescriptionColumn, SqlNull) => Some(s.(description := None))
    case _ => None
  }

  /** Executing the SET list on the row, clause by clause. */
  function Execute(s: Spot, updates: seq<SetClause>, values: seq<Param>): (r: Option<Spot>)
    requires forall c :: c in updates ==> 1 <= c.placeholder <= |values|
    ensures r.Some? ==>
      r.value.id == s.id && r.value.creatorUserId == s.creatorUserId && r.value.createdAt == s.createdAt
    ensures r.Some? && (forall c :: c in updates ==> c.column != NameColumn) ==> r.value.name == s.name
    decreases |updates|
  {
    if updates == [] then Some(s)
    else
      match Assign(s, updates[0].column, values[updates[0].placeholder - 1])
      case None => None
      case Some(s') => Execute(s', updates[1..], values)
  }

  /** The intended effect of a PUT, field by field: an absent field keeps its
      value, a supplied one is converted to its column. A NULL name, a name
      that VARCHAR(255) refuses or a distance outside DECIMAL(10, 2) is an
      error. */
  function Patched(s: Spot, body: SpotBody): (r: Option<Spot>)
    requires !DistanceRejected(body)
    ensures r.None? <==>
      body.name.Null? || (body.name.Given? && VarcharCast(body.name.s, NameWidth).None?)
      || (body.distanceMeters.Num? && DecimalCents(body.distanceMeters.n).None?)
    ensures r.Some? ==>
      r.value.id == s.id && r.value.creatorUserId == s.creatorUserId && r.value.createdAt == s.createdAt
      && (body.name.Absent? ==> r.value.name == s.name)
      && (body.name.Given? ==> r.value.name == VarcharCast(body.name.s, NameWidth).value)
      && (body.distanceMeters.Undefined? ==> r.value.distanceCents == s.distanceCents)
      && (body.distanceMeters.Num? ==> r.value.distanceCents == RoundToCents(body.distanceMeters.n))
      && (body.description.Absent? ==> r.value.description == s.description)
      && (!body.description.Absent? ==> r.value.description == OrNull(body.description))
  {
    var name := match body.name
      case Absent => Some(s.name)
      case Null => None
      case Given(x) => VarcharCast(x, NameWidth);
    var cents := if body.distanceMeters.Undefined? then Some(s.distanceCents)
      else DecimalCents(body.distanceMeters.n);
    var description := if body.description.Absent? then s.description else OrNull(body.description);
    if name.Some? && cents.Some? then
      Some(s.(name := name.value, distanceCents := cents.value, description := description))
    else None
  }

  /** Setting the given columns one after the other to their values. */
  function ApplyColumns(s: Spot, body: SpotBody, cs: seq<Column>): Option<Spot>
    requires DistanceColumn in cs ==> body.distanceMeters.Num?
    decreases |cs|
  {
    if cs == [] then Some(s)
    else
      match Assign(s, cs[0], ParamFor(body, cs[0]))
      case None => None
      case Some(s') => ApplyColumns(s', body, cs[1..])
  }

  /** Executing the tail of a numbered plan from clause `k` on sets the
      supplied columns from `k` on. */
  lemma {:induction false} ExecuteSuffix(s: Spot, plan: UpdatePlan, body: SpotBody, id: string, k: nat)
    requires Numbered(plan, body, id) && k <= |plan.updates|
    ensures forall c :: c in plan.updates[k..] ==> 1 <= c.placeholder <= |plan.values|
    ensures Execute(s, plan.updates[k..], plan.values) == ApplyColumns(s, body, Supplied(body)[k..])
    decreases |plan.updates| - k
  {
    var u := plan.updates[k..];
    forall c | c in u ensures 1 <= c.placeholder <= |plan.values| {
      var i :| 0 <= i < |u| && u[i] == c;
      assert c == plan.updates[k + i];
    }
    if k < |plan.updates| {
      var cs := Supplied(body)[k..];
      assert u[0] == SetClause(cs[0], k + 1);
      assert plan.values[k] == ParamFor(body, cs[0]);
      assert u[1..] == plan.updates[k + 1..];
      assert cs[1..] == Supplied(body)[k + 1..];
      var step := Assign(s, cs[0], ParamFor(body, cs[0]));
      assert ApplyColumns(s, body, cs) == if step.None? then None else ApplyColumns(step.value, body, cs[1..]);
      assert plan.values[u[0].placeholder - 1] == ParamFor(body, cs[0]);
      if step.Some? {
        ExecuteSuffix(step.value, plan, body, id, k + 1);
        assert Execute(s, u, plan.values) == Execute(step.value, u[1..], plan.values);
      }
    }
  }

  /** The last stage of `ApplySuppliedIsPatched`: only the description is left. */
  lemma ApplyDescriptionColumn(s: Spot, body: SpotBody, rest: seq<Column>)
    requires rest == if body.description.Absent? then [] else [DescriptionColumn]
    ensures ApplyColumns(s, body, rest)
      == Some(s.(description := if body.description.Absent? then s.description else OrNull(body.description)))
  {
    if !body.description.Absent? {
      assert rest[1..] == [];
    }
  }

  lemma ApplySuppliedIsPatched(s: Spot, body: SpotBody)
    requires !DistanceRejected(body)
    ensures ApplyColumns(s, body, Supplied(body)) == Patched(s, body)
  {
    var cs := Supplied(body);
    var afterName := if body.name.Absent? then Some(s) else Assign(s, NameColumn, ParamFor(body, NameColumn));
    if !body.name.Absent? {
      assert cs[0] == NameColumn;
    }
    if afterName.Some? {
      var s1 := afterName.value;
      var rest1 := if body.name.Absent? then cs else cs[1..];
      assert ApplyColumns(s, body, cs) == ApplyColumns(s1, body, rest1);
      var afterDistance := if body.distanceMeters.Undefined? then Some(s1) else Assign(s1, DistanceColumn, ParamFor(body, DistanceColumn));
      if afterDistance.Some? {
        var s2 := afterDistance.value;
        var rest2 := if body.distanceMeters.Undefined? then rest1 else rest1[1..];
        assert ApplyColumns(s1, body, rest1) == ApplyColumns(s2, body, rest2);
        var description := if body.description.Absent? then s.description else OrNull(body.description);
        assert rest2 == if body.description.Absent? then [] else [DescriptionColumn];
        ApplyDescriptionColumn(s2, body, rest2);
        var name := if body.name.Given? then VarcharCast(body.name.s, NameWidth).value else s.name;
        var cents := if body.distanceMeters.Undefined? then s.distanceCents else RoundToCents(body.distanceMeters.n);
        assert s1 == s.(name := name);
        assert s2 == s.(name := name, distanceCents := cents);
        assert Patched(s, body) == Some(s.(name := name, distanceCents := cents, description := description));
      } else {
        assert ApplyColumns(s1, body, rest1) == None;
      }
    } else {
      assert ApplyColumns(s, body, cs) == None;
    }
  }

  /** Executing the statement the builder produced has exactly the intended
      effect on the row. */
  lemma ExecuteNumberedIsPatched(s: Spot, plan: UpdatePlan, body: SpotBody, id: string)
    requires Numbered(plan, body, id)
    ensures forall c :: c in plan.updates ==> 1 <= c.placeholder <= |plan.values|
    ensures Execute(s, plan.updates, plan.values) == Patched(s, body)
  {
    ExecuteSuffix(s, plan, body, id, 0);
    assert plan.updates[0..] == plan.updates && Supplied(body)[0..] == Supplied(body);
    ApplySuppliedIsPatched(s, body);
  }

  /** `creator_user_id !== req.userId` is false: the spot exists and the
      caller created it (a spot whose creator was deleted has none). */
  predicate IsCreator(spots: seq<Spot>, id: string, userId: string)
  {
    FindSpot(spots, id).Some? && spots[FindSpot(spots, id).value].creatorUserId == Some(userId)
  }

  /** PUT /spots/:id. The existence and creator checks come before any look
      at the body; the row is then replaced by the patched one, or nothing
      changes. */
  method UpdateSpot(db: Store, userId: string, id: string, body: SpotBody) returns (reply: Reply<Spot>)
    requires db.Valid()
    modifies db
    ensures db.Valid()
    ensures !HasSpot(old(db.spots), id) ==> reply == Fail(404, "Spot not found")
    ensures HasSpot(old(db.spots), id) && !IsCreator(old(db.spots), id, userId) ==>
      reply == Fail(403, "Not authorized to update this spot")
    ensures IsCreator(old(db.spots), id, userId) && DistanceRejected(body) ==>
      reply == Fail(400, "distanceMeters must be a positive number")
    ensures IsCreator(old(db.spots), id, userId) && !DistanceRejected(body) && Supplied(body) == [] ==>
      reply == Fail(400, "No fields to update")
    ensures reply.Ok? <==>
      IsCreator(old(db.spots), id, userId) && !DistanceRejected(body) && Supplied(body) != []
      && Patched(old(db.spots)[FindSpot(old(db.spots), id).value], body).Some?
    ensures reply.Ok? ==>
      var k := FindSpot(old(db.spots), id).value;
      reply.status == 200 && Patched(old(db.spots)[k], body) == Some(reply.payload)
      && db.Snapshot() == old(db.Snapshot()).(spots := old(db.spots)[k := reply.payload])
    ensures reply.Fail? && reply.status != 400 && reply.status != 403 && reply.status != 404 ==>
      reply == ServerError()
    ensures IsCreator(old(db.spots), id, userId) && !DistanceRejected(body) && Supplied(body) != []
            && !reply.Ok? ==>
      reply == ServerError()
    ensures reply.Fail? ==> db.Snapshot() == old(db.Snapshot())
  {
    var found := FindSpot(db.spots, id);
    if found.None? {
      return Fail(404, "Spot not found");
    }
    var k := found.value;
    if db.spots[k].creatorUserId != Some(userId) {
      return Fail(403, "Not authorized to update this spot");
    }
    var plan := PlanUpdate(body, id);
    if plan.Rejected? {
      return Fail(400, plan.message);
    }
    ExecuteNumberedIsPatched(db.spots[k], plan, body, id);
    var row := Execute(db.spots[k], plan.updates, plan.values);
    if row.None? {
      return ServerError();
    }
    assert db.spots[k] in db.spots;
    db.ReplaceSpot(k, row.value);
    reply := Ok(200, row.value);
  }

  // ---------------------------------------------------------------------
  // DELETE /spots/:id

  /** DELETE /spots/:id: after the same two checks the spot and (by the
      cascade) its runs are deleted. */
  method DeleteSpot(db: Store, userId: string, id: string) returns (reply: Reply<Done>)
    requires db.Valid()
    modifies db
    ensures db.Valid()
    ensures !HasSpot(old(db.spots), id) ==> reply == Fail(404, "Spot not found")
    ensures HasSpot(old(db.spots), id) && !IsCreator(old(db.spots), id, userId) ==>
      reply == Fail(403, "Not authorized to delete this spot")
    ensures reply.Ok? <==> IsCreator(old(db.spots), id, userId)
    ensures reply.Ok? ==> reply == Ok(200, Success) && db.Snapshot() == DeleteSpotRows(old(db.Snapshot()), id)
    ensures reply.Fail? && reply.status != 400 && reply.status != 403 && reply.status != 404 ==>
      reply == ServerError()
    ensures reply.Fail? ==> db.Snapshot() == old(db.Snapshot())
  {
    var found := FindSpot(db.spots, id);
    if found.None? {
      return Fail(404, "Spot not found");
    }
    if db.spots[found.value].creatorUserId != Some(userId) {
      return Fail(403, "Not authorized to delete this spot");
    }
    db.DeleteSpot(id);
    reply := Ok(200, Success);
  }
}
