/** The token check of backend/src/middleware/auth.ts that guards every
    authenticated route: take the second space-separated word of the
    Authorization header, verify it, and either answer 401/403 or record the
    caller's id on the request and pass it on. The JWT library is not
    modelled: `jwtVerify` stands for `jwt.verify` with the server's secret,
    and `sign` in the login handler for `generateToken`. */
module Middleware {
  import opened Basics

  /** What `jwt.verify` does with a token: it returns the decoded payload,
      whose `userId` may be missing, or it throws (bad signature, expired,
      malformed). */
  datatype Verified = Decoded(userId: Option<string>) | Threw

  /** `verifyToken`: the decoded `userId`, with every exception turned into
      null (None here); it never throws. */
  function VerifyToken(jwtVerify: string -> Verified, token: string): (r: Option<string>)
    ensures jwtVerify(token).Threw? ==> r.None?
    ensures jwtVerify(token).Decoded? ==> r == jwtVerify(token).userId
  {
    match jwtVerify(token)
    case Threw => None
    case Decoded(userId) => userId
  }

  /** `s.split(' ')`: the fields between single spaces, empty ones
      included. */
  function Split(s: string): (r: seq<string>)
    ensures |r| >= 1
    ensures forall k :: 0 <= k < |r| ==> ' ' !in r[k]
    decreases |s|
  {
    if s == [] then [""]
    else if s[0] == ' ' then [""] + Split(s[1..])
    else
      var rest := Split(s[1..]);
      [[s[0]] + rest[0]] + rest[1..]
  }

  /** `fields.join(' ')`. */
  function Join(fields: seq<string>): string
    requires |fields| >= 1
  {
    if |fields| == 1 then fields[0] else fields[0] + " " + Join(fields[1..])
  }

  /** Splitting loses nothing: joining the fields gives the header back. */
  lemma {:induction false} JoinSplit(s: string)
    ensures Join(Split(s)) == s
    decreases |s|
  {
    if s == [] {
    } else if s[0] == ' ' {
      JoinSplit(s[1..]);
      assert Split(s)[1..] == Split(s[1..]);
      assert s == [' '] + s[1..];
    } else {
      JoinSplit(s[1..]);
      var rest := Split(s[1..]);
      if |rest| == 1 {
        assert s == [s[0]] + s[1..];
      } else {
        assert Split(s)[1..] == rest[1..];
        assert s == [s[0]] + s[1..];
      }
    }
  }

  /** Text without a space is a single field. */
  lemma {:induction false} SplitWord(w: string)
    requires ' ' !in w
    ensures Split(w) == [w]
    decreases |w|
  {
    if w != [] {
      assert w[0] != ' ';
      assert ' ' !in w[1..] by {
        forall k | 0 <= k < |w[1..]| ensures w[1..][k] != ' ' {
          assert w[1..][k] == w[k + 1];
        }
      }
      SplitWord(w[1..]);
      assert w == [w[0]] + w[1..];
    }
  }

  /** Two words separated by one space are two fields. */
  lemma {:induction false} SplitTwoWords(a: string, b: string)
    requires ' ' !in a && ' ' !in b
    ensures Split(a + " " + b) == [a, b]
    decreases |a|
  {
    if a == [] {
      assert a + " " + b == [' '] + b;
      assert (a + " " + b)[1..] == b;
      SplitWord(b);
    } else {
      assert a[0] != ' ';
      assert ' ' !in a[1..] by {
        forall k | 0 <= k < |a[1..]| ensures a[1..][k] != ' ' {
          assert a[1..][k] == a[k + 1];
        }
      }
      SplitTwoWords(a[1..], b);
      assert (a + " " + b)[1..] == a[1..] + " " + b;
      assert a == [a[0]] + a[1..];
    }
  }

  /** `authHeader && authHeader.split(' ')[1]`: None stands for a falsy
      result (no header, an empty header) and for a header with no second
      field (undefined). */
  function BearerToken(header: Option<string>): (r: Option<string>)
    ensures r.Some? <==> header.Some? && header.value != "" && |Split(header.value)| >= 2
    ensures r.Some? ==> r.value == Split(header.value)[1]
  {
    match header
    case None => None
    case Some(h) =>
      if h == "" then None
      else
        var fields := Split(h);
        if |fields| >= 2 then Some(fields[1]) else None
  }

  /** The middleware's decision. */
  datatype Decision = Unauthenticated | Forbidden | Proceed(userId: string)

  /** 401 without a (non-empty) token, 403 when the token does not verify
      to a (non-empty) user id, otherwise pass the request on as that
      user. */
  function Authenticate(header: Option<string>, jwtVerify: string -> Verified): (d: Decision)
    ensures d.Unauthenticated? <==> BearerToken(header).None? || BearerToken(header) == Some("")
    ensures d.Forbidden? <==>
      BearerToken(header).Some? && BearerToken(header).value != ""
      && (VerifyToken(jwtVerify, BearerToken(header).value).None?
          || VerifyToken(jwtVerify, BearerToken(header).value) == Some(""))
    ensures d.Proceed? ==>
      BearerToken(header).Some? && Some(d.userId) == VerifyToken(jwtVerify, BearerToken(header).value)
      && d.userId != ""
  {
    var token := BearerToken(header);
    if token.None? || token.value == "" then Unauthenticated
    else
      var userId := VerifyToken(jwtVerify, token.value);
      if userId.None? || userId.value == "" then Forbidden
      else Proceed(userId.value)
  }

  /** The scheme word is never looked at: any word without spaces, a single
      space and a token without spaces give that token. */
  lemma AnySchemeAccepted(scheme: string, token: string)
    requires ' ' !in scheme && ' ' !in token
    ensures BearerToken(Some(scheme + " " + token)) == Some(token)
  {
    SplitTwoWords(scheme, token);
  }

  /** A header without a space has no token: 401. */
  lemma NoSpaceIsUnauthenticated(header: string, jwtVerify: string -> Verified)
    requires ' ' !in header
    ensures Authenticate(Some(header), jwtVerify) == Unauthenticated
  {
    SplitWord(header);
  }

  /** Two spaces after the scheme leave the second field empty: 401. */
  lemma DoubleSpaceIsUnauthenticated(scheme: string, token: string, jwtVerify: string -> Verified)
    requires ' ' !in scheme && ' ' !in token
    ensures Authenticate(Some(scheme + "  " + token), jwtVerify) == Unauthenticated
  {
    var a := scheme + " ";
    SplitTwoWords(scheme, "");
    assert scheme + " " + "" == a;
    assert scheme + "  " + token == a + " " + token;
    SplitPrefixFields(a, token);
  }

  /** Text ending in a space followed by more text: the fields of the prefix
      (up to the last, which is empty) come first. */
  lemma {:induction false} SplitPrefixFields(a: string, b: string)
    ensures |Split(a + " " + b)| >= |Split(a)| + 1
    ensures forall k :: 0 <= k < |Split(a)| - 1 ==> Split(a + " " + b)[k] == Split(a)[k]
    ensures Split(a + " " + b)[|Split(a)| - 1] == Split(a)[|Split(a)| - 1]
    decreases |a|
  {
    if a == [] {
      assert a + " " + b == [' '] + b;
      assert (a + " " + b)[1..] == b;
    } else {
      var s := a + " " + b;
      assert s[0] == a[0] && s[1..] == a[1..] + " " + b;
      SplitPrefixFields(a[1..], b);
      var whole, part := Split(s[1..]), Split(a[1..]);
      if a[0] == ' ' {
        assert Split(s) == [""] + whole;
        assert Split(a) == [""] + part;
      } else {
        assert Split(s) == [[a[0]] + whole[0]] + whole[1..];
        assert Split(a) == [[a[0]] + part[0]] + part[1..];
        if |part| == 1 {
          assert whole[0] == part[0];
        }
      }
    }
  }

  /** The request and response objects the middleware touches:
      `req.headers.authorization`, `req.userId`, the response status it
      writes, and how often it calls `next`. */
  class Exchange {
    var authorization: Option<string>
    var userId: Option<string>
    var status: Option<nat>
    var nextCalls: nat

    constructor (authorization: Option<string>)
      ensures this.authorization == authorization
      ensures userId.None? && status.None? && nextCalls == 0
    {
      this.authorization := authorization;
      userId := None;
      status := None;
      nextCalls := 0;
    }

    /** `authenticateToken`: on 401 or 403 it writes the status and does not
        call `next`; otherwise it sets `userId`, calls `next` once and writes
        nothing. */
    method AuthenticateToken(jwtVerify: string -> Verified)
      modifies this
      ensures authorization == old(authorization)
      ensures Authenticate(authorization, jwtVerify) == Unauthenticated ==>
        status == Some(401) && userId == old(userId) && nextCalls == old(nextCalls)
      ensures Authenticate(authorization, jwtVerify) == Forbidden ==>
        status == Some(403) && userId == old(userId) && nextCalls == old(nextCalls)
      ensures Authenticate(authorization, jwtVerify).Proceed? ==>
        userId == Some(Authenticate(authorization, jwtVerify).userId)
        && status == old(status) && nextCalls == old(nextCalls) + 1
    {
      var token := BearerToken(authorization);
      if token.None? || token.value == "" {
        status := Some(401);
        return;
      }
      var id := VerifyToken(jwtVerify, token.value);
      if id.None? || id.value == "" {
        status := Some(403);
        return;
      }
      userId := id;
      nextCalls := nextCalls + 1;
    }
  }
}
