/** The server's request guards (server/middleware/auth.js): bearer-token
    extraction with the authentication decision, and the role and department
    guards. Signature verification and the session lookup are represented by the
    result they deliver. */
module Middleware {
  import opened Domain

  /** What a guard does with a request: reject it with 401 or 403, or pass it on. */
  datatype Outcome = Unauthorized | Forbidden | Proceed {
    function Code(): int {
      match this
      case Unauthorized => 401
      case Forbidden => 403
      case Proceed => 0
    }
  }

  /** `s.split(' ')`: the pieces between single spaces, empty pieces included. */
  function Split(s: string): (r: seq<string>)
    ensures |r| >= 1
  {
    if |s| == 0 then [""]
    else
      var rest := Split(s[1..]);
      if s[0] == ' ' then [""] + rest else [[s[0]] + rest[0]] + rest[1..]
  }

  predicate NoSpace(s: string) {
    forall i :: 0 <= i < |s| ==> s[i] != ' '
  }

  lemma {:induction false} SplitNoSpace(t: string)
    requires NoSpace(t)
    ensures Split(t) == [t]
  {
    if |t| > 0 {
      SplitNoSpace(t[1..]);
      assert [t[0]] + t[1..] == t;
    }
  }

  lemma {:induction false} SplitAfterWord(p: string, t: string)
    requires NoSpace(p)
    ensures Split(p + " " + t) == [p] + Split(t)
  {
    if |p| == 0 {
      assert p + " " + t == [' '] + t;
      assert (p + " " + t)[1..] == t;
    } else {
      var s := p + " " + t;
      assert s[1..] == p[1..] + " " + t;
      SplitAfterWord(p[1..], t);
      assert [p[0]] + p[1..] == p;
    }
  }

  /** The token of an `authorization` header: its second space-separated piece,
      missing when the header is missing or that piece is missing or empty. */
  function ExtractToken(header: Option<string>): (r: Option<string>)
    ensures header.None? || header == Some("") ==> r.None?
    ensures r.Some? ==> r.value != "" && r.value in Split(header.value)
  {
    if header.None? || header.value == "" then None
    else
      var parts := Split(header.value);
      if |parts| < 2 || parts[1] == "" then None else Some(parts[1])
  }

  /** A `Bearer <token>` header yields exactly its token. */
  lemma BearerHeaderRoundTrip(t: string)
    requires t != "" && NoSpace(t)
    ensures ExtractToken(Some("Bearer " + t)) == Some(t)
  {
    assert "Bearer " + t == "Bearer" + " " + t;
    SplitAfterWord("Bearer", t);
    SplitNoSpace(t);
  }

  /** A header with no space carries no token. */
  lemma NoSpaceNoToken(h: string)
    requires NoSpace(h)
    ensures ExtractToken(Some(h)).None?
  {
    SplitNoSpace(h);
  }

  /** What verifying a token and looking up its session gives. */
  datatype TokenCheck = BadSignature | NoLiveSession | LiveSession(user: ServerUser)

  /** The server's user record as far as the guards read it. */
  datatype ServerUser = ServerUser(id: string, role: string, department: string)

  /** authenticateToken: no token is 401 before anything is verified; a token that
      fails verification is 403; a verified token without a live session is 401;
      otherwise the request proceeds with that session's user. */
  function Authenticate(header: Option<string>, check: string -> TokenCheck): (r: (Outcome, Option<ServerUser>))
    ensures ExtractToken(header).None? ==> r == (Unauthorized, None)
    ensures r.0 == Proceed <==> ExtractToken(header).Some? && check(ExtractToken(header).value).LiveSession?
    ensures r.0 == Proceed ==> r.1 == Some(check(ExtractToken(header).value).user)
    ensures r.0 == Forbidden <==> ExtractToken(header).Some? && check(ExtractToken(header).value) == BadSignature
  {
    match ExtractToken(header)
    case None => (Unauthorized, None)
    case Some(token) =>
      match check(token)
      case BadSignature => (Forbidden, None)
      case NoLiveSession => (Unauthorized, None)
      case LiveSession(u) => (Proceed, Some(u))
  }

  /** requireRole: 401 without a user, 403 when the user's role is not listed,
      otherwise the request proceeds. */
  function RequireRole(user: Option<ServerUser>, roles: seq<string>): (r: Outcome)
    ensures r == Unauthorized <==> user.None?
    ensures r == Forbidden <==> user.Some? && user.value.role !in roles
    ensures r == Proceed <==> user.Some? && user.value.role in roles
  {
    if user.None? then Unauthorized
    else if user.value.role !in roles then Forbidden
    else Proceed
  }

  /** requireDepartment: the same three-way decision on the department. */
  function RequireDepartment(user: Option<ServerUser>, departments: seq<string>): (r: Outcome)
    ensures r == Unauthorized <==> user.None?
    ensures r == Forbidden <==> user.Some? && user.value.department !in departments
    ensures r == Proceed <==> user.Some? && user.value.department in departments
  {
    if user.None? then Unauthorized
    else if user.value.department !in departments then Forbidden
    else Proceed
  }

  /** Unlike the client's role check, the server gives administrators no
      exemption: an administrator is refused by a guard that does not list "admin". */
  lemma NoAdminOverride(u: ServerUser, roles: seq<string>)
    requires u.role == "admin" && "admin" !in roles
    ensures RequireRole(Some(u), roles) == Forbidden
    ensures RequireRole(Some(u), roles).Code() == 403
  {
  }
}
