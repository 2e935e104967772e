/** The authorisation guard of the HTTP layer: `auth(required)` reads a
    Bearer token from the Authorization header and stores the verified
    payload on the request; `requireRole(...roles)` admits the request when
    the user's role matches one of the listed roles, ignoring letter case. */
module Auth {
  import opened Common

  /** The claims of a verified token that the services rely on. */
  datatype Payload = Payload(id: Id, companyId: Id, role: Option<string>)

  // ---------------------------------------------------------------------
  // header.split(' ')
  // ---------------------------------------------------------------------

  /** The position of the first space in `s`, if any. */
  function SpaceIndex(s: string): (r: Option<nat>)
    ensures r.Some? ==> r.value < |s| && s[r.value] == ' '
    ensures r.Some? ==> forall j :: 0 <= j < r.value ==> s[j] != ' '
    ensures r.None? <==> forall j :: 0 <= j < |s| ==> s[j] != ' '
  {
    if s == [] then None
    else if s[0] == ' ' then Some(0)
    else match SpaceIndex(s[1..])
      case None => None
      case Some(k) => Some(k + 1)
  }

  /** String.prototype.split with a one-space separator: the pieces between
      consecutive spaces, empty pieces included; there is always one piece. */
  function Split(s: string): (r: seq<string>)
    ensures |r| >= 1
    ensures forall k :: 0 <= k < |r| ==> ' ' !in r[k]
    decreases |s|
  {
    match SpaceIndex(s)
    case None => [s]
    case Some(i) => [s[..i]] + Split(s[i + 1..])
  }

  /** Array.prototype.join with a one-space separator, the inverse of Split. */
  function Join(ps: seq<string>): string
    requires |ps| >= 1
  {
    if |ps| == 1 then ps[0] else ps[0] + " " + Join(ps[1..])
  }

  /** Joining the pieces gives the header back. */
  lemma {:induction false} SplitJoin(s: string)
    ensures Join(Split(s)) == s
    decreases |s|
  {
    match SpaceIndex(s)
    case None =>
    case Some(i) =>
      SplitJoin(s[i + 1..]);
      assert Split(s)[1..] == Split(s[i + 1..]);
      assert s == s[..i] + " " + s[i + 1..];
  }

  /** Splitting space-free pieces joined by spaces gives the pieces back. */
  lemma {:induction false} JoinSplit(ps: seq<string>)
    requires |ps| >= 1
    requires forall k :: 0 <= k < |ps| ==> ' ' !in ps[k]
    ensures Split(Join(ps)) == ps
  {
    if |ps| > 1 {
      var p, rest := ps[0], Join(ps[1..]);
      var s := p + " " + rest;
      assert s[|p|] == ' ';
      assert forall j :: 0 <= j < |p| ==> s[j] == p[j];
      assert SpaceIndex(s) == Some(|p|);
      assert s[..|p|] == p && s[|p| + 1..] == rest;
      JoinSplit(ps[1..]);
    } else {
      assert forall j :: 0 <= j < |ps[0]| ==> ps[0][j] != ' ';
    }
  }

  // ---------------------------------------------------------------------
  // auth(required)
  // ---------------------------------------------------------------------

  /** `req.headers.authorization || ''`: a missing header reads as empty. */
  function HeaderText(header: Option<string>): string {
    if header.Some? then header.value else ""
  }

  /** The token of a well-formed header: the first piece is exactly
      "Bearer" and the second piece exists and is not empty. Pieces after the
      second are ignored. */
  function BearerToken(header: Option<string>): (r: Option<string>)
    ensures r.Some? ==> r.value != "" && ' ' !in r.value
  {
    var pieces := Split(HeaderText(header));
    if |pieces| >= 2 && pieces[1] != "" && pieces[0] == "Bearer" then Some(pieces[1]) else None
  }

  /** What `auth(required)` decides: the value it stores in `req.user`, or
      the error it passes to `next`. */
  function Authentication(header: Option<string>, required: bool, verify: string -> Option<Payload>)
    : Result<Option<Payload>>
  {
    match BearerToken(header)
    case None =>
      if required then Err(Error(Unauthorized, MalformedHeader)) else Ok(None)
    case Some(token) =>
      match verify(token)
      case None => Err(Error(Unauthorized, InvalidToken))
      case Some(payload) => Ok(Some(payload))
  }

  /** Space-free pieces starting with "Bearer" and a non-empty token are
      accepted with that token. */
  lemma BearerPieces(ps: seq<string>)
    requires |ps| >= 2 && ps[0] == "Bearer" && ps[1] != ""
    requires forall k :: 0 <= k < |ps| ==> ' ' !in ps[k]
    ensures BearerToken(Some(Join(ps))) == Some(ps[1])
  {
    JoinSplit(ps);
  }

  /** "Bearer <token>" is accepted with exactly that token, whatever pieces
      follow it. */
  lemma BearerAccepted(token: string, more: seq<string>)
    requires token != "" && ' ' !in token
    requires forall k :: 0 <= k < |more| ==> ' ' !in more[k]
    ensures BearerToken(Some(Join(["Bearer", token] + more))) == Some(token)
  {
    SchemeHasNoSpace();
    PiecesHaveNoSpace("Bearer", token, more);
    BearerPieces(["Bearer", token] + more);
  }

  /** Two space-free pieces followed by space-free pieces are all space-free. */
  lemma PiecesHaveNoSpace(a: string, b: string, more: seq<string>)
    requires ' ' !in a && ' ' !in b
    requires forall k :: 0 <= k < |more| ==> ' ' !in more[k]
    ensures forall k :: 0 <= k < |[a, b] + more| ==> ' ' !in ([a, b] + more)[k]
  {
    var ps := [a, b] + more;
    forall k | 0 <= k < |ps| ensures ' ' !in ps[k] {
      if k >= 2 {
        assert ps[k] == more[k - 2];
      }
    }
  }

  /** The scheme name is a single piece. */
  lemma SchemeHasNoSpace()
    ensures ' ' !in "Bearer"
  {
    assert forall j :: 0 <= j < 6 ==> "Bearer"[j] != ' ';
  }

  /** The converse of BearerAccepted: every well-formed header is "Bearer",
      a space and its token, possibly followed by more pieces. */
  lemma BearerShape(header: Option<string>)
    requires BearerToken(header).Some?
    ensures header.Some?
    ensures exists more: seq<string> :: header.value == Join(["Bearer", BearerToken(header).value] + more)
  {
    var pieces := Split(HeaderText(header));
    SplitJoin(HeaderText(header));
    assert pieces == ["Bearer", pieces[1]] + pieces[2..];
  }

  /** A scheme other than "Bearer" is refused whatever the token. */
  lemma OtherSchemeRefused(scheme: string, token: string)
    requires scheme != "Bearer" && ' ' !in scheme && ' ' !in token
    ensures BearerToken(Some(scheme + " " + token)) == None
  {
    JoinSplit([scheme, token]);
    assert Join([scheme, token]) == scheme + " " + token;
  }

  /** Two spaces after the scheme leave an empty token: refused. */
  lemma DoubleSpaceRefused(token: string)
    requires ' ' !in token
    ensures BearerToken(Some("Bearer  " + token)) == None
  {
    var ps := ["Bearer", "", token];
    JoinSplit(ps);
    assert ps[1..][1..] == [token];
    assert Join(ps[1..]) == "" + " " + token;
    assert Join(ps) == "Bearer  " + token;
  }

  /** With required=true, a missing or malformed header is Unauthorized. */
  lemma RequiredRejectsMalformed(header: Option<string>, verify: string -> Option<Payload>)
    requires BearerToken(header).None?
    ensures Authentication(header, true, verify) == Err(Error(Unauthorized, MalformedHeader))
  {
  }

  /** With required=false, a missing or malformed header proceeds anonymously. */
  lemma OptionalProceeds(header: Option<string>, verify: string -> Option<Payload>)
    requires BearerToken(header).None?
    ensures Authentication(header, false, verify) == Ok(None)
  {
  }

  /** A well-formed header carrying a token that does not verify is
      Unauthorized whatever `required` is. */
  lemma InvalidTokenRejected(header: Option<string>, required: bool, verify: string -> Option<Payload>)
    requires BearerToken(header).Some? && verify(BearerToken(header).value).None?
    ensures Authentication(header, required, verify) == Err(Error(Unauthorized, InvalidToken))
  {
  }

  /** A request is authenticated exactly when its token verifies, and then
      the user is the token's payload. */
  lemma AuthenticatedIff(header: Option<string>, required: bool, verify: string -> Option<Payload>)
    ensures (Authentication(header, required, verify).Ok? && Authentication(header, required, verify).value.Some?)
        <==> (BearerToken(header).Some? && verify(BearerToken(header).value).Some?)
    ensures Authentication(header, required, verify).Ok? && Authentication(header, required, verify).value.Some? ==>
        Authentication(header, required, verify).value == verify(BearerToken(header).value)
  {
  }

  /** The request object the middleware decorates. */
  class Request {
    const authorization: Option<string>
    var user: Option<Payload>

    constructor (authorization: Option<string>)
      ensures this.authorization == authorization && user.None?
    {
      this.authorization := authorization;
      user := None;
    }

    /** The middleware returned by `auth(required)`: on success it stores
        the user (or null) on the request; on error the request is left as
        it was. */
    method Authenticate(required: bool, verify: string -> Option<Payload>) returns (err: Option<Error>)
      modifies this`user
      ensures Authentication(authorization, required, verify).Err? ==>
          err == Some(Authentication(authorization, required, verify).error) && user == old(user)
      ensures Authentication(authorization, required, verify).Ok? ==>
          err.None? && user == Authentication(authorization, required, verify).value
    {
      var header := HeaderText(authorization);
      var pieces := Split(header);
      if |pieces| < 2 || pieces[1] == "" || pieces[0] != "Bearer" {
        if required {
          return Some(Error(Unauthorized, MalformedHeader));
        }
        user := None;
        return None;
      }
      var payload := verify(pieces[1]);
      if payload.None? {
        return Some(Error(Unauthorized, InvalidToken));
      }
      user := payload;
      err := None;
    }
  }

  // ---------------------------------------------------------------------
  // requireRole(...roles)
  // ---------------------------------------------------------------------

  /** `String(req.user.role || '').toLowerCase()`. */
  function RoleName(p: Payload): string {
    Lower(if p.role.Some? then p.role.value else "")
  }

  /** Every listed role, lower-cased: `roles.map(r => String(r).toLowerCase())`.
      The pointwise ensures is there for the proofs about RoleCheck below. */
  function LowerAll(roles: seq<string>): (r: seq<string>)
    ensures |r| == |roles| && forall k :: 0 <= k < |r| ==> r[k] == Lower(roles[k])
  {
    seq(|roles|, k requires 0 <= k < |roles| => Lower(roles[k]))
  }

  /** What `requireRole(...roles)` decides for the user on the request:
      None lets the request through. */
  function RoleCheck(user: Option<Payload>, roles: seq<string>): Option<Error> {
    if user.None? then Some(Error(Unauthorized, NotAuthenticated))
    else if |roles| == 0 || RoleName(user.value) in LowerAll(roles) then None
    else Some(Error(Forbidden, InsufficientRole))
  }

  /** Without a user the request is Unauthorized, whatever the roles. */
  lemma AnonymousRejected(roles: seq<string>)
    ensures RoleCheck(None, roles) == Some(Error(Unauthorized, NotAuthenticated))
  {
  }

  /** An empty role list admits every authenticated user. */
  lemma EmptyRolesAdmit(p: Payload)
    ensures RoleCheck(Some(p), []) == None
  {
  }

  /** With roles listed, a user is admitted exactly when the lower-cased role
      equals some lower-cased listed role, and is Forbidden otherwise. */
  lemma RoleMembership(p: Payload, roles: seq<string>)
    requires roles != []
    ensures RoleCheck(Some(p), roles) == None <==> exists k :: 0 <= k < |roles| && Lower(roles[k]) == RoleName(p)
    ensures RoleCheck(Some(p), roles) != None ==> RoleCheck(Some(p), roles) == Some(Error(Forbidden, InsufficientRole))
  {
    if RoleName(p) in LowerAll(roles) {
      var k :| 0 <= k < |roles| && LowerAll(roles)[k] == RoleName(p);
    }
  }

  /** The listed roles are compared lower-cased, so listing them already
      lower-cased changes nothing. */
  lemma RolesPreLowered(user: Option<Payload>, roles: seq<string>)
    ensures RoleCheck(user, LowerAll(roles)) == RoleCheck(user, roles)
  {
    forall k | 0 <= k < |roles|
      ensures LowerAll(LowerAll(roles))[k] == LowerAll(roles)[k]
    {
      LowerIdempotent(roles[k]);
    }
    assert LowerAll(LowerAll(roles)) == LowerAll(roles);
  }

  /** The check ignores letter case on both sides: upper-casing the user's
      role or any listed role changes nothing. */
  lemma RoleCaseInsensitive(p: Payload, roles: seq<string>, k: nat)
    requires p.role.Some? && k < |roles|
    ensures RoleCheck(Some(p.(role := Some(Upper(p.role.value)))), roles) == RoleCheck(Some(p), roles)
    ensures RoleCheck(Some(p), roles[k := Upper(roles[k])]) == RoleCheck(Some(p), roles)
  {
    LowerIgnoresCase(p.role.value);
    LowerIgnoresCase(roles[k]);
    assert LowerAll(roles[k := Upper(roles[k])]) == LowerAll(roles);
  }
}
