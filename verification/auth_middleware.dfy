/**
 The HTTP authentication guard: it reads the `Authorization` header, strips an
 optional `Bearer ` prefix, verifies the token and either attaches the caller's
 identity to the request and passes control on, or answers 401.
 */
module AuthMiddleware {
  import opened Wrappers
  import opened Identity

  const BearerPrefix: string := "Bearer "

  /** `String.prototype.startsWith`. */
  predicate StartsWith(s: string, prefix: string) {
    |prefix| <= |s| && s[..|prefix|] == prefix
  }

  /** The request fields the guard reads and writes. */
  datatype AuthRequest = AuthRequest(
    authorization: Option<string>,
    userId: Option<string>,
    userEmail: Option<string>)

  /**
   What the guard does with a request: `Next` calls the next handler exactly once with
   the updated request; `Reply` answers with a status and message and never calls it.
   */
  datatype Outcome = Next(req: AuthRequest) | Reply(status: int, message: string)

  const MissingToken := Reply(401, "Authentication required")
  const InvalidToken := Reply(401, "Invalid or expired token")

  /** The token carried by the header: the header itself, less a leading `Bearer `. */
  function ExtractToken(header: Option<string>): (token: Option<string>)
    ensures header.None? <==> token.None?
    ensures header.Some? ==>
              header.value == token.value || header.value == BearerPrefix + token.value
    ensures header.Some? && !StartsWith(header.value, BearerPrefix) ==> token == header
  {
    match header
    case None => None
    case Some(h) =>
      if StartsWith(h, BearerPrefix) then
        assert h == BearerPrefix + h[|BearerPrefix|..];
        Some(h[|BearerPrefix|..])
      else Some(h)
  }

  /** A header of the form `Bearer X` yields exactly `X`. */
  lemma BearerRoundTrip(x: string)
    ensures ExtractToken(Some(BearerPrefix + x)) == Some(x)
  {
    var h := BearerPrefix + x;
    assert h[..|BearerPrefix|] == BearerPrefix;
    assert h[|BearerPrefix|..] == x;
  }

  /** The guard (`authenticate`). */
  function Authenticate(req: AuthRequest, verify: Verifier): (o: Outcome)
    ensures o.Reply? ==> o.status == 401
    ensures o.Next? <==>
              var t := ExtractToken(req.authorization);
              Truthy(t) && verify(t.value).Some?
    ensures !Truthy(ExtractToken(req.authorization)) ==> o == MissingToken
    ensures (Truthy(ExtractToken(req.authorization))
             && verify(ExtractToken(req.authorization).value).None?) ==> o == InvalidToken
    ensures o.Next? ==>
              var c := verify(ExtractToken(req.authorization).value).value;
              o.req.userId == Some(c.userId) && o.req.userEmail == Some(c.email)
              && o.req.authorization == req.authorization
  {
    var token := ExtractToken(req.authorization);
    if !Truthy(token) then MissingToken
    else match verify(token.value)
      case None => InvalidToken
      case Some(c) => Next(req.(userId := Some(c.userId), userEmail := Some(c.email)))
  }

  /**
   With no usable token the verifier is never consulted: the outcome is the same
   whatever the verifier would have said.
   */
  lemma MissingTokenSkipsVerification(req: AuthRequest, v1: Verifier, v2: Verifier)
    requires !Truthy(ExtractToken(req.authorization))
    ensures Authenticate(req, v1) == Authenticate(req, v2) == MissingToken
  {
  }

  /** A bare `Bearer ` header carries an empty token and is refused as missing. */
  lemma BareBearerIsMissing(req: AuthRequest, verify: Verifier)
    requires req.authorization == Some(BearerPrefix)
    ensures Authenticate(req, verify) == MissingToken
  {
    BearerRoundTrip("");
    assert BearerPrefix + "" == BearerPrefix;
  }

  /** A `Bearer X` header whose token verifies admits the request with X's claims. */
  lemma BearerAdmits(req: AuthRequest, x: string, verify: Verifier)
    requires req.authorization == Some(BearerPrefix + x)
    requires x != "" && verify(x).Some?
    ensures Authenticate(req, verify)
              == Next(req.(userId := Some(verify(x).value.userId),
                           userEmail := Some(verify(x).value.email)))
  {
    BearerRoundTrip(x);
  }
}
