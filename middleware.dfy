/**
 * `DecodeJWTRequestMiddleware.process_request`: when the request has a user
 * and a non-empty `Authorization` header, strip every "Bearer " from the
 * header, decode the rest as a token and attach its `workspace_id` claim
 * (None when the token has none) to the request. Signature checking is left
 * to the `decode` parameter, which answers None where `jwt.decode` raises.
 */
module Middleware {
  import opened Common
  import opened Text
  import opened Store
  import opened Tokens
  import opened Http

  const AuthorizationHeader := "Authorization"
  const BearerPrefix := "Bearer "

  /** `jwt.decode` raised: the exception escapes the middleware. */
  datatype MiddlewareError = InvalidToken

  /** `headers.get('Authorization')` is truthy. */
  predicate HasAuthorization(headers: map<string, string>)
  {
    AuthorizationHeader in headers && headers[AuthorizationHeader] != ""
  }

  /** `replace('Bearer ', '')`: the text handed to the decoder. */
  function TokenText(header: string): (t: string)
    ensures |t| <= |header|
  {
    RemoveAll(header, BearerPrefix)
  }

  /** The request's `workspace_id` attribute after `process_request`, or the decoder's error. */
  function ProcessedAttr(userTruthy: bool, headers: map<string, string>,
                         decode: string -> Option<Claims>, prior: WorkspaceAttr): (r: Result<WorkspaceAttr, MiddlewareError>)
    ensures !(userTruthy && HasAuthorization(headers)) ==> r == Ok(prior)
    ensures r.Err? <==> userTruthy && HasAuthorization(headers) && decode(TokenText(headers[AuthorizationHeader])).None?
    ensures userTruthy && HasAuthorization(headers) && r.Ok? ==>
      r.value == Set(Claim(decode(TokenText(headers[AuthorizationHeader])).value, WorkspaceIdClaim))
  {
    if userTruthy && HasAuthorization(headers) then
      match decode(TokenText(headers[AuthorizationHeader]))
      case None => Err(InvalidToken)
      case Some(claims) => Ok(Set(Claim(claims, WorkspaceIdClaim)))
    else Ok(prior)
  }

  /** `process_request`, updating the request in place. */
  method ProcessRequest(request: Request, decode: string -> Option<Claims>) returns (r: Result<(), MiddlewareError>)
    modifies request
    ensures request.data == old(request.data)
    ensures r.Ok? <==> ProcessedAttr(request.userTruthy, request.headers, decode, old(request.workspaceAttr)).Ok?
    ensures r.Ok? ==> request.workspaceAttr == ProcessedAttr(request.userTruthy, request.headers, decode, old(request.workspaceAttr)).value
    ensures r.Err? ==> request.workspaceAttr == old(request.workspaceAttr)
  {
    var authorizationToken := if AuthorizationHeader in request.headers then request.headers[AuthorizationHeader] else "";
    if request.userTruthy && authorizationToken != "" {
      var token := RemoveAll(request.headers[AuthorizationHeader], BearerPrefix);
      var decoded := decode(token);
      if decoded.None? {
        return Err(InvalidToken);
      }
      var workspaceId := Claim(decoded.value, WorkspaceIdClaim);
      request.workspaceAttr := Set(workspaceId);
    }
    r := Ok(());
  }

  /** Text lacking some character of "Bearer " contains no "Bearer ". */
  lemma MissingCharNoBearer(s: string, c: char)
    requires c in BearerPrefix && c !in s
    ensures !Contains(s, BearerPrefix)
  {
    forall i | 0 <= i <= |s|
      ensures !OccursAt(s, BearerPrefix, i)
    {
      if i + |BearerPrefix| <= |s| {
        var k :| 0 <= k < |BearerPrefix| && BearerPrefix[k] == c;
        assert s[i..i + |BearerPrefix|][k] == s[i + k] != c;
      }
    }
  }

  /** A token without spaces behind a "Bearer " header reaches the decoder unchanged. */
  lemma BearerTokenText(t: string)
    requires ' ' !in t
    ensures TokenText(BearerPrefix + t) == t
  {
    RemoveAllLeading(BearerPrefix, t);
    assert ' ' in BearerPrefix by { assert BearerPrefix[6] == ' '; }
    MissingCharNoBearer(t, ' ');
    RemoveAllAbsent(t, BearerPrefix);
  }

  /** `p` written `n` times in a row. */
  function Repeated(p: string, n: nat): string
  {
    if n == 0 then "" else p + Repeated(p, n - 1)
  }

  /**
   * Any number of leading "Bearer " prefixes is removed, not only the
   * scheme's: the decoder sees what follows them, treated the same way.
   */
  lemma {:induction false} RepeatedPrefixRemoved(n: nat, t: string)
    ensures TokenText(Repeated(BearerPrefix, n) + t) == TokenText(t)
  {
    if n > 0 {
      var rest := Repeated(BearerPrefix, n - 1) + t;
      assert Repeated(BearerPrefix, n) + t == BearerPrefix + rest;
      RemoveAllLeading(BearerPrefix, rest);
      RepeatedPrefixRemoved(n - 1, t);
    } else {
      assert Repeated(BearerPrefix, n) + t == t;
    }
  }

  /** The scheme is matched case-sensitively: "bearer " stays in the decoded text. */
  lemma LowercaseSchemeKept(t: string)
    requires 'B' !in t
    ensures TokenText("bearer " + t) == "bearer " + t
  {
    assert 'B' in BearerPrefix by { assert BearerPrefix[0] == 'B'; }
    var s := "bearer " + t;
    forall k | 0 <= k < |s| ensures s[k] != 'B'
    {
      if k >= 7 { assert s[k] == t[k - 7]; }
    }
    MissingCharNoBearer(s, 'B');
    RemoveAllAbsent(s, BearerPrefix);
  }

  /** A bearer header carrying a token attaches that token's `workspace_id` claim. */
  lemma BearerHeaderAttachesClaim(t: string, claims: Claims, decode: string -> Option<Claims>, prior: WorkspaceAttr)
    requires ' ' !in t && decode(t) == Some(claims)
    ensures ProcessedAttr(true, map[AuthorizationHeader := BearerPrefix + t], decode, prior)
         == Ok(Set(Claim(claims, WorkspaceIdClaim)))
  {
    BearerTokenText(t);
  }

  /**
   * Round trip with the token issuer: the access token `generate_jwt_token`
   * signs, sent back as a bearer header, attaches exactly the workspace it
   * was issued for.
   */
  lemma IssuedWorkspaceReturns(db: Store, u: User, workspaceId: Option<string>, t: string,
                               decode: string -> Option<Claims>, prior: WorkspaceAttr)
    requires JwtTokens(db, u, workspaceId).Ok?
    requires ' ' !in t && decode(t) == Some(JwtTokens(db, u, workspaceId).value.access)
    ensures ProcessedAttr(true, map[AuthorizationHeader := BearerPrefix + t], decode, prior)
         == Ok(Set(Some(TokenWorkspace(db, u, workspaceId).value)))
  {
    BearerHeaderAttachesClaim(t, JwtTokens(db, u, workspaceId).value.access, decode, prior);
  }

  /** A token issued without the attribute (a superuser's login) attaches None, not "no attribute". */
  lemma UnscopedTokenAttachesNone(u: User, t: string, decode: string -> Option<Claims>, prior: WorkspaceAttr)
    requires ' ' !in t && decode(t) == Some(GetToken(u, Unset))
    ensures ProcessedAttr(true, map[AuthorizationHeader := BearerPrefix + t], decode, prior) == Ok(Set(None))
  {
    BearerHeaderAttachesClaim(t, GetToken(u, Unset), decode, prior);
  }
}
