/**
 * The `protect` middleware: it reads a token from the `Authorization`
 * header, verifies it and looks up its user. Token verification and the
 * user lookup are passed in as functions.
 */
module AuthMiddleware {
  import opened Wrappers
  import opened Seqs
  import opened AuthController

  const NoToken: string := "Not authorized, no token"
  const TokenFailed: string := "Not authorized, token failed"

  /** How a request leaves the middleware: on to the handler with `req.user` set, or a 401 with a message. */
  datatype Outcome = Next(user: Option<User>) | Unauthorized(message: string)

  /** The guard: the header is present and starts with `Bearer` (no space needed after it). */
  predicate HasBearerPrefix(header: Option<string>)
  {
    header.Some? && StartsWith(header.value, "Bearer")
  }

  /** `header.split(' ')[1]`: the second space-separated field, when there is one. */
  function TokenOf(header: string): (t: Option<string>)
    ensures t.Some? <==> |Split(header, ' ')| >= 2
    ensures t.Some? ==> ' ' !in t.value && t.value == Split(header, ' ')[1]
  {
    var fields := Split(header, ' ');
    if |fields| >= 2 then Some(fields[1]) else None
  }

  /**
   * `protect`: no token without a `Bearer` header; otherwise a missing or
   * empty token, or one `verify` refuses, fails; a verified token passes
   * with the user found for its id (which may be none).
   */
  function Protect(header: Option<string>, verify: string -> Option<UserId>,
                   findById: UserId -> Option<User>): (o: Outcome)
    ensures o.Unauthorized? ==> o.message == NoToken || o.message == TokenFailed
    ensures o == Unauthorized(NoToken) <==> !HasBearerPrefix(header)
    ensures o.Next? <==>
      (&& HasBearerPrefix(header) && TokenOf(header.value).Some? && TokenOf(header.value).value != ""
       && verify(TokenOf(header.value).value).Some?)
    ensures o.Next? ==> o.user == findById(verify(TokenOf(header.value).value).value)
  {
    if !HasBearerPrefix(header) then Unauthorized(NoToken)
    else
      match TokenOf(header.value)
      case None => Unauthorized(TokenFailed)
      case Some(token) =>
        if token == "" then Unauthorized(TokenFailed)
        else
          match verify(token)
          case None => Unauthorized(TokenFailed)
          case Some(id) => Next(findById(id))
  }

  /** `Bearer <token>` carries the token back out, for any non-empty token without spaces. */
  lemma BearerTokenRoundTrip(t: string)
    requires t != "" && ' ' !in t
    ensures HasBearerPrefix(Some("Bearer " + t))
    ensures TokenOf("Bearer " + t) == Some(t)
  {
    assert "Bearer " + t == "Bearer" + [' '] + t;
    SplitAfterField("Bearer", ' ', t);
    SplitWithoutSeparator(t, ' ');
  }

  /** A well-formed `Bearer` header with a token `verify` accepts reaches the handler with that token's user. */
  lemma ProtectAcceptsBearer(t: string, verify: string -> Option<UserId>, findById: UserId -> Option<User>)
    requires t != "" && ' ' !in t && verify(t).Some?
    ensures Protect(Some("Bearer " + t), verify, findById) == Next(findById(verify(t).value))
  {
    BearerTokenRoundTrip(t);
  }

  /**
   * The prefix test does not require the space: `Bearer` glued to more
   * letters still passes, and the token is the field after the first space.
   */
  lemma GluedSchemeAccepted(w: string, t: string, verify: string -> Option<UserId>, findById: UserId -> Option<User>)
    requires ' ' !in w && t != "" && ' ' !in t
    ensures Protect(Some("Bearer" + w + " " + t), verify, findById) == Protect(Some("Bearer " + t), verify, findById)
  {
    var h := "Bearer" + w + " " + t;
    assert h[..6] == "Bearer";
    assert h == ("Bearer" + w) + [' '] + t;
    assert ' ' !in "Bearer" + w;
    SplitAfterField("Bearer" + w, ' ', t);
    SplitWithoutSeparator(t, ' ');
    BearerTokenRoundTrip(t);
  }

  /** The scheme is matched case-sensitively: a lower-case `bearer` header counts as no token. */
  lemma LowerCaseSchemeRejected(t: string, verify: string -> Option<UserId>, findById: UserId -> Option<User>)
    ensures Protect(Some("bearer " + t), verify, findById) == Unauthorized(NoToken)
  {
    assert ("bearer " + t)[0] == 'b';
  }

  /** A header that is only the scheme has no second field, so the token fails rather than being absent. */
  lemma SchemeOnlyFails(verify: string -> Option<UserId>, findById: UserId -> Option<User>)
    ensures Protect(Some("Bearer"), verify, findById) == Unauthorized(TokenFailed)
  {
    SplitWithoutSeparator("Bearer", ' ');
  }
}
