/**
  Identity extraction: `getUser` reads a bearer token from the `Authorization` header and
  `getUserFromToken` takes the `user_id` claim from the token's middle segment. Decoding that
  segment (base64, then `JSON.parse`) is the runtime's `decodeUserId`.
 */
module Identity {
  import opened Wrappers
  import opened Strings
  import opened Http

  /** What a call of `getUser` does: return a user, or throw. */
  datatype UserLookup = Resolved(user: User) | Raised(error: string)

  /** `getUserFromToken`: a token that is not exactly three dot-separated segments has no
      user; otherwise the claims segment is decoded, which throws on malformed claims. */
  function GetUserFromToken(token: string, rt: Runtime): (r: UserLookup)
    ensures r.Raised? ==> |Split(token, '.')| == 3 && rt.decodeUserId(Split(token, '.')[1]).None?
    ensures r.Resolved? && !r.user.Null? ==> |Split(token, '.')| == 3 && rt.decodeUserId(Split(token, '.')[1]) == Some(r.user)
  {
    var segments := Split(token, '.');
    if |segments| != 3 then Resolved(Null)
    else
      match rt.decodeUserId(segments[1])
      case None => Raised("SyntaxError: malformed token claims")
      case Some(u) => Resolved(u)
  }

  /** `getUser` as written: `auth.match(/\S+/g)` is `null` for a header that is empty or all
      whitespace, and reading `.length` of it throws. */
  function GetUser(req: Request, rt: Runtime): (r: UserLookup)
    ensures req.authorization.None? ==> r == Resolved(Null)
    ensures r.Raised? ==>
              req.authorization.Some?
              && (var parts := Tokens(req.authorization.value);
                  parts == [] || (|parts| >= 2 && ToLowerAscii(parts[0]) == "bearer" && r == GetUserFromToken(parts[1], rt)))
    ensures r.Resolved? && !r.user.Null? ==>
              req.authorization.Some?
              && (var parts := Tokens(req.authorization.value);
                  |parts| >= 2 && ToLowerAscii(parts[0]) == "bearer" && r == GetUserFromToken(parts[1], rt))
  {
    match req.authorization
    case None => Resolved(Null)
    case Some(auth) =>
      var parts := Tokens(auth);
      if parts == [] then Raised("TypeError: Cannot read properties of null (reading 'length')")
      else if |parts| < 2 || ToLowerAscii(parts[0]) != "bearer" then Resolved(Null)
      else GetUserFromToken(parts[1], rt)
  }

  /** `getUser` as evidently intended: a header without a token identifies no user. */
  function GetUserCorrected(req: Request, rt: Runtime): (r: UserLookup)
    ensures r.Raised? ==> req.authorization.Some? && |Tokens(req.authorization.value)| >= 2
                          && r == Raised("SyntaxError: malformed token claims")
  {
    match req.authorization
    case None => Resolved(Null)
    case Some(auth) =>
      var parts := Tokens(auth);
      if |parts| < 2 || ToLowerAscii(parts[0]) != "bearer" then Resolved(Null)
      else GetUserFromToken(parts[1], rt)
  }

  /** A three-segment token yields whatever its middle segment decodes to. */
  lemma ThreeSegmentToken(header: string, claims: string, signature: string, rt: Runtime)
    requires '.' !in header && '.' !in claims && '.' !in signature
    ensures GetUserFromToken(header + "." + claims + "." + signature, rt)
            == match rt.decodeUserId(claims) case None => Raised("SyntaxError: malformed token claims") case Some(u) => Resolved(u)
  {
    var parts := [header, claims, signature];
    assert Join(parts, ".") == header + "." + claims + "." + signature by {
      assert parts[1..] == [claims, signature] && parts[1..][1..] == [signature];
      assert Join([signature], ".") == signature;
      assert Join([claims, signature], ".") == claims + "." + signature;
    }
    SplitOfJoin(parts, '.');
  }

  /** A token with any other number of dots has no user, and never throws. */
  lemma OtherSegmentCount(token: string, rt: Runtime)
    requires Count(token, '.') != 2
    ensures GetUserFromToken(token, rt) == Resolved(Null)
  {
    SplitCount(token, '.');
  }

  /** `Authorization: <scheme> <token>` for a whitespace-free scheme and token: the token is the
      second word whatever the scheme's case, and a user is looked up exactly when the scheme is
      `bearer` in some case. */
  lemma BearerHeader(scheme: string, token: string, req: Request, rt: Runtime)
    requires scheme != [] && NoSpace(scheme) && token != [] && NoSpace(token)
    requires req.authorization == Some(scheme + " " + token)
    ensures ToLowerAscii(scheme) == "bearer" ==> GetUser(req, rt) == GetUserFromToken(token, rt)
    ensures ToLowerAscii(scheme) != "bearer" ==> GetUser(req, rt) == Resolved(Null)
  {
    TokensOfWord(token, "");
    assert token + "" == token;
    assert Tokens(" " + token) == Tokens(token) by {
      assert (" " + token)[1..] == token;
    }
    TokensOfWord(scheme, " " + token);
    assert scheme + " " + token == scheme + (" " + token);
  }

  /** Any string whose characters are all whitespace, the empty string included, has no tokens. */
  lemma {:induction false} BlankHasNoTokens(s: string)
    requires forall k :: 0 <= k < |s| ==> IsSpace(s[k])
    ensures Tokens(s) == []
  {
    if s != [] {
      assert forall k :: 0 <= k < |s[1..]| ==> IsSpace(s[1..][k]) by {
        forall k | 0 <= k < |s[1..]| ensures IsSpace(s[1..][k]) { assert s[1..][k] == s[k + 1]; }
      }
      BlankHasNoTokens(s[1..]);
    }
  }

  /** The header `Authorization: ` (empty, or only whitespace) makes `getUser` throw, where the
      corrected version reports no user. */
  lemma BlankAuthorizationThrows(req: Request, rt: Runtime)
    requires req.authorization.Some?
    requires forall k :: 0 <= k < |req.authorization.value| ==> IsSpace(req.authorization.value[k])
    ensures GetUser(req, rt).Raised?
    ensures GetUserCorrected(req, rt) == Resolved(Null)
  {
    BlankHasNoTokens(req.authorization.value);
  }

  /** The corrected version never throws except where decoding the claims does, and agrees with
      `getUser` on every header that contains a token. */
  lemma CorrectedAgrees(req: Request, rt: Runtime)
    ensures GetUserCorrected(req, rt).Raised? ==> GetUser(req, rt) == GetUserCorrected(req, rt)
    ensures req.authorization.None? || Tokens(req.authorization.value) != [] ==> GetUser(req, rt) == GetUserCorrected(req, rt)
    ensures GetUser(req, rt).Raised? && GetUserCorrected(req, rt).Resolved? ==> GetUserCorrected(req, rt) == Resolved(Null)
  {
  }
}
