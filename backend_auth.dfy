/**
 * The `authenticateToken` middleware: reads `Authorization: Bearer <token>`, verifies the
 * token and either rejects the request or hands the token's user id to the handler. Token
 * verification (`jwt.verify` with the server secret) is the parameter `verify`.
 */
module BackendAuth {
  import opened Wrappers
  import opened Text
  import opened BackendModel

  datatype AuthDecision = Authenticated(userId: UserId) | Rejected(response: Response)

  /** `authHeader.split(' ')[1]` once the header is known to start with "Bearer ", or None
    * when the header is missing, has another scheme, or the token part is empty. */
  function BearerToken(authorization: Option<string>): Option<string> {
    if authorization.None? || !StartsWith(authorization.value, "Bearer ") then None
    else
      var parts := Split(authorization.value, ' ');
      if |parts| < 2 || parts[1] == "" then None else Some(parts[1])
  }

  function Authenticate(authorization: Option<string>, verify: string -> Option<UserId>): AuthDecision {
    match BearerToken(authorization)
    case None => Rejected(AuthenticationRequired)
    case Some(token) =>
      match verify(token)
      case None => Rejected(InvalidToken)
      case Some(userId) => Authenticated(userId)
  }

  /**
   * The header presents `token`: it is "Bearer " followed by the token, which is non-empty
   * and has no space, and the token ends the header or is followed by a space.
   */
  predicate PresentsToken(authorization: Option<string>, token: string) {
    && authorization.Some?
    && token != "" && ' ' !in token
    && StartsWith(authorization.value, "Bearer " + token)
    && (|authorization.value| == 7 + |token| || authorization.value[7 + |token|] == ' ')
  }

  lemma SplitBearer(h: string)
    requires StartsWith(h, "Bearer ")
    ensures Split(h, ' ') == ["Bearer"] + Split(h[7..], ' ')
  {
    assert ' ' !in "Bearer";
    assert h == "Bearer" + [' '] + h[7..];
    IndexOfAfterFree("Bearer", ' ', h[7..]);
    assert IndexOf(h, ' ') == 6;
    assert h[..6] == "Bearer";
    assert h[6 + 1..] == h[7..];
  }

  /** After the scheme, the guard's token is the first space-free piece of the rest. */
  lemma TokenIsFirstPiece(h: string)
    requires StartsWith(h, "Bearer ")
    ensures var p := Split(h[7..], ' ')[0];
      BearerToken(Some(h)) == if p == "" then None else Some(p)
  {
    SplitBearer(h);
  }

  lemma ExtractedIsPresented(h: string, token: string)
    requires BearerToken(Some(h)) == Some(token)
    ensures PresentsToken(Some(h), token)
  {
    TokenIsFirstPiece(h);
    var rest := h[7..];
    SplitFirstPiece(rest, ' ');
    assert h[..7 + |token|] == "Bearer " + rest[..|token|];
  }

  lemma PresentedIsExtracted(h: string, token: string)
    requires PresentsToken(Some(h), token)
    ensures BearerToken(Some(h)) == Some(token)
  {
    var n := 7 + |token|;
    var prefix := h[..n];
    assert prefix == "Bearer " + token;
    assert StartsWith(h, "Bearer ") by {
      assert h[..7] == prefix[..7];
    }
    var rest := h[7..];
    assert StartsWith(rest, token) by {
      assert rest[..|token|] == prefix[7..];
    }
    assert |token| == |rest| || rest[|token|] == ' ';
    FirstPieceUnique(rest, ' ', token);
    TokenIsFirstPiece(h);
  }

  /** The token the guard extracts is exactly the one the header presents. */
  lemma BearerTokenPresented(authorization: Option<string>, token: string)
    ensures BearerToken(authorization) == Some(token) <==> PresentsToken(authorization, token)
  {
    if authorization.Some? {
      if BearerToken(authorization) == Some(token) {
        ExtractedIsPresented(authorization.value, token);
      }
      if PresentsToken(authorization, token) {
        PresentedIsExtracted(authorization.value, token);
      }
    }
  }

  /**
   * A request is rejected with 401 exactly when its header presents no token; a presented
   * token is verified, and the guard answers 403 or passes the token's user id on.
   */
  lemma {:induction false} AuthenticateSpec(authorization: Option<string>, verify: string -> Option<UserId>, token: string)
    ensures Authenticate(authorization, verify) == Rejected(AuthenticationRequired) <==>
      forall t :: !PresentsToken(authorization, t)
    ensures PresentsToken(authorization, token) ==>
      Authenticate(authorization, verify) ==
        if verify(token).Some? then Authenticated(verify(token).value) else Rejected(InvalidToken)
  {
    BearerTokenPresented(authorization, token);
    match BearerToken(authorization)
    case None =>
      forall t ensures !PresentsToken(authorization, t) {
        BearerTokenPresented(authorization, t);
      }
    case Some(t) =>
      BearerTokenPresented(authorization, t);
  }

  /** A header without the "Bearer " scheme never reaches verification. */
  lemma NoBearerScheme(authorization: Option<string>, verify: string -> Option<UserId>)
    requires authorization.None? || !StartsWith(authorization.value, "Bearer ")
    ensures Authenticate(authorization, verify) == Rejected(AuthenticationRequired)
  {
  }

  /** The header a client builds from a signed token reaches verification with that token. */
  lemma ClientHeader(token: string, verify: string -> Option<UserId>)
    requires token != "" && ' ' !in token
    ensures BearerToken(Some("Bearer " + token)) == Some(token)
  {
    assert ("Bearer " + token)[..7 + |token|] == "Bearer " + token;
    BearerTokenPresented(Some("Bearer " + token), token);
  }
}
