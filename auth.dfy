/**
 * auth.py: issuing and checking signed, time-boxed bearer tokens (JSON Web Tokens, RFC 7519,
 * signed with HMAC SHA-256 as in section 3.2 of RFC 7518), and the gate that protects a
 * handler with them.
 *
 * The JWT library is not modelled: a Signer is any pair of encode/decode functions, and the
 * properties proved about the gate assume only what the ghost predicates below say of it.
 * The clock is an integer number of seconds passed in by the caller.
 */
module Auth {
  import opened Wrappers

  const ExpirationHours := 24
  const SecondsPerHour := 3600
  /** A token's lifetime, in seconds. */
  const Lifetime := ExpirationHours * SecondsPerHour
  const FallbackSecret := "fallback-secret-key-change-in-production"
  const AuthorizationHeader := "Authorization"
  const Unauthorized := 401

  /** JWT_SECRET_KEY: the environment's value when it is set (even to ""), else the fallback. */
  function SecretKey(env: Option<string>): (key: string)
    ensures env.Some? ==> key == env.value
    ensures env.None? ==> key == FallbackSecret
  {
    env.GetOr(FallbackSecret)
  }

  /** The two fields of a user record that a token carries. */
  datatype User = User(id: int, username: string)

  /** A token's payload: the registered claims `exp` (section 4.1.4 of RFC 7519) and `iat`
      (section 4.1.6), as whole seconds, plus the user's id and name. `exp` is optional: a
      well-signed token may lack it, and then it never expires. */
  datatype Claims = Claims(userId: int, username: string, exp: Option<int>, iat: int)

  /** PyJWT's expiry rule: a token is expired once the clock reaches its `exp`, if it has one. */
  predicate Expired(claims: Claims, now: int) {
    claims.exp.Some? && claims.exp.value <= now
  }

  /** HS256 encoding with a secret, and decoding that checks the signature against a secret
      (None for a malformed token or a bad signature). Expiry is checked by VerifyToken. */
  datatype Signer = Signer(
    encode: (Claims, string) -> string,
    decode: (string, string) -> Option<Claims>)

  /** Decoding with the signing secret gives back the claims. */
  ghost predicate RoundTrips(signer: Signer) {
    forall claims, key :: signer.decode(signer.encode(claims, key), key) == Some(claims)
  }

  /** A token signed with one secret does not verify under another. This idealises HMAC, which
      signs alike under secrets it pads or hashes to the same block (a short secret and the same
      secret followed by NUL characters, or a long secret and its digest). */
  ghost predicate BoundToKey(signer: Signer) {
    forall claims, key, other :: other != key ==> signer.decode(signer.encode(claims, key), other) == None
  }

  /** A compact JWS (section 7.1 of RFC 7515) is non-empty and contains no space. */
  ghost predicate Compact(signer: Signer) {
    forall claims, key :: signer.encode(claims, key) != [] && ' ' !in signer.encode(claims, key)
  }

  // ---------------------------------------------------------------------------------------
  // Token service

  /** The payload generate_token builds. The clock is read twice: `exp` is the first reading
      plus 24 hours, `iat` is the second reading. */
  function Payload(user: User, firstReading: int, secondReading: int): (claims: Claims)
    ensures claims.userId == user.id && claims.username == user.username
    ensures claims.exp == Some(firstReading + Lifetime) && claims.iat == secondReading
  {
    Claims(user.id, user.username, Some(firstReading + Lifetime), secondReading)
  }

  /** The token lasts 24 hours from issue when both clock readings fall in the same second, and
      never longer when the clock does not run backwards between them. */
  lemma TokenLifetime(user: User, firstReading: int, secondReading: int)
    requires firstReading <= secondReading
    ensures Payload(user, firstReading, secondReading).exp.value <= Payload(user, firstReading, secondReading).iat + Lifetime
    ensures (Payload(user, firstReading, secondReading).exp.value == Payload(user, firstReading, secondReading).iat + Lifetime)
            == (firstReading == secondReading)
    ensures Lifetime == 86400
  {
  }

  /** generate_token. */
  function GenerateToken(signer: Signer, key: string, user: User, firstReading: int, secondReading: int): (token: string)
    ensures RoundTrips(signer) ==> signer.decode(token, key) == Some(Payload(user, firstReading, secondReading))
    ensures Compact(signer) ==> token != [] && ' ' !in token
  {
    signer.encode(Payload(user, firstReading, secondReading), key)
  }

  /** verify_token: the decoded claims of a well-signed token that has not expired, None for an
      invalid or expired one. A token is expired once the clock reaches `exp`; one without `exp`
      is never expired. */
  function VerifyToken(signer: Signer, key: string, token: string, now: int): (payload: Option<Claims>)
    ensures payload.Some? ==> signer.decode(token, key) == payload && !Expired(payload.value, now)
    ensures payload.None? ==> signer.decode(token, key).None? || Expired(signer.decode(token, key).value, now)
  {
    match signer.decode(token, key)
    case None => None
    case Some(claims) => if Expired(claims, now) then None else Some(claims)
  }

  /** A token verified before it expires gives back the user it was issued to. */
  lemma VerifyFreshToken(signer: Signer, key: string, user: User, firstReading: int, secondReading: int, now: int)
    requires RoundTrips(signer)
    requires now < firstReading + Lifetime
    ensures VerifyToken(signer, key, GenerateToken(signer, key, user, firstReading, secondReading), now)
            == Some(Payload(user, firstReading, secondReading))
    ensures VerifyToken(signer, key, GenerateToken(signer, key, user, firstReading, secondReading), now).value.userId == user.id
    ensures VerifyToken(signer, key, GenerateToken(signer, key, user, firstReading, secondReading), now).value.username == user.username
  {
    var claims := Payload(user, firstReading, secondReading);
    assert signer.decode(signer.encode(claims, key), key) == Some(claims);
  }

  /** Once 24 hours have passed since the first clock reading, the token no longer verifies. */
  lemma VerifyExpiredToken(signer: Signer, key: string, user: User, firstReading: int, secondReading: int, now: int)
    requires RoundTrips(signer)
    requires now >= firstReading + Lifetime
    ensures VerifyToken(signer, key, GenerateToken(signer, key, user, firstReading, secondReading), now) == None
  {
    var claims := Payload(user, firstReading, secondReading);
    assert signer.decode(signer.encode(claims, key), key) == Some(claims);
  }

  /** A well-signed token without `exp` verifies at every time, to its own claims. */
  lemma VerifyTokenWithoutExp(signer: Signer, key: string, token: string, claims: Claims, now: int)
    requires signer.decode(token, key) == Some(claims) && claims.exp == None
    ensures VerifyToken(signer, key, token, now) == Some(claims)
    ensures forall later :: VerifyToken(signer, key, token, later) == Some(claims)
  {
    forall later ensures VerifyToken(signer, key, token, later) == Some(claims) {
      assert !Expired(claims, later);
    }
  }

  /** A token signed with another secret does not verify. */
  lemma VerifyOtherSecret(signer: Signer, key: string, other: string, user: User,
                          firstReading: int, secondReading: int, now: int)
    requires BoundToKey(signer) && other != key
    ensures VerifyToken(signer, other, GenerateToken(signer, key, user, firstReading, secondReading), now) == None
  {
    var claims := Payload(user, firstReading, secondReading);
    assert signer.decode(signer.encode(claims, key), other) == None;
  }

  // ---------------------------------------------------------------------------------------
  // Header parsing: Python's `header.split(" ")`

  /** `s.split(" ")`: the pieces between single spaces, empty pieces included. */
  function Split(s: string): (parts: seq<string>)
    ensures |parts| >= 1
  {
    if s == [] then [""]
    else
      var rest := Split(s[1..]);
      if s[0] == ' ' then [""] + rest else [[s[0]] + rest[0]] + rest[1..]
  }

  /** `" ".join(parts)`. */
  function Join(parts: seq<string>): string
    requires |parts| >= 1
  {
    if |parts| == 1 then parts[0] else parts[0] + " " + Join(parts[1..])
  }

  /** Splitting loses nothing: joining the pieces with spaces rebuilds the header. */
  lemma {:induction false} SplitJoin(s: string)
    ensures Join(Split(s)) == s
  {
    if s != [] {
      var rest := Split(s[1..]);
      SplitJoin(s[1..]);
      if s[0] == ' ' {
        assert Split(s) == [""] + rest;
        assert ([""] + rest)[1..] == rest;
      } else {
        var parts := [[s[0]] + rest[0]] + rest[1..];
        assert Split(s) == parts;
        if |rest| == 1 {
          assert Join(parts) == [s[0]] + rest[0];
        } else {
          assert parts[1..] == rest[1..];
          assert Join(rest) == rest[0] + " " + Join(rest[1..]);
        }
        assert s == [s[0]] + s[1..];
      }
    }
  }

  /** No piece contains a space. */
  lemma {:induction false} SplitPiecesHaveNoSpace(s: string)
    ensures forall part :: part in Split(s) ==> ' ' !in part
  {
    if s != [] {
      var rest := Split(s[1..]);
      SplitPiecesHaveNoSpace(s[1..]);
      if s[0] != ' ' {
        assert rest[0] in rest;
        assert forall part :: part in rest[1..] ==> part in rest;
      }
    }
  }

  /** There is a second piece exactly when the header contains a space. */
  lemma {:induction false} SplitHasSecondPiece(s: string)
    ensures |Split(s)| >= 2 <==> ' ' in s
  {
    if s != [] {
      SplitHasSecondPiece(s[1..]);
      assert s == [s[0]] + s[1..];
    }
  }

  /** A space-free word followed by a space splits into that word and the pieces of the rest. */
  lemma {:induction false} SplitAfterWord(word: string, rest: string)
    requires ' ' !in word
    ensures Split(word + " " + rest) == [word] + Split(rest)
  {
    if word == [] {
      assert word + " " + rest == [' '] + rest;
      assert ([' '] + rest)[1..] == rest;
    } else {
      var s := word + " " + rest;
      assert s[0] == word[0] && s[1..] == word[1..] + " " + rest;
      SplitAfterWord(word[1..], rest);
      assert [word[0]] + word[1..] == word;
    }
  }

  /** A space-free string is one piece. */
  lemma {:induction false} SplitWord(word: string)
    requires ' ' !in word
    ensures Split(word) == [word]
  {
    if word != [] {
      SplitWord(word[1..]);
      assert [word[0]] + word[1..] == word;
    }
  }

  /** The token field of the Authorization header: the second `" "`-separated piece. The first
      piece is not looked at; a header without a space has no second piece. */
  function TokenField(header: string): (token: Option<string>)
    ensures token.None? <==> ' ' !in header
    ensures token.Some? ==> ' ' !in token.value
  {
    SplitHasSecondPiece(header);
    SplitPiecesHaveNoSpace(header);
    var parts := Split(header);
    if |parts| < 2 then None
    else
      assert parts[1] in parts;
      Some(parts[1])
  }

  /** Whatever the first word is, the token field is the word after the first space. */
  lemma TokenFieldAfterScheme(scheme: string, token: string)
    requires ' ' !in scheme && ' ' !in token
    ensures TokenField(scheme + " " + token) == Some(token)
  {
    SplitAfterWord(scheme, token);
    SplitWord(token);
  }

  /** "Bearer " and "Bearer  x" (two spaces) have an empty token field. */
  lemma EmptyTokenFields()
    ensures TokenField("Bearer ") == Some("")
    ensures TokenField("Bearer  x") == Some("")
  {
    TokenFieldAfterScheme("Bearer", "");
    assert "Bearer " == "Bearer" + " " + "";
    SplitAfterWord("Bearer", " x");
    SplitAfterWord("", "x");
    assert "Bearer  x" == "Bearer" + " " + " x";
    assert " x" == "" + " " + "x";
  }

  // ---------------------------------------------------------------------------------------
  // The gate: token_required

  datatype Rejection = TokenMissing | InvalidFormat | InvalidOrExpired

  function ErrorMessage(reason: Rejection): (message: string)
    ensures message != []
  {
    match reason
    case TokenMissing => "Token is missing"
    case InvalidFormat => "Invalid token format"
    case InvalidOrExpired => "Token is invalid or expired"
  }

  /** The three 401 messages are pairwise different, so a client can tell which check failed. */
  lemma ErrorMessagesDistinct(a: Rejection, b: Rejection)
    requires a != b
    ensures ErrorMessage(a) != ErrorMessage(b)
  {
    assert ErrorMessage(a)[0] != ErrorMessage(b)[0] || ErrorMessage(a)[9] != ErrorMessage(b)[9];
  }

  /** What the gate decides about a request, as a function of its headers. */
  datatype Decision = Reject(reason: Rejection) | Admit(payload: Claims)

  function Decide(headers: map<string, string>, signer: Signer, key: string, now: int): (d: Decision)
    ensures d.Admit? ==> && AuthorizationHeader in headers
                         && TokenField(headers[AuthorizationHeader]).Some?
                         && signer.decode(TokenField(headers[AuthorizationHeader]).value, key) == Some(d.payload)
                         && !Expired(d.payload, now)
    ensures d == Reject(InvalidFormat) ==> AuthorizationHeader in headers
  {
    if AuthorizationHeader !in headers then Reject(TokenMissing)
    else
      match TokenField(headers[AuthorizationHeader])
      case None => Reject(InvalidFormat)
      case Some(token) =>
        if token == "" then Reject(TokenMissing)
        else
          match VerifyToken(signer, key, token, now)
          case None => Reject(InvalidOrExpired)
          case Some(payload) => Admit(payload)
  }

  /** The four outcomes, each with the condition that leads to it. */
  lemma DecideOutcomes(headers: map<string, string>, signer: Signer, key: string, now: int)
    ensures Decide(headers, signer, key, now) == Reject(TokenMissing) <==>
              AuthorizationHeader !in headers || TokenField(headers[AuthorizationHeader]) == Some("")
    ensures Decide(headers, signer, key, now) == Reject(InvalidFormat) <==>
              AuthorizationHeader in headers && ' ' !in headers[AuthorizationHeader]
    ensures Decide(headers, signer, key, now) == Reject(InvalidOrExpired) <==>
              AuthorizationHeader in headers
              && (var token := TokenField(headers[AuthorizationHeader]);
                  token.Some? && token.value != "" && VerifyToken(signer, key, token.value, now).None?)
    ensures forall payload :: Decide(headers, signer, key, now) == Admit(payload) <==>
              AuthorizationHeader in headers
              && (var token := TokenField(headers[AuthorizationHeader]);
                  token.Some? && token.value != "" && VerifyToken(signer, key, token.value, now) == Some(payload))
  {
  }

  /** A header "<scheme> <token>" carrying a fresh token issued by this service is admitted with
      the token's payload, whatever the scheme word is. */
  lemma GateAdmitsFreshToken(headers: map<string, string>, signer: Signer, key: string, scheme: string,
                             user: User, firstReading: int, secondReading: int, now: int)
    requires RoundTrips(signer) && Compact(signer)
    requires ' ' !in scheme
    requires AuthorizationHeader in headers
    requires headers[AuthorizationHeader] == scheme + " " + GenerateToken(signer, key, user, firstReading, secondReading)
    requires now < firstReading + Lifetime
    ensures Decide(headers, signer, key, now) == Admit(Payload(user, firstReading, secondReading))
  {
    var claims := Payload(user, firstReading, secondReading);
    var token := GenerateToken(signer, key, user, firstReading, secondReading);
    assert token != [] && ' ' !in token;
    TokenFieldAfterScheme(scheme, token);
    VerifyFreshToken(signer, key, user, firstReading, secondReading, now);
  }

  /** The scheme word is never checked: two headers that differ only in it are decided alike. */
  lemma GateIgnoresScheme(headers: map<string, string>, signer: Signer, key: string, now: int,
                          scheme: string, other: string, token: string)
    requires ' ' !in scheme && ' ' !in other && ' ' !in token
    ensures Decide(headers[AuthorizationHeader := scheme + " " + token], signer, key, now)
            == Decide(headers[AuthorizationHeader := other + " " + token], signer, key, now)
  {
    TokenFieldAfterScheme(scheme, token);
    TokenFieldAfterScheme(other, token);
  }

  /** "Bearer " and "Bearer  x" count as a missing token; a header with no space at all is
      malformed. */
  lemma GateHeaderExamples(headers: map<string, string>, signer: Signer, key: string, now: int)
    ensures Decide(headers[AuthorizationHeader := "Bearer "], signer, key, now) == Reject(TokenMissing)
    ensures Decide(headers[AuthorizationHeader := "Bearer  x"], signer, key, now) == Reject(TokenMissing)
    ensures Decide(headers[AuthorizationHeader := "Bearer"], signer, key, now) == Reject(InvalidFormat)
    ensures Decide(headers[AuthorizationHeader := ""], signer, key, now) == Reject(InvalidFormat)
  {
    EmptyTokenFields();
  }

  /** What the gated handler's caller gets: the 401 rejection, or the handler's own result. */
  datatype GateReply<R> = Denied(status: int, error: string) | Handled(response: R)

  /** The request-scoped state the gate reads and writes. */
  class Request {
    const headers: map<string, string>
    /** `request.current_user`; None while the attribute is not set. */
    var currentUser: Option<Claims>
    /** How many times the wrapped handler has run for this request. */
    ghost var handlerCalls: nat

    constructor (headers: map<string, string>)
      ensures this.headers == headers && currentUser == None && handlerCalls == 0
    {
      this.headers := headers;
      currentUser := None;
      handlerCalls := 0;
    }

    /** get_current_user: the payload the gate stored, or None when it stored none. */
    method GetCurrentUser() returns (user: Option<Claims>)
      ensures user == currentUser
    {
      user := currentUser;
    }

    /** token_required around `handler`, which sees the request's current user. A rejection
        short-circuits: the handler does not run and nothing is stored. On success the payload
        is stored and the handler runs exactly once, its result passed back unchanged. */
    method TokenRequired<R>(signer: Signer, key: string, now: int, handler: Option<Claims> -> R)
      returns (reply: GateReply<R>)
      modifies this
      ensures Decide(headers, signer, key, now).Reject? ==>
                && reply == Denied(Unauthorized, ErrorMessage(Decide(headers, signer, key, now).reason))
                && currentUser == old(currentUser) && handlerCalls == old(handlerCalls)
      ensures Decide(headers, signer, key, now).Admit? ==>
                && currentUser == Some(Decide(headers, signer, key, now).payload)
                && handlerCalls == old(handlerCalls) + 1
                && reply == Handled(handler(currentUser))
    {
      var token: Option<string> := None;
      if AuthorizationHeader in headers {
        var parts := Split(headers[AuthorizationHeader]);
        if |parts| < 2 {
          return Denied(Unauthorized, ErrorMessage(InvalidFormat));
        }
        token := Some(parts[1]);
      }
      if token.None? || token.value == "" {
        return Denied(Unauthorized, ErrorMessage(TokenMissing));
      }
      var payload := VerifyToken(signer, key, token.value, now);
      if payload.None? {
        return Denied(Unauthorized, ErrorMessage(InvalidOrExpired));
      }
      currentUser := payload;
      handlerCalls := handlerCalls + 1;
      reply := Handled(handler(currentUser));
    }
  }

  /** A fresh request whose token fails verification is turned away before the handler runs,
      and afterwards no current user is set. */
  method RejectedRequest<R>(headers: map<string, string>, signer: Signer, key: string, now: int,
                            handler: Option<Claims> -> R)
    returns (reply: GateReply<R>, ghost calls: nat, user: Option<Claims>)
    requires AuthorizationHeader in headers
    requires TokenField(headers[AuthorizationHeader]).Some?
    requires TokenField(headers[AuthorizationHeader]).value != ""
    requires VerifyToken(signer, key, TokenField(headers[AuthorizationHeader]).value, now).None?
    ensures reply == Denied(401, "Token is invalid or expired")
    ensures calls == 0 && user == None
  {
    var request := new Request(headers);
    reply := request.TokenRequired(signer, key, now, handler);
    calls := request.handlerCalls;
    user := request.GetCurrentUser();
  }
}
