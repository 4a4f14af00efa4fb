/** The backend's three authentication middlewares. Each reads the request's
    headers, then either sets the request's user and passes the request on, or
    answers it with an error status. Signature checking (`jwt.verify`) is an
    oracle that yields the token's payload, or nothing when it throws. */
module Auth {
  import opened Results
  import opened Text

  datatype User = User(id: string, email: string, name: string)

  /** The claims a verified token carries. */
  datatype Payload = Payload(userId: string, email: string)

  /** `jwt.verify(token, secret)`: the payload, or `None` for a bad token. */
  type Verifier = (string, string) -> Option<Payload>

  const TokenRequired: string := "Access token required"
  const InvalidToken: string := "Invalid or expired token"
  const MockUserId: string := "mock-user-id"
  const DefaultMockEmail: string := "test@microsoft.com"

  /** `authHeader && authHeader.split(' ')[1]`, kept only when truthy: the
      second space-separated piece of the header. The first piece, the scheme,
      is not looked at. */
  function Token(header: Option<string>): (t: Option<string>)
    ensures t.Some? ==> t.value != "" && ' ' !in t.value
  {
    if !Truthy(header) then None
    else
      var parts := Split(header.value, ' ');
      SplitNoSep(header.value, ' ');
      if |parts| < 2 || parts[1] == "" then None else Some(parts[1])
  }

  /** Any scheme word followed by one space and the token gives the token; what
      follows another space is ignored. */
  lemma TokenAfterScheme(scheme: string, token: string, rest: string)
    requires ' ' !in scheme && ' ' !in token
    requires rest == "" || rest[0] == ' '
    ensures Token(Some(scheme + " " + token + rest)) == if token == "" then None else Some(token)
  {
    var h := scheme + " " + token + rest;
    assert h == scheme + [' '] + (token + rest);
    SplitPrefix(scheme, token + rest, ' ');
    if rest == "" {
      assert token + rest == token;
      SplitWhole(token, ' ');
    } else {
      assert token + rest == token + [' '] + rest[1..];
      SplitPrefix(token, rest[1..], ' ');
    }
  }

  /** A header without a space carries no token. */
  lemma TokenNeedsSpace(header: string)
    requires ' ' !in header
    ensures Token(Some(header)).None?
  {
    SplitWhole(header, ' ');
  }

  /** `email.split('@')[0]`: the email up to its first `@`. */
  function NameOf(email: string): (name: string)
    ensures StartsWith(email, name) && '@' !in name
    ensures |name| < |email| ==> email[|name|] == '@'
  {
    FirstPiece(email, '@');
    Split(email, '@')[0]
  }

  /** The name of `local@domain` is `local`. */
  lemma NameOfAddress(local: string, domain: string)
    requires '@' !in local
    ensures NameOf(local + "@" + domain) == local
  {
    var email := local + "@" + domain;
    assert email == local + ['@'] + domain;
    SplitPrefix(local, domain, '@');
  }

  function UserFrom(p: Payload): User {
    User(p.userId, p.email, NameOf(p.email))
  }

  /** The user a request authenticates as: a token is present, a secret is
      configured and the token verifies against it. */
  function Authenticated(header: Option<string>, secret: Option<string>, verify: Verifier): (u: Option<User>)
    ensures u.Some? <==> Token(header).Some? && Truthy(secret) && verify(Token(header).value, secret.value).Some?
    ensures u.Some? ==> var p := verify(Token(header).value, secret.value).value;
      u.value.id == p.userId && u.value.email == p.email && u.value.name == NameOf(p.email)
  {
    var token := Token(header);
    if token.None? || !Truthy(secret) then None
    else
      match verify(token.value, secret.value)
      case None => None
      case Some(p) => Some(UserFrom(p))
  }

  /** The email `mockAuth` signs in with: the `x-mock-user` header when truthy,
      otherwise the default address. */
  function MockEmail(mockHeader: Option<string>): (email: string)
    ensures Truthy(mockHeader) ==> email == mockHeader.value
    ensures !Truthy(mockHeader) ==> email == DefaultMockEmail
    ensures email != ""
  {
    if Truthy(mockHeader) then mockHeader.value else DefaultMockEmail
  }

  /** A request passing through the middleware, with the response it may be
      given instead. */
  class Exchange {
    const authorization: Option<string>
    const mockUser: Option<string>
    var user: Option<User>
    /** The status and error body, once a middleware answers the request. */
    var status: Option<nat>
    var error: Option<string>

    constructor(authorization: Option<string>, mockUser: Option<string>)
      ensures this.authorization == authorization && this.mockUser == mockUser
      ensures user.None? && status.None? && error.None?
    {
      this.authorization := authorization;
      this.mockUser := mockUser;
      user := None;
      status := None;
      error := None;
    }
  }

  /** `authenticateToken`: 401 without a token, 403 without a secret or with a
      token that does not verify, otherwise the user is set and the request
      passed on (`passed` says whether `next()` was called). */
  method AuthenticateToken(x: Exchange, secret: Option<string>, verify: Verifier) returns (passed: bool)
    modifies x
    ensures var u := Authenticated(x.authorization, secret, verify);
      && (passed <==> u.Some?)
      && (u.Some? ==> x.user == u && x.status == old(x.status) && x.error == old(x.error))
    ensures Token(x.authorization).None? ==>
      x.status == Some(401) && x.error == Some(TokenRequired) && x.user == old(x.user)
    ensures Token(x.authorization).Some? && Authenticated(x.authorization, secret, verify).None? ==>
      x.status == Some(403) && x.error == Some(InvalidToken) && x.user == old(x.user)
  {
    var token := Token(x.authorization);
    if token.None? {
      x.status, x.error := Some(401), Some(TokenRequired);
      return false;
    }
    if !Truthy(secret) {
      x.status, x.error := Some(403), Some(InvalidToken);
      return false;
    }
    var decoded := verify(token.value, secret.value);
    if decoded.None? {
      x.status, x.error := Some(403), Some(InvalidToken);
      return false;
    }
    x.user := Some(UserFrom(decoded.value));
    passed := true;
  }

  /** `mockAuth`: always signs the request in as the mock user and passes it on. */
  method MockAuth(x: Exchange) returns (passed: bool)
    modifies x
    ensures passed && x.status == old(x.status) && x.error == old(x.error)
    ensures var email := MockEmail(x.mockUser);
      x.user == Some(User(MockUserId, email, NameOf(email)))
  {
    var email := MockEmail(x.mockUser);
    x.user := Some(User(MockUserId, email, NameOf(email)));
    passed := true;
  }

  /** `optionalAuth`: never answers the request. A token that verifies sets the
      user; anything else leaves the request as it was. */
  method OptionalAuth(x: Exchange, secret: Option<string>, verify: Verifier) returns (passed: bool)
    modifies x
    ensures passed && x.status == old(x.status) && x.error == old(x.error)
    ensures var u := Authenticated(x.authorization, secret, verify);
      x.user == if u.Some? then u else old(x.user)
  {
    var token := Token(x.authorization);
    if token.Some? && Truthy(secret) {
      var decoded := verify(token.value, secret.value);
      if decoded.Some? {
        x.user := Some(UserFrom(decoded.value));
      }
    }
    passed := true;
  }
}
