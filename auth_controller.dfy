/** `AuthController`: registration into the user table, and login, which
    checks the password and issues a token. */
module AuthControllers {
  import opened Basics
  import opened Guids
  import opened Clock
  import opened Claims
  import opened Passwords
  import opened UserEntity
  import opened AuthModels
  import opened Database
  import opened ExpenseControllers

  const EmailInUseMessage: string := "Email already in use."
  const InvalidCredentialsMessage: string := "Invalid credentials."

  /** The `Jwt` configuration section, with `ExpiresMinutes` read as a whole
      number of minutes. The signing key is not part of this model. */
  datatype JwtSettings = JwtSettings(issuer: string, audience: string, expiresMinutes: int)

  /** `MapToUserDto`: the id, full name and address, copied. */
  function MapToUserDto(u: User): (d: AuthUserDto)
    ensures d.id == u.id && d.fullName == u.fullName && d.email == u.email
  {
    AuthUserDto(u.id, u.fullName, u.email)
  }

  /** The public view never shows the password hash or salt: users that differ
      only in those (or in their timestamps) have the same view, and the view
      carries the id, name and address. */
  lemma UserDtoHidesSecrets(u: User, hash: seq<byte>, salt: seq<byte>, created: int, updated: Option<int>)
    ensures MapToUserDto(u) == MapToUserDto(u.(passwordHash := hash, passwordSalt := salt,
                                               createdAtUtc := created, updatedAtUtc := updated))
    ensures MapToUserDto(u).id == u.id && MapToUserDto(u).fullName == u.fullName && MapToUserDto(u).email == u.email
  {
  }

  /** `GenerateJwtToken`: a token with exactly the three claims `sub` (the
      id's "D" form), `email` and `fullName`, expiring `ExpiresMinutes` after
      `now`, together with the user's public view. */
  function GenerateJwtToken(settings: JwtSettings, user: User, now: int): (r: AuthResponse)
    ensures r.expiresAt == AddMinutes(now, settings.expiresMinutes) && r.token.expires == r.expiresAt
    ensures settings.expiresMinutes >= 0 ==> r.expiresAt >= now
    ensures r.token.issuer == settings.issuer && r.token.audience == settings.audience
    ensures |r.token.claims| == 3
    ensures FindFirstValue(r.token.claims, SubType) == Some(Format(user.id))
    ensures FindFirstValue(r.token.claims, JwtEmailType) == Some(user.email)
    ensures FindFirstValue(r.token.claims, FullNameType) == Some(user.fullName)
    ensures r.user == MapToUserDto(user)
  {
    var claims := [Claim(SubType, Format(user.id)), Claim(JwtEmailType, user.email), Claim(FullNameType, user.fullName)];
    FindFirstValueAt(claims, SubType, 0);
    assert !SameType(claims[0].kind, JwtEmailType) && !SameType(claims[0].kind, FullNameType);
    assert !SameType(claims[1].kind, FullNameType);
    FindFirstValueAt(claims, JwtEmailType, 1);
    FindFirstValueAt(claims, FullNameType, 2);
    var expires := AddMinutes(now, settings.expiresMinutes);
    AuthResponse(JwtToken(settings.issuer, settings.audience, claims, expires), expires, MapToUserDto(user))
  }

  /** The token round trip: the id `GetUserId` reads back from an issued
      token is the user's id, both from the claims as issued and from the
      claims after the token handler's inbound type map. */
  lemma IssuedTokenIdentifiesUser(settings: JwtSettings, user: User, now: int)
    ensures GetUserId(GenerateJwtToken(settings, user, now).token.claims) == Ok(user.id)
    ensures GetUserId(MapInbound(GenerateJwtToken(settings, user, now).token.claims)) == Ok(user.id)
  {
    var claims := GenerateJwtToken(settings, user, now).token.claims;
    assert claims[0] == Claim(SubType, Format(user.id));
    ParseFormat(user.id);
    forall j | 0 <= j < |claims| ensures !SameType(claims[j].kind, NameIdentifierType) {
      assert |claims[j].kind| < |NameIdentifierType|;
    }
    SubIsTheFallback(claims, 0);
    var inbound := MapInbound(claims);
    assert inbound[0] == Claim(NameIdentifierType, Format(user.id));
    NameIdentifierTakesPrecedence(inbound, 0);
  }

  /** The address check is exact: an address that differs from a stored one
      only in letter case is not in use. */
  lemma EmailCheckIsCaseSensitive(users: map<Guid, User>, k: Guid)
    requires users.Keys == {k} && users[k].email == "a@b.com"
    ensures EmailInUse(users, "a@b.com")
    ensures !EmailInUse(users, "A@b.com")
  {
    assert "a@b.com"[0] != "A@b.com"[0];
  }

  class AuthController {
    const context: ApplicationDbContext
    const jwt: JwtSettings
    const passwords: PasswordHasher

    constructor (context: ApplicationDbContext, jwt: JwtSettings, passwords: PasswordHasher)
      ensures this.context == context && this.jwt == jwt && this.passwords == passwords
    {
      this.context := context;
      this.jwt := jwt;
      this.passwords := passwords;
    }

    /** `POST api/Auth/register`, with the fresh id and the helper's random
        salt passed in. */
    method Register(request: RegisterRequest, now: int, newId: Guid, salt: seq<byte>)
      returns (r: Result<RegisterResponse, ApiError>)
      requires context.Valid()
      modifies context
      ensures context.Valid() && context.expenses == old(context.expenses)
      ensures !IsValidRegisterRequest(request) ==> r == Err(ValidationFailed) && context.users == old(context.users)
      ensures IsValidRegisterRequest(request) && EmailInUse(old(context.users), request.email) ==>
                r == Err(BadRequest(EmailInUseMessage)) && context.users == old(context.users)
      ensures IsValidRegisterRequest(request) && !EmailInUse(old(context.users), request.email) ==>
                var u := NewUser(newId, request.fullName, request.email,
                                 CreatePasswordHash(passwords, request.password, salt).hash, salt, now);
                if newId !in old(context.users)
                then r == Ok(RegisterResponse(MapToUserDto(u), now)) && context.users == old(context.users)[newId := u]
                else r == Err(StoreRejected) && context.users == old(context.users)
      ensures r.Ok? ==> r.value.user.email == request.email && r.value.user.fullName == request.fullName
                        && r.value.user.id == newId && r.value.user.id !in old(context.users)
    {
      if !IsValidRegisterRequest(request) {
        return Err(ValidationFailed);
      }
      if EmailInUse(context.users, request.email) {
        return Err(BadRequest(EmailInUseMessage));
      }
      var secret := CreatePasswordHash(passwords, request.password, salt);
      var user := NewUser(newId, request.fullName, request.email, secret.hash, secret.salt, now);
      ValidRegistrationMakesValidUser(request, newId, secret.hash, secret.salt, now);
      AnnotationsFitColumns(user);
      var saved := context.InsertUser(user);
      if !saved {
        return Err(StoreRejected);
      }
      r := Ok(RegisterResponse(MapToUserDto(user), user.createdAtUtc));
    }

    /** `POST api/Auth/login`: the one user with that address, when the
        password verifies against the user's stored hash and salt, gets a
        token; a missing user and a wrong password get the same answer. */
    function Login(request: LoginRequest, now: int): (r: Result<AuthResponse, ApiError>)
      requires context.Valid()
      reads context
      ensures r.Err? ==> r.error == Unauthorized(InvalidCredentialsMessage)
      ensures r.Ok? <==> exists k :: k in context.users && context.users[k].email == request.email
                                  && VerifyPasswordHash(passwords, request.password,
                                                        context.users[k].passwordHash, context.users[k].passwordSalt)
      ensures r.Ok? ==> exists k :: k in context.users && context.users[k].email == request.email
                                  && r.value == GenerateJwtToken(jwt, context.users[k], now)
    {
      if exists k :: k in context.users && context.users[k].email == request.email then
        var k :| k in context.users && context.users[k].email == request.email;
        var user := context.users[k];
        if VerifyPasswordHash(passwords, request.password, user.passwordHash, user.passwordSalt) then
          Ok(GenerateJwtToken(jwt, user, now))
        else
          Err(Unauthorized(InvalidCredentialsMessage))
      else
        Err(Unauthorized(InvalidCredentialsMessage))
    }

    /** Registering and then logging in with the same address and password
        succeeds, and the token names the new user. */
    method RegisterThenLogin(request: RegisterRequest, now: int, later: int, newId: Guid, salt: seq<byte>)
      returns (registered: Result<RegisterResponse, ApiError>, login: Result<AuthResponse, ApiError>)
      requires context.Valid()
      requires IsValidRegisterRequest(request)
      requires !EmailInUse(context.users, request.email) && newId !in context.users
      modifies context
      ensures registered.Ok? && registered.value.user.id == newId
      ensures login.Ok? && |login.value.token.claims| == 3 && login.value.user == registered.value.user
      ensures GetUserId(MapInbound(login.value.token.claims)) == Ok(newId)
    {
      registered := Register(request, now, newId, salt);
      assert context.users[newId].email == request.email;
      login := Login(LoginRequest(request.email, request.password), later);
      var k :| k in context.users && context.users[k].email == request.email
               && login.value == GenerateJwtToken(jwt, context.users[k], later);
      assert k == newId;
      IssuedTokenIdentifiesUser(jwt, context.users[k], later);
    }
  }
}
