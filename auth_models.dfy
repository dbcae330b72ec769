/** The request and response records of the authentication endpoints. */
module AuthModels {
  import opened Basics
  import opened Guids
  import opened Annotations
  import opened Claims
  import opened UserEntity

  const PasswordMinLength: nat := 8
  const PasswordMaxLength: nat := 64

  datatype RegisterRequest = RegisterRequest(fullName: string, email: string, password: string)

  /** The attributes of `RegisterRequest`: a required full name of at most 200
      characters, a required e-mail address of at most 256 characters, a
      required password of 8 to 64 characters. */
  predicate IsValidRegisterRequest(r: RegisterRequest)
    ensures IsValidRegisterRequest(r) ==>
              && 0 < |r.fullName| <= FullNameMaxLength && 0 < |r.email| <= EmailMaxLength
              && PasswordMinLength <= |r.password| <= PasswordMaxLength
              && '@' in r.email && r.email[0] != '@' && r.email[|r.email| - 1] != '@'
  {
    && Required(r.fullName) && MaxLength(r.fullName, FullNameMaxLength)
    && Required(r.email) && EmailAddress(r.email) && MaxLength(r.email, EmailMaxLength)
    && Required(r.password) && StringLength(r.password, PasswordMinLength, PasswordMaxLength)
  }

  /** The login body: an e-mail address and a password. */
  datatype LoginRequest = LoginRequest(email: string, password: string)

  /** The public view of a user: no password hash, no salt. */
  datatype AuthUserDto = AuthUserDto(id: Guid, fullName: string, email: string)

  /** A successful login: the token, its expiry, and the user. */
  datatype AuthResponse = AuthResponse(token: JwtToken, expiresAt: int, user: AuthUserDto)

  /** A successful registration: the user and the instant it was created. */
  datatype RegisterResponse = RegisterResponse(user: AuthUserDto, createdAt: int)

  /** A user built from a valid registration satisfies the `User` entity's
      attributes, whatever its hash, salt and id. */
  lemma ValidRegistrationMakesValidUser(r: RegisterRequest, id: Guid, hash: seq<byte>, salt: seq<byte>, now: int)
    requires IsValidRegisterRequest(r)
    ensures SatisfiesAnnotations(NewUser(id, r.fullName, r.email, hash, salt, now))
  {
  }

  /** The boundaries of a registration: a password of 7 characters fails and
      one of 8 passes, 64 pass and 65 fail, eight spaces fail; an address
      needs exactly one '@' that is neither first nor last. */
  lemma RegistrationBoundaries()
    ensures !IsValidRegisterRequest(RegisterRequest("Test User", "a@b", "1234567"))
    ensures IsValidRegisterRequest(RegisterRequest("Test User", "a@b", "12345678"))
    ensures IsValidRegisterRequest(RegisterRequest("Test User", "a@b", seq(64, _ => 'p')))
    ensures !IsValidRegisterRequest(RegisterRequest("Test User", "a@b", seq(65, _ => 'p')))
    ensures !IsValidRegisterRequest(RegisterRequest("Test User", "a@b", "        "))
    ensures !IsValidRegisterRequest(RegisterRequest("Test User", "@b", "12345678"))
    ensures !IsValidRegisterRequest(RegisterRequest("Test User", "a@", "12345678"))
    ensures !IsValidRegisterRequest(RegisterRequest("Test User", "a@b@c", "12345678"))
    ensures !IsValidRegisterRequest(RegisterRequest(seq(201, _ => 'n'), "a@b", "12345678"))
  {
    assert !Text.IsWhiteSpace("Test User"[0]) && !Text.IsWhiteSpace("a@b"[0]);
    assert !Text.IsWhiteSpace("12345678"[0]) && !Text.IsWhiteSpace(seq(64, _ => 'p')[0]);
    assert "a@b"[1] == '@';
    assert "a@b@c"[1] == '@' && "a@b@c"[3] == '@';
  }
}
