/** The `User` entity and the constraints its attributes declare. */
module UserEntity {
  import opened Basics
  import opened Guids
  import opened Annotations

  const FullNameMaxLength: nat := 200
  const EmailMaxLength: nat := 256

  /** A registered identity. `updatedAtUtc` is a nullable `DateTime`; the
      `Expenses` navigation collection is not a field here: a user's
      expenses are the stored expenses whose `userId` is the user's id. */
  datatype User = User(
    id: Guid,
    fullName: string,
    email: string,
    passwordHash: seq<byte>,
    passwordSalt: seq<byte>,
    createdAtUtc: int,
    updatedAtUtc: Option<int>)

  /** The attributes on the entity's properties. `[Required]` on the two
      byte arrays only asks that they are not null, which a `seq` always is. */
  predicate SatisfiesAnnotations(u: User)
    ensures SatisfiesAnnotations(u) ==> '@' in u.email && u.email[0] != '@' && u.email[|u.email| - 1] != '@'
  {
    && Required(u.fullName) && MaxLength(u.fullName, FullNameMaxLength)
    && Required(u.email) && EmailAddress(u.email) && MaxLength(u.email, EmailMaxLength)
  }

  /** What the database schema derived from those attributes enforces:
      `nvarchar(200)` and `nvarchar(256)` columns (the format and white-space
      rules are not part of the schema). */
  predicate FitsColumns(u: User) {
    |u.fullName| <= FullNameMaxLength && |u.email| <= EmailMaxLength
  }

  /** The object initialiser `new User { Id, FullName, Email, PasswordHash,
      PasswordSalt }` at instant `now`: `CreatedAtUtc` takes its initialiser
      `DateTime.UtcNow` and `UpdatedAtUtc` stays null. */
  function NewUser(id: Guid, fullName: string, email: string, hash: seq<byte>, salt: seq<byte>, now: int): (u: User)
    ensures u.id == id && u.fullName == fullName && u.email == email
    ensures u.passwordHash == hash && u.passwordSalt == salt
    ensures u.createdAtUtc == now && u.updatedAtUtc == None
  {
    User(id, fullName, email, hash, salt, now, None)
  }

  /** A user that satisfies its attributes fits the database columns. */
  lemma AnnotationsFitColumns(u: User)
    requires SatisfiesAnnotations(u)
    ensures FitsColumns(u)
    ensures |u.fullName| > 0 && |u.email| > 0
  {
  }
}
