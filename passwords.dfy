/** The password helper the authentication controller calls. Its code is
    not part of this model: it is taken to be a salted digest that
    `CreatePasswordHash` computes under a freshly drawn salt and that
    `VerifyPasswordHash` recomputes under the stored salt and compares. */
module Passwords {
  import opened Basics

  /** The one-way function `digest(salt, password)`. */
  datatype PasswordHasher = PasswordHasher(digest: (seq<byte>, string) -> seq<byte>)

  datatype HashAndSalt = HashAndSalt(hash: seq<byte>, salt: seq<byte>)

  /** `VerifyPasswordHash(password, hash, salt)`. */
  predicate VerifyPasswordHash(h: PasswordHasher, password: string, hash: seq<byte>, salt: seq<byte>)
    ensures VerifyPasswordHash(h, password, hash, salt) <==> hash == h.digest(salt, password)
  {
    h.digest(salt, password) == hash
  }

  /** `CreatePasswordHash(password, out hash, out salt)`, with the random
      salt passed in. A password always verifies against its own hash. */
  function CreatePasswordHash(h: PasswordHasher, password: string, salt: seq<byte>): (r: HashAndSalt)
    ensures r.salt == salt
    ensures VerifyPasswordHash(h, password, r.hash, r.salt)
  {
    HashAndSalt(h.digest(salt, password), salt)
  }
}
