/**
 * A stand-in for bcrypt's `hash` and `compare` (src/shared/utils/hashPassword.ts,
 * src/user/domain/value-objects/password.vo.ts). Only what the domain relies on is kept:
 * a hash is never the raw password and comparison accepts exactly the hashed password.
 */
module Hashing {

  /** The bcrypt identifier with the cost factor 12 used by `genSalt(12)`. */
  const Prefix := "$2b$12$"

  function Hash(raw: string): (h: string)
    ensures |h| == |Prefix| + |raw|
    ensures h[..|Prefix|] == Prefix
  {
    Prefix + raw
  }

  /** `bcrypt.compare(raw, hash)` */
  predicate Matches(raw: string, hash: string) {
    hash == Hash(raw)
  }

  /** Different passwords have different hashes. */
  lemma HashInjective(a: string, b: string)
    ensures Hash(a) == Hash(b) ==> a == b
  {
    if Hash(a) == Hash(b) {
      assert a == Hash(a)[|Prefix|..];
    }
  }
}
