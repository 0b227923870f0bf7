/** The password hashing utility (`Hash.make`, `Hash.compare`), kept abstract:
    a salted one-way function and the check that goes with it. */
module Hashing {
  import opened Wrappers

  /** `make(plain, salt)` is the hash `Hash.make(plain)` produces when its random
      salt is `salt`; `compare(plain, hash)` is `Hash.compare`. */
  datatype Hasher = Hasher(make: (string, nat) -> string, compare: (string, string) -> bool)

  /** What every caller relies on: a made hash matches its plaintext and is never empty. */
  ghost predicate Sound(h: Hasher)
  {
    forall plain: string, salt: nat :: h.compare(plain, h.make(plain, salt)) && h.make(plain, salt) != []
  }

  /** bcrypt writes the salt into the hash it returns, so two hashes made
      with different salts differ, whatever plaintexts they were made from. */
  ghost predicate Salted(h: Hasher)
  {
    forall p1: string, p2: string, s1: nat, s2: nat :: s1 != s2 ==> h.make(p1, s1) != h.make(p2, s2)
  }

  /** `Hash.compare(plain, stored)` against the nullable password column:
      a missing hash matches nothing. */
  predicate Matches(h: Hasher, plain: string, stored: Option<string>)
  {
    stored.Some? && h.compare(plain, stored.value)
  }
}
