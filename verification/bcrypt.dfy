/**
 * A stand-in for the bcrypt password hasher used at registration and login.
 *
 * A digest has bcrypt's layout: the version and cost prefix, the 22-character
 * salt, then a checksum of the plaintext. The checksum is a stand-in (the
 * reversed plaintext): it is injective, which is the only property of the
 * real one-way function the model relies on. The salt is drawn at random by
 * bcrypt; here it is a parameter.
 */
module Bcrypt {

  /** Version 2a and cost factor 10, the cost the registration handler passes. */
  const PREFIX: string := "$2a$10$"

  const SALT_LENGTH: nat := 22

  type Salt = s: string | |s| == SALT_LENGTH witness "abcdefghijklmnopqrstuv"

  /** The checksum part of a digest; character i of the result is character |p| - 1 - i of p. */
  function Checksum(p: string): (r: string)
    ensures |r| == |p|
    ensures forall i :: 0 <= i < |p| ==> r[i] == p[|p| - 1 - i]
  {
    if p == [] then [] else Checksum(p[1..]) + [p[0]]
  }

  lemma ChecksumInjective(p: string, q: string)
    requires Checksum(p) == Checksum(q)
    ensures p == q
  {
    assert |p| == |q|;
    forall i | 0 <= i < |p|
      ensures p[i] == q[i]
    {
      assert Checksum(p)[|p| - 1 - i] == Checksum(q)[|p| - 1 - i];
    }
  }

  /** bcrypt.hash(plaintext, 10) with the salt it drew. */
  function Hash(salt: Salt, plaintext: string): (digest: string)
    ensures |digest| == |PREFIX| + SALT_LENGTH + |plaintext|
    ensures digest != plaintext
  {
    PREFIX + salt + Checksum(plaintext)
  }

  /** bcrypt.compare(plaintext, digest): the digest is well formed and its checksum is that of plaintext. */
  predicate Verify(plaintext: string, digest: string)
  {
    && |digest| >= |PREFIX| + SALT_LENGTH
    && digest[..|PREFIX|] == PREFIX
    && digest[|PREFIX| + SALT_LENGTH..] == Checksum(plaintext)
  }

  /** A digest accepts the plaintext it was made from, and no other. */
  lemma VerifyHash(salt: Salt, p: string, q: string)
    ensures Verify(q, Hash(salt, p)) <==> q == p
  {
    var d := Hash(salt, p);
    assert d[..|PREFIX|] == PREFIX;
    assert d[|PREFIX| + SALT_LENGTH..] == Checksum(p);
    if Verify(q, d) {
      ChecksumInjective(p, q);
    }
  }

  /** Two different salts give two different digests of the same plaintext. */
  lemma HashIsSalted(s1: Salt, s2: Salt, p: string)
    requires s1 != s2
    ensures Hash(s1, p) != Hash(s2, p)
  {
    assert Hash(s1, p)[|PREFIX|..|PREFIX| + SALT_LENGTH] == s1;
    assert Hash(s2, p)[|PREFIX|..|PREFIX| + SALT_LENGTH] == s2;
  }
}
