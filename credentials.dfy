/** Stand-ins for the password hashing and token signing helpers the
    controllers and the gateway call. Only the property the callers rely on is
    fixed: verification accepts exactly what generation produced. The
    encodings are injective prefix encodings, not cryptography. */
module Credentials {
  import opened Common

  const TokenPrefix: string := "token:"
  const HashPrefix: string := "hash:"

  /** `generateToken(userId)`. */
  function GenerateToken(userId: string): (t: string)
    ensures t != ""
  {
    TokenPrefix + userId
  }

  /** `verifyToken(token).userId`, or `None` where `verifyToken` throws. */
  function VerifyToken(t: string): Option<string> {
    if |t| >= |TokenPrefix| && t[..|TokenPrefix|] == TokenPrefix then Some(t[|TokenPrefix|..]) else None
  }

  /** A generated token verifies, and to the user it was generated for. */
  lemma VerifyGenerated(userId: string)
    ensures VerifyToken(GenerateToken(userId)) == Some(userId)
  {
    assert GenerateToken(userId)[..|TokenPrefix|] == TokenPrefix;
  }

  /** Only generated tokens verify. */
  lemma OnlyGeneratedVerify(t: string, userId: string)
    requires VerifyToken(t) == Some(userId)
    ensures t == GenerateToken(userId)
  {
    assert t == t[..|TokenPrefix|] + t[|TokenPrefix|..];
  }

  /** `hashPassword(password)`. */
  function HashPassword(password: string): (h: string)
    ensures h != password
  {
    HashPrefix + password
  }

  /** `comparePassword(password, hash)`. */
  predicate ComparePassword(password: string, hash: string) {
    hash == HashPassword(password)
  }

  /** Different passwords have different hashes, so a stored hash admits one password. */
  lemma HashInjective(p: string, q: string)
    requires HashPassword(p) == HashPassword(q)
    ensures p == q
  {
    assert p == HashPassword(p)[|HashPrefix|..];
  }
}
