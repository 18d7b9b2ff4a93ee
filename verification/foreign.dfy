/** The foreign libraries the backend calls (validator, bcryptjs, jsonwebtoken),
    as uninterpreted functions passed in by the caller. Their internals, the
    salt's randomness and the clock are not modelled. */
module Foreign {
  import opened Model

  /** A token lifetime as written in `expiresIn`, in hours. */
  datatype Lifetime = Hours(hours: nat)

  /** Login tokens live 8 hours, registration tokens 2 hours. */
  const LoginLifetime: Lifetime := Hours(8)
  const RegisterLifetime: Lifetime := Hours(2)

  /** The bcrypt cost factor passed to `hash`. */
  const SaltRounds: nat := 10

  /** The payload `jwt.sign` is given: the user's id and the token lifetime. */
  datatype Claims = Claims(id: UserId, lifetime: Lifetime)

  datatype Libraries = Libraries(
    isEmail: string -> bool,                  // validator.isEmail on a string
    hash: (string, nat) -> string,            // bcrypt.hash(password, rounds)
    compare: (string, string) -> bool,        // bcrypt.compare(password, hash)
    sign: Claims -> string,                   // jwt.sign(claims, secret, { expiresIn })
    verify: string -> Option<Claims>)         // jwt.verify(token, secret); None when it throws

  /** The one property of bcrypt the model relies on: a password matches its own hash. */
  ghost predicate HashSound(libs: Libraries) {
    forall p: string, n: nat {:trigger libs.hash(p, n)} :: libs.compare(p, libs.hash(p, n))
  }

  /** The properties of jsonwebtoken the model relies on: a token this server
      signed verifies to its claims (while unexpired; expiry is not modelled),
      and, being a compact serialisation, is non-empty and free of spaces. */
  ghost predicate SignSound(libs: Libraries) {
    forall c: Claims {:trigger libs.sign(c)} ::
      && libs.verify(libs.sign(c)) == Some(c)
      && libs.sign(c) != ""
      && ' ' !in libs.sign(c)
  }
}
