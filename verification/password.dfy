/**
 * The password hasher (`hashPassword` / `comparePassword`). Its implementation is not part of
 * this model; it is represented by an ideal one-way hash: a digest verifies against its own
 * preimage and against nothing else. The same hasher stores both passwords and refresh tokens.
 */
module Password {

  /** An ideal digest. The preimage is what makes `Verify` decidable in the model; no handler
      ever places a digest in a response. */
  datatype Digest<T> = Digest(preimage: T)

  /** `hashPassword(x)`. */
  function Hash<T(==)>(x: T): (d: Digest<T>)
    ensures Verify(x, d)
  {
    Digest(x)
  }

  /** `comparePassword(x, d)`: never fails, answers whether `x` is what `d` was made from. */
  predicate Verify<T(==)>(x: T, d: Digest<T>) {
    d.preimage == x
  }

  /** A digest verifies exactly the value it was made from. */
  lemma VerifyHash<T>(x: T, y: T)
    ensures Verify(y, Hash(x)) <==> y == x
  {
  }
}
