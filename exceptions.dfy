/** The exceptions the core throws, as values. Message text is reduced to the
    facts it carries (counts, sizes, roles, names). */
module Exceptions {

  /** What a key is being validated for; `keyType(signing)` in the source. */
  datatype Role = Signing | Verification

  function RoleOf(signing: bool): (r: Role)
    ensures r == Signing <==> signing
  {
    if signing then Signing else Verification
  }

  /** The argument assertion that failed (`IllegalArgumentException`). */
  datatype Check =
    | NameBlank
    | JcaNameBlank
    | CurveNameBlank
    | MinKeyLengthBelowFloor(floor: int)
    | SignatureLengthNotPositive
    | AssociatedDataNull

  /** Why an `InvalidKeyException` was thrown. */
  datatype KeyProblem =
    | NotEcKey(role: Role, keyClass: string)
    | NotPrivateKey(keyClass: string)
    | NotPublicKey

  datatype Error =
      /** `MalformedJwtException`, reporting the number of periods found. */
    | MalformedJwt(foundPeriods: int)
      /** `IllegalArgumentException` from a constructor's checks. */
    | IllegalArgument(check: Check)
    | InvalidKey(problem: KeyProblem)
      /** `WeakKeyException`: the key's order bit length and the required minimum. */
    | WeakKey(role: Role, algorithm: string, bits: nat, required: int)
      /** A Java cast of a key to `PrivateKey` or `PublicKey` that fails. */
    | ClassCast
    | ArrayIndexOutOfBounds(index: int)
      /** Any failure reported by a cryptographic primitive or transcoder. */
    | CryptoFailure(detail: string)
}
