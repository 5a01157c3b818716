/** Keys, providers, random sources and the base request values that the
    algorithms consume. */
module Security {
  import opened Lang

  /** An opaque `java.security.Key`: its runtime class name, which of the
      interfaces `ECKey`, `PrivateKey` and `PublicKey` it implements, and, for
      an EC key, the bit length of its curve order
      (`getParams().getOrder().bitLength()`). */
  datatype Key = Key(
    className: string,
    isEC: bool,
    isPrivate: bool,
    isPublic: bool,
    orderBits: nat)

  /** An opaque `java.security.Provider`. */
  datatype Provider = Provider(name: string)

  /** An opaque `java.security.SecureRandom` instance. */
  datatype SecureRandom = SecureRandom(instance: nat)

  /** The process-wide default returned by `Randoms.secureRandom()`. */
  const SharedSecureRandom: SecureRandom := SecureRandom(0)

  /** `DefaultCryptoRequest`: the data, the key, and the optional provider
      and random-source overrides. */
  datatype CryptoRequest<T> = CryptoRequest(
    data: T,
    key: Key,
    provider: Option<Provider>,
    secureRandom: Option<SecureRandom>)

  /** `VerifySignatureRequest`: a request over bytes plus the signature to check. */
  datatype VerifyRequest = VerifyRequest(request: CryptoRequest<Bytes>, signature: Bytes)
}
