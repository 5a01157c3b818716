/** `EllipticCurveSignatureAlgorithm`: construction checks, key validation
    with the key-strength floor of RFC 7518 section 3.4, signing, and the
    choice between a DER and a JOSE-concatenated signature when verifying. */
module EllipticCurveSignatures {
  import opened Lang
  import opened Exceptions
  import opened Security
  import opened CryptoAlgorithms
  import opened JcaSignatures

  /** `MIN_KEY_LENGTH_BITS`. */
  const MinKeyLengthBits: int32 := 256

  datatype EcSignatureAlgorithm = EcSignatureAlgorithm(
    base: CryptoAlgorithm,
    curveName: string,
    minKeyLength: int32,    // bits
    signatureLength: int32) // bytes of a JOSE-concatenated signature
  {
    /** What every constructed instance satisfies. */
    predicate Valid() {
      base.Valid() && HasText(Some(curveName)) &&
      minKeyLength >= MinKeyLengthBits && signatureLength > 0
    }
  }

  /** The code this core calls but does not define: the JCA primitive, the
      `EllipticCurveProvider` transcoders (to the fixed-length concatenated
      form for a given length, and to DER), and the verification path of
      `AbstractSignatureAlgorithm` used for private keys. */
  datatype Collaborators = Collaborators(
    backend: Backend,
    transcodeToConcat: (Bytes, int32) -> Result<Bytes, Error>,
    transcodeToDer: Bytes -> Result<Bytes, Error>,
    abstractVerify: (EcSignatureAlgorithm, VerifyRequest) -> Result<bool, Error>)

  /** The constructor: the base checks on `name` and `jcaName` come first,
      then the curve name, the minimum key length and the signature length. */
  function NewEcSignatureAlgorithm(name: Option<string>, jcaName: Option<string>, curveName: Option<string>,
                                   minKeyLength: int32, signatureLength: int32)
    : (r: Result<EcSignatureAlgorithm, Error>)
    ensures r.Success? <==>
              HasText(name) && HasText(jcaName) && HasText(curveName) &&
              minKeyLength >= 256 && signatureLength > 0
    ensures !HasText(name) ==> r == Failure(IllegalArgument(NameBlank))
    ensures HasText(name) && !HasText(jcaName) ==> r == Failure(IllegalArgument(JcaNameBlank))
    ensures HasText(name) && HasText(jcaName) && !HasText(curveName) ==>
              r == Failure(IllegalArgument(CurveNameBlank))
    ensures HasText(name) && HasText(jcaName) && HasText(curveName) && minKeyLength < 256 ==>
              r == Failure(IllegalArgument(MinKeyLengthBelowFloor(256)))
    ensures HasText(name) && HasText(jcaName) && HasText(curveName) && minKeyLength >= 256 && signatureLength <= 0 ==>
              r == Failure(IllegalArgument(SignatureLengthNotPositive))
    ensures r.Success? ==> r.value.Valid()
    ensures r.Success? ==>
              r.value.base.GetName() == name.value && r.value.base.GetJcaName() == jcaName.value &&
              r.value.curveName == curveName.value &&
              r.value.minKeyLength == minKeyLength && r.value.signatureLength == signatureLength
  {
    match NewCryptoAlgorithm(name, jcaName)
    case Failure(e) => Failure(e)
    case Success(base) =>
      if !HasText(curveName) then Failure(IllegalArgument(CurveNameBlank))
      else if minKeyLength < MinKeyLengthBits then Failure(IllegalArgument(MinKeyLengthBelowFloor(MinKeyLengthBits as int)))
      else if signatureLength <= 0 then Failure(IllegalArgument(SignatureLengthNotPositive))
      else Success(EcSignatureAlgorithm(base, curveName.value, minKeyLength, signatureLength))
  }

  /** Whether the key plays the role the operation needs. */
  predicate HasRole(key: Key, signing: bool) {
    if signing then key.isPrivate else key.isPublic
  }

  /** `validateKey`: family first, then role, then strength. */
  function ValidateKey(alg: EcSignatureAlgorithm, key: Key, signing: bool): (r: Outcome<Error>)
    ensures r.Pass? <==> key.isEC && HasRole(key, signing) && key.orderBits >= alg.minKeyLength as int
    ensures !key.isEC ==> r == Fail(InvalidKey(NotEcKey(RoleOf(signing), key.className)))
    ensures key.isEC && signing && !key.isPrivate ==> r == Fail(InvalidKey(NotPrivateKey(key.className)))
    ensures key.isEC && !signing && !key.isPublic ==> r == Fail(InvalidKey(NotPublicKey))
    ensures key.isEC && HasRole(key, signing) && key.orderBits < alg.minKeyLength as int ==>
              r == Fail(WeakKey(RoleOf(signing), alg.base.GetName(), key.orderBits, alg.minKeyLength as int))
  {
    if !key.isEC then
      Fail(InvalidKey(NotEcKey(RoleOf(signing), key.className)))
    else if signing && !key.isPrivate then
      Fail(InvalidKey(NotPrivateKey(key.className)))
    else if !signing && !key.isPublic then
      Fail(InvalidKey(NotPublicKey))
    else if key.orderBits < alg.minKeyLength as int then
      Fail(WeakKey(RoleOf(signing), alg.base.GetName(), key.orderBits, alg.minKeyLength as int))
    else
      Pass
  }

  /** The signature handed to the verifier (EllipticCurveSignatureAlgorithm.java:122): used
      unchanged when its length differs from `signatureLength` and its first
      byte is the DER SEQUENCE tag 0x30, transcoded to DER otherwise. Java's
      `&&` reads `signature[0]` only when the lengths differ, so an empty
      signature of the wrong length throws there. */
  function DerSignature(alg: EcSignatureAlgorithm, c: Collaborators, signature: Bytes): (r: Result<Bytes, Error>)
    ensures |signature| != alg.signatureLength as int && |signature| > 0 && signature[0] == 0x30 ==>
              r == Success(signature)
    ensures |signature| == alg.signatureLength as int ==> r == c.transcodeToDer(signature)
    ensures |signature| > 0 && signature[0] != 0x30 ==> r == c.transcodeToDer(signature)
    ensures |signature| == 0 && alg.signatureLength != 0 ==> r == Failure(ArrayIndexOutOfBounds(0))
  {
    if alg.signatureLength as int != |signature| then
      if |signature| == 0 then Failure(ArrayIndexOutOfBounds(0))
      else if signature[0] == 0x30 then Success(signature)
      else c.transcodeToDer(signature)
    else
      c.transcodeToDer(signature)
  }

  /** `doSign`: cast the key to `PrivateKey`, sign the data with the JCA
      primitive, and return the concatenated form of `signatureLength` bytes. */
  method DoSign(alg: EcSignatureAlgorithm, c: Collaborators, request: CryptoRequest<Bytes>)
    returns (r: Result<Bytes, Error>)
    ensures !request.key.isPrivate ==> r == Failure(ClassCast)
    ensures request.key.isPrivate ==>
              var raw := c.backend.sign(alg.base.GetJcaName(), request.provider, request.key, request.data);
              r == if raw.Failure? then Failure(raw.error) else c.transcodeToConcat(raw.value, alg.signatureLength)
  {
    if !request.key.isPrivate {
      return Failure(ClassCast);
    }
    var sig := new Signature(alg.base.GetJcaName(), request.provider, c.backend);
    sig.InitSign(request.key);
    sig.Update(request.data);
    assert sig.buffer == request.data;
    var raw := sig.Sign();
    match raw
    case Failure(e) =>
      r := Failure(e);
    case Success(bytes) =>
      r := c.transcodeToConcat(bytes, alg.signatureLength);
  }

  /** `doVerify`: a private key goes to the inherited verification path and
      nothing else happens; otherwise the key is cast to `PublicKey` and the
      JCA primitive checks the data against `DerSignature`. */
  method DoVerify(alg: EcSignatureAlgorithm, c: Collaborators, request: VerifyRequest)
    returns (r: Result<bool, Error>)
    ensures request.request.key.isPrivate ==> r == c.abstractVerify(alg, request)
    ensures !request.request.key.isPrivate && !request.request.key.isPublic ==> r == Failure(ClassCast)
    ensures !request.request.key.isPrivate && request.request.key.isPublic ==>
              var der := DerSignature(alg, c, request.signature);
              r == if der.Failure? then Failure(der.error)
                   else c.backend.verify(alg.base.GetJcaName(), request.request.provider,
                                         request.request.key, request.request.data, der.value)
  {
    var key := request.request.key;
    if key.isPrivate {
      return c.abstractVerify(alg, request);
    }
    if !key.isPublic {
      return Failure(ClassCast);
    }
    var sig := new Signature(alg.base.GetJcaName(), request.request.provider, c.backend);
    var der := DerSignature(alg, c, request.signature);
    if der.Failure? {
      return Failure(der.error);
    }
    sig.InitVerify(key);
    sig.Update(request.request.data);
    assert sig.buffer == request.request.data;
    r := sig.Verify(der.value);
  }

  // Properties that follow from the definitions above.

  /** Every valid instance is what the constructor makes of its own fields. */
  lemma ConstructFromFields(alg: EcSignatureAlgorithm)
    requires alg.Valid()
    ensures NewEcSignatureAlgorithm(Some(alg.base.GetName()), Some(alg.base.GetJcaName()), Some(alg.curveName),
                                    alg.minKeyLength, alg.signatureLength) == Success(alg)
  {
  }

  /** Raising the minimum key length only ever rejects more keys. */
  lemma StricterMinimumAcceptsFewer(alg: EcSignatureAlgorithm, stricter: int32, key: Key, signing: bool)
    requires alg.minKeyLength <= stricter
    requires ValidateKey(alg.(minKeyLength := stricter), key, signing).Pass?
    ensures ValidateKey(alg, key, signing).Pass?
  {
  }

  /** Whatever the configuration, a constructed algorithm accepts only keys
      whose curve order has at least 256 bits. */
  lemma AcceptedKeysMeetFloor(name: Option<string>, jcaName: Option<string>, curveName: Option<string>,
                              minKeyLength: int32, signatureLength: int32, key: Key, signing: bool)
    requires NewEcSignatureAlgorithm(name, jcaName, curveName, minKeyLength, signatureLength).Success?
    requires ValidateKey(NewEcSignatureAlgorithm(name, jcaName, curveName, minKeyLength, signatureLength).value,
                         key, signing).Pass?
    ensures key.isEC && key.orderBits >= 256
  {
  }

  /** The error kind depends only on which check fails first: a key of the
      wrong family or role is invalid even when it is also too weak, and a
      weak key is reported only once family and role are right. */
  lemma ErrorKinds(alg: EcSignatureAlgorithm, key: Key, signing: bool)
    ensures (ValidateKey(alg, key, signing).Fail? && ValidateKey(alg, key, signing).error.InvalidKey?)
              <==> (!key.isEC || !HasRole(key, signing))
    ensures (ValidateKey(alg, key, signing).Fail? && ValidateKey(alg, key, signing).error.WeakKey?)
              <==> (key.isEC && HasRole(key, signing) && key.orderBits < alg.minKeyLength as int)
  {
  }

  /** At the strength boundary a key of exactly `minKeyLength` bits passes
      and one bit fewer is weak. */
  lemma StrengthBoundary(alg: EcSignatureAlgorithm, key: Key, signing: bool)
    requires alg.Valid() && key.isEC && HasRole(key, signing)
    ensures ValidateKey(alg, key.(orderBits := alg.minKeyLength as nat), signing) == Pass
    ensures ValidateKey(alg, key.(orderBits := alg.minKeyLength as nat - 1), signing)
              == Fail(WeakKey(RoleOf(signing), alg.base.GetName(), alg.minKeyLength as nat - 1, alg.minKeyLength as int))
  {
  }

  /** With a valid configuration an empty signature never reaches the
      transcoder: it fails reading its first byte. */
  lemma EmptySignatureFails(alg: EcSignatureAlgorithm, c: Collaborators)
    requires alg.Valid()
    ensures DerSignature(alg, c, []) == Failure(ArrayIndexOutOfBounds(0))
  {
  }
}
