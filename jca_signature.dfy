/** `java.security.Signature`, driven step by step: initialise for signing or
    verifying, feed data, then sign or verify. The cryptography itself is an
    opaque `Backend` supplied by the caller. */
module JcaSignatures {
  import opened Lang
  import opened Exceptions
  import opened Security

  /** The provider's primitive: given the JCA algorithm name, the optional
      provider, the key and all bytes fed since initialisation, it signs, or
      checks a DER signature. Either may fail. */
  datatype Backend = Backend(
    sign: (string, Option<Provider>, Key, Bytes) -> Result<Bytes, Error>,
    verify: (string, Option<Provider>, Key, Bytes, Bytes) -> Result<bool, Error>)

  datatype Mode = Uninitialized | SigningWith(privateKey: Key) | VerifyingWith(publicKey: Key)

  class Signature {
    const algorithm: string
    const provider: Option<Provider>
    const backend: Backend
    var mode: Mode
    /** The bytes passed to `update` since the last initialisation or signature. */
    var buffer: Bytes

    constructor (algorithm: string, provider: Option<Provider>, backend: Backend)
      ensures this.algorithm == algorithm && this.provider == provider && this.backend == backend
      ensures mode == Uninitialized && buffer == []
    {
      this.algorithm := algorithm;
      this.provider := provider;
      this.backend := backend;
      mode := Uninitialized;
      buffer := [];
    }

    method InitSign(key: Key)
      modifies this
      ensures mode == SigningWith(key) && buffer == []
    {
      mode := SigningWith(key);
      buffer := [];
    }

    method InitVerify(key: Key)
      modifies this
      ensures mode == VerifyingWith(key) && buffer == []
    {
      mode := VerifyingWith(key);
      buffer := [];
    }

    method Update(data: Bytes)
      requires !mode.Uninitialized?
      modifies this
      ensures mode == old(mode) && buffer == old(buffer) + data
    {
      buffer := buffer + data;
    }

    /** Signs everything fed since `InitSign` and resets to that state. */
    method Sign() returns (r: Result<Bytes, Error>)
      requires mode.SigningWith?
      modifies this
      ensures r == backend.sign(algorithm, provider, old(mode).privateKey, old(buffer))
      ensures mode == old(mode) && buffer == []
    {
      r := backend.sign(algorithm, provider, mode.privateKey, buffer);
      buffer := [];
    }

    /** Verifies everything fed since `InitVerify` and resets to that state. */
    method Verify(signature: Bytes) returns (r: Result<bool, Error>)
      requires mode.VerifyingWith?
      modifies this
      ensures r == backend.verify(algorithm, provider, old(mode).publicKey, old(buffer), signature)
      ensures mode == old(mode) && buffer == []
    {
      r := backend.verify(algorithm, provider, mode.publicKey, buffer, signature);
      buffer := [];
    }
  }
}
