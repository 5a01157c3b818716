# JJWT core: compact-token tokenizer and elliptic-curve signature policy

This project models four pieces of the JJWT library in Dafny and proves properties of them.

- **`DefaultTokenizedJwtBuilder`.** The builder collects the dot-separated segments of a compact token. `build()` turns three segments into a JWS (header, payload, signature) and five into a JWE (header, encrypted key, IV, ciphertext, tag). Any other count throws `MalformedJwtException`, reporting `size - 1` periods. These are the segment counts of RFC 7515 section 7.1 and RFC 7516 section 7.1.
- **`CryptoAlgorithm`.** The base of every algorithm. Its name and JCA name must have text. It resolves the random source of a request.
- **`DefaultAeadRequest`.** A crypto request that also carries additional authenticated data. That data must not be null.
- **`EllipticCurveSignatureAlgorithm`.** It has:
  - constructor checks;
  - `validateKey`, which checks the key family, then its role, then that the curve order is at least the configured `minKeyLength` bits (never below 256, the floor of RFC 7518 section 3.4);
  - `doSign`, which transcodes the JCA signature to the fixed-length concatenated form;
  - `doVerify`, which sends private keys to the inherited path and picks between a legacy DER signature and a transcoded one.

## Layout

| file | module | models |
|---|---|---|
| lang.dfy | `Lang` | `Option` (Java `null`), `Result`/`Outcome` (thrown exceptions), Java `int` and `byte`, `Assert.hasText` |
| exceptions.dfy | `Exceptions` | the exception kinds and the facts their messages carry |
| security.dfy | `Security` | keys, providers, random sources, `DefaultCryptoRequest`, `VerifySignatureRequest`, the shared default random source |
| tokenized_jwt_builder.dfy | `TokenizedJwts` | the builder as a class over a `seq<string>`; its specification `Tokenize`; the period-count lemmas |
| crypto_algorithm.dfy | `CryptoAlgorithms` | `CryptoAlgorithm` as an immutable value |
| aead_request.dfy | `AeadRequests` | `DefaultAeadRequest` as an immutable value |
| jca_signature.dfy | `JcaSignatures` | `java.security.Signature` as a class driven step by step over an opaque `Backend` |
| elliptic_curve_signature_algorithm.dfy | `EllipticCurveSignatures` | the EC algorithm's checks, `validateKey`, `doSign`, `doVerify` |

Code the core calls but does not define is passed in as total functions:
- the JCA sign and verify primitives (`JcaSignatures.Backend`);
- the two `EllipticCurveProvider` transcoders;
- `AbstractSignatureAlgorithm.doVerify`.

All four sit in `EllipticCurveSignatures.Collaborators`. The only thing assumed about them is that each is a total, deterministic function of its arguments (see "## Left out" on signing randomness). The process-wide `Randoms.secureRandom()` is the fixed value `Security.SharedSecureRandom`.

Java `null` is modelled with `Option` for the names passed to constructors and `aad` (both checked by the constructors), and for the request's `provider` and `secureRandom` (a null `secureRandom` is checked at CryptoAlgorithm.java:35). A `Key` records four things: its class name, whether it implements `ECKey`, `PrivateKey` and `PublicKey`, and (for an EC key) the bit length of its curve order.

Behaviour of the code worth noting:
- `validateKey(key, false)` with a key that is not a `PublicKey` throws `InvalidKeyException`, including a private key. Private keys go to the inherited verification path only in `doVerify`.
- For a key that is neither private nor public, `doVerify` fails on the cast `(PublicKey) key` (`ClassCast`). Likewise, `doSign` fails on `(PrivateKey) request.getKey()` for a non-private key.
- Every constructor failure is an `IllegalArgumentException` (`IllegalArgument` here).
- When the signature is empty, its length always differs from the positive `signatureLength`, so `signature[0]` throws `ArrayIndexOutOfBoundsException` (`EmptySignatureFails`).
- A builder with no segments reports `-1` periods found, as `size - 1` gives.

## Model

| member | source | states |
|---|---|---|
| TokenizedJwts.TokenizedJwtBuilder.constructor | impl/src/main/java/io/jsonwebtoken/impl/DefaultTokenizedJwtBuilder.java:11 | a new builder holds no segments |
| TokenizedJwts.TokenizedJwtBuilder.Append | impl/src/main/java/io/jsonwebtoken/impl/DefaultTokenizedJwtBuilder.java:13-17 | any segment, the empty one included, is added unchanged at the end of the list; the same builder is returned |
| TokenizedJwts.TokenizedJwtBuilder.Build | impl/src/main/java/io/jsonwebtoken/impl/DefaultTokenizedJwtBuilder.java:19-37 | the result is `Tokenize` of the accumulated segments; with no `modifies` clause the segments are unchanged afterwards |
| TokenizedJwts.Tokenize | impl/src/main/java/io/jsonwebtoken/impl/DefaultTokenizedJwtBuilder.java:22-36 | fails exactly when the count is neither 3 nor 5, with a malformed-token error reporting count minus one; otherwise the token's segments are the input in order, and it is a JWS exactly when there are 3 |
| TokenizedJwts.Segments | impl/src/main/java/io/jsonwebtoken/impl/DefaultTokenizedJwtBuilder.java:32-36 | a JWS has 3 segments and a JWE 5, with the header first |
| TokenizedJwts.TokenizeSegments | impl/src/main/java/io/jsonwebtoken/impl/DefaultTokenizedJwtBuilder.java:30-36 | every JWS or JWE value is rebuilt exactly from its own segments (the inverse of `Tokenize`) |
| TokenizedJwts.JoinPeriods | impl/src/main/java/io/jsonwebtoken/impl/DefaultTokenizedJwtBuilder.java:25-26 | n ≥ 1 period-free segments joined by '.' contain exactly n - 1 periods, which is what the message reports |
| TokenizedJwts.SplitTokenPeriods | impl/src/main/java/io/jsonwebtoken/impl/DefaultTokenizedJwtBuilder.java:24-28 | for segments split from a compact string, the error reports that string's period count, and the token is accepted exactly when it has 2 or 4 periods |
| CryptoAlgorithms.NewCryptoAlgorithm | impl/src/main/java/io/jsonwebtoken/impl/security/CryptoAlgorithm.java:15-22 | succeeds exactly when both names have text; a blank `name` is reported before a blank `jcaName`; the instance is valid and returns the given names |
| CryptoAlgorithms.ConstructFromGetters | impl/src/main/java/io/jsonwebtoken/impl/security/CryptoAlgorithm.java:24-31 | the getters give back exactly what construction took: rebuilding from them returns the same instance |
| CryptoAlgorithms.CryptoAlgorithm.EnsureSecureRandom | impl/src/main/java/io/jsonwebtoken/impl/security/CryptoAlgorithm.java:33-36 | the request's random source when it has one, the shared default otherwise |
| AeadRequests.NewAeadRequest | impl/src/main/java/io/jsonwebtoken/impl/security/DefaultAeadRequest.java:32-35 | fails exactly when `aad` is null, so an empty `aad` is accepted; on success the associated data is `aad` and the base request holds data, key, provider and random source unchanged |
| AeadRequests.ConstructFromParts | impl/src/main/java/io/jsonwebtoken/impl/security/DefaultAeadRequest.java:30-40 | every request is rebuilt exactly from its own parts and `getAssociatedData()` |
| EllipticCurveSignatures.NewEcSignatureAlgorithm | impl/src/main/java/io/jsonwebtoken/impl/security/EllipticCurveSignatureAlgorithm.java:34-45 | succeeds exactly when the names and curve name have text, `minKeyLength >= 256` (256 included) and `signatureLength > 0`; the base checks are reported first, then the curve, the key length and the signature length; fields match the arguments |
| EllipticCurveSignatures.ConstructFromFields | impl/src/main/java/io/jsonwebtoken/impl/security/EllipticCurveSignatureAlgorithm.java:28-45 | every valid instance is rebuilt exactly from its own fields |
| EllipticCurveSignatures.ValidateKey | impl/src/main/java/io/jsonwebtoken/impl/security/EllipticCurveSignatureAlgorithm.java:60-96 | passes exactly for an EC key in the right role (private for signing, public for verifying) with order bits ≥ `minKeyLength`; otherwise it fails with the error of the first check that fails |
| EllipticCurveSignatures.ErrorKinds | impl/src/main/java/io/jsonwebtoken/impl/security/EllipticCurveSignatureAlgorithm.java:63-95 | InvalidKey exactly when the family or role is wrong, even for a weak key; WeakKey exactly when family and role are right and the key is too short |
| EllipticCurveSignatures.StrengthBoundary | impl/src/main/java/io/jsonwebtoken/impl/security/EllipticCurveSignatureAlgorithm.java:85-95 | a key of exactly `minKeyLength` bits passes; one bit fewer is WeakKey, carrying its size and the minimum |
| EllipticCurveSignatures.StricterMinimumAcceptsFewer | impl/src/main/java/io/jsonwebtoken/impl/security/EllipticCurveSignatureAlgorithm.java:85-86 | any key accepted under a larger minimum is accepted under a smaller one |
| EllipticCurveSignatures.AcceptedKeysMeetFloor | impl/src/main/java/io/jsonwebtoken/impl/security/EllipticCurveSignatureAlgorithm.java:38-95 | any key that a constructed instance accepts, for either role, is an EC key whose order has at least 256 bits |
| EllipticCurveSignatures.DerSignature | impl/src/main/java/io/jsonwebtoken/impl/security/EllipticCurveSignatureAlgorithm.java:122 | the signature is used unchanged when its length differs from `signatureLength` and byte 0 is 0x30; it is transcoded when the lengths match (even if it starts with 0x30) or byte 0 differs; an empty signature of the wrong length fails reading byte 0 |
| EllipticCurveSignatures.EmptySignatureFails | impl/src/main/java/io/jsonwebtoken/impl/security/EllipticCurveSignatureAlgorithm.java:116-122 | for a constructed instance, an empty signature always fails reading byte 0 |
| EllipticCurveSignatures.DoSign | impl/src/main/java/io/jsonwebtoken/impl/security/EllipticCurveSignatureAlgorithm.java:98-105 | a non-private key fails the cast; otherwise the result is the primitive's signature of the data, under the JCA name and the request's provider, transcoded to `signatureLength` bytes; a primitive failure is passed on |
| EllipticCurveSignatures.DoVerify | impl/src/main/java/io/jsonwebtoken/impl/security/EllipticCurveSignatureAlgorithm.java:107-126 | a private key gives exactly the inherited verification result; a key that is neither private nor public fails the cast; a public key gives the primitive's verdict on the data against `DerSignature`, whose failure is passed on |
| JcaSignatures.Signature.constructor | impl/src/main/java/io/jsonwebtoken/impl/security/EllipticCurveSignatureAlgorithm.java:101 | a signature object for the algorithm's JCA name and the request's provider, not yet initialised |
| JcaSignatures.Signature.InitSign | impl/src/main/java/io/jsonwebtoken/impl/security/EllipticCurveSignatureAlgorithm.java:102 | the object signs with the given key and has seen no data |
| JcaSignatures.Signature.InitVerify | impl/src/main/java/io/jsonwebtoken/impl/security/EllipticCurveSignatureAlgorithm.java:123 | the object verifies with the given key and has seen no data |
| JcaSignatures.Signature.Update | impl/src/main/java/io/jsonwebtoken/impl/security/EllipticCurveSignatureAlgorithm.java:103 | the data is added to what the object has seen; its mode is unchanged |
| JcaSignatures.Signature.Sign | impl/src/main/java/io/jsonwebtoken/impl/security/EllipticCurveSignatureAlgorithm.java:104 | the primitive's signature of everything seen since initialisation; the object is reset |
| JcaSignatures.Signature.Verify | impl/src/main/java/io/jsonwebtoken/impl/security/EllipticCurveSignatureAlgorithm.java:125 | the primitive's verdict on everything seen since initialisation; the object is reset |
| Exceptions.RoleOf | impl/src/main/java/io/jsonwebtoken/impl/security/EllipticCurveSignatureAlgorithm.java:64 | the role named in key errors is signing exactly when the key is validated for signing |

## Left out

- `generateKeyPair` (EllipticCurveSignatureAlgorithm.java:47-58) is left out. It obtains a `KeyPairGenerator` for the curve and the shared random source, which is a foreign call with no logic of its own.
- Reflective instantiation of the algorithm classes is left out.
- The `EllipticCurveProvider` transcoders are not part of this model. They are opaque functions, so no JOSE/DER round trip is claimed.
- `AbstractSignatureAlgorithm` is not part of this model. Its `doVerify` for private keys is an opaque function. Its `sign`/`verify`, which presumably call `validateKey` before `doSign`/`doVerify`, are not modelled.
- `createSignatureInstance` is not part of this model. It is modelled as a `Signature` for the algorithm's JCA name and the request's provider. Its own failures (unknown algorithm or provider) are not modelled. Neither are `InvalidKeyException`s from `initSign`/`initVerify`. Backend failures surface only from `sign`/`verify`.
- `Strings.hasText` is not part of this model. `Lang.HasText` follows Java's `Character.isWhitespace` as of JDK 9 (Unicode 6.3 and later), on Unicode scalar values rather than UTF-16 code units. On JDK 7 and 8 U+180E also counts as whitespace; the model does not.
- `DefaultCryptoRequest` is not part of this model. Its own argument checks are not modelled, so its four arguments are taken as given.
- Null segments, null keys (where `key.getClass()` would throw) and a null signature array are not modelled.
- Byte arrays are values. The model does not capture that `getAssociatedData()` returns the caller's own mutable array, or that callers can change it afterwards.
- DoSign: the randomness of ECDSA signing is not modelled. `initSign(privateKey)` (EllipticCurveSignatureAlgorithm.java:102) lets the provider draw its own nonce, while `Backend.sign` is a deterministic function of algorithm, provider, key and data, so the model gives the same signature for two signings of the same request. The request's `secureRandom` is not consulted by `doSign`, and the model reflects that.
- The lazy, thread-safe creation of `Randoms.secureRandom()` is concurrency. It is the fixed value `SharedSecureRandom`.
- Exception messages are left out. Only the facts they carry are kept: the period count, the role, the key class name, the algorithm name, the key size and the required minimum.
- The Java `assert` statements in the `CryptoAlgorithm` constructor (lines 18, 21) always hold after the `hasText` checks, so they have no model.
