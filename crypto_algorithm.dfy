/** `CryptoAlgorithm`: the base of every algorithm, holding its public name
    and the identifier handed to the JCA. */
module CryptoAlgorithms {
  import opened Lang
  import opened Exceptions
  import opened Security

  datatype CryptoAlgorithm = CryptoAlgorithm(name: string, jcaName: string) {

    /** What every constructed instance satisfies. */
    predicate Valid() {
      HasText(Some(name)) && HasText(Some(jcaName))
    }

    function GetName(): string {
      name
    }

    function GetJcaName(): string {
      jcaName
    }

    /** The request's own random source takes precedence over the shared one. */
    function EnsureSecureRandom<T>(request: CryptoRequest<T>): (r: SecureRandom)
      ensures request.secureRandom.Some? ==> r == request.secureRandom.value
      ensures request.secureRandom.None? ==> r == SharedSecureRandom
    {
      match request.secureRandom
      case Some(random) => random
      case None => SharedSecureRandom
    }
  }

  /** The constructor: `name` is checked first, then `jcaName`. */
  function NewCryptoAlgorithm(name: Option<string>, jcaName: Option<string>): (r: Result<CryptoAlgorithm, Error>)
    ensures r.Success? <==> HasText(name) && HasText(jcaName)
    ensures !HasText(name) ==> r == Failure(IllegalArgument(NameBlank))
    ensures HasText(name) && !HasText(jcaName) ==> r == Failure(IllegalArgument(JcaNameBlank))
    ensures r.Success? ==> r.value.Valid()
    ensures r.Success? ==> r.value.GetName() == name.value && r.value.GetJcaName() == jcaName.value
  {
    if !HasText(name) then Failure(IllegalArgument(NameBlank))
    else if !HasText(jcaName) then Failure(IllegalArgument(JcaNameBlank))
    else Success(CryptoAlgorithm(name.value, jcaName.value))
  }

  /** Every valid instance is what the constructor makes of its own getters. */
  lemma ConstructFromGetters(a: CryptoAlgorithm)
    requires a.Valid()
    ensures NewCryptoAlgorithm(Some(a.GetName()), Some(a.GetJcaName())) == Success(a)
  {
  }
}
