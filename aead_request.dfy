/** `DefaultAeadRequest`: a crypto request that also carries the additional
    authenticated data. */
module AeadRequests {
  import opened Lang
  import opened Exceptions
  import opened Security

  datatype AeadRequest<T> = AeadRequest(request: CryptoRequest<T>, aad: Bytes) {
    function GetAssociatedData(): Bytes {
      aad
    }
  }

  /** The constructor: the base request takes its four arguments as given;
      only a null `aad` is refused, so an empty one is accepted. */
  function NewAeadRequest<T>(data: T, key: Key, provider: Option<Provider>,
                             secureRandom: Option<SecureRandom>, aad: Option<Bytes>)
    : (r: Result<AeadRequest<T>, Error>)
    ensures r.Failure? <==> aad.None?
    ensures r.Failure? ==> r.error == IllegalArgument(AssociatedDataNull)
    ensures r.Success? ==> r.value.GetAssociatedData() == aad.value
    ensures r.Success? ==> r.value.request == CryptoRequest(data, key, provider, secureRandom)
  {
    match aad
    case None => Failure(IllegalArgument(AssociatedDataNull))
    case Some(bytes) => Success(AeadRequest(CryptoRequest(data, key, provider, secureRandom), bytes))
  }

  /** Every request is what the constructor makes of its own parts. */
  lemma ConstructFromParts<T>(r: AeadRequest<T>)
    ensures NewAeadRequest(r.request.data, r.request.key, r.request.provider,
                           r.request.secureRandom, Some(r.GetAssociatedData())) == Success(r)
  {
  }
}
