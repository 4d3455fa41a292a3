/** The Node agent's signature check (`verify.ts`): fetch GitHub's key list,
    pick the first key whose identifier matches the request's, and check the
    ECDSA P-256 / SHA-256 signature over the raw body with it. The key request
    is an input and the signature check an abstract predicate. */
module NodeVerify {
  import opened Wrappers
  import opened KeyStore

  /** Why `verifySignature` throws. */
  datatype VerifyError =
    | FetchFailed              // the request rejected, or the body was not JSON
    | KeysStatus(status: int)  // the key endpoint answered with a non-ok status
    | NoKeyList                // the document has no `public_keys`: `find` on `undefined` throws
    | NoMatchingKey(keyId: string)
    | KeyMissing               // the matching entry has no `key`: the crypto call throws
    | BadSignature

  /** The signature check `crypto.createVerify('SHA256')` performs with a PEM
      key, the bytes it was updated with, and a base64 signature in IEEE P1363
      form: `true` when it returns true, `false` when it returns false or throws. */
  type EcdsaCheck = (string, seq<byte>, string) -> bool

  /** `response.ok`: the status is in 200..299. */
  predicate IsOk(status: int) {
    200 <= status <= 299
  }

  /** `fetchPublicKeys`: the `public_keys` member of a successful response,
      which is `undefined` (`None`) when the document lacks it. */
  function FetchPublicKeys(fetch: KeyFetch): (r: Result<Option<seq<KeyEntry>>, VerifyError>)
    ensures r.Ok? <==> fetch.FetchAnswered? && IsOk(fetch.status) && fetch.body.Some?
    ensures r.Ok? ==> r.value == fetch.body.value.publicKeys
    ensures fetch.FetchAnswered? && !IsOk(fetch.status) ==> r == Err(KeysStatus(fetch.status))
  {
    match fetch
    case FetchRaised => Err(FetchFailed)
    case FetchAnswered(status, body) =>
      if !IsOk(status) then Err(KeysStatus(status))
      else if body.None? then Err(FetchFailed)
      else Ok(body.value.publicKeys)
  }

  /** The request is genuine by the source's standard: the key endpoint
      answered ok with a key list, some entry is the first one carrying
      `keyId`, it holds a key, and the signature checks out over `rawBody`
      with that key. */
  ghost predicate Accepts(rawBody: seq<byte>, keyId: string, signature: string, fetch: KeyFetch, ecdsa: EcdsaCheck) {
    && fetch.FetchAnswered? && IsOk(fetch.status)
    && fetch.body.Some? && fetch.body.value.publicKeys.Some?
    && var keys := fetch.body.value.publicKeys.value;
       exists i: nat :: FirstMatch(keys, keyId, i) && keys[i].key.Some? && ecdsa(keys[i].key.value, rawBody, signature)
  }

  /** `verifySignature(rawBody, keyId, signature)`: returns normally exactly
      when the request is accepted; a failed key request, a missing key list
      and an unknown identifier are reported before any signature check. */
  function VerifySignature(rawBody: seq<byte>, keyId: string, signature: string, fetch: KeyFetch, ecdsa: EcdsaCheck)
    : (r: Outcome<VerifyError>)
    ensures r == Pass <==> Accepts(rawBody, keyId, signature, fetch, ecdsa)
    ensures fetch.FetchRaised? ==> r == Fail(FetchFailed)
    ensures fetch.FetchAnswered? && !IsOk(fetch.status) ==> r == Fail(KeysStatus(fetch.status))
    ensures FetchPublicKeys(fetch) == Ok(None) ==> r == Fail(NoKeyList)
    ensures FetchPublicKeys(fetch).Ok? && FetchPublicKeys(fetch).value.Some?
            && (forall j :: 0 <= j < |FetchPublicKeys(fetch).value.value| ==> !Matches(FetchPublicKeys(fetch).value.value[j], keyId))
            ==> r == Fail(NoMatchingKey(keyId))
  {
    match FetchPublicKeys(fetch)
    case Err(e) => Fail(e)
    case Ok(None) => Fail(NoKeyList)
    case Ok(Some(keys)) =>
      match FindKey(keys, keyId)
      case None => Fail(NoMatchingKey(keyId))
      case Some(i) =>
        if keys[i].key.None? then Fail(KeyMissing)
        else if ecdsa(keys[i].key.value, rawBody, signature) then Pass
        else Fail(BadSignature)
  }

  /** The signature is checked over the raw body exactly as received: two
      checks that agree on `(key, rawBody, signature)` for every key give the
      same verdict. */
  lemma VerifiesRawBody(rawBody: seq<byte>, keyId: string, signature: string, fetch: KeyFetch,
                        e1: EcdsaCheck, e2: EcdsaCheck)
    requires forall key :: e1(key, rawBody, signature) == e2(key, rawBody, signature)
    ensures VerifySignature(rawBody, keyId, signature, fetch, e1) == VerifySignature(rawBody, keyId, signature, fetch, e2)
  {
  }

  /** Only the first matching entry matters: a later entry with the same
      identifier and a key that would verify does not rescue a request whose
      first match fails. */
  lemma FirstKeyDecides(rawBody: seq<byte>, keyId: string, signature: string, status: int,
                        keys: seq<KeyEntry>, later: KeyEntry, ecdsa: EcdsaCheck)
    requires IsOk(status) && FindKey(keys, keyId).Some?
    ensures var fetch := FetchAnswered(status, Some(KeyDocument(Some(keys))));
            var more := FetchAnswered(status, Some(KeyDocument(Some(keys + [later]))));
            VerifySignature(rawBody, keyId, signature, more, ecdsa) == VerifySignature(rawBody, keyId, signature, fetch, ecdsa)
  {
    FindKeyPrefix(keys, [later], keyId);
  }
}
