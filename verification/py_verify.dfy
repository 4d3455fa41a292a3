/** The Python agent's signature check (`verify.py`): fetch GitHub's key
    list, pick the first key whose identifier matches, load it, insist that it
    is an elliptic-curve key, decode the base64 signature, turn a 64-byte IEEE
    P1363 signature `r || s` into the integer pair that section 2.2.3 of
    RFC 3279 encodes as `Dss-Sig-Value`, and check it. PEM loading, base64
    decoding and the ECDSA check are abstract functions. */
module PyVerify {
  import opened Wrappers
  import opened KeyStore

  /** Why `verify_signature` raises. */
  datatype VerifyError =
    | FetchFailed              // the request raised, or the body was not JSON
    | HttpError(status: int)   // `raise_for_status` on a 4xx or 5xx status
    | NoMatchingKey(keyId: string)
    | KeyMissing               // `matching["key"]` raises `KeyError`
    | PemInvalid               // `load_pem_public_key` raises
    | NotEcKey                 // the loaded key is not an `EllipticCurvePublicKey`
    | BadBase64                // `b64decode` raises
    | InvalidSignature         // `public_key.verify` raises

  /** What `load_pem_public_key` makes of a PEM text. */
  datatype KeyKind = Malformed | EllipticCurve | OtherAlgorithm

  /** The signature handed to `public_key.verify`: the DER encoding of the
      pair `(r, s)` made by `encode_dss_signature`, or the decoded bytes as
      they are. */
  datatype SignatureArgument = Dss(r: nat, s: nat) | Raw(bytes: seq<byte>)

  /** The abstract external functions: PEM loading, base64 decoding (`None`
      when it raises) and the ECDSA P-256 / SHA-256 check of a signature over
      a body with a key (`false` when `verify` raises `InvalidSignature`). */
  type PemLoader = string -> KeyKind
  type Base64Decoder = string -> Option<seq<byte>>
  type EcdsaCheck = (string, SignatureArgument, seq<byte>) -> bool

  /** `raise_for_status` raises for client and server errors. */
  predicate IsHttpError(status: int) {
    400 <= status <= 599
  }

  /** `_fetch_public_keys`: the `public_keys` member of a successful
      response, with a missing member read as the empty list. */
  function FetchPublicKeys(fetch: KeyFetch): (r: Result<seq<KeyEntry>, VerifyError>)
    ensures r.Ok? <==> fetch.FetchAnswered? && !IsHttpError(fetch.status) && fetch.body.Some?
    ensures r.Ok? ==> r.value == fetch.body.value.publicKeys.GetOr([])
    ensures fetch.FetchAnswered? && IsHttpError(fetch.status) ==> r == Err(HttpError(fetch.status))
  {
    match fetch
    case FetchRaised => Err(FetchFailed)
    case FetchAnswered(status, body) =>
      if IsHttpError(status) then Err(HttpError(status))
      else if body.None? then Err(FetchFailed)
      else Ok(body.value.publicKeys.GetOr([]))
  }

  /** 256 to the power `n`. */
  function Pow256(n: nat): (p: nat)
    ensures p >= 1
  {
    if n == 0 then 1 else 256 * Pow256(n - 1)
  }

  /** `int.from_bytes(bs, "big")`. */
  function FromBytes(bs: seq<byte>): (n: nat)
    ensures n < Pow256(|bs|)
  {
    if bs == [] then 0
    else
      var k := |bs| - 1;
      var high := FromBytes(bs[..k]);
      assert high * 256 + bs[k] as nat < Pow256(|bs|) by {
        assert high + 1 <= Pow256(k);
        assert (high + 1) * 256 <= Pow256(k) * 256;
      }
      high * 256 + bs[k] as nat
  }

  /** `n.to_bytes(len, "big")`, the inverse of `FromBytes`. */
  function ToBytes(n: nat, len: nat): (bs: seq<byte>)
    requires n < Pow256(len)
    ensures |bs| == len
  {
    if len == 0 then []
    else
      assert n / 256 < Pow256(len - 1);
      ToBytes(n / 256, len - 1) + [(n % 256) as byte]
  }

  /** Reading bytes as an integer and writing it back loses nothing. */
  lemma {:induction false} ToBytesFromBytes(bs: seq<byte>)
    ensures ToBytes(FromBytes(bs), |bs|) == bs
  {
    if bs != [] {
      var k := |bs| - 1;
      var high := FromBytes(bs[..k]);
      assert (high * 256 + bs[k] as nat) / 256 == high;
      assert (high * 256 + bs[k] as nat) % 256 == bs[k] as nat;
      ToBytesFromBytes(bs[..k]);
      assert bs == bs[..k] + [bs[k]];
    }
  }

  /** Writing an integer as bytes and reading them back gives the integer. */
  lemma {:induction false} FromBytesToBytes(n: nat, len: nat)
    requires n < Pow256(len)
    ensures FromBytes(ToBytes(n, len)) == n
  {
    if len > 0 {
      var bs := ToBytes(n, len);
      FromBytesToBytes(n / 256, len - 1);
      assert bs[..len - 1] == ToBytes(n / 256, len - 1);
    }
  }

  /** The signature argument: a 64-byte P1363 signature is split into `r`
      (bytes 0..31) and `s` (bytes 32..63), read big-endian, so that each is
      below 2^256 = 256^32 and writing both back as 32 bytes gives the
      signature again; any other length is passed on unchanged as DER. */
  function SignatureArgumentOf(bytes: seq<byte>): (arg: SignatureArgument)
    ensures |bytes| == 64 ==> arg.Dss? && arg.r < Pow256(32) && arg.s < Pow256(32)
                              && ToBytes(arg.r, 32) + ToBytes(arg.s, 32) == bytes
    ensures |bytes| != 64 ==> arg == Raw(bytes)
  {
    if |bytes| == 64 then
      ToBytesFromBytes(bytes[..32]);
      ToBytesFromBytes(bytes[32..]);
      assert bytes == bytes[..32] + bytes[32..];
      Dss(FromBytes(bytes[..32]), FromBytes(bytes[32..]))
    else Raw(bytes)
  }

  /** The request is genuine by the source's standard: the key endpoint
      answered with a key list, some entry is the first one carrying `keyId`,
      it holds a key that loads as an elliptic-curve key, the signature
      decodes, and the check succeeds over `rawBody` with the decoded
      signature's argument. */
  ghost predicate Accepts(rawBody: seq<byte>, keyId: string, signatureB64: string, fetch: KeyFetch,
                          loadPem: PemLoader, b64decode: Base64Decoder, ecdsa: EcdsaCheck) {
    && fetch.FetchAnswered? && !IsHttpError(fetch.status) && fetch.body.Some?
    && var keys := fetch.body.value.publicKeys.GetOr([]);
       exists i: nat :: FirstMatch(keys, keyId, i) && keys[i].key.Some?
                   && loadPem(keys[i].key.value) == EllipticCurve
                   && b64decode(signatureB64).Some?
                   && ecdsa(keys[i].key.value, SignatureArgumentOf(b64decode(signatureB64).value), rawBody)
  }

  /** `verify_signature(raw_body, key_id, signature_b64)`: returns normally
      exactly when the request is accepted. The checks happen in order, so a
      failed key request, an unknown identifier and a key that is not an EC
      key are each reported whatever the signature holds. */
  function VerifySignature(rawBody: seq<byte>, keyId: string, signatureB64: string, fetch: KeyFetch,
                           loadPem: PemLoader, b64decode: Base64Decoder, ecdsa: EcdsaCheck)
    : (r: Outcome<VerifyError>)
    ensures r == Pass <==> Accepts(rawBody, keyId, signatureB64, fetch, loadPem, b64decode, ecdsa)
    ensures FetchPublicKeys(fetch).Err? ==> r == Fail(FetchPublicKeys(fetch).error)
    ensures FetchPublicKeys(fetch).Ok? && FindKey(FetchPublicKeys(fetch).value, keyId).None?
            ==> r == Fail(NoMatchingKey(keyId))
  {
    match FetchPublicKeys(fetch)
    case Err(e) => Fail(e)
    case Ok(keys) =>
      match FindKey(keys, keyId)
      case None => Fail(NoMatchingKey(keyId))
      case Some(i) =>
        match keys[i].key
        case None => Fail(KeyMissing)
        case Some(key) =>
          match loadPem(key)
          case Malformed => Fail(PemInvalid)
          case OtherAlgorithm => Fail(NotEcKey)
          case EllipticCurve =>
            match b64decode(signatureB64)
            case None => Fail(BadBase64)
            case Some(bytes) =>
              if ecdsa(key, SignatureArgumentOf(bytes), rawBody) then Pass else Fail(InvalidSignature)
  }

  /** A key that is not an elliptic-curve key is refused before the
      signature is decoded or checked: the decoder and the check play no part. */
  lemma KeyTypeCheckedFirst(rawBody: seq<byte>, keyId: string, signatureB64: string, fetch: KeyFetch,
                            loadPem: PemLoader, d1: Base64Decoder, d2: Base64Decoder, e1: EcdsaCheck, e2: EcdsaCheck)
    requires FetchPublicKeys(fetch).Ok?
    requires var keys := FetchPublicKeys(fetch).value;
             var i := FindKey(keys, keyId);
             i.Some? && keys[i.value].key.Some? && loadPem(keys[i.value].key.value) == OtherAlgorithm
    ensures VerifySignature(rawBody, keyId, signatureB64, fetch, loadPem, d1, e1) == Fail(NotEcKey)
    ensures VerifySignature(rawBody, keyId, signatureB64, fetch, loadPem, d2, e2) == Fail(NotEcKey)
  {
  }

  /** A key document without `public_keys` is an empty list: every
      identifier is unknown. */
  lemma MissingKeyListIsEmpty(rawBody: seq<byte>, keyId: string, signatureB64: string, status: int,
                              loadPem: PemLoader, b64decode: Base64Decoder, ecdsa: EcdsaCheck)
    requires !IsHttpError(status)
    ensures VerifySignature(rawBody, keyId, signatureB64, FetchAnswered(status, Some(KeyDocument(None))),
                            loadPem, b64decode, ecdsa) == Fail(NoMatchingKey(keyId))
  {
  }
}
