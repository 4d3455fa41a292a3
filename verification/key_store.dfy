/** GitHub's published signing keys as the relay receives them from the key
    endpoint, and the first-match lookup both verifiers perform on them. */
module KeyStore {
  import opened Wrappers

  /** One entry of the `public_keys` list: its `key_identifier` and its PEM
      `key`; either field may be absent from the document. */
  datatype KeyEntry = KeyEntry(keyIdentifier: Option<string>, key: Option<string>)

  /** The decoded JSON body of the key endpoint: `None` when it has no
      `public_keys` member. */
  datatype KeyDocument = KeyDocument(publicKeys: Option<seq<KeyEntry>>)

  /** What the HTTP client reports for the key request: it raised (DNS,
      connection, timeout), or the server answered with a status and a body
      that is JSON (`Some`) or is not (`None`). */
  datatype KeyFetch =
    | FetchRaised
    | FetchAnswered(status: int, body: Option<KeyDocument>)

  /** `entry` carries exactly the identifier `id`. */
  predicate Matches(entry: KeyEntry, id: string) {
    entry.keyIdentifier == Some(id)
  }

  /** `i` is the index of the first entry of `keys` matching `id`. */
  predicate FirstMatch(keys: seq<KeyEntry>, id: string, i: nat) {
    i < |keys| && Matches(keys[i], id) && forall j :: 0 <= j < i ==> !Matches(keys[j], id)
  }

  /** `Array.prototype.find` / `next(k for k in keys if ...)`: the index of
      the first entry whose identifier equals `id`, or `None` when no entry
      has it. */
  function FindKey(keys: seq<KeyEntry>, id: string): (r: Option<nat>)
    ensures r.Some? ==> FirstMatch(keys, id, r.value)
    ensures r.None? ==> forall j :: 0 <= j < |keys| ==> !Matches(keys[j], id)
  {
    if keys == [] then None
    else if Matches(keys[0], id) then Some(0)
    else
      match FindKey(keys[1..], id)
      case None => None
      case Some(i) => Some(i + 1)
  }

  /** There is at most one first match, so "the" key is well defined. */
  lemma FirstMatchUnique(keys: seq<KeyEntry>, id: string, i: nat, j: nat)
    requires FirstMatch(keys, id, i) && FirstMatch(keys, id, j)
    ensures i == j
  {
  }

  /** The lookup finds the first match whenever there is one. */
  lemma FindKeyFirstMatch(keys: seq<KeyEntry>, id: string, i: nat)
    requires FirstMatch(keys, id, i)
    ensures FindKey(keys, id) == Some(i)
  {
    if FindKey(keys, id).Some? {
      FirstMatchUnique(keys, id, i, FindKey(keys, id).value);
    }
  }

  /** Entries after the first match never influence the lookup: appending
      keys to a list that already holds a match leaves the choice unchanged. */
  lemma {:induction false} FindKeyPrefix(keys: seq<KeyEntry>, more: seq<KeyEntry>, id: string)
    requires FindKey(keys, id).Some?
    ensures FindKey(keys + more, id) == FindKey(keys, id)
  {
    if !Matches(keys[0], id) {
      assert (keys + more)[1..] == keys[1..] + more;
      FindKeyPrefix(keys[1..], more, id);
    }
  }
}
