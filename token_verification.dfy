/**
 * Token verification (regional-api/lambda/authorizer/app.py, `verify_token`), as pure functions and
 * the key-search loop. JOSE decoding and cryptography are not modelled: they are the oracle
 * functions of a `Jose` value, and the model is the control flow around them. The signing input is
 * the compact serialisation up to its last `.` (section 5.2 of RFC 7515, section 7.2 of RFC 7519).
 */
module TokenVerification {
  import opened Wrappers
  import opened JwksCache

  /** The claims the authorizer reads; None marks a claim that is absent. */
  datatype Claims = Claims(
    sub: Option<string>,
    username: Option<string>,
    cognitoUsername: Option<string>,
    exp: Option<int>,        // None also when `exp` is present but not a number
    aud: Option<string>,
    clientId: Option<string>)

  /** The JOSE library, as oracles. Each returns its failure value where the library call raises. */
  datatype Jose = Jose(
    headerKid: string -> Option<string>,            // get_unverified_headers(token)['kid']
    keyUsable: Key -> bool,                         // jwk.construct(key_data) succeeds
    signatureValid: (Key, string, string) -> bool,  // base64url_decode, then public_key.verify(message, signature)
    claims: string -> Option<Claims>)               // get_unverified_claims(token)

  /** The outcome of scanning the key list for a `kid`. */
  datatype KeyLookup =
    | Found(index: nat)       // the first key whose kid equals the token's
    | NotFound                // every key has a different kid
    | MissingKid(index: nat)  // `k['kid']` raised a KeyError on this key before any match

  /** Every key before index i carries a kid, and none equals `kid`. */
  ghost predicate NoMatchBefore(keys: seq<Key>, kid: string, i: int) {
    forall j :: 0 <= j < i && j < |keys| ==> keys[j].kid.Some? && keys[j].kid.value != kid
  }

  /** Lines 171-178: the first key in list order whose `kid` is the token's. */
  function Lookup(keys: seq<Key>, kid: string): (r: KeyLookup)
    ensures r.Found? ==> r.index < |keys| && keys[r.index].kid == Some(kid) && NoMatchBefore(keys, kid, r.index)
    ensures r.MissingKid? ==> r.index < |keys| && keys[r.index].kid.None? && NoMatchBefore(keys, kid, r.index)
    ensures r.NotFound? ==> NoMatchBefore(keys, kid, |keys|)
  {
    if keys == [] then NotFound
    else if keys[0].kid.None? then MissingKid(0)
    else if keys[0].kid.value == kid then Found(0)
    else match Lookup(keys[1..], kid)
      case Found(i) => Found(i + 1)
      case MissingKid(i) => MissingKid(i + 1)
      case NotFound => NotFound
  }

  /** The `for k in keys` loop of lines 174-178, with its `break`. */
  method FindKey(keys: seq<Key>, kid: string) returns (r: KeyLookup)
    ensures r == Lookup(keys, kid)
  {
    var i := 0;
    while i < |keys|
      invariant 0 <= i <= |keys|
      invariant NoMatchBefore(keys, kid, i)
    {
      if keys[i].kid.None? {
        return MissingKid(i);
      }
      if keys[i].kid.value == kid {
        return Found(i);
      }
      i := i + 1;
    }
    return NotFound;
  }

  /** Line 191, `token.rsplit('.', 1)` unpacked into two names: None when there is no `.` (a ValueError). */
  function SplitAtLastDot(s: string): (r: Option<(string, string)>)
    ensures r.None? <==> '.' !in s
    ensures r.Some? ==> s == r.value.0 + "." + r.value.1 && '.' !in r.value.1
  {
    if s == [] then None
    else if s[|s| - 1] == '.' then Some((s[..|s| - 1], ""))
    else match SplitAtLastDot(s[..|s| - 1])
      case None => None
      case Some((m, g)) =>
        assert s == s[..|s| - 1] + [s[|s| - 1]];
        Some((m, g + [s[|s| - 1]]))
  }

  /** In `m + "." + g` with a dot-free g, the dot after m is the last one. */
  lemma LastDotAt(s: string, m: string, g: string)
    requires s == m + "." + g && '.' !in g
    ensures |m| < |s| && s[|m|] == '.'
    ensures forall k :: |m| < k < |s| ==> s[k] != '.'
  {
  }

  /** The split is the only way to write s as message, `.`, and a dot-free signature segment. */
  lemma {:induction false} SplitAtLastDotUnique(s: string, m: string, g: string)
    requires s == m + "." + g && '.' !in g
    ensures SplitAtLastDot(s) == Some((m, g))
  {
    LastDotAt(s, m, g);
    var (m', g') := SplitAtLastDot(s).value;
    LastDotAt(s, m', g');
    assert |m| == |m'|;
    assert m == s[..|m|] == m';
    assert g == s[|m| + 1..] == g';
  }

  /** Lines 215-224: `aud` decides when present; otherwise `client_id` does; a token with neither is accepted. */
  predicate AudienceAccepted(c: Claims, clientId: string) {
    c.aud == Some(clientId) || (c.aud.None? && (c.clientId.None? || c.clientId == Some(clientId)))
  }

  /** Why verification returned None (the source logs the reason and returns None for all of them). */
  datatype Rejection =
    | HeaderUnreadable | KeysUnavailable | KeyNotFound
    | KeyUnusable | NoSignatureSegment | SignatureInvalid
    | ClaimsUnreadable | ExpiryUnreadable | Expired | AudienceMismatch | ClientIdMismatch

  /** What `verify_token` does: return the claims, return None, or raise. */
  datatype Verdict = Accepted(claims: Claims) | Rejected(reason: Rejection) | Raised

  /** Lines 185-231, once the key is chosen: every failure, and every exception, gives None. */
  function CheckSigned(token: string, jose: Jose, clientId: string, now: int, key: Key): (v: Verdict)
    ensures !v.Raised?
  {
    if !jose.keyUsable(key) then Rejected(KeyUnusable)
    else match SplitAtLastDot(token)
      case None => Rejected(NoSignatureSegment)
      case Some((message, signature)) =>
        if !jose.signatureValid(key, message, signature) then Rejected(SignatureInvalid)
        else match jose.claims(token)
          case None => Rejected(ClaimsUnreadable)
          case Some(c) =>
            if c.exp.None? then Rejected(ExpiryUnreadable)
            else if now > c.exp.value then Rejected(Expired)
            else if c.aud.Some? then
              if c.aud.value != clientId then Rejected(AudienceMismatch) else Accepted(c)
            else if c.clientId.Some? then
              if c.clientId.value != clientId then Rejected(ClientIdMismatch) else Accepted(c)
            else Accepted(c)
  }

  /** The verdict of one `verify_token` call with the cache it leaves behind and whether it fetched. */
  datatype Verification = Verification(verdict: Verdict, cache: Option<CacheEntry>, fetched: bool)

  /** `verify_token(token)` at time `now` with cache `cache` and, should it be needed, fetch result `fetch`. */
  function Verify(token: string, jose: Jose, clientId: string, now: int, cache: Option<CacheEntry>, fetch: Option<seq<Key>>): (r: Verification)
    // An unreadable header, or one without `kid`, stops before the key set is touched.
    ensures jose.headerKid(token).None? ==> r == Verification(Rejected(HeaderUnreadable), cache, false)
    // Otherwise the key set is read exactly once.
    ensures jose.headerKid(token).Some? ==>
      r.cache == ReadKeys(cache, now, fetch).cache && r.fetched == ReadKeys(cache, now, fetch).fetched
    // Key retrieval raising gives None, with the cache unchanged.
    ensures jose.headerKid(token).Some? && ReadKeys(cache, now, fetch).keys.None? ==>
      r.verdict == Rejected(KeysUnavailable) && r.cache == cache
    // With keys in hand: None when no key has the kid, a raise when a kid-less key comes first,
    // and otherwise the first key in list order with that kid decides.
    ensures jose.headerKid(token).Some? && ReadKeys(cache, now, fetch).keys.Some? ==>
      var kid := jose.headerKid(token).value;
      var keys := ReadKeys(cache, now, fetch).keys.value;
      (r.verdict == Rejected(KeyNotFound) <==> NoMatchBefore(keys, kid, |keys|))
      && (r.verdict.Raised? <==> exists i :: 0 <= i < |keys| && keys[i].kid.None? && NoMatchBefore(keys, kid, i))
      && (forall i :: 0 <= i < |keys| && keys[i].kid == Some(kid) && NoMatchBefore(keys, kid, i) ==>
            r.verdict == CheckSigned(token, jose, clientId, now, keys[i]))
  {
    match jose.headerKid(token)
    case None => Verification(Rejected(HeaderUnreadable), cache, false)
    case Some(kid) =>
      var read := ReadKeys(cache, now, fetch);
      match read.keys
      case None => Verification(Rejected(KeysUnavailable), read.cache, read.fetched)
      case Some(keys) =>
        var v := match Lookup(keys, kid)
          case MissingKid(_) => Raised
          case NotFound => Rejected(KeyNotFound)
          case Found(i) => CheckSigned(token, jose, clientId, now, keys[i]);
        Verification(v, read.cache, read.fetched)
  }

  /** The token is signed by `key`: its text before the last `.` verifies against the segment after it. */
  ghost predicate SignedBy(token: string, jose: Jose, key: Key) {
    jose.keyUsable(key)
    && exists message: string, signature: string ::
         token == message + "." + signature && '.' !in signature && jose.signatureValid(key, message, signature)
  }

  /** Every gate of `verify_token` passes and `c` is the decoded claim set. */
  ghost predicate Accepts(token: string, jose: Jose, clientId: string, now: int,
                          cache: Option<CacheEntry>, fetch: Option<seq<Key>>, c: Claims) {
    var kid := jose.headerKid(token);
    var keys := ReadKeys(cache, now, fetch).keys;
    kid.Some? && keys.Some?
    && (exists i :: 0 <= i < |keys.value| && keys.value[i].kid == kid && NoMatchBefore(keys.value, kid.value, i)
                    && SignedBy(token, jose, keys.value[i]))
    && jose.claims(token) == Some(c)
    && c.exp.Some? && now <= c.exp.value
    && AudienceAccepted(c, clientId)
  }

  /** The first key carrying `kid` is the one the scan finds. */
  lemma FirstMatchFound(keys: seq<Key>, kid: string, j: nat)
    requires j < |keys| && keys[j].kid == Some(kid) && NoMatchBefore(keys, kid, j)
    ensures Lookup(keys, kid) == Found(j)
  {
  }

  /** Accepted claims have passed every gate. */
  lemma AcceptedPassedGates(token: string, jose: Jose, clientId: string, now: int,
                            cache: Option<CacheEntry>, fetch: Option<seq<Key>>, c: Claims)
    requires Verify(token, jose, clientId, now, cache, fetch).verdict == Accepted(c)
    ensures Accepts(token, jose, clientId, now, cache, fetch, c)
  {
  }

  /** A token that passes every gate is accepted with its decoded claims. */
  lemma GatesPassedAccepted(token: string, jose: Jose, clientId: string, now: int,
                            cache: Option<CacheEntry>, fetch: Option<seq<Key>>, c: Claims)
    requires Accepts(token, jose, clientId, now, cache, fetch, c)
    ensures Verify(token, jose, clientId, now, cache, fetch).verdict == Accepted(c)
  {
    var kid := jose.headerKid(token).value;
    var ks := ReadKeys(cache, now, fetch).keys.value;
    var j :| 0 <= j < |ks| && ks[j].kid == Some(kid) && NoMatchBefore(ks, kid, j) && SignedBy(token, jose, ks[j]);
    FirstMatchFound(ks, kid, j);
    var m, g :| token == m + "." + g && '.' !in g && jose.signatureValid(ks[j], m, g);
    SplitAtLastDotUnique(token, m, g);
    assert CheckSigned(token, jose, clientId, now, ks[j]) == Accepted(c);
  }

  /** Claims come back exactly when every gate passes, and they are the decoded claims unchanged. */
  lemma AcceptedIffAllGates(token: string, jose: Jose, clientId: string, now: int,
                            cache: Option<CacheEntry>, fetch: Option<seq<Key>>, c: Claims)
    ensures Verify(token, jose, clientId, now, cache, fetch).verdict == Accepted(c)
        <==> Accepts(token, jose, clientId, now, cache, fetch, c)
  {
    if Verify(token, jose, clientId, now, cache, fetch).verdict == Accepted(c) {
      AcceptedPassedGates(token, jose, clientId, now, cache, fetch, c);
    }
    if Accepts(token, jose, clientId, now, cache, fetch, c) {
      GatesPassedAccepted(token, jose, clientId, now, cache, fetch, c);
    }
  }
}
