/**
 * The authorizer's entry point (regional-api/lambda/authorizer/app.py, `lambda_handler`): extract the
 * token, verify it, re-check its expiry and turn the outcome into an Allow or Deny policy; any
 * exception becomes a Deny. The whole behaviour is the total function `Authorize` from the event, the
 * JOSE oracles, the two clock readings, the cache and the fetch result to the policy and the new cache;
 * the class `Authorizer` is the module's state (configuration and key cache) and runs it step by step.
 * Two clock readings are modelled: `verifyTime`, read inside `verify_token` (for the cache and the
 * first `exp` check), and `handlerTime`, the `int(time.time())` of the handler's own check.
 */
module Authorization {
  import opened Wrappers
  import opened TokenExtraction
  import opened JwksCache
  import opened TokenVerification
  import opened Policies

  const DenyPrincipal: string := "user"
  const MsgUnauthorized: string := "Unauthorized"
  const MsgInvalidToken: string := "Invalid token"
  const MsgTokenExpired: string := "Token expired"
  const MsgAuthorizationError: string := "Authorization error"

  /** Line 47: `claims.get('username', claims.get('cognito:username', user_id))`. */
  function Username(c: Claims): (name: Option<string>)
    ensures c.username.Some? ==> name == c.username
    ensures c.username.None? && c.cognitoUsername.Some? ==> name == c.cognitoUsername
    ensures c.username.None? && c.cognitoUsername.None? ==> name == c.sub
  {
    if c.username.Some? then c.username
    else if c.cognitoUsername.Some? then c.cognitoUsername
    else c.sub
  }

  /** The Deny policies of lines 33, 41, 55 and 73. */
  function DenyPolicy(resource: string, message: string): (p: Policy)
    ensures p.principalId == Some(DenyPrincipal)
    ensures p.policyDocument == PolicyDocument(PolicyVersion, [Statement(InvokeAction, Deny, resource)])
    ensures p.context == Some(map["message" := Some(message)])
  {
    assert "message" in map["message" := Some(message)];
    GeneratePolicy(Some(DenyPrincipal), Deny, resource, Some(map["message" := Some(message)]))
  }

  /** The policy handed back and the cache the request leaves behind. */
  datatype Decision = Decision(policy: Policy, cache: Option<CacheEntry>, fetched: bool)

  /** `lambda_handler(event, context)`. */
  function Authorize(e: AuthEvent, jose: Jose, clientId: string, verifyTime: int, handlerTime: int,
                     cache: Option<CacheEntry>, fetch: Option<seq<Key>>): (d: Decision)
    // Every decision is a one-statement policy for the invoked method, Allow or Deny.
    ensures d.policy.policyDocument.version == PolicyVersion
    ensures |d.policy.policyDocument.statement| == 1
    ensures d.policy.policyDocument.statement[0].action == InvokeAction
    ensures d.policy.policyDocument.statement[0].resource == e.methodArn
    // Every Deny names the principal 'user' and carries exactly one of the four messages.
    ensures EffectOf(d.policy) == Some(Deny) ==>
      d.policy.principalId == Some(DenyPrincipal) && d.policy.context.Some?
      && d.policy.context.value.Keys == {"message"}
      && d.policy.context.value["message"] in {Some(MsgUnauthorized), Some(MsgInvalidToken), Some(MsgTokenExpired), Some(MsgAuthorizationError)}
    // An Allow is granted to the token's user with context {user_id: sub, username}.
    ensures EffectOf(d.policy) == Some(Allow) ==>
      TokenFromEvent(e).Some?
      && var c := jose.claims(TokenFromEvent(e).value);
         c.Some? && d.policy.principalId == Username(c.value)
         && d.policy.context == Some(map["user_id" := c.value.sub, "username" := Username(c.value)])
    // Without a token the key cache is neither read nor changed; otherwise it is left as verification leaves it.
    ensures TokenFromEvent(e).None? || TokenFromEvent(e).value == "" ==> d.cache == cache && !d.fetched
    ensures TokenFromEvent(e).Some? && TokenFromEvent(e).value != "" ==>
      var r := Verify(TokenFromEvent(e).value, jose, clientId, verifyTime, cache, fetch);
      d.cache == r.cache && d.fetched == r.fetched
  {
    var token := TokenFromEvent(e);
    if token.None? || token.value == "" then Decision(DenyPolicy(e.methodArn, MsgUnauthorized), cache, false)
    else
      var v := Verify(token.value, jose, clientId, verifyTime, cache, fetch);
      match v.verdict
      case Raised => Decision(DenyPolicy(e.methodArn, MsgAuthorizationError), v.cache, v.fetched)
      case Rejected(_) => Decision(DenyPolicy(e.methodArn, MsgInvalidToken), v.cache, v.fetched)
      case Accepted(c) =>
        AcceptedIffAllGates(token.value, jose, clientId, verifyTime, cache, fetch, c);
        var userId := c.sub;
        var username := Username(c);
        var exp := if c.exp.Some? then c.exp.value else 0;
        if handlerTime > exp then Decision(DenyPolicy(e.methodArn, MsgTokenExpired), v.cache, v.fetched)
        else
          assert "user_id" in map["user_id" := userId, "username" := username];
          var p := GeneratePolicy(username, Allow, e.methodArn, Some(map["user_id" := userId, "username" := username]));
          Decision(p, v.cache, v.fetched)
  }

  /** A non-empty token was found, `verify_token` would accept it, and the handler's clock is not past its `exp`. */
  ghost predicate EveryGatePasses(e: AuthEvent, jose: Jose, clientId: string, verifyTime: int, handlerTime: int,
                                  cache: Option<CacheEntry>, fetch: Option<seq<Key>>) {
    var token := TokenFromEvent(e);
    token.Some? && token.value != ""
    && var c := jose.claims(token.value);
       c.Some? && Accepts(token.value, jose, clientId, verifyTime, cache, fetch, c.value)
       && c.value.exp.Some? && handlerTime <= c.value.exp.value
  }

  /** The decision is Allow exactly when every gate passes. */
  lemma AllowIffEveryGatePasses(e: AuthEvent, jose: Jose, clientId: string, verifyTime: int, handlerTime: int,
                                cache: Option<CacheEntry>, fetch: Option<seq<Key>>)
    ensures EffectOf(Authorize(e, jose, clientId, verifyTime, handlerTime, cache, fetch).policy) == Some(Allow)
        <==> EveryGatePasses(e, jose, clientId, verifyTime, handlerTime, cache, fetch)
  {
    var token := TokenFromEvent(e);
    if token.Some? && token.value != "" {
      var v := Verify(token.value, jose, clientId, verifyTime, cache, fetch);
      if v.verdict.Accepted? {
        AcceptedIffAllGates(token.value, jose, clientId, verifyTime, cache, fetch, v.verdict.claims);
      }
      var c := jose.claims(token.value);
      if c.Some? {
        AcceptedIffAllGates(token.value, jose, clientId, verifyTime, cache, fetch, c.value);
      }
    }
  }

  /**
   * Which failure yields which message: no (or an empty) token gives 'Unauthorized'; for a non-empty
   * token, an exception escaping `verify_token` gives 'Authorization error', any None from it gives
   * 'Invalid token', and claims it accepted whose `exp` the handler's clock has passed give 'Token expired'.
   */
  lemma DenyMessageByStage(e: AuthEvent, jose: Jose, clientId: string, verifyTime: int, handlerTime: int,
                           cache: Option<CacheEntry>, fetch: Option<seq<Key>>)
    ensures var p := Authorize(e, jose, clientId, verifyTime, handlerTime, cache, fetch).policy;
            var t := TokenFromEvent(e);
            (p == DenyPolicy(e.methodArn, MsgUnauthorized) <==> t.None? || t.value == "")
            && (t.Some? && t.value != "" ==>
                  var v := Verify(t.value, jose, clientId, verifyTime, cache, fetch).verdict;
                  (p == DenyPolicy(e.methodArn, MsgAuthorizationError) <==> v.Raised?)
                  && (p == DenyPolicy(e.methodArn, MsgInvalidToken) <==> v.Rejected?)
                  && (p == DenyPolicy(e.methodArn, MsgTokenExpired) <==>
                        v.Accepted? && v.claims.exp.Some? && handlerTime > v.claims.exp.value))
  {
    DistinctMessages(e.methodArn);
    var t := TokenFromEvent(e);
    if t.Some? && t.value != "" {
      var v := Verify(t.value, jose, clientId, verifyTime, cache, fetch).verdict;
      if v.Accepted? {
        AcceptedIffAllGates(t.value, jose, clientId, verifyTime, cache, fetch, v.claims);
      }
    }
  }

  /** The four Deny policies for one resource are pairwise different. */
  lemma DistinctMessages(arn: string)
    ensures var msgs := [MsgUnauthorized, MsgInvalidToken, MsgTokenExpired, MsgAuthorizationError];
            forall i, j :: 0 <= i < j < |msgs| ==> DenyPolicy(arn, msgs[i]) != DenyPolicy(arn, msgs[j])
  {
  }

  /**
   * A token whose `exp` has already passed when `verify_token` reads the clock is rejected there, so
   * the handler answers 'Invalid token', not 'Token expired'.
   */
  lemma ExpiredAtVerificationIsInvalidToken(e: AuthEvent, jose: Jose, clientId: string, verifyTime: int, handlerTime: int,
                                            cache: Option<CacheEntry>, fetch: Option<seq<Key>>)
    requires TokenFromEvent(e).Some? && TokenFromEvent(e).value != ""
    requires Verify(TokenFromEvent(e).value, jose, clientId, verifyTime, cache, fetch).verdict == Rejected(Expired)
    ensures Authorize(e, jose, clientId, verifyTime, handlerTime, cache, fetch).policy == DenyPolicy(e.methodArn, MsgInvalidToken)
  {
  }

  /** No token in either request shape: Deny 'Unauthorized', and the key cache is neither read nor changed. */
  lemma NoCredentialUnauthorized(e: AuthEvent, jose: Jose, clientId: string, verifyTime: int, handlerTime: int,
                                 cache: Option<CacheEntry>, fetch: Option<seq<Key>>)
    requires e.authorizationToken.None?
    requires e.headers.None? || ("Authorization" !in e.headers.value && "authorization" !in e.headers.value)
    ensures Authorize(e, jose, clientId, verifyTime, handlerTime, cache, fetch)
         == Decision(DenyPolicy(e.methodArn, MsgUnauthorized), cache, false)
  {
  }

  /** A token whose key is not in the key set (every key carrying a different kid) is denied as 'Invalid token'. */
  lemma UnknownKeyInvalid(e: AuthEvent, jose: Jose, clientId: string, verifyTime: int, handlerTime: int,
                          cache: Option<CacheEntry>, fetch: Option<seq<Key>>)
    requires TokenFromEvent(e).Some? && TokenFromEvent(e).value != ""
    requires jose.headerKid(TokenFromEvent(e).value).Some?
    requires ReadKeys(cache, verifyTime, fetch).keys.Some?
    requires forall k :: k in ReadKeys(cache, verifyTime, fetch).keys.value ==>
               k.kid.Some? && k.kid != jose.headerKid(TokenFromEvent(e).value)
    ensures Authorize(e, jose, clientId, verifyTime, handlerTime, cache, fetch).policy == DenyPolicy(e.methodArn, MsgInvalidToken)
  {
  }

  /** A key without `kid` ahead of any match raises outside `verify_token`'s handlers: Deny 'Authorization error'. */
  lemma KidlessKeyIsAuthorizationError(e: AuthEvent, jose: Jose, clientId: string, verifyTime: int, handlerTime: int,
                                       cache: Option<CacheEntry>, fetch: Option<seq<Key>>, i: nat)
    requires TokenFromEvent(e).Some? && TokenFromEvent(e).value != ""
    requires jose.headerKid(TokenFromEvent(e).value).Some?
    requires ReadKeys(cache, verifyTime, fetch).keys.Some?
    requires var keys := ReadKeys(cache, verifyTime, fetch).keys.value;
             i < |keys| && keys[i].kid.None? && NoMatchBefore(keys, jose.headerKid(TokenFromEvent(e).value).value, i)
    ensures Authorize(e, jose, clientId, verifyTime, handlerTime, cache, fetch).policy == DenyPolicy(e.methodArn, MsgAuthorizationError)
  {
  }

  /**
   * The claim gates seen from the handler: a token expired at verification time, or issued for another
   * audience, is never allowed; a correctly signed, unexpired token with neither `aud` nor `client_id`
   * is allowed (the permissive fallback).
   */
  lemma ClaimGates(e: AuthEvent, jose: Jose, clientId: string, verifyTime: int, handlerTime: int,
                   cache: Option<CacheEntry>, fetch: Option<seq<Key>>, c: Claims)
    requires TokenFromEvent(e).Some? && jose.claims(TokenFromEvent(e).value) == Some(c)
    ensures c.exp.Some? && verifyTime > c.exp.value ==>
      EffectOf(Authorize(e, jose, clientId, verifyTime, handlerTime, cache, fetch).policy) == Some(Deny)
    ensures c.aud.Some? && c.aud.value != clientId ==>
      EffectOf(Authorize(e, jose, clientId, verifyTime, handlerTime, cache, fetch).policy) == Some(Deny)
    ensures c.aud.None? && c.clientId.None? && c.exp.Some? && verifyTime <= c.exp.value && handlerTime <= c.exp.value
            && TokenFromEvent(e).value != ""
            && Accepts(TokenFromEvent(e).value, jose, clientId, verifyTime, cache, fetch, c) ==>
      EffectOf(Authorize(e, jose, clientId, verifyTime, handlerTime, cache, fetch).policy) == Some(Allow)
  {
    AllowIffEveryGatePasses(e, jose, clientId, verifyTime, handlerTime, cache, fetch);
  }

  /**
   * The handler's own expiry check (line 53) can only fire when the clock moved past `exp` between the
   * two readings; with a single clock reading it is redundant.
   */
  lemma SecondExpiryGate(e: AuthEvent, jose: Jose, clientId: string, verifyTime: int, handlerTime: int,
                         cache: Option<CacheEntry>, fetch: Option<seq<Key>>)
    requires Authorize(e, jose, clientId, verifyTime, handlerTime, cache, fetch).policy == DenyPolicy(e.methodArn, MsgTokenExpired)
    ensures TokenFromEvent(e).Some?
            && var c := jose.claims(TokenFromEvent(e).value);
               c.Some? && c.value.exp.Some? && verifyTime <= c.value.exp.value < handlerTime
  {
  }

  /** With one clock reading for both checks, a request is never denied as 'Token expired'. */
  lemma OneClockNeverTokenExpired(e: AuthEvent, jose: Jose, clientId: string, now: int,
                                  cache: Option<CacheEntry>, fetch: Option<seq<Key>>)
    ensures Authorize(e, jose, clientId, now, now, cache, fetch).policy != DenyPolicy(e.methodArn, MsgTokenExpired)
  {
    if Authorize(e, jose, clientId, now, now, cache, fetch).policy == DenyPolicy(e.methodArn, MsgTokenExpired) {
      SecondExpiryGate(e, jose, clientId, now, now, cache, fetch);
      assert false;
    }
  }

  /**
   * The module's state: the configured app client id (read from the environment at import time) and
   * the process-wide key cache.
   */
  class Authorizer {
    const appClientId: string
    const keyCache: KeyCache

    constructor (appClientId: string)
      ensures this.appClientId == appClientId
      ensures fresh(keyCache) && keyCache.entry == None && keyCache.fetches == 0
    {
      this.appClientId := appClientId;
      keyCache := new KeyCache();
    }

    /** `verify_token(token)`. */
    method VerifyToken(token: string, jose: Jose, now: int, fetch: Option<seq<Key>>) returns (v: Verdict)
      modifies keyCache
      ensures var r := Verify(token, jose, appClientId, now, old(keyCache.entry), fetch);
              v == r.verdict && keyCache.entry == r.cache
              && keyCache.fetches == old(keyCache.fetches) + (if r.fetched then 1 else 0)
    {
      var kid := jose.headerKid(token);
      if kid.None? {
        return Rejected(HeaderUnreadable);
      }
      var keys := keyCache.Get(now, fetch);
      if keys.None? {
        return Rejected(KeysUnavailable);
      }
      var found := FindKey(keys.value, kid.value);
      match found
      case MissingKid(_) =>
        v := Raised;
      case NotFound =>
        v := Rejected(KeyNotFound);
      case Found(i) =>
        v := CheckSigned(token, jose, appClientId, now, keys.value[i]);
    }

    /** `lambda_handler(event, context)`. */
    method Handle(e: AuthEvent, jose: Jose, verifyTime: int, handlerTime: int, fetch: Option<seq<Key>>) returns (p: Policy)
      modifies keyCache
      ensures var d := Authorize(e, jose, appClientId, verifyTime, handlerTime, old(keyCache.entry), fetch);
              p == d.policy && keyCache.entry == d.cache
              && keyCache.fetches == old(keyCache.fetches) + (if d.fetched then 1 else 0)
    {
      var token := TokenFromEvent(e);
      if token.None? || token.value == "" {
        return DenyPolicy(e.methodArn, MsgUnauthorized);
      }
      var verdict := VerifyToken(token.value, jose, verifyTime, fetch);
      match verdict
      case Raised =>
        p := DenyPolicy(e.methodArn, MsgAuthorizationError);
      case Rejected(_) =>
        p := DenyPolicy(e.methodArn, MsgInvalidToken);
      case Accepted(claims) =>
        var userId := claims.sub;
        var username := Username(claims);
        var currentTime := handlerTime;
        if currentTime > (if claims.exp.Some? then claims.exp.value else 0) {
          p := DenyPolicy(e.methodArn, MsgTokenExpired);
        } else {
          p := GeneratePolicy(username, Allow, e.methodArn, Some(map["user_id" := userId, "username" := username]));
        }
    }
  }
}
