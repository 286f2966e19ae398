# API Gateway token authorizer and customer-data handler, modelled in Dafny

This project models two AWS Lambda functions of an API Gateway sample.

**The regional API's custom authorizer** (`regional-api/lambda/authorizer/app.py`) turns an
authorization event into an IAM policy. It works in five steps:

1. It finds a bearer token, either in the flat `authorizationToken` field of a TOKEN authorizer or
   in the `Authorization` / `authorization` header of a REQUEST authorizer. It strips a
   case-sensitive `Bearer` scheme (section 2.1 of RFC 6750) with the expression `Bearer\s+(.+)`.
2. It verifies the JWT against the Cognito user pool's published key set (JWKS). The key set is
   cached for 3600 seconds.
3. Verification picks the first key whose `kid` matches, then checks the signature over the text
   before the last `.` (section 5.2 of RFC 7515). It then checks `exp` (section 4.1.4 of RFC 7519)
   and the audience: `aud` if present, else `client_id`.
4. It checks the expiry a second time with the handler's own clock.
5. It answers Allow or Deny with an optional context. Any exception becomes a Deny.

**The private API's customer-data handler** (`private-api/lambda/customer_data/app.py`) works on a
DynamoDB table:

- GET reads one record.
- PUT creates a record or replaces it whole.
- Any other method gets 405.

Every response carries the same four headers.

Modules, one per component:

- `Wrappers`: `Option`.
- `TokenExtraction`: the regular expression, which follows Python's semantics, and `get_token_from_event`.
- `JwksCache`: the key set, the pure cache step `ReadKeys`, and the class `KeyCache` that holds the
  process-wide cache.
- `TokenVerification`: claims, the JOSE oracles, the key-search loop `FindKey`, the `rsplit` on the
  last dot, and the pure `Verify`.
- `Policies`: `generate_policy`.
- `Authorization`: the handler as the total function `Authorize`, which maps the event, the
  oracles, the two clocks, the cache and the fetch result to the policy and the new cache. The
  class `Authorizer` runs the same steps as methods on the shared `KeyCache`.
- `CustomerData`: the handler as a method of `CustomerTable`, a class whose `items` map stands for
  the table.

Inputs that replace the environment:

- **JOSE library.** A `Jose` value holds four oracle functions:
  - `headerKid`: the unverified header's `kid`.
  - `keyUsable`: whether `jwk.construct` succeeds.
  - `signatureValid`: base64url decoding of the signature followed by `verify`.
  - `claims`: the unverified claims.

  Each oracle returns its failure value where the library would raise.
- **Key-set fetch.** `fetch: Option<seq<Key>>` is what the network and JSON parsing would deliver.
  `None` means that `urlopen`, `json.loads` or the `keys` lookup raised.
- **Clocks.** Time is an integer number of seconds. `verifyTime` is the clock inside `verify_token`,
  used for the cache and the first `exp` check. `handlerTime` is the handler's `int(time.time())`.
- **Customer handler.** The generated id, the timestamp and whether the DynamoDB call raises
  (`storeFails`) are parameters.
- **Configuration.** `APP_CLIENT_ID` is the `appClientId` field, fixed at construction. This
  stands for reading it from the environment at import time.

Where the code differs from the documented intent of the system, the model follows the code:

- A key-set entry without a `kid` ahead of the matching key makes `k['kid']` raise outside
  `verify_token`'s `try` blocks. That request is denied as 'Authorization error', not
  'Invalid token' (`KidlessKeyIsAuthorizationError`).
- A present but empty `Authorization` header hides a non-empty `authorization` header. The result
  is 'Unauthorized'.
- The cache counts as present once it has been filled, even with an empty key list. Such a cache
  is fresh until it expires.
- The Bearer match keeps whitespace in the token when only whitespace follows the scheme.
  `Bearer` followed by two or more whitespace characters, none of them a line feed, yields the last
  of them as the token.
  `.` stops at a line feed.
- A token whose `exp` has passed when `verify_token` reads the clock is rejected inside it
  (lines 210-212), so the handler answers 'Invalid token' (line 41). 'Token expired' (line 55) is
  only given when the clock passes `exp` between the two readings
  (`ExpiredAtVerificationIsInvalidToken`, `DenyMessageByStage`).

## Model

| member | source | states |
|---|---|---|
| `TokenExtraction.BearerMatch` | regional-api/lambda/authorizer/app.py:87-89 | The result is a match of `Bearer\s+(.+)` at the start of the value, using Python's `\s` and a `.` that stops at a line feed. It is the match a backtracking engine prefers: the longest `\s+` first, then the longest group. The result is None exactly when no match exists. |
| `TokenExtraction.StripBearer` | regional-api/lambda/authorizer/app.py:87-94 | When no match of `Bearer\s+(.+)` exists the value comes back unchanged. When there is one, the result is the captured group: a non-empty text strictly shorter than the value. |
| `TokenExtraction.AuthorizationHeader` | regional-api/lambda/authorizer/app.py:101 | The `Authorization` entry when the map has that key, even if it is empty. Otherwise the `authorization` entry, or None when neither key is there. |
| `TokenExtraction.TokenFromEvent` | regional-api/lambda/authorizer/app.py:82-116 | A present `authorizationToken` decides alone, with only Bearer stripping applied, whatever the headers hold. Without it: a missing or empty header map gives None. `Authorization` is preferred and shadows `authorization` even when empty. An empty or missing header value gives None. Only the flat field can yield an empty token. |
| `TokenExtraction.StripBearerPlain` | regional-api/lambda/authorizer/app.py:87-91 | `Bearer`, then whitespace, then a line starting with a non-space, yields exactly that line, whether the value ends there or a line feed and more text follow. |
| `TokenExtraction.NoSchemeUnchanged` | regional-api/lambda/authorizer/app.py:93-94 | A value that does not start with `Bearer` and a whitespace character is returned unchanged. |
| `TokenExtraction.WhitespaceTailCaptured` | regional-api/lambda/authorizer/app.py:87-89 | Backtracking: `Bearer` followed by two or more whitespace characters and no line feed yields the last whitespace character as the token. |
| `TokenExtraction.SchemeAloneUnchanged` | regional-api/lambda/authorizer/app.py:87-94 | `Bearer` followed by a single whitespace character does not match and is returned unchanged. |
| `TokenExtraction.BearerBothShapes` | regional-api/lambda/authorizer/app.py:82-113 | `Bearer X` as `authorizationToken` and as the `Authorization` header both yield X. |
| `JwksCache.ReadKeys` | regional-api/lambda/authorizer/app.py:125-146 | A fresh cache (present, with `expiry > now`) returns its keys, makes no fetch and stays unchanged. Otherwise exactly one fetch happens and its result is returned. On success the cache becomes `{keys, now + 3600}`. On failure the cache stays as it was. |
| `JwksCache.RefetchOnlyAfterTtl` | regional-api/lambda/authorizer/app.py:125-141 | After a successful fetch at t, a later read fetches again exactly when it is at or past t + 3600. Before that it returns the same keys and leaves the cache unchanged. |
| `JwksCache.KeyCache.constructor` | regional-api/lambda/authorizer/app.py:17 | The cache starts empty, with no fetch made. |
| `JwksCache.KeyCache.Get` | regional-api/lambda/authorizer/app.py:118-146 | The in-place cache update: the returned keys, the new entry and the fetch count are those of `ReadKeys` on the old entry. |
| `JwksCache.ReadTwice` | regional-api/lambda/authorizer/app.py:125-143 | Two reads within the TTL after a first fetch make one network call and return the same keys. A second read after expiry makes exactly one more call. |
| `TokenVerification.Lookup` | regional-api/lambda/authorizer/app.py:171-182 | `Found(i)` is the first index whose `kid` equals the token's. `MissingKid(i)` is the first kid-less key with no match before it, where `k['kid']` raises. `NotFound` means every key has a different `kid`. |
| `TokenVerification.FindKey` | regional-api/lambda/authorizer/app.py:171-178 | The `for`/`break` loop returns exactly `Lookup`'s answer. |
| `TokenVerification.SplitAtLastDot` | regional-api/lambda/authorizer/app.py:191 | The result is None exactly when the token has no `.`. Otherwise the token is message + `.` + signature, with a dot-free signature. |
| `TokenVerification.SplitAtLastDotUnique` | regional-api/lambda/authorizer/app.py:191 | Any way of writing the token as message + `.` + dot-free segment is what the split returns. |
| `TokenVerification.CheckSigned` | regional-api/lambda/authorizer/app.py:185-231 | After the key is chosen, every failure and every exception becomes None. Nothing escapes this `try`. |
| `TokenVerification.Verify` | regional-api/lambda/authorizer/app.py:148-182 | An undecodable header, or one without `kid`, gives None and leaves the key set unread. Otherwise the key set is read once. Key retrieval failing gives None and leaves the cache unchanged. No key with that `kid` gives None. A kid-less key first raises. Otherwise the first matching key decides. |
| `TokenVerification.AcceptedIffAllGates` | regional-api/lambda/authorizer/app.py:148-226 | Claims c come back if and only if all gates pass: `kid` read, keys obtained, the first matching key usable, the signature over the prefix before the last `.` verified, claims decoded as c, `now <= exp`, and `aud` (or, without it, `client_id`) equal to the client id when present. |
| `Policies.GeneratePolicy` | regional-api/lambda/authorizer/app.py:233-255 | The policy has Version `2012-10-17` and one statement: `execute-api:Invoke` on the given effect and resource, for the given principal. `context` is attached, verbatim, exactly when it is non-empty. |
| `Authorization.Username` | regional-api/lambda/authorizer/app.py:46-47 | The username is `username`, else `cognito:username`, else `sub`. |
| `Authorization.DenyPolicy` | regional-api/lambda/authorizer/app.py:33 | Each Deny (lines 33, 41, 55 and 73) is the policy for principal `user`, Version `2012-10-17` and the single statement `execute-api:Invoke` / Deny on the resource, with context exactly `{message}`. |
| `Authorization.Authorize` | regional-api/lambda/authorizer/app.py:20-73 | Every decision is a one-statement policy for `methodArn`. Every Deny has principal `user` and one of the four messages. An Allow goes to the token's username with context exactly `{user_id: sub, username}`. Without a token the key cache is neither read nor changed; otherwise the new cache and the fetch flag are those verification leaves. |
| `Authorization.AllowIffEveryGatePasses` | regional-api/lambda/authorizer/app.py:28-67 | The decision is Allow iff three things hold: a non-empty token was extracted, verification accepts it, and `handlerTime <= exp`. |
| `Authorization.DenyMessageByStage` | regional-api/lambda/authorizer/app.py:28-73 | 'Unauthorized' iff no non-empty token was found. For a non-empty token: 'Authorization error' iff an exception escapes `verify_token`, 'Invalid token' iff it returns None, and 'Token expired' iff it returns claims whose `exp` is before the handler's clock. |
| `Authorization.DistinctMessages` | regional-api/lambda/authorizer/app.py:33-73 | The four Deny policies for one resource are pairwise different, so the message tells the failures apart. |
| `Authorization.ExpiredAtVerificationIsInvalidToken` | regional-api/lambda/authorizer/app.py:38-41 | A token that `verify_token` rejects as expired is denied as 'Invalid token'. |
| `Authorization.NoCredentialUnauthorized` | regional-api/lambda/authorizer/app.py:30-33 | Without a flat token and without either header, the answer is Deny 'Unauthorized' and the cache is neither read nor changed. |
| `Authorization.UnknownKeyInvalid` | regional-api/lambda/authorizer/app.py:38-41 | A token whose `kid` no key carries is denied as 'Invalid token'. |
| `Authorization.KidlessKeyIsAuthorizationError` | regional-api/lambda/authorizer/app.py:69-73 | A kid-less key ahead of any match raises. The catch-all answers Deny 'Authorization error'. |
| `Authorization.ClaimGates` | regional-api/lambda/authorizer/app.py:209-226 | A token that is expired at verification time, or whose `aud` is another client, is denied. A verified, unexpired token with neither `aud` nor `client_id` is allowed. |
| `Authorization.SecondExpiryGate` | regional-api/lambda/authorizer/app.py:51-55 | 'Token expired' happens only when `verifyTime <= exp < handlerTime`. |
| `Authorization.OneClockNeverTokenExpired` | regional-api/lambda/authorizer/app.py:51-55 | With one clock reading for both checks, the handler's expiry gate never fires. |
| `Authorization.Authorizer.constructor` | regional-api/lambda/authorizer/app.py:11-18 | The configured client id is stored, and the key cache starts empty. |
| `Authorization.Authorizer.VerifyToken` | regional-api/lambda/authorizer/app.py:148-231 | Step by step on the shared cache: the verdict, the new cache and the fetch count are those of `Verify`. |
| `Authorization.Authorizer.Handle` | regional-api/lambda/authorizer/app.py:20-73 | Step by step on the shared cache: the policy, the new cache and the fetch count are those of `Authorize`. |
| `CustomerData.BuildResponse` | private-api/lambda/customer_data/app.py:77-90 | The status and body are passed through. The headers are exactly `ResponseHeaders`: Content-Type `application/json` and the three CORS headers with their values. |
| `CustomerData.BodyFields` | private-api/lambda/customer_data/app.py:37 | The decoded object of a present body, `{}` for an absent or empty one. |
| `CustomerData.PathCustomerId` | private-api/lambda/customer_data/app.py:17-19 | An id exists exactly when `pathParameters` is present and has a non-empty `customerId`. |
| `CustomerData.NewItem` | private-api/lambda/customer_data/app.py:48-59 | The record has keys `customerId`, `name`, `phoneNumber` and `updatedAt`, plus `email` and `address` exactly when the body has them. Each value comes from its source. |
| `CustomerData.CustomerTable.constructor` | private-api/lambda/customer_data/app.py:8-9 | The table starts empty and well-formed. |
| `CustomerData.CustomerTable.Handle` | private-api/lambda/customer_data/app.py:11-75 | The status and response for each case: GET 400/404/200, PUT 400/200, a null or other method 405, exceptions 500. The table changes only on a successful PUT, which writes exactly one whole record at the path id or the generated id and echoes that id. Every stored record stays well-formed under its own id. |

## Left out

- JOSE decoding and cryptography (`get_unverified_headers`, `get_unverified_claims`, `jwk.construct`,
  `base64url_decode`, `verify`) are foreign library code. They are oracle functions.
  `signatureValid` covers both the base64url decoding and the verification.
- The HTTPS fetch of the JWKS and its JSON parsing are network I/O. They are the injected `fetch` result.
- DynamoDB is replaced by the `items` map. Its failures are the single `storeFails` input, and a
  failed `put_item` writes nothing.
- `time.time()` is a float in the source and an integer here. Fractional seconds, and the differences
  between the several clock reads inside one `verify_token` call, are not modelled.
- `uuid.uuid4()` and `datetime.utcnow().isoformat()` are opaque string inputs.
- JSON serialisation of events, claims and responses is not modelled. Logging and tracebacks are
  left out too. Field values are opaque strings.
- Values of other JSON types are not modelled. This covers a list-valued `aud`, null header values,
  a non-string `authorizationToken` and a `keys` member that is not a list. In the customer
  handler, body values are strings: numbers, booleans, nested objects and null in the body, with
  which `put_item` or `json.dumps` can raise and reach the 500 path, are not modelled. Nor is a body that
  decodes to something other than an object. In the source, a list or string lacking `name` or
  `phoneNumber` gives 400 (the `not in` test holds). A string containing both passes that test, and
  then `body['name']` raises, giving 500. A number or `null` makes the test itself raise, giving 500.
  Claims beyond the six the authorizer reads are not carried in `Claims`.
- Environment variables are read at import time. They are fixed values here, and a missing one is
  not modelled.
- Concurrent invocations sharing the cache are not modelled. The model is sequential.
- The `except` branch of the authorizer reads `event['methodArn']` again. Here `methodArn` is always present.
- An exception while `get_token_from_event` runs cannot happen here, because every token source is a string.

