/**
 * Locating the bearer token in an authorizer event (regional-api/lambda/authorizer/app.py,
 * `get_token_from_event`). The event is either of the TOKEN kind (a flat `authorizationToken`
 * field) or of the REQUEST kind (a header map); in both the value may carry the
 * `Bearer` scheme of section 2.1 of RFC 6750, which is recognised case-sensitively by the
 * regular expression `Bearer\s+(.+)` applied with Python's `re.match`.
 */
module TokenExtraction {
  import opened Wrappers

  const Scheme: string := "Bearer"

  /** The characters Python's `\s` matches in a `str` pattern (those for which `str.isspace` holds). */
  predicate IsSpace(c: char) {
    ('\t' <= c <= '\r') || ('\U{1C}' <= c <= ' ') || c == '\U{85}' || c == '\U{A0}' || c == '\U{1680}'
    || ('\U{2000}' <= c <= '\U{200A}') || c == '\U{2028}' || c == '\U{2029}' || c == '\U{202F}'
    || c == '\U{205F}' || c == '\U{3000}'
  }

  /**
   * `Bearer\s+(.+)` matches at the start of `s` with `\s+` spanning s[6..p] and the group
   * spanning s[p..q]. Python's `.` matches every character except a line feed.
   */
  ghost predicate MatchesAt(s: string, p: int, q: int) {
    |Scheme| < p < q <= |s| && s[..|Scheme|] == Scheme
    && (forall k :: |Scheme| <= k < p ==> IsSpace(s[k]))
    && (forall k :: p <= k < q ==> s[k] != '\n')
  }

  /** The end of the run of whitespace starting at i. */
  function SpaceRunEnd(s: string, i: nat): (e: nat)
    requires i <= |s|
    ensures i <= e <= |s|
    ensures forall k :: i <= k < e ==> IsSpace(s[k])
    ensures e < |s| ==> !IsSpace(s[e])
    decreases |s| - i
  {
    if i == |s| || !IsSpace(s[i]) then i else SpaceRunEnd(s, i + 1)
  }

  /** The end of the line starting at i: how far a greedy `.+` or `.*` reaches. */
  function LineEnd(s: string, i: nat): (e: nat)
    requires i <= |s|
    ensures i <= e <= |s|
    ensures forall k :: i <= k < e ==> s[k] != '\n'
    ensures e < |s| ==> s[e] == '\n'
    decreases |s| - i
  {
    if i == |s| || s[i] == '\n' then i else LineEnd(s, i + 1)
  }

  /** `.+` can match from position p. */
  predicate CanStartGroup(s: string, p: nat) {
    p < |s| && s[p] != '\n'
  }

  /**
   * Backtracking of the greedy `\s+`: the largest group start p in [lo, hi] from
   * which `.+` can match, trying hi first and giving back one character at a time.
   */
  function LastGroupStart(s: string, lo: nat, hi: nat): (r: Option<nat>)
    requires lo <= hi
    ensures r.Some? ==> lo <= r.value <= hi && CanStartGroup(s, r.value)
    ensures r.Some? ==> forall p :: r.value < p <= hi ==> !CanStartGroup(s, p)
    ensures r.None? ==> forall p :: lo <= p <= hi ==> !CanStartGroup(s, p)
    decreases hi - lo
  {
    if CanStartGroup(s, hi) then Some(hi)
    else if hi == lo then None
    else LastGroupStart(s, lo, hi - 1)
  }

  /**
   * The span (p, q) of the group that `re.match(r'Bearer\s+(.+)', s)` captures. A backtracking
   * matcher with two greedy quantifiers returns the match whose `\s+` is longest and, for that,
   * whose `.+` is longest: the largest (p, q) in lexicographic order among all matches.
   */
  function BearerMatch(s: string): (r: Option<(nat, nat)>)
    ensures r.Some? ==> MatchesAt(s, r.value.0, r.value.1)
    ensures r.Some? ==> forall p, q :: MatchesAt(s, p, q) ==> p < r.value.0 || (p == r.value.0 && q <= r.value.1)
    ensures r.None? ==> forall p, q :: !MatchesAt(s, p, q)
  {
    var n := |Scheme|;
    if |s| <= n || s[..n] != Scheme || !IsSpace(s[n]) then None
    else
      var e := SpaceRunEnd(s, n + 1);
      MatchesWithinRun(s, e);
      match LastGroupStart(s, n + 1, e)
      case None => None
      case Some(p) => Some((p, LineEnd(s, p)))
  }

  /** Every match starts its group inside the whitespace run and ends it no later than the line does. */
  lemma MatchesWithinRun(s: string, e: nat)
    requires |s| > |Scheme| && s[..|Scheme|] == Scheme && IsSpace(s[|Scheme|])
    requires e == SpaceRunEnd(s, |Scheme| + 1)
    ensures forall p, q :: MatchesAt(s, p, q) ==> p <= e && CanStartGroup(s, p) && q <= LineEnd(s, p)
  {
  }

  /** `match.group(1)` when the Bearer pattern matches, the value unchanged otherwise. */
  function StripBearer(s: string): (t: string)
    ensures (forall p, q :: !MatchesAt(s, p, q)) ==> t == s
    ensures BearerMatch(s).Some? ==> |t| < |s| && t != [] && t == s[BearerMatch(s).value.0..BearerMatch(s).value.1]
  {
    match BearerMatch(s)
    case Some((p, q)) => s[p..q]
    case None => s
  }

  /** Lines 101-102: `headers.get('Authorization', headers.get('authorization'))`. */
  function AuthorizationHeader(headers: map<string, string>): (r: Option<string>)
    ensures "Authorization" in headers ==> r == Some(headers["Authorization"])
    ensures "Authorization" !in headers ==> r == (if "authorization" in headers then Some(headers["authorization"]) else None)
  {
    if "Authorization" in headers then Some(headers["Authorization"])
    else if "authorization" in headers then Some(headers["authorization"])
    else None
  }

  /**
   * An authorizer event. `headers` is None when the key is missing or null; header values are strings,
   * so a missing entry and an empty one are both Python-falsy. `methodArn` is always present.
   */
  datatype AuthEvent = AuthEvent(authorizationToken: Option<string>, headers: Option<map<string, string>>, methodArn: string)

  /** `get_token_from_event`. */
  function TokenFromEvent(e: AuthEvent): (r: Option<string>)
    // A TOKEN event: the flat field is used whatever the headers hold, and only Bearer stripping applies.
    ensures e.authorizationToken.Some? ==> r == Some(StripBearer(e.authorizationToken.value))
    // A REQUEST event: no header map, or an empty one, yields nothing.
    ensures e.authorizationToken.None? && (e.headers.None? || e.headers.value == map[]) ==> r.None?
    // `Authorization` is preferred, and a present but empty `Authorization` shadows `authorization`.
    ensures e.authorizationToken.None? && e.headers.Some? && "Authorization" in e.headers.value ==>
      r == (if e.headers.value["Authorization"] == "" then None else Some(StripBearer(e.headers.value["Authorization"])))
    ensures e.authorizationToken.None? && e.headers.Some? && "Authorization" !in e.headers.value && "authorization" in e.headers.value ==>
      r == (if e.headers.value["authorization"] == "" then None else Some(StripBearer(e.headers.value["authorization"])))
    ensures e.authorizationToken.None? && e.headers.Some? && "Authorization" !in e.headers.value && "authorization" !in e.headers.value ==>
      r.None?
    // Only the flat field can yield an empty token.
    ensures e.authorizationToken.None? && r.Some? ==> r.value != ""
  {
    if e.authorizationToken.Some? then Some(StripBearer(e.authorizationToken.value))
    else if e.headers.None? || e.headers.value == map[] then None
    else
      match AuthorizationHeader(e.headers.value)
      case Some(v) => if v == "" then None else Some(StripBearer(v))
      case None => None
  }

  /**
   * A value of the form `Bearer`, whitespace, then a line that starts with a non-space yields exactly
   * that line: the group stops at the end of the value or at the first line feed after it.
   */
  lemma {:induction false} StripBearerPlain(ws: string, rest: string, tail: string)
    requires ws != [] && forall k :: 0 <= k < |ws| ==> IsSpace(ws[k])
    requires rest != [] && !IsSpace(rest[0]) && '\n' !in rest
    requires tail == [] || tail[0] == '\n'
    ensures StripBearer(Scheme + ws + rest + tail) == rest
  {
    var s := Scheme + ws + rest + tail;
    var n := |Scheme| + |ws|;
    var m := n + |rest|;
    assert s[..|Scheme|] == Scheme;
    assert forall k :: |Scheme| <= k < n ==> s[k] == ws[k - |Scheme|];
    assert forall k :: n <= k < m ==> s[k] == rest[k - n];
    assert m < |s| ==> s[m] == tail[0];
    assert MatchesAt(s, n, m);
    var (p, q) := BearerMatch(s).value;
    assert MatchesAt(s, p, q);
    assert s[n] == rest[0];
    assert p == n && q == m;
    assert s[p..q] == rest;
  }

  /** A value that does not begin with `Bearer` and a whitespace character is returned as it is. */
  lemma NoSchemeUnchanged(s: string)
    requires |s| <= |Scheme| || s[..|Scheme|] != Scheme || !IsSpace(s[|Scheme|])
    ensures StripBearer(s) == s
  {
  }

  /**
   * Backtracking: when only whitespace (and no line feed) follows the scheme, `\s+` gives back its
   * last character to `.+`, so the token is that single whitespace character.
   */
  lemma {:induction false} WhitespaceTailCaptured(ws: string)
    requires |ws| >= 2 && forall k :: 0 <= k < |ws| ==> IsSpace(ws[k]) && ws[k] != '\n'
    ensures StripBearer(Scheme + ws) == [ws[|ws| - 1]]
  {
    var s := Scheme + ws;
    assert s[..|Scheme|] == Scheme;
    assert forall k :: |Scheme| <= k < |s| ==> s[k] == ws[k - |Scheme|];
    assert MatchesAt(s, |s| - 1, |s|);
    var (p, q) := BearerMatch(s).value;
    assert p == |s| - 1 && q == |s|;
    assert s[p..q] == [ws[|ws| - 1]];
  }

  /** A single whitespace character after the scheme leaves nothing for `.+`: the value is kept whole. */
  lemma SchemeAloneUnchanged(c: char)
    requires IsSpace(c)
    ensures StripBearer(Scheme + [c]) == Scheme + [c]
  {
  }

  /** `Bearer X` in the flat field and in the `Authorization` header yield the same token X. */
  lemma BearerBothShapes(ws: string, x: string, arn: string, headers: map<string, string>)
    requires ws != [] && forall k :: 0 <= k < |ws| ==> IsSpace(ws[k])
    requires x != [] && !IsSpace(x[0]) && '\n' !in x
    ensures TokenFromEvent(AuthEvent(Some(Scheme + ws + x), Some(headers), arn)) == Some(x)
    ensures TokenFromEvent(AuthEvent(None, Some(headers["Authorization" := Scheme + ws + x]), arn)) == Some(x)
  {
    StripBearerPlain(ws, x, []);
    assert Scheme + ws + x + [] == Scheme + ws + x;
  }
}
