/**
 * The IAM policy an API Gateway authorizer returns (regional-api/lambda/authorizer/app.py,
 * `generate_policy`).
 */
module Policies {
  import opened Wrappers

  datatype Effect = Allow | Deny

  const PolicyVersion: string := "2012-10-17"
  const InvokeAction: string := "execute-api:Invoke"

  datatype Statement = Statement(action: string, effect: Effect, resource: string)
  datatype PolicyDocument = PolicyDocument(version: string, statement: seq<Statement>)

  /** Context values are strings or Python's None (a token without `sub` yields `user_id: None`). */
  type Context = map<string, Option<string>>

  /** `principalId` is None when the source passes None (no username claim and no `sub`). */
  datatype Policy = Policy(principalId: Option<string>, policyDocument: PolicyDocument, context: Option<Context>)

  /** `generate_policy(principal_id, effect, resource, context=None)`. */
  function GeneratePolicy(principalId: Option<string>, effect: Effect, resource: string, context: Option<Context>): (p: Policy)
    ensures p.principalId == principalId
    ensures p.policyDocument.version == PolicyVersion
    ensures p.policyDocument.statement == [Statement(InvokeAction, effect, resource)]
    // `if context:` attaches a non-empty context, verbatim, and drops None and the empty dictionary
    ensures p.context.Some? <==> context.Some? && context.value != map[]
    ensures p.context.Some? ==> p.context == context
  {
    var document := PolicyDocument(PolicyVersion, [Statement(InvokeAction, effect, resource)]);
    if context.Some? && context.value != map[] then Policy(principalId, document, context)
    else Policy(principalId, document, None)
  }

  /** The effect of a generated policy's single statement. */
  function EffectOf(p: Policy): Option<Effect> {
    if |p.policyDocument.statement| == 1 then Some(p.policyDocument.statement[0].effect) else None
  }
}
