/** The token-free analyser in the decision it is for: a fire's dispatch, decided on reduced claims. */
module FireDecisions {
  import opened Wrappers
  import opened ConditionAst
  import opened JqEvaluation
  import opened TaintAnalysis
  import NonInterference
  import TokenFree
  import opened AccessPolicies
  import opened HttpGate
  import opened ToolEdge

  // The jq value a condition is evaluated on.

  /** The identity object: all the claims, the owner among them if there is one. */
  function IdentityFields(c: Claims): map<string, Value> {
    match c.owner
    case Some(owner) => c.others[OWNER_USER_ID_CLAIM := Str(owner)]
    case None => c.others - {OWNER_USER_ID_CLAIM}
  }

  function Strings(items: seq<string>): seq<Value> {
    seq(|items|, i requires 0 <= i < |items| => Str(items[i]))
  }

  function OtherFields(c: JqContext): map<string, Value> {
    map[
      "sub" := Str(c.sub),
      "scopes" := Arr(Strings(c.scopes)),
      "policy" := Obj(c.policy.fields),
      "context" := c.context,
      "request" := Obj(map["method" := if c.verb.Some? then Str(c.verb.value) else Null, "path" := Str(c.path)]),
      "system" := Obj(map["time" := Num(c.time)])
    ]
  }

  function ContextValue(c: JqContext): Value {
    NonInterference.Context(OtherFields(c), IdentityFields(c.identity))
  }

  /** What enforcement takes of an evaluation: its first output, or the error before any. */
  function FirstOutput(s: Stream): JqResult {
    if s.values != [] then Output(s.values[0] == Bool(true))
    else if s.error.Some? then JqError
    else Output(false)
  }

  // Grounding the deciders' engines.

  /** The engine `engines(text)` reads the literals of `text` by position, so each condition has its own. The check
    * asserts no condition evaluable that the analyser refuses, and a condition of the fragment is decided by the
    * first output of its tree on the jq value of the context. */
  ghost predicate Grounded(s: Snapshot, engines: string -> Engine) {
    && (forall text :: s.evaluable(text) ==> TokenFree.Evaluable(text))
    && (forall text, n, c :: TokenFree.Means(text, n) ==>
          s.jq(text, c) == FirstOutput(Eval(engines(text), n, map[], ContextValue(c))))
  }

  function WithClaims(c: JqContext, others: map<string, Value>): JqContext {
    c.(identity := Claims(c.identity.owner, others))
  }

  lemma ContextsAgree(g: Engine, c: JqContext, others: map<string, Value>)
    ensures NonInterference.SameContext(g, ContextValue(c), ContextValue(WithClaims(c, others)))
  {
    var a, b := ContextValue(c), ContextValue(WithClaims(c, others));
    assert OtherFields(c) == OtherFields(WithClaims(c, others));
    forall name | name != IDENTITY_FIELD
      ensures Get(a.fields, name) == Get(b.fields, name)
    {
    }
  }

  /** A condition the analyser accepts is decided alike on any two contexts that differ in claims beyond the owner. */
  lemma EvaluableConditionsIgnoreClaims(s: Snapshot, engines: string -> Engine, text: string, c: JqContext,
                                        others: map<string, Value>)
    requires Grounded(s, engines) && s.evaluable(text)
    ensures s.jq(text, c) == s.jq(text, WithClaims(c, others))
  {
    assert TokenFree.Evaluable(text);
    var n :| TokenFree.Means(text, n) && AssertSafe(n);
    ContextsAgree(engines(text), c, others);
    NonInterference.AcceptedConditionIgnoresClaims(engines(text), n, ContextValue(c), ContextValue(WithClaims(c, others)));
  }

  lemma FirePassIgnoresClaims(s: Snapshot, engines: string -> Engine, caller: Caller, other: Caller, policy: Policy,
                              c: JqContext, others: map<string, Value>, configured: bool)
    requires Grounded(s, engines) && caller.fire.Some? && other.fire.Some?
    ensures PassAdmits(s, caller, policy, c, configured) <==> PassAdmits(s, other, policy, WithClaims(c, others), configured)
  {
    var condition := Rendered(s, policy);
    if condition.Ok? && condition.value != "" && s.evaluable(condition.value) {
      EvaluableConditionsIgnoreClaims(s, engines, condition.value, c, others);
    }
  }

  function WithOtherClaims(caller: Caller, others: map<string, Value>): Caller {
    caller.(claims := Some(Claims(ClaimsOf(caller).owner, others)))
  }

  /** A fire's every dispatch is decided alike whatever its claims hold beyond the owner. */
  lemma FiresIgnoreOtherClaims(s: Snapshot, engines: string -> Engine, caller: Caller, others: map<string, Value>,
                               op: Operation, arguments: map<string, string>)
    requires Grounded(s, engines) && caller.fire.Some?
    ensures ToolAllows(s, caller, op, arguments) <==> ToolAllows(s, WithOtherClaims(caller, others), op, arguments)
  {
    if caller.user.Some? && PathOfCall(op, arguments).Ok? {
      var other := WithOtherClaims(caller, others);
      var user, path, verb := caller.user.value, PathOfCall(op, arguments).value, VerbOf(op);
      var policy, claims := PolicyOf(s, user), ClaimsOf(caller);
      var owner := OwnerClaimed(s, claims);
      var c := JqContext(user, ScopesOf(caller, policy, owner), claims, policy.data, s.contexts(user), Some(verb), path, s.now);
      FirePassIgnoresClaims(s, engines, caller, other, policy, c, others, Conditioned(policy));
      assert WithClaims(c, others) == c.(identity := ClaimsOf(other));
      if owner.Some? {
        var d := JqContext(user, owner.value.scopes, claims, owner.value.data, s.contexts(user), Some(verb), path, s.now);
        FirePassIgnoresClaims(s, engines, caller, other, owner.value, d, others, true);
        assert WithClaims(d, others) == d.(identity := ClaimsOf(other));
      }
    }
  }

  /** So what the tool edge allows a fire, on the owner reference alone, the HTTP edge admits for the credential with
    * the full claims, on the same method and path, but for the login-surface exception. */
  lemma FireAllowancesHoldForTheFullCredential(s: Snapshot, engines: string -> Engine, caller: Caller,
                                               full: map<string, Value>, op: Operation, arguments: map<string, string>)
    requires Grounded(s, engines) && !caller.internal && caller.fire.Some?
    requires ToolAllows(s, caller, op, arguments) && !PolicyIsEmpty(PolicyOf(s, caller.user.value))
    ensures var path := PathOfCall(op, arguments).value;
            GateAdmits(s, Verified(caller.user.value, Claims(ClaimsOf(caller).owner, full)), path, Some(VerbOf(op))) <==>
              !(AlwaysPublicPath(s, path) && path in s.settings.alwaysAllowed)
  {
    var other := WithOtherClaims(caller, full);
    FiresIgnoreOtherClaims(s, engines, caller, full, op, arguments);
    FiresCarryTheirScopes(s, other);
    ToolEdgeRefinesGate(s, other, op, arguments);
  }
}
