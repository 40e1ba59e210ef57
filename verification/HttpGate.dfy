/** The HTTP edge: the authentication backend, then the resource guard, over one snapshot of the stores. */
module HttpGate {
  import opened Wrappers
  import opened JqEvaluation
  import opened PathCanon
  import opened GateSettings
  import opened ResourceResolution
  import opened RoleLevels
  import opened AccessPolicies

  /** The verified claims of a credential: the owner, and all the others. */
  datatype Claims = Claims(owner: Option<User>, others: map<string, Value>)

  const NO_CLAIMS := Claims(None, map[])

  /** What a policy condition is evaluated on. */
  datatype JqContext = JqContext(
    sub: User, scopes: seq<string>, identity: Claims, policy: PolicyData, context: Value,
    verb: Option<string>, path: string, time: real)

  datatype JqResult = Output(isTrue: bool) | JqError

  /** The stores, the clock, and the engines whose results are theirs: condition templates and jq. */
  datatype Snapshot = Snapshot(
    settings: Settings,
    tables: Tables,
    index: Index,
    roles: map<string, Grants>,
    policies: map<User, Policy>,
    contexts: User -> Value,
    render: Policy -> Result<string>,
    jq: (string, JqContext) -> JqResult,
    evaluable: string -> bool,
    now: real)

  /** What the presented credentials verify to. */
  datatype Credential = Absent | Invalid | Verified(user: User, claims: Claims)

  datatype Access = Guest | Principal(user: User, scopes: seq<string>, admin: bool) | Rejected

  datatype Enforcement = Passed | Violated | EvaluationFault

  function PolicyOf(s: Snapshot, user: User): Policy {
    Served(if user in s.policies then Some(s.policies[user]) else None)
  }

  /** A policy's condition as text; both sources at once are refused, and no source is no text. */
  function Rendered(s: Snapshot, p: Policy): Result<string> {
    if p.condition.Some? && p.conditionId.Some? then Refused
    else if Conditioned(p) then s.render(p)
    else Ok("")
  }

  /** A configured condition that renders empty is a violation, not the absence of one, and only the value
    * true passes. */
  function Enforce(s: Snapshot, context: JqContext, expression: string, configured: bool): Enforcement {
    if expression == "" then if configured then Violated else Passed
    else
      match s.jq(expression, context)
      case JqError => EvaluationFault
      case Output(isTrue) => if isTrue then Passed else Violated
  }

  function AlwaysPublicPath(s: Snapshot, path: string): bool {
    Canonicalize(path).Ok? && IsAlwaysPublic(s.settings, Canonicalize(path).value)
  }

  // The authentication backend.

  /** The owner policy that caps a credential, if its claims name an owner: refused when the owner cannot back it. */
  function OwnerOf(s: Snapshot, claims: Claims): Result<Option<Policy>> {
    if claims.owner.None? then Ok(None)
    else
      var owner := PolicyOf(s, claims.owner.value);
      if owner.data.disabled || PolicyIsEmpty(owner) then Refused else Ok(Some(owner))
  }

  /** The policy of the owner the claims name, whether or not it can back anything. */
  function OwnerClaimed(s: Snapshot, claims: Claims): Option<Policy> {
    if claims.owner.Some? then Some(PolicyOf(s, claims.owner.value)) else None
  }

  function ResolvedScopes(policy: Policy, owner: Option<Policy>): seq<string> {
    if owner.Some? then EffectiveScopes(policy.scopes, owner.value.scopes) else policy.scopes
  }

  /** The key's own condition, then, for an owned key, its owner's over the owner's policy data and scopes. */
  predicate ConditionsPass(s: Snapshot, user: User, policy: Policy, owner: Option<Policy>, claims: Claims,
                           path: string, verb: Option<string>)
  {
    var context := JqContext(user, ResolvedScopes(policy, owner), claims, policy.data, s.contexts(user), verb, path, s.now);
    var condition := Rendered(s, policy);
    && condition.Ok? && Enforce(s, context, condition.value, Conditioned(policy)).Passed?
    && (owner.Some? && Conditioned(owner.value) ==>
          var ownerContext := JqContext(user, owner.value.scopes, claims, owner.value.data, s.contexts(user), verb, path, s.now);
          var ownerCondition := Rendered(s, owner.value);
          ownerCondition.Ok? && Enforce(s, ownerContext, ownerCondition.value, true).Passed?)
  }

  function Authenticate(s: Snapshot, credential: Credential, path: string, verb: Option<string>): Access {
    if AlwaysPublicPath(s, path) then Guest
    else if credential.Absent? then Guest
    else if credential.Invalid? then Rejected
    else
      var policy := PolicyOf(s, credential.user);
      if PolicyIsEmpty(policy) || policy.data.disabled then Rejected
      else
        var owner := OwnerOf(s, credential.claims);
        if owner.Refused? then Rejected
        else if !ConditionsPass(s, credential.user, policy, owner.value, credential.claims, path, verb) then Rejected
        else if !RequestVerdict(s.roles, s.index, policy, owner.value, path, verb).Allow? then Rejected
        else
          Principal(credential.user, ResolvedScopes(policy, owner.value), IsAdminPolicy(policy, policy.data.owner))
  }

  // The resource guard.

  /** Whether the caller holds every protected id among the resolved ones. */
  predicate HoldsAll(scopes: seq<string>, ids: set<string>, publicId: string) {
    WILDCARD in scopes || forall id :: id in ids && id != publicId ==> id in scopes
  }

  predicate Guards(s: Snapshot, access: Access, path: string, verb: Option<string>)
    requires !access.Rejected?
  {
    if path in s.settings.alwaysAllowed then access.Principal?
    else
      var ids := ResourceIds(s.settings, s.tables, path, verb);
      if ids == {} then access.Principal? && access.admin
      else if ids == {s.settings.publicId} then true
      else access.Principal? && HoldsAll(access.scopes, ids, s.settings.publicId)
  }

  /** Whether the HTTP edge runs the route for this request. */
  predicate GateAdmits(s: Snapshot, credential: Credential, path: string, verb: Option<string>) {
    var access := Authenticate(s, credential, path, verb);
    !access.Rejected? && Guards(s, access, path, verb)
  }

  // What the edge promises.

  /** A path is decided without identity only if it is public alone: a guest passes exactly there. */
  lemma GuestsReachPublicPathsOnly(s: Snapshot, path: string, verb: Option<string>)
    ensures GateAdmits(s, Absent, path, verb) <==>
              path !in s.settings.alwaysAllowed && ResourceIds(s.settings, s.tables, path, verb) == {s.settings.publicId}
  {
  }

  /** No request without a verified credential reaches a reserved path, whatever the route table holds. */
  lemma ReservedPathsNeedIdentity(s: Snapshot, credential: Credential, path: string, verb: Option<string>)
    requires Accepted(s.settings) && Canonicalize(path).Ok? && IsReserved(s.settings, Canonicalize(path).value)
    requires GateAdmits(s, credential, path, verb)
    ensures credential.Verified? && !PolicyIsEmpty(PolicyOf(s, credential.user))
  {
    ReservedPathsNeverResolvePublic(s.settings, s.tables, path, verb);
    ReservedIsNeverAlwaysPublic(s.settings, Canonicalize(path).value);
    if credential.Absent? {
      GuestsReachPublicPathsOnly(s, path, verb);
    }
  }

  /** An owned key is never admitted to a protected resource its owner's current scopes do not cover. */
  lemma OwnersCapTheirKeys(s: Snapshot, user: User, claims: Claims, path: string, verb: Option<string>, id: string)
    requires claims.owner.Some? && path !in s.settings.alwaysAllowed
    requires GateAdmits(s, Verified(user, claims), path, verb)
    requires id in ResourceIds(s.settings, s.tables, path, verb) && id != s.settings.publicId
    ensures Covers(PolicyOf(s, claims.owner.value).scopes, id) && Covers(PolicyOf(s, user).scopes, id)
  {
    var policy, owner := PolicyOf(s, user), PolicyOf(s, claims.owner.value);
    assert ResourceIds(s.settings, s.tables, path, verb) != {s.settings.publicId};
    assert !AlwaysPublicPath(s, path);
    EffectiveScopesIntersect(policy.scopes, owner.scopes, id);
  }
  // Exactly when it admits.

  /** A policy that grants anything and is switched on. */
  predicate Live(s: Snapshot, user: User) {
    && user in s.policies && !s.policies[user].data.disabled
    && (s.policies[user].scopes != [] || s.policies[user].condition.Some? || s.policies[user].conditionId.Some?)
  }

  /** A policy without a condition holds; one with a condition holds when the condition has one source, renders to some
    * text, and that text is true of the request. */
  predicate Holds(s: Snapshot, p: Policy, context: JqContext) {
    p.condition.Some? || p.conditionId.Some? ==>
      && (p.condition.None? || p.conditionId.None?)
      && s.render(p).Ok? && s.render(p).value != "" && s.jq(s.render(p).value, context) == Output(true)
  }

  predicate LevelAllows(s: Snapshot, policy: Policy, owner: Option<Policy>, path: string, verb: Option<string>) {
    verb.Some? && ResolveRouteMeta(s.index, path, verb).Some? ==>
      RouteVerdict(s.roles, policy, owner, ResolveRouteMeta(s.index, path, verb).value, verb.value).Allow?
  }

  /** Every protected resource is covered by the key and, for an owned one, by its owner too; an unmapped path is for
    * admin principals, and an authenticated-only one asks for no resource. */
  predicate ResourcesOpen(s: Snapshot, policy: Policy, owner: Option<Policy>, path: string, verb: Option<string>) {
    path in s.settings.alwaysAllowed ||
    var ids := ResourceIds(s.settings, s.tables, path, verb);
    if ids == {} then Admin(policy)
    else forall id :: id in ids && id != s.settings.publicId ==>
           Covers(policy.scopes, id) && (owner.Some? ==> Covers(owner.value.scopes, id))
  }

  /** The request's context for a condition, over the data and the scopes of one policy. */
  function ContextOf(s: Snapshot, user: User, claims: Claims, p: Policy, scopes: seq<string>, path: string,
                     verb: Option<string>): JqContext
  {
    JqContext(user, scopes, claims, p.data, s.contexts(user), verb, path, s.now)
  }

  lemma ScopesCover(key: seq<string>, owner: Option<Policy>, ids: set<string>, publicId: string)
    ensures var scopes := if owner.Some? then EffectiveScopes(key, owner.value.scopes) else key;
            HoldsAll(scopes, ids, publicId) <==>
              forall id :: id in ids && id != publicId ==>
                Covers(key, id) && (owner.Some? ==> Covers(owner.value.scopes, id))
  {
    if owner.Some? {
      forall id
        ensures Covers(EffectiveScopes(key, owner.value.scopes), id) <==> Covers(key, id) && Covers(owner.value.scopes, id)
      {
        EffectiveScopesIntersect(key, owner.value.scopes, id);
      }
    }
  }

  lemma GuardedByScopes(s: Snapshot, policy: Policy, owner: Option<Policy>, user: User, path: string, verb: Option<string>)
    ensures Guards(s, Principal(user, ResolvedScopes(policy, owner), Admin(policy)), path, verb) <==>
              ResourcesOpen(s, policy, owner, path, verb)
  {
    ScopesCover(policy.scopes, owner, ResourceIds(s.settings, s.tables, path, verb), s.settings.publicId);
  }

  /** Off the login surface a verified credential is admitted exactly when its policy is live, its owner, if it claims
    * one, is live, both conditions hold, the level allows the route, and the resources are open to it. */
  lemma VerifiedAdmission(s: Snapshot, user: User, claims: Claims, path: string, verb: Option<string>)
    requires !AlwaysPublicPath(s, path)
    ensures GateAdmits(s, Verified(user, claims), path, verb) <==>
              && Live(s, user) && (claims.owner.Some? ==> Live(s, claims.owner.value))
              && var policy, owner := s.policies[user], OwnerClaimed(s, claims);
                 var scopes := if owner.Some? then EffectiveScopes(policy.scopes, owner.value.scopes) else policy.scopes;
                 && Holds(s, policy, ContextOf(s, user, claims, policy, scopes, path, verb))
                 && (owner.Some? ==>
                       Holds(s, owner.value, ContextOf(s, user, claims, owner.value, owner.value.scopes, path, verb)))
                 && LevelAllows(s, policy, owner, path, verb) && ResourcesOpen(s, policy, owner, path, verb)
  {
    if Live(s, user) && (claims.owner.Some? ==> Live(s, claims.owner.value)) {
      GuardedByScopes(s, s.policies[user], OwnerClaimed(s, claims), user, path, verb);
    }
  }

  /** On the login surface everyone is admitted, and elsewhere an invalid credential nowhere, except that a path listed,
    * raw, as authenticated-only wants an identity that the login surface does not establish. */
  lemma LoginSurfaceAdmission(s: Snapshot, credential: Credential, path: string, verb: Option<string>)
    requires AlwaysPublicPath(s, path) || credential.Invalid?
    ensures GateAdmits(s, credential, path, verb) <==> AlwaysPublicPath(s, path) && path !in s.settings.alwaysAllowed
  {
  }
}
