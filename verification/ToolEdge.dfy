/** The tool edge: the same authorization asked of an operation's own route, from a synthesized path. */
module ToolEdge {
  import opened Wrappers
  import opened JqEvaluation
  import opened PathCanon
  import opened RouteTemplates
  import opened GateSettings
  import opened ResourceResolution
  import opened RoleLevels
  import opened AccessPolicies
  import opened HttpGate

  datatype Operation = Operation(template: Option<string>, verb: Option<string>)

  /** Who dispatches: `effectiveScopes` are the ones the HTTP edge decided and bound, if it did, and
    * `fire` holds the bound key fingerprint of a background execution, which itself may be missing. */
  datatype Caller = Caller(
    internal: bool,
    user: Option<User>,
    claims: Option<Claims>,
    effectiveScopes: Option<seq<string>>,
    fire: Option<Option<string>>)

  function VerbOf(op: Operation): string {
    if op.verb.Some? && op.verb.value != "" then op.verb.value else "POST"
  }

  /** The registered route a path resolves to, if it is the one the operation is registered at. */
  function OwnRoute(s: Snapshot, template: string, path: string, verb: string): Option<RouteMeta> {
    match Canonicalize(path)
    case Refused => None
    case Ok(canonical) =>
      match ResolveRouteMeta(s.index, canonical, Some(verb))
      case None => None
      case Some(meta) =>
        if Canonicalize(meta.path).Ok? && Canonicalize(meta.path) == Canonicalize(template) then Some(meta) else None
  }

  function ClaimsOf(caller: Caller): Claims {
    if caller.claims.Some? then caller.claims.value else NO_CLAIMS
  }

  /** The scope set: derived live for a fire, consumed as decided for a request, or the caller's own as a last resort. */
  function ScopesOf(caller: Caller, policy: Policy, owner: Option<Policy>): seq<string> {
    if caller.fire.Some? then if owner.Some? then EffectiveScopes(policy.scopes, owner.value.scopes) else policy.scopes
    else if caller.effectiveScopes.Some? then caller.effectiveScopes.value
    else policy.scopes
  }

  /** One enforce pass: render, re-assert a fire's condition evaluable without a token, and evaluate. */
  predicate PassAdmits(s: Snapshot, caller: Caller, policy: Policy, context: JqContext, configured: bool) {
    var condition := Rendered(s, policy);
    && condition.Ok?
    && (caller.fire.Some? && condition.value != "" ==> s.evaluable(condition.value))
    && Enforce(s, context, condition.value, configured).Passed?
  }

  /** A fire's key must still exist and be the very key the execution was bound to. */
  predicate FireHolds(caller: Caller, policy: Policy) {
    caller.fire.Some? ==>
      && !PolicyIsEmpty(policy)
      && caller.fire.value.Some? && policy.data.fingerprint == caller.fire.value
  }

  /** The decision after the route is pinned. */
  predicate PinnedRouteAuthorized(s: Snapshot, caller: Caller, user: User, path: string, verb: string, route: RouteMeta) {
    var ids := ResourceIds(s.settings, s.tables, path, None);
    && ids != {}
    && (AlwaysPublicPath(s, path) ||
          var policy := PolicyOf(s, user);
          var claims := ClaimsOf(caller);
          && !policy.data.disabled
          && FireHolds(caller, policy)
          && (claims.owner.Some? ==>
                !PolicyOf(s, claims.owner.value).data.disabled && !PolicyIsEmpty(PolicyOf(s, claims.owner.value)))
          && var owner := if claims.owner.Some? then Some(PolicyOf(s, claims.owner.value)) else None;
             var scopes := ScopesOf(caller, policy, owner);
             && (ids == {s.settings.publicId} || HoldsAll(scopes, ids, s.settings.publicId))
             && PassAdmits(s, caller, policy,
                           JqContext(user, scopes, claims, policy.data, s.contexts(user), Some(verb), path, s.now),
                           Conditioned(policy))
             && (owner.Some? && Conditioned(owner.value) ==>
                   PassAdmits(s, caller, owner.value,
                              JqContext(user, owner.value.scopes, claims, owner.value.data, s.contexts(user), Some(verb),
                                        path, s.now),
                              true))
             && RouteVerdict(s.roles, policy, owner, route, verb).Allow?)
  }

  function PathOfCall(op: Operation, arguments: map<string, string>): Result<string> {
    if op.template.None? then Refused else SynthesizePath(op.template.value, arguments)
  }

  /** The whole check, with access control enabled. */
  predicate ToolAllows(s: Snapshot, caller: Caller, op: Operation, arguments: map<string, string>) {
    || caller.internal
    || (&& caller.user.Some?
        && PathOfCall(op, arguments).Ok?
        && var path := PathOfCall(op, arguments).value;
           var route := OwnRoute(s, op.template.value, path, VerbOf(op));
           route.Some? && PinnedRouteAuthorized(s, caller, caller.user.value, path, VerbOf(op), route.value))
  }

  // The tool edge is never easier than the route.

  /** The scopes the HTTP edge would decide for the caller's credential. */
  function GateScopes(s: Snapshot, user: User, claims: Claims): seq<string> {
    ResolvedScopes(PolicyOf(s, user), OwnerClaimed(s, claims))
  }

  /** The caller's own part of the decision, asked again with the scopes of the HTTP edge: a policy at all, its
    * condition, and the resources of the path. */
  predicate StandsAtGate(s: Snapshot, user: User, claims: Claims, path: string, verb: string) {
    var policy, scopes := PolicyOf(s, user), GateScopes(s, user, claims);
    var ids := ResourceIds(s.settings, s.tables, path, None);
    && !PolicyIsEmpty(policy)
    && Rendered(s, policy).Ok?
    && Enforce(s, JqContext(user, scopes, claims, policy.data, s.contexts(user), Some(verb), path, s.now),
               Rendered(s, policy).value, Conditioned(policy)).Passed?
    && (path in s.settings.alwaysAllowed || ids == {s.settings.publicId} || HoldsAll(scopes, ids, s.settings.publicId))
  }

  /** Off the login surface, the backend authenticates what the pinned decision allows, for a caller that stands. */
  lemma PinnedAuthorizationAuthenticates(s: Snapshot, caller: Caller, template: string, path: string, verb: string)
    requires caller.user.Some? && !AlwaysPublicPath(s, path)
    requires OwnRoute(s, template, path, verb).Some?
    requires PinnedRouteAuthorized(s, caller, caller.user.value, path, verb, OwnRoute(s, template, path, verb).value)
    ensures OwnerOf(s, ClaimsOf(caller)) == Ok(OwnerClaimed(s, ClaimsOf(caller)))
    ensures StandsAtGate(s, caller.user.value, ClaimsOf(caller), path, verb) ==>
              var access := Authenticate(s, Verified(caller.user.value, ClaimsOf(caller)), path, Some(verb));
              access.Principal? && access.scopes == GateScopes(s, caller.user.value, ClaimsOf(caller))
  {
    CanonicalIsIdempotent(path);
    var claims := ClaimsOf(caller);
    var policy, owner := PolicyOf(s, caller.user.value), OwnerClaimed(s, claims);
    assert RequestVerdict(s.roles, s.index, policy, owner, path, Some(verb))
        == RouteVerdict(s.roles, policy, owner, OwnRoute(s, template, path, verb).value, verb);
    if StandsAtGate(s, caller.user.value, claims, path, verb) {
      assert ConditionsPass(s, caller.user.value, policy, owner, claims, path, Some(verb));
    }
  }

  /** For every external caller, whatever scopes it carries, what the tool edge allows is decided at the HTTP edge
    * exactly so: on the login surface the path must not also be listed, raw, as authenticated-only, and off it the
    * caller must stand with the scopes the HTTP edge decides. */
  lemma AllowedCallsAtTheGate(s: Snapshot, caller: Caller, op: Operation, arguments: map<string, string>)
    requires !caller.internal && ToolAllows(s, caller, op, arguments)
    ensures var path := PathOfCall(op, arguments).value;
            GateAdmits(s, Verified(caller.user.value, ClaimsOf(caller)), path, Some(VerbOf(op))) <==>
              if AlwaysPublicPath(s, path) then path !in s.settings.alwaysAllowed
              else StandsAtGate(s, caller.user.value, ClaimsOf(caller), path, VerbOf(op))
  {
    var path := PathOfCall(op, arguments).value;
    MethodlessResolutionHolds(s.settings, s.tables, path, Some(VerbOf(op)));
    if !AlwaysPublicPath(s, path) {
      PinnedAuthorizationAuthenticates(s, caller, op.template.value, path, VerbOf(op));
      if GateAdmits(s, Verified(caller.user.value, ClaimsOf(caller)), path, Some(VerbOf(op))) {
        AdmissionNeedsStanding(s, caller, path, VerbOf(op));
      }
    }
  }

  lemma AdmissionNeedsStanding(s: Snapshot, caller: Caller, path: string, verb: string)
    requires caller.user.Some? && !AlwaysPublicPath(s, path)
    requires OwnerOf(s, ClaimsOf(caller)) == Ok(OwnerClaimed(s, ClaimsOf(caller)))
    requires ResourceIds(s.settings, s.tables, path, None) != {}
    requires GateAdmits(s, Verified(caller.user.value, ClaimsOf(caller)), path, Some(verb))
    ensures StandsAtGate(s, caller.user.value, ClaimsOf(caller), path, verb)
  {
    var claims := ClaimsOf(caller);
    MethodlessResolutionHolds(s.settings, s.tables, path, Some(verb));
    assert ConditionsPass(s, caller.user.value, PolicyOf(s, caller.user.value), OwnerClaimed(s, claims), claims, path, Some(verb));
  }

  /** The scopes the caller carries are those the HTTP edge decides for its credential, and its policy is not empty. */
  predicate Carried(s: Snapshot, caller: Caller) {
    && caller.user.Some?
    && !PolicyIsEmpty(PolicyOf(s, caller.user.value))
    && ScopesOf(caller, PolicyOf(s, caller.user.value), OwnerClaimed(s, ClaimsOf(caller)))
         == GateScopes(s, caller.user.value, ClaimsOf(caller))
  }

  /** The caller the resource guard binds for an admitted request: its id, its scopes and its claims as one set. */
  function BoundCaller(access: Access, claims: Claims): Caller
    requires access.Principal?
  {
    Caller(false, Some(access.user), Some(claims), Some(access.scopes), None)
  }

  /** Every caller a request binds carries its scopes, whatever path the request authenticated at. */
  lemma RequestsCarryTheirScopes(s: Snapshot, user: User, claims: Claims, entry: string, verb: Option<string>)
    requires Authenticate(s, Verified(user, claims), entry, verb).Principal?
    ensures Carried(s, BoundCaller(Authenticate(s, Verified(user, claims), entry, verb), claims))
  {
    assert OwnerOf(s, claims) == Ok(OwnerClaimed(s, claims));
  }

  /** And so does every fire whose key has a policy, since it derives its scopes live. */
  lemma FiresCarryTheirScopes(s: Snapshot, caller: Caller)
    requires caller.fire.Some? && caller.user.Some? && !PolicyIsEmpty(PolicyOf(s, caller.user.value))
    ensures Carried(s, caller)
  {
  }

  /** Whatever the tool edge allows a caller that carries its scopes, the HTTP edge admits for the same caller, method
    * and path, except exactly where a login-surface path is also listed, raw, as authenticated-only: there the guard
    * wants an identity that the backend does not look for. */
  lemma ToolEdgeRefinesGate(s: Snapshot, caller: Caller, op: Operation, arguments: map<string, string>)
    requires !caller.internal && Carried(s, caller) && ToolAllows(s, caller, op, arguments)
    ensures var path := PathOfCall(op, arguments).value;
            GateAdmits(s, Verified(caller.user.value, ClaimsOf(caller)), path, Some(VerbOf(op))) <==>
              !(AlwaysPublicPath(s, path) && path in s.settings.alwaysAllowed)
  {
    AllowedCallsAtTheGate(s, caller, op, arguments);
  }

  /** In particular a request's tool calls are never easier than its own requests would be. */
  lemma RequestsToolCallsRefineGate(s: Snapshot, user: User, claims: Claims, entry: string, verb: Option<string>,
                                    op: Operation, arguments: map<string, string>)
    requires var access := Authenticate(s, Verified(user, claims), entry, verb);
             access.Principal? && ToolAllows(s, BoundCaller(access, claims), op, arguments)
    ensures var path := PathOfCall(op, arguments).value;
            GateAdmits(s, Verified(user, claims), path, Some(VerbOf(op))) <==>
              !(AlwaysPublicPath(s, path) && path in s.settings.alwaysAllowed)
  {
    RequestsCarryTheirScopes(s, user, claims, entry, verb);
    ToolEdgeRefinesGate(s, BoundCaller(Authenticate(s, Verified(user, claims), entry, verb), claims), op, arguments);
  }

  /** So on accepted settings, and for an operation whose parameters fill whole segments, the tool edge is never
    * easier than the route. */
  lemma ToolEdgeIsNeverEasier(s: Snapshot, caller: Caller, segments: seq<Segment>, verb: Option<string>,
                              arguments: map<string, string>)
    requires Accepted(s.settings) && AllSimple(segments)
    requires !caller.internal && Carried(s, caller)
    requires ToolAllows(s, caller, Operation(Some(TemplateOf(segments)), verb), arguments)
    ensures var op := Operation(Some(TemplateOf(segments)), verb);
            GateAdmits(s, Verified(caller.user.value, ClaimsOf(caller)), PathOfCall(op, arguments).value, Some(VerbOf(op)))
  {
    var op := Operation(Some(TemplateOf(segments)), verb);
    var path := PathOfCall(op, arguments).value;
    ToolEdgeRefinesGate(s, caller, op, arguments);
    SynthesizedPathsStayOnTheirTemplate(segments, arguments);
    if path in s.settings.alwaysAllowed {
      var i :| 0 <= i < |s.settings.alwaysAllowed| && s.settings.alwaysAllowed[i] == path;
      assert AllowedEntryAccepted(s.settings, s.settings.alwaysAllowed[i]);
    }
  }

  /** What the tool edge asks of the resources of a path: some, without a method, and every protected one covered. */
  predicate MappedAndHeld(s: Snapshot, scopes: seq<string>, path: string) {
    var ids := ResourceIds(s.settings, s.tables, path, None);
    ids != {} && (ids == {s.settings.publicId} || HoldsAll(scopes, ids, s.settings.publicId))
  }

  /** The path resolves, under the operation's method, to a route registered at the operation's own template. */
  predicate AtOwnRoute(s: Snapshot, op: Operation, path: string) {
    && op.template.Some? && Canonicalize(path).Ok? && Canonicalize(op.template.value).Ok?
    && ResolveRouteMeta(s.index, path, Some(VerbOf(op))).Some?
    && Canonicalize(ResolveRouteMeta(s.index, path, Some(VerbOf(op))).value.path) == Canonicalize(op.template.value)
  }

  lemma OwnRouteIs(s: Snapshot, op: Operation, path: string)
    requires op.template.Some?
    ensures OwnRoute(s, op.template.value, path, VerbOf(op)) ==
              if AtOwnRoute(s, op, path) then ResolveRouteMeta(s.index, path, Some(VerbOf(op))) else None
  {
    if Canonicalize(path).Ok? {
      CanonicalIsIdempotent(path);
    }
  }

  /** An allowed call runs on the route its operation is registered at: a path that resolves to another one, or to none,
    * is never allowed. */
  lemma AllowedCallsRunOnTheirRoute(s: Snapshot, caller: Caller, op: Operation, arguments: map<string, string>)
    requires !caller.internal && ToolAllows(s, caller, op, arguments)
    ensures caller.user.Some? && PathOfCall(op, arguments).Ok? && AtOwnRoute(s, op, PathOfCall(op, arguments).value)
  {
    OwnRouteIs(s, op, PathOfCall(op, arguments).value);
  }

  /** So off the login surface an operation whose template is registered only fenced or secret is for admin principals. */
  lemma FencedTemplatesAreAdminOnly(s: Snapshot, metas: seq<RouteMeta>, caller: Caller, op: Operation,
                                    arguments: map<string, string>)
    requires IndexOf(metas) == Ok(s.index)
    requires !caller.internal && ToolAllows(s, caller, op, arguments) && !AlwaysPublicPath(s, PathOfCall(op, arguments).value)
    requires forall meta :: meta in metas && Canonicalize(meta.path) == Canonicalize(op.template.value) ==>
               meta.action.Fenced? || meta.action.Secret?
    ensures Admin(PolicyOf(s, caller.user.value))
  {
    var path := PathOfCall(op, arguments).value;
    AllowedCallsRunOnTheirRoute(s, caller, op, arguments);
    OwnRouteIs(s, op, path);
    var meta := ResolveRouteMeta(s.index, path, Some(VerbOf(op))).value;
    ResolutionNamesARegisteredRoute(metas, path, VerbOf(op));
    RouteAllowed(s.roles, PolicyOf(s, caller.user.value), OwnerClaimed(s, ClaimsOf(caller)), meta, VerbOf(op));
  }

  /** What a fire's call needs besides: the key it was bound to, and conditions that need no token. */
  predicate FireBound(s: Snapshot, caller: Caller)
    requires caller.user.Some? && caller.fire.Some?
  {
    var policy, owner := PolicyOf(s, caller.user.value), OwnerClaimed(s, ClaimsOf(caller));
    && caller.fire.value.Some? && policy.data.fingerprint == caller.fire.value
    && EvaluableWithoutToken(s, policy) && (owner.Some? ==> EvaluableWithoutToken(s, owner.value))
  }

  predicate EvaluableWithoutToken(s: Snapshot, policy: Policy) {
    Conditioned(policy) ==> Rendered(s, policy).Ok? && s.evaluable(Rendered(s, policy).value)
  }

  /** How much stricter it is: off the login surface it allows a call exactly when the path is at the operation's own
    * route, the HTTP edge admits it, the path is mapped without a method and held, and a fire is bound. So the guard's
    * two waivers, for the authenticated-only paths and for an admin on an unmapped one, are no waivers for tools. */
  lemma CarriedCallsExactly(s: Snapshot, caller: Caller, op: Operation, arguments: map<string, string>)
    requires !caller.internal && Carried(s, caller)
    requires PathOfCall(op, arguments).Ok? && !AlwaysPublicPath(s, PathOfCall(op, arguments).value)
    ensures var user, claims, path := caller.user.value, ClaimsOf(caller), PathOfCall(op, arguments).value;
            ToolAllows(s, caller, op, arguments) <==>
              && AtOwnRoute(s, op, path)
              && GateAdmits(s, Verified(user, claims), path, Some(VerbOf(op)))
              && MappedAndHeld(s, GateScopes(s, user, claims), path)
              && (caller.fire.Some? ==> FireBound(s, caller))
  {
    var user, claims, path := caller.user.value, ClaimsOf(caller), PathOfCall(op, arguments).value;
    OwnRouteIs(s, op, path);
    if ToolAllows(s, caller, op, arguments) {
      ToolEdgeRefinesGate(s, caller, op, arguments);
      AllowedFiresAreBound(s, caller, op, arguments);
    } else if AtOwnRoute(s, op, path) && GateAdmits(s, Verified(user, claims), path, Some(VerbOf(op)))
              && MappedAndHeld(s, GateScopes(s, user, claims), path) && (caller.fire.Some? ==> FireBound(s, caller)) {
      AdmissionAuthorizes(s, caller, op.template.value, path, VerbOf(op));
    }
  }

  lemma AllowedFiresAreBound(s: Snapshot, caller: Caller, op: Operation, arguments: map<string, string>)
    requires !caller.internal && ToolAllows(s, caller, op, arguments) && !AlwaysPublicPath(s, PathOfCall(op, arguments).value)
    ensures caller.fire.Some? ==> FireBound(s, caller)
  {
  }

  /** On the login surface a call is allowed exactly when it is at its own route, whoever calls. */
  lemma LoginSurfaceCallsExactly(s: Snapshot, caller: Caller, op: Operation, arguments: map<string, string>)
    requires !caller.internal && caller.user.Some?
    requires PathOfCall(op, arguments).Ok? && AlwaysPublicPath(s, PathOfCall(op, arguments).value)
    ensures ToolAllows(s, caller, op, arguments) <==> AtOwnRoute(s, op, PathOfCall(op, arguments).value)
  {
    OwnRouteIs(s, op, PathOfCall(op, arguments).value);
  }

  lemma AdmissionAuthorizes(s: Snapshot, caller: Caller, template: string, path: string, verb: string)
    requires Carried(s, caller) && !AlwaysPublicPath(s, path) && (caller.fire.Some? ==> FireBound(s, caller))
    requires OwnRoute(s, template, path, verb).Some?
    requires GateAdmits(s, Verified(caller.user.value, ClaimsOf(caller)), path, Some(verb))
    requires MappedAndHeld(s, GateScopes(s, caller.user.value, ClaimsOf(caller)), path)
    ensures PinnedRouteAuthorized(s, caller, caller.user.value, path, verb, OwnRoute(s, template, path, verb).value)
  {
    CanonicalIsIdempotent(path);
    var user, claims := caller.user.value, ClaimsOf(caller);
    var policy, owner := PolicyOf(s, user), OwnerClaimed(s, claims);
    assert OwnerOf(s, claims) == Ok(owner);
    assert RequestVerdict(s.roles, s.index, policy, owner, path, Some(verb))
        == RouteVerdict(s.roles, policy, owner, OwnRoute(s, template, path, verb).value, verb);
    assert ConditionsPass(s, user, policy, owner, claims, path, Some(verb));
  }

  // A direct call of the check that carries no effective scopes.

  lemma HoldsAllIsCovering(scopes: seq<string>, ids: set<string>, publicId: string)
    ensures HoldsAll(scopes, ids, publicId) <==> forall id :: id in ids && id != publicId ==> Covers(scopes, id)
  {
  }

  lemma AttenuatedHoldsAll(key: seq<string>, owner: seq<string>, ids: set<string>, publicId: string)
    requires HoldsAll(key, ids, publicId)
    ensures HoldsAll(EffectiveScopes(key, owner), ids, publicId) <==>
              forall id :: id in ids && id != publicId ==> Covers(owner, id)
  {
    HoldsAllIsCovering(key, ids, publicId);
    HoldsAllIsCovering(EffectiveScopes(key, owner), ids, publicId);
    forall id
      ensures Covers(EffectiveScopes(key, owner), id) <==> Covers(key, id) && Covers(owner, id)
    {
      EffectiveScopesIntersect(key, owner, id);
    }
  }

  /** When the check is called with an owned key and no scopes, it falls back to the key's own. Off the login surface
    * the HTTP edge then agrees exactly when the owner covers every protected resource of the path, or the path is
    * authenticated-only, and the key's own condition, if it has one, is also true of the attenuated scopes. */
  lemma UncarriedScopesAtTheGate(s: Snapshot, caller: Caller, op: Operation, arguments: map<string, string>)
    requires !caller.internal && ToolAllows(s, caller, op, arguments)
    requires caller.fire.None? && caller.effectiveScopes.None? && ClaimsOf(caller).owner.Some?
    requires !AlwaysPublicPath(s, PathOfCall(op, arguments).value) && !PolicyIsEmpty(PolicyOf(s, caller.user.value))
    ensures var user, claims, path := caller.user.value, ClaimsOf(caller), PathOfCall(op, arguments).value;
            var policy, owner := PolicyOf(s, user), PolicyOf(s, claims.owner.value);
            GateAdmits(s, Verified(user, claims), path, Some(VerbOf(op))) <==>
              && (path in s.settings.alwaysAllowed
                  || forall id :: id in ResourceIds(s.settings, s.tables, path, None) && id != s.settings.publicId ==>
                       Covers(owner.scopes, id))
              && (Conditioned(policy) ==>
                    Enforce(s, JqContext(user, EffectiveScopes(policy.scopes, owner.scopes), claims, policy.data,
                                         s.contexts(user), Some(VerbOf(op)), path, s.now),
                            Rendered(s, policy).value, true).Passed?)
  {
    AllowedCallsAtTheGate(s, caller, op, arguments);
    var policy, owner := PolicyOf(s, caller.user.value), PolicyOf(s, ClaimsOf(caller).owner.value);
    var ids := ResourceIds(s.settings, s.tables, PathOfCall(op, arguments).value, None);
    if HoldsAll(policy.scopes, ids, s.settings.publicId) {
      AttenuatedHoldsAll(policy.scopes, owner.scopes, ids, s.settings.publicId);
    }
  }

  function OneRoute(): Snapshot {
    var free := PolicyData(false, None, None, None, map[]);
    var meta := RouteMeta("/x", {"POST"}, [], WriteAction);
    Snapshot(
      Settings("public", [], [], [], false, [], [], [], []),
      Tables(map["/x" := "narrow"], [], {}, path => path),
      Index(map[("/x", "POST") := meta], []),
      map[],
      map["key" := Policy(["narrow"], None, None, free), "owner" := Policy(["other"], None, None, free)],
      user => Null, policy => Refused, (text, context) => JqError, text => false, 0.0)
  }

  lemma OneRouteReads()
    ensures Canonicalize("/x") == Ok("/x") && SynthesizePath("/x", map[]) == Ok("/x")
  {
    assert PathOf(["x"]) == "/x";
    SegmentsOfPath(["x"]);
    assert TemplateOf([Literal("x")]) == "/x" by {
      assert Texts([Literal("x")]) == ["x"] + [];
    }
    TemplatePieces([Literal("x")], false);
    assert JoinedPieces([Literal("x")]) == Chars("x");
    assert [Char('/')] + Chars("x") == Chars("/x");
    SubstituteChars("/x", map[]);
  }

  const UNCAPPED := Caller(false, Some("key"), Some(Claims(Some("owner"), map[])), None, None)

  lemma OneRouteResolves()
    ensures forall verb :: ResourceIds(OneRoute().settings, OneRoute().tables, "/x", verb) == {"narrow"}
    ensures !AlwaysPublicPath(OneRoute(), "/x") && OwnRoute(OneRoute(), "/x", "/x", "POST").Some?
  {
    OneRouteReads();
    assert "/x" in OneRoute().tables.routes;
  }

  lemma OneRouteAttenuates()
    ensures "narrow" !in ResolvedScopes(PolicyOf(OneRoute(), "key"), Some(PolicyOf(OneRoute(), "owner")))
    ensures WILDCARD !in ResolvedScopes(PolicyOf(OneRoute(), "key"), Some(PolicyOf(OneRoute(), "owner")))
  {
    EffectiveScopesIntersect(["narrow"], ["other"], "narrow");
  }

  lemma OneRouteAdmitsAsTool()
    ensures PinnedRouteAuthorized(OneRoute(), UNCAPPED, "key", "/x", "POST", OneRoute().index.concrete[("/x", "POST")])
  {
    OneRouteResolves();
    assert ScopesOf(UNCAPPED, PolicyOf(OneRoute(), "key"), Some(PolicyOf(OneRoute(), "owner"))) == ["narrow"];
  }

  lemma OneRouteRefusesAtTheGate()
    ensures !GateAdmits(OneRoute(), Verified("key", ClaimsOf(UNCAPPED)), "/x", Some("POST"))
  {
    OneRouteResolves();
    OneRouteAttenuates();
    assert ResourceIds(OneRoute().settings, OneRoute().tables, "/x", Some("POST")) == {"narrow"};
    assert "narrow" in ResourceIds(OneRoute().settings, OneRoute().tables, "/x", Some("POST"));
  }

  /** A direct call of the check that carries no effective scopes can allow what the route refuses. */
  lemma UncarriedScopesEscapeTheOwner()
    ensures ToolAllows(OneRoute(), UNCAPPED, Operation(Some("/x"), None), map[])
    ensures !GateAdmits(OneRoute(), Verified("key", ClaimsOf(UNCAPPED)), "/x", Some("POST"))
  {
    OneRouteReads();
    OneRouteAdmitsAsTool();
    OneRouteRefusesAtTheGate();
  }

  // The login-surface exception, on accepted settings.

  function LoginSpelling(): Snapshot {
    OneRoute().(settings := OneRoute().settings.(alwaysPublic := ["/x"], alwaysAllowed := ["//x"]))
  }

  lemma SpellingReads()
    ensures Canonicalize("//x") == Ok("/x") && SynthesizePath("//x", map[]) == Ok("//x")
  {
    assert PathOf(["x"]) == "/x";
    var pieces := Split("//x");
    assert "//x"[1..] == "/x" && "/x"[1..] == "x" && "x"[1..] == "";
    SplitPrefixed("x", "");
    assert "x" + "" == "x" && Split("") == [""];
    assert Split("x") == ["x"];
    assert pieces == ["", "", "x"];
    assert pieces[1..] == ["", "x"] && pieces[1..][1..] == ["x"] && pieces[1..][1..][1..] == [];
    assert Resolve([], pieces) == Resolve([], ["", "x"]) == Resolve([], ["x"]) == Resolve(["x"], []) == ["x"];
    LiteralPieces("//x", "", false);
    assert "//x" + "" == "//x";
    SubstituteChars("//x", map[]);
  }

  lemma SpellingResolves()
    ensures var s := LoginSpelling();
            && Accepted(s.settings) && AlwaysPublicPath(s, "//x") && "//x" in s.settings.alwaysAllowed
            && (forall verb :: ResourceIds(s.settings, s.tables, "//x", verb) == {"public"})
  {
    var s := LoginSpelling();
    SpellingReads();
    assert !UnderPrefix("//x", "/x") by {
      assert "//x"[1] != ("/x" + "/")[1];
    }
    assert IsAlwaysPublic(s.settings, "/x") by {
      assert UnderPrefix("/x", s.settings.alwaysPublic[0]);
    }
    assert "//x" == s.settings.alwaysAllowed[0];
  }

  /** Accepted settings do not rule the exception out for a path in another spelling: the check short-circuits on
    * the login surface, and the guard asks the raw path for an identity. */
  lemma SpelledLoginPathsAreStricterAtTheGate(caller: Caller)
    requires !caller.internal && caller.user.Some?
    ensures Accepted(LoginSpelling().settings)
    ensures ToolAllows(LoginSpelling(), caller, Operation(Some("//x"), None), map[])
    ensures !GateAdmits(LoginSpelling(), Verified(caller.user.value, ClaimsOf(caller)), "//x", Some("POST"))
  {
    OneRouteReads();
    SpellingReads();
    SpellingResolves();
    assert OwnRoute(LoginSpelling(), "//x", "//x", "POST").Some?;
  }
}
