/** The capability projection: the doors a caller is shown, decided apart from the gate they open. */
module Projection {
  import opened Wrappers
  import opened JqEvaluation
  import opened PathCanon
  import opened GateSettings
  import opened ResourceResolution
  import opened RoleLevels
  import opened AccessPolicies
  import opened HttpGate
  import ToolEdge

  /** The caller as the request hands it over: effective scopes and claims come from the gate. */
  datatype Viewer = Viewer(user: User, scopes: seq<string>, claims: Claims)

  /** A door: a method on a path. */
  type Door = (string, string)

  function PolicyOfViewer(s: Snapshot, v: Viewer): Policy {
    PolicyOf(s, v.user)
  }

  predicate ShownAsAdmin(s: Snapshot, v: Viewer) {
    IsAdminPolicy(PolicyOfViewer(s, v), PolicyOfViewer(s, v).data.owner)
  }

  /** Route resolution and scope coverage, or the authenticated-only carve-out, with no method. */
  predicate Reachable(s: Snapshot, v: Viewer, path: string) {
    || path in s.settings.alwaysAllowed
    || (var ids := ResourceIds(s.settings, s.tables, path, None);
        ids != {} && (ids == {s.settings.publicId} || HoldsAll(v.scopes, ids, s.settings.publicId)))
  }

  /** The conditions are rendered once, before any probe; a failure there fails the whole projection. */
  predicate Prepared(s: Snapshot, v: Viewer) {
    ShownAsAdmin(s, v) ||
    (Rendered(s, PolicyOfViewer(s, v)).Ok?
     && (OwnerClaimed(s, v.claims).Some? && Conditioned(OwnerClaimed(s, v.claims).value) ==> Rendered(s, OwnerClaimed(s, v.claims).value).Ok?))
  }

  function ContextFor(s: Snapshot, v: Viewer, policy: Policy, scopes: seq<string>, path: string, verb: string): JqContext {
    JqContext(v.user, scopes, v.claims, policy.data, s.contexts(v.user), Some(verb), path, s.now)
  }

  /** The two condition passes on one door: a violation answers no, and a fault fails the projection. */
  function JqAdmits(s: Snapshot, v: Viewer, path: string, verb: string): Result<bool>
    requires Prepared(s, v) && !ShownAsAdmin(s, v)
  {
    var policy, owner := PolicyOfViewer(s, v), OwnerClaimed(s, v.claims);
    match Enforce(s, ContextFor(s, v, policy, v.scopes, path, verb), Rendered(s, policy).value, Conditioned(policy))
    case EvaluationFault => Refused
    case Violated => Ok(false)
    case Passed =>
      if owner.None? || !Conditioned(owner.value) then Ok(true)
      else
        match Enforce(s, ContextFor(s, v, owner.value, owner.value.scopes, path, verb), Rendered(s, owner.value).value, true)
        case EvaluationFault => Refused
        case Violated => Ok(false)
        case Passed => Ok(true)
  }

  function Admits(s: Snapshot, v: Viewer, path: string, verb: string): Result<bool>
    requires Prepared(s, v)
  {
    if ShownAsAdmin(s, v) then Ok(true)
    else
      var jq := JqAdmits(s, v, path, verb);
      if jq.Refused? || !jq.value then jq
      else
        match RequestVerdict(s.roles, s.index, PolicyOfViewer(s, v), OwnerClaimed(s, v.claims), path, Some(verb))
        case Fault => Refused
        case Deny(_) => Ok(false)
        case Allow => Ok(true)
  }

  predicate Shown(s: Snapshot, v: Viewer, path: string, verb: string) {
    Prepared(s, v) && Reachable(s, v, path) && Admits(s, v, path, verb) == Ok(true)
  }

  predicate Faults(s: Snapshot, v: Viewer, path: string, verb: string) {
    Prepared(s, v) && Reachable(s, v, path) && Admits(s, v, path, verb).Refused?
  }

  function DoorsOf(s: Snapshot, v: Viewer, meta: RouteMeta, methods: set<string>): set<Door> {
    set verb | verb in methods && Shown(s, v, meta.path, verb) :: (verb, meta.path)
  }

  method ProjectMethods(s: Snapshot, v: Viewer, meta: RouteMeta) returns (doors: Result<set<Door>>)
    requires Prepared(s, v) && Reachable(s, v, meta.path)
    ensures doors.Refused? <==> exists verb :: verb in meta.methods && Faults(s, v, meta.path, verb)
    ensures doors.Ok? ==> doors.value == DoorsOf(s, v, meta, meta.methods)
  {
    var found: set<Door> := {};
    var todo := meta.methods;
    while todo != {}
      invariant todo <= meta.methods
      invariant found == DoorsOf(s, v, meta, meta.methods - todo)
      invariant forall verb :: verb in meta.methods - todo ==> !Faults(s, v, meta.path, verb)
      decreases todo
    {
      var verb :| verb in todo;
      var admitted := Admits(s, v, meta.path, verb);
      if admitted.Refused? {
        assert Faults(s, v, meta.path, verb);
        return Refused;
      }
      assert meta.methods - (todo - {verb}) == (meta.methods - todo) + {verb};
      if admitted.value {
        found := found + {(verb, meta.path)};
      }
      todo := todo - {verb};
    }
    assert meta.methods - todo == meta.methods;
    doors := Ok(found);
  }

  /** Some probe of a concrete route faults. */
  predicate RouteFaults(s: Snapshot, v: Viewer, meta: RouteMeta) {
    '{' !in meta.path && exists verb :: verb in meta.methods && Faults(s, v, meta.path, verb)
  }

  function RouteDoors(s: Snapshot, v: Viewer, meta: RouteMeta): set<Door> {
    if '{' in meta.path then {} else DoorsOf(s, v, meta, meta.methods)
  }

  method ProjectRoute(s: Snapshot, v: Viewer, meta: RouteMeta) returns (doors: Result<set<Door>>)
    requires Prepared(s, v)
    ensures doors.Refused? <==> RouteFaults(s, v, meta)
    ensures doors.Ok? ==> doors.value == RouteDoors(s, v, meta)
  {
    if '{' in meta.path {
      return Ok({});
    }
    if !Reachable(s, v, meta.path) {
      assert DoorsOf(s, v, meta, meta.methods) == {};
      return Ok({});
    }
    doors := ProjectMethods(s, v, meta);
  }

  /** The doors of the concrete registered routes. */
  function Doors(s: Snapshot, v: Viewer, metas: seq<RouteMeta>): set<Door> {
    if metas == [] then {} else Doors(s, v, metas[..|metas| - 1]) + RouteDoors(s, v, metas[|metas| - 1])
  }

  lemma NextDoors(s: Snapshot, v: Viewer, metas: seq<RouteMeta>, i: nat)
    requires i < |metas|
    ensures Doors(s, v, metas[..i + 1]) == Doors(s, v, metas[..i]) + RouteDoors(s, v, metas[i])
  {
    assert metas[..i + 1][..i] == metas[..i];
  }

  /** No probe of the first `n` routes faults. */
  predicate NoFaults(s: Snapshot, v: Viewer, metas: seq<RouteMeta>, n: nat)
    requires n <= |metas|
  {
    forall i :: 0 <= i < n ==> !RouteFaults(s, v, metas[i])
  }

  lemma NextFault(s: Snapshot, v: Viewer, metas: seq<RouteMeta>, n: nat)
    requires n < |metas|
    ensures NoFaults(s, v, metas, n + 1) <==> NoFaults(s, v, metas, n) && !RouteFaults(s, v, metas[n])
    ensures RouteFaults(s, v, metas[n]) ==> !NoFaults(s, v, metas, |metas|)
  {
  }

  method ProjectEach(s: Snapshot, v: Viewer, metas: seq<RouteMeta>) returns (doors: Result<set<Door>>)
    requires Prepared(s, v)
    ensures doors.Ok? <==> NoFaults(s, v, metas, |metas|)
    ensures doors.Ok? ==> doors.value == Doors(s, v, metas)
  {
    var found: set<Door> := {};
    for i := 0 to |metas|
      invariant found == Doors(s, v, metas[..i])
      invariant NoFaults(s, v, metas, i)
    {
      var more := ProjectRoute(s, v, metas[i]);
      NextFault(s, v, metas, i);
      if more.Refused? {
        return Refused;
      }
      NextDoors(s, v, metas, i);
      found := found + more.value;
    }
    assert metas[..|metas|] == metas;
    doors := Ok(found);
  }

  /** The route half of the projection: concrete registered routes, method by method. */
  method ProjectRoutes(s: Snapshot, v: Viewer, metas: seq<RouteMeta>) returns (doors: Result<set<Door>>)
    ensures doors.Ok? <==> Prepared(s, v) && NoFaults(s, v, metas, |metas|)
    ensures doors.Ok? ==> doors.value == Doors(s, v, metas)
  {
    if !Prepared(s, v) {
      return Refused;
    }
    doors := ProjectEach(s, v, metas);
  }

  lemma {:induction false} DoorsAreShown(s: Snapshot, v: Viewer, metas: seq<RouteMeta>, path: string, verb: string)
    ensures (verb, path) in Doors(s, v, metas) <==>
              exists meta :: meta in metas && meta.path == path && verb in meta.methods && '{' !in path
                             && Shown(s, v, path, verb)
  {
    if metas != [] {
      var n := |metas| - 1;
      DoorsAreShown(s, v, metas[..n], path, verb);
      assert metas == metas[..n] + [metas[n]];
    }
  }

  // What is shown is open.

  /** The viewer is a caller the backend lets in somewhere, with the scopes the backend gave it. */
  predicate LetIn(s: Snapshot, v: Viewer, entry: string, entryVerb: Option<string>) {
    && Authenticate(s, Verified(v.user, v.claims), entry, entryVerb).Principal?
    && v.scopes == Authenticate(s, Verified(v.user, v.claims), entry, entryVerb).scopes
  }

  /** What the gate asks of an owner and the admin shortcut skips: its own condition, and its role's level. */
  predicate OwnerAdmits(s: Snapshot, v: Viewer, path: string, verb: string) {
    OwnerClaimed(s, v.claims).Some? ==>
      var owner := OwnerClaimed(s, v.claims).value;
      && (Conditioned(owner) ==>
            && Rendered(s, owner).Ok?
            && Enforce(s, ContextFor(s, v, owner, owner.scopes, path, verb), Rendered(s, owner).value, true).Passed?)
      && RequestVerdict(s.roles, s.index, PolicyOfViewer(s, v), Some(owner), path, Some(verb)).Allow?
  }

  lemma AdminsPassEveryLevel(s: Snapshot, policy: Policy, path: string, verb: string)
    requires IsAdminPolicy(policy, policy.data.owner)
    ensures RequestVerdict(s.roles, s.index, policy, None, path, Some(verb)).Allow?
  {
  }

  /** Off the login surface, the backend lets the viewer through a door its projection admits exactly when no admin
    * shortcut skipped an owner that refuses. */
  lemma AdmittedDoorsAuthenticate(s: Snapshot, v: Viewer, entry: string, entryVerb: Option<string>, path: string, verb: string)
    requires LetIn(s, v, entry, entryVerb) && Prepared(s, v) && Admits(s, v, path, verb) == Ok(true)
    requires !AlwaysPublicPath(s, path)
    ensures Authenticate(s, Verified(v.user, v.claims), path, Some(verb)) ==
              if ShownAsAdmin(s, v) && !OwnerAdmits(s, v, path, verb) then Rejected
              else Principal(v.user, v.scopes, ShownAsAdmin(s, v))
  {
    var policy, owner := PolicyOfViewer(s, v), OwnerClaimed(s, v.claims);
    if ShownAsAdmin(s, v) {
      AdminsPassEveryLevel(s, policy, path, verb);
    }
    assert OwnerOf(s, v.claims) == Ok(owner);
    assert ShownAsAdmin(s, v) && !OwnerAdmits(s, v, path, verb) ==>
             !ConditionsPass(s, v.user, policy, owner, v.claims, path, Some(verb))
             || !RequestVerdict(s.roles, s.index, policy, owner, path, Some(verb)).Allow?;
    assert !ShownAsAdmin(s, v) || OwnerAdmits(s, v, path, verb) ==>
             ConditionsPass(s, v.user, policy, owner, v.claims, path, Some(verb));
  }

  /** Every door that is shown is decided at the gate exactly so: on the login surface the path must not also be
    * listed, raw, as authenticated-only, and off it an owner the admin shortcut skipped must itself admit. */
  lemma ShownDoorsAtTheGate(s: Snapshot, v: Viewer, entry: string, entryVerb: Option<string>, path: string, verb: string)
    requires LetIn(s, v, entry, entryVerb) && Shown(s, v, path, verb)
    ensures GateAdmits(s, Verified(v.user, v.claims), path, Some(verb)) <==>
              if AlwaysPublicPath(s, path) then path !in s.settings.alwaysAllowed
              else (ShownAsAdmin(s, v) ==> OwnerAdmits(s, v, path, verb))
  {
    MethodlessResolutionHolds(s.settings, s.tables, path, Some(verb));
    if !AlwaysPublicPath(s, path) {
      AdmittedDoorsAuthenticate(s, v, entry, entryVerb, path, verb);
    }
  }

  /** What a door needs besides: the carve-out of authenticated-only paths, or a mapping without a method that is held. */
  predicate WithinReach(s: Snapshot, v: Viewer, path: string) {
    || path in s.settings.alwaysAllowed
    || (var ids := ResourceIds(s.settings, s.tables, path, None);
        ids != {} && forall id :: id in ids && id != s.settings.publicId ==> Covers(v.scopes, id))
  }

  /** Nothing open is hidden either: off the login surface an admin is shown exactly the doors within reach, and anyone
    * else exactly those of them that the gate admits. */
  lemma DoorsShownExactly(s: Snapshot, v: Viewer, entry: string, entryVerb: Option<string>, path: string, verb: string)
    requires LetIn(s, v, entry, entryVerb) && !AlwaysPublicPath(s, path)
    ensures Shown(s, v, path, verb) <==>
              WithinReach(s, v, path)
              && (Admin(PolicyOf(s, v.user)) || GateAdmits(s, Verified(v.user, v.claims), path, Some(verb)))
  {
    if Shown(s, v, path, verb) {
      ShownDoorsAtTheGate(s, v, entry, entryVerb, path, verb);
    } else if !ShownAsAdmin(s, v) && Reachable(s, v, path) && GateAdmits(s, Verified(v.user, v.claims), path, Some(verb)) {
      AuthenticatedDoorsAreAdmitted(s, v, entry, entryVerb, path, verb);
    }
  }

  lemma AuthenticatedDoorsAreAdmitted(s: Snapshot, v: Viewer, entry: string, entryVerb: Option<string>, path: string, verb: string)
    requires LetIn(s, v, entry, entryVerb) && !AlwaysPublicPath(s, path) && !ShownAsAdmin(s, v)
    requires Authenticate(s, Verified(v.user, v.claims), path, Some(verb)).Principal?
    ensures Prepared(s, v) && Admits(s, v, path, verb) == Ok(true)
  {
    var policy, owner := PolicyOfViewer(s, v), OwnerClaimed(s, v.claims);
    assert OwnerOf(s, v.claims) == Ok(owner) && v.scopes == ResolvedScopes(policy, owner);
    assert ConditionsPass(s, v.user, policy, owner, v.claims, path, Some(verb));
    assert RequestVerdict(s.roles, s.index, policy, owner, path, Some(verb)).Allow?;
  }

  /** A condition that stops the projection where it is evaluated: it has a text, and evaluating it errs. */
  predicate Errs(s: Snapshot, p: Policy, context: JqContext) {
    && (p.condition.Some? || p.conditionId.Some?) && s.render(p).Ok?
    && s.render(p).value != "" && s.jq(s.render(p).value, context) == JqError
  }

  /** The projection fails at a door exactly when the viewer is no admin, the door is within reach, and there, in this
    * order, the viewer's own condition errs, or it holds and the owner's errs, or both hold and the level is undecided. */
  lemma DoorsFaultExactly(s: Snapshot, v: Viewer, path: string, verb: string)
    requires Prepared(s, v)
    ensures var policy, owner := PolicyOf(s, v.user), OwnerClaimed(s, v.claims);
            var own := JqContext(v.user, v.scopes, v.claims, policy.data, s.contexts(v.user), Some(verb), path, s.now);
            Faults(s, v, path, verb) <==>
              && !Admin(policy) && WithinReach(s, v, path)
              && (|| Errs(s, policy, own)
                  || (Holds(s, policy, own) && owner.Some?
                      && Errs(s, owner.value, own.(scopes := owner.value.scopes, policy := owner.value.data)))
                  || (&& Holds(s, policy, own)
                      && (owner.Some? ==>
                            Holds(s, owner.value, own.(scopes := owner.value.scopes, policy := owner.value.data)))
                      && ResolveRouteMeta(s.index, path, Some(verb)).Some?
                      && RouteVerdict(s.roles, policy, owner, ResolveRouteMeta(s.index, path, Some(verb)).value, verb).Fault?))
  {
  }

  /** The shortcut skips no owner when a claimed owner is stored, or when the viewer is no admin at all. */
  lemma ShownDoorsAreOpen(s: Snapshot, v: Viewer, entry: string, entryVerb: Option<string>, path: string, verb: string)
    requires LetIn(s, v, entry, entryVerb) && Shown(s, v, path, verb)
    requires ShownAsAdmin(s, v) ==> v.claims.owner.None?
    ensures GateAdmits(s, Verified(v.user, v.claims), path, Some(verb)) <==>
              !(AlwaysPublicPath(s, path) && path in s.settings.alwaysAllowed)
  {
    ShownDoorsAtTheGate(s, v, entry, entryVerb, path, verb);
  }

  /** On accepted settings a door of a canonically registered route is open, unless an admin shortcut skipped an
    * owner that refuses. */
  lemma ProjectionRefinesGate(s: Snapshot, v: Viewer, entry: string, entryVerb: Option<string>, metas: seq<RouteMeta>,
                              path: string, verb: string)
    requires Accepted(s.settings) && LetIn(s, v, entry, entryVerb)
    requires (verb, path) in Doors(s, v, metas) && IsCanonical(path)
    ensures GateAdmits(s, Verified(v.user, v.claims), path, Some(verb)) <==>
              AlwaysPublicPath(s, path) || (ShownAsAdmin(s, v) ==> OwnerAdmits(s, v, path, verb))
  {
    DoorsAreShown(s, v, metas, path, verb);
    ShownDoorsAtTheGate(s, v, entry, entryVerb, path, verb);
    AllowedEntriesAreNoLoginSurface(s, path);
  }

  lemma AllowedEntriesAreNoLoginSurface(s: Snapshot, path: string)
    requires Accepted(s.settings) && IsCanonical(path)
    ensures !(AlwaysPublicPath(s, path) && path in s.settings.alwaysAllowed)
  {
    if path in s.settings.alwaysAllowed {
      var i :| 0 <= i < |s.settings.alwaysAllowed| && s.settings.alwaysAllowed[i] == path;
      assert AllowedEntryAccepted(s.settings, s.settings.alwaysAllowed[i]);
    }
  }

  // The fence, at all three.

  predicate AdminOnly(meta: RouteMeta) {
    meta.action.Fenced? || meta.action.Secret?
  }

  /** Off the login surface a fenced or secret route is for admin principals: the gate admits no other verified
    * credential, and a guest just where the route is mapped public alone. */
  lemma FencedRoutesAtTheGate(s: Snapshot, credential: Credential, path: string, verb: string, meta: RouteMeta)
    requires !AlwaysPublicPath(s, path) && GateAdmits(s, credential, path, Some(verb))
    requires ResolveRouteMeta(s.index, path, Some(verb)) == Some(meta) && AdminOnly(meta)
    ensures if credential.Verified?
            then IsAdminPolicy(PolicyOf(s, credential.user), PolicyOf(s, credential.user).data.owner)
            else credential.Absent? && ResourceIds(s.settings, s.tables, path, Some(verb)) == {s.settings.publicId}
  {
    if credential.Verified? {
      var policy, owner := PolicyOf(s, credential.user), OwnerOf(s, credential.claims).value;
      assert RequestVerdict(s.roles, s.index, policy, owner, path, Some(verb)).Allow?;
      FenceIsNotDelegated(s.roles, policy, owner, meta, verb);
    } else {
      GuestsReachPublicPathsOnly(s, path, Some(verb));
    }
  }

  /** An external caller of the user calls an operation whose path and method those are. */
  predicate CallsTool(user: User, path: string, verb: string, caller: ToolEdge.Caller, op: ToolEdge.Operation,
                      arguments: map<string, string>)
  {
    && !caller.internal && caller.user == Some(user)
    && ToolEdge.VerbOf(op) == verb && ToolEdge.PathOfCall(op, arguments) == Ok(path)
  }

  /** No other external caller is allowed its tool, whatever scopes it carries, and no other viewer is shown its door. */
  lemma FencedRoutesElsewhere(s: Snapshot, user: User, path: string, verb: string, meta: RouteMeta)
    requires !AlwaysPublicPath(s, path) && !IsAdminPolicy(PolicyOf(s, user), PolicyOf(s, user).data.owner)
    requires ResolveRouteMeta(s.index, path, Some(verb)) == Some(meta) && AdminOnly(meta)
    ensures forall caller, op, arguments :: CallsTool(user, path, verb, caller, op, arguments) ==>
              !ToolEdge.ToolAllows(s, caller, op, arguments)
    ensures forall v: Viewer :: v.user == user ==> !Shown(s, v, path, verb)
  {
    var policy := PolicyOf(s, user);
    forall caller, op, arguments | CallsTool(user, path, verb, caller, op, arguments)
      ensures !ToolEdge.ToolAllows(s, caller, op, arguments)
    {
      CanonicalIsIdempotent(path);
      FenceIsNotDelegated(s.roles, policy, OwnerClaimed(s, ToolEdge.ClaimsOf(caller)), meta, verb);
    }
    forall v: Viewer | v.user == user
      ensures !Shown(s, v, path, verb)
    {
      FenceIsNotDelegated(s.roles, policy, OwnerClaimed(s, v.claims), meta, verb);
    }
  }

  // Mounts: reached by their root, probed one slash further.

  predicate MountShown(s: Snapshot, v: Viewer, mount: string) {
    Prepared(s, v) && Reachable(s, v, mount) && Admits(s, v, mount + "/", "GET") == Ok(true)
  }

  /** What the gate asks of the resources of the probed path. */
  predicate ProbeResolves(s: Snapshot, v: Viewer, path: string) {
    var ids := ResourceIds(s.settings, s.tables, path, Some("GET"));
    if ids == {} then ShownAsAdmin(s, v) else ids == {s.settings.publicId} || HoldsAll(v.scopes, ids, s.settings.publicId)
  }

  /** A mount that is shown is decided at the path probed exactly so: as any shown door, and besides, if only the
    * carve-out of its bare root showed it, by the mapping of the probed path, or its absence. */
  lemma ShownMountsAtTheGate(s: Snapshot, v: Viewer, entry: string, entryVerb: Option<string>, mount: string)
    requires LetIn(s, v, entry, entryVerb) && MountShown(s, v, mount)
    ensures GateAdmits(s, Verified(v.user, v.claims), mount + "/", Some("GET")) <==>
              if AlwaysPublicPath(s, mount) then mount + "/" !in s.settings.alwaysAllowed
              else
                && (ShownAsAdmin(s, v) ==> OwnerAdmits(s, v, mount + "/", "GET"))
                && (mount !in s.settings.alwaysAllowed || mount + "/" in s.settings.alwaysAllowed
                    || ProbeResolves(s, v, mount))
  {
    ResolutionIsCanonical(s.settings, s.tables, mount, Some("GET"));
    MethodlessResolutionHolds(s.settings, s.tables, mount, Some("GET"));
    TrailingSlashIsDropped(mount);
    if !AlwaysPublicPath(s, mount) {
      AdmittedDoorsAuthenticate(s, v, entry, entryVerb, mount + "/", "GET");
    }
  }

  /** And which mounts are shown: those whose root is within reach, to an admin or to a viewer whom the backend lets
    * through at the path probed. */
  lemma MountsShownExactly(s: Snapshot, v: Viewer, entry: string, entryVerb: Option<string>, mount: string)
    requires LetIn(s, v, entry, entryVerb) && !AlwaysPublicPath(s, mount)
    ensures MountShown(s, v, mount) <==>
              WithinReach(s, v, mount)
              && (Admin(PolicyOf(s, v.user))
                  || Authenticate(s, Verified(v.user, v.claims), mount + "/", Some("GET")).Principal?)
  {
    TrailingSlashIsDropped(mount);
    if MountShown(s, v, mount) {
      AdmittedDoorsAuthenticate(s, v, entry, entryVerb, mount + "/", "GET");
    } else if !ShownAsAdmin(s, v) && Authenticate(s, Verified(v.user, v.claims), mount + "/", Some("GET")).Principal? {
      AuthenticatedDoorsAreAdmitted(s, v, entry, entryVerb, mount + "/", "GET");
    }
  }

  // Witnesses, on accepted settings.

  function Delegated(): Snapshot {
    var free := PolicyData(false, None, None, None, map[]);
    Snapshot(
      Settings("public", [], [], ["/me"], false, [], [], [], []),
      Tables(map["/x" := "scope"], [], {}, path => path),
      Index(map[], []),
      map[],
      map["key" := Policy([WILDCARD], None, None, free), "owner" := Policy(["scope"], Some("c"), None, free)],
      user => Null, policy => Ok("c"), (text: string, context: JqContext) => Output(context.path == "/me"), text => false, 0.0)
  }

  lemma PlainPath(name: string)
    requires Plain(name) && WellFormed("/" + name)
    ensures Canonicalize("/" + name) == Ok("/" + name)
  {
    assert PathOf([name]) == "/" + name;
    SegmentsOfPath([name]);
  }

  const DELEGATE := Viewer("key", ["scope"], Claims(Some("owner"), map[]))

  lemma DelegatePaths()
    ensures Canonicalize("/x") == Ok("/x") && Canonicalize("/me") == Ok("/me")
    ensures !AlwaysPublicPath(Delegated(), "/x") && !AlwaysPublicPath(Delegated(), "/me")
  {
    PlainPath("x");
    PlainPath("me");
    assert "/" + "x" == "/x" && "/" + "me" == "/me";
  }

  lemma DelegateOwner()
    ensures var s := Delegated();
            && OwnerOf(s, DELEGATE.claims) == Ok(Some(s.policies["owner"]))
            && ResolvedScopes(s.policies["key"], Some(s.policies["owner"])) == ["scope"]
  {
    assert EffectiveScopes([WILDCARD], ["scope"]) == ["scope"];
  }

  lemma DelegateConditions(path: string)
    ensures var s := Delegated();
            path == "/me" <==>
              ConditionsPass(s, "key", s.policies["key"], Some(s.policies["owner"]), DELEGATE.claims, path, Some("GET"))
  {
  }

  lemma DelegateAuthenticates()
    ensures Authenticate(Delegated(), Verified("key", DELEGATE.claims), "/me", Some("GET"))
              == Principal("key", ["scope"], true)
    ensures Authenticate(Delegated(), Verified("key", DELEGATE.claims), "/x", Some("GET")).Rejected?
  {
    DelegatePaths();
    DelegateOwner();
    DelegateConditions("/me");
    DelegateConditions("/x");
    assert "/x"[1] != "/me"[1];
  }

  lemma DelegateResolves()
    ensures ResourceIds(Delegated().settings, Delegated().tables, "/x", None) == {"scope"}
  {
    DelegatePaths();
    assert "/x" in Delegated().tables.routes;
  }

  lemma DelegateIsShown()
    ensures Shown(Delegated(), DELEGATE, "/x", "GET")
  {
    DelegateResolves();
  }

  /** A wildcard key whose owner is claimed but not stored is shown as admin, past its owner's condition: the
    * projection then shows a door the gate keeps shut. */
  lemma UnstoredOwnersAreOvershown()
    ensures var s := Delegated();
            && Accepted(s.settings) && LetIn(s, DELEGATE, "/me", Some("GET"))
            && Shown(s, DELEGATE, "/x", "GET")
            && !GateAdmits(s, Verified("key", DELEGATE.claims), "/x", Some("GET"))
  {
    var s := Delegated();
    DelegateAuthenticates();
    DelegateIsShown();
  }

  function CarvedMount(): Snapshot {
    Delegated().(tables := Tables(map[], [], {}, path => path),
                 policies := map["key" := Policy(["scope"], None, None, EMPTY.data)])
  }

  const PLAIN_VIEWER := Viewer("key", ["scope"], NO_CLAIMS)

  lemma CarvedMountResolves()
    ensures !AlwaysPublicPath(CarvedMount(), "/me") && !AlwaysPublicPath(CarvedMount(), "/me/")
    ensures ResourceIds(CarvedMount().settings, CarvedMount().tables, "/me/", Some("GET")) == {}
    ensures Accepted(CarvedMount().settings)
  {
    PlainPath("me");
    assert "/" + "me" == "/me" && "/me" + "/" == "/me/";
    TrailingSlashIsDropped("/me");
  }

  lemma PlainViewerAuthenticates(path: string)
    requires !AlwaysPublicPath(CarvedMount(), path)
    ensures Authenticate(CarvedMount(), Verified("key", NO_CLAIMS), path, Some("GET")) == Principal("key", ["scope"], false)
  {
    assert ResolveRouteMeta(CarvedMount().index, path, Some("GET")) == None;
  }

  lemma CarvedMountIsShown()
    ensures MountShown(CarvedMount(), PLAIN_VIEWER, "/me")
  {
    assert "/me" == CarvedMount().settings.alwaysAllowed[0];
    assert ResolveRouteMeta(CarvedMount().index, "/me" + "/", Some("GET")) == None;
  }

  /** The mount exception, too: a mount whose bare root is authenticated-only is shown to a caller let in there, and
    * its probed path, having no mapping, refuses. */
  lemma CarvedMountsAreOvershown()
    ensures Accepted(CarvedMount().settings) && LetIn(CarvedMount(), PLAIN_VIEWER, "/me", Some("GET"))
    ensures MountShown(CarvedMount(), PLAIN_VIEWER, "/me")
    ensures !GateAdmits(CarvedMount(), Verified("key", NO_CLAIMS), "/me/", Some("GET"))
  {
    CarvedMountResolves();
    CarvedMountIsShown();
    PlainViewerAuthenticates("/me");
    PlainViewerAuthenticates("/me/");
    assert |"/me/"| != |"/me"|;
  }
}
