/** Grants against removals on the route and policy tables, statement by statement under row locks. */
module PolicyStore {
  import opened Wrappers

  type Url = string
  type Scope = string
  type User = string
  type Txn = nat

  const WILDCARD: Scope := "*"
  const PUBLIC: Scope := "public"

  datatype GrantStage = Validating | Validated | Writing(scopes: set<Scope>)

  /** A mint (`create`) or an edit of one policy; `wanted` is None when an edit leaves the scopes alone,
    * and `share` holds the route rows locked FOR SHARE. */
  datatype Grant = Grant(create: bool, user: User, wanted: Option<set<Scope>>, share: set<Url>, stage: GrantStage)

  datatype RemovalStage = Deleting | Stripping(users: set<User>, stripped: set<User>) | Unneeded

  /** A removal of one url (`single`) or a whole scope: `targets` are the rows its DELETE saw, `taken`
    * those it has locked and deleted so far, and `stripped` the policy rows its UPDATE has rewritten. */
  datatype Removal = Removal(single: bool, scope: Scope, targets: set<Url>, taken: set<Url>, stage: RemovalStage)

  /** The committed tables, and the transactions in flight. */
  datatype Store = Store(
    routes: map<Url, Scope>,
    policies: map<User, set<Scope>>,
    grants: map<Txn, Grant>,
    removal: Option<Removal>)

  const INITIAL := Store(map[], map[], map[], None)

  datatype Action =
    | BeginCreate(txn: Txn, user: User, scopes: set<Scope>)
    | BeginUpdate(txn: Txn, user: User, wanted: Option<set<Scope>>)
    | LockScopes(txn: Txn, rows: set<Url>)
    | CommitCreate(txn: Txn)
    | LockPolicy(txn: Txn)
    | CommitUpdate(txn: Txn)
    | AbortGrant(txn: Txn)
    | AddUrl(url: Url, scope: Scope)
    | UnpinPublic(url: Url)
    | DeletePolicy(user: User)
    | BeginRemoveScope(scope: Scope)
    | BeginRemoveUrl(url: Url)
    | DeleteRow(url: Url)
    | CheckAndStrip
    | StripRow(user: User)
    | SkipRow(user: User)
    | CommitRemoval
    | AbortRemoval

  predicate MapsTo(routes: map<Url, Scope>, url: Url, scope: Scope) {
    url in routes && routes[url] == scope
  }

  /** Whether a live, non-public route carries the scope. */
  ghost predicate Backed(routes: map<Url, Scope>, scope: Scope) {
    scope != PUBLIC && exists url :: MapsTo(routes, url, scope)
  }

  /** No committed policy grants a scope that no route carries. */
  ghost predicate Safe(routes: map<Url, Scope>, policies: map<User, set<Scope>>) {
    forall user, scope :: user in policies && scope in policies[user] && scope != WILDCARD ==> Backed(routes, scope)
  }

  function Taken(s: Store): set<Url> {
    if s.removal.Some? then s.removal.value.taken else {}
  }

  predicate PolicyRowFree(s: Store, user: User) {
    && (forall t :: t in s.grants ==> !(s.grants[t].stage.Writing? && s.grants[t].user == user))
    && !(s.removal.Some? && s.removal.value.stage.Stripping? && user in s.removal.value.stage.stripped)
  }

  predicate RouteRowShared(s: Store, url: Url) {
    exists t :: t in s.grants && url in s.grants[t].share
  }

  /** The rows a grant's validation could lock: live, non-public, of a wanted scope, under no delete. */
  predicate Lockable(s: Store, g: Grant, rows: set<Url>) {
    && g.wanted.Some?
    && forall url :: url in rows ==>
         url in s.routes && s.routes[url] != PUBLIC && s.routes[url] in g.wanted.value && url !in Taken(s)
  }

  predicate AllLive(s: Store, wanted: set<Scope>, rows: set<Url>) {
    forall scope :: scope in wanted && scope != WILDCARD ==> exists url :: url in rows && MapsTo(s.routes, url, scope)
  }

  function End(s: Store, t: Txn): Store {
    s.(grants := s.grants - {t})
  }

  function SetGrant(s: Store, t: Txn, g: Grant): Store {
    s.(grants := s.grants[t := g])
  }

  function GrantStep(s: Store, a: Action, t: Txn, g: Grant): Store {
    match a
    case LockScopes(_, rows) =>
      if !g.stage.Validating? then s
      else if g.wanted.None? then SetGrant(s, t, g.(stage := Validated))
      else if !Lockable(s, g, rows) then s
      else if AllLive(s, g.wanted.value, rows) then SetGrant(s, t, g.(share := rows, stage := Validated))
      else End(s, t)
    case CommitCreate(_) =>
      if !g.create || !g.stage.Validated? || g.wanted.None? then s
      else if g.user in s.policies then End(s, t)
      else End(s, t).(policies := s.policies[g.user := g.wanted.value])
    case LockPolicy(_) =>
      if g.create || !g.stage.Validated? then s
      else if g.user !in s.policies then End(s, t)
      else if !PolicyRowFree(s, g.user) then s
      else SetGrant(s, t, g.(stage := Writing(if g.wanted.Some? then g.wanted.value else s.policies[g.user])))
    case CommitUpdate(_) =>
      if !g.stage.Writing? then s else End(s, t).(policies := s.policies[g.user := g.stage.scopes])
    case AbortGrant(_) => End(s, t)
    case _ => s
  }

  /** The emptiness check of a url removal: its own deletes are gone, everyone else's are not yet. */
  ghost predicate LeavesScopeEmpty(routes: map<Url, Scope>, taken: set<Url>, scope: Scope) {
    forall url :: MapsTo(routes, url, scope) ==> url in taken
  }

  function UsersOf(s: Store, scope: Scope): set<User> {
    set user | user in s.policies && scope in s.policies[user]
  }

  function Stripped(policies: map<User, set<Scope>>, users: set<User>, scope: Scope): map<User, set<Scope>> {
    map user | user in policies :: if user in users then policies[user] - {scope} else policies[user]
  }

  ghost function RemovalStep(s: Store, a: Action, r: Removal): Store {
    match a
    case DeleteRow(url) =>
      if r.stage.Deleting? && url in r.targets && url in s.routes && !RouteRowShared(s, url)
      then s.(removal := Some(r.(taken := r.taken + {url}))) else s
    case CheckAndStrip =>
      if !r.stage.Deleting? || r.targets != r.taken then s
      else if r.single && (r.scope == PUBLIC || !LeavesScopeEmpty(s.routes, r.taken, r.scope))
      then s.(removal := Some(r.(stage := Unneeded)))
      else s.(removal := Some(r.(stage := Stripping(UsersOf(s, r.scope), {}))))
    case StripRow(user) =>
      if r.stage.Stripping? && user in r.stage.users && user in UsersOf(s, r.scope) && PolicyRowFree(s, user)
      then s.(removal := Some(r.(stage := r.stage.(stripped := r.stage.stripped + {user})))) else s
    case SkipRow(user) =>
      if r.stage.Stripping? && user !in UsersOf(s, r.scope)
      then s.(removal := Some(r.(stage := r.stage.(users := r.stage.users - {user})))) else s
    case CommitRemoval =>
      if r.stage.Unneeded? then s.(routes := s.routes - r.taken, removal := None)
      else if r.stage.Stripping? && r.stage.users <= r.stage.stripped then
        s.(routes := s.routes - r.taken, removal := None,
           policies := Stripped(s.policies, r.stage.stripped, r.scope))
      else s
    case AbortRemoval => s.(removal := None)
    case _ => s
  }

  function UrlsOf(s: Store, scope: Scope): set<Url> {
    set url | url in s.routes && s.routes[url] == scope
  }

  /** A deleted row leaves the reach of a cascade, whose UPDATE has no later row of the same user in its snapshot. */
  function PolicyDeleted(s: Store, user: User): Store {
    var v := s.(policies := s.policies - {user});
    if s.removal.Some? && s.removal.value.stage.Stripping?
    then v.(removal := Some(s.removal.value.(stage := s.removal.value.stage.(users := s.removal.value.stage.users - {user}))))
    else v
  }

  ghost function Step(s: Store, a: Action): Store {
    match a
    case BeginCreate(t, user, scopes) =>
      if t in s.grants then s else SetGrant(s, t, Grant(true, user, Some(scopes), {}, Validating))
    case BeginUpdate(t, user, wanted) =>
      if t in s.grants then s else SetGrant(s, t, Grant(false, user, wanted, {}, Validating))
    case AddUrl(url, scope) => if url in s.routes then s else s.(routes := s.routes[url := scope])
    case UnpinPublic(url) =>
      if s.removal.None? && MapsTo(s.routes, url, PUBLIC) then s.(routes := s.routes - {url}) else s
    case DeletePolicy(user) => if PolicyRowFree(s, user) then PolicyDeleted(s, user) else s
    case BeginRemoveScope(scope) =>
      if s.removal.Some? || scope == PUBLIC then s
      else s.(removal := Some(Removal(false, scope, UrlsOf(s, scope), {}, Deleting)))
    case BeginRemoveUrl(url) =>
      if s.removal.Some? || url !in s.routes then s
      else s.(removal := Some(Removal(true, s.routes[url], {url}, {}, Deleting)))
    case DeleteRow(_) => if s.removal.Some? then RemovalStep(s, a, s.removal.value) else s
    case CheckAndStrip => if s.removal.Some? then RemovalStep(s, a, s.removal.value) else s
    case StripRow(_) => if s.removal.Some? then RemovalStep(s, a, s.removal.value) else s
    case SkipRow(_) => if s.removal.Some? then RemovalStep(s, a, s.removal.value) else s
    case CommitRemoval => if s.removal.Some? then RemovalStep(s, a, s.removal.value) else s
    case AbortRemoval => if s.removal.Some? then RemovalStep(s, a, s.removal.value) else s
    case _ => if a.txn in s.grants then GrantStep(s, a, a.txn, s.grants[a.txn]) else s
  }

  // What every interleaving keeps.

  /** The route row `url` carries `scope` and no removal has taken it. */
  predicate Kept(s: Store, url: Url, scope: Scope) {
    MapsTo(s.routes, url, scope) && url !in Taken(s)
  }

  ghost predicate KeptBacked(s: Store, scope: Scope) {
    scope != PUBLIC && exists url :: Kept(s, url, scope)
  }

  /** A validated grant pins a live row for each scope it asks for. */
  ghost predicate Pinned(s: Store, g: Grant) {
    forall scope :: g.wanted.Some? && scope in g.wanted.value && scope != WILDCARD ==>
      scope != PUBLIC && exists url :: url in g.share && Kept(s, url, scope)
  }

  ghost predicate GrantHolds(s: Store, g: Grant) {
    && (forall url :: url in g.share ==> url in s.routes && s.routes[url] != PUBLIC && url !in Taken(s))
    && (g.create ==> g.wanted.Some? && !g.stage.Writing?)
    && (!g.stage.Validating? ==> Pinned(s, g))
    && (g.stage.Writing? ==>
          && g.user in s.policies
          && g.stage.scopes == (if g.wanted.Some? then g.wanted.value else s.policies[g.user]))
  }

  ghost predicate RowsExclusive(s: Store) {
    && (forall t, u :: t in s.grants && u in s.grants && s.grants[t].stage.Writing? && s.grants[u].stage.Writing? ==>
          s.grants[t].user == s.grants[u].user ==> t == u)
    && (forall t :: t in s.grants && s.grants[t].stage.Writing? && s.removal.Some? && s.removal.value.stage.Stripping? ==>
          s.grants[t].user !in s.removal.value.stage.stripped)
  }

  ghost predicate RemovalHolds(s: Store, r: Removal) {
    && r.taken <= r.targets
    && (forall url :: url in r.targets ==> MapsTo(s.routes, url, r.scope))
    && (r.stage.Unneeded? ==> r.scope == PUBLIC || KeptBacked(s, r.scope))
    && (r.stage.Stripping? ==> forall user :: user in UsersOf(s, r.scope) ==>
          user in r.stage.users || r.scope == WILDCARD || KeptBacked(s, r.scope))
  }

  ghost predicate Invariant(s: Store) {
    && Safe(s.routes, s.policies)
    && (forall t :: t in s.grants ==> GrantHolds(s, s.grants[t]))
    && RowsExclusive(s)
    && (s.removal.Some? ==> RemovalHolds(s, s.removal.value))
  }

  /** Every route row `before` keeps, `after` keeps. */
  ghost predicate KeepsRows(before: Store, after: Store) {
    forall url, scope :: Kept(before, url, scope) ==> Kept(after, url, scope)
  }

  lemma KeptRowsStayPinned(before: Store, after: Store, g: Grant)
    requires KeepsRows(before, after) && Pinned(before, g)
    ensures Pinned(after, g)
  {
    forall scope | g.wanted.Some? && scope in g.wanted.value && scope != WILDCARD
      ensures exists url :: url in g.share && Kept(after, url, scope)
    {
      var url :| url in g.share && Kept(before, url, scope);
      assert Kept(after, url, scope);
    }
  }

  lemma KeptRowsStayBacked(before: Store, after: Store, scope: Scope)
    requires KeepsRows(before, after) && KeptBacked(before, scope)
    ensures KeptBacked(after, scope)
  {
    var url :| Kept(before, url, scope);
    assert Kept(after, url, scope);
  }

  lemma KeptIsBacked(s: Store, scope: Scope)
    requires KeptBacked(s, scope)
    ensures Backed(s.routes, scope)
  {
    var url :| Kept(s, url, scope);
    assert MapsTo(s.routes, url, scope);
  }

  lemma PinnedIsBacked(s: Store, g: Grant, scope: Scope)
    requires Pinned(s, g) && g.wanted.Some? && scope in g.wanted.value && scope != WILDCARD
    ensures KeptBacked(s, scope) && Backed(s.routes, scope)
  {
    var url :| url in g.share && Kept(s, url, scope);
    KeptIsBacked(s, scope);
  }

  lemma ValidatedRowsPin(s: Store, g: Grant, rows: set<Url>)
    requires g.wanted.Some? && Lockable(s, g, rows) && AllLive(s, g.wanted.value, rows)
    ensures Pinned(s, g.(share := rows, stage := Validated))
  {
    forall scope | scope in g.wanted.value && scope != WILDCARD
      ensures scope != PUBLIC && exists url :: url in rows && Kept(s, url, scope)
    {
      var url :| url in rows && MapsTo(s.routes, url, scope);
      assert Kept(s, url, scope);
    }
  }

  /** A grant's own steps before it commits leave the tables alone. */
  lemma GrantChangeKeeps(s: Store, t: Txn, g: Grant)
    requires Invariant(s) && GrantHolds(s, g)
    requires g.stage.Writing? ==> PolicyRowFree(s, g.user)
    ensures Invariant(SetGrant(s, t, g))
  {
    var v := SetGrant(s, t, g);
    forall u | u in v.grants
      ensures GrantHolds(v, v.grants[u])
    {
      assert KeepsRows(s, v);
      if !v.grants[u].stage.Validating? {
        KeptRowsStayPinned(s, v, v.grants[u]);
      }
    }
    RemovalUntouched(s, v);
  }

  lemma GrantEndKeeps(s: Store, t: Txn)
    requires Invariant(s)
    ensures Invariant(End(s, t))
  {
    var v := End(s, t);
    forall u | u in v.grants
      ensures GrantHolds(v, v.grants[u])
    {
      assert KeepsRows(s, v);
      if !v.grants[u].stage.Validating? {
        KeptRowsStayPinned(s, v, v.grants[u]);
      }
    }
    RemovalUntouched(s, v);
  }

  lemma RemovalUntouched(s: Store, v: Store)
    requires s.removal.Some? ==> RemovalHolds(s, s.removal.value)
    requires s.routes == v.routes && s.policies == v.policies && s.removal == v.removal
    ensures v.removal.Some? ==> RemovalHolds(v, v.removal.value)
  {
    if s.removal.Some? && KeptBacked(s, s.removal.value.scope) {
      assert KeepsRows(s, v);
      KeptRowsStayBacked(s, v, s.removal.value.scope);
    }
  }

  /** Committing a pinned set of scopes, or the very scopes the row already has. */
  lemma PolicyWriteKeeps(s: Store, g: Grant, scopes: set<Scope>)
    requires Invariant(s)
    requires forall t :: t in s.grants ==> !(s.grants[t].stage.Writing? && s.grants[t].user == g.user)
    requires (g.wanted.Some? && scopes == g.wanted.value && Pinned(s, g))
          || (g.user in s.policies && scopes == s.policies[g.user])
    ensures Invariant(s.(policies := s.policies[g.user := scopes]))
  {
    var v := s.(policies := s.policies[g.user := scopes]);
    forall user, scope | user in v.policies && scope in v.policies[user] && scope != WILDCARD
      ensures Backed(v.routes, scope)
    {
      if user == g.user && !(g.user in s.policies && scopes == s.policies[g.user]) {
        PinnedIsBacked(s, g, scope);
      }
    }
    assert KeepsRows(s, v);
    forall u | u in v.grants
      ensures GrantHolds(v, v.grants[u])
    {
      if !v.grants[u].stage.Validating? {
        KeptRowsStayPinned(s, v, v.grants[u]);
      }
    }
    if s.removal.Some? {
      var r := s.removal.value;
      if KeptBacked(s, r.scope) {
        KeptRowsStayBacked(s, v, r.scope);
      } else if r.stage.Stripping? {
        forall user | user in UsersOf(v, r.scope)
          ensures user in r.stage.users || r.scope == WILDCARD || KeptBacked(v, r.scope)
        {
          if user == g.user && user !in UsersOf(s, r.scope) && r.scope != WILDCARD {
            PinnedIsBacked(s, g, r.scope);
          }
        }
      }
    }
  }

  lemma CommitKeeps(s: Store, a: Action, t: Txn)
    requires Invariant(s) && t in s.grants && (a.CommitCreate? || a.CommitUpdate?)
    ensures Invariant(GrantStep(s, a, t, s.grants[t]))
  {
    var g := s.grants[t];
    GrantEndKeeps(s, t);
    if a.CommitCreate? && g.create && g.stage.Validated? && g.user !in s.policies {
      KeptRowsStayPinned(s, End(s, t), g);
      PolicyWriteKeeps(End(s, t), g, g.wanted.value);
    } else if a.CommitUpdate? && g.stage.Writing? {
      KeptRowsStayPinned(s, End(s, t), g);
      PolicyWriteKeeps(End(s, t), g, g.stage.scopes);
    }
  }

  lemma GrantStepKeeps(s: Store, a: Action, t: Txn)
    requires Invariant(s) && t in s.grants
    ensures Invariant(GrantStep(s, a, t, s.grants[t]))
  {
    var g := s.grants[t];
    match a
    case LockScopes(_, rows) =>
      if g.stage.Validating? {
        if g.wanted.None? {
          GrantChangeKeeps(s, t, g.(stage := Validated));
        } else if Lockable(s, g, rows) {
          if AllLive(s, g.wanted.value, rows) {
            ValidatedRowsPin(s, g, rows);
            GrantChangeKeeps(s, t, g.(share := rows, stage := Validated));
          } else {
            GrantEndKeeps(s, t);
          }
        }
      }
    case LockPolicy(_) =>
      GrantEndKeeps(s, t);
      if !g.create && g.stage.Validated? && g.user in s.policies && PolicyRowFree(s, g.user) {
        GrantChangeKeeps(s, t, g.(stage := Writing(if g.wanted.Some? then g.wanted.value else s.policies[g.user])));
      }
    case AbortGrant(_) => GrantEndKeeps(s, t);
    case CommitCreate(_) => CommitKeeps(s, a, t);
    case CommitUpdate(_) => CommitKeeps(s, a, t);
    case _ =>
  }

  // The steps of a removal.

  lemma GrantsKept(s: Store, v: Store)
    requires forall t :: t in s.grants ==> GrantHolds(s, s.grants[t])
    requires KeepsRows(s, v) && s.grants == v.grants && s.policies == v.policies
    requires forall t, url :: t in s.grants && url in s.grants[t].share ==>
               url in s.routes && MapsTo(v.routes, url, s.routes[url]) && url !in Taken(v)
    ensures forall t :: t in v.grants ==> GrantHolds(v, v.grants[t])
  {
    forall t | t in v.grants && !v.grants[t].stage.Validating?
      ensures Pinned(v, v.grants[t])
    {
      KeptRowsStayPinned(s, v, v.grants[t]);
    }
  }

  /** A row under a share lock is not deleted, so what a grant pinned stays pinned. */
  lemma DeleteRowKeeps(s: Store, url: Url)
    requires Invariant(s) && s.removal.Some?
    ensures Invariant(RemovalStep(s, DeleteRow(url), s.removal.value))
  {
    var v := RemovalStep(s, DeleteRow(url), s.removal.value);
    forall t | t in v.grants && !v.grants[t].stage.Validating?
      ensures Pinned(v, v.grants[t])
    {
      var g := v.grants[t];
      forall scope | g.wanted.Some? && scope in g.wanted.value && scope != WILDCARD
        ensures exists row :: row in g.share && Kept(v, row, scope)
      {
        var row :| row in g.share && Kept(s, row, scope);
        assert Kept(v, row, scope);
      }
    }
  }

  /** When the cascade starts, every policy that lists the scope is in its reach, unless a kept row backs it. */
  lemma CheckAndStripKeeps(s: Store)
    requires Invariant(s) && s.removal.Some?
    ensures Invariant(RemovalStep(s, CheckAndStrip, s.removal.value))
  {
    var r := s.removal.value;
    var v := RemovalStep(s, CheckAndStrip, r);
    assert KeepsRows(s, v);
    GrantsKept(s, v);
    if v.removal.value.stage.Unneeded? && r.scope != PUBLIC {
      if KeptBacked(s, r.scope) {
        KeptRowsStayBacked(s, v, r.scope);
      } else {
        var url :| MapsTo(s.routes, url, r.scope) && url !in r.taken;
        assert Kept(v, url, r.scope);
      }
    }
  }

  lemma StripStepKeeps(s: Store, a: Action)
    requires Invariant(s) && s.removal.Some? && (a.StripRow? || a.SkipRow?)
    ensures Invariant(RemovalStep(s, a, s.removal.value))
  {
    var v := RemovalStep(s, a, s.removal.value);
    assert KeepsRows(s, v);
    GrantsKept(s, v);
    if KeptBacked(s, s.removal.value.scope) {
      KeptRowsStayBacked(s, v, s.removal.value.scope);
    }
  }

  /** The commit: what it deletes, no policy it leaves alone still needs. */
  lemma CommitRemovalIsSafe(s: Store)
    requires Invariant(s) && s.removal.Some?
    ensures var v := RemovalStep(s, CommitRemoval, s.removal.value); Safe(v.routes, v.policies) && KeepsRows(s, v)
  {
    var r := s.removal.value;
    var v := RemovalStep(s, CommitRemoval, r);
    assert KeepsRows(s, v);
    forall user, scope | user in v.policies && scope in v.policies[user] && scope != WILDCARD
      ensures Backed(v.routes, scope)
    {
      assert user in s.policies && scope in s.policies[user];
      assert Backed(s.routes, scope);
      var url :| MapsTo(s.routes, url, scope);
      if v != s {
        if scope != r.scope {
          assert Kept(v, url, scope);
        } else {
          assert user in UsersOf(s, scope);
          KeptRowsStayBacked(s, v, scope);
        }
        KeptIsBacked(v, scope);
      }
    }
  }

  lemma CommitRemovalKeeps(s: Store)
    requires Invariant(s) && s.removal.Some?
    ensures Invariant(RemovalStep(s, CommitRemoval, s.removal.value))
  {
    var v := RemovalStep(s, CommitRemoval, s.removal.value);
    CommitRemovalIsSafe(s);
    forall t | t in v.grants
      ensures GrantHolds(v, v.grants[t])
    {
      if !v.grants[t].stage.Validating? {
        KeptRowsStayPinned(s, v, v.grants[t]);
      }
    }
  }

  lemma RemovalStepKeeps(s: Store, a: Action)
    requires Invariant(s) && s.removal.Some?
    ensures Invariant(RemovalStep(s, a, s.removal.value))
  {
    match a
    case DeleteRow(url) => DeleteRowKeeps(s, url);
    case CheckAndStrip => CheckAndStripKeeps(s);
    case StripRow(_) => StripStepKeeps(s, a);
    case SkipRow(_) => StripStepKeeps(s, a);
    case CommitRemoval => CommitRemovalKeeps(s);
    case AbortRemoval =>
      assert KeepsRows(s, s.(removal := None));
      GrantsKept(s, s.(removal := None));
    case _ =>
  }

  // The steps of neither.

  lemma AddUrlKeeps(s: Store, url: Url, scope: Scope)
    requires Invariant(s) && url !in s.routes
    ensures Invariant(s.(routes := s.routes[url := scope]))
  {
    var v := s.(routes := s.routes[url := scope]);
    assert KeepsRows(s, v);
    GrantsKept(s, v);
    forall user, name | user in v.policies && name in v.policies[user] && name != WILDCARD
      ensures Backed(v.routes, name)
    {
      assert Backed(s.routes, name);
      var row :| MapsTo(s.routes, row, name);
      assert MapsTo(v.routes, row, name);
    }
    if s.removal.Some? && KeptBacked(s, s.removal.value.scope) {
      KeptRowsStayBacked(s, v, s.removal.value.scope);
    }
  }

  lemma UnpinKeeps(s: Store, url: Url)
    requires Invariant(s) && s.removal.None? && MapsTo(s.routes, url, PUBLIC)
    ensures Invariant(s.(routes := s.routes - {url}))
  {
    var v := s.(routes := s.routes - {url});
    forall user, name | user in v.policies && name in v.policies[user] && name != WILDCARD
      ensures Backed(v.routes, name)
    {
      assert Backed(s.routes, name);
      var row :| MapsTo(s.routes, row, name);
      assert MapsTo(v.routes, row, name);
    }
    forall t | t in v.grants
      ensures GrantHolds(v, v.grants[t])
    {
      assert url !in v.grants[t].share;
    }
  }

  lemma DeletePolicyKeeps(s: Store, user: User)
    requires Invariant(s) && PolicyRowFree(s, user)
    ensures Invariant(PolicyDeleted(s, user))
  {
    var v := PolicyDeleted(s, user);
    assert KeepsRows(s, v);
    forall t | t in v.grants
      ensures GrantHolds(v, v.grants[t])
    {
      if !v.grants[t].stage.Validating? {
        KeptRowsStayPinned(s, v, v.grants[t]);
      }
    }
    if s.removal.Some? {
      forall other | other in UsersOf(v, s.removal.value.scope)
        ensures other in UsersOf(s, s.removal.value.scope) && other != user
      {
      }
      if KeptBacked(s, s.removal.value.scope) {
        KeptRowsStayBacked(s, v, s.removal.value.scope);
      }
    }
  }

  lemma BeginRemovalKeeps(s: Store, r: Removal)
    requires Invariant(s) && s.removal.None? && r.taken == {} && r.stage.Deleting?
    requires forall url :: url in r.targets ==> MapsTo(s.routes, url, r.scope)
    ensures Invariant(s.(removal := Some(r)))
  {
    var v := s.(removal := Some(r));
    assert KeepsRows(s, v);
    GrantsKept(s, v);
  }

  predicate OfRemoval(a: Action) {
    a.DeleteRow? || a.CheckAndStrip? || a.StripRow? || a.SkipRow? || a.CommitRemoval? || a.AbortRemoval?
  }

  predicate Begins(a: Action) {
    a.BeginCreate? || a.BeginUpdate? || a.BeginRemoveScope? || a.BeginRemoveUrl?
  }

  lemma BeginKeeps(s: Store, a: Action)
    requires Invariant(s) && Begins(a)
    ensures Invariant(Step(s, a))
  {
    match a
    case BeginCreate(t, user, scopes) =>
      if t !in s.grants { GrantChangeKeeps(s, t, Grant(true, user, Some(scopes), {}, Validating)); }
    case BeginUpdate(t, user, wanted) =>
      if t !in s.grants { GrantChangeKeeps(s, t, Grant(false, user, wanted, {}, Validating)); }
    case BeginRemoveScope(scope) =>
      if s.removal.None? { BeginRemovalKeeps(s, Removal(false, scope, UrlsOf(s, scope), {}, Deleting)); }
    case BeginRemoveUrl(url) =>
      if s.removal.None? && url in s.routes {
        BeginRemovalKeeps(s, Removal(true, s.routes[url], {url}, {}, Deleting));
      }
  }

  lemma StepKeepsInvariant(s: Store, a: Action)
    requires Invariant(s)
    ensures Invariant(Step(s, a))
  {
    if OfRemoval(a) {
      if s.removal.Some? { RemovalStepKeeps(s, a); }
    } else if Begins(a) {
      BeginKeeps(s, a);
    } else if a.AddUrl? {
      if a.url !in s.routes { AddUrlKeeps(s, a.url, a.scope); }
    } else if a.UnpinPublic? {
      if s.removal.None? && MapsTo(s.routes, a.url, PUBLIC) { UnpinKeeps(s, a.url); }
    } else if a.DeletePolicy? {
      if PolicyRowFree(s, a.user) { DeletePolicyKeeps(s, a.user); }
    } else if a.txn in s.grants {
      GrantStepKeeps(s, a, a.txn);
    }
  }

  ghost function Run(s: Store, actions: seq<Action>): Store
    decreases |actions|
  {
    if actions == [] then s else Run(Step(s, actions[0]), actions[1..])
  }

  lemma {:induction false} RunKeepsInvariant(s: Store, actions: seq<Action>)
    requires Invariant(s)
    ensures Invariant(Run(s, actions))
    decreases |actions|
  {
    if actions != [] {
      StepKeepsInvariant(s, actions[0]);
      RunKeepsInvariant(Step(s, actions[0]), actions[1..]);
    }
  }

  /** In every interleaving of grants, mappings and one removal at a time, every concrete scope a
    * committed policy lists has a committed, non-public route. */
  lemma GrantsNeverOutliveTheirRoutes(actions: seq<Action>, user: User, scope: Scope)
    requires var s := Run(INITIAL, actions); user in s.policies && scope in s.policies[user] && scope != WILDCARD
    ensures scope != PUBLIC && exists url :: MapsTo(Run(INITIAL, actions).routes, url, scope)
  {
    RunKeepsInvariant(INITIAL, actions);
    assert Backed(Run(INITIAL, actions).routes, scope);
  }

  // What is no step above: exactly when it would be safe all the same, and a run that fails it.

  /** A mint of the scope, validated against one of its urls. */
  function Granted(url: Url, scope: Scope, user: User): seq<Action> {
    [BeginCreate(0, user, {scope}), LockScopes(0, {url}), CommitCreate(0)]
  }

  lemma GrantedRuns(routes: map<Url, Scope>, url: Url, scope: Scope, user: User)
    requires MapsTo(routes, url, scope) && scope != PUBLIC && scope != WILDCARD
    ensures Run(INITIAL.(routes := routes), Granted(url, scope, user)) ==
              INITIAL.(routes := routes, policies := map[user := {scope}])
  {
    var actions := Granted(url, scope, user);
    var s0 := INITIAL.(routes := routes);
    var s1 := s0.(grants := map[0 := Grant(true, user, Some({scope}), {}, Validating)]);
    var s2 := s0.(grants := map[0 := Grant(true, user, Some({scope}), {url}, Validated)]);
    var s3 := s0.(policies := map[user := {scope}]);
    assert Step(s0, actions[0]) == s1;
    assert AllLive(s1, {scope}, {url});
    assert Step(s1, actions[1]) == s2;
    assert s2.grants - {0} == map[];
    assert Step(s2, actions[2]) == s3;
    assert s3 == Run(s3, actions[3..]);
    assert s3 == Run(s2, actions[2..]);
    assert s3 == Run(s1, actions[1..]);
  }

  lemma MappingRuns(routes: map<Url, Scope>, url: Url, scope: Scope, rest: seq<Action>)
    requires url !in routes
    ensures Run(INITIAL.(routes := routes), [AddUrl(url, scope)] + rest) ==
              Run(INITIAL.(routes := routes[url := scope]), rest)
  {
    assert ([AddUrl(url, scope)] + rest)[1..] == rest;
  }

  /** The upsert of a mapping, which also re-points a url that is already mapped. */
  function Upsert(routes: map<Url, Scope>, url: Url, scope: Scope): map<Url, Scope> {
    routes[url := scope]
  }

  predicate Listed(policies: map<User, set<Scope>>, scope: Scope) {
    exists user :: user in policies && scope in policies[user]
  }

  /** Re-pointing a url keeps the tables safe exactly when its old scope has another url, or no policy lists it. */
  lemma UpsertSafety(routes: map<Url, Scope>, policies: map<User, set<Scope>>, url: Url, scope: Scope)
    requires Safe(routes, policies) && url in routes && routes[url] != scope && routes[url] != WILDCARD
    ensures Safe(Upsert(routes, url, scope), policies) <==>
              || (exists other :: other != url && MapsTo(routes, other, routes[url]))
              || !Listed(policies, routes[url])
  {
    var former := routes[url];
    var after := Upsert(routes, url, scope);
    forall name | name != former && Backed(routes, name)
      ensures Backed(after, name)
    {
      var row :| MapsTo(routes, row, name);
      assert MapsTo(after, row, name);
    }
    if other :| other != url && MapsTo(routes, other, former) {
      assert MapsTo(after, other, former);
    }
    if Safe(after, policies) && Listed(policies, former) {
      var user :| user in policies && former in policies[user];
      assert Backed(after, former);
      var row :| MapsTo(after, row, former);
      assert MapsTo(routes, row, former);
    }
    if !Safe(after, policies) {
      var user, name :| user in policies && name in policies[user] && name != WILDCARD && !Backed(after, name);
      assert Backed(routes, name);
    }
  }

  /** A scope mapped to one url and granted. */
  function OneUrl(url: Url, scope: Scope, user: User): seq<Action> {
    [AddUrl(url, scope)] + Granted(url, scope, user)
  }

  /** Re-pointing that url then leaves a policy with a scope no route carries. */
  lemma UpsertLosesARoute(url: Url, scope: Scope, other: Scope, user: User)
    requires scope != PUBLIC && scope != WILDCARD && other != scope
    ensures var s := Run(INITIAL, OneUrl(url, scope, user));
            Safe(s.routes, s.policies) && !Safe(Upsert(s.routes, url, other), s.policies)
  {
    var s := Run(INITIAL, OneUrl(url, scope, user));
    MappingRuns(map[], url, scope, Granted(url, scope, user));
    GrantedRuns(map[url := scope], url, scope, user);
    RunKeepsInvariant(INITIAL, OneUrl(url, scope, user));
    assert user in s.policies && scope in s.policies[user];
    UpsertSafety(s.routes, s.policies, url, other);
  }

  /** Two removals in flight do not see each other's delete, so both can find the scope still in use;
    * committing both is then safe exactly when a third url is left, or no policy lists the scope. */
  lemma ConcurrentRemovalsSafety(routes: map<Url, Scope>, policies: map<User, set<Scope>>,
                                 first: Url, second: Url, scope: Scope)
    requires Safe(routes, policies) && first != second && scope != WILDCARD && scope != PUBLIC
    requires MapsTo(routes, first, scope) && MapsTo(routes, second, scope)
    ensures !LeavesScopeEmpty(routes, {first}, scope) && !LeavesScopeEmpty(routes, {second}, scope)
    ensures Safe(routes - {first, second}, policies) <==>
              || (exists third :: third !in {first, second} && MapsTo(routes, third, scope))
              || !Listed(policies, scope)
  {
    var after := routes - {first, second};
    forall name | name != scope && Backed(routes, name)
      ensures Backed(after, name)
    {
      var row :| MapsTo(routes, row, name);
      assert MapsTo(after, row, name);
    }
    if third :| third !in {first, second} && MapsTo(routes, third, scope) {
      assert MapsTo(after, third, scope);
    }
    if Safe(after, policies) && Listed(policies, scope) {
      var user :| user in policies && scope in policies[user];
      assert Backed(after, scope);
      var row :| MapsTo(after, row, scope);
      assert MapsTo(routes, row, scope);
    }
    if !Safe(after, policies) {
      var user, name :| user in policies && name in policies[user] && name != WILDCARD && !Backed(after, name);
      assert Backed(routes, name);
    }
  }

  /** A scope mapped to two urls and granted. */
  function TwoUrls(first: Url, second: Url, scope: Scope, user: User): seq<Action> {
    [AddUrl(first, scope)] + ([AddUrl(second, scope)] + Granted(first, scope, user))
  }

  /** Removing both at once then leaves a policy with a scope no route carries. */
  lemma ConcurrentRemovalsLoseARoute(first: Url, second: Url, scope: Scope, user: User)
    requires scope != PUBLIC && scope != WILDCARD && first != second
    ensures var s := Run(INITIAL, TwoUrls(first, second, scope, user));
            && Safe(s.routes, s.policies)
            && !LeavesScopeEmpty(s.routes, {first}, scope) && !LeavesScopeEmpty(s.routes, {second}, scope)
            && !Safe(s.routes - {first, second}, s.policies)
  {
    var s := Run(INITIAL, TwoUrls(first, second, scope, user));
    MappingRuns(map[], first, scope, [AddUrl(second, scope)] + Granted(first, scope, user));
    MappingRuns(map[first := scope], second, scope, Granted(first, scope, user));
    GrantedRuns(map[first := scope][second := scope], first, scope, user);
    RunKeepsInvariant(INITIAL, TwoUrls(first, second, scope, user));
    assert user in s.policies && scope in s.policies[user];
    ConcurrentRemovalsSafety(s.routes, s.policies, first, second, scope);
  }

  // A url removal reads the scope of the url before it deletes the row by url.

  function DeletedRow(routes: map<Url, Scope>, url: Url): map<Url, Scope> {
    routes - {url}
  }

  function Listing(policies: map<User, set<Scope>>, scope: Scope): set<User> {
    set user | user in policies && scope in policies[user]
  }

  /** The policies after the delete: the scope that was read is stripped if it has no row left, whatever scope the
    * row had by then. */
  ghost function AfterDelete(routes: map<Url, Scope>, policies: map<User, set<Scope>>, url: Url, read: Scope)
    : map<User, set<Scope>>
  {
    if read != PUBLIC && LeavesScopeEmpty(routes, {url}, read) then Stripped(policies, Listing(policies, read), read)
    else policies
  }

  /** If the url may be unmapped and mapped anew between the read and the delete, the removal is safe exactly when the
    * row still has the scope that was read, or its scope has another url, or no policy lists its scope. */
  lemma UnpinnedRemovalSafety(routes: map<Url, Scope>, policies: map<User, set<Scope>>, url: Url, read: Scope)
    requires Safe(routes, policies) && url in routes && routes[url] != WILDCARD
    ensures Safe(DeletedRow(routes, url), AfterDelete(routes, policies, url, read)) <==>
              || routes[url] == read
              || (exists other :: other != url && MapsTo(routes, other, routes[url]))
              || !Listed(policies, routes[url])
  {
    var lost, after, left := routes[url], DeletedRow(routes, url), AfterDelete(routes, policies, url, read);
    forall name | name != lost && Backed(routes, name)
      ensures Backed(after, name)
    {
      var row :| MapsTo(routes, row, name);
      assert MapsTo(after, row, name);
    }
    if other :| other != url && MapsTo(routes, other, lost) {
      assert MapsTo(after, other, lost);
    }
    if Safe(after, left) && Listed(policies, lost) && lost != read {
      var user :| user in policies && lost in policies[user];
      assert user in left && lost in left[user];
      assert Backed(after, lost);
      var row :| MapsTo(after, row, lost);
      assert MapsTo(routes, row, lost);
    }
    if !Safe(after, left) {
      var user, name :| user in left && name in left[user] && name != WILDCARD && !Backed(after, name);
      assert user in policies && name in policies[user];
      assert Backed(routes, name);
      assert lost == read ==> user in Listing(policies, read);
    }
  }

  /** A run that gets there: the url is public when the removal reads it, then unpinned, mapped to a scope, and the
    * scope granted. */
  function PinnedUrl(url: Url): seq<Action> {
    [AddUrl(url, PUBLIC)]
  }

  function Remapped(url: Url, scope: Scope, user: User): seq<Action> {
    [UnpinPublic(url), AddUrl(url, scope)] + Granted(url, scope, user)
  }

  lemma PinnedUrlReads(url: Url)
    ensures Run(INITIAL, PinnedUrl(url)) == INITIAL.(routes := map[url := PUBLIC])
  {
    var s := Step(INITIAL, PinnedUrl(url)[0]);
    assert s == Run(s, PinnedUrl(url)[1..]);
  }

  lemma RemappedRuns(url: Url, scope: Scope, user: User)
    requires scope != PUBLIC && scope != WILDCARD
    ensures Run(INITIAL.(routes := map[url := PUBLIC]), Remapped(url, scope, user)) ==
              INITIAL.(routes := map[url := scope], policies := map[user := {scope}])
  {
    var actions := Remapped(url, scope, user);
    var s := INITIAL.(routes := map[url := PUBLIC]);
    var mapped := INITIAL.(routes := map[url := scope]);
    assert MapsTo(s.routes, url, PUBLIC) && s.routes - {url} == map[];
    assert Step(s, actions[0]) == INITIAL;
    assert Step(INITIAL, actions[1]) == mapped;
    assert actions[1..][1..] == Granted(url, scope, user);
    assert Run(s, actions) == Run(INITIAL, actions[1..]) == Run(mapped, Granted(url, scope, user));
    GrantedRuns(map[url := scope], url, scope, user);
  }

  /** After it, the delete of the removal leaves a policy with a scope no route carries. */
  lemma UnpinnedRemovalLosesARoute(url: Url, scope: Scope, user: User)
    requires scope != PUBLIC && scope != WILDCARD
    ensures var read := Run(INITIAL, PinnedUrl(url)).routes;
            && url in read && read[url] == PUBLIC
            && var s := Run(Run(INITIAL, PinnedUrl(url)), Remapped(url, scope, user));
               Safe(s.routes, s.policies) && !Safe(DeletedRow(s.routes, url), AfterDelete(s.routes, s.policies, url, read[url]))
  {
    PinnedUrlReads(url);
    RemappedRuns(url, scope, user);
    var s := Run(Run(INITIAL, PinnedUrl(url)), Remapped(url, scope, user));
    RunKeepsInvariant(INITIAL, PinnedUrl(url));
    RunKeepsInvariant(Run(INITIAL, PinnedUrl(url)), Remapped(url, scope, user));
    assert user in s.policies && scope in s.policies[user];
    UnpinnedRemovalSafety(s.routes, s.policies, url, PUBLIC);
  }

  /** What a cascading removal commits: its rows are gone, the scope is gone from every policy in its reach that no
    * later route backs, and nothing else has changed. */
  lemma CommittedRemovalRemoves(s: Store, user: User, url: Url)
    requires Invariant(s) && s.removal.Some? && s.removal.value.stage.Stripping?
    requires s.removal.value.targets == s.removal.value.taken
    requires s.removal.value.stage.users <= s.removal.value.stage.stripped
    ensures var r, v := s.removal.value, Step(s, CommitRemoval);
            && (url in v.routes <==> url in s.routes && url !in r.targets)
            && (url in v.routes ==> v.routes[url] == s.routes[url])
            && (user in v.policies <==> user in s.policies)
            && (user in v.policies && r.scope in v.policies[user] && r.scope != WILDCARD ==> KeptBacked(s, r.scope))
            && (forall scope :: user in v.policies && scope != r.scope ==>
                  (scope in v.policies[user] <==> scope in s.policies[user]))
  {
    var r := s.removal.value;
    if user in s.policies && r.scope in s.policies[user] {
      assert user in UsersOf(s, r.scope);
    }
  }
  // What each step does to the two tables.

  function RowOf(s: Store, user: User): Option<set<Scope>> {
    if user in s.policies then Some(s.policies[user]) else None
  }

  /** Committing an edit that holds the row lock: the scopes asked for, or, if it leaves them alone, the row's own. */
  predicate CommitsEdit(s: Store, a: Action, user: User) {
    a.CommitUpdate? && a.txn in s.grants && s.grants[a.txn].stage.Writing? && s.grants[a.txn].user == user
  }

  /** Committing a validated mint for a user with no policy. */
  predicate CommitsMint(s: Store, a: Action, user: User) {
    && a.CommitCreate? && a.txn in s.grants && s.grants[a.txn].create && s.grants[a.txn].stage.Validated?
    && s.grants[a.txn].user == user && user !in s.policies
  }

  /** Committing a removal that found its scope in use, or has stripped every row in its reach. */
  predicate CommitsRemoval(s: Store, a: Action) {
    && a.CommitRemoval? && s.removal.Some?
    && (s.removal.value.stage.Unneeded?
        || (s.removal.value.stage.Stripping? && s.removal.value.stage.users <= s.removal.value.stage.stripped))
  }

  predicate Strips(s: Store, a: Action, user: User) {
    CommitsRemoval(s, a) && s.removal.value.stage.Stripping? && user in s.removal.value.stage.stripped
  }

  /** A user's row after a step: only the commits of its own edit or mint, its deletion and a cascade that rewrote it
    * change it, each to what was asked for and nothing else. */
  lemma PolicyRowStep(s: Store, a: Action, user: User)
    requires Invariant(s)
    ensures RowOf(Step(s, a), user) ==
              if CommitsEdit(s, a, user) then
                Some(if s.grants[a.txn].wanted.Some? then s.grants[a.txn].wanted.value else s.policies[user])
              else if CommitsMint(s, a, user) then s.grants[a.txn].wanted
              else if a == DeletePolicy(user) && PolicyRowFree(s, user) then None
              else if Strips(s, a, user) && user in s.policies then Some(s.policies[user] - {s.removal.value.scope})
              else RowOf(s, user)
  {
    if a.CommitUpdate? && a.txn in s.grants {
      assert GrantHolds(s, s.grants[a.txn]);
    } else if a.CommitCreate? && a.txn in s.grants {
      assert GrantHolds(s, s.grants[a.txn]);
    }
  }

  /** A url's mapping after a step: an unmapped url takes a mapping, a public pin is lifted while no removal is in
    * flight, and a removal's commit takes its rows. */
  lemma RouteRowStep(s: Store, a: Action, url: Url)
    requires Invariant(s)
    ensures var v := Step(s, a);
            if a.AddUrl? && a.url == url && url !in s.routes then MapsTo(v.routes, url, a.scope)
            else if a == UnpinPublic(url) && s.removal.None? && MapsTo(s.routes, url, PUBLIC) then url !in v.routes
            else if CommitsRemoval(s, a) && url in s.removal.value.taken then url !in v.routes
            else (url in v.routes <==> url in s.routes) && (url in s.routes ==> v.routes[url] == s.routes[url])
  {
  }
  // An edit, from its beginning to its commit, whatever runs in between.

  /** The transaction is begun nowhere in the run. */
  predicate NeverBegun(actions: seq<Action>, t: Txn) {
    forall i :: 0 <= i < |actions| && (actions[i].BeginCreate? || actions[i].BeginUpdate?) ==> actions[i].txn != t
  }

  lemma GrantStays(s: Store, a: Action, t: Txn)
    requires t in Step(s, a).grants && !((a.BeginCreate? || a.BeginUpdate?) && a.txn == t)
    ensures t in s.grants
    ensures var g, h := s.grants[t], Step(s, a).grants[t]; h.user == g.user && h.wanted == g.wanted && h.create == g.create
  {
  }

  lemma {:induction false} GrantStaysInRun(s: Store, actions: seq<Action>, t: Txn)
    requires t in Run(s, actions).grants && NeverBegun(actions, t)
    ensures t in s.grants
    ensures var g, h := s.grants[t], Run(s, actions).grants[t]; h.user == g.user && h.wanted == g.wanted && h.create == g.create
    decreases |actions|
  {
    if actions != [] {
      GrantStaysInRun(Step(s, actions[0]), actions[1..], t);
      GrantStays(s, actions[0], t);
    }
  }

  /** Nobody else changes a row while an edit holds its lock. */
  lemma LockedRowStays(s: Store, a: Action, t: Txn)
    requires Invariant(s) && t in s.grants && s.grants[t].stage.Writing? && a != CommitUpdate(t)
    ensures RowOf(Step(s, a), s.grants[t].user) == RowOf(s, s.grants[t].user)
  {
    PolicyRowStep(s, a, s.grants[t].user);
    assert GrantHolds(s, s.grants[t]);
  }

  /** An edit that begins here and commits after any other steps gives its user the scopes it asked for, or, if it asked
    * for none, leaves the row as it stands then, and it changes no other user's row. */
  lemma EditCommits(s: Store, t: Txn, user: User, wanted: Option<set<Scope>>, between: seq<Action>)
    requires Invariant(s) && t !in s.grants && NeverBegun(between, t)
    requires var v := Run(Step(s, BeginUpdate(t, user, wanted)), between); t in v.grants && v.grants[t].stage.Writing?
    ensures var v := Run(Step(s, BeginUpdate(t, user, wanted)), between);
            var after := Step(v, CommitUpdate(t));
            && user in v.policies
            && RowOf(after, user) == Some(if wanted.Some? then wanted.value else v.policies[user])
            && (forall other :: other != user ==> RowOf(after, other) == RowOf(v, other))
            && t !in after.grants && after.routes == v.routes
  {
    var begun := Step(s, BeginUpdate(t, user, wanted));
    var v := Run(begun, between);
    StepKeepsInvariant(s, BeginUpdate(t, user, wanted));
    RunKeepsInvariant(begun, between);
    GrantStaysInRun(begun, between, t);
    assert GrantHolds(v, v.grants[t]);
    forall other
      ensures other != user ==> RowOf(Step(v, CommitUpdate(t)), other) == RowOf(v, other)
    {
      PolicyRowStep(v, CommitUpdate(t), other);
    }
    PolicyRowStep(v, CommitUpdate(t), user);
  }

  /** And it does get there: with nothing in between, the row free and the rows of the scopes at hand. */
  lemma UndisturbedEdit(s: Store, t: Txn, user: User, wanted: set<Scope>, rows: set<Url>)
    requires t !in s.grants && user in s.policies && PolicyRowFree(s, user)
    requires Lockable(s, Grant(false, user, Some(wanted), {}, Validating), rows) && AllLive(s, wanted, rows)
    ensures Run(s, [BeginUpdate(t, user, Some(wanted)), LockScopes(t, rows), LockPolicy(t), CommitUpdate(t)]) ==
              s.(policies := s.policies[user := wanted])
  {
    var actions := [BeginUpdate(t, user, Some(wanted)), LockScopes(t, rows), LockPolicy(t), CommitUpdate(t)];
    var g := Grant(false, user, Some(wanted), {}, Validating);
    var s1 := SetGrant(s, t, g);
    var s2 := SetGrant(s, t, g.(share := rows, stage := Validated));
    var s3 := SetGrant(s, t, g.(share := rows, stage := Writing(wanted)));
    var s4 := s.(policies := s.policies[user := wanted]);
    assert s1.grants[t := g.(share := rows, stage := Validated)] == s2.grants;
    assert s2.grants[t := g.(share := rows, stage := Writing(wanted))] == s3.grants;
    assert s3.grants - {t} == s.grants;
    assert Step(s, actions[0]) == s1 && Step(s1, actions[1]) == s2 && Step(s2, actions[2]) == s3 && Step(s3, actions[3]) == s4;
    assert s4 == Run(s4, actions[4..]);
    assert s4 == Run(s3, actions[3..]);
    assert s4 == Run(s2, actions[2..]);
    assert s4 == Run(s1, actions[1..]);
  }
  // A removal with nothing in between.

  function Elements<T(==)>(items: seq<T>): set<T> {
    set item | item in items
  }

  function DeleteEach(urls: seq<Url>): seq<Action> {
    seq(|urls|, i requires 0 <= i < |urls| => DeleteRow(urls[i]))
  }

  function StripEach(users: seq<User>): seq<Action> {
    seq(|users|, i requires 0 <= i < |users| => StripRow(users[i]))
  }

  lemma {:induction false} RunConcat(s: Store, first: seq<Action>, second: seq<Action>)
    ensures Run(s, first + second) == Run(Run(s, first), second)
    decreases |first|
  {
    if first == [] {
      assert first + second == second;
    } else {
      assert (first + second)[1..] == first[1..] + second;
      RunConcat(Step(s, first[0]), first[1..], second);
    }
  }

  lemma {:induction false} DeletesRun(s: Store, r: Removal, urls: seq<Url>)
    requires s.grants == map[] && s.removal == Some(r) && r.stage.Deleting?
    requires forall i :: 0 <= i < |urls| ==> urls[i] in r.targets && urls[i] in s.routes
    ensures Run(s, DeleteEach(urls)) == s.(removal := Some(r.(taken := r.taken + Elements(urls))))
    decreases |urls|
  {
    if urls == [] {
      assert r.taken + Elements(urls) == r.taken;
    } else {
      var next := r.(taken := r.taken + {urls[0]});
      assert DeleteEach(urls)[1..] == DeleteEach(urls[1..]);
      assert Step(s, DeleteEach(urls)[0]) == s.(removal := Some(next));
      DeletesRun(s.(removal := Some(next)), next, urls[1..]);
      assert urls == [urls[0]] + urls[1..];
      assert next.taken + Elements(urls[1..]) == r.taken + Elements(urls);
    }
  }

  lemma {:induction false} StripsRun(s: Store, r: Removal, users: seq<User>)
    requires s.grants == map[] && s.removal == Some(r) && r.stage.Stripping?
    requires forall i :: 0 <= i < |users| ==> users[i] in r.stage.users && users[i] in UsersOf(s, r.scope)
    ensures Run(s, StripEach(users)) ==
              s.(removal := Some(r.(stage := r.stage.(stripped := r.stage.stripped + Elements(users)))))
    decreases |users|
  {
    if users == [] {
      assert r.stage.stripped + Elements(users) == r.stage.stripped;
    } else {
      var next := r.(stage := r.stage.(stripped := r.stage.stripped + {users[0]}));
      assert StripEach(users)[1..] == StripEach(users[1..]);
      assert users[0] in r.stage.stripped ==> r.stage.stripped + {users[0]} == r.stage.stripped;
      assert Step(s, StripEach(users)[0]) == s.(removal := Some(next));
      StripsRun(s.(removal := Some(next)), next, users[1..]);
      assert users == [users[0]] + users[1..];
      assert next.stage.stripped + Elements(users[1..]) == r.stage.stripped + Elements(users);
    }
  }

  /** The statements of a scope's removal: its rows one by one, the check, the policies one by one, the commit. */
  function RemovalOf(begin: Action, urls: seq<Url>, users: seq<User>): seq<Action> {
    [begin] + (DeleteEach(urls) + ([CheckAndStrip] + (StripEach(users) + [CommitRemoval])))
  }

  /** What the removal is about, as it begins. */
  lemma RemovalBegins(s: Store, begin: Action, scope: Scope, urls: seq<Url>)
    requires s.removal.None? && scope != PUBLIC
    requires begin == BeginRemoveScope(scope) || (|urls| == 1 && begin == BeginRemoveUrl(urls[0]))
    requires forall url :: url in urls <==> MapsTo(s.routes, url, scope)
    ensures Step(s, begin) == s.(removal := Some(Removal(begin.BeginRemoveUrl?, scope, Elements(urls), {}, Deleting)))
  {
    assert UrlsOf(s, scope) == Elements(urls);
    if |urls| == 1 {
      assert urls[0] in urls && Elements(urls) == {urls[0]};
    }
  }

  lemma StrippedEverywhere(s: Store, scope: Scope)
    ensures Stripped(s.policies, UsersOf(s, scope), scope) == map user | user in s.policies :: s.policies[user] - {scope}
  {
    forall user | user in s.policies
      ensures (if user in UsersOf(s, scope) then s.policies[user] - {scope} else s.policies[user]) == s.policies[user] - {scope}
    {
    }
  }

  /** Run undisturbed, the removal of a scope, or of its last url, takes every row that carries the scope, and the scope
    * out of every policy that lists it, and changes nothing else. */
  lemma UndisturbedRemoval(s: Store, begin: Action, scope: Scope, urls: seq<Url>, users: seq<User>)
    requires s.grants == map[] && s.removal.None? && scope != PUBLIC
    requires begin == BeginRemoveScope(scope) || (|urls| == 1 && begin == BeginRemoveUrl(urls[0]))
    requires forall url :: url in urls <==> MapsTo(s.routes, url, scope)
    requires forall user :: user in users <==> user in s.policies && scope in s.policies[user]
    ensures Run(s, RemovalOf(begin, urls, users)) ==
              s.(routes := s.routes - Elements(urls),
                 policies := map user | user in s.policies :: s.policies[user] - {scope})
  {
    var all, reach := Elements(urls), UsersOf(s, scope);
    var r := Removal(begin.BeginRemoveUrl?, scope, all, {}, Deleting);
    var s1, s2 := s.(removal := Some(r)), s.(removal := Some(r.(taken := all)));
    var s3 := s.(removal := Some(r.(taken := all, stage := Stripping(reach, {}))));
    var s4 := s.(removal := Some(r.(taken := all, stage := Stripping(reach, reach))));
    var v := s.(routes := s.routes - all, policies := Stripped(s.policies, reach, scope));
    RemovalBegins(s, begin, scope, urls);
    assert forall i :: 0 <= i < |urls| ==> urls[i] in urls;
    assert forall i :: 0 <= i < |users| ==> users[i] in users;
    DeletesRun(s1, r, urls);
    assert {} + all == all && {} + Elements(users) == Elements(users) == reach;
    assert Step(s2, CheckAndStrip) == s3;
    StripsRun(s3, s3.removal.value, users);
    assert Step(s4, CommitRemoval) == v;
    StrippedEverywhere(s, scope);
    RemovalPieces(s, s1, s2, s3, s4, v, begin, urls, users);
  }

  lemma RemovalPieces(s: Store, s1: Store, s2: Store, s3: Store, s4: Store, v: Store, begin: Action, urls: seq<Url>,
                      users: seq<User>)
    requires Step(s, begin) == s1 && Run(s1, DeleteEach(urls)) == s2 && Step(s2, CheckAndStrip) == s3
    requires Run(s3, StripEach(users)) == s4 && Step(s4, CommitRemoval) == v
    ensures Run(s, RemovalOf(begin, urls, users)) == v
  {
    var last := StripEach(users) + [CommitRemoval];
    var rest := [CheckAndStrip] + last;
    assert RemovalOf(begin, urls, users)[1..] == DeleteEach(urls) + rest;
    RunConcat(s1, DeleteEach(urls), rest);
    assert rest[1..] == last;
    RunConcat(s3, StripEach(users), [CommitRemoval]);
    assert [CommitRemoval][1..] == [] && Run(v, []) == v;
  }
}
