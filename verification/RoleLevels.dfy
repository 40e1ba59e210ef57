/** The registered route a request resolves to, and the level a role needs on it. */
module RoleLevels {
  import opened Wrappers
  import opened PathCanon
  import opened RouteTemplates
  import opened AccessPolicies

  datatype RouteAction = ReadAction | WriteAction | Fenced | Secret

  datatype RouteMeta = RouteMeta(path: string, methods: set<string>, tags: seq<string>, action: RouteAction)

  datatype Cause = HardFence | LevelMiss

  /** A decision, or the fault of an infrastructure read, which every caller treats as a denial. */
  datatype Verdict = Allow | Deny(cause: Cause) | Fault

  // The route index.

  datatype Index = Index(concrete: map<(string, string), RouteMeta>, templated: seq<(string, RouteMeta)>)

  /** The router serves HEAD wherever a route declares GET. */
  function ServedMethods(meta: RouteMeta): set<string> {
    if "GET" in meta.methods then meta.methods + {"HEAD"} else meta.methods
  }

  function Keyed(canonical: string, methods: set<string>, meta: RouteMeta): map<(string, string), RouteMeta> {
    var keys := set verb | verb in methods :: (canonical, verb);
    map key | key in keys :: meta
  }

  function Indexed(index: Index, canonical: string, meta: RouteMeta): Index {
    if '{' in canonical then index.(templated := index.templated + [(canonical, meta)])
    else index.(concrete := index.concrete + Keyed(canonical, ServedMethods(meta), meta))
  }

  /** The index over the registered routes, in the order they registered. */
  function IndexOf(metas: seq<RouteMeta>): Result<Index> {
    if metas == [] then Ok(Index(map[], []))
    else
      var earlier := IndexOf(metas[..|metas| - 1]);
      var canonical := Canonicalize(metas[|metas| - 1].path);
      if earlier.Refused? || canonical.Refused? then Refused
      else Ok(Indexed(earlier.value, canonical.value, metas[|metas| - 1]))
  }

  method BuildIndex(metas: seq<RouteMeta>) returns (index: Result<Index>)
    ensures index == IndexOf(metas)
  {
    var built := Index(map[], []);
    for i := 0 to |metas|
      invariant IndexOf(metas[..i]) == Ok(built)
    {
      assert metas[..i + 1][..i] == metas[..i];
      var canonical := CanonicalizePath(metas[i].path);
      if canonical.Refused? {
        RefusalSticks(metas, i + 1);
        return Refused;
      }
      if '{' in canonical.value {
        built := built.(templated := built.templated + [(canonical.value, metas[i])]);
      } else {
        var added := KeyEachMethod(canonical.value, ServedMethods(metas[i]), metas[i]);
        built := built.(concrete := built.concrete + added);
      }
    }
    assert metas[..|metas|] == metas;
    index := Ok(built);
  }

  method KeyEachMethod(canonical: string, methods: set<string>, meta: RouteMeta)
    returns (keyed: map<(string, string), RouteMeta>)
    ensures keyed == Keyed(canonical, methods, meta)
  {
    keyed := map[];
    var todo := methods;
    while todo != {}
      invariant todo <= methods
      invariant keyed == Keyed(canonical, methods - todo, meta)
      decreases todo
    {
      var verb :| verb in todo;
      keyed := keyed[(canonical, verb) := meta];
      assert methods - (todo - {verb}) == (methods - todo) + {verb};
      todo := todo - {verb};
    }
    assert methods - todo == methods;
  }

  lemma {:induction false} RefusalSticks(metas: seq<RouteMeta>, n: nat)
    requires n <= |metas| && IndexOf(metas[..n]).Refused?
    ensures IndexOf(metas).Refused?
    decreases |metas| - n
  {
    if n == |metas| {
      assert metas[..n] == metas;
    } else {
      assert metas[..n + 1][..n] == metas[..n];
      RefusalSticks(metas, n + 1);
    }
  }

  function FirstTemplated(templated: seq<(string, RouteMeta)>, path: string, verb: string): Option<RouteMeta> {
    if templated == [] then None
    else if verb in ServedMethods(templated[0].1) && TemplateMatches(templated[0].0, path) then Some(templated[0].1)
    else FirstTemplated(templated[1..], path, verb)
  }

  /** What the index holds for a canonical path: a concrete route, or else the first template that matches. */
  function Resolved(index: Index, path: string, verb: string): Option<RouteMeta> {
    if (path, verb) in index.concrete then Some(index.concrete[(path, verb)]) else FirstTemplated(index.templated, path, verb)
  }

  function ResolveRouteMeta(index: Index, path: string, verb: Option<string>): Option<RouteMeta> {
    if verb.None? then None
    else
      match Canonicalize(path)
      case Refused => None
      case Ok(canonical) => Resolved(index, canonical, verb.value)
  }

  /** A registered route serves a canonical path: it is written for that very path, or its template matches it. */
  predicate Serves(meta: RouteMeta, path: string, verb: string) {
    && verb in ServedMethods(meta) && Canonicalize(meta.path).Ok?
    && var canonical := Canonicalize(meta.path).value;
       if '{' in canonical then TemplateMatches(canonical, path) else canonical == path
  }

  ghost predicate IndexHolds(metas: seq<RouteMeta>, index: Index) {
    && (forall path, verb :: (path, verb) in index.concrete ==>
          index.concrete[(path, verb)] in metas && Serves(index.concrete[(path, verb)], path, verb))
    && (forall i :: 0 <= i < |index.templated| ==>
          && index.templated[i].1 in metas
          && Canonicalize(index.templated[i].1.path) == Ok(index.templated[i].0) && '{' in index.templated[i].0)
    && (forall meta :: meta in metas ==>
          && Canonicalize(meta.path).Ok?
          && var canonical := Canonicalize(meta.path).value;
             if '{' in canonical then (canonical, meta) in index.templated
             else forall verb :: verb in ServedMethods(meta) ==> (canonical, verb) in index.concrete)
  }

  lemma {:induction false} IndexIsComplete(metas: seq<RouteMeta>)
    requires IndexOf(metas).Ok?
    ensures IndexHolds(metas, IndexOf(metas).value)
  {
    if metas != [] {
      var earlier, meta := metas[..|metas| - 1], metas[|metas| - 1];
      assert metas == earlier + [meta];
      IndexIsComplete(earlier);
      IndexGrows(earlier, IndexOf(earlier).value, meta);
    }
  }

  lemma IndexGrows(earlier: seq<RouteMeta>, index: Index, meta: RouteMeta)
    requires IndexHolds(earlier, index) && Canonicalize(meta.path).Ok?
    ensures IndexHolds(earlier + [meta], Indexed(index, Canonicalize(meta.path).value, meta))
  {
    var canonical := Canonicalize(meta.path).value;
    var metas, next := earlier + [meta], Indexed(index, canonical, meta);
    assert forall m :: m in metas <==> m in earlier || m == meta;
    forall verb | '{' !in canonical && verb in ServedMethods(meta)
      ensures (canonical, verb) in next.concrete
    {
      assert (canonical, verb) in Keyed(canonical, ServedMethods(meta), meta);
    }
    if '{' in canonical {
      assert next.templated[|index.templated|] == (canonical, meta);
      assert forall i :: 0 <= i < |index.templated| ==> next.templated[i] == index.templated[i];
    }
  }

  lemma {:induction false} FirstTemplatedMeaning(templated: seq<(string, RouteMeta)>, path: string, verb: string)
    ensures var found := FirstTemplated(templated, path, verb);
            && (found.Some? ==> exists i :: 0 <= i < |templated| && templated[i].1 == found.value
                                  && verb in ServedMethods(found.value) && TemplateMatches(templated[i].0, path))
            && (found.None? ==> forall i :: 0 <= i < |templated| ==>
                  !(verb in ServedMethods(templated[i].1) && TemplateMatches(templated[i].0, path)))
  {
    if templated != [] && !(verb in ServedMethods(templated[0].1) && TemplateMatches(templated[0].0, path)) {
      FirstTemplatedMeaning(templated[1..], path, verb);
      var found := FirstTemplated(templated[1..], path, verb);
      if found.Some? {
        var i :| 0 <= i < |templated[1..]| && templated[1..][i].1 == found.value
              && TemplateMatches(templated[1..][i].0, path);
        assert templated[i + 1] == templated[1..][i];
      } else {
        forall i | 0 <= i < |templated|
          ensures !(verb in ServedMethods(templated[i].1) && TemplateMatches(templated[i].0, path))
        {
          assert i > 0 ==> templated[i] == templated[1..][i - 1];
        }
      }
    }
  }

  /** Resolution is exact: it names a registered route that serves the request, and finds none only when none does. */
  lemma ResolutionNamesARegisteredRoute(metas: seq<RouteMeta>, path: string, verb: string)
    requires IndexOf(metas).Ok? && Canonicalize(path).Ok?
    ensures var found := ResolveRouteMeta(IndexOf(metas).value, path, Some(verb));
            && (found.Some? ==> found.value in metas && Serves(found.value, Canonicalize(path).value, verb))
            && (found.None? ==> forall meta :: meta in metas ==> !Serves(meta, Canonicalize(path).value, verb))
  {
    var index, canonical := IndexOf(metas).value, Canonicalize(path).value;
    IndexIsComplete(metas);
    if (canonical, verb) !in index.concrete {
      FirstTemplatedMeaning(index.templated, canonical, verb);
    }
  }

  // The level a role needs.

  function Upper(s: string): string {
    if s == "" then ""
    else [if 'a' <= s[0] <= 'z' then (s[0] as int - 32) as char else s[0]] + Upper(s[1..])
  }

  /** The rank a method's action asks for; an unknown method has none. */
  function ActionRank(verb: string): Option<nat> {
    if Upper(verb) in {"GET", "HEAD", "OPTIONS"} then Some(1)
    else if Upper(verb) in {"POST", "PUT", "PATCH", "DELETE"} then Some(2)
    else None
  }

  function LevelRank(level: string): nat {
    if level == "write" then 2 else if level == "read" then 1 else 0
  }

  type Grants = map<string, string>

  predicate TagOpens(tag: string, grants: Grants, rank: nat) {
    LevelRank(if tag in grants then grants[tag] else "none") >= rank
  }

  method GrantMapAdmits(meta: RouteMeta, verb: string, grants: Grants) returns (verdict: Verdict)
    ensures verdict == GrantVerdict(meta, verb, grants)
  {
    if meta.action.Fenced? || meta.action.Secret? {
      return Deny(HardFence);
    }
    var rank := ActionRank(verb);
    if rank.None? {
      return Fault;
    }
    for i := 0 to |meta.tags|
      invariant forall k :: 0 <= k < i ==> !TagOpens(meta.tags[k], grants, rank.value)
    {
      if LevelRank(if meta.tags[i] in grants then grants[meta.tags[i]] else "none") >= rank.value {
        assert TagOpens(meta.tags[i], grants, rank.value);
        return Allow;
      }
    }
    verdict := Deny(LevelMiss);
  }

  /** A fenced route opens for no level; any other opens when one of its tags carries the level asked for. */
  function GrantVerdict(meta: RouteMeta, verb: string, grants: Grants): Verdict {
    if meta.action.Fenced? || meta.action.Secret? then Deny(HardFence)
    else
      match ActionRank(verb)
      case None => Fault
      case Some(rank) =>
        if exists i :: 0 <= i < |meta.tags| && TagOpens(meta.tags[i], grants, rank) then Allow else Deny(LevelMiss)
  }

  /** The level decision over a resolved route, for a policy and, for an owned key, its owner's. */
  function RouteVerdict(roles: map<string, Grants>, policy: Policy, owner: Option<Policy>, meta: RouteMeta,
                        verb: string): Verdict
  {
    if meta.action.Fenced? || meta.action.Secret? then
      if IsAdminPolicy(policy, policy.data.owner) then Allow else Deny(HardFence)
    else
      var governing := if owner.Some? then owner.value else policy;
      if IsAdminPolicy(governing, governing.data.owner) || governing.data.role.None? then Allow
      else if governing.data.role.value !in roles then Deny(LevelMiss)
      else GrantVerdict(meta, verb, roles[governing.data.role.value])
  }

  /** The same for a request target, resolving the route here; a target with no route is not level-governed. */
  function RequestVerdict(roles: map<string, Grants>, index: Index, policy: Policy, owner: Option<Policy>,
                          path: string, verb: Option<string>): Verdict
  {
    if verb.None? then Allow
    else
      match ResolveRouteMeta(index, path, verb)
      case None => Allow
      case Some(meta) => RouteVerdict(roles, policy, owner, meta, verb.value)
  }

  /** The fence cannot be delegated: whatever its owner is, a key passes a fenced route only as an admin itself,
    * so a key stored as owned never does. */
  lemma FenceIsNotDelegated(roles: map<string, Grants>, policy: Policy, owner: Option<Policy>, meta: RouteMeta, verb: string)
    requires meta.action.Fenced? || meta.action.Secret?
    ensures RouteVerdict(roles, policy, owner, meta, verb).Allow? <==> IsAdminPolicy(policy, policy.data.owner)
    ensures policy.data.owner.Some? ==> !RouteVerdict(roles, policy, owner, meta, verb).Allow?
  {
  }

  predicate Dominates(more: Grants, less: Grants) {
    forall tag :: tag in less ==> tag in more && LevelRank(less[tag]) <= LevelRank(more[tag])
  }

  /** Raising a role's levels never closes a route to its holders. */
  lemma MoreGrantsOpenMore(roles: map<string, Grants>, name: string, more: Grants, policy: Policy,
                           owner: Option<Policy>, meta: RouteMeta, verb: string)
    requires name in roles && Dominates(more, roles[name])
    requires RouteVerdict(roles, policy, owner, meta, verb).Allow?
    ensures RouteVerdict(roles[name := more], policy, owner, meta, verb).Allow?
  {
    var governing := if owner.Some? then owner.value else policy;
    if governing.data.role == Some(name) && ActionRank(verb).Some? {
      var rank := ActionRank(verb).value;
      forall tag | TagOpens(tag, roles[name], rank)
        ensures TagOpens(tag, more, rank)
      {
      }
      if i :| 0 <= i < |meta.tags| && TagOpens(meta.tags[i], roles[name], rank) {
        assert TagOpens(meta.tags[i], more, rank);
      }
    }
  }

  // What a level opens, by the words of the method and of the level.

  /** `s` is `word`, an upper-case one, in any letter case. */
  predicate AnyCase(s: string, word: string) {
    |s| == |word| && forall i :: 0 <= i < |s| ==> s[i] == word[i] || s[i] as int == word[i] as int + 32
  }

  predicate Reading(verb: string) {
    AnyCase(verb, "GET") || AnyCase(verb, "HEAD") || AnyCase(verb, "OPTIONS")
  }

  predicate Writing(verb: string) {
    AnyCase(verb, "POST") || AnyCase(verb, "PUT") || AnyCase(verb, "PATCH") || AnyCase(verb, "DELETE")
  }

  lemma {:induction false} UpperMeans(s: string, word: string)
    requires forall i :: 0 <= i < |word| ==> 'A' <= word[i] <= 'Z'
    ensures Upper(s) == word <==> AnyCase(s, word)
  {
    if s != "" && word != "" {
      UpperMeans(s[1..], word[1..]);
      assert word == [word[0]] + word[1..] && s == [s[0]] + s[1..];
      assert Upper(s) == [Upper(s)[0]] + Upper(s)[1..] && Upper(s)[1..] == Upper(s[1..]);
      assert AnyCase(s, word) <==> AnyCase(s[1..], word[1..]) && AnyCase(s[..1], word[..1]);
    }
  }

  lemma RankMeans(verb: string)
    ensures ActionRank(verb) == if Reading(verb) then Some(1) else if Writing(verb) then Some(2) else None
  {
    UpperMeans(verb, "GET");
    UpperMeans(verb, "HEAD");
    UpperMeans(verb, "OPTIONS");
    UpperMeans(verb, "POST");
    UpperMeans(verb, "PUT");
    UpperMeans(verb, "PATCH");
    UpperMeans(verb, "DELETE");
  }
  /** The role names a level on the tag that opens the method: "write" opens every known one, "read" the reading ones. */
  predicate LevelOpens(tag: string, verb: string, grants: Grants) {
    && tag in grants
    && ((grants[tag] == "write" && (Reading(verb) || Writing(verb))) || (grants[tag] == "read" && Reading(verb)))
  }

  lemma TagMeans(tag: string, verb: string, grants: Grants)
    ensures ActionRank(verb).Some? ==> (TagOpens(tag, grants, ActionRank(verb).value) <==> LevelOpens(tag, verb, grants))
    ensures ActionRank(verb).None? ==> !LevelOpens(tag, verb, grants)
  {
    RankMeans(verb);
  }

  /** A role opens a route exactly when the route is not fenced and a tag of it carries such a level. */
  lemma GrantsOpen(meta: RouteMeta, verb: string, grants: Grants)
    ensures GrantVerdict(meta, verb, grants).Allow? <==>
              && !meta.action.Fenced? && !meta.action.Secret?
              && exists i :: 0 <= i < |meta.tags| && LevelOpens(meta.tags[i], verb, grants)
  {
    forall tag
      ensures ActionRank(verb).Some? ==> (TagOpens(tag, grants, ActionRank(verb).value) <==> LevelOpens(tag, verb, grants))
      ensures ActionRank(verb).None? ==> !LevelOpens(tag, verb, grants)
    {
      TagMeans(tag, verb, grants);
    }
    if ActionRank(verb).Some? {
      var rank := ActionRank(verb).value;
      if i :| 0 <= i < |meta.tags| && TagOpens(meta.tags[i], grants, rank) {
        assert LevelOpens(meta.tags[i], verb, grants);
      }
      if i :| 0 <= i < |meta.tags| && LevelOpens(meta.tags[i], verb, grants) {
        assert TagOpens(meta.tags[i], grants, rank);
      }
    }
  }

  /** The policy whose role governs: the owner's for an owned key, else the caller's own. */
  function Governing(policy: Policy, owner: Option<Policy>): Policy {
    if owner.Some? then owner.value else policy
  }

  predicate Admin(p: Policy) {
    "*" in p.scopes && p.condition.None? && p.conditionId.None? && p.data.owner.None?
  }

  /** When a route is allowed: a fenced one to an admin principal only; any other to a governing admin, to a policy with
    * no role, and to a role that exists and opens it. */
  lemma RouteAllowed(roles: map<string, Grants>, policy: Policy, owner: Option<Policy>, meta: RouteMeta, verb: string)
    ensures RouteVerdict(roles, policy, owner, meta, verb).Allow? <==>
              if meta.action.Fenced? || meta.action.Secret? then Admin(policy)
              else
                var governing := Governing(policy, owner);
                || Admin(governing) || governing.data.role.None?
                || (governing.data.role.value in roles
                    && exists i :: 0 <= i < |meta.tags| && LevelOpens(meta.tags[i], verb, roles[governing.data.role.value]))
  {
    var governing := Governing(policy, owner);
    if governing.data.role.Some? && governing.data.role.value in roles {
      GrantsOpen(meta, verb, roles[governing.data.role.value]);
    }
  }

  /** And when it is left undecided, which every caller takes for a denial: a role would decide, and the method is
    * none it knows. */
  lemma RouteUndecided(roles: map<string, Grants>, policy: Policy, owner: Option<Policy>, meta: RouteMeta, verb: string)
    ensures RouteVerdict(roles, policy, owner, meta, verb).Fault? <==>
              && !meta.action.Fenced? && !meta.action.Secret? && !Reading(verb) && !Writing(verb)
              && var governing := Governing(policy, owner);
                 !Admin(governing) && governing.data.role.Some? && governing.data.role.value in roles
  {
    RankMeans(verb);
  }

  /** So a role without a "write" level lets its holders read and nothing else. */
  lemma ReadersOnlyRead(roles: map<string, Grants>, policy: Policy, owner: Option<Policy>, meta: RouteMeta, verb: string)
    requires !Admin(policy) && !Admin(Governing(policy, owner))
    requires var role := Governing(policy, owner).data.role;
             role.Some? && (role.value in roles ==> forall tag :: tag in roles[role.value] ==> roles[role.value][tag] != "write")
    requires RouteVerdict(roles, policy, owner, meta, verb).Allow?
    ensures Reading(verb)
  {
    RouteAllowed(roles, policy, owner, meta, verb);
  }

  /** And a "write" level on a tag of a route that is not fenced opens every known method of it. */
  lemma WritersDoAll(roles: map<string, Grants>, policy: Policy, owner: Option<Policy>, meta: RouteMeta, verb: string, i: nat)
    requires Reading(verb) || Writing(verb)
    requires !meta.action.Fenced? && !meta.action.Secret? && i < |meta.tags|
    requires var role := Governing(policy, owner).data.role;
             role.Some? && role.value in roles && meta.tags[i] in roles[role.value] && roles[role.value][meta.tags[i]] == "write"
    ensures RouteVerdict(roles, policy, owner, meta, verb).Allow?
  {
    RouteAllowed(roles, policy, owner, meta, verb);
    assert LevelOpens(meta.tags[i], verb, roles[Governing(policy, owner).data.role.value]);
  }

  /** Whoever may write a route may read it: a level that admits a writing method admits every reading one. */
  lemma WritersMayRead(roles: map<string, Grants>, policy: Policy, owner: Option<Policy>, meta: RouteMeta,
                       writing: string, reading: string)
    requires (Writing(writing) || Reading(writing)) && Reading(reading)
    requires RouteVerdict(roles, policy, owner, meta, writing).Allow?
    ensures RouteVerdict(roles, policy, owner, meta, reading).Allow?
  {
    RouteAllowed(roles, policy, owner, meta, writing);
    RouteAllowed(roles, policy, owner, meta, reading);
    var role := Governing(policy, owner).data.role;
    if role.Some? && role.value in roles {
      if i :| 0 <= i < |meta.tags| && LevelOpens(meta.tags[i], writing, roles[role.value]) {
        assert LevelOpens(meta.tags[i], reading, roles[role.value]);
      }
    }
  }

  // Which of several routes that serve a request it resolves to.

  predicate IsTemplate(meta: RouteMeta) {
    Canonicalize(meta.path).Ok? && '{' in Canonicalize(meta.path).value
  }

  /** Route `i` wins: the last concrete one that serves the request, or where none does, the first template. */
  predicate Wins(metas: seq<RouteMeta>, i: nat, path: string, verb: string) {
    && i < |metas| && Serves(metas[i], path, verb)
    && if IsTemplate(metas[i])
       then forall j :: 0 <= j < |metas| && (!IsTemplate(metas[j]) || j < i) ==> !Serves(metas[j], path, verb)
       else forall j :: i < j < |metas| && !IsTemplate(metas[j]) ==> !Serves(metas[j], path, verb)
  }

  lemma {:induction false} FirstTemplatedGrows(templated: seq<(string, RouteMeta)>, last: (string, RouteMeta), path: string,
                                               verb: string)
    ensures FirstTemplated(templated + [last], path, verb) ==
              if FirstTemplated(templated, path, verb).Some? then FirstTemplated(templated, path, verb)
              else if verb in ServedMethods(last.1) && TemplateMatches(last.0, path) then Some(last.1)
              else None
  {
    if templated == [] {
      assert [last][1..] == [] && templated + [last] == [last];
    } else {
      assert (templated + [last])[1..] == templated[1..] + [last];
      FirstTemplatedGrows(templated[1..], last, path, verb);
    }
  }

  lemma ResolvedGrows(index: Index, meta: RouteMeta, path: string, verb: string)
    requires Canonicalize(meta.path).Ok?
    ensures var next := Indexed(index, Canonicalize(meta.path).value, meta);
            Resolved(next, path, verb) ==
              if Serves(meta, path, verb) && (!IsTemplate(meta) || Resolved(index, path, verb).None?) then Some(meta)
              else Resolved(index, path, verb)
  {
    var canonical := Canonicalize(meta.path).value;
    FirstTemplatedGrows(index.templated, (canonical, meta), path, verb);
    if '{' !in canonical {
      assert (path, verb) in Keyed(canonical, ServedMethods(meta), meta) <==> canonical == path && verb in ServedMethods(meta);
    }
  }

  /** A route that wins among the earlier ones still does, unless the new one is concrete and serves the request. */
  lemma WinsOn(metas: seq<RouteMeta>, i: nat, path: string, verb: string)
    requires metas != [] && Wins(metas[..|metas| - 1], i, path, verb)
    requires !Serves(metas[|metas| - 1], path, verb) || IsTemplate(metas[|metas| - 1])
    ensures Wins(metas, i, path, verb)
  {
    var last := |metas| - 1;
    forall j | 0 <= j < |metas| && Serves(metas[j], path, verb)
      ensures if IsTemplate(metas[i]) then IsTemplate(metas[j]) && i <= j else !(i < j && !IsTemplate(metas[j]))
    {
      if j < last {
        assert metas[..last][j] == metas[j];
      }
    }
  }

  lemma LastWins(metas: seq<RouteMeta>, path: string, verb: string)
    requires metas != [] && Serves(metas[|metas| - 1], path, verb)
    requires !IsTemplate(metas[|metas| - 1]) || forall j :: 0 <= j < |metas| - 1 ==> !Serves(metas[j], path, verb)
    ensures Wins(metas, |metas| - 1, path, verb)
  {
  }

  /** `i` is the place of the route found, or nothing serves the request. */
  predicate Precedes(metas: seq<RouteMeta>, i: nat, found: Option<RouteMeta>, path: string, verb: string) {
    if found.Some? then Wins(metas, i, path, verb) && metas[i] == found.value
    else forall j :: 0 <= j < |metas| ==> !Serves(metas[j], path, verb)
  }

  lemma PrecedenceGrows(metas: seq<RouteMeta>, i: nat, found: Option<RouteMeta>, path: string, verb: string)
    requires metas != [] && Precedes(metas[..|metas| - 1], i, found, path, verb)
    ensures var meta := metas[|metas| - 1];
            if Serves(meta, path, verb) && (!IsTemplate(meta) || found.None?)
            then Precedes(metas, |metas| - 1, Some(meta), path, verb)
            else Precedes(metas, i, found, path, verb)
  {
    var last := |metas| - 1;
    assert forall j :: 0 <= j < last ==> metas[..last][j] == metas[j];
    if Serves(metas[last], path, verb) && (!IsTemplate(metas[last]) || found.None?) {
      LastWins(metas, path, verb);
    } else if found.Some? {
      WinsOn(metas, i, path, verb);
    }
  }

  lemma {:induction false} ResolvedPrecedence(metas: seq<RouteMeta>, path: string, verb: string) returns (i: nat)
    requires IndexOf(metas).Ok?
    ensures Precedes(metas, i, Resolved(IndexOf(metas).value, path, verb), path, verb)
  {
    i := 0;
    if metas != [] {
      var last := |metas| - 1;
      i := ResolvedPrecedence(metas[..last], path, verb);
      var found := Resolved(IndexOf(metas[..last]).value, path, verb);
      ResolvedGrows(IndexOf(metas[..last]).value, metas[last], path, verb);
      PrecedenceGrows(metas, i, found, path, verb);
      if Serves(metas[last], path, verb) && (!IsTemplate(metas[last]) || found.None?) {
        i := last;
      }
    }
  }

  /** Exactly: a request resolves to the route that wins, and to none only where none serves it. */
  lemma ResolutionPrecedence(metas: seq<RouteMeta>, path: string, verb: string)
    requires IndexOf(metas).Ok? && Canonicalize(path).Ok?
    ensures var found, canonical := ResolveRouteMeta(IndexOf(metas).value, path, Some(verb)), Canonicalize(path).value;
            if found.Some? then exists i: nat :: Wins(metas, i, canonical, verb) && metas[i] == found.value
            else forall j :: 0 <= j < |metas| ==> !Serves(metas[j], canonical, verb)
  {
    var i := ResolvedPrecedence(metas, Canonicalize(path).value, verb);
  }

  /** HEAD is resolved wherever GET is. */
  lemma HeadRidesWithGet(metas: seq<RouteMeta>, path: string)
    requires IndexOf(metas).Ok? && ResolveRouteMeta(IndexOf(metas).value, path, Some("GET")).Some?
    ensures ResolveRouteMeta(IndexOf(metas).value, path, Some("HEAD")).Some?
  {
    var canonical := Canonicalize(path).value;
    var i := ResolvedPrecedence(metas, canonical, "GET");
    var _ := ResolvedPrecedence(metas, canonical, "HEAD");
    assert Serves(metas[i], canonical, "HEAD");
  }
}
