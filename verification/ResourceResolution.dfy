/** From a request path to the resource ids it stands for, tier by tier. */
module ResourceResolution {
  import opened Wrappers
  import opened PathCanon
  import opened GateSettings

  /** The stored routes and dynamic patterns at one policy version, with the registered concrete
    * non-API GET paths and the automatic normalization of ids in a path. */
  datatype Tables = Tables(
    routes: map<string, string>,
    dynamic: seq<(Pattern, string)>,
    registered: set<string>,
    normalize: string -> string)

  /** A stored mapping counts only when it names something. */
  predicate Maps(tables: Tables, url: string) {
    url in tables.routes && tables.routes[url] != ""
  }

  function Lookup(tables: Tables, url: string): set<string> {
    if Maps(tables, url) then {tables.routes[url]} else {}
  }

  function PatternIds(tables: Tables, patterns: seq<(Pattern, string)>, path: string): set<string> {
    if patterns == [] then {}
    else
      var rest, last := patterns[..|patterns| - 1], patterns[|patterns| - 1];
      PatternIds(tables, rest, path) + if last.0(path) then Lookup(tables, last.1) else {}
  }

  /** What the route table says of a canonical path, all tiers together. */
  function TableIds(settings: Settings, tables: Tables, path: string): set<string> {
    Lookup(tables, path) + Lookup(tables, tables.normalize(path))
    + PatternIds(tables, settings.patterns, path) + PatternIds(tables, tables.dynamic, path)
  }

  /** The table's answer after the public patterns are added and a reserved path has lost the public id. */
  function GuardedIds(settings: Settings, tables: Tables, path: string): set<string> {
    var ids := TableIds(settings, tables, path)
             + if MatchesPublicPattern(settings, path) then {settings.publicId} else {};
    if IsReserved(settings, path) then ids - {settings.publicId} else ids
  }

  predicate AcknowledgedPublic(settings: Settings, tables: Tables, path: string, verb: Option<string>) {
    && (verb == Some("GET") || verb == Some("HEAD"))
    && path in tables.registered && path in settings.acknowledged && !IsReserved(settings, path)
  }

  predicate ServesShell(settings: Settings, tables: Tables, path: string, verb: Option<string>) {
    && settings.spaShellPublic && verb == Some("GET") && !ControlPlane(path)
    && path !in tables.registered && path !in settings.supplement && !IsReserved(settings, path)
  }

  /** The resource ids of a raw path under a method; `None` is a request that has none. */
  function ResourceIds(settings: Settings, tables: Tables, path: string, verb: Option<string>): set<string> {
    match Canonicalize(path)
    case Refused => {}
    case Ok(canonical) =>
      if IsAlwaysPublic(settings, canonical) then {settings.publicId}
      else
        var ids := GuardedIds(settings, tables, canonical);
        if ids == {} && (AcknowledgedPublic(settings, tables, canonical, verb)
                         || ServesShell(settings, tables, canonical, verb))
        then {settings.publicId} else ids
  }

  method CollectPatternIds(tables: Tables, patterns: seq<(Pattern, string)>, path: string, found: set<string>)
    returns (ids: set<string>)
    ensures ids == found + PatternIds(tables, patterns, path)
  {
    ids := found;
    for i := 0 to |patterns|
      invariant ids == found + PatternIds(tables, patterns[..i], path)
    {
      assert patterns[..i + 1][..i] == patterns[..i];
      var (pattern, template) := patterns[i];
      if pattern(path) && template in tables.routes && tables.routes[template] != "" {
        ids := ids + {tables.routes[template]};
      }
    }
    assert patterns[..|patterns|] == patterns;
  }

  method ResolveResourceIds(settings: Settings, tables: Tables, path: string, verb: Option<string>)
    returns (ids: set<string>)
    ensures ids == ResourceIds(settings, tables, path, verb)
  {
    var canonicalized := CanonicalizePath(path);
    if canonicalized.Refused? {
      return {};
    }
    var canonical := canonicalized.value;
    if IsAlwaysPublic(settings, canonical) {
      return {settings.publicId};
    }
    ids := {};
    if Maps(tables, canonical) {
      ids := ids + {tables.routes[canonical]};
    }
    var normalized := tables.normalize(canonical);
    if normalized != canonical && Maps(tables, normalized) {
      ids := ids + {tables.routes[normalized]};
    }
    ids := CollectPatternIds(tables, settings.patterns, canonical, ids);
    ids := CollectPatternIds(tables, tables.dynamic, canonical, ids);
    assert ids == TableIds(settings, tables, canonical);
    if MatchesPublicPattern(settings, canonical) {
      ids := ids + {settings.publicId};
    }
    var reserved := IsReserved(settings, canonical);
    if settings.publicId in ids && reserved {
      ids := ids - {settings.publicId};
    }
    assert ids == GuardedIds(settings, tables, canonical);
    if (verb == Some("GET") || verb == Some("HEAD")) && ids == {} && canonical in tables.registered
       && canonical in settings.acknowledged && !reserved {
      ids := ids + {settings.publicId};
    }
    if settings.spaShellPublic && verb == Some("GET") && ids == {} && !UnderPrefix(canonical, "/api")
       && !UnderPrefix(canonical, "/mcp") && canonical !in tables.registered
       && canonical !in settings.supplement && !reserved {
      ids := ids + {settings.publicId};
    }
  }

  /** No route table, pattern, method or fallback makes a reserved path public. */
  lemma ReservedPathsNeverResolvePublic(settings: Settings, tables: Tables, path: string, verb: Option<string>)
    requires Accepted(settings)
    requires Canonicalize(path).Ok? && IsReserved(settings, Canonicalize(path).value)
    ensures settings.publicId !in ResourceIds(settings, tables, path, verb)
  {
    ReservedIsNeverAlwaysPublic(settings, Canonicalize(path).value);
  }

  /** Resolution sees only the canonical form of a path, so the trailing slash and the dots of a request
    * cannot change its resources. */
  lemma ResolutionIsCanonical(settings: Settings, tables: Tables, path: string, verb: Option<string>)
    ensures Canonicalize(path).Ok? ==>
              ResourceIds(settings, tables, Canonicalize(path).value, verb) == ResourceIds(settings, tables, path, verb)
    ensures ResourceIds(settings, tables, path + "/", verb) == ResourceIds(settings, tables, path, verb)
  {
    TrailingSlashIsDropped(path);
    if Canonicalize(path).Ok? {
      CanonicalIsIdempotent(path);
    }
  }

  /** Asking without a method is the stricter question: an answer to it holds under every method. */
  lemma MethodlessResolutionHolds(settings: Settings, tables: Tables, path: string, verb: Option<string>)
    ensures ResourceIds(settings, tables, path, None) <= ResourceIds(settings, tables, path, verb)
    ensures ResourceIds(settings, tables, path, None) != {} ==>
              ResourceIds(settings, tables, path, verb) == ResourceIds(settings, tables, path, None)
  {
  }

  lemma {:induction false} PatternIdsMeaning(tables: Tables, patterns: seq<(Pattern, string)>, path: string, id: string)
    ensures id in PatternIds(tables, patterns, path) <==>
              exists i :: 0 <= i < |patterns| && patterns[i].0(path) && Maps(tables, patterns[i].1)
                          && tables.routes[patterns[i].1] == id
  {
    if patterns != [] {
      var n := |patterns| - 1;
      PatternIdsMeaning(tables, patterns[..n], path, id);
      if id in PatternIds(tables, patterns[..n], path) {
        var i :| 0 <= i < n && patterns[..n][i].0(path) && Maps(tables, patterns[..n][i].1)
              && tables.routes[patterns[..n][i].1] == id;
        assert patterns[i] == patterns[..n][i];
      }
      if i :| 0 <= i < |patterns| && patterns[i].0(path) && Maps(tables, patterns[i].1)
              && tables.routes[patterns[i].1] == id {
        assert i < n ==> patterns[..n][i] == patterns[i];
      }
    }
  }

  /** Deny wins: a protected mapping of any tier keeps a path from being public alone. */
  lemma ProtectedMappingsAreNeverHidden(settings: Settings, tables: Tables, path: string, verb: Option<string>, i: nat)
    requires Canonicalize(path).Ok? && !IsAlwaysPublic(settings, Canonicalize(path).value)
    requires i < |tables.dynamic| && tables.dynamic[i].0(Canonicalize(path).value)
    requires Maps(tables, tables.dynamic[i].1) && tables.routes[tables.dynamic[i].1] != settings.publicId
    ensures ResourceIds(settings, tables, path, verb) != {settings.publicId}
  {
    PatternIdsMeaning(tables, tables.dynamic, Canonicalize(path).value, tables.routes[tables.dynamic[i].1]);
  }

  /** Neither fallback opens the control plane: an unmapped API path resolves to nothing under every method. */
  lemma FallbacksSpareTheControlPlane(settings: Settings, tables: Tables, path: string, verb: Option<string>)
    requires Accepted(settings) && Canonicalize(path).Ok? && ControlPlane(Canonicalize(path).value)
    requires !IsAlwaysPublic(settings, Canonicalize(path).value)
    requires !MatchesPublicPattern(settings, Canonicalize(path).value)
    requires TableIds(settings, tables, Canonicalize(path).value) == {}
    ensures ResourceIds(settings, tables, path, verb) == {}
  {
    forall entry | entry in settings.acknowledged
      ensures !ControlPlane(entry)
    {
    }
  }
  // What the tiers amount to, resource by resource.

  predicate Stored(tables: Tables, url: string, id: string) {
    url in tables.routes && tables.routes[url] == id && id != ""
  }

  /** A stored mapping gives the path this id: its own, its normalized form's, or that of a matching pattern's template. */
  ghost predicate Mapped(settings: Settings, tables: Tables, path: string, id: string) {
    || Stored(tables, path, id) || Stored(tables, tables.normalize(path), id)
    || (exists i :: 0 <= i < |settings.patterns| && settings.patterns[i].0(path) && Stored(tables, settings.patterns[i].1, id))
    || (exists i :: 0 <= i < |tables.dynamic| && tables.dynamic[i].0(path) && Stored(tables, tables.dynamic[i].1, id))
  }

  /** A path that no mapping names is public all the same: an acknowledged registered route to a reading method, or,
    * where the shell is served, an unregistered page outside the control plane to GET. */
  predicate FallsBack(settings: Settings, tables: Tables, path: string, verb: Option<string>) {
    || ((verb == Some("GET") || verb == Some("HEAD")) && path in tables.registered && path in settings.acknowledged)
    || (settings.spaShellPublic && verb == Some("GET") && !UnderPrefix(path, "/api") && !UnderPrefix(path, "/mcp")
        && path !in tables.registered && path !in settings.supplement)
  }

  lemma MappedMeans(settings: Settings, tables: Tables, path: string, id: string)
    ensures id in TableIds(settings, tables, path) <==> Mapped(settings, tables, path, id)
  {
    PatternIdsMeaning(tables, settings.patterns, path, id);
    PatternIdsMeaning(tables, tables.dynamic, path, id);
    if i :| 0 <= i < |settings.patterns| && settings.patterns[i].0(path) && Maps(tables, settings.patterns[i].1)
            && tables.routes[settings.patterns[i].1] == id {
      assert Stored(tables, settings.patterns[i].1, id);
    }
    if i :| 0 <= i < |tables.dynamic| && tables.dynamic[i].0(path) && Maps(tables, tables.dynamic[i].1)
            && tables.routes[tables.dynamic[i].1] == id {
      assert Stored(tables, tables.dynamic[i].1, id);
    }
    if i :| 0 <= i < |settings.patterns| && settings.patterns[i].0(path) && Stored(tables, settings.patterns[i].1, id) {
      assert Maps(tables, settings.patterns[i].1);
    }
    if i :| 0 <= i < |tables.dynamic| && tables.dynamic[i].0(path) && Stored(tables, tables.dynamic[i].1, id) {
      assert Maps(tables, tables.dynamic[i].1);
    }
  }

  /** Exactly which ids a path resolves to: none if it is malformed, the public one alone on the login surface; otherwise
    * every protected id mapped, and the public one when the path is not reserved and is mapped public, matches a public
    * pattern, or, with no id mapped at all, falls back. */
  lemma ResolvedIds(settings: Settings, tables: Tables, path: string, verb: Option<string>, id: string)
    ensures id in ResourceIds(settings, tables, path, verb) <==>
              && Canonicalize(path).Ok?
              && var canonical := Canonicalize(path).value;
                 if IsAlwaysPublic(settings, canonical) then id == settings.publicId
                 else if id != settings.publicId then Mapped(settings, tables, canonical, id)
                 else
                   && !IsReserved(settings, canonical)
                   && (|| Mapped(settings, tables, canonical, id) || MatchesPublicPattern(settings, canonical)
                       || ((forall other :: !Mapped(settings, tables, canonical, other))
                           && FallsBack(settings, tables, canonical, verb)))
  {
    if Canonicalize(path).Ok? {
      var canonical := Canonicalize(path).value;
      forall other
        ensures other in TableIds(settings, tables, canonical) <==> Mapped(settings, tables, canonical, other)
      {
        MappedMeans(settings, tables, canonical, other);
      }
      if !IsAlwaysPublic(settings, canonical) {
        IdsByTable(settings, tables, canonical, verb, id);
      }
      if TableIds(settings, tables, canonical) != {} {
        var other :| other in TableIds(settings, tables, canonical);
        assert Mapped(settings, tables, canonical, other);
      }
    }
  }

  lemma IdsByTable(settings: Settings, tables: Tables, path: string, verb: Option<string>, id: string)
    requires !IsAlwaysPublic(settings, path)
    ensures var ids := GuardedIds(settings, tables, path);
            id in (if ids == {} && (AcknowledgedPublic(settings, tables, path, verb) || ServesShell(settings, tables, path, verb))
                   then {settings.publicId} else ids) <==>
              if id != settings.publicId then id in TableIds(settings, tables, path)
              else
                && !IsReserved(settings, path)
                && (|| id in TableIds(settings, tables, path) || MatchesPublicPattern(settings, path)
                    || (TableIds(settings, tables, path) == {} && FallsBack(settings, tables, path, verb)))
  {
    var ids := GuardedIds(settings, tables, path);
    if !IsReserved(settings, path) && TableIds(settings, tables, path) != {} {
      var other :| other in TableIds(settings, tables, path);
      assert other in ids;
    }
  }
}
