/** The path families of the access gate, and what a settings object must satisfy to be accepted. */
module GateSettings {
  import opened Wrappers
  import opened PathCanon

  /** Whether a path fully matches a compiled pattern. */
  type Pattern = string -> bool

  datatype Settings = Settings(
    publicId: string,
    reserved: seq<string>,
    alwaysPublic: seq<string>,
    alwaysAllowed: seq<string>,
    spaShellPublic: bool,
    supplement: seq<string>,
    acknowledged: seq<string>,
    patterns: seq<(Pattern, string)>,
    publicPatterns: seq<Pattern>)

  predicate PrefixOverlaps(a: string, b: string) {
    a == b || b + "/" <= a || a + "/" <= b
  }

  /** Two prefixes overlap exactly when some path lies under both. */
  lemma OverlapMeansCommonDescendant(a: string, b: string)
    ensures PrefixOverlaps(a, b) <==> exists path :: UnderPrefix(path, a) && UnderPrefix(path, b)
  {
    if path :| UnderPrefix(path, a) && UnderPrefix(path, b) {
      if |a| < |b| {
        assert (a + "/")[..|a|] == path[..|a|] == b[..|a|];
        assert a + "/" == path[..|a| + 1];
        assert b == path[..|b|];
      } else if |b| < |a| {
        assert b + "/" == path[..|b| + 1];
        assert a == path[..|a|];
      } else {
        assert a == path[..|a|] == b;
      }
    }
    if PrefixOverlaps(a, b) {
      var deeper := if |a| < |b| then b else a;
      assert UnderPrefix(deeper, a) && UnderPrefix(deeper, b);
    }
  }

  predicate UnderAny(path: string, prefixes: seq<string>) {
    exists i :: 0 <= i < |prefixes| && UnderPrefix(path, prefixes[i])
  }

  predicate IsReserved(settings: Settings, path: string) {
    UnderAny(path, settings.reserved)
  }

  predicate IsAlwaysPublic(settings: Settings, path: string) {
    UnderAny(path, settings.alwaysPublic)
  }

  predicate MatchesPublicPattern(settings: Settings, path: string) {
    exists i :: 0 <= i < |settings.publicPatterns| && settings.publicPatterns[i](path)
  }

  predicate DisjointFrom(prefix: string, others: seq<string>) {
    forall i :: 0 <= i < |others| ==> !PrefixOverlaps(prefix, others[i])
  }

  predicate AllowedEntryAccepted(settings: Settings, path: string) {
    "/" <= path && !IsAlwaysPublic(settings, path)
  }

  predicate OperationalEntryAccepted(settings: Settings, entry: string) {
    "/" <= entry && IsCanonical(entry) && DisjointFrom(entry, settings.alwaysPublic)
  }

  predicate ControlPlane(path: string) {
    UnderPrefix(path, "/api") || UnderPrefix(path, "/mcp")
  }

  predicate PublicPatternAccepted(settings: Settings, pattern: Pattern) {
    forall i :: 0 <= i < |settings.reserved| ==>
      !pattern(settings.reserved[i]) && !pattern(settings.reserved[i] + "/x")
  }

  ghost predicate Accepted(settings: Settings) {
    && (forall i :: 0 <= i < |settings.reserved| ==> DisjointFrom(settings.reserved[i], settings.alwaysPublic))
    && (forall i :: 0 <= i < |settings.alwaysAllowed| ==> AllowedEntryAccepted(settings, settings.alwaysAllowed[i]))
    && (forall i :: 0 <= i < |settings.supplement| ==> OperationalEntryAccepted(settings, settings.supplement[i]))
    && (forall i :: 0 <= i < |settings.acknowledged| ==>
          OperationalEntryAccepted(settings, settings.acknowledged[i]) && !ControlPlane(settings.acknowledged[i]))
    && (forall i :: 0 <= i < |settings.publicPatterns| ==> PublicPatternAccepted(settings, settings.publicPatterns[i]))
  }

  method OverlapsAny(prefix: string, others: seq<string>) returns (overlaps: bool)
    ensures overlaps <==> !DisjointFrom(prefix, others)
  {
    for i := 0 to |others|
      invariant forall k :: 0 <= k < i ==> !PrefixOverlaps(prefix, others[k])
    {
      if PrefixOverlaps(prefix, others[i]) {
        return true;
      }
    }
    overlaps := false;
  }

  method OperationalEntriesAccepted(settings: Settings, entries: seq<string>, acknowledging: bool) returns (ok: bool)
    ensures ok <==> forall i :: 0 <= i < |entries| ==>
              OperationalEntryAccepted(settings, entries[i]) && (acknowledging ==> !ControlPlane(entries[i]))
  {
    for i := 0 to |entries|
      invariant forall k :: 0 <= k < i ==>
                  OperationalEntryAccepted(settings, entries[k]) && (acknowledging ==> !ControlPlane(entries[k]))
    {
      if !("/" <= entries[i]) {
        return false;
      }
      var canonical := CanonicalizePath(entries[i]);
      if canonical.Refused? || canonical.value != entries[i] {
        return false;
      }
      var overlaps := OverlapsAny(entries[i], settings.alwaysPublic);
      if overlaps || (acknowledging && (UnderPrefix(entries[i], "/api") || UnderPrefix(entries[i], "/mcp"))) {
        return false;
      }
    }
    ok := true;
  }

  method AllowedEntriesAccepted(settings: Settings) returns (ok: bool)
    ensures ok <==> forall i :: 0 <= i < |settings.alwaysAllowed| ==>
              AllowedEntryAccepted(settings, settings.alwaysAllowed[i])
  {
    for i := 0 to |settings.alwaysAllowed|
      invariant forall k :: 0 <= k < i ==> AllowedEntryAccepted(settings, settings.alwaysAllowed[k])
    {
      var path := settings.alwaysAllowed[i];
      if !("/" <= path) {
        return false;
      }
      for j := 0 to |settings.alwaysPublic|
        invariant forall k :: 0 <= k < j ==> !UnderPrefix(path, settings.alwaysPublic[k])
      {
        if path == settings.alwaysPublic[j] || settings.alwaysPublic[j] + "/" <= path {
          return false;
        }
      }
    }
    ok := true;
  }

  method PublicPatternsAccepted(settings: Settings) returns (ok: bool)
    ensures ok <==> forall i :: 0 <= i < |settings.publicPatterns| ==>
              PublicPatternAccepted(settings, settings.publicPatterns[i])
  {
    for i := 0 to |settings.publicPatterns|
      invariant forall k :: 0 <= k < i ==> PublicPatternAccepted(settings, settings.publicPatterns[k])
    {
      var pattern := settings.publicPatterns[i];
      for j := 0 to |settings.reserved|
        invariant forall k :: 0 <= k < j ==> !pattern(settings.reserved[k]) && !pattern(settings.reserved[k] + "/x")
      {
        if pattern(settings.reserved[j]) || pattern(settings.reserved[j] + "/x") {
          return false;
        }
      }
    }
    ok := true;
  }

  /** The validation a settings object passes before any request is decided on it. */
  method Validate(settings: Settings) returns (ok: bool)
    ensures ok <==> Accepted(settings)
  {
    for i := 0 to |settings.reserved|
      invariant forall k :: 0 <= k < i ==> DisjointFrom(settings.reserved[k], settings.alwaysPublic)
    {
      var overlaps := OverlapsAny(settings.reserved[i], settings.alwaysPublic);
      if overlaps {
        return false;
      }
    }
    ok := AllowedEntriesAccepted(settings);
    if !ok {
      return;
    }
    ok := OperationalEntriesAccepted(settings, settings.supplement, false);
    if !ok {
      return;
    }
    ok := OperationalEntriesAccepted(settings, settings.acknowledged, true);
    if !ok {
      return;
    }
    ok := PublicPatternsAccepted(settings);
  }

  lemma DisjointMeansNotUnder(prefix: string, others: seq<string>, path: string)
    requires DisjointFrom(prefix, others) && UnderPrefix(path, prefix)
    ensures !UnderAny(path, others)
  {
    forall i | 0 <= i < |others|
      ensures !UnderPrefix(path, others[i])
    {
      OverlapMeansCommonDescendant(prefix, others[i]);
    }
  }

  /** On accepted settings no path is both reserved and always public. */
  lemma ReservedIsNeverAlwaysPublic(settings: Settings, path: string)
    requires Accepted(settings) && IsReserved(settings, path)
    ensures !IsAlwaysPublic(settings, path)
  {
    var i :| 0 <= i < |settings.reserved| && UnderPrefix(path, settings.reserved[i]);
    DisjointMeansNotUnder(settings.reserved[i], settings.alwaysPublic, path);
  }
}
