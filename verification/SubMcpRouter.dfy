/** The per-worker registry of sub-MCP apps, one method for each region run under its state lock. */
module SubMcpRouter {
  import opened Wrappers

  type Slug = string

  /** The runner of one entered sub-app lifespan, named by the order of entry. */
  type Lifespan = nat

  datatype RouteConfig = RouteConfig(tools: seq<string>, transport: string)

  /** A built ASGI app, identified by what it was built from. */
  datatype SubApp = SubApp(slug: Slug, config: RouteConfig)

  /** What the lookup of an app decided before any build. */
  datatype Lookup = Cached(app: Option<SubApp>) | Registered | Unknown

  /** What a build starts from, if it starts. */
  datatype Capture = Hit(app: Option<SubApp>) | Absent | Build(config: RouteConfig, token: nat)

  /** How the publication of a finished build ended. */
  datatype Outcome = Published | Superseded | Vanished

  datatype Registry = Registry(
    routes: map<Slug, RouteConfig>,
    cache: map<Slug, Option<SubApp>>,
    stacks: map<Slug, Lifespan>,
    generation: nat,
    tokens: map<Slug, nat>)

  const EMPTY := Registry(map[], map[], map[], 0, map[])

  predicate SlugHead(c: char) {
    'a' <= c <= 'z' || '0' <= c <= '9'
  }

  predicate ValidSlug(slug: Slug) {
    && |slug| > 0 && SlugHead(slug[0])
    && forall i :: 0 <= i < |slug| ==> SlugHead(slug[i]) || slug[i] == '_' || slug[i] == '-'
  }

  predicate ValidRegistration(slug: Slug, transport: string) {
    ValidSlug(slug) && transport in ["http", "sse", "stdio"]
  }

  /** The app a configuration is built into: a stdio server has no ASGI surface. */
  function Surface(slug: Slug, config: RouteConfig): Option<SubApp> {
    if config.transport == "stdio" then None else Some(SubApp(slug, config))
  }

  function Get<K, V>(m: map<K, V>, k: K): Option<V> {
    if k in m then Some(m[k]) else None
  }

  function Pop(r: Registry, slug: Slug): Registry {
    Registry(r.routes - {slug}, r.cache - {slug}, r.stacks - {slug}, r.generation, r.tokens - {slug})
  }

  function Register(r: Registry, slug: Slug, config: RouteConfig): Registry {
    var p := if slug in r.routes || slug in r.cache then Pop(r, slug) else r;
    Registry(p.routes[slug := config], p.cache, p.stacks, p.generation + 1, p.tokens[slug := p.generation + 1])
  }

  /** The lifespan a registration of `slug` takes out for closing. */
  function Replaced(r: Registry, slug: Slug): Option<Lifespan> {
    if slug in r.routes || slug in r.cache then Get(r.stacks, slug) else None
  }

  function Reset(r: Registry): Registry {
    Registry(map[], map[], map[], r.generation + 1, map[])
  }

  function Find(r: Registry, slug: Slug): Lookup {
    if slug in r.cache then Cached(r.cache[slug])
    else if slug in r.routes then Lookup.Registered
    else Unknown
  }

  function CaptureFor(r: Registry, slug: Slug): Capture
    requires slug in r.routes ==> slug in r.tokens
  {
    if slug in r.cache then Hit(r.cache[slug])
    else if slug !in r.routes then Absent
    else Build(r.routes[slug], r.tokens[slug])
  }

  function OutcomeOf(r: Registry, slug: Slug, token: nat): Outcome {
    match Get(r.tokens, slug)
    case None => Vanished
    case Some(current) => if current == token then Published else Superseded
  }

  function Publish(r: Registry, slug: Slug, token: nat, app: Option<SubApp>, stack: Option<Lifespan>): Registry {
    if OutcomeOf(r, slug, token) != Published then r
    else
      r.(stacks := if stack.Some? then r.stacks[slug := stack.value] else r.stacks,
         cache := r.cache[slug := app])
  }

  /** What every state-lock region keeps: the cache never outlives or disagrees with the registrations. */
  ghost predicate Coherent(r: Registry) {
    && r.cache.Keys <= r.routes.Keys == r.tokens.Keys
    && (forall slug :: slug in r.cache ==> r.cache[slug] == Surface(slug, r.routes[slug]))
    && (forall slug :: slug in r.stacks <==> slug in r.cache && r.cache[slug].Some?)
    && (forall slug :: slug in r.tokens ==> r.tokens[slug] <= r.generation)
  }

  lemma RegisteringStaysCoherent(r: Registry, slug: Slug, config: RouteConfig)
    requires Coherent(r)
    ensures Coherent(Register(r, slug, config)) && Register(r, slug, config).stacks == r.stacks - {slug}
  {
  }

  class SubMcpAppRouter {
    var routes: map<Slug, RouteConfig>
    var serverCache: map<Slug, Option<SubApp>>
    var appExitStacks: map<Slug, Lifespan>
    var generation: nat
    var routeGenerations: map<Slug, nat>

    function State(): Registry
      reads this
    {
      Registry(routes, serverCache, appExitStacks, generation, routeGenerations)
    }

    ghost predicate Valid()
      reads this
    {
      Coherent(State())
    }

    constructor ()
      ensures State() == EMPTY && Valid()
    {
      routes, serverCache, appExitStacks, generation, routeGenerations := map[], map[], map[], 0, map[];
    }

    method PopSlugLocked(slug: Slug) returns (stale: Option<Lifespan>)
      requires Valid()
      modifies this
      ensures Valid() && State() == Pop(old(State()), slug)
      ensures stale == Get(old(appExitStacks), slug)
      ensures routes == old(routes) - {slug} && serverCache == old(serverCache) - {slug}
      ensures appExitStacks == old(appExitStacks) - {slug}
      ensures routeGenerations == old(routeGenerations) - {slug} && generation == old(generation)
    {
      stale := if slug in appExitStacks then Some(appExitStacks[slug]) else None;
      routes := routes - {slug};
      serverCache := serverCache - {slug};
      routeGenerations := routeGenerations - {slug};
      appExitStacks := appExitStacks - {slug};
    }

    method RegisterSubMcpApp(slug: Slug, tools: seq<string>, transport: string)
      returns (stale: Result<Option<Lifespan>>)
      requires Valid()
      modifies this
      ensures Valid()
      ensures stale.Ok? <==> ValidRegistration(slug, transport)
      ensures stale.Ok? ==> stale.value == Replaced(old(State()), slug)
      ensures State() == if stale.Ok? then Register(old(State()), slug, RouteConfig(tools, transport))
                         else old(State())
      ensures stale.Ok? ==>
                && routes == old(routes)[slug := RouteConfig(tools, transport)]
                && serverCache == old(serverCache) - {slug} && appExitStacks == old(appExitStacks) - {slug}
                && generation == old(generation) + 1 && routeGenerations == old(routeGenerations)[slug := generation]
    {
      if !ValidRegistration(slug, transport) {
        return Refused;
      }
      RegisteringStaysCoherent(State(), slug, RouteConfig(tools, transport));
      var popped: Option<Lifespan> := None;
      if slug in routes || slug in serverCache {
        popped := PopSlugLocked(slug);
      }
      assert serverCache == old(serverCache) - {slug} && appExitStacks == old(appExitStacks) - {slug};
      routes := routes[slug := RouteConfig(tools, transport)];
      generation := generation + 1;
      routeGenerations := routeGenerations[slug := generation];
      assert State() == Register(old(State()), slug, RouteConfig(tools, transport));
      stale := Ok(popped);
    }

    method ResetAll() returns (stacks: map<Slug, Lifespan>)
      requires Valid()
      modifies this
      ensures Valid() && State() == Reset(old(State())) && stacks == old(appExitStacks)
      ensures routes == map[] && serverCache == map[] && appExitStacks == map[] && routeGenerations == map[]
      ensures generation == old(generation) + 1
    {
      routes, serverCache := map[], map[];
      generation := generation + 1;
      routeGenerations := map[];
      stacks := appExitStacks;
      appExitStacks := map[];
    }

    /** A cached answer is the app of the configuration registered now; the other two tell whether there is one. */
    method LookUp(slug: Slug) returns (found: Lookup)
      requires Valid()
      ensures found == Find(State(), slug)
      ensures found.Cached? ==> slug in routes && found.app == Surface(slug, routes[slug])
      ensures found.Unknown? <==> slug !in routes
    {
      if slug in serverCache {
        return Cached(serverCache[slug]);
      }
      found := if slug in routes then Lookup.Registered else Unknown;
    }

    /** A hit is current; a capture is what publication asks for, so a build with nothing in between is recorded. */
    method CaptureBuild(slug: Slug) returns (capture: Capture)
      requires Valid()
      ensures capture == CaptureFor(State(), slug)
      ensures capture.Hit? ==> slug in routes && capture.app == Surface(slug, routes[slug])
      ensures capture.Absent? <==> slug !in routes
      ensures capture.Hit? <==> slug in serverCache
      ensures capture.Build? ==> capture.config == routes[slug] && capture.token == routeGenerations[slug]
      ensures capture.Build? ==>
                && OutcomeOf(State(), slug, capture.token).Published?
                && forall stack: Option<Lifespan> ::
                     var app := Surface(slug, capture.config);
                     var later := Publish(State(), slug, capture.token, app, stack);
                     (stack.Some? <==> app.Some?) ==>
                       Coherent(later) && slug in later.cache && later.cache[slug] == Surface(slug, routes[slug])
    {
      if slug in serverCache {
        return Hit(serverCache[slug]);
      }
      if slug !in routes {
        return Absent;
      }
      capture := Build(routes[slug], routeGenerations[slug]);
    }

    /** Records a finished build, unless its registration was superseded or dropped. */
    method PublishBuild(slug: Slug, config: RouteConfig, token: nat, app: Option<SubApp>, stack: Option<Lifespan>)
      returns (outcome: Outcome)
      requires Valid()
      requires slug in routeGenerations && routeGenerations[slug] == token ==> routes[slug] == config
      requires app == Surface(slug, config) && (stack.Some? <==> app.Some?)
      modifies this
      ensures Valid() && State() == Publish(old(State()), slug, token, app, stack)
      ensures outcome == OutcomeOf(old(State()), slug, token)
      ensures outcome.Published? <==> slug in old(routeGenerations) && old(routeGenerations)[slug] == token
      ensures outcome.Vanished? <==> slug !in old(routeGenerations)
      ensures serverCache == if outcome.Published? then old(serverCache)[slug := app] else old(serverCache)
      ensures appExitStacks == if outcome.Published? && stack.Some? then old(appExitStacks)[slug := stack.value]
                               else old(appExitStacks)
      ensures routes == old(routes) && generation == old(generation) && routeGenerations == old(routeGenerations)
    {
      var current := if slug in routeGenerations then Some(routeGenerations[slug]) else None;
      if current == Some(token) {
        if stack.Some? {
          appExitStacks := appExitStacks[slug := stack.value];
        }
        serverCache := serverCache[slug := app];
        return Published;
      }
      outcome := if current.None? then Vanished else Superseded;
    }
  }
}
