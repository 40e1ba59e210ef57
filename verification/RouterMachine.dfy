/** Every interleaving of requests, builds, registrations and resets, one step per region between awaits. */
module RouterMachine {
  import opened Wrappers
  import opened SubMcpRouter

  datatype Phase =
    | Arrived(slug: Slug)
    | Asking(slug: Slug)
    | Waiting(slug: Slug)
    | Holding(slug: Slug)
    | Building(slug: Slug, config: RouteConfig, token: nat)
    | Built(slug: Slug, config: RouteConfig, token: nat, app: Option<SubApp>, lifespan: Option<Lifespan>)
    | Discarding(slug: Slug, vanished: bool)
    | Answered(app: Option<SubApp>)
    | Raised

  type Request = nat

  /** `lock` is the holder of the build lock, `entered` counts the lifespans entered so far,
    * and `handed` records each lifespan given to a closer with the moment it was. */
  datatype World = World(
    registry: Registry,
    requests: map<Request, Phase>,
    lock: Option<Request>,
    entered: nat,
    handed: set<(Lifespan, nat)>,
    clock: nat)

  const INITIAL := World(EMPTY, map[], None, 0, {}, 0)

  datatype Action =
    | Arrive(request: Request, slug: Slug)
    | FastPath(request: Request)
    | StoreAnswers(request: Request, stored: Option<RouteConfig>)
    | TakeLock(request: Request)
    | CaptureConfig(request: Request)
    | BuildSucceeds(request: Request)
    | Interrupt(request: Request)
    | PublishResult(request: Request)
    | FinishDiscard(request: Request)
    | RegisterApp(slug: Slug, config: RouteConfig)
    | UnregisterApp(slug: Slug)
    | ResetRouter

  predicate Locking(p: Phase) {
    p.Holding? || p.Building? || p.Built? || p.Discarding?
  }

  function HandOver(w: World, l: Option<Lifespan>): set<(Lifespan, nat)> {
    w.handed + if l.Some? then {(l.value, w.clock)} else {}
  }

  function HandOverAll(w: World): set<(Lifespan, nat)> {
    w.handed + set slug | slug in w.registry.stacks :: (w.registry.stacks[slug], w.clock)
  }

  function Registering(w: World, slug: Slug, config: RouteConfig): World {
    w.(registry := Register(w.registry, slug, config), handed := HandOver(w, Replaced(w.registry, slug)))
  }

  function Unregistering(w: World, slug: Slug): World {
    w.(registry := Pop(w.registry, slug), handed := HandOver(w, Get(w.registry.stacks, slug)))
  }

  function Enter(w: World, t: Request, p: Phase): World {
    w.(requests := w.requests[t := p])
  }

  function Leave(w: World, t: Request, p: Phase): World {
    w.(requests := w.requests[t := p], lock := None)
  }

  function AfterCapture(w: World, t: Request, slug: Slug): World
    requires slug in w.registry.routes ==> slug in w.registry.tokens
  {
    match CaptureFor(w.registry, slug)
    case Hit(app) => Leave(w, t, Answered(app))
    case Absent => Leave(w, t, Answered(None))
    case Build(config, token) => Enter(w, t, Building(slug, config, token))
  }

  /** The build ends with its lifespan live, if the app has an ASGI surface at all. */
  function AfterBuild(w: World, t: Request, p: Phase): World
    requires p.Building?
  {
    var app := Surface(p.slug, p.config);
    var lifespan := if app.Some? then Some(w.entered) else None;
    Enter(w, t, Built(p.slug, p.config, p.token, app, lifespan)).(entered := w.entered + if app.Some? then 1 else 0)
  }

  function AfterPublish(w: World, t: Request, p: Phase): World
    requires p.Built?
  {
    var outcome := OutcomeOf(w.registry, p.slug, p.token);
    if outcome.Published? then
      Leave(w, t, Answered(p.app)).(registry := Publish(w.registry, p.slug, p.token, p.app, p.lifespan))
    else
      Enter(w, t, Discarding(p.slug, outcome.Vanished?)).(handed := HandOver(w, p.lifespan))
  }

  /** A failure or a cancellation: a live but unpublished lifespan is unwound on the way out. */
  function AfterInterrupt(w: World, t: Request, p: Phase): World {
    var held := if p.Built? then p.lifespan else None;
    (if Locking(p) then Leave(w, t, Raised) else Enter(w, t, Raised)).(handed := HandOver(w, held))
  }

  function RequestStep(w: World, a: Action, t: Request): (v: World)
    requires t in w.requests
    requires w.registry.routes.Keys == w.registry.tokens.Keys
    ensures v.registry.routes.Keys == v.registry.tokens.Keys
  {
    var p := w.requests[t];
    match a
    case FastPath(_) =>
      if !p.Arrived? then w
      else (match Find(w.registry, p.slug)
            case Cached(app) => Enter(w, t, Answered(app))
            case Registered => Enter(w, t, Waiting(p.slug))
            case Unknown => Enter(w, t, Asking(p.slug)))
    case StoreAnswers(_, stored) =>
      if !p.Asking? then w
      else if stored.None? then Enter(w, t, Answered(None))
      else if !ValidRegistration(p.slug, stored.value.transport) then Enter(w, t, Raised)
      else Enter(Registering(w, p.slug, stored.value), t, Waiting(p.slug))
    case TakeLock(_) =>
      if p.Waiting? && w.lock.None? then Enter(w, t, Holding(p.slug)).(lock := Some(t)) else w
    case CaptureConfig(_) => if p.Holding? then AfterCapture(w, t, p.slug) else w
    case BuildSucceeds(_) => if p.Building? then AfterBuild(w, t, p) else w
    case PublishResult(_) => if p.Built? then AfterPublish(w, t, p) else w
    case FinishDiscard(_) =>
      if !p.Discarding? then w
      else if p.vanished then Leave(w, t, Answered(None)) else Enter(w, t, Holding(p.slug))
    case Interrupt(_) => if p.Answered? || p.Raised? then w else AfterInterrupt(w, t, p)
    case _ => w
  }

  /** One step; an action whose moment has not come leaves the state as it is. */
  function Act(w: World, a: Action): (v: World)
    requires w.registry.routes.Keys == w.registry.tokens.Keys
    ensures v.registry.routes.Keys == v.registry.tokens.Keys
  {
    match a
    case Arrive(t, slug) => if t in w.requests then w else Enter(w, t, Arrived(slug))
    case RegisterApp(slug, config) =>
      if ValidRegistration(slug, config.transport) then Registering(w, slug, config) else w
    case UnregisterApp(slug) => Unregistering(w, slug)
    case ResetRouter => w.(registry := Reset(w.registry), handed := HandOverAll(w))
    case _ => if a.request in w.requests then RequestStep(w, a, a.request) else w
  }

  function Step(w: World, a: Action): (v: World)
    requires w.registry.routes.Keys == w.registry.tokens.Keys
    ensures v.registry.routes.Keys == v.registry.tokens.Keys
  {
    Act(w, a).(clock := w.clock + 1)
  }

  // Where a lifespan can be.

  datatype Place = InStack(slug: Slug) | InFlight(request: Request) | HandedOver(moment: nat)

  ghost predicate At(w: World, l: Lifespan, p: Place) {
    match p
    case InStack(slug) => slug in w.registry.stacks && w.registry.stacks[slug] == l
    case InFlight(t) => t in w.requests && w.requests[t].Built? && w.requests[t].lifespan == Some(l)
    case HandedOver(moment) => (l, moment) in w.handed
  }

  /** What a captured build knows of the registration it started from. */
  ghost predicate CaptureHolds(r: Registry, slug: Slug, config: RouteConfig, token: nat) {
    && token <= r.generation
    && (slug in r.tokens && r.tokens[slug] == token ==>
          slug in r.routes && r.routes[slug] == config && slug !in r.cache)
  }

  ghost predicate PhaseHolds(r: Registry, p: Phase) {
    match p
    case Building(slug, config, token) => CaptureHolds(r, slug, config, token)
    case Built(slug, config, token, app, lifespan) =>
      CaptureHolds(r, slug, config, token) && app == Surface(slug, config) && (lifespan.Some? <==> app.Some?)
    case _ => true
  }

  ghost predicate PhasesHold(w: World) {
    forall t :: t in w.requests ==> PhaseHolds(w.registry, w.requests[t])
  }

  ghost predicate LockHolds(w: World) {
    forall t :: (t in w.requests && Locking(w.requests[t])) <==> w.lock == Some(t)
  }

  predicate HasEntered(w: World, l: Lifespan) {
    l < w.entered
  }

  ghost predicate Placed(w: World) {
    && (forall l: Lifespan, p :: At(w, l, p) ==> HasEntered(w, l))
    && (forall l: Lifespan, p, q :: At(w, l, p) && At(w, l, q) ==> p == q)
    && (forall l: Lifespan :: HasEntered(w, l) ==> exists p :: At(w, l, p))
    && (forall l: Lifespan, moment :: (l, moment) in w.handed ==> moment < w.clock)
  }

  /** The part of the invariant the registry and the phases carry on their own. */
  ghost predicate Sound(w: World) {
    Coherent(w.registry) && LockHolds(w) && PhasesHold(w)
  }

  ghost predicate Invariant(w: World) {
    Sound(w) && Placed(w)
  }

  // The registry half of the invariant.

  /** `after` gives a token that `before` had already issued only to the registration that held it,
    * and has cached nothing for it. */
  ghost predicate Advances(before: Registry, after: Registry) {
    && before.generation <= after.generation
    && forall slug :: slug in after.tokens && after.tokens[slug] <= before.generation ==>
         && slug in before.tokens && before.tokens[slug] == after.tokens[slug]
         && slug in before.routes && slug in after.routes && before.routes[slug] == after.routes[slug]
         && (slug in after.cache ==> slug in before.cache)
  }

  lemma ChangesAdvance(r: Registry, slug: Slug, config: RouteConfig)
    requires Coherent(r)
    ensures Coherent(Register(r, slug, config)) && Advances(r, Register(r, slug, config))
    ensures Coherent(Pop(r, slug)) && Advances(r, Pop(r, slug))
    ensures Coherent(Reset(r)) && Advances(r, Reset(r))
  {
  }

  lemma AdvanceKeepsPhases(w: World, after: Registry)
    requires PhasesHold(w) && Advances(w.registry, after)
    ensures PhasesHold(w.(registry := after))
  {
  }

  lemma PublishKeepsSound(w: World, t: Request)
    requires Sound(w) && t in w.requests && w.requests[t].Built?
    ensures Sound(AfterPublish(w, t, w.requests[t]))
  {
    forall u | u in w.requests && u != t
      ensures !Locking(w.requests[u])
    {
      assert w.lock == Some(t);
    }
  }

  lemma EnterKeepsSound(w: World, t: Request, p: Phase)
    requires Sound(w) && PhaseHolds(w.registry, p)
    requires Locking(p) <==> w.lock == Some(t)
    ensures Sound(Enter(w, t, p))
  {
  }

  lemma LeaveKeepsSound(w: World, t: Request, p: Phase)
    requires Sound(w) && PhaseHolds(w.registry, p)
    requires !Locking(p) && w.lock == Some(t)
    ensures Sound(Leave(w, t, p))
  {
  }

  lemma CaptureKeepsSound(w: World, t: Request)
    requires Sound(w) && t in w.requests && w.requests[t].Holding?
    ensures Sound(AfterCapture(w, t, w.requests[t].slug))
  {
    match CaptureFor(w.registry, w.requests[t].slug)
    case Hit(app) => LeaveKeepsSound(w, t, Answered(app));
    case Absent => LeaveKeepsSound(w, t, Answered(None));
    case Build(config, token) => EnterKeepsSound(w, t, Building(w.requests[t].slug, config, token));
  }

  lemma InterruptKeepsSound(w: World, t: Request)
    requires Sound(w) && t in w.requests
    ensures Sound(AfterInterrupt(w, t, w.requests[t]))
  {
    if Locking(w.requests[t]) {
      LeaveKeepsSound(w, t, Raised);
    } else {
      EnterKeepsSound(w, t, Raised);
    }
  }

  lemma RequestStepKeepsSound(w: World, a: Action, t: Request)
    requires Sound(w) && t in w.requests
    ensures Sound(RequestStep(w, a, t))
  {
    var p := w.requests[t];
    match a
    case FastPath(_) =>
      if p.Arrived? {
        match Find(w.registry, p.slug)
        case Cached(app) => EnterKeepsSound(w, t, Answered(app));
        case Registered => EnterKeepsSound(w, t, Waiting(p.slug));
        case Unknown => EnterKeepsSound(w, t, Asking(p.slug));
      }
    case StoreAnswers(_, stored) =>
      if p.Asking? {
        if stored.None? {
          EnterKeepsSound(w, t, Answered(None));
        } else if !ValidRegistration(p.slug, stored.value.transport) {
          EnterKeepsSound(w, t, Raised);
        } else {
          ChangesAdvance(w.registry, p.slug, stored.value);
          AdvanceKeepsPhases(w, Register(w.registry, p.slug, stored.value));
          EnterKeepsSound(Registering(w, p.slug, stored.value), t, Waiting(p.slug));
        }
      }
    case CaptureConfig(_) => if p.Holding? { CaptureKeepsSound(w, t); }
    case BuildSucceeds(_) =>
      if p.Building? {
        var app := Surface(p.slug, p.config);
        EnterKeepsSound(w, t, Built(p.slug, p.config, p.token, app, if app.Some? then Some(w.entered) else None));
      }
    case PublishResult(_) => if p.Built? { PublishKeepsSound(w, t); }
    case FinishDiscard(_) =>
      if p.Discarding? {
        if p.vanished { LeaveKeepsSound(w, t, Answered(None)); } else { EnterKeepsSound(w, t, Holding(p.slug)); }
      }
    case Interrupt(_) => InterruptKeepsSound(w, t);
    case _ =>
  }

  lemma StepKeepsSound(w: World, a: Action)
    requires Sound(w)
    ensures Sound(Step(w, a))
  {
    match a
    case Arrive(_, _) =>
    case RegisterApp(slug, config) =>
      ChangesAdvance(w.registry, slug, config);
      AdvanceKeepsPhases(w, Register(w.registry, slug, config));
    case UnregisterApp(slug) =>
      ChangesAdvance(w.registry, slug, RouteConfig([], ""));
      AdvanceKeepsPhases(w, Pop(w.registry, slug));
    case ResetRouter =>
      ChangesAdvance(w.registry, "", RouteConfig([], ""));
      AdvanceKeepsPhases(w, Reset(w.registry));
    case _ =>
      if a.request in w.requests {
        RequestStepKeepsSound(w, a, a.request);
      }
  }

  // Conservation: one step moves lifespans out of the places it names into one destination.

  /** The places a step takes lifespans out of. */
  ghost function Sources(w: World, a: Action): set<Place> {
    match a
    case RegisterApp(slug, config) => if ValidRegistration(slug, config.transport) then {InStack(slug)} else {}
    case UnregisterApp(slug) => {InStack(slug)}
    case ResetRouter => set slug | slug in w.registry.stacks :: InStack(slug)
    case StoreAnswers(t, stored) =>
      if t in w.requests && w.requests[t].Asking? && stored.Some?
         && ValidRegistration(w.requests[t].slug, stored.value.transport)
      then {InStack(w.requests[t].slug)} else {}
    case PublishResult(t) => {InFlight(t)}
    case Interrupt(t) => {InFlight(t)}
    case _ => {}
  }

  /** Where it puts them: a matching build is recorded for its slug, everything else goes to one closer. */
  ghost function Destination(w: World, a: Action): Place {
    if a.PublishResult? && a.request in w.requests && w.requests[a.request].Built?
       && OutcomeOf(w.registry, w.requests[a.request].slug, w.requests[a.request].token).Published?
    then InStack(w.requests[a.request].slug)
    else HandedOver(w.clock)
  }

  /** Whether the step enters a new lifespan, held by the build that entered it. */
  ghost predicate Enters(w: World, a: Action) {
    && a.BuildSucceeds? && a.request in w.requests && w.requests[a.request].Building?
    && w.requests[a.request].config.transport != "stdio"
  }

  ghost predicate Taken(w: World, a: Action, l: Lifespan) {
    exists p :: p in Sources(w, a) && At(w, l, p)
  }

  ghost predicate FoundAfter(w: World, a: Action, l: Lifespan, q: Place) {
    || (At(w, l, q) && q !in Sources(w, a))
    || (Taken(w, a, l) && q == Destination(w, a))
    || (Enters(w, a) && l == w.entered && q == InFlight(a.request))
  }

  lemma TakenFrom(w: World, a: Action, l: Lifespan, p: Place)
    requires Sources(w, a) == {p}
    ensures Taken(w, a, l) <==> At(w, l, p)
  {
    assert p in Sources(w, a);
  }

  lemma ResetMoves(w: World, l: Lifespan, q: Place)
    requires Invariant(w)
    ensures At(Step(w, ResetRouter), l, q) <==> FoundAfter(w, ResetRouter, l, q)
  {
    forall slug | slug in w.registry.stacks
      ensures InStack(slug) in Sources(w, ResetRouter)
    {
    }
  }

  /** Taking a slug's stack out of the registry and giving it to a closer. */
  lemma PopMoves(w: World, v: World, slug: Slug, l: Lifespan, q: Place)
    requires v.requests == w.requests && v.handed == HandOver(w, Get(w.registry.stacks, slug))
    requires v.registry.stacks == w.registry.stacks - {slug}
    ensures At(v, l, q) <==>
              (At(w, l, q) && q != InStack(slug)) || (At(w, l, InStack(slug)) && q == HandedOver(w.clock))
  {
  }

  lemma SameStacks(r: Registry, slug: Slug, config: RouteConfig)
    requires Coherent(r)
    ensures Register(r, slug, config).stacks == r.stacks - {slug} && Replaced(r, slug) == Get(r.stacks, slug)
  {
  }

  lemma RegistrationMoves(w: World, a: Action, l: Lifespan, q: Place)
    requires Invariant(w) && (a.RegisterApp? || a.UnregisterApp?)
    ensures At(Step(w, a), l, q) <==> FoundAfter(w, a, l, q)
  {
    if Sources(w, a) != {} {
      TakenFrom(w, a, l, InStack(a.slug));
      SameStacks(w.registry, a.slug, if a.RegisterApp? then a.config else RouteConfig([], ""));
      PopMoves(w, Step(w, a), a.slug, l, q);
    }
  }

  lemma StoreAnswerMoves(w: World, a: Action, l: Lifespan, q: Place)
    requires Invariant(w) && a.StoreAnswers?
    ensures At(Step(w, a), l, q) <==> FoundAfter(w, a, l, q)
  {
    if Sources(w, a) != {} {
      var slug := w.requests[a.request].slug;
      var v := Registering(w, slug, a.stored.value);
      TakenFrom(w, a, l, InStack(slug));
      SameStacks(w.registry, slug, a.stored.value);
      PopMoves(w, v, slug, l, q);
      assert At(Step(w, a), l, q) <==> At(v, l, q);
    }
  }

  lemma BuildEndMoves(w: World, a: Action, l: Lifespan, q: Place)
    requires Invariant(w) && (a.PublishResult? || a.Interrupt?)
    ensures At(Step(w, a), l, q) <==> FoundAfter(w, a, l, q)
  {
    TakenFrom(w, a, l, InFlight(a.request));
  }

  lemma QuietMoves(w: World, a: Action, l: Lifespan, q: Place)
    requires Invariant(w) && Sources(w, a) == {}
    requires !(a.RegisterApp? || a.UnregisterApp? || a.ResetRouter? || a.StoreAnswers? || a.PublishResult? || a.Interrupt?)
    ensures At(Step(w, a), l, q) <==> FoundAfter(w, a, l, q)
  {
  }

  /** Where every lifespan is after a step, exactly. */
  lemma StepMoves(w: World, a: Action, l: Lifespan, q: Place)
    requires Invariant(w)
    ensures At(Step(w, a), l, q) <==> FoundAfter(w, a, l, q)
  {
    match a
    case ResetRouter => ResetMoves(w, l, q);
    case RegisterApp(_, _) => RegistrationMoves(w, a, l, q);
    case UnregisterApp(_) => RegistrationMoves(w, a, l, q);
    case StoreAnswers(_, _) => StoreAnswerMoves(w, a, l, q);
    case PublishResult(_) => BuildEndMoves(w, a, l, q);
    case Interrupt(_) => BuildEndMoves(w, a, l, q);
    case _ => QuietMoves(w, a, l, q);
  }

  lemma FoundInOnePlace(w: World, a: Action, l: Lifespan, p: Place, q: Place)
    requires Placed(w) && FoundAfter(w, a, l, p) && FoundAfter(w, a, l, q)
    ensures p == q
    ensures HasEntered(w, l) || (Enters(w, a) && l == w.entered)
  {
    if Taken(w, a, l) {
      var source :| source in Sources(w, a) && At(w, l, source);
      assert HasEntered(w, l);
    }
  }

  lemma StepKeepsOnePlace(w: World, a: Action, l: Lifespan, p: Place, q: Place)
    requires Invariant(w) && At(Step(w, a), l, p) && At(Step(w, a), l, q)
    ensures p == q && HasEntered(Step(w, a), l)
  {
    StepMoves(w, a, l, p);
    StepMoves(w, a, l, q);
    FoundInOnePlace(w, a, l, p, q);
    EnteredGrows(w, a);
  }

  lemma EnteredGrows(w: World, a: Action)
    requires Invariant(w)
    ensures Step(w, a).entered == w.entered + if Enters(w, a) then 1 else 0
  {
  }

  lemma StepKeepsSomePlace(w: World, a: Action, l: Lifespan)
    requires Invariant(w) && HasEntered(Step(w, a), l)
    ensures exists q :: At(Step(w, a), l, q)
  {
    if Enters(w, a) && l == w.entered {
      StepMoves(w, a, l, InFlight(a.request));
    } else {
      assert HasEntered(w, l);
      var p :| At(w, l, p);
      StepMoves(w, a, l, if p in Sources(w, a) then Destination(w, a) else p);
    }
  }

  lemma StepKeepsPlaced(w: World, a: Action)
    requires Invariant(w)
    ensures Placed(Step(w, a))
  {
    var v := Step(w, a);
    forall l: Lifespan, p, q | At(v, l, p) && At(v, l, q)
      ensures p == q && HasEntered(v, l)
    {
      StepKeepsOnePlace(w, a, l, p, q);
    }
    forall l: Lifespan, p | At(v, l, p)
      ensures HasEntered(v, l)
    {
      StepKeepsOnePlace(w, a, l, p, p);
    }
    forall l: Lifespan | HasEntered(v, l)
      ensures exists q :: At(v, l, q)
    {
      StepKeepsSomePlace(w, a, l);
    }
    forall l: Lifespan, moment | (l, moment) in v.handed
      ensures moment < v.clock
    {
      StepMoves(w, a, l, HandedOver(moment));
    }
  }

  // Whole runs.

  function After(actions: seq<Action>): (w: World)
    ensures w.registry.routes.Keys == w.registry.tokens.Keys
  {
    if actions == [] then INITIAL
    else Step(After(actions[..|actions| - 1]), actions[|actions| - 1])
  }

  lemma {:induction false} RunKeepsInvariant(actions: seq<Action>)
    ensures Invariant(After(actions))
  {
    if actions != [] {
      var earlier := actions[..|actions| - 1];
      RunKeepsInvariant(earlier);
      StepKeepsSound(After(earlier), actions[|actions| - 1]);
      StepKeepsPlaced(After(earlier), actions[|actions| - 1]);
    }
  }

  /** In every reachable state a cached slug is registered, and what it serves was built from
    * exactly the configuration registered now; its lifespan is recorded when it has one. */
  lemma CacheServesCurrentRegistration(actions: seq<Action>, slug: Slug)
    ensures var r := After(actions).registry;
            slug in r.cache ==>
              && slug in r.routes && r.cache[slug] == Surface(slug, r.routes[slug])
              && (slug in r.stacks <==> r.routes[slug].transport != "stdio")
  {
    RunKeepsInvariant(actions);
  }

  /** After any run, every entered lifespan is in exactly one place, and nothing else is anywhere. */
  lemma LifespansConserved(actions: seq<Action>, l: Lifespan)
    ensures l < After(actions).entered <==> exists p :: At(After(actions), l, p)
    ensures forall p, q :: At(After(actions), l, p) && At(After(actions), l, q) ==> p == q
  {
    RunKeepsInvariant(actions);
    assert HasEntered(After(actions), l) <==> l < After(actions).entered;
  }

  /** The next step of any run moves a lifespan only to its destination: a lifespan once given
    * to a closer is never given to another, and none is overwritten where it was recorded. */
  lemma NextStepLosesNothing(actions: seq<Action>, next: Action, l: Lifespan, p: Place)
    requires At(After(actions), l, p)
    ensures At(After(actions + [next]), l, if p in Sources(After(actions), next) then Destination(After(actions), next) else p)
    ensures p.HandedOver? ==> At(After(actions + [next]), l, p)
  {
    RunKeepsInvariant(actions);
    assert (actions + [next])[..|actions|] == actions;
    StepMoves(After(actions), next, l, if p in Sources(After(actions), next) then Destination(After(actions), next) else p);
    StepMoves(After(actions), next, l, p);
  }

  lemma AnswerIsCurrent(w: World, a: Action, t: Request, app: SubApp)
    requires Sound(w) && t in w.requests && !w.requests[t].Answered?
    requires var v := Step(w, a); t in v.requests && v.requests[t] == Answered(Some(app))
    ensures var v := Step(w, a);
            && app.slug in v.registry.routes && v.registry.routes[app.slug] == app.config
            && w.requests[t].slug == app.slug
  {
    assert PhaseHolds(w.registry, w.requests[t]);
  }

  /** A request is only ever answered with an app built from what its slug is registered as at that moment. */
  lemma AnswersComeFromCurrentRegistration(actions: seq<Action>, next: Action, t: Request, app: SubApp)
    requires var w := After(actions); t in w.requests && !w.requests[t].Answered?
    requires var v := After(actions + [next]); t in v.requests && v.requests[t] == Answered(Some(app))
    ensures var v := After(actions + [next]);
            && app.slug in v.registry.routes && v.registry.routes[app.slug] == app.config
            && After(actions).requests[t].slug == app.slug
  {
    RunKeepsInvariant(actions);
    assert (actions + [next])[..|actions|] == actions;
    AnswerIsCurrent(After(actions), next, t, app);
  }

  /** Tokens never repeat: a token issued by some moment of the run, if held later, is held by the
    * same slug for the same configuration, whatever resets and registrations lie between. */
  lemma {:induction false} TokensNeverRepeat(actions: seq<Action>, moment: nat, slug: Slug)
    requires moment <= |actions|
    requires var later := After(actions).registry;
             slug in later.tokens && later.tokens[slug] <= After(actions[..moment]).registry.generation
    ensures var earlier, later := After(actions[..moment]).registry, After(actions).registry;
            && slug in earlier.tokens && earlier.tokens[slug] == later.tokens[slug]
            && earlier.routes[slug] == later.routes[slug]
  {
    if moment == |actions| {
      assert actions[..moment] == actions;
    } else {
      var before := actions[..|actions| - 1];
      assert before[..moment] == actions[..moment];
      GenerationGrows(before, moment);
      RunKeepsInvariant(before);
      StepKeepsTokens(After(before), actions[|actions| - 1], slug);
      TokensNeverRepeat(before, moment, slug);
    }
  }

  lemma StepKeepsTokens(w: World, a: Action, slug: Slug)
    requires Invariant(w)
    ensures w.registry.generation <= Step(w, a).registry.generation
    ensures var r, s := w.registry, Step(w, a).registry;
            slug in s.tokens && s.tokens[slug] <= r.generation ==>
              slug in r.tokens && r.tokens[slug] == s.tokens[slug] && r.routes[slug] == s.routes[slug]
  {
  }

  lemma {:induction false} GenerationGrows(actions: seq<Action>, moment: nat)
    requires moment <= |actions|
    ensures After(actions[..moment]).registry.generation <= After(actions).registry.generation
  {
    if moment == |actions| {
      assert actions[..moment] == actions;
    } else {
      var before := actions[..|actions| - 1];
      assert before[..moment] == actions[..moment];
      GenerationGrows(before, moment);
      RunKeepsInvariant(before);
      StepKeepsTokens(After(before), actions[|actions| - 1], "");
    }
  }
  // What is registered, as the history of the run tells it.

  /** What the action registers the slug as, if it is an accepted registration of it: a direct one, or the store's
    * answer to a request that asks. */
  function Accepted(w: World, a: Action, slug: Slug): Option<RouteConfig> {
    match a
    case RegisterApp(named, config) =>
      if named == slug && ValidRegistration(slug, config.transport) then Some(config) else None
    case StoreAnswers(t, Some(config)) =>
      if t in w.requests && w.requests[t] == Asking(slug) && ValidRegistration(slug, config.transport) then Some(config)
      else None
    case _ => None
  }

  /** The action takes the slug out: its own removal, or a reset. */
  predicate Removes(a: Action, slug: Slug) {
    a == UnregisterApp(slug) || a.ResetRouter?
  }

  function AcceptedAt(actions: seq<Action>, k: nat, slug: Slug): Option<RouteConfig>
    requires k < |actions|
  {
    Accepted(After(actions[..k]), actions[k], slug)
  }

  /** Action `i` of the run registers the slug as `config`, and none after it registers it again or takes it out. */
  predicate StandsSince(actions: seq<Action>, i: nat, slug: Slug, config: RouteConfig) {
    && i < |actions| && AcceptedAt(actions, i, slug) == Some(config)
    && forall k :: i < k < |actions| ==> Untouched(actions, k, slug)
  }

  predicate Untouched(actions: seq<Action>, k: nat, slug: Slug)
    requires k < |actions|
  {
    AcceptedAt(actions, k, slug).None? && !Removes(actions[k], slug)
  }

  lemma RegistrationStep(w: World, a: Action, slug: Slug)
    requires w.registry.routes.Keys == w.registry.tokens.Keys
    ensures Get(Step(w, a).registry.routes, slug) ==
              if Accepted(w, a, slug).Some? then Accepted(w, a, slug)
              else if Removes(a, slug) then None
              else Get(w.registry.routes, slug)
  {
  }

  lemma SameEarlier(actions: seq<Action>, k: nat, slug: Slug)
    requires k < |actions| - 1
    ensures var before := actions[..|actions| - 1];
            && AcceptedAt(before, k, slug) == AcceptedAt(actions, k, slug)
            && (Untouched(before, k, slug) <==> Untouched(actions, k, slug))
  {
    assert actions[..|actions| - 1][..k] == actions[..k];
  }

  lemma EarlierStands(actions: seq<Action>, i: nat, slug: Slug, config: RouteConfig)
    requires i < |actions| - 1
    ensures var last := |actions| - 1;
            StandsSince(actions, i, slug, config) <==>
              StandsSince(actions[..last], i, slug, config) && Untouched(actions, last, slug)
  {
    var last := |actions| - 1;
    var before := actions[..last];
    SameEarlier(actions, i, slug);
    if StandsSince(actions, i, slug, config) {
      forall k | i < k < |before|
        ensures Untouched(before, k, slug)
      {
        SameEarlier(actions, k, slug);
      }
      assert Untouched(actions, last, slug);
    }
    if StandsSince(before, i, slug, config) && Untouched(actions, last, slug) {
      forall k | i < k < |actions|
        ensures Untouched(actions, k, slug)
      {
        if k < last {
          SameEarlier(actions, k, slug);
        }
      }
    }
  }

  /** A slug is registered, as some configuration, exactly when the last accepted registration of it was as that one
    * and neither its removal nor a reset came after: whatever befalls other slugs is nothing to it. */
  lemma {:induction false} RegisteredByHistory(actions: seq<Action>, slug: Slug, config: RouteConfig)
    ensures Get(After(actions).registry.routes, slug) == Some(config) <==> exists i: nat :: StandsSince(actions, i, slug, config)
  {
    if actions != [] {
      var last := |actions| - 1;
      RegisteredByHistory(actions[..last], slug, config);
      RegistrationStep(After(actions[..last]), actions[last], slug);
      if Get(After(actions).registry.routes, slug) == Some(config) {
        if AcceptedAt(actions, last, slug).Some? {
          assert StandsSince(actions, last, slug, config);
        } else {
          var i: nat :| StandsSince(actions[..last], i, slug, config);
          EarlierStands(actions, i, slug, config);
        }
      }
      if i: nat :| StandsSince(actions, i, slug, config) {
        if i < last {
          EarlierStands(actions, i, slug, config);
        }
      }
    }
  }

  /** So a lookup reports a slug unknown exactly when no registration of it stands, and after a removal or a reset none
    * does until it is registered anew. */
  lemma UnknownByHistory(actions: seq<Action>, slug: Slug)
    ensures Find(After(actions).registry, slug).Unknown? <==>
              forall i: nat, config :: !StandsSince(actions, i, slug, config)
    ensures actions != [] && Removes(actions[|actions| - 1], slug) ==> Find(After(actions).registry, slug).Unknown?
  {
    RunKeepsInvariant(actions);
    var r := After(actions).registry;
    if slug in r.routes {
      RegisteredByHistory(actions, slug, r.routes[slug]);
    }
    forall i: nat, config | StandsSince(actions, i, slug, config)
      ensures slug in r.routes
    {
      RegisteredByHistory(actions, slug, config);
    }
    if actions != [] && Removes(actions[|actions| - 1], slug) {
      RegistrationStep(After(actions[..|actions| - 1]), actions[|actions| - 1], slug);
    }
  }
  // A request with nothing in between.

  function Steps(w: World, actions: seq<Action>): (v: World)
    requires w.registry.routes.Keys == w.registry.tokens.Keys
    ensures v.registry.routes.Keys == v.registry.tokens.Keys
    decreases |actions|
  {
    if actions == [] then w else Steps(Step(w, actions[0]), actions[1..])
  }

  /** From the lock on: the request builds what its slug is registered as, answers it, and leaves it cached, with its
    * lifespan recorded and the lock free. */
  lemma UndisturbedBuild(w: World, t: Request, slug: Slug)
    requires w.registry.routes.Keys == w.registry.tokens.Keys
    requires t in w.requests && w.requests[t] == Waiting(slug) && w.lock.None?
    requires slug in w.registry.routes && slug !in w.registry.cache
    ensures var v := Steps(w, [TakeLock(t), CaptureConfig(t), BuildSucceeds(t), PublishResult(t)]);
            var app := if w.registry.routes[slug].transport == "stdio" then None
                       else Some(SubApp(slug, w.registry.routes[slug]));
            && t in v.requests && v.requests[t] == Answered(app) && v.lock.None?
            && v.registry.routes == w.registry.routes && v.registry.cache == w.registry.cache[slug := app]
            && v.registry.stacks == (if app.Some? then w.registry.stacks[slug := w.entered] else w.registry.stacks)
            && v.entered == w.entered + (if app.Some? then 1 else 0) && v.handed == w.handed
  {
    var actions := [TakeLock(t), CaptureConfig(t), BuildSucceeds(t), PublishResult(t)];
    var config, token := w.registry.routes[slug], w.registry.tokens[slug];
    var w1 := Step(w, actions[0]);
    var w2 := Step(w1, actions[1]);
    var w3 := Step(w2, actions[2]);
    var w4 := Step(w3, actions[3]);
    assert w1.requests[t] == Holding(slug) && w1.registry == w.registry;
    assert w2.requests[t] == Building(slug, config, token) && w2.registry == w.registry && w2.entered == w.entered;
    assert w3.requests[t].Built? && w3.registry == w.registry;
    assert w4 == Steps(w4, actions[4..]);
    assert w4 == Steps(w3, actions[3..]);
    assert w4 == Steps(w2, actions[2..]);
    assert w4 == Steps(w1, actions[1..]);
  }

  /** And how a request comes to that: a cached slug is answered at once, a registered one waits for the lock, and an
    * unknown one asks the store, which registers it or leaves it unknown. */
  lemma RequestsGoOn(w: World, t: Request, slug: Slug, stored: Option<RouteConfig>)
    requires w.registry.routes.Keys == w.registry.tokens.Keys && t in w.requests
    ensures w.requests[t] == Arrived(slug) ==>
              Step(w, FastPath(t)).requests[t] ==
                if slug in w.registry.cache then Answered(w.registry.cache[slug])
                else if slug in w.registry.routes then Waiting(slug)
                else Asking(slug)
    ensures w.requests[t] == Asking(slug) ==>
              Step(w, StoreAnswers(t, stored)).requests[t] ==
                if stored.None? then Answered(None)
                else if ValidRegistration(slug, stored.value.transport) then Waiting(slug)
                else Raised
  {
  }
}
