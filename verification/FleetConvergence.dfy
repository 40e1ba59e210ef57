/** How workers keep up with the persisted configuration: subscribe, resync, advertise, then apply what arrives. */
module FleetConvergence {
  import opened Wrappers

  type Origin = nat

  /** A reload op on the control channel; `version` is a configuration persisted before it was sent. */
  datatype Frame = Frame(origin: Origin, targets: Option<set<Origin>>, version: nat)

  datatype Purpose = Resync | Op | Own

  /** A reload inside the worker's reload gate: the version it read, and the subscription it began under. */
  datatype Reload = Reload(read: nat, epoch: nat, purpose: Purpose)

  datatype Phase = Offline | Joining | Resyncing | Resynced | Looping

  /** `up` is the channel as the broker sees it: a worker may still be looping on a severed one.
    * `failed` records a reload that failed under the current subscription. */
  datatype Worker = Worker(
    phase: Phase,
    up: bool,
    inbox: seq<Frame>,
    gate: Option<Reload>,
    loaded: nat,
    epoch: nat,
    synced: bool,
    failed: bool,
    present: bool,
    bootReady: bool,
    resyncFailed: bool)

  datatype Fleet = Fleet(persisted: nat, sent: set<Frame>, workers: map<Origin, Worker>)

  const INITIAL := Fleet(0, {}, map[])

  /** The two orders a connection could use; the code subscribes first. */
  datatype Order = SubscribeThenResync | ResyncThenSubscribe

  datatype Action =
    | Boot(me: Origin, version: nat)
    | Persist
    | Broadcast(frame: Frame)
    | Subscribe(me: Origin)
    | BeginResync(me: Origin)
    | Advertise(me: Origin)
    | TakeOp(me: Origin)
    | BeginOwn(me: Origin)
    | EndReload(me: Origin, ok: bool)
    | Heartbeat(me: Origin)
    | ExpirePresence(me: Origin)
    | Sever(me: Origin)
    | NoticeLoss(me: Origin, deleted: bool)
    | Crash(me: Origin)

  predicate Addresses(f: Frame, me: Origin) {
    f.targets.None? || me in f.targets.value
  }

  /** A frame a worker acts on: addressed to it, and not its own. */
  predicate Concerns(f: Frame, me: Origin) {
    f.origin != me && Addresses(f, me)
  }

  function Deliver(w: Worker, f: Frame): Worker {
    if w.up then w.(inbox := w.inbox + [f]) else w
  }

  function Connected(w: Worker): Worker {
    w.(up := true, inbox := [], epoch := w.epoch + 1, synced := false, failed := false)
  }

  function Open(w: Worker, read: nat, purpose: Purpose): Worker {
    w.(gate := Some(Reload(read, w.epoch, purpose)))
  }

  /** A finished reload: a failed one leaves the loaded version and, unless it is the worker's own, the sync lost. */
  function Closed(w: Worker, r: Reload, ok: bool): Worker {
    var v := w.(gate := None, phase := if r.purpose.Resync? then Resynced else w.phase);
    if ok then
      v.(loaded := r.read,
         synced := v.synced || (r.epoch == w.epoch && w.phase != Offline),
         bootReady := v.bootReady || r.purpose.Resync?)
    else if r.purpose.Own? then v
    else v.(synced := false, failed := true, resyncFailed := v.resyncFailed || r.purpose.Resync?)
  }

  /** The head of the inbox: the worker's own op and one for others are dropped, the rest reload. */
  function Handled(w: Worker, me: Origin, persisted: nat): Worker
    requires w.inbox != []
  {
    if !Concerns(w.inbox[0], me) then w.(inbox := w.inbox[1..])
    else if w.gate.None? then Open(w.(inbox := w.inbox[1..]), persisted, Op)
    else w
  }

  /** A publisher addressed by its own op applies it before it broadcasts, through the same gate: it has loaded the
    * version, or its apply has failed, with nothing older still being read. */
  predicate MayBroadcast(f: Fleet, frame: Frame) {
    && frame.version <= f.persisted
    && (frame.origin in f.workers && Addresses(frame, frame.origin) ==>
          var w := f.workers[frame.origin];
          frame.version <= w.loaded || w.gate.None? || frame.version <= w.gate.value.read)
  }

  /** A broadcast that goes out after a failed local apply leaves its sender knowingly behind. */
  function Sent(w: Worker, me: Origin, frame: Frame): Worker {
    if frame.origin == me && Addresses(frame, me) && frame.version > w.loaded
    then w.(synced := false, failed := true) else w
  }

  /** A worker notices a lost channel when it is not in the middle of applying something from it. */
  predicate Notices(w: Worker) {
    !w.phase.Offline? && (w.gate.None? || w.gate.value.purpose.Own?)
  }

  function WorkerStep(order: Order, w: Worker, a: Action, persisted: nat): Worker
    requires !(a.Persist? || a.Broadcast?)
  {
    match a
    case Subscribe(_) =>
      if order.SubscribeThenResync? && w.phase.Offline? then Connected(w).(phase := Joining)
      else if order.ResyncThenSubscribe? && w.phase.Resynced? && !w.up then Connected(w)
      else w
    case BeginResync(_) =>
      if w.gate.None? && w.phase == (if order.SubscribeThenResync? then Joining else Offline)
      then Open(w.(phase := Resyncing), persisted, Resync) else w
    case Advertise(_) =>
      if w.phase.Resynced? && (order.SubscribeThenResync? || w.up) then w.(phase := Looping, present := true) else w
    case TakeOp(_) => if w.phase.Looping? && w.inbox != [] then Handled(w, a.me, persisted) else w
    case BeginOwn(_) => if w.gate.None? then Open(w, persisted, Own) else w
    case EndReload(_, ok) => if w.gate.Some? then Closed(w, w.gate.value, ok) else w
    case Heartbeat(_) => if w.phase.Looping? then w.(present := true) else w
    case ExpirePresence(_) => w.(present := false)
    case Sever(_) => w.(up := false)
    case NoticeLoss(_, deleted) =>
      if !Notices(w) then w
      else w.(phase := Offline, up := false, synced := false, present := w.present && !deleted)
    case _ => w
  }

  function Step(order: Order, f: Fleet, a: Action): Fleet {
    match a
    case Persist => f.(persisted := f.persisted + 1)
    case Broadcast(frame) =>
      if !MayBroadcast(f, frame) then f
      else
        f.(sent := f.sent + {frame},
           workers := map me | me in f.workers :: Deliver(Sent(f.workers[me], me, frame), frame))
    case Boot(me, version) =>
      if me in f.workers || version > f.persisted then f
      else f.(workers := f.workers[me :=
             Worker(Offline, false, [], None, version, 0, false, false, false, false, false)])
    case Crash(me) => f.(workers := f.workers - {me})
    case _ =>
      if a.me in f.workers then f.(workers := f.workers[a.me := WorkerStep(order, f.workers[a.me], a, f.persisted)])
      else f
  }

  function Run(order: Order, f: Fleet, actions: seq<Action>): Fleet
    decreases |actions|
  {
    if actions == [] then f else Run(order, Step(order, f, actions[0]), actions[1..])
  }

  // What holds of every worker.

  /** A frame addressed to the worker is covered by `version`, or, if it is not its own, waiting. */
  ghost predicate Covered(sent: set<Frame>, me: Origin, inbox: seq<Frame>, version: nat) {
    forall f :: f in sent && Addresses(f, me) ==> f.version <= version || (f.origin != me && f in inbox)
  }

  ghost predicate GateHolds(persisted: nat, sent: set<Frame>, me: Origin, w: Worker) {
    w.gate.Some? ==>
      var r := w.gate.value;
      && w.loaded <= r.read <= persisted && r.epoch <= w.epoch
      && (r.purpose.Resync? <==> w.phase.Resyncing?)
      && (r.purpose.Op? ==> w.phase.Looping?)
      && (!r.purpose.Own? ==> r.epoch == w.epoch)
      && (w.up && r.epoch == w.epoch ==> Covered(sent, me, w.inbox, r.read))
  }

  ghost predicate Holds(persisted: nat, sent: set<Frame>, me: Origin, w: Worker) {
    && w.loaded <= persisted
    && GateHolds(persisted, sent, me, w)
    && (w.phase.Resyncing? ==> w.gate.Some? && w.gate.value.purpose.Resync?)
    && (w.up ==> !w.phase.Offline?)
    && (w.synced && w.up && !(w.gate.Some? && w.gate.value.purpose.Op?) ==> Covered(sent, me, w.inbox, w.loaded))
    && (w.phase.Resynced? || w.phase.Looping? ==> w.synced || w.failed)
    && (w.present ==> w.bootReady || w.resyncFailed)
    && (w.phase.Resynced? || w.phase.Looping? ==> w.bootReady || w.resyncFailed)
  }

  ghost predicate Invariant(f: Fleet) {
    && (forall frame :: frame in f.sent ==> frame.version <= f.persisted)
    && (forall me :: me in f.workers ==> Holds(f.persisted, f.sent, me, f.workers[me]))
  }

  /** Dropping the head of the inbox uncovers nothing, if the head concerned others or is no newer than `version`. */
  lemma CoveredWithoutHead(sent: set<Frame>, me: Origin, inbox: seq<Frame>, version: nat, covered: nat)
    requires inbox != [] && Covered(sent, me, inbox, version) && version <= covered
    requires Concerns(inbox[0], me) ==> inbox[0].version <= covered
    ensures Covered(sent, me, inbox[1..], covered)
  {
    forall f | f in inbox && f != inbox[0]
      ensures f in inbox[1..]
    {
      assert inbox == [inbox[0]] + inbox[1..];
    }
  }

  lemma TakingKeeps(w: Worker, me: Origin, persisted: nat, sent: set<Frame>)
    requires forall frame :: frame in sent ==> frame.version <= persisted
    requires Holds(persisted, sent, me, w) && w.phase.Looping? && w.inbox != []
    ensures Holds(persisted, sent, me, Handled(w, me, persisted))
  {
    if !Concerns(w.inbox[0], me) {
      if Covered(sent, me, w.inbox, w.loaded) {
        CoveredWithoutHead(sent, me, w.inbox, w.loaded, w.loaded);
      }
      if w.gate.Some? && Covered(sent, me, w.inbox, w.gate.value.read) {
        CoveredWithoutHead(sent, me, w.inbox, w.gate.value.read, w.gate.value.read);
      }
    } else {
      assert Covered(sent, me, w.inbox[1..], persisted);
    }
  }

  lemma ReloadEndKeeps(w: Worker, me: Origin, ok: bool, persisted: nat, sent: set<Frame>)
    requires forall frame :: frame in sent ==> frame.version <= persisted
    requires Holds(persisted, sent, me, w) && w.gate.Some?
    ensures Holds(persisted, sent, me, Closed(w, w.gate.value, ok))
  {
  }

  lemma ConnectingKeeps(w: Worker, me: Origin, persisted: nat, sent: set<Frame>)
    requires Holds(persisted, sent, me, w) && w.phase.Offline?
    ensures Holds(persisted, sent, me, Connected(w).(phase := Joining))
  {
  }

  lemma OpeningKeeps(w: Worker, me: Origin, purpose: Purpose, persisted: nat, sent: set<Frame>)
    requires forall frame :: frame in sent ==> frame.version <= persisted
    requires Holds(persisted, sent, me, w) && w.gate.None?
    requires purpose.Own? || (purpose.Resync? && w.phase.Joining?)
    ensures Holds(persisted, sent, me, Open(if purpose.Resync? then w.(phase := Resyncing) else w, persisted, purpose))
  {
  }

  lemma LosingKeeps(w: Worker, me: Origin, deleted: bool, persisted: nat, sent: set<Frame>)
    requires Holds(persisted, sent, me, w) && Notices(w)
    ensures Holds(persisted, sent, me, w.(phase := Offline, up := false, synced := false, present := w.present && !deleted))
  {
  }

  lemma CountingKeeps(w: Worker, me: Origin, persisted: nat, sent: set<Frame>)
    requires Holds(persisted, sent, me, w)
    ensures w.phase.Resynced? ==> Holds(persisted, sent, me, w.(phase := Looping, present := true))
    ensures w.phase.Looping? ==> Holds(persisted, sent, me, w.(present := true))
    ensures Holds(persisted, sent, me, w.(present := false)) && Holds(persisted, sent, me, w.(up := false))
  {
  }

  predicate OfReload(a: Action) {
    a.TakeOp? || a.EndReload? || a.BeginResync? || a.BeginOwn?
  }

  lemma ReloadStepKeeps(w: Worker, a: Action, persisted: nat, sent: set<Frame>)
    requires OfReload(a) && (forall frame :: frame in sent ==> frame.version <= persisted)
    requires Holds(persisted, sent, a.me, w)
    ensures Holds(persisted, sent, a.me, WorkerStep(SubscribeThenResync, w, a, persisted))
  {
    match a
    case TakeOp(me) => if w.phase.Looping? && w.inbox != [] { TakingKeeps(w, me, persisted, sent); }
    case EndReload(me, ok) => if w.gate.Some? { ReloadEndKeeps(w, me, ok, persisted, sent); }
    case BeginResync(me) => if w.gate.None? && w.phase.Joining? { OpeningKeeps(w, me, Resync, persisted, sent); }
    case BeginOwn(me) => if w.gate.None? { OpeningKeeps(w, me, Own, persisted, sent); }
  }

  lemma ChannelStepKeeps(w: Worker, a: Action, persisted: nat, sent: set<Frame>)
    requires !(a.Persist? || a.Broadcast? || a.Boot? || a.Crash? || OfReload(a))
    requires Holds(persisted, sent, a.me, w)
    ensures Holds(persisted, sent, a.me, WorkerStep(SubscribeThenResync, w, a, persisted))
  {
    if a.Subscribe? {
      if w.phase.Offline? { ConnectingKeeps(w, a.me, persisted, sent); }
    } else if a.NoticeLoss? {
      if Notices(w) { LosingKeeps(w, a.me, a.deleted, persisted, sent); }
    } else {
      CountingKeeps(w, a.me, persisted, sent);
    }
  }

  lemma DeliveryKeeps(w: Worker, me: Origin, persisted: nat, sent: set<Frame>, frame: Frame)
    requires Holds(persisted, sent, me, w) && frame.version <= persisted
    requires frame.origin == me && Addresses(frame, me) ==>
               frame.version <= w.loaded || w.gate.None? || frame.version <= w.gate.value.read
    ensures Holds(persisted, sent + {frame}, me, Deliver(Sent(w, me, frame), frame))
  {
  }

  lemma StepKeepsInvariant(f: Fleet, a: Action)
    requires Invariant(f)
    ensures Invariant(Step(SubscribeThenResync, f, a))
  {
    if a.Broadcast? && !MayBroadcast(f, a.frame) {
    } else if a.Broadcast? {
      forall me | me in f.workers {
        DeliveryKeeps(f.workers[me], me, f.persisted, f.sent, a.frame);
      }
    } else if !a.Persist? && !a.Boot? && !a.Crash? && a.me in f.workers {
      if OfReload(a) {
        ReloadStepKeeps(f.workers[a.me], a, f.persisted, f.sent);
      } else {
        ChannelStepKeeps(f.workers[a.me], a, f.persisted, f.sent);
      }
    }
  }

  lemma {:induction false} RunKeepsInvariant(f: Fleet, actions: seq<Action>)
    requires Invariant(f)
    ensures Invariant(Run(SubscribeThenResync, f, actions))
    decreases |actions|
  {
    if actions != [] {
      StepKeepsInvariant(f, actions[0]);
      RunKeepsInvariant(Step(SubscribeThenResync, f, actions[0]), actions[1..]);
    }
  }

  /** Nothing of another worker's is waiting to be applied, or being applied. */
  ghost predicate Drained(w: Worker, me: Origin) {
    && (forall f :: f in w.inbox ==> !Concerns(f, me))
    && !(w.gate.Some? && w.gate.value.purpose.Op?)
  }

  /** Past its resync on a live channel, with no reload failed since it subscribed. */
  ghost predicate Settled(w: Worker) {
    w.up && (w.phase.Resynced? || w.phase.Looping?) && !w.failed
  }

  ghost predicate UpToDate(f: Fleet, me: Origin)
    requires me in f.workers
  {
    forall frame :: frame in f.sent && (frame.targets.None? || me in frame.targets.value) ==>
      frame.version <= f.workers[me].loaded
  }

  /** No lost update: in every interleaving, a worker on a live channel whose last reload succeeded and whose inbox is
    * drained has loaded a version at least as new as every one broadcast to it, by itself or by others. */
  lemma NoLostUpdate(actions: seq<Action>, me: Origin)
    requires var f := Run(SubscribeThenResync, INITIAL, actions);
             me in f.workers && f.workers[me].up && f.workers[me].synced && Drained(f.workers[me], me)
    ensures UpToDate(Run(SubscribeThenResync, INITIAL, actions), me)
  {
    RunKeepsInvariant(INITIAL, actions);
    var w := Run(SubscribeThenResync, INITIAL, actions).workers[me];
    assert Covered(Run(SubscribeThenResync, INITIAL, actions).sent, me, w.inbox, w.loaded);
  }

  /** In particular a settled worker needs no further reload to be up to date. */
  lemma SettledWorkersAreUpToDate(actions: seq<Action>, me: Origin)
    requires var f := Run(SubscribeThenResync, INITIAL, actions);
             me in f.workers && Settled(f.workers[me]) && Drained(f.workers[me], me)
    ensures UpToDate(Run(SubscribeThenResync, INITIAL, actions), me)
  {
    RunKeepsInvariant(INITIAL, actions);
    NoLostUpdate(actions, me);
  }

  /** A worker is in the census only once a resync attempt of its own has ended, and is
    * ready for work if that attempt succeeded. */
  lemma CountedMeansResynced(actions: seq<Action>, me: Origin)
    requires var f := Run(SubscribeThenResync, INITIAL, actions); me in f.workers && f.workers[me].present
    ensures var w := Run(SubscribeThenResync, INITIAL, actions).workers[me]; w.bootReady || w.resyncFailed
  {
    RunKeepsInvariant(INITIAL, actions);
  }

  // The census across a reconnect.

  /** The step puts the worker's presence key in place. */
  predicate Registers(w: Worker, a: Action) {
    (a.Advertise? && w.phase.Resynced?) || (a.Heartbeat? && w.phase.Looping?)
  }

  /** The step takes it away: the key expires, or a teardown succeeds in deleting it. */
  predicate Unregisters(w: Worker, a: Action) {
    a.ExpirePresence? || (a.NoticeLoss? && a.deleted && Notices(w))
  }

  predicate Acts(a: Action, me: Origin) {
    !a.Persist? && !a.Broadcast? && a.me == me
  }

  /** No step of the run registers the worker, or ends or restarts its process. */
  predicate Unadvertised(f: Fleet, actions: seq<Action>, me: Origin)
    decreases |actions|
  {
    me in f.workers &&
    (actions == [] ||
      (&& !(Acts(actions[0], me) && (actions[0].Crash? || Registers(f.workers[me], actions[0])))
       && Unadvertised(Step(SubscribeThenResync, f, actions[0]), actions[1..], me)))
  }

  /** Some step of the run takes the worker's key away. */
  predicate Dropped(f: Fleet, actions: seq<Action>, me: Origin)
    requires Unadvertised(f, actions, me)
    decreases |actions|
  {
    actions != [] &&
    ((Acts(actions[0], me) && Unregisters(f.workers[me], actions[0]))
     || Dropped(Step(SubscribeThenResync, f, actions[0]), actions[1..], me))
  }

  lemma OwnCountingStep(w: Worker, a: Action, persisted: nat)
    requires !(a.Persist? || a.Broadcast? || a.Boot? || a.Crash?)
    ensures WorkerStep(SubscribeThenResync, w, a, persisted).present <==>
              Registers(w, a) || (w.present && !Unregisters(w, a))
  {
  }

  /** Exactly which step changes whether a worker is counted. */
  lemma CountingStep(f: Fleet, a: Action, me: Origin)
    requires me in f.workers && me in Step(SubscribeThenResync, f, a).workers
    ensures Step(SubscribeThenResync, f, a).workers[me].present <==>
              || (Acts(a, me) && Registers(f.workers[me], a))
              || (f.workers[me].present && !(Acts(a, me) && Unregisters(f.workers[me], a)))
  {
    if Acts(a, me) && !a.Boot? && !a.Crash? {
      OwnCountingStep(f.workers[me], a, f.persisted);
    }
  }

  lemma {:induction false} CountedWhileUnadvertised(f: Fleet, actions: seq<Action>, me: Origin)
    requires Unadvertised(f, actions, me)
    ensures me in Run(SubscribeThenResync, f, actions).workers
    ensures Run(SubscribeThenResync, f, actions).workers[me].present <==>
              f.workers[me].present && !Dropped(f, actions, me)
    decreases |actions|
  {
    if actions != [] {
      CountedWhileUnadvertised(Step(SubscribeThenResync, f, actions[0]), actions[1..], me);
      CountingStep(f, actions[0], me);
    }
  }

  /** A worker that loses its channel stays counted until it advertises itself again exactly if it was counted, its
    * teardown failed to delete the key, and nothing since has: no expiry, and no later teardown. */
  lemma CountedAcrossReconnect(f: Fleet, me: Origin, deleted: bool, actions: seq<Action>)
    requires me in f.workers && Notices(f.workers[me])
    requires Unadvertised(Step(SubscribeThenResync, f, NoticeLoss(me, deleted)), actions, me)
    ensures var lost := Step(SubscribeThenResync, f, NoticeLoss(me, deleted));
            && me in Run(SubscribeThenResync, lost, actions).workers
            && (Run(SubscribeThenResync, lost, actions).workers[me].present <==>
                  f.workers[me].present && !deleted && !Dropped(lost, actions, me))
  {
    CountedWhileUnadvertised(Step(SubscribeThenResync, f, NoticeLoss(me, deleted)), actions, me);
  }

  lemma LoadedStep(w: Worker, a: Action, persisted: nat, sent: set<Frame>)
    requires !(a.Persist? || a.Broadcast? || a.Boot? || a.Crash?) && GateHolds(persisted, sent, a.me, w)
    ensures w.loaded <= WorkerStep(SubscribeThenResync, w, a, persisted).loaded
  {
    if a.EndReload? && w.gate.Some? {
      assert w.loaded <= w.gate.value.read;
    }
  }

  /** No step takes a worker back to an older version. */
  lemma LoadedNeverFalls(actions: seq<Action>, next: Action, me: Origin)
    requires var f := Run(SubscribeThenResync, INITIAL, actions);
             me in f.workers && me in Step(SubscribeThenResync, f, next).workers
    ensures var f := Run(SubscribeThenResync, INITIAL, actions);
            f.workers[me].loaded <= Step(SubscribeThenResync, f, next).workers[me].loaded
  {
    RunKeepsInvariant(INITIAL, actions);
    var f := Run(SubscribeThenResync, INITIAL, actions);
    if !(next.Persist? || next.Broadcast? || next.Boot? || next.Crash?) && next.me == me {
      LoadedStep(f.workers[me], next, f.persisted, f.sent);
    }
  }

  // Convergence is reached: what a worker's rounds come to with nothing in between.

  function Only(f: Fleet, me: Origin, w: Worker): Fleet {
    f.(workers := f.workers[me := w])
  }

  lemma OnlyLast(f: Fleet, me: Origin, w: Worker)
    ensures forall v :: Only(Only(f, me, w), me, v) == Only(f, me, v)
  {
    forall v
      ensures Only(Only(f, me, w), me, v) == Only(f, me, v)
    {
      assert f.workers[me := w][me := v] == f.workers[me := v];
    }
  }

  lemma TwoSteps(f: Fleet, first: Action, second: Action)
    ensures Run(SubscribeThenResync, f, [first, second]) ==
              Step(SubscribeThenResync, Step(SubscribeThenResync, f, first), second)
  {
    var actions := [first, second];
    var g := Step(SubscribeThenResync, f, first);
    var h := Step(SubscribeThenResync, g, second);
    assert actions[1..] == [second] && [second][1..] == [];
    assert Run(SubscribeThenResync, h, []) == h;
    assert Run(SubscribeThenResync, g, [second]) == Run(SubscribeThenResync, h, [second][1..]);
  }

  /** A connection: the worker is subscribed with an empty inbox, has loaded the version persisted now, is advertised,
    * and is marked behind only if the reload failed. */
  lemma ReconnectConverges(f: Fleet, me: Origin, ok: bool)
    requires me in f.workers && f.workers[me].phase.Offline? && f.workers[me].gate.None?
    ensures var w := f.workers[me];
            var subscribed := Run(SubscribeThenResync, f, [Subscribe(me), BeginResync(me)]);
            Run(SubscribeThenResync, subscribed, [EndReload(me, ok), Advertise(me)]) ==
              Only(f, me, Worker(Looping, true, [], None, if ok then f.persisted else w.loaded, w.epoch + 1, ok, !ok, true,
                                 w.bootReady || ok, w.resyncFailed || !ok))
  {
    var w := f.workers[me];
    var joining := Connected(w).(phase := Joining);
    var resyncing := Open(joining.(phase := Resyncing), f.persisted, Resync);
    TwoSteps(f, Subscribe(me), BeginResync(me));
    assert Step(SubscribeThenResync, f, Subscribe(me)) == Only(f, me, joining);
    assert f.workers[me := joining][me := resyncing] == f.workers[me := resyncing];
    assert Step(SubscribeThenResync, Only(f, me, joining), BeginResync(me)) == Only(f, me, resyncing);
    ResyncEnds(Only(f, me, resyncing), me, ok);
    OnlyLast(f, me, resyncing);
  }

  lemma ResyncEnds(f: Fleet, me: Origin, ok: bool)
    requires me in f.workers && f.workers[me].phase.Resyncing?
    requires var w := f.workers[me]; w.gate.Some? && w.gate.value == Reload(w.gate.value.read, w.epoch, Resync) && !w.synced && !w.failed
    ensures var w := f.workers[me];
            Run(SubscribeThenResync, f, [EndReload(me, ok), Advertise(me)]) ==
              Only(f, me, Worker(Looping, w.up, w.inbox, None, if ok then w.gate.value.read else w.loaded, w.epoch, ok, !ok,
                                 true, w.bootReady || ok, w.resyncFailed || !ok))
  {
    var w := f.workers[me];
    var ended := Closed(w, w.gate.value, ok);
    TwoSteps(f, EndReload(me, ok), Advertise(me));
    assert Step(SubscribeThenResync, f, EndReload(me, ok)) == Only(f, me, ended);
    OnlyLast(f, me, ended);
  }

  /** The head of the inbox, if it concerns the worker: taken and applied, it leaves the worker at the version persisted
    * now, or, if the apply failed, where it was and behind. */
  lemma OpConverges(f: Fleet, me: Origin, ok: bool)
    requires me in f.workers && f.workers[me].phase.Looping? && f.workers[me].gate.None?
    requires f.workers[me].inbox != []
    requires var frame := f.workers[me].inbox[0]; frame.origin != me && (frame.targets.None? || me in frame.targets.value)
    ensures var w := f.workers[me];
            Run(SubscribeThenResync, f, [TakeOp(me), EndReload(me, ok)]) ==
              Only(f, me, w.(inbox := w.inbox[1..], loaded := if ok then f.persisted else w.loaded, synced := ok,
                             failed := w.failed || !ok))
  {
    var w := f.workers[me];
    var taken := Open(w.(inbox := w.inbox[1..]), f.persisted, Op);
    TwoSteps(f, TakeOp(me), EndReload(me, ok));
    assert Step(SubscribeThenResync, f, TakeOp(me)) == Only(f, me, taken);
    OnlyLast(f, me, taken);
  }

  /** One that does not concern it, its own among them, is dropped and changes nothing else. */
  lemma OthersOpsAreDropped(f: Fleet, me: Origin)
    requires me in f.workers && f.workers[me].phase.Looping?
    requires f.workers[me].inbox != []
    requires var frame := f.workers[me].inbox[0]; frame.origin == me || (frame.targets.Some? && me !in frame.targets.value)
    ensures Step(SubscribeThenResync, f, TakeOp(me)) == Only(f, me, f.workers[me].(inbox := f.workers[me].inbox[1..]))
  {
  }

  /** A worker's own apply: it has loaded the version persisted now, unless the apply failed. */
  lemma OwnApplyLoads(f: Fleet, me: Origin, ok: bool)
    requires me in f.workers && f.workers[me].gate.None?
    ensures var w := f.workers[me];
            Run(SubscribeThenResync, f, [BeginOwn(me), EndReload(me, ok)]) ==
              Only(f, me, if ok then w.(loaded := f.persisted, synced := w.synced || !w.phase.Offline?) else w)
  {
    var w := f.workers[me];
    var applying := Open(w, f.persisted, Own);
    TwoSteps(f, BeginOwn(me), EndReload(me, ok));
    assert Step(SubscribeThenResync, f, BeginOwn(me)) == Only(f, me, applying);
    OnlyLast(f, me, applying);
  }

  /** A broadcast reaches the inbox of every worker on a live channel, and of no other. */
  lemma BroadcastReaches(f: Fleet, frame: Frame, me: Origin)
    requires me in f.workers && MayBroadcast(f, frame)
    ensures var g := Step(SubscribeThenResync, f, Broadcast(frame));
            && g.workers.Keys == f.workers.Keys && g.sent == f.sent + {frame} && g.persisted == f.persisted
            && g.workers[me].inbox == f.workers[me].inbox + (if f.workers[me].up then [frame] else [])
  {
    assert f.workers[me].inbox + [] == f.workers[me].inbox;
  }

  /** So nothing sent while a channel is severed is ever in its inbox: only the next connection's resync makes up for it. */
  lemma SeveredWorkersHearNothing(f: Fleet, frame: Frame, me: Origin)
    requires me in f.workers
    ensures var g := Run(SubscribeThenResync, f, [Sever(me), Broadcast(frame)]);
            me in g.workers && g.workers[me].inbox == f.workers[me].inbox
  {
    TwoSteps(f, Sever(me), Broadcast(frame));
    var g := Step(SubscribeThenResync, f, Sever(me));
    if MayBroadcast(g, frame) {
      BroadcastReaches(g, frame, me);
    }
  }

  // Why the subscription comes first.

  function LateSubscription(me: Origin, frame: Frame): seq<Action> {
    [Boot(me, 0), BeginResync(me), EndReload(me, true), Persist, Broadcast(frame), Subscribe(me), Advertise(me)]
  }

  /** The worker after its resync, and after the subscription and advertisement that follow the broadcast. */
  function ResyncedEarly(): Worker {
    Worker(Resynced, false, [], None, 0, 0, true, false, false, true, false)
  }

  function CountedLate(): Worker {
    Worker(Looping, true, [], None, 0, 1, false, false, true, true, false)
  }

  lemma EarlyResync(me: Origin, frame: Frame)
    ensures Run(ResyncThenSubscribe, INITIAL, LateSubscription(me, frame)) ==
              Run(ResyncThenSubscribe, Fleet(0, {}, map[me := ResyncedEarly()]), LateSubscription(me, frame)[3..])
  {
    var actions := LateSubscription(me, frame);
    var w := Worker(Offline, false, [], None, 0, 0, false, false, false, false, false);
    var f0 := Fleet(0, {}, map[me := w]);
    var f1 := Fleet(0, {}, map[me := w.(phase := Resyncing, gate := Some(Reload(0, 0, Resync)))]);
    var f2 := Fleet(0, {}, map[me := ResyncedEarly()]);
    assert Step(ResyncThenSubscribe, INITIAL, actions[0]) == f0;
    assert Step(ResyncThenSubscribe, f0, actions[1]) == f1;
    assert Step(ResyncThenSubscribe, f1, actions[2]) == f2;
    assert Run(ResyncThenSubscribe, INITIAL, actions) == Run(ResyncThenSubscribe, f0, actions[1..]);
    assert Run(ResyncThenSubscribe, f0, actions[1..]) == Run(ResyncThenSubscribe, f1, actions[2..]);
  }

  lemma LateSubscriptionCounts(me: Origin, frame: Frame)
    requires frame.origin != me && frame.version == 1
    ensures Run(ResyncThenSubscribe, Fleet(0, {}, map[me := ResyncedEarly()]), LateSubscription(me, frame)[3..]) ==
              Fleet(1, {frame}, map[me := CountedLate()])
  {
    var rest := LateSubscription(me, frame)[3..];
    var f0 := Fleet(0, {}, map[me := ResyncedEarly()]);
    var f1 := Fleet(1, {}, map[me := ResyncedEarly()]);
    var f2 := Fleet(1, {frame}, map[me := ResyncedEarly()]);
    var f3 := Fleet(1, {frame}, map[me := Connected(ResyncedEarly())]);
    var f4 := Fleet(1, {frame}, map[me := CountedLate()]);
    assert Step(ResyncThenSubscribe, f0, rest[0]) == f1;
    assert Step(ResyncThenSubscribe, f1, rest[1]) == f2;
    assert Step(ResyncThenSubscribe, f2, rest[2]) == f3;
    assert Step(ResyncThenSubscribe, f3, rest[3]) == f4;
    assert f4 == Run(ResyncThenSubscribe, f4, rest[4..]);
    assert f4 == Run(ResyncThenSubscribe, f3, rest[3..]);
    assert f4 == Run(ResyncThenSubscribe, f2, rest[2..]);
    assert f4 == Run(ResyncThenSubscribe, f1, rest[1..]);
  }

  /** The order carries the result: resyncing before subscribing loses the update broadcast in between. */
  lemma ResyncingFirstLosesUpdates(me: Origin, other: Origin)
    requires me != other
    ensures exists actions ::
              var f := Run(ResyncThenSubscribe, INITIAL, actions);
              me in f.workers && Settled(f.workers[me]) && Drained(f.workers[me], me) && !UpToDate(f, me)
  {
    var frame := Frame(other, None, 1);
    EarlyResync(me, frame);
    LateSubscriptionCounts(me, frame);
    var f := Run(ResyncThenSubscribe, INITIAL, LateSubscription(me, frame));
    assert frame in f.sent && Addresses(frame, me);
  }
}
