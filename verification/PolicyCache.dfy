/** The per-worker policy cache keyed on a counter that every mutation bumps after it commits. */
module PolicyCache {
  import opened Wrappers
  import opened AccessPolicies

  type Worker = nat
  type Caller = nat

  /** A policy row at one revision; revision 0 is the row nobody has written yet. */
  datatype Row = Row(revision: nat, policy: Option<Policy>)

  datatype Call =
    | Started(worker: Worker, user: User)
    | Versioned(worker: Worker, user: User, version: nat)
    | Fetched(worker: Worker, user: User, version: nat, row: Row)
    | Returned(user: User, row: Row)
    | Raised(user: User)

  /** The store and the workers: `pending` holds the mutations that have committed but not bumped yet,
    * `settled` the last revision of each user whose mutation is complete, and `marks[v]` what was
    * settled when the counter reached `v`. */
  datatype World = World(
    rows: map<User, Row>,
    log: map<(User, nat), Option<Policy>>,
    pending: set<(User, nat)>,
    settled: map<User, nat>,
    marks: seq<map<User, nat>>,
    caches: map<(Worker, User, nat), Row>,
    calls: map<Caller, Call>)

  const INITIAL := World(map[], map[], {}, map[], [map[]], map[], map[])

  /** The order a mutation could write in; the code commits first. */
  datatype Order = CommitThenBump | BumpThenCommit

  datatype Action =
    | Commit(user: User, policy: Option<Policy>)
    | Bump(user: User, revision: nat)
    | Evict(worker: Worker, user: User, version: nat)
    | BeginCall(caller: Caller, worker: Worker, user: User)
    | ReadVersion(caller: Caller)
    | ReadCache(caller: Caller)
    | ReadRow(caller: Caller)
    | StoreRow(caller: Caller)
    | Fail(caller: Caller)

  function RowOf(w: World, user: User): Row {
    if user in w.rows then w.rows[user] else Row(0, None)
  }

  function At(marks: map<User, nat>, user: User): nat {
    if user in marks then marks[user] else 0
  }

  function Counter(w: World): nat
    requires w.marks != []
  {
    |w.marks| - 1
  }

  function Written(w: World, user: User, policy: Option<Policy>): World {
    var next := RowOf(w, user).revision + 1;
    w.(rows := w.rows[user := Row(next, policy)], log := w.log[(user, next) := policy])
  }

  function Settle(settled: map<User, nat>, user: User, revision: nat): map<User, nat> {
    if revision > At(settled, user) then settled[user := revision] else settled
  }

  function CommitStep(order: Order, w: World, user: User, policy: Option<Policy>): World {
    var v := Written(w, user, policy);
    var revision := RowOf(v, user).revision;
    if order.CommitThenBump? then v.(pending := v.pending + {(user, revision)})
    else if (user, revision) in w.pending
    then v.(pending := v.pending - {(user, revision)}, settled := Settle(v.settled, user, revision))
    else w
  }

  function BumpStep(order: Order, w: World, user: User, revision: nat): World {
    if order.BumpThenCommit? then w.(pending := w.pending + {(user, revision)}, marks := w.marks + [w.settled])
    else if (user, revision) !in w.pending then w
    else
      var settled := Settle(w.settled, user, revision);
      w.(pending := w.pending - {(user, revision)}, settled := settled, marks := w.marks + [settled])
  }

  function SetCall(w: World, c: Caller, call: Call): World {
    w.(calls := w.calls[c := call])
  }

  function CallStep(w: World, a: Action, c: Caller, call: Call): World
    requires w.marks != []
  {
    match a
    case ReadVersion(_) =>
      if call.Started? then SetCall(w, c, Versioned(call.worker, call.user, Counter(w))) else w
    case ReadCache(_) =>
      if call.Versioned? && (call.worker, call.user, call.version) in w.caches
      then SetCall(w, c, Returned(call.user, w.caches[(call.worker, call.user, call.version)])) else w
    case ReadRow(_) =>
      if call.Versioned? && (call.worker, call.user, call.version) !in w.caches
      then SetCall(w, c, Fetched(call.worker, call.user, call.version, RowOf(w, call.user))) else w
    case StoreRow(_) =>
      if call.Fetched? then
        SetCall(w, c, Returned(call.user, call.row)).(
          caches := w.caches[(call.worker, call.user, call.version) := call.row])
      else w
    case Fail(_) => if call.Returned? then w else SetCall(w, c, Raised(call.user))
    case _ => w
  }

  function Step(order: Order, w: World, a: Action): (v: World)
    requires w.marks != []
    ensures v.marks != []
  {
    match a
    case Commit(user, policy) => CommitStep(order, w, user, policy)
    case Bump(user, revision) => BumpStep(order, w, user, revision)
    case Evict(worker, user, version) => w.(caches := w.caches - {(worker, user, version)})
    case BeginCall(c, worker, user) => if c in w.calls then w else SetCall(w, c, Started(worker, user))
    case _ => if a.caller in w.calls then CallStep(w, a, a.caller, w.calls[a.caller]) else w
  }

  function Run(order: Order, w: World, actions: seq<Action>): (v: World)
    requires w.marks != []
    ensures v.marks != []
    decreases |actions|
  {
    if actions == [] then w else Run(order, Step(order, w, actions[0]), actions[1..])
  }

  // The invariant of the order the code uses.

  /** The row is one that was committed, no older than `floor` and no newer than the table. */
  ghost predicate Genuine(w: World, user: User, row: Row, floor: nat) {
    && floor <= row.revision <= RowOf(w, user).revision
    && (row.revision == 0 ==> row.policy.None?)
    && (row.revision > 0 ==> (user, row.revision) in w.log && w.log[(user, row.revision)] == row.policy)
  }

  ghost predicate VersionHolds(w: World, version: nat) {
    version < |w.marks|
  }

  ghost predicate CallHolds(w: World, call: Call, floor: nat) {
    match call
    case Started(_, user) => floor <= At(w.settled, user)
    case Versioned(_, user, version) => VersionHolds(w, version) && floor <= At(w.marks[version], user)
    case Fetched(_, user, version, row) =>
      VersionHolds(w, version) && Genuine(w, user, row, At(w.marks[version], user)) && floor <= At(w.marks[version], user)
    case Returned(user, row) => Genuine(w, user, row, floor)
    case Raised(_) => true
  }

  ghost predicate CacheHolds(w: World) {
    forall worker, user, version :: (worker, user, version) in w.caches ==>
      VersionHolds(w, version) && Genuine(w, user, w.caches[(worker, user, version)], At(w.marks[version], user))
  }

  ghost predicate TablesHold(w: World) {
    && w.marks != []
    && w.settled == w.marks[|w.marks| - 1]
    && (forall user :: Genuine(w, user, RowOf(w, user), At(w.settled, user)))
    && (forall user, revision :: (user, revision) in w.pending ==> revision <= RowOf(w, user).revision)
    && (forall user, revision :: (user, revision) in w.log ==> revision <= RowOf(w, user).revision)
    && (forall i, user :: 0 <= i < |w.marks| ==> At(w.marks[i], user) <= At(w.settled, user))
  }

  ghost predicate CallsHold(w: World) {
    forall c :: c in w.calls ==> CallHolds(w, w.calls[c], 0)
  }

  ghost predicate Sound(w: World) {
    TablesHold(w) && CacheHolds(w) && CallsHold(w)
  }

  /** What later steps rest on: the log and the marks only grow, and rows only get newer. */
  ghost predicate Grows(w: World, v: World) {
    && |w.marks| <= |v.marks| && (forall i :: 0 <= i < |w.marks| ==> v.marks[i] == w.marks[i])
    && (forall user :: RowOf(w, user).revision <= RowOf(v, user).revision)
    && (forall k :: k in w.log ==> k in v.log && v.log[k] == w.log[k])
    && (forall user :: At(w.settled, user) <= At(v.settled, user))
  }

  lemma CommitGrows(w: World, user: User, policy: Option<Policy>)
    requires TablesHold(w)
    ensures var v := CommitStep(CommitThenBump, w, user, policy); TablesHold(v) && Grows(w, v)
  {
    var v := CommitStep(CommitThenBump, w, user, policy);
    assert (user, RowOf(w, user).revision + 1) !in w.log;
    forall other
      ensures Genuine(v, other, RowOf(v, other), At(v.settled, other))
    {
      assert Genuine(w, other, RowOf(w, other), At(w.settled, other));
    }
  }

  lemma SettledGrows(w: World, user: User, revision: nat, other: User)
    requires TablesHold(w) && (user, revision) in w.pending
    ensures At(w.settled, other) <= At(Settle(w.settled, user, revision), other)
    ensures Genuine(w, other, RowOf(w, other), At(Settle(w.settled, user, revision), other))
  {
    assert Genuine(w, other, RowOf(w, other), At(w.settled, other));
  }

  lemma BumpGrows(w: World, user: User, revision: nat)
    requires TablesHold(w)
    ensures var v := BumpStep(CommitThenBump, w, user, revision); TablesHold(v) && Grows(w, v)
  {
    if (user, revision) in w.pending {
      var v := BumpStep(CommitThenBump, w, user, revision);
      forall other
        ensures At(w.settled, other) <= At(v.settled, other)
        ensures Genuine(v, other, RowOf(v, other), At(v.settled, other))
      {
        SettledGrows(w, user, revision, other);
      }
      forall i, other | 0 <= i < |v.marks|
        ensures At(v.marks[i], other) <= At(v.settled, other)
      {
        if i < |w.marks| {
          assert At(w.marks[i], other) <= At(w.settled, other);
        }
      }
    }
  }

  lemma CallsFollow(w: World, v: World, call: Call, floor: nat)
    requires Grows(w, v) && w.marks != [] && CallHolds(w, call, floor)
    ensures CallHolds(v, call, floor)
  {
  }

  lemma CacheFollows(w: World, v: World)
    requires Grows(w, v) && CacheHolds(w) && v.caches == w.caches
    ensures CacheHolds(v)
  {
    forall worker, user, version | (worker, user, version) in v.caches
      ensures VersionHolds(v, version)
      ensures Genuine(v, user, v.caches[(worker, user, version)], At(v.marks[version], user))
    {
      assert VersionHolds(w, version);
    }
  }

  /** A mutation's step leaves every call and cache slot as good as it was. */
  lemma MutationKeeps(w: World, a: Action)
    requires Sound(w) && (a.Commit? || a.Bump?)
    ensures Sound(Step(CommitThenBump, w, a)) && Grows(w, Step(CommitThenBump, w, a))
  {
    var v := Step(CommitThenBump, w, a);
    if a.Commit? {
      CommitGrows(w, a.user, a.policy);
    } else {
      BumpGrows(w, a.user, a.revision);
    }
    CacheFollows(w, v);
    forall c | c in v.calls
      ensures CallHolds(v, v.calls[c], 0)
    {
      CallsFollow(w, v, v.calls[c], 0);
    }
  }

  ghost predicate SameTables(w: World, v: World) {
    w.marks == v.marks && w.settled == v.settled && w.rows == v.rows && w.pending == v.pending && w.log == v.log
  }

  lemma CallStepHolds(w: World, a: Action, c: Caller, call: Call, floor: nat)
    requires TablesHold(w) && CacheHolds(w) && CallHolds(w, call, floor) && CallHolds(w, call, 0)
    ensures var v := CallStep(w, a, c, call);
            && SameTables(w, v) && CacheHolds(v)
            && (v == w || (c in v.calls && v.calls == w.calls[c := v.calls[c]]
                           && CallHolds(v, v.calls[c], floor) && CallHolds(v, v.calls[c], 0)))
  {
    var v := CallStep(w, a, c, call);
    assert Genuine(w, call.user, RowOf(w, call.user), At(w.settled, call.user));
    if v != w {
      assert v.calls == w.calls[c := v.calls[c]];
    }
    if a.ReadVersion? && call.Started? {
      assert VersionHolds(w, Counter(w));
    } else if a.ReadCache? && call.Versioned? && (call.worker, call.user, call.version) in w.caches {
      assert Genuine(w, call.user, w.caches[(call.worker, call.user, call.version)], At(w.marks[call.version], call.user));
    } else if a.ReadRow? && call.Versioned? {
      assert At(w.marks[call.version], call.user) <= At(w.settled, call.user);
    }
  }

  lemma CallStepKeeps(w: World, a: Action, c: Caller)
    requires Sound(w) && c in w.calls
    ensures Sound(CallStep(w, a, c, w.calls[c])) && Grows(w, CallStep(w, a, c, w.calls[c]))
  {
    var v := CallStep(w, a, c, w.calls[c]);
    CallStepHolds(w, a, c, w.calls[c], 0);
    forall d | d in v.calls
      ensures CallHolds(v, v.calls[d], 0)
    {
      if d != c {
        CallsFollow(w, v, w.calls[d], 0);
      }
    }
    forall user
      ensures Genuine(v, user, RowOf(v, user), At(v.settled, user))
    {
      assert Genuine(w, user, RowOf(w, user), At(w.settled, user));
    }
  }

  lemma StepKeepsSound(w: World, a: Action)
    requires Sound(w)
    ensures Sound(Step(CommitThenBump, w, a)) && Grows(w, Step(CommitThenBump, w, a))
  {
    match a
    case Commit(_, _) => MutationKeeps(w, a);
    case Bump(_, _) => MutationKeeps(w, a);
    case Evict(_, _, _) => CallsUntouched(w, Step(CommitThenBump, w, a));
    case BeginCall(_, _, _) => CallsUntouched(w, Step(CommitThenBump, w, a));
    case _ => if a.caller in w.calls { CallStepKeeps(w, a, a.caller); }
  }

  lemma CallsUntouched(w: World, v: World)
    requires Sound(w) && SameTables(w, v) && (forall k :: k in v.caches ==> k in w.caches && v.caches[k] == w.caches[k])
    requires forall c :: c in v.calls ==> v.calls[c].Started? || (c in w.calls && v.calls[c] == w.calls[c])
    ensures Sound(v) && Grows(w, v)
  {
    forall c | c in v.calls && !v.calls[c].Started?
      ensures CallHolds(v, v.calls[c], 0)
    {
      CallsFollow(w, v, v.calls[c], 0);
    }
    forall user
      ensures Genuine(v, user, RowOf(v, user), At(v.settled, user))
    {
      assert Genuine(w, user, RowOf(w, user), At(w.settled, user));
    }
  }

  lemma {:induction false} RunKeepsSound(w: World, actions: seq<Action>)
    requires Sound(w)
    ensures Sound(Run(CommitThenBump, w, actions))
    decreases |actions|
  {
    if actions != [] {
      StepKeepsSound(w, actions[0]);
      RunKeepsSound(Step(CommitThenBump, w, actions[0]), actions[1..]);
    }
  }

  /** A call stays above whatever was settled when it began. */
  lemma {:induction false} CallStaysFresh(w: World, actions: seq<Action>, c: Caller, floor: nat)
    requires Sound(w) && c in w.calls && CallHolds(w, w.calls[c], floor)
    ensures var v := Run(CommitThenBump, w, actions);
            c in v.calls && v.calls[c].user == w.calls[c].user && CallHolds(v, v.calls[c], floor)
    decreases |actions|
  {
    if actions != [] {
      var next := Step(CommitThenBump, w, actions[0]);
      StepKeepsSound(w, actions[0]);
      OneStepFresh(w, actions[0], c, floor);
      CallStaysFresh(next, actions[1..], c, floor);
    }
  }

  predicate Concerns(a: Action, c: Caller) {
    !(a.Commit? || a.Bump? || a.Evict? || a.BeginCall?) && a.caller == c
  }

  lemma OtherCallsUntouched(w: World, a: Action, c: Caller)
    requires w.marks != [] && c in w.calls && !Concerns(a, c)
    ensures c in Step(CommitThenBump, w, a).calls && Step(CommitThenBump, w, a).calls[c] == w.calls[c]
  {
  }

  lemma OwnStepKeepsUser(w: World, a: Action, c: Caller)
    requires w.marks != [] && c in w.calls && Concerns(a, c)
    ensures c in Step(CommitThenBump, w, a).calls && Step(CommitThenBump, w, a).calls[c].user == w.calls[c].user
  {
  }

  lemma OneStepFresh(w: World, a: Action, c: Caller, floor: nat)
    requires Sound(w) && c in w.calls && CallHolds(w, w.calls[c], floor)
    ensures var v := Step(CommitThenBump, w, a);
            c in v.calls && v.calls[c].user == w.calls[c].user && CallHolds(v, v.calls[c], floor)
  {
    if Concerns(a, c) {
      OwnStepKeepsUser(w, a, c);
      CallStepHolds(w, a, c, w.calls[c], floor);
    } else {
      OtherCallsUntouched(w, a, c);
      StepKeepsSound(w, a);
      CallsFollow(w, Step(CommitThenBump, w, a), w.calls[c], floor);
    }
  }

  /** The world after a prefix of a run, a call of `get_policy`, and the rest of the run. */
  function CallWithin(order: Order, before: seq<Action>, begin: Action, rest: seq<Action>): World {
    Run(order, Step(order, Run(order, INITIAL, before), begin), rest)
  }

  /** Freshness: whatever readers, writers, evictions and other workers do, `get_policy` returns a committed
    * row at least as recent as every mutation of that user that was complete when the call began. */
  lemma CompletedMutationsAreSeen(before: seq<Action>, c: Caller, worker: Worker, user: User, rest: seq<Action>)
    requires c !in Run(CommitThenBump, INITIAL, before).calls
    requires var v := CallWithin(CommitThenBump, before, BeginCall(c, worker, user), rest);
             c in v.calls && v.calls[c].Returned?
    ensures var v := CallWithin(CommitThenBump, before, BeginCall(c, worker, user), rest);
            && At(Run(CommitThenBump, INITIAL, before).settled, user) <= v.calls[c].row.revision
            && Genuine(v, user, v.calls[c].row, 0)
  {
    var w := Run(CommitThenBump, INITIAL, before);
    RunKeepsSound(INITIAL, before);
    StepKeepsSound(w, BeginCall(c, worker, user));
    CallStaysFresh(Step(CommitThenBump, w, BeginCall(c, worker, user)), rest, c, At(w.settled, user));
  }

  lemma CurrentRowOnly(w: World, user: User, row: Row)
    requires Sound(w) && Genuine(w, user, row, RowOf(w, user).revision)
    ensures row == RowOf(w, user)
  {
    assert Genuine(w, user, RowOf(w, user), At(w.settled, user));
  }

  /** Revocation: once the delete of a key's policy is complete, every later read finds no policy,
    * unless the key's row is written again. */
  lemma RevokedKeysReadEmpty(before: seq<Action>, c: Caller, worker: Worker, user: User, rest: seq<Action>)
    requires c !in Run(CommitThenBump, INITIAL, before).calls
    requires var w := Run(CommitThenBump, INITIAL, before);
             RowOf(w, user).policy.None? && At(w.settled, user) == RowOf(w, user).revision
    requires var v := CallWithin(CommitThenBump, before, BeginCall(c, worker, user), rest);
             && c in v.calls && v.calls[c].Returned?
             && RowOf(v, user) == RowOf(Run(CommitThenBump, INITIAL, before), user)
    ensures PolicyIsEmpty(Served(CallWithin(CommitThenBump, before, BeginCall(c, worker, user), rest).calls[c].row.policy))
  {
    CompletedMutationsAreSeen(before, c, worker, user, rest);
    RunKeepsSound(INITIAL, before);
    var w := Step(CommitThenBump, Run(CommitThenBump, INITIAL, before), BeginCall(c, worker, user));
    StepKeepsSound(Run(CommitThenBump, INITIAL, before), BeginCall(c, worker, user));
    RunKeepsSound(w, rest);
    CurrentRowOnly(Run(CommitThenBump, w, rest), user, Run(CommitThenBump, w, rest).calls[c].row);
  }

  // The same in terms of the run alone: what was committed, and what was bumped.

  /** The policies the run commits for the user, in order; None is a deletion. */
  function Commits(actions: seq<Action>, user: User): seq<Option<Policy>> {
    if actions == [] then []
    else
      var last := actions[|actions| - 1];
      Commits(actions[..|actions| - 1], user) + if last.Commit? && last.user == user then [last.policy] else []
  }

  lemma {:induction false} RunLast(w: World, actions: seq<Action>)
    requires w.marks != [] && actions != []
    ensures var last := |actions| - 1;
            Run(CommitThenBump, w, actions) == Step(CommitThenBump, Run(CommitThenBump, w, actions[..last]), actions[last])
    decreases |actions|
  {
    if |actions| == 1 {
      assert actions[..0] == [] && actions[1..] == [];
    } else {
      var last := |actions| - 1;
      RunLast(Step(CommitThenBump, w, actions[0]), actions[1..]);
      assert actions[1..][..last - 1] == actions[..last][1..] && actions[1..][last - 1] == actions[last];
    }
  }

  /** The table and the log are the run's commits. */
  ghost predicate Records(w: World, commits: seq<Option<Policy>>, user: User) {
    && RowOf(w, user) == Row(|commits|, if commits == [] then None else commits[|commits| - 1])
    && forall n: nat :: (user, n) in w.log ==> 1 <= n <= |commits| && w.log[(user, n)] == commits[n - 1]
  }

  lemma RecordsStep(w: World, a: Action, commits: seq<Option<Policy>>, user: User)
    requires w.marks != [] && Records(w, commits, user)
    ensures Records(Step(CommitThenBump, w, a),
                    commits + if a.Commit? && a.user == user then [a.policy] else [], user)
  {
    if !(a.Commit? && a.user == user) {
      assert commits + [] == commits;
    }
  }

  lemma {:induction false} RunRecords(actions: seq<Action>, user: User)
    ensures Records(Run(CommitThenBump, INITIAL, actions), Commits(actions, user), user)
  {
    if actions != [] {
      var last := |actions| - 1;
      RunRecords(actions[..last], user);
      RunLast(INITIAL, actions);
      RecordsStep(Run(CommitThenBump, INITIAL, actions[..last]), actions[last], Commits(actions[..last], user), user);
    }
  }

  /** Every committed revision is waiting for its bump, or is settled. */
  ghost predicate Accounted(w: World, user: User) {
    forall n: nat :: 1 <= n <= RowOf(w, user).revision ==> (user, n) in w.pending || n <= At(w.settled, user)
  }

  lemma AccountedStep(w: World, a: Action, user: User)
    requires w.marks != [] && Accounted(w, user)
    ensures Accounted(Step(CommitThenBump, w, a), user)
    ensures a.Bump? && a.user == user && 1 <= a.revision <= RowOf(w, user).revision ==>
              a.revision <= At(Step(CommitThenBump, w, a).settled, user)
    ensures At(w.settled, user) <= At(Step(CommitThenBump, w, a).settled, user)
  {
  }

  /** The run commits a mutation of the user as its `n`-th, and bumps for it afterwards. */
  predicate Completes(actions: seq<Action>, user: User, n: nat) {
    exists i :: 0 <= i < |actions| && actions[i] == Bump(user, n) && 1 <= n <= |Commits(actions[..i], user)|
  }

  lemma {:induction false} CompletedIsSettled(actions: seq<Action>, user: User, n: nat)
    ensures var w := Run(CommitThenBump, INITIAL, actions);
            Accounted(w, user) && (Completes(actions, user, n) ==> n <= At(w.settled, user))
  {
    if actions != [] {
      var last := |actions| - 1;
      var before := actions[..last];
      CompletedIsSettled(before, user, n);
      RunLast(INITIAL, actions);
      RunRecords(before, user);
      AccountedStep(Run(CommitThenBump, INITIAL, before), actions[last], user);
      if i :| 0 <= i < |actions| && actions[i] == Bump(user, n) && 1 <= n <= |Commits(actions[..i], user)| {
        if i < last {
          assert before[..i] == actions[..i];
          assert Completes(before, user, n);
        }
      }
    }
  }

  lemma {:induction false} RunConcat(w: World, first: seq<Action>, second: seq<Action>)
    requires w.marks != []
    ensures Run(CommitThenBump, w, first + second) == Run(CommitThenBump, Run(CommitThenBump, w, first), second)
    decreases |first|
  {
    if first == [] {
      assert first + second == second;
    } else {
      assert (first + second)[1..] == first[1..] + second;
      RunConcat(Step(CommitThenBump, w, first[0]), first[1..], second);
    }
  }

  /** `get_policy` returns what some commit of the run wrote for the user, or nothing before the first, and no commit
    * older than one that was complete, commit and bump, when the call began. */
  lemma ReadsReturnCommits(before: seq<Action>, c: Caller, worker: Worker, user: User, rest: seq<Action>, n: nat)
    requires c !in Run(CommitThenBump, INITIAL, before).calls
    requires var v := Run(CommitThenBump, INITIAL, before + ([BeginCall(c, worker, user)] + rest));
             c in v.calls && v.calls[c].Returned?
    ensures var actions := before + ([BeginCall(c, worker, user)] + rest);
            var row, commits := Run(CommitThenBump, INITIAL, actions).calls[c].row, Commits(actions, user);
            && row.revision <= |commits| && row.policy == (if row.revision == 0 then None else commits[row.revision - 1])
            && (Completes(before, user, n) ==> n <= row.revision)
  {
    var actions := before + ([BeginCall(c, worker, user)] + rest);
    RunConcat(INITIAL, before, [BeginCall(c, worker, user)] + rest);
    assert ([BeginCall(c, worker, user)] + rest)[1..] == rest;
    CompletedMutationsAreSeen(before, c, worker, user, rest);
    CompletedIsSettled(before, user, n);
    RunRecords(actions, user);
  }

  // Why the commit comes first.

  function EarlyBump(user: User, policy: Policy): seq<Action> {
    [Bump(user, 1), BeginCall(1, 0, user), ReadVersion(1), ReadRow(1), StoreRow(1), Commit(user, Some(policy))]
  }

  /** With the bump first, the old row is in the new slot when the mutation completes. */
  lemma EarlyBumpFillsTheNewSlot(user: User, policy: Policy)
    ensures var w := Run(BumpThenCommit, INITIAL, EarlyBump(user, policy));
            && 2 !in w.calls && |w.marks| == 2 && At(w.settled, user) == 1
            && (0, user, 1) in w.caches && w.caches[(0, user, 1)] == Row(0, None)
  {
    var actions := EarlyBump(user, policy);
    var w1 := INITIAL.(pending := {(user, 1)}, marks := [map[], map[]]);
    var w2 := w1.(calls := map[1 := Started(0, user)]);
    var w3 := w1.(calls := map[1 := Versioned(0, user, 1)]);
    var w4 := w1.(calls := map[1 := Fetched(0, user, 1, Row(0, None))]);
    var w5 := w1.(calls := map[1 := Returned(user, Row(0, None))], caches := map[(0, user, 1) := Row(0, None)]);
    assert Step(BumpThenCommit, INITIAL, actions[0]) == w1;
    assert Step(BumpThenCommit, w1, actions[1]) == w2;
    assert Step(BumpThenCommit, w2, actions[2]) == w3;
    assert Step(BumpThenCommit, w3, actions[3]) == w4;
    assert Step(BumpThenCommit, w4, actions[4]) == w5;
    var w6 := Step(BumpThenCommit, w5, actions[5]);
    assert w6.calls == w5.calls && w6.caches == w5.caches && w6.settled == map[user := 1];
    assert w6 == Run(BumpThenCommit, w6, actions[6..]);
    assert w6 == Run(BumpThenCommit, w5, actions[5..]);
    assert w6 == Run(BumpThenCommit, w4, actions[4..]);
    assert w6 == Run(BumpThenCommit, w3, actions[3..]);
    assert w6 == Run(BumpThenCommit, w2, actions[2..]);
    assert w6 == Run(BumpThenCommit, w1, actions[1..]);
  }

  /** So a call that begins after that mutation is complete is served the row from before it. */
  lemma BumpingFirstServesStaleRows(user: User, policy: Policy)
    ensures var v := CallWithin(BumpThenCommit, EarlyBump(user, policy), BeginCall(2, 0, user), [ReadVersion(2), ReadCache(2)]);
            && 2 in v.calls && v.calls[2].Returned?
            && v.calls[2].row.revision < At(Run(BumpThenCommit, INITIAL, EarlyBump(user, policy)).settled, user)
  {
    EarlyBumpFillsTheNewSlot(user, policy);
    var w := Run(BumpThenCommit, INITIAL, EarlyBump(user, policy));
    var rest := [ReadVersion(2), ReadCache(2)];
    var v0 := Step(BumpThenCommit, w, BeginCall(2, 0, user));
    var v1 := Step(BumpThenCommit, v0, rest[0]);
    var v2 := Step(BumpThenCommit, v1, rest[1]);
    assert v2.calls[2] == Returned(user, Row(0, None));
    assert v2 == Run(BumpThenCommit, v2, rest[2..]);
    assert v2 == Run(BumpThenCommit, v1, rest[1..]);
  }

  /** One worker's cache, filled on reads. */
  class PolicyEnforcer {
    var cache: map<(User, nat), Row>

    constructor ()
      ensures cache == map[]
    {
      cache := map[];
    }

    /** A hit is served as cached; a miss reads the row as it stands and keeps it under the version asked for. */
    method GetPolicyAt(user: User, version: nat, stored: Row) returns (row: Row)
      modifies this
      ensures row == if (user, version) in old(cache) then old(cache)[(user, version)] else stored
      ensures cache == old(cache)[(user, version) := row]
    {
      if (user, version) in cache {
        row := cache[(user, version)];
      } else {
        row := stored;
        cache := cache[(user, version) := row];
      }
      assert cache == old(cache)[(user, version) := row];
    }

    /** The time and size limits drop slots at any moment. */
    method Evict(user: User, version: nat)
      modifies this
      ensures cache == old(cache) - {(user, version)}
    {
      cache := cache - {(user, version)};
    }
  }

  /** The slots of one worker. */
  function CacheOf(w: World, worker: Worker): map<(User, nat), Row> {
    var slots := set k | k in w.caches && k.0 == worker :: (k.1, k.2);
    map slot | slot in slots :: w.caches[(worker, slot.0, slot.1)]
  }

  lemma SlotsOf(w: World, worker: Worker, user: User, version: nat)
    ensures (user, version) in CacheOf(w, worker) <==> (worker, user, version) in w.caches
  {
    if (worker, user, version) in w.caches {
      var k := (worker, user, version);
      assert k.0 == worker && (k.1, k.2) == (user, version);
    }
  }

  lemma StoringFillsOneSlot(w: World, v: World, worker: Worker, user: User, version: nat, row: Row)
    requires v.caches == w.caches[(worker, user, version) := row]
    ensures CacheOf(v, worker) == CacheOf(w, worker)[(user, version) := row]
  {
    forall u, n: nat
      ensures (u, n) in CacheOf(v, worker) <==> (u, n) in CacheOf(w, worker) || (u, n) == (user, version)
    {
      SlotsOf(v, worker, u, n);
      SlotsOf(w, worker, u, n);
    }
  }

  /** What a call still has to do once it knows the version, with nothing in between. */
  function Remaining(w: World, c: Caller): seq<Action>
    requires c in w.calls && w.calls[c].Versioned?
  {
    if (w.calls[c].worker, w.calls[c].user, w.calls[c].version) in w.caches then [ReadCache(c)] else [ReadRow(c), StoreRow(c)]
  }

  /** The row the call finds: the one in its slot, or the one in the table. */
  function Found(w: World, call: Call): Row
    requires call.Versioned?
  {
    if (call.worker, call.user, call.version) in w.caches then w.caches[(call.worker, call.user, call.version)]
    else RowOf(w, call.user)
  }

  lemma UndisturbedCallRuns(w: World, c: Caller)
    requires w.marks != [] && c in w.calls && w.calls[c].Versioned?
    ensures var call := w.calls[c];
            Run(CommitThenBump, w, Remaining(w, c)) ==
              w.(calls := w.calls[c := Returned(call.user, Found(w, call))],
                 caches := w.caches[(call.worker, call.user, call.version) := Found(w, call)])
  {
    var call, actions := w.calls[c], Remaining(w, c);
    var key := (call.worker, call.user, call.version);
    if key in w.caches {
      var v := Step(CommitThenBump, w, ReadCache(c));
      assert w.caches[key := w.caches[key]] == w.caches;
      assert actions[1..] == [] && Run(CommitThenBump, w, actions) == v;
    } else {
      var u := Step(CommitThenBump, w, ReadRow(c));
      var v := Step(CommitThenBump, u, StoreRow(c));
      assert u.calls[c] == Fetched(call.worker, call.user, call.version, RowOf(w, call.user));
      assert v.calls == w.calls[c := Returned(call.user, RowOf(w, call.user))];
      assert actions[1..] == [StoreRow(c)] && actions[1..][1..] == [];
      assert Run(CommitThenBump, u, actions[1..]) == v;
    }
  }

  /** The call is then the enforcer's method on the worker's own slots, with the row as the table has it, and no other
    * slot changes. */
  lemma UndisturbedCallIsGetPolicyAt(w: World, c: Caller)
    requires w.marks != [] && c in w.calls && w.calls[c].Versioned?
    ensures var call, v := w.calls[c], Run(CommitThenBump, w, Remaining(w, c));
            var slots, slot := CacheOf(w, call.worker), (call.user, call.version);
            var row := if slot in slots then slots[slot] else RowOf(w, call.user);
            && c in v.calls && v.calls[c] == Returned(call.user, row)
            && CacheOf(v, call.worker) == slots[slot := row]
            && v.caches == w.caches[(call.worker, call.user, call.version) := row]
  {
    var call, v := w.calls[c], Run(CommitThenBump, w, Remaining(w, c));
    SlotsOf(w, call.worker, call.user, call.version);
    UndisturbedCallRuns(w, c);
    StoringFillsOneSlot(w, v, call.worker, call.user, call.version, Found(w, call));
  }
}
