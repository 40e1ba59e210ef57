/** One worker's end of the bus: publishing an op and collecting the fleet's answers, and answering one. */
module WorkerBus {
  import opened Wrappers
  import opened FleetReplies

  /** The publisher's own finished apply, which may have failed. */
  datatype LocalApply = LocalApply(failed: bool, payload: Option<string>, error: Option<string>)

  datatype FleetResult =
    | Reachable(localOnly: bool, results: map<Origin, OriginResult>)
    | Unreachable

  /** The op as sent: who sent it, whom it addresses, and whether it names a reply channel. */
  datatype Wire = Wire(origin: Origin, targets: Option<set<Origin>>, repliesWanted: bool)

  /** How the subscriber's callback ended. */
  datatype Callback = Returned(payload: Option<string>) | RaisedError(error: string) | Cancelled

  /** What reaches the bus of a publish: whether the broadcast got out, the census then, and the polls after. */
  datatype Network = Network(
    reachable: bool, census: set<Origin>, deadline: int, polls: seq<Poll>, alive: Origin -> Option<bool>)

  predicate AllApplied(r: FleetResult) {
    r.Reachable? && forall o :: o in r.results ==> r.results[o].outcome.Applied?
  }

  lemma OneFailureSpoils(r: FleetResult, o: Origin)
    requires r.Reachable? && o in r.results && !r.results[o].outcome.Applied?
    ensures !AllApplied(r)
  {
  }

  predicate Addressed(targets: Option<set<Origin>>, me: Origin) {
    targets.None? || me in targets.value
  }

  function SelfResult(local: LocalApply): OriginResult {
    OriginResult(if local.failed then Failed else Applied, local.payload, local.error)
  }

  /** An entry that says of the publisher's own apply just what it was. */
  predicate Repeats(entry: OriginResult, local: LocalApply) {
    && (entry.outcome.Failed? <==> local.failed) && (entry.outcome.Applied? <==> !local.failed)
    && entry.payload == local.payload && entry.error == local.error
  }

  function Expected(me: Origin, targets: Option<set<Origin>>, census: set<Origin>): set<Origin> {
    (if targets.None? then census else targets.value) - {me}
  }

  /** Whether a subscriber acts on a frame at all: not on its own, nor on one for others. */
  predicate Acts(me: Origin, wire: Wire) {
    wire.origin != me && Addressed(wire.targets, me)
  }

  /** What a subscriber that acted sends back: an ack at once, and a terminal reply if the callback ended. */
  function Answers(me: Origin, callback: Callback): seq<Reply> {
    [Reply(me, "received", None, None, None)] +
    match callback
    case Returned(payload) => [Reply(me, "terminal", Some("applied"), payload, None)]
    case RaisedError(error) => [Reply(me, "terminal", Some("failed"), None, Some(error))]
    case Cancelled => []
  }

  /** Folds one terminal reply into the verdicts, worst outcome first. */
  method MergeTerminal(terminal: map<Origin, OriginResult>, o: Origin, result: OriginResult)
    returns (merged: map<Origin, OriginResult>)
    ensures merged.Keys == terminal.Keys + {o}
    ensures forall other :: other in terminal && other != o ==> merged[other] == terminal[other]
    ensures merged[o] == if o in terminal && terminal[o].outcome.Failed? then terminal[o] else result
  {
    if o in terminal && terminal[o].outcome.Failed? {
      return terminal;
    }
    merged := terminal[o := result];
  }

  /** The running tally agrees with the polls consumed so far. */
  ghost predicate Tallies(expected: set<Origin>, polls: seq<Poll>, terminal: map<Origin, OriginResult>, acked: set<Origin>) {
    && terminal.Keys <= expected && acked <= expected
    && (forall o :: o in expected ==> Verdict(polls, o) == if o in terminal then Some(terminal[o]) else None)
    && (forall o :: o in expected ==> (o in acked <==> Acked(polls, o)))
  }

  /** Takes one polled delivery into the tally. */
  method Consume(expected: set<Origin>, terminal: map<Origin, OriginResult>, acked: set<Origin>, poll: Poll,
                 ghost earlier: seq<Poll>)
    returns (terminal': map<Origin, OriginResult>, acked': set<Origin>)
    requires Tallies(expected, earlier, terminal, acked)
    ensures Tallies(expected, earlier + [poll], terminal', acked')
  {
    terminal', acked' := terminal, acked;
    OneMorePoll(earlier, poll);
    if poll.delivery.Arrived? && poll.delivery.reply.origin in expected {
      var reply := poll.delivery.reply;
      if reply.phase == "received" {
        acked' := acked + {reply.origin};
      } else if reply.phase == "terminal" {
        terminal' := MergeTerminal(terminal, reply.origin, TerminalResult(reply));
      }
    }
  }

  /** The final pass: one verdict for every expected worker, silent ones by their presence. */
  method Finalize(expected: set<Origin>, terminal: map<Origin, OriginResult>, acked: set<Origin>,
                  alive: Origin -> Option<bool>, ghost polls: seq<Poll>)
    returns (results: map<Origin, OriginResult>)
    requires Tallies(expected, polls, terminal, acked)
    ensures results == map o | o in expected :: FinalVerdict(polls, o, alive(o))
  {
    results := map[];
    var todo := expected;
    while todo != {}
      invariant todo <= expected
      invariant results == map o | o in expected - todo :: FinalVerdict(polls, o, alive(o))
      decreases todo
    {
      var o :| o in todo;
      results := results[o := if o in terminal then terminal[o] else ComputedVerdict(o in acked, alive(o))];
      todo := todo - {o};
    }
    assert expected - todo == expected;
  }

  method Collect(expected: set<Origin>, deadline: int, polls: seq<Poll>, alive: Origin -> Option<bool>)
    returns (results: map<Origin, OriginResult>)
    ensures Collected(expected, deadline, polls, alive, results)
  {
    var terminal: map<Origin, OriginResult> := map[];
    var acked: set<Origin> := {};
    var n: nat := 0;
    var severed := false;
    while expected - terminal.Keys != {} && !severed && n < |polls| && polls[n].at < deadline
      invariant n <= |polls|
      invariant Tallies(expected, polls[..n], terminal, acked)
      invariant severed <==> n > 0 && polls[n - 1].delivery.TransportFailed?
      invariant forall i: nat :: i < n ==> GoesOn(expected, deadline, polls, i)
      decreases |polls| - n
    {
      SilentRemains(expected, terminal, acked, polls[..n]);
      terminal, acked := Consume(expected, terminal, acked, polls[n], polls[..n]);
      severed := polls[n].delivery.TransportFailed?;
      n := n + 1;
      assert polls[..n] == polls[..n - 1] + [polls[n - 1]];
    }
    SilentRemains(expected, terminal, acked, polls[..n]);
    results := Finalize(expected, terminal, acked, alive, polls[..n]);
  }

  lemma SilentRemains(expected: set<Origin>, terminal: map<Origin, OriginResult>, acked: set<Origin>, polls: seq<Poll>)
    requires Tallies(expected, polls, terminal, acked)
    ensures expected - terminal.Keys == {} <==> AllTerminal(expected, polls)
  {
    if o :| o in expected - terminal.Keys {
      assert Verdict(polls, o).None?;
    }
    if o :| o in expected && Verdict(polls, o).None? {
      assert o in expected - terminal.Keys;
    }
  }

  /** How the verdicts and acks grow by one poll. */
  lemma OneMorePoll(earlier: seq<Poll>, poll: Poll)
    ensures forall o :: Verdict(earlier + [poll], o) ==
              (if !Terminal(poll, o) || (Verdict(earlier, o).Some? && Verdict(earlier, o).value.outcome.Failed?)
               then Verdict(earlier, o) else Some(TerminalResult(poll.delivery.reply)))
    ensures forall o :: Acked(earlier + [poll], o) <==> Acked(earlier, o) || FromWorker(poll, o, "received")
  {
    var polls := earlier + [poll];
    assert polls[..|polls| - 1] == earlier;
    forall o
      ensures Acked(polls, o) <==> Acked(earlier, o) || FromWorker(poll, o, "received")
    {
      if Acked(earlier, o) {
        var i :| 0 <= i < |earlier| && FromWorker(earlier[i], o, "received");
        assert FromWorker(polls[i], o, "received");
      }
      if FromWorker(poll, o, "received") {
        assert FromWorker(polls[|earlier|], o, "received");
      }
    }
  }

  class Bus {
    var origin: Origin
    const local: bool

    constructor (origin: Origin, local: bool)
      ensures this.origin == origin && this.local == local
    {
      this.origin, this.local := origin, local;
    }

    /** A forked child takes a fresh origin, so that its parent acts on the child's ops as on any other worker's
      * instead of skipping them as its own. */
    method RemintOriginAfterFork(minted: Origin)
      requires minted != origin
      modifies this
      ensures origin == minted
      ensures forall wire: Wire :: wire.origin == origin ==> (Acts(old(origin), wire) <==> Addressed(wire.targets, old(origin)))
      ensures forall wire: Wire :: wire.origin == old(origin) ==> !Acts(old(origin), wire)
    {
      origin := minted;
    }

    /** Both ways round: the caller reports its own apply exactly when it is itself addressed. */
    method ValidateLocalTargets(own: Option<LocalApply>, targets: Option<set<Origin>>) returns (ok: bool)
      ensures ok <==> (own.Some? <==> Addressed(targets, origin))
    {
      var selfTargeted := targets.None? || origin in targets.value;
      if own.None? && selfTargeted {
        return false;
      }
      if own.Some? && !selfTargeted {
        return false;
      }
      ok := true;
    }

    /** A fleet of one: refused if another worker is a target; otherwise a validated publish reports exactly the
      * addressed workers, and is ok exactly when the caller's own apply did not fail. */
    method LocalPublish(targets: Option<set<Origin>>, own: Option<LocalApply>) returns (r: Result<FleetResult>)
      ensures r.Refused? <==> targets.Some? && exists other :: other in targets.value && other != origin
      ensures r.Ok? ==> r.value.Reachable? && r.value.localOnly && (AllApplied(r.value) <==> !(own.Some? && own.value.failed))
      ensures r.Ok? && (own.Some? <==> Addressed(targets, origin)) ==>
                forall o :: o in r.value.results <==> Addressed(targets, o) && o == origin
      ensures r.Ok? && own.Some? ==> r.value.results == map[origin := SelfResult(own.value)]
      ensures r.Ok? && own.Some? ==> origin in r.value.results && Repeats(r.value.results[origin], own.value)
      ensures r.Ok? && own.None? ==> r.value.results == map[]
    {
      if targets.Some? && targets.value - {origin} != {} {
        ghost var other :| other in targets.value - {origin};
        assert other in targets.value && other != origin;
        return Refused;
      }
      forall other | targets.Some? && other in targets.value
        ensures other == origin
      {
        assert other !in targets.value - {origin};
      }
      var fleet := Reachable(true, if own.Some? then map[origin := SelfResult(own.value)] else map[]);
      if own.Some? && own.value.failed {
        OneFailureSpoils(fleet, origin);
      }
      r := Result.Ok(fleet);
    }

    /** Broadcasts one op and reports every addressed worker, this one included, exactly once. */
    method Publish(op: string, targets: Option<set<Origin>>, own: Option<LocalApply>, net: Network)
      returns (r: Result<FleetResult>)
      ensures r.Refused? <==>
                || op == "" || (own.Some? != Addressed(targets, origin))
                || (local && targets.Some? && exists other :: other in targets.value && other != origin)
      ensures r.Ok? && !local ==> (r.value.Unreachable? <==> !net.reachable)
      ensures r.Ok? && r.value.Reachable? ==>
                && r.value.localOnly == local
                && r.value.results.Keys == (if local then {} else Expected(origin, targets, net.census))
                                           + (if own.Some? then {origin} else {})
                && (own.Some? ==> r.value.results[origin] == SelfResult(own.value))
                && (own.Some? ==> Repeats(r.value.results[origin], own.value))
      ensures r.Ok? && r.value.Reachable? && !local ==>
                forall o :: o in r.value.results <==> if targets.Some? then o in targets.value else o in net.census || o == origin
      ensures r.Ok? && r.value.Reachable? && !local ==>
                Collected(Expected(origin, targets, net.census), net.deadline, net.polls, net.alive,
                          r.value.results - {origin})
    {
      if op == "" {
        return Refused;
      }
      var valid := ValidateLocalTargets(own, targets);
      if !valid {
        return Refused;
      }
      if local {
        r := LocalPublish(targets, own);
        return;
      }
      if !net.reachable {
        return Result.Ok(Unreachable);
      }
      var expected := if targets.None? then net.census - {origin} else targets.value - {origin};
      var fleet := Collect(expected, net.deadline, net.polls, net.alive);
      assert fleet.Keys == expected;
      ghost var collected := fleet;
      if own.Some? {
        fleet := fleet[origin := SelfResult(own.value)];
      }
      assert fleet - {origin} == collected;
      r := Result.Ok(Reachable(false, fleet));
    }

    /** Answers one delivered frame; `callback` is how the callback ends if it is run. */
    method HandleOp(frame: Option<Wire>, callback: Callback) returns (called: bool, replies: seq<Reply>)
      ensures called <==> frame.Some? && Acts(origin, frame.value)
      ensures replies == if called && frame.value.repliesWanted then Answers(origin, callback) else []
      ensures replies != [] <==> called && frame.value.repliesWanted
      ensures replies != [] ==>
                replies[0] == Reply(origin, "received", None, None, None) && |replies| == if callback.Cancelled? then 1 else 2
      ensures |replies| == 2 ==>
                && replies[1].origin == origin && replies[1].phase == "terminal"
                && (replies[1].outcome == Some("failed") <==> callback.RaisedError?)
                && Tells(OriginResult(if callback.RaisedError? then Failed else Applied, replies[1].payload, replies[1].error), callback)
    {
      called, replies := false, [];
      if frame.None? || frame.value.origin == origin {
        return;
      }
      if frame.value.targets.Some? && origin !in frame.value.targets.value {
        return;
      }
      if frame.value.repliesWanted {
        replies := [Reply(origin, "received", None, None, None)];
      }
      called := true;
      if callback.Cancelled? || !frame.value.repliesWanted {
        return;
      }
      replies := replies + [if callback.Returned? then Reply(origin, "terminal", Some("applied"), callback.payload, None)
                            else Reply(origin, "terminal", Some("failed"), None, Some(callback.error))];
    }
  }

  // What a report is worth, given that replies come from workers that handled the op.

  /** One worker's handling of this op. */
  datatype Execution = Execution(me: Origin, callback: Callback)

  /** Every reply a publish polled was sent by some handling of the op it broadcast. */
  ghost predicate Genuine(wire: Wire, executions: set<Execution>, polls: seq<Poll>) {
    forall i :: 0 <= i < |polls| && polls[i].delivery.Arrived? ==>
      exists e :: e in executions && Acts(e.me, wire) && polls[i].delivery.reply in Answers(e.me, e.callback)
  }

  ghost predicate Completed(executions: set<Execution>, o: Origin) {
    exists e :: e in executions && e.me == o && e.callback.Returned?
  }

  /** An ok report is true: every worker the publish expected ran its callback to the end without raising. */
  lemma OkMeansEveryCallbackCompleted(wire: Wire, executions: set<Execution>, net: Network,
                                      expected: set<Origin>, results: map<Origin, OriginResult>, o: Origin)
    requires Genuine(wire, executions, net.polls)
    requires Collected(expected, net.deadline, net.polls, net.alive, results)
    requires AllApplied(Reachable(false, results)) && o in expected
    ensures Completed(executions, o) && Acts(o, wire)
  {
    var n: nat :| StopsAfter(expected, net.deadline, net.polls, n)
               && results == map o | o in expected :: FinalVerdict(net.polls[..n], o, net.alive(o));
    ReportMeaning(expected, net.deadline, net.polls, net.alive, results, n, o);
    var i :| 0 <= i < n && Terminal(net.polls[i], o);
    var e :| e in executions && Acts(e.me, wire) && net.polls[i].delivery.reply in Answers(e.me, e.callback);
    assert !TerminalFailure(net.polls[i], o);
  }

  /** A worker's entry, and how its callback ended: what it returned, or why it failed, and nothing else. */
  predicate Tells(entry: OriginResult, callback: Callback) {
    match callback
    case Returned(payload) => entry == OriginResult(Applied, payload, None)
    case RaisedError(error) => entry == OriginResult(Failed, None, Some(error))
    case Cancelled => false
  }

  /** What is reported of a worker is what its callback did: an applied entry carries what some execution of it
    * returned, a failed one why some execution failed, and a computed one carries neither. */
  lemma ReportTellsWhatCallbacksDid(wire: Wire, executions: set<Execution>, net: Network,
                                    expected: set<Origin>, results: map<Origin, OriginResult>, o: Origin)
    requires Genuine(wire, executions, net.polls) && o in expected
    requires Collected(expected, net.deadline, net.polls, net.alive, results)
    ensures o in results
    ensures if results[o].outcome.Applied? || results[o].outcome.Failed?
            then exists e :: e in executions && e.me == o && Acts(o, wire) && Tells(results[o], e.callback)
            else results[o].payload == None && results[o].error == None
  {
    var n: nat :| StopsAfter(expected, net.deadline, net.polls, n)
               && results == map o | o in expected :: FinalVerdict(net.polls[..n], o, net.alive(o));
    var polls := net.polls[..n];
    if Verdict(polls, o).Some? {
      var i := VerdictContent(polls, o);
      assert polls[i] == net.polls[i];
      var e :| e in executions && Acts(e.me, wire) && net.polls[i].delivery.reply in Answers(e.me, e.callback);
      assert Tells(results[o], e.callback);
    }
  }

  /** A failure that reached the publish in time is never reported as ok. */
  lemma ConsumedFailureIsReported(net: Network, expected: set<Origin>, results: map<Origin, OriginResult>,
                                  n: nat, i: nat, o: Origin)
    requires Collected(expected, net.deadline, net.polls, net.alive, results)
    requires StopsAfter(expected, net.deadline, net.polls, n) && i < n
    requires o in expected && TerminalFailure(net.polls[i], o)
    ensures results[o].outcome.Failed? && !AllApplied(Reachable(false, results))
  {
    ReportMeaning(expected, net.deadline, net.polls, net.alive, results, n, o);
  }

  /** And the report is ok when it can be: replies from every expected worker, none failed, all in time. */
  lemma TimelySuccessIsReported(net: Network, expected: set<Origin>, results: map<Origin, OriginResult>)
    requires Collected(expected, net.deadline, net.polls, net.alive, results)
    requires forall i :: 0 <= i < |net.polls| ==>
               net.polls[i].at < net.deadline && !net.polls[i].delivery.TransportFailed?
    requires forall o, i :: o in expected && 0 <= i < |net.polls| ==> !TerminalFailure(net.polls[i], o)
    requires forall o :: o in expected ==> exists i :: 0 <= i < |net.polls| && Terminal(net.polls[i], o)
    ensures AllApplied(Reachable(false, results))
  {
    var n: nat :| StopsAfter(expected, net.deadline, net.polls, n)
               && results == map o | o in expected :: FinalVerdict(net.polls[..n], o, net.alive(o));
    assert net.polls[..|net.polls|] == net.polls;
    forall o | o in expected
      ensures results[o].outcome.Applied?
    {
      VerdictMeaning(net.polls, o);
      VerdictMeaning(net.polls[..n], o);
      assert n < |net.polls| ==> AllTerminal(expected, net.polls[..n]);
    }
  }
}
