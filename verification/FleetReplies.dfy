/** What a publish learns of each worker from the replies it consumed. */
module FleetReplies {
  import opened Wrappers

  type Origin = string

  datatype Outcome = Applied | Failed | Missing | Departed | TimedOut

  datatype OriginResult = OriginResult(outcome: Outcome, payload: Option<string>, error: Option<string>)

  /** One frame on the reply channel of a publish. */
  datatype Reply = Reply(
    origin: Origin, phase: string, outcome: Option<string>, payload: Option<string>, error: Option<string>)

  /** What one poll of the reply channel brings: nothing, a frame that is no object, a reply, or an outage. */
  datatype Delivery = Nothing | Garbled | Arrived(reply: Reply) | TransportFailed

  /** A poll, with the clock read just before it. */
  datatype Poll = Poll(at: int, delivery: Delivery)

  predicate FromWorker(p: Poll, o: Origin, phase: string) {
    p.delivery.Arrived? && p.delivery.reply.origin == o && p.delivery.reply.phase == phase
  }

  predicate Terminal(p: Poll, o: Origin) {
    FromWorker(p, o, "terminal")
  }

  predicate TerminalFailure(p: Poll, o: Origin) {
    Terminal(p, o) && p.delivery.reply.outcome == Some("failed")
  }

  /** Anything a worker sends as a terminal outcome other than "failed" counts as applied. */
  function TerminalResult(reply: Reply): OriginResult {
    OriginResult(if reply.outcome == Some("failed") then Failed else Applied, reply.payload, reply.error)
  }

  /** The verdict on `o` after `polls`: its first failure, or else its last success. */
  function Verdict(polls: seq<Poll>, o: Origin): Option<OriginResult> {
    if polls == [] then None
    else
      var earlier, last := Verdict(polls[..|polls| - 1], o), polls[|polls| - 1];
      if !Terminal(last, o) || (earlier.Some? && earlier.value.outcome.Failed?) then earlier
      else Some(TerminalResult(last.delivery.reply))
  }

  predicate Acked(polls: seq<Poll>, o: Origin) {
    exists i :: 0 <= i < |polls| && FromWorker(polls[i], o, "received")
  }

  /** The verdict on a worker that sent no terminal reply; `alive` is None when presence could not be read. */
  function ComputedVerdict(acked: bool, alive: Option<bool>): OriginResult {
    OriginResult(if alive == Some(false) then Departed else if acked then TimedOut else Missing, None, None)
  }

  function FinalVerdict(polls: seq<Poll>, o: Origin, alive: Option<bool>): OriginResult {
    match Verdict(polls, o)
    case Some(result) => result
    case None => ComputedVerdict(Acked(polls, o), alive)
  }

  predicate AllTerminal(expected: set<Origin>, polls: seq<Poll>) {
    forall o :: o in expected ==> Verdict(polls, o).Some?
  }

  /** Poll `i` is made: some worker is still silent, time is left, and the poll before it found the channel up. */
  predicate GoesOn(expected: set<Origin>, deadline: int, polls: seq<Poll>, i: nat)
    requires i < |polls|
  {
    && !AllTerminal(expected, polls[..i])
    && polls[i].at < deadline
    && (i > 0 ==> !polls[i - 1].delivery.TransportFailed?)
  }

  /** The collection ends after exactly the polls `polls[..n]`. */
  ghost predicate StopsAfter(expected: set<Origin>, deadline: int, polls: seq<Poll>, n: nat) {
    && n <= |polls|
    && (forall i: nat :: i < n ==> GoesOn(expected, deadline, polls, i))
    && (n < |polls| ==> !GoesOn(expected, deadline, polls, n))
  }

  /** The report on `expected`: one final verdict each, over the polls consumed. */
  ghost predicate Collected(expected: set<Origin>, deadline: int, polls: seq<Poll>, alive: Origin -> Option<bool>,
                            results: map<Origin, OriginResult>) {
    exists n: nat :: StopsAfter(expected, deadline, polls, n)
             && results == map o | o in expected :: FinalVerdict(polls[..n], o, alive(o))
  }

  lemma {:induction false} VerdictMeaning(polls: seq<Poll>, o: Origin)
    ensures Verdict(polls, o).Some? <==> exists i :: 0 <= i < |polls| && Terminal(polls[i], o)
    ensures (Verdict(polls, o).Some? && Verdict(polls, o).value.outcome.Failed?)
       <==> exists i :: 0 <= i < |polls| && TerminalFailure(polls[i], o)
    ensures Verdict(polls, o).Some? ==> Verdict(polls, o).value.outcome in {Applied, Failed}
  {
    if polls != [] {
      var earlier, last := polls[..|polls| - 1], |polls| - 1;
      VerdictMeaning(earlier, o);
      assert forall i :: 0 <= i < last ==> earlier[i] == polls[i];
      if Verdict(earlier, o).Some? {
        var i :| 0 <= i < last && Terminal(earlier[i], o);
        assert Terminal(polls[i], o);
      }
      if exists i :: 0 <= i < last && TerminalFailure(earlier[i], o) {
        var i :| 0 <= i < last && TerminalFailure(earlier[i], o);
        assert TerminalFailure(polls[i], o);
      }
      if Terminal(polls[last], o) && TerminalFailure(polls[last], o) {
        assert TerminalFailure(polls[last], o);
      }
    }
  }

  /** Poll `i` brought the verdict on `o`: its first failure, or with no failure at all its last terminal reply. */
  predicate Decides(polls: seq<Poll>, o: Origin, i: nat) {
    && i < |polls| && Terminal(polls[i], o)
    && if TerminalFailure(polls[i], o) then forall j :: 0 <= j < i ==> !TerminalFailure(polls[j], o)
       else
         && (forall j :: 0 <= j < |polls| ==> !TerminalFailure(polls[j], o))
         && (forall j :: i < j < |polls| ==> !Terminal(polls[j], o))
  }

  /** A verdict says what the deciding reply says: its outcome, its payload and its error, each as itself. */
  lemma {:induction false} VerdictContent(polls: seq<Poll>, o: Origin) returns (i: nat)
    requires Verdict(polls, o).Some?
    ensures Decides(polls, o, i)
    ensures Verdict(polls, o).value ==
              OriginResult(if TerminalFailure(polls[i], o) then Failed else Applied,
                           polls[i].delivery.reply.payload, polls[i].delivery.reply.error)
  {
    var last := |polls| - 1;
    var earlier := polls[..last];
    assert forall j :: 0 <= j < last ==> earlier[j] == polls[j];
    VerdictMeaning(earlier, o);
    if !Terminal(polls[last], o) || (Verdict(earlier, o).Some? && Verdict(earlier, o).value.outcome.Failed?) {
      i := VerdictContent(earlier, o);
    } else {
      i := last;
      forall j | 0 <= j < last
        ensures !TerminalFailure(polls[j], o)
      {
        assert !TerminalFailure(earlier[j], o);
      }
    }
  }

  /** A consumed failure survives whatever the same worker says later, unchanged. */
  lemma {:induction false} FailureSurvives(polls: seq<Poll>, later: seq<Poll>, o: Origin)
    requires Verdict(polls, o).Some? && Verdict(polls, o).value.outcome.Failed?
    ensures Verdict(polls + later, o) == Verdict(polls, o)
    decreases |later|
  {
    if later == [] {
      assert polls + later == polls;
    } else {
      var rest := later[..|later| - 1];
      FailureSurvives(polls, rest, o);
      assert (polls + later)[..|polls + later| - 1] == polls + rest;
    }
  }

  /** Exactly which workers are reported applied, failed, or silent. */
  lemma ReportMeaning(expected: set<Origin>, deadline: int, polls: seq<Poll>, alive: Origin -> Option<bool>,
                      results: map<Origin, OriginResult>, n: nat, o: Origin)
    requires Collected(expected, deadline, polls, alive, results) && StopsAfter(expected, deadline, polls, n)
    requires o in expected
    ensures results.Keys == expected
    ensures results[o].outcome.Failed? <==> exists i :: 0 <= i < n && TerminalFailure(polls[i], o)
    ensures results[o].outcome.Applied? <==>
              (exists i :: 0 <= i < n && Terminal(polls[i], o)) && forall i :: 0 <= i < n ==> !TerminalFailure(polls[i], o)
    ensures results[o].outcome.Departed? ==> alive(o) == Some(false)
    ensures results[o].outcome.TimedOut? ==> alive(o) != Some(false) && Acked(polls[..n], o)
    ensures results[o].outcome.Missing? ==> alive(o) != Some(false) && !Acked(polls[..n], o)
  {
    var m: nat :| StopsAfter(expected, deadline, polls, m)
               && results == map o | o in expected :: FinalVerdict(polls[..m], o, alive(o));
    assert m == n;
    VerdictMeaning(polls[..n], o);
    assert forall i :: 0 <= i < n ==> polls[..n][i] == polls[i];
    if Verdict(polls[..n], o).Some? {
      var i :| 0 <= i < |polls[..n]| && Terminal(polls[..n][i], o);
      assert Terminal(polls[i], o);
    }
    if results[o].outcome.Failed? {
      var i :| 0 <= i < |polls[..n]| && TerminalFailure(polls[..n][i], o);
      assert TerminalFailure(polls[i], o);
    }
  }
}
