/**
 * The client-facing decisions of the broker: the bounded poll `waitFor`,
 * and the check-then-respond logic of `POST /instance` (start) and
 * `DELETE /instance` (stop).
 *
 * Spawning the instance process, killing it and the best-effort shutdown
 * request are recorded as events in the outcome. The registry is read at
 * the moment of the request (`atRequest`) and again at each 200 ms poll
 * (`polls`): between polls other requests (the spawned instance's own
 * `/register`, a `/deregister`) change the shared table, so each poll sees
 * its own snapshot together with the elapsed time on the broker's clock.
 */
module BrokerRoutes {
  import opened Wrappers
  import opened Js
  import opened Seqs
  import opened InstanceRegistry

  /** Default `timeoutMs` of `waitFor`. */
  const WAIT_TIMEOUT_MS: int := 10000

  /** What one tick of the poll timer observes: the value of `cond()` and `Date.now() - start`. */
  datatype PollStep = PollStep(holds: bool, elapsedMs: int)

  /** `waitFor` resolves with `ok` at tick `at`, or is still pending after the ticks seen. */
  datatype WaitOutcome = Resolved(ok: bool, at: nat) | Pending

  /** Tick k is where `waitFor` resolves: it holds or has timed out there, and at no earlier tick. */
  predicate SettlesAt(steps: seq<PollStep>, timeoutMs: int, k: nat) {
    k < |steps|
    && (steps[k].holds || steps[k].elapsedMs > timeoutMs)
    && forall j :: 0 <= j < k ==> !steps[j].holds && steps[j].elapsedMs <= timeoutMs
  }

  /** No tick so far resolves the promise. */
  predicate NeverSettles(steps: seq<PollStep>, timeoutMs: int) {
    forall j :: 0 <= j < |steps| ==> !steps[j].holds && steps[j].elapsedMs <= timeoutMs
  }

  /**
   * `waitFor`: on each tick test the condition first, then the timeout
   * (strictly greater than `timeoutMs`), and stop at the first tick that
   * decides.
   */
  method WaitFor(steps: seq<PollStep>, timeoutMs: int) returns (w: WaitOutcome)
    ensures w.Resolved? ==> SettlesAt(steps, timeoutMs, w.at) && w.ok == steps[w.at].holds
    ensures w.Pending? <==> NeverSettles(steps, timeoutMs)
  {
    var i := 0;
    while i < |steps|
      invariant 0 <= i <= |steps|
      invariant forall j :: 0 <= j < i ==> !steps[j].holds && steps[j].elapsedMs <= timeoutMs
    {
      if steps[i].holds {
        return Resolved(true, i);
      } else if steps[i].elapsedMs > timeoutMs {
        return Resolved(false, i);
      }
      i := i + 1;
    }
    return Pending;
  }

  /** At most one tick settles the wait. */
  lemma SettlesAtUnique(steps: seq<PollStep>, timeoutMs: int, k1: nat, k2: nat)
    requires SettlesAt(steps, timeoutMs, k1) && SettlesAt(steps, timeoutMs, k2)
    ensures k1 == k2
  {
  }

  /**
   * `waitFor` resolves true exactly when the condition holds at some tick
   * before which the timeout had not yet been exceeded.
   */
  lemma WaitResolvesTrueIff(steps: seq<PollStep>, timeoutMs: int)
    ensures (exists k: nat :: SettlesAt(steps, timeoutMs, k) && steps[k].holds)
        <==> (exists k :: 0 <= k < |steps| && steps[k].holds
                && forall j :: 0 <= j < k ==> steps[j].elapsedMs <= timeoutMs)
  {
    if (exists k :: 0 <= k < |steps| && steps[k].holds
          && forall j :: 0 <= j < k ==> steps[j].elapsedMs <= timeoutMs) {
      var k :| 0 <= k < |steps| && steps[k].holds
          && forall j :: 0 <= j < k ==> steps[j].elapsedMs <= timeoutMs;
      var first := FirstIndex(steps, (st: PollStep) => st.holds);
      assert first.Some? && first.value <= k;
      assert SettlesAt(steps, timeoutMs, first.value);
    }
  }

  // ---------------------------------------------------------------------
  // POST /instance and DELETE /instance
  // ---------------------------------------------------------------------

  /** The registry as one poll tick sees it. */
  datatype PollView = PollView(elapsedMs: int, snapshot: seq<Instance>)

  /** The port of the first online entry for cwd, if there is one. */
  function OnlinePort(s: seq<Instance>, cwd: string): (r: Option<int>)
    ensures r.Some? <==> HasOnline(s, cwd)
    ensures r.Some? ==> exists i :: 0 <= i < |s| && s[i].cwd == cwd && s[i].status == Online && s[i].port == r.value
  {
    match FirstIndex(s, OnlineAt(cwd))
    case Some(k) => Some(s[k].port)
    case None =>
      assert forall i :: 0 <= i < |s| ==> !OnlineAt(cwd)(s[i]);
      None
  }

  /** The start condition at each tick: "an online entry for cwd exists". */
  function StartSteps(polls: seq<PollView>, cwd: string): (r: seq<PollStep>)
    ensures |r| == |polls|
    ensures forall k :: 0 <= k < |polls| ==> r[k] == PollStep(HasOnline(polls[k].snapshot, cwd), polls[k].elapsedMs)
  {
    seq(|polls|, k requires 0 <= k < |polls| => PollStep(HasOnline(polls[k].snapshot, cwd), polls[k].elapsedMs))
  }

  /** The stop condition at each tick: "no online entry for cwd is left". */
  function StopSteps(polls: seq<PollView>, cwd: string): (r: seq<PollStep>)
    ensures |r| == |polls|
    ensures forall k :: 0 <= k < |polls| ==> r[k] == PollStep(!HasOnline(polls[k].snapshot, cwd), polls[k].elapsedMs)
  {
    seq(|polls|, k requires 0 <= k < |polls| => PollStep(!HasOnline(polls[k].snapshot, cwd), polls[k].elapsedMs))
  }

  datatype StartReply =
    | StartMissingCwd
    | AlreadyRunning
    | InstanceReady(port: int)
    | StartupTimeout
    | StartPending
  {
    /** The HTTP status sent, or None while the request is still waiting. */
    function Status(): Option<int> {
      match this
      case StartMissingCwd => Some(400)
      case AlreadyRunning => Some(409)
      case InstanceReady(_) => Some(201)
      case StartupTimeout => Some(500)
      case StartPending => None
    }
  }

  /** The reply, whether an instance process was spawned, and whether it was killed again. */
  datatype StartOutcome = StartOutcome(reply: StartReply, spawned: bool, killed: bool)

  /** `POST /instance`. */
  method PostInstance(cwd: Option<string>, atRequest: seq<Instance>, polls: seq<PollView>)
    returns (out: StartOutcome)
    ensures !StringTruthy(cwd) ==> out == StartOutcome(StartMissingCwd, false, false)
    ensures StringTruthy(cwd) && HasOnline(atRequest, cwd.value) ==> out == StartOutcome(AlreadyRunning, false, false)
    ensures StringTruthy(cwd) && !HasOnline(atRequest, cwd.value) ==>
      && out.spawned
      && (out.killed <==> out.reply == StartupTimeout)
      && (out.reply == StartPending <==> NeverSettles(StartSteps(polls, cwd.value), WAIT_TIMEOUT_MS))
      && forall k: nat :: SettlesAt(StartSteps(polls, cwd.value), WAIT_TIMEOUT_MS, k) ==>
           out.reply == (if HasOnline(polls[k].snapshot, cwd.value)
                         then InstanceReady(OnlinePort(polls[k].snapshot, cwd.value).value)
                         else StartupTimeout)
  {
    if !StringTruthy(cwd) {
      return StartOutcome(StartMissingCwd, false, false);
    }
    var existing := OnlinePort(atRequest, cwd.value);
    if existing.Some? {
      return StartOutcome(AlreadyRunning, false, false);
    }
    var steps := StartSteps(polls, cwd.value);
    var w := WaitFor(steps, WAIT_TIMEOUT_MS);
    match w {
      case Pending =>
        out := StartOutcome(StartPending, true, false);
      case Resolved(ok, k) =>
        if ok {
          var port := OnlinePort(polls[k].snapshot, cwd.value);
          out := StartOutcome(InstanceReady(port.value), true, false);
        } else {
          out := StartOutcome(StartupTimeout, true, true);
        }
        forall k' | SettlesAt(steps, WAIT_TIMEOUT_MS, k') ensures k' == k {
          SettlesAtUnique(steps, WAIT_TIMEOUT_MS, k, k');
        }
    }
  }

  datatype StopReply =
    | StopMissingCwd
    | InstanceNotFound
    | InstanceStopped
    | ShutdownTimeout
    | StopPending
  {
    function Status(): Option<int> {
      match this
      case StopMissingCwd => Some(400)
      case InstanceNotFound => Some(404)
      case InstanceStopped => Some(200)
      case ShutdownTimeout => Some(500)
      case StopPending => None
    }
  }

  /** The reply, and the instance port the best-effort shutdown request was sent to. */
  datatype StopOutcome = StopOutcome(reply: StopReply, shutdownSentTo: Option<int>)

  /**
   * `DELETE /instance`. Whether the shutdown request succeeds is not an
   * input: its failure is swallowed and only the later polls decide.
   */
  method DeleteInstance(cwd: Option<string>, atRequest: seq<Instance>, polls: seq<PollView>)
    returns (out: StopOutcome)
    ensures !StringTruthy(cwd) ==> out == StopOutcome(StopMissingCwd, None)
    ensures StringTruthy(cwd) && !HasOnline(atRequest, cwd.value) ==> out == StopOutcome(InstanceNotFound, None)
    ensures StringTruthy(cwd) && HasOnline(atRequest, cwd.value) ==>
      && out.shutdownSentTo == OnlinePort(atRequest, cwd.value)
      && (out.reply == StopPending <==> NeverSettles(StopSteps(polls, cwd.value), WAIT_TIMEOUT_MS))
      && forall k: nat :: SettlesAt(StopSteps(polls, cwd.value), WAIT_TIMEOUT_MS, k) ==>
           out.reply == (if HasOnline(polls[k].snapshot, cwd.value) then ShutdownTimeout else InstanceStopped)
  {
    if !StringTruthy(cwd) {
      return StopOutcome(StopMissingCwd, None);
    }
    var target := OnlinePort(atRequest, cwd.value);
    if target.None? {
      return StopOutcome(InstanceNotFound, None);
    }
    var steps := StopSteps(polls, cwd.value);
    var w := WaitFor(steps, WAIT_TIMEOUT_MS);
    match w {
      case Pending =>
        out := StopOutcome(StopPending, target);
      case Resolved(ok, k) =>
        out := StopOutcome(if ok then InstanceStopped else ShutdownTimeout, target);
        forall k' | SettlesAt(steps, WAIT_TIMEOUT_MS, k') ensures k' == k {
          SettlesAtUnique(steps, WAIT_TIMEOUT_MS, k, k');
        }
    }
  }
}
