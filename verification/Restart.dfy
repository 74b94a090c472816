/**
 * The coalescing restart scheduler: a channel of capacity one, a single worker started once, and an
 * atomic flag, as a state machine over its atomic steps, with a clock and a history.
 */
module Restart {
  import opened Common

  /** Holding: a token was received at `received` and the flag not yet checked. */
  datatype Worker =
    | NotStarted
    | Waiting
    | Holding(received: nat)
    | Sleeping(received: nat, since: nat)
    | Restarting

  /**
   * queued: a token is in the channel. delay: the one captured when the worker was started. requested:
   * when calls sent their signal. dropped: how many found the channel full. begun: when restarts began.
   * skipped: how often the worker found the flag set.
   */
  datatype State = State(
    now: nat,
    queued: bool,
    flag: bool,
    worker: Worker,
    delay: nat,
    requested: seq<nat>,
    dropped: nat,
    begun: seq<nat>,
    finished: nat,
    skipped: nat)

  const START := State(0, false, false, NotStarted, 0, [], 0, [], 0, 0)

  datatype Step =
    | Tick(n: nat)
    | Enter(delay: nat)
    | Send
    | Receive
    | Check
    | Begin
    | Finish

  /** A step that is not enabled does nothing; Send is only reached after Enter. */
  function Do(s: State, step: Step): State {
    match step
    case Tick(n) => s.(now := s.now + n)
    case Enter(d) => if s.worker.NotStarted? then s.(worker := Waiting, delay := d) else s
    case Send =>
      if s.worker.NotStarted? then s
      else if s.queued then s.(requested := s.requested + [s.now], dropped := s.dropped + 1)
      else s.(requested := s.requested + [s.now], queued := true)
    case Receive =>
      if s.worker.Waiting? && s.queued then s.(queued := false, worker := Holding(s.now)) else s
    case Check =>
      if !s.worker.Holding? then s
      else if s.flag then s.(worker := Waiting, skipped := s.skipped + 1)
      else s.(flag := true, worker := Sleeping(s.worker.received, s.now))
    case Begin =>
      if s.worker.Sleeping? && s.now >= s.worker.since + s.delay
      then s.(worker := Restarting, begun := s.begun + [s.now]) else s
    case Finish =>
      if s.worker.Restarting? then s.(worker := Waiting, flag := false, finished := s.finished + 1) else s
  }

  function Run(s: State, steps: seq<Step>): State
    decreases |steps|
  {
    if steps == [] then s else Run(Do(s, steps[0]), steps[1..])
  }

  /** A restart began at least `delay` after t. */
  ghost predicate Served(s: State, t: nat) {
    exists i :: 0 <= i < |s.begun| && s.begun[i] >= t + s.delay
  }

  /** The worker holds a token it received at or after t and has not begun the restart for. */
  predicate InHand(s: State, t: nat) {
    (s.worker.Holding? || s.worker.Sleeping?) && t <= s.worker.received
  }

  ghost predicate NoneLost(s: State) {
    forall i :: 0 <= i < |s.requested| ==> s.queued || InHand(s, s.requested[i]) || Served(s, s.requested[i])
  }

  predicate Books(s: State) {
    && |s.requested| == s.dropped + |s.begun|
         + (if s.queued then 1 else 0) + (if s.worker.Holding? || s.worker.Sleeping? then 1 else 0)
    && |s.begun| == s.finished + (if s.worker.Restarting? then 1 else 0)
    && s.skipped == 0
  }

  predicate Times(s: State) {
    && (forall i :: 0 <= i < |s.requested| ==> s.requested[i] <= s.now)
    && (forall i :: 0 <= i < |s.begun| ==> s.begun[i] <= s.now)
    && (s.worker.Holding? ==> s.worker.received <= s.now)
    && (s.worker.Sleeping? ==> s.worker.received <= s.worker.since <= s.now
                               && forall i :: 0 <= i < |s.begun| ==> s.begun[i] <= s.worker.since)
    && (forall i, j :: 0 <= i < j < |s.begun| ==> s.begun[i] + s.delay <= s.begun[j])
  }

  ghost predicate Inv(s: State) {
    && (s.flag <==> s.worker.Sleeping? || s.worker.Restarting?)
    && (s.worker.NotStarted? ==> s.requested == [] && s.begun == [] && !s.queued)
    && Books(s)
    && Times(s)
    && NoneLost(s)
  }

  lemma ServedMore(s: State, s': State, t: nat)
    requires Served(s, t) && s.delay == s'.delay && |s.begun| <= |s'.begun| && s'.begun[..|s.begun|] == s.begun
    ensures Served(s', t)
  {
    var i :| 0 <= i < |s.begun| && s.begun[i] >= t + s.delay;
    assert s'.begun[i] == s'.begun[..|s.begun|][i];
  }

  /** No step loses a request: what was queued, in hand or served stays one of the three. */
  lemma StepLosesNone(s: State, step: Step)
    requires Inv(s)
    ensures NoneLost(Do(s, step))
  {
    var s' := Do(s, step);
    forall i | 0 <= i < |s'.requested|
      ensures s'.queued || InHand(s', s'.requested[i]) || Served(s', s'.requested[i])
    {
      var t := s'.requested[i];
      if i < |s.requested| {
        assert t == s.requested[i];
        if Served(s, t) {
          ServedMore(s, s', t);
        } else if step.Begin? && InHand(s, t) && s'.worker.Restarting? {
          assert s'.begun[|s.begun|] >= t + s.delay;
        }
      }
    }
  }

  lemma StepKeepsInv(s: State, step: Step)
    requires Inv(s)
    ensures Inv(Do(s, step))
  {
    StepLosesNone(s, step);
    hide NoneLost;
  }

  /**
   * Every interleaving of schedulers and worker: for each request a restart began at least the delay after
   * it, or a token is queued, or the worker has one in hand; restarts never overlap, begin at least the
   * delay apart and never outnumber the requests; and the worker never finds the flag set.
   */
  lemma {:induction false} NoRequestLost(s: State, steps: seq<Step>)
    requires Inv(s)
    ensures Inv(Run(s, steps))
    ensures |Run(s, steps).begun| <= |Run(s, steps).requested| && Run(s, steps).skipped == 0
    decreases |steps|
  {
    if steps != [] {
      StepKeepsInv(s, steps[0]);
      hide Inv, Do;
      NoRequestLost(Do(s, steps[0]), steps[1..]);
    }
  }

  lemma FromStart(steps: seq<Step>)
    ensures Inv(Run(START, steps))
  {
    NoRequestLost(START, steps);
  }

  /** The delay of the first call is the delay of all restarts; later calls do not change it. */
  function FirstDelay(steps: seq<Step>): nat
    decreases |steps|
  {
    if steps == [] then 0 else if steps[0].Enter? then steps[0].delay else FirstDelay(steps[1..])
  }

  lemma {:induction false} DelayIsFirst(s: State, steps: seq<Step>)
    requires Inv(s)
    ensures Run(s, steps).delay == if s.worker.NotStarted? && exists i :: 0 <= i < |steps| && steps[i].Enter?
                                   then FirstDelay(steps) else s.delay
    decreases |steps|
  {
    if steps != [] {
      var rest := steps[1..];
      StepKeepsInv(s, steps[0]);
      assert steps[0].Enter? || ((exists i :: 0 <= i < |steps| && steps[i].Enter?) <==> exists i :: 0 <= i < |rest| && rest[i].Enter?) by {
        if !steps[0].Enter? {
          if i :| 0 <= i < |steps| && steps[i].Enter? {
            assert rest[i - 1] == steps[i];
          }
        }
      }
      hide NoneLost, Times, Books;
      DelayIsFirst(Do(s, steps[0]), rest);
    }
  }

  /** No call is ignored: it leaves a token queued and is on record, whether or not one was queued before. */
  lemma SendCounts(s: State)
    requires Inv(s) && !s.worker.NotStarted?
    ensures var s' := Do(s, Send);
            && s'.queued && s'.requested == s.requested + [s.now] && s'.worker == s.worker
            && s'.dropped == s.dropped + (if s.queued then 1 else 0)
  {
  }

  // ---- left alone: only the worker and the clock act

  predicate Quiet(step: Step) {
    !step.Enter? && !step.Send?
  }

  ghost predicate AllQuiet(steps: seq<Step>) {
    forall i :: 0 <= i < |steps| ==> Quiet(steps[i])
  }

  predicate AtRest(s: State) {
    !s.queued && (s.worker.Waiting? || s.worker.NotStarted?)
  }

  /** How many worker steps are still to come. */
  function Rank(s: State): nat {
    (if s.queued then 4 else 0)
    + match s.worker
      case Holding(_) => 3
      case Sleeping(_, _) => 2
      case Restarting => 1
      case _ => 0
  }

  /** Worker steps that do something, along a run. */
  function Moves(s: State, steps: seq<Step>): nat
    decreases |steps|
  {
    if steps == [] then 0
    else (if !steps[0].Tick? && Do(s, steps[0]) != s then 1 else 0) + Moves(Do(s, steps[0]), steps[1..])
  }

  lemma QuietStep(s: State, step: Step)
    requires Inv(s) && Quiet(step)
    ensures var s' := Do(s, step);
            && s'.requested == s.requested && s'.dropped == s.dropped && s'.delay == s.delay
            && Rank(s) == Rank(s') + (if !step.Tick? && s' != s then 1 else 0)
  {
    hide NoneLost, Times;
  }

  lemma {:induction false} QuietRun(s: State, steps: seq<Step>)
    requires Inv(s) && AllQuiet(steps)
    ensures var last := Run(s, steps);
            && Inv(last) && last.requested == s.requested && last.dropped == s.dropped
            && Rank(s) == Rank(last) + Moves(s, steps)
    decreases |steps|
  {
    hide Inv, Do, Rank, Quiet;
    if steps != [] {
      assert Quiet(steps[0]);
      QuietStep(s, steps[0]);
      StepKeepsInv(s, steps[0]);
      forall i | 0 <= i < |steps[1..]|
        ensures Quiet(steps[1..][i])
      {
        assert steps[1..][i] == steps[i + 1];
      }
      QuietRun(Do(s, steps[0]), steps[1..]);
    }
  }

  /** The worker has a step to make, now or when it has waited for the delay at most. */
  ghost predicate CanMove(s: State) {
    exists n: nat, step: Step :: n <= s.delay && Quiet(step) && !step.Tick? && Do(Do(s, Tick(n)), step) != Do(s, Tick(n))
  }

  lemma NotAtRestMoves(s: State)
    requires Inv(s) && !AtRest(s)
    ensures CanMove(s)
  {
    var n, step :=
      if s.worker.Sleeping? then s.delay else 0,
      match s.worker
      case Holding(_) => Check
      case Sleeping(_, _) => Begin
      case Restarting => Finish
      case _ => Receive;
    assert Quiet(step) && Do(Do(s, Tick(n)), step) != Do(s, Tick(n));
  }

  /**
   * Left alone, in whatever order worker and clock act: no request is forgotten, at most two more restarts
   * begin, and at most seven worker steps happen. While the worker is not at rest it has a step to make, so
   * it comes to rest; and at rest every request has had a restart that began at least the delay after it.
   */
  lemma EveryRequestEventuallyServed(s: State, steps: seq<Step>)
    requires Inv(s) && AllQuiet(steps)
    ensures var last := Run(s, steps);
            && last.requested == s.requested
            && |last.begun| <= |s.begun| + 2
            && Moves(s, steps) <= Rank(s) <= 7
            && (AtRest(last) <==> Moves(s, steps) == Rank(s))
            && (!AtRest(last) ==> CanMove(last))
            && (AtRest(last) ==> forall i :: 0 <= i < |s.requested| ==> Served(last, s.requested[i]))
  {
    var last := Run(s, steps);
    QuietRun(s, steps);
    hide Run, Moves, Times, Do, CanMove, Served;
    if AtRest(last) {
      forall i | 0 <= i < |s.requested|
        ensures Served(last, s.requested[i])
      {
        assert last.queued || InHand(last, last.requested[i]) || Served(last, last.requested[i]);
      }
    } else {
      NotAtRestMoves(last);
    }
  }
}
