/**
 * One lane of the Go data platform (go_data_platform/scheduler.go): a bounded queue, one dispatcher
 * that starts a goroutine per queued job, a semaphore of `workers` slots, and a one-place result
 * channel per job whose caller may have left. Goroutines interleave at channel operations.
 */
module Lane {
  import opened Wrappers

  type JobId = nat
  type Outcome = int

  datatype Config = Config(workers: nat, queueSize: nat)

  /** What became of one call of `Execute`. */
  datatype Caller = Rejected | Waiting | GaveUp | Returned(result: Outcome)

  datatype State = State(
    queue: seq<JobId>,               // the buffered queue channel
    hand: Option<JobId>,             // the job the dispatcher has received but not yet started
    spawned: set<JobId>,             // goroutines waiting for a slot
    running: set<JobId>,             // goroutines holding a slot, job not yet returned
    sent: set<JobId>,                // result sent, slot still held
    finished: set<JobId>,            // slot released
    slots: nat,                      // tokens in the semaphore channel
    done: map<JobId, seq<Outcome>>,  // the result channels
    callers: map<JobId, Caller>,
    starts: multiset<JobId>,         // how often each job's body was entered
    produced: map<JobId, seq<Outcome>>)  // every result ever sent, per job

  datatype Step =
    | Accept(job: JobId)
    | Reject(job: JobId)
    | Take
    | Spawn
    | Acquire(job: JobId)
    | Finish(job: JobId, result: Outcome)
    | Release(job: JobId)
    | Receive(job: JobId)
    | Leave(job: JobId)

  const START := State([], None, {}, {}, {}, {}, 0, map[], map[], multiset{}, map[])

  predicate Known(s: State, job: JobId) { job in s.callers }

  /** Room in the buffer, or a dispatcher ready to receive (which is how an unbuffered queue works). */
  predicate QueueTakes(cfg: Config, s: State) {
    |s.queue| < cfg.queueSize || (s.queue == [] && s.hand.None?)
  }

  predicate Enabled(cfg: Config, s: State, step: Step) {
    match step
    case Accept(j) => !Known(s, j) && QueueTakes(cfg, s)
    case Reject(j) => !Known(s, j)
    case Take => s.hand.None? && s.queue != []
    case Spawn => s.hand.Some?
    case Acquire(j) => j in s.spawned && s.slots < cfg.workers
    case Finish(j, _) => j in s.running && j in s.done && |s.done[j]| < 1
    case Release(j) => j in s.sent && s.slots > 0
    case Receive(j) => j in s.callers && s.callers[j].Waiting? && j in s.done && s.done[j] != []
    case Leave(j) => j in s.callers && s.callers[j].Waiting?
  }

  function Next(cfg: Config, s: State, step: Step): State
    requires Enabled(cfg, s, step)
  {
    match step
    case Accept(j) =>
      var t := s.(callers := s.callers[j := Waiting], done := s.done[j := []], produced := s.produced[j := []]);
      if |s.queue| < cfg.queueSize then t.(queue := s.queue + [j]) else t.(hand := Some(j))
    case Reject(j) => s.(callers := s.callers[j := Rejected])
    case Take => s.(hand := Some(s.queue[0]), queue := s.queue[1..])
    case Spawn => s.(hand := None, spawned := s.spawned + {s.hand.value})
    case Acquire(j) =>
      s.(spawned := s.spawned - {j}, running := s.running + {j}, slots := s.slots + 1,
         starts := s.starts + multiset{j})
    case Finish(j, r) =>
      s.(running := s.running - {j}, sent := s.sent + {j}, done := s.done[j := s.done[j] + [r]],
         produced := s.produced[j := (if j in s.produced then s.produced[j] else []) + [r]])
    case Release(j) => s.(sent := s.sent - {j}, finished := s.finished + {j}, slots := s.slots - 1)
    case Receive(j) => s.(callers := s.callers[j := Returned(s.done[j][0])], done := s.done[j := s.done[j][1..]])
    case Leave(j) => s.(callers := s.callers[j := GaveUp])
  }

  predicate Legal(cfg: Config, s: State, steps: seq<Step>)
    decreases |steps|, 0
  {
    steps == [] ||
    (Legal(cfg, s, steps[..|steps| - 1]) && Enabled(cfg, After(cfg, s, steps[..|steps| - 1]), steps[|steps| - 1]))
  }

  function After(cfg: Config, s: State, steps: seq<Step>): State
    requires Legal(cfg, s, steps)
    decreases |steps|, 1
  {
    if steps == [] then s else Next(cfg, After(cfg, s, steps[..|steps| - 1]), steps[|steps| - 1])
  }

  // --------------------------------------------------------------- invariant

  predicate Accepted(s: State, j: JobId) { j in s.done }

  /** How many of the six places hold the job. */
  function Places(s: State, j: JobId): nat {
    (if j in s.queue then 1 else 0) + (if s.hand == Some(j) then 1 else 0) +
    (if j in s.spawned then 1 else 0) + (if j in s.running then 1 else 0) +
    (if j in s.sent then 1 else 0) + (if j in s.finished then 1 else 0)
  }

  /** The facts about one job: where it is decides how often it started and sent. */
  predicate JobOk(s: State, j: JobId) {
    && (Accepted(s, j) <==> j in s.produced)
    && (Accepted(s, j) ==> j in s.callers && !s.callers[j].Rejected?)
    && (j in s.callers && !s.callers[j].Rejected? ==> Accepted(s, j))
    && Places(s, j) == (if Accepted(s, j) then 1 else 0)
    && s.starts[j] == (if j in s.running || j in s.sent || j in s.finished then 1 else 0)
    && (Accepted(s, j) ==>
          && |s.produced[j]| == (if j in s.sent || j in s.finished then 1 else 0)
          && (s.callers[j].Returned? ==> s.done[j] == [] && s.produced[j] == [s.callers[j].result])
          && (!s.callers[j].Returned? ==> s.done[j] == s.produced[j]))
  }

  /** The facts about the lane as a whole: its bounds, and no job queued twice. */
  ghost predicate Bounded(cfg: Config, s: State) {
    && (forall i, k :: 0 <= i < k < |s.queue| ==> s.queue[i] != s.queue[k])
    && |s.queue| <= cfg.queueSize
    && s.running !! s.sent && s.slots == |s.running| + |s.sent| <= cfg.workers
  }

  ghost predicate Good(cfg: Config, s: State) {
    (forall j :: JobOk(s, j)) && Bounded(cfg, s)
  }

  lemma StartIsGood(cfg: Config)
    ensures Good(cfg, START)
  {
  }

  lemma AcceptKeepsJob(cfg: Config, s: State, k: JobId, j: JobId)
    requires JobOk(s, j) && JobOk(s, k) && Enabled(cfg, s, Accept(k))
    ensures JobOk(Next(cfg, s, Accept(k)), j)
  {
    assert forall x :: x in s.queue + [k] <==> x in s.queue || x == k;
  }

  lemma TakeKeepsJob(cfg: Config, s: State, j: JobId)
    requires JobOk(s, j) && Enabled(cfg, s, Take) && JobOk(s, s.queue[0])
    requires forall i, k :: 0 <= i < k < |s.queue| ==> s.queue[i] != s.queue[k]
    ensures JobOk(Next(cfg, s, Take), j)
  {
    assert s.queue == [s.queue[0]] + s.queue[1..];
    assert s.queue[0] !in s.queue[1..];
  }

  lemma SpawnKeepsJob(cfg: Config, s: State, j: JobId)
    requires JobOk(s, j) && Enabled(cfg, s, Spawn) && JobOk(s, s.hand.value)
    ensures JobOk(Next(cfg, s, Spawn), j)
  {
  }

  lemma AcquireKeepsJob(cfg: Config, s: State, k: JobId, j: JobId)
    requires JobOk(s, j) && JobOk(s, k) && Enabled(cfg, s, Acquire(k))
    ensures JobOk(Next(cfg, s, Acquire(k)), j)
  {
  }

  lemma FinishKeepsJob(cfg: Config, s: State, k: JobId, r: Outcome, j: JobId)
    requires JobOk(s, j) && JobOk(s, k) && Enabled(cfg, s, Finish(k, r))
    ensures JobOk(Next(cfg, s, Finish(k, r)), j)
  {
  }

  lemma ReleaseKeepsJob(cfg: Config, s: State, k: JobId, j: JobId)
    requires JobOk(s, j) && JobOk(s, k) && Enabled(cfg, s, Release(k))
    ensures JobOk(Next(cfg, s, Release(k)), j)
  {
  }

  /** The steps of a caller move no job. */
  lemma CallerKeepsJob(cfg: Config, s: State, step: Step, j: JobId)
    requires (step.Reject? || step.Receive? || step.Leave?) && Enabled(cfg, s, step)
    requires JobOk(s, j) && JobOk(s, step.job)
    ensures JobOk(Next(cfg, s, step), j)
  {
  }

  lemma StepKeepsJobs(cfg: Config, s: State, step: Step, j: JobId)
    requires Good(cfg, s) && Enabled(cfg, s, step)
    ensures JobOk(Next(cfg, s, step), j)
  {
    assert JobOk(s, j);
    assert !step.Take? && !step.Spawn? ==> JobOk(s, step.job);
    assert step.Take? ==> JobOk(s, s.queue[0]);
    assert step.Spawn? ==> JobOk(s, s.hand.value);
    hide JobOk, Next;
    match step
    case Accept(k) => AcceptKeepsJob(cfg, s, k, j);
    case Take => TakeKeepsJob(cfg, s, j);
    case Spawn => SpawnKeepsJob(cfg, s, j);
    case Acquire(k) => AcquireKeepsJob(cfg, s, k, j);
    case Finish(k, r) => FinishKeepsJob(cfg, s, k, r, j);
    case Release(k) => ReleaseKeepsJob(cfg, s, k, j);
    case _ => CallerKeepsJob(cfg, s, step, j);
  }

  lemma StepKeepsBounds(cfg: Config, s: State, step: Step)
    requires Bounded(cfg, s) && Enabled(cfg, s, step)
    requires step.Accept? ==> step.job !in s.queue
    requires step.Acquire? ==> step.job !in s.running && step.job !in s.sent
    ensures Bounded(cfg, Next(cfg, s, step))
  {
    var s' := Next(cfg, s, step);
    match step
    case Accept(_) =>
    case Take => assert s.queue == [s.queue[0]] + s'.queue;
    case Acquire(k) => assert |s'.running| == |s.running| + 1;
    case Finish(k, _) => assert |s'.running| == |s.running| - 1 && |s'.sent| == |s.sent| + 1;
    case Release(k) => assert |s'.sent| == |s.sent| - 1;
    case _ =>
  }

  lemma StepStaysGood(cfg: Config, s: State, step: Step)
    requires Good(cfg, s) && Enabled(cfg, s, step)
    ensures Good(cfg, Next(cfg, s, step))
  {
    assert step.Accept? || step.Acquire? ==> JobOk(s, step.job);
    hide JobOk, Next, Bounded;
    StepKeepsBounds(cfg, s, step);
    forall j
      ensures JobOk(Next(cfg, s, step), j)
    {
      StepKeepsJobs(cfg, s, step, j);
    }
  }

  lemma {:induction false} RunsStayGood(cfg: Config, steps: seq<Step>)
    requires Legal(cfg, START, steps)
    ensures Good(cfg, After(cfg, START, steps))
  {
    if steps == [] {
      StartIsGood(cfg);
    } else {
      RunsStayGood(cfg, steps[..|steps| - 1]);
      StepStaysGood(cfg, After(cfg, START, steps[..|steps| - 1]), steps[|steps| - 1]);
    }
  }

  // ------------------------------------------------------------ safety results

  /**
   * In every reachable state: at most `workers` jobs run, at most `queueSize` are queued, every
   * accepted job is in exactly one place, was entered at most once, and has sent at most one result;
   * a caller that returned a result returned the result of its own job.
   */
  lemma LaneIsSafe(cfg: Config, steps: seq<Step>, j: JobId)
    requires Legal(cfg, START, steps)
    ensures var s := After(cfg, START, steps);
            && |s.running| <= cfg.workers && |s.queue| <= cfg.queueSize
            && Places(s, j) == (if Accepted(s, j) then 1 else 0)
            && s.starts[j] <= 1
            && (j in s.finished ==> s.starts[j] == 1 && j in s.produced && |s.produced[j]| == 1)
            && (j in s.callers && s.callers[j].Returned? ==>
                  j in s.produced && s.produced[j] == [s.callers[j].result])
            && (j in s.callers && s.callers[j].Rejected? ==> s.starts[j] == 0)
  {
    RunsStayGood(cfg, steps);
    var s := After(cfg, START, steps);
    assert JobOk(s, j);
    assert |s.running| <= s.slots;
  }

  /**
   * No send and no slot release ever blocks, whether or not the caller is still there; and when no
   * goroutine holds a slot the semaphore is empty, so no slot leaks.
   */
  lemma SendAndReleaseNeverBlock(cfg: Config, steps: seq<Step>, j: JobId, r: Outcome)
    requires Legal(cfg, START, steps)
    ensures var s := After(cfg, START, steps);
            && (j in s.running ==> Enabled(cfg, s, Finish(j, r)))
            && (j in s.sent ==> Enabled(cfg, s, Release(j)))
            && s.slots == |s.running + s.sent|
  {
    RunsStayGood(cfg, steps);
    var s := After(cfg, START, steps);
    assert JobOk(s, j);
    assert |s.running + s.sent| == |s.running| + |s.sent|;
    if j in s.sent { assert |s.sent| > 0; }
  }

  // -------------------------------------------------------------- termination

  /** The steps the lane takes by itself, given that job bodies return. */
  predicate Internal(step: Step) {
    step.Take? || step.Spawn? || step.Acquire? || step.Finish? || step.Release?
  }

  /** Internal steps still ahead of the accepted jobs. */
  function Work(s: State): nat {
    5 * |s.queue| + (if s.hand.Some? then 4 else 0) + 3 * |s.spawned| + 2 * |s.running| + |s.sent|
  }

  lemma InternalStepsDoWork(cfg: Config, s: State, step: Step)
    requires Good(cfg, s) && Enabled(cfg, s, step) && Internal(step)
    ensures Work(Next(cfg, s, step)) == Work(s) - 1
  {
    match step
    case Take =>
    case Spawn => assert JobOk(s, s.hand.value);
    case Acquire(j) => assert JobOk(s, j);
    case Finish(j, r) => assert JobOk(s, j);
    case Release(j) => assert JobOk(s, j);
  }

  /** With a worker slot, some internal step is enabled as long as an accepted job is unfinished. */
  lemma SomeStepIsEnabled(cfg: Config, s: State, j: JobId) returns (step: Step)
    requires Good(cfg, s) && cfg.workers >= 1 && Accepted(s, j) && j !in s.finished
    ensures Internal(step) && Enabled(cfg, s, step)
  {
    assert JobOk(s, j);
    if k :| k in s.sent {
      assert |s.sent| > 0;
      step := Release(k);
    } else if k :| k in s.running {
      assert JobOk(s, k);
      step := Finish(k, 0);
    } else if s.hand.Some? {
      step := Spawn;
    } else if s.queue != [] {
      step := Take;
    } else {
      assert j in s.spawned;
      assert s.running == {} && s.sent == {};
      step := Acquire(j);
    }
  }

  ghost predicate AllDone(cfg: Config, s: State) {
    forall j :: Accepted(s, j) ==>
      j in s.finished && (j in s.callers && s.callers[j].Waiting? ==> Enabled(cfg, s, Receive(j)))
  }

  /** Every step but the two ways a new call of `Execute` can go. */
  predicate NotSubmitting(step: Step) {
    !step.Accept? && !step.Reject?
  }

  ghost function WaitingCallers(s: State): set<JobId> {
    set j | j in s.callers && s.callers[j].Waiting?
  }

  /** Internal steps still ahead of the accepted jobs, and callers that still have to receive or leave. */
  ghost function Remaining(s: State): nat {
    Work(s) + |WaitingCallers(s)|
  }

  lemma CallerStepsUseUp(cfg: Config, s: State, step: Step)
    requires Enabled(cfg, s, step) && (step.Receive? || step.Leave?)
    ensures Work(Next(cfg, s, step)) == Work(s)
    ensures |WaitingCallers(Next(cfg, s, step))| == |WaitingCallers(s)| - 1
  {
    var after := WaitingCallers(Next(cfg, s, step));
    assert step.job !in after;
    assert WaitingCallers(s) == after + {step.job};
  }

  lemma StepsUseUp(cfg: Config, s: State, step: Step)
    requires Good(cfg, s) && Enabled(cfg, s, step) && NotSubmitting(step)
    ensures Remaining(Next(cfg, s, step)) == Remaining(s) - 1
  {
    if Internal(step) {
      assert Next(cfg, s, step).callers == s.callers;
      assert WaitingCallers(Next(cfg, s, step)) == WaitingCallers(s);
      hide Good, Next, Work, WaitingCallers;
      InternalStepsDoWork(cfg, s, step);
    } else {
      CallerStepsUseUp(cfg, s, step);
    }
  }

  /**
   * Liveness: from a reachable state every run without new submissions, in which jobs go through the lane
   * and callers receive or leave, has at most `Remaining` steps. Once no internal step is left, every
   * accepted job is finished, the semaphore is empty, and a result is ready for every caller still waiting;
   * once no step at all is left, no caller waits.
   */
  lemma {:induction false} RunsWithoutSubmissionsEnd(cfg: Config, s: State, steps: seq<Step>)
    requires Good(cfg, s) && Legal(cfg, s, steps) && forall k :: 0 <= k < |steps| ==> NotSubmitting(steps[k])
    ensures Good(cfg, After(cfg, s, steps)) && Remaining(After(cfg, s, steps)) == Remaining(s) - |steps|
    ensures |steps| <= Remaining(s)
    ensures cfg.workers >= 1 && (forall step :: Internal(step) ==> !Enabled(cfg, After(cfg, s, steps), step)) ==>
              AllDone(cfg, After(cfg, s, steps)) && After(cfg, s, steps).slots == 0
    ensures (forall step :: NotSubmitting(step) ==> !Enabled(cfg, After(cfg, s, steps), step)) ==>
              WaitingCallers(After(cfg, s, steps)) == {}
  {
    if steps != [] {
      var front := steps[..|steps| - 1];
      RunsWithoutSubmissionsEnd(cfg, s, front);
      StepStaysGood(cfg, After(cfg, s, front), steps[|steps| - 1]);
      StepsUseUp(cfg, After(cfg, s, front), steps[|steps| - 1]);
    }
    var t := After(cfg, s, steps);
    hide Good, Legal, After, Next, AllDone;
    if cfg.workers >= 1 && forall step :: Internal(step) ==> !Enabled(cfg, t, step) {
      StuckMeansDone(cfg, t);
    }
    NobodyWaits(cfg, t);
  }

  lemma NobodyWaits(cfg: Config, s: State)
    ensures (forall step :: NotSubmitting(step) ==> !Enabled(cfg, s, step)) ==> WaitingCallers(s) == {}
  {
    if j :| j in WaitingCallers(s) {
      assert NotSubmitting(Leave(j)) && Enabled(cfg, s, Leave(j));
    }
  }

  lemma StuckMeansDone(cfg: Config, s: State)
    requires Good(cfg, s) && cfg.workers >= 1
    requires forall step :: Internal(step) ==> !Enabled(cfg, s, step)
    ensures AllDone(cfg, s) && s.slots == 0
  {
    forall j | Accepted(s, j)
      ensures j in s.finished && (j in s.callers && s.callers[j].Waiting? ==> Enabled(cfg, s, Receive(j)))
    {
      assert JobOk(s, j);
      if j !in s.finished {
        var step := SomeStepIsEnabled(cfg, s, j);
      }
    }
    forall j
      ensures j !in s.running && j !in s.sent
    {
      assert JobOk(s, j);
    }
    assert s.running == {} && s.sent == {};
  }

  /** Without a worker slot no job ever runs, so the lane makes progress only if it has one. */
  lemma {:induction false} NoWorkersNoJob(cfg: Config, steps: seq<Step>)
    requires cfg.workers == 0 && Legal(cfg, START, steps)
    ensures var s := After(cfg, START, steps); s.running == s.sent == s.finished == {} && s.starts == multiset{}
  {
    if steps != [] {
      NoWorkersNoJob(cfg, steps[..|steps| - 1]);
    }
  }

  // ------------------------------------------------------------- backpressure

  function Flood(n: nat): seq<Step> {
    if n == 0 then [] else Flood(n - 1) + [Accept(n - 1)] + [Take, Spawn]
  }

  /** With an unbuffered queue the dispatcher receives the job directly. */
  function FloodDirect(n: nat): seq<Step> {
    if n == 0 then [] else FloodDirect(n - 1) + [Accept(n - 1)] + [Spawn]
  }

  lemma Extend(cfg: Config, s: State, steps: seq<Step>, step: Step)
    requires Legal(cfg, s, steps) && Enabled(cfg, After(cfg, s, steps), step)
    ensures Legal(cfg, s, steps + [step]) && After(cfg, s, steps + [step]) == Next(cfg, After(cfg, s, steps), step)
  {
    assert (steps + [step])[..|steps + [step]| - 1] == steps;
  }

  /** All jobs so far are goroutines waiting for a slot; queue and dispatcher are empty-handed. */
  ghost predicate Flooded(s: State, n: nat) {
    && s.queue == [] && s.hand.None? && s.running == {}
    && (forall j: nat :: j in s.callers <==> j < n)
    && (forall j: nat :: j < n ==> j in s.spawned && s.callers[j].Waiting?)
  }

  /**
   * The queue bound is no bound on outstanding work: whatever the configuration, any number of
   * callers can be accepted without one job having started.
   */
  lemma {:induction false} QueueGivesNoBackpressure(cfg: Config, n: nat)
    ensures var steps := if cfg.queueSize > 0 then Flood(n) else FloodDirect(n);
            Legal(cfg, START, steps) && Flooded(After(cfg, START, steps), n)
  {
    if n > 0 {
      QueueGivesNoBackpressure(cfg, n - 1);
      if cfg.queueSize > 0 {
        FloodThroughQueue(cfg, n, Flood(n - 1));
        assert Flood(n) == Flood(n - 1) + [Accept(n - 1)] + [Take] + [Spawn];
      } else {
        FloodThroughHand(cfg, n, FloodDirect(n - 1));
      }
    }
  }

  lemma FloodThroughQueue(cfg: Config, n: nat, steps: seq<Step>)
    requires n > 0 && cfg.queueSize > 0 && Legal(cfg, START, steps) && Flooded(After(cfg, START, steps), n - 1)
    ensures var more := steps + [Accept(n - 1)] + [Take] + [Spawn];
            Legal(cfg, START, more) && Flooded(After(cfg, START, more), n)
  {
    QueueOnce(cfg, After(cfg, START, steps), n);
    hide Legal, After, Next, Flooded;
    Extend(cfg, START, steps, Accept(n - 1));
    Extend(cfg, START, steps + [Accept(n - 1)], Take);
    Extend(cfg, START, steps + [Accept(n - 1)] + [Take], Spawn);
  }

  lemma FloodThroughHand(cfg: Config, n: nat, steps: seq<Step>)
    requires n > 0 && cfg.queueSize == 0 && Legal(cfg, START, steps) && Flooded(After(cfg, START, steps), n - 1)
    ensures var more := steps + [Accept(n - 1)] + [Spawn];
            Legal(cfg, START, more) && Flooded(After(cfg, START, more), n)
  {
    HandOnce(cfg, After(cfg, START, steps), n);
    hide Legal, After, Next, Flooded;
    Extend(cfg, START, steps, Accept(n - 1));
    Extend(cfg, START, steps + [Accept(n - 1)], Spawn);
  }

  lemma QueueOnce(cfg: Config, s: State, n: nat)
    requires n > 0 && cfg.queueSize > 0 && Flooded(s, n - 1)
    ensures Enabled(cfg, s, Accept(n - 1))
    ensures Enabled(cfg, Next(cfg, s, Accept(n - 1)), Take)
    ensures Enabled(cfg, Next(cfg, Next(cfg, s, Accept(n - 1)), Take), Spawn)
    ensures Flooded(Next(cfg, Next(cfg, Next(cfg, s, Accept(n - 1)), Take), Spawn), n)
  {
    FloodOnce(s, Next(cfg, Next(cfg, Next(cfg, s, Accept(n - 1)), Take), Spawn), n);
  }

  lemma HandOnce(cfg: Config, s: State, n: nat)
    requires n > 0 && cfg.queueSize == 0 && Flooded(s, n - 1)
    ensures Enabled(cfg, s, Accept(n - 1)) && Enabled(cfg, Next(cfg, s, Accept(n - 1)), Spawn)
    ensures Flooded(Next(cfg, Next(cfg, s, Accept(n - 1)), Spawn), n)
  {
    FloodOnce(s, Next(cfg, Next(cfg, s, Accept(n - 1)), Spawn), n);
  }

  lemma FloodOnce(s: State, t: State, n: nat)
    requires n > 0 && Flooded(s, n - 1)
    requires t.queue == [] && t.hand.None? && t.running == {}
    requires t.callers == s.callers[n - 1 := Waiting] && t.spawned == s.spawned + {n - 1}
    ensures Flooded(t, n)
  {
    forall j: JobId
      ensures j in t.callers <==> j < n
    {
      assert j in s.callers <==> j < n - 1;
    }
  }

  // --------------------------------------------------- what the bounds admit

  /** A new job is accepted exactly while the buffer has room, or the dispatcher waits at an empty one. */
  lemma AcceptedIff(cfg: Config, s: State, j: JobId)
    requires j !in s.callers
    ensures Enabled(cfg, s, Accept(j)) <==>
            |s.queue| < cfg.queueSize || (s.queue == [] && s.hand == None)
  {
  }

  function Accepts(jobs: seq<JobId>): seq<Step> {
    if jobs == [] then [] else Accepts(jobs[..|jobs| - 1]) + [Accept(jobs[|jobs| - 1])]
  }

  ghost predicate NewJobs(s: State, jobs: seq<JobId>) {
    && (forall i :: 0 <= i < |jobs| ==> jobs[i] !in s.callers)
    && (forall i, k :: 0 <= i < k < |jobs| ==> jobs[i] != jobs[k])
  }

  lemma LastStep(cfg: Config, s: State, steps: seq<Step>, step: Step)
    ensures Legal(cfg, s, steps + [step]) <==> Legal(cfg, s, steps) && Enabled(cfg, After(cfg, s, steps), step)
    ensures Legal(cfg, s, steps + [step]) ==>
              After(cfg, s, steps + [step]) == Next(cfg, After(cfg, s, steps), step)
  {
    assert (steps + [step])[..|steps|] == steps;
  }

  /**
   * While the dispatcher holds a job, exactly as many further submissions are accepted as there are free
   * places in the buffer, and they wait there in the order they came.
   */
  lemma {:induction false} QueueFills(cfg: Config, s: State, jobs: seq<JobId>)
    requires s.hand.Some? && |s.queue| <= cfg.queueSize && NewJobs(s, jobs)
    ensures Legal(cfg, s, Accepts(jobs)) <==> |s.queue| + |jobs| <= cfg.queueSize
    ensures Legal(cfg, s, Accepts(jobs)) ==>
              var t := After(cfg, s, Accepts(jobs));
              && t.queue == s.queue + jobs && t.hand == s.hand
              && (forall j :: j in t.callers <==> j in s.callers || j in jobs)
              && (forall i :: 0 <= i < |jobs| ==> t.callers[jobs[i]] == Waiting)
  {
    if jobs != [] {
      var front, j := jobs[..|jobs| - 1], jobs[|jobs| - 1];
      QueueFills(cfg, s, front);
      LastStep(cfg, s, Accepts(front), Accept(j));
      assert jobs == front + [j] && j !in front;
      hide Legal, After;
      if Legal(cfg, s, Accepts(front)) { AcceptJoinsQueue(cfg, After(cfg, s, Accepts(front)), j); }
      hide Next, Enabled;
    }
  }

  lemma AcceptJoinsQueue(cfg: Config, s: State, j: JobId)
    requires s.hand.Some? && j !in s.callers
    ensures Enabled(cfg, s, Accept(j)) <==> |s.queue| < cfg.queueSize
    ensures Enabled(cfg, s, Accept(j)) ==>
              var t := Next(cfg, s, Accept(j));
              t.queue == s.queue + [j] && t.hand == s.hand && t.callers == s.callers[j := Waiting]
  {
  }

  /** A waiting goroutine gets a slot exactly while fewer jobs than workers hold one. */
  lemma AcquiredIff(cfg: Config, steps: seq<Step>, j: JobId)
    requires Legal(cfg, START, steps)
    ensures var s := After(cfg, START, steps);
            Enabled(cfg, s, Acquire(j)) <==> j in s.spawned && |s.running| + |s.sent| < cfg.workers
  {
    RunsStayGood(cfg, steps);
  }

  function Acquires(jobs: seq<JobId>): seq<Step> {
    if jobs == [] then [] else Acquires(jobs[..|jobs| - 1]) + [Acquire(jobs[|jobs| - 1])]
  }

  /** So the workers run at the same time: as many waiting goroutines can start as there are free slots. */
  lemma {:induction false} WorkersFill(cfg: Config, s: State, jobs: seq<JobId>)
    requires s.slots <= cfg.workers
    requires forall i :: 0 <= i < |jobs| ==> jobs[i] in s.spawned
    requires forall i, k :: 0 <= i < k < |jobs| ==> jobs[i] != jobs[k]
    ensures Legal(cfg, s, Acquires(jobs)) <==> s.slots + |jobs| <= cfg.workers
    ensures Legal(cfg, s, Acquires(jobs)) ==>
              var t := After(cfg, s, Acquires(jobs));
              && t.slots == s.slots + |jobs| && t.running == s.running + (set j | j in jobs)
              && t.spawned == s.spawned - (set j | j in jobs)
  {
    if jobs != [] {
      var front, j := jobs[..|jobs| - 1], jobs[|jobs| - 1];
      WorkersFill(cfg, s, front);
      LastStep(cfg, s, Acquires(front), Acquire(j));
      assert jobs == front + [j] && j !in front;
      assert (set x | x in jobs) == (set x | x in front) + {j};
      hide Legal, After;
      if Legal(cfg, s, Acquires(front)) { AcquireTakesSlot(cfg, After(cfg, s, Acquires(front)), j); }
      hide Next, Enabled;
    }
  }

  lemma AcquireTakesSlot(cfg: Config, s: State, j: JobId)
    ensures Enabled(cfg, s, Acquire(j)) <==> j in s.spawned && s.slots < cfg.workers
    ensures Enabled(cfg, s, Acquire(j)) ==>
              var t := Next(cfg, s, Acquire(j));
              t.slots == s.slots + 1 && t.running == s.running + {j} && t.spawned == s.spawned - {j}
  {
  }

  /** The jobs of the accepting steps, in order. */
  function AcceptOrder(steps: seq<Step>): seq<JobId> {
    if steps == [] then [] else
      var last := steps[|steps| - 1];
      AcceptOrder(steps[..|steps| - 1]) + if last.Accept? then [last.job] else []
  }

  /** The jobs whose goroutines were started, in order. */
  function StartOrder(cfg: Config, s: State, steps: seq<Step>): seq<JobId>
    requires Legal(cfg, s, steps)
  {
    if steps == [] then [] else
      var front := steps[..|steps| - 1];
      StartOrder(cfg, s, front) + if steps[|steps| - 1].Spawn? then [After(cfg, s, front).hand.value] else []
  }

  /** First come, first served: the jobs started, the one in hand and the queue are those accepted, in order. */
  lemma {:induction false} FirstComeFirstServed(cfg: Config, steps: seq<Step>)
    requires Legal(cfg, START, steps)
    ensures var s := After(cfg, START, steps);
            AcceptOrder(steps) ==
            StartOrder(cfg, START, steps) + (if s.hand.Some? then [s.hand.value] else []) + s.queue
  {
    if steps != [] {
      var front, last := steps[..|steps| - 1], steps[|steps| - 1];
      FirstComeFirstServed(cfg, front);
      var s := After(cfg, START, front);
      QueueStep(cfg, s, last);
      assert After(cfg, START, steps) == Next(cfg, s, last);
      hide Next, Enabled;
    }
  }

  /** What a step does to the jobs between acceptance and start. */
  lemma QueueStep(cfg: Config, s: State, step: Step)
    requires Enabled(cfg, s, step)
    ensures var s' := Next(cfg, s, step);
            var before := (if s.hand.Some? then [s.hand.value] else []) + s.queue;
            var after := (if s'.hand.Some? then [s'.hand.value] else []) + s'.queue;
            match step
            case Accept(j) => after == before + [j]
            case Spawn => before == [s.hand.value] + after
            case _ => after == before
  {
    if step.Take? { assert s.queue == [s.queue[0]] + s.queue[1..]; }
  }

  lemma CallerStep(cfg: Config, s: State, step: Step, j: JobId)
    requires JobOk(s, j) && Enabled(cfg, s, step)
    ensures var s' := Next(cfg, s, step);
            && (j in s.callers && s.callers[j] != Waiting ==> j in s'.callers && s'.callers[j] == s.callers[j])
            && (step == Accept(j) ==> j in s'.callers && s'.callers[j] == Waiting)
            && (step == Reject(j) ==> j in s'.callers && s'.callers[j] == Rejected && j !in s'.done)
            && (step == Leave(j) ==> j in s'.callers && s'.callers[j] == GaveUp)
            && (step == Receive(j) ==>
                  j in s.produced && |s.produced[j]| == 1 && s'.callers[j] == Returned(s.produced[j][0]))
            && (step.Finish? && step.job == j ==> s'.produced[j] == [step.result])
  {
  }

  lemma CallerMay(cfg: Config, s: State, j: JobId)
    requires JobOk(s, j)
    ensures Enabled(cfg, s, Receive(j)) <==>
            j in s.callers && s.callers[j] == Waiting && (j in s.sent || j in s.finished)
    ensures Enabled(cfg, s, Leave(j)) <==> j in s.callers && s.callers[j] == Waiting
  {
  }

  /**
   * What becomes of callers: a rejected one is told so at once, a waiting one receives exactly when its job
   * has sent its result, or leaves; and whatever a caller was told is final.
   */
  lemma CallersAre(cfg: Config, steps: seq<Step>, step: Step, j: JobId)
    requires Legal(cfg, START, steps + [step])
    ensures Legal(cfg, START, steps)
    ensures var s, s' := After(cfg, START, steps), After(cfg, START, steps + [step]);
            && (Enabled(cfg, s, Receive(j)) <==>
                  j in s.callers && s.callers[j] == Waiting && (j in s.sent || j in s.finished))
            && (Enabled(cfg, s, Leave(j)) <==> j in s.callers && s.callers[j] == Waiting)
            && (j in s.callers && s.callers[j] != Waiting ==> j in s'.callers && s'.callers[j] == s.callers[j])
            && (step == Accept(j) ==> j in s'.callers && s'.callers[j] == Waiting)
            && (step == Reject(j) ==> j in s'.callers && s'.callers[j] == Rejected && j !in s'.done)
            && (step == Leave(j) ==> j in s'.callers && s'.callers[j] == GaveUp)
            && (step == Receive(j) ==>
                  j in s.produced && |s.produced[j]| == 1 && s'.callers[j] == Returned(s.produced[j][0]))
            && (step.Finish? && step.job == j ==> s'.produced[j] == [step.result])
  {
    LastStep(cfg, START, steps, step);
    RunsStayGood(cfg, steps);
    assert JobOk(After(cfg, START, steps), j);
    hide *;
    CallerMay(cfg, After(cfg, START, steps), j);
    CallerStep(cfg, After(cfg, START, steps), step, j);
  }
}
