/**
  The database worker (CDBWorker) between the Update thread, which pushes jobs and pops
  results, and its own thread. Each locked region and each test of `isRun` is one step.
  The database is an arbitrary reply.
*/
module DbPipeline {
  import opened SessionId

  datatype JobKind = Login | SignUp

  datatype Job = Job(kind: JobKind, sid: SessionID, account: string, password: string, nickname: string)

  datatype DbResult = DbResult(kind: JobKind, sid: SessionID, result: int, userNo: int, nickname: string)

  /** What the stored procedure says, or that the call failed. */
  datatype Reply = Unreachable | Said(result: int, userNo: int, nickname: string)

  /** processLogin and processSignUp. */
  function Process(job: Job, reply: Reply): DbResult {
    match reply
    case Unreachable => DbResult(job.kind, job.sid, 1, 0, "")
    case Said(result, userNo, nickname) =>
      DbResult(job.kind, job.sid, result, userNo, if job.kind.Login? then nickname else job.nickname)
  }

  /** Where WorkerLoop is: before the test of `isRun`, before a popJob (of the loop or of
      the drain behind it), with a job in hand, or gone. */
  datatype Worker =
    | Testing
    | Popping(draining: bool)
    | Working(job: Job, draining: bool)
    | Exited

  datatype Pipe = Pipe(
    jobs: seq<Job>,
    results: seq<DbResult>,
    worker: Worker,
    isRun: bool,
    pushed: seq<Job>,          // bookkeeping: every job pushed so far
    consumed: seq<DbResult>,   // bookkeeping: every result popped so far
    replies: seq<Reply>        // bookkeeping: what the database said to each job worked on
  )

  /** Just after Start. */
  const STARTED := Pipe([], [], Testing, true, [], [], [])

  datatype Action =
    | Push(job: Job)           // PushJob
    | Consume                  // PopResult
    | Turn(reply: Reply)       // the worker's next step
    | Stop                     // isRun = false

  function WorkerStep(p: Pipe, reply: Reply): Pipe {
    match p.worker
    case Testing => p.(worker := Popping(!p.isRun))
    case Popping(draining) =>
      if p.jobs != [] then p.(worker := Working(p.jobs[0], draining), jobs := p.jobs[1..])
      else p.(worker := if draining then Exited else Testing)
    case Working(job, draining) =>
      p.(worker := if draining then Popping(true) else Testing,
         results := p.results + [Process(job, reply)], replies := p.replies + [reply])
    case Exited => p
  }

  function Step(p: Pipe, a: Action): Pipe {
    match a
    case Push(job) => p.(jobs := p.jobs + [job], pushed := p.pushed + [job])
    case Consume =>
      if p.results == [] then p
      else p.(results := p.results[1..], consumed := p.consumed + [p.results[0]])
    case Turn(reply) => WorkerStep(p, reply)
    case Stop => p.(isRun := false)
  }

  function Run(p: Pipe, acts: seq<Action>): Pipe
    decreases |acts|
  {
    if acts == [] then p else Run(Step(p, acts[0]), acts[1..])
  }

  lemma RunCons(p: Pipe, a: Action, acts: seq<Action>)
    ensures Run(p, [a] + acts) == Run(Step(p, a), acts)
  {
    assert ([a] + acts)[1..] == acts;
  }

  // ------------------------------------------------------- correspondence

  function InHand(w: Worker): seq<Job> {
    if w.Working? then [w.job] else []
  }

  /** Every result there has been, in order. */
  function Answered(p: Pipe): seq<DbResult> {
    p.consumed + p.results
  }

  /** `r` reports `reply` to whoever `job` is from: what the procedure said, with the nickname it
      gave to a login or the one a sign-up asked for; or the failure of the call. */
  predicate Answers(r: DbResult, job: Job, reply: Reply) {
    && r.kind == job.kind && r.sid == job.sid
    && match reply
       case Unreachable => r.result == 1 && r.userNo == 0 && r.nickname == ""
       case Said(result, userNo, nickname) =>
         && r.result == result && r.userNo == userNo
         && (job.kind.Login? ==> r.nickname == nickname)
         && (job.kind.SignUp? ==> r.nickname == job.nickname)
  }

  /** The jobs pushed are the ones answered, each with its reply, the one in hand, and the
      ones queued. */
  ghost predicate InOrder(pushed: seq<Job>, replies: seq<Reply>, done: seq<DbResult>,
                          hand: seq<Job>, jobs: seq<Job>) {
    && |replies| == |done| <= |pushed| && pushed[|done|..] == hand + jobs
    && forall k | 0 <= k < |done| :: Answers(done[k], pushed[k], replies[k])
  }

  ghost predicate Corresponds(p: Pipe) {
    InOrder(p.pushed, p.replies, Answered(p), InHand(p.worker), p.jobs)
  }

  lemma PushInOrder(pushed: seq<Job>, replies: seq<Reply>, done: seq<DbResult>, hand: seq<Job>,
                    jobs: seq<Job>, job: Job)
    requires InOrder(pushed, replies, done, hand, jobs)
    ensures InOrder(pushed + [job], replies, done, hand, jobs + [job])
  {
    assert (pushed + [job])[|done|..] == pushed[|done|..] + [job];
    assert hand + (jobs + [job]) == hand + jobs + [job];
  }

  lemma FinishInOrder(pushed: seq<Job>, replies: seq<Reply>, done: seq<DbResult>, job: Job, jobs: seq<Job>,
                      r: DbResult, reply: Reply)
    requires InOrder(pushed, replies, done, [job], jobs) && Answers(r, job, reply)
    ensures InOrder(pushed, replies + [reply], done + [r], [], jobs)
  {
    var n := |done|;
    assert pushed[n] == pushed[n..][0] == job;
    assert pushed[n + 1..] == pushed[n..][1..] == [] + jobs;
  }

  lemma WorkerStepKeeps(p: Pipe, reply: Reply)
    requires Corresponds(p)
    ensures Corresponds(WorkerStep(p, reply))
  {
    match p.worker
    case Testing =>
    case Popping(_) =>
      if p.jobs != [] { assert [] + p.jobs == [p.jobs[0]] + p.jobs[1..]; }
    case Working(job, _) =>
      var r := Process(job, reply);
      assert p.consumed + (p.results + [r]) == Answered(p) + [r];
      FinishInOrder(p.pushed, p.replies, Answered(p), job, p.jobs, r, reply);
    case Exited =>
  }

  lemma StepKeeps(p: Pipe, a: Action)
    requires Corresponds(p)
    ensures Corresponds(Step(p, a))
  {
    match a
    case Push(job) => PushInOrder(p.pushed, p.replies, Answered(p), InHand(p.worker), p.jobs, job);
    case Consume =>
      if p.results != [] { assert p.consumed + [p.results[0]] + p.results[1..] == Answered(p); }
    case Turn(reply) => WorkerStepKeeps(p, reply);
    case Stop =>
  }

  lemma {:induction false} RunKeeps(p: Pipe, acts: seq<Action>)
    requires Corresponds(p)
    ensures Corresponds(Run(p, acts))
    decreases |acts|
  {
    if acts != [] {
      StepKeeps(p, acts[0]);
      RunKeeps(Step(p, acts[0]), acts[1..]);
    }
  }

  /** Over any interleaving, the results consumed, the results queued, the job in hand and
      the jobs queued are the pushed jobs, one for one and in order; and result k reports reply
      k to whoever pushed job k. */
  lemma OneResultPerJob(acts: seq<Action>)
    ensures var p := Run(STARTED, acts);
      && |p.replies| == |p.consumed + p.results| <= |p.pushed|
      && p.pushed == p.pushed[..|p.consumed + p.results|] + InHand(p.worker) + p.jobs
      && forall k | 0 <= k < |p.consumed + p.results| :: Answers((p.consumed + p.results)[k], p.pushed[k], p.replies[k])
  {
    RunKeeps(STARTED, acts);
    var p := Run(STARTED, acts);
    var n := |Answered(p)|;
    assert p.pushed == p.pushed[..n] + p.pushed[n..];
  }

  // ------------------------------------------------------------- shutdown

  ghost predicate NoPush(acts: seq<Action>) {
    forall k | 0 <= k < |acts| :: !acts[k].Push?
  }

  lemma {:induction false} RunAppend(p: Pipe, a: seq<Action>, b: seq<Action>)
    ensures Run(p, a + b) == Run(Run(p, a), b)
    decreases |a|
  {
    if a == [] {
      assert a + b == b;
    } else {
      assert (a + b)[1..] == a[1..] + b;
      RunAppend(Step(p, a[0]), a[1..], b);
    }
  }

  /** The worker leaves only with the queue empty. */
  lemma {:induction false} ExitsEmpty(p: Pipe, acts: seq<Action>)
    requires (p.worker.Exited? ==> p.jobs == []) && NoPush(acts)
    ensures Run(p, acts).worker.Exited? ==> Run(p, acts).jobs == []
    ensures Run(p, acts).pushed == p.pushed
    decreases |acts|
  {
    if acts != [] {
      assert !acts[0].Push?;
      ExitsEmpty(Step(p, acts[0]), acts[1..]);
    }
  }

  lemma {:induction false} StaysRunning(p: Pipe, acts: seq<Action>)
    requires p.isRun && !p.worker.Exited? && !(p.worker.Popping? && p.worker.draining)
    requires !(p.worker.Working? && p.worker.draining)
    requires forall k | 0 <= k < |acts| :: !acts[k].Stop?
    ensures !Run(p, acts).worker.Exited?
    decreases |acts|
  {
    if acts != [] { StaysRunning(Step(p, acts[0]), acts[1..]); }
  }

  /** Shutdown: if pushing stops before `Stop`, a worker that has left has answered every
      job ever pushed. */
  lemma NothingLostAtStop(before: seq<Action>, after: seq<Action>)
    requires (forall k | 0 <= k < |before| :: !before[k].Stop?) && NoPush(after)
    ensures var p := Run(STARTED, before + after);
      p.worker.Exited? ==>
        && p.jobs == [] && |p.consumed + p.results| == |p.pushed|
        && p.pushed == Run(STARTED, before).pushed
  {
    RunAppend(STARTED, before, after);
    StaysRunning(STARTED, before);
    ExitsEmpty(Run(STARTED, before), after);
    OneResultPerJob(before + after);
  }

  /** Turns the worker still needs to leave. */
  function TurnsLeft(p: Pipe): nat {
    2 * |p.jobs| +
    match p.worker
    case Testing => 2
    case Popping(draining) => if draining then 1 else 3
    case Working(_, draining) => if draining then 2 else 3
    case Exited => 0
  }

  /** Once `isRun` is clear and pushing has stopped, every turn brings the worker closer to
      leaving. */
  lemma DrainEnds(p: Pipe, reply: Reply)
    requires !p.isRun && !p.worker.Exited?
    ensures TurnsLeft(WorkerStep(p, reply)) < TurnsLeft(p)
    ensures TurnsLeft(p) == 1 <==> WorkerStep(p, reply).worker.Exited?
  {
  }
}
