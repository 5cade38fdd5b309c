/**
  CDBWorker over its two mutable queues (myIOCP/CDBWorker.cpp): what its methods do is
  a run of DbPipeline's steps.
*/
module DbWorker {
  import opened Options
  import opened DbPipeline

  /** The steps of a drain that gets these replies, one job after another. */
  function DrainTurns(replies: seq<Reply>): seq<Action> {
    if replies == [] then [Turn(Unreachable)]
    else [Turn(replies[0]), Turn(replies[0])] + DrainTurns(replies[1..])
  }

  class DbWorker {
    var jobs: seq<Job>
    var results: seq<DbResult>
    var isRun: bool
    ghost var worker: Worker
    ghost var pushed: seq<Job>
    ghost var consumed: seq<DbResult>
    ghost var replies: seq<Reply>

    ghost function View(): Pipe
      reads this
    {
      Pipe(jobs, results, worker, isRun, pushed, consumed, replies)
    }

    /** Start. */
    constructor ()
      ensures View() == STARTED
    {
      jobs, results, isRun := [], [], true;
      worker, pushed, consumed, replies := Testing, [], [], [];
    }

    method PushJob(job: Job)
      modifies this
      ensures View() == Step(old(View()), Push(job))
    {
      jobs := jobs + [job];
      pushed := pushed + [job];
    }

    method PopResult() returns (r: Option<DbResult>)
      modifies this
      ensures View() == Step(old(View()), Consume)
      ensures r == if old(results) == [] then None else Some(old(results)[0])
    {
      if results == [] { return None; }
      r := Some(results[0]);
      results := results[1..];
      consumed := consumed + [r.value];
    }

    method PopJob() returns (job: Option<Job>)
      requires worker.Popping?
      modifies this
      ensures forall reply :: View() == Step(old(View()), Turn(reply))
      ensures job == if old(jobs) == [] then None else Some(old(jobs)[0])
    {
      if jobs == [] {
        worker := if worker.draining then Exited else Testing;
        return None;
      }
      job := Some(jobs[0]);
      jobs := jobs[1..];
      worker := Working(job.value, worker.draining);
    }

    /** processLogin and processSignUp, down to pushResult. */
    method ProcessJob(job: Job, reply: Reply)
      requires worker.Working? && worker.job == job
      modifies this
      ensures View() == Step(old(View()), Turn(reply))
      ensures |results| == old(|results|) + 1 && results[..old(|results|)] == old(results)
      ensures Answers(results[old(|results|)], job, reply)
    {
      var r := DbResult(job.kind, job.sid, 1, 0, "");
      if reply.Said? {
        r := r.(result := reply.result, userNo := reply.userNo);
        match job.kind {
          case Login => r := r.(nickname := reply.nickname);
          case SignUp => r := r.(nickname := job.nickname);
        }
      }
      results := results + [r];
      replies := replies + [reply];
      worker := if worker.draining then Popping(true) else Testing;
    }

    /** One iteration of the first loop of WorkerLoop. */
    method ServeOne(reply: Reply)
      requires worker.Testing? && isRun
      modifies this
      ensures View() == Run(old(View()), if old(jobs) == [] then [Turn(reply)] + [Turn(reply)]
                                         else [Turn(reply)] + [Turn(reply), Turn(reply)])
    {
      ghost var p, t := View(), Turn(reply);
      worker := Popping(false);
      var job := PopJob();
      if job.Some? { ProcessJob(job.value, reply); }
      RunCons(p, t, [t]);
      RunCons(p, t, [t, t]);
      RunCons(Step(p, t), t, [t]);
    }

    /** The second loop of WorkerLoop: after `Stop`, with nobody pushing, every job left
        gets its result before the thread ends. */
    method Drain(replies: seq<Reply>)
      requires worker == Popping(true) && |replies| == |jobs|
      modifies this
      ensures View() == Run(old(View()), DrainTurns(replies))
      ensures worker.Exited? && jobs == [] && |results| == old(|results| + |jobs|)
    {
      ghost var goal := Run(View(), DrainTurns(replies));
      DrainHead(replies);
      var k := 0;
      var job := PopJob();
      while job.Some?
        invariant if job.Some? then worker == Working(job.value, true) && |replies| - k == |jobs| + 1
                  else worker.Exited? && jobs == [] && k == |replies|
        invariant goal == Run(View(), if job.Some? then [Turn(replies[k])] + DrainTurns(replies[k + 1..]) else [])
        invariant old(|results| + |jobs|) == |results| + |replies| - k
        decreases |replies| - k
      {
        ProcessJob(job.value, replies[k]);
        assert ([Turn(replies[k])] + DrainTurns(replies[k + 1..]))[1..] == DrainTurns(replies[k + 1..]);
        k := k + 1;
        DrainHead(replies[k..]);
        assert k < |replies| ==> replies[k..][1..] == replies[k + 1..];
        job := PopJob();
      }
    }
  }

  /** A drain starts with a popJob. */
  lemma DrainHead(replies: seq<Reply>)
    ensures DrainTurns(replies)[0].Turn?
    ensures DrainTurns(replies)[1..] ==
            if replies == [] then [] else [Turn(replies[0])] + DrainTurns(replies[1..])
  {
  }
}
