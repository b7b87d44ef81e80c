/**
 How jobs start and end. When a request is taken and when a recovery gets to run is said without the guards
 of the scheduler and the store. The codes that the worker reports for a job run are read off the steps of a run alone; what
 the tables then say of the job run, of the manual request and of the recovery behind it is proved to follow.
 */
module JobOutcomes {
  import opened Options
  import opened Strings
  import opened JobTables
  import opened RecoveryWindow
  import opened RecoveryRuns

  /** The first and the last code reported for a job run. */
  datatype Told = Told(first: int, last: int)

  /** What was reported for the job runs that ended. */
  type Codes = map<nat, Told>

  function Tell(codes: Codes, run: nat, code: int): Told
  {
    if run in codes then codes[run].(last := code) else Told(code, code)
  }

  /** The code that a step reports for a job run: 0 is a success, a restart reports 125 for what was running. */
  function Report(w: World, step: Step, run: nat): Option<int>
    requires Enabled(w, step)
  {
    match step
    case FinishRun(r, code, _, _) => if r == run then Some(code) else None
    case EndHead(code, _, _) => if Head(w).phase.run == run then Some(code) else None
    case Restoring(_) => if run in w.jobs.runs && w.jobs.runs[run].status == Running then Some(125) else None
    case _ => None
  }

  function WithReports(w: World, step: Step, codes: Codes): Codes
    requires Enabled(w, step)
  {
    map run | run in w.jobs.runs && (run in codes || Report(w, step, run).Some?) ::
      if Report(w, step, run).Some? then Tell(codes, run, Report(w, step, run).value) else codes[run]
  }

  ghost function CodesAfter(w: World, steps: seq<Step>, w': World, codes: Codes): Codes
    requires Reaches(w, steps, w')
    decreases |steps|
  {
    if steps == [] then codes else CodesAfter(Next(w, steps[0]), steps[1..], w', WithReports(w, steps[0], codes))
  }

  /** The status is the one a code stands for. */
  predicate Tells(status: Status, code: int)
  {
    (status == Success <==> code == 0) && (status == Failed <==> code != 0)
  }

  /** A job run shows the last code reported for it. */
  predicate RunTells(run: JobRun, id: nat, codes: Codes)
  {
    if id !in codes then run.status == Running && run.code == None
    else Tells(run.status, codes[id].last) && run.code == Some(codes[id].last) && run.finishedAt.Some?
  }

  /** A request or recovery ends with the first code reported for its job run. */
  predicate OwnerTells(status: Status, runId: Option<nat>, codes: Codes)
  {
    if runId.None? then status in {Pending, Cancelled}
    else if runId.value !in codes then status == Running
    else Tells(status, codes[runId.value].first)
  }

  ghost predicate RunsTell(j: Jobs, codes: Codes)
  {
    && (forall run | run in codes :: run in j.runs)
    && (forall run | run in j.runs :: RunTells(j.runs[run], run, codes))
  }

  ghost predicate OwnersTell(j: Jobs, codes: Codes)
  {
    && (forall id | id in j.requests :: OwnerTells(j.requests[id].status, j.requests[id].runId, codes))
    && (forall id | id in j.recoveries :: OwnerTells(j.recoveries[id].status, j.recoveries[id].runId, codes))
  }

  ghost predicate JobsTell(j: Jobs, codes: Codes)
  {
    RunsTell(j, codes) && OwnersTell(j, codes)
  }

  // ---------------------------------------------------------------------------------------------
  // Transactions
  // ---------------------------------------------------------------------------------------------

  lemma BeginTells(j: Jobs, codes: Codes, job: string, now: int)
    requires Counted(j) && JobsTell(j, codes)
    ensures JobsTell(BeginJob(j, job, now), codes) && j.lastRun + 1 !in codes
  {
    assert j.lastRun + 1 !in codes;
    hide OwnerTells;
  }

  lemma RequestTells(j: Jobs, codes: Codes, job: string, actor: string, now: int)
    requires JobsTell(j, codes) && job in MANUAL_JOBS
    ensures JobsTell(RequestJob(j, job, actor, now).value, codes)
  {
    hide RunTells, HasActive, OneLine;
  }

  /** An owner is handed a run that has not ended. */
  lemma ClaimRequestTells(j: Jobs, codes: Codes, id: nat, now: int)
    requires Counted(j) && JobsTell(j, codes)
    ensures JobsTell(ClaimJobRequest(j, id, now), codes)
  {
    if CanClaimRequest(j, id) {
      BeginTells(j, codes, j.requests[id].job, now);
      hide RunTells, Counted;
      var begun, after := BeginJob(j, j.requests[id].job, now), ClaimJobRequest(j, id, now);
      assert RunsTell(after, codes) by { assert RunsTell(begun, codes) && after.runs == begun.runs; }
    }
  }

  lemma EnqueueTells(j: Jobs, codes: Codes, scope: string, slot: int, at: int, expires: int, mark: Fingerprint,
                     call: Option<int>, now: int)
    requires JobsTell(j, codes)
    ensures JobsTell(EnqueueRecovery(j, scope, slot, at, expires, mark, call, now), codes)
  {
    hide RunTells, HasRecovery;
  }

  lemma CancelTells(j: Jobs, codes: Codes, id: nat, detail: string, now: int)
    requires JobsTell(j, codes)
    ensures JobsTell(CancelRecovery(j, id, detail, now), codes)
  {
    hide RunTells, Clip;
  }

  lemma ClaimRecoveryTells(j: Jobs, codes: Codes, id: nat, now: int)
    requires Counted(j) && JobsTell(j, codes)
    ensures JobsTell(ClaimRecovery(j, id, now), codes)
  {
    if CanClaimRecovery(j, id) {
      BeginTells(j, codes, "trader_recovery", now);
      hide RunTells, Counted;
      var begun, after := BeginJob(j, "trader_recovery", now), ClaimRecovery(j, id, now);
      assert RunsTell(after, codes) by { assert RunsTell(begun, codes) && after.runs == begun.runs; }
    }
  }

  /** One more code for one job run. */
  function WithCode(codes: Codes, run: nat, code: int): Codes
  {
    codes[run := Tell(codes, run, code)]
  }

  lemma RunEnds(j: Jobs, codes: Codes, run: nat, code: int, detail: string, now: int)
    requires RunsTell(j, codes) && run in j.runs
    ensures RunsTell(j.(runs := j.runs[run := EndRun(j.runs[run], code, detail, now)]), WithCode(codes, run, code))
  {
    hide Tail;
  }

  /** An owner whose run had not ended takes the code, and one whose run had ended keeps its end. */
  lemma OwnerEnds(status: Status, runId: Option<nat>, codes: Codes, run: nat, code: int)
    requires OwnerTells(status, runId, codes)
    ensures OwnerTells(if runId == Some(run) && status == Running then Ending(code) else status, runId,
                       WithCode(codes, run, code))
  {
  }

  lemma FinishTells(j: Jobs, codes: Codes, run: nat, code: int, detail: string, now: int)
    requires JobsTell(j, codes) && run in j.runs && NotOfRecovery(j, run)
    ensures JobsTell(FinishJob(j, run, code, detail, now), WithCode(codes, run, code))
  {
    RunEnds(j, codes, run, code, detail, now);
    var after, more := FinishJob(j, run, code, detail, now), WithCode(codes, run, code);
    assert RunsTell(after, more);
    hide RunsTell, RunTells, OwnerTells, WithCode, Ending, EndRun;
    forall id | id in after.requests
      ensures OwnerTells(after.requests[id].status, after.requests[id].runId, more)
    {
      OwnerEnds(j.requests[id].status, j.requests[id].runId, codes, run, code);
    }
    forall id | id in after.recoveries
      ensures OwnerTells(after.recoveries[id].status, after.recoveries[id].runId, more)
    {
      OwnerEnds(j.recoveries[id].status, j.recoveries[id].runId, codes, run, code);
    }
  }

  lemma FinishRecoveryTells(j: Jobs, codes: Codes, id: nat, run: nat, code: int, detail: string, now: int)
    requires RunsOwnedOnce(j) && JobsTell(j, codes) && id in j.recoveries && j.recoveries[id].status == Running
    requires j.recoveries[id].runId == Some(run) && run in j.runs
    ensures JobsTell(FinishRecovery(j, id, code, detail, now), WithCode(codes, run, code))
  {
    RunEnds(j, codes, run, code, detail, now);
    var after, more := FinishRecovery(j, id, code, detail, now), WithCode(codes, run, code);
    assert RunsTell(after, more);
    hide RunsTell, RunTells, OwnerTells, WithCode, Ending, EndRun, Clip;
    forall other | other in after.requests
      ensures OwnerTells(after.requests[other].status, after.requests[other].runId, more)
    {
      OwnerEnds(j.requests[other].status, j.requests[other].runId, codes, run, code);
    }
    forall other | other in after.recoveries
      ensures OwnerTells(after.recoveries[other].status, after.recoveries[other].runId, more)
    {
      OwnerEnds(j.recoveries[other].status, j.recoveries[other].runId, codes, run, code);
    }
  }

  /** A restart reports 125 for every job run that was running. */
  function WithRestart(j: Jobs, codes: Codes): Codes
  {
    map run | run in j.runs && (run in codes || j.runs[run].status == Running) ::
      if j.runs[run].status == Running then Tell(codes, run, 125) else codes[run]
  }

  lemma RunsStop(j: Jobs, codes: Codes, now: int)
    requires RunsTell(j, codes)
    ensures RunsTell(RecoverJobs(j, now), WithRestart(j, codes))
  {
  }

  /** An owner that runs exactly as long as its job run does fails with it. */
  lemma OwnerStops(j: Jobs, status: Status, runId: Option<nat>, codes: Codes)
    requires RunsTell(j, codes) && OwnerTells(status, runId, codes) && (status == Running <==> RunIsRunning(j, runId))
    ensures OwnerTells(Stopped(status), runId, WithRestart(j, codes))
  {
  }

  lemma RestoreTells(j: Jobs, codes: Codes, now: int)
    requires RequestsLinked(j) && RecoveriesLinked(j) && JobsTell(j, codes)
    ensures JobsTell(RecoverJobs(j, now), WithRestart(j, codes))
  {
    RunsStop(j, codes, now);
    RecoverOnlyStops(j, now);
    var after, more := RecoverJobs(j, now), WithRestart(j, codes);
    hide RecoverJobs, RunsTell, RunTells, OwnerTells, WithRestart, Stopped, RunIsRunning;
    forall id | id in after.requests
      ensures OwnerTells(after.requests[id].status, after.requests[id].runId, more)
    {
      OwnerStops(j, j.requests[id].status, j.requests[id].runId, codes);
    }
    forall id | id in after.recoveries
      ensures OwnerTells(after.recoveries[id].status, after.recoveries[id].runId, more)
    {
      OwnerStops(j, j.recoveries[id].status, j.recoveries[id].runId, codes);
    }
  }

  // ---------------------------------------------------------------------------------------------
  // Steps and runs
  // ---------------------------------------------------------------------------------------------

  /** The runs the worker holds are in the table, and the recovery at the head of the lane runs as its job run. */
  ghost predicate HeldOk(w: World)
  {
    w.worker.Up? ==>
      && (forall run | run in w.worker.life.owned :: run in w.jobs.runs)
      && (LaneHead(w) && Head(w).work.Recovering? && !Head(w).phase.Queued? ==>
            && Head(w).work.id in w.jobs.recoveries && w.jobs.recoveries[Head(w).work.id].status == Running
            && w.jobs.recoveries[Head(w).work.id].runId == Some(Head(w).phase.run))
  }

  ghost predicate Sound(w: World, codes: Codes)
  {
    Inv(w) && HeldOk(w) && JobsTell(w.jobs, codes)
  }

  /** The table keeps its runs, and the run handed out by a step that begins one is among them. */
  lemma RunsStay(w: World, step: Step, run: nat)
    requires Enabled(w, step)
    ensures run in w.jobs.runs ==> run in JobsAfter(w, step).runs
    ensures step.BeginNatural? || step.BeginOther? ==> JobsAfter(w, step).lastRun in JobsAfter(w, step).runs
    ensures step.ClaimingRequest? && CanClaimRequest(w.jobs, step.id) ==> JobsAfter(w, step).lastRun in JobsAfter(w, step).runs
  {
    hide Schedule, Tail, OneLine, Clip, HasRecovery, HasActive, EndRun;
  }

  /** A running recovery is left alone by all but its own end and a restart. */
  lemma RunningStays(w: World, step: Step, id: nat)
    requires Counted(w.jobs) && Enabled(w, step) && !step.Restoring? && !step.EndHead?
    requires id in w.jobs.recoveries && w.jobs.recoveries[id].status == Running
    ensures id in JobsAfter(w, step).recoveries && JobsAfter(w, step).recoveries[id] == w.jobs.recoveries[id]
  {
    hide Schedule, Tail, OneLine, Clip, HasRecovery, HasActive, EndRun;
  }

  lemma OwnedInTable(w: World, step: Step)
    requires HeldOk(w) && Enabled(w, step) && Next(w, step).worker.Up?
    ensures forall run | run in Next(w, step).worker.life.owned :: run in JobsAfter(w, step).runs
  {
    forall run ensures run in w.jobs.runs ==> run in JobsAfter(w, step).runs { RunsStay(w, step, run); }
    RunsStay(w, step, 0);
    JobsOfNext(w, step);
    hide JobsAfter, CanClaimRequest, CanClaimRecovery, CanLaunch;
  }

  /** The head of the lane stays what it was, is new, or starts with this step. */
  lemma HeadAfter(w: World, step: Step)
    requires Enabled(w, step) && LaneHead(Next(w, step)) && !Head(Next(w, step)).phase.Queued?
    requires w.worker.Up? && |w.worker.life.lane| <= 1
    ensures LaneHead(w) && Head(w).work == Head(Next(w, step)).work && !step.Restoring? && !step.EndHead?
    ensures Head(w).phase.Queued? <==> step.BeginNatural? || step.ClaimHead?
    ensures !Head(w).phase.Queued? ==> Head(w).phase.run == Head(Next(w, step)).phase.run
    ensures step.ClaimHead? ==>
              CanClaimRecovery(w.jobs, Head(w).work.id) && Head(Next(w, step)).phase.run == JobsAfter(w, step).lastRun
  {
    hide JobsAfter, CanClaimRequest, CanClaimRecovery, CanLaunch;
  }

  lemma ClaimRuns(j: Jobs, id: nat, now: int)
    requires CanClaimRecovery(j, id)
    ensures var after := ClaimRecovery(j, id, now);
            after.recoveries[id].status == Running && after.recoveries[id].runId == Some(after.lastRun)
  {
  }

  lemma HeldStays(w: World, step: Step)
    requires Inv(w) && HeldOk(w) && Enabled(w, step)
    ensures HeldOk(Next(w, step))
  {
    CountsKept(w);
    JobsOfNext(w, step);
    var next := Next(w, step);
    assert w.worker.Up? ==> |w.worker.life.lane| <= 1 && LaneOk(w.worker.life);
    if next.worker.Up? { OwnedInTable(w, step); }
    if LaneHead(next) && Head(next).work.Recovering? && !Head(next).phase.Queued? {
      assert w.worker.Up?;
      HeadAfter(w, step);
      var id := Head(w).work.id;
      if step.ClaimHead? {
        ClaimRuns(w.jobs, id, Sec(step.at));
      } else {
        RunningStays(w, step, id);
      }
    }
    hide Inv, JobsAfter, Next, Counted, Enabled;
  }

  lemma NothingReported(w: World, step: Step, codes: Codes)
    requires RunsTell(w.jobs, codes) && Enabled(w, step) && !step.FinishRun? && !step.EndHead? && !step.Restoring?
    ensures WithReports(w, step, codes) == codes
  {
    hide RunTells;
  }

  lemma OneReported(w: World, step: Step, codes: Codes, run: nat)
    requires RunsTell(w.jobs, codes) && Enabled(w, step) && (step.FinishRun? || step.EndHead?) && run in w.jobs.runs
    requires run == if step.FinishRun? then step.run else Head(w).phase.run
    ensures WithReports(w, step, codes) == WithCode(codes, run, step.code)
  {
    hide RunTells;
  }

  lemma StoppedReported(w: World, step: Step, codes: Codes)
    requires RunsTell(w.jobs, codes) && Enabled(w, step) && step.Restoring?
    ensures WithReports(w, step, codes) == WithRestart(w.jobs, codes)
  {
    hide RunTells;
  }

  lemma ApiTells(w: World, step: Step, codes: Codes)
    requires JobsTell(w.jobs, codes) && Enabled(w, step) && (step.Planning? || step.Requesting?)
    ensures JobsTell(JobsAfter(w, step), codes)
  {
    hide JobsTell, EnqueueRecovery, RequestJob, Schedule;
    if step.Requesting? {
      AllowedRequest(w.jobs, step.job, step.actor, Sec(step.at));
      if step.job in MANUAL_JOBS { RequestTells(w.jobs, codes, step.job, step.actor, Sec(step.at)); }
    } else {
      var plan := Schedule(step.failure, step.elapsed, step.context, step.delay, step.writable, step.now);
      if plan.Some? {
        var p := plan.value;
        EnqueueTells(w.jobs, codes, p.scope, p.slot, p.scheduledAt, p.expiresAt, p.fingerprint, step.modelCall,
                     Sec(step.at));
      }
    }
  }

  lemma StartsTell(w: World, step: Step, codes: Codes)
    requires Counted(w.jobs) && JobsTell(w.jobs, codes) && Enabled(w, step)
    requires step.BeginNatural? || step.BeginOther? || step.ClaimingRequest? || step.ClaimHead? || step.Cancelling?
    ensures JobsTell(JobsAfter(w, step), codes)
  {
    hide JobsTell, BeginJob, ClaimJobRequest, ClaimRecovery, CancelRecovery, Counted;
    match step
    case BeginNatural(at) => BeginTells(w.jobs, codes, "trader", Sec(at));
    case BeginOther(job, at) => BeginTells(w.jobs, codes, job, Sec(at));
    case ClaimingRequest(id, at) => ClaimRequestTells(w.jobs, codes, id, Sec(at));
    case ClaimHead(at) => ClaimRecoveryTells(w.jobs, codes, Head(w).work.id, Sec(at));
    case Cancelling(id, detail, at) => CancelTells(w.jobs, codes, id, detail, Sec(at));
  }

  /** The job run that a finishing step ends, and who it belongs to. */
  lemma EndedRun(w: World, step: Step) returns (run: nat)
    requires Inv(w) && HeldOk(w) && Enabled(w, step) && (step.FinishRun? || step.EndHead?)
    ensures run in w.jobs.runs && run == if step.FinishRun? then step.run else Head(w).phase.run
    ensures RunsOwnedOnce(w.jobs)
    ensures step.FinishRun? || Head(w).work.Natural? ==> NotOfRecovery(w.jobs, run)
    ensures step.EndHead? && Head(w).work.Recovering? ==>
              && Head(w).work.id in w.jobs.recoveries && w.jobs.recoveries[Head(w).work.id].status == Running
              && w.jobs.recoveries[Head(w).work.id].runId == Some(run)
  {
    run := if step.FinishRun? then step.run else Head(w).phase.run;
    assert OwnedOk(w.jobs, w.worker.life.owned) && LaneOk(w.worker.life) && RecoveriesLinked(w.jobs);
    assert RunsOwnedOnce(w.jobs);
    hide Inv, JobsInv, RunsOwnedOnce;
  }

  lemma EndsTell(w: World, step: Step, codes: Codes)
    requires Sound(w, codes) && Enabled(w, step) && (step.FinishRun? || step.EndHead?)
    ensures JobsTell(JobsAfter(w, step), WithReports(w, step, codes))
  {
    var run := EndedRun(w, step);
    OneReported(w, step, codes, run);
    var ordinary := step.FinishRun? || Head(w).work.Natural?;
    assert ordinary ==> JobsAfter(w, step) == FinishJob(w.jobs, run, step.code, step.detail, Sec(step.at));
    assert !ordinary ==>
      JobsAfter(w, step) == FinishRecovery(w.jobs, Head(w).work.id, step.code, step.detail, Sec(step.at));
    hide Inv, HeldOk, JobsTell, WithReports, WithCode, FinishJob, FinishRecovery, RunsOwnedOnce, NotOfRecovery, JobsAfter;
    if ordinary {
      FinishTells(w.jobs, codes, run, step.code, step.detail, Sec(step.at));
    } else {
      FinishRecoveryTells(w.jobs, codes, Head(w).work.id, run, step.code, step.detail, Sec(step.at));
    }
  }

  lemma StopsTell(w: World, step: Step, codes: Codes)
    requires Inv(w) && JobsTell(w.jobs, codes) && Enabled(w, step) && step.Restoring?
    ensures JobsTell(JobsAfter(w, step), WithReports(w, step, codes))
  {
    StoppedReported(w, step, codes);
    assert RequestsLinked(w.jobs) && RecoveriesLinked(w.jobs);
    hide Inv, JobsTell, WithReports, WithRestart, RecoverJobs, RequestsLinked, RecoveriesLinked;
    RestoreTells(w.jobs, codes, Sec(step.at));
  }

  lemma StepTells(w: World, step: Step, codes: Codes)
    requires Sound(w, codes) && Enabled(w, step)
    ensures Sound(Next(w, step), WithReports(w, step, codes))
  {
    JobsOfNext(w, step);
    CountsKept(w);
    StepKeepsInv(w, step);
    HeldStays(w, step);
    hide Inv, HeldOk, Next, WithReports;
    if step.FinishRun? || step.EndHead? {
      EndsTell(w, step, codes);
    } else if step.Restoring? {
      StopsTell(w, step, codes);
    } else {
      NothingReported(w, step, codes);
      hide RunsTell, OwnersTell, Counted;
      if step.Planning? || step.Requesting? {
        ApiTells(w, step, codes);
      } else if step.BeginNatural? || step.BeginOther? || step.ClaimingRequest? || step.ClaimHead? || step.Cancelling? {
        StartsTell(w, step, codes);
      }
    }
  }

  lemma {:induction false} RunTellsCodes(w: World, steps: seq<Step>, w': World, codes: Codes)
    requires Sound(w, codes) && Reaches(w, steps, w')
    ensures Sound(w', CodesAfter(w, steps, w', codes))
    decreases |steps|
  {
    hide Sound, Next, WithReports;
    if steps != [] {
      StepTells(w, steps[0], codes);
      RunTellsCodes(Next(w, steps[0]), steps[1..], w', WithReports(w, steps[0], codes));
    }
  }

  /**
   Over every run: a job run is running until a code is reported for it and then shows the last one; the
   request or recovery behind it is running as long and ends with the first; and what has no job run is
   pending or cancelled. Success is code 0 and failure every other code.
   */
  lemma OutcomesAreReported(steps: seq<Step>, w: World)
    requires Reaches(START, steps, w)
    ensures JobsTell(w.jobs, CodesAfter(START, steps, w, map[]))
  {
    StartIsOk();
    RunTellsCodes(START, steps, w, map[]);
  }

  // ---------------------------------------------------------------------------------------------
  // How requests and recoveries start
  // ---------------------------------------------------------------------------------------------

  predicate Waiting(request: Request, job: string)
  {
    request.job == job && (request.status == Pending || request.status == Running)
  }

  /**
   A review that is asked for waits or runs afterwards: the one that did before, or else a new one.
   Nothing else can be asked for.
   */
  lemma AskedForIsWaiting(w: World, job: string, actor: string, at: nat)
    requires Inv(w) && at <= w.clock
    ensures var step := Requesting(job, actor, at);
            var before, after := w.jobs.requests, Next(w, step).jobs.requests;
            && (forall id | id in before :: id in after && after[id] == before[id])
            && (job == "self_improvement" ==> exists id | id in after :: Waiting(after[id], job))
            && (forall id | id in after && id !in before ::
                  && job == "self_improvement" && after[id].job == job && after[id].status == Pending
                  && forall other | other in before :: !Waiting(before[other], job))
  {
    var before, after := w.jobs.requests, Next(w, Requesting(job, actor, at)).jobs.requests;
    assert Counted(w.jobs);
    hide Inv, OneLine;
    if job == "self_improvement" && forall id | id in before :: !Waiting(before[id], job) {
      assert Waiting(after[w.jobs.lastRequest + 1], job);
    }
  }

  /** A waiting request starts whenever the worker takes it, with a new job run of its job. */
  lemma WaitingStarts(w: World, id: nat, at: nat)
    requires Inv(w) && w.worker.Up? && at <= w.clock && id in w.jobs.requests
    requires w.jobs.requests[id].job == "self_improvement" && w.jobs.requests[id].status == Pending
    ensures var next := Next(w, ClaimingRequest(id, at));
            var run := next.jobs.requests[id].runId;
            && next.jobs.requests[id].status == Running && run.Some? && run.value !in w.jobs.runs
            && run.value in next.worker.life.owned && run.value in next.jobs.runs
            && next.jobs.runs[run.value].status == Running && next.jobs.runs[run.value].job == "self_improvement"
  {
    assert Counted(w.jobs);
    hide Inv;
  }

  /** Submitting the recovery, taking it from the queue of the executor and claiming it. */
  function RecoverySteps(id: nat, now: nat, at: nat): seq<Step>
  {
    [LaunchRecovery(id, now), ClaimHead(at)]
  }

  /** The recovery waits for its time, its slot still lasts four minutes and was not answered. */
  ghost predicate MayRecover(row: Recovery, answered: set<int>, now: nat)
  {
    && row.status == Pending
    && row.scheduledAt * 1_000_000 <= now < (row.slot + 660) * 1_000_000
    && forall t | t in answered :: !(row.slot <= t < row.slot + 900)
  }

  /**
   In every reachable world with a free lane a recovery gets to run, with a new job run and as its only
   attempt, exactly if it may at the reading at which the scheduler looks at it.
   */
  lemma RecoversExactly(steps: seq<Step>, w: World, id: nat, now: nat, at: nat)
    requires Reaches(START, steps, w) && w.worker.Up? && w.worker.life.running == None
    requires now <= w.clock && at <= w.clock && id in w.jobs.recoveries
    ensures MayRecover(w.jobs.recoveries[id], w.answered, now) <==>
              exists w' :: Reaches(w, RecoverySteps(id, now, at), w') && Recovers(w, w', id)
  {
    StartIsOk();
    RunKeepsInv(START, steps, w);
    var row := w.jobs.recoveries[id];
    assert InWindow(row.slot, row.scheduledAt, row.expiresAt);
    assert row.status == Pending ==> row.attempts == 0;
    assert w.worker.life.lane == [] && Counted(w.jobs);
    LaunchesExactly(w, id, now);
    hide Inv, CanLaunch, MayRecover, InWindow, Next, Enabled, Recovers, Counted, RecoverySteps;
    if CanLaunch(w, id, now) {
      var claimed := LaunchedIsClaimed(w, id, now, at);
    }
    forall w' | Reaches(w, RecoverySteps(id, now, at), w') ensures CanLaunch(w, id, now) {
      LaunchedFirst(w, id, now, at, w');
    }
  }

  lemma LaunchedFirst(w: World, id: nat, now: nat, at: nat, w': World)
    requires Reaches(w, RecoverySteps(id, now, at), w')
    ensures CanLaunch(w, id, now)
  {
    hide CanLaunch, Next;
  }

  lemma LaunchedIsClaimed(w: World, id: nat, now: nat, at: nat) returns (claimed: World)
    requires Counted(w.jobs) && w.worker.Up? && w.worker.life.running == None && w.worker.life.lane == []
    requires now <= w.clock && at <= w.clock && CanLaunch(w, id, now) && CanClaimRecovery(w.jobs, id)
    ensures Reaches(w, RecoverySteps(id, now, at), claimed) && Recovers(w, claimed, id)
  {
    var launched := Next(w, LaunchRecovery(id, now));
    assert launched.jobs == w.jobs && Enabled(launched, ClaimHead(at)) && Head(launched).work.id == id;
    claimed := Next(launched, ClaimHead(at));
    assert Recovers(w, claimed, id);
    hide CanLaunch, Next, Recovers, CanClaimRecovery;
    assert RecoverySteps(id, now, at)[1..] == [ClaimHead(at)];
    assert Reaches(claimed, [], claimed) && [ClaimHead(at)][1..] == [];
  }

  predicate Recovers(w: World, w': World, id: nat)
  {
    && id in w'.jobs.recoveries && w'.jobs.recoveries[id].status == Running && w'.jobs.recoveries[id].attempts == 1
    && RunIsRunning(w'.jobs, w'.jobs.recoveries[id].runId) && w'.jobs.recoveries[id].runId.value !in w.jobs.runs
  }

  lemma LaunchesExactly(w: World, id: nat, now: nat)
    requires id in w.jobs.recoveries
    requires InWindow(w.jobs.recoveries[id].slot, w.jobs.recoveries[id].scheduledAt, w.jobs.recoveries[id].expiresAt)
    ensures CanLaunch(w, id, now) <==> MayRecover(w.jobs.recoveries[id], w.answered, now)
    ensures CanLaunch(w, id, now) ==> w.jobs.recoveries[id].status == Pending
  {
    var row := w.jobs.recoveries[id];
    assert row.scheduledAt <= now / MICROS <==> row.scheduledAt * MICROS <= now;
  }
}
