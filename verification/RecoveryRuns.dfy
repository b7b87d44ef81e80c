/**
 Every run of the job side of the gateway: trading processes that plan recoveries, the API that asks for
 manual jobs, and one worker at a time whose scheduler launches, claims and finishes them, with a crash
 possible between any two transactions. The trader lane is one executor thread and one `running` key.
 */
module RecoveryRuns {
  import opened Options
  import opened Json
  import opened JobTables
  import opened RecoveryWindow

  datatype Work = Natural | Recovering(id: nat)

  datatype Phase = Queued | Begun(run: nat) | Spawned(run: nat)

  /** A future of the trader executor that is not done. */
  datatype Task = Task(number: nat, work: Work, phase: Phase)

  /**
   One worker process: `running` is the future under the key "trader", `lane` the executor's unfinished
   futures in order, `owned` the runs handed out by `begin_job` and `claim_job_request`.
   */
  datatype Life = Life(running: Option<nat>, lane: seq<Task>, futures: nat, owned: set<nat>)

  datatype Worker = Down | Starting | Up(life: Life)

  datatype Submission = Submission(id: nat, at: nat)

  datatype World = World(jobs: Jobs, worker: Worker, clock: nat, answered: set<int>,
                         claims: multiset<(string, int)>, submissions: seq<Submission>)

  /** A transaction uses a clock reading `at` taken before it starts; stored times are whole seconds. */
  datatype Step =
    | Later(clock: nat)
    | Answering(startedAt: int)  // a trading model call is recorded as successful
    | Planning(failure: Option<Fields>, elapsed: int, context: Option<Context>, delay: int, writable: bool,
               modelCall: Option<int>, now: nat, at: nat)
    | Requesting(job: string, actor: string, at: nat)
    | Start | Restoring(at: nat) | Crash
    | Cancelling(id: nat, detail: string, at: nat)
    | LaunchNatural | LaunchRecovery(id: nat, now: nat) | Reap
    | BeginNatural(at: nat) | ClaimHead(at: nat) | SpawnHead | EndHead(code: int, detail: string, at: nat)
    | DropHead
    | BeginOther(job: string, at: nat)
    | ClaimingRequest(id: nat, at: nat)
    | FinishRun(run: nat, code: int, detail: string, at: nat)

  const START := World(EMPTY, Down, 0, {}, multiset{}, [])

  function Sec(at: nat): int
  {
    at / MICROS
  }

  /** `_launch_due_recovery` comes to the line that submits this row. */
  predicate CanLaunch(w: World, id: nat, now: nat)
  {
    DueRecovery(w.jobs, Sec(now), id) && Hindrance(w.jobs.recoveries[id], true, w.answered, now) == None
  }

  predicate LaneHead(w: World)
  {
    w.worker.Up? && w.worker.life.lane != []
  }

  function Head(w: World): Task
    requires LaneHead(w)
  {
    w.worker.life.lane[0]
  }

  predicate Enabled(w: World, step: Step)
  {
    match step
    case Later(clock) => w.clock <= clock
    case Answering(_) => true
    case Planning(_, _, _, _, _, _, now, at) => now <= at <= w.clock
    case Requesting(_, _, at) => at <= w.clock
    case Start => w.worker == Down
    case Restoring(at) => w.worker == Starting && at <= w.clock
    case Crash => true
    case Cancelling(_, _, at) => w.worker.Up? && at <= w.clock
    case LaunchNatural => w.worker.Up? && w.worker.life.running == None
    case LaunchRecovery(id, now) => w.worker.Up? && w.worker.life.running == None && now <= w.clock && CanLaunch(w, id, now)
    case Reap => w.worker.Up? && w.worker.life.running.Some?
                 && forall i | 0 <= i < |w.worker.life.lane| :: w.worker.life.lane[i].number != w.worker.life.running.value
    case BeginNatural(at) => LaneHead(w) && Head(w).work.Natural? && Head(w).phase.Queued? && at <= w.clock
    case ClaimHead(at) => LaneHead(w) && Head(w).work.Recovering? && Head(w).phase.Queued? && at <= w.clock
    case SpawnHead => LaneHead(w) && Head(w).phase.Begun?
    case EndHead(_, _, at) => LaneHead(w) && !Head(w).phase.Queued? && at <= w.clock
    case DropHead => LaneHead(w)
    case BeginOther(_, at) => w.worker.Up? && at <= w.clock
    case ClaimingRequest(_, at) => w.worker.Up? && at <= w.clock
    case FinishRun(run, _, _, at) => w.worker.Up? && run in w.worker.life.owned && at <= w.clock
  }

  function WithLife(w: World, life: Life): World
  {
    w.(worker := Up(life))
  }

  function Submit(life: Life, work: Work): Life
  {
    life.(running := Some(life.futures), lane := life.lane + [Task(life.futures, work, Queued)],
          futures := life.futures + 1)
  }

  function WithHead(life: Life, phase: Phase): Life
    requires life.lane != []
  {
    life.(lane := [life.lane[0].(phase := phase)] + life.lane[1..])
  }

  /** The tables after a step. */
  function JobsAfter(w: World, step: Step): Jobs
    requires Enabled(w, step)
  {
    match step
    case Planning(failure, elapsed, context, delay, writable, modelCall, now, at) =>
      var plan := Schedule(failure, elapsed, context, delay, writable, now);
      if plan.None? then w.jobs
      else
        var p := plan.value;
        EnqueueRecovery(w.jobs, p.scope, p.slot, p.scheduledAt, p.expiresAt, p.fingerprint, modelCall, Sec(at))
    case Requesting(job, actor, at) =>
      var requested := RequestJob(w.jobs, job, actor, Sec(at));
      if requested.Done? then requested.value else w.jobs
    case Restoring(at) => RecoverJobs(w.jobs, Sec(at))
    case Cancelling(id, detail, at) => CancelRecovery(w.jobs, id, detail, Sec(at))
    case BeginNatural(at) => BeginJob(w.jobs, "trader", Sec(at))
    case ClaimHead(at) => ClaimRecovery(w.jobs, Head(w).work.id, Sec(at))
    case EndHead(code, detail, at) =>
      if Head(w).work.Natural? then FinishJob(w.jobs, Head(w).phase.run, code, detail, Sec(at))
      else FinishRecovery(w.jobs, Head(w).work.id, code, detail, Sec(at))
    case BeginOther(job, at) => BeginJob(w.jobs, job, Sec(at))
    case ClaimingRequest(id, at) => ClaimJobRequest(w.jobs, id, Sec(at))
    case FinishRun(run, code, detail, at) => FinishJob(w.jobs, run, code, detail, Sec(at))
    case _ => w.jobs
  }

  /** The run handed out by a step that begins one. */
  function Handed(life: Life, run: nat): Life
  {
    life.(owned := life.owned + {run})
  }

  function Next(w: World, step: Step): World
    requires Enabled(w, step)
  {
    var after := w.(jobs := JobsAfter(w, step));
    match step
    case Later(clock) => after.(clock := clock)
    case Answering(startedAt) => after.(answered := w.answered + {startedAt})
    case Start => after.(worker := Starting)
    case Restoring(_) => after.(worker := Up(Life(None, [], 0, {})))
    case Crash => after.(worker := Down)
    case LaunchNatural => WithLife(after, Submit(w.worker.life, Natural))
    case LaunchRecovery(id, now) =>
      WithLife(after, Submit(w.worker.life, Recovering(id))).(submissions := w.submissions + [Submission(id, now)])
    case Reap => WithLife(after, w.worker.life.(running := None))
    case BeginNatural(_) => WithLife(after, Handed(WithHead(w.worker.life, Begun(after.jobs.lastRun)), after.jobs.lastRun))
    case ClaimHead(_) =>
      var id := Head(w).work.id;
      if CanClaimRecovery(w.jobs, id) then
        var row := w.jobs.recoveries[id];
        WithLife(after, WithHead(w.worker.life, Begun(after.jobs.lastRun)))
        .(claims := w.claims + multiset{(row.scope, row.slot)})
      else WithLife(after, w.worker.life.(lane := w.worker.life.lane[1..]))
    case SpawnHead => WithLife(after, WithHead(w.worker.life, Spawned(Head(w).phase.run)))
    case EndHead(_, _, _) => WithLife(after, w.worker.life.(lane := w.worker.life.lane[1..]))
    case DropHead => WithLife(after, w.worker.life.(lane := w.worker.life.lane[1..]))
    case BeginOther(_, _) => WithLife(after, Handed(w.worker.life, after.jobs.lastRun))
    case ClaimingRequest(id, _) =>
      if CanClaimRequest(w.jobs, id) then WithLife(after, Handed(w.worker.life, after.jobs.lastRun)) else after
    case _ => after
  }

  ghost predicate Reaches(w: World, steps: seq<Step>, w': World)
    decreases |steps|
  {
    if steps == [] then w' == w
    else Enabled(w, steps[0]) && Reaches(Next(w, steps[0]), steps[1..], w')
  }

  // ---------------------------------------------------------------------------------------------
  // The invariant
  // ---------------------------------------------------------------------------------------------

  ghost predicate WindowsOk(j: Jobs)
  {
    forall id | id in j.recoveries ::
      InWindow(j.recoveries[id].slot, j.recoveries[id].scheduledAt, j.recoveries[id].expiresAt)
  }

  /** A row's attempts are the claims of its slot. */
  ghost predicate ClaimsMatch(j: Jobs, claims: multiset<(string, int)>)
  {
    && (forall id | id in j.recoveries ::
          claims[(j.recoveries[id].scope, j.recoveries[id].slot)] == j.recoveries[id].attempts)
    && (forall scope, slot | (scope, slot) in claims :: HasRecovery(j.recoveries, scope, slot))
  }

  /** The submission fell between the scheduled time and four minutes before the next slot. */
  predicate SubmissionOk(j: Jobs, s: Submission)
  {
    && s.id in j.recoveries
    && j.recoveries[s.id].scheduledAt * MICROS <= s.at < (j.recoveries[s.id].slot + 660) * MICROS
    && j.recoveries[s.id].slot * MICROS <= s.at
  }

  ghost predicate SubmissionsOk(j: Jobs, submissions: seq<Submission>)
  {
    forall i | 0 <= i < |submissions| :: SubmissionOk(j, submissions[i])
  }

  predicate WasSubmitted(submissions: seq<Submission>, id: nat)
  {
    exists i | 0 <= i < |submissions| :: submissions[i].id == id
  }

  /** Nothing is claimed that was not submitted. */
  ghost predicate ClaimsSubmitted(w: World)
  {
    && (forall id | id in w.jobs.recoveries && w.jobs.recoveries[id].attempts > 0 :: WasSubmitted(w.submissions, id))
    && (LaneHead(w) && Head(w).work.Recovering? ==> WasSubmitted(w.submissions, Head(w).work.id))
  }

  predicate TaskOk(life: Life, task: Task)
  {
    task.number < life.futures
    && (task.work.Natural? && !task.phase.Queued? ==> task.phase.run in life.owned)
  }

  /** The lane holds the future under the key "trader" or nothing. */
  predicate LaneOk(life: Life)
  {
    && |life.lane| <= 1
    && (life.lane != [] ==> TaskOk(life, life.lane[0]) && life.running == Some(life.lane[0].number))
  }

  ghost predicate OwnedOk(j: Jobs, owned: set<nat>)
  {
    forall run | run in owned :: run <= j.lastRun && NotOfRecovery(j, run)
  }

  ghost predicate Inv(w: World)
  {
    && JobsInv(w.jobs) && WindowsOk(w.jobs) && ClaimsMatch(w.jobs, w.claims)
    && SubmissionsOk(w.jobs, w.submissions) && ClaimsSubmitted(w)
    && (w.worker.Up? ==> LaneOk(w.worker.life) && OwnedOk(w.jobs, w.worker.life.owned))
  }

  // ---------------------------------------------------------------------------------------------
  // Transactions that leave the recoveries' windows and claims alone
  // ---------------------------------------------------------------------------------------------

  ghost predicate SameRow(a: Recovery, b: Recovery)
  {
    a.scope == b.scope && a.slot == b.slot && a.scheduledAt == b.scheduledAt && a.expiresAt == b.expiresAt
  }

  ghost predicate SameRows(j: Jobs, after: Jobs)
  {
    && j.recoveries.Keys == after.recoveries.Keys
    && forall id | id in j.recoveries :: SameRow(j.recoveries[id], after.recoveries[id])
  }

  ghost predicate SameAttempts(j: Jobs, after: Jobs)
  {
    forall id | id in j.recoveries && id in after.recoveries :: after.recoveries[id].attempts == j.recoveries[id].attempts
  }

  /** Runs handed to recoveries are fresh or stay with them. */
  ghost predicate LinksKept(j: Jobs, after: Jobs)
  {
    && j.lastRun <= after.lastRun
    && forall id | id in after.recoveries :: after.recoveries[id].runId.None?
         || after.recoveries[id].runId.value > j.lastRun
         || (id in j.recoveries && after.recoveries[id].runId == j.recoveries[id].runId)
  }

  /** What a transaction that neither plans nor claims a recovery does. */
  ghost predicate Quiet(j: Jobs, after: Jobs)
  {
    JobsInv(after) && SameRows(j, after) && SameAttempts(j, after) && LinksKept(j, after)
  }

  lemma OwnedStay(j: Jobs, after: Jobs, owned: set<nat>)
    requires OwnedOk(j, owned) && LinksKept(j, after)
    ensures OwnedOk(after, owned)
  {
  }

  lemma RowsStay(j: Jobs, after: Jobs, scope: string, slot: int)
    requires SameRows(j, after)
    ensures HasRecovery(after.recoveries, scope, slot) <==> HasRecovery(j.recoveries, scope, slot)
  {
    if HasRecovery(j.recoveries, scope, slot) {
      var id :| id in j.recoveries && j.recoveries[id].scope == scope && j.recoveries[id].slot == slot;
      assert SameRow(j.recoveries[id], after.recoveries[id]);
    }
    if HasRecovery(after.recoveries, scope, slot) {
      var id :| id in after.recoveries && after.recoveries[id].scope == scope && after.recoveries[id].slot == slot;
      assert SameRow(j.recoveries[id], after.recoveries[id]);
    }
  }

  lemma ClaimsStay(j: Jobs, after: Jobs, claims: multiset<(string, int)>)
    requires ClaimsMatch(j, claims) && SameRows(j, after) && SameAttempts(j, after)
    ensures ClaimsMatch(after, claims)
  {
    hide HasRecovery;
    forall scope, slot | (scope, slot) in claims ensures HasRecovery(after.recoveries, scope, slot) {
      RowsStay(j, after, scope, slot);
    }
  }

  lemma SubmissionsStay(j: Jobs, after: Jobs, submissions: seq<Submission>)
    requires SubmissionsOk(j, submissions) && SameRows(j, after)
    ensures SubmissionsOk(after, submissions)
  {
    forall i | 0 <= i < |submissions| ensures SubmissionOk(after, submissions[i]) {
      assert SubmissionOk(j, submissions[i]);
    }
  }

  lemma QuietKeeps(w: World, after: Jobs)
    requires Inv(w) && Quiet(w.jobs, after)
    ensures Inv(w.(jobs := after))
  {
    hide JobsInv, InWindow;
    assert WindowsOk(after);
    ClaimsStay(w.jobs, after, w.claims);
    SubmissionsStay(w.jobs, after, w.submissions);
    hide ClaimsMatch, SubmissionsOk, WindowsOk;
    if w.worker.Up? { OwnedStay(w.jobs, after, w.worker.life.owned); }
  }

  lemma BeginIsQuiet(j: Jobs, job: string, now: int)
    requires JobsInv(j)
    ensures var after := BeginJob(j, job, now);
            Quiet(j, after) && after.lastRun == j.lastRun + 1 && NotOfRecovery(after, after.lastRun)
  {
    BeginKeeps(j, job, now);
    hide JobsInv;
  }

  lemma ClaimRequestIsQuiet(j: Jobs, id: nat, now: int)
    requires JobsInv(j)
    ensures var after := ClaimJobRequest(j, id, now);
            Quiet(j, after) && (CanClaimRequest(j, id) ==> NotOfRecovery(after, after.lastRun))
  {
    ClaimRequestKeeps(j, id, now);
    hide JobsInv;
  }

  lemma FinishIsQuiet(j: Jobs, run: nat, code: int, detail: string, now: int)
    requires JobsInv(j) && NotOfRecovery(j, run)
    ensures Quiet(j, FinishJob(j, run, code, detail, now))
  {
    FinishKeeps(j, run, code, detail, now);
    hide JobsInv;
  }

  lemma CancelIsQuiet(j: Jobs, id: nat, detail: string, now: int)
    requires JobsInv(j)
    ensures Quiet(j, CancelRecovery(j, id, detail, now))
  {
    CancelKeeps(j, id, detail, now);
    hide JobsInv;
  }

  lemma FinishRecoveryIsQuiet(j: Jobs, id: nat, code: int, detail: string, now: int)
    requires JobsInv(j)
    ensures Quiet(j, FinishRecovery(j, id, code, detail, now))
  {
    FinishRecoveryKeeps(j, id, code, detail, now);
    hide JobsInv;
  }

  lemma RecoverIsQuiet(j: Jobs, now: int)
    requires JobsInv(j)
    ensures Quiet(j, RecoverJobs(j, now))
  {
    RecoverKeeps(j, now);
    RecoverOnlyStops(j, now);
    hide JobsInv, RecoverJobs;
  }

  // ---------------------------------------------------------------------------------------------
  // Planning and claiming
  // ---------------------------------------------------------------------------------------------

  lemma PlanKeepsWindows(j: Jobs, p: Plan, call: Option<int>, now: int, claims: multiset<(string, int)>,
                         submissions: seq<Submission>)
    requires WindowsOk(j) && Counted(j) && InWindow(p.slot, p.scheduledAt, p.expiresAt)
    requires ClaimsMatch(j, claims) && SubmissionsOk(j, submissions)
    ensures var after := EnqueueRecovery(j, p.scope, p.slot, p.scheduledAt, p.expiresAt, p.fingerprint, call, now);
            && WindowsOk(after) && ClaimsMatch(after, claims) && SubmissionsOk(after, submissions)
            && LinksKept(j, after)
            && forall id | id in after.recoveries && after.recoveries[id].attempts > 0 ::
                 id in j.recoveries && j.recoveries[id].attempts > 0
  {
    hide InWindow;
    if !HasRecovery(j.recoveries, p.scope, p.slot) {
      var after := EnqueueRecovery(j, p.scope, p.slot, p.scheduledAt, p.expiresAt, p.fingerprint, call, now);
      assert claims[(p.scope, p.slot)] == 0;
      assert forall id | id in j.recoveries :: after.recoveries[id] == j.recoveries[id];
      forall scope, slot | (scope, slot) in claims ensures HasRecovery(after.recoveries, scope, slot) {
        var id :| id in j.recoveries && j.recoveries[id].scope == scope && j.recoveries[id].slot == slot;
        assert after.recoveries[id].scope == scope;
      }
      forall i | 0 <= i < |submissions| ensures SubmissionOk(after, submissions[i]) {
        assert SubmissionOk(j, submissions[i]);
      }
    }
  }

  lemma CountsKept(w: World)
    requires Inv(w)
    ensures Counted(w.jobs)
  {
  }

  lemma KeepsPlanning(w: World, step: Step)
    requires Inv(w) && Enabled(w, step) && step.Planning?
    ensures Inv(Next(w, step))
  {
    hide JobsInv, InWindow, WindowsOk, ClaimsMatch, SubmissionsOk;
    var plan := Schedule(step.failure, step.elapsed, step.context, step.delay, step.writable, step.now);
    if plan.Some? {
      var p, j := plan.value, w.jobs;
      PlannedInWindow(step);
      CountsKept(w);
      EnqueueKeeps(j, p.scope, p.slot, p.scheduledAt, p.expiresAt, p.fingerprint, step.modelCall, Sec(step.at));
      PlanKeepsWindows(j, p, step.modelCall, Sec(step.at), w.claims, w.submissions);
      hide EnqueueRecovery, Schedule;
      if w.worker.Up? { OwnedStay(j, Next(w, step).jobs, w.worker.life.owned); }
    }
  }

  lemma PlannedInWindow(step: Step)
    requires step.Planning?
    ensures var plan := Schedule(step.failure, step.elapsed, step.context, step.delay, step.writable, step.now);
            plan.Some? ==> InWindow(plan.value.slot, plan.value.scheduledAt, plan.value.expiresAt)
  {
    if step.context.Some? {
      var c := step.context.value;
      PlannedExactlyInWindow(step.failure, step.elapsed, c.scope, c.slot, step.delay, step.writable, step.now,
                             Clamp(step.delay));
    }
  }

  lemma ClaimMovesOneRow(j: Jobs, id: nat, now: int)
    requires Counted(j) && CanClaimRecovery(j, id)
    ensures var after := ClaimRecovery(j, id, now);
            && SameRows(j, after) && LinksKept(j, after) && after.lastRun == j.lastRun + 1
            && after.recoveries[id].attempts == 1
            && forall other | other in j.recoveries && other != id :: after.recoveries[other] == j.recoveries[other]
  {
  }

  /** A claim counts once for the slot of its row and for no other. */
  lemma ClaimCounts(j: Jobs, after: Jobs, claims: multiset<(string, int)>, id: nat)
    requires ClaimsMatch(j, claims) && OneRecoveryPerSlot(j) && SameRows(j, after)
    requires id in j.recoveries && j.recoveries[id].attempts == 0 && after.recoveries[id].attempts == 1
    requires forall other | other in j.recoveries && other != id :: after.recoveries[other] == j.recoveries[other]
    ensures ClaimsMatch(after, claims + multiset{(j.recoveries[id].scope, j.recoveries[id].slot)})
  {
    hide HasRecovery;
    var row := j.recoveries[id];
    forall scope, slot | (scope, slot) in claims + multiset{(row.scope, row.slot)}
      ensures HasRecovery(after.recoveries, scope, slot)
    {
      RowThere(j, id);
      RowsStay(j, after, scope, slot);
    }
  }

  lemma RowThere(j: Jobs, id: nat)
    requires id in j.recoveries
    ensures HasRecovery(j.recoveries, j.recoveries[id].scope, j.recoveries[id].slot)
  {
  }

  lemma ClaimKeepsRows(w: World, id: nat, now: int)
    requires JobsInv(w.jobs) && WindowsOk(w.jobs) && ClaimsMatch(w.jobs, w.claims)
    requires SubmissionsOk(w.jobs, w.submissions)
    requires CanClaimRecovery(w.jobs, id)
    ensures var after := ClaimRecovery(w.jobs, id, now);
            var row := w.jobs.recoveries[id];
            && WindowsOk(after) && ClaimsMatch(after, w.claims + multiset{(row.scope, row.slot)})
            && SubmissionsOk(after, w.submissions) && LinksKept(w.jobs, after) && after.lastRun > w.jobs.lastRun
            && forall other | other in after.recoveries && after.recoveries[other].attempts > 0 ::
                 other == id || (other in w.jobs.recoveries && w.jobs.recoveries[other].attempts > 0)
  {
    var after := ClaimRecovery(w.jobs, id, now);
    ClaimMovesOneRow(w.jobs, id, now);
    ClaimCounts(w.jobs, after, w.claims, id);
    SubmissionsStay(w.jobs, after, w.submissions);
    hide JobsInv, ClaimRecovery, ClaimsMatch, SubmissionsOk, LinksKept, InWindow;
  }

  /** The head of the lane claims its recovery. */
  lemma KeepsClaim(w: World, now: int)
    requires Inv(w) && LaneHead(w) && Head(w).work.Recovering? && CanClaimRecovery(w.jobs, Head(w).work.id)
    ensures var id := Head(w).work.id;
            var row := w.jobs.recoveries[id];
            Inv(w.(jobs := ClaimRecovery(w.jobs, id, now), claims := w.claims + multiset{(row.scope, row.slot)}))
  {
    var id := Head(w).work.id;
    ClaimKeepsRows(w, id, now);
    ClaimRecoveryKeeps(w.jobs, id, now);
    OwnedStay(w.jobs, ClaimRecovery(w.jobs, id, now), w.worker.life.owned);
    hide JobsInv, WindowsOk, ClaimsMatch, SubmissionsOk, ClaimRecovery, WasSubmitted, OwnedOk, LinksKept, LaneOk;
  }

  lemma UnclaimedRecovery(j: Jobs, id: nat, now: int)
    ensures !CanClaimRecovery(j, id) ==> ClaimRecovery(j, id, now) == j
  {
  }

  lemma KeepsClaimHead(w: World, at: nat)
    requires Inv(w) && Enabled(w, ClaimHead(at))
    ensures Inv(Next(w, ClaimHead(at)))
  {
    hide JobsInv, WindowsOk, ClaimsMatch, SubmissionsOk, ClaimRecovery, WasSubmitted, OwnedOk;
    var id := Head(w).work.id;
    UnclaimedRecovery(w.jobs, id, Sec(at));
    if CanClaimRecovery(w.jobs, id) {
      KeepsClaim(w, Sec(at));
      var claimed := ClaimRecovery(w.jobs, id, Sec(at));
      var row := w.jobs.recoveries[id];
      KeepsLane(w.(jobs := claimed, claims := w.claims + multiset{(row.scope, row.slot)}),
                WithHead(w.worker.life, Begun(claimed.lastRun)));
    } else {
      KeepsLane(w, w.worker.life.(lane := w.worker.life.lane[1..]));
    }
  }

  lemma KeepsLaunchRecovery(w: World, id: nat, now: nat)
    requires Inv(w) && Enabled(w, LaunchRecovery(id, now))
    ensures Inv(Next(w, LaunchRecovery(id, now)))
  {
    var s := Submission(id, now);
    assert SubmissionOk(w.jobs, s) by {
      hide JobsInv, ClaimsMatch, OwnedOk, SubmissionsOk, ClaimsSubmitted;
      assert InWindow(w.jobs.recoveries[id].slot, w.jobs.recoveries[id].scheduledAt, w.jobs.recoveries[id].expiresAt);
    }
    hide JobsInv, InWindow, WindowsOk, ClaimsMatch, OwnedOk, SubmissionOk, CanLaunch;
    var after := Next(w, LaunchRecovery(id, now));
    assert after.submissions[|w.submissions|] == s;
    forall other | WasSubmitted(w.submissions, other) ensures WasSubmitted(after.submissions, other) {
      var i :| 0 <= i < |w.submissions| && w.submissions[i].id == other;
      assert after.submissions[i].id == other;
    }
  }

  /** Lane steps that leave the tables alone. */
  lemma KeepsLane(w: World, life: Life)
    requires Inv(w) && w.worker.Up? && life.owned == w.worker.life.owned && LaneOk(life)
    requires life.lane != [] && life.lane[0].work.Recovering? ==> WasSubmitted(w.submissions, life.lane[0].work.id)
    ensures Inv(WithLife(w, life))
  {
    hide JobsInv, WindowsOk, ClaimsMatch, SubmissionsOk, OwnedOk;
  }

  /** The worker is handed a fresh run. */
  lemma KeepsBegun(w: World, after: Jobs)
    requires Inv(w) && w.worker.Up? && Quiet(w.jobs, after) && NotOfRecovery(after, after.lastRun)
    ensures Inv(WithLife(w, w.worker.life.(owned := w.worker.life.owned + {after.lastRun})).(jobs := after))
  {
    QuietKeeps(w, after);
    hide JobsInv, WindowsOk, ClaimsMatch, SubmissionsOk, Quiet;
  }

  lemma KeepsBeginNatural(w: World, at: nat)
    requires Inv(w) && Enabled(w, BeginNatural(at))
    ensures Inv(Next(w, BeginNatural(at)))
  {
    var begun := BeginJob(w.jobs, "trader", Sec(at));
    BeginIsQuiet(w.jobs, "trader", Sec(at));
    hide JobsInv, WindowsOk, ClaimsMatch, SubmissionsOk, BeginJob, Quiet;
    KeepsBegun(w, begun);
    var handed := WithLife(w, w.worker.life.(owned := w.worker.life.owned + {begun.lastRun})).(jobs := begun);
    KeepsLane(handed, WithHead(handed.worker.life, Begun(begun.lastRun)));
  }

  lemma KeepsEndHead(w: World, code: int, detail: string, at: nat)
    requires Inv(w) && Enabled(w, EndHead(code, detail, at))
    ensures Inv(Next(w, EndHead(code, detail, at)))
  {
    hide JobsInv, WindowsOk, ClaimsMatch, SubmissionsOk, FinishJob, FinishRecovery, Quiet;
    var life := w.worker.life.(lane := w.worker.life.lane[1..]);
    KeepsLane(w, life);
    if Head(w).work.Natural? {
      FinishIsQuiet(w.jobs, Head(w).phase.run, code, detail, Sec(at));
      QuietKeeps(WithLife(w, life), FinishJob(w.jobs, Head(w).phase.run, code, detail, Sec(at)));
    } else {
      FinishRecoveryIsQuiet(w.jobs, Head(w).work.id, code, detail, Sec(at));
      QuietKeeps(WithLife(w, life), FinishRecovery(w.jobs, Head(w).work.id, code, detail, Sec(at)));
    }
  }

  lemma RequestIsQuiet(j: Jobs, job: string, actor: string, now: int)
    requires JobsInv(j) && job in MANUAL_JOBS
    ensures Quiet(j, RequestJob(j, job, actor, now).value)
  {
    RequestKeeps(j, job, actor, now);
    hide JobsInv;
  }

  lemma UnclaimedStays(j: Jobs, id: nat, now: int)
    ensures !CanClaimRequest(j, id) ==> ClaimJobRequest(j, id, now) == j
  {
  }

  lemma StepKeepsInv(w: World, step: Step)
    requires Inv(w) && Enabled(w, step)
    ensures Inv(Next(w, step))
  {
    hide JobsInv, WindowsOk, ClaimsMatch, SubmissionsOk, BeginJob, FinishJob, ClaimJobRequest, FinishRecovery,
      CancelRecovery, RecoverJobs;
    match step
    case Later(_) =>
    case Answering(_) =>
    case Planning(_, _, _, _, _, _, _, _) => KeepsPlanning(w, step);
    case Requesting(job, actor, at) =>
      if job in MANUAL_JOBS {
        RequestIsQuiet(w.jobs, job, actor, Sec(at));
        QuietKeeps(w, RequestJob(w.jobs, job, actor, Sec(at)).value);
      }
    case Start =>
    case Crash =>
    case Restoring(at) =>
      RecoverIsQuiet(w.jobs, Sec(at));
      QuietKeeps(w, RecoverJobs(w.jobs, Sec(at)));
    case Cancelling(id, detail, at) =>
      CancelIsQuiet(w.jobs, id, detail, Sec(at));
      QuietKeeps(w, CancelRecovery(w.jobs, id, detail, Sec(at)));
    case LaunchNatural => KeepsLane(w, Submit(w.worker.life, Natural));
    case LaunchRecovery(id, now) => KeepsLaunchRecovery(w, id, now);
    case Reap => KeepsLane(w, w.worker.life.(running := None));
    case BeginNatural(at) => KeepsBeginNatural(w, at);
    case ClaimHead(at) => KeepsClaimHead(w, at);
    case SpawnHead => KeepsLane(w, WithHead(w.worker.life, Spawned(Head(w).phase.run)));
    case EndHead(code, detail, at) => KeepsEndHead(w, code, detail, at);
    case DropHead => KeepsLane(w, w.worker.life.(lane := w.worker.life.lane[1..]));
    case BeginOther(job, at) =>
      BeginIsQuiet(w.jobs, job, Sec(at));
      KeepsBegun(w, BeginJob(w.jobs, job, Sec(at)));
    case ClaimingRequest(id, at) =>
      UnclaimedStays(w.jobs, id, Sec(at));
      if CanClaimRequest(w.jobs, id) {
        ClaimRequestIsQuiet(w.jobs, id, Sec(at));
        KeepsBegun(w, ClaimJobRequest(w.jobs, id, Sec(at)));
      }
    case FinishRun(run, code, detail, at) =>
      FinishIsQuiet(w.jobs, run, code, detail, Sec(at));
      QuietKeeps(w, FinishJob(w.jobs, run, code, detail, Sec(at)));
  }

  lemma {:induction false} RunKeepsInv(w: World, steps: seq<Step>, w': World)
    requires Inv(w) && Reaches(w, steps, w')
    ensures Inv(w')
    decreases |steps|
  {
    hide Inv, Next;
    if steps != [] {
      StepKeepsInv(w, steps[0]);
      RunKeepsInv(Next(w, steps[0]), steps[1..], w');
    }
  }

  lemma StartIsOk()
    ensures Inv(START)
  {
  }

  // ---------------------------------------------------------------------------------------------
  // What follows for every run
  // ---------------------------------------------------------------------------------------------

  /** Whatever crashes and restarts, the recovery of one account and slot is claimed at most once. */
  lemma EachSlotClaimedOnce(steps: seq<Step>, w: World, scope: string, slot: int)
    requires Reaches(START, steps, w)
    ensures w.claims[(scope, slot)] <= 1
  {
    StartIsOk();
    RunKeepsInv(START, steps, w);
    if (scope, slot) in w.claims {
      var id :| id in w.jobs.recoveries && w.jobs.recoveries[id].scope == scope && w.jobs.recoveries[id].slot == slot;
      assert w.claims[(scope, slot)] == w.jobs.recoveries[id].attempts;
    }
  }

  /** A claimed recovery was submitted between its scheduled time and four minutes before the next slot. */
  lemma ClaimedInsideWindow(steps: seq<Step>, w: World, id: nat)
    requires Reaches(START, steps, w) && id in w.jobs.recoveries
    ensures var row := w.jobs.recoveries[id];
            && InWindow(row.slot, row.scheduledAt, row.expiresAt)
            && (row.attempts > 0 ==> exists i | 0 <= i < |w.submissions| :: w.submissions[i].id == id)
            && (forall i | 0 <= i < |w.submissions| && w.submissions[i].id == id ::
                  row.scheduledAt * MICROS <= w.submissions[i].at < (row.slot + 660) * MICROS)
  {
    StartIsOk();
    RunKeepsInv(START, steps, w);
    hide InWindow, JobsInv;
    if w.jobs.recoveries[id].attempts > 0 { assert WasSubmitted(w.submissions, id); }
    forall i | 0 <= i < |w.submissions| ensures SubmissionOk(w.jobs, w.submissions[i]) {}
  }

  /** One manual request per job is pending or running, and what runs has a running job run. */
  lemma RunningExactlyWithJobRun(steps: seq<Step>, w: World)
    requires Reaches(START, steps, w)
    ensures OneActiveRequest(w.jobs)
    ensures forall id | id in w.jobs.requests ::
              w.jobs.requests[id].status == Running <==> RunIsRunning(w.jobs, w.jobs.requests[id].runId)
    ensures forall id | id in w.jobs.recoveries ::
              w.jobs.recoveries[id].status == Running <==> RunIsRunning(w.jobs, w.jobs.recoveries[id].runId)
  {
    StartIsOk();
    RunKeepsInv(START, steps, w);
  }

  /** In one worker's life the trader lane never holds two unfinished jobs, natural or recovery. */
  lemma TraderLaneHoldsOne(steps: seq<Step>, w: World)
    requires Reaches(START, steps, w) && w.worker.Up?
    ensures |w.worker.life.lane| <= 1
    ensures w.worker.life.lane != [] ==> w.worker.life.running == Some(w.worker.life.lane[0].number)
  {
    StartIsOk();
    RunKeepsInv(START, steps, w);
  }

  // ---------------------------------------------------------------------------------------------
  // Nothing finished comes back
  // ---------------------------------------------------------------------------------------------

  /** Pending may start or be cancelled, running may end, and an end is final. */
  predicate Moves(a: Status, b: Status)
  {
    match a
    case Pending => b in {Pending, Running, Success, Failed, Cancelled}
    case Running => b in {Running, Success, Failed}
    case _ => b == a
  }

  ghost predicate OnlyForward(j: Jobs, after: Jobs)
  {
    && (forall id | id in j.requests :: id in after.requests && Moves(j.requests[id].status, after.requests[id].status))
    && (forall id | id in j.recoveries :: id in after.recoveries && Moves(j.recoveries[id].status, after.recoveries[id].status))
  }

  lemma RequestsMoveForward(j: Jobs, job: string, actor: string, id: nat, now: int)
    requires Counted(j)
    ensures OnlyForward(j, BeginJob(j, job, now))
    ensures job in MANUAL_JOBS ==> OnlyForward(j, RequestJob(j, job, actor, now).value)
    ensures OnlyForward(j, ClaimJobRequest(j, id, now))
  {
  }

  lemma EndsMoveForward(j: Jobs, run: nat, code: int, detail: string, now: int)
    ensures OnlyForward(j, FinishJob(j, run, code, detail, now))
    ensures OnlyForward(j, RecoverJobs(j, now))
  {
    FinishOnlyEnds(j, run, code, detail, now);
    RecoverOnlyStops(j, now);
    hide FinishJob, RecoverJobs;
  }

  /** One recovery moves on, the others stay. */
  lemma OneRecoveryMoves(j: Jobs, after: Jobs, id: nat)
    requires after.requests == j.requests && id in j.recoveries
    requires id in after.recoveries && Moves(j.recoveries[id].status, after.recoveries[id].status)
    requires forall other | other in j.recoveries && other != id ::
               other in after.recoveries && after.recoveries[other] == j.recoveries[other]
    ensures OnlyForward(j, after)
  {
  }

  lemma RecoveriesMoveForward(j: Jobs, id: nat, code: int, detail: string, now: int)
    ensures OnlyForward(j, CancelRecovery(j, id, detail, now))
    ensures OnlyForward(j, ClaimRecovery(j, id, now))
    ensures OnlyForward(j, FinishRecovery(j, id, code, detail, now))
  {
    if id in j.recoveries {
      OneRecoveryMoves(j, CancelRecovery(j, id, detail, now), id);
      OneRecoveryMoves(j, ClaimRecovery(j, id, now), id);
      OneRecoveryMoves(j, FinishRecovery(j, id, code, detail, now), id);
    }
    hide OnlyForward, Moves;
  }

  lemma PlansMoveForward(j: Jobs, p: Plan, call: Option<int>, now: int)
    requires Counted(j)
    ensures OnlyForward(j, EnqueueRecovery(j, p.scope, p.slot, p.scheduledAt, p.expiresAt, p.fingerprint, call, now))
  {
  }

  lemma NoMove(j: Jobs)
    ensures OnlyForward(j, j)
  {
  }

  lemma AllowedRequest(j: Jobs, job: string, actor: string, now: int)
    ensures RequestJob(j, job, actor, now).Done? <==> job in MANUAL_JOBS
  {
  }

  lemma ApiMovesForward(w: World, step: Step)
    requires Counted(w.jobs) && Enabled(w, step) && (step.Planning? || step.Requesting?)
    ensures OnlyForward(w.jobs, JobsAfter(w, step))
  {
    hide OnlyForward, EnqueueRecovery, RequestJob, Schedule;
    NoMove(w.jobs);
    if step.Requesting? {
      AllowedRequest(w.jobs, step.job, step.actor, Sec(step.at));
      RequestsMoveForward(w.jobs, step.job, step.actor, 0, Sec(step.at));
    } else {
      var plan := Schedule(step.failure, step.elapsed, step.context, step.delay, step.writable, step.now);
      if plan.Some? { PlansMoveForward(w.jobs, plan.value, step.modelCall, Sec(step.at)); }
    }
  }

  lemma RunsMoveForward(w: World, step: Step)
    requires Counted(w.jobs) && Enabled(w, step)
    requires step.BeginNatural? || step.BeginOther? || step.ClaimingRequest?
    ensures OnlyForward(w.jobs, JobsAfter(w, step))
  {
    hide OnlyForward, BeginJob, ClaimJobRequest;
    match step
    case BeginNatural(at) => RequestsMoveForward(w.jobs, "trader", "", 0, Sec(at));
    case BeginOther(job, at) => RequestsMoveForward(w.jobs, job, "", 0, Sec(at));
    case ClaimingRequest(id, at) => RequestsMoveForward(w.jobs, "", "", id, Sec(at));
  }

  lemma LaneMovesForward(w: World, step: Step)
    requires Enabled(w, step) && (step.EndHead? || step.ClaimHead? || step.Cancelling?)
    ensures OnlyForward(w.jobs, JobsAfter(w, step))
  {
    hide OnlyForward, FinishJob, FinishRecovery, ClaimRecovery, CancelRecovery;
    if step.ClaimHead? {
      RecoveriesMoveForward(w.jobs, Head(w).work.id, 0, "", Sec(step.at));
    } else if step.Cancelling? {
      RecoveriesMoveForward(w.jobs, step.id, 0, step.detail, Sec(step.at));
    } else if Head(w).work.Natural? {
      EndsMoveForward(w.jobs, Head(w).phase.run, step.code, step.detail, Sec(step.at));
    } else {
      RecoveriesMoveForward(w.jobs, Head(w).work.id, step.code, step.detail, Sec(step.at));
    }
  }

  lemma OthersMoveForward(w: World, step: Step)
    requires Enabled(w, step)
    requires step.FinishRun? || step.Restoring? || JobsAfter(w, step) == w.jobs
    ensures OnlyForward(w.jobs, JobsAfter(w, step))
  {
    hide OnlyForward, FinishJob, RecoverJobs;
    NoMove(w.jobs);
    if step.FinishRun? {
      EndsMoveForward(w.jobs, step.run, step.code, step.detail, Sec(step.at));
    } else if step.Restoring? {
      EndsMoveForward(w.jobs, 0, 0, "", Sec(step.at));
    }
  }

  lemma JobsOfNext(w: World, step: Step)
    requires Enabled(w, step)
    ensures Next(w, step).jobs == JobsAfter(w, step)
  {
    hide JobsAfter;
  }

  lemma StepMovesForward(w: World, step: Step)
    requires Inv(w) && Enabled(w, step)
    ensures OnlyForward(w.jobs, Next(w, step).jobs)
  {
    CountsKept(w);
    JobsOfNext(w, step);
    hide Inv, OnlyForward, Next;
    if step.Planning? || step.Requesting? {
      ApiMovesForward(w, step);
    } else if step.BeginNatural? || step.BeginOther? || step.ClaimingRequest? {
      RunsMoveForward(w, step);
    } else if step.EndHead? || step.ClaimHead? || step.Cancelling? {
      LaneMovesForward(w, step);
    } else {
      OthersMoveForward(w, step);
    }
  }

  /** Over every run a finished request or recovery keeps its end, and nothing goes back to pending. */
  lemma {:induction false} NothingRevives(w: World, steps: seq<Step>, w': World)
    requires Inv(w) && Reaches(w, steps, w')
    ensures OnlyForward(w.jobs, w'.jobs)
    decreases |steps|
  {
    hide Inv, Next;
    if steps != [] {
      StepKeepsInv(w, steps[0]);
      StepMovesForward(w, steps[0]);
      NothingRevives(Next(w, steps[0]), steps[1..], w');
    }
  }
}
