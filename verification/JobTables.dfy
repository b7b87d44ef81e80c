/** The job tables of `okxquant_gateway/store.py`: runs, manual requests and AI recoveries. */
module JobTables {
  import opened Options
  import opened Json
  import opened Strings
  import D = Deliveries

  /** The text of the status columns; each table admits some of them. */
  datatype Status = Pending | Running | Success | Failed | Cancelled

  datatype JobRun = JobRun(job: string, status: Status, startedAt: int, finishedAt: Option<int>,
                           code: Option<int>, detail: string)

  datatype Request = Request(job: string, actor: string, status: Status, createdAt: int, finishedAt: Option<int>,
                             runId: Option<nat>)

  /** What the failure was; the source stores a digest of it. */
  type Fingerprint = seq<Json>

  /** Times are whole seconds, as the stored text is. */
  datatype Recovery = Recovery(scope: string, slot: int, status: Status, scheduledAt: int, expiresAt: int,
                               createdAt: int, startedAt: Option<int>, finishedAt: Option<int>, attempts: nat,
                               fingerprint: Fingerprint, modelCall: Option<int>, runId: Option<nat>, detail: string)

  /** The `last` fields are the AUTOINCREMENT counters. */
  datatype Jobs = Jobs(runs: map<nat, JobRun>, requests: map<nat, Request>, recoveries: map<nat, Recovery>,
                       lastRun: nat, lastRequest: nat, lastRecovery: nat)

  const EMPTY := Jobs(map[], map[], map[], 0, 0, 0)
  const MANUAL_JOBS: set<string> := {"self_improvement"}

  predicate Active(status: Status)
  {
    status in {Pending, Running}
  }

  function Ending(code: int): Status
  {
    if code == 0 then Success else Failed
  }

  /** `text[-n:]` */
  function Tail(text: string, n: nat): string
  {
    if |text| <= n then text else text[|text| - n..]
  }

  /** `actor.replace("\r", " ").replace("\n", " ")[:160]` */
  function OneLine(text: string): string
  {
    Clip(seq(|text|, i requires 0 <= i < |text| => if text[i] in {'\r', '\n'} then ' ' else text[i]), 160)
  }

  // ---------------------------------------------------------------------------------------------
  // Transactions
  // ---------------------------------------------------------------------------------------------

  function BeginJob(j: Jobs, job: string, now: int): Jobs
  {
    j.(runs := j.runs[j.lastRun + 1 := JobRun(job, Running, now, None, None, "")], lastRun := j.lastRun + 1)
  }

  function EndRun(run: JobRun, code: int, detail: string, now: int): JobRun
  {
    run.(status := Ending(code), finishedAt := Some(now), code := Some(code), detail := Tail(detail, 2000))
  }

  function FinishJob(j: Jobs, runId: nat, code: int, detail: string, now: int): Jobs
  {
    j.(runs := if runId in j.runs then j.runs[runId := EndRun(j.runs[runId], code, detail, now)] else j.runs,
       requests := map id | id in j.requests ::
         var r := j.requests[id];
         if r.runId == Some(runId) && r.status == Running then r.(status := Ending(code), finishedAt := Some(now)) else r)
  }

  predicate HasActive(requests: map<nat, Request>, job: string)
  {
    exists id | id in requests :: requests[id].job == job && Active(requests[id].status)
  }

  function RequestJob(j: Jobs, job: string, actor: string, now: int): D.Outcome<Jobs>
  {
    if job !in MANUAL_JOBS then D.ValueError
    else if HasActive(j.requests, job) then D.Done(j)
    else
      var request := Request(job, OneLine(actor), Pending, now, None, None);
      D.Done(j.(requests := j.requests[j.lastRequest + 1 := request], lastRequest := j.lastRequest + 1))
  }

  predicate CanClaimRequest(j: Jobs, id: nat)
  {
    id in j.requests && j.requests[id].status == Pending && j.requests[id].job in MANUAL_JOBS
  }

  /** The new run, if the request was claimed, is `lastRun` of the result. */
  function ClaimJobRequest(j: Jobs, id: nat, now: int): Jobs
  {
    if !CanClaimRequest(j, id) then j
    else
      var begun := BeginJob(j, j.requests[id].job, now);
      begun.(requests := j.requests[id := j.requests[id].(status := Running, runId := Some(begun.lastRun))])
  }

  /** UNIQUE(account_scope, slot_start) */
  predicate HasRecovery(recoveries: map<nat, Recovery>, scope: string, slot: int)
  {
    exists id | id in recoveries :: recoveries[id].scope == scope && recoveries[id].slot == slot
  }

  function EnqueueRecovery(j: Jobs, scope: string, slot: int, scheduledAt: int, expiresAt: int,
                           fingerprint: Fingerprint, modelCall: Option<int>, now: int): Jobs
  {
    if HasRecovery(j.recoveries, scope, slot) then j
    else
      var row := Recovery(scope, slot, Pending, scheduledAt, expiresAt, now, None, None, 0, fingerprint, modelCall, None, "");
      j.(recoveries := j.recoveries[j.lastRecovery + 1 := row], lastRecovery := j.lastRecovery + 1)
  }

  function CancelRecovery(j: Jobs, id: nat, detail: string, now: int): Jobs
  {
    if id in j.recoveries && j.recoveries[id].status == Pending then
      var row := j.recoveries[id].(status := Cancelled, finishedAt := Some(now), detail := Clip(detail, 1000));
      j.(recoveries := j.recoveries[id := row])
    else j
  }

  predicate CanClaimRecovery(j: Jobs, id: nat)
  {
    id in j.recoveries && j.recoveries[id].status == Pending && j.recoveries[id].attempts == 0
  }

  /** The new run, if the recovery was claimed, is `lastRun` of the result. */
  function ClaimRecovery(j: Jobs, id: nat, now: int): Jobs
  {
    if !CanClaimRecovery(j, id) then j
    else
      var begun := BeginJob(j, "trader_recovery", now);
      var row := j.recoveries[id].(status := Running, startedAt := Some(now), attempts := 1, runId := Some(begun.lastRun));
      begun.(recoveries := j.recoveries[id := row])
  }

  function FinishRecovery(j: Jobs, id: nat, code: int, detail: string, now: int): Jobs
  {
    if id in j.recoveries && j.recoveries[id].status == Running then
      var row := j.recoveries[id];
      var ended := row.(status := Ending(code), finishedAt := Some(now), detail := Clip(detail, 1000));
      j.(recoveries := j.recoveries[id := ended],
         runs := if row.runId.Some? && row.runId.value in j.runs
                 then j.runs[row.runId.value := EndRun(j.runs[row.runId.value], code, detail, now)] else j.runs)
    else j
  }

  /** The job part of `recover_processing`: whatever was running has failed. */
  function RecoverJobs(j: Jobs, now: int): Jobs
  {
    j.(runs := map id | id in j.runs ::
         if j.runs[id].status != Running then j.runs[id]
         else j.runs[id].(status := Failed, code := Some(125), finishedAt := Some(now),
                          detail := "gateway restarted; previous execution outcome unknown"),
       requests := map id | id in j.requests ::
         if j.requests[id].status != Running then j.requests[id]
         else j.requests[id].(status := Failed, finishedAt := Some(now)),
       recoveries := map id | id in j.recoveries ::
         if j.recoveries[id].status != Running then j.recoveries[id]
         else j.recoveries[id].(status := Failed, finishedAt := Some(now),
                                detail := "gateway restarted; recovery outcome unknown"))
  }

  /** `due_ai_recoveries`: pending rows whose time has come; the query orders them by id. */
  predicate DueRecovery(j: Jobs, now: int, id: nat)
  {
    id in j.recoveries && j.recoveries[id].status == Pending && j.recoveries[id].scheduledAt <= now
  }

  // ---------------------------------------------------------------------------------------------
  // What every transaction keeps
  // ---------------------------------------------------------------------------------------------

  predicate RunIsRunning(j: Jobs, runId: Option<nat>)
  {
    runId.Some? && runId.value in j.runs && j.runs[runId.value].status == Running
  }

  /** A manual request runs exactly as long as its job run does. */
  ghost predicate RequestsLinked(j: Jobs)
  {
    forall id | id in j.requests ::
      && (j.requests[id].status == Running <==> RunIsRunning(j, j.requests[id].runId))
      && (j.requests[id].status == Pending ==> j.requests[id].runId == None)
      && (j.requests[id].runId.Some? ==> j.requests[id].runId.value <= j.lastRun)
      && j.requests[id].status != Cancelled
  }

  /** A recovery runs exactly as long as its job run does, and was claimed at most once. */
  ghost predicate RecoveriesLinked(j: Jobs)
  {
    forall id | id in j.recoveries ::
      && (j.recoveries[id].status == Running <==> RunIsRunning(j, j.recoveries[id].runId))
      && (j.recoveries[id].attempts == if j.recoveries[id].status in {Pending, Cancelled} then 0 else 1)
      && (j.recoveries[id].attempts == 0 <==> j.recoveries[id].runId == None)
      && (j.recoveries[id].runId.Some? ==> j.recoveries[id].runId.value <= j.lastRun)
  }

  /** No job run belongs to two owners. */
  ghost predicate RunsOwnedOnce(j: Jobs)
  {
    && (forall a, b | a in j.requests && b in j.requests && a != b ::
          j.requests[a].runId.Some? ==> j.requests[a].runId != j.requests[b].runId)
    && (forall a, b | a in j.recoveries && b in j.recoveries && a != b ::
          j.recoveries[a].runId.Some? ==> j.recoveries[a].runId != j.recoveries[b].runId)
    && (forall a, b | a in j.requests && b in j.recoveries ::
          j.requests[a].runId.Some? ==> j.requests[a].runId != j.recoveries[b].runId)
  }

  ghost predicate OneActiveRequest(j: Jobs)
  {
    forall a, b | a in j.requests && b in j.requests && a != b && j.requests[a].job == j.requests[b].job ::
      !(Active(j.requests[a].status) && Active(j.requests[b].status))
  }

  ghost predicate OneRecoveryPerSlot(j: Jobs)
  {
    forall a, b | a in j.recoveries && b in j.recoveries && a != b ::
      j.recoveries[a].scope != j.recoveries[b].scope || j.recoveries[a].slot != j.recoveries[b].slot
  }

  ghost predicate Counted(j: Jobs)
  {
    && (forall id | id in j.runs :: id <= j.lastRun)
    && (forall id | id in j.requests :: id <= j.lastRequest)
    && (forall id | id in j.recoveries :: id <= j.lastRecovery)
  }

  ghost predicate JobsInv(j: Jobs)
  {
    && Counted(j) && RequestsLinked(j) && RecoveriesLinked(j) && RunsOwnedOnce(j)
    && OneActiveRequest(j) && OneRecoveryPerSlot(j)
  }

  /** The run was handed out by `begin_job` or for a manual request. */
  ghost predicate NotOfRecovery(j: Jobs, runId: nat)
  {
    forall id | id in j.recoveries :: j.recoveries[id].runId != Some(runId)
  }

  lemma BeginKeeps(j: Jobs, job: string, now: int)
    requires JobsInv(j)
    ensures var after := BeginJob(j, job, now);
            && JobsInv(after) && NotOfRecovery(after, after.lastRun) && RunIsRunning(after, Some(after.lastRun))
            && forall id | id in j.requests :: j.requests[id].runId != Some(after.lastRun)
  {
  }

  lemma FinishOnlyEnds(j: Jobs, runId: nat, code: int, detail: string, now: int)
    ensures var after := FinishJob(j, runId, code, detail, now);
            && after.lastRun == j.lastRun && after.lastRequest == j.lastRequest && after.lastRecovery == j.lastRecovery
            && after.runs.Keys == j.runs.Keys && after.requests.Keys == j.requests.Keys && after.recoveries == j.recoveries
            && (forall id | id in j.runs :: after.runs[id].status == if id == runId then Ending(code) else j.runs[id].status)
            && (forall id | id in j.requests :: var r := j.requests[id]; var r' := after.requests[id];
                  r'.job == r.job && r'.runId == r.runId
                  && r'.status == if r.status == Running && r.runId == Some(runId) then Ending(code) else r.status)
  {
  }

  lemma FinishKeeps(j: Jobs, runId: nat, code: int, detail: string, now: int)
    requires JobsInv(j) && NotOfRecovery(j, runId)
    ensures JobsInv(FinishJob(j, runId, code, detail, now))
  {
    FinishOnlyEnds(j, runId, code, detail, now);
    hide FinishJob;
  }

  lemma RequestKeeps(j: Jobs, job: string, actor: string, now: int)
    requires JobsInv(j) && job in MANUAL_JOBS
    ensures JobsInv(RequestJob(j, job, actor, now).value)
  {
  }

  /** A pending request takes a fresh run. */
  lemma RequestStarts(j: Jobs, id: nat, runId: nat)
    requires JobsInv(j) && id in j.requests && j.requests[id].status == Pending
    requires RunIsRunning(j, Some(runId)) && NotOfRecovery(j, runId)
    requires forall other | other in j.requests :: j.requests[other].runId != Some(runId)
    ensures JobsInv(j.(requests := j.requests[id := j.requests[id].(status := Running, runId := Some(runId))]))
  {
  }

  /** A pending recovery takes a fresh run. */
  lemma RecoveryStarts(j: Jobs, id: nat, runId: nat, now: int)
    requires JobsInv(j) && id in j.recoveries && j.recoveries[id].status == Pending
    requires RunIsRunning(j, Some(runId)) && NotOfRecovery(j, runId)
    requires forall other | other in j.requests :: j.requests[other].runId != Some(runId)
    ensures var row := j.recoveries[id].(status := Running, startedAt := Some(now), attempts := 1, runId := Some(runId));
            JobsInv(j.(recoveries := j.recoveries[id := row]))
  {
  }

  lemma ClaimRequestKeeps(j: Jobs, id: nat, now: int)
    requires JobsInv(j)
    ensures JobsInv(ClaimJobRequest(j, id, now))
    ensures NotOfRecovery(ClaimJobRequest(j, id, now), j.lastRun + 1)
  {
    if CanClaimRequest(j, id) {
      var begun := BeginJob(j, j.requests[id].job, now);
      BeginKeeps(j, j.requests[id].job, now);
      RequestStarts(begun, id, begun.lastRun);
    }
  }

  lemma EnqueueKeeps(j: Jobs, scope: string, slot: int, at: int, expires: int, mark: Fingerprint, call: Option<int>,
                     now: int)
    requires JobsInv(j)
    ensures JobsInv(EnqueueRecovery(j, scope, slot, at, expires, mark, call, now))
  {
    if !HasRecovery(j.recoveries, scope, slot) {
      var after := EnqueueRecovery(j, scope, slot, at, expires, mark, call, now);
      assert forall id | id in j.recoveries :: after.recoveries[id] == j.recoveries[id];
    }
  }

  lemma CancelKeeps(j: Jobs, id: nat, detail: string, now: int)
    requires JobsInv(j)
    ensures JobsInv(CancelRecovery(j, id, detail, now))
  {
  }

  lemma ClaimRecoveryKeeps(j: Jobs, id: nat, now: int)
    requires JobsInv(j)
    ensures JobsInv(ClaimRecovery(j, id, now))
  {
    if CanClaimRecovery(j, id) {
      var begun := BeginJob(j, "trader_recovery", now);
      BeginKeeps(j, "trader_recovery", now);
      RecoveryStarts(begun, id, begun.lastRun, now);
    }
  }

  lemma FinishRecoveryKeeps(j: Jobs, id: nat, code: int, detail: string, now: int)
    requires JobsInv(j)
    ensures JobsInv(FinishRecovery(j, id, code, detail, now))
  {
  }

  function Stopped(status: Status): Status
  {
    if status == Running then Failed else status
  }

  /** Recovery changes no link between rows, and no status but that of what was running. */
  lemma RecoverOnlyStops(j: Jobs, now: int)
    ensures var after := RecoverJobs(j, now);
            && after.lastRun == j.lastRun && after.lastRequest == j.lastRequest && after.lastRecovery == j.lastRecovery
            && after.runs.Keys == j.runs.Keys && after.requests.Keys == j.requests.Keys
            && after.recoveries.Keys == j.recoveries.Keys
            && (forall id | id in j.runs :: after.runs[id].status == Stopped(j.runs[id].status))
            && (forall id | id in j.requests :: var r := j.requests[id]; var r' := after.requests[id];
                  r'.status == Stopped(r.status) && r'.job == r.job && r'.runId == r.runId)
            && (forall id | id in j.recoveries :: var r := j.recoveries[id]; var r' := after.recoveries[id];
                  r'.status == Stopped(r.status) && r'.scope == r.scope && r'.slot == r.slot && r'.runId == r.runId
                  && r'.attempts == r.attempts && r'.scheduledAt == r.scheduledAt && r'.expiresAt == r.expiresAt)
  {
  }

  lemma RecoverKeeps(j: Jobs, now: int)
    requires JobsInv(j)
    ensures JobsInv(RecoverJobs(j, now))
  {
    RecoverOnlyStops(j, now);
    hide RecoverJobs;
    var after := RecoverJobs(j, now);
    assert forall run :: !RunIsRunning(after, run) by { hide JobsInv; }
    hide RunIsRunning;
  }
}
