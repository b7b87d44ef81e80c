/**
 The lease protocol of `okxquant_backend/llm_transport_verification.py`: capability probes as jobs in a
 shared journal, admitted, started and published by worker threads of any number of processes, any of
 which may die between two transactions.
 */
module VerificationJournal {
  type JobId = string

  /** What a probe is about; the source stores a digest of the connection. */
  type Fingerprint(==, !new) = seq<string>

  datatype Mode = Stream | Json

  datatype Status = Queued | Running | Completed

  datatype Job = Job(fingerprint: Fingerprint, mode: Mode, status: Status, ok: bool, createdAt: int, expiresAt: int)

  type Journal = map<JobId, Job>

  const MAX_RUNNING: nat := 2
  const TTL_SECONDS: int := 3600
  const CAPACITY: nat := 256

  predicate Active(job: Job)
  {
    job.status != Completed
  }

  // ---------------------------------------------------------------------------------------------
  // Transactions
  // ---------------------------------------------------------------------------------------------

  /** Closing a job whose lease is over. */
  function Lapse(job: Job, now: int): Job
  {
    if Active(job) && now > job.expiresAt then job.(status := Completed, ok := false) else job
  }

  /** `_expire`: lapsed leases are closed, then completed jobs are forgotten after an hour. */
  function Expire(jobs: Journal, now: int): Journal
  {
    map id | id in jobs && (Active(Lapse(jobs[id], now)) || now - jobs[id].createdAt <= TTL_SECONDS) :: Lapse(jobs[id], now)
  }

  function ActiveIds(jobs: Journal): set<JobId>
  {
    set id | id in jobs && Active(jobs[id])
  }

  predicate HasActive(jobs: Journal, fingerprint: Fingerprint, mode: Mode)
  {
    exists id | id in jobs :: jobs[id].fingerprint == fingerprint && jobs[id].mode == mode && Active(jobs[id])
  }

  /** The oldest completed jobs, as many as it takes to get below the capacity. */
  predicate IsOldest(jobs: Journal, evicted: set<JobId>)
  {
    && |evicted| == (if |jobs| >= CAPACITY then |jobs| - (CAPACITY - 1) else 0)
    && (forall id | id in evicted :: id in jobs && !Active(jobs[id]))
    && (forall a, b | a in evicted && b in jobs && b !in evicted && !Active(jobs[b]) ::
          jobs[a].createdAt <= jobs[b].createdAt)
  }

  /** A job for this connection and mode is admitted. */
  predicate CanAdmit(jobs: Journal, fingerprint: Fingerprint, mode: Mode)
  {
    !HasActive(jobs, fingerprint, mode) && |ActiveIds(jobs)| < MAX_RUNNING
  }

  function Admit(jobs: Journal, evicted: set<JobId>, id: JobId, job: Job): Journal
  {
    (jobs - evicted)[id := job]
  }

  predicate MayBegin(jobs: Journal, id: JobId)
  {
    id in jobs && jobs[id].status == Queued
  }

  predicate MayPublish(jobs: Journal, id: JobId)
  {
    id in jobs && jobs[id].status == Running
  }

  function WithStatus(jobs: Journal, id: JobId, status: Status, ok: bool): Journal
  {
    if id in jobs then jobs[id := jobs[id].(status := status, ok := ok)] else jobs
  }

  // ---------------------------------------------------------------------------------------------
  // The machine
  // ---------------------------------------------------------------------------------------------

  datatype Entry =
    | Admitted(id: JobId, fingerprint: Fingerprint, mode: Mode, at: int, expiresAt: int)
    | Receipt(id: JobId, at: int)

  datatype Task = Submitted | Probing

  /** `tasks` are the worker threads by job, `log` what was admitted and which receipts were written. */
  datatype World = World(jobs: Journal, clock: int, used: set<JobId>, tasks: map<JobId, Task>, log: seq<Entry>)

  datatype Step =
    | Later(clock: int)
    | Start(fingerprint: Fingerprint, mode: Mode, lease: nat, id: JobId, evicted: set<JobId>, submitted: bool)
    | NotStarted(id: JobId)              // submitting the worker failed
    | Begin(id: JobId)
    | Publish(id: JobId, ok: bool, recorded: bool)  // not recorded when the connection has changed
    | PublishAndDie(id: JobId)           // killed between the receipt and the journal
    | Die(killed: set<JobId>)

  const START := World(map[], 0, {}, map[], [])

  predicate Enabled(w: World, step: Step)
  {
    match step
    case Later(clock) => w.clock <= clock
    case Start(fingerprint, mode, lease, id, evicted, _) =>
      var jobs := Expire(w.jobs, w.clock);
      id !in w.used && 40 <= lease <= 210 && CanAdmit(jobs, fingerprint, mode) && IsOldest(jobs, evicted)
    case NotStarted(id) => id in w.used && id !in w.tasks
    case Begin(id) => id in w.tasks && w.tasks[id] == Submitted
    case Publish(id, _, _) => id in w.tasks && w.tasks[id] == Probing
    case PublishAndDie(id) => id in w.tasks && w.tasks[id] == Probing && MayPublish(Expire(w.jobs, w.clock), id)
    case Die(_) => true
  }

  /** The journal after a step. */
  function JobsAfter(w: World, step: Step): Journal
  {
    var jobs := Expire(w.jobs, w.clock);
    match step
    case Start(fingerprint, mode, lease, id, evicted, _) =>
      Admit(jobs, evicted, id, Job(fingerprint, mode, Queued, false, w.clock, w.clock + lease))
    case NotStarted(id) => WithStatus(w.jobs, id, Completed, false)
    case Begin(id) => if MayBegin(jobs, id) then WithStatus(jobs, id, Running, false) else w.jobs
    case Publish(id, ok, recorded) =>
      if MayPublish(jobs, id) then WithStatus(jobs, id, Completed, ok && recorded) else jobs
    case _ => w.jobs
  }

  function Next(w: World, step: Step): World
    requires Enabled(w, step)
  {
    var expired := Expire(w.jobs, w.clock);
    var after := w.(jobs := JobsAfter(w, step));
    match step
    case Later(clock) => after.(clock := clock)
    case Start(fingerprint, mode, lease, id, _, submitted) =>
      after.(used := w.used + {id}, tasks := if submitted then w.tasks[id := Submitted] else w.tasks,
             log := w.log + [Admitted(id, fingerprint, mode, w.clock, w.clock + lease)])
    case NotStarted(_) => after
    case Begin(id) => after.(tasks := if MayBegin(expired, id) then w.tasks[id := Probing] else w.tasks - {id})
    case Publish(id, _, recorded) =>
      after.(tasks := w.tasks - {id},
             log := if recorded && MayPublish(expired, id) then w.log + [Receipt(id, w.clock)] else w.log)
    case PublishAndDie(id) => after.(tasks := w.tasks - {id}, log := w.log + [Receipt(id, w.clock)])
    case Die(killed) => after.(tasks := w.tasks - killed)
  }

  ghost predicate Reaches(w: World, steps: seq<Step>, w': World)
    decreases |steps|
  {
    if steps == [] then w' == w
    else Enabled(w, steps[0]) && Reaches(Next(w, steps[0]), steps[1..], w')
  }

  // ---------------------------------------------------------------------------------------------
  // The invariant
  // ---------------------------------------------------------------------------------------------

  ghost predicate OneActivePerKey(jobs: Journal)
  {
    forall a, b | a in jobs && b in jobs && a != b && Active(jobs[a]) && Active(jobs[b]) ::
      jobs[a].fingerprint != jobs[b].fingerprint || jobs[a].mode != jobs[b].mode
  }

  ghost predicate Bounded(jobs: Journal)
  {
    |ActiveIds(jobs)| <= MAX_RUNNING && |jobs| <= CAPACITY && OneActivePerKey(jobs)
  }

  predicate IsAdmission(entry: Entry, id: JobId, job: Job)
  {
    entry.Admitted? && entry.id == id && entry.fingerprint == job.fingerprint && entry.mode == job.mode
    && entry.expiresAt == job.expiresAt
  }

  predicate SameKey(entry: Entry, job: Job)
  {
    entry.Admitted? && entry.fingerprint == job.fingerprint && entry.mode == job.mode
  }

  /** Entry `i` admitted the job, which while active is the newest for its key. */
  ghost predicate AdmittedAt(log: seq<Entry>, i: nat, id: JobId, job: Job)
    requires i < |log|
  {
    IsAdmission(log[i], id, job) && (Active(job) ==> forall k | i < k < |log| :: !SameKey(log[k], job))
  }

  /** The job's admission is in the log. */
  ghost predicate Logged(log: seq<Entry>, id: JobId, job: Job)
  {
    exists i | 0 <= i < |log| :: AdmittedAt(log, i, id, job)
  }

  ghost predicate JobsLogged(w: World)
  {
    forall id | id in w.jobs :: id in w.used && Logged(w.log, id, w.jobs[id])
  }

  /** The receipt at `r` is the job's only one, within its lease and before a newer job for the same key. */
  predicate ReceiptOk(log: seq<Entry>, r: nat)
    requires r < |log| && log[r].Receipt?
  {
    exists i | 0 <= i < r :: Admission(log, i, r) && UndisturbedFrom(log, i, r)
  }

  predicate Admission(log: seq<Entry>, i: nat, r: nat)
    requires i < r < |log| && log[r].Receipt?
  {
    log[i].Admitted? && log[i].id == log[r].id && log[i].at <= log[r].at <= log[i].expiresAt
  }

  predicate UndisturbedFrom(log: seq<Entry>, i: nat, r: nat)
    requires i < r < |log| && log[r].Receipt? && log[i].Admitted?
  {
    forall k | 0 <= k < r ::
      match log[k]
      case Receipt(id, _) => id != log[r].id
      case Admitted(_, fingerprint, mode, _, _) => k > i ==> fingerprint != log[i].fingerprint || mode != log[i].mode
  }

  ghost predicate ReceiptsOk(log: seq<Entry>)
  {
    forall r | 0 <= r < |log| && log[r].Receipt? :: ReceiptOk(log, r)
  }

  predicate NoReceipt(log: seq<Entry>, id: JobId)
  {
    forall k | 0 <= k < |log| :: log[k].Receipt? ==> log[k].id != id
  }

  ghost predicate TasksOk(w: World)
  {
    && (forall id | id in w.tasks :: id in w.used && NoReceipt(w.log, id))
    && (forall k | 0 <= k < |w.log| :: w.log[k].id in w.used && w.log[k].at <= w.clock)
  }

  ghost predicate Inv(w: World)
  {
    Bounded(w.jobs) && JobsLogged(w) && ReceiptsOk(w.log) && TasksOk(w)
  }

  // ---------------------------------------------------------------------------------------------
  // Bounds
  // ---------------------------------------------------------------------------------------------

  lemma {:induction false} SubsetSize<T>(a: set<T>, b: set<T>)
    requires a <= b
    ensures |a| <= |b|
    decreases b
  {
    if a != b {
      var x :| x in b && x !in a;
      SubsetSize(a, b - {x});
    }
  }

  /** No job becomes active and none is added. */
  predicate Calmer(jobs: Journal, after: Journal)
  {
    forall id | id in after :: id in jobs
      && after[id] == jobs[id].(status := after[id].status, ok := after[id].ok) && (Active(after[id]) ==> Active(jobs[id]))
  }

  lemma CalmerIsBounded(jobs: Journal, after: Journal)
    requires Bounded(jobs) && Calmer(jobs, after)
    ensures Bounded(after)
  {
    SubsetSize(ActiveIds(after), ActiveIds(jobs));
    SubsetSize(after.Keys, jobs.Keys);
  }

  lemma ExpireIsCalmer(jobs: Journal, now: int)
    ensures Calmer(jobs, Expire(jobs, now))
  {
  }

  lemma SizeWithout<V>(m: map<JobId, V>, gone: set<JobId>)
    requires gone <= m.Keys
    ensures |m - gone| == |m| - |gone|
  {
    assert (m - gone).Keys == m.Keys - gone;
  }

  lemma SizeWith<V>(m: map<JobId, V>, id: JobId, v: V)
    ensures |m[id := v]| <= |m| + 1
  {
    assert m[id := v].Keys == m.Keys + {id};
  }

  lemma AdmitFits(jobs: Journal, evicted: set<JobId>, id: JobId, job: Job)
    requires |jobs| <= CAPACITY && IsOldest(jobs, evicted)
    ensures |Admit(jobs, evicted, id, job)| <= CAPACITY
  {
    assert evicted <= jobs.Keys && (|jobs| == CAPACITY ==> |evicted| == 1);
    hide IsOldest;
    SizeWithout(jobs, evicted);
    SizeWith(jobs - evicted, id, job);
  }

  lemma AdmitOneMore(jobs: Journal, evicted: set<JobId>, id: JobId, job: Job)
    ensures |ActiveIds(Admit(jobs, evicted, id, job))| <= |ActiveIds(jobs)| + 1
  {
    SubsetSize(ActiveIds(Admit(jobs, evicted, id, job)), ActiveIds(jobs) + {id});
  }

  lemma AdmitIsBounded(jobs: Journal, evicted: set<JobId>, id: JobId, job: Job)
    requires Bounded(jobs) && CanAdmit(jobs, job.fingerprint, job.mode) && IsOldest(jobs, evicted) && id !in jobs
    ensures Bounded(Admit(jobs, evicted, id, job))
  {
    hide IsOldest, ActiveIds;
    AdmitFits(jobs, evicted, id, job);
    AdmitOneMore(jobs, evicted, id, job);
  }

  // ---------------------------------------------------------------------------------------------
  // The log
  // ---------------------------------------------------------------------------------------------

  lemma LoggedStays(log: seq<Entry>, id: JobId, job: Job, after: Job)
    requires Logged(log, id, job) && after == job.(status := after.status, ok := after.ok)
    requires Active(after) ==> Active(job)
    ensures Logged(log, id, after)
  {
    var i :| 0 <= i < |log| && AdmittedAt(log, i, id, job);
    assert AdmittedAt(log, i, id, after);
  }

  lemma LoggedGrows(log: seq<Entry>, entry: Entry, id: JobId, job: Job)
    requires Logged(log, id, job) && (Active(job) ==> !SameKey(entry, job))
    ensures Logged(log + [entry], id, job)
  {
    var i :| 0 <= i < |log| && AdmittedAt(log, i, id, job);
    assert AdmittedAt(log + [entry], i, id, job);
  }

  lemma JobsStayLogged(w: World, after: Journal)
    requires JobsLogged(w) && Calmer(w.jobs, after)
    ensures JobsLogged(w.(jobs := after))
  {
    forall id | id in after ensures id in w.used && Logged(w.log, id, after[id]) {
      LoggedStays(w.log, id, w.jobs[id], after[id]);
    }
  }

  lemma ReceiptsStay(log: seq<Entry>, entry: Entry)
    requires ReceiptsOk(log) && (entry.Receipt? ==> ReceiptOk(log + [entry], |log|))
    ensures ReceiptsOk(log + [entry])
  {
    var more := log + [entry];
    forall r | 0 <= r < |more| && more[r].Receipt? ensures ReceiptOk(more, r) {
      if r < |log| {
        assert ReceiptOk(log, r);
        var i :| 0 <= i < r && Admission(log, i, r) && UndisturbedFrom(log, i, r);
        assert Admission(more, i, r) && UndisturbedFrom(more, i, r);
      }
    }
  }

  /** A running job whose lease still holds may write its receipt. */
  lemma ReceiptAllowed(w: World, id: JobId)
    requires Inv(w) && id in w.tasks && MayPublish(Expire(w.jobs, w.clock), id)
    ensures ReceiptOk(w.log + [Receipt(id, w.clock)], |w.log|)
  {
    var more, job := w.log + [Receipt(id, w.clock)], w.jobs[id];
    assert Logged(w.log, id, job) && NoReceipt(w.log, id);
    var i :| 0 <= i < |w.log| && AdmittedAt(w.log, i, id, job);
    assert Admission(more, i, |w.log|);
    assert UndisturbedFrom(more, i, |w.log|);
  }

  // ---------------------------------------------------------------------------------------------
  // Every step keeps the invariant
  // ---------------------------------------------------------------------------------------------

  lemma KeepsCalmer(w: World, after: Journal)
    requires Inv(w) && Calmer(w.jobs, after)
    ensures Inv(w.(jobs := after))
  {
    CalmerIsBounded(w.jobs, after);
    JobsStayLogged(w, after);
    hide Bounded, JobsLogged, ReceiptsOk;
  }

  lemma KeepsReceipt(w: World, id: JobId)
    requires Inv(w) && id in w.tasks && MayPublish(Expire(w.jobs, w.clock), id)
    ensures Inv(w.(tasks := w.tasks - {id}, log := w.log + [Receipt(id, w.clock)]))
  {
    ReceiptAllowed(w, id);
    ReceiptsStay(w.log, Receipt(id, w.clock));
    hide Bounded, ReceiptsOk, ReceiptOk, Expire;
    assert JobsLogged(w.(log := w.log + [Receipt(id, w.clock)])) by {
      hide TasksOk, Logged;
      forall other | other in w.jobs ensures Logged(w.log + [Receipt(id, w.clock)], other, w.jobs[other]) {
        LoggedGrows(w.log, Receipt(id, w.clock), other, w.jobs[other]);
      }
    }
    hide Logged;
  }

  lemma AdmitIsLogged(w: World, jobs: Journal, evicted: set<JobId>, id: JobId, job: Job, at: int)
    requires JobsLogged(w.(jobs := jobs)) && !HasActive(jobs, job.fingerprint, job.mode)
    ensures var entry := Admitted(id, job.fingerprint, job.mode, at, job.expiresAt);
            JobsLogged(w.(jobs := Admit(jobs, evicted, id, job), used := w.used + {id}, log := w.log + [entry]))
  {
    var entry := Admitted(id, job.fingerprint, job.mode, at, job.expiresAt);
    var more := w.log + [entry];
    assert AdmittedAt(more, |w.log|, id, job);
    assert Logged(more, id, job);
    hide Logged;
    forall other | other in jobs ensures Logged(more, other, jobs[other]) {
      LoggedGrows(w.log, entry, other, jobs[other]);
    }
  }

  lemma UsedCovers(w: World)
    requires Inv(w)
    ensures w.jobs.Keys <= w.used
  {
    hide Bounded, ReceiptsOk, TasksOk, Logged;
  }

  /** A fresh job joins a journal whose lapsed leases are closed. */
  lemma AdmitKeeps(w: World, jobs: Journal, evicted: set<JobId>, id: JobId, job: Job, submitted: bool)
    requires Inv(w) && Calmer(w.jobs, jobs) && id !in w.used
    requires CanAdmit(jobs, job.fingerprint, job.mode) && IsOldest(jobs, evicted)
    ensures Inv(w.(jobs := Admit(jobs, evicted, id, job), used := w.used + {id},
                   tasks := if submitted then w.tasks[id := Submitted] else w.tasks,
                   log := w.log + [Admitted(id, job.fingerprint, job.mode, w.clock, job.expiresAt)]))
  {
    KeepsCalmer(w, jobs);
    UsedCovers(w);
    hide Bounded, ReceiptsOk, JobsLogged, IsOldest, TasksOk, Admit, HasActive;
    var entry := Admitted(id, job.fingerprint, job.mode, w.clock, job.expiresAt);
    AdmitIsBounded(jobs, evicted, id, job);
    AdmitIsLogged(w, jobs, evicted, id, job, w.clock);
    ReceiptsStay(w.log, entry);
    TasksStay(w, id, entry);
    var placed := Admit(jobs, evicted, id, job);
    SameLog(w.(jobs := placed, used := w.used + {id}, log := w.log + [entry]),
            if submitted then w.tasks[id := Submitted] else w.tasks);
    SameTasks(w.(used := w.used + {id}, tasks := if submitted then w.tasks[id := Submitted] else w.tasks,
                 log := w.log + [entry]), placed);
  }

  lemma SameLog(w: World, tasks: map<JobId, Task>)
    requires JobsLogged(w)
    ensures JobsLogged(w.(tasks := tasks))
  {
    hide Logged;
  }

  lemma SameTasks(w: World, jobs: Journal)
    requires TasksOk(w)
    ensures TasksOk(w.(jobs := jobs))
  {
    hide NoReceipt;
  }

  lemma KeepsStart(w: World, step: Step)
    requires Inv(w) && Enabled(w, step) && step.Start?
    ensures Inv(Next(w, step))
  {
    var jobs := Expire(w.jobs, w.clock);
    ExpireIsCalmer(w.jobs, w.clock);
    hide Inv, IsOldest, CanAdmit, Expire, Admit;
    var job := Job(step.fingerprint, step.mode, Queued, false, w.clock, w.clock + step.lease);
    AdmitKeeps(w, jobs, step.evicted, step.id, job, step.submitted);
  }

  /** A new identity joins without a receipt. */
  lemma TasksStay(w: World, id: JobId, entry: Entry)
    requires TasksOk(w) && id !in w.used && entry.Admitted? && entry.id == id && entry.at == w.clock
    ensures TasksOk(w.(used := w.used + {id}, tasks := w.tasks[id := Submitted], log := w.log + [entry]))
    ensures TasksOk(w.(used := w.used + {id}, log := w.log + [entry]))
  {
  }

  lemma KeepsTasks(w: World, tasks: map<JobId, Task>)
    requires Inv(w) && tasks.Keys <= w.tasks.Keys
    ensures Inv(w.(tasks := tasks))
  {
    hide Bounded, ReceiptsOk, NoReceipt;
  }

  lemma StepKeepsInv(w: World, step: Step)
    requires Inv(w) && Enabled(w, step)
    ensures Inv(Next(w, step))
  {
    var jobs := Expire(w.jobs, w.clock);
    ExpireIsCalmer(w.jobs, w.clock);
    hide Inv, Expire;
    match step
    case Later(clock) => LaterKeeps(w, clock);
    case Start(_, _, _, _, _, _) => KeepsStart(w, step);
    case NotStarted(id) => KeepsCalmer(w, WithStatus(w.jobs, id, Completed, false));
    case Begin(id) =>
      if MayBegin(jobs, id) {
        KeepsCalmer(w, WithStatus(jobs, id, Running, false));
        KeepsTasks(w.(jobs := WithStatus(jobs, id, Running, false)), w.tasks[id := Probing]);
      } else {
        KeepsTasks(w, w.tasks - {id});
      }
    case Publish(id, ok, recorded) =>
      if MayPublish(jobs, id) {
        if recorded { KeepsReceipt(w, id); } else { KeepsTasks(w, w.tasks - {id}); }
        KeepsCalmer(w.(tasks := w.tasks - {id}, log := Next(w, step).log), WithStatus(jobs, id, Completed, ok && recorded));
      } else {
        KeepsTasks(w, w.tasks - {id});
        KeepsCalmer(w.(tasks := w.tasks - {id}), jobs);
      }
    case PublishAndDie(id) => KeepsReceipt(w, id);
    case Die(killed) => KeepsTasks(w, w.tasks - killed);
  }

  lemma LaterKeeps(w: World, clock: int)
    requires Inv(w) && w.clock <= clock
    ensures Inv(w.(clock := clock))
  {
    hide Bounded, ReceiptsOk, NoReceipt, Logged;
  }

  lemma {:induction false} RunKeepsInv(w: World, steps: seq<Step>, w': World)
    requires Inv(w) && Reaches(w, steps, w')
    ensures Inv(w')
    decreases |steps|
  {
    hide Inv, Next;
    if steps != [] {
      StepKeepsInv(w, steps[0]);
      RunKeepsInv(Next(w, steps[0]), steps[1..], w');
    }
  }

  lemma StartIsOk()
    ensures Inv(START)
  {
    assert ActiveIds(map[]) == {};
  }

  /** At most two probes are active, one per connection and mode, in a journal of at most 256 jobs. */
  lemma JournalIsBounded(steps: seq<Step>, w: World)
    requires Reaches(START, steps, w)
    ensures |ActiveIds(w.jobs)| <= 2 && |w.jobs| <= 256 && OneActivePerKey(w.jobs)
  {
    StartIsOk();
    RunKeepsInv(START, steps, w);
  }

  /** No job writes a second receipt, or one after a newer job for its key, and the lease of each held at the
      clock reading of the transaction that published it. */
  lemma ReceiptsAreTimely(steps: seq<Step>, w: World, r: nat)
    requires Reaches(START, steps, w) && r < |w.log| && w.log[r].Receipt?
    ensures ReceiptOk(w.log, r)
  {
    StartIsOk();
    RunKeepsInv(START, steps, w);
  }

  // ---------------------------------------------------------------------------------------------
  // Status only moves forward
  // ---------------------------------------------------------------------------------------------

  function Rank(status: Status): nat
  {
    match status case Queued => 0 case Running => 1 case Completed => 2
  }

  /** Jobs keep their key and lease, and their status never goes back; none comes back once forgotten. */
  ghost predicate OnlyForward(w: World, w': World)
  {
    && w.used <= w'.used && w.jobs.Keys <= w.used
    && forall id | id in w'.jobs ::
         if id in w.jobs then
           && Rank(w.jobs[id].status) <= Rank(w'.jobs[id].status)
           && w'.jobs[id] == w.jobs[id].(status := w'.jobs[id].status, ok := w'.jobs[id].ok)
         else id !in w.used
  }

  predicate Forward(jobs: Journal, after: Journal)
  {
    forall id | id in after :: id in jobs && Rank(jobs[id].status) <= Rank(after[id].status)
      && after[id] == jobs[id].(status := after[id].status, ok := after[id].ok)
  }

  /** Expiring, and then at most moving one job on. */
  lemma ExpireAndMove(jobs: Journal, now: int, id: JobId, status: Status, ok: bool)
    ensures Forward(jobs, Expire(jobs, now))
    ensures var expired := Expire(jobs, now);
            (id in expired ==> Rank(expired[id].status) <= Rank(status)) ==> Forward(jobs, WithStatus(expired, id, status, ok))
    ensures status == Completed ==> Forward(jobs, WithStatus(jobs, id, status, ok))
  {
  }

  lemma SameUsed(w: World, w': World)
    requires w.jobs.Keys <= w.used && w'.used == w.used && Forward(w.jobs, w'.jobs)
    ensures OnlyForward(w, w')
  {
  }

  lemma StartMovesForward(w: World, step: Step)
    requires w.jobs.Keys <= w.used && Enabled(w, step) && step.Start?
    ensures OnlyForward(w, Next(w, step))
  {
    hide IsOldest, CanAdmit;
    ExpireAndMove(w.jobs, w.clock, step.id, Completed, false);
    hide Expire;
  }

  lemma NoMove(jobs: Journal)
    ensures Forward(jobs, jobs)
  {
  }

  lemma JobsMoveForward(w: World, step: Step)
    requires !step.Start?
    ensures Forward(w.jobs, JobsAfter(w, step))
  {
    NoMove(w.jobs);
    hide Expire, WithStatus, Forward;
    if step.Begin? {
      ExpireAndMove(w.jobs, w.clock, step.id, Running, false);
    } else if step.NotStarted? {
      ExpireAndMove(w.jobs, w.clock, step.id, Completed, false);
    } else if step.Publish? {
      ExpireAndMove(w.jobs, w.clock, step.id, Completed, step.ok && step.recorded);
    }
  }

  lemma StepMovesForward(w: World, step: Step)
    requires Inv(w) && Enabled(w, step)
    ensures OnlyForward(w, Next(w, step))
  {
    UsedCovers(w);
    if step.Start? {
      StartMovesForward(w, step);
    } else {
      JobsMoveForward(w, step);
      hide Inv, JobsAfter, OnlyForward, Forward;
      SameUsed(w, Next(w, step));
    }
  }

  lemma {:induction false} StatusNeverGoesBack(w: World, steps: seq<Step>, w': World)
    requires Inv(w) && Reaches(w, steps, w')
    ensures OnlyForward(w, w')
    decreases |steps|
  {
    UsedCovers(w);
    hide Inv, Next;
    if steps != [] {
      StepKeepsInv(w, steps[0]);
      StepMovesForward(w, steps[0]);
      StatusNeverGoesBack(Next(w, steps[0]), steps[1..], w');
    }
  }
}
