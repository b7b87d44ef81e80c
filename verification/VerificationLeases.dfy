/**
 When a probe is admitted, begun and published. The leases that are open are read off the steps of a run
 alone; the guards of the journal's transactions are proved to be decided by them and the clock.
 */
module VerificationLeases {
  import opened VerificationJournal

  /** A probe that was admitted and did not end; it counts until its time is over. */
  datatype Lease = Lease(fingerprint: Fingerprint, mode: Mode, until: int, begun: bool)

  type Leases = map<JobId, Lease>

  predicate Holds(leases: Leases, id: JobId, now: int)
  {
    id in leases && now <= leases[id].until
  }

  /** The leases after a step. */
  function LeasesNext(w: World, step: Step, leases: Leases): Leases
  {
    match step
    case Start(fingerprint, mode, lease, id, _, _) => leases[id := Lease(fingerprint, mode, w.clock + lease, false)]
    case NotStarted(id) => leases - {id}
    case Begin(id) => if Holds(leases, id, w.clock) then leases[id := leases[id].(begun := true)] else leases
    case Publish(id, _, _) => if Holds(leases, id, w.clock) && leases[id].begun then leases - {id} else leases
    case _ => leases
  }

  ghost function LeasesAfter(w: World, steps: seq<Step>, w': World, leases: Leases): Leases
    requires Reaches(w, steps, w')
    decreases |steps|
  {
    if steps == [] then leases else LeasesAfter(Next(w, steps[0]), steps[1..], w', LeasesNext(w, steps[0], leases))
  }

  /** What the journal says of a probe whose lease holds. */
  predicate Matches(job: Job, lease: Lease)
  {
    && job.fingerprint == lease.fingerprint && job.mode == lease.mode && job.expiresAt == lease.until
    && job.status == if lease.begun then Running else Queued
  }

  ghost predicate LeasesOk(jobs: Journal, clock: int, leases: Leases)
  {
    && (forall id | Holds(leases, id, clock) :: id in jobs && Matches(jobs[id], leases[id]))
    && (forall id | id in jobs && Active(jobs[id]) && clock <= jobs[id].expiresAt :: Holds(leases, id, clock))
  }

  // ---------------------------------------------------------------------------------------------
  // The leases follow the journal
  // ---------------------------------------------------------------------------------------------

  lemma ExpireKeepsLeases(jobs: Journal, clock: int, leases: Leases)
    requires LeasesOk(jobs, clock, leases)
    ensures LeasesOk(Expire(jobs, clock), clock, leases)
    ensures ActiveIds(Expire(jobs, clock)) == set id | id in leases && Holds(leases, id, clock)
  {
  }

  lemma AdmitKeepsLeases(jobs: Journal, clock: int, leases: Leases, evicted: set<JobId>, id: JobId, job: Job)
    requires LeasesOk(jobs, clock, leases) && forall gone | gone in evicted :: gone in jobs && !Active(jobs[gone])
    requires job.status == Queued && clock <= job.expiresAt
    ensures LeasesOk(Admit(jobs, evicted, id, job), clock,
                     leases[id := Lease(job.fingerprint, job.mode, job.expiresAt, false)])
  {
  }

  lemma StatusKeepsLeases(jobs: Journal, clock: int, leases: Leases, id: JobId, ok: bool)
    requires LeasesOk(jobs, clock, leases)
    ensures LeasesOk(WithStatus(jobs, id, Completed, ok), clock, leases - {id})
    ensures Holds(leases, id, clock) ==>
              LeasesOk(WithStatus(jobs, id, Running, ok), clock, leases[id := leases[id].(begun := true)])
  {
  }

  /** In a journal whose lapsed leases are closed the status of a probe shows its lease. */
  lemma GuardsAreLeases(jobs: Journal, clock: int, leases: Leases, id: JobId)
    requires LeasesOk(jobs, clock, leases)
    ensures MayBegin(Expire(jobs, clock), id) <==> Holds(leases, id, clock) && !leases[id].begun
    ensures MayPublish(Expire(jobs, clock), id) <==> Holds(leases, id, clock) && leases[id].begun
  {
  }

  /** A task that has not begun belongs to a probe that has not begun, and one that probes to one that has. */
  ghost predicate TasksMatch(w: World, leases: Leases)
  {
    forall id | id in w.tasks && id in leases :: leases[id].begun <==> w.tasks[id] == Probing
  }

  ghost predicate Sound(w: World, leases: Leases)
  {
    Inv(w) && LeasesOk(w.jobs, w.clock, leases) && TasksMatch(w, leases) && leases.Keys <= w.used
  }

  lemma StartKeepsLeases(w: World, step: Step, leases: Leases)
    requires LeasesOk(w.jobs, w.clock, leases) && Enabled(w, step) && step.Start?
    ensures LeasesOk(JobsAfter(w, step), w.clock, LeasesNext(w, step, leases))
  {
    ExpireKeepsLeases(w.jobs, w.clock, leases);
    hide Expire, LeasesOk, CanAdmit, Admit;
    AdmitKeepsLeases(Expire(w.jobs, w.clock), w.clock, leases, step.evicted, step.id,
                     Job(step.fingerprint, step.mode, Queued, false, w.clock, w.clock + step.lease));
  }

  lemma WorkerKeepsLeases(w: World, step: Step, leases: Leases)
    requires LeasesOk(w.jobs, w.clock, leases) && TasksMatch(w, leases) && Enabled(w, step) && (step.Begin? || step.Publish?)
    ensures LeasesOk(JobsAfter(w, step), w.clock, LeasesNext(w, step, leases))
  {
    var jobs := Expire(w.jobs, w.clock);
    ExpireKeepsLeases(w.jobs, w.clock, leases);
    GuardsAreLeases(w.jobs, w.clock, leases, step.id);
    hide Expire, LeasesOk, WithStatus, MayBegin, MayPublish;
    StatusKeepsLeases(jobs, w.clock, leases, step.id, step.Publish? && step.ok && step.recorded);
  }

  lemma JobsKeepLeases(w: World, step: Step, leases: Leases)
    requires LeasesOk(w.jobs, w.clock, leases) && TasksMatch(w, leases) && Enabled(w, step) && !step.Later?
    ensures LeasesOk(JobsAfter(w, step), w.clock, LeasesNext(w, step, leases))
  {
    if step.Start? {
      StartKeepsLeases(w, step, leases);
    } else if step.Begin? || step.Publish? {
      WorkerKeepsLeases(w, step, leases);
    } else if step.NotStarted? {
      StatusKeepsLeases(w.jobs, w.clock, leases, step.id, false);
    }
    hide Expire, LeasesOk, WithStatus, Enabled, TasksMatch;
  }

  lemma TasksKeepMatching(w: World, step: Step, leases: Leases)
    requires LeasesOk(w.jobs, w.clock, leases) && TasksMatch(w, leases) && leases.Keys <= w.used && Enabled(w, step)
    requires w.tasks.Keys <= w.used
    ensures TasksMatch(Next(w, step), LeasesNext(w, step, leases))
    ensures LeasesNext(w, step, leases).Keys <= Next(w, step).used
  {
    if step.Begin? || step.Publish? { GuardsAreLeases(w.jobs, w.clock, leases, step.id); }
    hide JobsAfter, Expire, LeasesOk, IsOldest, CanAdmit, MayBegin, MayPublish;
  }

  lemma StepKeepsLeases(w: World, step: Step, leases: Leases)
    requires Sound(w, leases) && Enabled(w, step)
    ensures Sound(Next(w, step), LeasesNext(w, step, leases))
  {
    StepKeepsInv(w, step);
    assert w.tasks.Keys <= w.used by { hide Bounded, JobsLogged, ReceiptsOk, NoReceipt; }
    TasksKeepMatching(w, step, leases);
    if step.Later? {
      assert LeasesOk(w.jobs, step.clock, leases);
    } else {
      JobsKeepLeases(w, step, leases);
    }
    hide Inv, JobsAfter, LeasesNext, LeasesOk, TasksMatch, Enabled;
  }

  lemma {:induction false} RunKeepsLeases(w: World, steps: seq<Step>, w': World, leases: Leases)
    requires Sound(w, leases) && Reaches(w, steps, w')
    ensures Sound(w', LeasesAfter(w, steps, w', leases))
    decreases |steps|
  {
    hide Sound, Next, LeasesNext;
    if steps != [] {
      StepKeepsLeases(w, steps[0], leases);
      RunKeepsLeases(Next(w, steps[0]), steps[1..], w', LeasesNext(w, steps[0], leases));
    }
  }

  ghost function LeasesOf(steps: seq<Step>, w: World): Leases
    requires Reaches(START, steps, w)
  {
    LeasesAfter(START, steps, w, map[])
  }

  lemma LeasesAreSound(steps: seq<Step>, w: World)
    requires Reaches(START, steps, w)
    ensures Sound(w, LeasesOf(steps, w))
  {
    StartIsOk();
    RunKeepsLeases(START, steps, w, map[]);
  }

  // ---------------------------------------------------------------------------------------------
  // Room can always be made
  // ---------------------------------------------------------------------------------------------

  lemma {:induction false} OldestExists(jobs: Journal, among: set<JobId>) returns (oldest: JobId)
    requires among != {} && among <= jobs.Keys
    ensures oldest in among && forall id | id in among :: jobs[oldest].createdAt <= jobs[id].createdAt
    decreases |among|
  {
    oldest :| oldest in among;
    if among != {oldest} {
      var other := OldestExists(jobs, among - {oldest});
      if jobs[other].createdAt < jobs[oldest].createdAt { oldest := other; }
    }
  }

  lemma RoomExists(jobs: Journal) returns (evicted: set<JobId>)
    requires |jobs| <= CAPACITY && |ActiveIds(jobs)| < CAPACITY
    ensures IsOldest(jobs, evicted)
  {
    evicted := {};
    if |jobs| == CAPACITY {
      var completed := jobs.Keys - ActiveIds(jobs);
      if completed == {} {
        assert forall id | id in jobs.Keys :: id in ActiveIds(jobs) || id in completed;
        SubsetSize(jobs.Keys, ActiveIds(jobs));
      }
      var oldest := OldestExists(jobs, completed);
      evicted := {oldest};
    }
  }

  // ---------------------------------------------------------------------------------------------
  // What follows for every run
  // ---------------------------------------------------------------------------------------------

  /** The probes whose leases hold. */
  function Held(leases: Leases, now: int): set<JobId>
  {
    set id | id in leases && Holds(leases, id, now)
  }

  ghost predicate Admissible(w: World, fingerprint: Fingerprint, mode: Mode, lease: nat, id: JobId)
  {
    exists evicted, submitted :: Enabled(w, Start(fingerprint, mode, lease, id, evicted, submitted))
  }

  /**
   In every reachable world a probe is admitted, under a new id and for 40 to 210 seconds, exactly if no
   lease of its connection and mode holds and at most one other lease does.
   */
  lemma AdmittedExactly(steps: seq<Step>, w: World, fingerprint: Fingerprint, mode: Mode, lease: nat, id: JobId)
    requires Reaches(START, steps, w)
    ensures var leases := LeasesOf(steps, w);
            Admissible(w, fingerprint, mode, lease, id) <==>
              && id !in w.used && 40 <= lease <= 210 && |Held(leases, w.clock)| <= 1
              && forall other | other in Held(leases, w.clock) ::
                   leases[other].fingerprint != fingerprint || leases[other].mode != mode
  {
    LeasesAreSound(steps, w);
    var leases, jobs := LeasesOf(steps, w), Expire(w.jobs, w.clock);
    assert Bounded(w.jobs);
    hide Inv, LeasesOf, LeasesAfter;
    ExpireKeepsLeases(w.jobs, w.clock, leases);
    AdmitsExactly(w, jobs, leases, fingerprint, mode);
    ExpireIsCalmer(w.jobs, w.clock);
    CalmerIsBounded(w.jobs, jobs);
    var evicted := RoomExists(jobs);
    hide Expire, IsOldest, Bounded, LeasesOk, CanAdmit, Held;
    if CanAdmit(jobs, fingerprint, mode) && id !in w.used && 40 <= lease <= 210 {
      assert Enabled(w, Start(fingerprint, mode, lease, id, evicted, true));
    }
  }

  lemma AdmitsExactly(w: World, jobs: Journal, leases: Leases, fingerprint: Fingerprint, mode: Mode)
    requires LeasesOk(jobs, w.clock, leases) && ActiveIds(jobs) == Held(leases, w.clock)
    ensures CanAdmit(jobs, fingerprint, mode) <==>
              && |Held(leases, w.clock)| <= 1
              && forall other | other in Held(leases, w.clock) ::
                   leases[other].fingerprint != fingerprint || leases[other].mode != mode
  {
    assert forall other :: other in ActiveIds(jobs) <==> other in Held(leases, w.clock);
    if HasActive(jobs, fingerprint, mode) {
      var other :| other in jobs && jobs[other].fingerprint == fingerprint && jobs[other].mode == mode && Active(jobs[other]);
      assert other in ActiveIds(jobs);
    }
  }

  /**
   A worker begins its probe exactly while the lease holds, and then the journal shows it running;
   otherwise it gives up.
   */
  lemma BeginsExactly(steps: seq<Step>, w: World, id: JobId)
    requires Reaches(START, steps, w) && Enabled(w, Begin(id))
    ensures var leases, next := LeasesOf(steps, w), Next(w, Begin(id));
            if Holds(leases, id, w.clock) then
              id in next.tasks && next.tasks[id] == Probing && id in next.jobs && next.jobs[id].status == Running
            else id !in next.tasks && next.jobs == w.jobs
  {
    LeasesAreSound(steps, w);
    var leases := LeasesOf(steps, w);
    GuardsAreLeases(w.jobs, w.clock, leases, id);
    hide Inv, Expire, LeasesOk, LeasesAfter, LeasesOf;
  }

  /**
   The result of a probe counts exactly while its lease holds: the receipt is written if the connection
   is still the one that was probed, and the job is completed as good only then and if the probe was.
   */
  lemma PublishesExactly(steps: seq<Step>, w: World, id: JobId, ok: bool, recorded: bool)
    requires Reaches(START, steps, w) && Enabled(w, Publish(id, ok, recorded))
    ensures var leases, next := LeasesOf(steps, w), Next(w, Publish(id, ok, recorded));
            && id !in next.tasks
            && if Holds(leases, id, w.clock) then
                 && id in next.jobs && next.jobs[id].status == Completed && next.jobs[id].ok == (ok && recorded)
                 && next.log == if recorded then w.log + [Receipt(id, w.clock)] else w.log
               else next.log == w.log && (id in next.jobs ==> next.jobs[id].status == Completed)
  {
    LeasesAreSound(steps, w);
    var leases := LeasesOf(steps, w);
    GuardsAreLeases(w.jobs, w.clock, leases, id);
    ExpireKeepsLeases(w.jobs, w.clock, leases);
    hide Inv, Expire, LeasesAfter, LeasesOf;
  }

  /** A read at time `at` shows exactly the jobs whose lease holds and the others for an hour from their creation. */
  lemma ShownExactly(steps: seq<Step>, w: World, id: JobId, at: int)
    requires Reaches(START, steps, w) && id in w.jobs && w.clock <= at
    ensures var leases := LeasesOf(steps, w);
            && (id in Expire(w.jobs, at) <==> Holds(leases, id, at) || at <= w.jobs[id].createdAt + 3600)
            && (id in Expire(w.jobs, at) ==> (Expire(w.jobs, at)[id].status != Completed <==> Holds(leases, id, at)))
  {
    LeasesAreSound(steps, w);
    hide Inv, LeasesAfter, LeasesOf;
  }
}
