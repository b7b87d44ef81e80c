/** The journal file as a worker process handles it: load, change a copy, save. */
module VerificationJobs {
  import opened VerificationJournal

  datatype Reply = Existing(id: JobId) | Busy | Created

  class VerificationJobs {
    var saved: Journal

    constructor ()
      ensures saved == map[]
    {
      saved := map[];
    }

    /** The first pass of `_expire` closes lapsed leases. */
    static method CloseLapsed(loaded: Journal, now: int) returns (jobs: Journal)
      ensures jobs.Keys == loaded.Keys
      ensures forall id | id in loaded :: jobs[id] == Lapse(loaded[id], now)
    {
      jobs := loaded;
      var todo := loaded.Keys;
      while todo != {}
        invariant todo <= loaded.Keys && jobs.Keys == loaded.Keys
        invariant forall id | id in loaded :: jobs[id] == if id in todo then loaded[id] else Lapse(loaded[id], now)
        decreases |todo|
      {
        var id :| id in todo;
        if Active(jobs[id]) && now > jobs[id].expiresAt {
          jobs := jobs[id := jobs[id].(status := Completed, ok := false)];
        }
        todo := todo - {id};
      }
    }

    /** The second pass forgets completed jobs after an hour. */
    static method Forget(lapsed: Journal, now: int) returns (jobs: Journal)
      ensures forall id :: id in jobs <==> id in lapsed && (Active(lapsed[id]) || now - lapsed[id].createdAt <= TTL_SECONDS)
      ensures forall id | id in jobs :: jobs[id] == lapsed[id]
    {
      jobs := lapsed;
      var todo := jobs.Keys;
      while todo != {}
        invariant todo <= jobs.Keys <= lapsed.Keys
        invariant forall id | id in lapsed ::
                    id in jobs <==> id in todo || Active(lapsed[id]) || now - lapsed[id].createdAt <= TTL_SECONDS
        invariant forall id | id in jobs :: jobs[id] == lapsed[id]
        decreases |todo|
      {
        var id :| id in todo;
        if jobs[id].status == Completed && now - jobs[id].createdAt > TTL_SECONDS {
          jobs := jobs - {id};
        }
        todo := todo - {id};
      }
    }

    static method ExpireJobs(loaded: Journal, now: int) returns (jobs: Journal)
      ensures jobs == Expire(loaded, now) && Calmer(loaded, jobs)
    {
      var lapsed := CloseLapsed(loaded, now);
      jobs := Forget(lapsed, now);
      assert forall id :: id in jobs <==> id in Expire(loaded, now);
      ExpireIsCalmer(loaded, now);
    }

    /** The completed job that was created first. */
    static method Oldest(jobs: Journal) returns (oldest: JobId)
      requires exists id :: id in jobs && !Active(jobs[id])
      ensures oldest in jobs && !Active(jobs[oldest])
      ensures forall id | id in jobs && !Active(jobs[id]) :: jobs[oldest].createdAt <= jobs[id].createdAt
    {
      oldest :| oldest in jobs && !Active(jobs[oldest]);
      var todo := jobs.Keys;
      while todo != {}
        invariant oldest in jobs && !Active(jobs[oldest])
        invariant forall id | id in jobs && id !in todo && !Active(jobs[id]) ::
                    jobs[oldest].createdAt <= jobs[id].createdAt
        decreases |todo|
      {
        var id :| id in todo;
        if id in jobs && jobs[id].status == Completed && jobs[id].createdAt < jobs[oldest].createdAt {
          oldest := id;
        }
        todo := todo - {id};
      }
    }

    /** Drops the oldest completed job of a full journal. */
    static method MakeRoom(jobs: Journal) returns (room: Journal, ghost evicted: set<JobId>)
      requires |jobs| <= CAPACITY && |ActiveIds(jobs)| < MAX_RUNNING
      ensures IsOldest(jobs, evicted) && room == jobs - evicted
    {
      room, evicted := jobs, {};
      if |jobs| >= CAPACITY {
        SomeCompleted(jobs);
        var oldest := Oldest(jobs);
        room, evicted := jobs - {oldest}, {oldest};
      }
    }

    /** `start` up to the submission of the worker. */
    method Start(fingerprint: Fingerprint, mode: Mode, now: int, lease: nat, newId: JobId) returns (reply: Reply)
      requires Bounded(saved) && newId !in saved
      modifies this
      ensures Bounded(saved)
      ensures reply != Created ==> saved == old(saved)
      ensures var jobs := Expire(old(saved), now);
              match reply
              case Existing(id) =>
                id in jobs && Active(jobs[id]) && jobs[id].fingerprint == fingerprint && jobs[id].mode == mode
              case Busy => !HasActive(jobs, fingerprint, mode) && |ActiveIds(jobs)| >= MAX_RUNNING
              case Created =>
                && CanAdmit(jobs, fingerprint, mode)
                && exists evicted :: IsOldest(jobs, evicted)
                     && saved == Admit(jobs, evicted, newId, Job(fingerprint, mode, Queued, false, now, now + lease))
    {
      var jobs := ExpireJobs(saved, now);
      CalmerIsBounded(saved, jobs);
      hide Expire, IsOldest;
      if HasActive(jobs, fingerprint, mode) {
        var id :| id in jobs && jobs[id].fingerprint == fingerprint && jobs[id].mode == mode && Active(jobs[id]);
        return Existing(id);
      }
      if |ActiveIds(jobs)| >= MAX_RUNNING { return Busy; }
      ghost var expired := jobs;
      ghost var evicted;
      jobs, evicted := MakeRoom(jobs);
      var job := Job(fingerprint, mode, Queued, false, now, now + lease);
      AdmitIsBounded(expired, evicted, newId, job);
      hide Bounded, HasActive, ActiveIds;
      saved := jobs[newId := job];
      assert saved == Admit(expired, evicted, newId, job);
      return Created;
    }

    /** The first transaction of a worker. */
    method Begin(id: JobId, now: int) returns (begun: bool)
      modifies this
      ensures begun == MayBegin(Expire(old(saved), now), id)
      ensures saved == if begun then WithStatus(Expire(old(saved), now), id, Running, false) else old(saved)
      ensures Bounded(old(saved)) ==> Bounded(saved)
    {
      hide Expire;
      var jobs := ExpireJobs(saved, now);
      if id !in jobs || jobs[id].status != Queued { return false; }
      ghost var before := saved;
      jobs := jobs[id := jobs[id].(status := Running, ok := false)];
      assert Calmer(before, jobs);
      if Bounded(before) { CalmerIsBounded(before, jobs); }
      saved := jobs;
      return true;
    }

    /** The last transaction of a worker; `ok` and `recorded` are what the probe and the receipt came to. */
    method Publish(id: JobId, ok: bool, recorded: bool, now: int) returns (published: bool)
      modifies this
      ensures published == MayPublish(Expire(old(saved), now), id)
      ensures saved == if published then WithStatus(Expire(old(saved), now), id, Completed, ok && recorded)
                       else Expire(old(saved), now)
      ensures Bounded(old(saved)) ==> Bounded(saved)
    {
      hide Expire;
      var jobs := ExpireJobs(saved, now);
      ghost var before := saved;
      published := id in jobs && jobs[id].status == Running;
      if published {
        jobs := jobs[id := jobs[id].(status := Completed, ok := ok && recorded)];
      }
      assert Calmer(before, jobs);
      if Bounded(before) { CalmerIsBounded(before, jobs); }
      saved := jobs;
    }
  }

  /** A full journal with at most one active job has a completed one. */
  lemma SomeCompleted(jobs: Journal)
    requires |jobs| >= CAPACITY && |ActiveIds(jobs)| < MAX_RUNNING
    ensures exists id :: id in jobs && !Active(jobs[id])
  {
    if forall id | id in jobs :: Active(jobs[id]) {
      SubsetSize(jobs.Keys, ActiveIds(jobs));
    }
  }
}
