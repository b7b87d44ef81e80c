/**
 The scheduler object of `okxquant_gateway/scheduler.py` with all its jobs: `tick` and `_execute` on the
 mutable `running` map and the stored `job.last` keys, tied job by job to the machine of JobSchedule.
 */
module JobScheduler {
  import opened Options
  import opened JobSchedule

  class JobScheduler {
    /** `job.last.<name>` in the store. */
    var last: map<string, nat>
    var running: map<string, Task>
    /** The started processes, and the time of the tick that queued each job last. */
    var starts: map<string, seq<Start>>
    var ticked: map<string, nat>

    constructor (last: map<string, nat>, starts: map<string, seq<Start>>, ticked: map<string, nat>)
      ensures this.last == last && running == map[] && this.starts == starts && this.ticked == ticked
    {
      this.last, running, this.starts, this.ticked := last, map[], starts, ticked;
    }

    function LastOf(name: string): Option<nat>
      reads this
    {
      if name in last then Some(last[name]) else None
    }

    /** What the machine of one job sees of this object at the given time. */
    function View(spec: JobSpec, clock: nat): World
      reads this
    {
      World(spec, clock, if spec.name in ticked then ticked[spec.name] else 0, LastOf(spec.name),
            Up(if spec.name in running then Some(running[spec.name]) else None),
            if spec.name in starts then starts[spec.name] else [])
    }

    /** The first half of a tick: futures that are done leave the map. */
    method ReapDone()
      modifies this`running
      ensures forall name :: name in running <==> name in old(running) && old(running)[name] != Finished
      ensures forall name | name in running :: running[name] == old(running)[name]
    {
      var todo := running.Keys;
      while todo != {}
        invariant todo <= running.Keys <= old(running).Keys
        invariant forall name | name in old(running) :: name in running <==> name in todo || old(running)[name] != Finished
        invariant forall name | name in running :: running[name] == old(running)[name]
        decreases |todo|
      {
        var name :| name in todo;
        if running[name] == Finished { running := running - {name}; }
        todo := todo - {name};
      }
    }

    /** The same in terms of what each job sees. */
    method ReapAll(clock: nat)
      modifies this`running
      ensures forall spec: JobSpec :: View(spec, clock) == Reaped(old(View(spec, clock)))
    {
      ReapDone();
    }

    /** One job of a tick: queued if nothing keeps it back and it is due. */
    method Consider(spec: JobSpec, now: nat, clock: nat, times: seq<ClockTime>, held: bool)
      modifies this`running, this`ticked
      ensures View(spec, clock) == AfterLook(old(View(spec, clock)), now, times, held)
      ensures forall other: JobSpec | other.name != spec.name :: View(other, clock) == old(View(other, clock))
    {
      hide Due;
      if spec.name !in running && !held && Due(spec, now, times, LastOf(spec.name)) {
        running := running[spec.name := Queued(now, clock)];
        ticked := ticked[spec.name := now];
      }
    }

    /**
     One tick over the configured jobs: a job is queued exactly if its key is free, nothing holds it back
     (a pause after an error, a recovery under its key, the review window) and it is due; no job is
     touched by another.
     */
    method Tick(jobs: seq<JobSpec>, now: nat, clock: nat, times: string -> seq<ClockTime>, held: set<string>)
      requires forall i, j | 0 <= i < j < |jobs| :: jobs[i].name != jobs[j].name
      modifies this`running, this`ticked
      ensures forall i | 0 <= i < |jobs| ::
                View(jobs[i], clock) == AfterTick(old(View(jobs[i], clock)), now, times(jobs[i].name), jobs[i].name in held)
      ensures forall spec: JobSpec | spec.name !in Names(jobs) :: View(spec, clock) == Reaped(old(View(spec, clock)))
    {
      hide AfterLook, Reaped, View;
      ReapAll(clock);
      for n := 0 to |jobs|
        invariant forall i | n <= i < |jobs| :: View(jobs[i], clock) == Reaped(old(View(jobs[i], clock)))
        invariant forall i | 0 <= i < n ::
                    View(jobs[i], clock) == AfterTick(old(View(jobs[i], clock)), now, times(jobs[i].name), jobs[i].name in held)
        invariant forall spec: JobSpec | spec.name !in Names(jobs) :: View(spec, clock) == Reaped(old(View(spec, clock)))
      {
        assert jobs[n].name in Names(jobs);
        Consider(jobs[n], now, clock, times(jobs[n].name), jobs[n].name in held);
      }
    }

    /**
     `_execute` and `_run_job` of a queued job up to the start of its process: the clock is read, the job
     judged again, its record written, and taken back if the process cannot be spawned.
     */
    method Execute(spec: JobSpec, at: nat, clock: nat, times: seq<ClockTime>, active: bool, spawns: bool)
      requires spec.name in running && running[spec.name].Queued? && running[spec.name].since <= at <= clock
      modifies this
      ensures Executed(old(View(spec, clock)), at, times, active, spawns, View(spec, clock))
      ensures forall name | name != spec.name ::
                && (name in running <==> name in old(running)) && (name in running ==> running[name] == old(running)[name])
                && (name in last <==> name in old(last)) && (name in last ==> last[name] == old(last)[name])
    {
      hide Due;
      var task := running[spec.name];
      var previous := LastOf(spec.name);
      if !active || !Due(spec, EligibleAt(spec, task.scheduledAt, at), times, previous) {
        running := running[spec.name := Finished];
        return;
      }
      last := last[spec.name := at];
      if spawns {
        var before := if spec.name in starts then starts[spec.name] else [];
        starts := starts[spec.name := before + [Start(task.scheduledAt, at, times, previous)]];
        running := running[spec.name := Running];
      } else {
        last := if previous.Some? then last[spec.name := previous.value] else last - {spec.name};
        running := running[spec.name := Finished];
      }
    }
  }

  function Names(jobs: seq<JobSpec>): set<string>
  {
    set i | 0 <= i < |jobs| :: jobs[i].name
  }

  function Reaped(w: World): World
  {
    if w.worker == Up(Some(Finished)) then w.(worker := Up(None)) else w
  }

  function AfterLook(w: World, now: nat, times: seq<ClockTime>, held: bool): World
  {
    if w.worker == Up(None) && !held && Due(w.spec, now, times, w.last)
    then w.(worker := Up(Some(Queued(now, w.clock))), tick := now)
    else w
  }

  /** The machine's steps of one tick: reap a finished future, then queue the job if it is due. */
  function AfterTick(w: World, now: nat, times: seq<ClockTime>, held: bool): World
  {
    AfterLook(Reaped(w), now, times, held)
  }

  /** The machine's steps of one execution. */
  ghost predicate Executed(w: World, at: nat, times: seq<ClockTime>, active: bool, spawns: bool, w': World)
  {
    && Enabled(w, Check(at, times, active))
    && var checked := Next(w, Check(at, times, active));
       if checked.worker.task.value.Checked?
       then w' == Next(Next(checked, Stamp), if spawns then Spawn else SpawnFails)
       else w' == checked
  }

  /** A tick of the object is at most two steps of the machine. */
  lemma TickIsSteps(w: World, now: nat, times: seq<ClockTime>, held: bool) returns (steps: seq<Step>)
    requires w.worker.Up? && w.tick <= now <= w.clock
    ensures Reaches(w, steps, AfterTick(w, now, times, held)) && |steps| <= 2
  {
    hide Due;
    var reaped, after := Reaped(w), AfterTick(w, now, times, held);
    var queue := if after == reaped then [] else [JobSchedule.Tick(now, times)];
    assert Reaches(reaped, queue, after) by {
      if queue != [] { assert queue[1..] == []; }
    }
    if reaped == w {
      steps := queue;
    } else {
      steps := [Reap] + queue;
      assert steps[1..] == queue;
    }
  }
}
