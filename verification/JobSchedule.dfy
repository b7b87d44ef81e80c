/**
 When scheduled jobs start: `due`, `_execute`, `_run_job` and the launching part of `tick` in
 `okxquant_gateway/scheduler.py`, over every run with queue delays, restarts, exceptions and failed
 spawns. The machine follows one job; jobs share no state that decides whether they are due.
 */
module JobSchedule {
  import opened Options

  const MICROS: nat := 1_000_000

  /** A configured time: its text, and its minute of the day when it parses. */
  datatype ClockTime = ClockTime(text: string, minute: Option<nat>)

  datatype JobSpec = JobSpec(name: string, interval: nat, phase: Option<nat>)

  /** Whole seconds since the epoch. */
  function Epoch(t: nat): nat
  {
    t / MICROS
  }

  /** Minutes on the clock of UTC+8; the day and the time of day follow from it. */
  function Minute(t: nat): nat
  {
    (Epoch(t) + 8 * 3600) / 60
  }

  function Digits(n: nat): string
    requires n < 100
  {
    ['0' + (n / 10) as char, '0' + (n % 10) as char]
  }

  /** `now.strftime("%H:%M")` */
  function HourMinute(t: nat): string
  {
    var minute := Minute(t) % 1440;
    Digits(minute / 60) + ":" + Digits(minute % 60)
  }

  function Slot(t: nat, interval: nat): int
    requires interval > 0
  {
    Epoch(t) / interval
  }

  function ShiftedSlot(t: nat, interval: nat, phase: nat): int
    requires interval > 0
  {
    (Epoch(t) - phase) / interval
  }

  /** The instant of a configured time on the day of `now`, if it is not later than `now`. */
  function PassedToday(time: ClockTime, now: nat): Option<int>
  {
    if time.minute.None? then None
    else
      var at := ((Minute(now) / 1440 * 1440 + time.minute.value) * 60 - 8 * 3600) * MICROS;
      if at <= now then Some(at) else None
  }

  /** Some configured time lies after `last` and not after `now`. */
  predicate ReviewDue(times: seq<ClockTime>, now: nat, last: Option<nat>)
  {
    exists i | 0 <= i < |times| :: PassedToday(times[i], now).Some? &&
      (last.None? || last.value < PassedToday(times[i], now).value)
  }

  predicate Due(spec: JobSpec, now: nat, times: seq<ClockTime>, last: Option<nat>)
  {
    if spec.interval > 0 then
      if spec.name == "trader" then
        var lastSlot := if last.Some? then Slot(last.value, spec.interval) else -1;
        Slot(now, spec.interval) > lastSlot && Epoch(now) % spec.interval < 10
      else if spec.phase.Some? then
        var lastSlot := if last.Some? then ShiftedSlot(last.value, spec.interval, spec.phase.value) else -1;
        && ShiftedSlot(now, spec.interval, spec.phase.value) > lastSlot
        && (Epoch(now) - spec.phase.value) % spec.interval < 10
      else last.None? || now - last.value >= spec.interval * MICROS
    else if spec.name == "self_improvement" then ReviewDue(times, now, last)
    else
      && (exists i | 0 <= i < |times| :: times[i].text == HourMinute(now))
      && (last.None? || Minute(last.value) != Minute(now))
  }

  // ---------------------------------------------------------------------------------------------
  // The machine
  // ---------------------------------------------------------------------------------------------

  /** `since` is when the tick submitted the job, `at` the clock read by `_execute`. */
  datatype Task =
    | Queued(scheduledAt: nat, since: nat)
    | Checked(scheduledAt: nat, at: nat, times: seq<ClockTime>, previous: Option<nat>)  // found due
    | Stamped(scheduledAt: nat, at: nat, times: seq<ClockTime>, previous: Option<nat>)  // `job.last` written
    | Running
    | Finished                                                                          // future done, not reaped

  /** One started process and what its start was decided on. */
  datatype Start = Start(scheduledAt: nat, at: nat, times: seq<ClockTime>, previous: Option<nat>)

  datatype Worker = Down | Up(task: Option<Task>)

  /** `last` is the stored `job.last`, `tick` the time of the latest tick. */
  datatype World = World(spec: JobSpec, clock: nat, tick: nat, last: Option<nat>, worker: Worker, starts: seq<Start>)

  datatype Step =
    | Later(clock: nat)
    | Boot(now: nat, listed: bool)   // `initialize_migration_baseline` for the enabled jobs
    | Tick(now: nat, times: seq<ClockTime>)
    | Check(at: nat, times: seq<ClockTime>, active: bool)
    | Stamp | Spawn | SpawnFails
    | Raise                          // a store call failed: the future ends
    | End | Reap | Crash

  function First(spec: JobSpec): World
  {
    World(spec, 0, 0, None, Down, [])
  }

  predicate Has(w: World)
  {
    w.worker.Up? && w.worker.task.Some?
  }

  predicate Enabled(w: World, step: Step)
  {
    match step
    case Later(clock) => w.clock <= clock
    case Boot(now, _) => w.worker == Down && now <= w.clock
    case Tick(now, times) => w.worker == Up(None) && w.tick <= now <= w.clock && Due(w.spec, now, times, w.last)
    case Check(at, _, _) => Has(w) && w.worker.task.value.Queued? && w.worker.task.value.since <= at <= w.clock
    case Stamp => Has(w) && w.worker.task.value.Checked?
    case Spawn => Has(w) && w.worker.task.value.Stamped?
    case SpawnFails => Has(w) && w.worker.task.value.Stamped?
    case Raise => Has(w)
    case End => Has(w) && w.worker.task.value.Running?
    case Reap => Has(w) && w.worker.task.value.Finished?
    case Crash => true
  }

  function With(w: World, task: Task): World
  {
    w.(worker := Up(Some(task)))
  }

  /** The trader is judged by the time it runs, every other job by the tick that queued it. */
  function EligibleAt(spec: JobSpec, scheduledAt: nat, at: nat): nat
  {
    if spec.name == "trader" then at else scheduledAt
  }

  function Next(w: World, step: Step): World
    requires Enabled(w, step)
  {
    match step
    case Later(clock) => w.(clock := clock)
    case Boot(now, listed) => w.(worker := Up(None), last := if listed && w.last.None? then Some(now) else w.last)
    case Tick(now, _) => With(w, Queued(now, w.clock)).(tick := now)
    case Check(at, times, active) =>
      var task := w.worker.task.value;
      if active && Due(w.spec, EligibleAt(w.spec, task.scheduledAt, at), times, w.last)
      then With(w, Checked(task.scheduledAt, at, times, w.last))
      else With(w, Finished)
    case Stamp =>
      var task := w.worker.task.value;
      With(w, Stamped(task.scheduledAt, task.at, task.times, task.previous)).(last := Some(task.at))
    case Spawn =>
      var task := w.worker.task.value;
      With(w, Running).(starts := w.starts + [Start(task.scheduledAt, task.at, task.times, task.previous)])
    case SpawnFails => With(w, Finished).(last := w.worker.task.value.previous)
    case Raise => With(w, Finished)
    case End => With(w, Finished)
    case Reap => w.(worker := Up(None))
    case Crash => w.(worker := Down)
  }

  ghost predicate Reaches(w: World, steps: seq<Step>, w': World)
    decreases |steps|
  {
    if steps == [] then w' == w
    else Enabled(w, steps[0]) && Reaches(Next(w, steps[0]), steps[1..], w')
  }

  // ---------------------------------------------------------------------------------------------
  // The invariant
  // ---------------------------------------------------------------------------------------------

  /** The recorded time covers every start so far. */
  predicate Covers(last: Option<nat>, starts: seq<Start>)
  {
    forall i | 0 <= i < |starts| :: last.Some? && starts[i].at <= last.value
  }

  /** The start was due on a record that covers the starts before it. */
  predicate StartOk(spec: JobSpec, starts: seq<Start>, i: nat)
    requires i < |starts|
  {
    && starts[i].scheduledAt <= starts[i].at
    && Due(spec, EligibleAt(spec, starts[i].scheduledAt, starts[i].at), starts[i].times, starts[i].previous)
    && Covers(starts[i].previous, starts[..i])
  }

  predicate StartsOk(spec: JobSpec, starts: seq<Start>)
  {
    forall i | 0 <= i < |starts| :: StartOk(spec, starts, i)
  }

  predicate NotAfter(last: Option<nat>, t: nat)
  {
    last.Some? ==> last.value <= t
  }

  predicate TaskOk(w: World, task: Task)
  {
    match task
    case Queued(s, since) => s == w.tick && s <= since <= w.clock && NotAfter(w.last, since)
    case Checked(s, at, times, previous) =>
      && s == w.tick && s <= at <= w.clock && NotAfter(previous, at) && w.last == previous
      && Due(w.spec, EligibleAt(w.spec, s, at), times, previous)
    case Stamped(s, at, times, previous) =>
      && s == w.tick && s <= at <= w.clock && NotAfter(previous, at) && w.last == Some(at)
      && Due(w.spec, EligibleAt(w.spec, s, at), times, previous) && Covers(previous, w.starts)
    case _ => true
  }

  predicate Inv(w: World)
  {
    && StartsOk(w.spec, w.starts) && Covers(w.last, w.starts) && NotAfter(w.last, w.clock) && w.tick <= w.clock
    && (Has(w) ==> TaskOk(w, w.worker.task.value))
  }

  lemma StepKeepsInv(w: World, step: Step)
    requires Inv(w) && Enabled(w, step)
    ensures Inv(Next(w, step))
  {
    hide Due;
    match step
    case Spawn =>
      var task := w.worker.task.value;
      StartAppended(w, task, Start(task.scheduledAt, task.at, task.times, task.previous));
    case _ =>
  }

  lemma StartAppended(w: World, task: Task, start: Start)
    requires StartsOk(w.spec, w.starts) && task.Stamped? && TaskOk(w, task)
    requires start == Start(task.scheduledAt, task.at, task.times, task.previous)
    ensures StartsOk(w.spec, w.starts + [start])
  {
    hide Due;
    var after := w.starts + [start];
    forall i | 0 <= i < |after| ensures StartOk(w.spec, after, i) {
      assert after[..i] == w.starts[..i];
      if i < |w.starts| { assert StartOk(w.spec, w.starts, i); }
      else { assert w.starts[..i] == w.starts; }
    }
  }

  lemma {:induction false} RunKeepsInv(w: World, steps: seq<Step>, w': World)
    requires Inv(w) && Reaches(w, steps, w')
    ensures Inv(w') && w'.spec == w.spec
    decreases |steps|
  {
    hide Inv;
    if steps != [] {
      StepKeepsInv(w, steps[0]);
      RunKeepsInv(Next(w, steps[0]), steps[1..], w');
    }
  }

  /** Of two starts the later one was due on a record not older than the earlier one. */
  lemma LaterStart(spec: JobSpec, steps: seq<Step>, w: World, i: nat, j: nat)
    requires Reaches(First(spec), steps, w) && i < j < |w.starts|
    ensures var a := w.starts[i]; var b := w.starts[j];
            && a.scheduledAt <= a.at && b.scheduledAt <= b.at
            && b.previous.Some? && a.at <= b.previous.value
            && Due(spec, EligibleAt(spec, b.scheduledAt, b.at), b.times, b.previous)
  {
    RunKeepsInv(First(spec), steps, w);
    assert StartOk(spec, w.starts, i) && StartOk(spec, w.starts, j);
    assert w.starts[..j][i] == w.starts[i];
  }

  // ---------------------------------------------------------------------------------------------
  // How often each kind of job starts
  // ---------------------------------------------------------------------------------------------

  lemma DivisionGrows(x: int, y: int, n: nat)
    requires x <= y && n > 0
    ensures x / n <= y / n
  {
    var q := x / n - y / n;
    assert q * n == (x - x % n) - (y - y % n) < n;
    assert q >= 1 ==> q * n >= n;
  }

  /** At most one trader process starts from the schedule in each slot of its interval. */
  lemma TraderOncePerSlot(spec: JobSpec, steps: seq<Step>, w: World, i: nat, j: nat)
    requires spec.name == "trader" && spec.interval > 0
    requires Reaches(First(spec), steps, w) && i < j < |w.starts|
    ensures Slot(w.starts[i].at, spec.interval) < Slot(w.starts[j].at, spec.interval)
    ensures Epoch(w.starts[j].at) % spec.interval < 10
  {
    LaterStart(spec, steps, w, i, j);
    DivisionGrows(w.starts[i].at, w.starts[j].previous.value, MICROS);
    DivisionGrows(Epoch(w.starts[i].at), Epoch(w.starts[j].previous.value), spec.interval);
  }

  /** At most one process of a phased job starts in each shifted slot, however late: the slot in which an
      earlier start was executed lies before the slot for which a later one is queued. */
  lemma PhasedOncePerSlot(spec: JobSpec, steps: seq<Step>, w: World, i: nat, j: nat)
    requires spec.name != "trader" && spec.interval > 0 && spec.phase.Some?
    requires Reaches(First(spec), steps, w) && i < j < |w.starts|
    ensures ShiftedSlot(w.starts[i].scheduledAt, spec.interval, spec.phase.value)
            <= ShiftedSlot(w.starts[i].at, spec.interval, spec.phase.value)
            < ShiftedSlot(w.starts[j].scheduledAt, spec.interval, spec.phase.value)
            <= ShiftedSlot(w.starts[j].at, spec.interval, spec.phase.value)
  {
    LaterStart(spec, steps, w, i, j);
    ShiftedSlotsGrow(spec, w.starts[i].scheduledAt, w.starts[i].at);
    ShiftedSlotsGrow(spec, w.starts[i].at, w.starts[j].previous.value);
    ShiftedSlotsGrow(spec, w.starts[j].scheduledAt, w.starts[j].at);
  }

  lemma ShiftedSlotsGrow(spec: JobSpec, a: nat, b: nat)
    requires spec.interval > 0 && spec.phase.Some? && a <= b
    ensures ShiftedSlot(a, spec.interval, spec.phase.value) <= ShiftedSlot(b, spec.interval, spec.phase.value)
  {
    DivisionGrows(a, b, MICROS);
    DivisionGrows(Epoch(a) - spec.phase.value, Epoch(b) - spec.phase.value, spec.interval);
  }

  /** Starts of a plain interval job are at least the interval apart. */
  lemma IntervalKept(spec: JobSpec, steps: seq<Step>, w: World, i: nat, j: nat)
    requires spec.name != "trader" && spec.interval > 0 && spec.phase.None?
    requires Reaches(First(spec), steps, w) && i < j < |w.starts|
    ensures w.starts[i].at + spec.interval * MICROS <= w.starts[j].at
  {
    LaterStart(spec, steps, w, i, j);
  }

  /** Between two starts of the scheduled review lies one of its configured times. */
  lemma ReviewOncePerTime(spec: JobSpec, steps: seq<Step>, w: World, i: nat, j: nat)
    requires spec.name == "self_improvement" && spec.interval == 0
    requires Reaches(First(spec), steps, w) && i < j < |w.starts|
    ensures exists k | 0 <= k < |w.starts[j].times| ::
              var slot := PassedToday(w.starts[j].times[k], w.starts[j].scheduledAt);
              slot.Some? && w.starts[i].at < slot.value <= w.starts[j].scheduledAt
  {
    LaterStart(spec, steps, w, i, j);
    var s := w.starts[j];
    var k :| 0 <= k < |s.times| && PassedToday(s.times[k], s.scheduledAt).Some? &&
             s.previous.value < PassedToday(s.times[k], s.scheduledAt).value;
    assert PassedToday(s.times[k], s.scheduledAt).value <= s.scheduledAt;
  }

  // ---------------------------------------------------------------------------------------------
  // Daily jobs: once per configured minute, unless the queue carries a start past its minute
  // ---------------------------------------------------------------------------------------------

  predicate Daily(spec: JobSpec)
  {
    spec.interval == 0 && spec.name != "self_improvement" && spec.name != "trader"
  }

  lemma MinutesGrow(a: nat, b: nat)
    requires a <= b
    ensures Minute(a) <= Minute(b)
  {
    DivisionGrows(a, b, MICROS);
    DivisionGrows(Epoch(a) + 8 * 3600, Epoch(b) + 8 * 3600, 60);
  }

  /** The job was executed in the minute it was queued for. */
  predicate Punctual(s: Start)
  {
    Minute(s.at) == Minute(s.scheduledAt)
  }

  /** Once the record has left the minute of a punctual start, so has the tick. */
  predicate MovedOn(last: Option<nat>, tick: nat, s: Start)
  {
    && s.scheduledAt <= tick
    && (Punctual(s) ==> last.Some? && (Minute(last.value) == Minute(s.at) || Minute(tick) > Minute(s.at)))
  }

  predicate AllMovedOn(last: Option<nat>, tick: nat, starts: seq<Start>)
  {
    forall i | 0 <= i < |starts| :: MovedOn(last, tick, starts[i])
  }

  predicate OncePerMinute(starts: seq<Start>)
  {
    forall i, j | 0 <= i < j < |starts| ::
      Punctual(starts[i]) ==> Minute(starts[i].scheduledAt) < Minute(starts[j].scheduledAt)
  }

  predicate DailyInv(w: World)
  {
    && AllMovedOn(w.last, w.tick, w.starts) && OncePerMinute(w.starts)
    && (Has(w) && w.worker.task.value.Stamped? ==>
          AllMovedOn(w.worker.task.value.previous, w.tick, w.starts))
  }

  /** A daily job found due has left the minute of every punctual start. */
  lemma DueMeansLater(w: World, tick: nat, at: nat, times: seq<ClockTime>, previous: Option<nat>, s: Start)
    requires Daily(w.spec) && Due(w.spec, tick, times, previous) && tick <= at && MovedOn(previous, tick, s)
    requires Punctual(s)
    ensures Minute(s.at) < Minute(tick) <= Minute(at) && MovedOn(Some(at), tick, s)
  {
    hide Minute, HourMinute;
    MinutesGrow(s.scheduledAt, tick);
    MinutesGrow(tick, at);
  }

  lemma StepKeepsDaily(w: World, step: Step)
    requires Inv(w) && Daily(w.spec) && DailyInv(w) && Enabled(w, step)
    ensures DailyInv(Next(w, step))
  {
    hide Due, Minute, StartOk;
    match step
    case Tick(now, _) => MinutesGrow(w.tick, now);
    case Stamp =>
      var task := w.worker.task.value;
      forall i | 0 <= i < |w.starts| ensures MovedOn(Some(task.at), w.tick, w.starts[i]) {
        if Punctual(w.starts[i]) { DueMeansLater(w, w.tick, task.at, task.times, task.previous, w.starts[i]); }
      }
    case Spawn =>
      var task := w.worker.task.value;
      forall i | 0 <= i < |w.starts| && Punctual(w.starts[i])
        ensures Minute(w.starts[i].scheduledAt) < Minute(task.scheduledAt)
      {
        DueMeansLater(w, w.tick, task.at, task.times, task.previous, w.starts[i]);
      }
    case _ =>
  }

  lemma {:induction false} RunKeepsDaily(w: World, steps: seq<Step>, w': World)
    requires Inv(w) && Daily(w.spec) && DailyInv(w) && Reaches(w, steps, w')
    ensures DailyInv(w')
    decreases |steps|
  {
    hide Inv, DailyInv, Daily;
    if steps != [] {
      StepKeepsInv(w, steps[0]);
      StepKeepsDaily(w, steps[0]);
      RunKeepsDaily(Next(w, steps[0]), steps[1..], w');
    }
  }

  /** A daily job starts twice for one configured minute only if the first start was executed in a later minute. */
  lemma DailyRepeatsOnlyWhenLate(spec: JobSpec, steps: seq<Step>, w: World, i: nat, j: nat)
    requires Daily(spec) && Reaches(First(spec), steps, w) && i < j < |w.starts|
    requires Minute(w.starts[i].scheduledAt) == Minute(w.starts[j].scheduledAt)
    ensures Minute(w.starts[i].at) > Minute(w.starts[i].scheduledAt)
  {
    RunKeepsInv(First(spec), steps, w);
    RunKeepsDaily(First(spec), steps, w);
    assert StartOk(spec, w.starts, i);
    hide Minute;
    MinutesGrow(w.starts[i].scheduledAt, w.starts[i].at);
  }

  lemma {:induction false} OneMore(w0: World, steps: seq<Step>, w: World, step: Step)
    requires Reaches(w0, steps, w) && Enabled(w, step)
    ensures Reaches(w0, steps + [step], Next(w, step))
    decreases |steps|
  {
    hide Enabled, Next;
    var more := steps + [step];
    if steps == [] {
      assert more[1..] == [];
    } else {
      assert more[1..] == steps[1..] + [step];
      OneMore(Next(w0, steps[0]), steps[1..], w, step);
    }
  }

  lemma StartsOnce(w0: World, steps: seq<Step>, w: World, now: nat, at: nat, times: seq<ClockTime>)
    returns (more: seq<Step>, w': World)
    requires Reaches(w0, steps, w) && w.worker == Up(None) && w.tick <= now <= w.clock && w.clock == at
    requires Daily(w.spec) && Due(w.spec, now, times, w.last)
    ensures Reaches(w0, more, w') && w'.worker == Up(Some(Running)) && w'.clock == w.clock && w'.tick == now
    ensures w'.last == Some(at) && w'.starts == w.starts + [Start(now, at, times, w.last)] && w'.spec == w.spec
  {
    hide Due;
    OneMore(w0, steps, w, Tick(now, times));
    var w1 := Next(w, Tick(now, times));
    OneMore(w0, steps + [Tick(now, times)], w1, Check(at, times, true));
    var w2 := Next(w1, Check(at, times, true));
    OneMore(w0, steps + [Tick(now, times)] + [Check(at, times, true)], w2, Stamp);
    var w3 := Next(w2, Stamp);
    more, w' := steps + [Tick(now, times)] + [Check(at, times, true)] + [Stamp] + [Spawn], Next(w3, Spawn);
    OneMore(w0, steps + [Tick(now, times)] + [Check(at, times, true)] + [Stamp], w3, Spawn);
  }

  lemma {:induction false} RunsCompose(w0: World, a: seq<Step>, w1: World, b: seq<Step>, w2: World)
    requires Reaches(w0, a, w1) && Reaches(w1, b, w2)
    ensures Reaches(w0, a + b, w2)
    decreases |a|
  {
    hide Enabled, Next;
    if a == [] {
      assert a + b == b;
    } else {
      assert (a + b)[1..] == a[1..] + b;
      RunsCompose(Next(w0, a[0]), a[1..], w1, b, w2);
    }
  }

  /** Starts are never forgotten, and a further one belongs to no earlier tick. */
  predicate Extends(w: World, w': World)
  {
    && w.tick <= w'.tick && w.starts <= w'.starts
    && forall j | |w.starts| <= j < |w'.starts| :: w.tick <= w'.starts[j].scheduledAt
  }

  lemma StepExtends(w: World, step: Step)
    requires Inv(w) && Enabled(w, step)
    ensures Extends(w, Next(w, step))
  {
    hide Due, StartOk, Covers;
  }

  lemma ExtendsFurther(a: World, b: World, c: World)
    requires Extends(a, b) && Extends(b, c)
    ensures Extends(a, c)
  {
    forall j | |a.starts| <= j < |c.starts| ensures a.tick <= c.starts[j].scheduledAt {
      if j < |b.starts| { assert c.starts[j] == b.starts[j]; }
    }
  }

  lemma {:induction false} RunExtends(w: World, steps: seq<Step>, w': World)
    requires Inv(w) && Reaches(w, steps, w')
    ensures Extends(w, w')
    decreases |steps|
  {
    assert Extends(w, w);
    hide Inv, Extends, Enabled, Next;
    if steps != [] {
      var next := Next(w, steps[0]);
      StepKeepsInv(w, steps[0]);
      StepExtends(w, steps[0]);
      RunExtends(next, steps[1..], w');
      ExtendsFurther(w, next, w');
    }
  }

  /** The worker, restarted if need be, is free; the record, the tick and the starts are as they were. */
  lemma Freed(spec: JobSpec, steps: seq<Step>, w: World) returns (more: seq<Step>, w': World)
    requires Reaches(First(spec), steps, w)
    ensures Reaches(First(spec), steps + more, w') && Reaches(w, more, w') && w' == w.(worker := Up(None))
  {
    hide Reaches;
    ReachesStart(w);
    var stopped := Next(w, Crash);
    OneMore(w, [], w, Crash);
    OneMore(w, [] + [Crash], stopped, Boot(0, false));
    more, w' := [] + [Crash] + [Boot(0, false)], Next(stopped, Boot(0, false));
    RunsCompose(First(spec), steps, w, more, w');
  }

  /** Some continuation starts the job once more for the minute of start `i`. */
  ghost predicate MayRepeat(w: World, i: nat)
    requires i < |w.starts|
  {
    exists more, w', j :: Reaches(w, more, w') && |w.starts| <= j < |w'.starts|
                          && Minute(w'.starts[j].scheduledAt) == Minute(w.starts[i].scheduledAt)
  }

  lemma RepeatNeeds(spec: JobSpec, steps: seq<Step>, w: World, i: nat, more: seq<Step>, w': World, j: nat)
    requires Daily(spec) && Reaches(First(spec), steps, w) && Reaches(w, more, w')
    requires i < |w.starts| <= j < |w'.starts|
    requires Minute(w'.starts[j].scheduledAt) == Minute(w.starts[i].scheduledAt)
    ensures Minute(w.tick) == Minute(w.starts[i].scheduledAt) < Minute(w.starts[i].at)
  {
    RunKeepsInv(First(spec), steps, w);
    hide Reaches, Minute, Daily;
    RunKeepsDaily(First(spec), steps, w);
    RunExtends(w, more, w');
    RunsCompose(First(spec), steps, w, more, w');
    assert w'.starts[i] == w.starts[i];
    DailyRepeatsOnlyWhenLate(spec, steps + more, w', i, j);
    assert MovedOn(w.last, w.tick, w.starts[i]);
    MinutesGrow(w.starts[i].scheduledAt, w.tick);
    MinutesGrow(w.tick, w'.starts[j].scheduledAt);
  }

  lemma DueAgain(spec: JobSpec, s: Start, now: nat, last: nat)
    requires Daily(spec) && Due(spec, s.scheduledAt, s.times, s.previous)
    requires Minute(now) == Minute(s.scheduledAt) < Minute(last)
    ensures Due(spec, now, s.times, Some(last))
  {
    assert HourMinute(now) == HourMinute(s.scheduledAt);
  }

  lemma LateStartRepeats(spec: JobSpec, steps: seq<Step>, w: World, i: nat)
    requires Daily(spec) && Reaches(First(spec), steps, w) && i < |w.starts|
    requires Minute(w.tick) == Minute(w.starts[i].scheduledAt) < Minute(w.starts[i].at)
    ensures MayRepeat(w, i)
  {
    hide Reaches, Minute, Due;
    RunKeepsInv(First(spec), steps, w);
    assert StartOk(spec, w.starts, i);
    MinutesGrow(w.starts[i].at, w.last.value);
    DueAgain(spec, w.starts[i], w.tick, w.last.value);
    var more, idle := Freed(spec, steps, w);
    var run, w' := StartsOnce(w, more, idle, w.tick, w.clock, w.starts[i].times);
    assert w'.starts[|w.starts|].scheduledAt == w.tick;
  }

  /**
   From any reachable world a daily job can still be started again for the minute of an earlier start
   exactly when that start was executed in a later minute and the latest tick is still in the minute.
   */
  lemma DailyRepeatsExactlyWhenLate(spec: JobSpec, steps: seq<Step>, w: World, i: nat)
    requires Daily(spec) && Reaches(First(spec), steps, w) && i < |w.starts|
    ensures MayRepeat(w, i)
       <==> Minute(w.tick) == Minute(w.starts[i].scheduledAt) < Minute(w.starts[i].at)
  {
    hide Reaches, Minute, Daily;
    if MayRepeat(w, i) {
      var more, w', j :| Reaches(w, more, w') && |w.starts| <= j < |w'.starts|
                         && Minute(w'.starts[j].scheduledAt) == Minute(w.starts[i].scheduledAt);
      RepeatNeeds(spec, steps, w, i, more, w', j);
    }
    if Minute(w.tick) == Minute(w.starts[i].scheduledAt) < Minute(w.starts[i].at) {
      LateStartRepeats(spec, steps, w, i);
    }
  }

  lemma BriefingDue()
    ensures var spec := JobSpec("daily_briefing", 0, None);
            var times := [ClockTime("08:00", Some(480))];
            && Daily(spec) && Due(spec, 58 * MICROS, times, None) && Due(spec, 59 * MICROS, times, Some(60 * MICROS))
            && Minute(58 * MICROS) == Minute(59 * MICROS)
  {
    assert HourMinute(58 * MICROS) == HourMinute(59 * MICROS) == [ClockTime("08:00", Some(480))][0].text;
  }

  /**
   That does happen. A briefing at 08:00 is queued at second 58; the next tick reads its clock at second
   59, the queued job is executed at second 60 and done before that tick looks at it again.
   */
  lemma DailyCanRepeat() returns (spec: JobSpec, steps: seq<Step>, w: World)
    ensures Daily(spec) && Reaches(First(spec), steps, w) && |w.starts| == 2
    ensures Minute(w.starts[0].scheduledAt) == Minute(w.starts[1].scheduledAt)
  {
    BriefingDue();
    hide Due, Reaches, Minute, Daily;
    var times, s := [ClockTime("08:00", Some(480))], MICROS;
    spec := JobSpec("daily_briefing", 0, None);
    var w0 := First(spec);
    ReachesStart(w0);
    OneMore(w0, [], w0, Later(60 * s));
    assert [] + [Later(60 * s)] == [Later(60 * s)];
    w := Next(w0, Later(60 * s));
    OneMore(w0, [Later(60 * s)], w, Boot(0, false));
    w := Next(w, Boot(0, false));
    steps, w := StartsOnce(w0, [Later(60 * s)] + [Boot(0, false)], w, 58 * s, 60 * s, times);
    OneMore(w0, steps, w, End);
    steps, w := steps + [End], Next(w, End);
    OneMore(w0, steps, w, Reap);
    steps, w := steps + [Reap], Next(w, Reap);
    steps, w := StartsOnce(w0, steps, w, 59 * s, 60 * s, times);
  }

  lemma ReachesStart(w: World)
    ensures Reaches(w, [], w)
  {
  }
}
