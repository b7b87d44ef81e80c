/**
 When a scheduled job starts.

 JobSchedule bounds how often a job starts. Here it is said that it does: `Wanted` tells, in seconds and
 slots, when a job is wanted, and from every reachable world with a free worker a start is reached
 exactly then.
 */
module JobStarts {
  import opened Options
  import opened JobSchedule

  // ---------------------------------------------------------------------------------------------
  // When a job is wanted
  // ---------------------------------------------------------------------------------------------

  /** The clock is in the first ten seconds from `second` on. */
  predicate Within(second: int, t: nat)
  {
    second <= Epoch(t) < second + 10
  }

  predicate RecordedBefore(last: Option<nat>, second: int)
  {
    last.Some? ==> Epoch(last.value) < second
  }

  /** A slot begins at a multiple of the interval behind the phase. */
  ghost predicate SlotWanted(interval: nat, phase: int, t: nat, last: Option<nat>)
  {
    exists q: int :: SlotOpen(interval, phase, q, t, last)
  }

  /** Slot `q` began less than ten seconds ago and the record lies before it. */
  predicate SlotOpen(interval: nat, phase: int, q: int, t: nat, last: Option<nat>)
  {
    && Within(q * interval + phase, t) && RecordedBefore(last, q * interval + phase)
    && (last == None ==> q >= 0)
  }

  /** The second a day of UTC+8 begins. */
  predicate DayBegins(day: int)
  {
    (day + 8 * 3600) % 86400 == 0
  }

  /** A configured time of this day has come, and the record is from before it. */
  ghost predicate ReviewWanted(times: seq<ClockTime>, t: nat, last: Option<nat>)
  {
    exists day, i :: TimeHasCome(times, day, i, t, last)
  }

  predicate TimeHasCome(times: seq<ClockTime>, day: int, i: int, t: nat, last: Option<nat>)
  {
    && DayBegins(day) && day <= Epoch(t) < day + 86400
    && 0 <= i < |times| && times[i].minute.Some?
    && var second := day + times[i].minute.value * 60;
       second <= Epoch(t) && (last.Some? ==> last.value < second * MICROS)
  }

  /** `text` is the clock time of UTC+8 in hours and minutes. */
  predicate Shows(text: string, t: nat)
  {
    var second := (Epoch(t) + 8 * 3600) % 86400;
    && |text| == 5 && text[2] == ':'
    && (forall i | 0 <= i < 5 && i != 2 :: '0' <= text[i] <= '9')
    && (text[0] as int - '0' as int) * 10 + (text[1] as int - '0' as int) == second / 3600
    && (text[3] as int - '0' as int) * 10 + (text[4] as int - '0' as int) == second % 3600 / 60
  }

  /** A configured time is being shown, and the record is not from this minute. */
  predicate TimeWanted(times: seq<ClockTime>, t: nat, last: Option<nat>)
  {
    && (exists i | 0 <= i < |times| :: Shows(times[i].text, t))
    && (last.Some? ==> (Epoch(last.value) + 8 * 3600) / 60 != (Epoch(t) + 8 * 3600) / 60)
  }

  ghost predicate Wanted(spec: JobSpec, t: nat, times: seq<ClockTime>, last: Option<nat>)
  {
    if spec.interval > 0 then
      if spec.name == "trader" then SlotWanted(spec.interval, 0, t, last)
      else if spec.phase.Some? then SlotWanted(spec.interval, spec.phase.value, t, last)
      else last.Some? ==> last.value + spec.interval * MICROS <= t
    else if spec.name == "self_improvement" then ReviewWanted(times, t, last)
    else TimeWanted(times, t, last)
  }

  // ---------------------------------------------------------------------------------------------
  // Due means wanted
  // ---------------------------------------------------------------------------------------------

  lemma Product(a: int, b: int, n: nat)
    requires a <= b
    ensures a * n <= b * n
    ensures a < b ==> a * n + n <= b * n
  {
    assert b * n - a * n == (b - a) * n;
    if a < b { assert (b - a - 1) * n >= 0; }
  }

  /** Multiples below `x` are those up to its quotient. */
  lemma Floor(x: int, n: nat, q: int)
    requires n > 0
    ensures q * n <= x <==> q <= x / n
    ensures x == x / n * n + x % n
  {
    var d := x / n;
    assert x == d * n + x % n;
    if q <= d { Product(q, d, n); } else { Product(d, q, n); }
  }

  /** The open slot is the one of the clock, and it is not the one of the record. */
  lemma OpenSlot(interval: nat, x: int, y: int, q: int)
    requires interval > 0 && q * interval <= x < q * interval + 10 && y < q * interval
    ensures y / interval < x / interval && x % interval < 10
  {
    Floor(x, interval, q);
    Floor(y, interval, q);
    var d := x / interval;
    if q < d { Product(q, d, interval); }
  }

  lemma SlotExactly(interval: nat, phase: int, t: nat, last: Option<nat>)
    requires interval > 0
    ensures SlotWanted(interval, phase, t, last)
       <==> && (Epoch(t) - phase) / interval > (if last.Some? then (Epoch(last.value) - phase) / interval else -1)
            && (Epoch(t) - phase) % interval < 10
  {
    hide Epoch;
    var x, slot := Epoch(t) - phase, (Epoch(t) - phase) / interval;
    Floor(x, interval, slot);
    var y := if last.Some? then Epoch(last.value) - phase else -1;
    if slot > (if last.Some? then y / interval else -1) && x % interval < 10 {
      if last.Some? { Floor(y, interval, slot); }
      assert SlotOpen(interval, phase, slot, t, last);
    }
    if SlotWanted(interval, phase, t, last) {
      var q: int :| SlotOpen(interval, phase, q, t, last);
      if last.Some? {
        OpenSlot(interval, x, y, q);
      } else {
        OpenSlot(interval, x, q * interval - 1, q);
        Floor(x, interval, q);
      }
    }
  }

  lemma DayOf(t: nat) returns (day: int)
    ensures DayBegins(day) && day <= Epoch(t) < day + 86400 && day == Minute(t) / 1440 * 86400 - 8 * 3600
  {
    day := Minute(t) / 1440 * 86400 - 8 * 3600;
  }

  lemma OneDay(a: int, b: int, t: nat)
    requires DayBegins(a) && DayBegins(b) && a <= Epoch(t) < a + 86400 && b <= Epoch(t) < b + 86400
    ensures a == b
  {
  }

  lemma ReviewExactly(times: seq<ClockTime>, t: nat, last: Option<nat>)
    ensures ReviewWanted(times, t, last) <==> ReviewDue(times, t, last)
  {
    hide DayBegins;
    var day := DayOf(t);
    forall i | 0 <= i < |times| && times[i].minute.Some?
      ensures var second := day + times[i].minute.value * 60;
              PassedToday(times[i], t) == if second <= Epoch(t) then Some(second * MICROS) else None
    {
      var second := day + times[i].minute.value * 60;
      assert second == (Minute(t) / 1440 * 1440 + times[i].minute.value) * 60 - 8 * 3600;
      hide Minute;
      PassedExactly(second, t);
    }
    hide Minute, Epoch;
    if ReviewWanted(times, t, last) {
      var other, i :| TimeHasCome(times, other, i, t, last);
      OneDay(day, other, t);
      assert PassedToday(times[i], t).Some?;
    }
    if ReviewDue(times, t, last) {
      var i :| 0 <= i < |times| && PassedToday(times[i], t).Some? &&
               (last.None? || last.value < PassedToday(times[i], t).value);
      assert TimeHasCome(times, day, i, t, last);
    }
  }

  lemma PassedExactly(second: int, t: nat)
    ensures second * MICROS <= t <==> second <= Epoch(t)
  {
  }

  lemma QuotientIs(x: int, n: nat, q: int, r: int)
    requires n > 0 && x == q * n + r && 0 <= r < n
    ensures x / n == q && x % n == r
  {
    Floor(x, n, q);
    Floor(x, n, q + 1);
    assert (q + 1) * n == q * n + n;
  }

  lemma Clock(x: int, day: int, hour: int, minute: int, second: int)
    requires x == day * 86400 + hour * 3600 + minute * 60 + second
    requires 0 <= hour < 24 && 0 <= minute < 60 && 0 <= second < 60
    ensures x / 60 == day * 1440 + hour * 60 + minute
    ensures x % 86400 / 3600 == hour && x % 86400 % 3600 / 60 == minute
  {
    QuotientIs(x, 60, day * 1440 + hour * 60 + minute, second);
    QuotientIs(x, 86400, day, hour * 3600 + minute * 60 + second);
    QuotientIs(hour * 3600 + minute * 60 + second, 3600, hour, minute * 60 + second);
    QuotientIs(minute * 60 + second, 60, minute, second);
  }

  lemma MinuteOf(n: int, day: int, hour: int, minute: int)
    requires n == day * 1440 + hour * 60 + minute && 0 <= hour < 24 && 0 <= minute < 60
    ensures n % 1440 / 60 == hour && n % 1440 % 60 == minute
  {
    QuotientIs(n, 1440, day, hour * 60 + minute);
    QuotientIs(hour * 60 + minute, 60, hour, minute);
  }

  lemma Split(x: int) returns (day: int, hour: int, minute: int, second: int)
    ensures x == day * 86400 + hour * 3600 + minute * 60 + second
    ensures 0 <= hour < 24 && 0 <= minute < 60 && 0 <= second < 60
  {
    var rest := x % 86400;
    day, hour, minute, second := x / 86400, rest / 3600, rest % 3600 / 60, rest % 3600 % 60;
  }

  lemma MinuteOfDay(t: nat)
    ensures var second := (Epoch(t) + 8 * 3600) % 86400;
            && Minute(t) % 1440 / 60 == second / 3600 && Minute(t) % 1440 % 60 == second % 3600 / 60
  {
    hide Epoch;
    var x := Epoch(t) + 8 * 3600;
    var day, hour, minute, second := Split(x);
    Clock(x, day, hour, minute, second);
    MinuteOf(x / 60, day, hour, minute);
  }

  lemma ShowsExactly(text: string, t: nat)
    ensures Shows(text, t) <==> text == HourMinute(t)
  {
    MinuteOfDay(t);
    hide Minute, Epoch;
    var minute := Minute(t) % 1440;
    var shown := HourMinute(t);
    assert |shown| == 5 && shown[..2] == Digits(minute / 60) && shown[2] == ':' && shown[3..] == Digits(minute % 60);
  }

  lemma TimeExactly(times: seq<ClockTime>, t: nat, last: Option<nat>)
    ensures TimeWanted(times, t, last)
       <==> && (exists i | 0 <= i < |times| :: times[i].text == HourMinute(t))
            && (last.None? || Minute(last.value) != Minute(t))
  {
    hide Shows, HourMinute;
    forall i | 0 <= i < |times| ensures Shows(times[i].text, t) <==> times[i].text == HourMinute(t) {
      ShowsExactly(times[i].text, t);
    }
  }

  /** A job is due exactly when it is wanted. */
  lemma DueExactly(spec: JobSpec, t: nat, times: seq<ClockTime>, last: Option<nat>)
    ensures Due(spec, t, times, last) <==> Wanted(spec, t, times, last)
  {
    hide Minute, HourMinute, Shows, ReviewDue, ReviewWanted, TimeWanted;
    if spec.interval > 0 {
      SlotExactly(spec.interval, 0, t, last);
      if spec.phase.Some? { SlotExactly(spec.interval, spec.phase.value, t, last); }
    } else {
      ReviewExactly(times, t, last);
      TimeExactly(times, t, last);
    }
  }

  // ---------------------------------------------------------------------------------------------
  // Starts are reached
  // ---------------------------------------------------------------------------------------------

  /** The tick at `now` queues the job, the worker takes it up at `at`, notes the time and starts it. */
  function StartRun(now: nat, at: nat, times: seq<ClockTime>): seq<Step>
  {
    [Tick(now, times), Later(at), Check(at, times, true), Stamp, Spawn]
  }

  /** The world after that. */
  function Started(w: World, now: nat, at: nat, times: seq<ClockTime>): World
  {
    w.(clock := at, tick := now, last := Some(at), worker := Up(Some(Running)),
       starts := w.starts + [Start(now, at, times, w.last)])
  }

  lemma ReachesBy(w: World, step: Step, rest: seq<Step>, w': World)
    ensures Reaches(w, [step] + rest, w') <==> Enabled(w, step) && Reaches(Next(w, step), rest, w')
  {
    hide Enabled, Next;
    assert ([step] + rest)[1..] == rest;
  }

  lemma ReachesItself(w: World, w': World)
    ensures Reaches(w, [], w') <==> w' == w
  {
  }

  /** From a queued job on. */
  lemma WorkerRun(w: World, at: nat, times: seq<ClockTime>, w': World)
    requires Has(w) && w.worker.task.value.Queued? && w.worker.task.value.since <= at <= w.clock
    ensures Reaches(w, [Check(at, times, true), Stamp, Spawn], w')
       <==> && Due(w.spec, EligibleAt(w.spec, w.worker.task.value.scheduledAt, at), times, w.last)
            && w' == w.(last := Some(at), worker := Up(Some(Running)),
                        starts := w.starts + [Start(w.worker.task.value.scheduledAt, at, times, w.last)])
  {
    hide Due, Reaches;
    ReachesBy(w, Check(at, times, true), [Stamp, Spawn], w');
    assert [Check(at, times, true)] + [Stamp, Spawn] == [Check(at, times, true), Stamp, Spawn];
    var x := Next(w, Check(at, times, true));
    ReachesBy(x, Stamp, [Spawn], w');
    assert [Stamp] + [Spawn] == [Stamp, Spawn];
    if Enabled(x, Stamp) {
      var y := Next(x, Stamp);
      ReachesBy(y, Spawn, [], w');
      assert [Spawn] + [] == [Spawn];
      ReachesItself(Next(y, Spawn), w');
    }
  }

  lemma FiveSteps(w: World, now: nat, at: nat, times: seq<ClockTime>, w': World)
    requires w.worker == Up(None)
    ensures Reaches(w, StartRun(now, at, times), w')
       <==> && w.tick <= now <= w.clock <= at && Due(w.spec, now, times, w.last)
            && Due(w.spec, EligibleAt(w.spec, now, at), times, w.last) && w' == Started(w, now, at, times)
  {
    hide Due, Reaches;
    var rest := [Check(at, times, true), Stamp, Spawn];
    assert StartRun(now, at, times) == [Tick(now, times)] + ([Later(at)] + rest);
    ReachesBy(w, Tick(now, times), [Later(at)] + rest, w');
    if Enabled(w, Tick(now, times)) {
      var x := Next(w, Tick(now, times));
      ReachesBy(x, Later(at), rest, w');
      if Enabled(x, Later(at)) { WorkerRun(Next(x, Later(at)), at, times, w'); }
    }
  }

  ghost predicate CanStart(w: World, now: nat, at: nat, times: seq<ClockTime>)
  {
    exists w' :: Reaches(w, StartRun(now, at, times), w')
  }

  /**
   From every reachable world with a free worker, a job queued by a tick at `now` and taken up at `at` is
   started exactly when it is wanted at `now` and, the trader, at `at` as well; the start and the record
   are then of `at`.
   */
  lemma StartsExactly(spec: JobSpec, steps: seq<Step>, w: World, now: nat, at: nat, times: seq<ClockTime>)
    requires Reaches(First(spec), steps, w) && w.worker == Up(None)
    ensures CanStart(w, now, at, times)
       <==> && w.tick <= now <= w.clock <= at && Wanted(spec, now, times, w.last)
            && (spec.name == "trader" ==> Wanted(spec, at, times, w.last))
    ensures forall w' | Reaches(w, StartRun(now, at, times), w') :: w' == Started(w, now, at, times)
  {
    RunKeepsInv(First(spec), steps, w);
    hide Reaches, Due, Wanted, Started;
    DueExactly(spec, now, times, w.last);
    DueExactly(spec, at, times, w.last);
    FiveSteps(w, now, at, times, Started(w, now, at, times));
    forall w' | Reaches(w, StartRun(now, at, times), w')
      ensures w' == Started(w, now, at, times) && w.tick <= now <= w.clock <= at && Wanted(spec, now, times, w.last)
      ensures spec.name == "trader" ==> Wanted(spec, at, times, w.last)
    {
      FiveSteps(w, now, at, times, w');
    }
  }

  /** A trader tick at second 0 to 9 of a new slot starts the trader when it is taken up in seconds 0 to 9 of
      a new slot as well. */
  lemma TraderStarts(spec: JobSpec, steps: seq<Step>, w: World, q: nat, now: nat, at: nat, times: seq<ClockTime>)
    requires spec.name == "trader" && spec.interval > 0
    requires Reaches(First(spec), steps, w) && w.worker == Up(None) && w.tick <= now <= w.clock <= at
    requires q * spec.interval <= Epoch(now) && Epoch(at) < q * spec.interval + 10
    requires w.last.Some? ==> Epoch(w.last.value) < q * spec.interval
    ensures CanStart(w, now, at, times)
  {
    hide Reaches, CanStart;
    DivisionGrows(now, at, MICROS);
    assert SlotOpen(spec.interval, 0, q, now, w.last) && SlotOpen(spec.interval, 0, q, at, w.last);
    StartsExactly(spec, steps, w, now, at, times);
  }
}
