/**
 Every run of the delivery queue: publishers and operators at any time, one worker that claims, sends
 and settles, and crashes of that worker between any two transactions.

 The model keeps a log of what was committed. What a row must look like, and when it may be claimed,
 is read off that log alone; the tables are then proved to agree with it at every reachable state.
 */
module DeliveryHistory {
  import opened Options
  import opened Strings
  import opened Deliveries

  // ---------------------------------------------------------------------------------------------
  // What a log says about one row
  // ---------------------------------------------------------------------------------------------

  datatype Entry =
    | Created(id: nat, at: int)    // published, due from `at`
    | Claimed(id: nat, at: int)
    | Failed(id: nat, at: int)
    | Completed(id: nat)
    | Replayed(id: nat, at: int)
    | Restarted                    // the startup transaction of a worker

  type Log = seq<Entry>

  function Init(log: Log): Log
    requires log != []
  {
    log[..|log| - 1]
  }

  function Last(log: Log): Entry
    requires log != []
  {
    log[|log| - 1]
  }

  /** The row failed this often since it was created or last replayed. */
  function Failures(log: Log, id: nat): nat
    decreases |log|
  {
    if log == [] then 0
    else
      match Last(log)
      case Created(i, _) => if i == id then 0 else Failures(Init(log), id)
      case Replayed(i, _) => if i == id then 0 else Failures(Init(log), id)
      case Failed(i, _) => Failures(Init(log), id) + if i == id then 1 else 0
      case _ => Failures(Init(log), id)
  }

  /** The row was claimed, and since then neither settled nor given back by a restart. */
  predicate Open(log: Log, id: nat)
    decreases |log|
  {
    log != [] &&
    match Last(log)
    case Claimed(i, _) => i == id || Open(Init(log), id)
    case Failed(i, _) => i != id && Open(Init(log), id)
    case Completed(i) => i != id && Open(Init(log), id)
    case Restarted => false
    case _ => Open(Init(log), id)
  }

  predicate Exists(log: Log, id: nat)
  {
    exists j | 0 <= j < |log| :: log[j].Created? && log[j].id == id
  }

  predicate Finished(log: Log, id: nat)
  {
    Completed(id) in log
  }

  /** Seconds to wait after the n-th failure: 30, then twice as long each time. */
  function Wait(n: nat): int
  {
    if n <= 1 then 30 else 2 * Wait(n - 1)
  }

  lemma WaitsAre()
    ensures Wait(1) == 30 && Wait(2) == 60 && Wait(3) == 120 && Wait(4) == 240 && Wait(5) == 480
  {
  }

  /** The earliest time the row may be claimed. */
  function ReadyAt(log: Log, id: nat): int
    decreases |log|
  {
    if log == [] then 0
    else
      match Last(log)
      case Created(i, at) => if i == id then at else ReadyAt(Init(log), id)
      case Replayed(i, at) => if i == id then at else ReadyAt(Init(log), id)
      case Failed(i, at) => if i == id then at + Wait(Failures(log, id)) else ReadyAt(Init(log), id)
      case _ => ReadyAt(Init(log), id)
  }

  /** `entry` may follow `log`. */
  predicate Allowed(log: Log, entry: Entry)
  {
    match entry
    case Created(id, _) => !Exists(log, id)
    case Claimed(id, at) =>
      Exists(log, id) && !Open(log, id) && !Finished(log, id) && Failures(log, id) < 6 && ReadyAt(log, id) <= at
    case Failed(id, _) => Open(log, id)
    case Completed(id) => Open(log, id)
    case Replayed(id, _) => Exists(log, id) && Failures(log, id) == 6 && !Open(log, id)
    case Restarted => true
  }

  predicate Legal(log: Log)
    decreases |log|
  {
    log != [] ==> Legal(Init(log)) && Allowed(Init(log), Last(log))
  }

  /** The row is exactly what the log says. */
  predicate RowOk(log: Log, id: nat, row: Delivery)
  {
    && Exists(log, id)
    && row.attempts == Failures(log, id) <= 6
    && (row.status == Dead <==> row.attempts == 6)
    && (row.status == Processing <==> Open(log, id))
    && (row.status in {Delivered, Accepted} <==> Finished(log, id))
    && row.nextAt == ReadyAt(log, id)
  }

  // ---------------------------------------------------------------------------------------------
  // The machine
  // ---------------------------------------------------------------------------------------------

  /** A claimed row as the worker holds it. */
  datatype Claim = Claim(id: nat, attempts: nat)

  /** The flock admits one worker at a time; it recovers before it claims. */
  datatype Worker = Down | Starting | Up(batch: seq<Claim>)

  datatype World = World(queue: Queue, worker: Worker, clock: int, log: Log, published: set<(EventId, Channel)>)

  datatype Sent = Success(status: string, detail: string) | Refused(detail: string)

  /** A transaction uses a clock reading `at` taken before it starts. */
  datatype Step =
    | Publishing(event: Event, channels: seq<Channel>)
    | Replaying(id: nat, at: int)
    | Later(clock: int)
    | Start
    | Recovering
    | Claiming(at: int, ids: seq<nat>)
    | Delivering(sent: Sent, at: int)
    | Crash

  const START := World(EMPTY, Down, 0, [], {})
  const BATCH: nat := 20

  ghost predicate Enabled(w: World, step: Step)
  {
    match step
    case Publishing(_, _) => true
    case Replaying(_, at) => at <= w.clock
    case Later(clock) => w.clock <= clock
    case Start => w.worker == Down
    case Recovering => w.worker == Starting
    case Claiming(at, ids) => w.worker == Up([]) && at <= w.clock && IsClaim(w.queue, at, BATCH, ids)
    case Delivering(_, at) => w.worker.Up? && w.worker.batch != [] && at <= w.clock
    case Crash => true
  }

  function Claims(q: Queue, ids: seq<nat>): seq<Claim>
    requires forall i | 0 <= i < |ids| :: ids[i] in q.rows
  {
    seq(|ids|, i requires 0 <= i < |ids| => Claim(ids[i], q.rows[ids[i]].attempts))
  }

  function ClaimEntries(ids: seq<nat>, at: int): Log
  {
    seq(|ids|, i requires 0 <= i < |ids| => Claimed(ids[i], at))
  }

  function InsertEntry(q: Queue, event: Event, channel: Channel): Log
  {
    if HasRow(q.rows, event.id, channel) then [] else [Created(q.lastId + 1, event.createdAt)]
  }

  /** One row per channel that has none yet for the event. */
  function CreatedEntries(q: Queue, event: Event, channels: seq<Channel>): Log
    decreases |channels|
  {
    if channels == [] then []
    else
      var n := |channels| - 1;
      var before := InsertDeliveries(q, event, channels[..n]);
      CreatedEntries(q, event, channels[..n]) + InsertEntry(before, event, channels[n])
  }

  /** Settling the first claim of the batch as the worker loop does: a refused completion is a failure. */
  function Settle(q: Queue, c: Claim, sent: Sent, at: int): (Queue, Entry)
  {
    match sent
    case Refused(detail) => (Fail(q, c.id, c.attempts, detail, MAX_ATTEMPTS, at), Failed(c.id, at))
    case Success(status, detail) =>
      match Complete(q, c.id, status, detail, at)
      case Done(after) => (after, Completed(c.id))
      case ValueError =>
        (Fail(q, c.id, c.attempts, "delivery completion status must be delivered or accepted", MAX_ATTEMPTS, at),
         Failed(c.id, at))
  }

  ghost function Next(w: World, step: Step): World
    requires Enabled(w, step)
  {
    match step
    case Publishing(event, channels) =>
      w.(queue := Publish(w.queue, event, channels),
         log := w.log + CreatedEntries(InsertEvent(w.queue, event), event, channels),
         published := w.published + set c | c in channels :: (event.id, c))
    case Replaying(id, at) =>
      if CanReplay(w.queue, id) then w.(queue := ReplayDead(w.queue, id, at), log := w.log + [Replayed(id, at)]) else w
    case Later(clock) => w.(clock := clock)
    case Start => w.(worker := Starting)
    case Recovering => w.(queue := Recover(w.queue), worker := Up([]), log := w.log + [Restarted])
    case Claiming(at, ids) =>
      w.(queue := Hold(w.queue, ids), worker := Up(Claims(w.queue, ids)), log := w.log + ClaimEntries(ids, at))
    case Delivering(sent, at) =>
      var settled := Settle(w.queue, w.worker.batch[0], sent, at);
      w.(queue := settled.0, worker := Up(w.worker.batch[1..]), log := w.log + [settled.1])
    case Crash => w.(worker := Down)
  }

  ghost predicate Reaches(w: World, steps: seq<Step>, w': World)
    decreases |steps|
  {
    if steps == [] then w' == w
    else Enabled(w, steps[0]) && Reaches(Next(w, steps[0]), steps[1..], w')
  }

  // ---------------------------------------------------------------------------------------------
  // The invariant
  // ---------------------------------------------------------------------------------------------

  ghost predicate RowsOk(q: Queue, log: Log)
  {
    && (forall id | id in q.rows :: RowOk(log, id, q.rows[id]) && id <= q.lastId && q.rows[id].event in q.events)
    && (forall id | Exists(log, id) :: id in q.rows)
    && Legal(log)
  }

  /** UNIQUE(event_id, channel) */
  ghost predicate PairsDiffer(q: Queue)
  {
    forall a, b | a in q.rows && b in q.rows && a != b ::
      q.rows[a].event != q.rows[b].event || q.rows[a].channel != q.rows[b].channel
  }

  ghost predicate PairsPublished(q: Queue, published: set<(EventId, Channel)>)
  {
    forall event, channel :: (event, channel) in published <==> HasRow(q.rows, event, channel)
  }

  /** The claims held are the rows in processing, each once, with its count of failures. */
  ghost predicate BatchOk(q: Queue, batch: seq<Claim>)
  {
    && (forall i | 0 <= i < |batch| :: batch[i].id in q.rows && q.rows[batch[i].id].status == Processing
                                       && q.rows[batch[i].id].attempts == batch[i].attempts)
    && (forall i, j | 0 <= i < j < |batch| :: batch[i].id != batch[j].id)
    && (forall id | id in q.rows && q.rows[id].status == Processing :: exists i | 0 <= i < |batch| :: batch[i].id == id)
  }

  ghost predicate Inv(w: World)
  {
    && RowsOk(w.queue, w.log)
    && PairsDiffer(w.queue)
    && PairsPublished(w.queue, w.published)
    && (w.worker.Up? ==> BatchOk(w.queue, w.worker.batch))
  }

  // ---------------------------------------------------------------------------------------------
  // One entry at a time
  // ---------------------------------------------------------------------------------------------

  predicate Concerns(entry: Entry, id: nat)
  {
    entry.Restarted? || entry.id == id
  }

  lemma Snoc(log: Log, entry: Entry)
    ensures Init(log + [entry]) == log && Last(log + [entry]) == entry
    ensures Legal(log + [entry]) <==> Legal(log) && Allowed(log, entry)
    ensures forall id :: Exists(log + [entry], id) <==> Exists(log, id) || (entry.Created? && entry.id == id)
    ensures forall id :: Finished(log + [entry], id) <==> Finished(log, id) || entry == Completed(id)
  {
    var after := log + [entry];
    assert Init(after) == log;
    forall id ensures Exists(after, id) <==> Exists(log, id) || (entry.Created? && entry.id == id) {
      if Exists(log, id) {
        var j :| 0 <= j < |log| && log[j].Created? && log[j].id == id;
        assert after[j].Created? && after[j].id == id;
      }
      if entry.Created? && entry.id == id { assert after[|log|].Created?; }
    }
  }

  /** An entry about another row changes nothing for this one. */
  lemma Unconcerned(log: Log, entry: Entry, id: nat, row: Delivery)
    requires RowOk(log, id, row) && !Concerns(entry, id)
    ensures RowOk(log + [entry], id, row)
  {
    Snoc(log, entry);
  }

  lemma ClaimRow(log: Log, id: nat, row: Delivery, at: int)
    requires RowOk(log, id, row) && row.status in {Pending, Retry} && row.nextAt <= at
    ensures RowOk(log + [Claimed(id, at)], id, row.(status := Processing)) && Allowed(log, Claimed(id, at))
  {
    Snoc(log, Claimed(id, at));
  }

  lemma DelayIsWait(n: nat)
    requires 0 < n <= 6
    ensures Delay(n) == Wait(n)
  {
    assert Power2(0) == 1 && Power2(1) == 2 && Power2(2) == 4 && Power2(3) == 8;
    assert Power2(4) == 16 && Power2(5) == 32;
    WaitsAre();
  }

  lemma CreateRow(log: Log, event: Event, channel: Channel, id: nat)
    requires !Exists(log, id) && Legal(log)
    ensures RowOk(log + [Created(id, event.createdAt)], id, NewDelivery(event, channel))
  {
    Snoc(log, Created(id, event.createdAt));
    NeverCreated(log, id);
  }

  /** Nothing happens to a row before it is created. */
  lemma {:induction false} NeverCreated(log: Log, id: nat)
    requires !Exists(log, id) && Legal(log)
    ensures !Open(log, id) && !Finished(log, id)
    decreases |log|
  {
    if log != [] {
      var before := Init(log);
      assert log == before + [Last(log)];
      Snoc(before, Last(log));
      NeverCreated(before, id);
    }
  }

  lemma FailRow(log: Log, id: nat, row: Delivery, at: int, error: string)
    requires RowOk(log, id, row) && row.status == Processing
    ensures var q := Queue(map[], map[id := row], id);
            var failed := Fail(q, id, row.attempts, error, MAX_ATTEMPTS, at).rows[id];
            RowOk(log + [Failed(id, at)], id, failed) && Allowed(log, Failed(id, at))
  {
    Snoc(log, Failed(id, at));
    DelayIsWait(row.attempts + 1);
  }

  lemma CompleteRow(log: Log, id: nat, row: Delivery, after: Delivery)
    requires RowOk(log, id, row) && row.status == Processing
    requires after.status in {Delivered, Accepted} && after.attempts == row.attempts && after.nextAt == row.nextAt
    ensures RowOk(log + [Completed(id)], id, after) && Allowed(log, Completed(id))
  {
    Snoc(log, Completed(id));
  }

  lemma ReplayRow(log: Log, id: nat, row: Delivery, at: int)
    requires RowOk(log, id, row) && row.status == Dead
    ensures RowOk(log + [Replayed(id, at)], id,
                  row.(status := Pending, attempts := 0, nextAt := at, error := "", deliveredAt := None))
    ensures Allowed(log, Replayed(id, at))
  {
    Snoc(log, Replayed(id, at));
  }

  lemma RestartRow(log: Log, id: nat, row: Delivery)
    requires RowOk(log, id, row)
    ensures RowOk(log + [Restarted], id, if row.status == Processing then row.(status := Retry) else row)
  {
    Snoc(log, Restarted);
  }

  // ---------------------------------------------------------------------------------------------
  // Every transaction keeps the tables in agreement with the log
  // ---------------------------------------------------------------------------------------------

  /** One row is rewritten and one entry about it is logged. */
  lemma OneRow(q: Queue, log: Log, id: nat, row: Delivery, entry: Entry)
    requires RowsOk(q, log) && id in q.rows && row.event == q.rows[id].event
    requires !entry.Restarted? && !entry.Created? && entry.id == id && Allowed(log, entry)
    requires RowOk(log + [entry], id, row)
    ensures RowsOk(q.(rows := q.rows[id := row]), log + [entry])
  {
    hide RowOk, Allowed;
    Snoc(log, entry);
    forall other | other in q.rows && other != id ensures RowOk(log + [entry], other, q.rows[other]) {
      Unconcerned(log, entry, other, q.rows[other]);
    }
  }

  lemma HoldOne(q: Queue, log: Log, id: nat, at: int)
    requires RowsOk(q, log) && Due(q, at, id)
    ensures RowsOk(q.(rows := q.rows[id := q.rows[id].(status := Processing)]), log + [Claimed(id, at)])
  {
    hide RowOk, Legal, Allowed;
    ClaimRow(log, id, q.rows[id], at);
    OneRow(q, log, id, q.rows[id].(status := Processing), Claimed(id, at));
  }

  lemma HoldNext(q: Queue, at: int, ids: seq<nat>, n: nat)
    requires IsClaim(q, at, BATCH, ids) && n < |ids|
    ensures ids[n] !in ids[..n] && ids[n] in q.rows
    ensures Due(Hold(q, ids[..n]), at, ids[n])
    ensures var held := Hold(q, ids[..n]).rows;
            Hold(q, ids[..n + 1]).rows == held[ids[n] := held[ids[n]].(status := Processing)]
    ensures ClaimEntries(ids[..n + 1], at) == ClaimEntries(ids[..n], at) + [Claimed(ids[n], at)]
  {
    assert forall i | 0 <= i < n :: Before(q, ids[i], ids[n]);
    assert ids[..n + 1] == ids[..n] + [ids[n]];
    assert Due(q, at, ids[n]);
  }

  lemma {:induction false} KeepsHold(q: Queue, log: Log, at: int, ids: seq<nat>, n: nat)
    requires RowsOk(q, log) && IsClaim(q, at, BATCH, ids) && n <= |ids|
    ensures RowsOk(Hold(q, ids[..n]), log + ClaimEntries(ids[..n], at))
    decreases n
  {
    hide RowsOk, IsClaim, Due;
    if n == 0 {
      assert Hold(q, ids[..0]).rows == q.rows;
      assert log + ClaimEntries(ids[..0], at) == log;
    } else {
      KeepsHold(q, log, at, ids, n - 1);
      HoldNext(q, at, ids, n - 1);
      var so := log + ClaimEntries(ids[..n - 1], at);
      HoldOne(Hold(q, ids[..n - 1]), so, ids[n - 1], at);
      assert log + ClaimEntries(ids[..n], at) == so + [Claimed(ids[n - 1], at)];
    }
  }

  lemma KeepsRecover(q: Queue, log: Log)
    requires RowsOk(q, log)
    ensures RowsOk(Recover(q), log + [Restarted])
  {
    hide RowOk;
    Snoc(log, Restarted);
    forall id | id in q.rows ensures RowOk(log + [Restarted], id, Recover(q).rows[id]) {
      RestartRow(log, id, q.rows[id]);
    }
  }

  lemma KeepsInsert(q: Queue, log: Log, event: Event, channel: Channel)
    requires RowsOk(q, log) && PairsDiffer(q) && event.id in q.events && !HasRow(q.rows, event.id, channel)
    ensures RowsOk(InsertDelivery(q, event, channel), log + [Created(q.lastId + 1, event.createdAt)])
    ensures PairsDiffer(InsertDelivery(q, event, channel))
  {
    hide RowOk;
    var id := q.lastId + 1;
    var entry := Created(id, event.createdAt);
    assert !Exists(log, id);
    Snoc(log, entry);
    CreateRow(log, event, channel, id);
    forall other | other in q.rows ensures RowOk(log + [entry], other, q.rows[other]) {
      Unconcerned(log, entry, other, q.rows[other]);
    }
  }

  lemma InsertedPairs(q: Queue, event: Event, channel: Channel)
    requires q.lastId + 1 !in q.rows
    ensures forall e, c :: HasRow(InsertDelivery(q, event, channel).rows, e, c)
                           <==> HasRow(q.rows, e, c) || (e == event.id && c == channel)
  {
    var after := InsertDelivery(q, event, channel);
    forall e, c ensures HasRow(after.rows, e, c) <==> HasRow(q.rows, e, c) || (e == event.id && c == channel) {
      if HasRow(q.rows, e, c) {
        var id :| id in q.rows && q.rows[id].event == e && q.rows[id].channel == c;
        assert id in after.rows && after.rows[id] == q.rows[id];
      }
      if e == event.id && c == channel && !HasRow(q.rows, e, c) {
        assert after.rows[q.lastId + 1] == NewDelivery(event, channel);
      }
    }
  }

  /** `after` has the rows of `q` and new pending ones for the channels of the event. */
  ghost predicate Extends(q: Queue, after: Queue, event: EventId, channels: seq<Channel>)
  {
    && after.events == q.events
    && (forall e, c :: HasRow(after.rows, e, c) <==> HasRow(q.rows, e, c) || (e == event && c in channels))
    && (forall id | id in q.rows :: id in after.rows && after.rows[id] == q.rows[id])
    && (forall id | id in after.rows && id !in q.rows :: after.rows[id].status == Pending)
  }

  lemma InsertStep(q: Queue, log: Log, event: Event, channel: Channel)
    requires RowsOk(q, log) && PairsDiffer(q) && event.id in q.events
    ensures var after := InsertDelivery(q, event, channel);
            && RowsOk(after, log + InsertEntry(q, event, channel)) && PairsDiffer(after)
            && Extends(q, after, event.id, [channel])
  {
    hide RowOk, Legal;
    assert q.lastId + 1 !in q.rows;
    InsertedPairs(q, event, channel);
    hide HasRow;
    if HasRow(q.rows, event.id, channel) {
      assert log + InsertEntry(q, event, channel) == log;
    } else {
      KeepsInsert(q, log, event, channel);
    }
  }

  lemma {:induction false} KeepsPublish(q: Queue, log: Log, event: Event, channels: seq<Channel>)
    requires RowsOk(q, log) && PairsDiffer(q) && event.id in q.events
    ensures var after := InsertDeliveries(q, event, channels);
            && RowsOk(after, log + CreatedEntries(q, event, channels)) && PairsDiffer(after)
            && Extends(q, after, event.id, channels)
    decreases |channels|
  {
    hide RowsOk, PairsDiffer, HasRow, InsertDelivery;
    if channels == [] {
      assert log + CreatedEntries(q, event, channels) == log;
    } else {
      var n := |channels| - 1;
      KeepsPublish(q, log, event, channels[..n]);
      var before := InsertDeliveries(q, event, channels[..n]);
      var so := log + CreatedEntries(q, event, channels[..n]);
      assert channels == channels[..n] + [channels[n]];
      InsertStep(before, so, event, channels[n]);
      assert log + CreatedEntries(q, event, channels) == so + InsertEntry(before, event, channels[n]);
    }
  }

  // ---------------------------------------------------------------------------------------------
  // Every step keeps the invariant
  // ---------------------------------------------------------------------------------------------

  /** Same rows for the same pairs. */
  ghost predicate SamePairs(q: Queue, after: Queue)
  {
    q.rows.Keys == after.rows.Keys
    && forall id | id in q.rows ::
         q.rows[id].event == after.rows[id].event && q.rows[id].channel == after.rows[id].channel
         && q.rows[id].createdAt == after.rows[id].createdAt
  }

  lemma PairsStay(q: Queue, after: Queue, published: set<(EventId, Channel)>)
    requires SamePairs(q, after) && PairsDiffer(q) && PairsPublished(q, published)
    ensures PairsDiffer(after) && PairsPublished(after, published)
  {
    forall e, c ensures HasRow(after.rows, e, c) <==> HasRow(q.rows, e, c) {
      if HasRow(q.rows, e, c) {
        var id :| id in q.rows && q.rows[id].event == e && q.rows[id].channel == c;
        assert after.rows[id].event == e;
      }
      if HasRow(after.rows, e, c) {
        var id :| id in after.rows && after.rows[id].event == e && after.rows[id].channel == c;
        assert q.rows[id].event == e;
      }
    }
  }

  /** Claiming finds no row in processing, so the new batch is all of them. */
  lemma BatchFromClaim(q: Queue, log: Log, at: int, ids: seq<nat>)
    requires RowsOk(q, log) && BatchOk(q, []) && IsClaim(q, at, BATCH, ids)
    ensures forall i | 0 <= i < |ids| :: ids[i] in q.rows
    ensures BatchOk(Hold(q, ids), Claims(q, ids)) && SamePairs(q, Hold(q, ids))
  {
    hide RowsOk;
    forall i | 0 <= i < |ids| ensures ids[i] in q.rows { assert Due(q, at, ids[i]); }
    var held, batch := Hold(q, ids), Claims(q, ids);
    forall i, j | 0 <= i < j < |batch| ensures batch[i].id != batch[j].id {
      assert Before(q, ids[i], ids[j]);
    }
    forall id | id in held.rows && held.rows[id].status == Processing
      ensures exists i | 0 <= i < |batch| :: batch[i].id == id
    {
      assert id in ids;
      var i :| 0 <= i < |ids| && ids[i] == id;
      assert batch[i].id == id;
    }
  }

  /** Settling the first claim leaves the rest of the batch. */
  lemma BatchShrinks(q: Queue, batch: seq<Claim>, after: Queue)
    requires batch != [] && BatchOk(q, batch)
    requires after.rows.Keys == q.rows.Keys && after.rows[batch[0].id].status != Processing
    requires forall id | id in q.rows && id != batch[0].id :: after.rows[id] == q.rows[id]
    ensures BatchOk(after, batch[1..])
  {
    var rest := batch[1..];
    forall id | id in after.rows && after.rows[id].status == Processing
      ensures exists i | 0 <= i < |rest| :: rest[i].id == id
    {
      var i :| 0 <= i < |batch| && batch[i].id == id;
      assert rest[i - 1].id == id;
    }
  }

  /** Settling writes the claimed row only. */
  lemma SettleIsLocal(q: Queue, c: Claim, sent: Sent, at: int)
    requires c.id in q.rows
    ensures var settled := Settle(q, c, sent, at);
            && c.id in settled.0.rows && settled.0 == q.(rows := q.rows[c.id := settled.0.rows[c.id]])
            && settled.0.rows[c.id].event == q.rows[c.id].event && settled.0.rows[c.id].channel == q.rows[c.id].channel
            && settled.0.rows[c.id].createdAt == q.rows[c.id].createdAt && settled.0.rows[c.id].status != Processing
  {
    hide Delay, Clip;
  }

  lemma KeepsSettle(q: Queue, log: Log, c: Claim, sent: Sent, at: int)
    requires RowsOk(q, log) && c.id in q.rows && q.rows[c.id].status == Processing
    requires q.rows[c.id].attempts == c.attempts
    ensures var settled := Settle(q, c, sent, at);
            && RowsOk(settled.0, log + [settled.1]) && SamePairs(q, settled.0)
            && settled.0.rows[c.id].status != Processing
            && forall id | id in q.rows && id != c.id :: settled.0.rows[id] == q.rows[id]
  {
    hide RowOk, Allowed, Legal;
    var settled := Settle(q, c, sent, at);
    var after, row := settled.0.rows[c.id], q.rows[c.id];
    if settled.1.Completed? {
      CompleteRow(log, c.id, row, after);
    } else {
      var detail := if sent.Refused? then sent.detail else "delivery completion status must be delivered or accepted";
      FailRow(log, c.id, row, at, detail);
    }
    SettleIsLocal(q, c, sent, at);
    hide Settle;
    OneRow(q, log, c.id, after, settled.1);
  }

  lemma EventInserted(w: World, event: Event)
    requires Inv(w)
    ensures var q := InsertEvent(w.queue, event);
            RowsOk(q, w.log) && PairsDiffer(q) && event.id in q.events && q.rows == w.queue.rows
  {
    hide RowOk, Legal, HasRow;
  }

  lemma KeepsPublishing(w: World, event: Event, channels: seq<Channel>)
    requires Inv(w)
    ensures Inv(Next(w, Publishing(event, channels)))
  {
    hide InsertDeliveries, CreatedEntries, RowsOk, HasRow, PairsDiffer;
    var q, w' := InsertEvent(w.queue, event), Next(w, Publishing(event, channels));
    EventInserted(w, event);
    KeepsPublish(q, w.log, event, channels);
    assert PairsPublished(w'.queue, w'.published);
    hide PairsPublished;
    if w.worker.Up? {
      var batch := w.worker.batch;
      assert forall i | 0 <= i < |batch| :: w'.queue.rows[batch[i].id] == w.queue.rows[batch[i].id];
    }
  }

  lemma KeepsReplaying(w: World, id: nat, at: int)
    requires Inv(w) && CanReplay(w.queue, id)
    ensures Inv(w.(queue := ReplayDead(w.queue, id, at), log := w.log + [Replayed(id, at)]))
  {
    hide RowOk, Allowed, Legal, HasRow, PairsDiffer, PairsPublished;
    var q := ReplayDead(w.queue, id, at);
    ReplayRow(w.log, id, w.queue.rows[id], at);
    OneRow(w.queue, w.log, id, q.rows[id], Replayed(id, at));
    hide RowsOk;
    PairsStay(w.queue, q, w.published);
    if w.worker.Up? {
      var batch := w.worker.batch;
      assert forall i | 0 <= i < |batch| :: q.rows[batch[i].id] == w.queue.rows[batch[i].id];
    }
  }

  lemma StepKeepsInv(w: World, step: Step)
    requires Inv(w) && Enabled(w, step)
    ensures Inv(Next(w, step))
  {
    hide RowsOk, PairsDiffer, PairsPublished, IsClaim;
    match step
    case Publishing(event, channels) => KeepsPublishing(w, event, channels);
    case Replaying(id, at) => if CanReplay(w.queue, id) { KeepsReplaying(w, id, at); }
    case Later(_) =>
    case Start =>
    case Recovering =>
      KeepsRecover(w.queue, w.log);
      PairsStay(w.queue, Recover(w.queue), w.published);
    case Claiming(at, ids) =>
      assert ids == ids[..|ids|];
      KeepsHold(w.queue, w.log, at, ids, |ids|);
      BatchFromClaim(w.queue, w.log, at, ids);
      PairsStay(w.queue, Hold(w.queue, ids), w.published);
    case Delivering(sent, at) =>
      var c := w.worker.batch[0];
      KeepsSettle(w.queue, w.log, c, sent, at);
      BatchShrinks(w.queue, w.worker.batch, Settle(w.queue, c, sent, at).0);
      PairsStay(w.queue, Settle(w.queue, c, sent, at).0, w.published);
    case Crash =>
  }

  lemma {:induction false} RunKeepsInv(w: World, steps: seq<Step>, w': World)
    requires Inv(w) && Reaches(w, steps, w')
    ensures Inv(w')
    decreases |steps|
  {
    if steps != [] {
      StepKeepsInv(w, steps[0]);
      RunKeepsInv(Next(w, steps[0]), steps[1..], w');
    }
  }

  // ---------------------------------------------------------------------------------------------
  // What follows for every run from an empty store
  // ---------------------------------------------------------------------------------------------

  lemma StartIsOk()
    ensures Inv(START)
  {
  }

  /** The rows are the published pairs, one row for each. */
  lemma RowsAreThePublishedPairs(steps: seq<Step>, w: World, event: EventId, channel: Channel)
    requires Reaches(START, steps, w)
    ensures (event, channel) in w.published <==> HasRow(w.queue.rows, event, channel)
    ensures forall a, b | a in w.queue.rows && b in w.queue.rows && w.queue.rows[a].event == w.queue.rows[b].event
                          && w.queue.rows[a].channel == w.queue.rows[b].channel :: a == b
  {
    StartIsOk();
    RunKeepsInv(START, steps, w);
  }

  ghost predicate StillThere(w: World, w': World, id: nat)
    requires id in w.queue.rows
  {
    && id in w'.queue.rows
    && w'.queue.rows[id].event == w.queue.rows[id].event && w'.queue.rows[id].channel == w.queue.rows[id].channel
  }

  lemma StepLosesNoRow(w: World, step: Step, id: nat)
    requires Inv(w) && Enabled(w, step) && id in w.queue.rows
    ensures StillThere(w, Next(w, step), id)
  {
    hide RowsOk, PairsDiffer, PairsPublished, InsertDeliveries, Settle;
    match step
    case Publishing(event, channels) =>
      EventInserted(w, event);
      KeepsPublish(InsertEvent(w.queue, event), w.log, event, channels);
    case Delivering(sent, at) => SettleIsLocal(w.queue, w.worker.batch[0], sent, at);
    case _ =>
  }

  /** No step removes a row or turns it into another delivery. */
  lemma {:induction false} NoRowIsLost(w: World, steps: seq<Step>, w': World, id: nat)
    requires Inv(w) && Reaches(w, steps, w') && id in w.queue.rows
    ensures StillThere(w, w', id)
    decreases |steps|
  {
    hide Inv, Next;
    if steps != [] {
      StepKeepsInv(w, steps[0]);
      StepLosesNoRow(w, steps[0], id);
      NoRowIsLost(Next(w, steps[0]), steps[1..], w', id);
    }
  }

  /**
   Attempts count the failures since creation or replay, a row is dead exactly at six, and it is never
   claimed while an earlier claim is open, after it was settled for good, or before its wait is over.
   */
  lemma HistoryIsLegal(steps: seq<Step>, w: World, id: nat)
    requires Reaches(START, steps, w)
    ensures Legal(w.log)
    ensures id in w.queue.rows ==> RowOk(w.log, id, w.queue.rows[id])
  {
    StartIsOk();
    RunKeepsInv(START, steps, w);
  }

  lemma {:induction false} PrefixIsLegal(log: Log, n: nat)
    requires Legal(log) && n < |log|
    ensures Legal(log[..n]) && Allowed(log[..n], log[n])
    decreases |log|
  {
    if n < |log| - 1 {
      PrefixIsLegal(Init(log), n);
      assert Init(log)[..n] == log[..n];
    }
  }

  /** A delivered or accepted row is never claimed again. */
  lemma DeliveredIsFinal(steps: seq<Step>, w: World, id: nat, i: nat, j: nat)
    requires Reaches(START, steps, w) && i < j < |w.log| && w.log[i] == Completed(id)
    ensures w.log[j] != Completed(id) && !(w.log[j].Claimed? && w.log[j].id == id)
            && !(w.log[j].Failed? && w.log[j].id == id)
  {
    HistoryIsLegal(steps, w, id);
    PrefixIsLegal(w.log, j);
    assert w.log[..j][i] == Completed(id);
    FinishedIsClosed(w.log[..j], id);
  }

  /** Once finished, a row is never open again. */
  lemma {:induction false} FinishedIsClosed(log: Log, id: nat)
    requires Legal(log) && Finished(log, id)
    ensures !Open(log, id)
    decreases |log|
  {
    var before := Init(log);
    assert log == before + [Last(log)];
    Snoc(before, Last(log));
    if Finished(before, id) { FinishedIsClosed(before, id); }
  }

  lemma NotCompletedBefore(steps: seq<Step>, w: World, id: nat, k: nat, j: nat)
    requires Reaches(START, steps, w) && k < j < |w.log| && w.log[j].Claimed? && w.log[j].id == id
    ensures w.log[k] != Completed(id)
  {
    if w.log[k] == Completed(id) { DeliveredIsFinal(steps, w, id, k, j); }
  }

  /** Between two claims of one row lies a failure of it or a restart of the worker. */
  lemma ClaimsAreExclusive(steps: seq<Step>, w: World, id: nat, i: nat, j: nat)
    requires Reaches(START, steps, w) && i < j < |w.log|
    requires w.log[i].Claimed? && w.log[i].id == id && w.log[j].Claimed? && w.log[j].id == id
    ensures exists k | i < k < j :: w.log[k] == Restarted || (w.log[k].Failed? && w.log[k].id == id)
  {
    HistoryIsLegal(steps, w, id);
    PrefixIsLegal(w.log, j);
    ClosedBetween(w.log, id, i, j);
    forall k: nat | k < j ensures w.log[k] != Completed(id) { NotCompletedBefore(steps, w, id, k, j); }
  }

  /** The entry ends an open claim. */
  predicate Closes(entry: Entry, id: nat)
  {
    entry == Restarted || entry == Completed(id) || (entry.Failed? && entry.id == id)
  }

  lemma {:induction false} ClosedBetween(log: Log, id: nat, i: nat, n: nat)
    requires i < n <= |log| && log[i].Claimed? && log[i].id == id && !Open(log[..n], id)
    ensures exists k | i < k < n :: Closes(log[k], id)
    decreases n
  {
    assert Init(log[..n]) == log[..n - 1] && Last(log[..n]) == log[n - 1];
    if n - 1 > i && !Closes(log[n - 1], id) {
      ClosedBetween(log, id, i, n - 1);
    }
  }

  predicate Renews(entry: Entry, id: nat)
  {
    (entry.Created? || entry.Replayed? || entry.Failed?) && entry.id == id
  }

  lemma {:induction false} ReadyStays(log: Log, id: nat, i: nat, n: nat)
    requires i < n <= |log| && forall k | i < k < n :: !Renews(log[k], id)
    ensures ReadyAt(log[..n], id) == ReadyAt(log[..i + 1], id)
    decreases n
  {
    if n > i + 1 {
      assert Init(log[..n]) == log[..n - 1] && Last(log[..n]) == log[n - 1];
      ReadyStays(log, id, i, n - 1);
    }
  }

  /** After the n-th failure in a row the next claim is at least Wait(n) seconds later, and n is at most five. */
  lemma ClaimWaitsAfterFailure(steps: seq<Step>, w: World, id: nat, i: nat, j: nat)
    requires Reaches(START, steps, w) && i < j < |w.log|
    requires w.log[i].Failed? && w.log[i].id == id && w.log[j].Claimed? && w.log[j].id == id
    requires forall k | i < k < j :: !Renews(w.log[k], id)
    ensures var n := Failures(w.log[..i + 1], id);
            1 <= n <= 5 && w.log[i].at + Wait(n) <= w.log[j].at
  {
    HistoryIsLegal(steps, w, id);
    PrefixIsLegal(w.log, j);
    ReadyStays(w.log, id, i, j);
    FailuresStay(w.log, id, i, j);
    assert Init(w.log[..i + 1]) == w.log[..i] && Last(w.log[..i + 1]) == w.log[i];
  }

  lemma {:induction false} FailuresStay(log: Log, id: nat, i: nat, n: nat)
    requires i < n <= |log| && forall k | i < k < n :: !Renews(log[k], id)
    ensures Failures(log[..n], id) == Failures(log[..i + 1], id)
    decreases n
  {
    if n > i + 1 {
      assert Init(log[..n]) == log[..n - 1] && Last(log[..n]) == log[n - 1];
      FailuresStay(log, id, i, n - 1);
    }
  }

  // ---------------------------------------------------------------------------------------------
  // One pass of the worker loop
  // ---------------------------------------------------------------------------------------------

  /** Settling a batch in order, with what sending each row returns and the clock at that moment. */
  function SettleAll(q: Queue, batch: seq<Claim>, send: nat -> Sent, clock: nat -> int): Queue
    decreases |batch|
  {
    if batch == [] then q
    else SettleAll(Settle(q, batch[0], send(batch[0].id), clock(batch[0].id)).0, batch[1..], send, clock)
  }

  function DeliverySteps(batch: seq<Claim>, send: nat -> Sent, clock: nat -> int): seq<Step>
  {
    seq(|batch|, i requires 0 <= i < |batch| => Delivering(send(batch[i].id), clock(batch[i].id)))
  }

  /** A pass over the batch is a run of single deliveries, each of which may be the last before a crash. */
  lemma {:induction false} BatchIsARun(w: World, send: nat -> Sent, clock: nat -> int) returns (w': World)
    requires w.worker.Up? && forall id :: clock(id) <= w.clock
    ensures Reaches(w, DeliverySteps(w.worker.batch, send, clock), w')
    ensures w'.queue == SettleAll(w.queue, w.worker.batch, send, clock) && w'.worker == Up([])
    decreases |w.worker.batch|
  {
    hide Settle;
    var batch := w.worker.batch;
    var steps := DeliverySteps(batch, send, clock);
    if batch == [] {
      w' := w;
    } else {
      assert clock(batch[0].id) <= w.clock;
      var next := Next(w, steps[0]);
      assert steps[1..] == DeliverySteps(batch[1..], send, clock);
      w' := BatchIsARun(next, send, clock);
    }
  }
}
