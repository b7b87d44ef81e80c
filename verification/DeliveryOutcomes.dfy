/**
 What becomes of a delivery: which rows a round of the worker takes, and what a row shows after it was
 sent. Both are said of the log and of what sending returned, without the queries and updates of the store.
 */
module DeliveryOutcomes {
  import opened Options
  import opened Deliveries
  import opened DeliveryHistory

  // ---------------------------------------------------------------------------------------------
  // What is published
  // ---------------------------------------------------------------------------------------------

  /** A row nobody has touched yet. */
  predicate Untouched(row: Delivery, event: Event, channels: seq<Channel>)
  {
    row.channel in channels
    && row == Delivery(event.id, row.channel, Pending, 0, event.createdAt, "", None, event.createdAt)
  }

  lemma {:induction false} NewRowsAreUntouched(q: Queue, event: Event, channels: seq<Channel>)
    ensures var after := InsertDeliveries(q, event, channels);
            forall id | id in after.rows && (id !in q.rows || after.rows[id] != q.rows[id]) ::
              Untouched(after.rows[id], event, channels)
    decreases |channels|
  {
    hide HasRow;
    if channels != [] {
      var n := |channels| - 1;
      NewRowsAreUntouched(q, event, channels[..n]);
    }
  }

  /** The first event of an id stays, and what a publication adds is one untouched row per new pair. */
  lemma PublishingAdds(steps: seq<Step>, w: World, event: Event, channels: seq<Channel>)
    requires Reaches(START, steps, w)
    ensures var before, after := w.queue, Next(w, Publishing(event, channels)).queue;
            && after.events == (if event.id in before.events then before.events else before.events[event.id := event])
            && (forall id | id in before.rows :: id in after.rows && after.rows[id] == before.rows[id])
            && (forall id | id in after.rows && id !in before.rows :: Untouched(after.rows[id], event, channels))
  {
    StartIsOk();
    RunKeepsInv(START, steps, w);
    var q := InsertEvent(w.queue, event);
    EventInserted(w, event);
    KeepsPublish(q, w.log, event, channels);
    NewRowsAreUntouched(q, event, channels);
    hide Inv, RowsOk, PairsDiffer, HasRow, InsertDeliveries, CreatedEntries, Untouched;
  }

  // ---------------------------------------------------------------------------------------------
  // What is claimed
  // ---------------------------------------------------------------------------------------------

  /** In every reachable world a row is due exactly if the log allows a claim of it. */
  lemma DueExactly(steps: seq<Step>, w: World, id: nat, at: int)
    requires Reaches(START, steps, w)
    ensures Due(w.queue, at, id) <==> Allowed(w.log, Claimed(id, at))
  {
    StartIsOk();
    RunKeepsInv(START, steps, w);
    assert Exists(w.log, id) ==> id in w.queue.rows;
    hide Legal, PairsDiffer, PairsPublished, BatchOk, Exists, Finished, Open, Failures, ReadyAt;
  }

  /** One row is taken before another: the higher priority first, and then the older row. */
  predicate GoesFirst(q: Queue, a: nat, b: nat)
    requires a in q.rows && q.rows[a].event in q.events && b in q.rows && q.rows[b].event in q.events
  {
    var x, y := q.events[q.rows[a].event].priority, q.events[q.rows[b].event].priority;
    x > y || (x == y && a < b)
  }

  /**
   A round takes at most twenty rows that the log allows to claim, in order; what else it allows to claim
   comes behind all of them and stays only if there are twenty.
   */
  lemma RoundTakesTheFirst(steps: seq<Step>, w: World, at: int, ids: seq<nat>)
    requires Reaches(START, steps, w) && Enabled(w, Claiming(at, ids))
    ensures |ids| <= 20 && forall id | id in w.queue.rows :: w.queue.rows[id].event in w.queue.events
    ensures forall i | 0 <= i < |ids| :: ids[i] in w.queue.rows && Allowed(w.log, Claimed(ids[i], at))
    ensures forall i, j | 0 <= i < j < |ids| :: GoesFirst(w.queue, ids[i], ids[j])
    ensures forall id: nat | id !in ids && Allowed(w.log, Claimed(id, at)) ::
              id in w.queue.rows && |ids| == 20 && forall i | 0 <= i < |ids| :: GoesFirst(w.queue, ids[i], id)
  {
    StartIsOk();
    RunKeepsInv(START, steps, w);
    assert forall id | id in w.queue.rows :: w.queue.rows[id].event in w.queue.events;
    forall id: nat ensures Due(w.queue, at, id) <==> Allowed(w.log, Claimed(id, at)) { DueExactly(steps, w, id, at); }
    hide Inv, Allowed, Due;
    forall id: nat ensures Due(w.queue, at, id) ==> id in w.queue.rows { DueIsThere(w.queue, at, id); }
  }

  lemma DueIsThere(q: Queue, at: int, id: nat)
    ensures Due(q, at, id) ==> id in q.rows
  {
  }

  // ---------------------------------------------------------------------------------------------
  // What is settled
  // ---------------------------------------------------------------------------------------------

  /** The text that a row keeps of an error or a detail: its first thousand characters. */
  predicate Kept(text: string, kept: string)
  {
    if |text| <= 1000 then kept == text else kept == text[..1000]
  }

  /** The row after a sending that went wrong at `at`. */
  predicate Waits(row: Delivery, after: Delivery, at: int)
  {
    && after.attempts == row.attempts + 1 && after.deliveredAt == row.deliveredAt
    && (if row.attempts == 5 then after.status == Dead else after.status == Retry)
    && after.nextAt == at + match row.attempts
                            case 0 => 30
                            case 1 => 60
                            case 2 => 120
                            case 3 => 240
                            case 4 => 480
                            case _ => 960
  }

  /** What the row shows after sending returned `sent` at `at`. */
  predicate Shows(row: Delivery, after: Delivery, sent: Sent, at: int)
  {
    match sent
    case Refused(detail) => Waits(row, after, at) && Kept(detail, after.error)
    case Success(status, detail) =>
      if status == "delivered" then
        after == row.(status := Delivered, deliveredAt := Some(at), error := "")
      else if status == "accepted" then
        after == row.(status := Accepted, deliveredAt := Some(at), error := after.error) && Kept(detail, after.error)
      else
        Waits(row, after, at) && after.error == "delivery completion status must be delivered or accepted"
  }

  lemma Waiting(n: nat)
    requires n <= 5
    ensures Delay(n + 1) == match n
                            case 0 => 30
                            case 1 => 60
                            case 2 => 120
                            case 3 => 240
                            case 4 => 480
                            case _ => 960
  {
    DelayIsWait(n + 1);
    WaitsAre();
    assert Wait(6) == 2 * Wait(5);
  }

  lemma SettleShows(q: Queue, c: Claim, sent: Sent, at: int)
    requires c.id in q.rows && q.rows[c.id].attempts == c.attempts <= 5
    ensures c.id in Settle(q, c, sent, at).0.rows
    ensures Shows(q.rows[c.id], Settle(q, c, sent, at).0.rows[c.id], sent, at)
  {
    Waiting(c.attempts);
    hide Delay;
  }

  lemma HeadIsHeld(w: World)
    requires Inv(w) && w.worker.Up? && w.worker.batch != []
    ensures var c := w.worker.batch[0];
            c.id in w.queue.rows && w.queue.rows[c.id].attempts == c.attempts <= 5
            && w.queue.rows[c.id].status == Processing
  {
    hide PairsDiffer, PairsPublished, Legal, Exists, Finished, Open, Failures, ReadyAt;
    var c := w.worker.batch[0];
    assert RowOk(w.log, c.id, w.queue.rows[c.id]);
  }

  /** In every reachable world the row at the head of the batch shows what sending it returned; no other changes. */
  lemma SettlesAsSent(steps: seq<Step>, w: World, sent: Sent, at: int)
    requires Reaches(START, steps, w) && Enabled(w, Delivering(sent, at))
    ensures var id, after := w.worker.batch[0].id, Next(w, Delivering(sent, at));
            && id in w.queue.rows && id in after.queue.rows
            && Shows(w.queue.rows[id], after.queue.rows[id], sent, at)
            && after.queue == w.queue.(rows := w.queue.rows[id := after.queue.rows[id]])
            && after.worker == Up(w.worker.batch[1..])
  {
    StartIsOk();
    RunKeepsInv(START, steps, w);
    HeadIsHeld(w);
    hide Inv, Settle, Shows;
    SettleIsLocal(w.queue, w.worker.batch[0], sent, at);
    SettleShows(w.queue, w.worker.batch[0], sent, at);
  }

  /** An operator gives exactly a row that failed six times a fresh start. */
  lemma ReplaysExactly(steps: seq<Step>, w: World, id: nat, at: int)
    requires Reaches(START, steps, w) && at <= w.clock
    ensures var next := Next(w, Replaying(id, at));
            if Exists(w.log, id) && Failures(w.log, id) == 6 then
              && id in w.queue.rows && w.queue.rows[id].status == Dead
              && next.queue == w.queue.(rows := w.queue.rows[id := w.queue.rows[id].(
                   status := Pending, attempts := 0, nextAt := at, error := "", deliveredAt := None)])
            else next == w
  {
    StartIsOk();
    RunKeepsInv(START, steps, w);
    if id in w.queue.rows { assert RowOk(w.log, id, w.queue.rows[id]); }
    assert Exists(w.log, id) <==> id in w.queue.rows;
    hide Inv, Legal, Exists, Open, Finished, Failures, ReadyAt;
  }

  /** A step of the run sent this row and was told this status. */
  ghost predicate Announced(w: World, steps: seq<Step>, w': World, id: nat, status: string)
    requires Reaches(w, steps, w')
    decreases |steps|
  {
    steps != [] &&
      (Announces(w, steps[0], id, status) || Announced(Next(w, steps[0]), steps[1..], w', id, status))
  }

  ghost predicate Announces(w: World, step: Step, id: nat, status: string)
    requires Enabled(w, step)
  {
    step.Delivering? && w.worker.batch[0].id == id && step.sent.Success? && step.sent.status == status
  }

  ghost predicate Is(w: World, id: nat, status: Status)
  {
    id in w.queue.rows && w.queue.rows[id].status == status
  }

  lemma SettleAnnounces(w: World, sent: Sent, at: int, id: nat)
    requires Inv(w) && Enabled(w, Delivering(sent, at))
    ensures var step := Delivering(sent, at);
            && (Is(Next(w, step), id, Delivered) <==> Is(w, id, Delivered) || Announces(w, step, id, "delivered"))
            && (Is(Next(w, step), id, Accepted) <==> Is(w, id, Accepted) || Announces(w, step, id, "accepted"))
  {
    HeadIsHeld(w);
    hide Inv, Settle;
    SettleIsLocal(w.queue, w.worker.batch[0], sent, at);
    SettleShows(w.queue, w.worker.batch[0], sent, at);
  }

  lemma StepAnnounces(w: World, step: Step, id: nat)
    requires Inv(w) && Enabled(w, step)
    ensures Is(Next(w, step), id, Delivered) <==> Is(w, id, Delivered) || Announces(w, step, id, "delivered")
    ensures Is(Next(w, step), id, Accepted) <==> Is(w, id, Accepted) || Announces(w, step, id, "accepted")
  {
    match step
    case Delivering(sent, at) => SettleAnnounces(w, sent, at, id);
    case Publishing(event, channels) =>
      EventInserted(w, event);
      KeepsPublish(InsertEvent(w.queue, event), w.log, event, channels);
      hide Inv, RowsOk, PairsDiffer, HasRow, InsertDeliveries, CreatedEntries;
    case Claiming(at, ids) =>
      assert forall i | 0 <= i < |ids| :: Due(w.queue, at, ids[i]);
      hide Inv, IsClaim;
    case _ => hide Inv;
  }

  lemma {:induction false} RunAnnounces(w: World, steps: seq<Step>, w': World, id: nat)
    requires Inv(w) && Reaches(w, steps, w')
    ensures Is(w', id, Delivered) <==> Is(w, id, Delivered) || Announced(w, steps, w', id, "delivered")
    ensures Is(w', id, Accepted) <==> Is(w, id, Accepted) || Announced(w, steps, w', id, "accepted")
    decreases |steps|
  {
    hide Inv, Next, Is, Announces;
    if steps != [] {
      StepKeepsInv(w, steps[0]);
      StepAnnounces(w, steps[0], id);
      RunAnnounces(Next(w, steps[0]), steps[1..], w', id);
    }
  }

  /** Over every run a row is delivered, or accepted, exactly if sending it once returned that status. */
  lemma SettledExactlyAsAnnounced(steps: seq<Step>, w: World, id: nat)
    requires Reaches(START, steps, w)
    ensures Is(w, id, Delivered) <==> Announced(START, steps, w, id, "delivered")
    ensures Is(w, id, Accepted) <==> Announced(START, steps, w, id, "accepted")
  {
    StartIsOk();
    RunAnnounces(START, steps, w, id);
  }
}
