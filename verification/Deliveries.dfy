/** The delivery queue tables of `okxquant_gateway/store.py` and the transactions on them. */
module Deliveries {
  import opened Options
  import opened Strings

  type EventId = string
  type Channel = string

  datatype Event = Event(id: EventId, kind: string, title: string, message: string, payload: string,
                         priority: int, createdAt: int)

  datatype Status = Pending | Processing | Retry | Delivered | Accepted | Dead

  /** Times are whole seconds, as the stored text is. */
  datatype Delivery = Delivery(event: EventId, channel: Channel, status: Status, attempts: nat, nextAt: int,
                               error: string, deliveredAt: Option<int>, createdAt: int)

  /** `lastId` is the AUTOINCREMENT counter. */
  datatype Queue = Queue(events: map<EventId, Event>, rows: map<nat, Delivery>, lastId: nat)

  datatype Outcome<T> = Done(value: T) | ValueError

  const EMPTY := Queue(map[], map[], 0)
  const MAX_ATTEMPTS: nat := 6

  function Power2(n: nat): nat
  {
    if n == 0 then 1 else 2 * Power2(n - 1)
  }

  function Min(a: int, b: int): int
  {
    if a <= b then a else b
  }

  // ---------------------------------------------------------------------------------------------
  // publish
  // ---------------------------------------------------------------------------------------------

  /** UNIQUE(event_id, channel) */
  predicate HasRow(rows: map<nat, Delivery>, event: EventId, channel: Channel)
  {
    exists id | id in rows :: rows[id].event == event && rows[id].channel == channel
  }

  function NewDelivery(event: Event, channel: Channel): Delivery
  {
    Delivery(event.id, channel, Pending, 0, event.createdAt, "", None, event.createdAt)
  }

  function InsertDelivery(q: Queue, event: Event, channel: Channel): Queue
  {
    if HasRow(q.rows, event.id, channel) then q
    else q.(rows := q.rows[q.lastId + 1 := NewDelivery(event, channel)], lastId := q.lastId + 1)
  }

  function InsertDeliveries(q: Queue, event: Event, channels: seq<Channel>): Queue
    decreases |channels|
  {
    if channels == [] then q
    else
      var n := |channels| - 1;
      InsertDelivery(InsertDeliveries(q, event, channels[..n]), event, channels[n])
  }

  function InsertEvent(q: Queue, event: Event): Queue
  {
    if event.id in q.events then q else q.(events := q.events[event.id := event])
  }

  function Publish(q: Queue, event: Event, channels: seq<Channel>): Queue
  {
    InsertDeliveries(InsertEvent(q, event), event, channels)
  }

  // ---------------------------------------------------------------------------------------------
  // claim_due
  // ---------------------------------------------------------------------------------------------

  /** The WHERE clause of the due query, with its join. */
  predicate Due(q: Queue, now: int, id: nat)
  {
    && id in q.rows && q.rows[id].event in q.events
    && q.rows[id].status in {Pending, Retry} && q.rows[id].nextAt <= now
  }

  function Priority(q: Queue, id: nat): int
    requires id in q.rows && q.rows[id].event in q.events
  {
    q.events[q.rows[id].event].priority
  }

  /** ORDER BY priority DESC, id ASC */
  predicate Before(q: Queue, a: nat, b: nat)
  {
    && a in q.rows && q.rows[a].event in q.events && b in q.rows && q.rows[b].event in q.events
    && (Priority(q, a) > Priority(q, b) || (Priority(q, a) == Priority(q, b) && a < b))
  }

  /** `ids` is what the due query returns: the first due rows in claim order. */
  ghost predicate IsClaim(q: Queue, now: int, limit: nat, ids: seq<nat>)
  {
    && |ids| <= limit
    && (forall i | 0 <= i < |ids| :: Due(q, now, ids[i]))
    && (forall i, j | 0 <= i < j < |ids| :: Before(q, ids[i], ids[j]))
    && (forall id | Due(q, now, id) && id !in ids :: |ids| == limit && forall i | 0 <= i < |ids| :: Before(q, ids[i], id))
  }

  /** UPDATE deliveries SET status='processing' WHERE id IN (ids) */
  function Hold(q: Queue, ids: seq<nat>): Queue
  {
    q.(rows := map id | id in q.rows :: if id in ids then q.rows[id].(status := Processing) else q.rows[id])
  }

  // ---------------------------------------------------------------------------------------------
  // complete, fail, recover_processing, replay_dead
  // ---------------------------------------------------------------------------------------------

  function Complete(q: Queue, id: nat, status: string, detail: string, now: int): Outcome<Queue>
  {
    if status != "delivered" && status != "accepted" then ValueError
    else if id !in q.rows then Done(q)
    else
      var row := q.rows[id].(
        status := if status == "delivered" then Delivered else Accepted,
        deliveredAt := Some(now),
        error := if status == "accepted" then Clip(detail, 1000) else "");
      Done(q.(rows := q.rows[id := row]))
  }

  function Delay(newAttempts: nat): int
    requires newAttempts > 0
  {
    Min(3600, 30 * Power2(Min(newAttempts - 1, 7)))
  }

  function Fail(q: Queue, id: nat, attempts: nat, error: string, maxAttempts: nat, now: int): Queue
  {
    if id !in q.rows then q
    else
      var row := q.rows[id].(
        status := if attempts + 1 >= maxAttempts then Dead else Retry,
        attempts := attempts + 1,
        nextAt := now + Delay(attempts + 1),
        error := Clip(error, 1000));
      q.(rows := q.rows[id := row])
  }

  /** The deliveries part of `recover_processing`. */
  function Recover(q: Queue): Queue
  {
    q.(rows := map id | id in q.rows ::
      if q.rows[id].status == Processing then q.rows[id].(status := Retry) else q.rows[id])
  }

  predicate CanReplay(q: Queue, id: nat)
  {
    id in q.rows && q.rows[id].status == Dead
  }

  function ReplayDead(q: Queue, id: nat, now: int): Queue
  {
    if !CanReplay(q, id) then q
    else
      q.(rows := q.rows[id := q.rows[id].(status := Pending, attempts := 0, nextAt := now, error := "", deliveredAt := None)])
  }

  // ---------------------------------------------------------------------------------------------
  // The due query has one answer
  // ---------------------------------------------------------------------------------------------

  lemma BeforeOrders(q: Queue, a: nat, b: nat, c: nat)
    requires Before(q, a, b)
    ensures !Before(q, b, a) && a != b
    ensures Before(q, b, c) ==> Before(q, a, c)
  {
  }

  /** After equal beginnings, the next row of `x` is also the next row of `y` or comes after it. */
  lemma NextIsThere(q: Queue, now: int, limit: nat, x: seq<nat>, y: seq<nat>, k: nat)
    requires IsClaim(q, now, limit, x) && IsClaim(q, now, limit, y) && k < |x| && k <= |y| && x[..k] == y[..k]
    ensures k < |y| && (y[k] == x[k] || Before(q, y[k], x[k]))
  {
    hide Due, Before;
    assert forall i | 0 <= i < k :: x[i] == x[..k][i] && y[i] == y[..k][i];
    assert Due(q, now, x[k]);
    if x[k] in y {
      var j :| 0 <= j < |y| && y[j] == x[k];
      forall i | 0 <= i < k ensures x[i] != x[k] { BeforeOrders(q, x[i], x[k], x[k]); }
    }
  }

  lemma {:induction false} ClaimIsUnique(q: Queue, now: int, limit: nat, x: seq<nat>, y: seq<nat>, n: nat)
    requires IsClaim(q, now, limit, x) && IsClaim(q, now, limit, y) && n <= |x|
    ensures n <= |y| && x[..n] == y[..n]
    decreases n
  {
    if n > 0 {
      ClaimIsUnique(q, now, limit, x, y, n - 1);
      NextIsThere(q, now, limit, x, y, n - 1);
      NextIsThere(q, now, limit, y, x, n - 1);
      hide IsClaim, Before;
      if Before(q, y[n - 1], x[n - 1]) { BeforeOrders(q, y[n - 1], x[n - 1], x[n - 1]); }
      assert x[..n] == x[..n - 1] + [x[n - 1]] && y[..n] == y[..n - 1] + [y[n - 1]];
    }
  }

  /** A query of a given size over a given table returns one list of rows, in one order. */
  lemma DueQueryIsDetermined(q: Queue, now: int, limit: nat, x: seq<nat>, y: seq<nat>)
    requires IsClaim(q, now, limit, x) && IsClaim(q, now, limit, y)
    ensures x == y
  {
    hide IsClaim;
    ClaimIsUnique(q, now, limit, x, y, |x|);
    ClaimIsUnique(q, now, limit, y, x, |y|);
    assert x == x[..|x|] && y == y[..|y|];
  }
}
