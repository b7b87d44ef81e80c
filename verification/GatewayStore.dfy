/** `GatewayStore`: each method is one transaction on tables that are updated in place. */
module GatewayStore {
  import opened Options
  import opened Strings
  import opened Deliveries
  import H = DeliveryHistory
  import J = JobTables
  import W = RecoveryWindow
  import R = RecoveryRuns

  class GatewayStore {
    var events: map<EventId, Event>
    var deliveries: map<nat, Delivery>
    var lastDelivery: nat
    var jobRuns: map<nat, J.JobRun>
    var requests: map<nat, J.Request>
    var recoveries: map<nat, J.Recovery>
    var lastRun: nat
    var lastRequest: nat
    var lastRecovery: nat

    function Queue(): Queue
      reads this
    {
      Deliveries.Queue(events, deliveries, lastDelivery)
    }

    function Jobs(): J.Jobs
      reads this
    {
      J.Jobs(jobRuns, requests, recoveries, lastRun, lastRequest, lastRecovery)
    }

    /** AUTOINCREMENT counts every row. */
    ghost predicate Valid()
      reads this
    {
      && (forall id | id in deliveries :: id <= lastDelivery)
      && (forall id | id in recoveries :: id <= lastRecovery)
    }

    constructor ()
      ensures Queue() == EMPTY && Jobs() == J.EMPTY && Valid()
    {
      events, deliveries, lastDelivery := map[], map[], 0;
      jobRuns, requests, recoveries := map[], map[], map[];
      lastRun, lastRequest, lastRecovery := 0, 0, 0;
    }

    // -------------------------------------------------------------------------------------------
    // Deliveries
    // -------------------------------------------------------------------------------------------

    method Publish(event: Event, channels: seq<Channel>)
      requires Valid()
      modifies this
      ensures Valid() && Jobs() == old(Jobs())
      ensures Queue() == Deliveries.Publish(old(Queue()), event, channels)
    {
      if event.id !in events {
        events := events[event.id := event];
      }
      ghost var inserted := InsertEvent(old(Queue()), event);
      for n := 0 to |channels|
        invariant Valid() && Jobs() == old(Jobs())
        invariant Queue() == InsertDeliveries(inserted, event, channels[..n])
      {
        if !HasRow(deliveries, event.id, channels[n]) {
          lastDelivery := lastDelivery + 1;
          deliveries := deliveries[lastDelivery := NewDelivery(event, channels[n])];
        }
        assert channels[..n + 1][..n] == channels[..n];
      }
      assert channels[..|channels|] == channels;
    }

    /** The rows the due query returns, in its order. */
    method DueInOrder(now: int) returns (order: seq<nat>)
      requires Valid()
      ensures forall i | 0 <= i < |order| :: Due(Queue(), now, order[i])
      ensures forall i, j | 0 <= i < j < |order| :: Before(Queue(), order[i], order[j])
      ensures forall id | Due(Queue(), now, id) :: id in order
    {
      order := [];
      for id: nat := 0 to lastDelivery + 1
        invariant forall i | 0 <= i < |order| :: Due(Queue(), now, order[i]) && order[i] < id
        invariant forall i, j | 0 <= i < j < |order| :: Before(Queue(), order[i], order[j])
        invariant forall other: nat | Due(Queue(), now, other) && other < id :: other in order
      {
        if Due(Queue(), now, id) {
          var at := Place(id, order);
          ghost var was := order;
          order := order[..at] + [id] + order[at..];
          Inserted(Queue(), now, was, id, at);
        }
      }
    }

    /** Where `id`, the largest so far, goes in an ordered list. */
    method Place(id: nat, order: seq<nat>) returns (at: nat)
      requires id in deliveries && deliveries[id].event in events
      requires forall i | 0 <= i < |order| ::
                 order[i] in deliveries && deliveries[order[i]].event in events && order[i] < id
      requires forall i, j | 0 <= i < j < |order| :: Before(Queue(), order[i], order[j])
      ensures at <= |order|
      ensures forall i | 0 <= i < at :: Before(Queue(), order[i], id)
      ensures forall i | at <= i < |order| :: Before(Queue(), id, order[i])
    {
      at := |order|;
      while at > 0 && Before(Queue(), id, order[at - 1])
        invariant at <= |order|
        invariant forall i | at <= i < |order| :: Before(Queue(), id, order[i])
      {
        at := at - 1;
      }
      if at > 0 {
        assert Before(Queue(), order[at - 1], id);
        assert forall i | 0 <= i < at - 1 :: Before(Queue(), order[i], order[at - 1]);
      }
    }

    /** Claims the first due rows and returns them as they were selected. */
    method ClaimDue(now: int, limit: nat) returns (claimed: seq<nat>, rows: seq<Delivery>)
      requires Valid()
      modifies this
      ensures Valid() && Jobs() == old(Jobs())
      ensures IsClaim(old(Queue()), now, limit, claimed)
      ensures Queue() == Hold(old(Queue()), claimed)
      ensures |rows| == |claimed|
      ensures forall i | 0 <= i < |claimed| :: claimed[i] in old(deliveries) && rows[i] == old(deliveries)[claimed[i]]
    {
      var order := DueInOrder(now);
      claimed := if |order| <= limit then order else order[..limit];
      assert forall i | 0 <= i < |claimed| :: Due(Queue(), now, claimed[i]);
      rows := seq(|claimed|, i requires 0 <= i < |claimed| && claimed[i] in deliveries reads this => deliveries[claimed[i]]);
      deliveries := map id | id in deliveries ::
        if id in claimed then deliveries[id].(status := Processing) else deliveries[id];
    }

    method Complete(id: nat, status: string, detail: string, now: int) returns (ok: bool)
      requires Valid()
      modifies this
      ensures Valid() && Jobs() == old(Jobs())
      ensures ok == Deliveries.Complete(old(Queue()), id, status, detail, now).Done?
      ensures Queue() == if ok then Deliveries.Complete(old(Queue()), id, status, detail, now).value else old(Queue())
    {
      if status != "delivered" && status != "accepted" { return false; }
      if id in deliveries {
        var error := if status == "accepted" then Clip(detail, 1000) else "";
        deliveries := deliveries[id := deliveries[id].(
          status := if status == "delivered" then Delivered else Accepted, deliveredAt := Some(now), error := error)];
      }
      return true;
    }

    method Fail(id: nat, attempts: nat, error: string, maxAttempts: nat, now: int)
      requires Valid()
      modifies this
      ensures Valid() && Jobs() == old(Jobs())
      ensures Queue() == Deliveries.Fail(old(Queue()), id, attempts, error, maxAttempts, now)
    {
      var newAttempts := attempts + 1;
      var status := if newAttempts >= maxAttempts then Dead else Retry;
      if id in deliveries {
        deliveries := deliveries[id := deliveries[id].(
          status := status, attempts := newAttempts, nextAt := now + Delay(newAttempts), error := Clip(error, 1000))];
      }
    }

    method ReplayDead(id: nat, now: int) returns (replayed: bool)
      requires Valid()
      modifies this
      ensures Valid() && Jobs() == old(Jobs())
      ensures replayed == CanReplay(old(Queue()), id)
      ensures Queue() == Deliveries.ReplayDead(old(Queue()), id, now)
    {
      replayed := id in deliveries && deliveries[id].status == Dead;
      if replayed {
        deliveries := deliveries[id := deliveries[id].(
          status := Pending, attempts := 0, nextAt := now, error := "", deliveredAt := None)];
      }
    }

    method ReturnProcessing()
      modifies this`deliveries
      ensures deliveries == Recover(old(Queue())).rows
    {
      deliveries := map id | id in deliveries ::
        if deliveries[id].status == Processing then deliveries[id].(status := Retry) else deliveries[id];
    }

    method FailRuns(now: int)
      modifies this`jobRuns
      ensures jobRuns == J.RecoverJobs(old(Jobs()), now).runs
    {
      jobRuns := map id | id in jobRuns ::
        if jobRuns[id].status != J.Running then jobRuns[id]
        else jobRuns[id].(status := J.Failed, code := Some(125), finishedAt := Some(now),
                          detail := "gateway restarted; previous execution outcome unknown");
    }

    method FailRequests(now: int)
      modifies this`requests
      ensures requests == J.RecoverJobs(old(Jobs()), now).requests
    {
      requests := map id | id in requests ::
        if requests[id].status != J.Running then requests[id]
        else requests[id].(status := J.Failed, finishedAt := Some(now));
    }

    method FailRecoveries(now: int)
      modifies this`recoveries
      ensures recoveries == J.RecoverJobs(old(Jobs()), now).recoveries
    {
      recoveries := map id | id in recoveries ::
        if recoveries[id].status != J.Running then recoveries[id]
        else recoveries[id].(status := J.Failed, finishedAt := Some(now),
                             detail := "gateway restarted; recovery outcome unknown");
    }

    /** The startup transaction: one UPDATE for each table. */
    method RecoverProcessing(now: int)
      requires Valid()
      modifies this
      ensures Valid()
      ensures Queue() == Recover(old(Queue())) && Jobs() == J.RecoverJobs(old(Jobs()), now)
    {
      ReturnProcessing();
      FailRuns(now);
      FailRequests(now);
      FailRecoveries(now);
    }

    // -------------------------------------------------------------------------------------------
    // Jobs
    // -------------------------------------------------------------------------------------------

    method BeginJob(job: string, now: int) returns (runId: nat)
      requires Valid()
      modifies this
      ensures Valid() && Queue() == old(Queue())
      ensures Jobs() == J.BeginJob(old(Jobs()), job, now) && runId == lastRun
    {
      lastRun := lastRun + 1;
      jobRuns := jobRuns[lastRun := J.JobRun(job, J.Running, now, None, None, "")];
      runId := lastRun;
    }

    method FinishJob(runId: nat, code: int, detail: string, now: int)
      requires Valid()
      modifies this
      ensures Valid() && Queue() == old(Queue())
      ensures Jobs() == J.FinishJob(old(Jobs()), runId, code, detail, now)
    {
      var status := if code == 0 then J.Success else J.Failed;
      if runId in jobRuns {
        jobRuns := jobRuns[runId := jobRuns[runId].(
          status := status, finishedAt := Some(now), code := Some(code), detail := J.Tail(detail, 2000))];
      }
      requests := map id | id in requests ::
        if requests[id].runId == Some(runId) && requests[id].status == J.Running
        then requests[id].(status := status, finishedAt := Some(now)) else requests[id];
    }

    method RequestJob(job: string, actor: string, now: int) returns (ok: bool)
      requires Valid()
      modifies this
      ensures Valid() && Queue() == old(Queue())
      ensures ok == J.RequestJob(old(Jobs()), job, actor, now).Done?
      ensures Jobs() == if ok then J.RequestJob(old(Jobs()), job, actor, now).value else old(Jobs())
    {
      if job !in J.MANUAL_JOBS { return false; }
      if !J.HasActive(requests, job) {
        lastRequest := lastRequest + 1;
        requests := requests[lastRequest := J.Request(job, J.OneLine(actor), J.Pending, now, None, None)];
      }
      return true;
    }

    method ClaimJobRequest(id: nat, now: int) returns (runId: Option<nat>)
      requires Valid()
      modifies this
      ensures Valid() && Queue() == old(Queue())
      ensures Jobs() == J.ClaimJobRequest(old(Jobs()), id, now)
      ensures runId == if J.CanClaimRequest(old(Jobs()), id) then Some(lastRun) else None
    {
      if id !in requests || requests[id].status != J.Pending || requests[id].job !in J.MANUAL_JOBS { return None; }
      var run := BeginJob(requests[id].job, now);
      requests := requests[id := requests[id].(status := J.Running, runId := Some(run))];
      return Some(run);
    }

    method EnqueueRecovery(plan: W.Plan, modelCall: Option<int>, now: int)
      requires Valid()
      modifies this
      ensures Valid() && Queue() == old(Queue())
      ensures Jobs() == J.EnqueueRecovery(old(Jobs()), plan.scope, plan.slot, plan.scheduledAt, plan.expiresAt,
                                          plan.fingerprint, modelCall, now)
    {
      if !J.HasRecovery(recoveries, plan.scope, plan.slot) {
        lastRecovery := lastRecovery + 1;
        recoveries := recoveries[lastRecovery := J.Recovery(plan.scope, plan.slot, J.Pending, plan.scheduledAt,
          plan.expiresAt, now, None, None, 0, plan.fingerprint, modelCall, None, "")];
      }
    }

    method CancelRecovery(id: nat, detail: string, now: int)
      requires Valid()
      modifies this
      ensures Valid() && Queue() == old(Queue())
      ensures Jobs() == J.CancelRecovery(old(Jobs()), id, detail, now)
    {
      if id in recoveries && recoveries[id].status == J.Pending {
        recoveries := recoveries[id := recoveries[id].(
          status := J.Cancelled, finishedAt := Some(now), detail := Clip(detail, 1000))];
      }
    }

    method ClaimRecovery(id: nat, now: int) returns (runId: Option<nat>)
      requires Valid()
      modifies this
      ensures Valid() && Queue() == old(Queue())
      ensures Jobs() == J.ClaimRecovery(old(Jobs()), id, now)
      ensures runId == if J.CanClaimRecovery(old(Jobs()), id) then Some(lastRun) else None
    {
      if id !in recoveries || recoveries[id].status != J.Pending || recoveries[id].attempts != 0 { return None; }
      var run := BeginJob("trader_recovery", now);
      recoveries := recoveries[id := recoveries[id].(
        status := J.Running, startedAt := Some(now), attempts := 1, runId := Some(run))];
      return Some(run);
    }

    method FinishRecovery(id: nat, code: int, detail: string, now: int)
      requires Valid()
      modifies this
      ensures Valid() && Queue() == old(Queue())
      ensures Jobs() == J.FinishRecovery(old(Jobs()), id, code, detail, now)
    {
      if id !in recoveries || recoveries[id].status != J.Running { return; }
      var status := if code == 0 then J.Success else J.Failed;
      recoveries := recoveries[id := recoveries[id].(
        status := status, finishedAt := Some(now), detail := Clip(detail, 1000))];
      var run := recoveries[id].runId;
      if run.Some? && run.value in jobRuns {
        jobRuns := jobRuns[run.value := jobRuns[run.value].(
          status := status, finishedAt := Some(now), code := Some(code), detail := J.Tail(detail, 2000))];
      }
    }

    method DueRecoveries(now: int) returns (due: seq<nat>)
      requires Valid()
      ensures forall id :: id in due <==> J.DueRecovery(Jobs(), now, id)
      ensures forall i, j | 0 <= i < j < |due| :: due[i] < due[j]
    {
      due := [];
      for id: nat := 0 to lastRecovery + 1
        invariant forall other: nat :: other in due <==> other < id && J.DueRecovery(Jobs(), now, other)
        invariant forall i, j | 0 <= i < j < |due| :: due[i] < due[j]
      {
        if J.DueRecovery(Jobs(), now, id) {
          assert forall i | 0 <= i < |due| :: due[i] in due;
          due := due + [id];
        }
      }
    }
  }

  lemma Inserted(q: Queue, now: int, was: seq<nat>, id: nat, at: nat)
    requires at <= |was| && Due(q, now, id)
    requires forall i | 0 <= i < |was| :: Due(q, now, was[i])
    requires forall i, j | 0 <= i < j < |was| :: Before(q, was[i], was[j])
    requires forall i | 0 <= i < at :: Before(q, was[i], id)
    requires forall i | at <= i < |was| :: Before(q, id, was[i])
    ensures var order := was[..at] + [id] + was[at..];
            && (forall i | 0 <= i < |order| :: Due(q, now, order[i]))
            && (forall i, j | 0 <= i < j < |order| :: Before(q, order[i], order[j]))
            && (forall other :: other in order <==> other in was || other == id)
  {
    hide Due, Before;
    var order := was[..at] + [id] + was[at..];
    forall i, j | 0 <= i < j < |order| ensures Before(q, order[i], order[j]) {
      if j > at && i != at { assert order[j] == was[j - 1]; }
    }
    forall other | other in was ensures other in order {
      var i :| 0 <= i < |was| && was[i] == other;
      assert order[if i < at then i else i + 1] == other;
    }
  }

  // ---------------------------------------------------------------------------------------------
  // The worker loop
  // ---------------------------------------------------------------------------------------------

  class GatewayWorker {
    const store: GatewayStore

    constructor (store: GatewayStore)
      ensures this.store == store
    {
      this.store := store;
    }

    /** One round of `run`: claim up to twenty rows, send each, and settle it before the next one is sent. */
    method DeliverDue(now: int, send: nat -> H.Sent, clock: nat -> int) returns (claimed: seq<nat>)
      requires store.Valid()
      modifies store
      ensures store.Valid() && store.Jobs() == old(store.Jobs())
      ensures IsClaim(old(store.Queue()), now, 20, claimed)
      ensures forall i | 0 <= i < |claimed| :: claimed[i] in old(store.deliveries)
      ensures store.Queue() == H.SettleAll(Hold(old(store.Queue()), claimed), H.Claims(old(store.Queue()), claimed), send, clock)
    {
      hide IsClaim, Hold, H.Settle;
      var rows;
      claimed, rows := store.ClaimDue(now, 20);
      ghost var batch := H.Claims(old(store.Queue()), claimed);
      ghost var held := store.Queue();
      for n := 0 to |claimed|
        invariant store.Valid() && store.Jobs() == old(store.Jobs())
        invariant H.SettleAll(store.Queue(), batch[n..], send, clock) == H.SettleAll(held, batch, send, clock)
      {
        DeliverOne(claimed[n], rows[n].attempts, send(claimed[n]), clock(claimed[n]));
        assert batch[n..][0] == batch[n] && batch[n..][1..] == batch[n + 1..];
      }
      assert batch[|claimed|..] == [];
    }

    /** Settles one sent row; a completion the store refuses is recorded as a failure. */
    method DeliverOne(id: nat, attempts: nat, sent: H.Sent, now: int)
      requires store.Valid()
      modifies store
      ensures store.Valid() && store.Jobs() == old(store.Jobs())
      ensures store.Queue() == H.Settle(old(store.Queue()), H.Claim(id, attempts), sent, now).0
    {
      match sent
      case Success(status, detail) =>
        var ok := store.Complete(id, status, detail, now);
        if !ok {
          store.Fail(id, attempts, "delivery completion status must be delivered or accepted", MAX_ATTEMPTS, now);
        }
      case Refused(detail) => store.Fail(id, attempts, detail, MAX_ATTEMPTS, now);
    }
  }

  // ---------------------------------------------------------------------------------------------
  // _launch_due_recovery
  // ---------------------------------------------------------------------------------------------

  predicate Hindered(j: J.Jobs, enabled: bool, answered: set<int>, now: nat, id: nat)
  {
    id in j.recoveries && W.Hindrance(j.recoveries[id], enabled, answered, now).Some?
  }

  /** `after` is `j` with exactly the hindered rows of `ids` cancelled. */
  ghost predicate CancelledAmong(j: J.Jobs, after: J.Jobs, enabled: bool, answered: set<int>, now: nat, ids: seq<nat>)
  {
    && after == j.(recoveries := after.recoveries) && after.recoveries.Keys == j.recoveries.Keys
    && forall id | id in j.recoveries ::
         if id in ids && Hindered(j, enabled, answered, now, id)
         then after.recoveries[id].status == J.Cancelled
         else after.recoveries[id] == j.recoveries[id]
  }

  lemma CancelledOneMore(j: J.Jobs, before: J.Jobs, enabled: bool, answered: set<int>, now: nat, due: seq<nat>, n: nat,
                         detail: string, at: int)
    requires n < |due| && due[n] in j.recoveries && j.recoveries[due[n]].status == J.Pending && due[n] !in due[..n]
    requires CancelledAmong(j, before, enabled, answered, now, due[..n])
    ensures Hindered(j, enabled, answered, now, due[n]) ==>
              CancelledAmong(j, J.CancelRecovery(before, due[n], detail, at), enabled, answered, now, due[..n + 1])
    ensures !Hindered(j, enabled, answered, now, due[n]) ==>
              CancelledAmong(j, before, enabled, answered, now, due[..n + 1])
  {
    assert due[..n + 1] == due[..n] + [due[n]];
    hide Hindered;
  }

  lemma UntouchedYet(j: J.Jobs, before: J.Jobs, enabled: bool, answered: set<int>, now: nat, due: seq<nat>, n: nat)
    requires n < |due| && due[n] in j.recoveries && due[n] !in due[..n]
    requires CancelledAmong(j, before, enabled, answered, now, due[..n])
    ensures due[n] in before.recoveries && before.recoveries[due[n]] == j.recoveries[due[n]]
    ensures Hindered(j, enabled, answered, now, due[n])
            <==> W.Hindrance(before.recoveries[due[n]], enabled, answered, now).Some?
  {
  }

  lemma NothingCancelledYet(j: J.Jobs, enabled: bool, answered: set<int>, now: nat)
    ensures CancelledAmong(j, j, enabled, answered, now, [])
  {
  }

  class GatewayScheduler {
    const store: GatewayStore
    var running: map<string, R.Work>

    constructor (store: GatewayStore)
      ensures this.store == store && running == map[]
    {
      this.store := store;
      running := map[];
    }

    /** Cancels the recovery if something hinders it. */
    method CancelHindered(id: nat, now: nat, enabled: bool, answered: set<int>, at: int) returns (open: bool)
      requires store.Valid() && id in store.recoveries
      modifies store
      ensures store.Valid() && store.Queue() == old(store.Queue())
      ensures var hindrance := W.Hindrance(old(store.recoveries)[id], enabled, answered, now);
              && open == hindrance.None?
              && store.Jobs() == if open then old(store.Jobs())
                                 else J.CancelRecovery(old(store.Jobs()), id, hindrance.value, at)
    {
      var row := store.recoveries[id];
      open := false;
      if !enabled {
        store.CancelRecovery(id, "automatic trader disabled", at);
      } else if now >= row.expiresAt * W.MICROS
                || !(row.slot * W.MICROS <= now < (row.slot + W.SLOT_SECONDS) * W.MICROS) {
        store.CancelRecovery(id, "recovery safety window expired", at);
      } else if W.SlotAnswered(answered, row.slot) {
        store.CancelRecovery(id, "slot already has a successful model decision", at);
      } else {
        open := true;
      }
    }

    /**
     One launch pass over the due recoveries, oldest first: what can no longer run is cancelled, the
     first that can is submitted if the lane is free, and nothing behind it is looked at.
     */
    method LaunchDueRecovery(now: nat, enabled: bool, answered: set<int>, at: int) returns (launched: Option<nat>)
      requires store.Valid()
      modifies this, store
      ensures store.Valid() && store.Queue() == old(store.Queue())
      ensures launched.Some? ==>
                && "trader" !in old(running) && running == old(running)["trader" := R.Recovering(launched.value)]
                && J.DueRecovery(old(store.Jobs()), now / W.MICROS, launched.value)
                && !Hindered(old(store.Jobs()), enabled, answered, now, launched.value)
      ensures launched.None? ==> running == old(running)
      ensures exists seen: seq<nat> ::
                && CancelledAmong(old(store.Jobs()), store.Jobs(), enabled, answered, now, seen)
                && (forall id: nat :: id in seen <==>
                      J.DueRecovery(old(store.Jobs()), now / W.MICROS, id) && (launched.Some? ==> id < launched.value))
                && ("trader" !in old(running) ==>
                      forall id | id in seen :: Hindered(old(store.Jobs()), enabled, answered, now, id))
    {
      hide CancelledAmong, Hindered, J.CancelRecovery;
      var busy := "trader" in running;
      var due := store.DueRecoveries(now / W.MICROS);
      ghost var j := store.Jobs();
      NothingCancelledYet(j, enabled, answered, now);
      assert due[..0] == [];
      for n := 0 to |due|
        invariant store.Valid() && store.Queue() == old(store.Queue()) && running == old(running)
        invariant CancelledAmong(j, store.Jobs(), enabled, answered, now, due[..n])
        invariant !busy ==> forall id | id in due[..n] :: Hindered(j, enabled, answered, now, id)
      {
        assert due[n] in due && due[n] !in due[..n] && due[..n + 1] == due[..n] + [due[n]];
        UntouchedYet(j, store.Jobs(), enabled, answered, now, due, n);
        ghost var hindrance := W.Hindrance(j.recoveries[due[n]], enabled, answered, now);
        CancelledOneMore(j, store.Jobs(), enabled, answered, now, due, n,
                         if hindrance.Some? then hindrance.value else "", at);
        var open := CancelHindered(due[n], now, enabled, answered, at);
        if open && !busy {
          running := running["trader" := R.Recovering(due[n])];
          SmallerCameFirst(due, n);
          ghost var seen := due[..n];
          assert CancelledAmong(j, store.Jobs(), enabled, answered, now, seen);
          return Some(due[n]);
        }
      }
      assert due[..|due|] == due;
      return None;
    }
  }

  lemma SmallerCameFirst(due: seq<nat>, n: nat)
    requires n < |due| && forall i, j | 0 <= i < j < |due| :: due[i] < due[j]
    ensures forall id :: id in due[..n] <==> id in due && id < due[n]
  {
    forall id | id in due && id < due[n] ensures id in due[..n] {
      var i :| 0 <= i < |due| && due[i] == id;
      assert due[..n][i] == id;
    }
  }
}
