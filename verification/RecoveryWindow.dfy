/** When a failed trading inference may be repeated once: `okxquant_gateway/ai_recovery.py`. */
module RecoveryWindow {
  import opened Options
  import opened Json
  import opened Strings
  import J = JobTables

  /** Clock readings are in microseconds since the epoch; stored times are whole seconds. */
  const MICROS: nat := 1_000_000
  const SLOT_SECONDS: nat := 900
  const MIN_NEXT_SLOT_MARGIN_SECONDS: nat := 240
  const MIN_DELAY_SECONDS: int := 45
  const MAX_DELAY_SECONDS: int := 90

  /** The context of the failed call; `slot` is None when its text does not parse. */
  datatype Context = Context(scope: string, slot: Option<int>)

  datatype Plan = Plan(scope: string, slot: int, scheduledAt: int, expiresAt: int, fingerprint: J.Fingerprint)

  function SlotStart(now: nat): int
  {
    var epoch := now / MICROS;
    epoch - epoch % SLOT_SECONDS
  }

  /** `value == n` for a decoded JSON value */
  predicate EqualsInt(value: Json, n: int)
  {
    value == Int(n) || value == Float(n as real) || (n == 1 && value == Bool(true)) || (n == 0 && value == Bool(false))
  }

  predicate Eligible(failure: Option<Fields>, elapsed: int)
  {
    && failure.Some?
    && EqualsInt(Get(failure.value, "attempts"), 1)
    && var f := failure.value;
       || (Get(f, "category") == Str("http_error") && EqualsInt(Get(f, "http_status"), 503)
           && Get(f, "provider_error_code") == Str("system_cpu_overloaded") && 0 <= elapsed < 10_000)
       || (Get(f, "category") == Str("empty_model_output") && EqualsInt(Get(f, "http_status"), 200)
           && !Truthy(Get(f, "provider_error_code")) && 0 <= elapsed < 90_000)
       || (Get(f, "category") == Str("truncated_model_output") && EqualsInt(Get(f, "http_status"), 200)
           && !Truthy(Get(f, "provider_error_code")) && 0 <= elapsed < 180_000)
  }

  function Clamp(delay: int): int
  {
    if delay < MIN_DELAY_SECONDS then MIN_DELAY_SECONDS
    else if delay > MAX_DELAY_SECONDS then MAX_DELAY_SECONDS
    else delay
  }

  function FingerprintOf(failure: Fields): J.Fingerprint
  {
    [Get(failure, "category"), Get(failure, "http_status"), Get(failure, "provider_error_code"), Get(failure, "attempts")]
  }

  /** `schedule` up to the call of the store; `delay` is the given or the random one. */
  function Schedule(failure: Option<Fields>, elapsed: int, context: Option<Context>, delay: int, writable: bool,
                    now: nat)
    : Option<Plan>
  {
    if !Eligible(failure, elapsed) || context.None? || !writable then None
    else
      var scope := Clip(context.value.scope, 160);
      if scope == "" || context.value.slot.None? then None
      else
        var start := context.value.slot.value;
        var expires := start + (SLOT_SECONDS - MIN_NEXT_SLOT_MARGIN_SECONDS);
        if now >= expires * MICROS || SlotStart(now) != start then None
        else
          var scheduled := now + Clamp(delay) * MICROS;
          if scheduled >= expires * MICROS then None
          else Some(Plan(scope, start, scheduled / MICROS, expires, FingerprintOf(failure.value)))
  }

  /** `successful_model_call_in_slot` */
  predicate SlotAnswered(answered: set<int>, slot: int)
  {
    exists t | t in answered :: slot <= t < slot + SLOT_SECONDS
  }

  /** Why a due recovery can no longer run at `now`, if so. */
  function Hindrance(row: J.Recovery, enabled: bool, answered: set<int>, now: nat): Option<string>
  {
    if !enabled then Some("automatic trader disabled")
    else if now >= row.expiresAt * MICROS || !(row.slot * MICROS <= now < (row.slot + SLOT_SECONDS) * MICROS)
    then Some("recovery safety window expired")
    else if SlotAnswered(answered, row.slot) then Some("slot already has a successful model decision")
    else None
  }

  /** The window in which a stored recovery may start. */
  predicate InWindow(slot: int, scheduledAt: int, expiresAt: int)
  {
    slot % SLOT_SECONDS == 0 && expiresAt == slot + 660 && slot + MIN_DELAY_SECONDS <= scheduledAt < expiresAt
  }

  /** Milliseconds within which a first attempt must have failed to be repeated; 0 for what is never repeated. */
  function RepeatLimit(failure: Fields): int
  {
    var category, code := Get(failure, "category"), Get(failure, "provider_error_code");
    if EqualsInt(Get(failure, "http_status"), 503) then
      if category == Str("http_error") && code == Str("system_cpu_overloaded") then 10_000 else 0
    else if EqualsInt(Get(failure, "http_status"), 200) && !Truthy(code) then
      if category == Str("truncated_model_output") then 180_000
      else if category == Str("empty_model_output") then 90_000
      else 0
    else 0
  }

  predicate Repeatable(failure: Option<Fields>, elapsed: int)
  {
    failure.Some? && EqualsInt(Get(failure.value, "attempts"), 1) && 0 <= elapsed < RepeatLimit(failure.value)
  }

  lemma EligibleIsRepeatable(failure: Option<Fields>, elapsed: int)
    ensures Eligible(failure, elapsed) <==> Repeatable(failure, elapsed)
  {
  }

  /** The delay in seconds, not below 45 and not above 90. */
  predicate IsDelay(delay: int, d: int)
  {
    45 <= d <= 90 && (45 <= delay <= 90 ==> d == delay) && (delay < 45 ==> d == 45) && (delay > 90 ==> d == 90)
  }

  /**
   A recovery is planned exactly for a repeatable failure of the running slot that leaves room for the
   delay, and then for the second the delay leads to, at least four minutes before the next slot.
   */
  lemma PlannedExactlyInWindow(failure: Option<Fields>, elapsed: int, scope: string, slot: Option<int>, delay: int,
                               writable: bool, now: nat, d: int)
    requires IsDelay(delay, d)
    ensures var plan := Schedule(failure, elapsed, Some(Context(scope, slot)), delay, writable, now);
            && (plan.Some? <==>
                  && Repeatable(failure, elapsed) && writable && scope != "" && slot == Some(SlotStart(now))
                  && now - SlotStart(now) * MICROS < (660 - d) * MICROS)
            && (plan.Some? ==>
                  && plan.value.slot * MICROS <= now < (plan.value.slot + 660) * MICROS
                  && InWindow(plan.value.slot, plan.value.scheduledAt, plan.value.expiresAt)
                  && plan.value.scheduledAt == now / MICROS + d && plan.value.scope == Clip(scope, 160))
  {
    EligibleIsRepeatable(failure, elapsed);
    hide Eligible, Repeatable;
    SlotBounds(now);
    assert (now + d * MICROS) / MICROS == now / MICROS + d;
  }

  lemma SlotBounds(now: nat)
    ensures SlotStart(now) % SLOT_SECONDS == 0
    ensures SlotStart(now) * MICROS <= now < (SlotStart(now) + SLOT_SECONDS) * MICROS
  {
    var epoch := now / MICROS;
    assert epoch * MICROS <= now < epoch * MICROS + MICROS;
    assert epoch - epoch % SLOT_SECONDS == epoch / SLOT_SECONDS * SLOT_SECONDS;
  }
}
