/**
 Every sequence of operations on the account registry, probes included: a probe reads a connection, asks
 the exchange without the lock, and publishes what it found later.
 */
module AccountRuns {
  import opened Options
  import opened Strings
  import opened Accounts

  /** A probe between its two halves. */
  datatype Probe = Probe(id: Id, mode: Mode, seen: Connection)

  /** `used` are the identities ever given out; a new identity is never one of them. */
  datatype World = World(registry: Registry, used: set<Id>, probes: seq<Probe>)

  datatype Op =
    | Creating(title: string, auth: AuthType, mode: Mode, site: string, credentials: Option<Credentials>, newId: Id)
    | Authorizing(id: Id, now: int)
    | Authorized(id: Id, generation: nat, expires: Option<int>, now: int)
    | ProbeReads(id: Id, mode: Mode)
    | ProbePublishes(k: nat, ex: Exchange, complete: bool, news: bool, now: int)
    | Binding(purpose: Purpose, id: Id, confirmation: string, legacy: Legacy, ex: Exchange, newId: Id, now: int)
    | Unbinding(purpose: Purpose, confirmation: string, ex: Exchange)
    | Activating(mode: Mode, confirmation: string, legacy: Legacy, ex: Exchange, now: int)
    | Deleting(id: Id, confirmation: string, home: bool, now: int)

  const START := World(EMPTY, {}, [])

  predicate Enabled(w: World, op: Op)
  {
    match op
    case Creating(_, _, _, _, _, newId) => newId != "" && newId !in w.used
    case Binding(_, _, _, _, _, newId, _) => newId != "" && newId !in w.used
    case ProbeReads(id, _) => id in w.registry.connections
    case ProbePublishes(k, _, _, _, _) => k < |w.probes|
    case _ => true
  }

  function Outcome(w: World, op: Op): Result<Registry>
    requires Enabled(w, op)
  {
    var r := w.registry;
    match op
    case Creating(title, auth, mode, site, credentials, newId) => Create(r, title, auth, mode, site, credentials, newId)
    case Authorizing(id, now) => OAuthStart(r, id, now)
    case Authorized(id, generation, expires, now) => OAuthAnswered(r, id, generation, expires, now)
    case ProbeReads(_, _) => Ok(r)
    case ProbePublishes(k, ex, complete, news, now) =>
      var p := w.probes[k];
      ProbePublish(r, p.id, p.seen, p.mode, ProbeFinds(p.seen, p.mode, ex, complete, news, now))
    case Binding(purpose, id, confirmation, legacy, ex, newId, now) =>
      Bind(r, purpose, id, confirmation, legacy, ex, newId, now)
    case Unbinding(purpose, confirmation, ex) => Unbind(r, purpose, confirmation, ex)
    case Activating(mode, confirmation, legacy, ex, now) => Activate(r, mode, confirmation, legacy, ex, now)
    case Deleting(id, confirmation, home, now) => Delete(r, id, confirmation, home, now)
  }

  /** A refused operation changes nothing. */
  function Next(w: World, op: Op): World
    requires Enabled(w, op)
  {
    var registry := match Outcome(w, op) case Ok(after) => after case Refused(_) => w.registry;
    World(registry,
          if op.Creating? || op.Binding? then w.used + {op.newId} else w.used,
          if op.ProbeReads? then w.probes + [Probe(op.id, op.mode, w.registry.connections[op.id])] else w.probes)
  }

  ghost predicate Reaches(w: World, ops: seq<Op>, w': World)
    decreases |ops|
  {
    if ops == [] then w' == w
    else Enabled(w, ops[0]) && Reaches(Next(w, ops[0]), ops[1..], w')
  }

  // ---------------------------------------------------------------------------------------------
  // The invariant
  // ---------------------------------------------------------------------------------------------

  /** Keys identify an account only in their own environment. */
  predicate CapabilityOk(c: Connection, mode: Mode)
  {
    mode in c.capabilities ==>
      && (c.capabilities[mode].readReady ==> c.capabilities[mode].uid != "")
      && (c.auth.ApiKey? && c.capabilities[mode].uid != "" ==> c.mode == mode)
  }

  predicate ConnectionOk(c: Connection)
  {
    && (c.auth.ApiKey? ==> c.credentials.Some?)
    && CapabilityOk(c, Demo) && CapabilityOk(c, Live)
  }

  predicate ConnectionsOk(connections: map<Id, Connection>, used: set<Id>)
  {
    forall id | id in connections :: id != "" && id in used && ConnectionOk(connections[id])
  }

  /** A binding names a connection, and a trading binding one with keys for its mode. */
  predicate BindingOk(r: Registry, purpose: Purpose)
  {
    purpose in r.bindings ==>
      && r.bindings[purpose] in r.connections
      && (purpose.Trading? ==>
            && r.connections[r.bindings[purpose]].auth == ApiKey
            && r.connections[r.bindings[purpose]].mode == purpose.mode)
  }

  predicate BindingsOk(r: Registry)
  {
    BindingOk(r, News) && BindingOk(r, Trading(Demo)) && BindingOk(r, Trading(Live))
  }

  /** Before the migration there is no trading binding; after it there is an active mode. */
  predicate MigrationOk(r: Registry)
  {
    && (r.managed <==> r.activeMode.Some?)
    && (!r.managed ==> Trading(Demo) !in r.bindings && Trading(Live) !in r.bindings)
    && |r.events| <= 100
  }

  predicate SameKeys(a: Connection, b: Connection)
  {
    a.auth == b.auth && a.mode == b.mode && a.site == b.site && a.credentials == b.credentials
  }

  predicate ProbeOk(w: World, p: Probe)
  {
    p.id in w.used && (p.id in w.registry.connections ==> SameKeys(p.seen, w.registry.connections[p.id]))
  }

  predicate ProbesOk(w: World)
  {
    forall k | 0 <= k < |w.probes| :: ProbeOk(w, w.probes[k])
  }

  predicate Inv(w: World)
  {
    && ConnectionsOk(w.registry.connections, w.used) && BindingsOk(w.registry) && MigrationOk(w.registry) && ProbesOk(w)
  }

  // ---------------------------------------------------------------------------------------------
  // How operations change the connections
  // ---------------------------------------------------------------------------------------------

  /** Connections keep their keys; new ones carry an identity not used before. */
  predicate KeysKept(w: World, after: map<Id, Connection>)
  {
    forall id | id in after ::
      if id in w.registry.connections then SameKeys(w.registry.connections[id], after[id]) else id !in w.used
  }

  lemma ProbesStay(w: World, w': World)
    requires ProbesOk(w) && KeysKept(w, w'.registry.connections) && w.used <= w'.used
    requires w'.probes == w.probes
    ensures ProbesOk(w')
  {
    forall k | 0 <= k < |w'.probes| ensures ProbeOk(w', w'.probes[k]) {
      assert ProbeOk(w, w.probes[k]);
    }
  }

  /** One connection is replaced by one with the same keys. */
  lemma OneConnection(w: World, id: Id, c: Connection, after: Registry)
    requires Inv(w) && id in w.registry.connections && SameKeys(w.registry.connections[id], c) && ConnectionOk(c)
    requires after.connections == w.registry.connections[id := c] && after.bindings == w.registry.bindings
    ensures ConnectionsOk(after.connections, w.used) && BindingsOk(after) && KeysKept(w, after.connections)
  {
  }

  lemma CanonicalKeepsKeys(before: Lookup, c: Connection, mode: Mode, legacy: Legacy, ex: Exchange)
    requires ConnectionOk(c) && (c.auth.ApiKey? ==> c.mode == mode)
    ensures var after := Canonicalize(before, c, mode, legacy, ex);
            after.Some? ==> SameKeys(c, after.value) && ConnectionOk(after.value)
  {
  }

  lemma ProbeFindsOk(c: Connection, mode: Mode, ex: Exchange, complete: bool, news: bool, now: int)
    ensures var found := ProbeFinds(c, mode, ex, complete, news, now);
            (found.readReady ==> found.uid != "") && (found.uid != "" ==> Reachable(c, mode))
  {
  }

  // ---------------------------------------------------------------------------------------------
  // Every operation keeps the invariant
  // ---------------------------------------------------------------------------------------------

  lemma CreateKeeps(w: World, op: Op)
    requires Inv(w) && Enabled(w, op) && op.Creating?
    ensures Inv(Next(w, op))
  {
    var w' := Next(w, op);
    hide Strip;
    ProbesStay(w, w');
  }

  lemma AuthorizingKeeps(w: World, op: Op)
    requires Inv(w) && Enabled(w, op) && (op.Authorizing? || op.Authorized?)
    ensures Inv(Next(w, op))
  {
    var w' := Next(w, op);
    AuthorizingKeepsKeys(w, op);
    hide OAuthStart, OAuthAnswered;
    if Outcome(w, op).Ok? {
      OneConnection(w, op.id, w'.registry.connections[op.id], w'.registry);
    }
    hide ConnectionsOk, BindingsOk;
    ProbesStay(w, w');
  }

  lemma AuthorizingKeepsKeys(w: World, op: Op)
    requires ConnectionsOk(w.registry.connections, w.used) && Enabled(w, op) && (op.Authorizing? || op.Authorized?)
    ensures var r, after := w.registry, Outcome(w, op);
            after.Ok? ==>
              && op.id in r.connections && op.id in after.value.connections
              && after.value == r.(connections := r.connections[op.id := after.value.connections[op.id]],
                                   revision := after.value.revision, events := after.value.events)
              && SameKeys(r.connections[op.id], after.value.connections[op.id])
              && ConnectionOk(after.value.connections[op.id]) && (|r.events| <= 100 ==> |after.value.events| <= 100)
  {
    hide IsBound;
  }

  lemma ProbeKeeps(w: World, op: Op)
    requires Inv(w) && Enabled(w, op) && op.ProbePublishes?
    ensures Inv(Next(w, op))
  {
    var p, w' := w.probes[op.k], Next(w, op);
    if Outcome(w, op).Ok? {
      ProbeFindsOk(p.seen, p.mode, op.ex, op.complete, op.news, op.now);
      hide ProbeFinds, BindingsOk;
      assert ProbeOk(w, p);
      OneConnection(w, p.id, w'.registry.connections[p.id], w'.registry);
    }
    hide ConnectionsOk, BindingsOk;
    ProbesStay(w, w');
  }

  lemma DeleteKeeps(w: World, op: Op)
    requires Inv(w) && Enabled(w, op) && op.Deleting?
    ensures Inv(Next(w, op))
  {
    var w' := Next(w, op);
    ProbesStay(w, w');
  }

  lemma UnbindKeeps(w: World, op: Op)
    requires Inv(w) && Enabled(w, op) && (op.Unbinding? || op.Activating?)
    ensures Inv(Next(w, op))
  {
    var w' := Next(w, op);
    hide Flat, NobodyOrFlat, ConnectionOk, ProbeOk;
    assert w'.registry.connections == w.registry.connections;
    ProbesStay(w, w');
  }

  /** The parts of the invariant that a new document must meet again. */
  predicate Sound(w: World, after: Registry, used: set<Id>)
  {
    ConnectionsOk(after.connections, used) && BindingsOk(after) && MigrationOk(after) && KeysKept(w, after.connections)
  }

  /** A connection under a new identity takes over a trading binding. */
  lemma AddBound(w: World, r: Registry, newId: Id, c: Connection, mode: Mode)
    requires ConnectionsOk(r.connections, w.used) && BindingsOk(r) && KeysKept(w, r.connections)
    requires newId != "" && newId !in w.used && ConnectionOk(c) && c.auth == ApiKey && c.mode == mode
    requires forall id | id in w.registry.connections :: id in w.used
    ensures var after := r.(connections := r.connections[newId := c], bindings := r.bindings[Trading(mode) := newId]);
            && ConnectionsOk(after.connections, w.used + {newId}) && BindingsOk(after) && KeysKept(w, after.connections)
            && forall id | id in r.connections :: after.connections[id] == r.connections[id]
  {
    hide ConnectionOk, SameKeys;
  }

  lemma MoreUsed(connections: map<Id, Connection>, used: set<Id>, more: set<Id>)
    requires ConnectionsOk(connections, used) && used <= more
    ensures ConnectionsOk(connections, more)
  {
  }

  /** The copied key of the old configuration. */
  lemma CopiedKey(legacy: Legacy, mode: Mode, ex: Exchange)
    ensures var before := LegacyAccount(legacy, mode);
            before.Found? ==>
              var copied := before.account.connection.(title := "legacy", status := LegacyPreserved, generation := 1);
              var c := Canonicalize(before, copied, mode, legacy, ex);
              c.Some? ==> ConnectionOk(c.value) && c.value.auth == ApiKey && c.value.mode == mode
  {
    hide Uid, UidScope;
    var before := LegacyAccount(legacy, mode);
    if before.Found? {
      CanonicalKeepsKeys(before, before.account.connection.(title := "legacy", status := LegacyPreserved, generation := 1),
                         mode, legacy, ex);
    }
  }

  lemma MigrateKeeps(w: World, known: Registry, mode: Mode, legacy: Legacy, ex: Exchange, newId: Id)
    requires newId != "" && newId !in w.used && forall id | id in w.registry.connections :: id in w.used
    requires Sound(w, known, w.used) && !known.managed
    ensures var m := Migrate(known, mode, legacy, ex, newId);
            m.Ok? ==> Sound(w, m.value, w.used + {newId}) && m.value.managed
                      && (forall id | id in known.connections ::
                            id in m.value.connections && m.value.connections[id] == known.connections[id])
  {
    var other, m := Other(mode), Migrate(known, mode, legacy, ex, newId);
    CopiedKey(legacy, other, ex);
    hide Canonicalize, NobodyOrFlat, Current, LegacyAccount, Key, ConnectionOk, BindingsOk, ConnectionsOk, KeysKept;
    MoreUsed(known.connections, w.used, w.used + {newId});
    if m.Ok? {
      var begun := known.(activeMode := Some(legacy.mode), managed := true);
      BindingsAlone(known, begun);
      if m.value != begun { AddBound(w, begun, newId, m.value.connections[newId], other); }
    }
  }

  lemma BindingsAlone(r: Registry, after: Registry)
    requires BindingsOk(r) && after.bindings == r.bindings && after.connections == r.connections
    ensures BindingsOk(after)
  {
  }

  /** The end of `bind`: the binding is set and the generation raised. */
  lemma SetBinding(w: World, r: Registry, used: set<Id>, mode: Mode, id: Id)
    requires Sound(w, r, used) && r.managed && id in r.connections && r.connections[id].auth == ApiKey
    requires r.connections[id].mode == mode
    ensures var set' := r.(generations := r.generations[mode := Generation(r, mode) + 1],
                           bindings := r.bindings[Trading(mode) := id]);
            Sound(w, Saved(set', "purpose_bound"), used)
  {
    hide ConnectionsOk, KeysKept;
  }

  lemma AdoptKeeps(w: World, known: Registry, mode: Mode, id: Id, legacy: Legacy, ex: Exchange, newId: Id)
    requires newId != "" && newId !in w.used && forall other | other in w.registry.connections :: other in w.used
    requires Sound(w, known, w.used)
    requires id in known.connections && known.connections[id].auth == ApiKey && known.connections[id].mode == mode
    ensures var bound := Adopt(known, mode, id, legacy, ex, newId);
            bound.Ok? ==> Sound(w, bound.value, w.used + {newId}) && bound.value.managed
  {
    var bound := Adopt(known, mode, id, legacy, ex, newId);
    MoreUsed(known.connections, w.used, w.used + {newId});
    hide ConnectionsOk, KeysKept, BindingsOk, Migrate;
    if bound.Ok? {
      if !known.managed {
        MigrateKeeps(w, known, mode, legacy, ex, newId);
        SetBinding(w, Migrate(known, mode, legacy, ex, newId).value, w.used + {newId}, mode, id);
      } else {
        SetBinding(w, known, w.used + {newId}, mode, id);
      }
    }
  }

  lemma BindTradingKeeps(w: World, mode: Mode, id: Id, legacy: Legacy, ex: Exchange, newId: Id)
    requires Inv(w) && newId != "" && newId !in w.used && id in w.registry.connections
    requires Checked(w.registry.connections[id], mode).uid != ""
    ensures var bound := BindTrading(w.registry, mode, id, legacy, ex, newId);
            bound.Ok? ==> Sound(w, bound.value, w.used + {newId}) && bound.value.managed
  {
    var r, bound := w.registry, BindTrading(w.registry, mode, id, legacy, ex, newId);
    var c, before := r.connections[id], Current(r, legacy, mode);
    var after := Canonicalize(before, c, mode, legacy, ex);
    hide Canonicalize, Flat, NobodyOrFlat, Adopt, Current, ProbesOk;
    if bound.Ok? {
      BoundHasKeys(w, id, mode);
      CanonicalKeepsKeys(before, c, mode, legacy, ex);
      var known := r.(connections := r.connections[id := after.value]);
      OneConnection(w, id, after.value, known);
      UsedCovers(w);
      AdoptKeeps(w, known, mode, id, legacy, ex, newId);
    }
  }

  lemma UsedCovers(w: World)
    requires Inv(w)
    ensures forall id | id in w.registry.connections :: id in w.used
  {
  }

  /** A connection with keys was probed successfully only in its own mode. */
  lemma BoundHasKeys(w: World, id: Id, mode: Mode)
    requires Inv(w) && id in w.registry.connections && Checked(w.registry.connections[id], mode).uid != ""
    ensures ConnectionOk(w.registry.connections[id])
    ensures w.registry.connections[id].auth.ApiKey? ==> w.registry.connections[id].mode == mode
  {
    assert CapabilityOk(w.registry.connections[id], mode);
  }

  lemma BindKeeps(w: World, op: Op)
    requires Inv(w) && Enabled(w, op) && op.Binding?
    ensures Inv(Next(w, op))
  {
    var r, w' := w.registry, Next(w, op);
    if op.id in r.connections && op.purpose.Trading? && Checked(r.connections[op.id], op.purpose.mode).uid != "" {
      BindTradingKeeps(w, op.purpose.mode, op.id, op.legacy, op.ex, op.newId);
    }
    hide BindTrading;
    assert Sound(w, w'.registry, w'.used);
    ProbesStay(w, w');
  }

  lemma StepKeepsInv(w: World, op: Op)
    requires Inv(w) && Enabled(w, op)
    ensures Inv(Next(w, op))
  {
    match op
    case Creating(_, _, _, _, _, _) => CreateKeeps(w, op);
    case Authorizing(_, _) => AuthorizingKeeps(w, op);
    case Authorized(_, _, _, _) => AuthorizingKeeps(w, op);
    case ProbeReads(id, _) =>
    case ProbePublishes(_, _, _, _, _) => ProbeKeeps(w, op);
    case Binding(_, _, _, _, _, _, _) => BindKeeps(w, op);
    case Unbinding(_, _, _) => UnbindKeeps(w, op);
    case Activating(_, _, _, _, _) => UnbindKeeps(w, op);
    case Deleting(_, _, _, _) => DeleteKeeps(w, op);
  }

  lemma {:induction false} RunKeepsInv(w: World, ops: seq<Op>, w': World)
    requires Inv(w) && Reaches(w, ops, w')
    ensures Inv(w')
    decreases |ops|
  {
    hide Inv, Next;
    if ops != [] {
      StepKeepsInv(w, ops[0]);
      RunKeepsInv(Next(w, ops[0]), ops[1..], w');
    }
  }

  lemma StartIsOk()
    ensures Inv(START)
  {
  }

  /**
   At every reachable state a binding names an existing connection, and a trading binding one with API
   keys for the bound mode, never an OAuth login.
   */
  lemma BindingsAreSafe(ops: seq<Op>, w: World, purpose: Purpose)
    requires Reaches(START, ops, w) && purpose in w.registry.bindings
    ensures w.registry.bindings[purpose] in w.registry.connections
    ensures purpose.Trading? ==>
              var c := w.registry.connections[w.registry.bindings[purpose]];
              c.auth == ApiKey && c.mode == purpose.mode && c.credentials.Some?
  {
    StartIsOk();
    RunKeepsInv(START, ops, w);
    hide ProbesOk;
    assert BindingOk(w.registry, purpose) by {
      match purpose
      case News =>
      case Trading(Demo) =>
      case Trading(Live) =>
    }
    var c := w.registry.connections[w.registry.bindings[purpose]];
    assert ConnectionOk(c);
  }

  // ---------------------------------------------------------------------------------------------
  // Nothing goes backwards
  // ---------------------------------------------------------------------------------------------

  /** Counters only grow, and the registry stays managed. */
  predicate OnlyForward(r: Registry, after: Registry)
  {
    && r.revision <= after.revision && (r.managed ==> after.managed)
    && Generation(r, Demo) <= Generation(after, Demo) && Generation(r, Live) <= Generation(after, Live)
  }

  /** A binding of `mode` was really set or removed. */
  predicate Rebinds(w: World, op: Op, mode: Mode)
    requires Enabled(w, op)
  {
    && Outcome(w, op).Ok?
    && ((op.Binding? && op.purpose == Trading(mode) && Bound(w.registry, op.purpose) != Some(op.id))
        || (op.Unbinding? && op.purpose == Trading(mode)))
  }

  /** What a successful operation does to the binding of `mode` in a managed registry. */
  predicate Fenced(r: Registry, after: Registry, mode: Mode, rebound: bool)
  {
    && Generation(after, mode) == Generation(r, mode) + (if rebound then 1 else 0)
    && (!rebound ==> Bound(after, Trading(mode)) == Bound(r, Trading(mode)))
  }

  lemma BindFences(r: Registry, purpose: Purpose, id: Id, confirmation: string, legacy: Legacy, ex: Exchange, newId: Id,
                   now: int, mode: Mode)
    requires r.managed
    ensures var after := Bind(r, purpose, id, confirmation, legacy, ex, newId, now);
            after.Ok? ==> OnlyForward(r, after.value)
                          && Fenced(r, after.value, mode, purpose == Trading(mode) && Bound(r, purpose) != Some(id))
  {
    hide Canonicalize, NobodyOrFlat, Flat, Migrate, Current;
  }

  lemma UnbindFences(r: Registry, purpose: Purpose, confirmation: string, ex: Exchange, mode: Mode)
    ensures var after := Unbind(r, purpose, confirmation, ex);
            after.Ok? ==> OnlyForward(r, after.value) && Fenced(r, after.value, mode, purpose == Trading(mode))
  {
    hide Flat;
  }

  /** Operations on connections touch neither bindings nor generations. */
  predicate BindingsAside(r: Registry, after: Registry)
  {
    && after == r.(connections := after.connections, revision := after.revision, events := after.events,
                   activeMode := after.activeMode)
    && r.revision <= after.revision
  }

  lemma ConnectionsOnly(w: World, op: Op)
    requires Enabled(w, op) && !op.Binding? && !op.Unbinding?
    ensures var after := Outcome(w, op); after.Ok? ==> BindingsAside(w.registry, after.value)
  {
    hide Flat, NobodyOrFlat, Current, IsBound, ProbeFinds, Strip;
  }

  lemma StepFences(w: World, op: Op, mode: Mode)
    requires Enabled(w, op) && w.registry.managed
    ensures OnlyForward(w.registry, Next(w, op).registry)
    ensures Fenced(w.registry, Next(w, op).registry, mode, Rebinds(w, op, mode))
  {
    hide Bind, Unbind, Activate, Create, OAuthStart, OAuthAnswered, ProbePublish, Delete;
    match op
    case Binding(purpose, id, confirmation, legacy, ex, newId, now) =>
      BindFences(w.registry, purpose, id, confirmation, legacy, ex, newId, now, mode);
    case Unbinding(purpose, confirmation, ex) => UnbindFences(w.registry, purpose, confirmation, ex, mode);
    case _ => ConnectionsOnly(w, op);
  }

  lemma FirstBindMovesForward(r: Registry, purpose: Purpose, id: Id, confirmation: string, legacy: Legacy, ex: Exchange,
                              newId: Id, now: int)
    requires !r.managed
    ensures var after := Bind(r, purpose, id, confirmation, legacy, ex, newId, now);
            after.Ok? ==> OnlyForward(r, after.value)
  {
    hide Canonicalize, NobodyOrFlat, Flat, Current, LegacyAccount;
  }

  lemma StepMovesForward(w: World, op: Op)
    requires Enabled(w, op)
    ensures OnlyForward(w.registry, Next(w, op).registry)
  {
    hide Bind, Unbind, Activate, Create, OAuthStart, OAuthAnswered, ProbePublish, Delete;
    match op
    case Binding(purpose, id, confirmation, legacy, ex, newId, now) =>
      if w.registry.managed {
        BindFences(w.registry, purpose, id, confirmation, legacy, ex, newId, now, Demo);
      } else {
        FirstBindMovesForward(w.registry, purpose, id, confirmation, legacy, ex, newId, now);
      }
    case Unbinding(purpose, confirmation, ex) => UnbindFences(w.registry, purpose, confirmation, ex, Demo);
    case _ => ConnectionsOnly(w, op);
  }

  /** Revision and generations never decrease and the registry never goes back to the old configuration. */
  lemma {:induction false} NothingGoesBack(w: World, ops: seq<Op>, w': World)
    requires Reaches(w, ops, w')
    ensures OnlyForward(w.registry, w'.registry)
    decreases |ops|
  {
    hide Next;
    if ops != [] {
      StepMovesForward(w, ops[0]);
      NothingGoesBack(Next(w, ops[0]), ops[1..], w');
    }
  }

  // ---------------------------------------------------------------------------------------------
  // Generation fencing
  // ---------------------------------------------------------------------------------------------

  /** How often the binding of `mode` was set or removed in a run. */
  ghost function Rebindings(w: World, ops: seq<Op>, mode: Mode): nat
    decreases |ops|
  {
    if ops == [] || !Enabled(w, ops[0]) then 0
    else (if Rebinds(w, ops[0], mode) then 1 else 0) + Rebindings(Next(w, ops[0]), ops[1..], mode)
  }

  lemma {:induction false} GenerationCounts(w: World, ops: seq<Op>, w': World, mode: Mode)
    requires Reaches(w, ops, w') && w.registry.managed
    ensures w'.registry.managed
    ensures Generation(w'.registry, mode) == Generation(w.registry, mode) + Rebindings(w, ops, mode)
    ensures Rebindings(w, ops, mode) == 0 ==> Bound(w'.registry, Trading(mode)) == Bound(w.registry, Trading(mode))
    decreases |ops|
  {
    hide Next, Rebinds;
    if ops != [] {
      StepFences(w, ops[0], mode);
      GenerationCounts(Next(w, ops[0]), ops[1..], w', mode);
    }
  }

  /**
   An environment captured from a binding passes the check later exactly when its mode is active again
   and the binding of that mode was not touched meanwhile, even if it names the same connection again.
   */
  lemma FencingIsExact(w: World, ops: seq<Op>, w': World, env: Environment)
    requires Inv(w) && Reaches(w, ops, w') && Resolve(w.registry) == Ok(Some(env)) && env.source == Center
    ensures AssertCurrent(w'.registry, env).Ok?
            <==> w'.registry.activeMode == Some(env.mode) && Rebindings(w, ops, env.mode) == 0
  {
    RunKeepsInv(w, ops, w');
    GenerationCounts(w, ops, w', env.mode);
    BoundIsNamed(w, env.mode);
    hide Inv;
    ManagedResolves(w');
  }

  lemma BoundIsNamed(w: World, mode: Mode)
    requires Inv(w) && Bound(w.registry, Trading(mode)).Some?
    ensures Bound(w.registry, Trading(mode)).value != ""
  {
    hide ProbesOk;
    assert BindingOk(w.registry, Trading(mode)) by { if mode == Demo {} else {} }
  }

  /** A managed registry always resolves to an environment of its own, never to the old configuration. */
  lemma ManagedResolves(w: World)
    requires Inv(w) && w.registry.managed
    ensures var env := Resolve(w.registry);
            && env.Ok? && env.value.Some? && w.registry.activeMode == Some(env.value.value.mode)
            && env.value.value.bindingVersion == Generation(w.registry, env.value.value.mode)
            && match Bound(w.registry, Trading(env.value.value.mode))
               case Some(id) => env.value.value.source == Center && env.value.value.connectionId == id
               case None => env.value.value.source == CenterUnbound
  {
    hide ProbesOk, ConnectionsOk;
    var mode := w.registry.activeMode.value;
    assert BindingOk(w.registry, Trading(mode)) by { if mode == Demo {} else {} }
  }

  /** An environment of the old configuration passes exactly until the migration, and then never again. */
  lemma OldConfigurationEndsForGood(w: World, ops: seq<Op>, w': World, env: Environment)
    requires Reaches(w, ops, w') && env.source == OldConfiguration && env.connectionId == ""
    ensures AssertCurrent(w'.registry, env).Ok? <==> !w'.registry.managed
    ensures w.registry.managed ==> AssertCurrent(w'.registry, env).Refused?
  {
    NothingGoesBack(w, ops, w');
  }
}
