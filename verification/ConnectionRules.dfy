/**
 When connections are created, authorized, probed and deleted, over the raw inputs; and which late probe
 results are still published, over every run between the reading of a connection and the answer.
 */
module ConnectionRules {
  import opened Options
  import opened Strings
  import opened Accounts
  import opened AccountRuns
  import AccountRules

  // ---------------------------------------------------------------------------------------------
  // Conditions and effects
  // ---------------------------------------------------------------------------------------------

  predicate Complete(credentials: Option<Credentials>)
  {
    credentials.Some? && "" !in [credentials.value.apiKey, credentials.value.secretKey, credentials.value.passphrase]
  }

  /** The document changed in its connections alone, and the action is noted. */
  predicate OnlyConnections(r: Registry, after: Registry)
  {
    && after == r.(revision := r.revision + 1, connections := after.connections, events := after.events)
    && |after.events| > 0 && after.events[1..] <= r.events
  }

  predicate InUse(r: Registry, id: Id)
  {
    id in r.bindings.Values
  }

  /** A login that was started is still waited for. */
  predicate Waiting(c: Connection, now: int)
  {
    c.status == AuthorizationPending && now < c.authorizationExpiresAt
  }

  /** An authorization may be started for this connection: it is of that kind, unbound and none is waited
      for, and no connection of that kind trades. */
  ghost predicate MayAuthorize(r: Registry, id: Id, now: int)
  {
    && id in r.connections && r.connections[id].auth == OAuth && !InUse(r, id) && !Waiting(r.connections[id], now)
    && forall mode | Trading(mode) in r.bindings && r.bindings[Trading(mode)] in r.connections ::
         r.connections[r.bindings[Trading(mode)]].auth == ApiKey
  }

  /** A connection may go that nothing uses, that no login is waited for and whose directory may be removed. */
  predicate MayGo(r: Registry, id: Id, confirmation: string, home: bool, now: int)
  {
    && confirmation == "DELETE CONNECTION" && id in r.connections && !InUse(r, id)
    && !Waiting(r.connections[id], now) && home
  }

  lemma Noted(r: Registry, connections: map<Id, Connection>, action: string)
    ensures var after := Saved(r.(connections := connections), action);
            OnlyConnections(r, after) && after.connections == connections
  {
    var after := Saved(r.(connections := connections), action);
    assert after.events[1..] == if |r.events| >= 100 then r.events[..99] else r.events;
  }

  lemma AllNoted(r: Registry, action: string)
    ensures forall connections ::
              var after := Saved(r.(connections := connections), action);
              OnlyConnections(r, after) && after.connections == connections
  {
    forall connections
      ensures var after := Saved(r.(connections := connections), action);
              OnlyConnections(r, after) && after.connections == connections
    {
      Noted(r, connections, action);
    }
  }

  lemma InUseExactly(r: Registry, id: Id)
    ensures IsBound(r, id) <==> InUse(r, id)
  {
  }

  /** A connection is made for a known site, under a title of at most sixty characters that is not blank,
      and with keys only if all three parts are there. */
  lemma CreatesExactly(r: Registry, title: string, auth: AuthType, mode: Mode, site: string,
                       credentials: Option<Credentials>, newId: Id)
    ensures var made := Create(r, title, auth, mode, site, credentials, newId);
            && (made.Ok? <==>
                  && (site == "global" || site == "eea" || site == "us" || site == "tr")
                  && Strip(title) != "" && |title| <= 60 && (auth == ApiKey ==> Complete(credentials)))
            && (made.Ok? ==>
                  && OnlyConnections(r, made.value)
                  && made.value.connections == r.connections[newId :=
                       Connection(Strip(title), auth, mode, site, Unverified, 1, map[],
                                  if auth == ApiKey then credentials else None, 0)])
  {
    AllNoted(r, "connection_created");
    hide Saved, OnlyConnections;
    hide Strip;
  }

  /** What was known of a connection is void when its authorization starts. */
  lemma AuthorizesExactly(r: Registry, id: Id, now: int)
    ensures var begun := OAuthStart(r, id, now);
            && (begun.Ok? <==> MayAuthorize(r, id, now))
            && (begun.Ok? ==>
                  && OnlyConnections(r, begun.value)
                  && begun.value.connections == r.connections[id := r.connections[id].(
                       generation := r.connections[id].generation + 1, capabilities := map[],
                       status := AuthorizationPending, authorizationExpiresAt := now + 1800)])
  {
    AllNoted(r, "oauth_started");
    hide Saved, OnlyConnections;
    InUseExactly(r, id);
    hide IsBound, InUse;
    if id in r.connections && r.connections[id].auth == OAuth {
      assert (exists p | p in r.bindings ::
                p != News && r.bindings[p] in r.connections && r.connections[r.bindings[p]].auth == OAuth)
        <==> exists mode :: Trading(mode) in r.bindings && r.bindings[Trading(mode)] in r.connections
                            && r.connections[r.bindings[Trading(mode)]].auth == OAuth by {
        TradesWithLogin(r);
      }
    }
  }

  lemma TradesWithLogin(r: Registry)
    ensures (exists p | p in r.bindings ::
               p != News && r.bindings[p] in r.connections && r.connections[r.bindings[p]].auth == OAuth)
       <==> exists mode :: Trading(mode) in r.bindings && r.bindings[Trading(mode)] in r.connections
                           && r.connections[r.bindings[Trading(mode)]].auth == OAuth
  {
    if p :| p in r.bindings && p != News && r.bindings[p] in r.connections && r.connections[r.bindings[p]].auth == OAuth {
      assert p == Trading(p.mode);
    }
  }

  /** The answer of the login command counts for the authorization it was asked for. */
  lemma AnswersExactly(r: Registry, id: Id, generation: nat, expires: Option<int>, now: int)
    ensures var told := OAuthAnswered(r, id, generation, expires, now);
            && (told.Ok? <==> id in r.connections && r.connections[id].generation == generation)
            && (told.Ok? ==>
                  var c := r.connections[id];
                  && OnlyConnections(r, told.value)
                  && told.value.connections == r.connections[id :=
                       if expires.Some? && 1 <= expires.value <= 1800 then c.(authorizationExpiresAt := now + expires.value)
                       else c.(status := Unavailable)])
  {
    AllNoted(r, "oauth_pending");
    AllNoted(r, "oauth_start_failed");
    hide Saved, OnlyConnections;
  }

  lemma DeletesExactly(r: Registry, id: Id, confirmation: string, home: bool, now: int)
    ensures var gone := Delete(r, id, confirmation, home, now);
            && (gone.Ok? <==> MayGo(r, id, confirmation, home, now))
            && (gone.Ok? ==> OnlyConnections(r, gone.value) && gone.value.connections == r.connections - {id})
  {
    AllNoted(r, "connection_removed");
    hide Saved, OnlyConnections;
    InUseExactly(r, id);
    hide IsBound, InUse;
  }

  /** A probe finds an account exactly if the exchange names one and it is not another than before, and then
      keeps the scope it had. */
  lemma FindsExactly(c: Connection, mode: Mode, ex: Exchange, complete: bool, news: bool, now: int)
    ensures var found := ProbeFinds(c, mode, ex, complete, news, now);
            var known := if mode in c.capabilities then c.capabilities[mode].uid else "";
            && found.checkedAt == now
            && (found.uid != "" <==>
                  AccountRules.Signs(c, mode) && ex.uid(c, mode) != "" && (known == "" || known == ex.uid(c, mode)))
            && (found.uid != "" ==> found.uid == ex.uid(c, mode))
            && (found.readReady <==> found.uid != "" && complete)
            && (found.newsReady <==> found.uid != "" && news && mode == Live)
            && (found.uid == "" ==> found.scope == "")
            && (found.uid != "" ==>
                  found.scope == if known != "" && c.capabilities[mode].scope != "" then c.capabilities[mode].scope
                                 else (if mode == Demo then "okx:DEMO:account:" else "okx:LIVE:account:") + found.uid)
  {
    assert UidScope(Demo, ex.uid(c, mode)) == "okx:DEMO:account:" + ex.uid(c, mode) by {
      assert "okx:" + "DEMO" + ":account:" == "okx:DEMO:account:";
    }
    assert UidScope(Live, ex.uid(c, mode)) == "okx:LIVE:account:" + ex.uid(c, mode) by {
      assert "okx:" + "LIVE" + ":account:" == "okx:LIVE:account:";
    }
  }

  // ---------------------------------------------------------------------------------------------
  // Late probes
  // ---------------------------------------------------------------------------------------------

  /** The operation deletes the connection or starts its authorization anew. */
  ghost predicate Voids(w: World, op: Op, id: Id)
  {
    || (op.Authorizing? && op.id == id && MayAuthorize(w.registry, id, op.now))
    || (op.Deleting? && op.id == id && MayGo(w.registry, id, op.confirmation, op.home, op.now))
  }

  ghost predicate Voided(w: World, ops: seq<Op>, w': World, id: Id)
    requires Reaches(w, ops, w')
    decreases |ops|
  {
    ops != [] && (Voids(w, ops[0], id) || Voided(Next(w, ops[0]), ops[1..], w', id))
  }

  /** The connection is there as it was authorized then. */
  predicate Same(w: World, id: Id, generation: nat)
  {
    id in w.registry.connections && w.registry.connections[id].generation == generation
  }

  /** It is gone or was authorized anew. */
  predicate Stale(w: World, id: Id, generation: nat)
  {
    id in w.used && (id in w.registry.connections ==> w.registry.connections[id].generation > generation)
  }

  predicate KeepsGenerations(r: Registry, after: Registry, newId: Id)
  {
    && r.connections.Keys <= after.connections.Keys <= r.connections.Keys + {newId}
    && forall id | id in r.connections && id != newId :: after.connections[id].generation == r.connections[id].generation
  }

  lemma MigrateKeepsGenerations(r: Registry, mode: Mode, legacy: Legacy, ex: Exchange, newId: Id)
    ensures Migrate(r, mode, legacy, ex, newId).Ok? ==> KeepsGenerations(r, Migrate(r, mode, legacy, ex, newId).value, newId)
  {
    hide NobodyOrFlat, Canonicalize, LegacyAccount, Current;
  }

  lemma AdoptKeepsGenerations(r: Registry, mode: Mode, id: Id, legacy: Legacy, ex: Exchange, newId: Id)
    ensures Adopt(r, mode, id, legacy, ex, newId).Ok? ==>
              KeepsGenerations(r, Adopt(r, mode, id, legacy, ex, newId).value, newId)
  {
    MigrateKeepsGenerations(r, mode, legacy, ex, newId);
    hide Migrate;
  }

  lemma BindKeepsGenerations(r: Registry, purpose: Purpose, id: Id, confirmation: string, legacy: Legacy, ex: Exchange,
                             newId: Id, now: int)
    ensures var bound := Bind(r, purpose, id, confirmation, legacy, ex, newId, now);
            bound.Ok? ==> KeepsGenerations(r, bound.value, newId)
  {
    hide Adopt, Canonicalize, Current, NobodyOrFlat, Flat, Fresh;
    if purpose.Trading? && id in r.connections { TradingKeepsGenerations(r, purpose.mode, id, legacy, ex, newId); }
    hide BindTrading;
  }

  lemma SameGeneration(before: Lookup, c: Connection, mode: Mode, legacy: Legacy, ex: Exchange)
    ensures var same := Canonicalize(before, c, mode, legacy, ex); same.Some? ==> same.value.generation == c.generation
  {
    hide Uid, UidScope, Key, Checked;
  }

  lemma KeptThrough(r: Registry, id: Id, c: Connection, after: Registry, newId: Id)
    requires id in r.connections && c.generation == r.connections[id].generation
    requires KeepsGenerations(r.(connections := r.connections[id := c]), after, newId)
    ensures KeepsGenerations(r, after, newId)
  {
    var known := r.connections[id := c];
    assert known.Keys == r.connections.Keys;
    assert forall other | other in r.connections :: known[other].generation == r.connections[other].generation;
  }

  lemma TradingAdopts(r: Registry, mode: Mode, id: Id, legacy: Legacy, ex: Exchange, newId: Id)
    requires id in r.connections && BindTrading(r, mode, id, legacy, ex, newId).Ok?
    ensures var same := Canonicalize(Current(r, legacy, mode), r.connections[id], mode, legacy, ex);
            && same.Some?
            && BindTrading(r, mode, id, legacy, ex, newId)
            == Adopt(r.(connections := r.connections[id := same.value]), mode, id, legacy, ex, newId)
  {
    hide Adopt, Canonicalize, Current, NobodyOrFlat, Flat, Checked;
  }

  lemma TradingKeepsGenerations(r: Registry, mode: Mode, id: Id, legacy: Legacy, ex: Exchange, newId: Id)
    requires id in r.connections
    ensures var bound := BindTrading(r, mode, id, legacy, ex, newId); bound.Ok? ==> KeepsGenerations(r, bound.value, newId)
  {
    hide Adopt, Canonicalize, Current, BindTrading, KeepsGenerations;
    if BindTrading(r, mode, id, legacy, ex, newId).Ok? {
      TradingAdopts(r, mode, id, legacy, ex, newId);
      var before := Current(r, legacy, mode);
      var same := Canonicalize(before, r.connections[id], mode, legacy, ex).value;
      SameGeneration(before, r.connections[id], mode, legacy, ex);
      var known := r.(connections := r.connections[id := same]);
      AdoptKeepsGenerations(known, mode, id, legacy, ex, newId);
      KeptThrough(r, id, same, Adopt(known, mode, id, legacy, ex, newId).value, newId);
    }
  }

  lemma StepVoids(w: World, op: Op, id: Id, generation: nat)
    requires Inv(w) && Enabled(w, op) && id in w.used
    ensures Same(w, id, generation) ==>
              if Voids(w, op, id) then Stale(Next(w, op), id, generation) else Same(Next(w, op), id, generation)
    ensures Stale(w, id, generation) ==> Stale(Next(w, op), id, generation)
  {
    match op
    case Binding(purpose, bound, confirmation, legacy, ex, newId, now) =>
      BindKeepsGenerations(w.registry, purpose, bound, confirmation, legacy, ex, newId, now);
      hide Bind, Inv;
    case Authorizing(other, now) =>
      AuthorizesExactly(w.registry, other, now);
      hide OAuthStart, MayAuthorize, Inv;
    case Deleting(other, confirmation, home, now) =>
      DeletesExactly(w.registry, other, confirmation, home, now);
      hide Delete, MayGo, Inv;
    case _ => hide Inv, ProbeFinds, Current, NobodyOrFlat, Flat, Strip;
  }

  lemma {:induction false} RunVoids(w: World, ops: seq<Op>, w': World, id: Id, generation: nat)
    requires Inv(w) && Reaches(w, ops, w') && id in w.used
    ensures Same(w, id, generation) ==>
              if Voided(w, ops, w', id) then Stale(w', id, generation) else Same(w', id, generation)
    ensures Stale(w, id, generation) ==> Stale(w', id, generation)
    decreases |ops|
  {
    if ops != [] {
      StepKeepsInv(w, ops[0]);
      StepVoids(w, ops[0], id, generation);
      hide Inv, Next, Voids, Same, Stale;
      assert w.used <= Next(w, ops[0]).used by { UsedGrows(w, ops[0]); }
      RunVoids(Next(w, ops[0]), ops[1..], w', id, generation);
    }
  }

  lemma UsedGrows(w: World, op: Op)
    requires Enabled(w, op)
    ensures w.used <= Next(w, op).used && w.probes <= Next(w, op).probes
  {
    hide Outcome;
  }

  lemma {:induction false} ProbeStays(w: World, ops: seq<Op>, w': World, k: nat)
    requires Reaches(w, ops, w') && k < |w.probes|
    ensures k < |w'.probes| && w'.probes[k] == w.probes[k]
    decreases |ops|
  {
    hide Next;
    if ops != [] {
      UsedGrows(w, ops[0]);
      ProbeStays(Next(w, ops[0]), ops[1..], w', k);
    }
  }

  predicate Published(r: Registry, after: Registry, id: Id, mode: Mode, found: Capability)
  {
    && id in r.connections
    && after.connections == r.connections[id := r.connections[id].(
         capabilities := r.connections[id].capabilities[mode := found],
         status := if found.uid == "" then Unavailable else IdentityVerified)]
  }

  lemma PublishesExactly(r: Registry, id: Id, seen: Connection, mode: Mode, found: Capability)
    ensures var told := ProbePublish(r, id, seen, mode, found);
            && (told.Ok? <==> id in r.connections && r.connections[id].generation == seen.generation)
            && (told.Ok? ==> OnlyConnections(r, told.value) && Published(r, told.value, id, mode, found))
  {
    AllNoted(r, "connection_probed");
    hide Saved, OnlyConnections;
  }

  /**
   What a probe found is published exactly if the connection it read was meanwhile neither deleted nor
   authorized anew, whatever else happened; and then it is what the connection is known by in the mode.
   */
  lemma LateProbeExactly(w: World, id: Id, mode: Mode, ops: seq<Op>, w': World, ex: Exchange, complete: bool, news: bool,
                         now: int)
    requires Inv(w) && id in w.registry.connections && Reaches(Next(w, ProbeReads(id, mode)), ops, w')
    ensures var op := ProbePublishes(|w.probes|, ex, complete, news, now);
            && Enabled(w', op)
            && (Outcome(w', op).Ok? <==> !Voided(Next(w, ProbeReads(id, mode)), ops, w', id))
            && (Outcome(w', op).Ok? ==>
                  && OnlyConnections(w'.registry, Outcome(w', op).value)
                  && Published(w'.registry, Outcome(w', op).value, id, mode,
                               ProbeFinds(w.registry.connections[id], mode, ex, complete, news, now)))
  {
    var reading := Next(w, ProbeReads(id, mode));
    var c := w.registry.connections[id];
    StepKeepsInv(w, ProbeReads(id, mode));
    assert reading.registry == w.registry && reading.probes == w.probes + [Probe(id, mode, c)] && id in reading.used;
    ProbeStays(reading, ops, w', |w.probes|);
    RunVoids(reading, ops, w', id, c.generation);
    PublishesExactly(w'.registry, id, c, mode, ProbeFinds(c, mode, ex, complete, news, now));
    hide Inv, Next, Voided, Reaches, ProbeFinds, ProbePublish, Published, OnlyConnections;
  }
}
