/** When the account registry accepts a binding, an unbinding or a change of mode, over the raw inputs. */
module AccountRules {
  import opened Options
  import opened Accounts
  import opened AccountRuns

  // ---------------------------------------------------------------------------------------------
  // Conditions
  // ---------------------------------------------------------------------------------------------

  /** A request signed with the connection's keys, or its login, can be sent for the mode. */
  predicate Signs(c: Connection, mode: Mode)
  {
    c.site == "global" && (c.auth == OAuth || (c.mode == mode && c.credentials != None))
  }

  /** The exchange answers that the account has no position and no order. */
  predicate NoRisk(c: Connection, mode: Mode, ex: Exchange)
  {
    Signs(c, mode) && ex.flat(c, mode)
  }

  /** The account behind the connection is known or the exchange names it. */
  predicate Identified(c: Connection, mode: Mode, ex: Exchange)
  {
    (mode in c.capabilities && c.capabilities[mode].uid != "") || (Signs(c, mode) && ex.uid(c, mode) != "")
  }

  /** Checked for the mode not more than five minutes ago, with an account found. */
  predicate JustChecked(c: Connection, mode: Mode, now: int)
  {
    && mode in c.capabilities && c.capabilities[mode].uid != ""
    && c.capabilities[mode].checkedAt <= now <= c.capabilities[mode].checkedAt + 5 * 60
  }

  function OldKey(legacy: Legacy, mode: Mode): Option<Credentials>
  {
    if mode in legacy.keys then legacy.keys[mode].credentials else None
  }

  /** The keys of the old configuration trade in the mode: those of its own mode, or separate ones. */
  predicate OldKeysServe(legacy: Legacy, mode: Mode)
  {
    OldKey(legacy, mode) != None && (mode == legacy.mode || legacy.keys[mode].separate)
  }

  function OldAccount(legacy: Legacy, mode: Mode): Connection
  {
    Connection("", ApiKey, mode, "global", Unverified, 0, map[], OldKey(legacy, mode), 0)
  }

  /** The account that trades in the mode so far. */
  predicate Trades(r: Registry, legacy: Legacy, mode: Mode, c: Connection)
  {
    if Trading(mode) in r.bindings then
      r.bindings[Trading(mode)] in r.connections && c == r.connections[r.bindings[Trading(mode)]]
    else !r.managed && OldKeysServe(legacy, mode) && c == OldAccount(legacy, mode)
  }

  /** Before the migration: no keys are left, but files show that there was an account. */
  predicate TracesOnly(r: Registry, legacy: Legacy, mode: Mode)
  {
    !r.managed && mode == legacy.mode && OldKey(legacy, mode) == None && legacy.traces
  }

  /** What may go when another account comes: nothing unknown, and no account with risk. */
  ghost predicate MayLeave(r: Registry, legacy: Legacy, mode: Mode, ex: Exchange)
  {
    && !TracesOnly(r, legacy, mode)
    && forall c | Trades(r, legacy, mode, c) :: NoRisk(c, mode, ex)
  }

  /** The first trading binding takes the other mode's old keys over as a connection of their own. */
  predicate OtherKeysKept(legacy: Legacy, mode: Mode, ex: Exchange)
  {
    var other := if mode == Demo then Live else Demo;
    OldKeysServe(legacy, other) ==>
      && ex.uid(OldAccount(legacy, other), other) != ""
      && ex.uid(OldAccount(legacy, other).(title := "legacy", status := LegacyPreserved, generation := 1), other) != ""
  }

  /** The account to be bound can be read and has no risk, and so has what it replaces. */
  ghost predicate AccountsAllow(r: Registry, mode: Mode, id: Id, legacy: Legacy, ex: Exchange)
    requires id in r.connections
  {
    var c := r.connections[id];
    && mode in c.capabilities && c.capabilities[mode].readReady && c.auth == ApiKey
    && !ex.unresolved && NoRisk(c, mode, ex) && MayLeave(r, legacy, mode, ex)
    && (forall held | Trades(r, legacy, mode, held) :: Identified(held, mode, ex))
    && (!r.managed ==>
          OtherKeysKept(legacy, mode, ex) && (mode != legacy.mode ==> MayLeave(r, legacy, legacy.mode, ex)))
  }

  /** All that a trading binding asks. */
  ghost predicate TradingBindable(r: Registry, mode: Mode, id: Id, confirmation: string, legacy: Legacy, ex: Exchange,
                                  now: int)
  {
    && confirmation == (if mode == Demo then "BIND DEMO" else "BIND LIVE")
    && id in r.connections && r.connections[id].status == IdentityVerified && JustChecked(r.connections[id], mode, now)
    && AccountsAllow(r, mode, id, legacy, ex)
  }

  /** All that a news binding asks. */
  predicate NewsBindable(r: Registry, id: Id, confirmation: string, now: int)
  {
    && confirmation == "BIND NEWS"
    && id in r.connections && r.connections[id].status == IdentityVerified && JustChecked(r.connections[id], Live, now)
    && r.connections[id].capabilities[Live].newsReady
  }

  /** All that an unbinding asks: a trading account must have no risk. */
  predicate Unbindable(r: Registry, purpose: Purpose, confirmation: string, ex: Exchange)
  {
    && confirmation == (match purpose case Trading(Demo) => "UNBIND DEMO" case Trading(Live) => "UNBIND LIVE"
                                      case News => "UNBIND NEWS")
    && purpose in r.bindings
    && (purpose.Trading? ==>
          !ex.unresolved && r.bindings[purpose] in r.connections
          && NoRisk(r.connections[r.bindings[purpose]], purpose.mode, ex))
  }

  /** All that a change of mode asks: a target read not long ago, and no risk on either side. */
  predicate Activatable(r: Registry, mode: Mode, confirmation: string, ex: Exchange, now: int)
  {
    && confirmation == (if mode == Demo then "ACTIVATE DEMO" else "ACTIVATE LIVE")
    && r.managed && Trading(mode) in r.bindings
    && (r.activeMode != Some(mode) ==>
          && r.bindings[Trading(mode)] in r.connections
          && var target, other := r.connections[r.bindings[Trading(mode)]], if mode == Demo then Live else Demo;
             && mode in target.capabilities && target.capabilities[mode].readReady
             && target.capabilities[mode].checkedAt <= now <= target.capabilities[mode].checkedAt + 5 * 60
             && !ex.unresolved && NoRisk(target, mode, ex)
             && (Trading(other) in r.bindings ==>
                   r.bindings[Trading(other)] in r.connections
                   && NoRisk(r.connections[r.bindings[Trading(other)]], other, ex)))
  }

  // ---------------------------------------------------------------------------------------------
  // The functions ask just that
  // ---------------------------------------------------------------------------------------------

  lemma FlatExactly(c: Connection, mode: Mode, ex: Exchange)
    ensures Flat(c, mode, ex) <==> NoRisk(c, mode, ex)
    ensures Reachable(c, mode) <==> Signs(c, mode)
    ensures (Uid(c, mode, ex) != "") <==> Identified(c, mode, ex)
  {
  }

  /** Trading accounts of a well-formed registry. */
  predicate WellFormed(r: Registry)
  {
    BindingsOk(r) && MigrationOk(r)
  }

  lemma CurrentExactly(r: Registry, legacy: Legacy, mode: Mode)
    requires WellFormed(r)
    ensures Current(r, legacy, mode).Unknown? <==> TracesOnly(r, legacy, mode)
    ensures forall c :: Trades(r, legacy, mode, c)
                   <==> Current(r, legacy, mode).Found? && c == Current(r, legacy, mode).account.connection
  {
    assert BindingOk(r, Trading(mode)) by { if mode == Demo {} else {} }
  }

  lemma LeavesExactly(r: Registry, legacy: Legacy, mode: Mode, ex: Exchange)
    requires WellFormed(r)
    ensures MayLeave(r, legacy, mode, ex)
       <==> !Current(r, legacy, mode).Unknown? && NobodyOrFlat(Current(r, legacy, mode), mode, ex)
  {
    hide Current, Trades, TracesOnly, NoRisk, Flat, WellFormed;
    var who := Current(r, legacy, mode);
    CurrentExactly(r, legacy, mode);
    if who.Found? {
      FlatExactly(who.account.connection, mode, ex);
      assert Trades(r, legacy, mode, who.account.connection);
    }
  }

  lemma CanonicalizesExactly(before: Lookup, c: Connection, mode: Mode, legacy: Legacy, ex: Exchange)
    ensures Canonicalize(before, c, mode, legacy, ex).Some?
       <==> Identified(c, mode, ex) && (before.Found? ==> Identified(before.account.connection, mode, ex))
  {
    FlatExactly(c, mode, ex);
    if before.Found? { FlatExactly(before.account.connection, mode, ex); }
    hide Uid, Identified;
  }

  lemma OldKeysExactly(legacy: Legacy, mode: Mode)
    ensures OldKeysServe(legacy, mode)
       <==> Key(legacy, mode).credentials.Some? && (mode == legacy.mode || Key(legacy, mode).separate)
    ensures OldKeysServe(legacy, mode) ==> LegacyAccount(legacy, mode) == Found(Account(OldAccount(legacy, mode), true))
  {
  }

  lemma MigratesExactly(r: Registry, mode: Mode, legacy: Legacy, ex: Exchange, newId: Id)
    requires WellFormed(r) && !r.managed
    ensures Migrate(r, mode, legacy, ex, newId).Ok?
       <==> OtherKeysKept(legacy, mode, ex) && (mode != legacy.mode ==> MayLeave(r, legacy, legacy.mode, ex))
  {
    hide Canonicalize, MayLeave, Current, NobodyOrFlat, WellFormed, LegacyAccount, OldAccount, OldKeysServe;
    LeavesExactly(r, legacy, legacy.mode, ex);
    var other := Other(mode);
    OldKeysExactly(legacy, other);
    if OldKeysServe(legacy, other) {
      var account := OldAccount(legacy, other);
      var copied := account.(title := "legacy", status := LegacyPreserved, generation := 1);
      CanonicalizesExactly(Found(Account(account, true)), copied, other, legacy, ex);
      CopyIdentified(legacy, other, ex);
    }
  }

  lemma CopyIdentified(legacy: Legacy, mode: Mode, ex: Exchange)
    requires OldKeysServe(legacy, mode)
    ensures var account := OldAccount(legacy, mode);
            var copied := account.(title := "legacy", status := LegacyPreserved, generation := 1);
            && (Identified(account, mode, ex) <==> ex.uid(account, mode) != "")
            && (Identified(copied, mode, ex) <==> ex.uid(copied, mode) != "")
  {
  }

  /** Before the migration nobody looks at the connections to know who trades. */
  lemma OthersStay(r: Registry, connections: map<Id, Connection>, legacy: Legacy, mode: Mode, ex: Exchange)
    requires WellFormed(r) && !r.managed
    ensures MayLeave(r.(connections := connections), legacy, mode, ex) <==> MayLeave(r, legacy, mode, ex)
  {
    forall c ensures Trades(r.(connections := connections), legacy, mode, c) <==> Trades(r, legacy, mode, c) {}
  }

  lemma SameKeysWellFormed(r: Registry, id: Id, c: Connection)
    requires WellFormed(r) && id in r.connections && c.auth == r.connections[id].auth && c.mode == r.connections[id].mode
    ensures WellFormed(r.(connections := r.connections[id := c]))
  {
  }

  lemma AdoptsExactly(r: Registry, mode: Mode, id: Id, legacy: Legacy, ex: Exchange, newId: Id)
    requires WellFormed(r)
    ensures Adopt(r, mode, id, legacy, ex, newId).Ok?
       <==> (!r.managed ==>
               OtherKeysKept(legacy, mode, ex) && (mode != legacy.mode ==> MayLeave(r, legacy, legacy.mode, ex)))
  {
    hide Migrate, OtherKeysKept, MayLeave;
    if !r.managed { MigratesExactly(r, mode, legacy, ex, newId); }
  }

  lemma CanonicalKeys(before: Lookup, c: Connection, mode: Mode, legacy: Legacy, ex: Exchange)
    ensures var after := Canonicalize(before, c, mode, legacy, ex);
            after.Some? ==> after.value.auth == c.auth && after.value.mode == c.mode
  {
    hide Uid, UidScope;
  }

  /** The trading part of a binding, from the readiness of the reads on. */
  lemma TradingExactly(r: Registry, mode: Mode, id: Id, legacy: Legacy, ex: Exchange, newId: Id)
    requires WellFormed(r) && id in r.connections && Checked(r.connections[id], mode).uid != ""
    ensures BindTrading(r, mode, id, legacy, ex, newId).Ok? <==> AccountsAllow(r, mode, id, legacy, ex)
  {
    hide Canonicalize, Current, NobodyOrFlat, Flat, NoRisk, MayLeave, Trades, OtherKeysKept, Adopt, WellFormed, Identified;
    var c := r.connections[id];
    var before := Current(r, legacy, mode);
    LeavesExactly(r, legacy, mode, ex);
    FlatExactly(c, mode, ex);
    CurrentExactly(r, legacy, mode);
    CanonicalizesExactly(before, c, mode, legacy, ex);
    KnownIdentified(c, mode, ex);
    if before.Found? { assert Trades(r, legacy, mode, before.account.connection); }
    var canonical := Canonicalize(before, c, mode, legacy, ex);
    if canonical.Some? {
      CanonicalKeys(before, c, mode, legacy, ex);
      SameKeysWellFormed(r, id, canonical.value);
      var noted := r.(connections := r.connections[id := canonical.value]);
      AdoptsExactly(noted, mode, id, legacy, ex, newId);
      if !r.managed { OthersStay(r, noted.connections, legacy, legacy.mode, ex); }
    }
  }

  lemma KnownIdentified(c: Connection, mode: Mode, ex: Exchange)
    requires Checked(c, mode).uid != ""
    ensures Identified(c, mode, ex)
  {
  }

  lemma Confirms(mode: Mode)
    ensures "BIND " + Name(Trading(mode)) == if mode == Demo then "BIND DEMO" else "BIND LIVE"
    ensures "UNBIND " + Name(Trading(mode)) == if mode == Demo then "UNBIND DEMO" else "UNBIND LIVE"
    ensures "ACTIVATE " + Name(Trading(mode)) == if mode == Demo then "ACTIVATE DEMO" else "ACTIVATE LIVE"
    ensures "BIND " + Name(News) == "BIND NEWS" && "UNBIND " + Name(News) == "UNBIND NEWS"
  {
  }

  /**
   In every reachable registry, a trading binding that changes something is accepted exactly when all
   it asks is given.
   */
  lemma TradingBindExactly(ops: seq<Op>, w: World, mode: Mode, id: Id, confirmation: string, legacy: Legacy, ex: Exchange,
                           newId: Id, now: int)
    requires Reaches(START, ops, w) && Bound(w.registry, Trading(mode)) != Some(id)
    ensures Bind(w.registry, Trading(mode), id, confirmation, legacy, ex, newId, now).Ok?
       <==> TradingBindable(w.registry, mode, id, confirmation, legacy, ex, now)
  {
    StartIsOk();
    RunKeepsInv(START, ops, w);
    var r := w.registry;
    assert WellFormed(r);
    hide BindTrading, AccountsAllow, WellFormed, Inv, Reaches;
    Confirms(mode);
    if id in r.connections && Checked(r.connections[id], mode).uid != "" {
      TradingExactly(r, mode, id, legacy, ex, newId);
    }
  }

  lemma NewsBindExactly(r: Registry, id: Id, confirmation: string, legacy: Legacy, ex: Exchange, newId: Id, now: int)
    requires Bound(r, News) != Some(id)
    ensures Bind(r, News, id, confirmation, legacy, ex, newId, now).Ok? <==> NewsBindable(r, id, confirmation, now)
  {
    hide BindTrading;
    Confirms(Demo);
  }

  lemma UnbindExactly(r: Registry, purpose: Purpose, confirmation: string, ex: Exchange)
    ensures Unbind(r, purpose, confirmation, ex).Ok? <==> Unbindable(r, purpose, confirmation, ex)
  {
    Confirms(Demo);
    Confirms(Live);
    if purpose.Trading? && purpose in r.bindings && r.bindings[purpose] in r.connections {
      FlatExactly(r.connections[r.bindings[purpose]], purpose.mode, ex);
    }
    hide Flat, NoRisk, Saved;
  }

  lemma OneOfTwo(mode: Mode)
    ensures mode == Demo || mode == Live
  {
  }

  lemma ActivateManaged(r: Registry, mode: Mode, confirmation: string, legacy: Legacy, ex: Exchange, now: int)
    requires WellFormed(r)
    ensures Activate(r, mode, confirmation, legacy, ex, now).Ok? <==> Activatable(r, mode, confirmation, ex, now)
  {
    Confirms(mode);
    if r.managed && r.activeMode != Some(mode) {
      var other := if mode == Demo then Live else Demo;
      assert r.activeMode.Some?;
      OneOfTwo(r.activeMode.value);
      OneOfTwo(mode);
      hide WellFormed, Activatable, Activate;
      BoundCurrent(r, legacy, mode, ex);
      BoundCurrent(r, legacy, other, ex);
    }
    hide Current, NobodyOrFlat, NoRisk, WellFormed, Saved;
  }

  lemma ActivateExactly(ops: seq<Op>, w: World, mode: Mode, confirmation: string, legacy: Legacy, ex: Exchange, now: int)
    requires Reaches(START, ops, w)
    ensures Activate(w.registry, mode, confirmation, legacy, ex, now).Ok?
       <==> Activatable(w.registry, mode, confirmation, ex, now)
  {
    StartIsOk();
    RunKeepsInv(START, ops, w);
    assert WellFormed(w.registry);
    ActivateManaged(w.registry, mode, confirmation, legacy, ex, now);
  }

  /** In a managed registry only the bound connection trades. */
  lemma BoundCurrent(r: Registry, legacy: Legacy, mode: Mode, ex: Exchange)
    requires WellFormed(r) && r.managed
    ensures Current(r, legacy, mode) ==
              if Trading(mode) in r.bindings && r.bindings[Trading(mode)] in r.connections
              then Found(Account(r.connections[r.bindings[Trading(mode)]], false)) else Nobody
    ensures Trading(mode) in r.bindings ==> r.bindings[Trading(mode)] in r.connections
    ensures NobodyOrFlat(Current(r, legacy, mode), mode, ex)
       <==> (Trading(mode) in r.bindings ==> NoRisk(r.connections[r.bindings[Trading(mode)]], mode, ex))
  {
    assert BindingOk(r, Trading(mode)) by { if mode == Demo {} else {} }
    if Trading(mode) in r.bindings { FlatExactly(r.connections[r.bindings[Trading(mode)]], mode, ex); }
  }

  // ---------------------------------------------------------------------------------------------
  // What an accepted binding does
  // ---------------------------------------------------------------------------------------------

  /** The mode is bound to the connection under a new generation, and the other mode is left alone. */
  predicate BoundAnew(r: Registry, after: Registry, mode: Mode, id: Id)
  {
    var other := if mode == Demo then Live else Demo;
    && Bound(after, Trading(mode)) == Some(id) && Generation(after, mode) == Generation(r, mode) + 1
    && Bound(after, News) == Bound(r, News) && Generation(after, other) == Generation(r, other)
    && after.managed && after.revision == r.revision + 1
    && (r.managed ==> Bound(after, Trading(other)) == Bound(r, Trading(other)) && after.activeMode == r.activeMode)
  }

  /** The first one also fixes the active mode and keeps the other mode's old keys as a binding. */
  predicate Migrated(r: Registry, after: Registry, mode: Mode, legacy: Legacy, newId: Id)
  {
    var other := if mode == Demo then Live else Demo;
    && after.activeMode == Some(legacy.mode)
    && Bound(after, Trading(other)) == (if OldKeysServe(legacy, other) then Some(newId) else None)
    && (OldKeysServe(legacy, other) ==>
          newId in after.connections && after.connections[newId].credentials == OldKey(legacy, other)
          && after.connections[newId].auth == ApiKey && after.connections[newId].mode == other)
  }

  lemma CanonicalKeeps(before: Lookup, c: Connection, mode: Mode, legacy: Legacy, ex: Exchange)
    ensures var after := Canonicalize(before, c, mode, legacy, ex);
            after.Some? ==> after.value == c.(capabilities := after.value.capabilities)
  {
    hide Uid, UidScope;
  }

  lemma MigrateDoes(r: Registry, mode: Mode, legacy: Legacy, ex: Exchange, newId: Id)
    requires WellFormed(r) && !r.managed
    ensures var m := Migrate(r, mode, legacy, ex, newId);
            m.Ok? ==> && m.value.managed && m.value.generations == r.generations && m.value.revision == r.revision
                      && Bound(m.value, News) == Bound(r, News) && Migrated(r, m.value, mode, legacy, newId)
                      && (forall id | id in r.connections && id != newId ::
                            id in m.value.connections && m.value.connections[id] == r.connections[id])
  {
    hide Canonicalize, Current, NobodyOrFlat;
    var other := Other(mode);
    OldKeysExactly(legacy, other);
    var account := OldAccount(legacy, other);
    CanonicalKeeps(Found(Account(account, true)), account.(title := "legacy", status := LegacyPreserved, generation := 1),
                   other, legacy, ex);
    hide LegacyAccount;
  }

  lemma AdoptDoes(r: Registry, mode: Mode, id: Id, legacy: Legacy, ex: Exchange, newId: Id)
    requires WellFormed(r) && id in r.connections && newId !in r.connections
    ensures var after := Adopt(r, mode, id, legacy, ex, newId);
            after.Ok? ==> && BoundAnew(r, after.value, mode, id)
                          && (!r.managed ==> Migrated(r, after.value, mode, legacy, newId))
                          && id in after.value.connections && after.value.connections[id] == r.connections[id]
  {
    hide Migrate, Migrated, OldKeysServe;
    if !r.managed {
      MigrateDoes(r, mode, legacy, ex, newId);
      var m := Migrate(r, mode, legacy, ex, newId);
      if m.Ok? { MigratedStays(r, m.value, Adopt(r, mode, id, legacy, ex, newId).value, mode, legacy, newId); }
    }
  }

  lemma MigratedStays(r: Registry, m: Registry, after: Registry, mode: Mode, legacy: Legacy, newId: Id)
    requires Migrated(r, m, mode, legacy, newId) && after.activeMode == m.activeMode && after.connections == m.connections
    requires forall other | other != mode :: Bound(after, Trading(other)) == Bound(m, Trading(other))
    ensures Migrated(r, after, mode, legacy, newId)
  {
  }

  /** The ledger a connection is given: that of the account it replaces if it is the same account. */
  ghost predicate KeepsLedger(r: Registry, after: Registry, mode: Mode, id: Id, legacy: Legacy, ex: Exchange)
  {
    && id in after.connections && mode in after.connections[id].capabilities && id in r.connections
    && var cap, uid := after.connections[id].capabilities[mode], Checked(r.connections[id], mode).uid;
       && cap.uid == uid
       && (forall held | Trades(r, legacy, mode, held) && Uid(held, mode, ex) == uid ::
             if Trading(mode) in r.bindings then
               Checked(held, mode).scope != "" ==> cap.scope == Checked(held, mode).scope
             else cap.scope == legacy.keys[mode].identity)
       && ((forall held | Trades(r, legacy, mode, held) :: Uid(held, mode, ex) != uid) ==> cap.scope == UidScope(mode, uid))
  }

  lemma LedgerKept(r: Registry, mode: Mode, id: Id, legacy: Legacy, ex: Exchange, after: Registry)
    requires WellFormed(r) && id in r.connections && Checked(r.connections[id], mode).uid != ""
    requires var c := Canonicalize(Current(r, legacy, mode), r.connections[id], mode, legacy, ex);
             c.Some? && id in after.connections && after.connections[id] == c.value
    ensures KeepsLedger(r, after, mode, id, legacy, ex)
  {
    CurrentExactly(r, legacy, mode);
    CurrentLegacy(r, legacy, mode);
    hide Current, UidScope, Trades;
    var before := Current(r, legacy, mode);
    if before.Found? { assert Trades(r, legacy, mode, before.account.connection); }
  }

  lemma CurrentLegacy(r: Registry, legacy: Legacy, mode: Mode)
    ensures var who := Current(r, legacy, mode);
            who.Found? ==> (who.account.legacy <==> Trading(mode) !in r.bindings)
                           && (who.account.legacy ==> mode in legacy.keys && Key(legacy, mode) == legacy.keys[mode])
  {
  }

  /** An accepted trading binding binds the connection anew, under the right ledger. */
  lemma TradingBindDoes(ops: seq<Op>, w: World, mode: Mode, id: Id, confirmation: string, legacy: Legacy, ex: Exchange,
                        newId: Id, now: int)
    requires Reaches(START, ops, w) && Bound(w.registry, Trading(mode)) != Some(id) && newId !in w.registry.connections
    requires Bind(w.registry, Trading(mode), id, confirmation, legacy, ex, newId, now).Ok?
    ensures var r, after := w.registry, Bind(w.registry, Trading(mode), id, confirmation, legacy, ex, newId, now).value;
            && BoundAnew(r, after, mode, id) && (!r.managed ==> Migrated(r, after, mode, legacy, newId))
            && KeepsLedger(r, after, mode, id, legacy, ex)
  {
    StartIsOk();
    RunKeepsInv(START, ops, w);
    var r := w.registry;
    assert WellFormed(r);
    hide Inv, Reaches;
    var c := Canonicalize(Current(r, legacy, mode), r.connections[id], mode, legacy, ex);
    assert c.Some? by { hide Canonicalize, Adopt, Current, NobodyOrFlat, Flat; }
    hide Canonicalize, Adopt, Current, NobodyOrFlat, Flat, KeepsLedger, Migrated, WellFormed, BoundAnew;
    CanonicalKeys(Current(r, legacy, mode), r.connections[id], mode, legacy, ex);
    SameKeysWellFormed(r, id, c.value);
    var noted := r.(connections := r.connections[id := c.value]);
    AdoptDoes(noted, mode, id, legacy, ex, newId);
    var after := Bind(r, Trading(mode), id, confirmation, legacy, ex, newId, now).value;
    SameButNoted(r, noted, after, mode, id, legacy, newId);
    LedgerKept(r, mode, id, legacy, ex, after);
  }

  lemma SameButNoted(r: Registry, noted: Registry, after: Registry, mode: Mode, id: Id, legacy: Legacy, newId: Id)
    requires noted == r.(connections := noted.connections)
    ensures BoundAnew(noted, after, mode, id) <==> BoundAnew(r, after, mode, id)
    ensures Migrated(noted, after, mode, legacy, newId) <==> Migrated(r, after, mode, legacy, newId)
  {
  }
}
