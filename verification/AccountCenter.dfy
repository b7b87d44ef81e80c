/**
 The account center as the process runs it: each operation loads the document, changes its copy step by
 step and saves it at the end, so that a refusal leaves the stored document as it was.
 */
module AccountCenter {
  import opened Options
  import opened Strings
  import opened Accounts

  class AccountCenter {
    var store: Registry

    constructor ()
      ensures store == EMPTY
    {
      store := EMPTY;
    }

    /** The stored document is the wanted one, or untouched if the operation is refused. */
    twostate predicate Did(new wanted: Result<Registry>, new fault: Option<Fault>)
      reads this
    {
      match wanted
      case Ok(after) => store == after && fault == None
      case Refused(f) => store == old(store) && fault == Some(f)
    }

    method Save(state: Registry, action: string)
      modifies this
      ensures store == Saved(state, action)
    {
      var events := [action] + state.events;
      if |events| > 100 { events := events[..100]; }
      store := state.(revision := state.revision + 1, events := events);
    }

    method CreateConnection(title: string, auth: AuthType, mode: Mode, site: string, credentials: Option<Credentials>,
                            newId: Id)
      returns (fault: Option<Fault>)
      modifies this
      ensures Did(Create(old(store), title, auth, mode, site, credentials, newId), fault)
    {
      if site !in SITES { return Some(BadArguments); }
      if Strip(title) == "" || |title| > 60 { return Some(BadArguments); }
      if auth == ApiKey {
        if credentials == None { return Some(BadArguments); }
        var k := credentials.value;
        if k.apiKey == "" || k.secretKey == "" || k.passphrase == "" { return Some(BadArguments); }
      }
      var state := store;
      var c := Connection(Strip(title), auth, mode, site, Unverified, 1, map[], if auth == ApiKey then credentials else None, 0);
      state := state.(connections := state.connections[newId := c]);
      Save(state, "connection_created");
      return None;
    }

    method StartOAuth(id: Id, now: int) returns (fault: Option<Fault>, generation: nat)
      modifies this
      ensures Did(OAuthStart(old(store), id, now), fault)
      ensures fault == None ==> id in store.connections && generation == store.connections[id].generation
    {
      var state := store;
      generation := 0;
      if id !in state.connections { return Some(NoSuchConnection), 0; }
      var c := state.connections[id];
      if c.auth != OAuth { return Some(NotOAuth), 0; }
      if IsBound(state, id) { return Some(AlreadyBound), 0; }
      if exists p | p in state.bindings :: p != News && state.bindings[p] in state.connections
                                           && state.connections[state.bindings[p]].auth == OAuth {
        return Some(OAuthBound), 0;
      }
      if c.status == AuthorizationPending && now < c.authorizationExpiresAt { return Some(StillPending), 0; }
      c := c.(generation := c.generation + 1);
      c := c.(capabilities := map[], status := AuthorizationPending);
      c := c.(authorizationExpiresAt := now + 1800);
      state := state.(connections := state.connections[id := c]);
      Save(state, "oauth_started");
      return None, c.generation;
    }

    method FinishOAuth(id: Id, generation: nat, expires: Option<int>, now: int) returns (fault: Option<Fault>)
      modifies this
      ensures Did(OAuthAnswered(old(store), id, generation, expires, now), fault)
    {
      var state := store;
      if id !in state.connections { return Some(NoSuchConnection); }
      var c := state.connections[id];
      if c.generation != generation { return Some(GenerationChanged); }
      if expires.Some? && 0 < expires.value <= 1800 {
        c := c.(authorizationExpiresAt := now + expires.value);
        Save(state.(connections := state.connections[id := c]), "oauth_pending");
      } else {
        c := c.(status := Unavailable);
        Save(state.(connections := state.connections[id := c]), "oauth_start_failed");
      }
      return None;
    }

    method PublishProbe(id: Id, seen: Connection, mode: Mode, found: Capability) returns (fault: Option<Fault>)
      modifies this
      ensures Did(ProbePublish(old(store), id, seen, mode, found), fault)
    {
      var state := store;
      if id !in state.connections { return Some(NoSuchConnection); }
      var c := state.connections[id];
      if c.generation != seen.generation { return Some(GenerationChanged); }
      c := c.(capabilities := c.capabilities[mode := found]);
      c := c.(status := if found.uid != "" then IdentityVerified else Unavailable);
      Save(state.(connections := state.connections[id := c]), "connection_probed");
      return None;
    }

    /** `bind` for any purpose. */
    method BindPurpose(purpose: Purpose, id: Id, confirmation: string, legacy: Legacy, ex: Exchange, newId: Id,
                       now: int)
      returns (fault: Option<Fault>)
      modifies this
      ensures Did(Bind(old(store), purpose, id, confirmation, legacy, ex, newId, now), fault)
    {
      if confirmation != "BIND " + Name(purpose) { return Some(NotConfirmed); }
      var state := store;
      if purpose in state.bindings && state.bindings[purpose] == id { return None; }
      if id !in state.connections { return Some(NoSuchConnection); }
      var c := state.connections[id];
      var cap := Checked(c, if purpose.News? then Live else purpose.mode);
      if c.status != IdentityVerified { return Some(NotVerified); }
      if cap.uid == "" || !Fresh(cap.checkedAt, now) { return Some(StaleCheck); }
      if purpose == News {
        if !cap.newsReady { return Some(NewsNotReady); }
        state := state.(bindings := state.bindings[News := id]);
        Save(state, "purpose_bound");
        return None;
      }
      fault := BindMode(purpose.mode, id, legacy, ex, newId);
    }

    /** The trading part of `bind`. */
    method BindMode(mode: Mode, id: Id, legacy: Legacy, ex: Exchange, newId: Id) returns (fault: Option<Fault>)
      requires id in store.connections
      modifies this
      ensures Did(BindTrading(old(store), mode, id, legacy, ex, newId), fault)
    {
      hide Canonicalize, Current, NobodyOrFlat, Flat, Migrate, Saved;
      var state := store;
      var c := state.connections[id];
      if !Checked(c, mode).readReady { return Some(ReadsIncomplete); }
      if c.auth == OAuth { return Some(OAuthNotTradable); }
      var before := Current(state, legacy, mode);
      if before.Unknown? { return Some(UnknownAccount); }
      if ex.unresolved { return Some(UnresolvedIntents); }
      if !NobodyOrFlat(before, mode, ex) || !Flat(c, mode, ex) { return Some(NotFlat); }
      var canonical := Canonicalize(before, c, mode, legacy, ex);
      if canonical == None { return Some(NoUid); }
      state := state.(connections := state.connections[id := canonical.value]);
      if !state.managed {
        var moved := MigrateKeys(state, mode, legacy, ex, newId);
        if moved.Refused? { return Some(moved.fault); }
        state := moved.value;
      }
      state := state.(generations := state.generations[mode := Generation(state, mode) + 1]);
      state := state.(bindings := state.bindings[Trading(mode) := id]);
      Save(state, "purpose_bound");
      return None;
    }

    /** The one-way step out of the old configuration. */
    method MigrateKeys(known: Registry, mode: Mode, legacy: Legacy, ex: Exchange, newId: Id)
        returns (r: Result<Registry>)
      ensures r == Migrate(known, mode, legacy, ex, newId)
    {
      hide Canonicalize, Flat;
      var state := known.(activeMode := Some(legacy.mode));
      if mode != legacy.mode {
        var who := Current(known, legacy, legacy.mode);
        if who.Unknown? { return Refused(UnknownAccount); }
        if !NobodyOrFlat(who, legacy.mode, ex) { return Refused(NotFlat); }
      }
      var other := Other(mode);
      if Key(legacy, other).credentials.Some? && (other == legacy.mode || Key(legacy, other).separate) {
        var before := LegacyAccount(legacy, other);
        if !before.Found? { return Refused(UnknownAccount); }
        var copied := before.account.connection.(title := "legacy", status := LegacyPreserved, generation := 1);
        var canonical := Canonicalize(before, copied, other, legacy, ex);
        if canonical == None { return Refused(NoUid); }
        state := state.(connections := state.connections[newId := canonical.value]);
        state := state.(bindings := state.bindings[Trading(other) := newId]);
      }
      state := state.(managed := true);
      return Ok(state);
    }

    method UnbindPurpose(purpose: Purpose, confirmation: string, ex: Exchange) returns (fault: Option<Fault>)
      modifies this
      ensures Did(Unbind(old(store), purpose, confirmation, ex), fault)
    {
      if confirmation != "UNBIND " + Name(purpose) { return Some(NotConfirmed); }
      var state := store;
      if purpose !in state.bindings { return Some(NotBound); }
      if purpose != News {
        var id := state.bindings[purpose];
        if ex.unresolved { return Some(UnresolvedIntents); }
        if id !in state.connections { return Some(NoSuchConnection); }
        if !Flat(state.connections[id], purpose.mode, ex) { return Some(NotFlat); }
        state := state.(generations := state.generations[purpose.mode := Generation(state, purpose.mode) + 1]);
      }
      state := state.(bindings := state.bindings - {purpose});
      Save(state, "purpose_unbound");
      return None;
    }

    method ActivateMode(mode: Mode, confirmation: string, legacy: Legacy, ex: Exchange, now: int)
        returns (fault: Option<Fault>)
      modifies this
      ensures Did(Activate(old(store), mode, confirmation, legacy, ex, now), fault)
    {
      hide Flat, NobodyOrFlat, Current, Saved;
      if confirmation != "ACTIVATE " + Name(Trading(mode)) { return Some(NotConfirmed); }
      var state := store;
      if !state.managed || Trading(mode) !in state.bindings { return Some(TargetUnbound); }
      if state.activeMode == Some(mode) { return None; }
      var target := Current(state, legacy, mode);
      if !target.Found? || state.activeMode == None { return Some(NoSuchConnection); }
      var cap := Checked(target.account.connection, mode);
      if !cap.readReady || !Fresh(cap.checkedAt, now) { return Some(StaleCheck); }
      if ex.unresolved { return Some(UnresolvedIntents); }
      var was := Current(state, legacy, state.activeMode.value);
      if was.Unknown? { return Some(NoSuchConnection); }
      if !NobodyOrFlat(was, state.activeMode.value, ex) { return Some(NotFlat); }
      if !NobodyOrFlat(target, mode, ex) { return Some(NotFlat); }
      state := state.(activeMode := Some(mode));
      Save(state, "environment_activated");
      return None;
    }

    method DeleteConnection(id: Id, confirmation: string, home: bool, now: int) returns (fault: Option<Fault>)
      modifies this
      ensures Did(Delete(old(store), id, confirmation, home, now), fault)
    {
      if confirmation != "DELETE CONNECTION" { return Some(NotConfirmed); }
      var state := store;
      if id !in state.connections { return Some(NoSuchConnection); }
      if IsBound(state, id) { return Some(AlreadyBound); }
      var c := state.connections[id];
      if c.status == AuthorizationPending && now < c.authorizationExpiresAt { return Some(StillPending); }
      if !home { return Some(DirectoryNotOurs); }
      state := state.(connections := state.connections - {id});
      Save(state, "connection_removed");
      return None;
    }
  }
}
