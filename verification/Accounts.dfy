/**
 The account registry of `okxquant_backend/account_connections.py`: its document and its operations as
 functions from document to document. Exchange replies, clock readings and new identities are inputs.
 */
module Accounts {
  import opened Options
  import opened Strings

  type Id = string

  datatype AuthType = ApiKey | OAuth
  datatype Mode = Demo | Live
  datatype Purpose = Trading(mode: Mode) | News

  datatype Credentials = Credentials(apiKey: string, secretKey: string, passphrase: string)

  /** What the last probe of one mode found; absent keys read as these defaults: 0, "" and false. */
  datatype Capability = Capability(checkedAt: int, uid: string, readReady: bool, newsReady: bool, scope: string)

  datatype Status = Unverified | AuthorizationPending | Unavailable | IdentityVerified | LegacyPreserved

  datatype Connection = Connection(title: string, auth: AuthType, mode: Mode, site: string, status: Status,
                                   generation: nat, capabilities: map<Mode, Capability>,
                                   credentials: Option<Credentials>, authorizationExpiresAt: int)

  /** The stored document. `events` keeps the newest hundred actions. */
  datatype Registry = Registry(revision: nat, managed: bool, activeMode: Option<Mode>,
                               bindings: map<Purpose, Id>, generations: map<Mode, nat>,
                               connections: map<Id, Connection>, events: seq<string>)

  datatype Fault =
    | NotConfirmed | BadArguments | NoSuchConnection | NotOAuth | AlreadyBound | OAuthBound | StillPending
    | GenerationChanged | NotVerified | StaleCheck | NewsNotReady | ReadsIncomplete | OAuthNotTradable
    | UnknownAccount | UnresolvedIntents | NotFlat | NoUid | NotBound | TargetUnbound | DirectoryNotOurs
    | EnvironmentUnbound | LegacyDisabled | BindingChanged

  datatype Result<T> = Ok(value: T) | Refused(fault: Fault)

  const EMPTY := Registry(0, false, None, map[], map[Demo := 0, Live := 0], map[], [])
  const NO_CAPABILITY := Capability(0, "", false, false, "")
  const SITES: set<string> := {"global", "eea", "us", "tr"}

  function Name(purpose: Purpose): string
  {
    match purpose
    case Trading(Demo) => "DEMO"
    case Trading(Live) => "LIVE"
    case News => "NEWS"
  }

  function Other(mode: Mode): Mode
  {
    if mode == Demo then Live else Demo
  }

  function Bound(r: Registry, purpose: Purpose): Option<Id>
  {
    if purpose in r.bindings then Some(r.bindings[purpose]) else None
  }

  predicate IsBound(r: Registry, id: Id)
  {
    exists purpose | purpose in r.bindings :: r.bindings[purpose] == id
  }

  function Generation(r: Registry, mode: Mode): nat
  {
    if mode in r.generations then r.generations[mode] else 0
  }

  /** `connection.get('capabilities', {}).get(mode, {})` */
  function Checked(c: Connection, mode: Mode): Capability
  {
    if mode in c.capabilities then c.capabilities[mode] else NO_CAPABILITY
  }

  predicate Fresh(checkedAt: int, now: int)
  {
    0 <= now - checkedAt <= 300
  }

  function Saved(r: Registry, action: string): Registry
  {
    var events := [action] + r.events;
    r.(revision := r.revision + 1, events := if |events| > 100 then events[..100] else events)
  }

  // ---------------------------------------------------------------------------------------------
  // The exchange and the keys from before the registry
  // ---------------------------------------------------------------------------------------------

  /** What the exchange would answer: the account behind a connection, and whether it holds no risk. */
  datatype Exchange = Exchange(uid: (Connection, Mode) -> string, flat: (Connection, Mode) -> bool, unresolved: bool)

  /** `request` and `credential_headers` refuse these before anything is sent. */
  predicate Reachable(c: Connection, mode: Mode)
  {
    c.site == "global" && (c.auth.ApiKey? ==> c.mode == mode && c.credentials.Some?)
  }

  predicate Flat(c: Connection, mode: Mode, ex: Exchange)
  {
    Reachable(c, mode) && ex.flat(c, mode)
  }

  /** A key of the old configuration; `identity` names its ledger. */
  datatype LegacyKey = LegacyKey(credentials: Option<Credentials>, separate: bool, identity: string)

  /** `traces` says that files of an earlier account exist. */
  datatype Legacy = Legacy(mode: Mode, keys: map<Mode, LegacyKey>, traces: bool)

  function Key(legacy: Legacy, mode: Mode): LegacyKey
  {
    if mode in legacy.keys then legacy.keys[mode] else LegacyKey(None, false, "")
  }

  datatype Account = Account(connection: Connection, legacy: bool)
  datatype Lookup = Nobody | Found(account: Account) | Unknown

  function LegacyAccount(legacy: Legacy, mode: Mode): Lookup
  {
    var key := Key(legacy, mode);
    if mode != legacy.mode && !key.separate then Nobody
    else if key.credentials.None? then if legacy.traces then Unknown else Nobody
    else Found(Account(Connection("", ApiKey, mode, "global", Unverified, 0, map[], key.credentials, 0), true))
  }

  /** `_current` */
  function Current(r: Registry, legacy: Legacy, mode: Mode): Lookup
  {
    match Bound(r, Trading(mode))
    case Some(id) => if id in r.connections then Found(Account(r.connections[id], false)) else Unknown
    case None =>
      if r.managed then Nobody
      else if Key(legacy, mode).credentials.None? && mode != legacy.mode then Nobody
      else LegacyAccount(legacy, mode)
  }

  predicate NobodyOrFlat(who: Lookup, mode: Mode, ex: Exchange)
  {
    who.Found? ==> Flat(who.account.connection, mode, ex)
  }

  function Uid(c: Connection, mode: Mode, ex: Exchange): string
  {
    var known := Checked(c, mode).uid;
    if known != "" then known else if Reachable(c, mode) then ex.uid(c, mode) else ""
  }

  /** The digest of the source stands for its arguments. */
  function UidScope(mode: Mode, uid: string): string
  {
    "okx:" + Name(Trading(mode)) + ":account:" + uid
  }

  /** `_canonicalize`: the account behind `c` keeps the ledger of `before` if it is the same account. */
  function Canonicalize(before: Lookup, c: Connection, mode: Mode, legacy: Legacy, ex: Exchange): Option<Connection>
  {
    var uid := Uid(c, mode, ex);
    if uid == "" then None
    else if before.Found? && Uid(before.account.connection, mode, ex) == "" then None
    else
      var same := before.Found? && Uid(before.account.connection, mode, ex) == uid;
      var kept := if same then if before.account.legacy then Key(legacy, mode).identity
                               else Checked(before.account.connection, mode).scope
                  else "";
      var scope := if kept != "" || (same && before.account.legacy) then kept else UidScope(mode, uid);
      Some(c.(capabilities := c.capabilities[mode := Checked(c, mode).(uid := uid, scope := scope)]))
  }

  // ---------------------------------------------------------------------------------------------
  // Connections
  // ---------------------------------------------------------------------------------------------

  function Create(r: Registry, title: string, auth: AuthType, mode: Mode, site: string,
                  credentials: Option<Credentials>,
                  newId: Id): Result<Registry>
  {
    if site !in SITES || Strip(title) == "" || |title| > 60 then Refused(BadArguments)
    else if auth.ApiKey? && (credentials.None? || credentials.value.apiKey == "" || credentials.value.secretKey == ""
                             || credentials.value.passphrase == "") then Refused(BadArguments)
    else
      var c := Connection(Strip(title), auth, mode, site, Unverified, 1, map[],
                          if auth.ApiKey? then credentials else None, 0);
      Ok(Saved(r.(connections := r.connections[newId := c]), "connection_created"))
  }

  function OAuthStart(r: Registry, id: Id, now: int): Result<Registry>
  {
    if id !in r.connections then Refused(NoSuchConnection)
    else
      var c := r.connections[id];
      if c.auth != OAuth then Refused(NotOAuth)
      else if IsBound(r, id) then Refused(AlreadyBound)
      else if exists p | p in r.bindings ::
        p != News && r.bindings[p] in r.connections && r.connections[r.bindings[p]].auth == OAuth
      then Refused(OAuthBound)
      else if c.status == AuthorizationPending && now < c.authorizationExpiresAt then Refused(StillPending)
      else
        var started := c.(generation := c.generation + 1, capabilities := map[], status := AuthorizationPending,
                          authorizationExpiresAt := now + 1800);
        Ok(Saved(r.(connections := r.connections[id := started]), "oauth_started"))
  }

  /** The second half of `oauth_start`, after the login command answered. */
  function OAuthAnswered(r: Registry, id: Id, generation: nat, expires: Option<int>, now: int): Result<Registry>
  {
    if id !in r.connections then Refused(NoSuchConnection)
    else
      var c := r.connections[id];
      if c.generation != generation then Refused(GenerationChanged)
      else if expires.Some? && 0 < expires.value <= 1800 then
        Ok(Saved(r.(connections := r.connections[id := c.(authorizationExpiresAt := now + expires.value)]), "oauth_pending"))
      else Ok(Saved(r.(connections := r.connections[id := c.(status := Unavailable)]), "oauth_start_failed"))
  }

  /** What the probe of a connection yields; `complete` and `news` are the exchange's answers after the identity. */
  function ProbeFinds(c: Connection, mode: Mode, ex: Exchange, complete: bool, news: bool, now: int): Capability
  {
    var prior := Checked(c, mode);
    var answer := if Reachable(c, mode) then ex.uid(c, mode) else "";
    var uid := if prior.uid != "" && answer != prior.uid then "" else answer;
    if uid == "" then Capability(now, "", false, false, "")
    else
      var scope := if prior.uid == uid && prior.scope != "" then prior.scope else UidScope(mode, uid);
      Capability(now, uid, complete, mode == Live && news, scope)
  }

  function ProbePublish(r: Registry, id: Id, seen: Connection, mode: Mode, found: Capability): Result<Registry>
  {
    if id !in r.connections then Refused(NoSuchConnection)
    else
      var c := r.connections[id];
      if c.generation != seen.generation then Refused(GenerationChanged)
      else
        var probed := c.(capabilities := c.capabilities[mode := found],
                         status := if found.uid != "" then IdentityVerified else Unavailable);
        Ok(Saved(r.(connections := r.connections[id := probed]), "connection_probed"))
  }

  /** `home` says that the authorization directory is absent or verifiably ours. */
  function Delete(r: Registry, id: Id, confirmation: string, home: bool, now: int): Result<Registry>
  {
    if confirmation != "DELETE CONNECTION" then Refused(NotConfirmed)
    else if id !in r.connections then Refused(NoSuchConnection)
    else if IsBound(r, id) then Refused(AlreadyBound)
    else if r.connections[id].status == AuthorizationPending && now < r.connections[id].authorizationExpiresAt
    then Refused(StillPending)
    else if !home then Refused(DirectoryNotOurs)
    else Ok(Saved(r.(connections := r.connections - {id}), "connection_removed"))
  }

  // ---------------------------------------------------------------------------------------------
  // Bindings
  // ---------------------------------------------------------------------------------------------

  /** The first trading binding ends the old configuration, whose other key it keeps as a binding. */
  function Migrate(r: Registry, mode: Mode, legacy: Legacy, ex: Exchange, newId: Id): Result<Registry>
  {
    var active := legacy.mode;
    var who := Current(r, legacy, active);
    if mode != active && who.Unknown? then Refused(UnknownAccount)
    else if mode != active && !NobodyOrFlat(who, active, ex) then Refused(NotFlat)
    else
      var other := Other(mode);
      var begun := r.(activeMode := Some(active), managed := true);
      if Key(legacy, other).credentials.Some? && (other == active || Key(legacy, other).separate) then
        var before := LegacyAccount(legacy, other);
        if !before.Found? then Refused(UnknownAccount)
        else
          var copied := before.account.connection.(title := "legacy", status := LegacyPreserved, generation := 1);
          match Canonicalize(before, copied, other, legacy, ex)
          case None => Refused(NoUid)
          case Some(c) => Ok(begun.(connections := begun.connections[newId := c],
                                    bindings := begun.bindings[Trading(other) := newId]))
      else Ok(begun)
  }

  /** The end of `bind`: migrate if need be, raise the generation, set the binding. */
  function Adopt(r: Registry, mode: Mode, id: Id, legacy: Legacy, ex: Exchange, newId: Id): Result<Registry>
  {
    match if r.managed then Ok(r) else Migrate(r, mode, legacy, ex, newId)
    case Refused(fault) => Refused(fault)
    case Ok(m) =>
      Ok(Saved(m.(generations := m.generations[mode := Generation(m, mode) + 1],
                  bindings := m.bindings[Trading(mode) := id]), "purpose_bound"))
  }

  function BindTrading(r: Registry, mode: Mode, id: Id, legacy: Legacy, ex: Exchange, newId: Id): Result<Registry>
    requires id in r.connections
  {
    var c := r.connections[id];
    if !Checked(c, mode).readReady then Refused(ReadsIncomplete)
    else if c.auth.OAuth? then Refused(OAuthNotTradable)
    else
      var before := Current(r, legacy, mode);
      if before.Unknown? then Refused(UnknownAccount)
      else if ex.unresolved then Refused(UnresolvedIntents)
      else if !NobodyOrFlat(before, mode, ex) || !Flat(c, mode, ex) then Refused(NotFlat)
      else
        match Canonicalize(before, c, mode, legacy, ex)
        case None => Refused(NoUid)
        case Some(c') => Adopt(r.(connections := r.connections[id := c']), mode, id, legacy, ex, newId)
  }

  function Bind(r: Registry, purpose: Purpose, id: Id, confirmation: string, legacy: Legacy, ex: Exchange, newId: Id,
                now: int)
    : Result<Registry>
  {
    if confirmation != "BIND " + Name(purpose) then Refused(NotConfirmed)
    else if Bound(r, purpose) == Some(id) then Ok(r)
    else if id !in r.connections then Refused(NoSuchConnection)
    else
      var c := r.connections[id];
      var cap := Checked(c, if purpose.News? then Live else purpose.mode);
      if c.status != IdentityVerified then Refused(NotVerified)
      else if cap.uid == "" || !Fresh(cap.checkedAt, now) then Refused(StaleCheck)
      else if purpose.Trading? then BindTrading(r, purpose.mode, id, legacy, ex, newId)
      else if !cap.newsReady then Refused(NewsNotReady)
      else Ok(Saved(r.(bindings := r.bindings[News := id]), "purpose_bound"))
  }

  function Unbind(r: Registry, purpose: Purpose, confirmation: string, ex: Exchange): Result<Registry>
  {
    if confirmation != "UNBIND " + Name(purpose) then Refused(NotConfirmed)
    else if Bound(r, purpose).None? then Refused(NotBound)
    else if purpose.News? then Ok(Saved(r.(bindings := r.bindings - {News}), "purpose_unbound"))
    else
      var mode, id := purpose.mode, r.bindings[purpose];
      if ex.unresolved then Refused(UnresolvedIntents)
      else if id !in r.connections then Refused(NoSuchConnection)
      else if !Flat(r.connections[id], mode, ex) then Refused(NotFlat)
      else Ok(Saved(r.(generations := r.generations[mode := Generation(r, mode) + 1],
                       bindings := r.bindings - {purpose}), "purpose_unbound"))
  }

  function Activate(r: Registry, mode: Mode, confirmation: string, legacy: Legacy, ex: Exchange,
                    now: int): Result<Registry>
  {
    if confirmation != "ACTIVATE " + Name(Trading(mode)) then Refused(NotConfirmed)
    else if !r.managed || Bound(r, Trading(mode)).None? then Refused(TargetUnbound)
    else if r.activeMode == Some(mode) then Ok(r)
    else
      var target := Current(r, legacy, mode);
      if !target.Found? || r.activeMode.None? then Refused(NoSuchConnection)
      else
        var cap := Checked(target.account.connection, mode);
        var was := Current(r, legacy, r.activeMode.value);
        if !cap.readReady || !Fresh(cap.checkedAt, now) then Refused(StaleCheck)
        else if ex.unresolved then Refused(UnresolvedIntents)
        else if was.Unknown? then Refused(NoSuchConnection)
        else if !NobodyOrFlat(was, r.activeMode.value, ex) || !NobodyOrFlat(target, mode, ex) then Refused(NotFlat)
        else Ok(Saved(r.(activeMode := Some(mode)), "environment_activated"))
  }

  // ---------------------------------------------------------------------------------------------
  // Trading environments
  // ---------------------------------------------------------------------------------------------

  datatype Source = OldConfiguration | Center | CenterUnbound

  datatype Environment = Environment(mode: Mode, credentials: Option<Credentials>, source: Source, connectionId: string,
                                     bindingVersion: nat, scope: string)

  /** `resolve_environment`: None sends the caller to the old configuration. */
  function Resolve(r: Registry): Result<Option<Environment>>
  {
    if !r.managed then Ok(None)
    else if r.activeMode.None? then Refused(NoSuchConnection)
    else
      var mode := r.activeMode.value;
      match Bound(r, Trading(mode))
      case None =>
        Ok(Some(Environment(mode, None, CenterUnbound, "disabled-" + Name(Trading(mode)), Generation(r, mode), "")))
      case Some(id) =>
        if id !in r.connections then Refused(NoSuchConnection)
        else
          var c := r.connections[id];
          if c.auth != ApiKey then Refused(OAuthNotTradable)
          else Ok(Some(Environment(mode, c.credentials, Center, id, Generation(r, mode), Checked(c, mode).scope)))
  }

  function AssertCurrent(r: Registry, env: Environment): Result<()>
  {
    if env.source == CenterUnbound then Refused(EnvironmentUnbound)
    else if env.connectionId == "" then if r.managed then Refused(LegacyDisabled) else Ok(())
    else
      match Resolve(r)
      case Refused(fault) => Refused(fault)
      case Ok(None) => Refused(BindingChanged)
      case Ok(Some(now)) =>
        if now.connectionId != env.connectionId || now.mode != env.mode || now.bindingVersion != env.bindingVersion
        then Refused(BindingChanged)
        else Ok(())
  }
}
