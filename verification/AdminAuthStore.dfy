/** `AdminAuthStore`: each method is one transaction on the user and session tables. */
module AdminAuthStore {
  import opened Options
  import opened Strings
  import opened AdminAuth

  function FaultOf(r: Result<()>): Option<Fault>
  {
    match r case Ok(_) => None case Refused(f) => Some(f)
  }

  class AdminAuthStore {
    var users: map<UserId, User>
    var lastUser: nat
    var sessions: map<Token, Session>

    constructor ()
      ensures State() == EMPTY && Consistent()
    {
      users, lastUser, sessions := map[], 0, map[];
    }

    function State(): State
      reads this
    {
      AdminAuth.State(users, lastUser, sessions)
    }

    /** AUTOINCREMENT counts every user, and names are unique without regard to case. */
    ghost predicate Consistent()
      reads this
    {
      && (forall id | id in users :: id <= lastUser)
      && (forall a, b | a in users && b in users && Fold(users[a].name) == Fold(users[b].name) :: a == b)
    }

    /** The operation did what its function says, or was refused and changed nothing. */
    twostate predicate Did(new wanted: Result<State>, new fault: Option<Fault>)
      reads this
    {
      match wanted
      case Ok(after) => State() == after && fault == None
      case Refused(f) => State() == old(State()) && fault == Some(f)
    }

    method CreateAccount(name: string, password: string, role: Role) returns (fault: Option<Fault>)
      requires Consistent()
      modifies this
      ensures Consistent()
      ensures Did(CreateUser(old(State()), name, password, role), fault)
    {
      hide NameOk, PasswordOk, Strip, Fold;
      var stripped := Strip(name);
      if !NameOk(stripped) { return Some(BadName); }
      if !PasswordOk(password) { return Some(BadPassword); }
      if exists id | id in users :: Fold(users[id].name) == Fold(stripped) { return Some(NameTaken); }
      lastUser := lastUser + 1;
      users := users[lastUser := User(stripped, password, role, true, 0, 0)];
      return None;
    }

    /** `login`: finding the account, comparing and counting are one transaction. */
    method Login(name: string, password: string, now: int, token: Token) returns (fault: Option<Fault>)
      requires Consistent()
      modifies this
      ensures Consistent()
      ensures forall id | Named(old(State()), Strip(name), id) ::
                && State() == LoginAs(old(State()), id, password, now, token).1
                && fault == FaultOf(LoginAs(old(State()), id, password, now, token).0)
      ensures (forall id :: !Named(old(State()), Strip(name), id)) ==>
                State() == old(State()) && fault == Some(WrongPassword)
    {
      hide Strip, Fold, LoginAs;
      ghost var before := State();
      if !exists id | id in users :: Fold(users[id].name) == Fold(Strip(name)) { return Some(WrongPassword); }
      var id :| id in users && Fold(users[id].name) == Fold(Strip(name));
      assert Named(before, Strip(name), id) && forall other | Named(before, Strip(name), other) :: other == id;
      fault := CheckPassword(id, password, now, token);
    }

    /** The part of `login` after the account was found. */
    method CheckPassword(id: UserId, password: string, now: int, token: Token) returns (fault: Option<Fault>)
      requires Consistent() && id in users
      modifies this
      ensures Consistent()
      ensures State() == LoginAs(old(State()), id, password, now, token).1
      ensures fault == FaultOf(LoginAs(old(State()), id, password, now, token).0)
    {
      hide Fold;
      if !users[id].enabled { return Some(Disabled); }
      if users[id].lockedUntil > now { return Some(Locked); }
      if users[id].password != password {
        var failures := users[id].failedAttempts + 1;
        var lockedUntil := if failures >= MAX_FAILURES then now + LOCK_SECONDS else 0;
        users := users[id := users[id].(failedAttempts := failures, lockedUntil := lockedUntil)];
        return Some(WrongPassword);
      }
      sessions := map t | t in sessions && sessions[t].expiresAt > now :: sessions[t];
      sessions := sessions[token := Session(id, now, now + SESSION_SECONDS, now)];
      users := users[id := users[id].(failedAttempts := 0, lockedUntil := 0)];
      return None;
    }

    method ValidateSession(token: Token, now: int) returns (user: Option<UserId>)
      requires Consistent()
      modifies this`sessions
      ensures Consistent()
      ensures user == if Valid(old(State()), token, now) then Some(old(sessions)[token].user) else None
      ensures State() == Seen(old(State()), token, now)
    {
      hide Fold;
      if token == "" || token !in sessions { return None; }
      var session := sessions[token];
      if session.expiresAt <= now || session.user !in users || !users[session.user].enabled { return None; }
      sessions := sessions[token := session.(lastSeenAt := now)];
      return Some(session.user);
    }

    method EndSession(token: Token)
      requires Consistent()
      modifies this`sessions
      ensures Consistent() && State() == Logout(old(State()), token)
    {
      sessions := sessions - {token};
    }

    method EndSessionsOf(id: UserId)
      requires Consistent()
      modifies this`sessions
      ensures Consistent() && State() == LogoutUser(old(State()), id)
    {
      sessions := map t | t in sessions && sessions[t].user != id :: sessions[t];
    }

    method UnlockUser(id: UserId) returns (fault: Option<Fault>)
      requires Consistent()
      modifies this`users
      ensures Consistent() && Did(Unlock(old(State()), id), fault)
    {
      hide Fold;
      if id !in users { return Some(NoSuchUser); }
      users := users[id := users[id].(failedAttempts := 0, lockedUntil := 0)];
      return None;
    }

    method ChangeUserPassword(id: UserId, password: string) returns (fault: Option<Fault>)
      requires Consistent()
      modifies this
      ensures Consistent() && Did(ChangePassword(old(State()), id, password), fault)
    {
      hide Fold, PasswordOk;
      if !PasswordOk(password) { return Some(BadPassword); }
      if id in users { users := users[id := users[id].(password := password)]; }
      EndSessionsOf(id);
      return None;
    }

    method SetUserEnabled(id: UserId, enabled: bool, actor: UserId) returns (fault: Option<Fault>)
      requires Consistent()
      modifies this
      ensures Consistent() && Did(SetEnabled(old(State()), id, enabled, actor), fault)
    {
      hide Fold;
      if id == actor && !enabled { return Some(OwnAccount); }
      if id !in users { return Some(NoSuchUser); }
      if !enabled && users[id].role == SuperAdmin && users[id].enabled {
        var count := |EnabledSuperAdmins(State())|;
        if count <= 1 { return Some(LastSuperAdmin); }
      }
      users := users[id := users[id].(enabled := enabled)];
      if !enabled { EndSessionsOf(id); }
      return None;
    }
  }
}
