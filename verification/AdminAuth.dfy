/**
 Administrator accounts of `okxquant_backend/admin_auth.py`: the login lockout, sessions and the enabled
 super administrator, over every sequence of operations on a clock that does not run backwards.
 */
module AdminAuth {
  import opened Strings

  type UserId = nat
  type Token = string

  datatype Role = SuperAdmin | Admin

  /** Salted hashing stands for the password itself. */
  datatype User = User(name: string, password: string, role: Role, enabled: bool, failedAttempts: nat, lockedUntil: int)

  datatype Session = Session(user: UserId, createdAt: int, expiresAt: int, lastSeenAt: int)

  datatype State = State(users: map<UserId, User>, lastUser: nat, sessions: map<Token, Session>)

  datatype Fault =
    | BadName | BadPassword | NameTaken | Disabled | Locked | WrongPassword
    | NoSuchUser | OwnAccount | LastSuperAdmin

  datatype Result<T> = Ok(value: T) | Refused(fault: Fault)

  const EMPTY := State(map[], 0, map[])
  const LOCK_SECONDS: int := 900
  const MAX_FAILURES: nat := 5
  const SESSION_SECONDS: int := 12 * 60 * 60

  // ---------------------------------------------------------------------------------------------
  // Names and passwords
  // ---------------------------------------------------------------------------------------------

  predicate Letter(c: char)
  {
    'a' <= c <= 'z' || 'A' <= c <= 'Z'
  }

  predicate Digit(c: char)
  {
    '0' <= c <= '9'
  }

  predicate NameOk(name: string)
  {
    && 3 <= |name| <= 32 && Letter(name[0])
    && forall i | 1 <= i < |name| :: Letter(name[i]) || Digit(name[i]) || name[i] in {'_', '.', '-'}
  }

  predicate PasswordOk(password: string)
  {
    && 12 <= |password| <= 128
    && (exists i | 0 <= i < |password| :: Letter(password[i]))
    && (exists i | 0 <= i < |password| :: Digit(password[i]))
  }

  /** Equality under COLLATE NOCASE compares these. */
  function Fold(name: string): string
  {
    seq(|name|, i requires 0 <= i < |name| => if 'A' <= name[i] <= 'Z' then name[i] - 'A' + 'a' else name[i])
  }

  predicate Named(s: State, name: string, id: UserId)
  {
    id in s.users && Fold(s.users[id].name) == Fold(name)
  }

  // ---------------------------------------------------------------------------------------------
  // Operations
  // ---------------------------------------------------------------------------------------------

  predicate NameTakenBy(s: State, name: string)
  {
    exists id | id in s.users :: Fold(s.users[id].name) == Fold(name)
  }

  function CreateUser(s: State, name: string, password: string, role: Role): Result<State>
  {
    var stripped := Strip(name);
    if !NameOk(stripped) then Refused(BadName)
    else if !PasswordOk(password) then Refused(BadPassword)
    else if NameTakenBy(s, stripped) then Refused(NameTaken)
    else
      Ok(s.(users := s.users[s.lastUser + 1 := User(stripped, password, role, true, 0, 0)], lastUser := s.lastUser + 1))
  }

  /** A wrong password: from the fifth failure on every one locks the account. */
  function Failed(user: User, now: int): User
  {
    var failures := user.failedAttempts + 1;
    user.(failedAttempts := failures, lockedUntil := if failures >= MAX_FAILURES then now + LOCK_SECONDS else 0)
  }

  /** The part of `login` after the account was found; `token` is the new session's. */
  function LoginAs(s: State, id: UserId, password: string, now: int, token: Token): (Result<()>, State)
    requires id in s.users
  {
    var user := s.users[id];
    if !user.enabled then (Refused(Disabled), s)
    else if user.lockedUntil > now then (Refused(Locked), s)
    else if user.password != password then (Refused(WrongPassword), s.(users := s.users[id := Failed(user, now)]))
    else
      var kept := map t | t in s.sessions && s.sessions[t].expiresAt > now :: s.sessions[t];
      (Ok(()), s.(users := s.users[id := user.(failedAttempts := 0, lockedUntil := 0)],
                  sessions := kept[token := Session(id, now, now + SESSION_SECONDS, now)]))
  }

  function Unlock(s: State, id: UserId): Result<State>
  {
    if id !in s.users then Refused(NoSuchUser)
    else Ok(s.(users := s.users[id := s.users[id].(failedAttempts := 0, lockedUntil := 0)]))
  }

  function WithoutSessionsOf(s: State, id: UserId): map<Token, Session>
  {
    map t | t in s.sessions && s.sessions[t].user != id :: s.sessions[t]
  }

  function ChangePassword(s: State, id: UserId, password: string): Result<State>
  {
    if !PasswordOk(password) then Refused(BadPassword)
    else
      Ok(s.(users := if id in s.users then s.users[id := s.users[id].(password := password)] else s.users,
            sessions := WithoutSessionsOf(s, id)))
  }

  function EnabledSuperAdmins(s: State): set<UserId>
  {
    set id | id in s.users && s.users[id].role == SuperAdmin && s.users[id].enabled
  }

  function SetEnabled(s: State, id: UserId, enabled: bool, actor: UserId): Result<State>
  {
    if id == actor && !enabled then Refused(OwnAccount)
    else if id !in s.users then Refused(NoSuchUser)
    else if !enabled && s.users[id].role == SuperAdmin && s.users[id].enabled && |EnabledSuperAdmins(s)| <= 1
    then Refused(LastSuperAdmin)
    else
      Ok(s.(users := s.users[id := s.users[id].(enabled := enabled)],
            sessions := if enabled then s.sessions else WithoutSessionsOf(s, id)))
  }

  /** The session opens the door: known, not expired, its user enabled. */
  predicate Valid(s: State, token: Token, now: int)
  {
    && token != "" && token in s.sessions && s.sessions[token].expiresAt > now
    && s.sessions[token].user in s.users && s.users[s.sessions[token].user].enabled
  }

  function Seen(s: State, token: Token, now: int): State
  {
    if Valid(s, token, now) then s.(sessions := s.sessions[token := s.sessions[token].(lastSeenAt := now)]) else s
  }

  function Logout(s: State, token: Token): State
  {
    s.(sessions := s.sessions - {token})
  }

  function LogoutUser(s: State, id: UserId): State
  {
    s.(sessions := WithoutSessionsOf(s, id))
  }

  // ---------------------------------------------------------------------------------------------
  // Runs
  // ---------------------------------------------------------------------------------------------

  /**
   `wrongs` keeps, for each user, the clock readings of the wrong-password checks since the account was
   created, unlocked or last logged into, in the order of their transactions; `issued` the tokens ever
   given out. A login reads the clock before it waits for its transaction, so its reading `at` may be old.
   */
  datatype World = World(state: State, clock: int, wrongs: map<UserId, seq<int>>, issued: set<Token>)

  datatype Step =
    | Later(clock: int)
    | Creating(name: string, password: string, role: Role)
    | LoggingIn(id: UserId, password: string, at: int, token: Token)
    | Unlocking(id: UserId)
    | Changing(id: UserId, password: string)
    | Enabling(id: UserId, enabled: bool, actor: UserId)
    | Visiting(token: Token, at: int)
    | LoggingOut(token: Token)
    | Expelling(id: UserId)

  const START := World(EMPTY, 0, map[], {})

  predicate Enabled(w: World, step: Step)
  {
    match step
    case Later(clock) => w.clock <= clock
    case LoggingIn(id, _, at, token) => id in w.state.users && at <= w.clock && token !in w.issued
    case Visiting(_, at) => at <= w.clock
    case _ => true
  }

  function Wrongs(w: World, id: UserId): seq<int>
  {
    if id in w.wrongs then w.wrongs[id] else []
  }

  function With(w: World, r: Result<State>): World
  {
    match r case Ok(s) => w.(state := s) case Refused(_) => w
  }

  function Next(w: World, step: Step): World
    requires Enabled(w, step)
  {
    match step
    case Later(clock) => w.(clock := clock)
    case Creating(name, password, role) => With(w, CreateUser(w.state, name, password, role))
    case LoggingIn(id, password, at, token) =>
      var (r, s) := LoginAs(w.state, id, password, at, token);
      (match r
       case Ok(_) => w.(state := s, wrongs := w.wrongs[id := []], issued := w.issued + {token})
       case Refused(WrongPassword) => w.(state := s, wrongs := w.wrongs[id := Wrongs(w, id) + [at]])
       case Refused(_) => w)
    case Unlocking(id) =>
      (match Unlock(w.state, id)
       case Ok(s) => w.(state := s, wrongs := w.wrongs[id := []])
       case Refused(_) => w)
    case Changing(id, password) => With(w, ChangePassword(w.state, id, password))
    case Enabling(id, enabled, actor) => With(w, SetEnabled(w.state, id, enabled, actor))
    case Visiting(token, at) => w.(state := Seen(w.state, token, at))
    case LoggingOut(token) => w.(state := Logout(w.state, token))
    case Expelling(id) => w.(state := LogoutUser(w.state, id))
  }

  ghost predicate Reaches(w: World, steps: seq<Step>, w': World)
    decreases |steps|
  {
    if steps == [] then w' == w
    else Enabled(w, steps[0]) && Reaches(Next(w, steps[0]), steps[1..], w')
  }

  // ---------------------------------------------------------------------------------------------
  // The lockout
  // ---------------------------------------------------------------------------------------------

  /** From the fifth on, the next check reads the clock at least a lock later. */
  predicate Spaced(times: seq<int>)
  {
    forall i, j | 4 <= i < |times| && 0 <= j < |times| :: j == i + 1 ==> times[i] + LOCK_SECONDS <= times[j]
  }

  predicate UserOk(w: World, id: UserId)
    requires id in w.state.users
  {
    var user, times := w.state.users[id], Wrongs(w, id);
    && user.failedAttempts == |times| && Spaced(times)
    && (forall i | 0 <= i < |times| :: times[i] <= w.clock)
    && user.lockedUntil == if |times| >= 5 then times[|times| - 1] + LOCK_SECONDS else 0
  }

  ghost predicate UsersOk(w: World)
  {
    forall id | id in w.state.users :: UserOk(w, id)
  }

  ghost predicate Inv(w: World)
  {
    && UsersOk(w) && w.state.sessions.Keys <= w.issued
    && (forall id | id in w.state.users :: id <= w.state.lastUser)
    && (forall id | id in w.wrongs :: id <= w.state.lastUser)
  }

  lemma CreateKeeps(w: World, step: Step)
    requires Inv(w) && step.Creating?
    ensures Inv(Next(w, step))
  {
    hide NameOk, PasswordOk, Strip, NameTakenBy;
    var w' := Next(w, step);
    forall id | id in w'.state.users ensures UserOk(w', id) {
      if id in w.state.users { assert UserOk(w, id); }
    }
  }

  /** A step about one user's counters leaves the other users as they were. */
  lemma OneUser(w: World, id: UserId, user: User, times: seq<int>)
    requires UsersOk(w) && id in w.state.users
    requires var w' := w.(state := w.state.(users := w.state.users[id := user]), wrongs := w.wrongs[id := times]);
             UserOk(w', id)
    ensures UsersOk(w.(state := w.state.(users := w.state.users[id := user]), wrongs := w.wrongs[id := times]))
  {
    var w' := w.(state := w.state.(users := w.state.users[id := user]), wrongs := w.wrongs[id := times]);
    forall other | other in w'.state.users ensures UserOk(w', other) {
      if other != id { assert UserOk(w, other); }
    }
  }

  lemma WrongKeeps(w: World, id: UserId, at: int)
    requires UsersOk(w) && id in w.state.users && w.state.users[id].lockedUntil <= at <= w.clock
    ensures UsersOk(w.(state := w.state.(users := w.state.users[id := Failed(w.state.users[id], at)]),
                       wrongs := w.wrongs[id := Wrongs(w, id) + [at]]))
  {
    var times := Wrongs(w, id);
    assert UserOk(w, id);
    assert Spaced(times + [at]);
    hide UsersOk, Spaced;
    OneUser(w, id, Failed(w.state.users[id], at), times + [at]);
  }

  lemma ClearedKeeps(w: World, id: UserId)
    requires UsersOk(w) && id in w.state.users
    ensures UsersOk(w.(state := w.state.(users := w.state.users[id := w.state.users[id].(failedAttempts := 0, lockedUntil := 0)]),
                       wrongs := w.wrongs[id := []]))
  {
    OneUser(w, id, w.state.users[id].(failedAttempts := 0, lockedUntil := 0), []);
  }

  lemma LoginKeeps(w: World, step: Step)
    requires Inv(w) && Enabled(w, step) && step.LoggingIn?
    ensures Inv(Next(w, step))
  {
    hide UsersOk, Failed;
    var id := step.id;
    var (r, s) := LoginAs(w.state, id, step.password, step.at, step.token);
    if r == Refused(WrongPassword) {
      WrongKeeps(w, id, step.at);
    } else if r.Ok? {
      ClearedKeeps(w, id);
      SameUsers(w.(state := w.state.(users := s.users), wrongs := w.wrongs[id := []]), Next(w, step));
    }
  }

  /** Counters, times and clock are what `UserOk` is about. */
  lemma SameUsers(w: World, w': World)
    requires UsersOk(w) && w'.wrongs == w.wrongs && w.clock <= w'.clock && w'.state.users.Keys == w.state.users.Keys
    requires forall id | id in w.state.users ::
               w'.state.users[id].failedAttempts == w.state.users[id].failedAttempts
               && w'.state.users[id].lockedUntil == w.state.users[id].lockedUntil
    ensures UsersOk(w')
  {
    forall id | id in w'.state.users ensures UserOk(w', id) { assert UserOk(w, id); }
  }

  lemma StepKeepsInv(w: World, step: Step)
    requires Inv(w) && Enabled(w, step)
    ensures Inv(Next(w, step))
  {
    hide PasswordOk, EnabledSuperAdmins, UsersOk, LoginAs, CreateUser;
    match step
    case Creating(_, _, _) => CreateKeeps(w, step);
    case LoggingIn(_, _, _, _) => LoginKeeps(w, step);
    case Unlocking(id) =>
      if id in w.state.users { ClearedKeeps(w, id); }
    case _ => SameUsers(w, Next(w, step));
  }

  lemma {:induction false} RunKeepsInv(w: World, steps: seq<Step>, w': World)
    requires Inv(w) && Reaches(w, steps, w')
    ensures Inv(w')
    decreases |steps|
  {
    hide Inv, Next;
    if steps != [] {
      StepKeepsInv(w, steps[0]);
      RunKeepsInv(Next(w, steps[0]), steps[1..], w');
    }
  }

  lemma {:induction false} SpacedSpans(times: seq<int>, k: nat)
    requires Spaced(times) && 5 <= k <= |times|
    ensures times[k - 1] - times[4] >= LOCK_SECONDS * (k - 5)
    decreases k
  {
    if k > 5 {
      SpacedSpans(times, k - 1);
      assert times[k - 2] + LOCK_SECONDS <= times[k - 1];
    }
  }

  function Earliest(times: seq<int>): (t: int)
    requires times != []
    ensures t in times && forall other <- times :: t <= other
  {
    if |times| == 1 then times[0]
    else
      var rest := Earliest(times[1..]);
      assert forall other <- times :: other == times[0] || other in times[1..];
      if times[0] <= rest then times[0] else rest
  }

  function Latest(times: seq<int>): (t: int)
    requires times != []
    ensures t in times && forall other <- times :: other <= t
  {
    if |times| == 1 then times[0]
    else
      var rest := Latest(times[1..]);
      assert forall other <- times :: other == times[0] || other in times[1..];
      if times[0] >= rest then times[0] else rest
  }

  /**
   Since an account was created, unlocked or last logged into, k >= 5 wrong-password checks at login
   span at least 900 * (k - 5) seconds, whatever else was done in between and however long each login
   waited between reading the clock and its transaction.
   */
  lemma LockoutSlowsGuessing(steps: seq<Step>, w: World, id: UserId)
    requires Reaches(START, steps, w) && id in w.state.users && |Wrongs(w, id)| >= 5
    ensures var times := Wrongs(w, id);
            && w.state.users[id].failedAttempts == |times|
            && times[|times| - 1] - times[4] >= 900 * (|times| - 5)
            && Latest(times) - Earliest(times) >= 900 * (|times| - 5)
            && Latest(times) <= w.clock
  {
    hide Earliest, Latest, Reaches, Spaced;
    RunKeepsInv(START, steps, w);
    assert UserOk(w, id);
    hide Inv, UserOk;
    var times := Wrongs(w, id);
    SpacedSpans(times, |times|);
    assert times[4] in times && times[|times| - 1] in times;
  }

  /** The bound is met exactly by guessing as soon as each lock ends. */
  lemma {:induction false} BoundIsMet(w: World, id: UserId, wrong: string, k: nat, token: Token)
    returns (steps: seq<Step>, w': World)
    requires Inv(w) && id in w.state.users && w.state.users[id].enabled && w.state.users[id].password != wrong
    requires Wrongs(w, id) == [] && w.state.users[id].lockedUntil <= w.clock && w.clock >= 0
    requires token !in w.issued && k >= 1
    ensures Reaches(w, steps, w') && id in w'.state.users && w'.issued == w.issued
    ensures var times := Wrongs(w', id);
            && |times| == k && times[0] == w.clock && times[k - 1] == w'.clock
            && (forall t <- times :: w.clock <= t <= w'.clock)
            && w'.clock == w.clock + (if k > 5 then LOCK_SECONDS * (k - 5) else 0)
            && w'.state.users[id] == w.state.users[id].(
                 failedAttempts := k, lockedUntil := if k >= 5 then w'.clock + LOCK_SECONDS else 0)
    decreases k
  {
    assert UserOk(w, id);
    hide Inv;
    if k == 1 {
      steps, w' := GuessWrong(w, [], w, id, wrong, w.clock, token);
    } else {
      steps, w' := BoundIsMet(w, id, wrong, k - 1, token);
      if k > 5 { steps, w' := OneMore(w, steps, w', Later(w'.clock + LOCK_SECONDS)); }
      steps, w' := GuessWrong(w, steps, w', id, wrong, w'.clock, token);
    }
  }

  lemma {:induction false} OneMore(w0: World, steps: seq<Step>, w: World, step: Step)
      returns (more: seq<Step>, w': World)
    requires Reaches(w0, steps, w) && Enabled(w, step)
    ensures more == steps + [step] && Reaches(w0, more, w') && w' == Next(w, step)
    decreases |steps|
  {
    more, w' := steps + [step], Next(w, step);
    hide Enabled, Next;
    if steps == [] {
      assert more[1..] == [];
    } else {
      assert more[1..] == steps[1..] + [step];
      var rest, end := OneMore(Next(w0, steps[0]), steps[1..], w, step);
    }
  }

  lemma GuessWrong(w0: World, steps: seq<Step>, w: World, id: UserId, wrong: string, at: int, token: Token)
    returns (more: seq<Step>, w': World)
    requires Reaches(w0, steps, w) && id in w.state.users && token !in w.issued
    requires w.state.users[id].enabled && w.state.users[id].password != wrong
    requires w.state.users[id].lockedUntil <= at <= w.clock
    ensures Reaches(w0, more, w') && w' == Next(w, LoggingIn(id, wrong, at, token))
    ensures id in w'.state.users && w'.state.users[id] == Failed(w.state.users[id], at)
    ensures Wrongs(w', id) == Wrongs(w, id) + [at] && w'.issued == w.issued && w'.clock == w.clock
  {
    more, w' := OneMore(w0, steps, w, LoggingIn(id, wrong, at, token));
  }

  lemma Waited(w: World, clock: int) returns (steps: seq<Step>, w': World)
    requires w.clock <= clock
    ensures Reaches(w, steps, w') && w' == w.(clock := clock)
  {
    steps, w' := OneMore(w, [], w, Later(clock));
  }

  /** Six wrong checks, the fifth of them with an old reading. */
  lemma OldReading(w: World, id: UserId, wrong: string, token: Token)
    returns (steps: seq<Step>, w': World)
    requires id in w.state.users && w.state.users[id].enabled && w.state.users[id].password != wrong
    requires Wrongs(w, id) == [] && w.state.users[id].failedAttempts == 0
    requires w.state.users[id].lockedUntil <= w.clock && w.clock >= 0 && token !in w.issued
    ensures Reaches(w, steps, w') && id in w'.state.users && |Wrongs(w', id)| == 6
    ensures Wrongs(w', id)[5] - Wrongs(w', id)[0] == 890
  {
    hide Reaches, Enabled, Next;
    var start := w.clock;
    steps, w' := Waited(w, start + 900);
    steps, w' := GuessWrong(w, steps, w', id, wrong, start + 10, token);
    steps, w' := GuessWrong(w, steps, w', id, wrong, start + 10, token);
    steps, w' := GuessWrong(w, steps, w', id, wrong, start + 10, token);
    steps, w' := GuessWrong(w, steps, w', id, wrong, start + 10, token);
    steps, w' := GuessWrong(w, steps, w', id, wrong, start, token);
    steps, w' := GuessWrong(w, steps, w', id, wrong, start + 900, token);
  }

  lemma {:induction false} RunsCompose(w0: World, a: seq<Step>, w1: World, b: seq<Step>, w2: World)
    requires Reaches(w0, a, w1) && Reaches(w1, b, w2)
    ensures Reaches(w0, a + b, w2)
    decreases |a|
  {
    hide Enabled, Next;
    if a == [] {
      assert a + b == b;
    } else {
      assert (a + b)[1..] == a[1..] + b;
      RunsCompose(Next(w0, a[0]), a[1..], w1, b, w2);
    }
  }

  const ROOT: string := "root"
  const ROOT_PASSWORD: string := "long-enough-1"

  lemma RootAccepted()
    ensures CreateUser(EMPTY, ROOT, ROOT_PASSWORD, SuperAdmin)
         == Ok(EMPTY.(users := map[1 := User(ROOT, ROOT_PASSWORD, SuperAdmin, true, 0, 0)], lastUser := 1))
  {
    assert Strip(ROOT) == ROOT;
    assert Letter(ROOT_PASSWORD[0]) && Digit(ROOT_PASSWORD[12]);
  }

  /** The first account of an empty store, never logged into. */
  lemma FirstAccount() returns (steps: seq<Step>, w: World)
    ensures Reaches(START, steps, w) && w.clock == 0 && w.issued == {} && Wrongs(w, 1) == []
    ensures w.state.users == map[1 := User(ROOT, ROOT_PASSWORD, SuperAdmin, true, 0, 0)]
  {
    RootAccepted();
    hide CreateUser;
    steps, w := OneMore(START, [], START, Creating(ROOT, ROOT_PASSWORD, SuperAdmin));
  }

  /** For every k there is a run of k wrong checks from the empty store that takes exactly the time the
      lockout exacts, from the earliest to the latest reading. */
  lemma BoundIsReached(k: nat) returns (steps: seq<Step>, w: World)
    requires k >= 1
    ensures Reaches(START, steps, w) && 1 in w.state.users && |Wrongs(w, 1)| == k
    ensures Latest(Wrongs(w, 1)) - Earliest(Wrongs(w, 1)) == if k > 5 then 900 * (k - 5) else 0
  {
    hide Reaches, Latest, Earliest;
    var first, opening := FirstAccount();
    RunKeepsInv(START, first, opening);
    hide Inv;
    var more: seq<Step>;
    more, w := BoundIsMet(opening, 1, "", k, "token");
    RunsCompose(START, first, opening, more, w);
    steps := first + more;
    var times := Wrongs(w, 1);
    assert times[0] in times && times[k - 1] in times;
  }

  /**
   The span is not always that of the first and the last check: a login that read the clock first but got
   its transaction fifth starts a lock that ends 890 seconds after the reading of the first check.
   */
  lemma OldReadingShortensLock() returns (steps: seq<Step>, w: World)
    ensures Reaches(START, steps, w) && 1 in w.state.users && |Wrongs(w, 1)| == 6
    ensures Wrongs(w, 1)[5] - Wrongs(w, 1)[0] == 890
  {
    hide Reaches;
    var first, opening := FirstAccount();
    var more: seq<Step>;
    more, w := OldReading(opening, 1, "", "token");
    RunsCompose(START, first, opening, more, w);
    steps := first + more;
  }

  predicate FirstToLast(times: seq<int>)
  {
    |times| >= 5 ==> times[|times| - 1] - times[0] >= LOCK_SECONDS * (|times| - 5)
  }

  /** However the wrong checks go on, they span the locks from the first one to the last. */
  ghost predicate SpansFromFirst(w: World, id: UserId)
  {
    forall steps, w' | Reaches(w, steps, w') && Wrongs(w, id) <= Wrongs(w', id) && id in w'.state.users ::
      FirstToLast(Wrongs(w', id))
  }

  lemma OrderedSpans(w: World, id: UserId, steps: seq<Step>, w': World)
    requires Inv(w) && Reaches(w, steps, w') && id in w'.state.users && |Wrongs(w, id)| == 5
    requires Wrongs(w, id) <= Wrongs(w', id) && Wrongs(w, id)[0] <= Wrongs(w, id)[4]
    ensures FirstToLast(Wrongs(w', id))
  {
    hide Reaches, Spaced;
    RunKeepsInv(w, steps, w');
    assert UserOk(w', id);
    hide Inv, UserOk;
    SpacedSpans(Wrongs(w', id), |Wrongs(w', id)|);
  }

  lemma SixthAtLockEnd(w: World, id: UserId, token: Token) returns (steps: seq<Step>, w': World)
    requires Inv(w) && id in w.state.users && w.state.users[id].enabled && |Wrongs(w, id)| == 5 && token !in w.issued
    ensures Reaches(w, steps, w') && id in w'.state.users
    ensures Wrongs(w', id) == Wrongs(w, id) + [Wrongs(w, id)[4] + LOCK_SECONDS]
  {
    assert UserOk(w, id);
    hide Reaches, Enabled, Next, Inv;
    var lock := w.state.users[id].lockedUntil;
    steps, w' := Waited(w, if lock > w.clock then lock else w.clock);
    var wrong := w.state.users[id].password + "x";
    steps, w' := GuessWrong(w, steps, w', id, wrong, lock, token);
  }

  /** With five wrong checks made, every continuation spans the locks from the first check to the last
      exactly when the first reading is not later than the fifth. */
  lemma SpansFromFirstExactly(steps: seq<Step>, w: World, id: UserId, token: Token)
    requires Reaches(START, steps, w) && id in w.state.users && w.state.users[id].enabled
    requires |Wrongs(w, id)| == 5 && token !in w.issued
    ensures SpansFromFirst(w, id) <==> Wrongs(w, id)[0] <= Wrongs(w, id)[4]
  {
    assert Inv(START);
    hide Reaches, Inv, Wrongs;
    RunKeepsInv(START, steps, w);
    if Wrongs(w, id)[0] <= Wrongs(w, id)[4] {
      forall more, w' | Reaches(w, more, w') && Wrongs(w, id) <= Wrongs(w', id) && id in w'.state.users
        ensures FirstToLast(Wrongs(w', id))
      {
        OrderedSpans(w, id, more, w');
      }
    } else {
      var more, w' := SixthAtLockEnd(w, id, token);
      assert !FirstToLast(Wrongs(w', id));
    }
  }

  // ---------------------------------------------------------------------------------------------
  // Sessions
  // ---------------------------------------------------------------------------------------------

  /** A token that opens nothing any more never does again. */
  lemma {:induction false} DeadTokensStayDead(w: World, steps: seq<Step>, w': World, token: Token)
    requires Reaches(w, steps, w') && token in w.issued && token !in w.state.sessions
    ensures token !in w'.state.sessions
    decreases |steps|
  {
    if steps != [] {
      var next := Next(w, steps[0]);
      TokenStaysDead(w, steps[0], token);
      hide Next;
      DeadTokensStayDead(next, steps[1..], w', token);
    }
  }

  lemma TokenStaysDead(w: World, step: Step, token: Token)
    requires Enabled(w, step) && token in w.issued && token !in w.state.sessions
    ensures token in Next(w, step).issued && token !in Next(w, step).state.sessions
  {
    hide NameOk, PasswordOk, Strip, NameTakenBy, EnabledSuperAdmins;
  }

  /**
   Changing a password or disabling an account ends every session opened before, even if the account is
   enabled again later.
   */
  lemma SessionsEndForGood(w: World, step: Step, steps: seq<Step>, w': World, token: Token, now: int)
    requires Inv(w) && Enabled(w, step) && Reaches(Next(w, step), steps, w')
    requires token in w.state.sessions
    requires (step.Changing? && PasswordOk(step.password))
             || (step.Enabling? && !step.enabled && SetEnabled(w.state, step.id, false, step.actor).Ok?)
             || step.Expelling?
    requires w.state.sessions[token].user == step.id
    ensures !Valid(w'.state, token, now)
  {
    hide PasswordOk, UsersOk, EnabledSuperAdmins;
    var next := Next(w, step);
    assert token in next.issued && token !in next.state.sessions;
    hide Next, SetEnabled;
    DeadTokensStayDead(next, steps, w', token);
  }

  // ---------------------------------------------------------------------------------------------
  // The last super administrator
  // ---------------------------------------------------------------------------------------------

  /** Disabling needs a second one. */
  lemma SecondSuperAdmin(admins: set<UserId>, id: UserId) returns (other: UserId)
    requires id in admins && |admins| > 1
    ensures other in admins && other != id
  {
    assert |admins - {id}| == |admins| - 1;
    other :| other in admins - {id};
  }

  /** A super administrator the step does not disable stays one. */
  lemma StaysSuperAdmin(w: World, step: Step, id: UserId)
    requires Enabled(w, step) && id in EnabledSuperAdmins(w.state) && id <= w.state.lastUser
    requires step.Enabling? && !step.enabled ==> step.id != id || SetEnabled(w.state, id, false, step.actor).Refused?
    ensures id in EnabledSuperAdmins(Next(w, step).state)
  {
    hide NameOk, PasswordOk, Strip, NameTakenBy;
  }

  lemma StepKeepsSuperAdmin(w: World, step: Step)
    requires Enabled(w, step) && EnabledSuperAdmins(w.state) != {}
    requires forall id | id in w.state.users :: id <= w.state.lastUser
    ensures EnabledSuperAdmins(Next(w, step).state) != {}
    ensures forall id | id in Next(w, step).state.users :: id <= Next(w, step).state.lastUser
  {
    hide NameOk, PasswordOk, Strip, NameTakenBy;
    var admins := EnabledSuperAdmins(w.state);
    var id :| id in admins;
    if step.Enabling? && !step.enabled && step.id in admins && SetEnabled(w.state, step.id, false, step.actor).Ok? {
      id := SecondSuperAdmin(admins, step.id);
    }
    StaysSuperAdmin(w, step, id);
    hide EnabledSuperAdmins;
  }

  /** Once there is an enabled super administrator, there always is one. */
  lemma {:induction false} SuperAdminRemains(w: World, steps: seq<Step>, w': World)
    requires Reaches(w, steps, w') && EnabledSuperAdmins(w.state) != {}
    requires forall id | id in w.state.users :: id <= w.state.lastUser
    ensures EnabledSuperAdmins(w'.state) != {}
    decreases |steps|
  {
    hide Next, EnabledSuperAdmins;
    if steps != [] {
      StepKeepsSuperAdmin(w, steps[0]);
      SuperAdminRemains(Next(w, steps[0]), steps[1..], w');
    }
  }
}
