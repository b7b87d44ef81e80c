/**
 Who gets in: when a login opens a session, how long the session opens the door, and which changes to an
 account are accepted. Nothing here is said with the operations of `AdminAuth`; what they do is proved.
 */
module AdminAccess {
  import opened Strings
  import opened AdminAuth

  /**
   The account takes a password at a reading of the clock: it is enabled, and fewer than five wrong checks
   stand against it or the last of them is a quarter of an hour back. Readings count from the epoch.
   */
  predicate TakesPassword(w: World, id: UserId, at: int)
    requires id in w.state.users
  {
    var wrongs := Wrongs(w, id);
    w.state.users[id].enabled && if |wrongs| < 5 then 0 <= at else wrongs[|wrongs| - 1] + 900 <= at
  }

  /** What a login at `at` leaves behind. */
  ghost predicate LoggedIn(w: World, w': World, id: UserId, at: int, token: Token)
    requires id in w.state.users
  {
    && w'.state.users == w.state.users[id := w.state.users[id].(failedAttempts := 0, lockedUntil := 0)]
    && Wrongs(w', id) == []
    && (forall t :: t in w'.state.sessions <==>
          t == token || (t in w.state.sessions && at < w.state.sessions[t].expiresAt))
    && w'.state.sessions[token] == Session(id, at, at + 43200, at)
    && (forall t | t in w'.state.sessions && t != token :: w'.state.sessions[t] == w.state.sessions[t])
  }

  /**
   In every reachable world a login of an account that takes a password opens a session for twelve hours
   with the right one and is one more wrong check with any other; with an account that takes none nothing
   happens.
   */
  lemma LogsInExactly(steps: seq<Step>, w: World, id: UserId, password: string, at: int, token: Token)
    requires Reaches(START, steps, w) && Enabled(w, LoggingIn(id, password, at, token))
    ensures var next := Next(w, LoggingIn(id, password, at, token));
            if !TakesPassword(w, id, at) then next == w
            else if w.state.users[id].password == password then LoggedIn(w, next, id, at, token)
            else
              && Wrongs(next, id) == Wrongs(w, id) + [at] && next.state.sessions == w.state.sessions
              && next.state.users.Keys == w.state.users.Keys
              && forall other | other in w.state.users && other != id ::
                   next.state.users[other] == w.state.users[other] && Wrongs(next, other) == Wrongs(w, other)
  {
    RunKeepsInv(START, steps, w);
    assert UserOk(w, id);
    hide Inv, Spaced, Reaches;
  }

  // ---------------------------------------------------------------------------------------------
  // Sessions
  // ---------------------------------------------------------------------------------------------

  predicate LongEnough(password: string)
  {
    && 12 <= |password| <= 128
    && (exists c | c in password :: 'a' <= c <= 'z' || 'A' <= c <= 'Z') && (exists c | c in password :: '0' <= c <= '9')
  }

  lemma LongEnoughIsOk(password: string)
    ensures PasswordOk(password) <==> LongEnough(password)
  {
    if PasswordOk(password) {
      var i :| 0 <= i < |password| && Letter(password[i]);
      assert password[i] in password;
      var k :| 0 <= k < |password| && Digit(password[k]);
      assert password[k] in password;
    }
    if LongEnough(password) {
      var c :| c in password && ('a' <= c <= 'z' || 'A' <= c <= 'Z');
      var i :| 0 <= i < |password| && password[i] == c;
      assert Letter(password[i]);
      var d :| d in password && '0' <= d <= '9';
      var k :| 0 <= k < |password| && password[k] == d;
      assert Digit(password[k]);
    }
  }

  /** The user may be disabled by this one: not oneself, and not the last enabled super administrator. */
  predicate MayDisable(users: map<UserId, User>, id: UserId, actor: UserId)
  {
    && id in users && id != actor
    && (users[id].role == SuperAdmin && users[id].enabled ==>
          exists other | other in users :: other != id && users[other].role == SuperAdmin && users[other].enabled)
  }

  /** The step ends the session of this user that a login opened at `since`. */
  predicate Ends(w: World, step: Step, token: Token, user: UserId, since: int)
    requires Enabled(w, step)
  {
    match step
    case LoggingOut(t) => t == token
    case Expelling(id) => id == user
    case Changing(id, password) => id == user && LongEnough(password)
    case Enabling(id, enabled, actor) => id == user && !enabled && MayDisable(w.state.users, id, actor)
    case LoggingIn(id, password, at, _) =>  // a login clears away what its reading finds expired
      TakesPassword(w, id, at) && w.state.users[id].password == password && since + 43200 <= at
    case _ => false
  }

  ghost predicate Ended(w: World, steps: seq<Step>, w': World, token: Token, user: UserId, since: int)
    requires Reaches(w, steps, w')
    decreases |steps|
  {
    steps != [] &&
      (Ends(w, steps[0], token, user, since) || Ended(Next(w, steps[0]), steps[1..], w', token, user, since))
  }

  /** The session is there, and its user is enabled. */
  predicate Lives(w: World, token: Token, user: UserId, since: int)
  {
    && token in w.state.sessions && w.state.sessions[token].user == user
    && w.state.sessions[token].expiresAt == since + 43200
    && user in w.state.users && w.state.users[user].enabled
  }

  lemma OthersRemain(s: State, id: UserId)
    requires id in s.users && s.users[id].role == SuperAdmin && s.users[id].enabled
    ensures |EnabledSuperAdmins(s)| > 1 <==>
              exists other | other in s.users :: other != id && s.users[other].role == SuperAdmin && s.users[other].enabled
  {
    var supers := EnabledSuperAdmins(s);
    assert id in supers;
    var rest := supers - {id};
    assert |rest| == |supers| - 1;
    if other :| other in s.users && other != id && s.users[other].role == SuperAdmin && s.users[other].enabled {
      assert other in rest;
    }
    if rest != {} {
      var other :| other in rest;
      assert other in s.users && other != id;
    }
  }

  predicate AsciiLetter(c: char)
  {
    'a' <= c <= 'z' || 'A' <= c <= 'Z'
  }

  /** A name of 3 to 32 characters: letters, digits, `_`, `.` and `-`, the first a letter. */
  predicate IsName(name: string)
  {
    && 3 <= |name| <= 32 && AsciiLetter(name[0])
    && forall c <- name :: AsciiLetter(c) || '0' <= c <= '9' || c == '_' || c == '.' || c == '-'
  }

  lemma IsNameIsOk(name: string)
    ensures NameOk(name) <==> IsName(name)
  {
    if NameOk(name) {
      forall c | c in name ensures AsciiLetter(c) || '0' <= c <= '9' || c == '_' || c == '.' || c == '-' {
        var i :| 0 <= i < |name| && name[i] == c;
      }
    }
    if IsName(name) {
      forall i | 1 <= i < |name| ensures Letter(name[i]) || Digit(name[i]) || name[i] in {'_', '.', '-'} {
        assert name[i] in name;
      }
    }
  }

  /** An account is created exactly for a proper name that nobody has in any case and a long enough password. */
  lemma CreatesExactly(steps: seq<Step>, w: World, name: string, password: string, role: Role)
    requires Reaches(START, steps, w)
    ensures var next, stripped := Next(w, Creating(name, password, role)).state, Strip(name);
            if IsName(stripped) && LongEnough(password)
               && (forall id | id in w.state.users :: Fold(w.state.users[id].name) != Fold(stripped)) then
              exists id: UserId :: id !in w.state.users && next.sessions == w.state.sessions
                && next.users == w.state.users[id := User(stripped, password, role, true, 0, 0)]
            else next == w.state
  {
    RunKeepsInv(START, steps, w);
    IsNameIsOk(Strip(name));
    LongEnoughIsOk(password);
    assert w.state.lastUser + 1 !in w.state.users;
    hide Inv, Strip, Fold, NameOk, IsName, PasswordOk, LongEnough, Reaches;
  }

  /** Disabling is refused exactly if it may not be done, and enabling exactly for an unknown user. */
  lemma EnablesExactly(s: State, id: UserId, enabled: bool, actor: UserId)
    ensures SetEnabled(s, id, enabled, actor).Ok? <==> if enabled then id in s.users else MayDisable(s.users, id, actor)
    ensures SetEnabled(s, id, enabled, actor).Ok? ==>
              var after := SetEnabled(s, id, enabled, actor).value;
              && id in s.users && after.users == s.users[id := s.users[id].(enabled := enabled)]
              && forall t :: t in after.sessions <==> t in s.sessions && (enabled || s.sessions[t].user != id)
  {
    if id in s.users && s.users[id].role == SuperAdmin && s.users[id].enabled { OthersRemain(s, id); }
    hide EnabledSuperAdmins;
  }

  lemma StepEnds(w: World, step: Step, token: Token, user: UserId, since: int)
    requires Inv(w) && Enabled(w, step) && Lives(w, token, user, since)
    ensures if Ends(w, step, token, user, since) then token !in Next(w, step).state.sessions
            else Lives(Next(w, step), token, user, since)
  {
    assert token in w.issued;
    if step.Changing? { LongEnoughIsOk(step.password); }
    if step.Enabling? { EnablesExactly(w.state, step.id, step.enabled, step.actor); }
    if step.LoggingIn? { assert UserOk(w, step.id); }
    if step.Creating? { assert w.state.lastUser + 1 !in w.state.users; }
    hide Inv, PasswordOk, LongEnough, MayDisable, NameOk, NameTakenBy, SetEnabled, Spaced, EnabledSuperAdmins;
  }

  /** A token is given out once. */
  lemma {:induction false} GoneStaysGone(w: World, steps: seq<Step>, w': World, token: Token)
    requires Inv(w) && Reaches(w, steps, w') && token in w.issued && token !in w.state.sessions
    ensures token !in w'.state.sessions
    decreases |steps|
  {
    if steps != [] {
      StepKeepsInv(w, steps[0]);
      assert token in Next(w, steps[0]).issued && token !in Next(w, steps[0]).state.sessions by {
        hide Inv, PasswordOk, NameOk, NameTakenBy, EnabledSuperAdmins;
      }
      hide Inv, Next;
      GoneStaysGone(Next(w, steps[0]), steps[1..], w', token);
    }
  }

  lemma {:induction false} LivesUntilEnded(w: World, steps: seq<Step>, w': World, token: Token, user: UserId, since: int)
    requires Inv(w) && Reaches(w, steps, w') && Lives(w, token, user, since)
    ensures if Ended(w, steps, w', token, user, since) then token !in w'.state.sessions else Lives(w', token, user, since)
    decreases |steps|
  {
    assert token in w.issued;
    if steps != [] {
      StepKeepsInv(w, steps[0]);
      StepEnds(w, steps[0], token, user, since);
      assert token in Next(w, steps[0]).issued by { hide Inv; }
      hide Inv, Next, Lives, Ends;
      if Ends(w, steps[0], token, user, since) {
        GoneStaysGone(Next(w, steps[0]), steps[1..], w', token);
      } else {
        LivesUntilEnded(Next(w, steps[0]), steps[1..], w', token, user, since);
      }
    }
  }

  /**
   The session a login opens at `at` is valid for exactly twelve hours, over every run behind it that
   neither ends it nor takes the account away.
   */
  lemma SessionLastsExactly(steps: seq<Step>, w: World, id: UserId, password: string, at: int, token: Token,
                            more: seq<Step>, w': World, t: int)
    requires Reaches(START, steps, w) && Enabled(w, LoggingIn(id, password, at, token)) && token != ""
    requires TakesPassword(w, id, at) && w.state.users[id].password == password
    requires Reaches(Next(w, LoggingIn(id, password, at, token)), more, w')
    ensures Valid(w'.state, token, t) <==>
              t < at + 43200 && !Ended(Next(w, LoggingIn(id, password, at, token)), more, w', token, id, at)
  {
    var next := Next(w, LoggingIn(id, password, at, token));
    RunKeepsInv(START, steps, w);
    StepKeepsInv(w, LoggingIn(id, password, at, token));
    LogsInExactly(steps, w, id, password, at, token);
    hide Inv, Next, Reaches;
    assert Lives(next, token, id, at);
    LivesUntilEnded(next, more, w', token, id, at);
  }
}
