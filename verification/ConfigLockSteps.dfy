/** Every atomic step of the configuration lock keeps its invariant. */
module ConfigLockSteps {
  import opened Options
  import opened ConfigLock

  // ---------------------------------------------------------------------------------------------
  // Counting on stacks
  // ---------------------------------------------------------------------------------------------

  lemma Push(stack: seq<Frame>, f: Frame)
    ensures Below(stack + [f]) == stack
    ensures forall k :: Bodies(stack + [f], k) == Bodies(stack, k) + if f.key == k && f.phase == Inside then 1 else 0
    ensures forall k :: Holds(stack + [f], k) == Holds(stack, k) + if f.key == k && f.phase != Calling then 1 else 0
  {
    assert Below(stack + [f]) == stack;
  }

  lemma {:induction false} CountsNest(stack: seq<Frame>, k: Key)
    ensures Bodies(stack, k) <= Holds(stack, k)
    ensures Bodies(stack, k) > 0 <==> exists i | 0 <= i < |stack| :: stack[i].key == k && stack[i].phase == Inside
    ensures Holds(stack, k) > 0 <==> exists i | 0 <= i < |stack| :: stack[i].key == k && stack[i].phase != Calling
    decreases |stack|
  {
    if stack != [] {
      var n := |stack| - 1;
      CountsNest(Below(stack), k);
      assert forall i | 0 <= i < n :: Below(stack)[i] == stack[i];
    }
  }

  lemma SameNesting(a: seq<Frame>, b: seq<Frame>, i: nat)
    requires i < |a| && i < |b| && forall j | 0 <= j <= i :: a[j] == b[j]
    ensures Nested(a, i) <==> Nested(b, i)
  {
    if Nested(a, i) {
      var j :| 0 <= j < i && a[j].key == a[i].key;
      assert b[j].key == b[i].key;
    }
    if Nested(b, i) {
      var j :| 0 <= j < i && b[j].key == b[i].key;
      assert a[j].key == a[i].key;
    }
  }

  /** Replacing the top frame keeps the frames below as they were. */
  lemma StackOkTop(stack: seq<Frame>, f: Frame)
    requires stack != [] && StackOk(stack) && f.key == stack[|stack| - 1].key
    requires FrameOk(Below(stack) + [f], |stack| - 1)
    ensures StackOk(Below(stack) + [f])
  {
    var n, after := |stack| - 1, Below(stack) + [f];
    forall i | 0 <= i < |after| ensures FrameOk(after, i) {
      if i < n {
        assert after[i] == stack[i] && FrameOk(stack, i);
        SameNesting(after, stack, i);
      }
    }
  }

  lemma StackOkPop(stack: seq<Frame>)
    requires stack != [] && StackOk(stack)
    ensures StackOk(Below(stack))
    ensures Below(stack) == [] || Below(stack)[|stack| - 2].phase == Inside
  {
    var after := Below(stack);
    forall i | 0 <= i < |after| ensures FrameOk(after, i) {
      assert after[i] == stack[i] && FrameOk(stack, i);
      SameNesting(after, stack, i);
    }
    if after != [] { assert FrameOk(stack, |stack| - 2); }
  }

  lemma StackOkPush(stack: seq<Frame>, k: Key)
    requires StackOk(stack) && (stack == [] || stack[|stack| - 1].phase == Inside)
    ensures StackOk(stack + [Frame(k, Calling, None, false)])
  {
    var after := stack + [Frame(k, Calling, None, false)];
    forall i | 0 <= i < |after| ensures FrameOk(after, i) {
      if i < |stack| {
        assert after[i] == stack[i] && FrameOk(stack, i);
        SameNesting(after, stack, i);
      }
    }
  }

  /** A call whose thread has a body running for the key is nested, and the other way round. */
  lemma DepthMeansNested(stack: seq<Frame>)
    requires stack != [] && StackOk(stack) && stack[|stack| - 1].phase != Inside
    ensures Nested(stack, |stack| - 1) <==> Bodies(stack, stack[|stack| - 1].key) > 0
  {
    var n := |stack| - 1;
    CountsNest(stack, stack[n].key);
    if Nested(stack, n) {
      var j :| 0 <= j < n && stack[j].key == stack[n].key;
      assert FrameOk(stack, j);
    }
  }

  // ---------------------------------------------------------------------------------------------
  // Every step keeps the invariant
  // ---------------------------------------------------------------------------------------------

  /** A step of thread `t` on key `k` touches nothing else. */
  ghost predicate Local(s: State, s': State, t: Thread, k: Key)
  {
    && (forall u :: u != t ==> Stack(s', u) == Stack(s, u))
    && (forall u, k' :: u != t || k' != k ==> Depth(s', u, k') == Depth(s, u, k'))
    && (forall pid, k' :: pid != t.pid || k' != k ==> Lock(s', pid, k') == Lock(s, pid, k'))
    && (forall k' :: k' != k ==> (k' in s'.files <==> k' in s.files) && (k' in s.files ==> s'.files[k'] == s.files[k']))
    && (Lock(s, t.pid, k).Held? && Lock(s, t.pid, k).owner != t ==> Lock(s', t.pid, k) == Lock(s, t.pid, k))
    && (k in s.files && s.files[k].thread != t ==> k in s'.files && s'.files[k] == s.files[k])
    && (forall i | 0 <= i < |Stack(s, t)| && Stack(s, t)[i].key != k ::
          i < |Stack(s', t)| && Stack(s', t)[i] == Stack(s, t)[i])
    && (forall k' :: k' != k ==> Holds(Stack(s', t), k') == Holds(Stack(s, t), k'))
  }

  /** The part of the invariant that a step of `t` on `k` can disturb. */
  ghost predicate Here(s: State, t: Thread, k: Key)
  {
    ThreadOk(s, t) && LockOk(s, t.pid, k) && (k in s.files ==> HolderOk(s, k))
  }

  lemma OthersKeep(s: State, s': State, t: Thread, k: Key, u: Thread)
    requires Inv(s) && Local(s, s', t, k) && u != t
    ensures ThreadOk(s', u)
  {
    hide Bodies, Holds;
    assert ThreadOk(s, u);
    assert LockOk(s, t.pid, k);
    forall i | 0 <= i < |Stack(s', u)| ensures HasFile(s', u, Stack(s', u)[i]) {
      assert HasFile(s, u, Stack(s, u)[i]);
    }
  }

  lemma Assemble(s: State, s': State, t: Thread, k: Key)
    requires Inv(s) && Local(s, s', t, k) && Here(s', t, k)
    ensures Inv(s')
  {
    hide Bodies, Holds;
    forall u ensures ThreadOk(s', u) {
      if u != t { OthersKeep(s, s', t, k, u); }
    }
    forall k' | k' in s'.files ensures HolderOk(s', k') {
      if k' != k {
        assert HolderOk(s, k');
        var u := s.files[k'].thread;
        var i :| 0 <= i < |Stack(s, u)| && Stack(s, u)[i].acquired && Stack(s, u)[i].key == k';
        assert Stack(s', u)[i] == Stack(s, u)[i];
      }
    }
    forall pid, k' ensures LockOk(s', pid, k') {
      if pid != t.pid || k' != k { assert LockOk(s, pid, k'); }
    }
  }

  /** With the file locks as they were, frames that keep their lock and handle keep their claim. */
  lemma FilesKeep(s: State, s': State, t: Thread)
    requires FilesOk(s, t) && s'.files == s.files
    requires forall i | 0 <= i < |Stack(s', t)| && Stack(s', t)[i].acquired ::
               && i < |Stack(s, t)| && Stack(s, t)[i].acquired
               && Stack(s, t)[i].key == Stack(s', t)[i].key && Stack(s, t)[i].handle == Stack(s', t)[i].handle
    ensures FilesOk(s', t)
  {
    forall i | 0 <= i < |Stack(s', t)| ensures HasFile(s', t, Stack(s', t)[i]) {
      if Stack(s', t)[i].acquired { assert HasFile(s, t, Stack(s, t)[i]); }
    }
  }

  /** A top frame that keeps its key and neither starts nor ends a body leaves the counts alone. */
  lemma TopKeepsCounts(s: State, s': State, t: Thread, f: Frame)
    requires Stack(s, t) != [] && DepthsOk(s, t) && RLocksOk(s, t)
    requires Stack(s', t) == Below(Stack(s, t)) + [f] && s'.depths == s.depths && s'.rlocks == s.rlocks
    requires f.key == Top(s, t).key
    requires f.phase != Inside && Top(s, t).phase != Inside && f.phase != Calling && Top(s, t).phase != Calling
    ensures DepthsOk(s', t) && RLocksOk(s', t)
    ensures forall k :: Holds(Stack(s', t), k) == Holds(Stack(s, t), k)
  {
    hide Bodies, Holds;
    assert Stack(s, t) == Below(Stack(s, t)) + [Top(s, t)];
    Push(Below(Stack(s, t)), Top(s, t));
    Push(Below(Stack(s, t)), f);
  }

  /** Steps that only move the top frame on, with the locks and depths as they were. */
  lemma TopMoves(s: State, t: Thread, f: Frame, s': State)
    requires Stack(s, t) != [] && Here(s, t, f.key) && s' == WithTop(s, t, f).(nextHandle := s'.nextHandle)
    requires f.key == Top(s, t).key && f.acquired == Top(s, t).acquired
    requires f.acquired ==> f.handle == Top(s, t).handle
    requires f.phase != Inside && Top(s, t).phase != Inside && f.phase != Calling && Top(s, t).phase != Calling
    requires FrameOk(Below(Stack(s, t)) + [f], |Stack(s, t)| - 1)
    ensures Local(s, s', t, f.key) && Here(s', t, f.key)
  {
    hide Bodies, Holds, FrameOk, Nested, StackOk;
    var stack, k := Stack(s, t), f.key;
    StackOkTop(stack, f);
    assert Stack(s', t) == Below(stack) + [f];
    TopKeepsCounts(s, s', t, f);
    FilesKeep(s, s', t);
    assert LockOk(s', t.pid, k);
    if k in s'.files { HolderStays(s, s', k); }
  }

  lemma HolderStays(s: State, s': State, k: Key)
    requires k in s.files && k in s'.files && s'.files[k] == s.files[k] && HolderOk(s, k)
    requires var u := s.files[k].thread;
             forall i | 0 <= i < |Stack(s, u)| && Stack(s, u)[i].acquired && Stack(s, u)[i].key == k ::
               i < |Stack(s', u)| && Stack(s', u)[i].acquired && Stack(s', u)[i].key == k
    ensures HolderOk(s', k)
  {
    var u := s.files[k].thread;
    var i :| 0 <= i < |Stack(s, u)| && Stack(s, u)[i].acquired && Stack(s, u)[i].key == k;
    assert Stack(s', u)[i].acquired && Stack(s', u)[i].key == k;
  }

  lemma KeepsCall(s: State, t: Thread, k: Key)
    requires Here(s, t, k) && Enabled(s, Call(t, k))
    ensures Local(s, Next(s, Call(t, k)), t, k) && Here(Next(s, Call(t, k)), t, k)
  {
    hide Bodies, Holds, FrameOk, Nested, StackOk;
    var s', stack, f := Next(s, Call(t, k)), Stack(s, t), Frame(k, Calling, None, false);
    assert ThreadOk(s, t);
    Push(stack, f);
    StackOkPush(stack, k);
    assert Stack(s', t) == stack + [f];
    assert DepthsOk(s', t) && RLocksOk(s', t) by { hide FilesOk, HolderOk; }
    FilesKeep(s, s', t);
    if k in s'.files { HolderStays(s, s', k); }
  }

  lemma KeepsAcquire(s: State, t: Thread)
    requires Enabled(s, Acquire(t)) && Here(s, t, Top(s, t).key)
    ensures Local(s, Next(s, Acquire(t)), t, Top(s, t).key) && Here(Next(s, Acquire(t)), t, Top(s, t).key)
  {
    hide Bodies, Holds;
    var s', stack := Next(s, Acquire(t)), Stack(s, t);
    var below, f := Below(stack), Top(s, t);
    var g, k := f.(phase := Locked), f.key;
    assert ThreadOk(s, t) && FrameOk(stack, |stack| - 1);
    assert stack == below + [f];
    Push(below, f);
    Push(below, g);
    SameKeysNest(stack, below + [g]);
    StackOkTop(stack, g);
    hide FrameOk, Nested, StackOk;
    assert Stack(s', t) == below + [g];
    assert LockOk(s, t.pid, k);
    assert ThreadOk(s', t);
    if k in s'.files { HolderStays(s, s', k); }
  }

  lemma SameKeysNest(a: seq<Frame>, b: seq<Frame>)
    requires |a| == |b| > 0 && Below(a) == Below(b) && a[|a| - 1].key == b[|b| - 1].key
    ensures Nested(a, |a| - 1) <==> Nested(b, |b| - 1)
  {
    assert forall j | 0 <= j < |a| - 1 :: a[j] == Below(a)[j] && b[j] == Below(b)[j];
  }

  lemma KeepsPop(s: State, t: Thread, s': State)
    requires Stack(s, t) != [] && Here(s, t, Top(s, t).key) && !Top(s, t).acquired && Top(s, t).phase != Inside
    requires s' == s.(stacks := s.stacks[t := Below(Stack(s, t))], rlocks := s'.rlocks)
    requires forall pid, k :: pid != t.pid || k != Top(s, t).key ==> Lock(s', pid, k) == Lock(s, pid, k)
    requires Lock(s, t.pid, Top(s, t).key).Held? && Lock(s, t.pid, Top(s, t).key).owner != t ==>
             Lock(s', t.pid, Top(s, t).key) == Lock(s, t.pid, Top(s, t).key)
    requires var held := Holds(Below(Stack(s, t)), Top(s, t).key);
             (held > 0 ==> Lock(s', t.pid, Top(s, t).key) == Held(t, held))
             && LockOk(s', t.pid, Top(s, t).key)
    ensures Local(s, s', t, Top(s, t).key) && Here(s', t, Top(s, t).key)
  {
    hide Bodies, Holds, FrameOk, Nested, StackOk;
    var stack := Stack(s, t);
    var below, f := Below(stack), Top(s, t);
    var k := f.key;
    assert ThreadOk(s, t);
    assert stack == below + [f];
    Push(below, f);
    StackOkPop(stack);
    assert Stack(s', t) == below;
    assert DepthsOk(s', t) && RLocksOk(s', t) by { hide FilesOk, HolderOk; }
    FilesKeep(s, s', t);
    hide DepthsOk, RLocksOk, FilesOk;
    if k in s'.files { HolderStays(s, s', k); }
  }

  lemma KeepsLockTimeout(s: State, t: Thread)
    requires Enabled(s, LockTimeout(t)) && Here(s, t, Top(s, t).key)
    ensures Local(s, Next(s, LockTimeout(t)), t, Top(s, t).key) && Here(Next(s, LockTimeout(t)), t, Top(s, t).key)
  {
    hide Bodies, Holds;
    var s', stack, k := Next(s, LockTimeout(t)), Stack(s, t), Top(s, t).key;
    assert ThreadOk(s, t) && FrameOk(stack, |stack| - 1);
    assert stack == Below(stack) + [Top(s, t)];
    Push(Below(stack), Top(s, t));
    assert LockOk(s, t.pid, k);
    StackUnchangedElsewhere(s, s', t);
    KeepsPop(s, t, s');
  }

  lemma StackUnchangedElsewhere(s: State, s': State, t: Thread)
    requires Stack(s, t) != [] && s'.stacks == s.stacks[t := Below(Stack(s, t))]
    ensures forall u :: u != t ==> Stack(s', u) == Stack(s, u)
    ensures Stack(s', t) == Below(Stack(s, t))
  {
  }

  lemma KeepsRelease(s: State, t: Thread)
    requires Enabled(s, Release(t)) && Here(s, t, Top(s, t).key)
    ensures Local(s, Next(s, Release(t)), t, Top(s, t).key) && Here(Next(s, Release(t)), t, Top(s, t).key)
  {
    hide Bodies, Holds;
    var s', stack, k := Next(s, Release(t)), Stack(s, t), Top(s, t).key;
    assert ThreadOk(s, t) && FrameOk(stack, |stack| - 1);
    assert stack == Below(stack) + [Top(s, t)];
    Push(Below(stack), Top(s, t));
    assert Lock(s, t.pid, k) == Held(t, Holds(stack, k));
    StackUnchangedElsewhere(s, s', t);
    KeepsPop(s, t, s');
  }

  lemma KeepsSkipFile(s: State, t: Thread)
    requires Enabled(s, SkipFile(t)) && Here(s, t, Top(s, t).key)
    ensures Local(s, Next(s, SkipFile(t)), t, Top(s, t).key) && Here(Next(s, SkipFile(t)), t, Top(s, t).key)
  {
    var stack, f := Stack(s, t), Top(s, t).(phase := Ready);
    assert ThreadOk(s, t) && FrameOk(stack, |stack| - 1);
    DepthMeansNested(stack);
    SameKeysNest(stack, Below(stack) + [f]);
    TopMoves(s, t, f, Next(s, SkipFile(t)));
  }

  /** Steps into the clean-up, and opening the handle. */
  lemma KeepsBeforeFile(s: State, t: Thread, step: Step)
    requires step == OpenFails(t) || step == Open(t) || step == ChmodFails(t) || step == Deadline(t)
    requires Enabled(s, step) && Here(s, t, Top(s, t).key)
    ensures Local(s, Next(s, step), t, Top(s, t).key) && Here(Next(s, step), t, Top(s, t).key)
  {
    var stack, s' := Stack(s, t), Next(s, step);
    var f := Top(s', t);
    assert ThreadOk(s, t) && FrameOk(stack, |stack| - 1);
    DepthMeansNested(stack);
    assert Stack(s', t) == Below(stack) + [f];
    SameKeysNest(stack, Below(stack) + [f]);
    TopMoves(s, t, f, s');
  }

  lemma KeepsTakeFile(s: State, t: Thread)
    requires Enabled(s, TakeFile(t)) && Here(s, t, Top(s, t).key)
    ensures Local(s, Next(s, TakeFile(t)), t, Top(s, t).key) && Here(Next(s, TakeFile(t)), t, Top(s, t).key)
  {
    hide Bodies, Holds;
    var s', stack := Next(s, TakeFile(t)), Stack(s, t);
    var below, f, n := Below(stack), Top(s, t), |stack| - 1;
    var g, k := f.(phase := Ready, acquired := true), f.key;
    assert ThreadOk(s, t) && FrameOk(stack, n);
    SameKeysNest(stack, below + [g]);
    StackOkTop(stack, g);
    hide FrameOk, Nested, StackOk;
    assert Stack(s', t) == below + [g];
    TopKeepsCounts(s, s', t, g);
    hide DepthsOk, RLocksOk;
    forall i | 0 <= i < |Stack(s', t)| ensures HasFile(s', t, Stack(s', t)[i]) {
      if i < n { assert Stack(s', t)[i] == stack[i] && HasFile(s, t, stack[i]); }
    }
    assert ThreadOk(s', t);
    assert Stack(s', t)[n].acquired && Stack(s', t)[n].key == k;
  }

  /** Raising or lowering the depth together with the phase of the top frame. */
  lemma KeepsDepthChange(s: State, t: Thread, f: Frame, d: nat)
    requires Stack(s, t) != [] && Here(s, t, f.key) && f == Top(s, t).(phase := f.phase)
    requires f.phase != Calling && Top(s, t).phase != Calling
    requires (f.phase == Inside) != (Top(s, t).phase == Inside)
    requires d == Depth(s, t, f.key) + (if f.phase == Inside then 1 else -1)
    requires FrameOk(Below(Stack(s, t)) + [f], |Stack(s, t)| - 1)
    ensures var s' := WithDepth(WithTop(s, t, f), t, f.key, d);
            Local(s, s', t, f.key) && Here(s', t, f.key)
  {
    hide Bodies, Holds, FrameOk, Nested, StackOk;
    var s', stack, k := WithDepth(WithTop(s, t, f), t, f.key, d), Stack(s, t), f.key;
    assert ThreadOk(s, t);
    StackOkTop(stack, f);
    assert Stack(s', t) == Below(stack) + [f];
    DepthChangeCounts(s, t, f, d);
    FilesKeep(s, s', t);
    hide DepthsOk, RLocksOk, FilesOk;
    if k in s'.files { HolderStays(s, s', k); }
  }

  /** The depth follows the number of bodies, and the number of RLock holds stays. */
  lemma DepthChangeCounts(s: State, t: Thread, f: Frame, d: nat)
    requires Stack(s, t) != [] && DepthsOk(s, t) && RLocksOk(s, t) && f == Top(s, t).(phase := f.phase)
    requires f.phase != Calling && Top(s, t).phase != Calling
    requires (f.phase == Inside) != (Top(s, t).phase == Inside)
    requires d == Depth(s, t, f.key) + (if f.phase == Inside then 1 else -1)
    ensures var s' := WithDepth(WithTop(s, t, f), t, f.key, d);
            && DepthsOk(s', t) && RLocksOk(s', t)
            && (forall k :: Holds(Stack(s', t), k) == Holds(Stack(s, t), k))
            && (forall u, k :: u != t || k != f.key ==> Depth(s', u, k) == Depth(s, u, k))
  {
    hide Bodies, Holds;
    var s', below := WithDepth(WithTop(s, t, f), t, f.key, d), Below(Stack(s, t));
    assert Stack(s, t) == below + [Top(s, t)];
    Push(below, Top(s, t));
    Push(below, f);
    assert Stack(s', t) == below + [f];
    assert forall u, k :: u != t || k != f.key ==> Depth(s', u, k) == Depth(s, u, k);
    assert Depth(s', t, f.key) == d;
  }

  lemma TopFrame(s: State, t: Thread, k: Key)
    requires Here(s, t, k) && Stack(s, t) != []
    ensures FrameOk(Stack(s, t), |Stack(s, t)| - 1)
  {
    hide FrameOk;
  }

  /** Ready to Inside, and Inside to Closing. */
  lemma BodyFrameOk(stack: seq<Frame>, f: Frame)
    requires stack != [] && FrameOk(stack, |stack| - 1) && f == stack[|stack| - 1].(phase := f.phase)
    requires (stack[|stack| - 1].phase == Ready && f.phase == Inside)
             || (stack[|stack| - 1].phase == Inside && f.phase == Closing)
    ensures FrameOk(Below(stack) + [f], |stack| - 1)
  {
    SameKeysNest(stack, Below(stack) + [f]);
  }

  lemma KeepsEnter(s: State, t: Thread)
    requires Enabled(s, Enter(t)) && Here(s, t, Top(s, t).key)
    ensures Local(s, Next(s, Enter(t)), t, Top(s, t).key) && Here(Next(s, Enter(t)), t, Top(s, t).key)
  {
    hide Here, Local, FrameOk, Nested, ThreadOk;
    var f := Top(s, t).(phase := Inside);
    TopFrame(s, t, f.key);
    BodyFrameOk(Stack(s, t), f);
    KeepsDepthChange(s, t, f, Depth(s, t, f.key) + 1);
  }

  lemma KeepsLeave(s: State, t: Thread)
    requires Enabled(s, Leave(t)) && Here(s, t, Top(s, t).key)
    ensures Local(s, Next(s, Leave(t)), t, Top(s, t).key) && Here(Next(s, Leave(t)), t, Top(s, t).key)
  {
    hide Here, Local, FrameOk, Nested, ThreadOk;
    var f := Top(s, t).(phase := Closing);
    TopFrame(s, t, f.key);
    BodyFrameOk(Stack(s, t), f);
    KeepsDepthChange(s, t, f, Depth(s, t, f.key) - 1);
  }

  /** Closing a handle that never got the lock. */
  lemma KeepsCloseUnlocked(s: State, t: Thread)
    requires Enabled(s, CloseFile(t)) && Here(s, t, Top(s, t).key) && !Top(s, t).acquired
    ensures Local(s, Next(s, CloseFile(t)), t, Top(s, t).key) && Here(Next(s, CloseFile(t)), t, Top(s, t).key)
  {
    var stack, g := Stack(s, t), Top(s, t).(phase := Releasing, handle := None, acquired := false);
    TopFrame(s, t, g.key);
    SameKeysNest(stack, Below(stack) + [g]);
    TopMoves(s, t, g, Next(s, CloseFile(t)));
  }

  lemma ReleasingFrameOk(stack: seq<Frame>, g: Frame)
    requires stack != [] && StackOk(stack) && stack[|stack| - 1].acquired
    requires g == Frame(stack[|stack| - 1].key, Releasing, None, false)
    ensures StackOk(Below(stack) + [g])
    ensures forall i | 0 <= i < |stack| - 1 :: stack[i].key != g.key
  {
    var n := |stack| - 1;
    assert FrameOk(stack, n);
    SameKeysNest(stack, Below(stack) + [g]);
    StackOkTop(stack, g);
  }

  lemma KeepsCloseLocked(s: State, t: Thread)
    requires Enabled(s, CloseFile(t)) && Here(s, t, Top(s, t).key) && Top(s, t).acquired
    ensures Local(s, Next(s, CloseFile(t)), t, Top(s, t).key) && Here(Next(s, CloseFile(t)), t, Top(s, t).key)
  {
    hide Bodies, Holds, FrameOk, Nested, StackOk;
    var s', stack := Next(s, CloseFile(t)), Stack(s, t);
    var below, f, n := Below(stack), Top(s, t), |stack| - 1;
    var g := Frame(f.key, Releasing, None, false);
    ReleasingFrameOk(stack, g);
    assert HasFile(s, t, stack[n]);
    assert Stack(s', t) == below + [g];
    TopKeepsCounts(s, s', t, g);
    hide DepthsOk, RLocksOk;
    assert FilesOk(s', t) by {
      hide HolderOk, LockOk;
      forall i | 0 <= i < |stack| ensures HasFile(s', t, Stack(s', t)[i]) {
        if i < n { assert Stack(s', t)[i] == stack[i] && HasFile(s, t, stack[i]); }
      }
    }
    hide FilesOk;
  }

  lemma KeepsCrash(s: State, pid: nat)
    requires Inv(s)
    ensures Inv(Next(s, Crash(pid)))
  {
    hide FrameOk, Nested;
    var s' := Next(s, Crash(pid));
    forall t ensures Stack(s', t) == if t.pid == pid then [] else Stack(s, t) {}
    forall p, k ensures Lock(s', p, k) == if p == pid then Free else Lock(s, p, k) {}
    forall t, k ensures Depth(s', t, k) == if t.pid == pid then 0 else Depth(s, t, k) {}
    forall t ensures ThreadOk(s', t) { assert ThreadOk(s, t); }
    forall k | k in s'.files ensures HolderOk(s', k) {
      assert HolderOk(s, k);
      HolderStays(s, s', k);
    }
    forall p, k ensures LockOk(s', p, k) { assert LockOk(s, p, k); }
  }

  /** The key a step works on. */
  function Subject(s: State, step: Step): Key
    requires !step.Crash? && Enabled(s, step)
  {
    if step.Call? then step.k else Top(s, step.t).key
  }

  lemma StepStaysLocal(s: State, step: Step)
    requires Enabled(s, step) && !step.Crash? && Here(s, step.t, Subject(s, step))
    ensures Local(s, Next(s, step), step.t, Subject(s, step)) && Here(Next(s, step), step.t, Subject(s, step))
  {
    hide Here, Local, Next;
    match step
    case Call(t, k) => KeepsCall(s, t, k);
    case Acquire(t) => KeepsAcquire(s, t);
    case LockTimeout(t) => KeepsLockTimeout(s, t);
    case SkipFile(t) => KeepsSkipFile(s, t);
    case OpenFails(t) => KeepsBeforeFile(s, t, step);
    case Open(t) => KeepsBeforeFile(s, t, step);
    case ChmodFails(t) => KeepsBeforeFile(s, t, step);
    case TakeFile(t) => KeepsTakeFile(s, t);
    case Deadline(t) => KeepsBeforeFile(s, t, step);
    case Enter(t) => KeepsEnter(s, t);
    case Leave(t) => KeepsLeave(s, t);
    case CloseFile(t) => if Top(s, t).acquired { KeepsCloseLocked(s, t); } else { KeepsCloseUnlocked(s, t); }
    case Release(t) => KeepsRelease(s, t);
  }

  lemma InvHere(s: State, t: Thread, k: Key)
    requires Inv(s)
    ensures Here(s, t, k)
  {
    assert ThreadOk(s, t) && LockOk(s, t.pid, k);
  }

  lemma StepKeepsInv(s: State, step: Step)
    requires Inv(s) && Enabled(s, step)
    ensures Inv(Next(s, step))
  {
    hide Inv, Here, Local, Enabled, Next, Subject;
    if step.Crash? {
      KeepsCrash(s, step.pid);
    } else {
      InvHere(s, step.t, Subject(s, step));
      StepStaysLocal(s, step);
      Assemble(s, Next(s, step), step.t, Subject(s, step));
    }
  }

  lemma {:induction false} RunKeepsInv(s: State, steps: seq<Step>)
    requires Inv(s) && Run(s, steps).Some?
    ensures Inv(Run(s, steps).value)
    decreases |steps|
  {
    hide Inv, Enabled, Next;
    if steps != [] {
      StepKeepsInv(s, steps[0]);
      RunKeepsInv(Next(s, steps[0]), steps[1..]);
    }
  }

  lemma InitialInv()
    ensures Inv(INITIAL)
  {
  }
}
