/** What the configuration lock guarantees in every interleaving of its processes and threads. */
module ConfigLockSafety {
  import opened Options
  import opened ConfigLock
  import opened ConfigLockSteps

  // ---------------------------------------------------------------------------------------------
  // What holds in every reachable state
  // ---------------------------------------------------------------------------------------------

  ghost predicate Reachable(s: State)
  {
    exists steps :: Run(INITIAL, steps) == Some(s)
  }

  lemma ReachableInv(s: State)
    requires Reachable(s)
    ensures Inv(s)
  {
    hide Inv;
    var steps :| Run(INITIAL, steps) == Some(s);
    InitialInv();
    RunKeepsInv(INITIAL, steps);
  }

  /** The first call for `k` on the stack is the one that took the file lock. */
  lemma OutermostHasFile(s: State, t: Thread, k: Key, i: nat)
    requires ThreadOk(s, t) && i < |Stack(s, t)| && Stack(s, t)[i].key == k && Stack(s, t)[i].phase == Inside
    ensures k in s.files && s.files[k].thread == t
    decreases i
  {
    var stack := Stack(s, t);
    assert FrameOk(stack, i) && HasFile(s, t, stack[i]);
    if Nested(stack, i) {
      var j :| 0 <= j < i && stack[j].key == stack[i].key;
      assert FrameOk(stack, j);
      OutermostHasFile(s, t, k, j);
    }
  }

  /** A positive depth means that this thread owns the RLock and that its process, through this very
      thread's handle, holds the file lock. */
  lemma DepthMeansBothLocks(s: State, t: Thread, k: Key)
    requires Reachable(s) && Depth(s, t, k) > 0
    ensures Lock(s, t.pid, k).Held? && Lock(s, t.pid, k).owner == t
    ensures k in s.files && s.files[k].thread == t
  {
    ReachableInv(s);
    assert ThreadOk(s, t);
    var stack := Stack(s, t);
    CountsNest(stack, k);
    var i :| 0 <= i < |stack| && stack[i].key == k && stack[i].phase == Inside;
    OutermostHasFile(s, t, k, i);
  }

  /** However processes and threads interleave, time out, fail and die, at most one thread anywhere is
      inside the protected body of a key. */
  lemma MutualExclusion(s: State, t: Thread, u: Thread, k: Key)
    requires Reachable(s) && Depth(s, t, k) > 0 && Depth(s, u, k) > 0
    ensures t == u
  {
    DepthMeansBothLocks(s, t, k);
    DepthMeansBothLocks(s, u, k);
  }

  /** Apart from a dying process, a file lock is given up only by its holder's outermost call, after
      the depth is back to zero. */
  lemma OnlyOutermostReleasesFile(s: State, step: Step, k: Key)
    requires Reachable(s) && Enabled(s, step) && !step.Crash?
    requires k in s.files && k !in Next(s, step).files
    ensures step == CloseFile(s.files[k].thread) && Depth(s, s.files[k].thread, k) == 0
  {
    ReachableInv(s);
    var t := step.t;
    var stack := Stack(s, t);
    assert step.CloseFile? && ThreadOk(s, t) && Top(s, t).acquired && Top(s, t).key == k;
    assert FrameOk(stack, |stack| - 1) && HasFile(s, t, stack[|stack| - 1]);
    DepthMeansNested(stack);
  }

  /** Leaving the body and releasing the RLock never fail: the depth is there to be lowered and the
      RLock is held by the thread that releases it. */
  lemma ExitNeverFails(s: State, t: Thread)
    requires Reachable(s)
    ensures At(s, t, Inside) ==> Enabled(s, Leave(t))
    ensures At(s, t, Releasing) ==> Enabled(s, Release(t)) && Lock(s, t.pid, Top(s, t).key).owner == t
  {
    ReachableInv(s);
    assert ThreadOk(s, t);
    if Stack(s, t) != [] {
      var stack, k := Stack(s, t), Top(s, t).key;
      CountsNest(stack, k);
      assert stack[|stack| - 1] == Top(s, t);
    }
  }

  /** How often `t` holds the RLock of `k`. */
  function Share(s: State, t: Thread, k: Key): nat
  {
    match Lock(s, t.pid, k) case Free => 0 case Held(owner, n) => if owner == t then n else 0
  }

  predicate HasFileLock(s: State, t: Thread, k: Key)
  {
    k in s.files && s.files[k].thread == t
  }

  /** What a thread holds of the two locks is a function of its open calls. */
  lemma StackDeterminesLocks(s: State, s': State, t: Thread, k: Key)
    requires Inv(s) && Inv(s') && Stack(s, t) == Stack(s', t)
    ensures Share(s, t, k) == Share(s', t, k) && HasFileLock(s, t, k) == HasFileLock(s', t, k)
    ensures Depth(s, t, k) == Depth(s', t, k)
  {
    assert ThreadOk(s, t) && ThreadOk(s', t) && LockOk(s, t.pid, k) && LockOk(s', t.pid, k);
    var stack := Stack(s, t);
    if HasFileLock(s, t, k) {
      assert HolderOk(s, k);
      var i :| 0 <= i < |stack| && stack[i].acquired && stack[i].key == k;
      assert HasFile(s', t, stack[i]);
    }
    if HasFileLock(s', t, k) {
      assert HolderOk(s', k);
      var i :| 0 <= i < |stack| && stack[i].acquired && stack[i].key == k;
      assert HasFile(s, t, stack[i]);
    }
  }

  /** Until it returns, a call leaves the calls below it alone. */
  lemma StepAbove(s: State, step: Step, t: Thread, n: nat)
    requires Enabled(s, step) && n < |Stack(s, t)|
    ensures |Stack(Next(s, step), t)| >= n || Stack(Next(s, step), t) == []
    ensures |Stack(Next(s, step), t)| >= n ==> Stack(Next(s, step), t)[..n] == Stack(s, t)[..n]
  {
    var s' := Next(s, step);
    if !step.Crash? && step.t == t {
      assert |Stack(s', t)| >= |Stack(s, t)| - 1;
      assert Stack(s', t)[..n] == Stack(s, t)[..n];
    }
  }

  /** The call stays open, in all states before the last. */
  ghost predicate OpenUntilEnd(s: State, steps: seq<Step>, t: Thread, n: nat)
    decreases |steps|
  {
    steps != [] ==>
      && |Stack(s, t)| > n && Enabled(s, steps[0])
      && (steps[1..] != [] ==> OpenUntilEnd(Next(s, steps[0]), steps[1..], t, n))
  }

  lemma {:induction false} CallReturns(s: State, steps: seq<Step>, t: Thread, n: nat)
    requires steps != [] && OpenUntilEnd(s, steps, t, n) && Run(s, steps).Some?
    requires |Stack(Run(s, steps).value, t)| == n
    ensures Stack(Run(s, steps).value, t) == Stack(s, t)[..n]
    decreases |steps|
  {
    hide Enabled, Next;
    var next := Next(s, steps[0]);
    StepAbove(s, steps[0], t, n);
    if steps[1..] != [] {
      CallReturns(next, steps[1..], t, n);
    } else {
      assert Run(next, []) == Some(next);
    }
  }

  /** However a call ends - body finished or raising, RLock timeout, handle that cannot be opened, file
      lock deadline - when it is off the stack the thread holds exactly what it held when it called. */
  lemma EveryExitRestoresLocks(s: State, t: Thread, called: Key, steps: seq<Step>, k: Key)
    requires Reachable(s) && Enabled(s, Call(t, called)) && steps != []
    requires OpenUntilEnd(Next(s, Call(t, called)), steps, t, |Stack(s, t)|)
    requires Run(Next(s, Call(t, called)), steps).Some?
    requires |Stack(Run(Next(s, Call(t, called)), steps).value, t)| == |Stack(s, t)|
    ensures var s' := Run(Next(s, Call(t, called)), steps).value;
            && Stack(s', t) == Stack(s, t)
            && Share(s', t, k) == Share(s, t, k)
            && HasFileLock(s', t, k) == HasFileLock(s, t, k)
            && Depth(s', t, k) == Depth(s, t, k)
  {
    ReachableInv(s);
    var after := Next(s, Call(t, called));
    StepKeepsInv(s, Call(t, called));
    RunKeepsInv(after, steps);
    CallReturns(after, steps, t, |Stack(s, t)|);
    assert Stack(after, t)[..|Stack(s, t)|] == Stack(s, t);
    StackDeterminesLocks(s, Run(after, steps).value, t, k);
  }

  // ---------------------------------------------------------------------------------------------
  // Entering
  // ---------------------------------------------------------------------------------------------

  lemma RunOne(s: State, step: Step, rest: seq<Step>)
    requires Enabled(s, step)
    ensures Run(s, [step] + rest) == Run(Next(s, step), rest)
  {
    hide Enabled, Next;
    assert ([step] + rest)[1..] == rest;
  }

  lemma RunNothing(s: State)
    ensures Run(s, []) == Some(s)
  {
  }

  /** The thread is in the body of the call it was waiting for; its other calls are as they were. */
  predicate Entered(s: State, t: Thread, after: State)
    requires Stack(s, t) != []
  {
    && Stack(after, t) != [] && Below(Stack(after, t)) == Below(Stack(s, t))
    && Top(after, t).key == Top(s, t).key && Top(after, t).phase == Inside
    && Depth(after, t, Top(s, t).key) == Depth(s, t, Top(s, t).key) + 1
  }

  /** The lock is reentrant: a call nested in the body of the same key never waits for either lock and
      never times out; it gets into its own body without touching the file lock. */
  lemma NestedCallEnters(s: State, t: Thread) returns (after: State)
    requires Reachable(s) && At(s, t, Calling) && Depth(s, t, Top(s, t).key) > 0
    ensures !Enabled(s, LockTimeout(t))
    ensures Run(s, [Acquire(t), SkipFile(t), Enter(t)]) == Some(after)
    ensures Entered(s, t, after) && after.files == s.files
  {
    DepthMeansBothLocks(s, t, Top(s, t).key);
    var s1 := Next(s, Acquire(t));
    var s2 := Next(s1, SkipFile(t));
    after := Next(s2, Enter(t));
    RunOne(s, Acquire(t), [SkipFile(t), Enter(t)]);
    RunOne(s1, SkipFile(t), [Enter(t)]);
    RunOne(s2, Enter(t), []);
    RunNothing(after);
    assert [Acquire(t)] + [SkipFile(t), Enter(t)] == [Acquire(t), SkipFile(t), Enter(t)];
  }

  /** What a step of its own call does for a thread. */
  lemma AcquireDoes(s: State, t: Thread)
    requires Enabled(s, Acquire(t))
    ensures var x, f := Next(s, Acquire(t)), Top(s, t);
            && Stack(x, t) == Below(Stack(s, t)) + [f.(phase := Locked)] && x.files == s.files && x.depths == s.depths
  {
  }

  lemma OpenDoes(s: State, t: Thread)
    requires Enabled(s, Open(t))
    ensures var x, f := Next(s, Open(t)), Top(s, t);
            && Stack(x, t) == Below(Stack(s, t)) + [f.(phase := Trying, handle := Some(s.nextHandle))]
            && x.files == s.files && x.depths == s.depths
  {
  }

  lemma TakeFileDoes(s: State, t: Thread)
    requires Enabled(s, TakeFile(t))
    ensures var x, f := Next(s, TakeFile(t)), Top(s, t);
            && Stack(x, t) == Below(Stack(s, t)) + [f.(phase := Ready, acquired := true)]
            && HasFileLock(x, t, f.key) && x.depths == s.depths
  {
  }

  lemma EnterDoes(s: State, t: Thread)
    requires Enabled(s, Enter(t))
    ensures var x, f := Next(s, Enter(t)), Top(s, t);
            && Stack(x, t) == Below(Stack(s, t)) + [f.(phase := Inside)] && x.files == s.files
            && Depth(x, t, f.key) == Depth(s, t, f.key) + 1
  {
  }

  lemma OpensFile(s: State, t: Thread) returns (x: State)
    requires At(s, t, Calling) && Depth(s, t, Top(s, t).key) == 0 && Lock(s, t.pid, Top(s, t).key).Free?
    ensures Run(s, [Acquire(t), Open(t)]) == Some(x) && At(x, t, Trying) && Top(x, t).handle.Some?
    ensures Below(Stack(x, t)) == Below(Stack(s, t)) && Top(x, t).key == Top(s, t).key
    ensures x.files == s.files && x.depths == s.depths
  {
    assert Enabled(s, Acquire(t));
    hide Next, Run, Lock;
    AcquireDoes(s, t);
    var s1 := Next(s, Acquire(t));
    assert Stack(s1, t)[..|Stack(s1, t)| - 1] == Below(Stack(s, t));
    OpenDoes(s1, t);
    x := Next(s1, Open(t));
    assert Enabled(s1, Open(t));
    hide Enabled;
    RunOne(s, Acquire(t), [Open(t)]);
    RunOne(s1, Open(t), []);
    RunNothing(x);
    assert [Acquire(t)] + [Open(t)] == [Acquire(t), Open(t)] && [Open(t)] + [] == [Open(t)];
  }

  lemma TakesFile(s: State, t: Thread) returns (x: State)
    requires At(s, t, Trying) && Top(s, t).handle.Some? && Top(s, t).key !in s.files
    ensures Run(s, [TakeFile(t), Enter(t)]) == Some(x) && Entered(s, t, x) && HasFileLock(x, t, Top(s, t).key)
  {
    assert Enabled(s, TakeFile(t));
    hide Next, Run;
    TakeFileDoes(s, t);
    var s1 := Next(s, TakeFile(t));
    EnterDoes(s1, t);
    x := Next(s1, Enter(t));
    assert Enabled(s1, Enter(t));
    hide Enabled;
    RunOne(s, TakeFile(t), [Enter(t)]);
    RunOne(s1, Enter(t), []);
    RunNothing(x);
    assert [TakeFile(t)] + [Enter(t)] == [TakeFile(t), Enter(t)] && [Enter(t)] + [] == [Enter(t)];
  }

  /** A first call for a key gets into its body when both locks are free, and then holds the file lock. */
  lemma FirstCallEnters(s: State, t: Thread) returns (after: State)
    requires At(s, t, Calling) && Depth(s, t, Top(s, t).key) == 0
    requires Lock(s, t.pid, Top(s, t).key).Free? && Top(s, t).key !in s.files
    ensures Run(s, [Acquire(t), Open(t)] + [TakeFile(t), Enter(t)]) == Some(after)
    ensures Entered(s, t, after) && HasFileLock(after, t, Top(s, t).key)
  {
    hide Next, Run, Lock, Enabled;
    var x := OpensFile(s, t);
    after := TakesFile(x, t);
    RunJoins(s, [Acquire(t), Open(t)], x, [TakeFile(t), Enter(t)]);
  }

  lemma {:induction false} RunJoins(s: State, a: seq<Step>, x: State, b: seq<Step>)
    requires Run(s, a) == Some(x)
    ensures Run(s, a + b) == Run(x, b)
    decreases |a|
  {
    hide Next, Enabled;
    if a == [] {
      assert a + b == b;
    } else {
      assert (a + b)[1..] == a[1..] + b;
      RunJoins(Next(s, a[0]), a[1..], x, b);
    }
  }

  /** The RLock is free or the thread's own, and the file lock is free or behind a body of the thread. */
  predicate Admissible(s: State, t: Thread)
    requires Stack(s, t) != []
  {
    var k := Top(s, t).key;
    && (Lock(s, t.pid, k).Free? || Lock(s, t.pid, k).owner == t)
    && (Depth(s, t, k) > 0 || k !in s.files)
  }

  /** The thread acts alone and opens no further call. */
  predicate Alone(steps: seq<Step>, t: Thread)
  {
    forall i | 0 <= i < |steps| :: !steps[i].Call? && !steps[i].Crash? && steps[i].t == t
  }

  /** How far the waiting call of `s` can have come when nobody else acts. */
  ghost predicate Progress(s: State, t: Thread, x: State)
    requires Stack(s, t) != []
  {
    var k := Top(s, t).key;
    var open := Lock(s, t.pid, k).Free? || Lock(s, t.pid, k).owner == t;
    && Stack(x, t) != [] && |Stack(x, t)| == |Stack(s, t)| && Top(x, t).key == k
    && match Top(x, t).phase
       case Calling => x == s
       case Locked => open && x.files == s.files && Depth(x, t, k) == Depth(s, t, k)
       case Trying => open && x.files == s.files && Depth(s, t, k) == 0
       case Ready => Admissible(s, t)
       case Inside => Admissible(s, t)
       case _ => true
  }

  lemma AloneKeeps(s: State, t: Thread, x: State, step: Step)
    requires Stack(s, t) != [] && Progress(s, t, x) && Enabled(x, step) && Alone([step], t)
    requires |Stack(Next(x, step), t)| == |Stack(s, t)|
    ensures Progress(s, t, Next(x, step))
  {
    assert [step][0] == step;
    assert step.t == t;
  }

  lemma AloneShrinks(x: State, t: Thread, step: Step)
    requires Enabled(x, step) && Alone([step], t)
    ensures |Stack(Next(x, step), t)| <= |Stack(x, t)|
  {
    assert [step][0] == step;
    assert step.t == t;
  }

  lemma {:induction false} AloneRun(s: State, t: Thread, x: State, steps: seq<Step>, after: State)
    requires Stack(s, t) != [] && Alone(steps, t) && Run(x, steps) == Some(after)
    requires |Stack(x, t)| <= |Stack(s, t)| && (|Stack(x, t)| == |Stack(s, t)| ==> Progress(s, t, x))
    requires |Stack(after, t)| == |Stack(s, t)|
    ensures Progress(s, t, after)
    decreases |steps|
  {
    hide Enabled, Next, Progress;
    if steps != [] {
      var step := steps[0];
      assert Alone([step], t) && Alone(steps[1..], t) by {
        assert forall i | 0 <= i < |steps[1..]| :: steps[1..][i] == steps[i + 1];
      }
      AloneShrinks(x, t, step);
      if |Stack(Next(x, step), t)| == |Stack(s, t)| { AloneKeeps(s, t, x, step); }
      AloneRun(s, t, Next(x, step), steps[1..], after);
    }
  }

  ghost predicate CanEnterAlone(s: State, t: Thread)
    requires Stack(s, t) != []
  {
    exists steps, after :: Alone(steps, t) && Run(s, steps) == Some(after) && Entered(s, t, after)
  }

  lemma FreeAtDepthZero(s: State, t: Thread)
    requires Reachable(s) && At(s, t, Calling) && Admissible(s, t) && Depth(s, t, Top(s, t).key) == 0
    ensures Lock(s, t.pid, Top(s, t).key).Free?
  {
    ReachableInv(s);
    var k := Top(s, t).key;
    assert ThreadOk(s, t) && LockOk(s, t.pid, k);
    CallingHoldsAsBodies(Stack(s, t), k);
  }

  /** Frames below the top run their bodies, so that a waiting thread holds the RLock once for each. */
  lemma CallingHoldsAsBodies(stack: seq<Frame>, k: Key)
    requires StackOk(stack) && stack != [] && stack[|stack| - 1].phase == Calling
    ensures Holds(stack, k) == Bodies(stack, k)
  {
    var below := Below(stack);
    assert forall i | 0 <= i < |below| :: below[i] == stack[i] && FrameOk(stack, i);
    InsideHoldsAsBodies(below, k);
  }

  lemma {:induction false} InsideHoldsAsBodies(stack: seq<Frame>, k: Key)
    requires forall i | 0 <= i < |stack| :: stack[i].phase == Inside
    ensures Holds(stack, k) == Bodies(stack, k)
    decreases |stack|
  {
    if stack != [] {
      assert forall i | 0 <= i < |Below(stack)| :: Below(stack)[i] == stack[i];
      InsideHoldsAsBodies(Below(stack), k);
    }
  }

  /** A waiting call can get into its body without any other thread acting exactly when the RLock is free
      or its own, and the file lock is free or already behind it. */
  lemma EntersExactly(s: State, t: Thread)
    requires Reachable(s) && At(s, t, Calling)
    ensures CanEnterAlone(s, t) <==> Admissible(s, t)
  {
    hide Reachable, Enabled, Next, Run;
    if CanEnterAlone(s, t) {
      var steps, after :| Alone(steps, t) && Run(s, steps) == Some(after) && Entered(s, t, after);
      AloneRun(s, t, s, steps, after);
    }
    if Admissible(s, t) {
      if Depth(s, t, Top(s, t).key) > 0 {
        var after := NestedCallEnters(s, t);
        assert Alone([Acquire(t), SkipFile(t), Enter(t)], t);
      } else {
        FreeAtDepthZero(s, t);
        var after := FirstCallEnters(s, t);
        assert Alone([Acquire(t), Open(t)] + [TakeFile(t), Enter(t)], t);
      }
    }
  }
}
