/**
 The reentrant cross-process configuration lock of `scripts/config_lock.py`.

 Any number of processes run any number of threads, each with a stack of open calls. Every shared
 action of `configuration_write` is one atomic step: the RLock, the look at the thread-local depth,
 the opened handle, one attempt at the file lock, entering and leaving the body, closing the handle,
 releasing the RLock. A process may die between any two steps, which closes its handles.
 */
module ConfigLock {
  import opened Options

  type Key = string

  datatype Thread = Thread(pid: nat, tid: nat)

  /** Where a call of `configuration_write` stands. */
  datatype Phase =
    | Calling    // waiting for the RLock
    | Locked     // RLock taken, depth not looked at yet
    | Trying     // handle open, file lock not taken yet
    | Ready      // about to raise the depth
    | Inside     // the protected body is running
    | Closing    // depth lowered or lock not obtained; the handle is next
    | Releasing  // only the RLock is left

  datatype Frame = Frame(key: Key, phase: Phase, handle: Option<nat>, acquired: bool)

  datatype RLock = Free | Held(owner: Thread, count: nat)

  /** Who holds a file lock: the lock belongs to one open handle of one thread. */
  datatype Holder = Holder(thread: Thread, handle: nat)

  datatype State = State(
    stacks: map<Thread, seq<Frame>>,
    rlocks: map<(nat, Key), RLock>,
    depths: map<(Thread, Key), nat>,
    files: map<Key, Holder>,
    nextHandle: nat)

  datatype Step =
    | Call(t: Thread, k: Key) | Acquire(t: Thread) | LockTimeout(t: Thread)
    | SkipFile(t: Thread) | OpenFails(t: Thread) | Open(t: Thread) | ChmodFails(t: Thread)
    | TakeFile(t: Thread) | Deadline(t: Thread)
    | Enter(t: Thread) | Leave(t: Thread) | CloseFile(t: Thread) | Release(t: Thread)
    | Crash(pid: nat)

  const INITIAL := State(map[], map[], map[], map[], 0)

  function Stack(s: State, t: Thread): seq<Frame>
  {
    if t in s.stacks then s.stacks[t] else []
  }

  function Lock(s: State, pid: nat, k: Key): RLock
  {
    if (pid, k) in s.rlocks then s.rlocks[(pid, k)] else Free
  }

  /** `depths.get(key, 0)` of one thread. */
  function Depth(s: State, t: Thread, k: Key): nat
  {
    if (t, k) in s.depths then s.depths[(t, k)] else 0
  }

  function Top(s: State, t: Thread): Frame
    requires Stack(s, t) != []
  {
    Stack(s, t)[|Stack(s, t)| - 1]
  }

  predicate At(s: State, t: Thread, phase: Phase)
  {
    Stack(s, t) != [] && Top(s, t).phase == phase
  }

  function Below(stack: seq<Frame>): seq<Frame>
    requires stack != []
  {
    stack[..|stack| - 1]
  }

  function WithTop(s: State, t: Thread, f: Frame): State
    requires Stack(s, t) != []
  {
    s.(stacks := s.stacks[t := Below(Stack(s, t)) + [f]])
  }

  function WithDepth(s: State, t: Thread, k: Key, d: nat): State
  {
    s.(depths := if d == 0 then s.depths - {(t, k)} else s.depths[(t, k) := d])
  }

  predicate Enabled(s: State, step: Step)
  {
    match step
    case Call(t, _) => Stack(s, t) == [] || At(s, t, Inside)
    case Acquire(t) => At(s, t, Calling) &&
      var lock := Lock(s, t.pid, Top(s, t).key); lock.Free? || lock.owner == t
    case LockTimeout(t) => At(s, t, Calling) &&
      var lock := Lock(s, t.pid, Top(s, t).key); lock.Held? && lock.owner != t
    case SkipFile(t) => At(s, t, Locked) && Depth(s, t, Top(s, t).key) > 0
    case OpenFails(t) => At(s, t, Locked) && Depth(s, t, Top(s, t).key) == 0
    case Open(t) => At(s, t, Locked) && Depth(s, t, Top(s, t).key) == 0
    case ChmodFails(t) => At(s, t, Trying)
    case TakeFile(t) => At(s, t, Trying) && Top(s, t).handle.Some? && Top(s, t).key !in s.files
    case Deadline(t) => At(s, t, Trying)
    case Enter(t) => At(s, t, Ready)
    case Leave(t) => At(s, t, Inside) && Depth(s, t, Top(s, t).key) > 0
    case CloseFile(t) => At(s, t, Closing)
    case Release(t) => At(s, t, Releasing) && Lock(s, t.pid, Top(s, t).key).Held?
                       && Lock(s, t.pid, Top(s, t).key).count > 0
    case Crash(_) => true
  }

  function Next(s: State, step: Step): State
    requires Enabled(s, step)
  {
    match step
    case Call(t, k) => s.(stacks := s.stacks[t := Stack(s, t) + [Frame(k, Calling, None, false)]])
    case Acquire(t) =>
      var f := Top(s, t);
      var count := match Lock(s, t.pid, f.key) case Free => 0 case Held(_, n) => n;
      WithTop(s, t, f.(phase := Locked)).(rlocks := s.rlocks[(t.pid, f.key) := Held(t, count + 1)])
    case LockTimeout(t) => s.(stacks := s.stacks[t := Below(Stack(s, t))])
    case SkipFile(t) => WithTop(s, t, Top(s, t).(phase := Ready))
    case OpenFails(t) => WithTop(s, t, Top(s, t).(phase := Closing))
    case Open(t) => WithTop(s, t, Top(s, t).(phase := Trying, handle := Some(s.nextHandle))).(nextHandle := s.nextHandle + 1)
    case ChmodFails(t) => WithTop(s, t, Top(s, t).(phase := Closing))
    case TakeFile(t) =>
      var f := Top(s, t);
      WithTop(s, t, f.(phase := Ready, acquired := true)).(files := s.files[f.key := Holder(t, f.handle.value)])
    case Deadline(t) => WithTop(s, t, Top(s, t).(phase := Closing))
    case Enter(t) =>
      var f := Top(s, t);
      WithDepth(WithTop(s, t, f.(phase := Inside)), t, f.key, Depth(s, t, f.key) + 1)
    case Leave(t) =>
      var f := Top(s, t);
      WithDepth(WithTop(s, t, f.(phase := Closing)), t, f.key, Depth(s, t, f.key) - 1)
    case CloseFile(t) =>
      var f := Top(s, t);
      var closed := WithTop(s, t, f.(phase := Releasing, handle := None, acquired := false));
      if f.acquired then closed.(files := s.files - {f.key}) else closed
    case Release(t) =>
      var f := Top(s, t);
      var count := Lock(s, t.pid, f.key).count;
      s.(stacks := s.stacks[t := Below(Stack(s, t))],
         rlocks := if count == 1 then s.rlocks - {(t.pid, f.key)}
                   else s.rlocks[(t.pid, f.key) := Lock(s, t.pid, f.key).(count := count - 1)])
    case Crash(pid) =>
      s.(stacks := map t | t in s.stacks && t.pid != pid :: s.stacks[t],
         rlocks := map p | p in s.rlocks && p.0 != pid :: s.rlocks[p],
         depths := map p | p in s.depths && p.0.pid != pid :: s.depths[p],
         files := map k | k in s.files && s.files[k].thread.pid != pid :: s.files[k])
  }

  /** The state after a sequence of steps, each of which was possible. */
  function Run(s: State, steps: seq<Step>): Option<State>
    decreases |steps|
  {
    if steps == [] then Some(s)
    else if !Enabled(s, steps[0]) then None
    else Run(Next(s, steps[0]), steps[1..])
  }

  // ---------------------------------------------------------------------------------------------
  // The invariant
  // ---------------------------------------------------------------------------------------------

  /** How many calls for `k` on the stack run their body. */
  function Bodies(stack: seq<Frame>, k: Key): nat
    decreases |stack|
  {
    if stack == [] then 0
    else
      var f := stack[|stack| - 1];
      Bodies(Below(stack), k) + if f.key == k && f.phase == Inside then 1 else 0
  }

  /** How many calls for `k` on the stack hold the RLock. */
  function Holds(stack: seq<Frame>, k: Key): nat
    decreases |stack|
  {
    if stack == [] then 0
    else
      var f := stack[|stack| - 1];
      Holds(Below(stack), k) + if f.key == k && f.phase != Calling then 1 else 0
  }

  /** The call is nested in an earlier call for the same key. */
  predicate Nested(stack: seq<Frame>, i: nat)
    requires i < |stack|
  {
    exists j | 0 <= j < i :: stack[j].key == stack[i].key
  }

  predicate FrameOk(stack: seq<Frame>, i: nat)
    requires i < |stack|
  {
    var f := stack[i];
    && (i < |stack| - 1 ==> f.phase == Inside)
    && (f.acquired ==> f.handle.Some? && f.phase in {Ready, Inside, Closing})
    && (f.phase == Trying ==> f.handle.Some?)
    && (f.handle.Some? ==> f.phase in {Trying, Ready, Inside, Closing})
    && (f.phase in {Ready, Inside} ==> f.acquired || Nested(stack, i))
    && (Nested(stack, i) ==> f.handle == None && !f.acquired && f.phase != Trying)
  }

  predicate StackOk(stack: seq<Frame>)
  {
    forall i | 0 <= i < |stack| :: FrameOk(stack, i)
  }

  ghost predicate DepthsOk(s: State, t: Thread)
  {
    forall k :: Depth(s, t, k) == Bodies(Stack(s, t), k)
  }

  ghost predicate RLocksOk(s: State, t: Thread)
  {
    forall k :: Holds(Stack(s, t), k) > 0 ==> Lock(s, t.pid, k) == Held(t, Holds(Stack(s, t), k))
  }

  /** A frame that took the file lock still has it. */
  ghost predicate HasFile(s: State, t: Thread, f: Frame)
  {
    f.acquired ==> f.handle.Some? && f.key in s.files && s.files[f.key] == Holder(t, f.handle.value)
  }

  ghost predicate FilesOk(s: State, t: Thread)
  {
    forall i | 0 <= i < |Stack(s, t)| :: HasFile(s, t, Stack(s, t)[i])
  }

  /** What one thread's stack says about the shared state. */
  ghost predicate ThreadOk(s: State, t: Thread)
  {
    StackOk(Stack(s, t)) && DepthsOk(s, t) && RLocksOk(s, t) && FilesOk(s, t)
  }

  ghost predicate HolderOk(s: State, k: Key)
    requires k in s.files
  {
    exists i | 0 <= i < |Stack(s, s.files[k].thread)| ::
      Stack(s, s.files[k].thread)[i].acquired && Stack(s, s.files[k].thread)[i].key == k
  }

  ghost predicate LockOk(s: State, pid: nat, k: Key)
  {
    Lock(s, pid, k).Held? ==>
      Lock(s, pid, k).owner.pid == pid && Holds(Stack(s, Lock(s, pid, k).owner), k) > 0
  }

  ghost predicate Inv(s: State)
  {
    && (forall t :: ThreadOk(s, t))
    && (forall k | k in s.files :: HolderOk(s, k))
    && (forall pid, k :: LockOk(s, pid, k))
  }
}
