/** When the engine is stuck, for sm_destroy_tick both as written and as evidently meant. */
module EngineDeadlock {
  import opened Messages
  import opened Rings
  import opened TickSlots
  import opened Engine
  import opened EngineLocks

  /** The thread has something in progress: a library call, a tick round, a message being dispatched. */
  predicate InCall(th: Thread) {
    || !th.op.Resting?
    || match th.base
       case Client => false
       case Ticker(phase) => !phase.Sleeping?
       case Dispatcher(stack, got) => stack != [] || got.Some?
  }

  /** The thread can go on with what it has in progress; user code may return, malloc may fail. */
  predicate Moves(v: View) {
    && InCall(v.th)
    && (Enabled(v, Proceed) || Enabled(v, Return) || Enabled(v, Allocate(SK_INVALID_HSM)))
  }

  ghost predicate Stuck(s: State) {
    forall t :: t in s.threads ==> !Moves(ViewOf(s, t))
  }

  /** At the last statement of sm_destroy_tick, in the text that locks instead of unlocking. */
  predicate AtRelock(op: Op, relocks: bool) {
    relocks && op.Tabling? && op.work.TickRelease? && op.work.call.DropTick?
  }

  /** Some sm_destroy_tick waits for the very lock it holds. */
  predicate SelfLocked(s: State) {
    s.locks.tick.Some? && s.locks.tick.value in s.threads && AtRelock(s.threads[s.locks.tick.value].op, s.table.relocks)
  }

  predicate WaitsForMessage(s: State, th: Thread) {
    th.op == Popping(PopWait) && s.mail.tokens == 0
  }

  predicate WaitsForTick(s: State, th: Thread) {
    || (th.op.Tabling? && th.op.work.TickLock?)
    || th == Thread(Resting, Ticker(Waking))
    || AtRelock(th.op, s.table.relocks)
  }

  predicate WantsAccess(th: Thread) {
    match th.op
    case Pushing(p) => p.PushLock?
    case Popping(p) => p.PopLock?
    case Scanning(p) => p.EraseLock? || p.QueryLock?
    case _ => false
  }

  predicate WantsSystem(th: Thread) {
    match th.op
    case Pushing(p) => p.SendLock? || p.CreateLock?
    case Tabling(p) => p.DestroyLock?
    case _ => false
  }

  predicate HeldByOther(holder: Option<Tid>, t: Tid) {
    holder.Some? && holder.value != t
  }

  /**
   * What is in progress can go on except in four places: at a lock that another thread holds, at sem_event without
   * a token, and at the second lock of sm_destroy_tick as written, which the thread holds itself.
   */
  lemma BlockedIff(s: State, t: Tid)
    requires CoreInv(s) && t in s.threads && InCall(s.threads[t])
    ensures var th := s.threads[t];
      !Moves(ViewOf(s, t)) <==>
        || WaitsForMessage(s, th)
        || (WantsAccess(th) && HeldByOther(s.locks.access, t))
        || (WantsSystem(th) && HeldByOther(s.locks.system, t))
        || (WaitsForTick(s, th) && (HeldByOther(s.locks.tick, t) || AtRelock(th.op, s.table.relocks)))
  {
    assert ThreadOk(ViewOf(s, t));
  }

  /** The holder of the queue lock can always go on. */
  lemma AccessHolderMoves(s: State)
    requires CoreInv(s) && s.locks.access.Some?
    ensures Moves(ViewOf(s, s.locks.access.value))
  {
    assert ThreadOk(ViewOf(s, s.locks.access.value));
  }

  /** The holder of the system lock waits for the queue lock at most. */
  lemma SystemHolderMoves(s: State)
    requires CoreInv(s) && s.locks.system.Some? && s.locks.access.None?
    ensures Moves(ViewOf(s, s.locks.system.value))
  {
    assert ThreadOk(ViewOf(s, s.locks.system.value));
  }

  /** The holder of the tick lock waits for the other two at most, unless it relocks. */
  lemma TickHolderMoves(s: State)
    requires CoreInv(s) && s.locks.tick.Some? && s.locks.system.None? && s.locks.access.None?
    ensures SelfLocked(s) || Moves(ViewOf(s, s.locks.tick.value))
  {
    assert ThreadOk(ViewOf(s, s.locks.tick.value));
  }

  lemma StuckHoldsNothing(s: State)
    requires CoreInv(s) && Stuck(s)
    ensures s.locks.access.None? && s.locks.system.None?
    ensures s.locks.tick.Some? ==> SelfLocked(s)
  {
    if s.locks.access.Some? {
      AccessHolderMoves(s);
    } else if s.locks.system.Some? {
      SystemHolderMoves(s);
    } else if s.locks.tick.Some? {
      TickHolderMoves(s);
    }
  }

  /**
   * The engine is stuck exactly when everything in progress is a consumer with no token to take or,
   * behind a self-locked sm_destroy_tick, a thread that wants the tick lock.
   */
  lemma StuckIff(s: State)
    requires CoreInv(s)
    ensures Stuck(s) <==>
      forall t :: t in s.threads && InCall(s.threads[t]) ==>
        WaitsForMessage(s, s.threads[t]) || (SelfLocked(s) && WaitsForTick(s, s.threads[t]))
  {
    if Stuck(s) {
      StuckHoldsNothing(s);
      forall t | t in s.threads && InCall(s.threads[t])
        ensures WaitsForMessage(s, s.threads[t]) || (SelfLocked(s) && WaitsForTick(s, s.threads[t]))
      {
        assert ThreadOk(ViewOf(s, t));
        assert !Moves(ViewOf(s, t));
      }
    }
  }

  /** For either text: unless an sm_destroy_tick has locked itself out, only waiting for a message stops the engine. */
  lemma DeadlockFree(s: State)
    requires CoreInv(s) && !SelfLocked(s) && Stuck(s)
    ensures forall t :: t in s.threads && InCall(s.threads[t]) ==> WaitsForMessage(s, s.threads[t])
  {
    StuckIff(s);
  }

  /** As written, the lock is lost for good: no step of any thread ever ends the self-lock. */
  lemma SelfLockedForever(s: State, t: Tid, a: Action)
    requires CoreInv(s) && SelfLocked(s) && CanStep(s, t, a)
    ensures SelfLocked(Next(s, t, a)) && Next(s, t, a).locks.tick == s.locks.tick
  {
    var u := s.locks.tick.value;
    assert ThreadOk(ViewOf(s, u));
    assert ThreadOk(ViewOf(s, t));
    OrderlyDo(ViewOf(s, t), a);
  }

  /** As written, any client that destroys a tick locks itself out in three steps from the start. */
  lemma DestroyTickLocks(s: State, t: Tid, htick: s32) returns (states: seq<State>, steps: seq<Step>)
    requires Init(s) && s.table.relocks && t in s.threads && s.threads[t].base.Client?
    ensures IsRun(states, steps) && states[0] == s && SelfLocked(Last(states))
  {
    hide Contents, Full, DropSlot;
    var call := DropTick(htick);
    var a := Begin(TickOp(call));
    var s1 := Next(s, t, a);
    var s2 := Next(s1, t, Proceed);
    var s3 := Next(s2, t, Proceed);
    states, steps := [s, s1, s2, s3], [Step(t, a), Step(t, Proceed), Step(t, Proceed)];
  }

  lemma RelocksStays(v: View, a: Action)
    requires Enabled(v, a)
    ensures Do(v, a).table.relocks == v.table.relocks
  {
    hide Contents, Full, Rings.Valid;
  }

  lemma {:induction false} RunRelocks(states: seq<State>, steps: seq<Step>, n: nat)
    requires IsRun(states, steps) && n < |states|
    ensures states[n].table.relocks == states[0].table.relocks
  {
    hide Do, Enabled;
    if n > 0 {
      RunRelocks(states, steps, n - 1);
      RelocksStays(ViewOf(states[n - 1], steps[n - 1].t), steps[n - 1].a);
    }
  }

  /** The critical section of sm_destroy_tick. */
  predicate TakesDrop(s: State, step: Step) {
    && step.a.Proceed? && step.t in s.threads
    && Drops(s.threads[step.t].op) && s.threads[step.t].op.work.TickBody?
  }

  /** Inside sm_destroy_tick. */
  predicate Drops(op: Op) {
    op.Tabling? && (op.work.TickLock? || op.work.TickBody? || op.work.TickRelease?) && op.work.call.DropTick?
  }

  /** A call of sm_destroy_tick. */
  predicate CallsDrop(a: Action) {
    a.Begin? && a.call.TickOp? && a.call.call.DropTick?
  }

  /** As written, the critical section of sm_destroy_tick is what locks the thread out, and nothing else does. */
  lemma SelfLockStep(s: State, t: Tid, a: Action)
    requires CoreInv(s) && CanStep(s, t, a) && s.table.relocks
    ensures SelfLocked(Next(s, t, a)) <==> SelfLocked(s) || TakesDrop(s, Step(t, a))
  {
    if SelfLocked(s) {
      SelfLockedForever(s, t, a);
    } else {
      SelfLockStarts(s, t, a);
    }
  }

  lemma SelfLockStarts(s: State, t: Tid, a: Action)
    requires CoreInv(s) && CanStep(s, t, a) && s.table.relocks && !SelfLocked(s)
    ensures SelfLocked(Next(s, t, a)) <==> TakesDrop(s, Step(t, a))
  {
    hide Do, Enabled, ThreadOk;
    var v := ViewOf(s, t);
    assert ThreadOk(v);
    OrderlyDo(v, a);
    RelockHolds(v);
    RelockReached(v, a);
    assert LockMove(s.locks.tick, Do(v, a).locks.tick, t) && Do(v, a).table.relocks;
  }

  lemma RelockHolds(v: View)
    requires WellFormed(v) && ThreadOk(v)
    ensures AtRelock(v.th.op, true) ==> v.locks.tick == Some(v.me)
  {
  }

  /** The thread comes to the second lock from its critical section only, holding the lock. */
  lemma RelockReached(v: View, a: Action)
    requires WellFormed(v) && ThreadOk(v) && Enabled(v, a) && v.table.relocks
    requires AtRelock(v.th.op, true) ==> v.locks.tick == Some(v.me)
    ensures var w := Do(v, a);
      && (a.Proceed? && Drops(v.th.op) && v.th.op.work.TickBody? ==>
            AtRelock(w.th.op, true) && w.locks.tick == Some(v.me))
      && (AtRelock(w.th.op, true) ==> a.Proceed? && Drops(v.th.op) && v.th.op.work.TickBody?)
  {
    hide Contents, Full, Rings.Valid, Mark, FirstFree, DropSlot;
  }

  /** Whoever never calls sm_destroy_tick is never inside it. */
  lemma NoDropStep(v: View, a: Action)
    requires Enabled(v, a) && !Drops(v.th.op) && !CallsDrop(a)
    ensures !Drops(Do(v, a).th.op) && Do(v, a).me == v.me
  {
    hide Contents, Full, Rings.Valid, Mark, DoProceed;
    if a.Proceed? {
      NoDropProceeds(v);
    }
  }

  lemma NoDropProceeds(v: View)
    requires Enabled(v, Proceed) && !Drops(v.th.op)
    ensures !Drops(DoProceed(v).th.op) && DoProceed(v).me == v.me
  {
    hide Contents, Full, Rings.Valid, FirstFree, DropSlot, Store, Publish, Discard, EraseSlots;
  }

  ghost predicate NoDrops(s: State) {
    forall t :: t in s.threads ==> !Drops(s.threads[t].op)
  }

  lemma {:induction false} RunNoDrops(states: seq<State>, steps: seq<Step>, n: nat)
    requires IsRun(states, steps) && n < |states|
    requires forall j :: 0 <= j < n ==> !CallsDrop(steps[j].a)
    ensures NoDrops(states[n])
  {
    hide Do, Enabled, Drops, CallsDrop;
    if n == 0 {
      assert !Drops(Resting) by {
        RestingDrops();
      }
    } else {
      RunNoDrops(states, steps, n - 1);
      NoDropStep(ViewOf(states[n - 1], steps[n - 1].t), steps[n - 1].a);
    }
  }

  lemma RestingDrops()
    ensures !Drops(Resting)
  {
  }

  /** User code is free: it may make any call; a handler may also express anything, to any depth, or return. */
  lemma UserCodeIsFree(v: View, call: Call, m: Message)
    requires WellFormed(v) && UserCode(v.th)
    ensures Enabled(v, Begin(call)) && (v.th.base.Dispatcher? ==> Enabled(v, Express(m)) && Enabled(v, Return))
  {
  }

  /** So is the environment: memory may be refused or any unnamed address given, and a wait on sem_event may fail. */
  lemma EnvironmentIsFree(v: View, h: u32)
    requires WellFormed(v)
    ensures v.th.op == Pushing(CreateBody) && (h == 0 || h !in v.desk.known) ==> Enabled(v, Allocate(h))
    ensures v.th.op == Popping(PopWait) ==> Enabled(v, FailWait)
  {
  }

  /** Library code never calls into user code while holding a lock. */
  lemma UserCodeHoldsNothing(s: State, t: Tid)
    requires CoreInv(s) && t in s.threads && UserCode(s.threads[t])
    ensures s.locks.access != Some(t) && s.locks.system != Some(t) && s.locks.tick != Some(t)
  {
    assert ThreadOk(ViewOf(s, t));
  }
}
