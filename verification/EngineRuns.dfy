/** The engine's theorems, over every state of every run. */
module EngineRuns {
  import opened Messages
  import opened Rings
  import opened TickSlots
  import opened Engine
  import opened EngineLocks
  import opened EngineDeadlock
  import opened EngineQueue
  import opened EngineTicks
  import EngineTiming
  import EngineCalls
  import EngineVisits
  import EngineOrigins
  import EngineDuplicates
  import opened EnginePaths
  import opened EngineClosing
  import opened EngineNesting
  import opened EngineCreation
  import opened EngineDispatch

  ghost predicate Inv(s: State) {
    && CoreInv(s) && TokenInv(s) && FifoInv(s.log, s.mail.ring)
    && TickInv(s) && ClosingInv(s) && CreationInv(s) && DispatchInv(s) && NestInv(s)
  }

  lemma InvInit(s: State)
    requires Init(s)
    ensures Inv(s)
  {
    hide TickInv, ClosingInv, CreationInv, TokenInv, FifoInv, CoreInv, DispatchInv, NestInv;
    CoreInit(s);
    CoreRing(s);
    TokenInit(s);
    FifoInit(s);
    TickInit(s);
    ClosingInit(s);
    CreationInit(s);
    DispatchInit(s);
    NestInit(s);
  }

  lemma CoreRing(s: State)
    requires CoreInv(s)
    ensures Rings.Valid(s.mail.ring) && |s.table.slots| == NTICKS
    ensures forall t :: t in s.threads ==> ThreadOk(ViewOf(s, t))
  {
  }

  lemma InvStep(s: State, t: Tid, a: Action)
    requires Inv(s) && CanStep(s, t, a)
    ensures Inv(Next(s, t, a))
  {
    hide Do, Enabled, TickInv, ClosingInv, CreationInv, TokenInv, FifoInv, CoreInv, DispatchInv, NestInv, ThreadOk;
    CoreRing(s);
    CoreStep(s, t, a);
    TokenStep(s, t, a);
    FifoStep(ViewOf(s, t), a);
    TickStep(s, t, a);
    ClosingStep(s, t, a);
    CreationStep(s, t, a);
    DispatchKept(s, t, a);
    NestStep(s, t, a);
  }

  /** Every state of every run satisfies the whole invariant. */
  lemma {:induction false} RunInv(states: seq<State>, steps: seq<Step>, i: nat)
    requires IsRun(states, steps) && i < |states|
    ensures Inv(states[i])
  {
    hide Inv, Next, CanStep;
    if i == 0 {
      InvInit(states[0]);
    } else {
      RunInv(states, steps, i - 1);
      InvStep(states[i - 1], steps[i - 1].t, steps[i - 1].a);
    }
  }

  /** Token accounting, in every state of every run. */
  lemma RunTokens(states: seq<State>, steps: seq<Step>, i: nat)
    requires IsRun(states, steps) && i < |states|
    ensures var s := states[i];
      && Rings.Valid(s.mail.ring)
      && s.mail.tokens + |TokenHolders(s.threads)| - (|Contents(s.mail.ring)| + |Announcers(s.threads)|) == s.mail.failed
  {
    RunInv(states, steps, i);
  }

  /** No wake-up is lost: with messages queued, a token is free or in the hands of a consumer that will pop. */
  lemma RunNoLostWakeup(states: seq<State>, steps: seq<Step>, i: nat)
    requires IsRun(states, steps) && i < |states|
    ensures var s := states[i];
      && Rings.Valid(s.mail.ring)
      && (Contents(s.mail.ring) != [] ==> s.mail.tokens > 0 || exists t :: t in s.threads && HasToken(s.threads[t].op))
  {
    RunInv(states, steps, i);
    if Contents(states[i].mail.ring) != [] {
      NoLostWakeup(states[i]);
    }
  }

  predicate WaitFailed(op: Op) {
    op.Popping? && (op.pop.PopLock? || op.pop.PopBody?) && !op.pop.token
  }

  ghost predicate AllWaited(s: State) {
    s.mail.failed == 0 && forall t :: t in s.threads ==> !WaitFailed(s.threads[t].op)
  }

  lemma AllWaitedStep(v: View, a: Action)
    requires Enabled(v, a) && !a.FailWait? && !WaitFailed(v.th.op)
    ensures Do(v, a).mail.failed == v.mail.failed && !WaitFailed(Do(v, a).th.op)
    ensures Do(v, a).me == v.me
  {
    hide Contents, Rings.Valid, Full, BaseStep, PushStep, ScanStep, TableStep, PopStep;
    if a.Proceed? {
      ProceedWaited(v);
    }
  }

  lemma ProceedWaited(v: View)
    requires Enabled(v, Proceed) && !WaitFailed(v.th.op)
    ensures var w := DoProceed(v);
      w.mail.failed == v.mail.failed && !WaitFailed(w.th.op) && w.me == v.me
  {
    hide Contents, Rings.Valid, Full;
  }

  lemma {:induction false} RunAllWaited(states: seq<State>, steps: seq<Step>, i: nat)
    requires IsRun(states, steps) && i < |states|
    requires forall k :: 0 <= k < i ==> !steps[k].a.FailWait?
    ensures AllWaited(states[i])
  {
    hide Do, Enabled, WaitFailed;
    if i == 0 {
      assert forall t :: t in states[0].threads ==> states[0].threads[t].op == Resting;
      assert !WaitFailed(Resting) by {
        RestingWaited();
      }
    } else {
      RunAllWaited(states, steps, i - 1);
      AllWaitedStep(ViewOf(states[i - 1], steps[i - 1].t), steps[i - 1].a);
    }
  }

  lemma RestingWaited()
    ensures !WaitFailed(Resting)
  {
  }

  /** While no wait on sem_event fails, no pop ever finds the queue empty: its second branch is dead code. */
  lemma RunPopFindsMessage(states: seq<State>, steps: seq<Step>, i: nat, t: Tid)
    requires IsRun(states, steps) && i < |states|
    requires forall k :: 0 <= k < i ==> !steps[k].a.FailWait?
    requires t in states[i].threads && states[i].threads[t].op.Popping? && states[i].threads[t].op.pop.PopBody?
    ensures Rings.Valid(states[i].mail.ring) && Contents(states[i].mail.ring) != []
  {
    RunInv(states, steps, i);
    RunAllWaited(states, steps, i);
    PopFindsMessage(states[i], t);
  }

  /** With a single failed wait, a pop may find the queue empty. */
  lemma FailedWaitFindsNothing(s: State, t: Tid) returns (states: seq<State>, steps: seq<Step>)
    requires Init(s) && t in s.threads && s.threads[t].base.Client?
    ensures IsRun(states, steps) && states[0] == s
    ensures steps == [Step(t, Begin(PopCall)), Step(t, FailWait), Step(t, Proceed)]
    ensures t in states[3].threads && states[3].threads[t].op == Popping(PopBody(false))
    ensures Rings.Valid(states[3].mail.ring) && Contents(states[3].mail.ring) == []
  {
    var s1 := Next(s, t, Begin(PopCall));
    var s2 := Next(s1, t, FailWait);
    var s3 := Next(s2, t, Proceed);
    states, steps := [s, s1, s2, s3], [Step(t, Begin(PopCall)), Step(t, FailWait), Step(t, Proceed)];
  }

  /**
   * Popped messages, then queued ones: the accepted pushes in order, blanked only while still queued; and every
   * accepted push is that of a caller's own send or creation, or a tick.
   */
  lemma RunFifo(states: seq<State>, steps: seq<Step>, i: nat)
    requires IsRun(states, steps) && i < |states|
    ensures var s := states[i];
      && Rings.Valid(s.mail.ring)
      && TakenOf(s.log) + Contents(s.mail.ring) == Fates(s.log)
      && |Fates(s.log)| == |AcceptedOf(s.log)|
      && (forall k :: 0 <= k < |Fates(s.log)| ==> BlankOf(AcceptedOf(s.log)[k], Fates(s.log)[k]))
      && ((forall k :: 0 <= k < |s.log| ==> !s.log[k].Erased?) ==>
            TakenOf(s.log) + Contents(s.mail.ring) == AcceptedOf(s.log))
    ensures EngineOrigins.Sourced(states, steps, i)
  {
    hide EngineOrigins.Sourced;
    RunInv(states, steps, i);
    RunCore(states, steps);
    EngineOrigins.RunSourced(states, steps, i);
    FatesMatch(states[i].log);
    if forall k :: 0 <= k < |states[i].log| ==> !states[i].log[k].Erased? {
      FatesWithoutErase(states[i].log);
    }
  }

  /** An engine stuck for another reason than a self-locked sm_destroy_tick waits for messages, and has none. */
  lemma StuckMeansEmpty(s: State, t: Tid)
    requires Inv(s) && !SelfLocked(s) && Stuck(s)
    requires t in s.threads && InCall(s.threads[t])
    ensures forall u :: u in s.threads && InCall(s.threads[u]) ==> WaitsForMessage(s, s.threads[u])
    ensures Contents(s.mail.ring) == [] && s.mail.tokens == 0 && s.mail.failed == 0
  {
    hide Contents;
    DeadlockFree(s);
    assert TokenHolders(s.threads) == {} && Announcers(s.threads) == {} by {
      assert forall u :: u in s.threads ==> !HasToken(s.threads[u].op) && !Announced(s.threads[u].op);
    }
  }

  /** As written, an sm_destroy_tick has taken its critical section. */
  predicate LockedOut(states: seq<State>, steps: seq<Step>, n: nat)
    requires n <= |steps| < |states|
  {
    states[n].table.relocks && exists j :: 0 <= j < n && TakesDrop(states[j], steps[j])
  }

  /** The tick lock is lost exactly when sm_destroy_tick, as written, has been through its critical section. */
  lemma {:induction false} RunSelfLockIff(states: seq<State>, steps: seq<Step>, n: nat)
    requires IsRun(states, steps) && n < |states|
    ensures SelfLocked(states[n]) <==> LockedOut(states, steps, n)
  {
    hide Inv, Next, CanStep, SelfLocked, TakesDrop;
    RunRelocks(states, steps, n);
    if n == 0 {
      assert !SelfLocked(states[0]) by {
        InitUnlocked(states[0]);
      }
    } else {
      RunSelfLockIff(states, steps, n - 1);
      RunRelocks(states, steps, n - 1);
      RunInv(states, steps, n - 1);
      InvParts(states[n - 1]);
      if states[n].table.relocks {
        SelfLockStep(states[n - 1], steps[n - 1].t, steps[n - 1].a);
      } else {
        NeverSelfLocked(states[n]);
      }
    }
  }

  lemma InitUnlocked(s: State)
    requires Init(s)
    ensures !SelfLocked(s)
  {
  }

  lemma NeverSelfLocked(s: State)
    requires !s.table.relocks
    ensures !SelfLocked(s)
  {
  }

  /**
   * Every state of every run, for either text of sm_destroy_tick: the engine is stuck exactly when all that is in
   * progress is consumers without a token and, once that text has lost the tick lock, threads that want it.
   */
  lemma RunStuckIff(states: seq<State>, steps: seq<Step>, n: nat)
    requires IsRun(states, steps) && n < |states|
    ensures var s := states[n];
      Stuck(s) <==> forall t :: t in s.threads && InCall(s.threads[t]) ==>
        WaitsForMessage(s, s.threads[t]) || (LockedOut(states, steps, n) && WaitsForTick(s, s.threads[t]))
  {
    hide Inv, Next, CanStep, SelfLocked, Stuck, LockedOut;
    RunInv(states, steps, n);
    InvParts(states[n]);
    RunSelfLockIff(states, steps, n);
    StuckIff(states[n]);
  }

  /**
   * Deadlock freedom: in every state of every run, if anything is in progress then some thread can go on,
   * unless every call in progress is a consumer and the queue is empty. With sm_destroy_tick as written, this is
   * promised to programs that never call it; RunSelfLockIff says what the first call does.
   */
  lemma RunDeadlockFree(states: seq<State>, steps: seq<Step>, i: nat, t: Tid)
    requires IsRun(states, steps) && i < |states|
    requires states[i].table.relocks ==> forall j :: 0 <= j < i ==> !CallsDrop(steps[j].a)
    requires t in states[i].threads && InCall(states[i].threads[t])
    ensures var s := states[i];
      || (exists u :: u in s.threads && Moves(ViewOf(s, u)))
      || (s.mail.tokens == 0 && Rings.Valid(s.mail.ring) && Contents(s.mail.ring) == []
          && forall u :: u in s.threads && InCall(s.threads[u]) ==> s.threads[u].op == Popping(PopWait))
  {
    RunInv(states, steps, i);
    var s := states[i];
    assert !SelfLocked(s) by {
      if s.table.relocks {
        RunNoDrops(states, steps, i);
      }
    }
    if Stuck(s) {
      StuckMeansEmpty(s, t);
      assert forall u :: u in s.threads && InCall(s.threads[u]) ==> WaitsForMessage(s, s.threads[u]);
    } else {
      var u :| u in s.threads && Moves(ViewOf(s, u));
    }
  }

  /** As written, the first sm_destroy_tick to get through its critical section keeps the lock, and hangs, for ever. */
  lemma {:induction false} RunSelfLocked(states: seq<State>, steps: seq<Step>, i: nat, j: nat)
    requires IsRun(states, steps) && i <= j < |states| && SelfLocked(states[i])
    ensures SelfLocked(states[j]) && states[j].locks.tick == states[i].locks.tick
    ensures var holder := states[i].locks.tick.value;
      holder in states[j].threads && InCall(states[j].threads[holder]) && !Moves(ViewOf(states[j], holder))
  {
    hide Inv, Next, CanStep, SelfLocked, Moves, InCall;
    HolderHangs(states[i]);
    if i < j {
      RunSelfLocked(states, steps, i, j - 1);
      RunInv(states, steps, j - 1);
      assert CoreInv(states[j - 1]) by {
        InvParts(states[j - 1]);
      }
      SelfLockedForever(states[j - 1], steps[j - 1].t, steps[j - 1].a);
      HolderHangs(states[j]);
    }
  }

  lemma HolderHangs(s: State)
    requires SelfLocked(s)
    ensures var holder := s.locks.tick.value;
      holder in s.threads && InCall(s.threads[holder]) && !Moves(ViewOf(s, holder))
  {
  }

  lemma InvParts(s: State)
    requires Inv(s)
    ensures CoreInv(s) && TickInv(s)
  {
  }

  /** No tick is ever queued twice while only the ticker sends ticks and slots carry no param2. */
  lemma RunTicksDistinct(states: seq<State>, steps: seq<Step>, i: nat)
    requires IsRun(states, steps) && i < |states| && states[i].table.plain
    ensures Rings.Valid(states[i].mail.ring) && TicksDistinct(Contents(states[i].mail.ring))
  {
    RunInv(states, steps, i);
  }

  /** The calls of the run send no SMM_TICK, and set ticks for threshold n with param2 p only. */
  predicate OnlySets(steps: seq<Step>, n: u32, p: u32) {
    forall j :: 0 <= j < |steps| && steps[j].a.Begin? ==>
      && (steps[j].a.call.Send? ==> !IsTick(steps[j].a.call.m))
      && (steps[j].a.call.TickOp? && steps[j].a.call.call.SetTick? ==>
            steps[j].a.call.call.n100msec == n && steps[j].a.call.call.param2 == p)
  }

  /**
   * No run queues a tick twice exactly when the slots' param2 is 0 or the one count at which their threshold is
   * reached; by AgreesIff that count is the period, for every threshold reached on time.
   */
  lemma TicksDistinctIff(s0: State, t: Tid, n: u32, p: u32)
    requires Init(s0) && t in s0.threads && s0.threads[t].base.Client?
    requires |s0.mail.ring.slots| >= 3 && n >= 1
    ensures (forall states, steps, s :: Reaches(s0, states, steps, s) && OnlySets(steps, n, p) ==>
               Rings.Valid(s.mail.ring) && TicksDistinct(Contents(s.mail.ring)))
       <==> Agrees(n, p)
  {
    hide Init, Contents, TicksDistinct;
    if Agrees(n, p) {
      forall states, steps, s | Reaches(s0, states, steps, s) && OnlySets(steps, n, p)
        ensures Rings.Valid(s.mail.ring) && TicksDistinct(Contents(s.mail.ring))
      {
        PlainRunDistinct(s0, states, steps, s, n, p);
      }
    } else {
      var k: u32 :| FirstDue(n, k) && k != p;
      var states, steps, s := EngineDuplicates.TickDuplicates(s0, t, 1, n, p, k);
      assert OnlySets(steps, n, p) by {
        assert forall j :: 1 <= j < |steps| ==> steps[j].a.Proceed?;
      }
    }
  }

  lemma PlainRunDistinct(s0: State, states: seq<State>, steps: seq<Step>, s: State, n: u32, p: u32)
    requires Reaches(s0, states, steps, s) && OnlySets(steps, n, p) && Agrees(n, p)
    ensures Rings.Valid(s.mail.ring) && TicksDistinct(Contents(s.mail.ring))
  {
    hide Init, Contents, TicksDistinct, Agrees, CanStep, Next;
    EngineDuplicates.RunPlain(states, steps, |steps|);
    RunTicksDistinct(states, steps, |steps|);
  }

  /** A slot only ever set for a window with one nonzero period has at most one tick of it in the queue. */
  lemma RunOneTickPending(states: seq<State>, steps: seq<Step>, i: nat, slot: nat, h: u32, n: u32, x: nat, y: nat)
    requires IsRun(states, steps) && i < |states| && states[i].table.plain && n >= 1
    requires forall n' :: TickSet(slot, h, n') in states[i].log ==> n' == n
    requires Rings.Valid(states[i].mail.ring) && x < y < |Contents(states[i].mail.ring)|
    ensures var q := Contents(states[i].mail.ring);
      !(TickOf(q[x], h, slot) && TickOf(q[y], h, slot))
  {
    hide Inv, TickInv, CoreInv, Contents, IsRun;
    RunInv(states, steps, i);
    InvParts(states[i]);
    AtMostOnePending(states[i], slot, h, n, x, y);
  }

  lemma RunCore(states: seq<State>, steps: seq<Step>)
    requires IsRun(states, steps)
    ensures Throughout(states)
  {
    hide Inv, CoreInv, Next, CanStep;
    forall j | 0 <= j < |states|
      ensures CoreInv(states[j])
    {
      RunInv(states, steps, j);
      InvParts(states[j]);
    }
  }

  /**
   * Tick timing in closed form, in every run: a tick set at step i for a window, and not destroyed since, has
   * after t visits of the ticker the count (t-1) mod c + 1 and has been due (t-1) div c times, for c the period
   * in rounds, whatever the other threads did in between. A due visit still in progress counts as one more, and
   * sees c in the counter.
   */
  lemma RunTickTiming(states: seq<State>, steps: seq<Step>, i: nat, n: nat, k: nat)
    requires IsRun(states, steps) && i < n < |states|
    requires steps[i].t in states[i].threads && EngineTiming.Sets(ViewOf(states[i], steps[i].t), steps[i].a, k)
    requires EngineTiming.NotDropped(states, steps, i + 1, n, k)
    requires states[i].threads[steps[i].t].op.work.call.hsm != SK_INVALID_HSM
    requires 1 <= states[i].threads[steps[i].t].op.work.call.n100msec <= 4294967200
    requires EngineTiming.Visits(states, i + 1, n, k) >= 1
    ensures var call := states[i].threads[steps[i].t].op.work.call;
      var t, c := EngineTiming.Visits(states, i + 1, n, k), Period(call.n100msec);
      && c >= 1 && |states[n].table.slots| == NTICKS
      && states[n].table.slots[k] == TickSlot(call.hsm, call.n100msec, (t - 1) % c + 1, call.param2, call.sysflag)
      && EngineTiming.Fired(states, i + 1, n, k)
           == (t - 1) / c + (if EngineTiming.Busy(EngineTiming.PhaseOf(states[n]), k) then 1 else 0)
      && (EngineTiming.Busy(EngineTiming.PhaseOf(states[n]), k) ==> states[n].table.slots[k].count == c)
  {
    hide Inv, CoreInv, Next, CanStep, Period;
    assert CanStep(states[i], steps[i].t, steps[i].a) && states[i + 1] == Next(states[i], steps[i].t, steps[i].a);
    RunCore(states, steps);
    EngineTiming.SetStarts(states[i], steps[i].t, steps[i].a, k);
    EngineTiming.TrackRun(states, steps, i + 1, n, k);
    var start := states[i + 1].table.slots[k];
    PeriodPositive(start.n100msec);
    TickTiming(start, EngineTiming.Visits(states, i + 1, n, k));
    FiringSeesPeriod(start, EngineTiming.Visits(states, i + 1, n, k));
  }

  /**
   * Every event of every run is in order: handlers start exactly for live windows, messages are passed over
   * exactly when blank or for a window that is not live, an SMM_CLOSE is finished only after its window has
   * been unlinked and then purged, and a second unlinking comes only after a nested SMM_CLOSE.
   */
  lemma RunEvents(states: seq<State>, steps: seq<Step>, n: nat, i: nat)
    requires IsRun(states, steps) && n < |states| && i < |states[n].log|
    ensures EventOk(states[n].log[..i], states[n].log[i])
    ensures forall h :: h in states[n].desk.windows <==> LiveIn(states[n].log, h)
    ensures EngineOrigins.Expressed(states, steps, n)
    ensures EngineOrigins.BracketsInv(states[n])
  {
    hide EngineOrigins.Expressed, EngineOrigins.BracketsInv;
    RunInv(states, steps, n);
    RunCore(states, steps);
    EngineOrigins.RunExpressed(states, steps, n);
    EngineOrigins.RunBracketed(states, steps, n);
  }

  /**
   * express_message: for a live window its handler is started at once, with exactly that message, on top of the
   * activations there are; otherwise nothing happens.
   */
  lemma RunExpress(states: seq<State>, steps: seq<Step>, i: nat, m: Message)
    requires IsRun(states, steps) && i < |steps| && steps[i].a == Express(m)
    ensures if m.hsm != 0 && LiveIn(states[i].log, m.hsm) then
              && states[i].log < states[i + 1].log && Last(states[i + 1].log) == Started(m, false)
              && EngineOrigins.Activations(EngineOrigins.StackOf(states[i + 1]))
                   == EngineOrigins.Activations(EngineOrigins.StackOf(states[i])) + [EngineOrigins.Activation(m.hsm, m.message)]
            else states[i + 1].log == states[i].log && EngineOrigins.StackOf(states[i + 1]) == EngineOrigins.StackOf(states[i])
  {
    hide Init, CanStep, Next, Inv, LiveIn, ClosedOk, Throughout;
    RunInv(states, steps, i);
    RunCore(states, steps);
    ClosedPart(states[i]);
    EngineOrigins.ExpressStarts(states, steps, i, m);
  }

  lemma ClosedPart(s: State)
    requires Inv(s)
    ensures ClosedOk(s.desk, s.log)
    ensures forall h :: h in s.desk.windows ==> h in s.desk.known
  {
  }

  /**
   * Every call but a creation, from its beginning to its return: exactly one of the caller's steps has the call's
   * effect on queue, windows, slots and log, and the others touch none of these.
   */
  lemma RunCall(states: seq<State>, steps: seq<Step>, i: nat, n: nat, t: Tid, call: Call)
    requires IsRun(states, steps) && !call.Create? && EngineCalls.Calls(states, steps, i, n, t, call)
    ensures if EngineCalls.Idle(call) || call == QueryCall(OfHandle(0)) then EngineCalls.SilentBut(states, steps, i, n, t, -1)
            else EngineCalls.Once(states, steps, i, n, t, call)
  {
    hide Init, CanStep, Next, Throughout, EngineCalls.Once, EngineCalls.SilentBut;
    RunCore(states, steps);
    EngineCalls.CallTakesEffect(states, steps, i, n, t, call);
  }

  /** A creation, from its beginning to its return: no memory and no effect, or the list first and then the push. */
  lemma RunCreation(states: seq<State>, steps: seq<Step>, i: nat, n: nat, t: Tid)
    requires IsRun(states, steps) && EngineCalls.Calls(states, steps, i, n, t, Create)
    ensures (EngineCalls.Failed(states, steps, i, n, t) && EngineCalls.SilentBut(states, steps, i, n, t, -1))
         || exists c: nat :: EngineCalls.Made(states, steps, i, c, n, t)
              && EngineCalls.Once(states, steps, c + 1, n, t, Send(Message(steps[c].a.hsm, 1, 0, 0)))
  {
    hide Init, CanStep, Next, Throughout, Inv, EngineCalls.Once, EngineCalls.SilentBut, EngineCalls.Failed;
    RunCore(states, steps);
    forall j, h | 0 <= j < |states| && h in states[j].desk.windows
      ensures h in states[j].desk.known
    {
      RunInv(states, steps, j);
      ClosedPart(states[j]);
    }
    EngineCalls.CreationTakesEffect(states, steps, i, n, t);
    if !(EngineCalls.Failed(states, steps, i, n, t) && EngineCalls.SilentBut(states, steps, i, n, t, -1)) {
      var c: nat :| EngineCalls.Made(states, steps, i, c, n, t)
        && EngineCalls.Once(states, steps, c + 1, n, t, Send(EngineCalls.CreationMessage(steps[c].a.hsm)));
    }
  }

  /** A visit that finds a slot due sends that slot's tick exactly once, or finds it queued and sends nothing. */
  lemma RunVisit(states: seq<State>, steps: seq<Step>, i: nat, n: nat, k: nat)
    requires IsRun(states, steps) && EngineVisits.IsVisit(states, i, n, k)
    ensures k < |states[i].table.slots| && EngineVisits.Decided(states, steps, i, n, states[i].table.slots[k], k)
  {
    hide Init, CanStep, Next, Throughout, EngineVisits.Decided;
    RunCore(states, steps);
    EngineVisits.VisitDecides(states, steps, i, n, k);
  }

  /** From waking up to the end of the round, the ticker visits each of the 32 slots exactly once. */
  lemma RunRound(states: seq<State>, steps: seq<Step>, i: nat, n: nat, k: nat)
    requires IsRun(states, steps) && i < n < |states| && k < 32
    requires EngineTiming.PhaseOf(states[i]) == Waking && EngineTiming.PhaseOf(states[n]) == Sleeping
    requires forall x :: i <= x < n ==> !EngineTiming.PhaseOf(states[x]).Sleeping?
    ensures EngineTiming.Visits(states, i, n, k) == 1
  {
    hide Init, CanStep, Next, Throughout;
    RunCore(states, steps);
    EngineVisits.RoundVisitsAll(states, steps, i, n, k);
  }

  /** A destroyed tick's slot stays free, is never found due, and sends nothing, until the slot is set again. */
  lemma RunDestroyedTick(states: seq<State>, steps: seq<Step>, i: nat, n: nat, k: nat)
    requires IsRun(states, steps) && i < n < |steps| && k < 32 && EngineVisits.DropsSlot(states[i], steps[i], k)
    requires forall j :: i < j < n ==> !EngineVisits.SetsSlot(states[j], states[j + 1], k)
    ensures |states[n].table.slots| == 32 && states[n].table.slots[k].hsm == 0
    ensures !EngineTiming.Fires(states[n], states[n + 1], k)
    ensures !EngineVisits.TicksOut(states[n], states[n + 1], steps[n], k)
  {
    hide Init, CanStep, Next, Throughout, EngineVisits.TicksOut, EngineVisits.DropsSlot, EngineVisits.SetsSlot;
    RunCore(states, steps);
    EngineVisits.DestroyedTickSilent(states, steps, i, n, k);
  }

  /**
   * Once no SMM_CLOSE activation of a window is left on the dispatcher's stack: its node has been unlinked a
   * second time exactly if an SMM_CLOSE was run for it from inside its own SMM_CLOSE handler.
   */
  lemma RunUnlinkedTwiceIff(states: seq<State>, steps: seq<Step>, n: nat, h: u32)
    requires IsRun(states, steps) && n < |states|
    requires DISPATCHER in states[n].threads && states[n].threads[DISPATCHER].base.Dispatcher?
    requires var stack := states[n].threads[DISPATCHER].base.stack;
      forall k :: 0 <= k < |stack| ==> !HandlesClose(stack[k], h)
    ensures BadUnlink(h) in states[n].log <==> Nested(h) in states[n].log
  {
    RunInv(states, steps, n);
    UnlinkedTwiceIff(states[n], h);
  }

  /** Once a window's SMM_CLOSE has been run, no handler starts for it in the rest of the run. */
  lemma RunNoStartAfterClose(states: seq<State>, steps: seq<Step>, n: nat, i: nat, j: nat, h: u32)
    requires IsRun(states, steps) && n < |states|
    requires i < j < |states[n].log| && Closes(states[n].log[i], h)
    ensures states[n].log[j].Started? ==> states[n].log[j].m.hsm != h
    ensures h !in states[n].desk.windows
  {
    RunInv(states, steps, n);
    NoStartAfterClose(states[n], i, j, h);
  }

  /**
   * While only the dispatcher pops: the messages it has handled, the one in its hand and the ones queued are
   * the accepted pushes, each once, in order, blanked only while queued.
   */
  lemma RunDispatch(states: seq<State>, steps: seq<Step>, n: nat)
    requires IsRun(states, steps) && n < |states| && DISPATCHER in states[n].threads
    requires forall i :: 0 <= i < |states[n].log| && states[n].log[i].Taken? ==> states[n].log[i].loop
    ensures var s := states[n];
      && Rings.Valid(s.mail.ring) && |InHand(s.threads[DISPATCHER])| <= 1
      && var all := Handled(s.log) + InHand(s.threads[DISPATCHER]) + Contents(s.mail.ring);
      && |all| == |AcceptedOf(s.log)|
      && (forall k :: 0 <= k < |all| ==> BlankOf(AcceptedOf(s.log)[k], all[k]))
  {
    hide Contents, InHand;
    RunInv(states, steps, n);
    Dispatches(states[n]);
    FatesMatch(states[n].log);
  }

  /** A window's creation, if its push was accepted, is the first message addressed to it. */
  lemma RunCreateFirst(states: seq<State>, steps: seq<Step>, n: nat, h: u32) returns (p: nat)
    requires IsRun(states, steps) && n < |states|
    requires Created(h) in states[n].log && FirstOutcome(states[n].log, h).Some?
    ensures FirstOutcome(states[n].log, h) == Some(Refused(CreateMessage(h))) ||
      (&& p < |AcceptedOf(states[n].log)| && AcceptedOf(states[n].log)[p] == CreateMessage(h)
       && (forall k :: 0 <= k < p ==> AcceptedOf(states[n].log)[k].hsm != h)
       && (forall j :: 0 <= j < |TakenOf(states[n].log)| && TakenOf(states[n].log)[j].hsm == h ==>
             p <= j && BlankOf(CreateMessage(h), TakenOf(states[n].log)[p])))
  {
    hide FirstOutcome;
    RunInv(states, steps, n);
    p := 0;
    if FirstOutcome(states[n].log, h).value.Accepted? {
      p := CreateComesFirst(states[n], h);
    }
  }
}
