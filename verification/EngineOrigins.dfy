/** Where what is in the log comes from: every push from its call, every activation from its message. */
module EngineOrigins {
  import opened Messages
  import opened Rings
  import opened TickSlots
  import opened WindowLists
  import opened Engine
  import opened EngineLocks
  import opened EngineCalls
  import opened EngineClosing
  import opened EngineTiming
  import opened EngineVisits

  // ---------- pushes ----------

  /** The thread has been inside a call ever since step i. */
  predicate BusySince(states: seq<State>, i: nat, n: nat, t: Tid) {
    n < |states| && forall k :: i < k <= n ==> t in states[k].threads && !states[k].threads[t].op.Resting?
  }

  /** The call that the thread is inside of began at step i. */
  predicate BegunAt(states: seq<State>, steps: seq<Step>, i: nat, n: nat, t: Tid, call: Call) {
    i < n <= |steps| && steps[i] == Step(t, Begin(call)) && BusySince(states, i, n, t)
  }

  /** The message is that of the thread's own send_message, or the first of the window it is creating. */
  ghost predicate SentBy(states: seq<State>, steps: seq<Step>, n: nat, t: Tid, m: Message) {
    || (exists i: nat :: BegunAt(states, steps, i, n, t, Send(m)))
    || (exists i: nat, c: nat :: BegunAt(states, steps, i, n, t, Create) && i < c < n <= |steps|
          && steps[c] == Step(t, Allocate(m.hsm)) && m == Message(m.hsm, 1, 0, 0))
  }

  ghost predicate CreatedBy(states: seq<State>, steps: seq<Step>, n: nat, t: Tid) {
    exists i: nat :: BegunAt(states, steps, i, n, t, Create)
  }

  /** Every push under way outside the ticker comes from its thread's call. */
  ghost predicate Origin(states: seq<State>, steps: seq<Step>, n: nat, t: Tid)
    requires n < |states| && t in states[n].threads
  {
    var op := states[n].threads[t].op;
    && (forall m :: Pushes(op, m) ==> SentBy(states, steps, n, t, m) && (op.push.SendLock? || m.hsm != 0))
    && (Unmade(op) ==> CreatedBy(states, steps, n, t))
  }

  lemma OriginLater(states: seq<State>, steps: seq<Step>, n: nat, t: Tid)
    requires n < |steps| < |states| && t in states[n + 1].threads && !states[n + 1].threads[t].op.Resting?
    ensures forall m :: SentBy(states, steps, n, t, m) ==> SentBy(states, steps, n + 1, t, m)
    ensures CreatedBy(states, steps, n, t) ==> CreatedBy(states, steps, n + 1, t)
    ensures forall i, call :: BegunAt(states, steps, i, n, t, call) ==> BegunAt(states, steps, i, n + 1, t, call)
  {
    forall i, call | BegunAt(states, steps, i, n, t, call)
      ensures BegunAt(states, steps, i, n + 1, t, call)
    {
    }
    forall m | SentBy(states, steps, n, t, m)
      ensures SentBy(states, steps, n + 1, t, m)
    {
      if i: nat :| BegunAt(states, steps, i, n, t, Send(m)) {
        assert BegunAt(states, steps, i, n + 1, t, Send(m));
      } else {
        var i: nat, c: nat :| BegunAt(states, steps, i, n, t, Create) && i < c < n <= |steps|
          && steps[c] == Step(t, Allocate(m.hsm)) && m == Message(m.hsm, 1, 0, 0);
        assert BegunAt(states, steps, i, n + 1, t, Create);
      }
    }
  }

  /** How a push can be under way after a step of its thread. */
  lemma PushCameFrom(v: View, a: Action, m: Message)
    requires WellFormed(v) && ThreadOk(v) && Enabled(v, a) && !v.th.base.Ticker? && Pushes(Do(v, a).th.op, m)
    ensures if a.Proceed? then Pushes(v.th.op, m)
            else a == Begin(Send(m)) || (a == Allocate(m.hsm) && Unmade(v.th.op) && m == Message(m.hsm, 1, 0, 0))
    ensures Do(v, a).th.op.push.SendLock? || m.hsm != 0 || (Pushes(v.th.op, m) && !v.th.op.push.SendLock?)
  {
    hide Contents, Rings.Valid, Full, Mark, DoProceed;
    if a.Proceed? {
      PushProceeds(v, m);
    }
  }

  lemma PushProceeds(v: View, m: Message)
    requires WellFormed(v) && ThreadOk(v) && Ready(v) && !v.th.base.Ticker? && Pushes(DoProceed(v).th.op, m)
    ensures Pushes(v.th.op, m) && !DoProceed(v).th.op.push.SendLock?
    ensures m.hsm != 0 || !v.th.op.push.SendLock?
  {
    hide Contents, Rings.Valid, Full, Without, FirstFree, DropSlot, Store, Publish, Discard, EraseSlots;
  }

  lemma UnmadeCameFrom(v: View, a: Action)
    requires WellFormed(v) && ThreadOk(v) && Enabled(v, a) && !v.th.base.Ticker? && Unmade(Do(v, a).th.op)
    ensures a == Begin(Create) || Unmade(v.th.op)
  {
    hide Contents, Rings.Valid, Full, Mark, Without, FirstFree, DropSlot, Store, Publish, Discard, EraseSlots;
  }

  lemma OriginStep(states: seq<State>, steps: seq<Step>, n: nat, t: Tid)
    requires IsRun(states, steps) && Throughout(states) && n < |steps| && t in states[n].threads && t != TICKER
    requires Origin(states, steps, n, t)
    ensures t in states[n + 1].threads && Origin(states, steps, n + 1, t)
  {
    hide Do, Enabled, CoreInv, ThreadOk, Init, Throughout, Unmade, SentBy, CreatedBy;
    ThroughoutAt(states, n);
    var s, u, a := states[n], steps[n].t, steps[n].a;
    assert CanStep(s, u, a) && states[n + 1] == Next(s, u, a);
    if u != t {
      StepKeepsOthers(s, u, a, t);
      if !s.threads[t].op.Resting? {
        OriginLater(states, steps, n, t);
      } else {
        RestingUnmade(s.threads[t].op);
      }
    } else {
      OriginOwn(states, steps, n, t);
    }
  }

  lemma RestingUnmade(op: Op)
    ensures Unmade(op) ==> op.Pushing?
  {
  }

  lemma OriginOwn(states: seq<State>, steps: seq<Step>, n: nat, t: Tid)
    requires IsRun(states, steps) && Throughout(states) && n < |steps| && t in states[n].threads && t != TICKER
    requires Origin(states, steps, n, t) && steps[n].t == t
    ensures t in states[n + 1].threads && Origin(states, steps, n + 1, t)
  {
    hide Do, Enabled, CoreInv, ThreadOk, Init, Throughout, Unmade, SentBy, CreatedBy;
    ThroughoutAt(states, n);
    var s, a := states[n], steps[n].a;
    var v := ViewOf(s, t);
    assert CanStep(s, t, a) && states[n + 1] == Next(s, t, a);
    assert ThreadOk(v) by {
      CoreThread(s, t);
    }
    TickHeld(s, t);
    assert Do(v, a).me == t by {
      OrderlyDo(v, a);
    }
    var op' := Do(v, a).th.op;
    assert states[n + 1].threads[t].op == op';
    if !op'.Resting? {
      OriginLater(states, steps, n, t);
    }
    forall m | Pushes(op', m)
      ensures SentBy(states, steps, n + 1, t, m) && (op'.push.SendLock? || m.hsm != 0)
    {
      PushCameFrom(v, a, m);
      if a.Begin? {
        BeginsNow(states, steps, n, t, Send(m), m);
      } else if a.Allocate? {
        AllocatesNow(states, steps, n, t, m);
      }
    }
    if Unmade(op') {
      UnmadeCameFrom(v, a);
      RestingUnmade(op');
      if a == Begin(Create) {
        BeginsNow(states, steps, n, t, Create, Message(0, 0, 0, 0));
      }
    }
  }

  lemma CoreThread(s: State, t: Tid)
    requires CoreInv(s) && t in s.threads
    ensures WellFormed(ViewOf(s, t)) && ThreadOk(ViewOf(s, t))
  {
  }

  lemma BeginsNow(states: seq<State>, steps: seq<Step>, n: nat, t: Tid, call: Call, m: Message)
    requires n < |steps| && n + 1 < |states| && steps[n] == Step(t, Begin(call))
    requires t in states[n + 1].threads && !states[n + 1].threads[t].op.Resting?
    ensures call == Send(m) ==> SentBy(states, steps, n + 1, t, m)
    ensures call == Create ==> CreatedBy(states, steps, n + 1, t)
  {
    assert BegunAt(states, steps, n, n + 1, t, call);
  }

  lemma AllocatesNow(states: seq<State>, steps: seq<Step>, n: nat, t: Tid, m: Message)
    requires n < |steps| && n + 1 < |states| && steps[n] == Step(t, Allocate(m.hsm)) && m == Message(m.hsm, 1, 0, 0)
    requires t in states[n + 1].threads && !states[n + 1].threads[t].op.Resting?
    requires CreatedBy(states, steps, n, t)
    ensures SentBy(states, steps, n + 1, t, m)
  {
    var i: nat :| BegunAt(states, steps, i, n, t, Create);
    assert BegunAt(states, steps, i, n + 1, t, Create);
  }

  lemma {:induction false} RunOrigin(states: seq<State>, steps: seq<Step>, n: nat, t: Tid)
    requires IsRun(states, steps) && Throughout(states) && n < |states| && t in states[0].threads && t != TICKER
    ensures t in states[n].threads && Origin(states, steps, n, t)
  {
    hide CanStep, Next, Throughout, Origin;
    if n == 0 {
      OriginInit(states, steps, t);
    } else {
      RunOrigin(states, steps, n - 1, t);
      OriginStep(states, steps, n - 1, t);
    }
  }

  lemma OriginInit(states: seq<State>, steps: seq<Step>, t: Tid)
    requires |states| > 0 && Init(states[0]) && t in states[0].threads
    ensures Origin(states, steps, 0, t)
  {
  }

  /** Threads neither come nor go. */
  lemma {:induction false} SameThreads(states: seq<State>, steps: seq<Step>, n: nat)
    requires IsRun(states, steps) && Throughout(states) && n < |states|
    ensures states[n].threads.Keys == states[0].threads.Keys
  {
    hide Do, Enabled, Throughout, Init, CoreInv, ThreadOk;
    if n > 0 {
      SameThreads(states, steps, n - 1);
      ThroughoutAt(states, n - 1);
      assert CanStep(states[n - 1], steps[n - 1].t, steps[n - 1].a);
      CoreThread(states[n - 1], steps[n - 1].t);
      OrderlyDo(ViewOf(states[n - 1], steps[n - 1].t), steps[n - 1].a);
    }
  }

  /** The step logs the fate of a push. */
  predicate Logs(s: State, s': State, e: Event) {
    s'.log == s.log + [e]
  }

  lemma FateStep(v: View, a: Action, e: Event)
    requires WellFormed(v) && ThreadOk(v) && Enabled(v, a) && Do(v, a).log == v.log + [e] && (e.Accepted? || e.Refused?)
    ensures Pushes(v.th.op, e.m) && !v.th.op.push.SendLock?
    ensures e.Accepted? <==> !Full(v.mail.ring)
  {
    hide Contents, Rings.Valid, Full, Mark, Without, FirstFree, DropSlot, Store, Publish, Discard, EraseSlots,
         DoProceed;
    assert (v.log + [e])[|v.log|] == e;
    if a.Proceed? {
      FateProceeds(v, e);
    }
  }

  lemma FateProceeds(v: View, e: Event)
    requires WellFormed(v) && ThreadOk(v) && Ready(v) && DoProceed(v).log == v.log + [e] && (e.Accepted? || e.Refused?)
    ensures Pushes(v.th.op, e.m) && !v.th.op.push.SendLock?
    ensures e.Accepted? <==> !Full(v.mail.ring)
  {
    hide Contents, Rings.Valid, Full, Without, FirstFree, DropSlot, Store, Publish, Discard, EraseSlots;
    assert (v.log + [e])[|v.log|] == e;
  }

  /**
   * Every accepted or refused message is that of its thread's own send_message, still under way; the SMM_CREATE of
   * the window that its thread is creating; or the tick that the ticker sends for the slot it is visiting. And it is
   * refused exactly when size - 1 messages are queued.
   */
  lemma FateOrigin(states: seq<State>, steps: seq<Step>, n: nat, e: Event)
    requires IsRun(states, steps) && Throughout(states) && n < |steps| && (e.Accepted? || e.Refused?)
    requires Logs(states[n], states[n + 1], e)
    ensures Rings.Valid(states[n].mail.ring) && steps[n].t in states[n].threads && |states[n].table.slots| == NTICKS
    ensures e.Accepted? <==> |Contents(states[n].mail.ring)| < |states[n].mail.ring.slots| - 1
    ensures e.m.hsm != 0
    ensures if steps[n].t != TICKER then SentBy(states, steps, n, steps[n].t, e.m)
            else PhaseOf(states[n]).Settling? && PhaseOf(states[n]).i < NTICKS
                 && IsNotice(states[n].table.slots[PhaseOf(states[n]).i], PhaseOf(states[n]).i, e.m)
  {
    hide Do, Enabled, CoreInv, ThreadOk, Init, Throughout, SentBy, CreatedBy, Unmade, Contents, IsNotice;
    ThroughoutAt(states, n);
    var s, t, a := states[n], steps[n].t, steps[n].a;
    assert CanStep(s, t, a) && states[n + 1] == Next(s, t, a);
    CoreThread(s, t);
    FateStep(ViewOf(s, t), a, e);
    FullExact(s.mail.ring);
    if t != TICKER {
      SameThreads(states, steps, n);
      RunOrigin(states, steps, n, t);
    } else {
      RunVisits(states, steps, n);
      TickHeld(s, t);
      NoticeOnly(s.threads[TICKER].op, s.threads[TICKER].base.phase, s.table.slots, e.m);
    }
  }

  lemma NoticeOnly(op: Op, phase: Phase, slots: seq<TickSlot>, m: Message)
    requires |slots| == NTICKS && VisitOk(op, phase, slots) && Pushes(op, m)
    ensures phase.Settling? && phase.i < NTICKS && IsNotice(slots[phase.i], phase.i, m) && m.hsm != 0
  {
    if phase.Settling? {
      var m' :| IsNotice(slots[phase.i], phase.i, m') && Pushes(op, m');
      assert m' == m;
    }
  }

  // ---------- every event has its step ----------

  /** The step that logged the e-th event. */
  lemma {:induction false} LoggedAt(states: seq<State>, steps: seq<Step>, n: nat, e: nat) returns (j: nat)
    requires IsRun(states, steps) && n < |states| && e < |states[n].log|
    ensures j < n && |states[j].log| <= e < |states[j + 1].log| && states[j + 1].log <= states[n].log
    ensures CanStep(states[j], steps[j].t, steps[j].a) && states[j + 1] == Next(states[j], steps[j].t, steps[j].a)
  {
    hide Do, Enabled;
    assert n > 0;
    var s, t, a := states[n - 1], steps[n - 1].t, steps[n - 1].a;
    assert CanStep(s, t, a) && states[n] == Next(s, t, a);
    LogOnlyGrows(ViewOf(s, t), a);
    if e < |s.log| {
      j := LoggedAt(states, steps, n - 1, e);
    } else {
      j := n - 1;
    }
  }

  /** A step logs one event, except that a nested SMM_CLOSE is logged together with its start. */
  lemma LogsFew(v: View, a: Action)
    requires Enabled(v, a)
    ensures var w := Do(v, a);
      || w.log == v.log
      || (|w.log| == |v.log| + 1 && w.log[..|v.log|] == v.log)
      || (a.Express? && w.log == v.log + [Nested(a.m.hsm), Started(a.m, false)])
  {
    hide Contents, Rings.Valid, Full, Mark, Without, FirstFree, DropSlot, Store, Publish, Discard, EraseSlots,
         DoProceed;
    if a.Proceed? {
      LogsOne(v);
    }
  }

  lemma LogsOne(v: View)
    requires Enabled(v, Proceed)
    ensures DoProceed(v).log == v.log || (|DoProceed(v).log| == |v.log| + 1 && DoProceed(v).log[..|v.log|] == v.log)
  {
    hide Contents, Rings.Valid, Full, Without, FirstFree, DropSlot, Store, Publish, Discard, EraseSlots;
  }

  /** For every accepted or refused message in the log, the step that logged it, and where it comes from. */
  lemma FateInLog(states: seq<State>, steps: seq<Step>, n: nat, e: nat) returns (j: nat)
    requires IsRun(states, steps) && Throughout(states) && n < |states| && e < |states[n].log|
    requires states[n].log[e].Accepted? || states[n].log[e].Refused?
    ensures j < n && |states[j].log| == e && Logs(states[j], states[j + 1], states[n].log[e])
    ensures if steps[j].t != TICKER then SentBy(states, steps, j, steps[j].t, states[n].log[e].m)
            else |states[j].table.slots| == NTICKS && PhaseOf(states[j]).Settling? && PhaseOf(states[j]).i < NTICKS
                 && IsNotice(states[j].table.slots[PhaseOf(states[j]).i], PhaseOf(states[j]).i, states[n].log[e].m)
  {
    hide Do, Enabled, CoreInv, Init, Throughout, SentBy, IsNotice, CreatedBy;
    j := LoggedAt(states, steps, n, e);
    LogsFew(ViewOf(states[j], steps[j].t), steps[j].a);
    assert states[j + 1].log[e] == states[n].log[e];
    assert states[j + 1].log == states[j].log + [states[n].log[e]];
    FateOrigin(states, steps, j, states[n].log[e]);
  }

  /**
   * Step j logged that push: its thread's own send_message or creation, or the tick of the slot that the ticker was
   * visiting.
   */
  ghost predicate PushedAt(states: seq<State>, steps: seq<Step>, j: nat, e: Event)
    requires e.Accepted? || e.Refused?
  {
    && j < |steps| && j + 1 < |states| && Logs(states[j], states[j + 1], e)
    && if steps[j].t != TICKER then SentBy(states, steps, j, steps[j].t, e.m)
       else |states[j].table.slots| == NTICKS && PhaseOf(states[j]).Settling? && PhaseOf(states[j]).i < NTICKS
            && IsNotice(states[j].table.slots[PhaseOf(states[j]).i], PhaseOf(states[j]).i, e.m)
  }

  /** Every accepted and every refused message in the log has such a step. */
  ghost predicate Sourced(states: seq<State>, steps: seq<Step>, n: nat)
    requires n < |states|
  {
    forall e :: 0 <= e < |states[n].log| && (states[n].log[e].Accepted? || states[n].log[e].Refused?) ==>
      exists j: nat :: j < n && |states[j].log| == e && PushedAt(states, steps, j, states[n].log[e])
  }

  lemma RunSourced(states: seq<State>, steps: seq<Step>, n: nat)
    requires IsRun(states, steps) && Throughout(states) && n < |states|
    ensures Sourced(states, steps, n)
  {
    hide Init, CanStep, Next, Throughout, SentBy, IsNotice, CreatedBy;
    forall e | 0 <= e < |states[n].log| && (states[n].log[e].Accepted? || states[n].log[e].Refused?)
      ensures exists j: nat :: j < n && |states[j].log| == e && PushedAt(states, steps, j, states[n].log[e])
    {
      var j := FateInLog(states, steps, n, e);
      assert PushedAt(states, steps, j, states[n].log[e]);
    }
  }

  // ---------- express_message ----------

  /** A handler's activation, as far as run_sm knows it. */
  datatype Activation = Activation(hsm: u32, message: u32)

  /** The activations' windows and message types, outermost first. */
  function Activations(stack: seq<Frame>): seq<Activation> {
    seq(|stack|, k requires 0 <= k < |stack| => Activation(stack[k].hsm, stack[k].message))
  }

  function StackOf(s: State): seq<Frame> {
    if DISPATCHER in s.threads && s.threads[DISPATCHER].base.Dispatcher? then s.threads[DISPATCHER].base.stack else []
  }

  /**
   * express_message: for a live window its handler is started at once with exactly that message, on top of the
   * activations there are; otherwise nothing happens.
   */
  lemma ExpressStarts(states: seq<State>, steps: seq<Step>, i: nat, m: Message)
    requires IsRun(states, steps) && Throughout(states) && i < |steps| && steps[i].a == Express(m)
    requires ClosedOk(states[i].desk, states[i].log)
    ensures if m.hsm != 0 && LiveIn(states[i].log, m.hsm) then
              && states[i].log < states[i + 1].log && Last(states[i + 1].log) == Started(m, false)
              && Activations(StackOf(states[i + 1])) == Activations(StackOf(states[i])) + [Activation(m.hsm, m.message)]
            else states[i + 1].log == states[i].log && StackOf(states[i + 1]) == StackOf(states[i])
  {
    hide Contents, Rings.Valid, Full, CoreInv, ThreadOk, Throughout, Init, LiveIn;
    var s, t := states[i], steps[i].t;
    ThroughoutAt(states, i);
    assert CanStep(s, t, Express(m)) && states[i + 1] == Next(s, t, Express(m));
    LiveWindow(s.desk, s.log, m.hsm);
    CoreThread(s, t);
    DispatcherIs(s, t);
  }

  lemma DispatcherIs(s: State, t: Tid)
    requires CoreInv(s) && t in s.threads && s.threads[t].base.Dispatcher?
    ensures t == DISPATCHER
  {
    assert ThreadOk(ViewOf(s, t));
  }

  /** Every handler started without the queue was started by express_message, for a live window. */
  lemma StartedOrigin(states: seq<State>, steps: seq<Step>, n: nat, e: nat) returns (j: nat)
    requires IsRun(states, steps) && n < |states| && e < |states[n].log|
    requires states[n].log[e].Started? && !states[n].log[e].queued
    ensures j < n && steps[j].a == Express(states[n].log[e].m) && e == |states[j + 1].log| - 1
    ensures states[n].log[e].m.hsm != 0 && states[n].log[e].m.hsm in states[j].desk.windows
  {
    hide Do, Enabled, Init;
    j := LoggedAt(states, steps, n, e);
    var v, a := ViewOf(states[j], steps[j].t), steps[j].a;
    LogsFew(v, a);
    assert states[j + 1].log[e] == states[n].log[e];
    StartedBy(v, a, e);
  }

  lemma StartedBy(v: View, a: Action, e: nat)
    requires Enabled(v, a) && |v.log| <= e < |Do(v, a).log| && Do(v, a).log[e].Started? && !Do(v, a).log[e].queued
    ensures a == Express(Do(v, a).log[e].m) && e == |Do(v, a).log| - 1
    ensures Do(v, a).log[e].m.hsm != 0 && Do(v, a).log[e].m.hsm in v.desk.windows
  {
    hide Contents, Rings.Valid, Full, Mark, Without, FirstFree, DropSlot, Store, Publish, Discard, EraseSlots,
         DoProceed;
    if a.Proceed? {
      ProceedExpressesNot(v, e);
    }
  }

  lemma ProceedExpressesNot(v: View, e: nat)
    requires Enabled(v, Proceed) && |v.log| <= e < |DoProceed(v).log|
    ensures !(DoProceed(v).log[e].Started? && !DoProceed(v).log[e].queued)
  {
    hide Contents, Rings.Valid, Full, Without, FirstFree, DropSlot, Store, Publish, Discard, EraseSlots;
  }

  /** Every handler started without the queue was started by an express_message of exactly that message. */
  ghost predicate Expressed(states: seq<State>, steps: seq<Step>, n: nat)
    requires n < |states|
  {
    forall e :: 0 <= e < |states[n].log| && states[n].log[e].Started? && !states[n].log[e].queued ==>
      exists j: nat :: j < n && j < |steps| && steps[j].a == Express(states[n].log[e].m) && |states[j + 1].log| == e + 1
  }

  lemma RunExpressed(states: seq<State>, steps: seq<Step>, n: nat)
    requires IsRun(states, steps) && n < |states|
    ensures Expressed(states, steps, n)
  {
    hide Init, CanStep, Next;
    forall e | 0 <= e < |states[n].log| && states[n].log[e].Started? && !states[n].log[e].queued
      ensures exists j: nat :: j < n && j < |steps| && steps[j].a == Express(states[n].log[e].m) && |states[j + 1].log| == e + 1
    {
      var j := StartedOrigin(states, steps, n, e);
    }
  }

  // ---------- activations open and close like brackets; the list is in creation order ----------

  function Opens(open: seq<Activation>, e: Event): seq<Activation> {
    match e
    case Started(m, _) => open + [Activation(m.hsm, m.message)]
    case Finished(_, _) => if open == [] then [] else open[..|open| - 1]
    case _ => open
  }

  /** The activations that the log says are open. */
  function Open(log: seq<Event>): seq<Activation> {
    if log == [] then [] else Opens(Open(log[..|log| - 1]), Last(log))
  }

  function Lists(windows: seq<u32>, e: Event): seq<u32> {
    match e
    case Created(h) => windows + [h]
    case Destroyed(h) => Without(windows, h)
    case _ => windows
  }

  /** The windows that the log says are there, oldest first. */
  function Listing(log: seq<Event>): seq<u32> {
    if log == [] then [] else Lists(Listing(log[..|log| - 1]), Last(log))
  }

  ghost predicate BracketsInv(s: State) {
    Open(s.log) == Activations(StackOf(s)) && Listing(s.log) == s.desk.windows && FinishesTop(s.log)
  }

  lemma OpenAppend(log: seq<Event>, e: Event)
    ensures Open(log + [e]) == Opens(Open(log), e) && Listing(log + [e]) == Lists(Listing(log), e)
  {
    assert (log + [e])[..|log|] == log;
  }

  lemma BracketsInit(s: State)
    requires Init(s)
    ensures BracketsInv(s)
  {
  }

  /** What one step does to the activations and the list, and what it logs about them. */
  predicate BracketMove(stack: seq<Frame>, stack': seq<Frame>, windows: seq<u32>, windows': seq<u32>, e: Event) {
    match e
    case Started(m, _) => Activations(stack') == Activations(stack) + [Activation(m.hsm, m.message)] && windows' == windows
    case Finished(h, k) =>
      stack != [] && Last(stack).hsm == h && Last(stack).message == k && stack' == stack[..|stack| - 1] && windows' == windows
    case Created(h) => Activations(stack') == Activations(stack) && windows' == windows + [h]
    case Destroyed(h) => Activations(stack') == Activations(stack) && windows' == Without(windows, h)
    case _ => Activations(stack') == Activations(stack) && windows' == windows
  }

  lemma BracketsAppend(stack: seq<Frame>, stack': seq<Frame>, windows: seq<u32>, windows': seq<u32>, log: seq<Event>, e: Event)
    requires BracketMove(stack, stack', windows, windows', e)
    requires Open(log) == Activations(stack) && Listing(log) == windows
    ensures Open(log + [e]) == Activations(stack') && Listing(log + [e]) == windows'
    ensures e.Finished? ==> Open(log) != [] && Last(Open(log)) == Activation(e.hsm, e.message)
  {
    OpenAppend(log, e);
    if e.Finished? {
      assert Activations(stack') == Activations(stack)[..|stack| - 1];
    }
  }

  lemma Bracketed(stack: seq<Frame>, windows: seq<u32>, log: seq<Event>, stack': seq<Frame>, windows': seq<u32>, log': seq<Event>)
    requires log' == log || exists e :: log' == log + [e] && BracketMove(stack, stack', windows, windows', e)
    requires log' == log ==> Activations(stack') == Activations(stack) && windows' == windows
    requires Open(log) == Activations(stack) && Listing(log) == windows
    requires FinishesTop(log)
    ensures Open(log') == Activations(stack') && Listing(log') == windows' && FinishesTop(log')
  {
    if log' != log {
      var e :| log' == log + [e] && BracketMove(stack, stack', windows, windows', e);
      BracketsAppend(stack, stack', windows, windows', log, e);
      forall i | 0 <= i < |log'| && log'[i].Finished?
        ensures Open(log'[..i]) != [] && Last(Open(log'[..i])) == Activation(log'[i].hsm, log'[i].message)
      {
        assert log'[..i] == log[..i];
      }
    }
  }

  /** Whatever finishes is the innermost open activation. */
  ghost predicate FinishesTop(log: seq<Event>) {
    forall i :: 0 <= i < |log| && log[i].Finished? ==>
      Open(log[..i]) != [] && Last(Open(log[..i])) == Activation(log[i].hsm, log[i].message)
  }

  function StackIn(th: Thread): seq<Frame> {
    if th.base.Dispatcher? then th.base.stack else []
  }

  /** Either nothing is logged and nothing moves, or one event is, and activations and list move with it. */
  ghost predicate MovesOne(v: View, w: View) {
    var stack, stack' := StackIn(v.th), StackIn(w.th);
    || (w.log == v.log && Activations(stack') == Activations(stack) && w.desk.windows == v.desk.windows)
    || (exists e :: w.log == v.log + [e] && BracketMove(stack, stack', v.desk.windows, w.desk.windows, e))
  }

  lemma UserMoves(v: View, a: Action)
    requires WellFormed(v) && ThreadOk(v) && Enabled(v, a) && !a.Proceed? && !a.Express?
    ensures MovesOne(v, Do(v, a))
  {
    hide Contents, Rings.Valid, Full, BracketMove;
    var w := Do(v, a);
    match a {
      case Return => ReturnMoves(v);
      case Allocate(h) =>
        if h != SK_INVALID_HSM {
          assert BracketMove(StackIn(v.th), StackIn(w.th), v.desk.windows, w.desk.windows, Created(h)) by {
            CreatedMove(StackIn(v.th), v.desk.windows, h);
          }
        }
      case _ =>
    }
  }

  lemma CreatedMove(stack: seq<Frame>, windows: seq<u32>, h: u32)
    ensures BracketMove(stack, stack, windows, windows + [h], Created(h))
  {
  }

  lemma ReturnMoves(v: View)
    requires Enabled(v, Return)
    ensures MovesOne(v, Do(v, Return))
  {
    hide Contents, Rings.Valid, Full;
    var stack := v.th.base.stack;
    var f := Last(stack);
    var stack' := StackIn(Do(v, Return).th);
    if f.message == SMM_CLOSE && !f.closing {
      assert Activations(stack') == Activations(stack);
    } else {
      assert BracketMove(stack, stack', v.desk.windows, v.desk.windows, Finished(f.hsm, f.message));
    }
  }

  /** The dispatcher's loop starts a handler on an empty stack, for the very message it has in hand. */
  lemma LoopMoves(v: View)
    requires WellFormed(v) && ThreadOk(v) && Ready(v) && v.th.op.Resting?
    ensures MovesOne(v, BaseStep(v))
  {
    hide Contents, Rings.Valid, Full, Due;
    var w := BaseStep(v);
    if v.th.base.Dispatcher? && v.th.base.got.Some? {
      var m := v.th.base.got.value;
      var e := if m.hsm != SK_INVALID_HSM && m.hsm in v.desk.windows then Started(m, true) else Dropped(m);
      assert BracketMove(StackIn(v.th), StackIn(w.th), v.desk.windows, w.desk.windows, e);
    }
  }

  lemma TableMoves(v: View)
    requires WellFormed(v) && v.th.op.Tabling?
    ensures MovesOne(v, TableStep(v, v.th.op.work))
  {
    hide Contents, Rings.Valid, Full, FirstFree, DropSlot, Agrees;
    var w := TableStep(v, v.th.op.work);
    assert StackIn(w.th) == StackIn(v.th);
    if w.log != v.log {
      assert w.log == v.log + [Last(w.log)];
      assert BracketMove(StackIn(v.th), StackIn(w.th), v.desk.windows, w.desk.windows, Last(w.log));
    }
  }

  lemma QueueMoves(v: View)
    requires WellFormed(v) && Ready(v) && (v.th.op.Pushing? || v.th.op.Popping? || v.th.op.Scanning?)
    ensures MovesOne(v, DoProceed(v))
  {
    hide Contents, Rings.Valid, Full, Store, Publish, Discard, EraseSlots;
    var w := DoProceed(v);
    assert StackIn(w.th) == StackIn(v.th) && w.desk == v.desk;
    if w.log != v.log {
      assert w.log == v.log + [Last(w.log)];
      assert BracketMove(StackIn(v.th), StackIn(w.th), v.desk.windows, w.desk.windows, Last(w.log));
    }
  }

  lemma StepMoves(v: View, a: Action)
    requires WellFormed(v) && ThreadOk(v) && Enabled(v, a) && !a.Express?
    ensures MovesOne(v, Do(v, a))
  {
    hide MovesOne, BaseStep, TableStep, PushStep, PopStep, ScanStep, ThreadOk;
    if !a.Proceed? {
      UserMoves(v, a);
    } else if v.th.op.Resting? {
      LoopMoves(v);
    } else if v.th.op.Tabling? {
      TableMoves(v);
    } else {
      QueueMoves(v);
    }
  }

  /** Activations and list follow the log through every step of every thread. */
  lemma BracketsStep(s: State, t: Tid, a: Action)
    requires CoreInv(s) && BracketsInv(s) && CanStep(s, t, a)
    ensures BracketsInv(Next(s, t, a))
  {
    hide Do, Enabled, ThreadOk, Open, Listing, BracketMove, FinishesTop, Activations, CoreInv;
    CoreThread(s, t);
    var v, w := ViewOf(s, t), Do(ViewOf(s, t), a);
    OrderlyDo(v, a);
    Dispatching(s, t);
    if a.Express? {
      ExpressDispatches(v, a);
      BracketsExpress(s, t, a.m);
    } else {
      StepMoves(v, a);
      DispatcherKept(v, w);
      if t == DISPATCHER {
        Bracketed(StackIn(v.th), s.desk.windows, s.log, StackIn(w.th), w.desk.windows, w.log);
      } else {
        StepKeepsDispatcher(s, t, a);
        Elsewhere(v, w, StackOf(s));
        Bracketed(StackOf(s), s.desk.windows, s.log, StackOf(s), w.desk.windows, w.log);
      }
    }
  }

  lemma ExpressDispatches(v: View, a: Action)
    requires Enabled(v, a) && a.Express?
    ensures v.th.base.Dispatcher?
  {
  }

  lemma Dispatching(s: State, t: Tid)
    requires CoreInv(s) && t in s.threads
    ensures DISPATCHER in s.threads && s.threads[DISPATCHER].base.Dispatcher?
    ensures s.threads[t].base.Dispatcher? <==> t == DISPATCHER
  {
    assert ThreadOk(ViewOf(s, t)) && ThreadOk(ViewOf(s, DISPATCHER));
  }

  lemma DispatcherKept(v: View, w: View)
    requires Orderly(v, w) && WellFormed(v) && ThreadOk(v)
    ensures w.th.base.Dispatcher? <==> v.th.base.Dispatcher?
  {
  }

  lemma StepKeepsDispatcher(s: State, t: Tid, a: Action)
    requires CoreInv(s) && CanStep(s, t, a) && t != DISPATCHER
    ensures DISPATCHER in Next(s, t, a).threads && Next(s, t, a).threads[DISPATCHER] == s.threads[DISPATCHER]
  {
    StepKeepsOthers(s, t, a, DISPATCHER);
  }

  /** Another thread's step moves no activation. */
  lemma Elsewhere(v: View, w: View, stack: seq<Frame>)
    requires MovesOne(v, w) && !v.th.base.Dispatcher? && !w.th.base.Dispatcher?
    ensures w.log == v.log ==> w.desk.windows == v.desk.windows
    ensures w.log == v.log || exists e :: w.log == v.log + [e] && BracketMove(stack, stack, v.desk.windows, w.desk.windows, e)
  {
    if w.log != v.log {
      var e :| w.log == v.log + [e] && BracketMove([], [], v.desk.windows, w.desk.windows, e);
      assert BracketMove(stack, stack, v.desk.windows, w.desk.windows, e);
    } else {
      forall e
        ensures v.log + [e] != v.log
      {
        assert |v.log + [e]| == |v.log| + 1;
      }
    }
  }

  lemma BracketsExpress(s: State, t: Tid, m: Message)
    requires CoreInv(s) && BracketsInv(s) && CanStep(s, t, Express(m)) && t == DISPATCHER
    ensures BracketsInv(Next(s, t, Express(m)))
  {
    hide Contents, Rings.Valid, Full, Open, Listing, FinishesTop, CoreInv;
    var v, w := ViewOf(s, t), Do(ViewOf(s, t), Express(m));
    var stack, stack' := v.th.base.stack, w.th.base.stack;
    if m.hsm != SK_INVALID_HSM && m.hsm in s.desk.windows {
      assert Activations(stack') == Activations(stack) + [Activation(m.hsm, m.message)];
      var windows := s.desk.windows;
      assert BracketMove(stack, stack', windows, windows, Started(m, false));
      if Nests(stack, m) {
        assert BracketMove(stack, stack, windows, windows, Nested(m.hsm));
        Bracketed(stack, windows, s.log, stack, windows, s.log + [Nested(m.hsm)]);
        Bracketed(stack, windows, s.log + [Nested(m.hsm)], stack', windows, s.log + [Nested(m.hsm)] + [Started(m, false)]);
      } else {
        Bracketed(stack, windows, s.log, stack', windows, s.log + [Started(m, false)]);
      }
    }
  }

  lemma {:induction false} RunBracketed(states: seq<State>, steps: seq<Step>, n: nat)
    requires IsRun(states, steps) && Throughout(states) && n < |states|
    ensures BracketsInv(states[n])
  {
    hide Next, CanStep, BracketsInv, CoreInv, Throughout;
    if n == 0 {
      BracketsInit(states[0]);
    } else {
      RunBracketed(states, steps, n - 1);
      ThroughoutAt(states, n - 1);
      BracketsStep(states[n - 1], steps[n - 1].t, steps[n - 1].a);
    }
  }
}
