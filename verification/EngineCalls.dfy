/** Every library call takes effect at one step between its beginning and its return, and only there. */
module EngineCalls {
  import opened Messages
  import opened Rings
  import opened TickSlots
  import opened WindowLists
  import opened Engine
  import opened EngineLocks

  /** Nothing that calls are about: the queued messages, the windows, the tick slots and the log stay. */
  ghost predicate Silent(s: State, s': State)
    requires Rings.Valid(s.mail.ring) && Rings.Valid(s'.mail.ring)
  {
    && Contents(s'.mail.ring) == Contents(s.mail.ring) && s'.desk.windows == s.desk.windows
    && s'.table.slots == s.table.slots && s'.log == s.log
  }

  /** A push: appended if fewer than size - 1 messages are queued, refused otherwise. */
  ghost predicate Sent(m: Message, s: State, s': State)
    requires Rings.Valid(s.mail.ring) && Rings.Valid(s'.mail.ring)
  {
    && s'.desk.windows == s.desk.windows && s'.table.slots == s.table.slots
    && if |Contents(s.mail.ring)| < |s.mail.ring.slots| - 1 then
         Contents(s'.mail.ring) == Contents(s.mail.ring) + [m] && s'.log == s.log + [Accepted(m)]
       else
         Contents(s'.mail.ring) == Contents(s.mail.ring) && s'.log == s.log + [Refused(m)]
  }

  ghost predicate Popped(s: State, s': State)
    requires Rings.Valid(s.mail.ring) && Rings.Valid(s'.mail.ring)
  {
    var q := Contents(s.mail.ring);
    && s'.desk.windows == s.desk.windows && s'.table.slots == s.table.slots
    && if q == [] then Contents(s'.mail.ring) == [] && s'.log == s.log
       else Contents(s'.mail.ring) == q[1..] && s'.log == s.log + [Taken(q[0], false)]
  }

  /** What an erase makes of one message. */
  predicate Blanks(e: Eraser, m: Message, m': Message) {
    match e
    case OfWindow(h) => m' == if m.hsm == h then Message(0, 0, 0, 0) else m
    case OfType(h, k) => m' == if m.hsm == h && m.message == k then Message(0, 0, 0, 0) else m
    case OfMessage(k) => m' == if m.message == k then Message(m.hsm, 0, 0, 0) else m
  }

  ghost predicate Blanked(e: Eraser, s: State, s': State)
    requires Rings.Valid(s.mail.ring) && Rings.Valid(s'.mail.ring)
  {
    var q, q' := Contents(s.mail.ring), Contents(s'.mail.ring);
    && s'.desk.windows == s.desk.windows && s'.table.slots == s.table.slots && s'.log == s.log + [Erased(e)]
    && |q'| == |q| && forall i :: 0 <= i < |q| ==> Blanks(e, q[i], q'[i])
  }

  /** The search is answered, for its caller to be told. */
  ghost predicate Told(q: Query, t: Tid, s: State, s': State)
    requires Rings.Valid(s.mail.ring) && Rings.Valid(s'.mail.ring)
  {
    && Silent(s, s') && t in s'.threads
    && s'.threads[t].op == Scanning(QueryUnlock(
         match q
         case OfHandle(h) => exists m :: m in Contents(s.mail.ring) && m.hsm == h
         case Exact(m) => m in Contents(s.mail.ring)))
  }

  /** sm_set_xtick fills the lowest free slot; sm_destroy_tick frees the slot of that number. */
  ghost predicate Ticked(c: TickCall, s: State, s': State)
    requires Rings.Valid(s.mail.ring) && Rings.Valid(s'.mail.ring)
  {
    var slots, slots' := s.table.slots, s'.table.slots;
    && Contents(s'.mail.ring) == Contents(s.mail.ring) && s'.desk.windows == s.desk.windows
    && match c
       case SetTick(h, n, p, sys) =>
         if forall i :: 0 <= i < |slots| ==> slots[i].hsm != 0 then slots' == slots && s'.log == s.log
         else exists i: nat :: i < |slots| && LowestFree(slots, i)
                && slots' == slots[i := TickSlot(h, n, 0, p, sys)] && s'.log == s.log + [TickSet(i, h, n)]
       case DropTick(k) =>
         s'.log == s.log && slots' == if 1 <= k <= |slots| then slots[k - 1 := slots[k - 1].(hsm := 0)] else slots
  }

  predicate LowestFree(slots: seq<TickSlot>, i: nat)
    requires i < |slots|
  {
    slots[i].hsm == 0 && forall j :: 0 <= j < i ==> slots[j].hsm != 0
  }

  /** What a call does to the state, at the step where it does it. */
  ghost predicate Effect(call: Call, t: Tid, s: State, s': State)
    requires Rings.Valid(s.mail.ring) && Rings.Valid(s'.mail.ring)
  {
    match call
    case Send(m) => Sent(m, s, s')
    case Create => false
    case PopCall => Popped(s, s')
    case EraseCall(e) => Blanked(e, s, s')
    case QueryCall(q) => Told(q, t, s, s')
    case TickOp(c) => Ticked(c, s, s')
  }

  /** A push for the invalid handle returns without touching anything. */
  predicate Idle(call: Call) {
    call.Send? && call.m.hsm == 0
  }

  /** The thread is inside the call, before its effect. */
  predicate Before(op: Op, call: Call) {
    match call
    case Send(m) =>
      op.Pushing? && (op.push == SendLock(m) || (m.hsm != 0 &&
        (op.push == PushLock(m) || op.push == PushBody(m) || op.push == PushSignal(m) || op.push == PushAdvance(m))))
    case Create => false
    case PopCall => op.Popping? && !op.pop.PopUnlock?
    case EraseCall(e) => op.Scanning? && (op.scan == EraseLock(e) || op.scan == EraseBody(e))
    case QueryCall(q) => op.Scanning? && (op.scan == QueryLock(q) || op.scan == QueryBody(q))
    case TickOp(c) => op.Tabling? && (op.work == TickLock(c) || op.work == TickBody(c))
  }

  /** Past its effect, or past where it would have been. */
  predicate After(op: Op, call: Call) {
    match call
    case Send(m) => op.Pushing? && (op.push.PushUnlock? || op.push.SystemUnlock?)
    case Create => false
    case PopCall => op.Popping? && op.pop.PopUnlock?
    case EraseCall(e) => op.Scanning? && op.scan.EraseUnlock?
    case QueryCall(q) => op.Scanning? && op.scan.QueryUnlock?
    case TickOp(c) => op.Tabling? && op.work == TickRelease(c)
  }

  lemma AfterStep(s: State, t: Tid, a: Action, call: Call)
    requires CoreInv(s) && CanStep(s, t, a) && After(s.threads[t].op, call)
    ensures Rings.Valid(Next(s, t, a).mail.ring)
    ensures Silent(s, Next(s, t, a))
    ensures var op' := Next(s, t, a).threads[t].op; op'.Resting? || After(op', call)
  {
    hide Contents, Rings.Valid, Full;
  }

  lemma SendStep(s: State, t: Tid, a: Action, m: Message)
    requires CoreInv(s) && CanStep(s, t, a) && Before(s.threads[t].op, Send(m))
    requires Rings.Valid(Next(s, t, a).mail.ring)
    ensures var s' := Next(s, t, a);
      || (Before(s'.threads[t].op, Send(m)) && Silent(s, s'))
      || (After(s'.threads[t].op, Send(m)) && if m.hsm == 0 then Silent(s, s') else Sent(m, s, s'))
  {
    hide Contents, Rings.Valid, Full;
    var v := ViewOf(s, t);
    assert ThreadOk(v);
    QueueStep(v, a);
    FullExact(s.mail.ring);
  }

  lemma PopCallStep(s: State, t: Tid, a: Action)
    requires CoreInv(s) && CanStep(s, t, a) && Before(s.threads[t].op, PopCall) && !InLoop(s.threads[t].base)
    requires Rings.Valid(Next(s, t, a).mail.ring)
    ensures var s' := Next(s, t, a);
      || (Before(s'.threads[t].op, PopCall) && Silent(s, s'))
      || (After(s'.threads[t].op, PopCall) && Popped(s, s'))
  {
    hide Contents, Rings.Valid, Full;
    var v := ViewOf(s, t);
    assert ThreadOk(v);
    QueueStep(v, a);
    EmptyExact(s.mail.ring);
    if s.mail.ring.head != s.mail.ring.tail {
      DiscardDropsFirst(s.mail.ring);
    }
  }

  lemma EraseStep(s: State, t: Tid, a: Action, e: Eraser)
    requires CoreInv(s) && CanStep(s, t, a) && Before(s.threads[t].op, EraseCall(e))
    requires Rings.Valid(Next(s, t, a).mail.ring)
    ensures var s' := Next(s, t, a);
      || (Before(s'.threads[t].op, EraseCall(e)) && Silent(s, s'))
      || (After(s'.threads[t].op, EraseCall(e)) && Blanked(e, s, s'))
  {
    hide Contents, Rings.Valid, Full;
    var v := ViewOf(s, t);
    assert ThreadOk(v);
    QueueStep(v, a);
  }

  lemma QueryStep(s: State, t: Tid, a: Action, q: Query)
    requires CoreInv(s) && CanStep(s, t, a) && Before(s.threads[t].op, QueryCall(q))
    requires Rings.Valid(Next(s, t, a).mail.ring)
    ensures var s' := Next(s, t, a);
      || (Before(s'.threads[t].op, QueryCall(q)) && Silent(s, s'))
      || (After(s'.threads[t].op, QueryCall(q)) && Told(q, t, s, s'))
  {
    hide Contents, Rings.Valid, Full;
  }

  lemma TickOpStep(s: State, t: Tid, a: Action, c: TickCall)
    requires CoreInv(s) && CanStep(s, t, a) && Before(s.threads[t].op, TickOp(c))
    requires Rings.Valid(Next(s, t, a).mail.ring)
    ensures var s' := Next(s, t, a);
      || (Before(s'.threads[t].op, TickOp(c)) && Silent(s, s'))
      || (After(s'.threads[t].op, TickOp(c)) && Ticked(c, s, s'))
  {
    hide Contents, Rings.Valid, Full;
    if c.SetTick? {
      var i := FirstFree(s.table.slots);
      assert i < |s.table.slots| ==> LowestFree(s.table.slots, i);
    }
  }

  /** One step of the calling thread before the effect: nothing happens yet, or all of it does. */
  lemma BeforeStep(s: State, t: Tid, a: Action, call: Call)
    requires CoreInv(s) && CanStep(s, t, a) && Before(s.threads[t].op, call)
    requires !call.Create? && (call.PopCall? ==> !InLoop(s.threads[t].base))
    ensures Rings.Valid(Next(s, t, a).mail.ring)
    ensures var s' := Next(s, t, a);
      || (Before(s'.threads[t].op, call) && Silent(s, s'))
      || (After(s'.threads[t].op, call) && if Idle(call) then Silent(s, s') else Effect(call, t, s, s'))
  {
    hide Do, Enabled, ThreadOk, Silent, Sent, Popped, Blanked, Told, Ticked, Before, After;
    assert ThreadOk(ViewOf(s, t));
    CoreStep(s, t, a);
    match call {
      case Send(m) => SendStep(s, t, a, m);
      case PopCall => PopCallStep(s, t, a);
      case EraseCall(e) => EraseStep(s, t, a, e);
      case QueryCall(q) => QueryStep(s, t, a, q);
      case TickOp(c) => TickOpStep(s, t, a, c);
      case Create =>
    }
  }

  // ---------- over a stretch of a run ----------

  lemma ValidAt(states: seq<State>, j: nat)
    requires Throughout(states) && j < |states|
    ensures CoreInv(states[j]) && Rings.Valid(states[j].mail.ring)
  {
  }

  /** The thread is busy from point i until n, where it rests. */
  predicate Spans(states: seq<State>, i: nat, n: nat, t: Tid) {
    && i < n < |states|
    && (forall k :: i <= k <= n ==> t in states[k].threads)
    && (forall k :: i <= k < n ==> !states[k].threads[t].op.Resting?)
    && states[n].threads[t].op.Resting?
  }

  /** Step j is silent. */
  ghost predicate SilentAt(states: seq<State>, j: nat) {
    && j + 1 < |states| && Rings.Valid(states[j].mail.ring) && Rings.Valid(states[j + 1].mail.ring)
    && Silent(states[j], states[j + 1])
  }

  ghost predicate EffectAt(states: seq<State>, j: nat, t: Tid, call: Call) {
    && j + 1 < |states| && Rings.Valid(states[j].mail.ring) && Rings.Valid(states[j + 1].mail.ring)
    && Effect(call, t, states[j], states[j + 1])
  }

  /** All of the thread's steps from i on and before n are silent, but for one, if any. */
  ghost predicate SilentBut(states: seq<State>, steps: seq<Step>, i: nat, n: nat, t: Tid, but: int) {
    n <= |steps| && forall j :: i <= j < n && steps[j].t == t && j != but ==> SilentAt(states, j)
  }

  /** Among the thread's steps from i on and before n, exactly one has the call's effect. */
  ghost predicate Once(states: seq<State>, steps: seq<Step>, i: nat, n: nat, t: Tid, call: Call) {
    exists j: nat :: i <= j < n <= |steps| && steps[j].t == t && EffectAt(states, j, t, call)
                     && SilentBut(states, steps, i, n, t, j)
  }

  lemma OthersStep(s: State, t: Tid, a: Action, u: Tid)
    requires CanStep(s, t, a) && u in s.threads && u != t && Do(ViewOf(s, t), a).me == t
    ensures u in Next(s, t, a).threads && Next(s, t, a).threads[u] == s.threads[u]
  {
  }

  /** The caller's base stays while it is inside a call of its own. */
  lemma BaseStays(s: State, t: Tid, a: Action)
    requires CanStep(s, t, a) && !s.threads[t].op.Resting? && !InLoop(s.threads[t].base)
    ensures Do(ViewOf(s, t), a).me == t && !InLoop(Do(ViewOf(s, t), a).th.base)
  {
    hide Contents, Rings.Valid, Full, Store, Publish, Discard, EraseSlots, Without, FirstFree, DropSlot;
  }

  /** Where the call stands at point n. */
  ghost predicate Progress(states: seq<State>, steps: seq<Step>, i: nat, n: nat, t: Tid, call: Call)
    requires n < |states|
  {
    && t in states[n].threads && (call.PopCall? ==> !InLoop(states[n].threads[t].base))
    && var op := states[n].threads[t].op;
    || (Before(op, call) && SilentBut(states, steps, i, n, t, -1))
    || ((op.Resting? || After(op, call)) &&
          if Idle(call) then SilentBut(states, steps, i, n, t, -1) else Once(states, steps, i, n, t, call))
  }

  lemma ProgressStep(states: seq<State>, steps: seq<Step>, i: nat, n: nat, t: Tid, call: Call)
    requires IsRun(states, steps) && Throughout(states) && i <= n < |steps| && !call.Create?
    requires Progress(states, steps, i, n, t, call) && !states[n].threads[t].op.Resting?
    ensures Progress(states, steps, i, n + 1, t, call)
  {
    hide Next, CanStep, Before, After, Effect, Silent, CoreInv, InLoop;
    var s, step := states[n], steps[n];
    ValidAt(states, n);
    ValidAt(states, n + 1);
    assert CanStep(s, step.t, step.a) && states[n + 1] == Next(s, step.t, step.a);
    if step.t != t {
      StepKeepsOthers(s, step.t, step.a, t);
      LaterSilent(states, steps, i, n, t, call);
    } else {
      CallerStays(s, t, step.a, call);
      if Before(s.threads[t].op, call) && SilentBut(states, steps, i, n, t, -1) {
        BeforeStep(s, t, step.a, call);
        if Silent(s, states[n + 1]) {
          assert SilentAt(states, n);
        }
        if !Idle(call) && After(states[n + 1].threads[t].op, call) && Effect(call, t, s, states[n + 1]) {
          assert EffectAt(states, n, t, call) && SilentBut(states, steps, i, n + 1, t, n);
        }
      } else {
        AfterStep(s, t, step.a, call);
        assert SilentAt(states, n);
        LaterSilent(states, steps, i, n, t, call);
      }
    }
  }

  /** A step that is silent, or another thread's, adds nothing to what the caller has done. */
  lemma LaterSilent(states: seq<State>, steps: seq<Step>, i: nat, n: nat, t: Tid, call: Call)
    requires n < |steps| && (steps[n].t == t ==> SilentAt(states, n))
    ensures forall but :: SilentBut(states, steps, i, n, t, but) ==> SilentBut(states, steps, i, n + 1, t, but)
    ensures Once(states, steps, i, n, t, call) ==> Once(states, steps, i, n + 1, t, call)
  {
    hide SilentAt, EffectAt;
    if Once(states, steps, i, n, t, call) {
      var j: nat :| i <= j < n <= |steps| && steps[j].t == t && EffectAt(states, j, t, call)
                    && SilentBut(states, steps, i, n, t, j);
      assert SilentBut(states, steps, i, n + 1, t, j);
    }
  }

  lemma StepKeepsOthers(s: State, t: Tid, a: Action, u: Tid)
    requires CoreInv(s) && CanStep(s, t, a) && u in s.threads && u != t
    ensures u in Next(s, t, a).threads && Next(s, t, a).threads[u] == s.threads[u]
  {
    hide Do, Enabled, ThreadOk;
    assert ThreadOk(ViewOf(s, t));
    OrderlyDo(ViewOf(s, t), a);
    OthersStep(s, t, a, u);
  }

  lemma CallerStays(s: State, t: Tid, a: Action, call: Call)
    requires CoreInv(s) && CanStep(s, t, a) && !s.threads[t].op.Resting?
    requires call.PopCall? ==> !InLoop(s.threads[t].base)
    ensures t in Next(s, t, a).threads && (call.PopCall? ==> !InLoop(Next(s, t, a).threads[t].base))
  {
    hide Do, Enabled, ThreadOk, InLoop;
    assert ThreadOk(ViewOf(s, t));
    OrderlyDo(ViewOf(s, t), a);
    if call.PopCall? {
      BaseStays(s, t, a);
    }
  }

  /** A call under way takes effect exactly once before the thread rests again. */
  lemma {:induction false} CallOnce(states: seq<State>, steps: seq<Step>, i: nat, k: nat, n: nat, t: Tid, call: Call)
    requires IsRun(states, steps) && Throughout(states) && !call.Create?
    requires Spans(states, i, n, t) && i <= k <= n && Progress(states, steps, i, k, t, call)
    ensures Progress(states, steps, i, n, t, call)
    ensures if Idle(call) then SilentBut(states, steps, i, n, t, -1) else Once(states, steps, i, n, t, call)
    decreases n - k
  {
    hide Progress, Throughout, Init, Next, CanStep;
    if k < n {
      BusyAt(states, i, k, n, t);
      ProgressStep(states, steps, i, k, t, call);
      CallOnce(states, steps, i, k + 1, n, t, call);
    } else {
      RestsDone(states, steps, i, n, t, call);
    }
  }

  lemma BusyAt(states: seq<State>, i: nat, k: nat, n: nat, t: Tid)
    requires Spans(states, i, n, t) && i <= k < n
    ensures t in states[k].threads && !states[k].threads[t].op.Resting?
  {
  }

  lemma RestsDone(states: seq<State>, steps: seq<Step>, i: nat, n: nat, t: Tid, call: Call)
    requires Spans(states, i, n, t) && Progress(states, steps, i, n, t, call)
    ensures if Idle(call) then SilentBut(states, steps, i, n, t, -1) else Once(states, steps, i, n, t, call)
  {
  }

  // ---------- calls of clients and handlers, from their beginning ----------

  /** Step i is the thread's call, and n is the first point after it at which the thread rests. */
  predicate Calls(states: seq<State>, steps: seq<Step>, i: nat, n: nat, t: Tid, call: Call) {
    && i < n < |states| == |steps| + 1 && steps[i] == Step(t, Begin(call))
    && (forall k :: i <= k <= n ==> t in states[k].threads)
    && (forall k :: i < k < n ==> !states[k].threads[t].op.Resting?)
    && states[n].threads[t].op.Resting?
  }

  lemma BeginSilent(s: State, t: Tid, call: Call)
    requires CoreInv(s) && CanStep(s, t, Begin(call))
    ensures Rings.Valid(Next(s, t, Begin(call)).mail.ring) && Silent(s, Next(s, t, Begin(call)))
    ensures t in Next(s, t, Begin(call)).threads && !InLoop(Next(s, t, Begin(call)).threads[t].base)
    ensures var op' := Next(s, t, Begin(call)).threads[t].op;
      match call
      case Create => op' == Pushing(CreateLock)
      case QueryCall(q) => if q == OfHandle(0) then op'.Resting? else Before(op', call)
      case _ => Before(op', call)
  {
    hide Contents, Rings.Valid, Full;
  }

  /**
   * Every call but a creation: among the caller's steps from the call to its return exactly one has the call's
   * effect, and the others touch neither queue, windows, slots nor log. A push for the invalid handle, and a search
   * by it, touch nothing.
   */
  lemma CallTakesEffect(states: seq<State>, steps: seq<Step>, i: nat, n: nat, t: Tid, call: Call)
    requires IsRun(states, steps) && Throughout(states) && !call.Create?
    requires Calls(states, steps, i, n, t, call)
    ensures if Idle(call) || call == QueryCall(OfHandle(0)) then SilentBut(states, steps, i, n, t, -1)
            else Once(states, steps, i, n, t, call)
  {
    hide Progress, Throughout, Init, Next, CanStep, Once, SilentBut, Before, After;
    ValidAt(states, i);
    assert CanStep(states[i], t, Begin(call)) && states[i + 1] == Next(states[i], t, Begin(call));
    BeginSilent(states[i], t, call);
    BeforeBusy(states[i + 1].threads[t].op, call);
    SilentFirst(states, steps, i, t);
    if !states[i + 1].threads[t].op.Resting? {
      StartsProgress(states, steps, i, t, call);
      CallOnce(states, steps, i + 1, i + 1, n, t, call);
      SilentEarlier(states, steps, i, n, t, call);
    } else {
      RestsAtOnce(states, steps, i, n, t, call);
    }
  }

  lemma BeforeBusy(op: Op, call: Call)
    ensures Before(op, call) ==> !op.Resting?
  {
  }

  lemma SilentFirst(states: seq<State>, steps: seq<Step>, i: nat, t: Tid)
    requires i < |steps| < |states| && Rings.Valid(states[i].mail.ring) && Rings.Valid(states[i + 1].mail.ring)
    requires Silent(states[i], states[i + 1])
    ensures SilentAt(states, i)
  {
  }

  lemma StartsProgress(states: seq<State>, steps: seq<Step>, i: nat, t: Tid, call: Call)
    requires i < |steps| < |states| && t in states[i + 1].threads
    requires !InLoop(states[i + 1].threads[t].base) && Before(states[i + 1].threads[t].op, call)
    ensures Progress(states, steps, i + 1, i + 1, t, call)
  {
  }

  lemma SilentEarlier(states: seq<State>, steps: seq<Step>, i: nat, n: nat, t: Tid, call: Call)
    requires SilentAt(states, i) && i < n
    ensures SilentBut(states, steps, i + 1, n, t, -1) ==> SilentBut(states, steps, i, n, t, -1)
    ensures Once(states, steps, i + 1, n, t, call) ==> Once(states, steps, i, n, t, call)
  {
    hide SilentAt, EffectAt;
    if Once(states, steps, i + 1, n, t, call) {
      var j: nat :| i + 1 <= j < n <= |steps| && steps[j].t == t && EffectAt(states, j, t, call)
                    && SilentBut(states, steps, i + 1, n, t, j);
      assert SilentBut(states, steps, i, n, t, j);
    }
  }

  lemma RestsAtOnce(states: seq<State>, steps: seq<Step>, i: nat, n: nat, t: Tid, call: Call)
    requires Calls(states, steps, i, n, t, call) && SilentAt(states, i) && states[i + 1].threads[t].op.Resting?
    ensures n == i + 1 && SilentBut(states, steps, i, n, t, -1)
  {
  }

  // ---------- creations ----------

  /** malloc succeeded: the window is the last of the list. */
  ghost predicate Listed(h: u32, s: State, s': State)
    requires Rings.Valid(s.mail.ring) && Rings.Valid(s'.mail.ring)
  {
    && Contents(s'.mail.ring) == Contents(s.mail.ring) && s'.table.slots == s.table.slots
    && s'.desk.windows == s.desk.windows + [h] && h !in s.desk.windows && s'.log == s.log + [Created(h)]
  }

  /** The creation has not asked for memory yet. */
  predicate Unmade(op: Op) {
    op.Pushing? && (op.push.CreateLock? || op.push.CreateBody?)
  }

  lemma CreateStep(s: State, t: Tid, a: Action)
    requires CoreInv(s) && CanStep(s, t, a) && Unmade(s.threads[t].op) && (forall h :: h in s.desk.windows ==> h in s.desk.known)
    ensures Rings.Valid(Next(s, t, a).mail.ring)
    ensures var s' := Next(s, t, a);
      t in s'.threads && if !a.Allocate? then Unmade(s'.threads[t].op) && Silent(s, s')
      else if a.hsm == 0 then After(s'.threads[t].op, Send(CreationMessage(0))) && Silent(s, s')
      else Before(s'.threads[t].op, Send(CreationMessage(a.hsm))) && Listed(a.hsm, s, s')
  {
    hide Contents, Rings.Valid, Full;
  }

  function CreationMessage(h: u32): Message {
    Message(h, 1, 0, 0)
  }

  /** Where a creation stands: nothing made yet; no memory; or made at point c, and its push under way. */
  ghost predicate Creation(states: seq<State>, steps: seq<Step>, i: nat, n: nat, t: Tid)
    requires n < |states|
  {
    && t in states[n].threads
    && (|| (Unmade(states[n].threads[t].op) && SilentBut(states, steps, i, n, t, -1))
        || (Failed(states, steps, i, n, t) && Progress(states, steps, i, n, t, Send(CreationMessage(0))))
        || exists c: nat :: Made(states, steps, i, c, n, t) && Progress(states, steps, c + 1, n, t, Send(CreationMessage(steps[c].a.hsm))))
  }

  ghost predicate Failed(states: seq<State>, steps: seq<Step>, i: nat, n: nat, t: Tid) {
    exists c: nat :: i <= c < n <= |steps| && steps[c] == Step(t, Allocate(0))
  }

  /** The window is made at point c, and the creator's steps before are silent. */
  ghost predicate Made(states: seq<State>, steps: seq<Step>, i: nat, c: nat, n: nat, t: Tid) {
    && i <= c < n <= |steps| && n < |states| && steps[c].t == t && steps[c].a.Allocate? && steps[c].a.hsm != 0
    && Rings.Valid(states[c].mail.ring) && Rings.Valid(states[c + 1].mail.ring)
    && Listed(steps[c].a.hsm, states[c], states[c + 1]) && SilentBut(states, steps, i, c, t, -1)
  }

  ghost predicate Named(states: seq<State>) {
    forall j, h :: 0 <= j < |states| && h in states[j].desk.windows ==> h in states[j].desk.known
  }

  lemma NamedAt(states: seq<State>, j: nat)
    requires Named(states) && j < |states|
    ensures forall h :: h in states[j].desk.windows ==> h in states[j].desk.known
  {
  }

  lemma CreationStepOn(states: seq<State>, steps: seq<Step>, i: nat, n: nat, t: Tid)
    requires IsRun(states, steps) && Throughout(states) && Named(states) && i <= n < |steps|
    requires Creation(states, steps, i, n, t) && !states[n].threads[t].op.Resting?
    ensures Creation(states, steps, i, n + 1, t)
  {
    hide Next, CanStep, Unmade, Before, After, Listed, Silent, CoreInv, SilentBut, Progress, Throughout, Named, Init;
    var s, step := states[n], steps[n];
    ValidAt(states, n);
    NamedAt(states, n);
    assert CanStep(s, step.t, step.a) && states[n + 1] == Next(s, step.t, step.a);
    if Unmade(s.threads[t].op) && SilentBut(states, steps, i, n, t, -1) {
      UnmadeOn(states, steps, i, n, t);
    } else if Failed(states, steps, i, n, t) && Progress(states, steps, i, n, t, Send(CreationMessage(0))) {
      ProgressStep(states, steps, i, n, t, Send(CreationMessage(0)));
      var c: nat :| i <= c < n <= |steps| && steps[c] == Step(t, Allocate(0));
      assert Failed(states, steps, i, n + 1, t);
    } else {
      var c: nat :| Made(states, steps, i, c, n, t) && Progress(states, steps, c + 1, n, t, Send(CreationMessage(steps[c].a.hsm)));
      ProgressStep(states, steps, c + 1, n, t, Send(CreationMessage(steps[c].a.hsm)));
      assert Made(states, steps, i, c, n + 1, t);
    }
    ThreadStays(s, step.t, step.a, t);
  }

  lemma ThreadStays(s: State, t: Tid, a: Action, u: Tid)
    requires CanStep(s, t, a) && u in s.threads
    ensures u in Next(s, t, a).threads
  {
  }

  lemma UnmadeOn(states: seq<State>, steps: seq<Step>, i: nat, n: nat, t: Tid)
    requires IsRun(states, steps) && Throughout(states) && i <= n < |steps| && t in states[n].threads
    requires forall h :: h in states[n].desk.windows ==> h in states[n].desk.known
    requires Unmade(states[n].threads[t].op) && SilentBut(states, steps, i, n, t, -1)
    ensures Creation(states, steps, i, n + 1, t)
  {
    hide Next, CanStep, Unmade, Before, After, Listed, Silent, CoreInv, Throughout, Init;
    var s, step := states[n], steps[n];
    ValidAt(states, n + 1);
    ValidAt(states, n);
    assert CanStep(s, step.t, step.a) && states[n + 1] == Next(s, step.t, step.a);
    if step.t != t {
      StepKeepsOthers(s, step.t, step.a, t);
    } else {
      CreateStep(s, t, step.a);
      if step.a.Allocate? && step.a.hsm != 0 {
        assert Made(states, steps, i, n, n + 1, t);
        assert SilentBut(states, steps, n + 1, n + 1, t, -1);
      } else {
        assert SilentAt(states, n);
      }
    }
  }

  lemma {:induction false} CreationOn(states: seq<State>, steps: seq<Step>, i: nat, k: nat, n: nat, t: Tid)
    requires IsRun(states, steps) && Throughout(states) && Named(states)
    requires Spans(states, i, n, t) && i <= k <= n && Creation(states, steps, i, k, t)
    ensures Creation(states, steps, i, n, t)
    decreases n - k
  {
    hide Creation, Throughout, Named, Init, Next, CanStep;
    if k < n {
      BusyAt(states, i, k, n, t);
      CreationStepOn(states, steps, i, k, t);
      CreationOn(states, steps, i, k + 1, n, t);
    }
  }

  /**
   * A creation, from its call to its return: either no memory is got and nothing happens, or at one step the window
   * is appended to the list, and at exactly one later step its SMM_CREATE is pushed, and nothing else happens.
   */
  lemma CreationTakesEffect(states: seq<State>, steps: seq<Step>, i: nat, n: nat, t: Tid)
    requires IsRun(states, steps) && Throughout(states) && Named(states) && Calls(states, steps, i, n, t, Create)
    ensures (Failed(states, steps, i, n, t) && SilentBut(states, steps, i, n, t, -1))
         || exists c: nat :: Made(states, steps, i, c, n, t) && Once(states, steps, c + 1, n, t, Send(CreationMessage(steps[c].a.hsm)))
  {
    hide Progress, Throughout, Named, Init, Next, CanStep, Silent, Creation, Unmade;
    ValidAt(states, i);
    assert CanStep(states[i], t, Begin(Create)) && states[i + 1] == Next(states[i], t, Begin(Create));
    BeginSilent(states[i], t, Create);
    SilentFirst(states, steps, i, t);
    CreationStarts(states, steps, i, t);
    CreationOn(states, steps, i + 1, i + 1, n, t);
    CreationEnds(states, steps, i, n, t);
  }

  lemma CreationStarts(states: seq<State>, steps: seq<Step>, i: nat, t: Tid)
    requires i < |steps| < |states| && t in states[i + 1].threads && states[i + 1].threads[t].op == Pushing(CreateLock)
    ensures Creation(states, steps, i + 1, i + 1, t)
  {
  }

  lemma CreationEnds(states: seq<State>, steps: seq<Step>, i: nat, n: nat, t: Tid)
    requires Calls(states, steps, i, n, t, Create) && SilentAt(states, i) && i + 1 < n
    requires Creation(states, steps, i + 1, n, t)
    ensures (Failed(states, steps, i, n, t) && SilentBut(states, steps, i, n, t, -1))
         || exists c: nat :: Made(states, steps, i, c, n, t) && Once(states, steps, c + 1, n, t, Send(CreationMessage(steps[c].a.hsm)))
  {
    hide SilentAt, EffectAt, Listed;
    if Failed(states, steps, i + 1, n, t) && Progress(states, steps, i + 1, n, t, Send(CreationMessage(0))) {
      var c: nat :| i + 1 <= c < n <= |steps| && steps[c] == Step(t, Allocate(0));
      assert Failed(states, steps, i, n, t);
    } else {
      var c: nat :| Made(states, steps, i + 1, c, n, t) && Progress(states, steps, c + 1, n, t, Send(CreationMessage(steps[c].a.hsm)));
      assert Made(states, steps, i, c, n, t);
    }
  }
}
