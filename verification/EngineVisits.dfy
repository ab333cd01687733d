/** What the ticker asks, what it is told, and what it sends, visit by visit. */
module EngineVisits {
  import opened Messages
  import opened Rings
  import opened TickSlots
  import opened WindowLists
  import opened Engine
  import opened EngineLocks
  import opened EngineTiming
  import opened EngineCalls

  /** The message the ticker looks for, and the one it sends, on behalf of slot k. */
  predicate IsProbe(slot: TickSlot, k: nat, m: Message) {
    m.hsm == slot.hsm && m.message == 0x2000_0002 && m.param1 == k + 1 && m.param2 == slot.count
  }

  ghost predicate HasProbe(q: seq<Message>, slot: TickSlot, k: nat) {
    exists m :: m in q && IsProbe(slot, k, m)
  }

  predicate IsNotice(slot: TickSlot, k: nat, m: Message) {
    m.hsm == slot.hsm && m.message == 0x2000_0002 && m.param1 == k + 1
    && m.param2 == if slot.param2 != 0 then slot.param2 else slot.count
  }

  predicate Asks(op: Op, slot: TickSlot, k: nat) {
    op.Scanning? && (op.scan.QueryLock? || op.scan.QueryBody?) && op.scan.q.Exact? && IsProbe(slot, k, op.scan.q.m)
  }

  /** The push is under way, its message not yet accepted or refused. */
  predicate Pushes(op: Op, m: Message) {
    op.Pushing? && (op.push == SendLock(m) || op.push == PushLock(m) || op.push == PushBody(m) || op.push == PushSignal(m)
                    || op.push == PushAdvance(m))
  }

  predicate Ends(op: Op) {
    op.Resting? || (op.Pushing? && (op.push.PushUnlock? || op.push.SystemUnlock?))
  }

  /** The ticker's business is with an occupied slot, and concerns the right messages. */
  ghost predicate VisitOk(op: Op, phase: Phase, slots: seq<TickSlot>)
    requires |slots| == NTICKS
  {
    match phase
    case Asked(k) => k < NTICKS && slots[k].hsm != 0 && (Asks(op, slots[k], k) || (op.Scanning? && op.scan.QueryUnlock?))
    case Answered(k, _) => k < NTICKS && slots[k].hsm != 0 && op.Resting?
    case Settling(k) =>
      k < NTICKS && slots[k].hsm != 0 && (Ends(op) || exists m :: IsNotice(slots[k], k, m) && Pushes(op, m))
    case At(k) => op.Resting? && k <= NTICKS
    case _ => op.Resting?
  }

  ghost predicate VisitInv(s: State) {
    && |s.table.slots| == NTICKS && TICKER in s.threads && s.threads[TICKER].base.Ticker?
    && VisitOk(s.threads[TICKER].op, s.threads[TICKER].base.phase, s.table.slots)
  }

  lemma VisitInit(s: State)
    requires Init(s)
    ensures VisitInv(s)
  {
  }

  lemma VisitSelf(v: View)
    requires WellFormed(v) && ThreadOk(v) && Ready(v) && v.th.base.Ticker?
    requires VisitOk(v.th.op, v.th.base.phase, v.table.slots)
    ensures var w := DoProceed(v);
      w.th.base.Ticker? && |w.table.slots| == NTICKS && VisitOk(w.th.op, w.th.base.phase, w.table.slots)
  {
    hide Contents, Rings.Valid, Full, Due;
    if v.th.op.Resting? && v.th.base.phase.Answered? {
      var k := v.th.base.phase.i;
      assert IsNotice(v.table.slots[k], k, Notice(v.table.slots[k], k));
    }
    if v.th.op.Pushing? && v.th.base.phase.Settling? && !Ends(v.th.op) {
      var k := v.th.base.phase.i;
      var m :| IsNotice(v.table.slots[k], k, m) && Pushes(v.th.op, m);
      assert Ends(DoProceed(v).th.op) || Pushes(DoProceed(v).th.op, m);
    }
  }

  /** Nobody else touches the slots while the ticker holds the tick lock. */
  lemma SlotsUntouched(v: View, a: Action)
    requires WellFormed(v) && ThreadOk(v) && Enabled(v, a) && v.locks.tick != Some(v.me)
    ensures Do(v, a).table.slots == v.table.slots || v.th.base.Ticker?
  {
    hide Contents, Rings.Valid, Full, Mark, Without, FirstFree, DropSlot;
  }

  lemma VisitStep(s: State, t: Tid, a: Action)
    requires CoreInv(s) && VisitInv(s) && CanStep(s, t, a)
    ensures VisitInv(Next(s, t, a))
  {
    hide Do, Enabled, ThreadOk, VisitOk;
    var v := ViewOf(s, t);
    assert ThreadOk(v) && ThreadOk(ViewOf(s, TICKER));
    OrderlyDo(v, a);
    if t == TICKER {
      EngineTiming.TickerProceeds(v, a);
      VisitSelf(v);
    } else {
      TickHeld(s, t);
      if s.locks.tick == Some(TICKER) {
        SlotsUntouched(v, a);
      } else {
        VisitFree(s.threads[TICKER].op, s.threads[TICKER].base.phase, s.table.slots, Do(v, a).table.slots);
      }
    }
  }

  lemma TickHeld(s: State, t: Tid)
    requires CoreInv(s) && t in s.threads
    ensures s.threads[t].base.Ticker? <==> t == TICKER
    ensures s.locks.tick != Some(TICKER) ==> s.threads[TICKER].base.phase.Sleeping? || s.threads[TICKER].base.phase.Waking?
  {
    assert ThreadOk(ViewOf(s, TICKER)) && ThreadOk(ViewOf(s, t));
  }

  lemma VisitFree(op: Op, phase: Phase, slots: seq<TickSlot>, slots': seq<TickSlot>)
    requires |slots| == |slots'| == NTICKS && VisitOk(op, phase, slots) && (phase.Sleeping? || phase.Waking?)
    ensures VisitOk(op, phase, slots')
  {
  }

  lemma {:induction false} RunVisits(states: seq<State>, steps: seq<Step>, n: nat)
    requires IsRun(states, steps) && Throughout(states) && n < |states|
    ensures VisitInv(states[n])
  {
    hide Next, CanStep, VisitInv, CoreInv;
    if n == 0 {
      VisitInit(states[0]);
    } else {
      RunVisits(states, steps, n - 1);
      VisitStep(states[n - 1], steps[n - 1].t, steps[n - 1].a);
    }
  }

  // ---------- one visit, from the check to the new count ----------

  /** The step leaves queue, windows and log alone. */
  ghost predicate QuietAt(states: seq<State>, j: nat) {
    && j + 1 < |states| && Rings.Valid(states[j].mail.ring) && Rings.Valid(states[j + 1].mail.ring)
    && Contents(states[j + 1].mail.ring) == Contents(states[j].mail.ring)
    && states[j + 1].desk.windows == states[j].desk.windows && states[j + 1].log == states[j].log
  }

  ghost predicate SentAt(states: seq<State>, j: nat, m: Message) {
    && j + 1 < |states| && Rings.Valid(states[j].mail.ring) && Rings.Valid(states[j + 1].mail.ring)
    && Sent(m, states[j], states[j + 1])
  }

  /** The ticker's steps from i on and before n are quiet, but for one, if any. */
  ghost predicate QuietBut(states: seq<State>, steps: seq<Step>, i: nat, n: nat, but: int) {
    n <= |steps| && forall j :: i <= j < n && steps[j].t == TICKER && j != but ==> QuietAt(states, j)
  }

  /** The ticker looked at point b, between i and n; `found` says whether the slot's tick was queued then. */
  ghost predicate Looked(states: seq<State>, steps: seq<Step>, i: nat, n: nat, b: nat, slot: TickSlot, k: nat, found: bool) {
    && i <= b < n <= |steps| && b < |states| && steps[b].t == TICKER && Rings.Valid(states[b].mail.ring)
    && (found <==> HasProbe(Contents(states[b].mail.ring), slot, k))
  }

  /** One tick was sent, at point j after the look. */
  ghost predicate SentOnce(states: seq<State>, steps: seq<Step>, i: nat, n: nat, b: nat, j: nat, m: Message) {
    && b < j < n <= |steps| && steps[j].t == TICKER && SentAt(states, j, m) && QuietBut(states, steps, i, n, j)
  }

  /** The tick was queued and nothing was sent; or it was not, and was sent exactly once. */
  ghost predicate Decided(states: seq<State>, steps: seq<Step>, i: nat, n: nat, slot: TickSlot, k: nat) {
    || (exists b: nat :: Looked(states, steps, i, n, b, slot, k, true) && QuietBut(states, steps, i, n, -1))
    || (exists b: nat, j: nat, m :: Looked(states, steps, i, n, b, slot, k, false) && IsNotice(slot, k, m)
                                     && SentOnce(states, steps, i, n, b, j, m))
  }

  ghost predicate Visit(states: seq<State>, steps: seq<Step>, i: nat, n: nat, slot: TickSlot, k: nat)
    requires n < |states|
  {
    var s := states[n];
    && |s.table.slots| == NTICKS && k < NTICKS && slot.hsm != 0
    && TICKER in s.threads && s.threads[TICKER].base.Ticker?
    && var op, phase := s.threads[TICKER].op, s.threads[TICKER].base.phase;
    (phase != At(k + 1) ==> s.table.slots[k] == slot)
    && (|| (phase == Asked(k) && Asks(op, slot, k) && QuietBut(states, steps, i, n, -1))
        || (phase == Asked(k) && op.Scanning? && op.scan.QueryUnlock? && QuietBut(states, steps, i, n, -1)
            && exists b: nat :: Looked(states, steps, i, n, b, slot, k, op.scan.found))
        || (phase.Answered? && phase.i == k && op.Resting? && QuietBut(states, steps, i, n, -1)
            && exists b: nat :: Looked(states, steps, i, n, b, slot, k, phase.found))
        || (phase == Settling(k) && QuietBut(states, steps, i, n, -1)
            && exists m, b: nat :: IsNotice(slot, k, m) && Pushes(op, m) && Looked(states, steps, i, n, b, slot, k, false))
        || ((phase == Settling(k) || phase == At(k + 1)) && Ends(op) && Decided(states, steps, i, n, slot, k)))
  }

  lemma QuietOn(states: seq<State>, steps: seq<Step>, i: nat, n: nat, slot: TickSlot, k: nat)
    requires n < |steps| && (steps[n].t == TICKER ==> QuietAt(states, n))
    ensures forall but :: QuietBut(states, steps, i, n, but) ==> QuietBut(states, steps, i, n + 1, but)
    ensures forall b, found :: Looked(states, steps, i, n, b, slot, k, found) ==> Looked(states, steps, i, n + 1, b, slot, k, found)
    ensures Decided(states, steps, i, n, slot, k) ==> Decided(states, steps, i, n + 1, slot, k)
  {
    hide QuietAt, SentAt, IsNotice, IsProbe, Contents;
    forall b, found | Looked(states, steps, i, n, b, slot, k, found)
      ensures Looked(states, steps, i, n + 1, b, slot, k, found)
    {
    }
    if Decided(states, steps, i, n, slot, k) {
      if b: nat :| Looked(states, steps, i, n, b, slot, k, true) && QuietBut(states, steps, i, n, -1) {
        assert Looked(states, steps, i, n + 1, b, slot, k, true);
      } else {
        var b: nat, j: nat, m :| Looked(states, steps, i, n, b, slot, k, false) && IsNotice(slot, k, m)
                                 && SentOnce(states, steps, i, n, b, j, m);
        assert Looked(states, steps, i, n + 1, b, slot, k, false) && SentOnce(states, steps, i, n + 1, b, j, m);
      }
    }
  }

  /** The phase moves only between calls, except that an answer moves it on. */
  lemma PhaseMoves(v: View)
    requires WellFormed(v) && ThreadOk(v) && Ready(v) && v.th.base.Ticker? && !v.th.op.Resting?
    ensures var w := DoProceed(v);
      && w.th.base.Ticker? && w.table.slots == v.table.slots
      && w.th.base == if v.th.base.phase.Asked? && v.th.op.Scanning? && v.th.op.scan.QueryUnlock?
                      then Ticker(Answered(v.th.base.phase.i, v.th.op.scan.found)) else v.th.base
  {
    hide Contents, Rings.Valid, Full;
  }

  lemma AskStep(s: State, slot: TickSlot, k: nat)
    requires CoreInv(s) && CanStep(s, TICKER, Proceed) && Asks(s.threads[TICKER].op, slot, k)
    ensures Rings.Valid(Next(s, TICKER, Proceed).mail.ring) && Silent(s, Next(s, TICKER, Proceed))
    ensures var op' := Next(s, TICKER, Proceed).threads[TICKER].op;
      Asks(op', slot, k) || op' == Scanning(QueryUnlock(exists m :: m in Contents(s.mail.ring) && IsProbe(slot, k, m)))
  {
    hide Contents, Rings.Valid, Full, Do, Enabled, CoreInv, ThreadOk, Silent;
    var q := s.threads[TICKER].op.scan.q;
    BeforeStep(s, TICKER, Proceed, QueryCall(q));
    ValidRing(s);
    if Told(q, TICKER, s, Next(s, TICKER, Proceed)) {
      ToldSilent(q, TICKER, s, Next(s, TICKER, Proceed));
    }
    assert forall m :: IsProbe(slot, k, m) ==> m == q.m;
    assert q.m in Contents(s.mail.ring) ==> IsProbe(slot, k, q.m);
  }

  lemma ToldSilent(q: Query, t: Tid, s: State, s': State)
    requires Rings.Valid(s.mail.ring) && Rings.Valid(s'.mail.ring) && Told(q, t, s, s')
    ensures Silent(s, s')
  {
  }

  lemma PushStepOn(s: State, m: Message)
    requires CoreInv(s) && CanStep(s, TICKER, Proceed) && Pushes(s.threads[TICKER].op, m) && m.hsm != 0
    ensures Rings.Valid(Next(s, TICKER, Proceed).mail.ring)
    ensures var s' := Next(s, TICKER, Proceed);
      (Pushes(s'.threads[TICKER].op, m) && Silent(s, s')) || (Ends(s'.threads[TICKER].op) && Sent(m, s, s'))
  {
    hide Contents, Rings.Valid, Full, Do, Enabled, CoreInv, ThreadOk, Silent, Sent;
    BeforeStep(s, TICKER, Proceed, Send(m));
  }

  lemma EndStep(s: State)
    requires CoreInv(s) && CanStep(s, TICKER, Proceed) && Ends(s.threads[TICKER].op) && !s.threads[TICKER].op.Resting?
    ensures Rings.Valid(Next(s, TICKER, Proceed).mail.ring) && Silent(s, Next(s, TICKER, Proceed))
    ensures Ends(Next(s, TICKER, Proceed).threads[TICKER].op)
  {
    hide Contents, Rings.Valid, Full, Do, Enabled, CoreInv, ThreadOk, Silent;
    AfterStep(s, TICKER, Proceed, Send(Message(0, 0, 0, 0)));
  }

  /** Between calls: the answer decides, and at the end the count starts again. */
  lemma RestStep(v: View, k: nat)
    requires WellFormed(v) && ThreadOk(v) && Ready(v) && v.th.op.Resting? && k < NTICKS && v.th.base.Ticker?
    requires v.th.base.phase == Settling(k) || (v.th.base.phase.Answered? && v.th.base.phase.i == k)
    ensures var w := DoProceed(v);
      && w.mail == v.mail && w.desk == v.desk && w.log == v.log && w.th.base.Ticker? && |w.table.slots| == NTICKS
      && if v.th.base.phase == Settling(k) then w.th == Thread(Resting, Ticker(At(k + 1)))
         else w.table.slots == v.table.slots && w.th.base == Ticker(Settling(k))
              && if v.th.base.phase.found then w.th.op.Resting?
                 else exists m :: IsNotice(v.table.slots[k], k, m) && w.th.op == Pushing(SendLock(m))
  {
    hide Contents, Rings.Valid, Full;
    assert IsNotice(v.table.slots[k], k, Notice(v.table.slots[k], k));
  }

  /** The look itself, and the steps up to it. */
  lemma VisitAsks(states: seq<State>, steps: seq<Step>, i: nat, n: nat, slot: TickSlot, k: nat)
    requires IsRun(states, steps) && Throughout(states) && i <= n < |steps| && steps[n] == Step(TICKER, Proceed)
    requires Visit(states, steps, i, n, slot, k) && PhaseOf(states[n]) != At(k + 1)
    requires PhaseOf(states[n]) == Asked(k) && Asks(states[n].threads[TICKER].op, slot, k)
    ensures Visit(states, steps, i, n + 1, slot, k)
  {
    hide Do, Enabled, ThreadOk, Silent, Sent, CoreInv, IsNotice, IsProbe, Contents, Rings.Valid, Decided, Looked,
         QuietBut, Init, Throughout;
    var s, s' := states[n], states[n + 1];
    ThroughoutAt(states, n);
    ThroughoutAt(states, n + 1);
    var v := ViewOf(s, TICKER);
    TickerOk(s);
    assert CanStep(s, TICKER, Proceed) && s' == Next(s, TICKER, Proceed);
    TickerProceeds(v);
    PhaseMoves(v);
    AskStep(s, slot, k);
    SilentQuiet(states, n);
    QuietOn(states, steps, i, n, slot, k);
    LooksNow(states, steps, i, n, slot, k);
    var found := HasProbe(Contents(s.mail.ring), slot, k);
    var op' := s'.threads[TICKER].op;
    if !Asks(op', slot, k) {
      assert op' == Scanning(QueryUnlock(found)) && Looked(states, steps, i, n + 1, n, slot, k, found);
    }
  }

  /** The answer is handed over. */
  lemma VisitAnswers(states: seq<State>, steps: seq<Step>, i: nat, n: nat, slot: TickSlot, k: nat)
    requires IsRun(states, steps) && Throughout(states) && i <= n < |steps| && steps[n] == Step(TICKER, Proceed)
    requires Visit(states, steps, i, n, slot, k) && PhaseOf(states[n]) != At(k + 1)
    requires PhaseOf(states[n]) == Asked(k) && !Asks(states[n].threads[TICKER].op, slot, k)
    ensures Visit(states, steps, i, n + 1, slot, k)
  {
    hide Do, Enabled, ThreadOk, Silent, Sent, CoreInv, IsNotice, IsProbe, Contents, Rings.Valid, Decided, Looked,
         QuietBut, Init, Throughout, HasProbe;
    var s, s' := states[n], states[n + 1];
    ThroughoutAt(states, n);
    ThroughoutAt(states, n + 1);
    var v := ViewOf(s, TICKER);
    TickerOk(s);
    assert CanStep(s, TICKER, Proceed) && s' == Next(s, TICKER, Proceed);
    TickerProceeds(v);
    PhaseMoves(v);
    AfterStep(s, TICKER, Proceed, QueryCall(OfHandle(1)));
    SilentQuiet(states, n);
    QuietOn(states, steps, i, n, slot, k);
    AnswerRests(v);
  }

  /** The push goes on after the message is in, or refused. */
  lemma VisitEnds(states: seq<State>, steps: seq<Step>, i: nat, n: nat, slot: TickSlot, k: nat)
    requires IsRun(states, steps) && Throughout(states) && i <= n < |steps| && steps[n] == Step(TICKER, Proceed)
    requires Visit(states, steps, i, n, slot, k) && PhaseOf(states[n]) != At(k + 1)
    requires PhaseOf(states[n]) == Settling(k) && !states[n].threads[TICKER].op.Resting?
    requires Ends(states[n].threads[TICKER].op)
    ensures Visit(states, steps, i, n + 1, slot, k)
  {
    hide Do, Enabled, ThreadOk, Silent, Sent, CoreInv, IsNotice, IsProbe, Contents, Rings.Valid, Decided, Looked,
         QuietBut, Init, Throughout, HasProbe;
    var s, s' := states[n], states[n + 1];
    ThroughoutAt(states, n);
    ThroughoutAt(states, n + 1);
    var v := ViewOf(s, TICKER);
    TickerOk(s);
    assert CanStep(s, TICKER, Proceed) && s' == Next(s, TICKER, Proceed);
    TickerProceeds(v);
    PhaseMoves(v);
    EndStep(s);
    SilentQuiet(states, n);
    QuietOn(states, steps, i, n, slot, k);
  }

  /** The push itself. */
  lemma VisitSends(states: seq<State>, steps: seq<Step>, i: nat, n: nat, slot: TickSlot, k: nat)
    requires IsRun(states, steps) && Throughout(states) && i <= n < |steps| && steps[n] == Step(TICKER, Proceed)
    requires Visit(states, steps, i, n, slot, k) && PhaseOf(states[n]) != At(k + 1)
    requires PhaseOf(states[n]) == Settling(k) && !Ends(states[n].threads[TICKER].op)
    ensures Visit(states, steps, i, n + 1, slot, k)
  {
    hide Do, Enabled, ThreadOk, Silent, Sent, CoreInv, IsNotice, IsProbe, Contents, Rings.Valid, Decided, Looked,
         QuietBut, Init, Throughout, HasProbe;
    var s, s' := states[n], states[n + 1];
    ThroughoutAt(states, n);
    ThroughoutAt(states, n + 1);
    var v := ViewOf(s, TICKER);
    TickerOk(s);
    assert CanStep(s, TICKER, Proceed) && s' == Next(s, TICKER, Proceed);
    TickerProceeds(v);
    var m, b: nat :| IsNotice(slot, k, m) && Pushes(v.th.op, m) && Looked(states, steps, i, n, b, slot, k, false);
    PhaseMoves(v);
    NoticeHandle(slot, k, m);
    PushStepOn(s, m);
    if Silent(s, s') && Pushes(s'.threads[TICKER].op, m) {
      SilentQuiet(states, n);
      QuietOn(states, steps, i, n, slot, k);
    } else {
      SendsNow(states, steps, i, n, b, slot, k, m);
    }
  }

  /** The ticker's steps between calls. */
  lemma VisitRests(states: seq<State>, steps: seq<Step>, i: nat, n: nat, slot: TickSlot, k: nat)
    requires IsRun(states, steps) && Throughout(states) && i <= n < |steps| && steps[n] == Step(TICKER, Proceed)
    requires Visit(states, steps, i, n, slot, k) && PhaseOf(states[n]) != At(k + 1)
    requires states[n].threads[TICKER].op.Resting?
    ensures Visit(states, steps, i, n + 1, slot, k)
  {
    hide Do, Enabled, ThreadOk, Silent, Sent, CoreInv, IsNotice, IsProbe, Contents, Rings.Valid, Decided, Looked,
         QuietBut, Init, Throughout, HasProbe;
    var s, s' := states[n], states[n + 1];
    ThroughoutAt(states, n);
    ThroughoutAt(states, n + 1);
    var v := ViewOf(s, TICKER);
    TickerOk(s);
    assert CanStep(s, TICKER, Proceed) && s' == Next(s, TICKER, Proceed);
    TickerProceeds(v);
    RestStep(v, k);
    assert QuietAt(states, n);
    QuietOn(states, steps, i, n, slot, k);
    var found := s'.threads[TICKER].base.phase.Settling? && v.th.base.phase.found;
    if s'.threads[TICKER].base.phase.Settling? {
      var b: nat :| Looked(states, steps, i, n, b, slot, k, found);
      assert Looked(states, steps, i, n + 1, b, slot, k, found);
      if found {
        DecidesFound(states, steps, i, n + 1, b, slot, k);
      }
    }
  }

  lemma DecidesFound(states: seq<State>, steps: seq<Step>, i: nat, n: nat, b: nat, slot: TickSlot, k: nat)
    requires Looked(states, steps, i, n, b, slot, k, true) && QuietBut(states, steps, i, n, -1)
    ensures Decided(states, steps, i, n, slot, k)
  {
    hide Looked, QuietBut;
  }

  lemma TickerProceeds(v: View)
    requires WellFormed(v) && ThreadOk(v) && Enabled(v, Proceed)
    ensures Ready(v) && Do(v, Proceed) == DoProceed(v)
  {
  }

  lemma ThroughoutAt(states: seq<State>, j: nat)
    requires Throughout(states) && j < |states|
    ensures CoreInv(states[j]) && Rings.Valid(states[j].mail.ring) && |states[j].table.slots| == NTICKS
    ensures TICKER in states[j].threads && states[j].threads[TICKER].base.Ticker?
  {
    assert ThreadOk(ViewOf(states[j], TICKER));
  }

  lemma TickerOk(s: State)
    requires CoreInv(s)
    ensures TICKER in s.threads && WellFormed(ViewOf(s, TICKER)) && ThreadOk(ViewOf(s, TICKER))
  {
  }

  lemma ValidRing(s: State)
    requires CoreInv(s)
    ensures Rings.Valid(s.mail.ring)
  {
  }

  lemma NoticeHandle(slot: TickSlot, k: nat, m: Message)
    requires IsNotice(slot, k, m)
    ensures m.hsm == slot.hsm
  {
  }

  lemma SilentQuiet(states: seq<State>, n: nat)
    requires n + 1 < |states| && Rings.Valid(states[n].mail.ring) && Rings.Valid(states[n + 1].mail.ring)
    ensures Silent(states[n], states[n + 1]) ==> QuietAt(states, n) && states[n + 1].table.slots == states[n].table.slots
  {
  }

  lemma AnswerRests(v: View)
    requires WellFormed(v) && Ready(v) && v.th.op.Scanning? && v.th.op.scan.QueryUnlock?
    ensures DoProceed(v).th.op.Resting?
  {
  }

  lemma LooksNow(states: seq<State>, steps: seq<Step>, i: nat, n: nat, slot: TickSlot, k: nat)
    requires i <= n < |steps| < |states| && steps[n].t == TICKER && Rings.Valid(states[n].mail.ring)
    ensures Looked(states, steps, i, n + 1, n, slot, k, HasProbe(Contents(states[n].mail.ring), slot, k))
  {
  }

  lemma SendsNow(states: seq<State>, steps: seq<Step>, i: nat, n: nat, b: nat, slot: TickSlot, k: nat, m: Message)
    requires i <= n < |steps| && n + 1 < |states| && steps[n].t == TICKER && IsNotice(slot, k, m)
    requires Looked(states, steps, i, n, b, slot, k, false) && QuietBut(states, steps, i, n, -1)
    requires Rings.Valid(states[n].mail.ring) && Rings.Valid(states[n + 1].mail.ring) && Sent(m, states[n], states[n + 1])
    ensures Decided(states, steps, i, n + 1, slot, k)
    ensures states[n + 1].table.slots == states[n].table.slots
  {
    hide Contents, IsProbe, IsNotice, QuietAt;
    assert SentAt(states, n, m);
    assert Looked(states, steps, i, n + 1, b, slot, k, false) && SentOnce(states, steps, i, n + 1, b, n, m);
  }

  lemma VisitGoesOn(states: seq<State>, steps: seq<Step>, i: nat, n: nat, slot: TickSlot, k: nat)
    requires IsRun(states, steps) && Throughout(states) && i <= n < |steps| && steps[n] == Step(TICKER, Proceed)
    requires Visit(states, steps, i, n, slot, k) && PhaseOf(states[n]) != At(k + 1)
    requires PhaseOf(states[n]) != Asked(k)
    ensures Visit(states, steps, i, n + 1, slot, k)
  {
    hide Do, Enabled, CoreInv, IsNotice, IsProbe, Decided, Looked, QuietBut, Init, Throughout, Asks, Pushes, ThreadOk,
         CanStep, Next;
    if states[n].threads[TICKER].op.Resting? {
      VisitRests(states, steps, i, n, slot, k);
    } else if Ends(states[n].threads[TICKER].op) {
      VisitEnds(states, steps, i, n, slot, k);
    } else {
      VisitSends(states, steps, i, n, slot, k);
    }
  }

  /** Any thread's step inside a visit. */
  lemma VisitOn(states: seq<State>, steps: seq<Step>, i: nat, n: nat, slot: TickSlot, k: nat)
    requires IsRun(states, steps) && Throughout(states) && i <= n < |steps|
    requires Visit(states, steps, i, n, slot, k) && PhaseOf(states[n]) != At(k + 1)
    ensures Visit(states, steps, i, n + 1, slot, k)
  {
    hide Do, Enabled, CoreInv, IsNotice, IsProbe, Decided, Looked, QuietBut, Init, Throughout, Asks, Pushes, Ends,
         ThreadOk;
    ThroughoutAt(states, n);
    if steps[n].t == TICKER {
      TickerOk(states[n]);
      assert CanStep(states[n], TICKER, steps[n].a);
      EngineTiming.TickerProceeds(ViewOf(states[n], TICKER), steps[n].a);
      assert steps[n] == Step(TICKER, Proceed);
      var op, phase := states[n].threads[TICKER].op, PhaseOf(states[n]);
      if phase == Asked(k) {
        if Asks(op, slot, k) {
          VisitAsks(states, steps, i, n, slot, k);
        } else {
          VisitAnswers(states, steps, i, n, slot, k);
        }
      } else {
        VisitGoesOn(states, steps, i, n, slot, k);
      }
    } else {
      var s, t, a := states[n], steps[n].t, steps[n].a;
      assert CanStep(s, t, a) && states[n + 1] == Next(s, t, a);
      StepKeepsOthers(s, t, a, TICKER);
      SlotsHeld(s, t, a);
      QuietOn(states, steps, i, n, slot, k);
    }
  }

  lemma SlotsHeld(s: State, t: Tid, a: Action)
    requires CoreInv(s) && CanStep(s, t, a) && t != TICKER
    requires s.threads[TICKER].base.Ticker? && !s.threads[TICKER].base.phase.Sleeping? && !s.threads[TICKER].base.phase.Waking?
    ensures Next(s, t, a).table.slots == s.table.slots
  {
    hide Do, Enabled, ThreadOk;
    assert ThreadOk(ViewOf(s, t));
    TickHeld(s, t);
    SlotsUntouched(ViewOf(s, t), a);
  }

  /** The visit of slot k goes from the step that finds it due, at i, to the first point n at the next slot. */
  predicate IsVisit(states: seq<State>, i: nat, n: nat, k: nat) {
    && i + 1 < n < |states| && k < NTICKS && Fires(states[i], states[i + 1], k)
    && (forall j :: i < j < n ==> PhaseOf(states[j]) != At(k + 1)) && PhaseOf(states[n]) == At(k + 1)
  }

  lemma {:induction false} VisitTo(states: seq<State>, steps: seq<Step>, i: nat, j: nat, n: nat, slot: TickSlot, k: nat)
    requires IsRun(states, steps) && Throughout(states) && IsVisit(states, i, n, k) && i < j <= n
    requires Visit(states, steps, i, j, slot, k)
    ensures Visit(states, steps, i, n, slot, k)
    decreases n - j
  {
    hide Visit, Throughout, Init, CanStep, Next;
    if j < n {
      VisitOn(states, steps, i, j, slot, k);
      VisitTo(states, steps, i, j + 1, n, slot, k);
    }
  }

  /**
   * A visit that finds slot k due: the ticker looks once for the slot's tick (its window, SMM_TICK, its number, its
   * count). If it is queued nothing is sent; if not, exactly one push follows, of the same message or with param2 in
   * place of the count, accepted when there is room. The ticker's other steps touch neither queue, windows nor log.
   */
  lemma VisitDecides(states: seq<State>, steps: seq<Step>, i: nat, n: nat, k: nat)
    requires IsRun(states, steps) && Throughout(states) && IsVisit(states, i, n, k)
    ensures k < |states[i].table.slots| && Decided(states, steps, i, n, states[i].table.slots[k], k)
  {
    hide Throughout, Init, Do, Enabled, ThreadOk, CoreInv, Decided, Looked, QuietBut, Asks;
    ThroughoutAt(states, i);
    ThroughoutAt(states, i + 1);
    FiresTicker(states, steps, i, k);
    VisitTo(states, steps, i, i + 1, n, states[i].table.slots[k], k);
    VisitDone(states, steps, i, n, states[i].table.slots[k], k);
  }

  lemma VisitDone(states: seq<State>, steps: seq<Step>, i: nat, n: nat, slot: TickSlot, k: nat)
    requires n < |states| && Visit(states, steps, i, n, slot, k) && PhaseOf(states[n]) == At(k + 1)
    ensures Decided(states, steps, i, n, slot, k)
  {
  }

  lemma FiresTicker(states: seq<State>, steps: seq<Step>, i: nat, k: nat)
    requires IsRun(states, steps) && i < |steps| && k < NTICKS && CoreInv(states[i]) && CoreInv(states[i + 1])
    requires Fires(states[i], states[i + 1], k) && TICKER in states[i].threads && states[i].threads[TICKER].base.Ticker?
    requires |states[i].table.slots| == NTICKS
    ensures Visit(states, steps, i, i + 1, states[i].table.slots[k], k)
  {
    hide Do, Enabled, CoreInv, ThreadOk, Init;
    var s, t, a := states[i], steps[i].t, steps[i].a;
    assert CanStep(s, t, a) && states[i + 1] == Next(s, t, a);
    TickerOk(s);
    if t != TICKER {
      StepKeepsOthers(s, t, a, TICKER);
    } else {
      EngineTiming.TickerProceeds(ViewOf(s, TICKER), a);
      FireStep(ViewOf(s, TICKER), k);
      ValidRing(s);
      ValidRing(states[i + 1]);
      assert QuietAt(states, i);
    }
  }

  lemma FireStep(v: View, k: nat)
    requires WellFormed(v) && ThreadOk(v) && Ready(v) && v.th.base == Ticker(At(k)) && k < NTICKS
    requires DoProceed(v).th.base == Ticker(Asked(k))
    ensures var w := DoProceed(v);
      && w.mail == v.mail && w.desk == v.desk && w.log == v.log && w.table == v.table
      && v.table.slots[k].hsm != 0 && Asks(w.th.op, v.table.slots[k], k)
  {
    hide Contents, Rings.Valid, Full;
  }

  // ---------- a round visits every slot once ----------

  /** The round begun at point i has passed exactly the slots before the ticker's place. */
  predicate Passed(states: seq<State>, i: nat, n: nat, k: nat)
    requires i <= n < |states|
  {
    var phase := PhaseOf(states[n]);
    var place := match phase case At(j) => j case Asked(j) => j case Answered(j, _) => j case Settling(j) => j case _ => 0;
    !phase.Sleeping? && EngineTiming.Visits(states, i, n, k) == if !phase.Waking? && k < place then 1 else 0
  }

  /** The ticker's phases follow one another. */
  lemma PhaseOrder(v: View)
    requires WellFormed(v) && ThreadOk(v) && Ready(v) && v.th.base.Ticker?
    ensures DoProceed(v).th.base.Ticker?
    ensures var p, p' := v.th.base.phase, DoProceed(v).th.base.phase;
      match p
      case Sleeping => p' == Waking
      case Waking => p' == At(0)
      case At(j) => if j == NTICKS then p' == Sleeping else p' == At(j + 1) || p' == Asked(j)
      case Asked(j) => p' == p || (p'.Answered? && p'.i == j)
      case Answered(j, _) => p' == Settling(j)
      case Settling(j) => p' == p || p' == At(j + 1)
  {
    hide Contents, Rings.Valid, Full, Due;
  }

  /** One step of the whole engine, as the ticker's phase goes. */
  lemma PhaseStep(s: State, t: Tid, a: Action)
    requires CoreInv(s) && CanStep(s, t, a)
    ensures var p, p' := PhaseOf(s), PhaseOf(Next(s, t, a));
      p' == p ||
      match p
      case Sleeping => p' == Waking
      case Waking => p' == At(0)
      case At(j) => if j == NTICKS then p' == Sleeping else p' == At(j + 1) || p' == Asked(j)
      case Asked(j) => p'.Answered? && p'.i == j
      case Answered(j, _) => p' == Settling(j)
      case Settling(j) => p' == At(j + 1)
  {
    hide Do, Enabled, ThreadOk;
    TickerOk(s);
    if t == TICKER {
      TickHeld(s, t);
      EngineTiming.TickerProceeds(ViewOf(s, TICKER), a);
      PhaseOrder(ViewOf(s, TICKER));
    } else {
      StepKeepsOthers(s, t, a, TICKER);
    }
  }

  lemma PassedOn(states: seq<State>, steps: seq<Step>, i: nat, n: nat, k: nat)
    requires IsRun(states, steps) && Throughout(states) && i <= n < |steps| && k < NTICKS
    requires Passed(states, i, n, k) && !PhaseOf(states[n + 1]).Sleeping?
    ensures Passed(states, i, n + 1, k)
  {
    hide Next, CanStep, CoreInv, Init, Throughout, PhaseOf;
    ThroughoutAt(states, n);
    PhaseStep(states[n], steps[n].t, steps[n].a);
  }

  lemma {:induction false} PassedTo(states: seq<State>, steps: seq<Step>, i: nat, j: nat, n: nat, k: nat)
    requires IsRun(states, steps) && Throughout(states) && i <= j <= n < |states| && k < NTICKS
    requires Passed(states, i, j, k) && forall x :: j <= x <= n ==> !PhaseOf(states[x]).Sleeping?
    ensures Passed(states, i, n, k)
    decreases n - j
  {
    hide Passed, Throughout, Init, Next, CanStep;
    if j < n {
      PassedOn(states, steps, i, j, k);
      PassedTo(states, steps, i, j + 1, n, k);
    }
  }

  /** From waking up at point i to the end of the round at n, each of the 32 slots is visited exactly once. */
  lemma RoundVisitsAll(states: seq<State>, steps: seq<Step>, i: nat, n: nat, k: nat)
    requires IsRun(states, steps) && Throughout(states) && i < n < |states| && k < 32
    requires PhaseOf(states[i]) == Waking && PhaseOf(states[n]) == Sleeping
    requires forall x :: i <= x < n ==> !PhaseOf(states[x]).Sleeping?
    ensures EngineTiming.Visits(states, i, n, k) == 1
  {
    hide Next, CanStep, CoreInv, Init, Throughout, PhaseOf;
    PassedTo(states, steps, i, i, n - 1, k);
    ThroughoutAt(states, n - 1);
    PhaseStep(states[n - 1], steps[n - 1].t, steps[n - 1].a);
  }

  // ---------- a destroyed tick ----------

  /** The critical section of sm_destroy_tick for slot k, or of an sm_set_xtick that fills it. */
  predicate DropsSlot(s: State, step: Step, k: nat) {
    && step.a.Proceed? && step.t in s.threads && s.threads[step.t].op.Tabling? && s.threads[step.t].op.work.TickBody?
    && s.threads[step.t].op.work.call.DropTick? && s.threads[step.t].op.work.call.htick == k + 1
  }

  predicate SetsSlot(s: State, s': State, k: nat) {
    k < |s.table.slots| && k < |s'.table.slots| && s.table.slots[k].hsm == 0 && s'.table.slots[k].hsm != 0
  }

  lemma FreeStays(s: State, step: Step, k: nat)
    requires CoreInv(s) && CanStep(s, step.t, step.a) && k < NTICKS && DropsSlot(s, step, k)
    ensures |Next(s, step.t, step.a).table.slots| == NTICKS
    ensures Next(s, step.t, step.a).table.slots[k].hsm == 0
  {
    hide Contents, Rings.Valid, Full, Mark, Without, Store, Publish, Discard, EraseSlots, BaseStep, PushStep, PopStep,
         ScanStep;
  }

  /** From the destruction of a tick until its slot is set again, the slot is free in every state. */
  lemma {:induction false} FreeUntilSet(states: seq<State>, steps: seq<Step>, i: nat, n: nat, k: nat)
    requires IsRun(states, steps) && Throughout(states) && i < n < |states| && k < NTICKS && DropsSlot(states[i], steps[i], k)
    requires forall j :: i < j < n ==> !SetsSlot(states[j], states[j + 1], k)
    ensures |states[n].table.slots| == NTICKS && states[n].table.slots[k].hsm == 0
    decreases n
  {
    hide CoreInv, CanStep, Next, Throughout, Init;
    if n == i + 1 {
      ThroughoutAt(states, i);
      FreeStays(states[i], steps[i], k);
    } else {
      FreeUntilSet(states, steps, i, n - 1, k);
      ThroughoutAt(states, n);
    }
  }

  /** The ticker has logged the fate of a tick for slot k. */
  predicate TicksOut(s: State, s': State, step: Step, k: nat) {
    step.t == TICKER && |s'.log| == |s.log| + 1
    && (Last(s'.log).Accepted? || Last(s'.log).Refused?) && Last(s'.log).m.param1 == k + 1
  }

  /** A free slot is not found due, and the ticker pushes nothing for it. */
  lemma FreeSendsNothing(s: State, t: Tid, a: Action, k: nat)
    requires CoreInv(s) && VisitInv(s) && CanStep(s, t, a) && k < NTICKS && s.table.slots[k].hsm == 0
    ensures !Fires(s, Next(s, t, a), k) && !TicksOut(s, Next(s, t, a), Step(t, a), k)
  {
    hide Do, Enabled, ThreadOk, CoreInv;
    TickerOk(s);
    ValidRing(s);
    if t == TICKER {
      EngineTiming.TickerProceeds(ViewOf(s, TICKER), a);
      FreeTicker(ViewOf(s, TICKER), k);
    } else {
      StepKeepsOthers(s, t, a, TICKER);
    }
  }

  lemma FreeTicker(v: View, k: nat)
    requires WellFormed(v) && ThreadOk(v) && Ready(v) && v.th.base.Ticker? && k < NTICKS && v.table.slots[k].hsm == 0
    requires VisitOk(v.th.op, v.th.base.phase, v.table.slots)
    ensures var w := DoProceed(v);
      && !(v.th.base.phase == At(k) && w.th.base == Ticker(Asked(k)))
      && (|w.log| == |v.log| + 1 && (Last(w.log).Accepted? || Last(w.log).Refused?) ==> Last(w.log).m.param1 != k + 1)
  {
    hide Contents, Rings.Valid, Full, Due;
  }

  /**
   * A destroyed tick is gone: from the critical section of sm_destroy_tick until its slot is set again, the slot is
   * free, no visit finds it due, and the ticker pushes no tick with its number.
   */
  lemma DestroyedTickSilent(states: seq<State>, steps: seq<Step>, i: nat, n: nat, k: nat)
    requires IsRun(states, steps) && Throughout(states) && i < n < |steps| && k < NTICKS && DropsSlot(states[i], steps[i], k)
    requires forall j :: i < j < n ==> !SetsSlot(states[j], states[j + 1], k)
    ensures |states[n].table.slots| == NTICKS && states[n].table.slots[k].hsm == 0
    ensures !Fires(states[n], states[n + 1], k) && !TicksOut(states[n], states[n + 1], steps[n], k)
  {
    hide CoreInv, CanStep, Next, Throughout, Init, Fires, TicksOut, VisitInv;
    FreeUntilSet(states, steps, i, n, k);
    ThroughoutAt(states, n);
    RunVisits(states, steps, n);
    FreeSendsNothing(states[n], steps[n].t, steps[n].a, k);
  }
}
