/** The dispatcher handles each message it pops exactly once, in the order popped. */
module EngineDispatch {
  import opened Messages
  import opened Rings
  import opened Engine
  import opened EngineLocks
  import opened EngineQueue

  /** The messages popped by the dispatcher's own loop, in order. */
  function LoopTaken(log: seq<Event>): seq<Message> {
    if log == [] then []
    else
      var e := Last(log);
      LoopTaken(log[..|log| - 1]) + if e.Taken? && e.loop then [e.m] else []
  }

  /** The popped messages whose handler was started or which were passed over, in order. */
  function Handled(log: seq<Event>): seq<Message> {
    if log == [] then []
    else
      var e := Last(log);
      Handled(log[..|log| - 1]) + if (e.Started? && e.queued) || e.Dropped? then [e.m] else []
  }

  /** The message the loop has popped and not handled yet. */
  function InHand(th: Thread): seq<Message> {
    if !InLoop(th.base) then []
    else if th.base.got.Some? then [th.base.got.value]
    else if th.op.Popping? && th.op.pop.PopUnlock? && th.op.pop.result.Some? then [th.op.pop.result.value]
    else []
  }

  ghost predicate HandInv(log: seq<Event>, th: Thread) {
    LoopTaken(log) == Handled(log) + InHand(th)
  }

  ghost predicate DispatchInv(s: State) {
    DISPATCHER in s.threads && HandInv(s.log, s.threads[DISPATCHER])
  }

  lemma DispatchInit(s: State)
    requires Init(s)
    ensures DispatchInv(s)
  {
  }

  /** Neither popped by the loop nor handled by it. */
  predicate Aside(e: Event) {
    !(e.Taken? && e.loop) && !(e.Started? && e.queued) && !e.Dropped?
  }

  lemma {:induction false} HandAside(log: seq<Event>, log': seq<Event>)
    requires log <= log' && forall i :: |log| <= i < |log'| ==> Aside(log'[i])
    ensures LoopTaken(log') == LoopTaken(log) && Handled(log') == Handled(log)
    decreases |log'|
  {
    if |log| < |log'| {
      assert Aside(Last(log'));
      HandAside(log, log'[..|log'| - 1]);
    } else {
      assert log' == log;
    }
  }

  lemma HandAppend(log: seq<Event>, e: Event)
    ensures LoopTaken(log + [e]) == LoopTaken(log) + if e.Taken? && e.loop then [e.m] else []
    ensures Handled(log + [e]) == Handled(log) + if (e.Started? && e.queued) || e.Dropped? then [e.m] else []
  {
    LogGrows(log, e);
  }

  /** The steps that hand a message from the queue to the loop and from the loop to its handler. */
  predicate HandsOver(v: View, a: Action) {
    && a.Proceed? && InLoop(v.th.base)
    && (v.th.op.Resting? || v.th.op.Popping?)
  }

  lemma HandOver(v: View)
    requires WellFormed(v) && ThreadOk(v) && Ready(v) && HandsOver(v, Proceed) && HandInv(v.log, v.th)
    ensures HandInv(DoProceed(v).log, DoProceed(v).th)
  {
    hide Contents, Rings.Valid, Full, LoopTaken, Handled;
    var w := DoProceed(v);
    if w.log != v.log {
      HandAppend(v.log, Last(w.log));
      assert w.log == v.log + [Last(w.log)];
    }
  }

  /** The step moves nothing into the loop's hand or out of it. */
  predicate StaysAside(v: View, w: View) {
    && v.log <= w.log && (forall i :: |v.log| <= i < |w.log| ==> Aside(w.log[i]))
    && InHand(w.th) == InHand(v.th)
  }

  lemma UserAside(v: View, a: Action)
    requires WellFormed(v) && ThreadOk(v) && Enabled(v, a) && !a.Proceed?
    ensures StaysAside(v, Do(v, a))
  {
    hide Contents, Rings.Valid, Full, DoProceed, Mark;
  }

  lemma BaseAside(v: View)
    requires WellFormed(v) && ThreadOk(v) && Ready(v) && v.th.op.Resting? && !InLoop(v.th.base)
    ensures StaysAside(v, BaseStep(v))
  {
    hide Contents, Rings.Valid, Full;
  }

  lemma CallAside(v: View)
    requires WellFormed(v) && ThreadOk(v) && Ready(v) && !v.th.op.Resting?
    requires !(InLoop(v.th.base) && v.th.op.Popping?)
    ensures StaysAside(v, DoProceed(v))
  {
    hide Contents, Rings.Valid, Full, BaseStep;
  }

  lemma ElsewhereAside(v: View, a: Action)
    requires WellFormed(v) && ThreadOk(v) && Enabled(v, a) && !HandsOver(v, a)
    ensures StaysAside(v, Do(v, a))
  {
    hide StaysAside, ThreadOk, BaseStep, PushStep, PopStep, ScanStep, TableStep;
    if !a.Proceed? {
      UserAside(v, a);
    } else if v.th.op.Resting? {
      BaseAside(v);
    } else {
      CallAside(v);
    }
  }

  /** No step of any thread loses, repeats or reorders what the loop has popped. */
  lemma DispatchKept(s: State, t: Tid, a: Action)
    requires CoreInv(s) && DispatchInv(s) && CanStep(s, t, a)
    ensures DispatchInv(Next(s, t, a))
  {
    hide Do, Enabled, ThreadOk, HandsOver, Ready, LoopTaken, Handled, InHand;
    var v := ViewOf(s, t);
    assert ThreadOk(v);
    OrderlyDo(v, a);
    if HandsOver(v, a) {
      HandsOverReady(v, a);
      HandOver(v);
    } else {
      ElsewhereAside(v, a);
      HandAside(v.log, Do(v, a).log);
    }
  }

  lemma HandsOverReady(v: View, a: Action)
    requires WellFormed(v) && ThreadOk(v) && Enabled(v, a) && HandsOver(v, a)
    ensures a == Proceed && Ready(v) && v.me == DISPATCHER && Do(v, a) == DoProceed(v)
  {
  }

  lemma {:induction false} LoopTakesAll(log: seq<Event>)
    requires forall i :: 0 <= i < |log| && log[i].Taken? ==> log[i].loop
    ensures LoopTaken(log) == TakenOf(log)
  {
    if log != [] {
      LoopTakesAll(log[..|log| - 1]);
      assert Last(log).Taken? ==> Last(log).loop;
    }
  }

  /**
   * While only the loop pops, the messages handled, the one in hand and the ones queued are together the
   * fates of the accepted pushes: each is handled once, in order of acceptance.
   */
  lemma Dispatches(s: State)
    requires CoreInv(s) && DispatchInv(s) && FifoInv(s.log, s.mail.ring)
    requires forall i :: 0 <= i < |s.log| && s.log[i].Taken? ==> s.log[i].loop
    ensures Handled(s.log) + InHand(s.threads[DISPATCHER]) + Contents(s.mail.ring) == Fates(s.log)
    ensures |InHand(s.threads[DISPATCHER])| <= 1
  {
    LoopTakesAll(s.log);
  }
}
