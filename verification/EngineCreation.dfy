/** SMM_CREATE comes first: nobody can address a window before its creator has pushed the message. */
module EngineCreation {
  import opened Messages
  import opened Rings
  import opened TickSlots
  import opened WindowLists
  import opened Engine
  import opened EngineLocks
  import opened EngineTicks
  import opened EngineQueue

  function CreateMessage(h: u32): Message {
    Message(h, SMM_CREATE, 0, 0)
  }

  predicate IsOutcome(e: Event) {
    e.Accepted? || e.Refused?
  }

  /** How the first push addressed to a window ended, if there was one. */
  function FirstOutcome(log: seq<Event>, h: u32): Option<Event> {
    if log == [] then None
    else
      var first := FirstOutcome(log[..|log| - 1], h);
      if first.Some? then first
      else if IsOutcome(Last(log)) && Last(log).m.hsm == h then Some(Last(log))
      else None
  }

  /** The creator of h is between the insertion into the list and the end of its push. */
  predicate Creates(th: Thread, h: u32) {
    Pending(th.op) == Some(CreateMessage(h)) && !th.op.push.SendLock?
  }

  predicate Creating(s: State, h: u32) {
    s.locks.system.Some? && s.locks.system.value in s.threads && Creates(s.threads[s.locks.system.value], h)
  }

  /** The first push addressed to h was its creation's. */
  predicate CreatedFirst(log: seq<Event>, h: u32) {
    var first := FirstOutcome(log, h);
    first == Some(Accepted(CreateMessage(h))) || first == Some(Refused(CreateMessage(h)))
  }

  /** Handles that any call carries have been named. */
  predicate OpKnown(op: Op, known: set<u32>) {
    && (Pending(op).Some? ==> Pending(op).value.hsm in known)
    && (op.Tabling? && (op.work.TickLock? || op.work.TickBody?) && op.work.call.SetTick? ==> op.work.call.hsm in known)
  }

  predicate SlotsKnown(slots: seq<TickSlot>, known: set<u32>) {
    forall i :: 0 <= i < |slots| ==> slots[i].hsm in known
  }

  ghost predicate LogKnown(log: seq<Event>, known: set<u32>) {
    forall i :: 0 <= i < |log| ==>
      && (IsOutcome(log[i]) ==> log[i].m.hsm in known)
      && (log[i].Created? ==> log[i].hsm in known && log[i].hsm != SK_INVALID_HSM)
  }

  ghost predicate KnownInv(s: State) {
    && SK_INVALID_HSM in s.desk.known
    && SlotsKnown(s.table.slots, s.desk.known) && LogKnown(s.log, s.desk.known)
    && forall t :: t in s.threads ==> OpKnown(s.threads[t].op, s.desk.known)
  }

  ghost predicate CreationInv(s: State) {
    && KnownInv(s)
    && forall h :: Created(h) in s.log ==>
         CreatedFirst(s.log, h) || (FirstOutcome(s.log, h).None? && Creating(s, h))
  }

  lemma CreationInit(s: State)
    requires Init(s)
    ensures CreationInv(s)
  {
  }

  /** What one step adds to the log, as far as pushes are concerned. */
  predicate LogMove(v: View, a: Action, log: seq<Event>, log': seq<Event>) {
    || (a.Proceed? && v.th.op.Pushing? && (v.th.op.push.PushBody? || v.th.op.push.PushAdvance?) &&
        (log' == log || log' == log + [Refused(v.th.op.push.m)] || log' == log + [Accepted(v.th.op.push.m)]))
    || (a.Allocate? && a.hsm != SK_INVALID_HSM && log' == log + [Created(a.hsm)])
    || (log <= log' && forall i :: |log| <= i < |log'| ==> !IsOutcome(log'[i]) && !log'[i].Created?)
  }

  lemma PushLogs(v: View)
    requires WellFormed(v) && Enabled(v, Proceed) && v.th.op.Pushing?
    ensures LogMove(v, Proceed, v.log, PushStep(v, v.th.op.push).log)
  {
    hide Contents, Rings.Valid, Full;
  }

  lemma ProceedLogs(v: View)
    requires WellFormed(v) && Enabled(v, Proceed) && !v.th.op.Pushing?
    ensures LogMove(v, Proceed, v.log, DoProceed(v).log)
  {
    hide Contents, Rings.Valid, Full;
  }

  lemma StepLogs(v: View, a: Action)
    requires WellFormed(v) && Enabled(v, a)
    ensures LogMove(v, a, v.log, Do(v, a).log)
  {
    hide Contents, Rings.Valid, Full, BaseStep, PushStep, PopStep, ScanStep, TableStep;
    if a.Proceed? {
      if v.th.op.Pushing? {
        PushLogs(v);
      } else {
        ProceedLogs(v);
      }
    }
  }

  lemma {:induction false} OutcomeKnown(log: seq<Event>, known: set<u32>, h: u32)
    requires LogKnown(log, known) && h !in known
    ensures FirstOutcome(log, h).None?
  {
    if log != [] {
      assert IsOutcome(log[|log| - 1]) ==> log[|log| - 1].m.hsm in known;
      OutcomeKnown(log[..|log| - 1], known, h);
    }
  }

  lemma OutcomeAppend(log: seq<Event>, e: Event, h: u32)
    ensures FirstOutcome(log + [e], h)
         == if FirstOutcome(log, h).Some? then FirstOutcome(log, h)
            else if IsOutcome(e) && e.m.hsm == h then Some(e) else None
  {
    assert (log + [e])[..|log|] == log;
  }

  lemma {:induction false} OutcomeQuiet(log: seq<Event>, log': seq<Event>, h: u32)
    requires log <= log' && forall i :: |log| <= i < |log'| ==> !IsOutcome(log'[i])
    ensures FirstOutcome(log', h) == FirstOutcome(log, h)
    decreases |log'|
  {
    if |log| < |log'| {
      assert log' == log'[..|log'| - 1] + [log'[|log'| - 1]];
      OutcomeQuiet(log, log'[..|log'| - 1], h);
      OutcomeAppend(log'[..|log'| - 1], log'[|log'| - 1], h);
    } else {
      assert log' == log;
    }
  }

  lemma SlotsKnownSelf(v: View, a: Action)
    requires WellFormed(v) && Enabled(v, a)
    requires SlotsKnown(v.table.slots, v.desk.known) && SK_INVALID_HSM in v.desk.known && OpKnown(v.th.op, v.desk.known)
    ensures v.desk.known <= Do(v, a).desk.known
    ensures SlotsKnown(Do(v, a).table.slots, Do(v, a).desk.known)
    ensures a.Allocate? ==> a.hsm in Do(v, a).desk.known
  {
    hide Contents, Rings.Valid, Full;
    if a.Proceed? {
      if v.th.op.Tabling? {
        SlotsKnownByCall(v);
      } else if v.th.op.Resting? {
        SlotsKnownByTicker(v);
      }
    }
  }

  lemma SlotsKnownByCall(v: View)
    requires WellFormed(v) && v.th.op.Tabling?
    requires SlotsKnown(v.table.slots, v.desk.known) && SK_INVALID_HSM in v.desk.known && OpKnown(v.th.op, v.desk.known)
    ensures SlotsKnown(TableStep(v, v.th.op.work).table.slots, v.desk.known)
  {
    hide Contents, Rings.Valid, Full, Without;
  }

  lemma SlotsKnownByTicker(v: View)
    requires WellFormed(v) && SlotsKnown(v.table.slots, v.desk.known)
    ensures SlotsKnown(BaseStep(v).table.slots, v.desk.known)
  {
    hide Contents, Rings.Valid, Full;
  }

  lemma OpKnownSelf(v: View, a: Action)
    requires WellFormed(v) && Enabled(v, a)
    requires SlotsKnown(v.table.slots, v.desk.known) && SK_INVALID_HSM in v.desk.known && OpKnown(v.th.op, v.desk.known)
    ensures OpKnown(Do(v, a).th.op, Do(v, a).desk.known)
  {
    hide Contents, Rings.Valid, Full, Without, FirstFree, DropSlot;
    if a.Begin? {
      var call := a.call;
      assert HandlesOf(call) <= Do(v, a).desk.known;
    }
  }

  lemma LogKnownStep(v: View, a: Action, log': seq<Event>, known': set<u32>)
    requires LogMove(v, a, v.log, log') && LogKnown(v.log, v.desk.known)
    requires OpKnown(v.th.op, v.desk.known) && v.desk.known <= known'
    requires a.Allocate? ==> a.hsm in known'
    ensures LogKnown(log', known')
  {
  }

  /** From the list insertion to the end of its push, the creator moves straight on. */
  lemma CreatorMoves(v: View, a: Action, h: u32)
    requires WellFormed(v) && Enabled(v, a) && Creates(v.th, h)
    ensures var w := Do(v, a);
      || (w.log == v.log && Creates(w.th, h) && w.locks.system == v.locks.system)
      || w.log == v.log + [Refused(CreateMessage(h))]
      || w.log == v.log + [Accepted(CreateMessage(h))]
  {
    hide Contents, Rings.Valid, Full;
  }

  lemma CreationOne(s: State, t: Tid, a: Action, h: u32)
    requires CoreInv(s) && CreationInv(s) && CanStep(s, t, a)
    requires Created(h) in Next(s, t, a).log
    ensures var s' := Next(s, t, a);
      CreatedFirst(s'.log, h) || (FirstOutcome(s'.log, h).None? && Creating(s', h))
  {
    hide Do, Enabled, FirstOutcome, Polite, LogKnown, SlotsKnown;
    var v := ViewOf(s, t);
    var w := Do(v, a);
    var s' := Next(s, t, a);
    assert ThreadOk(v);
    StepLogs(v, a);
    assert w.me == t && LockMove(s.locks.system, w.locks.system, t) by {
      OrderlyDo(v, a);
      PoliteParts(v, w);
    }
    if Creates(v.th, h) && s.locks.system == Some(t) {
      CreatorMoves(v, a, h);
      OutcomeAppend(v.log, Refused(CreateMessage(h)), h);
      OutcomeAppend(v.log, Accepted(CreateMessage(h)), h);
    } else if a.Allocate? {
      CreationAllocates(s, t, a.hsm, h);
    } else if a.Proceed? && v.th.op.Pushing? && (v.th.op.push.PushBody? || v.th.op.push.PushAdvance?) {
      assert s.locks.system == Some(t) && !Creating(s, h);
      OutcomeAppend(v.log, Refused(v.th.op.push.m), h);
      OutcomeAppend(v.log, Accepted(v.th.op.push.m), h);
      assert Created(h) in s.log;
      if w.log != v.log + [Refused(v.th.op.push.m)] && w.log != v.log + [Accepted(v.th.op.push.m)] {
        OutcomeQuiet(v.log, w.log, h);
      }
    } else {
      OutcomeQuiet(v.log, w.log, h);
      assert Created(h) in s.log;
    }
  }

  lemma PoliteParts(v: View, w: View)
    requires Polite(v, w)
    ensures w.me == v.me && LockMove(v.locks.system, w.locks.system, v.me)
  {
  }

  lemma CreationAllocates(s: State, t: Tid, made: u32, h: u32)
    requires CoreInv(s) && CreationInv(s) && CanStep(s, t, Allocate(made))
    requires Created(h) in Next(s, t, Allocate(made)).log
    ensures var s' := Next(s, t, Allocate(made));
      CreatedFirst(s'.log, h) || (FirstOutcome(s'.log, h).None? && Creating(s', h))
  {
    hide FirstOutcome, LogKnown, SlotsKnown, Contents, Rings.Valid;
    assert ThreadOk(ViewOf(s, t));
    if made != SK_INVALID_HSM {
      OutcomeAppend(s.log, Created(made), h);
      if h == made {
        OutcomeKnown(s.log, s.desk.known, h);
      }
    }
  }

  /** Creation order is kept by every step of every thread. */
  lemma CreationStep(s: State, t: Tid, a: Action)
    requires CoreInv(s) && CreationInv(s) && CanStep(s, t, a)
    ensures CreationInv(Next(s, t, a))
  {
    hide Do, Enabled, FirstOutcome, LogKnown, SlotsKnown, OpKnown, CreatedFirst, Creating, LogMove;
    var v := ViewOf(s, t);
    assert ThreadOk(v);
    OrderlyDo(v, a);
    assert OpKnown(s.threads[t].op, s.desk.known);
    SlotsKnownSelf(v, a);
    OpKnownSelf(v, a);
    StepLogs(v, a);
    LogKnownStep(v, a, Do(v, a).log, Do(v, a).desk.known);
    forall u | u in s.threads && u != t
      ensures OpKnown(s.threads[u].op, Do(v, a).desk.known)
    {
      OpKnownLater(s.threads[u].op, s.desk.known, Do(v, a).desk.known);
    }
    forall h | Created(h) in Next(s, t, a).log
      ensures CreatedFirst(Next(s, t, a).log, h)
           || (FirstOutcome(Next(s, t, a).log, h).None? && Creating(Next(s, t, a), h))
    {
      CreationOne(s, t, a, h);
    }
  }

  lemma OpKnownLater(op: Op, known: set<u32>, known': set<u32>)
    requires OpKnown(op, known) && known <= known'
    ensures OpKnown(op, known')
  {
  }

  /** The position of the first accepted push addressed to h. */
  lemma {:induction false} FirstAccepted(log: seq<Event>, h: u32, m: Message) returns (p: nat)
    requires FirstOutcome(log, h) == Some(Accepted(m))
    ensures p < |AcceptedOf(log)| && AcceptedOf(log)[p] == m && m.hsm == h
    ensures forall k :: 0 <= k < p ==> AcceptedOf(log)[k].hsm != h
  {
    var before := log[..|log| - 1];
    if FirstOutcome(before, h).Some? {
      p := FirstAccepted(before, h, m);
    } else {
      p := |AcceptedOf(before)|;
      NoneAccepted(before, h);
    }
  }

  lemma {:induction false} NoneAccepted(log: seq<Event>, h: u32)
    requires FirstOutcome(log, h).None?
    ensures forall k :: 0 <= k < |AcceptedOf(log)| ==> AcceptedOf(log)[k].hsm != h
  {
    if log != [] {
      NoneAccepted(log[..|log| - 1], h);
    }
  }

  /**
   * If the creation's push was accepted, it is the first accepted message addressed to the window, and
   * whenever any message to the window has been popped, the creation (or its blank) was popped no later.
   */
  lemma CreateComesFirst(s: State, h: u32) returns (p: nat)
    requires CoreInv(s) && FifoInv(s.log, s.mail.ring) && CreationInv(s)
    requires Created(h) in s.log && FirstOutcome(s.log, h).Some? && FirstOutcome(s.log, h).value.Accepted?
    ensures p < |AcceptedOf(s.log)| && AcceptedOf(s.log)[p] == CreateMessage(h)
    ensures forall k :: 0 <= k < p ==> AcceptedOf(s.log)[k].hsm != h
    ensures forall j :: 0 <= j < |TakenOf(s.log)| && TakenOf(s.log)[j].hsm == h ==>
      p <= j && BlankOf(CreateMessage(h), TakenOf(s.log)[p])
  {
    p := FirstAccepted(s.log, h, CreateMessage(h));
    FatesMatch(s.log);
    assert h != SK_INVALID_HSM by {
      var i :| 0 <= i < |s.log| && s.log[i] == Created(h);
    }
    forall j | 0 <= j < |TakenOf(s.log)| && TakenOf(s.log)[j].hsm == h
      ensures p <= j && BlankOf(CreateMessage(h), TakenOf(s.log)[p])
    {
      assert Fates(s.log)[j] == TakenOf(s.log)[j];
      assert BlankOf(AcceptedOf(s.log)[j], Fates(s.log)[j]);
      assert p <= j;
      assert Fates(s.log)[p] == TakenOf(s.log)[p];
    }
  }
}
