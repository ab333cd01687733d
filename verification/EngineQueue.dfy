/** Token accounting and FIFO conservation over whole runs. */
module EngineQueue {
  import opened Messages
  import opened Rings
  import opened Engine
  import opened EngineLocks

  /** A consumer that took a token and has not finished its pop. */
  predicate HasToken(op: Op) {
    op.Popping? && (op.pop.PopLock? || op.pop.PopBody?) && op.pop.token
  }

  /** A producer between signal_event and the move of tail. */
  predicate Announced(op: Op) {
    op.Pushing? && op.push.PushAdvance?
  }

  ghost function TokenHolders(threads: map<Tid, Thread>): set<Tid> {
    set t | t in threads && HasToken(threads[t].op)
  }

  ghost function Announcers(threads: map<Tid, Thread>): set<Tid> {
    set t | t in threads && Announced(threads[t].op)
  }

  /** Every token is accounted for; the surplus counts the completed pops whose wait failed. */
  ghost predicate TokenInv(s: State)
    requires Rings.Valid(s.mail.ring)
  {
    s.mail.tokens + |TokenHolders(s.threads)|
      == |Contents(s.mail.ring)| + |Announcers(s.threads)| + s.mail.failed
  }

  function Count(b: bool): int {
    if b then 1 else 0
  }

  /** One thread's share of the account. */
  function Balance(v: View): int
    requires Rings.Valid(v.mail.ring)
  {
    v.mail.tokens + Count(HasToken(v.th.op)) - |Contents(v.mail.ring)| - Count(Announced(v.th.op)) - v.mail.failed
  }

  lemma BalanceKept(v: View, a: Action)
    requires WellFormed(v) && ThreadOk(v) && Enabled(v, a)
    ensures Rings.Valid(Do(v, a).mail.ring)
    ensures Balance(Do(v, a)) == Balance(v)
  {
    hide Contents, ThreadOk;
    QueueStep(v, a);
    if a.Proceed? {
      match v.th.op {
        case Resting => RingElsewhere(v, a);
        case Tabling(_) => RingElsewhere(v, a);
        case Popping(_) => EmptyExact(v.mail.ring);
        case _ =>
      }
    } else {
      RingElsewhere(v, a);
    }
  }

  lemma TokenHoldersUpdate(threads: map<Tid, Thread>, t: Tid, th: Thread)
    requires t in threads
    ensures |TokenHolders(threads[t := th])|
         == |TokenHolders(threads)| + Count(HasToken(th.op)) - Count(HasToken(threads[t].op))
  {
    var before, after := TokenHolders(threads), TokenHolders(threads[t := th]);
    assert after - {t} == before - {t};
    assert t in before ==> before == (before - {t}) + {t};
    assert t in after ==> after == (after - {t}) + {t};
    assert t !in before ==> before == before - {t};
    assert t !in after ==> after == after - {t};
  }

  lemma AnnouncersUpdate(threads: map<Tid, Thread>, t: Tid, th: Thread)
    requires t in threads
    ensures |Announcers(threads[t := th])|
         == |Announcers(threads)| + Count(Announced(th.op)) - Count(Announced(threads[t].op))
  {
    var before, after := Announcers(threads), Announcers(threads[t := th]);
    assert after - {t} == before - {t};
    assert t in before ==> before == (before - {t}) + {t};
    assert t in after ==> after == (after - {t}) + {t};
    assert t !in before ==> before == before - {t};
    assert t !in after ==> after == after - {t};
  }

  lemma TokenInit(s: State)
    requires Init(s)
    ensures TokenInv(s)
  {
    assert TokenHolders(s.threads) == {} && Announcers(s.threads) == {};
  }

  /** Token accounting is kept by every step of every thread. */
  lemma TokenStep(s: State, t: Tid, a: Action)
    requires CoreInv(s) && TokenInv(s) && CanStep(s, t, a)
    ensures Rings.Valid(Next(s, t, a).mail.ring)
    ensures TokenInv(Next(s, t, a))
  {
    hide Do, Enabled, Contents, ThreadOk;
    var v := ViewOf(s, t);
    assert ThreadOk(v);
    BalanceKept(v, a);
    OrderlyDo(v, a);
    TokenHoldersUpdate(s.threads, t, Do(v, a).th);
    AnnouncersUpdate(s.threads, t, Do(v, a).th);
  }

  /** No wake-up is lost: with messages queued, a token is free or already in some consumer's hands. */
  lemma NoLostWakeup(s: State)
    requires CoreInv(s) && TokenInv(s) && Contents(s.mail.ring) != []
    ensures s.mail.tokens > 0 || exists t :: t in s.threads && HasToken(s.threads[t].op)
  {
    if s.mail.tokens == 0 {
      assert |TokenHolders(s.threads)| > 0;
      var t :| t in TokenHolders(s.threads);
      assert t in s.threads && HasToken(s.threads[t].op);
    }
  }

  /** Whoever holds the queue lock for something else sees no half-done push. */
  lemma NobodyAnnounces(s: State, t: Tid)
    requires CoreInv(s) && t in s.threads && HoldsAccess(s.threads[t].op) && !Announced(s.threads[t].op)
    ensures Announcers(s.threads) == {}
  {
    assert ThreadOk(ViewOf(s, t));
    forall u | u in s.threads
      ensures !Announced(s.threads[u].op)
    {
      assert ThreadOk(ViewOf(s, u));
    }
  }

  /** While no wait on sem_event has failed, pop_message never finds the queue empty. */
  lemma PopFindsMessage(s: State, t: Tid)
    requires CoreInv(s) && TokenInv(s)
    requires t in s.threads && s.threads[t].op == Popping(PopBody(true)) && s.mail.failed == 0
    ensures Contents(s.mail.ring) != []
  {
    NobodyAnnounces(s, t);
    assert t in TokenHolders(s.threads);
  }

  // ---------- FIFO conservation ----------

  /** The accepted pushes, in order. */
  function AcceptedOf(log: seq<Event>): seq<Message> {
    if log == [] then []
    else
      var e := Last(log);
      AcceptedOf(log[..|log| - 1]) + if e.Accepted? then [e.m] else []
  }

  /** The popped messages, in order. */
  function TakenOf(log: seq<Event>): seq<Message> {
    if log == [] then []
    else
      var e := Last(log);
      TakenOf(log[..|log| - 1]) + if e.Taken? then [e.m] else []
  }

  /** What has become of each accepted push: an erase blanks only positions not yet popped. */
  function Fates(log: seq<Event>): seq<Message> {
    if log == [] then []
    else
      var e := Last(log);
      var fates := Fates(log[..|log| - 1]);
      var popped := |TakenOf(log[..|log| - 1])|;
      match e
      case Accepted(m) => fates + [m]
      case Erased(eraser) => if popped <= |fates| then fates[..popped] + Erase(eraser, fates[popped..]) else fates
      case _ => fates
  }

  /** Popped messages followed by queued ones are the fates of the accepted pushes, position by position. */
  ghost predicate FifoInv(log: seq<Event>, ring: Ring)
    requires Rings.Valid(ring)
  {
    TakenOf(log) + Contents(ring) == Fates(log)
  }

  predicate OffQueue(e: Event) {
    !e.Accepted? && !e.Taken? && !e.Erased?
  }

  lemma LogGrows(log: seq<Event>, e: Event)
    ensures (log + [e])[..|log|] == log && Last(log + [e]) == e
  {
  }

  lemma FifoOff(log: seq<Event>, e: Event, ring: Ring)
    requires Rings.Valid(ring) && FifoInv(log, ring) && OffQueue(e)
    ensures FifoInv(log + [e], ring)
  {
    LogGrows(log, e);
  }

  lemma FifoAccepted(log: seq<Event>, m: Message, ring: Ring, ring': Ring)
    requires Rings.Valid(ring) && Rings.Valid(ring') && FifoInv(log, ring)
    requires Contents(ring') == Contents(ring) + [m]
    ensures FifoInv(log + [Accepted(m)], ring')
  {
    hide Contents;
    LogGrows(log, Accepted(m));
    assert TakenOf(log + [Accepted(m)]) == TakenOf(log);
    assert TakenOf(log) + (Contents(ring) + [m]) == (TakenOf(log) + Contents(ring)) + [m];
  }

  lemma FifoTaken(log: seq<Event>, m: Message, loop: bool, ring: Ring, ring': Ring)
    requires Rings.Valid(ring) && Rings.Valid(ring') && FifoInv(log, ring)
    requires Contents(ring) == [m] + Contents(ring')
    ensures FifoInv(log + [Taken(m, loop)], ring')
  {
    hide Contents;
    LogGrows(log, Taken(m, loop));
    assert TakenOf(log) + ([m] + Contents(ring')) == (TakenOf(log) + [m]) + Contents(ring');
  }

  lemma FifoErased(log: seq<Event>, e: Eraser, ring: Ring, ring': Ring)
    requires Rings.Valid(ring) && Rings.Valid(ring') && FifoInv(log, ring)
    requires Contents(ring') == Erase(e, Contents(ring))
    ensures FifoInv(log + [Erased(e)], ring')
  {
    hide Contents;
    LogGrows(log, Erased(e));
    assert TakenOf(log + [Erased(e)]) == TakenOf(log);
    assert Fates(log)[|TakenOf(log)|..] == Contents(ring);
    assert Fates(log)[..|TakenOf(log)|] == TakenOf(log);
  }

  lemma FifoInit(s: State)
    requires Init(s)
    ensures FifoInv(s.log, s.mail.ring)
  {
  }

  lemma FifoPush(v: View)
    requires WellFormed(v) && ThreadOk(v) && v.th.op.Pushing? && FifoInv(v.log, v.mail.ring)
    requires Rings.Valid(PushStep(v, v.th.op.push).mail.ring)
    ensures FifoInv(PushStep(v, v.th.op.push).log, PushStep(v, v.th.op.push).mail.ring)
  {
    hide FifoInv, Contents, ThreadOk;
    var w := PushStep(v, v.th.op.push);
    RingPush(v);
    match v.th.op.push {
      case PushBody(m) =>
        if Full(v.mail.ring) {
          FifoOff(v.log, Refused(m), v.mail.ring);
        } else {
          FifoSame(v.log, v.mail.ring, w.mail.ring);
        }
      case PushAdvance(m) =>
        FifoAccepted(v.log, m, v.mail.ring, w.mail.ring);
      case _ =>
    }
  }

  lemma FifoSame(log: seq<Event>, ring: Ring, ring': Ring)
    requires Rings.Valid(ring) && Rings.Valid(ring') && FifoInv(log, ring) && Contents(ring') == Contents(ring)
    ensures FifoInv(log, ring')
  {
  }

  lemma FifoPop(v: View)
    requires WellFormed(v) && v.th.op.Popping? && Ready(v) && FifoInv(v.log, v.mail.ring)
    requires Rings.Valid(PopStep(v, v.th.op.pop).mail.ring)
    ensures FifoInv(PopStep(v, v.th.op.pop).log, PopStep(v, v.th.op.pop).mail.ring)
  {
    hide FifoInv, Contents;
    var r := v.mail.ring;
    if v.th.op.pop.PopBody? && r.head != r.tail {
      DiscardDropsFirst(r);
      FifoTaken(v.log, r.slots[r.head], InLoop(v.th.base), r, Discard(r));
    }
  }

  lemma FifoScan(v: View)
    requires WellFormed(v) && v.th.op.Scanning? && FifoInv(v.log, v.mail.ring)
    requires Rings.Valid(ScanStep(v, v.th.op.scan).mail.ring)
    ensures FifoInv(ScanStep(v, v.th.op.scan).log, ScanStep(v, v.th.op.scan).mail.ring)
  {
    hide FifoInv, Contents;
    if v.th.op.scan.EraseBody? {
      var e := v.th.op.scan.e;
      EraseSlotsErases(e, v.mail.ring);
      FifoErased(v.log, e, v.mail.ring, EraseSlots(e, v.mail.ring));
    }
  }

  lemma {:induction false} FifoQuiet(log: seq<Event>, log': seq<Event>, ring: Ring)
    requires Rings.Valid(ring) && FifoInv(log, ring)
    requires log <= log' && forall i :: |log| <= i < |log'| ==> OffQueue(log'[i])
    ensures FifoInv(log', ring)
    decreases |log'|
  {
    hide FifoInv, Contents, OffQueue;
    if |log| < |log'| {
      assert log' == log'[..|log'| - 1] + [log'[|log'| - 1]];
      FifoQuiet(log, log'[..|log'| - 1], ring);
      FifoOff(log'[..|log'| - 1], log'[|log'| - 1], ring);
    } else {
      assert log' == log;
    }
  }

  lemma FifoElsewhere(v: View, a: Action)
    requires WellFormed(v) && Enabled(v, a) && FifoInv(v.log, v.mail.ring)
    requires a.Proceed? ==> v.th.op.Resting? || v.th.op.Tabling?
    ensures Do(v, a).mail == v.mail
    ensures FifoInv(Do(v, a).log, v.mail.ring)
  {
    hide FifoInv, Contents, Full, Rings.Valid;
    RingElsewhere(v, a);
    FifoQuiet(v.log, Do(v, a).log, v.mail.ring);
  }

  /** FIFO conservation is kept by every step of every thread. */
  lemma FifoStep(v: View, a: Action)
    requires WellFormed(v) && ThreadOk(v) && Enabled(v, a) && FifoInv(v.log, v.mail.ring)
    ensures Rings.Valid(Do(v, a).mail.ring)
    ensures FifoInv(Do(v, a).log, Do(v, a).mail.ring)
  {
    hide FifoInv, Contents, ThreadOk, BaseStep, PushStep, PopStep, ScanStep, TableStep;
    QueueStep(v, a);
    if !a.Proceed? {
      FifoElsewhere(v, a);
    } else {
      match v.th.op {
        case Pushing(_) => FifoPush(v);
        case Popping(_) => FifoPop(v);
        case Scanning(_) => FifoScan(v);
        case _ => FifoElsewhere(v, a);
      }
    }
  }

  /** What an erase may make of a message. */
  predicate BlankOf(m: Message, f: Message) {
    f == m || (f.message == SMM_INVALIDMSG && f.param1 == 0 && f.param2 == 0 && (f.hsm == m.hsm || f.hsm == SK_INVALID_HSM))
  }

  /** Nothing is lost, duplicated or reordered: every accepted push has one fate, itself or its blank. */
  lemma {:induction false} FatesMatch(log: seq<Event>)
    ensures |Fates(log)| == |AcceptedOf(log)|
    ensures forall i :: 0 <= i < |Fates(log)| ==> BlankOf(AcceptedOf(log)[i], Fates(log)[i])
  {
    if log != [] {
      FatesMatch(log[..|log| - 1]);
    }
  }

  /** Without erases the popped messages followed by the queued ones are the accepted pushes themselves. */
  lemma {:induction false} FatesWithoutErase(log: seq<Event>)
    requires forall i :: 0 <= i < |log| ==> !log[i].Erased?
    ensures Fates(log) == AcceptedOf(log)
  {
    if log != [] {
      assert !Last(log).Erased?;
      FatesWithoutErase(log[..|log| - 1]);
    }
  }
}
