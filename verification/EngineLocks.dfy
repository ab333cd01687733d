/** Mutual exclusion, thread shapes and the ring discipline; and from them, when the engine can be stuck. */
module EngineLocks {
  import opened Messages
  import opened Rings
  import opened TickSlots
  import opened WindowLists
  import opened Engine

  predicate HoldsAccess(op: Op) {
    match op
    case Resting => false
    case Pushing(p) => p.PushBody? || p.PushSignal? || p.PushAdvance? || p.PushUnlock?
    case Popping(p) => p.PopBody? || p.PopUnlock?
    case Scanning(p) => !p.EraseLock? && !p.QueryLock?
    case Tabling(_) => false
  }

  predicate HoldsSystem(op: Op) {
    match op
    case Pushing(p) => !p.SendLock? && !p.CreateLock?
    case Tabling(p) => p.DestroyBody? || p.DestroyUnlock?
    case _ => false
  }

  predicate HoldsTick(th: Thread) {
    || (th.op.Tabling? && (th.op.work.TickBody? || th.op.work.TickRelease?))
    || (th.base.Ticker? && !th.base.phase.Sleeping? && !th.base.phase.Waking?)
  }

  predicate IsQuery(op: Op) {
    op.Scanning? && (op.scan.QueryLock? || op.scan.QueryBody? || op.scan.QueryUnlock?)
  }

  predicate IsSend(op: Op) {
    op.Pushing? && !op.push.CreateLock? && !op.push.CreateBody?
  }

  predicate IsDestroy(op: Op) {
    op.Tabling? && (op.work.DestroyLock? || op.work.DestroyBody? || op.work.DestroyUnlock?)
  }

  predicate TickerShape(op: Op, phase: Phase) {
    match phase
    case Sleeping => op.Resting?
    case Waking => op.Resting?
    case At(i) => op.Resting? && i <= NTICKS
    case Asked(i) => IsQuery(op) && i < NTICKS
    case Answered(i, _) => op.Resting? && i < NTICKS
    case Settling(i) => (op.Resting? || IsSend(op)) && i < NTICKS
  }

  predicate DispatcherShape(op: Op, stack: seq<Frame>, got: Option<Message>) {
    && (stack == [] ==> op.Resting? || op.Popping?)
    && (got.Some? ==> stack == [] && op.Resting?)
  }

  predicate Shape(t: Tid, th: Thread) {
    && (t == TICKER <==> th.base.Ticker?)
    && (t == DISPATCHER <==> th.base.Dispatcher?)
    && match th.base
       case Client => !IsDestroy(th.op)
       case Ticker(phase) => TickerShape(th.op, phase)
       case Dispatcher(stack, got) => DispatcherShape(th.op, stack, got)
  }

  predicate Owns(v: View) {
    && (HoldsAccess(v.th.op) <==> v.locks.access == Some(v.me))
    && (HoldsSystem(v.th.op) <==> v.locks.system == Some(v.me))
    && (HoldsTick(v.th) <==> v.locks.tick == Some(v.me))
  }

  /** A producer past the full test: there is room, and from the write on its message sits at the tail. */
  predicate Prepared(op: Op, r: Ring)
    requires Rings.Valid(r)
  {
    op.Pushing? && (op.push.PushSignal? || op.push.PushAdvance?) ==> !Full(r) && r.slots[r.tail] == op.push.m
  }

  predicate ThreadOk(v: View)
    requires WellFormed(v)
  {
    Shape(v.me, v.th) && Owns(v) && Prepared(v.th.op, v.mail.ring)
  }

  predicate HolderKnown(s: State, holder: Option<Tid>) {
    holder.Some? ==> holder.value in s.threads
  }

  ghost predicate CoreInv(s: State) {
    && Rings.Valid(s.mail.ring) && |s.table.slots| == NTICKS
    && TICKER in s.threads && DISPATCHER in s.threads
    && HolderKnown(s, s.locks.access) && HolderKnown(s, s.locks.system) && HolderKnown(s, s.locks.tick)
    && (forall t :: t in s.threads ==> ThreadOk(ViewOf(s, t)))
  }

  ghost predicate Throughout(states: seq<State>) {
    forall j :: 0 <= j < |states| ==> CoreInv(states[j])
  }

  lemma CoreInit(s: State)
    requires Init(s)
    ensures CoreInv(s)
  {
  }

  /** A thread takes free locks and drops its own; nothing else happens to a lock. */
  predicate LockMove(before: Option<Tid>, after: Option<Tid>, t: Tid) {
    || after == before
    || (before.None? && after == Some(t))
    || (before == Some(t) && after.None?)
  }

  /** What the operation's step does to the queue, seen as a sequence. */
  function QueueAfter(op: Op, q: seq<Message>): seq<Message> {
    match op
    case Pushing(p) => if p.PushAdvance? then q + [p.m] else q
    case Popping(p) => if p.PopBody? && q != [] then q[1..] else q
    case Scanning(p) => if p.EraseBody? then Erase(p.e, q) else q
    case _ => q
  }

  /** A step seen by the other threads: locks move one owner at a time, the ring only under its lock. */
  predicate Polite(v: View, w: View) {
    && w.me == v.me && w.table.relocks == v.table.relocks
    && LockMove(v.locks.access, w.locks.access, v.me)
    && LockMove(v.locks.system, w.locks.system, v.me)
    && LockMove(v.locks.tick, w.locks.tick, v.me)
    && (w.mail.ring != v.mail.ring ==> v.locks.access == Some(v.me))
  }

  predicate Orderly(v: View, w: View) {
    Polite(v, w) && WellFormed(w) && ThreadOk(w)
  }

  lemma OrderlyBase(v: View)
    requires WellFormed(v) && ThreadOk(v) && v.th.op.Resting? && Ready(v)
    ensures Orderly(v, BaseStep(v))
  {
    hide Contents, Full, Rings.Valid;
  }

  lemma OrderlyPush(v: View)
    requires WellFormed(v) && ThreadOk(v) && v.th.op.Pushing? && Ready(v)
    ensures Orderly(v, PushStep(v, v.th.op.push))
  {
    hide Contents, Full;
    match v.th.op.push {
      case PushBody(m) => StoreInvisible(v.mail.ring, m);
      case PushAdvance(_) => PublishAppends(v.mail.ring);
      case _ =>
    }
  }

  lemma OrderlyPop(v: View)
    requires WellFormed(v) && ThreadOk(v) && v.th.op.Popping? && Ready(v)
    ensures Orderly(v, PopStep(v, v.th.op.pop))
  {
  }

  lemma OrderlyScan(v: View)
    requires WellFormed(v) && ThreadOk(v) && v.th.op.Scanning? && Ready(v)
    ensures Orderly(v, ScanStep(v, v.th.op.scan))
  {
  }

  lemma OrderlyTable(v: View)
    requires WellFormed(v) && ThreadOk(v) && v.th.op.Tabling? && Ready(v)
    ensures Orderly(v, TableStep(v, v.th.op.work))
  {
    hide Contents, Full, Rings.Valid, Without, FirstFree;
  }

  lemma OrderlyUser(v: View, a: Action)
    requires WellFormed(v) && ThreadOk(v) && Enabled(v, a) && !a.Proceed?
    ensures Orderly(v, Do(v, a))
  {
    hide Contents, Rings.Valid, Full, DoProceed, Mark, Nests, HandlesOf, Shape, Owns;
    OrderlyShape(v, a);
    OrderlyOwns(v, a);
  }

  lemma OrderlyShape(v: View, a: Action)
    requires WellFormed(v) && Shape(v.me, v.th) && Enabled(v, a) && !a.Proceed?
    ensures Shape(v.me, Do(v, a).th)
  {
    hide Contents, Rings.Valid, Full, DoProceed, Nests, HandlesOf;
  }

  lemma OrderlyOwns(v: View, a: Action)
    requires WellFormed(v) && Owns(v) && Enabled(v, a) && !a.Proceed?
    ensures Owns(Do(v, a))
  {
    hide Contents, Rings.Valid, Full, DoProceed, Mark, Nests, HandlesOf;
  }

  lemma OrderlyDo(v: View, a: Action)
    requires WellFormed(v) && ThreadOk(v) && Enabled(v, a)
    ensures Orderly(v, Do(v, a))
  {
    hide BaseStep, PushStep, PopStep, ScanStep, TableStep, ThreadOk, Polite, WellFormed;
    if !a.Proceed? {
      OrderlyUser(v, a);
    } else {
      match v.th.op {
        case Resting => OrderlyBase(v);
        case Pushing(_) => OrderlyPush(v);
        case Popping(_) => OrderlyPop(v);
        case Scanning(_) => OrderlyScan(v);
        case Tabling(_) => OrderlyTable(v);
      }
    }
  }

  /** Other threads keep their order through a polite step. */
  lemma OthersKeep(s: State, t: Tid, w: View, u: Tid)
    requires t in s.threads && u in s.threads && u != t
    requires Rings.Valid(s.mail.ring) && |s.table.slots| == NTICKS
    requires Polite(ViewOf(s, t), w) && WellFormed(w)
    requires ThreadOk(ViewOf(s, u))
    ensures ThreadOk(ViewOf(Merge(s, w), u))
  {
  }

  /** The locks, the thread shapes and the ring discipline hold in every reachable state. */
  lemma CoreStep(s: State, t: Tid, a: Action)
    requires CoreInv(s) && CanStep(s, t, a)
    ensures CoreInv(Next(s, t, a))
  {
    hide ThreadOk, Do, Enabled;
    var v := ViewOf(s, t);
    OrderlyDo(v, a);
    var w := Do(v, a);
    var s' := Merge(s, w);
    forall u | u in s'.threads
      ensures ThreadOk(ViewOf(s', u))
    {
      if u == t {
        assert ViewOf(s', t) == w;
      } else {
        OthersKeep(s, t, w, u);
      }
    }
  }

  lemma RingPush(v: View)
    requires WellFormed(v) && ThreadOk(v) && v.th.op.Pushing?
    ensures Rings.Valid(PushStep(v, v.th.op.push).mail.ring)
    ensures Contents(PushStep(v, v.th.op.push).mail.ring) == QueueAfter(v.th.op, Contents(v.mail.ring))
  {
    hide Contents, Full, HoldsAccess, HoldsSystem, HoldsTick, Shape;
    match v.th.op.push {
      case PushBody(m) => StoreInvisible(v.mail.ring, m);
      case PushAdvance(_) => PublishAppends(v.mail.ring);
      case _ =>
    }
  }

  lemma RingPop(v: View)
    requires WellFormed(v) && v.th.op.Popping? && Ready(v)
    ensures Rings.Valid(PopStep(v, v.th.op.pop).mail.ring)
    ensures Contents(PopStep(v, v.th.op.pop).mail.ring) == QueueAfter(v.th.op, Contents(v.mail.ring))
  {
    var r := v.mail.ring;
    assert r.head == r.tail <==> Contents(r) == [];
    if v.th.op.pop.PopBody? && r.head != r.tail {
      DiscardDropsFirst(r);
      assert Contents(r)[1..] == Contents(Discard(r));
    }
  }

  lemma RingScan(v: View)
    requires WellFormed(v) && v.th.op.Scanning?
    ensures Rings.Valid(ScanStep(v, v.th.op.scan).mail.ring)
    ensures Contents(ScanStep(v, v.th.op.scan).mail.ring) == QueueAfter(v.th.op, Contents(v.mail.ring))
  {
    hide Contents;
    if v.th.op.scan.EraseBody? {
      EraseSlotsErases(v.th.op.scan.e, v.mail.ring);
    }
  }

  lemma RingElsewhere(v: View, a: Action)
    requires WellFormed(v) && Enabled(v, a)
    requires a.Proceed? ==> v.th.op.Resting? || v.th.op.Tabling?
    ensures Do(v, a).mail == v.mail
  {
  }

  /** What a step does to the queue, seen as a sequence. */
  lemma QueueStep(v: View, a: Action)
    requires WellFormed(v) && ThreadOk(v) && Enabled(v, a)
    ensures Rings.Valid(Do(v, a).mail.ring)
    ensures Contents(Do(v, a).mail.ring)
         == if a.Proceed? then QueueAfter(v.th.op, Contents(v.mail.ring)) else Contents(v.mail.ring)
  {
    hide Contents, BaseStep, PushStep, PopStep, ScanStep, TableStep, ThreadOk,
         DoBegin, DoExpress, DoReturn, DoAllocate;
    if !a.Proceed? {
      RingElsewhere(v, a);
    } else {
      match v.th.op {
        case Pushing(_) => RingPush(v);
        case Popping(_) => RingPop(v);
        case Scanning(_) => RingScan(v);
        case _ => RingElsewhere(v, a);
      }
    }
  }

  lemma LogOnlyGrows(v: View, a: Action)
    requires Enabled(v, a)
    ensures v.log <= Do(v, a).log
  {
  }

  lemma InPrefix<T>(x: T, a: seq<T>, b: seq<T>)
    requires a <= b && x in a
    ensures x in b
  {
    var i :| 0 <= i < |a| && a[i] == x;
    assert b[i] == x;
  }
}
