/** Ticks are never queued twice, although the ticker looks and sends in separate critical sections. */
module EngineTicks {
  import opened Messages
  import opened Rings
  import opened TickSlots
  import opened WindowLists
  import opened Engine
  import opened EngineLocks

  predicate IsTick(m: Message) {
    m.message == SMM_TICK
  }

  /** The message on its way into the queue. */
  function Pending(op: Op): Option<Message> {
    if op.Pushing? && !op.push.CreateLock? && !op.push.CreateBody? && !op.push.PushUnlock? && !op.push.SystemUnlock?
    then Some(op.push.m) else None
  }

  /** No two queued ticks agree on window, slot and count. */
  ghost predicate TicksDistinct(q: seq<Message>) {
    forall x, y :: 0 <= x < y < |q| && IsTick(q[x]) ==> q[x] != q[y]
  }

  ghost predicate NoNewTicks(q: seq<Message>, q': seq<Message>) {
    forall m :: m in q' && IsTick(m) ==> m in q
  }

  /** The slot was set for this window and period, and has not been due since its count left 0. */
  ghost predicate SlotOk(slot: TickSlot, i: nat, log: seq<Event>, plain: bool) {
    slot.hsm != SK_INVALID_HSM ==>
      && TickSet(i, slot.hsm, slot.n100msec) in log
      && (forall j: u32 :: 1 <= j < slot.count ==> !Due(slot.n100msec, j))
      && (plain ==> Agrees(slot.n100msec, slot.param2))
  }

  ghost predicate SlotsOk(slots: seq<TickSlot>, log: seq<Event>, plain: bool) {
    |slots| == NTICKS && forall i :: 0 <= i < NTICKS ==> SlotOk(slots[i], i, log, plain)
  }

  /** A queued tick was sent for some setting of its slot, at that setting's first due count. */
  ghost predicate Justified(m: Message, log: seq<Event>) {
    exists i: nat, n: u32 :: TickSet(i, m.hsm, n) in log && m.param1 == i + 1 && FirstDue(n, m.param2)
  }

  ghost predicate QueueOk(q: seq<Message>, log: seq<Event>) {
    TicksDistinct(q) && forall m :: m in q && IsTick(m) ==> Justified(m, log)
  }

  /** The slot the ticker is busy with: due, so far not queued, and soon sent. */
  predicate TickerOk(op: Op, phase: Phase, slots: seq<TickSlot>, q: seq<Message>)
    requires |slots| == NTICKS
  {
    match phase
    case Asked(i) =>
      i < NTICKS && slots[i].hsm != SK_INVALID_HSM && Due(slots[i].n100msec, slots[i].count) &&
      op.Scanning? &&
      (match op.scan
       case QueryLock(k) => k == Exact(Probe(slots[i], i))
       case QueryBody(k) => k == Exact(Probe(slots[i], i))
       case QueryUnlock(found) => !found ==> Probe(slots[i], i) !in q
       case _ => false)
    case Answered(i, found) =>
      i < NTICKS && slots[i].hsm != SK_INVALID_HSM && Due(slots[i].n100msec, slots[i].count) &&
      (!found ==> Probe(slots[i], i) !in q)
    case Settling(i) =>
      i < NTICKS && slots[i].hsm != SK_INVALID_HSM && Due(slots[i].n100msec, slots[i].count) &&
      (Pending(op).Some? ==> Pending(op).value == Notice(slots[i], i) && Probe(slots[i], i) !in q)
    case _ => Pending(op).None?
  }

  predicate ThreadTick(th: Thread, slots: seq<TickSlot>, q: seq<Message>)
    requires |slots| == NTICKS
  {
    if th.base.Ticker? then TickerOk(th.op, th.base.phase, slots, q)
    else Pending(th.op).Some? ==> !IsTick(Pending(th.op).value)
  }

  ghost predicate SharedTick(table: Table, q: seq<Message>, log: seq<Event>) {
    SlotsOk(table.slots, log, table.plain) && (table.plain ==> QueueOk(q, log))
  }

  ghost predicate TickInv(s: State)
    requires CoreInv(s)
  {
    var q := Contents(s.mail.ring);
    && SharedTick(s.table, q, s.log)
    && (s.table.plain ==> forall t :: t in s.threads ==> ThreadTick(s.threads[t], s.table.slots, q))
  }

  lemma TickInit(s: State)
    requires Init(s) && CoreInv(s)
    ensures TickInv(s)
  {
  }

  lemma SlotsLater(slots: seq<TickSlot>, log: seq<Event>, log': seq<Event>, plain: bool, plain': bool)
    requires SlotsOk(slots, log, plain) && log <= log' && (plain' ==> plain)
    ensures SlotsOk(slots, log', plain')
  {
    forall i | 0 <= i < NTICKS
      ensures SlotOk(slots[i], i, log', plain')
    {
      assert SlotOk(slots[i], i, log, plain);
      if slots[i].hsm != SK_INVALID_HSM {
        InPrefix(TickSet(i, slots[i].hsm, slots[i].n100msec), log, log');
      }
    }
  }

  lemma JustifiedLater(m: Message, log: seq<Event>, log': seq<Event>)
    requires Justified(m, log) && log <= log'
    ensures Justified(m, log')
  {
    var i: nat, n: u32 :| TickSet(i, m.hsm, n) in log && m.param1 == i + 1 && FirstDue(n, m.param2);
    InPrefix(TickSet(i, m.hsm, n), log, log');
  }

  /** Appending anything but a tick, popping and erasing bring no tick into the queue. */
  lemma QueueQuiet(op: Op, q: seq<Message>)
    requires Pending(op).Some? ==> !IsTick(Pending(op).value)
    ensures NoNewTicks(q, QueueAfter(op, q))
    ensures TicksDistinct(q) ==> TicksDistinct(QueueAfter(op, q))
  {
    var q' := QueueAfter(op, q);
    if op.Scanning? && op.scan.EraseBody? {
      forall m | m in q' && IsTick(m)
        ensures m in q
      {
        EraseForgesNothing(op.scan.e, q, m);
      }
    }
  }

  lemma QueueOkQuiet(q: seq<Message>, q': seq<Message>, log: seq<Event>, log': seq<Event>)
    requires QueueOk(q, log) && NoNewTicks(q, q') && TicksDistinct(q') && log <= log'
    ensures QueueOk(q', log')
  {
    forall m | m in q' && IsTick(m)
      ensures Justified(m, log')
    {
      JustifiedLater(m, log, log');
    }
  }

  /** The ticker's own append is of a tick that is not queued yet. */
  lemma QueueOkNotice(slot: TickSlot, i: nat, q: seq<Message>, log: seq<Event>, log': seq<Event>)
    requires i < NTICKS && QueueOk(q, log) && log <= log'
    requires SlotOk(slot, i, log, true) && slot.hsm != SK_INVALID_HSM && Due(slot.n100msec, slot.count)
    requires Probe(slot, i) !in q
    ensures QueueOk(q + [Notice(slot, i)], log')
  {
    var m := Notice(slot, i);
    InPrefix(TickSet(i, slot.hsm, slot.n100msec), log, log');
    assert FirstDue(slot.n100msec, slot.count);
    NoticeIsProbe(slot, i);
    assert Justified(m, log');
    forall x | x in q + [m] && IsTick(x)
      ensures Justified(x, log')
    {
      if x in q {
        JustifiedLater(x, log, log');
      }
    }
  }

  /** Only the table's own operations and the ticker, both under the tick lock, change slots. */
  lemma SlotsKept(v: View, a: Action)
    requires WellFormed(v) && ThreadOk(v) && Enabled(v, a)
    requires SlotsOk(v.table.slots, v.log, v.table.plain)
    ensures SlotsOk(Do(v, a).table.slots, Do(v, a).log, Do(v, a).table.plain)
    ensures Do(v, a).table.plain ==> v.table.plain
    ensures Do(v, a).table.slots != v.table.slots ==> v.locks.tick == Some(v.me)
  {
    hide Contents, Rings.Valid, Full, SlotsOk;
    var w := Do(v, a);
    LogOnlyGrows(v, a);
    if a.Proceed? && v.th.op.Resting? && v.th.base.Ticker? {
      SlotsKeptByTicker(v);
    } else if a.Proceed? && v.th.op.Tabling? && v.th.op.work.TickBody? {
      SlotsKeptByCall(v, v.th.op.work.call);
    } else {
      assert w.table.slots == v.table.slots;
      SlotsLater(v.table.slots, v.log, w.log, v.table.plain, w.table.plain);
    }
  }

  lemma SlotsKeptByTicker(v: View)
    requires WellFormed(v) && v.th.op.Resting? && v.th.base.Ticker?
    requires SlotsOk(v.table.slots, v.log, v.table.plain)
    ensures SlotsOk(BaseStep(v).table.slots, v.log, v.table.plain)
    ensures BaseStep(v).log == v.log && BaseStep(v).table.plain == v.table.plain
  {
    hide Contents, Rings.Valid, Full;
    forall i | 0 <= i < NTICKS
      ensures SlotOk(BaseStep(v).table.slots[i], i, v.log, v.table.plain)
    {
      assert SlotOk(v.table.slots[i], i, v.log, v.table.plain);
    }
  }

  lemma SlotsKeptByCall(v: View, c: TickCall)
    requires WellFormed(v) && SlotsOk(v.table.slots, v.log, v.table.plain)
    ensures SlotsOk(ApplyTick(v, c).table.slots, ApplyTick(v, c).log, ApplyTick(v, c).table.plain)
    ensures v.log <= ApplyTick(v, c).log && (ApplyTick(v, c).table.plain ==> v.table.plain)
  {
    hide Contents, Rings.Valid, Full;
    var w := ApplyTick(v, c);
    SlotsLater(v.table.slots, v.log, w.log, v.table.plain, w.table.plain);
    forall i | 0 <= i < NTICKS
      ensures SlotOk(w.table.slots[i], i, w.log, w.table.plain)
    {
      assert SlotOk(v.table.slots[i], i, w.log, w.table.plain);
    }
  }

  function QueueNext(v: View, a: Action, q: seq<Message>): seq<Message> {
    if a.Proceed? then QueueAfter(v.th.op, q) else q
  }

  lemma QueueOkStep(v: View, a: Action, q: seq<Message>)
    requires WellFormed(v) && ThreadOk(v) && Enabled(v, a)
    requires SharedTick(v.table, q, v.log) && v.table.plain && ThreadTick(v.th, v.table.slots, q)
    ensures QueueOk(QueueNext(v, a, q), Do(v, a).log)
    ensures !v.th.base.Ticker? ==> NoNewTicks(q, QueueNext(v, a, q))
  {
    hide Contents, Rings.Valid, Full, Do, Enabled, QueueOk, NoNewTicks, TicksDistinct, SlotsOk;
    LogOnlyGrows(v, a);
    var op := v.th.op;
    var log' := Do(v, a).log;
    if a.Proceed? && v.th.base.Ticker? && op.Pushing? && op.push.PushAdvance? {
      var i := v.th.base.phase.i;
      assert SlotOk(v.table.slots[i], i, v.log, true) by {
        OneSlot(v.table.slots, v.log, i);
      }
      QueueOkNotice(v.table.slots[i], i, q, v.log, log');
    } else if a.Proceed? {
      assert Pending(op).Some? && IsTick(Pending(op).value) ==> QueueAfter(op, q) == q;
      QueueQuietOrSame(op, q);
      QueueOkQuiet(q, QueueAfter(op, q), v.log, log') by {
        OkIsDistinct(q, v.log);
      }
    } else {
      QueueQuiet(Resting, q);
      QueueOkQuiet(q, q, v.log, log') by {
        OkIsDistinct(q, v.log);
      }
    }
  }

  lemma OneSlot(slots: seq<TickSlot>, log: seq<Event>, i: nat)
    requires SlotsOk(slots, log, true) && i < NTICKS
    ensures SlotOk(slots[i], i, log, true)
  {
  }

  lemma OkIsDistinct(q: seq<Message>, log: seq<Event>)
    requires QueueOk(q, log)
    ensures TicksDistinct(q)
  {
  }

  lemma QueueQuietOrSame(op: Op, q: seq<Message>)
    requires Pending(op).Some? && IsTick(Pending(op).value) ==> QueueAfter(op, q) == q
    ensures NoNewTicks(q, QueueAfter(op, q))
    ensures TicksDistinct(q) ==> TicksDistinct(QueueAfter(op, q))
  {
    if !(Pending(op).Some? && IsTick(Pending(op).value)) {
      QueueQuiet(op, q);
    }
  }

  /** The stepping thread's own part, when it is the ticker. */
  lemma TickerSelf(v: View, q: seq<Message>)
    requires WellFormed(v) && ThreadOk(v) && Ready(v) && v.th.base.Ticker? && q == Contents(v.mail.ring)
    requires v.table.plain && TickerOk(v.th.op, v.th.base.phase, v.table.slots, q)
    requires SlotsOk(v.table.slots, v.log, true)
    ensures var w := DoProceed(v);
      |w.table.slots| == NTICKS && ThreadTick(w.th, w.table.slots, QueueAfter(v.th.op, q))
  {
    hide Contents, Rings.Valid, Full;
    match v.th.op {
      case Resting =>
        var phase := v.th.base.phase;
        if phase.Answered? && !phase.found {
          assert SlotOk(v.table.slots[phase.i], phase.i, v.log, true);
        }
      case Pushing(_) =>
      case Scanning(_) =>
      case _ =>
    }
  }

  /** The stepping thread's own part, when it is anyone else. */
  lemma ClientSelf(v: View, a: Action, q: seq<Message>)
    requires WellFormed(v) && ThreadOk(v) && Enabled(v, a) && !v.th.base.Ticker?
    requires v.table.plain && ThreadTick(v.th, v.table.slots, q)
    ensures var w := Do(v, a);
      |w.table.slots| == NTICKS && (w.table.plain ==> ThreadTick(w.th, w.table.slots, QueueNext(v, a, q)))
  {
    hide Contents, Rings.Valid, Full, DoProceed, ThreadOk, DoReturn, DoExpress;
    OrderlyDo(v, a);
    match a {
      case Proceed => ClientProceeds(v);
      case Return => ClientReturns(v, a);
      case Express(_) => ClientReturns(v, a);
      case _ =>
    }
  }

  lemma ClientReturns(v: View, a: Action)
    requires Enabled(v, a) && (a.Return? || a.Express?) && WellFormed(v)
    ensures var w := Do(v, a);
      !w.th.base.Ticker? && Pending(w.th.op).None?
  {
    hide Contents, Rings.Valid, Full, Mark;
  }

  lemma ClientProceeds(v: View)
    requires WellFormed(v) && Ready(v) && !v.th.base.Ticker?
    ensures var w := DoProceed(v);
      && !w.th.base.Ticker?
      && (Pending(w.th.op).Some? ==> Pending(w.th.op) == Pending(v.th.op))
  {
    hide Contents, Rings.Valid, Full, FirstFree, DropSlot, Without, Store, Publish, Discard, EraseSlots;
  }

  /** Everybody else's part survives a step. */
  lemma OtherTick(th: Thread, slots: seq<TickSlot>, slots': seq<TickSlot>, q: seq<Message>, q': seq<Message>)
    requires |slots| == NTICKS == |slots'| && ThreadTick(th, slots, q)
    requires th.base.Ticker? ==> NoNewTicks(q, q')
    requires th.base.Ticker? && slots' != slots ==> th.base.phase.Sleeping? || th.base.phase.Waking?
    ensures ThreadTick(th, slots', q')
  {
  }

  /** No step queues a tick twice or leaves one without its reason. */
  lemma TickStep(s: State, t: Tid, a: Action)
    requires CoreInv(s) && TickInv(s) && CanStep(s, t, a)
    ensures CoreInv(Next(s, t, a)) && TickInv(Next(s, t, a))
  {
    hide Contents, Do, Enabled, ThreadOk, QueueOk, SlotsOk, ThreadTick, NoNewTicks;
    var v := ViewOf(s, t);
    var q := Contents(s.mail.ring);
    var w := Do(v, a);
    var q' := QueueNext(v, a, q);
    assert ThreadOk(v);
    CoreStep(s, t, a);
    OrderlyDo(v, a);
    QueueStep(v, a);
    SlotsKept(v, a);
    if w.table.plain {
      QueueOkStep(v, a, q);
      forall u | u in s.threads
        ensures ThreadTick(Next(s, t, a).threads[u], w.table.slots, q')
      {
        if u != t {
          OtherThread(s, t, a, u);
        } else {
          SelfThread(s, t, a);
        }
      }
    }
  }

  lemma SelfThread(s: State, t: Tid, a: Action)
    requires CoreInv(s) && TickInv(s) && CanStep(s, t, a) && Do(ViewOf(s, t), a).table.plain
    requires s.table.plain
    ensures |Do(ViewOf(s, t), a).table.slots| == NTICKS
    ensures ThreadTick(Do(ViewOf(s, t), a).th, Do(ViewOf(s, t), a).table.slots,
                       QueueNext(ViewOf(s, t), a, Contents(s.mail.ring)))
  {
    hide Contents, DoProceed, DoBegin, DoExpress, DoAllocate, DoReturn, ThreadTick, TickerOk, SlotsOk;
    var v := ViewOf(s, t);
    var q := Contents(s.mail.ring);
    assert ThreadOk(v) && ThreadTick(v.th, v.table.slots, q);
    if v.th.base.Ticker? {
      TickerProceeds(v, a);
      assert TickerOk(v.th.op, v.th.base.phase, v.table.slots, q) by {
        TickerPart(v.th, v.table.slots, q);
      }
      TickerSelf(v, q);
    } else {
      ClientSelf(v, a, q);
    }
  }

  lemma TickerPart(th: Thread, slots: seq<TickSlot>, q: seq<Message>)
    requires |slots| == NTICKS && th.base.Ticker? && ThreadTick(th, slots, q)
    ensures TickerOk(th.op, th.base.phase, slots, q)
  {
  }

  lemma TickerProceeds(v: View, a: Action)
    requires WellFormed(v) && ThreadOk(v) && Enabled(v, a) && v.th.base.Ticker?
    ensures a.Proceed?
  {
  }

  lemma OtherThread(s: State, t: Tid, a: Action, u: Tid)
    requires CoreInv(s) && TickInv(s) && CanStep(s, t, a) && s.table.plain
    requires u in s.threads && u != t
    ensures |Do(ViewOf(s, t), a).table.slots| == NTICKS
    ensures ThreadTick(s.threads[u], Do(ViewOf(s, t), a).table.slots, QueueNext(ViewOf(s, t), a, Contents(s.mail.ring)))
  {
    hide Contents, Do, Enabled, QueueOk, SlotsOk, NoNewTicks, ThreadTick;
    var v := ViewOf(s, t);
    var q := Contents(s.mail.ring);
    assert ThreadOk(v) && ThreadOk(ViewOf(s, u));
    assert ThreadTick(v.th, v.table.slots, q) && ThreadTick(s.threads[u], s.table.slots, q);
    SlotsKept(v, a);
    OrderlyDo(v, a);
    QueueOkStep(v, a, q);
    OtherTick(s.threads[u], s.table.slots, Do(v, a).table.slots, q, QueueNext(v, a, q));
  }

  predicate TickOf(m: Message, h: u32, i: nat) {
    IsTick(m) && m.hsm == h && m.param1 == i + 1
  }

  /** A slot set for a window with one nonzero period only has at most one tick of that window in the queue. */
  lemma AtMostOnePending(s: State, i: nat, h: u32, n: u32, x: nat, y: nat)
    requires CoreInv(s) && TickInv(s) && s.table.plain && n >= 1
    requires forall n' :: TickSet(i, h, n') in s.log ==> n' == n
    requires x < y < |Contents(s.mail.ring)|
    ensures !(TickOf(Contents(s.mail.ring)[x], h, i) && TickOf(Contents(s.mail.ring)[y], h, i))
  {
    var q := Contents(s.mail.ring);
    if TickOf(q[x], h, i) && TickOf(q[y], h, i) {
      assert Justified(q[x], s.log) && Justified(q[y], s.log);
      FirstDueUnique(n, q[x].param2, q[y].param2);
    }
  }
}
