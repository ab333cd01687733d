/**
 * The SmallWin engine as a step system: any number of client threads, the ticker and the dispatcher,
 * interleaved at the granularity of semaphore operations and single writes to the queue indices.
 */
module Engine {
  import opened Messages
  import opened Rings
  import opened TickSlots
  import opened WindowLists

  type Tid = nat
  const TICKER: Tid := 0
  const DISPATCHER: Tid := 1

  datatype Query = OfHandle(hsm: u32) | Exact(m: Message)

  datatype TickCall =
    | SetTick(hsm: u32, n100msec: u32, param2: u32, sysflag: s32)
    | DropTick(htick: s32)

  /** send_message, sm_create_smallwin and the push_message inside them, named after what comes next. */
  datatype PushOp =
    | SendLock(m: Message)
    | CreateLock
    | CreateBody
    | PushLock(m: Message)
    | PushBody(m: Message)
    | PushSignal(m: Message)
    | PushAdvance(m: Message)
    | PushUnlock
    | SystemUnlock

  /** pop_message. */
  datatype PopOp =
    | PopWait
    | PopLock(token: bool)
    | PopBody(token: bool)
    | PopUnlock(result: Option<Message>)

  /** The erase and search operations. */
  datatype ScanOp =
    | EraseLock(e: Eraser)
    | EraseBody(e: Eraser)
    | EraseUnlock
    | QueryLock(q: Query)
    | QueryBody(q: Query)
    | QueryUnlock(found: bool)

  /** The tick table's operations and sm_destroy_smallwin. */
  datatype TableOp =
    | TickLock(call: TickCall)
    | TickBody(call: TickCall)
    | TickRelease(call: TickCall)
    | DestroyLock(hsm: u32)
    | DestroyBody(hsm: u32)
    | DestroyUnlock(hsm: u32)

  /** The library call a thread is inside of. */
  datatype Op =
    | Resting
    | Pushing(push: PushOp)
    | Popping(pop: PopOp)
    | Scanning(scan: ScanOp)
    | Tabling(work: TableOp)

  /** A run_sm activation. `reentered`: while it handled SMM_CLOSE, another SMM_CLOSE was run for its window. */
  datatype Frame = Frame(hsm: u32, message: u32, reentered: bool, closing: bool)

  datatype Phase =
    | Sleeping
    | Waking
    | At(i: nat)
    | Asked(i: nat)
    | Answered(i: nat, found: bool)
    | Settling(i: nat)

  datatype Base =
    | Client
    | Dispatcher(stack: seq<Frame>, got: Option<Message>)
    | Ticker(phase: Phase)

  datatype Thread = Thread(op: Op, base: Base)

  /**
   * What happened, in order. Taken is a pop; `loop` tells the dispatcher's own pops from those of user
   * code. Started and Finished bracket a run_sm activation; `queued` tells a popped message from an
   * expressed one. Dropped is a popped message that the dispatcher passes over.
   */
  datatype Event =
    | Accepted(m: Message)
    | Refused(m: Message)
    | Taken(m: Message, loop: bool)
    | Erased(e: Eraser)
    | Created(hsm: u32)
    | Started(m: Message, queued: bool)
    | Dropped(m: Message)
    | Nested(hsm: u32)
    | Finished(hsm: u32, message: u32)
    | Destroyed(hsm: u32)
    | BadUnlink(hsm: u32)
    | TickSet(i: nat, hsm: u32, n100msec: u32)

  /** The holders of the three binary semaphores. */
  datatype Locks = Locks(access: Option<Tid>, system: Option<Tid>, tick: Option<Tid>)

  /** The queue and sem_event; `failed` counts completed pops whose wait on sem_event failed. */
  datatype Mail = Mail(ring: Ring, tokens: nat, failed: nat)

  /** The window list; `known` holds every handle a call has named or an allocation has returned. */
  datatype Desk = Desk(windows: seq<u32>, known: set<u32>)

  /**
   * The tick table. `plain` says that so far only the ticker sent SMM_TICK and every slot was set with a
   * param2 that agrees with its period. `relocks` selects the text of sm_destroy_tick (a second lock, as written) or its evident
   * intent (an unlock); no step changes it.
   */
  datatype Table = Table(slots: seq<TickSlot>, plain: bool, relocks: bool)

  datatype State = State(
    locks: Locks,
    mail: Mail,
    desk: Desk,
    table: Table,
    log: seq<Event>,
    threads: map<Tid, Thread>)

  /** The shared state together with the one thread that takes a step. */
  datatype View = View(
    me: Tid,
    th: Thread,
    locks: Locks,
    mail: Mail,
    desk: Desk,
    table: Table,
    log: seq<Event>)

  function ViewOf(s: State, t: Tid): View
    requires t in s.threads
  {
    View(t, s.threads[t], s.locks, s.mail, s.desk, s.table, s.log)
  }

  function Merge(s: State, v: View): State {
    State(v.locks, v.mail, v.desk, v.table, v.log, s.threads[v.me := v.th])
  }

  datatype Call =
    | Send(m: Message)
    | Create
    | PopCall
    | EraseCall(e: Eraser)
    | QueryCall(q: Query)
    | TickOp(call: TickCall)

  datatype Action =
    | Begin(call: Call)
    | Express(m: Message)
    | Return
    | Allocate(hsm: u32)
    | FailWait
    | Proceed

  predicate Init(s: State) {
    && Rings.Valid(s.mail.ring) && s.mail.ring.head == s.mail.ring.tail == 0
    && s.mail.tokens == 0 && s.mail.failed == 0
    && s.locks == Locks(None, None, None)
    && s.desk == Desk([], {SK_INVALID_HSM}) && s.log == []
    && s.table.plain && |s.table.slots| == NTICKS
    && (forall i :: 0 <= i < NTICKS ==> s.table.slots[i].hsm == SK_INVALID_HSM && s.table.slots[i].param2 == 0)
    && TICKER in s.threads && DISPATCHER in s.threads
    && (forall t :: t in s.threads ==>
          s.threads[t] == Thread(Resting,
            if t == TICKER then Ticker(Sleeping) else if t == DISPATCHER then Dispatcher([], None) else Client))
  }

  function SetAccess(v: View, holder: Option<Tid>): View {
    v.(locks := v.locks.(access := holder))
  }

  function SetSystem(v: View, holder: Option<Tid>): View {
    v.(locks := v.locks.(system := holder))
  }

  function SetTickLock(v: View, holder: Option<Tid>): View {
    v.(locks := v.locks.(tick := holder))
  }

  function SetRing(v: View, ring: Ring): View {
    v.(mail := v.mail.(ring := ring))
  }

  function Put(v: View, op: Op): View {
    v.(th := v.th.(op := op))
  }

  function PutThread(v: View, op: Op, base: Base): View {
    v.(th := Thread(op, base))
  }

  function SetCount(v: View, i: nat, count: u32): View
    requires i < |v.table.slots|
  {
    v.(table := v.table.(slots := v.table.slots[i := v.table.slots[i].(count := count)]))
  }

  function Note(v: View, e: Event): View {
    v.(log := v.log + [e])
  }

  function Last<T>(s: seq<T>): T
    requires s != []
  {
    s[|s| - 1]
  }

  /** User code runs: a client between calls, or a handler between calls. */
  predicate UserCode(th: Thread) {
    && th.op.Resting?
    && (th.base.Client? || (th.base.Dispatcher? && th.base.stack != [] && !Last(th.base.stack).closing))
  }

  function HandlesOf(call: Call): set<u32> {
    match call
    case Send(m) => {m.hsm}
    case EraseCall(e) => if e.OfMessage? then {} else {e.hsm}
    case QueryCall(q) => {if q.OfHandle? then q.hsm else q.m.hsm}
    case TickOp(c) => if c.SetTick? then {c.hsm} else {}
    case _ => {}
  }

  function Entry(call: Call): Op {
    match call
    case Send(m) => Pushing(SendLock(m))
    case Create => Pushing(CreateLock)
    case PopCall => Popping(PopWait)
    case EraseCall(e) => Scanning(EraseLock(e))
    case QueryCall(q) => if q == OfHandle(SK_INVALID_HSM) then Resting else Scanning(QueryLock(q))
    case TickOp(c) => Tabling(TickLock(c))
  }

  function DoBegin(v: View, call: Call): View {
    Put(v.(desk := v.desk.(known := v.desk.known + HandlesOf(call)),
           table := v.table.(plain := v.table.plain && !(call.Send? && call.m.message == SMM_TICK))),
        Entry(call))
  }

  /** SMM_CLOSE activations of a window that are on the stack when another one is pushed. */
  predicate HandlesClose(f: Frame, h: u32) {
    f.hsm == h && f.message == SMM_CLOSE
  }

  function Mark(stack: seq<Frame>, m: Message): (r: seq<Frame>)
    ensures |r| == |stack|
    ensures forall k :: 0 <= k < |stack| ==>
      r[k] == if m.message == SMM_CLOSE && HandlesClose(stack[k], m.hsm) then stack[k].(reentered := true) else stack[k]
  {
    seq(|stack|, k requires 0 <= k < |stack| =>
      if m.message == SMM_CLOSE && HandlesClose(stack[k], m.hsm) then stack[k].(reentered := true) else stack[k])
  }

  predicate Nests(stack: seq<Frame>, m: Message) {
    m.message == SMM_CLOSE && exists k :: 0 <= k < |stack| && HandlesClose(stack[k], m.hsm)
  }

  /** express_message: the handler runs at once, on the caller's stack, if the window is alive. */
  function DoExpress(v: View, m: Message): View
    requires v.th.base.Dispatcher?
  {
    var b := v.th.base;
    var v1 := v.(desk := v.desk.(known := v.desk.known + {m.hsm}));
    if m.hsm == SK_INVALID_HSM || m.hsm !in v.desk.windows then v1
    else
      var v2 := if Nests(b.stack, m) then Note(v1, Nested(m.hsm)) else v1;
      PutThread(Note(v2, Started(m, false)), Resting,
                b.(stack := Mark(b.stack, m) + [Frame(m.hsm, m.message, false, false)]))
  }

  /** The handler returns; run_sm goes on with default_sm, or is done. */
  function DoReturn(v: View): View
    requires v.th.base.Dispatcher? && v.th.base.stack != []
  {
    var b := v.th.base;
    var f := Last(b.stack);
    var below := b.stack[..|b.stack| - 1];
    if f.message == SMM_CLOSE && !f.closing then
      PutThread(v, Tabling(DestroyLock(f.hsm)), b.(stack := below + [f.(closing := true)]))
    else
      PutThread(Note(v, Finished(f.hsm, f.message)), Resting, b.(stack := below))
  }

  /** malloc inside sm_create_smallwin: 0 when it fails, otherwise an address no call has named. */
  function DoAllocate(v: View, h: u32): View {
    if h == SK_INVALID_HSM then Put(v, Pushing(SystemUnlock))
    else
      Put(Note(v.(desk := Desk(v.desk.windows + [h], v.desk.known + {h})), Created(h)),
          Pushing(PushLock(Message(h, SMM_CREATE, 0, 0))))
  }

  function Answer(q: Query, queue: seq<Message>): bool {
    match q
    case OfHandle(h) => exists i :: 0 <= i < |queue| && queue[i].hsm == h
    case Exact(m) => m in queue
  }

  function ApplyTick(v: View, c: TickCall): View
    requires |v.table.slots| == NTICKS
  {
    match c
    case SetTick(h, n, p, sys) =>
      var i := FirstFree(v.table.slots);
      if i < NTICKS then
        Note(v.(table := v.table.(slots := v.table.slots[i := TickSlot(h, n, 0, p, sys)], plain := v.table.plain && Agrees(n, p))),
             TickSet(i, h, n))
      else v
    case DropTick(k) => v.(table := v.table.(slots := DropSlot(v.table.slots, k)))
  }

  /** The dispatcher between two handlers. */
  predicate InLoop(b: Base) {
    b.Dispatcher? && b.stack == []
  }

  function AfterPop(b: Base, result: Option<Message>): Base {
    if InLoop(b) then b.(got := result) else b
  }

  function AfterQuery(b: Base, found: bool): Base {
    if b.Ticker? && b.phase.Asked? then Ticker(Answered(b.phase.i, found)) else b
  }

  /** Whether the thread's next step can be taken now; only the four semaphores ever block. */
  predicate Ready(v: View) {
    match v.th.op
    case Resting => BaseReady(v, v.th.base)
    case Pushing(op) =>
      && (op.SendLock? || op.CreateLock? ==> v.locks.system.None?)
      && (op.PushLock? ==> v.locks.access.None?)
      && !op.CreateBody?
    case Popping(op) =>
      && (op.PopWait? ==> v.mail.tokens > 0)
      && (op.PopLock? ==> v.locks.access.None?)
    case Scanning(op) =>
      op.EraseLock? || op.QueryLock? ==> v.locks.access.None?
    case Tabling(op) =>
      && (op.TickLock? ==> v.locks.tick.None?)
      && (op.TickRelease? && op.call.DropTick? && v.table.relocks ==> v.locks.tick.None?)
      && (op.DestroyLock? ==> v.locks.system.None?)
  }

  predicate BaseReady(v: View, b: Base) {
    match b
    case Client => false
    case Dispatcher(_, _) => InLoop(b)
    case Ticker(phase) => !phase.Asked? && (phase.Waking? ==> v.locks.tick.None?)
  }

  predicate WellFormed(v: View) {
    Rings.Valid(v.mail.ring) && |v.table.slots| == NTICKS
  }

  function PushStep(v: View, op: PushOp): View
    requires WellFormed(v)
  {
    match op
    case SendLock(m) => Put(SetSystem(v, Some(v.me)), if m.hsm == SK_INVALID_HSM then Pushing(SystemUnlock) else Pushing(PushLock(m)))
    case CreateLock => Put(SetSystem(v, Some(v.me)), Pushing(CreateBody))
    case PushLock(m) => Put(SetAccess(v, Some(v.me)), Pushing(PushBody(m)))
    case PushBody(m) =>
      if Full(v.mail.ring) then Put(Note(v, Refused(m)), Pushing(PushUnlock))
      else Put(SetRing(v, Store(v.mail.ring, m)), Pushing(PushSignal(m)))
    case PushSignal(m) => Put(v.(mail := v.mail.(tokens := v.mail.tokens + 1)), Pushing(PushAdvance(m)))
    case PushAdvance(m) => Put(Note(SetRing(v, Publish(v.mail.ring)), Accepted(m)), Pushing(PushUnlock))
    case PushUnlock => Put(SetAccess(v, None), Pushing(SystemUnlock))
    case SystemUnlock => Put(SetSystem(v, None), Resting)
    case CreateBody => v
  }

  function PopStep(v: View, op: PopOp): View
    requires WellFormed(v) && (op.PopWait? ==> v.mail.tokens > 0)
  {
    match op
    case PopWait => Put(v.(mail := v.mail.(tokens := v.mail.tokens - 1)), Popping(PopLock(true)))
    case PopLock(token) => Put(SetAccess(v, Some(v.me)), Popping(PopBody(token)))
    case PopBody(token) =>
      var v1 := v.(mail := v.mail.(failed := v.mail.failed + if token then 0 else 1));
      if v.mail.ring.head != v.mail.ring.tail then
        var m := v.mail.ring.slots[v.mail.ring.head];
        Put(Note(SetRing(v1, Discard(v.mail.ring)), Taken(m, InLoop(v.th.base))), Popping(PopUnlock(Some(m))))
      else
        Put(v1.(mail := v1.mail.(tokens := v.mail.tokens + 1)), Popping(PopUnlock(None)))
    case PopUnlock(result) => PutThread(SetAccess(v, None), Resting, AfterPop(v.th.base, result))
  }

  function ScanStep(v: View, op: ScanOp): View
    requires WellFormed(v)
  {
    match op
    case EraseLock(e) => Put(SetAccess(v, Some(v.me)), Scanning(EraseBody(e)))
    case EraseBody(e) => Put(Note(SetRing(v, EraseSlots(e, v.mail.ring)), Erased(e)), Scanning(EraseUnlock))
    case EraseUnlock => Put(SetAccess(v, None), Resting)
    case QueryLock(q) => Put(SetAccess(v, Some(v.me)), Scanning(QueryBody(q)))
    case QueryBody(q) => Put(v, Scanning(QueryUnlock(Answer(q, Contents(v.mail.ring)))))
    case QueryUnlock(found) => PutThread(SetAccess(v, None), Resting, AfterQuery(v.th.base, found))
  }

  function TableStep(v: View, op: TableOp): View
    requires WellFormed(v)
  {
    match op
    case TickLock(c) => Put(SetTickLock(v, Some(v.me)), Tabling(TickBody(c)))
    case TickBody(c) => Put(ApplyTick(v, c), Tabling(TickRelease(c)))
    case TickRelease(c) => Put(SetTickLock(v, if c.DropTick? && v.table.relocks then Some(v.me) else None), Resting)
    case DestroyLock(h) => Put(SetSystem(v, Some(v.me)), Tabling(DestroyBody(h)))
    case DestroyBody(h) =>
      if h in v.desk.windows then
        Put(Note(v.(desk := v.desk.(windows := Without(v.desk.windows, h))), Destroyed(h)), Tabling(DestroyUnlock(h)))
      else
        Put(Note(v, BadUnlink(h)), Tabling(DestroyUnlock(h)))
    case DestroyUnlock(h) => Put(SetSystem(v, None), Scanning(EraseLock(OfWindow(h))))
  }

  /** smallwin_scheduler between two handlers: pop, drop blanks and dead windows, start the handler. */
  function DispatchStep(v: View, got: Option<Message>): View {
    match got
    case None => PutThread(v, Popping(PopWait), Dispatcher([], None))
    case Some(m) =>
      if m.hsm != SK_INVALID_HSM && m.hsm in v.desk.windows then
        PutThread(Note(v, Started(m, true)), Resting, Dispatcher([Frame(m.hsm, m.message, false, false)], None))
      else
        PutThread(Note(v, Dropped(m)), Resting, Dispatcher([], None))
  }

  /** sm_ticker between two library calls. */
  function TickerStep(v: View, phase: Phase): View
    requires WellFormed(v)
  {
    match phase
    case Sleeping => PutThread(v, Resting, Ticker(Waking))
    case Waking => PutThread(SetTickLock(v, Some(v.me)), Resting, Ticker(At(0)))
    case At(i) =>
      if i >= NTICKS then PutThread(SetTickLock(v, None), Resting, Ticker(Sleeping))
      else
        var slot := v.table.slots[i];
        if slot.hsm == SK_INVALID_HSM then PutThread(v, Resting, Ticker(At(i + 1)))
        else if Due(slot.n100msec, slot.count) then
          PutThread(v, Scanning(QueryLock(Exact(Probe(slot, i)))), Ticker(Asked(i)))
        else
          PutThread(SetCount(v, i, Increment(slot.count)), Resting, Ticker(At(i + 1)))
    case Answered(i, found) =>
      if i >= NTICKS then v
      else PutThread(v, if found then Resting else Pushing(SendLock(Notice(v.table.slots[i], i))), Ticker(Settling(i)))
    case Settling(i) =>
      if i >= NTICKS then v
      else PutThread(SetCount(v, i, Increment(0)), Resting, Ticker(At(i + 1)))
    case Asked(_) => v
  }

  function BaseStep(v: View): View
    requires WellFormed(v)
  {
    match v.th.base
    case Client => v
    case Dispatcher(_, got) => DispatchStep(v, got)
    case Ticker(phase) => TickerStep(v, phase)
  }

  function DoProceed(v: View): View
    requires WellFormed(v) && Ready(v)
  {
    match v.th.op
    case Resting => BaseStep(v)
    case Pushing(op) => PushStep(v, op)
    case Popping(op) => PopStep(v, op)
    case Scanning(op) => ScanStep(v, op)
    case Tabling(op) => TableStep(v, op)
  }

  predicate Enabled(v: View, a: Action) {
    && WellFormed(v)
    && var th := v.th;
    match a
    case Begin(_) => UserCode(th)
    case Express(_) => UserCode(th) && th.base.Dispatcher?
    case Return => th.op.Resting? && th.base.Dispatcher? && th.base.stack != []
    case Allocate(h) => th.op == Pushing(CreateBody) && (h == SK_INVALID_HSM || h !in v.desk.known)
    case FailWait => th.op == Popping(PopWait)
    case Proceed => Ready(v)
  }

  function Do(v: View, a: Action): View
    requires Enabled(v, a)
  {
    match a
    case Begin(call) => DoBegin(v, call)
    case Express(m) => DoExpress(v, m)
    case Return => DoReturn(v)
    case Allocate(h) => DoAllocate(v, h)
    case FailWait => Put(v, Popping(PopLock(false)))
    case Proceed => DoProceed(v)
  }

  predicate CanStep(s: State, t: Tid, a: Action) {
    t in s.threads && Enabled(ViewOf(s, t), a)
  }

  function Next(s: State, t: Tid, a: Action): State
    requires CanStep(s, t, a)
  {
    Merge(s, Do(ViewOf(s, t), a))
  }

  datatype Step = Step(t: Tid, a: Action)

  /** A run: an initial state and one step between each state and the next. */
  ghost predicate IsRun(states: seq<State>, steps: seq<Step>) {
    && |states| == |steps| + 1
    && Init(states[0])
    && forall i :: 0 <= i < |steps| ==>
         CanStep(states[i], steps[i].t, steps[i].a) && states[i + 1] == Next(states[i], steps[i].t, steps[i].a)
  }
}
