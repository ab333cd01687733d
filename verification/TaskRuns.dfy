/**
 * The task registry while tasks come and go. One sk_task_create at a time, split at its critical sections;
 * meanwhile threads look for their slots, run, end and are reaped.
 */
module TaskRuns {
  import opened TaskSlots

  /** How far the creation in progress has got: name checked, slot k claimed, named, pthread_create failed. */
  datatype Creator =
    | NoCreator
    | Checked(name: string, fun: int)
    | Claimed(name: string, fun: int, k: nat)
    | Renamed(name: string, fun: int, k: nat)
    | Failed(name: string, fun: int, k: nat)

  /** A thread: before its scan, with the slot i that its scan found, running a function, ending, ended. */
  datatype Pc =
    | New
    | Found(i: nat)
    | Running(i: nat, ran: int)
    | Ending(i: nat, ran: int, id: nat)
    | Done

  /** What the thread's sk_task_create was asked for, the slot it was registered in, and where it stands. */
  datatype Thread = Thread(home: nat, name: string, fun: int, pc: Pc)

  /** `threads` is indexed by thread id; pthread_create hands out none of these until they are reaped. */
  datatype State = State(table: seq<Slot>, pid: nat, issued: nat, creator: Creator, threads: map<int, Thread>)

  /**
   * Scan, Start and Return are the three parts of wrap_task_fun: finding a slot, reading its function, and
   * freeing it. TermScan and TermFree are the two searches of sk_task_term.
   */
  datatype Step =
    | Begin(name: string, fun: int)
    | ClaimSlot
    | NameSlot
    | Succeed(tid: int)
    | Fail(junk: int)
    | FreeSlot
    | Scan(tid: int)
    | Start(tid: int)
    | Return(tid: int)
    | TermScan(tid: int)
    | TermFree(tid: int)
    | Reap(tid: int)

  predicate Init(s: State) {
    && s.table == seq(MAX_THREAD_COUNT, _ => Slot(false, "", 0, 0, 0))
    && s.pid == 0 && s.issued == 0 && s.creator == NoCreator && s.threads == map[]
  }

  predicate Held(c: Creator, k: nat) {
    (c.Claimed? || c.Renamed? || c.Failed?) && c.k == k
  }

  /** A task lives in the slot: it is in use and not held by the creation in progress. */
  predicate Live(s: State, i: nat)
    requires i < |s.table|
  {
    s.table[i].inUse && !Held(s.creator, i)
  }

  predicate PcOf(s: State, tid: int, pc: Pc) {
    tid in s.threads && s.threads[tid].pc == pc
  }

  predicate Enabled(s: State, step: Step) {
    && |s.table| == MAX_THREAD_COUNT
    && (s.creator.Claimed? || s.creator.Renamed? || s.creator.Failed? ==> s.creator.k < MAX_THREAD_COUNT)
    && match step
       case Begin(name, _) => s.creator.NoCreator? && NameAllowed(s.table, name)
       case ClaimSlot => s.creator.Checked?
       case NameSlot => s.creator.Claimed?
       case Succeed(tid) => s.creator.Renamed? && tid !in s.threads
       case Fail(_) => s.creator.Renamed?
       case FreeSlot => s.creator.Failed?
       case Scan(tid) => tid in s.threads && s.threads[tid].pc.New?
       case Start(tid) => tid in s.threads && s.threads[tid].pc.Found? && s.threads[tid].pc.i < MAX_THREAD_COUNT
       case Return(tid) => tid in s.threads && s.threads[tid].pc.Running? && s.threads[tid].pc.i < MAX_THREAD_COUNT
       case TermScan(tid) => tid in s.threads && s.threads[tid].pc.Running?
       case TermFree(tid) => tid in s.threads && s.threads[tid].pc.Ending?
       case Reap(tid) => tid in s.threads && s.threads[tid].pc.Done?
  }

  function Move(s: State, tid: int, pc: Pc): State
    requires tid in s.threads
  {
    s.(threads := s.threads[tid := s.threads[tid].(pc := pc)])
  }

  function CreatorNext(s: State, step: Step): State
    requires Enabled(s, step) && (step.ClaimSlot? || step.NameSlot? || step.Succeed? || step.Fail? || step.FreeSlot?)
  {
    var c := s.creator;
    match step
    case ClaimSlot =>
      var k := Find(s.table, Free);
      if k == MAX_THREAD_COUNT then s.(creator := NoCreator)
      else s.(table := Claim(s.table, k), creator := Claimed(c.name, c.fun, k))
    case NameSlot =>
      s.(table := Rename(s.table, c.k, c.name), creator := Renamed(c.name, c.fun, c.k))
    case Succeed(tid) =>
      var id := NextId(s.pid);
      State(Register(s.table, c.k, tid, c.fun, id), id, s.issued + 1, NoCreator,
            s.threads[tid := Thread(c.k, c.name, c.fun, New)])
    case Fail(junk) =>
      s.(table := Abandon(s.table, c.k, junk, c.fun), creator := Failed(c.name, c.fun, c.k))
    case FreeSlot =>
      s.(table := Release(s.table, c.k), creator := NoCreator)
  }

  function ThreadNext(s: State, step: Step): State
    requires Enabled(s, step)
    requires step.Scan? || step.Start? || step.Return? || step.TermScan? || step.TermFree?
  {
    var tid := step.tid;
    var pc := s.threads[tid].pc;
    match step
    case Scan(_) =>
      var i := Find(s.table, OfThread(tid));
      if i == MAX_THREAD_COUNT then s else Move(s, tid, Found(i))
    case Start(_) => Move(s, tid, Running(pc.i, s.table[pc.i].fun))
    case Return(_) => Move(s.(table := Release(s.table, pc.i)), tid, Done)
    case TermScan(_) =>
      var i := Find(s.table, OfThread(tid));
      if i == MAX_THREAD_COUNT then s else Move(s, tid, Ending(pc.i, pc.ran, s.table[i].skId))
    case TermFree(_) =>
      var i := Find(s.table, WithId(pc.id));
      if i == MAX_THREAD_COUNT then Move(s, tid, Running(pc.i, pc.ran))
      else Move(s.(table := Release(s.table, i)), tid, Done)
  }

  function Next(s: State, step: Step): State
    requires Enabled(s, step)
  {
    match step
    case Begin(name, fun) => s.(creator := Checked(name, fun))
    case Reap(tid) => s.(threads := s.threads - {tid})
    case ClaimSlot => CreatorNext(s, step)
    case NameSlot => CreatorNext(s, step)
    case Succeed(_) => CreatorNext(s, step)
    case Fail(_) => CreatorNext(s, step)
    case FreeSlot => CreatorNext(s, step)
    case _ => ThreadNext(s, step)
  }

  ghost predicate IsRun(states: seq<State>, steps: seq<Step>) {
    && |states| == |steps| + 1 && Init(states[0])
    && forall i :: 0 <= i < |steps| ==> Enabled(states[i], steps[i]) && states[i + 1] == Next(states[i], steps[i])
  }

  // ---------- ids, in every run ----------

  /** Until the counter wraps: ids are bounded by it, and no two slots share a nonzero one, stale or not. */
  ghost predicate IdsInv(s: State) {
    && |s.table| == MAX_THREAD_COUNT
    && (s.creator.Claimed? || s.creator.Renamed? || s.creator.Failed? ==> s.creator.k < MAX_THREAD_COUNT)
    && (s.issued < ID_WORD ==>
      && s.pid == s.issued
      && (forall i :: 0 <= i < MAX_THREAD_COUNT ==> s.table[i].skId <= s.pid)
      && (forall i, j :: 0 <= i < j < MAX_THREAD_COUNT && s.table[i].skId != 0 ==> s.table[i].skId != s.table[j].skId)
      && (forall i :: 0 <= i < MAX_THREAD_COUNT && Live(s, i) ==> s.table[i].skId != 0))
  }

  lemma IdsInit(s: State)
    requires Init(s)
    ensures IdsInv(s)
  {
  }

  lemma IdsStep(s: State, step: Step)
    requires IdsInv(s) && Enabled(s, step)
    ensures IdsInv(Next(s, step))
  {
    hide IdsInv;
    IdsShape(s);
    if step.Succeed? {
      IdsSucceed(s, step.tid);
    } else {
      IdsQuiet(s, Next(s, step));
    }
  }

  lemma IdsShape(s: State)
    requires IdsInv(s)
    ensures |s.table| == MAX_THREAD_COUNT
    ensures s.creator.Claimed? || s.creator.Renamed? || s.creator.Failed? ==> s.creator.k < MAX_THREAD_COUNT
  {
  }

  /** Ids and the counter stay, and no task starts. */
  lemma IdsQuiet(s: State, s': State)
    requires IdsInv(s) && |s'.table| == MAX_THREAD_COUNT
    requires s'.creator.Claimed? || s'.creator.Renamed? || s'.creator.Failed? ==> s'.creator.k < MAX_THREAD_COUNT
    requires s'.issued == s.issued && s'.pid == s.pid
    requires forall i :: 0 <= i < MAX_THREAD_COUNT ==> s'.table[i].skId == s.table[i].skId && (Live(s', i) ==> Live(s, i))
    ensures IdsInv(s')
  {
  }

  /** A registration takes an id above all others. */
  lemma IdsSucceed(s: State, tid: int)
    requires IdsInv(s) && Enabled(s, Succeed(tid))
    ensures IdsInv(Next(s, Succeed(tid)))
  {
    var s' := Next(s, Succeed(tid));
    assert s.issued + 1 < ID_WORD ==> s'.pid == s.pid + 1;
    assert forall i :: 0 <= i < MAX_THREAD_COUNT && i != s.creator.k ==>
      s'.table[i] == s.table[i] && (Live(s', i) <==> Live(s, i));
  }

  lemma {:induction false} RunIds(states: seq<State>, steps: seq<Step>, n: nat)
    requires IsRun(states, steps) && n < |states|
    ensures IdsInv(states[n])
  {
    hide IdsInv, Next, Enabled;
    if n == 0 {
      IdsInit(states[0]);
    } else {
      RunIds(states, steps, n - 1);
      IdsStep(states[n - 1], steps[n - 1]);
    }
  }

  // ---------- names and threads, until a scan goes wrong ----------

  ghost predicate NamesInv(s: State)
    requires |s.table| == MAX_THREAD_COUNT
  {
    // live names are distinct
    && (forall i, j :: 0 <= i < j < MAX_THREAD_COUNT && Live(s, i) && Live(s, j) ==>
          s.table[i].name != s.table[j].name)
    // a live task comes before every slot that merely remembers its name
    && (forall i, j :: 0 <= i < MAX_THREAD_COUNT && 0 <= j < MAX_THREAD_COUNT ==>
          (Live(s, i) && !Live(s, j) && s.table[i].name == s.table[j].name ==> i < j))
    // the name of the creation in progress is nobody's, and below its slot nobody's memory
    && (!s.creator.NoCreator? ==>
          && |s.creator.name| < MAX_OS_NAME_NUM
          && forall i :: 0 <= i < MAX_THREAD_COUNT && Live(s, i) ==> s.table[i].name != s.creator.name)
    && (s.creator.Claimed? || s.creator.Renamed? || s.creator.Failed? ==>
          && s.creator.k < MAX_THREAD_COUNT && s.table[s.creator.k].inUse
          && forall j :: 0 <= j < s.creator.k && !Live(s, j) ==> s.table[j].name != s.creator.name)
    && (s.creator.Renamed? ==> s.table[s.creator.k].name == s.creator.name)
  }

  /** The thread's slot is its own, as it was registered, and what the thread has found so far is that slot. */
  ghost predicate ThreadOk(s: State, tid: int)
    requires |s.table| == MAX_THREAD_COUNT && tid in s.threads
  {
    var th := s.threads[tid];
    th.pc.Done? ||
      (&& th.home < MAX_THREAD_COUNT && Live(s, th.home)
       && s.table[th.home].threadId == tid && s.table[th.home].fun == th.fun && s.table[th.home].name == th.name
       && match th.pc
          case New => true
          case Found(i) => i == th.home
          case Running(i, ran) => i == th.home && ran == th.fun
          case Ending(i, ran, id) => i == th.home && ran == th.fun && id == s.table[th.home].skId
          case Done => true)
  }

  /** Every live slot is the home of a thread that has not ended. */
  predicate SlotOwned(s: State, i: nat)
    requires i < |s.table|
  {
    var tid := s.table[i].threadId;
    Live(s, i) ==> tid in s.threads && s.threads[tid].home == i && !s.threads[tid].pc.Done?
  }

  ghost predicate ThreadsInv(s: State)
    requires |s.table| == MAX_THREAD_COUNT
  {
    && (forall tid :: tid in s.threads ==> ThreadOk(s, tid))
    && (forall i :: 0 <= i < MAX_THREAD_COUNT ==> SlotOwned(s, i))
  }

  ghost predicate Inv(s: State) {
    IdsInv(s) && NamesInv(s) && ThreadsInv(s)
  }

  lemma InvInit(s: State)
    requires Init(s)
    ensures Inv(s)
  {
  }

  /** A slot held by an unfinished creation, below slot i, carries the thread id of the task in slot i. */
  predicate Masked(s: State, i: nat)
    requires i < |s.table|
  {
    exists k :: 0 <= k < i && Held(s.creator, k) && s.table[k].threadId == s.table[i].threadId
  }

  lemma HeldInUse(s: State)
    requires |s.table| == MAX_THREAD_COUNT && NamesInv(s)
    ensures forall k :: 0 <= k < MAX_THREAD_COUNT && Held(s.creator, k) ==> s.table[k].inUse
  {
  }

  /**
   * The scan by which a thread looks for its own slot, in wrap_task_fun and in sk_task_term, finds it exactly
   * when no slot held by an unfinished creation comes first with the same thread id left in it.
   */
  lemma ScanIff(s: State, tid: int)
    requires Inv(s) && tid in s.threads && !s.threads[tid].pc.Done?
    ensures s.threads[tid].home < |s.table|
    ensures Find(s.table, OfThread(tid)) == s.threads[tid].home <==> !Masked(s, s.threads[tid].home)
  {
    hide NamesInv;
    HeldInUse(s);
    assert ThreadOk(s, tid);
    var i := s.threads[tid].home;
    var f := Find(s.table, OfThread(tid));
    assert Matches(OfThread(tid), s.table[i]);
    assert f <= i;
    if f < i {
      assert SlotOwned(s, f);
      assert Held(s.creator, f);
    }
  }

  /** The second search of sk_task_term ignores the in-use flag, and is right until the id counter wraps. */
  lemma TermFindsOwn(s: State, tid: int)
    requires Inv(s) && s.issued < ID_WORD && tid in s.threads && s.threads[tid].pc.Ending?
    ensures Find(s.table, WithId(s.threads[tid].pc.id)) == s.threads[tid].home
  {
    hide NamesInv;
    assert ThreadOk(s, tid);
    var i := s.threads[tid].home;
    var f := Find(s.table, WithId(s.table[i].skId));
    assert Matches(WithId(s.table[i].skId), s.table[i]);
    assert f <= i;
  }

  /** A thread scans while its slot is masked, or frees a slot by its id after ids have started to repeat. */
  predicate GoesWrong(s: State, step: Step) {
    match step
    case Scan(tid) => tid in s.threads && s.threads[tid].home < |s.table| && Masked(s, s.threads[tid].home)
    case TermScan(tid) => tid in s.threads && s.threads[tid].home < |s.table| && Masked(s, s.threads[tid].home)
    case TermFree(_) => s.issued >= ID_WORD
    case _ => false
  }

  /** So far no step of the run has gone wrong. */
  predicate Clean(states: seq<State>, steps: seq<Step>, n: nat)
    requires n <= |steps| < |states|
  {
    forall j :: 0 <= j < n ==> !GoesWrong(states[j], steps[j])
  }

  /** A step of a thread in a clean state: only the thread's own slot may be freed, at its end. */
  lemma ThreadMoves(s: State, step: Step)
    requires Inv(s) && Enabled(s, step) && !GoesWrong(s, step)
    requires step.Scan? || step.Start? || step.Return? || step.TermScan? || step.TermFree?
    ensures var tid := step.tid;
      var th := s.threads[tid];
      var s' := Next(s, step);
      && th.home < |s.table|
      && s'.creator == s.creator && tid in s'.threads
      && s' == Move(s.(table := if s'.threads[tid].pc.Done? then Release(s.table, th.home) else s.table), tid, s'.threads[tid].pc)
      && match s'.threads[tid].pc
         case New => false
         case Found(i) => i == th.home
         case Running(i, ran) => i == th.home && ran == th.fun
         case Ending(i, ran, id) => i == th.home && ran == th.fun && id == s.table[th.home].skId
         case Done => true
  {
    hide NamesInv, IdsInv;
    IdsShape(s);
    assert ThreadOk(s, step.tid);
    if step.TermFree? {
      TermFindsOwn(s, step.tid);
    } else {
      ScanIff(s, step.tid);
    }
  }

  lemma NamesStep(s: State, step: Step)
    requires Inv(s) && Enabled(s, step) && !GoesWrong(s, step)
    ensures |Next(s, step).table| == MAX_THREAD_COUNT && NamesInv(Next(s, step))
  {
    hide IdsInv, NamesInv, GoesWrong, ThreadsInv, ThreadNext, CreatorNext;
    IdsShape(s);
    match step {
      case Begin(_, _) => NamesCreator(s, step);
      case Reap(_) => NamesCreator(s, step);
      case ClaimSlot => NamesCreator(s, step);
      case NameSlot => NamesCreator(s, step);
      case Succeed(_) => NamesCreator(s, step);
      case Fail(_) => NamesCreator(s, step);
      case FreeSlot => NamesCreator(s, step);
      case _ =>
        ThreadMoves(s, step);
        HomeLives(s, step.tid);
        NamesRelease(s, Next(s, step), s.threads[step.tid].home);
    }
  }

  /** A creation takes the lowest free slot for a name that no live task has. */
  lemma NamesCreator(s: State, step: Step)
    requires |s.table| == MAX_THREAD_COUNT && NamesInv(s) && Enabled(s, step)
    requires !(step.Scan? || step.Start? || step.Return? || step.TermScan? || step.TermFree?)
    ensures |Next(s, step).table| == MAX_THREAD_COUNT && NamesInv(Next(s, step))
  {
  }

  lemma HomeLives(s: State, tid: int)
    requires Inv(s) && tid in s.threads && !s.threads[tid].pc.Done?
    ensures |s.table| == MAX_THREAD_COUNT && s.threads[tid].home < MAX_THREAD_COUNT && Live(s, s.threads[tid].home)
  {
    assert ThreadOk(s, tid);
  }

  /** Nothing happens to the names, or a live slot is freed. */
  lemma NamesRelease(s: State, s': State, i: nat)
    requires |s.table| == MAX_THREAD_COUNT && NamesInv(s) && i < MAX_THREAD_COUNT && Live(s, i)
    requires s'.creator == s.creator && (s'.table == s.table || s'.table == Release(s.table, i))
    ensures |s'.table| == MAX_THREAD_COUNT && NamesInv(s')
  {
  }

  /** The creation in progress touches only its own slot; a registration brings the slot its thread. */
  lemma ThreadsCreator(s: State, step: Step)
    requires |s.table| == MAX_THREAD_COUNT && NamesInv(s) && ThreadsInv(s) && Enabled(s, step)
    requires step.ClaimSlot? || step.NameSlot? || step.Succeed? || step.Fail? || step.FreeSlot?
    ensures |Next(s, step).table| == MAX_THREAD_COUNT && ThreadsInv(Next(s, step))
  {
    var s' := Next(s, step);
    assert forall i :: 0 <= i < MAX_THREAD_COUNT && Live(s, i) ==> s'.table[i] == s.table[i] && Live(s', i);
    forall tid | tid in s'.threads
      ensures ThreadOk(s', tid)
    {
      if tid in s.threads {
        assert ThreadOk(s, tid);
      }
    }
    forall i | 0 <= i < MAX_THREAD_COUNT
      ensures SlotOwned(s', i)
    {
      assert SlotOwned(s, i);
    }
  }

  /** A thread moves on in its own slot, which is freed when it ends. */
  lemma ThreadsMove(s: State, s': State, tid: int)
    requires |s.table| == MAX_THREAD_COUNT && ThreadsInv(s) && tid in s.threads && !s.threads[tid].pc.Done?
    requires s.threads[tid].home < MAX_THREAD_COUNT && s'.creator == s.creator && tid in s'.threads
    requires s'.threads == s.threads[tid := s.threads[tid].(pc := s'.threads[tid].pc)]
    requires s'.table == if s'.threads[tid].pc.Done? then Release(s.table, s.threads[tid].home) else s.table
    requires ThreadOk(s', tid)
    ensures ThreadsInv(s')
  {
    forall u | u in s'.threads
      ensures ThreadOk(s', u)
    {
      assert ThreadOk(s, u) && ThreadOk(s, tid);
    }
    forall i | 0 <= i < MAX_THREAD_COUNT
      ensures SlotOwned(s', i)
    {
      assert SlotOwned(s, i) && ThreadOk(s, tid);
    }
  }

  lemma ThreadsReap(s: State, tid: int)
    requires |s.table| == MAX_THREAD_COUNT && ThreadsInv(s) && Enabled(s, Reap(tid))
    ensures ThreadsInv(Next(s, Reap(tid)))
  {
    var s' := Next(s, Reap(tid));
    forall u | u in s'.threads
      ensures ThreadOk(s', u)
    {
      assert ThreadOk(s, u);
    }
    forall i | 0 <= i < MAX_THREAD_COUNT
      ensures SlotOwned(s', i)
    {
      assert SlotOwned(s, i);
    }
  }

  lemma ThreadsStep(s: State, step: Step)
    requires Inv(s) && Enabled(s, step) && !GoesWrong(s, step)
    ensures |Next(s, step).table| == MAX_THREAD_COUNT && ThreadsInv(Next(s, step))
  {
    hide IdsInv, NamesInv, ThreadsInv, GoesWrong, CreatorNext, ThreadNext;
    IdsShape(s);
    match step {
      case Begin(_, _) => ThreadsBegin(s, step);
      case Reap(tid) => ThreadsReap(s, tid);
      case ClaimSlot => ThreadsCreator(s, step);
      case NameSlot => ThreadsCreator(s, step);
      case Succeed(_) => ThreadsCreator(s, step);
      case Fail(_) => ThreadsCreator(s, step);
      case FreeSlot => ThreadsCreator(s, step);
      case _ =>
        ThreadMoves(s, step);
        assert ThreadOk(Next(s, step), step.tid) by {
          ThreadStays(s, step);
        }
        ThreadsMove(s, Next(s, step), step.tid);
    }
  }

  lemma ThreadsBegin(s: State, step: Step)
    requires |s.table| == MAX_THREAD_COUNT && ThreadsInv(s) && Enabled(s, step) && step.Begin?
    ensures ThreadsInv(Next(s, step))
  {
    var s' := Next(s, step);
    assert forall tid :: tid in s.threads ==> (ThreadOk(s, tid) <==> ThreadOk(s', tid));
    assert forall i :: 0 <= i < MAX_THREAD_COUNT ==> (SlotOwned(s, i) <==> SlotOwned(s', i));
  }

  lemma ThreadStays(s: State, step: Step)
    requires Inv(s) && Enabled(s, step) && !GoesWrong(s, step)
    requires step.Scan? || step.Start? || step.Return? || step.TermScan? || step.TermFree?
    ensures |Next(s, step).table| == MAX_THREAD_COUNT && step.tid in Next(s, step).threads
    ensures ThreadOk(Next(s, step), step.tid)
  {
    hide IdsInv, NamesInv, GoesWrong, ThreadNext;
    IdsShape(s);
    ThreadMoves(s, step);
    assert ThreadOk(s, step.tid);
  }

  /** Every state of every run satisfies the invariant, as long as no scan has been taken while masked. */
  lemma {:induction false} RunInv(states: seq<State>, steps: seq<Step>, n: nat)
    requires IsRun(states, steps) && n < |states| && Clean(states, steps, n)
    ensures Inv(states[n])
  {
    hide NamesInv, IdsInv, ThreadsInv, Next, Enabled, GoesWrong;
    if n == 0 {
      InvInit(states[0]);
    } else {
      RunInv(states, steps, n - 1);
      IdsStep(states[n - 1], steps[n - 1]);
      NamesStep(states[n - 1], steps[n - 1]);
      ThreadsStep(states[n - 1], steps[n - 1]);
    }
  }

  /**
   * Name lookup returns the slot, and so the id, of the unfinished task of that name, although it never looks
   * at the in-use flag.
   */
  lemma RunNameFindsLive(states: seq<State>, steps: seq<Step>, n: nat, tid: int)
    requires IsRun(states, steps) && n < |states| && Clean(states, steps, n)
    requires tid in states[n].threads && !states[n].threads[tid].pc.Done?
    ensures Find(states[n].table, Named(states[n].threads[tid].name)) == states[n].threads[tid].home
    ensures states[n].threads[tid].home < |states[n].table|
    ensures states[n].table[states[n].threads[tid].home].threadId == tid
  {
    RunInv(states, steps, n);
    assert ThreadOk(states[n], tid);
    NameFindsLive(states[n], states[n].threads[tid].home);
  }

  lemma NameFindsLive(s: State, i: nat)
    requires |s.table| == MAX_THREAD_COUNT && NamesInv(s) && i < MAX_THREAD_COUNT && Live(s, i)
    ensures Find(s.table, Named(s.table[i].name)) == i
  {
    var f := Find(s.table, Named(s.table[i].name));
    assert Matches(Named(s.table[i].name), s.table[i]);
    assert f <= i;
  }

  /**
   * Every thread that runs, runs the function its own sk_task_create was given; and one that still looks for its
   * slot finds its own exactly when no unfinished creation masks it.
   */
  lemma RunOwnFunction(states: seq<State>, steps: seq<Step>, n: nat, tid: int)
    requires IsRun(states, steps) && n < |states| && Clean(states, steps, n) && tid in states[n].threads
    ensures states[n].threads[tid].pc.Running? ==>
      states[n].threads[tid].pc.ran == states[n].threads[tid].fun && states[n].threads[tid].pc.i == states[n].threads[tid].home
    ensures !states[n].threads[tid].pc.Done? ==>
      && states[n].threads[tid].home < |states[n].table|
      && (Masked(states[n], states[n].threads[tid].home) <==>
            Find(states[n].table, OfThread(tid)) != states[n].threads[tid].home)
  {
    RunInv(states, steps, n);
    assert ThreadOk(states[n], tid);
    if !states[n].threads[tid].pc.Done? {
      ScanIff(states[n], tid);
    }
  }

  /** A thread's scan, in wrap_task_fun or in sk_task_term, that finds the thread's own slot. */
  predicate FindsOwn(s: State, step: Step) {
    (step.Scan? || step.TermScan?) && step.tid in s.threads ==>
      Find(s.table, OfThread(step.tid)) == s.threads[step.tid].home
  }

  /** Until the id counter wraps, every scan so far has found its own slot exactly when none was taken while masked. */
  lemma {:induction false} ScansIff(states: seq<State>, steps: seq<Step>, n: nat)
    requires IsRun(states, steps) && n < |states| && states[n].issued < ID_WORD
    ensures Clean(states, steps, n) <==> forall j :: 0 <= j < n ==> FindsOwn(states[j], steps[j])
  {
    hide Inv, Next, Enabled, GoesWrong, FindsOwn;
    if n > 0 {
      var s, step := states[n - 1], steps[n - 1];
      IssuedGrows(s, step);
      ScansIff(states, steps, n - 1);
      if Clean(states, steps, n - 1) {
        RunInv(states, steps, n - 1);
        FindsOwnIff(s, step);
      }
    }
  }

  lemma FindsOwnIff(s: State, step: Step)
    requires Inv(s) && Enabled(s, step) && s.issued < ID_WORD
    ensures FindsOwn(s, step) <==> !GoesWrong(s, step)
  {
    if step.Scan? || step.TermScan? {
      ScanIff(s, step.tid);
    }
  }

  // ---------- identity ----------

  /** The slot was given to another task between two points of a run. */
  predicate Recreated(states: seq<State>, steps: seq<Step>, i: nat, n: nat, k: nat)
    requires n <= |steps| < |states|
  {
    exists j :: i <= j < n && steps[j].Succeed? && Held(states[j].creator, k)
  }

  /** The id belongs to slot k or to none. */
  predicate OnlyAt(table: seq<Slot>, k: nat, id: nat) {
    k < |table| == MAX_THREAD_COUNT && forall m :: 0 <= m < MAX_THREAD_COUNT && table[m].skId == id ==> m == k
  }

  lemma SucceedSets(s: State, step: Step)
    requires IdsInv(s) && Enabled(s, step) && step.Succeed? && Next(s, step).issued < ID_WORD
    ensures s.creator.Renamed?
    ensures var s' := Next(s, step);
      s'.pid >= 1 && OnlyAt(s'.table, s.creator.k, s'.pid) && s'.table[s.creator.k].skId == s'.pid
  {
  }

  lemma {:induction false} IdentityRun(states: seq<State>, steps: seq<Step>, i: nat, n: nat)
    requires IsRun(states, steps) && i < n < |states| && steps[i].Succeed?
    requires states[n].issued < ID_WORD
    ensures states[i].creator.Renamed?
    ensures var k, id := states[i].creator.k, states[i + 1].pid;
      && 1 <= id <= states[n].pid && OnlyAt(states[n].table, k, id)
      && (states[n].table[k].skId == id <==> !Recreated(states, steps, i + 1, n, k))
    decreases n
  {
    hide IdsInv, Next, Enabled, Recreated;
    RunIds(states, steps, n - 1);
    IssuedGrows(states[n - 1], steps[n - 1]);
    if n == i + 1 {
      SucceedSets(states[i], steps[i]);
      RecreatedNever(states, steps, n, states[i].creator.k);
    } else {
      IdentityRun(states, steps, i, n - 1);
      var k, id := states[i].creator.k, states[i + 1].pid;
      IdentityStep(states[n - 1], steps[n - 1], k, id);
      RecreatedStep(states, steps, i + 1, n, k);
    }
  }

  lemma RecreatedNever(states: seq<State>, steps: seq<Step>, n: nat, k: nat)
    requires n <= |steps| < |states|
    ensures !Recreated(states, steps, n, n, k)
  {
  }

  /**
   * The id returned by a creation resolves to its slot until that slot is given to another task, and
   * from then on to nothing; it never resolves to a different slot.
   */
  lemma RunIdentity(states: seq<State>, steps: seq<Step>, i: nat, n: nat)
    requires IsRun(states, steps) && i < n < |states| && steps[i].Succeed?
    requires states[n].issued < ID_WORD
    ensures states[i].creator.Renamed?
    ensures var k, id := states[i].creator.k, states[i + 1].pid;
      Find(states[n].table, WithId(id)) == if Recreated(states, steps, i + 1, n, k) then |states[n].table| else k
  {
    hide Next, Enabled, Recreated;
    IdentityRun(states, steps, i, n);
    IdFind(states[n].table, states[i].creator.k, states[i + 1].pid);
  }

  lemma IssuedGrows(s: State, step: Step)
    requires Enabled(s, step)
    ensures s.issued <= Next(s, step).issued
  {
  }

  lemma RecreatedStep(states: seq<State>, steps: seq<Step>, i: nat, n: nat, k: nat)
    requires i < n <= |steps| < |states|
    ensures Recreated(states, steps, i, n, k) <==>
      Recreated(states, steps, i, n - 1, k) || (steps[n - 1].Succeed? && Held(states[n - 1].creator, k))
  {
  }

  lemma IdentityStep(s: State, step: Step, k: nat, id: nat)
    requires IdsInv(s) && Enabled(s, step) && OnlyAt(s.table, k, id) && 1 <= id <= s.pid
    requires s.issued < ID_WORD && Next(s, step).issued < ID_WORD
    ensures var s' := Next(s, step);
      && id <= s'.pid && OnlyAt(s'.table, k, id)
      && (s'.table[k].skId == id <==> s.table[k].skId == id && !(step.Succeed? && Held(s.creator, k)))
  {
  }

  lemma IdFind(table: seq<Slot>, k: nat, id: nat)
    requires k < |table| && forall m :: 0 <= m < |table| && table[m].skId == id ==> m == k
    ensures Find(table, WithId(id)) == if table[k].skId == id then k else |table|
  {
    var f := Find(table, WithId(id));
    if table[k].skId == id {
      assert Matches(WithId(id), table[k]);
      assert f <= k;
    }
  }

  // ---------- undisturbed, the steps are the calls ----------

  /** The steps of a creation with nothing in between fill the lowest free slot with all it was asked for. */
  lemma CreationFills(s: State, name: string, fun: int, tid: int, k: nat)
    requires s.creator.NoCreator? && |s.table| == MAX_THREAD_COUNT && NameAllowed(s.table, name) && tid !in s.threads
    requires k < MAX_THREAD_COUNT && !s.table[k].inUse && forall j :: 0 <= j < k ==> s.table[j].inUse
    ensures Enabled(s, Begin(name, fun))
    ensures var s1 := Next(s, Begin(name, fun));
      Enabled(s1, ClaimSlot) && var s2 := Next(s1, ClaimSlot);
      Enabled(s2, NameSlot) && var s3 := Next(s2, NameSlot);
      && Enabled(s3, Succeed(tid)) && Enabled(s3, Fail(tid))
      && var done, failed := Next(s3, Succeed(tid)), Next(s3, Fail(tid));
      && Filled(s.table, done.table, k, Slot(true, name, tid, fun, (s.pid + 1) % 0x1_0000_0000_0000_0000))
      && done.threads == s.threads[tid := Thread(k, name, fun, New)] && done.creator.NoCreator?
      && Enabled(failed, FreeSlot) && failed.table[k].inUse && failed.table[k].threadId == tid
      && Filled(s.table, Next(failed, FreeSlot).table, k, Slot(false, name, tid, fun, s.table[k].skId))
      && Next(failed, FreeSlot).threads == s.threads && Next(failed, FreeSlot).creator.NoCreator?
  {
    assert Find(s.table, Free) == k;
  }

  /** The two searches of sk_task_term with nothing in between free the first slot with the id they found. */
  lemma TermFrees(s: State, tid: int)
    requires Enabled(s, TermScan(tid))
    ensures var s1 := Next(s, TermScan(tid));
      if forall i :: 0 <= i < |s.table| ==> !(s.table[i].inUse && s.table[i].threadId == tid) then s1 == s
      else Enabled(s1, TermFree(tid)) && var s2 := Next(s1, TermFree(tid));
           s2.threads == s.threads[tid := s.threads[tid].(pc := Done)]
           && exists i: nat, j: nat :: Freed(s.table, s2.table, tid, i, j)
  {
    var i := Find(s.table, OfThread(tid));
    if i < |s.table| {
      var j := Find(s.table, WithId(s.table[i].skId));
      assert Matches(WithId(s.table[i].skId), s.table[i]);
      assert Freed(s.table, Release(s.table, j), tid, i, j);
    }
  }

  /** The id that a name leads to is that of the first slot of the name, whether a task lives there or not. */
  lemma NameLeads(s: State, name: string)
    ensures var i := Find(s.table, Named(name));
      if i < |s.table| then FirstNamed(s.table, name, i)
      else forall j :: 0 <= j < |s.table| ==> s.table[j].name != name
  {
  }

  // ---------- a run in which a scan goes wrong ----------

  const BLANK := Slot(false, "", 0, 0, 0)

  /** A table whose first two slots have been touched. */
  function Two(a: Slot, b: Slot): (t: seq<Slot>)
    ensures |t| == MAX_THREAD_COUNT && t[0] == a && t[1] == b
    ensures forall i :: 2 <= i < MAX_THREAD_COUNT ==> t[i] == BLANK
  {
    [a, b] + seq(MAX_THREAD_COUNT - 2, _ => BLANK)
  }

  lemma TwoUpdates(a: Slot, b: Slot, x: Slot)
    ensures Two(a, b)[0 := x] == Two(x, b)
    ensures Two(a, b)[1 := x] == Two(a, x)
  {
  }

  /** A run that ends in s. */
  ghost predicate Reaches(states: seq<State>, steps: seq<Step>, s: State) {
    IsRun(states, steps) && states[|steps|] == s
  }

  lemma Extend(states: seq<State>, steps: seq<Step>, s: State, step: Step) returns (states': seq<State>, steps': seq<Step>)
    requires Reaches(states, steps, s) && Enabled(s, step)
    ensures Reaches(states', steps', Next(s, step)) && states' == states + [Next(s, step)] && steps' == steps + [step]
  {
    hide Next, Enabled;
    states', steps' := states + [Next(s, step)], steps + [step];
  }

  lemma StartsBlank(s: State)
    requires s == State(Two(BLANK, BLANK), 0, 0, NoCreator, map[])
    ensures Reaches([s], [], s)
  {
    assert s.table == seq(MAX_THREAD_COUNT, _ => Slot(false, "", 0, 0, 0));
  }

  lemma NameFree(a: Slot, b: Slot, name: string)
    requires |name| < MAX_OS_NAME_NUM && (a.inUse ==> a.name != name) && (b.inUse ==> b.name != name)
    ensures NameAllowed(Two(a, b), name)
  {
  }

  /** A creation checks its name and claims the first free slot, one of the first two. */
  lemma ExtendClaim(states: seq<State>, steps: seq<Step>, s: State, a: Slot, b: Slot, name: string, fun: int)
      returns (states': seq<State>, steps': seq<Step>)
    requires Reaches(states, steps, s) && s.table == Two(a, b) && s.creator.NoCreator?
    requires NameAllowed(s.table, name) && !(a.inUse && b.inUse)
    ensures Reaches(states', steps',
      s.(table := if a.inUse then Two(a, b.(inUse := true)) else Two(a.(inUse := true), b),
         creator := Claimed(name, fun, if a.inUse then 1 else 0)))
  {
    hide Reaches, Two, NameAllowed;
    TwoUpdates(a, b, a.(inUse := true));
    TwoUpdates(a, b, b.(inUse := true));
    assert Find(s.table, Free) == if a.inUse then 1 else 0;
    var s1 := s.(creator := Checked(name, fun));
    states', steps' := Extend(states, steps, s, Begin(name, fun));
    states', steps' := Extend(states', steps', s1, ClaimSlot);
  }

  /** The rest of a creation, in a slot that may have been freed under its hands. */
  lemma ExtendEnds(states: seq<State>, steps: seq<Step>, s: State, a: Slot, b: Slot, tid: int)
      returns (states': seq<State>, steps': seq<Step>)
    requires Reaches(states, steps, s) && s.table == Two(a, b) && s.creator.Claimed? && s.creator.k <= 1
    requires tid !in s.threads && |s.creator.name| < MAX_OS_NAME_NUM && s.pid + 1 < ID_WORD
    ensures var c := s.creator;
      var x := if c.k == 0 then a else b;
      var done := x.(name := if x.inUse then c.name else x.name, threadId := tid, fun := c.fun, skId := s.pid + 1);
      Reaches(states', steps',
        State(if c.k == 0 then Two(done, b) else Two(a, done), s.pid + 1, s.issued + 1, NoCreator,
              s.threads[tid := Thread(c.k, c.name, c.fun, New)]))
  {
    hide Reaches, Two;
    var c := s.creator;
    var x := if c.k == 0 then a else b;
    var named := x.(name := if x.inUse then c.name else x.name);
    var done := named.(threadId := tid, fun := c.fun, skId := s.pid + 1);
    TwoUpdates(a, b, named);
    TwoUpdates(if c.k == 0 then named else a, if c.k == 0 then b else named, done);
    var s1 := s.(table := if c.k == 0 then Two(named, b) else Two(a, named), creator := Renamed(c.name, c.fun, c.k));
    assert !x.inUse ==> named == x;
    assert Rename(s.table, c.k, c.name) == s1.table;
    assert NextId(s.pid) == s.pid + 1;
    states', steps' := Extend(states, steps, s, NameSlot);
    states', steps' := Extend(states', steps', s1, Succeed(tid));
  }

  /** A thread scans, finds slot i, and starts the function it reads there. */
  lemma ExtendStart(states: seq<State>, steps: seq<Step>, s: State, a: Slot, b: Slot, tid: int, i: nat)
      returns (states': seq<State>, steps': seq<Step>)
    requires Reaches(states, steps, s) && s.table == Two(a, b) && i <= 1 && tid in s.threads && s.threads[tid].pc.New?
    requires s.creator.NoCreator? || (s.creator.Claimed? && s.creator.k <= 1)
    requires if i == 0 then a.inUse && a.threadId == tid else b.inUse && b.threadId == tid && !(a.inUse && a.threadId == tid)
    ensures Reaches(states', steps', Move(s, tid, Running(i, if i == 0 then a.fun else b.fun)))
  {
    hide Reaches, Two;
    assert Find(s.table, OfThread(tid)) == i;
    states', steps' := Extend(states, steps, s, Scan(tid));
    var s1 := Move(s, tid, Found(i));
    states', steps' := Extend(states', steps', s1, Start(tid));
    assert Next(s1, Start(tid)) == Move(s, tid, Running(i, s.table[i].fun));
  }

  /** A running thread returns, which frees slot 0, and is reaped. */
  lemma ExtendReturn(states: seq<State>, steps: seq<Step>, s: State, a: Slot, b: Slot, tid: int)
      returns (states': seq<State>, steps': seq<Step>)
    requires Reaches(states, steps, s) && s.table == Two(a, b) && tid in s.threads
    requires s.threads.Keys == {tid} && s.threads[tid].pc.Running? && s.threads[tid].pc.i == 0
    requires s.creator.NoCreator? || (s.creator.Claimed? && s.creator.k <= 1)
    ensures Reaches(states', steps', s.(table := Two(a.(inUse := false), b), threads := map[]))
  {
    hide Reaches, Two;
    TwoUpdates(a, b, a.(inUse := false));
    states', steps' := Extend(states, steps, s, Return(tid));
    var s1 := Move(s.(table := Two(a.(inUse := false), b)), tid, Done);
    states', steps' := Extend(states', steps', s1, Reap(tid));
    assert s1.threads - {tid} == map[];
  }

  /**
   * The scan that goes wrong: task "a" ends and its thread id 7 is given out again while "b" is being created
   * above its slot; the creation of "c" then claims the lower slot. The thread of "b" finds that slot and runs
   * the function of "a".
   */
  lemma ScanMisled() returns (states: seq<State>, steps: seq<Step>, s: State)
    ensures Reaches(states, steps, s)
    ensures s == State(Two(Slot(true, "a", 7, 1, 1), Slot(true, "b", 7, 2, 2)), 2, 2, Claimed("c", 3, 0),
                       map[7 := Thread(1, "b", 2, Running(0, 1))])
  {
    hide Reaches, Two, NameAllowed;
    var a, a' := Slot(true, "a", 7, 1, 1), Slot(false, "a", 7, 1, 1);
    var b := Slot(true, "b", 7, 2, 2);
    var held := Slot(true, "", 0, 0, 0);
    var s0 := State(Two(BLANK, BLANK), 0, 0, NoCreator, map[]);
    states, steps := [s0], [];
    StartsBlank(s0);
    NameFree(BLANK, BLANK, "a");
    states, steps := ExtendClaim(states, steps, s0, BLANK, BLANK, "a", 1);
    states, steps := ExtendEnds(states, steps, s0.(table := Two(held, BLANK), creator := Claimed("a", 1, 0)), held, BLANK, 7);
    var s1 := State(Two(a, BLANK), 1, 1, NoCreator, map[7 := Thread(0, "a", 1, New)]);
    NameFree(a, BLANK, "b");
    states, steps := ExtendClaim(states, steps, s1, a, BLANK, "b", 2);
    var s2 := s1.(table := Two(a, held), creator := Claimed("b", 2, 1));
    states, steps := ExtendStart(states, steps, s2, a, held, 7, 0);
    states, steps := ExtendReturn(states, steps, Move(s2, 7, Running(0, 1)), a, held, 7);
    states, steps := ExtendEnds(states, steps, s2.(table := Two(a', held), threads := map[]), a', held, 7);
    var s3 := State(Two(a', b), 2, 2, NoCreator, map[7 := Thread(1, "b", 2, New)]);
    NameFree(a', b, "c");
    states, steps := ExtendClaim(states, steps, s3, a', b, "c", 3);
    var s4 := s3.(table := Two(a, b), creator := Claimed("c", 3, 0));
    states, steps := ExtendStart(states, steps, s4, a, b, 7, 0);
    s := Move(s4, 7, Running(0, 1));
  }

  /**
   * What follows: the misled thread frees the slot under the creation of "c", which can then neither name it nor
   * mark it. With no creation in progress any more, the thread of "c" runs the function of "b", and no lookup
   * finds "c".
   */
  lemma MisledSpreads() returns (states: seq<State>, steps: seq<Step>, s: State)
    ensures Reaches(states, steps, s) && s.creator.NoCreator? && s.issued < ID_WORD
    ensures 7 in s.threads && s.threads[7] == Thread(0, "c", 3, Running(1, 2))
    ensures |s.table| == MAX_THREAD_COUNT && Find(s.table, Named("c")) == MAX_THREAD_COUNT
    ensures !Clean(states, steps, |steps|)
  {
    hide Reaches, Two, NameAllowed;
    var a, a', c := Slot(true, "a", 7, 1, 1), Slot(false, "a", 7, 1, 1), Slot(false, "a", 7, 3, 3);
    var b := Slot(true, "b", 7, 2, 2);
    states, steps, s := ScanMisled();
    states, steps := ExtendReturn(states, steps, s, a, b, 7);
    states, steps := ExtendEnds(states, steps, s.(table := Two(a', b), threads := map[]), a', b, 7);
    var s1 := State(Two(c, b), 3, 3, NoCreator, map[7 := Thread(0, "c", 3, New)]);
    states, steps := ExtendStart(states, steps, s1, c, b, 7, 1);
    s := Move(s1, 7, Running(1, 2));
    MisledIsUnclean(states, steps, s);
  }

  lemma MisledIsUnclean(states: seq<State>, steps: seq<Step>, s: State)
    requires Reaches(states, steps, s) && 7 in s.threads && s.threads[7] == Thread(0, "c", 3, Running(1, 2))
    ensures |steps| < |states| && !Clean(states, steps, |steps|)
  {
    hide Clean, Next, Enabled;
    if Clean(states, steps, |steps|) {
      RunOwnFunction(states, steps, |steps|, 7);
    }
  }
}
