/** Closed windows stay closed: no handler starts for them, and exactly when a node is unlinked twice. */
module EngineClosing {
  import opened Messages
  import opened Rings
  import opened WindowLists
  import opened Engine
  import opened EngineLocks

  ghost predicate DeskOk(desk: Desk) {
    && Distinct(desk.windows) && SK_INVALID_HSM in desk.known
    && forall h :: h in desk.windows ==> h in desk.known && h != SK_INVALID_HSM
  }

  /** By the log, the window has been created and not destroyed. */
  predicate LiveIn(log: seq<Event>, h: u32) {
    Created(h) in log && Destroyed(h) !in log
  }

  predicate UnlinkOf(e: Event, h: u32) {
    e == Destroyed(h) || e == BadUnlink(h)
  }

  ghost predicate Unlinked(log: seq<Event>, h: u32) {
    exists k :: 0 <= k < |log| && UnlinkOf(log[k], h)
  }

  /** The window has been unlinked, and after that its messages erased. */
  ghost predicate Purged(log: seq<Event>, h: u32) {
    exists j :: 0 <= j < |log| && log[j] == Erased(OfWindow(h)) && Unlinked(log[..j], h)
  }

  /**
   * A handler starts exactly for a live window, a popped message is passed over exactly when it is blank or
   * its window is not live, a node is unlinked a second time only after a nested SMM_CLOSE, and an SMM_CLOSE
   * is not finished before its window has been unlinked and purged.
   */
  ghost predicate EventOk(before: seq<Event>, e: Event) {
    match e
    case Started(m, _) => m.hsm != SK_INVALID_HSM && LiveIn(before, m.hsm)
    case Dropped(m) => m.hsm == SK_INVALID_HSM || !LiveIn(before, m.hsm)
    case BadUnlink(h) => Nested(h) in before && Destroyed(h) in before
    case Finished(h, k) => k == SMM_CLOSE ==> Purged(before, h)
    case _ => true
  }

  /** The list holds the live windows, handles are never reused, and every event was in order. */
  ghost predicate ClosedOk(desk: Desk, log: seq<Event>) {
    && (forall h :: h in desk.windows <==> LiveIn(log, h))
    && (forall h :: Created(h) in log ==> h in desk.known && h != SK_INVALID_HSM)
    && (forall h :: Destroyed(h) in log ==> Created(h) in log)
    && (forall i :: 0 <= i < |log| ==> EventOk(log[..i], log[i]))
  }

  predicate Unlinks(op: Op) {
    op.Tabling? && (op.work.DestroyLock? || op.work.DestroyBody?)
  }

  /** The k-th activation still has its sm_destroy_smallwin ahead of it. */
  predicate Unclosed(op: Op, stack: seq<Frame>, k: int)
    requires 0 <= k < |stack|
  {
    stack[k].message == SMM_CLOSE && (!stack[k].closing || Unlinks(op))
  }

  /** After the handler of a closing activation, run_sm destroys, erases and is done. */
  predicate ClosingOp(op: Op, h: u32) {
    match op
    case Resting => true
    case Tabling(w) => (w.DestroyLock? || w.DestroyBody? || w.DestroyUnlock?) && w.hsm == h
    case Scanning(w) => w.EraseUnlock? || w == EraseLock(OfWindow(h)) || w == EraseBody(OfWindow(h))
    case _ => false
  }

  /** Where the closing sequence stands, the log says so. */
  ghost predicate ClosingStage(op: Op, h: u32, log: seq<Event>) {
    match op
    case Resting => Purged(log, h)
    case Tabling(w) => w.DestroyUnlock? ==> Unlinked(log, h)
    case Scanning(w) => if w.EraseUnlock? then Purged(log, h) else Unlinked(log, h)
    case _ => true
  }

  ghost predicate FrameOk(f: Frame, log: seq<Event>) {
    && f.hsm != SK_INVALID_HSM && Created(f.hsm) in log
    && (f.reentered ==> f.message == SMM_CLOSE && Nested(f.hsm) in log)
    && (f.closing ==> f.message == SMM_CLOSE)
  }

  ghost predicate StackOk(op: Op, stack: seq<Frame>, desk: Desk, log: seq<Event>) {
    && (forall k :: 0 <= k < |stack| ==> FrameOk(stack[k], log))
    && (forall k :: 0 <= k < |stack| - 1 ==> !stack[k].closing)
    && (IsDestroy(op) ==> stack != [] && Last(stack).closing)
    && (stack != [] && Last(stack).closing ==>
          ClosingOp(op, Last(stack).hsm) && ClosingStage(op, Last(stack).hsm, log))
    // an outer SMM_CLOSE activation of the same window has been re-entered
    && (forall k, l :: 0 <= k < l < |stack| && HandlesClose(stack[k], stack[l].hsm) && stack[l].message == SMM_CLOSE ==>
          stack[k].reentered)
    // the innermost one finds its window on the list exactly when it has not been re-entered
    && (forall k :: 0 <= k < |stack| && Unclosed(op, stack, k) && Innermost(op, stack, k) ==>
          (stack[k].hsm in desk.windows <==> !stack[k].reentered))
  }

  ghost predicate Innermost(op: Op, stack: seq<Frame>, k: int)
    requires 0 <= k < |stack|
  {
    forall l :: k < l < |stack| && HandlesClose(stack[l], stack[k].hsm) ==> !Unclosed(op, stack, l)
  }

  ghost predicate ThreadClosing(th: Thread, desk: Desk, log: seq<Event>) {
    if th.base.Dispatcher? then StackOk(th.op, th.base.stack, desk, log) else !IsDestroy(th.op)
  }

  ghost predicate ClosingInv(s: State) {
    && DeskOk(s.desk) && ClosedOk(s.desk, s.log)
    && forall t :: t in s.threads ==> ThreadClosing(s.threads[t], s.desk, s.log)
  }

  lemma ClosingInit(s: State)
    requires Init(s)
    ensures ClosingInv(s)
  {
  }

  /** The step that unlinks: the node is on the list exactly when its activation was not re-entered. */
  lemma UnlinkExact(s: State, t: Tid)
    requires ClosingInv(s) && t in s.threads
    requires s.threads[t].op.Tabling? && s.threads[t].op.work.DestroyBody?
    ensures s.threads[t].base.Dispatcher? && s.threads[t].base.stack != []
    ensures var f := Last(s.threads[t].base.stack);
      && s.threads[t].op.work.hsm == f.hsm && f.message == SMM_CLOSE
      && (f.hsm in s.desk.windows <==> !f.reentered)
  {
    assert ThreadClosing(s.threads[t], s.desk, s.log);
    var stack := s.threads[t].base.stack;
    assert Innermost(s.threads[t].op, stack, |stack| - 1);
  }

  predicate SameMembers(stack: seq<Frame>, desk: Desk, desk': Desk) {
    forall k :: 0 <= k < |stack| ==> (stack[k].hsm in desk'.windows <==> stack[k].hsm in desk.windows)
  }

  lemma FramesLater(stack: seq<Frame>, log: seq<Event>, log': seq<Event>)
    requires forall k :: 0 <= k < |stack| ==> FrameOk(stack[k], log)
    requires log <= log'
    ensures forall k :: 0 <= k < |stack| ==> FrameOk(stack[k], log')
  {
    forall k | 0 <= k < |stack|
      ensures FrameOk(stack[k], log')
    {
      assert FrameOk(stack[k], log);
      InPrefix(Created(stack[k].hsm), log, log');
      if stack[k].reentered {
        InPrefix(Nested(stack[k].hsm), log, log');
      }
    }
  }

  lemma UnlinkedLater(h: u32, log: seq<Event>, log': seq<Event>)
    requires Unlinked(log, h) && log <= log'
    ensures Unlinked(log', h)
  {
    var k :| 0 <= k < |log| && UnlinkOf(log[k], h);
    assert log'[k] == log[k];
  }

  lemma PurgedLater(h: u32, log: seq<Event>, log': seq<Event>)
    requires Purged(log, h) && log <= log'
    ensures Purged(log', h)
  {
    var j :| 0 <= j < |log| && log[j] == Erased(OfWindow(h)) && Unlinked(log[..j], h);
    assert log'[j] == log[j] && log'[..j] == log[..j];
  }

  lemma StageLater(op: Op, h: u32, log: seq<Event>, log': seq<Event>)
    requires ClosingStage(op, h, log) && log <= log'
    ensures ClosingStage(op, h, log')
  {
    if Purged(log, h) {
      PurgedLater(h, log, log');
    }
    if Unlinked(log, h) {
      UnlinkedLater(h, log, log');
    }
  }

  /** A stack that stays, under an operation that keeps its place in the closing sequence. */
  lemma StackStays(op: Op, op': Op, stack: seq<Frame>, desk: Desk, desk': Desk, log: seq<Event>, log': seq<Event>)
    requires StackOk(op, stack, desk, log) && SameMembers(stack, desk, desk') && log <= log'
    requires IsDestroy(op') ==> stack != [] && Last(stack).closing
    requires stack != [] && Last(stack).closing ==>
      ClosingOp(op', Last(stack).hsm) && ClosingStage(op', Last(stack).hsm, log') && (Unlinks(op') <==> Unlinks(op))
    ensures StackOk(op', stack, desk', log')
  {
    FramesLater(stack, log, log');
    assert forall k :: 0 <= k < |stack| ==> (Unclosed(op', stack, k) <==> Unclosed(op, stack, k));
    forall k | 0 <= k < |stack| && Unclosed(op', stack, k) && Innermost(op', stack, k)
      ensures stack[k].hsm in desk'.windows <==> !stack[k].reentered
    {
      assert Unclosed(op, stack, k) && Innermost(op, stack, k);
    }
  }

  /** The unlinking step itself. */
  lemma StackUnlinks(stack: seq<Frame>, h: u32, desk: Desk, desk': Desk, log: seq<Event>, log': seq<Event>)
    requires stack != [] && StackOk(Tabling(DestroyBody(h)), stack, desk, log)
    requires log <= log' && Unlinked(log', h)
    requires desk'.windows == Without(desk.windows, h)
    ensures StackOk(Tabling(DestroyUnlock(h)), stack, desk', log')
  {
    var op, op' := Tabling(DestroyBody(h)), Tabling(DestroyUnlock(h));
    var top := |stack| - 1;
    FramesLater(stack, log, log');
    assert Last(stack).closing && Last(stack).hsm == h && FrameOk(stack[top], log);
    forall k | 0 <= k < |stack| && Unclosed(op', stack, k) && Innermost(op', stack, k)
      ensures stack[k].hsm in desk'.windows <==> !stack[k].reentered
    {
      assert k < top && Unclosed(op, stack, k);
      assert HandlesClose(stack[k], h) ==> stack[k].reentered;
      forall l | k < l < top
        ensures !HandlesClose(stack[l], stack[k].hsm)
      {
        assert stack[l].message == SMM_CLOSE ==> Unclosed(op', stack, l);
      }
      assert stack[k].hsm != h ==> Innermost(op, stack, k);
    }
  }

  /** express_message pushes an activation. */
  lemma StackGrows(stack: seq<Frame>, m: Message, desk: Desk, desk': Desk, log: seq<Event>, log': seq<Event>)
    requires StackOk(Resting, stack, desk, log) && (stack != [] ==> !Last(stack).closing)
    requires m.hsm != SK_INVALID_HSM && m.hsm in desk.windows && Created(m.hsm) in log'
    requires desk'.windows == desk.windows && log <= log'
    requires Nests(stack, m) ==> Nested(m.hsm) in log'
    ensures StackOk(Resting, Mark(stack, m) + [Frame(m.hsm, m.message, false, false)], desk', log')
  {
    var stack' := Mark(stack, m) + [Frame(m.hsm, m.message, false, false)];
    var top := |stack|;
    FramesLater(stack, log, log');
    forall k | 0 <= k < |stack'|
      ensures FrameOk(stack'[k], log')
    {
      if k < top {
        assert FrameOk(stack[k], log');
      }
    }
    forall k | 0 <= k < |stack'| && Unclosed(Resting, stack', k) && Innermost(Resting, stack', k)
      ensures stack'[k].hsm in desk'.windows <==> !stack'[k].reentered
    {
      if k < top {
        assert stack'[k].hsm == stack[k].hsm && stack'[k].message == stack[k].message;
        assert m.message == SMM_CLOSE ==> Unclosed(Resting, stack', top);
        assert !HandlesClose(stack'[top], stack'[k].hsm);
        assert stack'[k] == stack[k];
        forall l | k < l < |stack|
          ensures !HandlesClose(stack[l], stack[k].hsm)
        {
          assert stack[l].message == SMM_CLOSE ==> Unclosed(Resting, stack', l);
          assert !HandlesClose(stack'[l], stack[k].hsm);
        }
        assert Innermost(Resting, stack, k);
      }
    }
  }

  /** An activation that has nothing left to close is popped. */
  lemma StackShrinks(stack: seq<Frame>, desk: Desk, log: seq<Event>)
    requires stack != [] && StackOk(Resting, stack, desk, log)
    requires Last(stack).closing || Last(stack).message != SMM_CLOSE
    ensures StackOk(Resting, stack[..|stack| - 1], desk, log)
  {
    var below := stack[..|stack| - 1];
    assert below != [] ==> !Last(below).closing;
    forall k | 0 <= k < |below| && Unclosed(Resting, below, k) && Innermost(Resting, below, k)
      ensures below[k].hsm in desk.windows <==> !below[k].reentered
    {
      assert below[k] == stack[k] && Unclosed(Resting, stack, k);
      forall l | k < l < |below|
        ensures !HandlesClose(stack[l], stack[k].hsm)
      {
        assert stack[l].message == SMM_CLOSE ==> Unclosed(Resting, below, l);
        assert !HandlesClose(below[l], stack[k].hsm);
      }
      assert !Unclosed(Resting, stack, |below|);
      assert Innermost(Resting, stack, k);
    }
  }

  /** The handler of an SMM_CLOSE returns; default_sm starts to close. */
  lemma StackCloses(stack: seq<Frame>, desk: Desk, log: seq<Event>)
    requires stack != [] && StackOk(Resting, stack, desk, log)
    requires !Last(stack).closing && Last(stack).message == SMM_CLOSE
    ensures StackOk(Tabling(DestroyLock(Last(stack).hsm)),
                    stack[..|stack| - 1] + [Last(stack).(closing := true)], desk, log)
  {
    var top := |stack| - 1;
    var stack' := stack[..top] + [Last(stack).(closing := true)];
    var op' := Tabling(DestroyLock(Last(stack).hsm));
    assert forall k :: 0 <= k < top ==> stack'[k] == stack[k];
    assert forall k :: 0 <= k < |stack| ==> (Unclosed(op', stack', k) <==> Unclosed(Resting, stack, k));
    forall k | 0 <= k < |stack'|
      ensures FrameOk(stack'[k], log)
    {
      assert FrameOk(stack[k], log);
    }
    forall k | 0 <= k < |stack'| && Unclosed(op', stack', k) && Innermost(op', stack', k)
      ensures stack'[k].hsm in desk.windows <==> !stack'[k].reentered
    {
      assert Unclosed(Resting, stack, k);
      forall l | k < l < |stack|
        ensures !HandlesClose(stack[l], stack[k].hsm)
      {
        assert stack[l].message == SMM_CLOSE ==> Unclosed(op', stack', l);
        assert !HandlesClose(stack'[l], stack'[k].hsm);
      }
      assert Innermost(Resting, stack, k);
    }
  }

  /** One event is logged, and the desk moves with it. */
  predicate DeskMove(desk: Desk, desk': Desk, e: Event) {
    && desk.known <= desk'.known
    && match e
       case Created(h) => h !in desk.known && h != SK_INVALID_HSM && h in desk'.known && desk'.windows == desk.windows + [h]
       case Destroyed(h) => h in desk.windows && desk'.windows == Without(desk.windows, h)
       case _ => desk'.windows == desk.windows
  }

  lemma LiveAppend(log: seq<Event>, e: Event, h: u32)
    ensures LiveIn(log + [e], h) <==>
      (Created(h) in log || e == Created(h)) && Destroyed(h) !in log && e != Destroyed(h)
  {
    assert Created(h) in log + [e] <==> Created(h) in log || e == Created(h);
    assert Destroyed(h) in log + [e] <==> Destroyed(h) in log || e == Destroyed(h);
  }

  lemma ClosedAppend(desk: Desk, desk': Desk, log: seq<Event>, e: Event)
    requires DeskOk(desk) && ClosedOk(desk, log) && DeskMove(desk, desk', e) && EventOk(log, e)
    ensures DeskOk(desk') && ClosedOk(desk', log + [e])
  {
    var log' := log + [e];
    if e.Destroyed? {
      WithoutDistinct(desk.windows, e.hsm);
      assert forall x :: x in desk'.windows ==> x in desk.windows;
    }
    assert e.Created? ==> Created(e.hsm) !in log && Destroyed(e.hsm) !in log;
    forall h
      ensures h in desk'.windows <==> LiveIn(log', h)
    {
      LiveAppend(log, e, h);
      if e.Destroyed? {
        WithoutMember(desk.windows, e.hsm, h);
      }
    }
    forall i | 0 <= i < |log'|
      ensures EventOk(log'[..i], log'[i])
    {
      if i < |log| {
        assert log'[..i] == log[..i] && log'[i] == log[i] && EventOk(log[..i], log[i]);
      } else {
        assert log'[..i] == log;
      }
    }
  }

  /** Calls may name handles without anything else happening. */
  lemma ClosedNames(desk: Desk, desk': Desk, log: seq<Event>)
    requires DeskOk(desk) && ClosedOk(desk, log) && desk.known <= desk'.known && desk'.windows == desk.windows
    ensures DeskOk(desk') && ClosedOk(desk', log)
  {
  }

  /** Events that ask nothing of what went before. */
  predicate Neutral(e: Event) {
    !e.Created? && !e.Destroyed? && !e.Started? && !e.Dropped? && !e.BadUnlink? && !e.Finished?
  }

  /** What Proceed writes to the log outside the dispatcher's loop and the unlinking step. */
  lemma ProceedLogs(v: View)
    requires Enabled(v, Proceed)
    requires !(v.th.op.Tabling? && v.th.op.work.DestroyBody?)
    ensures DoProceed(v).desk == v.desk
    ensures !(v.th.op.Resting? && v.th.base.Dispatcher?) && DoProceed(v).log != v.log ==>
      && DoProceed(v).log != [] && DoProceed(v).log == v.log + [Last(DoProceed(v).log)]
      && Neutral(Last(DoProceed(v).log))
  {
    hide Contents, Rings.Valid, Full;
  }

  /** A step by a thread that is not unlinking keeps the list and the log in order. */
  lemma ClosedQuiet(v: View, a: Action)
    requires Enabled(v, a) && DeskOk(v.desk) && ClosedOk(v.desk, v.log) && ThreadClosing(v.th, v.desk, v.log)
    requires !(a.Proceed? && v.th.op.Tabling? && v.th.op.work.DestroyBody?)
    ensures DeskOk(Do(v, a).desk) && ClosedOk(Do(v, a).desk, Do(v, a).log)
  {
    hide Contents, Rings.Valid, Full, ClosedOk, DeskOk, DoProceed, StackOk, LiveIn;
    var w := Do(v, a);
    match a {
      case Begin(_) =>
        ClosedNames(v.desk, w.desk, v.log);
      case Express(m) =>
        ClosedNames(v.desk, w.desk, v.log);
        if m.hsm in v.desk.windows && m.hsm != SK_INVALID_HSM {
          LiveWindow(w.desk, v.log, m.hsm);
          ClosedAppend(w.desk, w.desk, v.log, Started(m, false));
          ClosedAppend(w.desk, w.desk, v.log, Nested(m.hsm));
          LiveWindow(w.desk, v.log + [Nested(m.hsm)], m.hsm);
          ClosedAppend(w.desk, w.desk, v.log + [Nested(m.hsm)], Started(m, false));
        }
      case Return =>
        var f := Last(v.th.base.stack);
        if f.message != SMM_CLOSE || f.closing {
          if f.closing {
            ClosingPurged(v.th.base.stack, v.desk, v.log);
          }
          ClosedAppend(v.desk, v.desk, v.log, Finished(f.hsm, f.message));
        }
      case Allocate(h) =>
        if h != SK_INVALID_HSM {
          ClosedAppend(v.desk, w.desk, v.log, Created(h));
        }
      case FailWait =>
      case Proceed =>
        ClosedProceeds(v);
    }
  }

  lemma LiveWindow(desk: Desk, log: seq<Event>, h: u32)
    requires ClosedOk(desk, log)
    ensures h in desk.windows <==> LiveIn(log, h)
  {
  }

  lemma ClosingPurged(stack: seq<Frame>, desk: Desk, log: seq<Event>)
    requires stack != [] && StackOk(Resting, stack, desk, log) && Last(stack).closing
    ensures Purged(log, Last(stack).hsm)
  {
  }

  lemma ClosedProceeds(v: View)
    requires Enabled(v, Proceed) && DeskOk(v.desk) && ClosedOk(v.desk, v.log)
    requires !(v.th.op.Tabling? && v.th.op.work.DestroyBody?)
    ensures DeskOk(DoProceed(v).desk) && ClosedOk(DoProceed(v).desk, DoProceed(v).log)
  {
    hide Contents, Rings.Valid, Full, ClosedOk, DeskOk, LiveIn, PushStep, PopStep, ScanStep, TableStep, TickerStep;
    ProceedLogs(v);
    var w := DoProceed(v);
    if v.th.op.Resting? && v.th.base.Dispatcher? {
      if v.th.base.got.Some? {
        var m := v.th.base.got.value;
        LiveWindow(v.desk, v.log, m.hsm);
        if m.hsm != SK_INVALID_HSM && m.hsm in v.desk.windows {
          ClosedAppend(v.desk, v.desk, v.log, Started(m, true));
        } else {
          ClosedAppend(v.desk, v.desk, v.log, Dropped(m));
        }
      }
    } else if w.log != v.log {
      ClosedAppend(v.desk, v.desk, v.log, Last(w.log));
    }
  }

  /** Closing, as one thread's step keeps it for itself. */
  lemma ClosingSelf(v: View, a: Action)
    requires WellFormed(v) && ThreadOk(v) && Enabled(v, a)
    requires DeskOk(v.desk) && ClosedOk(v.desk, v.log) && ThreadClosing(v.th, v.desk, v.log)
    requires !(a.Proceed? && v.th.op.Tabling? && v.th.op.work.DestroyBody?)
    ensures ThreadClosing(Do(v, a).th, Do(v, a).desk, Do(v, a).log)
  {
    hide Contents, Rings.Valid, Full, StackOk, ClosedOk, DeskOk, Prepared, DoProceed;
    var w := Do(v, a);
    LogOnlyGrows(v, a);
    if v.th.base.Dispatcher? {
      var stack := v.th.base.stack;
      StackHeads(v.th.op, stack, v.desk, v.log);
      match a {
        case Express(m) =>
          if m.hsm != SK_INVALID_HSM && m.hsm in v.desk.windows {
            assert Nests(stack, m) ==> w.log[|v.log|] == Nested(m.hsm);
            assert LiveIn(v.log, m.hsm) by {
              LiveWindow(v.desk, v.log, m.hsm);
            }
            InPrefix(Created(m.hsm), v.log, w.log);
            StackGrows(stack, m, v.desk, w.desk, v.log, w.log);
          } else {
            StackStays(v.th.op, w.th.op, stack, v.desk, w.desk, v.log, w.log);
          }
        case Return =>
          if Last(stack).message == SMM_CLOSE && !Last(stack).closing {
            StackCloses(stack, v.desk, v.log);
          } else {
            StackShrinks(stack, v.desk, v.log);
            var below := stack[..|stack| - 1];
            StackHeads(Resting, below, v.desk, v.log);
            assert below != [] ==> !Last(below).closing by {
              OnlyTopCloses(v.th.op, stack, v.desk, v.log);
            }
            StackStays(Resting, Resting, below, v.desk, w.desk, v.log, w.log);
          }
        case Begin(_) =>
          StackStays(v.th.op, w.th.op, stack, v.desk, w.desk, v.log, w.log);
        case FailWait =>
          StackStays(v.th.op, w.th.op, stack, v.desk, w.desk, v.log, w.log);
        case Allocate(h) =>
          AllocateMisses(v, h, stack);
          StackStays(v.th.op, w.th.op, stack, v.desk, w.desk, v.log, w.log);
        case Proceed =>
          DispatcherProceeds(v);
      }
    } else {
      ClientNeverDestroys(v, a);
    }
  }

  /** A fresh handle is nobody's on the stack. */
  lemma AllocateMisses(v: View, h: u32, stack: seq<Frame>)
    requires Enabled(v, Allocate(h)) && ClosedOk(v.desk, v.log)
    requires forall k :: 0 <= k < |stack| ==> Created(stack[k].hsm) in v.log
    ensures SameMembers(stack, v.desk, Do(v, Allocate(h)).desk)
  {
    assert forall k :: 0 <= k < |stack| ==> stack[k].hsm in v.desk.known;
  }

  lemma OnlyTopCloses(op: Op, stack: seq<Frame>, desk: Desk, log: seq<Event>)
    requires StackOk(op, stack, desk, log)
    ensures forall k :: 0 <= k < |stack| - 1 ==> !stack[k].closing
  {
  }

  /** The facts about single frames that a stack gives away. */
  lemma StackHeads(op: Op, stack: seq<Frame>, desk: Desk, log: seq<Event>)
    requires StackOk(op, stack, desk, log)
    ensures forall k :: 0 <= k < |stack| ==> Created(stack[k].hsm) in log && stack[k].hsm != SK_INVALID_HSM
    ensures IsDestroy(op) ==> stack != [] && Last(stack).closing
    ensures stack != [] && Last(stack).closing ==>
      && Last(stack).message == SMM_CLOSE
      && ClosingOp(op, Last(stack).hsm) && ClosingStage(op, Last(stack).hsm, log)
  {
    assert forall k :: 0 <= k < |stack| ==> FrameOk(stack[k], log);
  }

  lemma DispatcherProceeds(v: View)
    requires WellFormed(v) && ThreadOk(v) && Enabled(v, Proceed) && v.th.base.Dispatcher?
    requires DeskOk(v.desk) && ClosedOk(v.desk, v.log) && StackOk(v.th.op, v.th.base.stack, v.desk, v.log)
    requires !(v.th.op.Tabling? && v.th.op.work.DestroyBody?)
    requires v.log <= DoProceed(v).log
    ensures ThreadClosing(DoProceed(v).th, DoProceed(v).desk, DoProceed(v).log)
  {
    hide Contents, Rings.Valid, Full, StackOk, ClosedOk, DeskOk, Prepared, PushStep, PopStep, ScanStep, TableStep;
    var stack := v.th.base.stack;
    var w := DoProceed(v);
    ProceedLogs(v);
    StackHeads(v.th.op, stack, v.desk, v.log);
    if v.th.op.Resting? {
      if v.th.base.got.Some? && w.th.base.stack != [] {
        var m := v.th.base.got.value;
        LiveWindow(v.desk, v.log, m.hsm);
        InPrefix(Created(m.hsm), v.log, w.log);
      }
      StackStarts(w.th.op, w.th.base.stack, w.desk, w.log);
    } else {
      ProceedKeepsStack(v);
      StackStays(v.th.op, w.th.op, stack, v.desk, w.desk, v.log, w.log);
    }
  }

  /** Between two handlers the dispatcher starts the next one on an empty stack, or none. */
  lemma StackStarts(op: Op, stack: seq<Frame>, desk: Desk, log: seq<Event>)
    requires op.Resting? || op == Popping(PopWait)
    requires stack == [] || exists m: Message ::
      stack == [Frame(m.hsm, m.message, false, false)] && m.hsm in desk.windows && Created(m.hsm) in log
    requires DeskOk(desk)
    ensures StackOk(op, stack, desk, log)
  {
  }

  /** A library call's own steps leave the stack alone and follow the closing sequence. */
  lemma ProceedKeepsStack(v: View)
    requires WellFormed(v) && Ready(v) && v.th.base.Dispatcher? && !v.th.op.Resting?
    requires IsDestroy(v.th.op) ==> v.th.base.stack != [] && Last(v.th.base.stack).closing
    requires v.th.base.stack != [] && Last(v.th.base.stack).closing ==>
      ClosingOp(v.th.op, Last(v.th.base.stack).hsm) && ClosingStage(v.th.op, Last(v.th.base.stack).hsm, v.log)
    requires !(v.th.op.Tabling? && v.th.op.work.DestroyBody?)
    ensures var w := DoProceed(v);
      && w.th.base.Dispatcher? && w.th.base.stack == v.th.base.stack
      && (IsDestroy(w.th.op) ==> v.th.base.stack != [] && Last(v.th.base.stack).closing)
      && (v.th.base.stack != [] && Last(v.th.base.stack).closing ==>
            && ClosingOp(w.th.op, Last(v.th.base.stack).hsm)
            && ClosingStage(w.th.op, Last(v.th.base.stack).hsm, w.log)
            && (Unlinks(w.th.op) <==> Unlinks(v.th.op)))
  {
    hide Contents, Rings.Valid, Full, Purged, Unlinked;
    if v.th.op.Scanning? && v.th.op.scan.EraseBody? && v.th.op.scan.e.OfWindow? {
      EraseCompletes(v.log, v.th.op.scan.e.hsm);
    }
  }

  lemma EraseCompletes(log: seq<Event>, h: u32)
    ensures Unlinked(log, h) ==> Purged(log + [Erased(OfWindow(h))], h)
  {
    var log' := log + [Erased(OfWindow(h))];
    assert log'[..|log|] == log && log'[|log|] == Erased(OfWindow(h));
  }

  lemma ClientNeverDestroys(v: View, a: Action)
    requires WellFormed(v) && ThreadOk(v) && Enabled(v, a) && !v.th.base.Dispatcher? && !IsDestroy(v.th.op)
    ensures !Do(v, a).th.base.Dispatcher? && !IsDestroy(Do(v, a).th.op)
  {
    hide Contents, Rings.Valid, Full;
  }

  /** The unlinking step, for the dispatcher and for what is shared. */
  lemma ClosingUnlink(v: View)
    requires WellFormed(v) && v.th.op.Tabling? && v.th.op.work.DestroyBody?
    requires DeskOk(v.desk) && ClosedOk(v.desk, v.log) && ThreadClosing(v.th, v.desk, v.log)
    ensures var w := TableStep(v, v.th.op.work);
      && DeskOk(w.desk) && ClosedOk(w.desk, w.log) && ThreadClosing(w.th, w.desk, w.log)
  {
    hide Contents, Rings.Valid, Full, ClosedOk, DeskOk;
    var h := v.th.op.work.hsm;
    var stack := v.th.base.stack;
    var w := TableStep(v, v.th.op.work);
    LiveWindow(v.desk, v.log, h);
    if h in v.desk.windows {
      ClosedAppend(v.desk, w.desk, v.log, Destroyed(h));
    } else {
      WithoutAbsent(v.desk.windows, h);
      assert Innermost(v.th.op, stack, |stack| - 1);
      assert FrameOk(Last(stack), v.log);
      ClosedAppend(v.desk, w.desk, v.log, BadUnlink(h));
    }
    assert w.log[|v.log|] == if h in v.desk.windows then Destroyed(h) else BadUnlink(h);
    assert UnlinkOf(w.log[|v.log|], h);
    StackUnlinks(stack, h, v.desk, w.desk, v.log, w.log);
  }

  /** Closing is kept by every step of every thread. */
  lemma ClosingStep(s: State, t: Tid, a: Action)
    requires CoreInv(s) && ClosingInv(s) && CanStep(s, t, a)
    ensures ClosingInv(Next(s, t, a))
  {
    hide Do, Enabled, ThreadOk, DeskOk, ClosedOk, ThreadClosing;
    var v := ViewOf(s, t);
    var w := Do(v, a);
    assert ThreadOk(v) && ThreadClosing(v.th, v.desk, v.log);
    OrderlyDo(v, a);
    if a.Proceed? && v.th.op.Tabling? && v.th.op.work.DestroyBody? {
      DoIsTableStep(v);
      ClosingUnlink(v);
    } else {
      ClosedQuiet(v, a);
      ClosingSelf(v, a);
    }
    forall u | u in s.threads && u != t
      ensures ThreadClosing(s.threads[u], w.desk, w.log)
    {
      ClosingOther(s, t, a, u);
    }
  }

  lemma DoIsTableStep(v: View)
    requires Enabled(v, Proceed) && v.th.op.Tabling?
    ensures Do(v, Proceed) == TableStep(v, v.th.op.work)
  {
  }

  lemma ClosingOther(s: State, t: Tid, a: Action, u: Tid)
    requires CoreInv(s) && ClosingInv(s) && CanStep(s, t, a) && u in s.threads && u != t
    ensures ThreadClosing(s.threads[u], Do(ViewOf(s, t), a).desk, Do(ViewOf(s, t), a).log)
  {
    hide Do, Enabled, DeskOk, ClosedOk, StackOk;
    var v := ViewOf(s, t);
    var th := s.threads[u];
    assert ThreadOk(ViewOf(s, u)) && ThreadClosing(th, s.desk, s.log);
    assert ThreadOk(v) && ThreadClosing(v.th, s.desk, s.log);
    if th.base.Dispatcher? {
      LogOnlyGrows(v, a);
      StackHeads(th.op, th.base.stack, s.desk, s.log);
      if th.base.stack != [] && Last(th.base.stack).closing {
        StageLater(th.op, Last(th.base.stack).hsm, s.log, Do(v, a).log);
      }
      MembersStay(v, a, th.base.stack);
      StackStays(th.op, th.op, th.base.stack, s.desk, Do(v, a).desk, s.log, Do(v, a).log);
    }
  }

  /** Whoever is not unlinking leaves the membership of created windows alone. */
  lemma MembersStay(v: View, a: Action, stack: seq<Frame>)
    requires Enabled(v, a) && ClosedOk(v.desk, v.log) && !IsDestroy(v.th.op)
    requires forall k :: 0 <= k < |stack| ==> Created(stack[k].hsm) in v.log
    ensures SameMembers(stack, v.desk, Do(v, a).desk)
  {
    hide Contents, Rings.Valid, Full, ClosedOk, DoProceed;
    if a.Allocate? {
      AllocateMisses(v, a.hsm, stack);
    } else if a.Proceed? {
      ProceedLogs(v);
    }
  }

  /** The window's own SMM_CLOSE has been run to its end, or its node unlinked. */
  predicate Closes(e: Event, h: u32) {
    e == Destroyed(h) || e == Finished(h, SMM_CLOSE)
  }

  /** Once a window's SMM_CLOSE has been run, it is off the list and no handler starts for it. */
  lemma NoStartAfterClose(s: State, i: nat, j: nat, h: u32)
    requires ClosingInv(s)
    requires i < j < |s.log| && Closes(s.log[i], h)
    ensures s.log[j].Started? ==> s.log[j].m.hsm != h
    ensures h !in s.desk.windows
  {
    assert EventOk(s.log[..i], s.log[i]) && EventOk(s.log[..j], s.log[j]);
    DestroyedBy(s, i, h);
    var d :| 0 <= d <= i && s.log[d] == Destroyed(h);
    assert s.log[..j][d] == Destroyed(h);
    assert s.log[d] in s.log;
  }

  lemma DestroyedBy(s: State, i: nat, h: u32)
    requires ClosingInv(s) && i < |s.log| && Closes(s.log[i], h)
    ensures exists d :: 0 <= d <= i && s.log[d] == Destroyed(h)
  {
    if s.log[i] != Destroyed(h) {
      assert EventOk(s.log[..i], s.log[i]);
      var j :| 0 <= j < i && s.log[..i][j] == Erased(OfWindow(h)) && Unlinked(s.log[..i][..j], h);
      var k :| 0 <= k < j && UnlinkOf(s.log[..i][..j][k], h);
      assert s.log[k] == s.log[..i][..j][k];
      if s.log[k] == BadUnlink(h) {
        assert EventOk(s.log[..k], s.log[k]);
        var d :| 0 <= d < k && s.log[..k][d] == Destroyed(h);
        assert s.log[d] == Destroyed(h);
      }
    }
  }

  /** The mark stays for as long as the activation is on the stack. */
  lemma MarksStay(v: View, a: Action, k: nat)
    requires WellFormed(v) && ThreadOk(v) && Enabled(v, a) && v.th.base.Dispatcher?
    requires k < |v.th.base.stack| && v.th.base.stack[k].reentered
    ensures var w := Do(v, a);
      w.th.base.Dispatcher? && (k < |w.th.base.stack| ==>
        w.th.base.stack[k].reentered && w.th.base.stack[k].hsm == v.th.base.stack[k].hsm)
  {
    hide Contents, Rings.Valid, Full, DoProceed, ThreadOk;
    if a.Proceed? {
      CallsLeaveStack(v);
    }
  }

  lemma CallsLeaveStack(v: View)
    requires Enabled(v, Proceed) && v.th.base.Dispatcher? && v.th.base.stack != []
    ensures DoProceed(v).th.base.Dispatcher? && DoProceed(v).th.base.stack == v.th.base.stack
  {
    hide Contents, Rings.Valid, Full, Store, Publish, Discard, EraseSlots, Without;
  }
}
