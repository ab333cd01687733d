/** When a node is unlinked twice: exactly after an SMM_CLOSE run inside the window's own SMM_CLOSE handler. */
module EngineNesting {
  import opened Messages
  import opened Rings
  import opened WindowLists
  import opened Engine
  import opened EngineLocks
  import opened EngineClosing
  import opened EnginePaths

  /** A re-entered activation of the window still has its sm_destroy_smallwin ahead of it. */
  ghost predicate Owed(op: Op, stack: seq<Frame>, h: u32) {
    exists k :: 0 <= k < |stack| && stack[k].hsm == h && stack[k].reentered && Unclosed(op, stack, k)
  }

  /** What a nested SMM_CLOSE leads to has happened, or is still to come. */
  ghost predicate Settled(op: Op, stack: seq<Frame>, log: seq<Event>, h: u32) {
    Nested(h) in log ==> BadUnlink(h) in log || Owed(op, stack, h)
  }

  ghost predicate NestInv(s: State) {
    && DISPATCHER in s.threads && s.threads[DISPATCHER].base.Dispatcher?
    && forall h :: Settled(s.threads[DISPATCHER].op, s.threads[DISPATCHER].base.stack, s.log, h)
  }

  lemma NestInit(s: State)
    requires Init(s)
    ensures NestInv(s)
  {
  }

  /** Only expressing SMM_CLOSE to a window that is handling SMM_CLOSE logs the nesting. */
  lemma NestedLogs(v: View, a: Action, h: u32)
    requires Enabled(v, a) && Nested(h) in Do(v, a).log && Nested(h) !in v.log
    ensures a.Express? && a.m.hsm == h && h != SK_INVALID_HSM && h in v.desk.windows && Nests(v.th.base.stack, a.m)
  {
    hide Contents, Rings.Valid, Full, Mark, Without, DoProceed;
    if a.Proceed? {
      ProceedNeverNests(v, h);
    }
  }

  lemma ProceedNeverNests(v: View, h: u32)
    requires Enabled(v, Proceed) && Nested(h) !in v.log
    ensures Nested(h) !in DoProceed(v).log
  {
    hide Contents, Rings.Valid, Full, Mark, Without;
  }

  /** A stack that stays, under an operation that does not unlink. */
  lemma OwedStays(op: Op, op': Op, stack: seq<Frame>, h: u32)
    requires Owed(op, stack, h) && (forall k :: 0 <= k < |stack| - 1 ==> !stack[k].closing)
    requires stack != [] && Last(stack).closing && Unlinks(op) ==> Unlinks(op')
    ensures Owed(op', stack, h)
  {
    var k :| 0 <= k < |stack| && stack[k].hsm == h && stack[k].reentered && Unclosed(op, stack, k);
    assert Unclosed(op', stack, k);
  }

  /** express_message pushes an activation, and marks those it nests in. */
  lemma OwedGrows(stack: seq<Frame>, m: Message, h: u32)
    requires forall k :: 0 <= k < |stack| ==> !stack[k].closing
    requires Owed(Resting, stack, h) || (m.hsm == h && Nests(stack, m))
    ensures Owed(Resting, Mark(stack, m) + [Frame(m.hsm, m.message, false, false)], h)
  {
    var stack' := Mark(stack, m) + [Frame(m.hsm, m.message, false, false)];
    if m.hsm == h && Nests(stack, m) {
      var k :| 0 <= k < |stack| && HandlesClose(stack[k], h);
      assert stack'[k].reentered && Unclosed(Resting, stack', k);
    } else {
      var k :| 0 <= k < |stack| && stack[k].hsm == h && stack[k].reentered && Unclosed(Resting, stack, k);
      assert stack'[k].reentered && Unclosed(Resting, stack', k);
    }
  }

  /** The handler of an SMM_CLOSE returns and starts to close; any other activation at its end is popped. */
  lemma OwedReturns(stack: seq<Frame>, h: u32)
    requires stack != [] && Owed(Resting, stack, h)
    ensures Last(stack).message == SMM_CLOSE && !Last(stack).closing ==>
      Owed(Tabling(DestroyLock(Last(stack).hsm)), stack[..|stack| - 1] + [Last(stack).(closing := true)], h)
    ensures !(Last(stack).message == SMM_CLOSE && !Last(stack).closing) ==> Owed(Resting, stack[..|stack| - 1], h)
  {
    var k :| 0 <= k < |stack| && stack[k].hsm == h && stack[k].reentered && Unclosed(Resting, stack, k);
    if Last(stack).message == SMM_CLOSE && !Last(stack).closing {
      var op' := Tabling(DestroyLock(Last(stack).hsm));
      var stack' := stack[..|stack| - 1] + [Last(stack).(closing := true)];
      assert stack'[k].hsm == h && stack'[k].reentered && Unclosed(op', stack', k);
    } else {
      assert Unclosed(Resting, stack[..|stack| - 1], k);
    }
  }

  /** The dispatcher's own step. */
  lemma NestSelf(v: View, a: Action, h: u32)
    requires WellFormed(v) && ThreadOk(v) && Enabled(v, a) && v.th.base.Dispatcher?
    requires ThreadClosing(v.th, v.desk, v.log) && Settled(v.th.op, v.th.base.stack, v.log, h)
    ensures Do(v, a).th.base.Dispatcher?
    ensures Settled(Do(v, a).th.op, Do(v, a).th.base.stack, Do(v, a).log, h)
  {
    hide Contents, Rings.Valid, Full, Mark, Without, DoProceed, StackOk, Owed, Nests, ThreadOk;
    var w := Do(v, a);
    var stack := v.th.base.stack;
    OrderlyDo(v, a);
    DispatcherStays(v, w);
    LogOnlyGrows(v, a);
    StackHeads(v.th.op, stack, v.desk, v.log);
    OnlyTopCloses(v.th.op, stack, v.desk, v.log);
    if BadUnlink(h) in v.log {
      InPrefix(BadUnlink(h), v.log, w.log);
    } else if Nested(h) in w.log {
      if Nested(h) !in v.log {
        NestedLogs(v, a, h);
      }
      match a {
        case Express(m) =>
          if m.hsm != SK_INVALID_HSM && m.hsm in v.desk.windows {
            OwedGrows(stack, m, h);
          }
        case Return => OwedReturns(stack, h);
        case Proceed => NestProceeds(v, h);
        case Begin(_) => OwedStays(v.th.op, w.th.op, stack, h);
        case FailWait => OwedStays(v.th.op, w.th.op, stack, h);
        case Allocate(_) => OwedStays(v.th.op, w.th.op, stack, h);
      }
    }
  }

  lemma DispatcherStays(v: View, w: View)
    requires Orderly(v, w) && WellFormed(v) && ThreadOk(v) && v.th.base.Dispatcher?
    ensures w.th.base.Dispatcher?
  {
  }

  lemma NestProceeds(v: View, h: u32)
    requires WellFormed(v) && ThreadOk(v) && Enabled(v, Proceed) && v.th.base.Dispatcher?
    requires StackOk(v.th.op, v.th.base.stack, v.desk, v.log) && Owed(v.th.op, v.th.base.stack, h)
    ensures var w := DoProceed(v);
      w.th.base.Dispatcher? && (BadUnlink(h) in w.log || Owed(w.th.op, w.th.base.stack, h))
  {
    hide Contents, Rings.Valid, Full, Without, StackOk, Owed, ThreadOk, PushStep, PopStep, ScanStep, DispatchStep;
    var stack := v.th.base.stack;
    StackHeads(v.th.op, stack, v.desk, v.log);
    OnlyTopCloses(v.th.op, stack, v.desk, v.log);
    OwedSomewhere(v.th.op, stack, h);
    if v.th.op.Tabling? && v.th.op.work.DestroyBody? {
      NestUnlinks(v, h);
    } else if v.th.op.Resting? {
      assert false;
    } else {
      ProceedKeepsStack(v);
      OwedStays(v.th.op, DoProceed(v).th.op, stack, h);
    }
  }

  lemma OwedSomewhere(op: Op, stack: seq<Frame>, h: u32)
    requires Owed(op, stack, h)
    ensures stack != []
  {
  }

  /** The unlinking step: owed by this activation, it finds no node; owed by an outer one, it is still owed. */
  lemma NestUnlinks(v: View, h: u32)
    requires WellFormed(v) && v.th.op.Tabling? && v.th.op.work.DestroyBody? && v.th.base.Dispatcher?
    requires StackOk(v.th.op, v.th.base.stack, v.desk, v.log) && Owed(v.th.op, v.th.base.stack, h)
    ensures var w := TableStep(v, v.th.op.work);
      && w.th.base == v.th.base
      && (BadUnlink(h) in w.log || Owed(w.th.op, w.th.base.stack, h))
  {
    hide Contents, Rings.Valid, Full, Without;
    var stack := v.th.base.stack;
    var w := TableStep(v, v.th.op.work);
    var top := |stack| - 1;
    var k :| 0 <= k < |stack| && stack[k].hsm == h && stack[k].reentered && Unclosed(v.th.op, stack, k);
    if k == top {
      assert Innermost(v.th.op, stack, top);
      assert w.log[|v.log|] == BadUnlink(h);
    } else {
      assert Unclosed(w.th.op, stack, k);
    }
  }

  /** A nested SMM_CLOSE is settled by every step of every thread. */
  lemma NestStep(s: State, t: Tid, a: Action)
    requires CoreInv(s) && ClosingInv(s) && NestInv(s) && CanStep(s, t, a)
    ensures NestInv(Next(s, t, a))
  {
    hide Do, Enabled, ThreadOk, Settled, ThreadClosing, DeskOk, ClosedOk;
    var v := ViewOf(s, t);
    assert ThreadOk(v) && ThreadClosing(v.th, s.desk, s.log);
    OrderlyDo(v, a);
    WhoDispatches(v);
    var th := Next(s, t, a).threads[DISPATCHER];
    assert th.base.Dispatcher? by {
      if t == DISPATCHER {
        NestSelf(v, a, SK_INVALID_HSM);
      }
    }
    forall h
      ensures Settled(th.op, th.base.stack, Next(s, t, a).log, h)
    {
      if t == DISPATCHER {
        NestSelf(v, a, h);
      } else {
        NestOther(v, a, s.threads[DISPATCHER].op, s.threads[DISPATCHER].base.stack, h);
      }
    }
  }

  lemma WhoDispatches(v: View)
    requires WellFormed(v) && ThreadOk(v)
    ensures v.th.base.Dispatcher? <==> v.me == DISPATCHER
  {
  }

  lemma NestOther(v: View, a: Action, op: Op, stack: seq<Frame>, h: u32)
    requires WellFormed(v) && Enabled(v, a) && !v.th.base.Dispatcher? && Settled(op, stack, v.log, h)
    ensures Settled(op, stack, Do(v, a).log, h)
  {
    hide Do, Owed;
    LogOnlyGrows(v, a);
    if Nested(h) in Do(v, a).log && Nested(h) !in v.log {
      NestedLogs(v, a, h);
      ExpressDispatches(v, a);
    }
    if BadUnlink(h) in v.log {
      InPrefix(BadUnlink(h), v.log, Do(v, a).log);
    }
  }

  lemma ExpressDispatches(v: View, a: Action)
    requires Enabled(v, a) && a.Express?
    ensures v.th.base.Dispatcher?
  {
  }

  /**
   * Once no SMM_CLOSE activation of the window is left on the stack: its node has been unlinked a second time
   * exactly if an SMM_CLOSE was run for it from inside its own SMM_CLOSE handler.
   */
  lemma UnlinkedTwiceIff(s: State, h: u32)
    requires ClosingInv(s) && NestInv(s)
    requires forall k :: 0 <= k < |s.threads[DISPATCHER].base.stack| ==> !HandlesClose(s.threads[DISPATCHER].base.stack[k], h)
    ensures BadUnlink(h) in s.log <==> Nested(h) in s.log
  {
    hide DeskOk, ThreadClosing, StackOk;
    assert Settled(s.threads[DISPATCHER].op, s.threads[DISPATCHER].base.stack, s.log, h);
    if BadUnlink(h) in s.log {
      var i :| 0 <= i < |s.log| && s.log[i] == BadUnlink(h);
      assert EventOk(s.log[..i], s.log[i]);
      InPrefix(Nested(h), s.log[..i], s.log);
    }
  }

  // ---------- a run in which it happens ----------

  /** The handler of an SMM_CLOSE returns and its window is unlinked, for the first time or not. */
  lemma UnlinkPath(v: View, below: seq<Frame>, f: Frame) returns (views: seq<View>, actions: seq<Action>)
    requires Unlocked(v) && v.th == Thread(Resting, Dispatcher(below + [f], None))
    requires f.message == SMM_CLOSE && !f.closing
    ensures IsPath(views, actions) && views[0] == v
    ensures var w := Last(views);
      && WellFormed(w) && w.me == v.me && w.locks == Locks(None, Some(v.me), None)
      && w.th == Thread(Tabling(DestroyUnlock(f.hsm)), Dispatcher(below + [f.(closing := true)], None))
      && w.log == v.log + [if f.hsm in v.desk.windows then Destroyed(f.hsm) else BadUnlink(f.hsm)]
      && w.desk.windows == Without(v.desk.windows, f.hsm)
  {
    hide Contents, Full, Rings.Valid, Without;
    assert (below + [f])[..|below|] == below;
    if f.hsm !in v.desk.windows {
      WithoutAbsent(v.desk.windows, f.hsm);
    }
    var v1 := Do(v, Return);
    var v2 := Do(v1, Proceed);
    var v3 := Do(v2, Proceed);
    views, actions := [v, v1, v2, v3], [Return, Proceed, Proceed];
  }

  /** After the unlinking: unlock, erase the window's messages, and leave the activation. */
  lemma PurgePath(v: View, below: seq<Frame>, f: Frame) returns (views: seq<View>, actions: seq<Action>)
    requires WellFormed(v) && v.locks == Locks(None, Some(v.me), None)
    requires v.th == Thread(Tabling(DestroyUnlock(f.hsm)), Dispatcher(below + [f], None))
    requires f.message == SMM_CLOSE && f.closing
    ensures IsPath(views, actions) && views[0] == v
    ensures var w := Last(views);
      && Unlocked(w) && w.th == Thread(Resting, Dispatcher(below, None)) && w.desk.windows == v.desk.windows
      && w.me == v.me && v.log <= w.log
  {
    hide Contents, Full;
    assert (below + [f])[..|below|] == below;
    var v1 := Do(v, Proceed);
    var v2 := Do(v1, Proceed);
    var v3 := Do(v2, Proceed);
    var v4 := Do(v3, Proceed);
    var v5 := Do(v4, Return);
    views, actions := [v, v1, v2, v3, v4, v5], [Proceed, Proceed, Proceed, Proceed, Return];
  }

  lemma ExpressPath(v: View, stack: seq<Frame>, h: u32) returns (views: seq<View>, actions: seq<Action>)
    requires Unlocked(v) && h != SK_INVALID_HSM && h in v.desk.windows
    requires v.th == Thread(Resting, Dispatcher(stack, None)) && stack != [] && !Last(stack).closing
    ensures IsPath(views, actions) && views[0] == v
    ensures var w := Last(views);
      && Unlocked(w) && w.me == v.me && w.desk.windows == v.desk.windows
      && v.log <= w.log && (Nests(stack, Message(h, SMM_CLOSE, 0, 0)) ==> w.log[|v.log|..] == [Nested(h), Started(Message(h, SMM_CLOSE, 0, 0), false)])
      && w.th == Thread(Resting, Dispatcher(Mark(stack, Message(h, SMM_CLOSE, 0, 0)) + [Frame(h, SMM_CLOSE, false, false)], None))
  {
    hide Contents, Full, Rings.Valid, Mark;
    var m := Message(h, SMM_CLOSE, 0, 0);
    var w := Do(v, Express(m));
    views, actions := [v, w], [Express(m)];
  }

  /** A client creates a window, up to the push. */
  lemma CreatePath(v: View, h: u32) returns (views: seq<View>, actions: seq<Action>)
    requires Unlocked(v) && v.th == Thread(Resting, Client) && h !in v.desk.known && h != SK_INVALID_HSM
    ensures IsPath(views, actions) && views[0] == v
    ensures var w := Last(views);
      && WellFormed(w) && w.me == v.me && w.mail == v.mail && w.locks == Locks(Some(v.me), Some(v.me), None)
      && w.th == Thread(Pushing(PushBody(Message(h, SMM_CREATE, 0, 0))), Client)
      && w.desk.windows == v.desk.windows + [h]
  {
    hide Contents, Full, Rings.Valid;
    var v1 := Do(v, Begin(Create));
    var v2 := Do(v1, Proceed);
    var v3 := Do(v2, Allocate(h));
    var v4 := Do(v3, Proceed);
    views, actions := [v, v1, v2, v3, v4], [Begin(Create), Proceed, Allocate(h), Proceed];
  }

  /** The dispatcher pops the first message and starts its handler. */
  lemma DispatchPath(v: View) returns (views: seq<View>, actions: seq<Action>)
    requires Unlocked(v) && v.th == Thread(Resting, Dispatcher([], None))
    requires v.mail.ring.head != v.mail.ring.tail && v.mail.tokens > 0
    requires var m := v.mail.ring.slots[v.mail.ring.head]; m.hsm != SK_INVALID_HSM && m.hsm in v.desk.windows
    ensures IsPath(views, actions) && views[0] == v
    ensures var w := Last(views);
      var m := v.mail.ring.slots[v.mail.ring.head];
      && Unlocked(w) && w.me == v.me && w.desk == v.desk
      && w.th == Thread(Resting, Dispatcher([Frame(m.hsm, m.message, false, false)], None))
  {
    hide Contents, Full;
    var v1 := Do(v, Proceed);
    var v2 := Do(v1, Proceed);
    var v3 := Do(v2, Proceed);
    var v4 := Do(v3, Proceed);
    var v5 := Do(v4, Proceed);
    var v6 := Do(v5, Proceed);
    views, actions := [v, v1, v2, v3, v4, v5, v6], [Proceed, Proceed, Proceed, Proceed, Proceed, Proceed];
  }

  /**
   * A run from the start: a client creates a window; while the window handles SMM_CREATE it closes itself, and
   * while it handles that SMM_CLOSE it closes itself again.
   */
  lemma NestedCloseUnlinksTwice(s0: State, t: Tid, h: u32) returns (states: seq<State>, steps: seq<Step>, s: State)
    requires Init(s0) && t in s0.threads && s0.threads[t].base.Client?
    requires |s0.mail.ring.slots| >= 2 && h != SK_INVALID_HSM
    ensures Reaches(s0, states, steps, s)
    ensures BadUnlink(h) in s.log && Nested(h) in s.log
  {
    hide Init, Reaches, IsPath, Unlocked, Without;
    var s1: State;
    states, steps, s1 := CreateRun(s0, t, h);
    states, steps, s := CloseRun(s0, states, steps, s1, h);
  }

  /** The window is created and its SMM_CREATE handler started. */
  lemma CreateRun(s0: State, t: Tid, h: u32) returns (states: seq<State>, steps: seq<Step>, s: State)
    requires Init(s0) && t in s0.threads && s0.threads[t].base.Client?
    requires |s0.mail.ring.slots| >= 2 && h != SK_INVALID_HSM
    ensures Reaches(s0, states, steps, s) && DISPATCHER in s.threads && Unlocked(ViewOf(s, DISPATCHER))
    ensures s.threads[DISPATCHER] == Thread(Resting, Dispatcher([Frame(h, SMM_CREATE, false, false)], None))
    ensures s.desk.windows == [h]
  {
    hide Reaches, Leads;
    ReachesInit(s0);
    states, steps, s := [s0], [], s0;
    var views, actions := CreatePath(ViewOf(s, t), h);
    states, steps := ExtendPath(s0, states, steps, s, t, views, actions);
    s := Merge(s, Last(views));
    assert ViewOf(s, t) == Last(views);
    PushGlide(ViewOf(s, t), Message(h, SMM_CREATE, 0, 0));
    var w := Pushed(ViewOf(s, t), Message(h, SMM_CREATE, 0, 0));
    states, steps := ExtendGlide(s0, states, steps, s, t, 5, w);
    s := Merge(s, w);
    assert s.mail.ring.head == 0 && s.mail.ring.tail == 1 && s.mail.ring.slots[0] == Message(h, SMM_CREATE, 0, 0);
    views, actions := DispatchPath(ViewOf(s, DISPATCHER));
    states, steps := ExtendPath(s0, states, steps, s, DISPATCHER, views, actions);
    s := Merge(s, Last(views));
  }

  /** The window closes itself, and again from inside. */
  lemma CloseRun(s0: State, states0: seq<State>, steps0: seq<Step>, s1: State, h: u32)
      returns (states: seq<State>, steps: seq<Step>, s: State)
    requires Reaches(s0, states0, steps0, s1) && DISPATCHER in s1.threads && Unlocked(ViewOf(s1, DISPATCHER))
    requires s1.threads[DISPATCHER] == Thread(Resting, Dispatcher([Frame(h, SMM_CREATE, false, false)], None))
    requires s1.desk.windows == [h] && h != SK_INVALID_HSM
    ensures Reaches(s0, states, steps, s) && BadUnlink(h) in s.log && Nested(h) in s.log
  {
    hide Reaches, Leads, Mark, Without, WellFormed;
    var create, close := Frame(h, SMM_CREATE, false, false), Frame(h, SMM_CLOSE, false, false);
    var outer := close.(reentered := true);
    var m := Message(h, SMM_CLOSE, 0, 0);
    var v0 := ViewOf(s1, DISPATCHER);
    var views, actions := ExpressPath(v0, [create], h);
    var all, acts := views, actions;
    assert Mark([create], m) + [close] == [create, close];
    views, actions := ExpressPath(Last(all), [create, close], h);
    JoinPaths(all, acts, views, actions);
    all, acts := all + views[1..], acts + actions;
    assert HandlesClose([create, close][1], h);
    var nested := |views[0].log|;
    assert Last(all).log[nested] == Nested(h);
    assert Mark([create, close], m) + [close] == [create, outer] + [close];
    views, actions := UnlinkPath(Last(all), [create, outer], close);
    JoinPaths(all, acts, views, actions);
    all, acts := all + views[1..], acts + actions;
    assert Last(all).log[nested] == Nested(h);
    views, actions := PurgePath(Last(all), [create, outer], close.(closing := true));
    JoinPaths(all, acts, views, actions);
    all, acts := all + views[1..], acts + actions;
    assert Last(all).log[nested] == Nested(h);
    assert [create, outer] == [create] + [outer];
    WithoutMember([h], h, h);
    views, actions := UnlinkPath(Last(all), [create], outer);
    JoinPaths(all, acts, views, actions);
    all, acts := all + views[1..], acts + actions;
    assert Last(all).log[nested] == Nested(h);
    states, steps := ExtendPath(s0, states0, steps0, s1, DISPATCHER, all, acts);
    s := Merge(s1, Last(all));
  }
}
