/** A tick slot whose param2 does not agree with its period is queued twice: a run in which it happens. */
module EngineDuplicates {
  import opened Messages
  import opened Rings
  import opened TickSlots
  import opened Engine
  import opened EnginePaths
  import opened EngineTicks

  // ---------- what keeps the table plain ----------

  /** A call that may end de-duplication: somebody else's tick, or a slot whose param2 does not agree. */
  predicate Disturbs(a: Action) {
    a.Begin? &&
    ((a.call.Send? && IsTick(a.call.m))
     || (a.call.TickOp? && a.call.call.SetTick? && !Agrees(a.call.call.n100msec, a.call.call.param2)))
  }

  predicate SetsAgreeing(op: Op) {
    op.Tabling? && (op.work.TickLock? || op.work.TickBody?) && op.work.call.SetTick? ==>
      Agrees(op.work.call.n100msec, op.work.call.param2)
  }

  ghost predicate PlainInv(s: State) {
    s.table.plain && forall t :: t in s.threads ==> SetsAgreeing(s.threads[t].op)
  }

  lemma PlainInit(s: State)
    requires Init(s)
    ensures PlainInv(s)
  {
  }

  lemma PlainStep(v: View, a: Action)
    requires Enabled(v, a) && !Disturbs(a) && v.table.plain && SetsAgreeing(v.th.op)
    ensures Do(v, a).table.plain && SetsAgreeing(Do(v, a).th.op) && Do(v, a).me == v.me
  {
    hide Contents, Rings.Valid, Full, Agrees, Mark, DoProceed;
    if a.Proceed? {
      PlainProceeds(v);
    }
  }

  lemma PlainProceeds(v: View)
    requires Enabled(v, Proceed) && v.table.plain && SetsAgreeing(v.th.op)
    ensures DoProceed(v).table.plain && SetsAgreeing(DoProceed(v).th.op) && DoProceed(v).me == v.me
  {
    hide Contents, Rings.Valid, Full, Agrees, TableStep, Store, Publish, Discard, EraseSlots, Due;
    if v.th.op.Tabling? {
      PlainTables(v);
    }
  }

  lemma PlainTables(v: View)
    requires WellFormed(v) && v.th.op.Tabling? && v.table.plain && SetsAgreeing(v.th.op)
    ensures var w := TableStep(v, v.th.op.work);
      w.table.plain && SetsAgreeing(w.th.op) && w.me == v.me
  {
    hide Contents, Rings.Valid, Full, Agrees, FirstFree, DropSlot;
  }

  /** The table stays plain in every run in which no call disturbs it. */
  lemma {:induction false} RunPlain(states: seq<State>, steps: seq<Step>, n: nat)
    requires IsRun(states, steps) && n < |states|
    requires forall j :: 0 <= j < n ==> !Disturbs(steps[j].a)
    ensures PlainInv(states[n])
  {
    hide Do, Enabled, Disturbs, SetsAgreeing;
    if n == 0 {
      PlainInit(states[0]);
    } else {
      RunPlain(states, steps, n - 1);
      PlainStep(ViewOf(states[n - 1], steps[n - 1].t), steps[n - 1].a);
    }
  }

  // ---------- the ticker alone with one slot ----------

  /** The ticker stands between two calls; slot 0 is the only one in use; the queue holds q. */
  ghost predicate TickerAt(v: View, phase: Phase, slot: TickSlot, q: seq<Message>, size: nat) {
    && WellFormed(v) && |v.mail.ring.slots| == size && Contents(v.mail.ring) == q
    && v.th == Thread(Resting, Ticker(phase))
    && v.locks == Locks(None, None, if phase.Sleeping? then None else Some(v.me))
    && v.table.slots[0] == slot
    && forall j :: 1 <= j < NTICKS ==> v.table.slots[j].hsm == SK_INVALID_HSM
  }

  lemma WakeGlide(v: View, slot: TickSlot, q: seq<Message>, size: nat) returns (w: View)
    requires TickerAt(v, Sleeping, slot, q, size)
    ensures Glides(v, 2, w) && TickerAt(w, At(0), slot, q, size) && w.me == v.me
  {
    hide Contents, Rings.Valid;
    var v1 := Do(v, Proceed);
    w := Do(v1, Proceed);
    Glide1(v, v1);
    Glide1(v1, w);
    GlideJoin(v, 1, v1, 1, w);
  }

  /** The rest of a round passes over free slots. */
  lemma {:induction false} SkipGlide(v: View, i: nat, slot: TickSlot, q: seq<Message>, size: nat) returns (w: View)
    requires TickerAt(v, At(i), slot, q, size) && 1 <= i <= NTICKS
    ensures Glides(v, NTICKS + 1 - i, w) && TickerAt(w, Sleeping, slot, q, size) && w.me == v.me
    decreases NTICKS - i
  {
    hide Contents, Rings.Valid;
    var v1 := Do(v, Proceed);
    Glide1(v, v1);
    if i == NTICKS {
      w := v1;
    } else {
      w := SkipGlide(v1, i + 1, slot, q, size);
      GlideJoin(v, 1, v1, NTICKS - i, w);
    }
  }

  lemma QuietGlide(v: View, slot: TickSlot, q: seq<Message>, size: nat) returns (w: View)
    requires TickerAt(v, At(0), slot, q, size) && slot.hsm != SK_INVALID_HSM && !Due(slot.n100msec, slot.count)
    ensures Glides(v, 1, w) && TickerAt(w, At(1), AfterRound(slot), q, size) && w.me == v.me
  {
    hide Contents, Rings.Valid;
    w := Do(v, Proceed);
    Glide1(v, w);
  }

  /** The ticker finds slot 0 due, asks, and is told that the tick is not queued. */
  lemma AskGlide(v: View, slot: TickSlot, q: seq<Message>, size: nat) returns (w: View)
    requires TickerAt(v, At(0), slot, q, size) && slot.hsm != SK_INVALID_HSM && Due(slot.n100msec, slot.count)
    requires Probe(slot, 0) !in q
    ensures Glides(v, 4, w) && TickerAt(w, Answered(0, false), slot, q, size) && w.me == v.me
  {
    hide Contents, Rings.Valid, Due;
    var v1 := Do(v, Proceed);
    var v2 := Do(v1, Proceed);
    var v3 := Do(v2, Proceed);
    w := Do(v3, Proceed);
    Glide3(v, v1, v2, v3);
    Glide1(v3, w);
    GlideJoin(v, 3, v3, 1, w);
  }

  /** It sends the tick and starts the counter again. */
  lemma SendGlide(v: View, slot: TickSlot, q: seq<Message>, size: nat) returns (w: View)
    requires TickerAt(v, Answered(0, false), slot, q, size) && slot.hsm != SK_INVALID_HSM && |q| + 1 < size
    requires Due(slot.n100msec, slot.count)
    ensures Glides(v, 9, w) && TickerAt(w, At(1), AfterRound(slot), q + [Notice(slot, 0)], size) && w.me == v.me
  {
    hide Contents, Rings.Valid, Due, Store, Publish, Full;
    var m := Notice(slot, 0);
    FullExact(v.mail.ring);
    var v3 := v.(th := Thread(Pushing(PushBody(m)), Ticker(Settling(0))), locks := Locks(Some(v.me), Some(v.me), Some(v.me)));
    SendStarts(v, slot, v3);
    PushGlide(v3, m);
    GlideJoin(v, 3, v3, 5, Pushed(v3, m));
    w := Do(Pushed(v3, m), Proceed);
    SizeKept(v.mail.ring, m);
    Glide1(Pushed(v3, m), w);
    GlideJoin(v, 8, Pushed(v3, m), 1, w);
  }

  lemma SizeKept(r: Ring, m: Message)
    requires Rings.Valid(r)
    ensures |Publish(Store(r, m)).slots| == |r.slots|
  {
  }

  lemma SendStarts(v: View, slot: TickSlot, w: View)
    requires WellFormed(v) && v.th == Thread(Resting, Ticker(Answered(0, false))) && v.locks == Locks(None, None, Some(v.me))
    requires v.table.slots[0] == slot && slot.hsm != SK_INVALID_HSM
    requires w == v.(th := Thread(Pushing(PushBody(Notice(slot, 0))), Ticker(Settling(0))),
                     locks := Locks(Some(v.me), Some(v.me), Some(v.me)))
    ensures Glides(v, 3, w)
  {
    hide Contents, Rings.Valid, Full;
    var v1 := Do(v, Proceed);
    var v2 := Do(v1, Proceed);
    Glide3(v, v1, v2, w);
  }

  /** A whole round, the only other traffic being the slot's own tick. */
  lemma RoundGlide(v: View, slot: TickSlot, q: seq<Message>, size: nat) returns (n: nat, w: View)
    requires TickerAt(v, Sleeping, slot, q, size) && slot.hsm != SK_INVALID_HSM
    requires Due(slot.n100msec, slot.count) ==> Probe(slot, 0) !in q && |q| + 1 < size
    ensures Glides(v, n, w) && w.me == v.me
    ensures TickerAt(w, Sleeping, AfterRound(slot),
                     if Due(slot.n100msec, slot.count) then q + [Notice(slot, 0)] else q, size)
  {
    hide TickerAt, Due, AfterRound, Do, Enabled;
    var v1 := WakeGlide(v, slot, q, size);
    if Due(slot.n100msec, slot.count) {
      var v2 := AskGlide(v1, slot, q, size);
      var v3 := SendGlide(v2, slot, q, size);
      w := SkipGlide(v3, 1, AfterRound(slot), q + [Notice(slot, 0)], size);
      GlideJoin(v, 2, v1, 4, v2);
      GlideJoin(v, 6, v2, 9, v3);
      GlideJoin(v, 15, v3, NTICKS, w);
      n := 15 + NTICKS;
    } else {
      var v2 := QuietGlide(v1, slot, q, size);
      w := SkipGlide(v2, 1, AfterRound(slot), q, size);
      GlideJoin(v, 2, v1, 1, v2);
      GlideJoin(v, 3, v2, NTICKS, w);
      n := 3 + NTICKS;
    }
  }

  /** Rounds until the count is k, none of them due. */
  lemma {:induction false} CountGlide(v: View, slot: TickSlot, k: u32, q: seq<Message>, size: nat) returns (n: nat, w: View)
    requires TickerAt(v, Sleeping, slot, q, size) && slot.hsm != SK_INVALID_HSM && slot.count <= k
    requires forall j: u32 :: slot.count <= j < k ==> !Due(slot.n100msec, j)
    ensures Glides(v, n, w) && w.me == v.me && TickerAt(w, Sleeping, slot.(count := k), q, size)
    decreases k - slot.count
  {
    hide TickerAt, Due, Do, Enabled;
    if slot.count == k {
      n, w := 0, v;
      assert slot.(count := k) == slot;
      GlideNowhere(v);
    } else {
      var a, v1 := RoundGlide(v, slot, q, size);
      assert AfterRound(slot) == slot.(count := slot.count + 1);
      var b, v2 := CountGlide(v1, slot.(count := slot.count + 1), k, q, size);
      GlideJoin(v, a, v1, b, v2);
      n, w := a + b, v2;
    }
  }

  lemma GlideNowhere(v: View)
    ensures Glides(v, 0, v)
  {
  }

  /** Two periods of a slot whose param2 is not the count it fires at. */
  lemma TwiceGlide(v: View, slot: TickSlot, k: u32, size: nat) returns (n: nat, w: View)
    requires TickerAt(v, Sleeping, slot, [], size) && slot.hsm != SK_INVALID_HSM && slot.count == 0 && size >= 3
    requires slot.n100msec >= 1 && FirstDue(slot.n100msec, k) && slot.param2 != 0 && slot.param2 != k
    ensures Glides(v, n, w) && w.me == v.me
    ensures TickerAt(w, Sleeping, slot.(count := 1), [Notice(slot, 0), Notice(slot, 0)], size)
  {
    hide TickerAt, Do, Enabled;
    assert !Due(slot.n100msec, 0);
    var full := slot.(count := k);
    var note := Notice(slot, 0);
    var a, v1 := CountGlide(v, slot, k, [], size);
    var b, v2 := RoundGlide(v1, full, [], size);
    assert [] + [note] == [note] && AfterRound(full) == slot.(count := 1);
    var c, v3 := CountGlide(v2, slot.(count := 1), k, [note], size);
    var d, v4 := RoundGlide(v3, full, [note], size);
    assert [note] + [note] == [note, note];
    GlideJoin(v, a, v1, b, v2);
    GlideJoin(v, a + b, v2, c, v3);
    GlideJoin(v, a + b + c, v3, d, v4);
    n, w := a + b + c + d, v4;
  }

  /** A client sets a tick in the empty table. */
  lemma SetGlide(v: View, h: u32, n: u32, p: u32) returns (w: View)
    requires WellFormed(v) && v.th == Thread(Tabling(TickLock(SetTick(h, n, p, 0))), Client)
    requires v.locks == Locks(None, None, None) && v.table.slots[0].hsm == SK_INVALID_HSM
    ensures Glides(v, 3, w) && w.me == v.me && WellFormed(w) && w.locks == v.locks && w.mail == v.mail
    ensures w.table.slots == v.table.slots[0 := TickSlot(h, n, 0, p, 0)]
  {
    hide Contents, Rings.Valid, Agrees;
    assert FirstFree(v.table.slots) == 0;
    var v1 := Do(v, Proceed);
    var v2 := Do(v1, Proceed);
    w := Do(v2, Proceed);
    Glide3(v, v1, v2, w);
  }

  /**
   * A run that queues one tick twice: the only call is the one that sets it, for a threshold first reached at
   * count k and with a param2 that is neither 0 nor k.
   */
  lemma TickDuplicates(s0: State, t: Tid, h: u32, n: u32, p: u32, k: u32)
      returns (states: seq<State>, steps: seq<Step>, s: State)
    requires Init(s0) && t in s0.threads && s0.threads[t].base.Client?
    requires |s0.mail.ring.slots| >= 3 && h != SK_INVALID_HSM
    requires n >= 1 && FirstDue(n, k) && p != 0 && p != k
    ensures Reaches(s0, states, steps, s) && Rings.Valid(s.mail.ring)
    ensures |steps| >= 1 && steps[0] == Step(t, Begin(TickOp(SetTick(h, n, p, 0))))
    ensures forall j :: 1 <= j < |steps| ==> steps[j].a.Proceed?
    ensures !TicksDistinct(Contents(s.mail.ring))
  {
    hide Reaches, Do, FirstDue, Glides;
    ReachesInit(s0);
    var a := Begin(TickOp(SetTick(h, n, p, 0)));
    states, steps := ExtendStep(s0, [s0], [], s0, t, a);
    s := Next(s0, t, a);
    SetBegins(s0, t, h, n, p);
    var w := SetGlide(ViewOf(s, t), h, n, p);
    states, steps := ExtendGlide(s0, states, steps, s, t, 3, w);
    s := Merge(s, w);
    var v := ViewOf(s, TICKER);
    var slot := TickSlot(h, n, 0, p, 0);
    assert Contents(v.mail.ring) == [];
    assert TickerAt(v, Sleeping, slot, [], |s0.mail.ring.slots|);
    var m, x := TwiceGlide(v, slot, k, |s0.mail.ring.slots|);
    states, steps := ExtendGlide(s0, states, steps, s, TICKER, m, x);
    s := Merge(s, x);
    var q := Contents(s.mail.ring);
    assert q[0] == q[1] && IsTick(q[0]);
  }

  lemma SetBegins(s: State, t: Tid, h: u32, n: u32, p: u32)
    requires Init(s) && t in s.threads && s.threads[t].base.Client?
    ensures var a := Begin(TickOp(SetTick(h, n, p, 0)));
      && CanStep(s, t, a) && t in Next(s, t, a).threads
      && Next(s, t, a).threads == s.threads[t := Thread(Tabling(TickLock(SetTick(h, n, p, 0))), Client)]
      && Next(s, t, a).locks == s.locks && Next(s, t, a).mail == s.mail
      && Next(s, t, a).table.slots == s.table.slots
  {
  }
}
