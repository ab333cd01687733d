/** The tick slot's closed form holds inside the engine, whatever the other threads do in between. */
module EngineTiming {
  import opened Messages
  import opened Rings
  import opened TickSlots
  import opened WindowLists
  import opened Engine
  import opened EngineLocks

  function PhaseOf(s: State): Phase {
    if TICKER in s.threads && s.threads[TICKER].base.Ticker? then s.threads[TICKER].base.phase else Sleeping
  }

  /** The ticker has found slot k due and is not done with it. */
  predicate Busy(phase: Phase, k: nat) {
    phase == Asked(k) || (phase.Answered? && phase.i == k) || phase == Settling(k)
  }

  /** The step finds slot k due. */
  predicate Fires(s: State, s': State, k: nat) {
    PhaseOf(s) == At(k) && PhaseOf(s') == Asked(k)
  }

  /** The step ends the ticker's visit to slot k. */
  predicate Passes(s: State, s': State, k: nat) {
    (PhaseOf(s) == At(k) || PhaseOf(s) == Settling(k)) && PhaseOf(s') == At(k + 1)
  }

  function Tally(b: bool): nat {
    if b then 1 else 0
  }

  /** The visits to slot k, and how many of them found it due, between two points of a run. */
  function Visits(states: seq<State>, from: nat, to: nat, k: nat): nat
    requires from <= to < |states|
  {
    if from == to then 0 else Visits(states, from, to - 1, k) + Tally(Passes(states[to - 1], states[to], k))
  }

  function Fired(states: seq<State>, from: nat, to: nat, k: nat): nat
    requires from <= to < |states|
  {
    if from == to then 0 else Fired(states, from, to - 1, k) + Tally(Fires(states[to - 1], states[to], k))
  }

  /** The step is the write of sm_destroy_tick to slot k. */
  predicate Drops(v: View, a: Action, k: nat) {
    && a.Proceed? && v.th.op.Tabling? && v.th.op.work.TickBody?
    && v.th.op.work.call.DropTick? && v.th.op.work.call.htick == k + 1
  }

  /** Slot k is where `visits` rounds take `start`, and it has been found due as often as that takes. */
  predicate Tracks(s: State, k: nat, start: TickSlot, visits: nat, fired: nat)
    requires k < |s.table.slots|
  {
    && s.table.slots[k] == SlotAfter(start, visits)
    && fired == Firings(start, visits) + Tally(Busy(PhaseOf(s), k))
    && (Busy(PhaseOf(s), k) ==> Due(s.table.slots[k].n100msec, s.table.slots[k].count))
  }

  lemma {:induction false} SlotAfterKeeps(slot: TickSlot, t: nat)
    ensures SlotAfter(slot, t).hsm == slot.hsm && SlotAfter(slot, t).n100msec == slot.n100msec
  {
    if t > 0 {
      SlotAfterKeeps(slot, t - 1);
    }
  }

  /** Nobody but the ticker changes an occupied slot, unless it is dropped. */
  lemma OthersKeepSlot(v: View, a: Action, k: nat)
    requires WellFormed(v) && ThreadOk(v) && Enabled(v, a) && !v.th.base.Ticker?
    requires k < NTICKS && v.table.slots[k].hsm != SK_INVALID_HSM && !Drops(v, a, k)
    ensures |Do(v, a).table.slots| == NTICKS && Do(v, a).table.slots[k] == v.table.slots[k]
  {
    hide Contents, Rings.Valid, Full, Mark, Without;
  }

  /** The ticker's own step on slot k. */
  lemma TickerVisits(v: View, k: nat)
    requires WellFormed(v) && ThreadOk(v) && Ready(v) && v.th.base.Ticker?
    requires k < NTICKS && v.table.slots[k].hsm != SK_INVALID_HSM
    requires Busy(v.th.base.phase, k) ==> Due(v.table.slots[k].n100msec, v.table.slots[k].count)
    ensures var w := DoProceed(v);
      var p, p' := v.th.base.phase, w.th.base.phase;
      && w.th.base.Ticker? && |w.table.slots| == NTICKS
      && w.table.slots[k] == (if (p == At(k) || p == Settling(k)) && p' == At(k + 1)
                              then AfterRound(v.table.slots[k]) else v.table.slots[k])
      && (Busy(p', k) <==> (p == At(k) && p' == Asked(k)) || (Busy(p, k) && p' != At(k + 1)))
      && (Busy(p', k) ==> Due(v.table.slots[k].n100msec, v.table.slots[k].count))
      && (p == At(k) ==> (p' == Asked(k) <==> Due(v.table.slots[k].n100msec, v.table.slots[k].count)))
      && (p == At(k) || Busy(p, k) ==> p' == At(k + 1) || Busy(p', k))
  {
    hide Contents, Rings.Valid, Full;
  }

  /** Every step moves slot k exactly as a round does, or not at all. */
  lemma TrackStep(s: State, t: Tid, a: Action, k: nat, start: TickSlot, visits: nat, fired: nat)
    requires CoreInv(s) && CanStep(s, t, a) && k < NTICKS && start.hsm != SK_INVALID_HSM
    requires Tracks(s, k, start, visits, fired) && !Drops(ViewOf(s, t), a, k)
    ensures var s' := Next(s, t, a);
      && |s'.table.slots| == NTICKS
      && Tracks(s', k, start, visits + Tally(Passes(s, s', k)), fired + Tally(Fires(s, s', k)))
  {
    hide Do, Enabled, Drops, Contents, Rings.Valid;
    var v := ViewOf(s, t);
    assert ThreadOk(v) && ThreadOk(ViewOf(s, TICKER));
    OrderlyDo(v, a);
    SlotAfterKeeps(start, visits);
    if t == TICKER {
      TickerProceeds(v, a);
      TickerVisits(v, k);
    } else {
      OthersKeepSlot(v, a, k);
    }
  }

  lemma TickerProceeds(v: View, a: Action)
    requires WellFormed(v) && ThreadOk(v) && Enabled(v, a) && v.th.base.Ticker?
    ensures a.Proceed? && Ready(v) && Do(v, a) == DoProceed(v)
  {
  }

  predicate NotDropped(states: seq<State>, steps: seq<Step>, from: nat, to: nat, k: nat)
    requires to <= |steps| < |states|
  {
    forall j :: from <= j < to && steps[j].t in states[j].threads ==>
      !Drops(ViewOf(states[j], steps[j].t), steps[j].a, k)
  }

  /** From a point where the ticker is elsewhere, slot k follows the rounds for as long as it is not dropped. */
  lemma {:induction false} TrackRun(states: seq<State>, steps: seq<Step>, from: nat, to: nat, k: nat)
    requires IsRun(states, steps) && Throughout(states)
    requires from <= to < |states| && k < NTICKS && NotDropped(states, steps, from, to, k)
    requires |states[from].table.slots| == NTICKS
    requires states[from].table.slots[k].hsm != SK_INVALID_HSM && !Busy(PhaseOf(states[from]), k)
    ensures |states[to].table.slots| == NTICKS
    ensures Tracks(states[to], k, states[from].table.slots[k], Visits(states, from, to, k), Fired(states, from, to, k))
  {
    hide Tracks, Drops, Passes, Fires, Next, CanStep, CoreInv, Busy;
    if from == to {
      TrackStart(states[from], k);
    } else {
      TrackRun(states, steps, from, to - 1, k);
      assert steps[to - 1].t in states[to - 1].threads by {
        StepperExists(states[to - 1], steps[to - 1]);
      }
      TrackStep(states[to - 1], steps[to - 1].t, steps[to - 1].a, k, states[from].table.slots[k],
                Visits(states, from, to - 1, k), Fired(states, from, to - 1, k));
    }
  }

  lemma StepperExists(s: State, step: Step)
    requires CanStep(s, step.t, step.a)
    ensures step.t in s.threads
  {
  }

  lemma TrackStart(s: State, k: nat)
    requires k < |s.table.slots| && !Busy(PhaseOf(s), k)
    ensures Tracks(s, k, s.table.slots[k], 0, 0)
  {
  }

  /** The step by which sm_set_xtick fills slot k. */
  predicate Sets(v: View, a: Action, k: nat) {
    && a.Proceed? && v.th.op.Tabling? && v.th.op.work.TickBody? && v.th.op.work.call.SetTick?
    && k < NTICKS && FirstFree(v.table.slots) == k
  }

  lemma SetStarts(s: State, t: Tid, a: Action, k: nat)
    requires CoreInv(s) && CanStep(s, t, a) && Sets(ViewOf(s, t), a, k)
    ensures var s' := Next(s, t, a);
      var c := s.threads[t].op.work.call;
      && |s'.table.slots| == NTICKS && !Busy(PhaseOf(s'), k)
      && s'.table.slots[k] == TickSlot(c.hsm, c.n100msec, 0, c.param2, c.sysflag)
  {
    hide Contents, Rings.Valid, Full, Without;
    assert ThreadOk(ViewOf(s, t)) && ThreadOk(ViewOf(s, TICKER));
  }
}
