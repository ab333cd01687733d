/**
 * skyapi_event.c as a monitor: one bit of state, a mutex and a condition variable. Any number of threads
 * wait, set and reset; wake-ups may be spurious.
 */
module EventMonitor {

  /**
   * What a program may do with the event: `initial` is the bit it starts with, `peeks` allows waits that
   * pass a nonzero is_auto_reset (which leave the bit set), `timeouts` allows waits with a finite timeout.
   */
  datatype Config = Config(initial: bool, peeks: bool, timeouts: bool)

  datatype Call =
    | Wait(peek: bool, timed: bool)
    | Set
    | Reset

  /** Inside, Signalling and Leaving hold the mutex; Blocked and the two after it are inside pthread_cond_wait. */
  datatype Pc =
    | Outside
    | Inside(call: Call, woken: bool)
    | Signalling
    | Leaving
    | Blocked(call: Call)
    | Woken(call: Call)
    | Expired

  datatype State = State(bit: bool, mutex: bool, pcs: seq<Pc>, completed: nat, sets: nat)

  datatype Step =
    | Enter(t: nat, call: Call)
    | Act(t: nat)
    | Signal(t: nat, u: nat)
    | SignalNobody(t: nat)
    | Leave(t: nat)
    | Wake(t: nat)
    | Reacquire(t: nat)
    | Expire(t: nat)

  predicate Allowed(cfg: Config, call: Call) {
    call.Wait? ==> (call.peek ==> cfg.peeks) && (call.timed ==> cfg.timeouts)
  }

  ghost predicate Init(cfg: Config, s: State) {
    && s.bit == cfg.initial && !s.mutex && s.completed == 0 && s.sets == 0
    && forall t :: 0 <= t < |s.pcs| ==> s.pcs[t] == Outside
  }

  ghost predicate NobodyBlocked(s: State) {
    forall u :: 0 <= u < |s.pcs| ==> !s.pcs[u].Blocked?
  }

  /** The thread is where the step starts, and the mutex is free if the step takes it. */
  ghost predicate Possible(s: State, step: Step) {
    step.t < |s.pcs| &&
    match step
    case Enter(t, _) => s.pcs[t].Outside? && !s.mutex
    case Act(t) => s.pcs[t].Inside?
    // pthread_cond_signal wakes a blocked waiter if there is one
    case Signal(t, u) => s.pcs[t].Signalling? && u < |s.pcs| && s.pcs[u].Blocked?
    case SignalNobody(t) => s.pcs[t].Signalling? && NobodyBlocked(s)
    case Leave(t) => s.pcs[t].Leaving?
    case Wake(t) => s.pcs[t].Blocked?
    case Reacquire(t) => (s.pcs[t].Woken? || s.pcs[t].Expired?) && !s.mutex
    // a timeout may consume a signal directed at the same waiter
    case Expire(t) => (s.pcs[t].Blocked? || s.pcs[t].Woken?) && s.pcs[t].call.Wait? && s.pcs[t].call.timed
  }

  ghost predicate Enabled(cfg: Config, s: State, step: Step) {
    Possible(s, step) && (step.Enter? ==> Allowed(cfg, step.call))
  }

  function At(s: State, t: nat, pc: Pc): State
    requires t < |s.pcs|
  {
    s.(pcs := s.pcs[t := pc])
  }

  /** The test of the wait loop, or the assignment of set and reset. */
  function ActOn(s: State, t: nat, call: Call): State
    requires t < |s.pcs|
  {
    match call
    case Wait(peek, _) =>
      if s.bit then At(s, t, Leaving).(bit := peek, completed := s.completed + 1)
      else At(s, t, Blocked(call)).(mutex := false)
    case Set => At(s, t, Signalling).(bit := true, sets := s.sets + 1)
    case Reset => At(s, t, Leaving).(bit := false)
  }

  ghost function Next(s: State, step: Step): State
    requires Possible(s, step)
  {
    match step
    case Enter(t, call) => At(s, t, Inside(call, false)).(mutex := true)
    case Act(t) => ActOn(s, t, s.pcs[t].call)
    case Signal(t, u) => At(At(s, u, Woken(s.pcs[u].call)), t, Leaving)
    case SignalNobody(t) => At(s, t, Leaving)
    case Leave(t) => At(s, t, Outside).(mutex := false)
    case Wake(t) => At(s, t, Woken(s.pcs[t].call))
    case Reacquire(t) =>
      At(s, t, if s.pcs[t].Woken? then Inside(s.pcs[t].call, true) else Leaving).(mutex := true)
    case Expire(t) => At(s, t, Expired)
  }

  ghost predicate IsRun(cfg: Config, states: seq<State>, steps: seq<Step>) {
    && |states| == |steps| + 1 && Init(cfg, states[0])
    && forall i :: 0 <= i < |steps| ==> Enabled(cfg, states[i], steps[i]) && states[i + 1] == Next(states[i], steps[i])
  }

  function Final(states: seq<State>): State {
    if states == [] then State(false, false, [], 0, 0) else states[|states| - 1]
  }

  predicate HoldsMutex(pc: Pc) {
    pc.Inside? || pc.Signalling? || pc.Leaving?
  }

  /** A waiter that has been woken and has not looked at the bit since. */
  predicate Comes(pc: Pc) {
    pc.Woken? || (pc.Inside? && pc.woken)
  }

  ghost predicate SomebodyComes(s: State) {
    exists u :: 0 <= u < |s.pcs| && Comes(s.pcs[u])
  }

  /** A set has written the bit and not signalled yet. */
  ghost predicate AboutToSignal(s: State) {
    exists u :: 0 <= u < |s.pcs| && s.pcs[u].Signalling?
  }

  /** Whenever the bit is set and a waiter is blocked, another waiter has been woken (or is about to be). */
  ghost predicate NoLostSignal(s: State) {
    s.bit && !NobodyBlocked(s) ==> SomebodyComes(s) || AboutToSignal(s)
  }

  /** No more waits complete than the initial bit and the sets allow. */
  predicate Conserved(cfg: Config, s: State) {
    s.completed <= (if cfg.initial then 1 else 0) + s.sets
  }

  predicate CallOf(cfg: Config, pc: Pc) {
    pc.Inside? || pc.Blocked? || pc.Woken? ==>
      && Allowed(cfg, pc.call)
      && (pc.Blocked? || pc.Woken? || (pc.Inside? && pc.woken) ==> pc.call.Wait?)
  }

  /** Calls keep to the configuration. */
  ghost predicate CallsInv(cfg: Config, s: State) {
    && (forall t :: 0 <= t < |s.pcs| ==> CallOf(cfg, s.pcs[t]))
    && (!cfg.timeouts ==> forall t :: 0 <= t < |s.pcs| ==> !s.pcs[t].Expired?)
  }

  /** The mutex is taken exactly when some thread holds it, and one thread at a time does. */
  ghost predicate MutexInv(s: State) {
    && (s.mutex <==> exists t :: 0 <= t < |s.pcs| && HoldsMutex(s.pcs[t]))
    && (forall t, u :: 0 <= t < u < |s.pcs| && HoldsMutex(s.pcs[t]) ==> !HoldsMutex(s.pcs[u]))
  }

  lemma CallsStep(cfg: Config, s: State, step: Step)
    requires CallsInv(cfg, s) && Enabled(cfg, s, step)
    ensures CallsInv(cfg, Next(s, step))
  {
  }

  lemma MutexStep(s: State, step: Step)
    requires MutexInv(s) && Possible(s, step)
    ensures MutexInv(Next(s, step))
  {
    var s' := Next(s, step);
    assert s'.mutex && !s.mutex ==> HoldsMutex(s'.pcs[step.t]);
    if s.mutex && s'.mutex {
      var t :| 0 <= t < |s.pcs| && HoldsMutex(s.pcs[t]);
      assert HoldsMutex(s'.pcs[t]);
    }
  }

  // ---------- the bit and the counts, exactly ----------

  predicate ActsNow(s: State, step: Step) {
    step.Act? && step.t < |s.pcs| && s.pcs[step.t].Inside?
  }

  /** The step is the assignment of a set. */
  predicate SetsNow(s: State, step: Step) {
    ActsNow(s, step) && s.pcs[step.t].call.Set?
  }

  /** The step is a wait that finds the bit set. */
  predicate CompletesNow(s: State, step: Step) {
    ActsNow(s, step) && s.pcs[step.t].call.Wait? && s.bit
  }

  /** The step is the assignment of a reset, or of a wait that uses the bit up. */
  predicate ClearsNow(s: State, step: Step) {
    ActsNow(s, step) && (s.pcs[step.t].call.Reset? || (CompletesNow(s, step) && !s.pcs[step.t].call.peek))
  }

  lemma ExactStep(s: State, step: Step)
    requires Possible(s, step)
    ensures Next(s, step).bit <==> SetsNow(s, step) || (s.bit && !ClearsNow(s, step))
    ensures Next(s, step).completed == s.completed + if CompletesNow(s, step) then 1 else 0
    ensures Next(s, step).sets == s.sets + if SetsNow(s, step) then 1 else 0
  {
  }

  /** A call reaches its return only by doing its work: a wait by finding the bit set, or by timing out. */
  lemma ReturnsOnly(s: State, step: Step, t: nat)
    requires Possible(s, step) && t < |s.pcs| && Next(s, step).pcs[t].Leaving? && !s.pcs[t].Leaving?
    ensures step.t == t
    ensures s.pcs[t].Expired? || s.pcs[t].Signalling? || CompletesNow(s, step) || (ActsNow(s, step) && s.pcs[t].call.Reset?)
  {
  }

  /** Only a set signals, and only a timed wait expires. */
  lemma SignalsOnly(s: State, step: Step, t: nat)
    requires Possible(s, step) && t < |s.pcs|
    ensures Next(s, step).pcs[t].Signalling? && !s.pcs[t].Signalling? ==> step.t == t && SetsNow(s, step)
    ensures Next(s, step).pcs[t].Expired? && !s.pcs[t].Expired? ==>
      step == Expire(t) && (s.pcs[t].Blocked? || s.pcs[t].Woken?) && s.pcs[t].call.timed
  {
  }

  /**
   * A blocked waiter may wake at any time. If the bit is off when it has the mutex back, it blocks again and nothing
   * has changed; if it is on, its wait completes.
   */
  lemma WakesAndLooks(s: State, t: nat)
    requires t < |s.pcs| && s.pcs[t].Blocked? && s.pcs[t].call.Wait? && !s.mutex
    ensures Possible(s, Wake(t))
    ensures var s1 := Next(s, Wake(t));
      && Possible(s1, Reacquire(t))
      && var s2 := Next(s1, Reacquire(t));
      && s2.mutex && Possible(s2, Act(t))
      && if s.bit then CompletesNow(s2, Act(t)) && Next(s2, Act(t)).pcs == s.pcs[t := Leaving]
         else Next(s2, Act(t)) == s
  {
    var call := s.pcs[t].call;
    var s1 := Next(s, Wake(t));
    var s2 := Next(s1, Reacquire(t));
    assert s2.pcs == s.pcs[t := Inside(call, true)];
    assert !s.bit ==> Next(s2, Act(t)).pcs == s.pcs;
  }

  /** The bit was put at point j of the run, by a set or from the start. */
  predicate PutAt(cfg: Config, states: seq<State>, steps: seq<Step>, j: nat)
    requires j <= |steps| <= |states|
  {
    if j == 0 then cfg.initial else SetsNow(states[j - 1], steps[j - 1])
  }

  predicate NotCleared(states: seq<State>, steps: seq<Step>, j: nat, n: nat)
    requires n <= |steps| <= |states|
  {
    forall k :: j <= k < n ==> !ClearsNow(states[k], steps[k])
  }

  function CompletionsBefore(states: seq<State>, steps: seq<Step>, n: nat): nat
    requires n <= |steps| <= |states|
  {
    if n == 0 then 0
    else CompletionsBefore(states, steps, n - 1) + if CompletesNow(states[n - 1], steps[n - 1]) then 1 else 0
  }

  function SetsBefore(states: seq<State>, steps: seq<Step>, n: nat): nat
    requires n <= |steps| <= |states|
  {
    if n == 0 then 0
    else SetsBefore(states, steps, n - 1) + if SetsNow(states[n - 1], steps[n - 1]) then 1 else 0
  }

  /**
   * For every configuration and run: the bit is set exactly when it was put, by a set or from the start, and since
   * then neither reset nor used up by a completed wait. A wait that times out changes neither bit nor count.
   */
  lemma {:induction false} BitIff(cfg: Config, states: seq<State>, steps: seq<Step>, n: nat)
    requires IsRun(cfg, states, steps) && n < |states|
    ensures states[n].bit <==> exists j: nat :: j <= n && PutAt(cfg, states, steps, j) && NotCleared(states, steps, j, n)
    ensures states[n].completed == CompletionsBefore(states, steps, n)
    ensures states[n].sets == SetsBefore(states, steps, n)
  {
    hide Next, Possible, SetsNow, CompletesNow, ClearsNow;
    if n == 0 {
      assert NotCleared(states, steps, 0, 0) && (PutAt(cfg, states, steps, 0) <==> cfg.initial);
    } else {
      BitIff(cfg, states, steps, n - 1);
      ExactStep(states[n - 1], steps[n - 1]);
      BitNext(cfg, states, steps, n);
    }
  }

  lemma BitNext(cfg: Config, states: seq<State>, steps: seq<Step>, n: nat)
    requires 1 <= n <= |steps| < |states|
    requires states[n].bit <==> SetsNow(states[n - 1], steps[n - 1]) || (states[n - 1].bit && !ClearsNow(states[n - 1], steps[n - 1]))
    requires states[n - 1].bit <==>
      exists j: nat :: j <= n - 1 && PutAt(cfg, states, steps, j) && NotCleared(states, steps, j, n - 1)
    ensures states[n].bit <==> exists j: nat :: j <= n && PutAt(cfg, states, steps, j) && NotCleared(states, steps, j, n)
  {
    hide SetsNow, ClearsNow;
    if SetsNow(states[n - 1], steps[n - 1]) {
      assert PutAt(cfg, states, steps, n) && NotCleared(states, steps, n, n);
    } else if states[n].bit {
      var j: nat :| j <= n - 1 && PutAt(cfg, states, steps, j) && NotCleared(states, steps, j, n - 1);
      assert NotCleared(states, steps, j, n);
    }
    if j: nat :| j <= n && PutAt(cfg, states, steps, j) && NotCleared(states, steps, j, n) {
      assert j < n ==> NotCleared(states, steps, j, n - 1) && !ClearsNow(states[n - 1], steps[n - 1]);
    }
  }

  /** Consuming waits: each completed one has used up the initial bit or a set. */
  predicate CountInv(cfg: Config, s: State) {
    s.completed + (if s.bit then 1 else 0) <= (if cfg.initial then 1 else 0) + s.sets
  }

  lemma CountStep(cfg: Config, s: State, step: Step)
    requires CallsInv(cfg, s) && CountInv(cfg, s) && Enabled(cfg, s, step) && !cfg.peeks
    ensures CountInv(cfg, Next(s, step))
  {
  }

  /** A step of a thread that neither comes nor signals hides nobody who does. */
  lemma OthersStay(s: State, s': State, t: nat)
    requires t < |s.pcs| && |s'.pcs| == |s.pcs|
    requires forall u :: 0 <= u < |s.pcs| && u != t ==> s'.pcs[u] == s.pcs[u]
    requires !Comes(s.pcs[t]) && !s.pcs[t].Signalling?
    ensures SomebodyComes(s) ==> SomebodyComes(s')
    ensures AboutToSignal(s) ==> AboutToSignal(s')
    ensures !s'.pcs[t].Blocked? && !NobodyBlocked(s') ==> !NobodyBlocked(s)
  {
    if SomebodyComes(s) {
      var u :| 0 <= u < |s.pcs| && Comes(s.pcs[u]);
      assert Comes(s'.pcs[u]);
    }
    if AboutToSignal(s) {
      var u :| 0 <= u < |s.pcs| && s.pcs[u].Signalling?;
      assert s'.pcs[u].Signalling?;
    }
  }

  lemma SignalStep(cfg: Config, s: State, step: Step)
    requires CallsInv(cfg, s) && NoLostSignal(s) && Enabled(cfg, s, step) && !cfg.peeks && !cfg.timeouts
    ensures NoLostSignal(Next(s, step))
  {
    var s' := Next(s, step);
    assert CallOf(cfg, s.pcs[step.t]);
    match step {
      case Enter(t, _) => OthersStay(s, s', t);
      case Leave(t) => OthersStay(s, s', t);
      case Act(t) => assert s.pcs[t].call.Set? ==> s'.pcs[t].Signalling?;
      case Signal(t, u) => assert Comes(s'.pcs[u]);
      case Wake(t) => assert Comes(s'.pcs[t]);
      case Reacquire(t) => assert Comes(s'.pcs[t]);
      case SignalNobody(_) =>
      case Expire(_) =>
    }
  }

  /** What holds in every state of every run, as far as the configuration allows. */
  lemma {:induction false} RunInv(cfg: Config, states: seq<State>, steps: seq<Step>, n: nat)
    requires IsRun(cfg, states, steps) && n < |states|
    ensures CallsInv(cfg, states[n]) && MutexInv(states[n])
    ensures !cfg.peeks ==> CountInv(cfg, states[n])
    ensures !cfg.peeks && !cfg.timeouts ==> NoLostSignal(states[n])
  {
    hide Next, Possible, CallsInv, MutexInv, NoLostSignal, CountInv;
    if n == 0 {
      StartsWell(cfg, states[0]);
    } else {
      RunInv(cfg, states, steps, n - 1);
      CallsStep(cfg, states[n - 1], steps[n - 1]);
      MutexStep(states[n - 1], steps[n - 1]);
      if !cfg.peeks {
        CountStep(cfg, states[n - 1], steps[n - 1]);
        if !cfg.timeouts {
          SignalStep(cfg, states[n - 1], steps[n - 1]);
        }
      }
    }
  }

  lemma StartsWell(cfg: Config, s: State)
    requires Init(cfg, s)
    ensures CallsInv(cfg, s) && MutexInv(s) && CountInv(cfg, s) && NoLostSignal(s)
  {
  }

  // ---------- runs that show the conditions are needed ----------

  /** A run that may go on with a step. */
  lemma Extend(cfg: Config, states: seq<State>, steps: seq<Step>, step: Step)
      returns (states': seq<State>, steps': seq<Step>)
    requires IsRun(cfg, states, steps) && Enabled(cfg, Final(states), step)
    ensures IsRun(cfg, states', steps') && Final(states') == Next(Final(states), step)
  {
    hide Next, Possible, Init;
    states' := states + [Next(Final(states), step)];
    steps' := steps + [step];
    forall i | 0 <= i < |steps'|
      ensures Enabled(cfg, states'[i], steps'[i]) && states'[i + 1] == Next(states'[i], steps'[i])
    {
      if i < |steps| {
        assert states'[i] == states[i] && states'[i + 1] == states[i + 1] && steps'[i] == steps[i];
      }
    }
  }

  /** Everybody outside. */
  function Idle(bit: bool, completed: nat, sets: nat): State {
    State(bit, false, [Outside, Outside, Outside], completed, sets)
  }

  lemma Setting(cfg: Config, states: seq<State>, steps: seq<Step>)
      returns (states': seq<State>, steps': seq<Step>)
    requires IsRun(cfg, states, steps) && Final(states) == Idle(Final(states).bit, Final(states).completed, Final(states).sets)
    ensures IsRun(cfg, states', steps')
    ensures Final(states') == Idle(true, Final(states).completed, Final(states).sets + 1)
  {
    hide IsRun;
    states', steps' := Extend(cfg, states, steps, Enter(0, Set));
    states', steps' := Extend(cfg, states', steps', Act(0));
    states', steps' := Extend(cfg, states', steps', SignalNobody(0));
    states', steps' := Extend(cfg, states', steps', Leave(0));
  }

  lemma Peeking(cfg: Config, states: seq<State>, steps: seq<Step>)
      returns (states': seq<State>, steps': seq<Step>)
    requires IsRun(cfg, states, steps) && cfg.peeks
    requires Final(states) == Idle(true, Final(states).completed, Final(states).sets)
    ensures IsRun(cfg, states', steps')
    ensures Final(states') == Idle(true, Final(states).completed + 1, Final(states).sets)
  {
    hide IsRun;
    states', steps' := Extend(cfg, states, steps, Enter(0, Wait(true, false)));
    states', steps' := Extend(cfg, states', steps', Act(0));
    states', steps' := Extend(cfg, states', steps', Leave(0));
  }

  /** With a wait that leaves the bit set, more waits complete than were ever signalled. */
  lemma PeeksOvercount(cfg: Config) returns (states: seq<State>, steps: seq<Step>)
    requires cfg.peeks
    ensures IsRun(cfg, states, steps) && !Conserved(cfg, Final(states))
  {
    hide Next, Possible;
    states, steps := [Idle(cfg.initial, 0, 0)], [];
    states, steps := Setting(cfg, states, steps);
    states, steps := Peeking(cfg, states, steps);
    states, steps := Peeking(cfg, states, steps);
    states, steps := Peeking(cfg, states, steps);
  }

  /** A thread outside the monitor resets the bit, or waits and blocks; the others stay where they are. */
  lemma Visit(cfg: Config, states: seq<State>, steps: seq<Step>, t: nat, call: Call)
      returns (states': seq<State>, steps': seq<Step>)
    requires IsRun(cfg, states, steps) && !Final(states).mutex && Allowed(cfg, call)
    requires t < |Final(states).pcs| && Final(states).pcs[t].Outside?
    requires call.Reset? || (call.Wait? && !Final(states).bit)
    ensures IsRun(cfg, states', steps')
    ensures var s := Final(states);
      Final(states') == State(false, false, s.pcs[t := if call.Reset? then Outside else Blocked(call)], s.completed, s.sets)
  {
    hide IsRun;
    states', steps' := Extend(cfg, states, steps, Enter(t, call));
    states', steps' := Extend(cfg, states', steps', Act(t));
    if call.Reset? {
      states', steps' := Extend(cfg, states', steps', Leave(t));
    }
  }

  /** Threads 0 and 1 block; thread 2 sets the bit, and its signal goes to thread 0. */
  lemma TwoBlockedOneWoken(cfg: Config, first: Call)
      returns (states: seq<State>, steps: seq<Step>)
    requires first.Wait? && Allowed(cfg, first)
    ensures IsRun(cfg, states, steps)
    ensures Final(states) == State(true, false, [Woken(first), Blocked(Wait(false, false)), Outside], 0, 1)
  {
    hide IsRun, Possible, Next;
    states, steps := [Idle(cfg.initial, 0, 0)], [];
    StartsRun(cfg);
    states, steps := Visit(cfg, states, steps, 2, Reset);
    assert Final(states).pcs == [Outside, Outside, Outside];
    states, steps := Visit(cfg, states, steps, 0, first);
    assert Final(states).pcs == [Blocked(first), Outside, Outside];
    states, steps := Visit(cfg, states, steps, 1, Wait(false, false));
    assert Final(states).pcs == [Blocked(first), Blocked(Wait(false, false)), Outside];
    states, steps := SetWakes(cfg, states, steps, first);
  }

  lemma SetWakes(cfg: Config, states: seq<State>, steps: seq<Step>, first: Call)
      returns (states': seq<State>, steps': seq<Step>)
    requires IsRun(cfg, states, steps)
    requires Final(states) == State(false, false, [Blocked(first), Blocked(Wait(false, false)), Outside], 0, 0)
    ensures IsRun(cfg, states', steps')
    ensures Final(states') == State(true, false, [Woken(first), Blocked(Wait(false, false)), Outside], 0, 1)
  {
    hide IsRun;
    states', steps' := Extend(cfg, states, steps, Enter(2, Set));
    assert Final(states').pcs == [Blocked(first), Blocked(Wait(false, false)), Inside(Set, false)];
    states', steps' := Extend(cfg, states', steps', Act(2));
    assert Final(states').pcs == [Blocked(first), Blocked(Wait(false, false)), Signalling];
    states', steps' := Extend(cfg, states', steps', Signal(2, 0));
    assert Final(states').pcs == [Woken(first), Blocked(Wait(false, false)), Leaving];
    states', steps' := Extend(cfg, states', steps', Leave(2));
  }

  lemma StartsRun(cfg: Config)
    ensures IsRun(cfg, [Idle(cfg.initial, 0, 0)], [])
  {
  }

  /** The woken waiter leaves the bit set, or gives up: the other one sleeps on beside a set bit. */
  lemma SignalGetsLost(cfg: Config) returns (states: seq<State>, steps: seq<Step>)
    requires cfg.peeks || cfg.timeouts
    ensures IsRun(cfg, states, steps) && !NoLostSignal(Final(states))
  {
    hide IsRun;
    if cfg.peeks {
      states, steps := TwoBlockedOneWoken(cfg, Wait(true, false));
      states, steps := Extend(cfg, states, steps, Reacquire(0));
      states, steps := Extend(cfg, states, steps, Act(0));
      states, steps := Extend(cfg, states, steps, Leave(0));
    } else {
      states, steps := TwoBlockedOneWoken(cfg, Wait(false, true));
      states, steps := Extend(cfg, states, steps, Expire(0));
    }
    assert Final(states).pcs[1].Blocked?;
  }

  /** Waits are conserved in every run exactly when every wait consumes. */
  lemma ConservedIff(cfg: Config)
    ensures (forall states, steps :: IsRun(cfg, states, steps) ==> Conserved(cfg, Final(states))) <==> !cfg.peeks
  {
    hide Next, Possible, Init;
    if cfg.peeks {
      var states, steps := PeeksOvercount(cfg);
    } else {
      forall states, steps | IsRun(cfg, states, steps)
        ensures Conserved(cfg, Final(states))
      {
        RunCounts(cfg, states, steps);
      }
    }
  }

  lemma RunCounts(cfg: Config, states: seq<State>, steps: seq<Step>)
    requires IsRun(cfg, states, steps) && !cfg.peeks
    ensures Conserved(cfg, Final(states))
  {
    RunInv(cfg, states, steps, |steps|);
  }

  /** No signal is ever lost exactly when every wait consumes and none gives up. */
  lemma NoLostSignalIff(cfg: Config)
    ensures (forall states, steps :: IsRun(cfg, states, steps) ==> NoLostSignal(Final(states)))
       <==> !cfg.peeks && !cfg.timeouts
  {
    hide Next, Possible, Init;
    if cfg.peeks || cfg.timeouts {
      var states, steps := SignalGetsLost(cfg);
    } else {
      forall states, steps | IsRun(cfg, states, steps)
        ensures NoLostSignal(Final(states))
      {
        RunSignals(cfg, states, steps);
      }
    }
  }

  lemma RunSignals(cfg: Config, states: seq<State>, steps: seq<Step>)
    requires IsRun(cfg, states, steps) && !cfg.peeks && !cfg.timeouts
    ensures NoLostSignal(Final(states))
  {
    RunInv(cfg, states, steps, |steps|);
  }
}
