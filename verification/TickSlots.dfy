/** One slot of the tick table as a value, and the arithmetic of its counter. */
module TickSlots {
  import opened Messages

  const NTICKS := 32
  const TIME_TICK := 100
  const WORD := 0x1_0000_0000

  datatype TickSlot = TickSlot(hsm: u32, n100msec: u32, count: u32, param2: u32, sysflag: s32)

  /** count * time_tick >= n100msec, in 32-bit unsigned arithmetic. */
  predicate Due(n: u32, count: u32) {
    (count * TIME_TICK) % WORD >= n
  }

  function Increment(count: u32): u32 {
    (count + 1) % WORD
  }

  /** The message the ticker looks for, and the one it then sends. */
  function Probe(slot: TickSlot, i: nat): Message
    requires i < NTICKS
  {
    Message(slot.hsm, SMM_TICK, i + 1, slot.count)
  }

  function Notice(slot: TickSlot, i: nat): Message
    requires i < NTICKS
  {
    Message(slot.hsm, SMM_TICK, i + 1, if slot.param2 != 0 then slot.param2 else slot.count)
  }

  /** The lowest free slot, or NTICKS. */
  function FirstFree(slots: seq<TickSlot>, from: nat := 0): (i: nat)
    requires from <= |slots|
    ensures from <= i <= |slots|
    ensures i < |slots| ==> slots[i].hsm == SK_INVALID_HSM
    ensures forall j :: from <= j < i ==> slots[j].hsm != SK_INVALID_HSM
    decreases |slots| - from
  {
    if from == |slots| || slots[from].hsm == SK_INVALID_HSM then from
    else FirstFree(slots, from + 1)
  }

  /** sm_set_xtick. */
  function SetSlot(slots: seq<TickSlot>, slot: TickSlot): seq<TickSlot> {
    var i := FirstFree(slots);
    if i < |slots| then slots[i := slot] else slots
  }

  /** sm_destroy_tick. */
  function DropSlot(slots: seq<TickSlot>, htick: s32): seq<TickSlot> {
    if 0 < htick <= |slots| then slots[htick - 1 := slots[htick - 1].(hsm := SK_INVALID_HSM)] else slots
  }

  /** The destroyed slot is free and available again; no other slot changes, and a number out of range changes none. */
  lemma DropExact(slots: seq<TickSlot>, htick: s32)
    requires |slots| == NTICKS
    ensures |DropSlot(slots, htick)| == NTICKS
    ensures forall j :: 0 <= j < NTICKS && j + 1 != htick ==> DropSlot(slots, htick)[j] == slots[j]
    ensures 1 <= htick <= NTICKS ==> DropSlot(slots, htick)[htick - 1].hsm == 0
    ensures 1 <= htick <= NTICKS ==> FirstFree(DropSlot(slots, htick)) <= htick - 1
    ensures !(1 <= htick <= NTICKS) ==> DropSlot(slots, htick) == slots
  {
  }

  /** One round's effect on the counter of a slot. */
  function AfterRound(slot: TickSlot): TickSlot {
    if slot.hsm == SK_INVALID_HSM then slot
    else slot.(count := Increment(if Due(slot.n100msec, slot.count) then 0 else slot.count))
  }

  /** A slot after t rounds, and how often it has reached its threshold by then. */
  function SlotAfter(slot: TickSlot, t: nat): TickSlot {
    if t == 0 then slot else AfterRound(SlotAfter(slot, t - 1))
  }

  function Firings(slot: TickSlot, t: nat): nat {
    if t == 0 then 0
    else
      var before := SlotAfter(slot, t - 1);
      Firings(slot, t - 1) + if before.hsm != SK_INVALID_HSM && Due(before.n100msec, before.count) then 1 else 0
  }

  /** The number of 100 ms rounds in a period, rounded up. */
  function Period(n: u32): nat {
    (n + TIME_TICK - 1) / TIME_TICK
  }

  /** Below the last multiple of 100 in 32 bits, the product never wraps and the threshold is the period. */
  lemma DueAtPeriod(n: u32, k: u32)
    requires 1 <= n <= 4294967200 && k <= Period(n)
    ensures k * TIME_TICK < WORD
    ensures Due(n, k) <==> k == Period(n)
  {
  }

  lemma {:induction false} CycleOf(t: nat, c: nat)
    requires c >= 1
    ensures (t + 1) / c == (if t % c == c - 1 then t / c + 1 else t / c)
    ensures (t + 1) % c == (if t % c == c - 1 then 0 else t % c + 1)
  {
    var q, r := t / c, t % c;
    assert t == q * c + r;
    if r == c - 1 {
      assert t + 1 == (q + 1) * c;
      DivModUnique(t + 1, c, q + 1, 0);
    } else {
      DivModUnique(t + 1, c, q, r + 1);
    }
  }

  lemma DivModUnique(x: nat, c: nat, q: nat, r: nat)
    requires c >= 1 && r < c && x == q * c + r
    ensures x / c == q && x % c == r
  {
    var q', r' := x / c, x % c;
    assert (q - q') * c == r' - r && 0 <= r' < c;
    if q' < q {
      MultipleAtLeast(q - q', c);
    } else if q < q' {
      MultipleAtLeast(q' - q, c);
    }
  }

  lemma MultipleAtLeast(a: nat, c: nat)
    requires a >= 1
    ensures a * c >= c
  {
  }

  lemma PeriodPositive(n: u32)
    requires n >= 1
    ensures 1 <= Period(n) < WORD
  {
  }

  /** Tick timing in closed form, for every period that 32 bits can count; every firing sees the period. */
  lemma {:induction false} TickTiming(slot: TickSlot, t: nat)
    requires slot.hsm != SK_INVALID_HSM && slot.count == 0
    requires 1 <= slot.n100msec <= 4294967200 && t >= 1
    ensures SlotAfter(slot, t) == slot.(count := (t - 1) % Period(slot.n100msec) + 1)
    ensures Firings(slot, t) == (t - 1) / Period(slot.n100msec)
  {
    hide Due, Period;
    var n, c := slot.n100msec, Period(slot.n100msec);
    PeriodPositive(n);
    if t == 1 {
      DueAtPeriod(n, 0);
      assert SlotAfter(slot, 0) == slot && Firings(slot, 0) == 0;
      DivModUnique(0, c, 0, 0);
    } else {
      TickTiming(slot, t - 1);
      CycleOf(t - 2, c);
      DueAtPeriod(n, SlotAfter(slot, t - 1).count);
    }
  }

  /** Every firing sees the period in the counter, and the product has not wrapped. */
  lemma FiringSeesPeriod(slot: TickSlot, t: nat)
    requires slot.hsm != SK_INVALID_HSM && slot.count == 0
    requires 1 <= slot.n100msec <= 4294967200 && t >= 1
    ensures var k := SlotAfter(slot, t).count;
      k * TIME_TICK < WORD && (Due(slot.n100msec, k) <==> k == Period(slot.n100msec))
  {
    TickTiming(slot, t);
    DueAtPeriod(slot.n100msec, SlotAfter(slot, t).count);
  }

  /** A count at which a slot may fire: due, and not due at any earlier nonzero count. */
  predicate FirstDue(n: u32, k: u32) {
    && Due(n, k)
    && (forall j: u32 :: 1 <= j < k ==> !Due(n, j))
  }

  lemma FirstDueUnique(n: u32, a: u32, b: u32)
    requires n >= 1 && FirstDue(n, a) && FirstDue(n, b)
    ensures a == b
  {
    assert !Due(n, 0);
  }

  /** Period counts are reached on time exactly when rounding up does not overflow 32 bits. */
  lemma DueOnTimeIff(n: u32)
    requires n >= 1
    ensures FirstDue(n, Period(n)) <==> n <= 4294967200
  {
    if n <= 4294967200 {
      forall j: u32 | 1 <= j <= Period(n)
        ensures Due(n, j) <==> j == Period(n)
      {
        DueAtPeriod(n, j);
      }
    }
  }

  /** A param2 that leaves de-duplication intact: none, or the one count at which the slot fires. */
  predicate Agrees(n: u32, param2: u32) {
    param2 == 0 || (n >= 1 && forall k: u32 :: 0 <= k < WORD && FirstDue(n, k) ==> k == param2)
  }

  /** For every period reached on time these are 0 and the period itself. */
  lemma AgreesIff(n: u32, param2: u32)
    requires n <= 4294967200
    ensures Agrees(n, param2) <==> param2 == 0 || param2 == Period(n)
  {
    if n >= 1 {
      DueOnTimeIff(n);
      PeriodPositive(n);
      forall k: u32 | FirstDue(n, k)
        ensures k == Period(n)
      {
        FirstDueUnique(n, k, Period(n));
      }
    }
  }

  /** A slot that fires then sends the very message that it looked for. */
  lemma NoticeIsProbe(slot: TickSlot, i: nat)
    requires i < NTICKS && FirstDue(slot.n100msec, slot.count) && Agrees(slot.n100msec, slot.param2)
    ensures Notice(slot, i) == Probe(slot, i)
  {
  }
}
