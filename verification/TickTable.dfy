/** smtick.c: the tick table, updated in place, and one round of the ticker. */
module TickTables {
  import opened Messages
  import opened Rings
  import opened MessageQueues
  import opened TickSlots

  /** What the ticker does to the queue for slot i. */
  function Fire(capacity: int, slot: TickSlot, i: nat, q: seq<Message>): seq<Message>
    requires i < NTICKS
  {
    if slot.hsm != SK_INVALID_HSM && Due(slot.n100msec, slot.count) && Probe(slot, i) !in q
    then Pushed(capacity, q, Notice(slot, i))
    else q
  }

  /** The queue after the first k slots of a round. */
  function RoundQueue(capacity: int, slots: seq<TickSlot>, k: nat, q: seq<Message>): seq<Message>
    requires k <= |slots| == NTICKS
  {
    if k == 0 then q else Fire(capacity, slots[k - 1], k - 1, RoundQueue(capacity, slots, k - 1, q))
  }

  /** What slot i looks for, and what it sends. */
  predicate Sends(slot: TickSlot, i: nat, x: Message) {
    x == Message(slot.hsm, 0x2000_0002, (i + 1) % WORD, if slot.param2 != 0 then slot.param2 else slot.count)
  }

  /** By the fields alone: the slot is in use, and its product has reached the threshold. */
  predicate DueNow(slot: TickSlot) {
    slot.hsm != 0 && (slot.count * 100) % 0x1_0000_0000 >= slot.n100msec
  }

  function Counted(slot: TickSlot): TickSlot {
    if slot.hsm == 0 then slot
    else if DueNow(slot) then slot.(count := 1)
    else slot.(count := (slot.count + 1) % 0x1_0000_0000)
  }

  class TickTable {
    const slots: array<TickSlot>

    ghost predicate Valid() {
      slots.Length == NTICKS
    }

    /** sm_tick_init. */
    constructor ()
      ensures Valid() && fresh(slots)
      ensures forall i :: 0 <= i < NTICKS ==> slots[i] == TickSlot(0, 0, 0, 0, 0)
    {
      slots := new TickSlot[NTICKS](_ => TickSlot(0, 0, 0, 0, 0));
    }

    method SetXTick(hsm: u32, n100msec: u32, param2: u32, sysflag: s32) returns (r: s32)
      requires Valid()
      modifies slots
      ensures slots[..] == SetSlot(old(slots[..]), TickSlot(hsm, n100msec, 0, param2, sysflag))
      ensures r == (var i := FirstFree(old(slots[..])); if i < NTICKS then i + 1 else 0)
      ensures 0 <= r <= NTICKS
      ensures r > 0 ==> old(slots[r - 1]).hsm == 0 && slots[r - 1] == TickSlot(hsm, n100msec, 0, param2, sysflag)
      ensures forall j :: 0 <= j < (if r == 0 then NTICKS else r - 1) ==> old(slots[j]).hsm != 0
      ensures forall j :: 0 <= j < NTICKS && j != r - 1 ==> slots[j] == old(slots[j])
    {
      var i := 0;
      while i < NTICKS
        invariant 0 <= i <= NTICKS && slots[..] == old(slots[..])
        invariant FirstFree(slots[..]) == FirstFree(slots[..], i)
      {
        if slots[i].hsm == 0 {
          slots[i] := TickSlot(hsm, n100msec, 0, param2, sysflag);
          break;
        }
        i := i + 1;
      }
      if i != NTICKS {
        return i + 1;
      }
      return 0;
    }

    method CreateTick(hsm: u32, ms: u32) returns (r: s32)
      requires Valid()
      modifies slots
      ensures slots[..] == SetSlot(old(slots[..]), TickSlot(hsm, ms, 0, 0, 0))
      ensures r == (var i := FirstFree(old(slots[..])); if i < NTICKS then i + 1 else 0)
      ensures 0 <= r <= NTICKS
      ensures r > 0 ==> old(slots[r - 1]).hsm == 0 && slots[r - 1] == TickSlot(hsm, ms, 0, 0, 0)
      ensures forall j :: 0 <= j < NTICKS && j != r - 1 ==> slots[j] == old(slots[j])
    {
      r := SetXTick(hsm, ms, 0, 0);
    }

    /** The table's part of sm_destroy_tick; for its two locks see EngineDeadlock. */
    method DestroyTick(htick: s32)
      requires Valid()
      modifies slots
      ensures slots[..] == DropSlot(old(slots[..]), htick)
      ensures forall j :: 0 <= j < NTICKS && j + 1 != htick ==> slots[j] == old(slots[j])
      ensures 1 <= htick <= NTICKS ==> slots[htick - 1] == old(slots[htick - 1]).(hsm := 0)
    {
      if htick > 0 && htick <= NTICKS {
        slots[htick - 1] := slots[htick - 1].(hsm := SK_INVALID_HSM);
      }
    }

    /** One round of sm_ticker, with nothing in between. */
    method Round(queue: MessageQueue)
      requires Valid() && queue.Valid()
      modifies slots, queue, queue.queue
      ensures queue.Valid()
      ensures queue.Live() == RoundQueue(queue.queueSize - 1, old(slots[..]), NTICKS, old(queue.Live()))
      ensures forall i :: 0 <= i < NTICKS ==> slots[i] == AfterRound(old(slots[i]))
      ensures forall i :: 0 <= i < NTICKS ==> slots[i] == Counted(old(slots[i]))
    {
      hide Contents, Rings.Valid;
      var i := 0;
      while i < NTICKS
        invariant 0 <= i <= NTICKS && queue.Valid()
        invariant queue.Live() == RoundQueue(queue.queueSize - 1, old(slots[..]), i, old(queue.Live()))
        invariant forall k :: 0 <= k < i ==> slots[k] == AfterRound(old(slots[k]))
        invariant forall k :: i <= k < NTICKS ==> slots[k] == old(slots[k])
      {
        if slots[i].hsm != 0 {
          if (slots[i].count * TIME_TICK) % WORD >= slots[i].n100msec {
            var found := queue.IsMessageParam(slots[i].hsm, SMM_TICK, i + 1, slots[i].count);
            if found == 0 {
              if slots[i].param2 != 0 {
                var r := queue.Push(slots[i].hsm, SMM_TICK, i + 1, slots[i].param2);
              } else {
                var r := queue.Push(slots[i].hsm, SMM_TICK, i + 1, slots[i].count);
              }
            }
            slots[i] := slots[i].(count := 0);
          }
          slots[i] := slots[i].(count := Increment(slots[i].count));
        }
        i := i + 1;
      }
    }
  }

  /**
   * A round into a queue with room: it only appends; all it appends are the ticks of due slots; and every due
   * slot whose tick is not queued gets its tick in.
   */
  lemma {:induction false} RoundExact(capacity: int, slots: seq<TickSlot>, k: nat, q: seq<Message>)
    requires k <= |slots| == NTICKS && |q| + k <= capacity
    ensures q <= RoundQueue(capacity, slots, k, q) && |RoundQueue(capacity, slots, k, q)| <= |q| + k
    ensures forall x :: x in RoundQueue(capacity, slots, k, q) && x !in q ==>
      exists i :: 0 <= i < k && DueNow(slots[i]) && Sends(slots[i], i, x)
    ensures forall i :: 0 <= i < k && DueNow(slots[i]) && Message(slots[i].hsm, 0x2000_0002, i + 1, slots[i].count) !in q ==>
      exists x :: x in RoundQueue(capacity, slots, k, q) && Sends(slots[i], i, x)
  {
    if k > 0 {
      RoundExact(capacity, slots, k - 1, q);
      var before, after := RoundQueue(capacity, slots, k - 1, q), RoundQueue(capacity, slots, k, q);
      var last, note := slots[k - 1], Notice(slots[k - 1], k - 1);
      assert Sends(last, k - 1, note);
      assert after == before || after == before + [note];
      assert before <= after;
      assert after == before + [note] ==> DueNow(last);
      forall i | 0 <= i < k && DueNow(slots[i]) && Message(slots[i].hsm, 0x2000_0002, i + 1, slots[i].count) !in q
        ensures exists x :: x in after && Sends(slots[i], i, x)
      {
        if i < k - 1 {
          var x :| x in before && Sends(slots[i], i, x);
          assert x in after;
        } else {
          var probe := Message(last.hsm, 0x2000_0002, k, last.count);
          if probe in before {
            var j :| 0 <= j < k - 1 && DueNow(slots[j]) && Sends(slots[j], j, probe);
            assert false;
          }
          assert after[|before|] == note;
        }
      }
    }
  }

  /**
   * The check looks for the count, the send carries param2. Firing twice at one count leaves one message exactly
   * when param2 is 0 or that count, which for a slot that fires on time is its period.
   */
  lemma FireTwice(capacity: nat, slot: TickSlot, i: nat)
    requires capacity >= 2 && i < NTICKS && slot.hsm != SK_INVALID_HSM && Due(slot.n100msec, slot.count)
    ensures var q := Fire(capacity, slot, i, Fire(capacity, slot, i, []));
      && (q == [Notice(slot, i)] <==> slot.param2 == 0 || slot.param2 == slot.count)
      && (q != [Notice(slot, i)] ==> q == [Notice(slot, i), Notice(slot, i)])
      && (1 <= slot.n100msec <= 4294967200 && FirstDue(slot.n100msec, slot.count) ==>
            (q == [Notice(slot, i)] <==> slot.param2 == 0 || slot.param2 == Period(slot.n100msec)))
  {
    var q1 := Fire(capacity, slot, i, []);
    assert q1 == [Notice(slot, i)];
    assert Probe(slot, i) in q1 <==> Probe(slot, i) == Notice(slot, i);
    if 1 <= slot.n100msec <= 4294967200 && FirstDue(slot.n100msec, slot.count) {
      DueOnTimeIff(slot.n100msec);
      PeriodPositive(slot.n100msec);
      FirstDueUnique(slot.n100msec, slot.count, Period(slot.n100msec));
    }
  }
}
