/** The circular buffer of smmsg.c as a value: `size` slots, 16-bit head and tail, one slot kept free. */
module Rings {
  import opened Messages

  /** Assignment of an int to a signed 16-bit field. */
  function ToS16(x: int): int {
    (x + 0x8000) % 0x1_0000 - 0x8000
  }

  datatype Ring = Ring(slots: seq<Message>, head: int, tail: int)

  predicate Valid(r: Ring) {
    && 1 <= |r.slots| <= 0x7FFF
    && 0 <= r.head < |r.slots|
    && 0 <= r.tail < |r.slots|
  }

  /** The queued messages, oldest first. */
  function Contents(r: Ring): seq<Message>
    requires Valid(r)
  {
    if r.head <= r.tail then r.slots[r.head..r.tail]
    else r.slots[r.head..] + r.slots[..r.tail]
  }

  /** The increment of a 16-bit index followed by the wrap test. */
  function NextIndex(size: int, i: int): int {
    var j := ToS16(i + 1);
    if j == size then 0 else j
  }

  lemma NextIndexPlain(size: int, i: int)
    requires 0 <= i < size <= 0x7FFF
    ensures NextIndex(size, i) == if i + 1 == size then 0 else i + 1
  {
  }

  /** The two-case full test of push_message. */
  predicate Full(r: Ring) {
    var def := r.head - r.tail;
    def == 1 || def == -(|r.slots| - 1)
  }

  function Store(r: Ring, m: Message): Ring
    requires Valid(r)
  {
    r.(slots := r.slots[r.tail := m])
  }

  function Publish(r: Ring): Ring {
    r.(tail := NextIndex(|r.slots|, r.tail))
  }

  function Discard(r: Ring): Ring {
    r.(head := NextIndex(|r.slots|, r.head))
  }

  /** The erase loops run over every slot, live or dead. */
  function EraseSlots(e: Eraser, r: Ring): Ring {
    r.(slots := Erase(e, r.slots))
  }

  /** The slot holding the p-th queued message. */
  function SlotOf(r: Ring, p: nat): int {
    if r.head + p < |r.slots| then r.head + p else r.head + p - |r.slots|
  }

  lemma ContentsAt(r: Ring, p: nat)
    requires Valid(r) && p <= |Contents(r)|
    ensures 0 <= SlotOf(r, p) < |r.slots|
    ensures SlotOf(r, p) == r.tail <==> p == |Contents(r)|
    ensures p < |Contents(r)| ==> Contents(r)[p] == r.slots[SlotOf(r, p)]
    ensures p < |Contents(r)| ==> NextIndex(|r.slots|, SlotOf(r, p)) == SlotOf(r, p + 1)
  {
  }

  lemma EmptyExact(r: Ring)
    requires Valid(r)
    ensures Contents(r) == [] <==> r.head == r.tail
  {
  }

  /** The test accepts exactly when fewer than size - 1 messages are queued. */
  lemma FullExact(r: Ring)
    requires Valid(r)
    ensures |Contents(r)| <= |r.slots| - 1
    ensures Full(r) <==> |Contents(r)| == |r.slots| - 1
  {
  }

  lemma StoreInvisible(r: Ring, m: Message)
    requires Valid(r)
    ensures Valid(Store(r, m))
    ensures Contents(Store(r, m)) == Contents(r)
    ensures Full(Store(r, m)) <==> Full(r)
  {
  }

  lemma SliceGrows<T>(s: seq<T>, a: nat, b: nat)
    requires a <= b < |s|
    ensures s[a..b + 1] == s[a..b] + [s[b]]
  {
  }

  lemma PublishAppends(r: Ring)
    requires Valid(r) && !Full(r)
    ensures Valid(Publish(r))
    ensures Contents(Publish(r)) == Contents(r) + [r.slots[r.tail]]
  {
    hide NextIndex;
    NextIndexPlain(|r.slots|, r.tail);
    var s, last := r.slots, [r.slots[r.tail]];
    if r.head > r.tail {
      SliceGrows(s, 0, r.tail);
      assert s[r.head..] + (s[..r.tail] + last) == (s[r.head..] + s[..r.tail]) + last;
    } else {
      SliceGrows(s, r.head, r.tail);
      if r.tail + 1 == |s| {
        assert Contents(Publish(r)) == s[r.head..] + [] == s[r.head..|s|];
      }
    }
  }

  lemma DiscardDropsFirst(r: Ring)
    requires Valid(r) && r.head != r.tail
    ensures Valid(Discard(r))
    ensures Contents(r) == [r.slots[r.head]] + Contents(Discard(r))
  {
    hide NextIndex;
    NextIndexPlain(|r.slots|, r.head);
    var n := Discard(r);
    if r.head > r.tail && n.head == 0 {
      assert r.slots[r.head..] == [r.slots[r.head]];
    }
  }

  lemma EraseSlotsErases(e: Eraser, r: Ring)
    requires Valid(r)
    ensures Valid(EraseSlots(e, r))
    ensures Contents(EraseSlots(e, r)) == Erase(e, Contents(r))
  {
  }

  /** Dead slots carry no information: rings that agree on the live part agree on their contents. */
  lemma DeadSlotsInvisible(r: Ring, other: Ring)
    requires Valid(r) && Valid(other)
    requires r.head == other.head && r.tail == other.tail && |r.slots| == |other.slots|
    requires forall p: nat :: p < |Contents(r)| ==> r.slots[SlotOf(r, p)] == other.slots[SlotOf(r, p)]
    ensures Contents(other) == Contents(r)
  {
    assert |Contents(other)| == |Contents(r)|;
    forall p | 0 <= p < |Contents(r)|
      ensures Contents(other)[p] == Contents(r)[p]
    {
      ContentsAt(r, p);
      ContentsAt(other, p);
    }
  }

  /** Popping the ring until it is empty, as the dispatcher does, dropping blank entries. */
  function Drain(r: Ring): seq<Message>
    requires Valid(r)
    decreases |Contents(r)|
  {
    if r.head == r.tail then []
    else
      DiscardDropsFirst(r);
      (if r.slots[r.head].hsm != SK_INVALID_HSM then [r.slots[r.head]] else []) + Drain(Discard(r))
  }

  lemma {:induction false} DrainIsDispatched(r: Ring)
    requires Valid(r)
    ensures Drain(r) == Dispatched(Contents(r))
    decreases |Contents(r)|
  {
    if r.head != r.tail {
      DiscardDropsFirst(r);
      DrainIsDispatched(Discard(r));
      assert Contents(r)[1..] == Contents(Discard(r));
    }
  }

  /** Draining after an erase yields the original drain without the erased messages; the ring keeps its room. */
  lemma DrainAfterErase(e: Eraser, r: Ring)
    requires Valid(r) && !e.OfMessage?
    ensures Valid(EraseSlots(e, r))
    ensures Drain(EraseSlots(e, r)) == Spared(e, Drain(r))
    ensures |Contents(EraseSlots(e, r))| == |Contents(r)|
    ensures Full(EraseSlots(e, r)) <==> Full(r)
  {
    EraseSlotsErases(e, r);
    DrainIsDispatched(r);
    DrainIsDispatched(EraseSlots(e, r));
    EraseIsFilter(e, Contents(r));
  }

  /** The index after `steps` advances from a fresh queue. */
  function Walk(size: int, steps: nat): int {
    if steps == 0 then 0 else NextIndex(size, Walk(size, steps - 1))
  }

  predicate WalkInside(nqueue: int, steps: nat) {
    0 <= Walk(nqueue + 1, steps) < nqueue + 1
  }

  lemma {:induction false} WalkBeforeWrap(size: int, steps: nat)
    requires 0x8000 <= size && steps <= 0x7FFF
    ensures Walk(size, steps) == steps
  {
    if steps > 0 {
      WalkBeforeWrap(size, steps - 1);
    }
  }

  lemma {:induction false} WalkInRange(nqueue: int, steps: nat)
    requires 0 <= nqueue <= 0x7FFE
    ensures WalkInside(nqueue, steps)
  {
    if steps > 0 {
      WalkInRange(nqueue, steps - 1);
    }
  }

  /**
   * The 16-bit indices stay inside the buffer for ever exactly when at most 32766 messages may be queued.
   * With 32767 or more the 32768th advance lands on -32768 and never meets the wrap test.
   */
  lemma IndexBound(nqueue: s32)
    requires 0 <= nqueue
    ensures (forall steps: nat :: WalkInside(nqueue, steps)) <==> nqueue <= 0x7FFE
  {
    if nqueue <= 0x7FFE {
      forall steps: nat
        ensures WalkInside(nqueue, steps)
      {
        WalkInRange(nqueue, steps);
      }
    } else {
      WalkBeforeWrap(nqueue + 1, 0x7FFF);
      assert !WalkInside(nqueue, 0x8000);
    }
  }
}
