/** smmsg.c: the message queue, updated in place, refining a sequence of messages. */
module MessageQueues {
  import opened Messages
  import opened Rings

  /** The queue after one push_message: accepted when there is room and the handle is valid. */
  function Pushed(capacity: int, q: seq<Message>, m: Message): seq<Message> {
    if m.hsm != SK_INVALID_HSM && |q| < capacity then q + [m] else q
  }

  /** What is_message answers for a queue. */
  predicate Mentions(q: seq<Message>, hsm: u32) {
    hsm != SK_INVALID_HSM && exists i :: 0 <= i < |q| && q[i].hsm == hsm
  }

  class MessageQueue {
    const queueSize: int
    const queue: array<Message>
    var head: int
    var tail: int
    var event: nat  // the value of the semaphore sem_event

    ghost predicate Valid()
      reads this, queue
    {
      queue.Length == queueSize && Rings.Valid(State())
    }

    ghost function State(): Ring
      reads this, queue
    {
      Ring(queue[..], head, tail)
    }

    ghost function Live(): seq<Message>
      reads this, queue
      requires Valid()
    {
      Contents(State())
    }

    /** Fresh slots hold whatever the allocator left in them. The indices fit in 16 bits up to 32766 messages. */
    constructor (nqueue: s32)
      requires 0 <= nqueue < 0x7FFF_FFFF
      ensures fresh(queue) && queueSize == queue.Length == nqueue + 1 && head == tail == 0 && event == 0
      ensures Valid() <==> nqueue <= 0x7FFE
      ensures Valid() ==> Live() == []
    {
      queueSize := nqueue + 1;
      head, tail := 0, 0;
      queue := new Message[nqueue + 1];
      event := 0;
    }

    method Push(hsm: u32, message: u32, param1: u32, param2: u32) returns (r: s32)
      requires Valid()
      modifies this, queue
      ensures Valid()
      ensures Live() == Pushed(queueSize - 1, old(Live()), Message(hsm, message, param1, param2))
      ensures r == 1 <==> hsm != 0 && old(|Live()|) < queueSize - 1
      ensures r == 1 ==> Live() == old(Live()) + [Message(hsm, message, param1, param2)]
      ensures r != 1 ==> r == 0 && Live() == old(Live())
      ensures State() == if r == 1 then Publish(Store(old(State()), Message(hsm, message, param1, param2))) else old(State())
      ensures event == old(event) + r
    {
      r := 1;
      if hsm == SK_INVALID_HSM {
        return 0;
      }
      ghost var before := State();
      FullExact(before);
      var def := head - tail;
      if def != 1 && def != -(queueSize - 1) {
        var m := Message(hsm, message, param1, param2);
        StoreInvisible(before, m);
        PublishAppends(Store(before, m));
        queue[tail] := m;
        event := event + 1;
        tail := ToS16(tail + 1);
        if tail == queueSize {
          tail := 0;
        }
        assert State() == Publish(Store(before, m));
      } else {
        r := 0;
      }
    }

    /**
     * `waited` tells whether the wait on sem_event succeeded and so took a token. `out` is what the
     * caller's cells held before the call; an empty queue leaves them alone.
     */
    method Pop(waited: bool, out: Message) returns (r: s32, got: Message)
      requires Valid()
      requires waited ==> event > 0
      modifies this
      ensures Valid() && State() == if r == 1 then Discard(old(State())) else old(State())
      ensures old(Live()) == [] ==> r == 0 && got == out && Live() == []
      ensures old(Live()) != [] ==> r == 1 && [got] + Live() == old(Live())
      ensures event - |Live()| == old(event - |Live()|) + if waited then 0 else 1
    {
      hide Contents;
      if waited {
        event := event - 1;
      }
      ghost var before := State();
      EmptyExact(before);
      if head != tail {
        DiscardDropsFirst(before);
        got := queue[head];
        head := ToS16(head + 1);
        if head == queueSize {
          head := 0;
        }
        assert State() == Discard(before);
        r := 1;
      } else {
        got := out;
        r := 0;
        event := event + 1;
      }
    }

    method IsMessage(hsm: u32) returns (r: s32)
      requires Valid()
      ensures r == if Mentions(Live(), hsm) then 1 else 0
      ensures r == 1 <==> hsm != 0 && exists i :: 0 <= i < |Live()| && Live()[i].hsm == hsm
    {
      hide Contents;
      r := 0;
      if hsm == SK_INVALID_HSM {
        return;
      }
      var i := head;
      ghost var p := 0;
      ContentsAt(State(), 0);
      while i != tail
        invariant 0 <= p <= |Live()| && i == SlotOf(State(), p) && 0 <= i < queueSize
        invariant i == tail <==> p == |Live()|
        invariant forall k :: 0 <= k < p ==> Live()[k].hsm != hsm
        decreases |Live()| - p
      {
        ContentsAt(State(), p);
        var x := queue[i];
        i := i + 1;
        if x.hsm == hsm {
          r := 1;
          return;
        }
        if i == queueSize {
          i := 0;
        }
        p := p + 1;
        ContentsAt(State(), p);
      }
    }

    method IsMessageParam(hsm: u32, message: u32, param1: u32, param2: u32) returns (r: s32)
      requires Valid()
      ensures r == if Message(hsm, message, param1, param2) in Live() then 1 else 0
    {
      hide Contents;
      r := 0;
      var i := head;
      ghost var p := 0;
      ContentsAt(State(), 0);
      while i != tail
        invariant 0 <= p <= |Live()| && i == SlotOf(State(), p) && 0 <= i < queueSize
        invariant i == tail <==> p == |Live()|
        invariant Message(hsm, message, param1, param2) !in Live()[..p]
        decreases |Live()| - p
      {
        ContentsAt(State(), p);
        if queue[i].hsm == hsm {
          if queue[i].message == message {
            if queue[i].param1 == param1 {
              if queue[i].param2 == param2 {
                assert Live()[p] in Live();
                r := 1;
                return;
              }
            }
          }
        }
        i := i + 1;
        if i == queueSize {
          i := 0;
        }
        p := p + 1;
        ContentsAt(State(), p);
      }
    }

    method GetNMessage() returns (n: s32)
      requires Valid()
      ensures n == |Live()|
    {
      if head == tail {
        n := 0;
      } else if head < tail {
        n := tail - head;
      } else {
        n := (queueSize - head) + tail;
      }
    }

    method InvalidateMessage(message: u32)
      requires Valid()
      modifies queue
      ensures Valid() && State() == EraseSlots(OfMessage(message), old(State()))
      ensures Live() == Erase(OfMessage(message), old(Live())) && |Live()| == |old(Live())|
      ensures forall i :: 0 <= i < |Live()| ==>
        Live()[i] == (if old(Live())[i].message == message then Message(old(Live())[i].hsm, 0, 0, 0) else old(Live())[i])
    {
      ghost var e := OfMessage(message);
      for i := 0 to queueSize
        invariant forall k :: 0 <= k < i ==> queue[k] == EraseOne(e, old(queue[k]))
        invariant forall k :: i <= k < queueSize ==> queue[k] == old(queue[k])
      {
        if queue[i].message == message {
          queue[i] := queue[i].(message := SMM_INVALIDMSG);
          queue[i] := queue[i].(param1 := 0, param2 := 0);
        }
      }
      assert State() == EraseSlots(e, old(State()));
      EraseSlotsErases(e, old(State()));
      assert forall k :: 0 <= k < |Live()| ==> Live()[k] == EraseOne(e, old(Live())[k]);
    }

    method EraseMessage(hsm: u32)
      requires Valid()
      modifies queue
      ensures Valid() && State() == EraseSlots(OfWindow(hsm), old(State()))
      ensures Live() == Erase(OfWindow(hsm), old(Live())) && |Live()| == |old(Live())|
      ensures forall i :: 0 <= i < |Live()| ==>
        Live()[i] == (if old(Live())[i].hsm == hsm then Message(0, 0, 0, 0) else old(Live())[i])
    {
      ghost var e := OfWindow(hsm);
      for i := 0 to queueSize
        invariant forall k :: 0 <= k < i ==> queue[k] == EraseOne(e, old(queue[k]))
        invariant forall k :: i <= k < queueSize ==> queue[k] == old(queue[k])
      {
        if queue[i].hsm == hsm {
          queue[i] := queue[i].(hsm := 0, message := SMM_INVALIDMSG);
          queue[i] := queue[i].(param1 := 0, param2 := 0);
        }
      }
      assert State() == EraseSlots(e, old(State()));
      EraseSlotsErases(e, old(State()));
      assert forall k :: 0 <= k < |Live()| ==> Live()[k] == EraseOne(e, old(Live())[k]);
    }

    method EraseMessageType(hsm: u32, message: u32)
      requires Valid()
      modifies queue
      ensures Valid() && State() == EraseSlots(OfType(hsm, message), old(State()))
      ensures Live() == Erase(OfType(hsm, message), old(Live())) && |Live()| == |old(Live())|
      ensures forall i :: 0 <= i < |Live()| ==>
        Live()[i] == (if old(Live())[i].hsm == hsm && old(Live())[i].message == message then Message(0, 0, 0, 0) else old(Live())[i])
    {
      ghost var e := OfType(hsm, message);
      for i := 0 to queueSize
        invariant forall k :: 0 <= k < i ==> queue[k] == EraseOne(e, old(queue[k]))
        invariant forall k :: i <= k < queueSize ==> queue[k] == old(queue[k])
      {
        if queue[i].hsm == hsm && queue[i].message == message {
          queue[i] := queue[i].(hsm := 0, message := SMM_INVALIDMSG);
          queue[i] := queue[i].(param1 := 0, param2 := 0);
        }
      }
      assert State() == EraseSlots(e, old(State()));
      EraseSlotsErases(e, old(State()));
      assert forall k :: 0 <= k < |Live()| ==> Live()[k] == EraseOne(e, old(Live())[k]);
    }
  }

  /** After erase_message(h) no message mentions h, and every other window's answer is what it was. */
  lemma EraseForgetsOnlyOne(h: u32, q: seq<Message>, other: u32)
    ensures Mentions(Erase(OfWindow(h), q), other) <==> other != h && Mentions(q, other)
  {
    var e := OfWindow(h);
    if other != h && Mentions(q, other) {
      var i :| 0 <= i < |q| && q[i].hsm == other;
      assert Erase(e, q)[i] == q[i];
    }
    if Mentions(Erase(e, q), other) {
      var i :| 0 <= i < |q| && Erase(e, q)[i].hsm == other;
      assert Erase(e, q)[i] == EraseOne(e, q[i]);
    }
  }
}
