/** Machine integers, messages and the three ways the engine blanks queued messages. */
module Messages {

  type u32 = x: int | 0 <= x < 0x1_0000_0000
  type s32 = x: int | -0x8000_0000 <= x < 0x8000_0000

  datatype Option<+T> = None | Some(value: T)

  const SK_INVALID_HSM: u32 := 0
  const SMM_INVALIDMSG: u32 := 0
  const SMM_CREATE: u32 := 1
  const SMM_CLOSE: u32 := 2
  const SMM_TICK: u32 := 0x2000_0002

  datatype Message = Message(hsm: u32, message: u32, param1: u32, param2: u32)

  /** erase_message, erase_message_type and invalidate_message, as requests. */
  datatype Eraser =
    | OfWindow(hsm: u32)
    | OfType(hsm: u32, message: u32)
    | OfMessage(message: u32)

  predicate Hit(e: Eraser, m: Message) {
    match e
    case OfWindow(h) => m.hsm == h
    case OfType(h, k) => m.hsm == h && m.message == k
    case OfMessage(k) => m.message == k
  }

  /** invalidate_message keeps the handle; the other two clear it. */
  function EraseOne(e: Eraser, m: Message): Message {
    if !Hit(e, m) then m
    else Message(if e.OfMessage? then m.hsm else 0, SMM_INVALIDMSG, 0, 0)
  }

  function Erase(e: Eraser, q: seq<Message>): (r: seq<Message>)
    ensures |r| == |q|
    ensures forall i :: 0 <= i < |q| ==> r[i] == EraseOne(e, q[i])
  {
    seq(|q|, i requires 0 <= i < |q| => EraseOne(e, q[i]))
  }

  /** What the dispatcher hands on from a queue: it drops entries whose handle is 0. */
  function Dispatched(q: seq<Message>): seq<Message> {
    if q == [] then []
    else (if q[0].hsm != SK_INVALID_HSM then [q[0]] else []) + Dispatched(q[1..])
  }

  /** The messages with a property, in order. */
  function Filter(keep: Message -> bool, q: seq<Message>): seq<Message> {
    if q == [] then []
    else (if keep(q[0]) then [q[0]] else []) + Filter(keep, q[1..])
  }

  function Keeps(e: Eraser): Message -> bool {
    m => !Hit(e, m)
  }

  /** The messages an eraser leaves alone, in order. */
  function Spared(e: Eraser, q: seq<Message>): seq<Message> {
    Filter(Keeps(e), q)
  }

  /** What each erase operation does to each queued message, and to which. */
  lemma EraseExact(q: seq<Message>, h: u32, k: u32, i: nat)
    requires i < |q|
    ensures Erase(OfWindow(h), q)[i] == if q[i].hsm == h then Message(0, 0, 0, 0) else q[i]
    ensures Erase(OfType(h, k), q)[i] == if q[i].hsm == h && q[i].message == k then Message(0, 0, 0, 0) else q[i]
    ensures Erase(OfMessage(k), q)[i] == if q[i].message == k then Message(q[i].hsm, 0, 0, 0) else q[i]
  {
  }

  /** Which messages are queued after an erase: those queued before and not named, and blanks. */
  lemma ErasedMembers(q: seq<Message>, h: u32, k: u32, x: Message)
    ensures x.hsm != 0 ==> (x in Erase(OfWindow(h), q) <==> x in q && x.hsm != h)
    ensures x.hsm != 0 ==> (x in Erase(OfType(h, k), q) <==> x in q && !(x.hsm == h && x.message == k))
    ensures x.message != 0 ==> (x in Erase(OfMessage(k), q) <==> x in q && x.message != k)
  {
    forall i | 0 <= i < |q|
      ensures Erase(OfWindow(h), q)[i] == if q[i].hsm == h then Message(0, 0, 0, 0) else q[i]
      ensures Erase(OfType(h, k), q)[i] == if q[i].hsm == h && q[i].message == k then Message(0, 0, 0, 0) else q[i]
      ensures Erase(OfMessage(k), q)[i] == if q[i].message == k then Message(q[i].hsm, 0, 0, 0) else q[i]
    {
      EraseExact(q, h, k, i);
    }
    if x in q {
      var i :| 0 <= i < |q| && q[i] == x;
      assert Erase(OfWindow(h), q)[i] in Erase(OfWindow(h), q);
      assert Erase(OfType(h, k), q)[i] in Erase(OfType(h, k), q);
      assert Erase(OfMessage(k), q)[i] in Erase(OfMessage(k), q);
    }
  }

  /** Erasing by window, or by window and type, is a filter on what is dispatched. */
  lemma {:induction false} EraseIsFilter(e: Eraser, q: seq<Message>)
    requires !e.OfMessage?
    ensures Dispatched(Erase(e, q)) == Spared(e, Dispatched(q))
  {
    if q != [] {
      assert Erase(e, q)[1..] == Erase(e, q[1..]);
      EraseIsFilter(e, q[1..]);
      var first := if q[0].hsm != SK_INVALID_HSM then [q[0]] else [];
      FilterConcat(Keeps(e), first, Dispatched(q[1..]));
    }
  }

  /** The same, with the messages that go named by their fields. */
  lemma EraseFilters(q: seq<Message>, h: u32, k: u32)
    ensures Dispatched(Erase(OfWindow(h), q)) == Filter((m: Message) => m.hsm != h, Dispatched(q))
    ensures Dispatched(Erase(OfType(h, k), q)) == Filter((m: Message) => !(m.hsm == h && m.message == k), Dispatched(q))
  {
    EraseIsFilter(OfWindow(h), q);
    EraseIsFilter(OfType(h, k), q);
    FilterSame(Keeps(OfWindow(h)), (m: Message) => m.hsm != h, Dispatched(q));
    FilterSame(Keeps(OfType(h, k)), (m: Message) => !(m.hsm == h && m.message == k), Dispatched(q));
  }

  lemma {:induction false} FilterSame(f: Message -> bool, g: Message -> bool, q: seq<Message>)
    requires forall m :: f(m) == g(m)
    ensures Filter(f, q) == Filter(g, q)
  {
    if q != [] {
      FilterSame(f, g, q[1..]);
    }
  }

  lemma {:induction false} FilterConcat(keep: Message -> bool, a: seq<Message>, b: seq<Message>)
    ensures Filter(keep, a + b) == Filter(keep, a) + Filter(keep, b)
  {
    if a == [] {
      assert a + b == b;
    } else {
      var first := if keep(a[0]) then [a[0]] else [];
      assert (a + b)[1..] == a[1..] + b;
      FilterConcat(keep, a[1..], b);
      assert Filter(keep, a + b) == first + Filter(keep, a[1..] + b);
      assert first + (Filter(keep, a[1..]) + Filter(keep, b)) == (first + Filter(keep, a[1..])) + Filter(keep, b);
    }
  }

  /** invalidate_message dispatches the same windows in the same order, with the named type blanked. */
  lemma {:induction false} InvalidateIsMap(k: u32, q: seq<Message>)
    ensures Dispatched(Erase(OfMessage(k), q)) == Erase(OfMessage(k), Dispatched(q))
  {
    var e := OfMessage(k);
    if q != [] {
      assert Erase(e, q)[1..] == Erase(e, q[1..]);
      InvalidateIsMap(k, q[1..]);
    }
  }

  /** Blanking never forges a message with a nonzero type. */
  lemma EraseForgesNothing(e: Eraser, q: seq<Message>, m: Message)
    requires m in Erase(e, q) && m.message != SMM_INVALIDMSG
    ensures m in q && !Hit(e, m)
  {
    var i :| 0 <= i < |q| && Erase(e, q)[i] == m;
    assert q[i] == m;
  }
}
