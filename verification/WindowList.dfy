/** The doubly linked window list of smscheduler.c, refining a duplicate-free sequence. */
module WindowLists {

  ghost predicate Distinct<T>(s: seq<T>) {
    forall i, j :: 0 <= i < j < |s| ==> s[i] != s[j]
  }

  /** The sequence without any occurrence of x, order kept. */
  function Without<T(==)>(s: seq<T>, x: T): (r: seq<T>)
    ensures forall i :: 0 <= i < |r| ==> r[i] in s && r[i] != x
    ensures forall i :: 0 <= i < |s| && s[i] != x ==> s[i] in r
  {
    if s == [] then []
    else (if s[0] == x then [] else [s[0]]) + Without(s[1..], x)
  }

  lemma WithoutMember<T>(s: seq<T>, x: T, y: T)
    ensures y in Without(s, x) <==> y in s && y != x
  {
  }

  lemma {:induction false} WithoutAbsent<T>(s: seq<T>, x: T)
    requires x !in s
    ensures Without(s, x) == s
  {
    if s != [] {
      WithoutAbsent(s[1..], x);
    }
  }

  lemma {:induction false} WithoutConcat<T>(a: seq<T>, b: seq<T>, x: T)
    ensures Without(a + b, x) == Without(a, x) + Without(b, x)
  {
    if a == [] {
      assert a + b == b;
    } else {
      assert (a + b)[1..] == a[1..] + b;
      WithoutConcat(a[1..], b, x);
    }
  }

  /** In a duplicate-free sequence exactly one element goes and the rest keep their places. */
  lemma WithoutSplices<T>(s: seq<T>, k: nat)
    requires Distinct(s) && k < |s|
    ensures Without(s, s[k]) == s[..k] + s[k + 1..]
  {
    hide Without, Distinct;
    var x, before, after := s[k], s[..k], s[k + 1..];
    AbsentAround(s, k);
    WithoutAbsent(before, x);
    WithoutAbsent(after, x);
    WithoutOnly(x);
    WithoutConcat([x], after, x);
    WithoutConcat(before, [x] + after, x);
    assert s == before + ([x] + after);
  }

  lemma AbsentAround<T>(s: seq<T>, k: nat)
    requires Distinct(s) && k < |s|
    ensures s[k] !in s[..k] && s[k] !in s[k + 1..]
  {
  }

  lemma WithoutOnly<T>(x: T)
    ensures Without([x], x) == []
  {
  }

  lemma WithoutDistinct<T>(s: seq<T>, x: T)
    requires Distinct(s)
    ensures Distinct(Without(s, x))
  {
    if x in s {
      var k :| 0 <= k < |s| && s[k] == x;
      WithoutSplices(s, k);
    } else {
      WithoutAbsent(s, x);
    }
  }

  class Node {
    var prev: Node?
    var next: Node?
    var smType: int
    var smId: int

    constructor (smType: int, smId: int)
      ensures prev == null && next == null && this.smType == smType && this.smId == smId
    {
      prev, next := null, null;
      this.smType, this.smId := smType, smId;
    }
  }

  class WindowList {
    var first: Node?
    ghost var nodes: seq<Node>

    ghost predicate Valid()
      reads this, nodes
    {
      && Distinct(nodes)
      && first == (if nodes == [] then null else nodes[0])
      && (forall i :: 0 <= i < |nodes| ==> LinkedAt(i))
    }

    /** The links of the i-th node point at its neighbours and end in null. */
    ghost predicate LinkedAt(i: int)
      reads this, nodes
      requires 0 <= i < |nodes|
    {
      && nodes[i].next == (if i + 1 < |nodes| then nodes[i + 1] else null)
      && nodes[i].prev == (if i > 0 then nodes[i - 1] else null)
    }

    constructor ()
      ensures Valid() && nodes == []
    {
      first, nodes := null, [];
    }

    /** sm_add_smallwin_list. */
    method Add(node: Node)
      requires Valid() && node !in nodes
      modifies this, node, nodes
      ensures Valid() && nodes == old(nodes) + [node]
    {
      var temp := first;
      if temp != null {
        ghost var k := 0;
        while temp.next != null
          invariant 0 <= k < |nodes| && temp == nodes[k]
          decreases |nodes| - k
        {
          assert LinkedAt(k);
          temp := temp.next;
          k := k + 1;
        }
        assert LinkedAt(k);
        temp.next := node;
        node.prev := temp;
        node.next := null;
      } else {
        first := node;
        node.next, node.prev := null, null;
      }
      nodes := nodes + [node];
      forall i | 0 <= i < |nodes|
        ensures LinkedAt(i)
      {
        if i < |nodes| - 1 {
          assert old(LinkedAt(i)) && nodes[i] == old(nodes[i]);
        }
      }
    }

    /** sm_is_smallwin: the walk ends and answers 1 for members only. */
    method IsSmallwin(smallwin: Node?) returns (r: int)
      requires Valid()
      ensures r == if smallwin != null && smallwin in nodes then 1 else 0
    {
      if smallwin == null {
        return 0;
      }
      var temp := first;
      ghost var k := 0;
      while temp != null
        invariant 0 <= k <= |nodes| && smallwin !in nodes[..k]
        invariant temp == if k < |nodes| then nodes[k] else null
        decreases |nodes| - k
      {
        if temp == smallwin {
          return 1;
        }
        assert LinkedAt(k);
        temp := temp.next;
        k := k + 1;
      }
      return 0;
    }

    /** The links of the j-th node once node k is left out. */
    ghost predicate BypassedAt(j: int, k: int)
      reads this, nodes
      requires 0 <= j < |nodes|
    {
      var n := if j + 1 == k then k + 1 else j + 1;
      var p := if j - 1 == k then k - 1 else j - 1;
      && nodes[j].next == (if n < |nodes| then nodes[n] else null)
      && nodes[j].prev == (if p >= 0 then nodes[p] else null)
    }

    /** The pointer writes of sm_destroy_smallwin. */
    method Bypass(node: Node, ghost k: nat)
      requires Valid() && k < |nodes| && nodes[k] == node
      modifies this`first, nodes
      ensures first == if k > 0 then nodes[0] else if |nodes| > 1 then nodes[1] else null
      ensures forall j :: 0 <= j < |nodes| && j != k ==> BypassedAt(j, k)
    {
      assert LinkedAt(k);
      if node.prev != null {
        node.prev.next := node.next;
      } else {
        first := node.next;
      }
      if node.next != null {
        node.next.prev := node.prev;
      }
      forall j | 0 <= j < |nodes| && j != k
        ensures BypassedAt(j, k)
      {
        assert old(LinkedAt(j));
      }
    }

    /** sm_destroy_smallwin: nothing for the invalid handle; a node of the list is unlinked, for the caller to free. */
    method Destroy(smallwin: Node?)
      requires Valid() && (smallwin == null || smallwin in nodes)
      modifies this, nodes
      ensures Valid()
      ensures smallwin == null ==> nodes == old(nodes) && first == old(first)
      ensures smallwin != null ==> nodes == Without<Node>(old(nodes), smallwin)
    {
      if smallwin == null {
        return;
      }
      var node: Node := smallwin;
      ghost var k :| 0 <= k < |nodes| && nodes[k] == node;
      ghost var was := nodes;
      Bypass(node, k);
      assert forall j :: 0 <= j < |nodes| && j != k ==> BypassedAt(j, k);
      label bypassed:
      nodes := was[..k] + was[k + 1..];
      forall i | 0 <= i < |nodes|
        ensures LinkedAt(i)
      {
        var j := if i < k then i else i + 1;
        assert old@bypassed(BypassedAt(j, k)) && nodes[i] == was[j];
      }
      assert nodes == Without(was, node) && Distinct(nodes) by {
        WithoutSplices(was, k);
        WithoutDistinct(was, node);
      }
    }
  }
}
