/** The task registry of skyapi_task.c, updated in place; one call at a time. */
module TaskTables {
  import opened TaskSlots

  datatype Status = Success | Failed | BadParameter

  datatype Created = Created(status: Status, id: nat)

  class TaskTable {
    const info: array<Slot>
    var pid: nat

    ghost predicate Valid()
      reads this
    {
      info.Length == MAX_THREAD_COUNT && pid < ID_WORD
    }

    constructor ()
      ensures Valid() && fresh(info) && pid == 0
      ensures forall i :: 0 <= i < MAX_THREAD_COUNT ==> info[i] == Slot(false, "", 0, 0, 0)
    {
      info := new Slot[MAX_THREAD_COUNT](_ => Slot(false, "", 0, 0, 0));
      pid := 0;
    }

    /** The loop shared by the searches; the length of the table means not found. */
    method Search(key: Key) returns (i: nat)
      requires Valid()
      ensures i == Find(info[..], key)
    {
      i := 0;
      while i < MAX_THREAD_COUNT && !Matches(key, info[i])
        invariant 0 <= i <= MAX_THREAD_COUNT
        invariant Find(info[..], key) == Find(info[..], key, i)
      {
        i := i + 1;
      }
    }

    /** sk_check_task_name, for a name that is not null. */
    method CheckTaskName(name: string) returns (status: Status)
      requires Valid()
      ensures status == if NameAllowed(info[..], name) then Success else BadParameter
      ensures status == Success <==> |name| < 60 && forall i :: 0 <= i < MAX_THREAD_COUNT ==> !(info[i].inUse && info[i].name == name)
    {
      if |name| >= MAX_OS_NAME_NUM {
        return BadParameter;
      }
      for i := 0 to MAX_THREAD_COUNT
        invariant forall k :: 0 <= k < i ==> !(info[k].inUse && info[k].name == name)
      {
        if info[i].inUse && info[i].name == name {
          assert info[..][i].inUse && info[..][i].name == name;
          return BadParameter;
        }
      }
      return Success;
    }

    /** sky_task_Id. */
    method TaskId(name: string) returns (r: Created)
      requires Valid()
      ensures var i := Find(info[..], Named(name));
        r == if i < MAX_THREAD_COUNT then Created(Success, info[i].skId) else Created(Failed, ID_WORD - 1)
      ensures r.status == Success ==> exists i :: 0 <= i < MAX_THREAD_COUNT && FirstNamed(info[..], name, i) && r.id == info[i].skId
      ensures r.status != Success ==> forall i :: 0 <= i < MAX_THREAD_COUNT ==> info[i].name != name
    {
      var i := Search(Named(name));
      if i < MAX_THREAD_COUNT {
        return Created(Success, info[i].skId);
      }
      return Created(Failed, ID_WORD - 1);
    }

    /** sk_task_term: the calling thread looks up its own id, then frees the slot that carries the id. */
    method Term(self: int) returns (ok: bool)
      requires Valid()
      modifies info
      ensures var i := Find(old(info[..]), OfThread(self));
        if i < MAX_THREAD_COUNT then
          ok && Find(old(info[..]), WithId(old(info[..])[i].skId)) < MAX_THREAD_COUNT
          && info[..] == Release(old(info[..]), Find(old(info[..]), WithId(old(info[..])[i].skId)))
        else
          !ok && info[..] == old(info[..])
      ensures ok <==> exists i :: 0 <= i < MAX_THREAD_COUNT && old(info[i]).inUse && old(info[i]).threadId == self
      ensures ok ==> exists i: nat, j: nat :: Freed(old(info[..]), info[..], self, i, j)
    {
      var i := Search(OfThread(self));
      if i == MAX_THREAD_COUNT {
        return false;
      }
      var j := Search(WithId(info[i].skId));
      info[j] := info[j].(inUse := false);
      assert Freed(old(info[..]), info[..], self, i, j);
      return true;
    }

    /**
     * sk_task_create. `thread` is the id pthread_create gives the new thread, if it succeeds; otherwise
     * `junk` is what it leaves in the slot.
     */
    method Create(name: string, fun: int, ok: bool, thread: int) returns (r: Created)
      requires Valid()
      modifies this, info
      ensures Valid()
      ensures !NameAllowed(old(info[..]), name) ==>
        r.status == BadParameter && info[..] == old(info[..]) && pid == old(pid)
      ensures NameAllowed(old(info[..]), name) ==>
        var k := Find(old(info[..]), Free);
        if k == MAX_THREAD_COUNT then
          r.status == Failed && info[..] == old(info[..]) && pid == old(pid)
        else if ok then
          && r == Created(Success, NextId(old(pid))) && pid == NextId(old(pid))
          && info[..] == Register(Rename(Claim(old(info[..]), k), k, name), k, thread, fun, pid)
        else
          && r.status == Failed && pid == old(pid)
          && info[..] == Release(Abandon(Rename(Claim(old(info[..]), k), k, name), k, thread, fun), k)
      ensures NameAllowed(old(info[..]), name) ==>
        (r.status == Failed && info[..] == old(info[..]) && forall i :: 0 <= i < MAX_THREAD_COUNT ==> old(info[i]).inUse)
        || exists k :: 0 <= k < MAX_THREAD_COUNT && !old(info[k]).inUse && (forall j :: 0 <= j < k ==> old(info[j]).inUse)
             && info[..] == old(info[..])[k :=
                  if ok then Slot(true, name, thread, fun, pid) else Slot(false, name, thread, fun, old(info[k]).skId)]
      ensures r.status == Success <==> NameAllowed(old(info[..]), name) && ok && exists k :: 0 <= k < MAX_THREAD_COUNT && !old(info[k]).inUse
      ensures r.status == Success ==> r.id == pid == (old(pid) + 1) % 0x1_0000_0000_0000_0000
    {
      var status := CheckTaskName(name);
      if status != Success {
        return Created(BadParameter, 0);
      }
      var k := Search(Free);
      if k == MAX_THREAD_COUNT {
        return Created(Failed, ID_WORD - 1);
      }
      info[k] := info[k].(inUse := true);
      info[k] := info[k].(name := name);
      info[k] := info[k].(fun := fun, threadId := thread);
      if !ok {
        info[k] := info[k].(inUse := false);
        return Created(Failed, ID_WORD - 1);
      }
      pid := NextId(pid);
      info[k] := info[k].(skId := pid);
      return Created(Success, pid);
    }
  }
}
