/** The thread table of skyapi_task.c as a value, and the searches made in it. */
module TaskSlots {

  const MAX_THREAD_COUNT := 80
  const MAX_OS_NAME_NUM := 60
  const ID_WORD := 0x1_0000_0000_0000_0000

  /** Names are C strings without their terminator; a slot keeps its last task's entries when it is freed. */
  datatype Slot = Slot(inUse: bool, name: string, threadId: int, fun: int, skId: nat)

  /** The searches: a free slot, a name, a task id, a running thread. Two of the four ignore the in-use flag. */
  datatype Key =
    | Free
    | Named(name: string)
    | WithId(skId: nat)
    | OfThread(threadId: int)

  predicate Matches(key: Key, s: Slot) {
    match key
    case Free => !s.inUse
    case Named(n) => s.name == n
    case WithId(id) => s.skId == id
    case OfThread(tid) => s.threadId == tid && s.inUse
  }

  /** The first matching slot, or the table's length. */
  function Find(table: seq<Slot>, key: Key, from: nat := 0): (i: nat)
    requires from <= |table|
    ensures from <= i <= |table|
    ensures i < |table| ==> Matches(key, table[i])
    ensures forall j :: from <= j < i ==> !Matches(key, table[j])
    decreases |table| - from
  {
    if from == |table| || Matches(key, table[from]) then from else Find(table, key, from + 1)
  }

  /** A live task has the name: sk_check_task_name refuses it. */
  predicate Taken(table: seq<Slot>, name: string) {
    exists i :: 0 <= i < |table| && table[i].inUse && table[i].name == name
  }

  predicate NameAllowed(table: seq<Slot>, name: string) {
    |name| < MAX_OS_NAME_NUM && !Taken(table, name)
  }

  /** GET_FREE_NODE, on the slot it finds. */
  function Claim(table: seq<Slot>, k: nat): seq<Slot>
    requires k < |table|
  {
    table[k := table[k].(inUse := true)]
  }

  /** SET_NAME_NODE: nothing on a slot that is not in use; at most MAX_OS_NAME_NUM - 1 characters are kept. */
  function Rename(table: seq<Slot>, k: nat, name: string): seq<Slot>
    requires k < |table|
  {
    if !table[k].inUse then table
    else table[k := table[k].(name := if |name| < MAX_OS_NAME_NUM then name else name[..MAX_OS_NAME_NUM - 1])]
  }

  /** The end of a successful sk_task_create. */
  function Register(table: seq<Slot>, k: nat, tid: int, fun: int, id: nat): seq<Slot>
    requires k < |table|
  {
    table[k := table[k].(threadId := tid, fun := fun, skId := id)]
  }

  /** pthread_create failed: the function is stored already, the thread id is whatever it left behind. */
  function Abandon(table: seq<Slot>, k: nat, junk: int, fun: int): seq<Slot>
    requires k < |table|
  {
    table[k := table[k].(threadId := junk, fun := fun)]
  }

  /** SET_FREE_NODE. */
  function Release(table: seq<Slot>, k: nat): seq<Slot>
    requires k < |table|
  {
    table[k := table[k].(inUse := false)]
  }

  function NextId(pid: nat): nat {
    (pid + 1) % ID_WORD
  }

  // ---------- what the operations do, by the fields alone ----------

  /** The first slot of a name, in use or not; of a thread, in use; and with an id, in use or not. */
  predicate FirstNamed(table: seq<Slot>, name: string, i: nat) {
    i < |table| && table[i].name == name && forall m :: 0 <= m < i ==> table[m].name != name
  }

  predicate FirstOf(table: seq<Slot>, self: int, i: nat) {
    i < |table| && table[i].inUse && table[i].threadId == self
    && forall m :: 0 <= m < i ==> !(table[m].inUse && table[m].threadId == self)
  }

  predicate FirstWith(table: seq<Slot>, id: nat, j: nat) {
    j < |table| && table[j].skId == id && forall m :: 0 <= m < j ==> table[m].skId != id
  }

  /** The caller's slot i gives an id, and the first slot j with that id is freed. */
  predicate Freed(table: seq<Slot>, table': seq<Slot>, self: int, i: nat, j: nat) {
    && FirstOf(table, self, i) && FirstWith(table, table[i].skId, j)
    && table' == table[j := table[j].(inUse := false)]
  }

  /** A slot that was free, all below it in use, now holds this and nothing else has changed. */
  predicate Filled(table: seq<Slot>, table': seq<Slot>, k: nat, slot: Slot) {
    && k < |table| && !table[k].inUse && (forall j :: 0 <= j < k ==> table[j].inUse)
    && table' == table[k := slot]
  }
}
