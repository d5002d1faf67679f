/** What each public operation of the task queue does, on plain values. */
module QueueSpec {
  import opened HeapSpec
  import opened QueueOrder

  datatype Status = Pending | Downloading | Paused | Done | Failed | Cancelled

  datatype TaskRec = TaskRec(status: Status, priority: int)

  datatype Queue = Queue(tasks: map<string, TaskRec>, heap: seq<Entry>, active: int, max: int)

  datatype QueueError = AlreadyExists | NotFound | NotDownloading | NotPaused | NotWaiting | NotInHeap | InvalidHow

  datatype Outcome<T> = Ok(value: T) | Err(error: QueueError)

  /** Every heap entry is of a task in the map. */
  predicate Linked(q: Queue) {
    forall i :: 0 <= i < |q.heap| ==> q.heap[i].id in q.tasks
  }

  function WithStatus(q: Queue, id: string, st: Status): Queue
    requires id in q.tasks
  {
    q.(tasks := q.tasks[id := q.tasks[id].(status := st)])
  }

  function Start(q: Queue, id: string): Queue
    requires id in q.tasks
  {
    WithStatus(q, id, Downloading).(active := q.active + 1)
  }

  function Enqueue(q: Queue, id: string): Queue
    requires id in q.tasks
  {
    q.(heap := Pushed(q.heap, Entry(id, q.tasks[id].priority)))
  }

  /** Pop the first entry and start its task if that is pending. */
  function StartFirst(q: Queue): (r: Queue)
    requires q.heap != []
    ensures |r.heap| == |q.heap| - 1
  {
    var id := q.heap[0].id;
    var rest := q.(heap := Popped(q.heap));
    if id !in q.tasks || q.tasks[id].status != Pending then rest else Start(rest, id)
  }

  /** tryStartNext: fill the free slots from the heap, skipping entries that are not pending. */
  function StartNext(q: Queue): Queue
    decreases |q.heap|
  {
    if q.active >= q.max || q.heap == [] then q else StartNext(StartFirst(q))
  }

  function Add(q: Queue, id: string, rec: TaskRec): (Queue, Outcome<()>) {
    if id in q.tasks then (q, Err(AlreadyExists))
    else
      var added := q.(tasks := q.tasks[id := rec]);
      if q.active < q.max && rec.status == Pending then (Start(added, id), Ok(()))
      else (Enqueue(added, id), Ok(()))
  }

  /** The first heap position with this id, or -1. */
  function FindIndex(h: seq<Entry>, id: string, i: nat): (r: int)
    requires i <= |h|
    ensures r == -1 <==> forall j :: i <= j < |h| ==> h[j].id != id
    ensures r != -1 ==> i <= r < |h| && h[r].id == id
    decreases |h| - i
  {
    if i == |h| then -1 else if h[i].id == id then i else FindIndex(h, id, i + 1)
  }

  function WithoutEntry(h: seq<Entry>, id: string): seq<Entry> {
    var i := FindIndex(h, id, 0);
    if i < 0 then h else Removed(h, i)
  }

  function Remove(q: Queue, id: string): (Queue, Outcome<()>) {
    if id !in q.tasks then (q, Err(NotFound))
    else
      var wasActive := q.tasks[id].status == Downloading;
      (Queue(q.tasks - {id}, WithoutEntry(q.heap, id), if wasActive then q.active - 1 else q.active, q.max), Ok(()))
  }

  function Pause(q: Queue, id: string): (Queue, Outcome<()>) {
    if id !in q.tasks then (q, Err(NotFound))
    else if q.tasks[id].status != Downloading then (q, Err(NotDownloading))
    else (StartNext(WithStatus(q, id, Paused).(active := q.active - 1)), Ok(()))
  }

  function Resume(q: Queue, id: string): (Queue, Outcome<()>) {
    if id !in q.tasks then (q, Err(NotFound))
    else if q.tasks[id].status != Paused then (q, Err(NotPaused))
    else
      var waiting := WithStatus(q, id, Pending);
      if q.active < q.max then (Start(waiting, id), Ok(())) else (Enqueue(waiting, id), Ok(()))
  }

  /** CompleteTask and FailTask: the task leaves the queue with a final status and frees its slot. */
  function Finish(q: Queue, id: string): Queue {
    if id !in q.tasks || q.tasks[id].status != Downloading then q
    else
      var active := if q.active - 1 < 0 then 0 else q.active - 1;
      StartNext(q.(tasks := q.tasks - {id}, active := active))
  }

  function SetMaxConcurrent(q: Queue, max: int): Queue {
    StartNext(q.(max := max))
  }

  /** The position asked for, before clamping. */
  function Target(how: string, pos: int, cur: int, n: int): Outcome<int> {
    if how == "POS_SET" then Ok(pos)
    else if how == "POS_CUR" then Ok(cur + pos)
    else if how == "POS_END" then Ok(n - 1 + pos)
    else Err(InvalidHow)
  }

  function Clamp(target: int, n: nat): (r: nat)
    requires n > 0
    ensures r < n
  {
    if target < 0 then 0 else if target >= n then n - 1 else target
  }

  /** The map after position i was written into the priority of the i-th task, for the first k. */
  function Reprioritized(tasks: map<string, TaskRec>, ids: seq<string>, k: nat): (r: map<string, TaskRec>)
    requires k <= |ids|
    ensures r.Keys == tasks.Keys
    ensures forall id :: id in tasks ==> r[id].status == tasks[id].status
    decreases k
  {
    if k == 0 then tasks
    else
      var before := Reprioritized(tasks, ids, k - 1);
      if ids[k - 1] in before then before[ids[k - 1] := before[ids[k - 1]].(priority := k - 1)] else before
  }

  /** The heap rebuilt from the items in this order, each with its position as priority. */
  function Reordered(q: Queue, order: seq<Entry>): Queue {
    q.(heap := PushedAll([], Renumbered(order)), tasks := Reprioritized(q.tasks, Ids(order), |order|))
  }

  /** Move the item at `cur` to the clamped target and rebuild the heap; without a target rebuild it as it was. */
  function PlacedAt(q: Queue, items: seq<Entry>, cur: nat, target: Outcome<int>): (Queue, Outcome<int>)
    requires cur < |items|
  {
    match target
    case Err(e) => (q.(heap := PushedAll([], items)), Err(e))
    case Ok(t) =>
      var to := Clamp(t, |items|);
      (Reordered(q, Moved(items, cur, to)), Ok(to))
  }

  function Placed(q: Queue, items: seq<Entry>, id: string, pos: int, how: string): (Queue, Outcome<int>) {
    var cur := FindIndex(items, id, 0);
    if cur < 0 then (q.(heap := PushedAll([], items)), Err(NotInHeap))
    else PlacedAt(q, items, cur, Target(how, pos, cur, |items|))
  }

  function ChangePosition(q: Queue, id: string, pos: int, how: string): (Queue, Outcome<int>) {
    if id !in q.tasks then (q, Err(NotFound))
    else if q.tasks[id].status != Pending then (q, Err(NotWaiting))
    else Placed(q, Drained(q.heap), id, pos, how)
  }
}
