/** The task queue object: the task map, the heap and the counter, updated in place by each public method. */
module TaskQueues {
  import opened HeapSpec
  import opened QueueOrder
  import opened QueueSpec
  import opened PriorityQueues

  class TaskQueue {
    var tasks: map<string, Task>
    const pq: PriorityQueue
    var maxConcurrent: int
    var activeCount: int
    ghost var book: map<string, TaskRec>  // status and priority of each task in the map

    /** The map's tasks are where their id says; every heap item is for a different task of the map, one that is
        neither running nor paused. */
    ghost predicate Valid()
      reads this, pq, pq.Items, tasks.Values
    {
      && pq.Valid()
      && book.Keys == tasks.Keys
      && (forall id :: id in tasks ==>
            tasks[id].id == id && book[id] == TaskRec(tasks[id].status, tasks[id].priority))
      && (forall x :: x in pq.Items ==> Waits(x))
      && (forall x, y :: x in pq.Items && y in pq.Items && x.task == y.task ==> x == y)
    }

    /** The status of the task the map has for this id. */
    function StatusOf(id: string): Status
      reads this, tasks.Values
    {
      if id in tasks then tasks[id].status else Pending
    }

    ghost predicate Waits(x: PriorityItem)
      reads this
    {
      && x.task.id in tasks && tasks[x.task.id] == x.task
      && x.task.id in book && book[x.task.id].status != Paused && book[x.task.id].status != Downloading
    }

    ghost function View(): Queue
      reads this, pq
    {
      Queue(book, pq.entries, activeCount, maxConcurrent)
    }

    constructor (maxConcurrent: int)
      ensures Valid() && fresh(pq) && View() == Queue(map[], [], 0, maxConcurrent)
    {
      tasks, book := map[], map[];
      this.maxConcurrent := maxConcurrent;
      activeCount := 0;
      pq := new PriorityQueue();
    }

    /** A task of the map changes status. */
    method SetStatus(task: Task, status: Status)
      requires Valid() && task.id in tasks && tasks[task.id] == task
      requires status == Paused || status == Downloading ==> forall x :: x in pq.Items ==> x.task != task
      modifies this`book, task
      ensures Valid() && View() == WithStatus(old(View()), task.id, status)
      ensures tasks == old(tasks) && task.priority == old(task.priority) && task.status == status
    {
      task.status := status;
      book := book[task.id := book[task.id].(status := status)];
    }

    method TryStartNext()
      requires Valid()
      modifies this, pq, pq.Items, tasks.Values
      ensures Valid() && View() == StartNext(old(View()))
      ensures tasks == old(tasks) && pq.Items <= old(pq.Items)
    {
      while activeCount < maxConcurrent && |pq.items| > 0
        invariant Valid() && tasks == old(tasks) && pq.Items <= old(pq.Items)
        invariant StartNext(View()) == StartNext(old(View()))
        decreases |pq.items|
      {
        PopAndStart();
      }
    }

    /** One round of the loop: pop the first item and start its task if it is pending. */
    method PopAndStart()
      requires Valid() && activeCount < maxConcurrent && |pq.items| > 0
      modifies this, pq, pq.Items, tasks.Values
      ensures Valid() && tasks == old(tasks) && pq.Items <= old(pq.Items)
      ensures |pq.items| < old(|pq.items|)
      ensures View() == StartFirst(old(View()))
    {
      var task := PopTask();
      if task.status == Pending {
        StartTask(task);
      }
    }

    /** Takes the first item out of the heap and gives its task. */
    method PopTask() returns (task: Task)
      requires Valid() && |pq.items| > 0
      modifies this, pq, pq.Items
      ensures Valid() && tasks == old(tasks) && pq.Items <= old(pq.Items)
      ensures View() == old(View()).(heap := Popped(old(pq.entries)))
      ensures task.id == old(pq.entries)[0].id && task.id in tasks && tasks[task.id] == task
      ensures forall x :: x in pq.Items ==> x.task != task
    {
      var item := pq.Pop();
      task := item.task;
    }
  
    /** heap.Push of a new item for a task that has none. */
    method Enqueue(task: Task)
      requires Valid() && task.id in tasks && tasks[task.id] == task
      requires forall x :: x in pq.Items ==> x.task != task
      modifies pq, pq.Items
      ensures View() == QueueSpec.Enqueue(old(View()), task.id)
      ensures task.status != Paused && task.status != Downloading ==> Valid()
      ensures fresh(pq.Items - old(pq.Items))
    {
      var item := new PriorityItem(task, task.priority);
      PushNew(item);
    }

    method PushNew(item: PriorityItem)
      requires Valid() && item !in pq.Items && Knows(item.task) && forall x :: x in pq.Items ==> x.task != item.task
      modifies pq, pq.Items, item
      ensures pq.entries == Pushed(old(pq.entries), Entry(item.task.id, old(item.priority)))
      ensures pq.Items == old(pq.Items) + {item}
      ensures item.task.status != Paused && item.task.status != Downloading ==> Valid()
    {
      pq.Push(item);
    }

    /** The map knows this object. */
    predicate Knows(task: Task)
      reads this
    {
      task.id in tasks && tasks[task.id] == task
    }

    /** startTask: takes a slot for the task object, whether or not the map still knows it. */
    method StartTask(task: Task)
      requires Valid()
      modifies this`book, this`activeCount, task
      ensures task.status == Downloading && task.priority == old(task.priority)
      ensures View() == if Knows(task) then Start(old(View()), task.id) else old(View()).(active := old(activeCount) + 1)
      ensures (forall x :: x in pq.Items ==> x.task != task) ==> Valid()
    {
      task.status := Downloading;
      if Knows(task) {
        book := book[task.id := book[task.id].(status := Downloading)];
      }
      activeCount := activeCount + 1;
    }

    method Add(task: Task) returns (r: Outcome<()>)
      requires Valid()
      modifies this, pq, pq.Items, task
      ensures (View(), r) == QueueSpec.Add(old(View()), task.id, TaskRec(old(task.status), old(task.priority)))
      ensures r.Ok? ==> task.id in tasks && tasks[task.id] == task
      ensures r.Err? || old(task.status) !in {Paused, Downloading} ==> Valid()
    {
      if task.id in tasks {
        return Err(AlreadyExists);
      }
      Insert(task);
      var shouldStart := activeCount < maxConcurrent && task.status == Pending;
      if !shouldStart {
        Enqueue(task);
      } else {
        StartTask(task);
      }
      r := Ok(());
    }

    method Insert(task: Task)
      requires Valid() && task.id !in tasks
      modifies this`tasks, this`book
      ensures Valid() && tasks == old(tasks)[task.id := task]
      ensures View() == old(View()).(tasks := old(book)[task.id := TaskRec(task.status, task.priority)])
      ensures forall x :: x in pq.Items ==> x.task != task
    {
      tasks := tasks[task.id := task];
      book := book[task.id := TaskRec(task.status, task.priority)];
    }

    /** The index of the item for this id, or -1: the index the item itself remembers. */
    method FindPQIndex(id: string) returns (r: int)
      requires Valid()
      ensures r == FindIndex(pq.entries, id, 0)
    {
      for i := 0 to |pq.items|
        invariant FindIndex(pq.entries, id, 0) == FindIndex(pq.entries, id, i)
      {
        if pq.items[i].task.id == id {
          return pq.items[i].index;
        }
      }
      return -1;
    }

    /** The task leaves the map; its item, if any, leaves the heap. */
    method Forget(id: string)
      requires Valid() && id in tasks
      modifies this`tasks, this`book, pq, pq.Items
      ensures Valid() && tasks == old(tasks) - {id} && pq.Items <= old(pq.Items)
      ensures View() == old(View()).(tasks := old(book) - {id}, heap := WithoutEntry(old(pq.entries), id))
    {
      var idx := FindPQIndex(id);
      var task := tasks[id];
      if idx >= 0 {
        var item := pq.Remove(idx);
        assert item.task == task;
      } else {
        assert forall x :: x in pq.Items ==> pq.entries[x.index].id == x.task.id;
      }
      Detach(id);
    }

    method Remove(id: string) returns (r: Outcome<()>)
      requires Valid()
      modifies this, pq, pq.Items, tasks.Values
      ensures Valid() && (View(), r) == QueueSpec.Remove(old(View()), id)
      ensures id in old(tasks) ==>
                && id !in tasks
                && (old(StatusOf(id)) == Done || old(StatusOf(id)) == Failed ==> old(tasks)[id].status == old(StatusOf(id)))
                && (old(StatusOf(id)) != Done && old(StatusOf(id)) != Failed ==> old(tasks)[id].status == Cancelled)
    {
      if id !in tasks {
        return Err(NotFound);
      }
      var task := tasks[id];
      TakeOff(id);
      Cancel(task);
      r := Ok(());
    }

    /** A task of the map leaves the map and the heap, and gives back its slot if it is running. */
    method TakeOff(id: string)
      requires Valid() && id in tasks
      modifies this, pq, pq.Items
      ensures Valid() && tasks == old(tasks) - {id}
      ensures (View(), Ok(())) == QueueSpec.Remove(old(View()), id)
    {
      var wasActive := tasks[id].status == Downloading;
      Forget(id);
      FreeSlot(wasActive);
    }

    method FreeSlot(wasActive: bool)
      requires Valid()
      modifies this`activeCount
      ensures Valid() && activeCount == old(activeCount) - if wasActive then 1 else 0
    {
      if wasActive {
        activeCount := activeCount - 1;
      }
    }

    /** Task.Cancel on a task that has left the map. */
    method Cancel(task: Task)
      requires Valid() && task.id !in tasks
      modifies task
      ensures Valid()
      ensures task.status == if old(task.status) == Done || old(task.status) == Failed then old(task.status) else Cancelled
    {
      if task.status != Done && task.status != Failed && task.status != Cancelled {
        task.status := Cancelled;
      }
    }

    method Pause(id: string) returns (r: Outcome<()>)
      requires Valid()
      modifies this, pq, pq.Items, tasks.Values
      ensures Valid() && (View(), r) == QueueSpec.Pause(old(View()), id)
    {
      if id !in tasks {
        return Err(NotFound);
      }
      var task := tasks[id];
      if task.status != Downloading {
        return Err(NotDownloading);
      }
      StopAndRefill(task);
      r := Ok(());
    }

    method StopAndRefill(task: Task)
      requires Valid() && task.id in tasks && tasks[task.id] == task && task.status == Downloading
      modifies this, pq, pq.Items, tasks.Values
      ensures Valid() && View() == StartNext(WithStatus(old(View()), task.id, Paused).(active := old(activeCount) - 1))
    {
      StopRunning(task);
      TryStartNext();
    }

    /** A running task is paused and its slot given back. */
    method StopRunning(task: Task)
      requires Valid() && task.id in tasks && tasks[task.id] == task && task.status == Downloading
      modifies this`book, this`activeCount, task
      ensures Valid() && tasks == old(tasks)
      ensures View() == WithStatus(old(View()), task.id, Paused).(active := old(activeCount) - 1)
    {
      SetStatus(task, Paused);
      activeCount := activeCount - 1;
    }

    method Resume(id: string) returns (r: Outcome<()>)
      requires Valid()
      modifies this, pq, pq.Items, tasks.Values
      ensures Valid() && (View(), r) == QueueSpec.Resume(old(View()), id)
    {
      if id !in tasks {
        return Err(NotFound);
      }
      var task := tasks[id];
      if task.status != Paused {
        return Err(NotPaused);
      }
      SetStatus(task, Pending);
      var shouldStart := activeCount < maxConcurrent;
      if !shouldStart {
        Enqueue(task);
      } else {
        StartTask(task);
      }
      r := Ok(());
    }

    /** CompleteTask (final status Done) and FailTask (final status Failed). */
    method FinishTask(id: string, final: Status)
      requires Valid() && (final == Done || final == Failed)
      modifies this, pq, pq.Items, tasks.Values
      ensures Valid() && View() == QueueSpec.Finish(old(View()), id)
      ensures id in old(tasks) && old(StatusOf(id)) == Downloading ==> id !in tasks && old(tasks)[id].status == final
    {
      if id !in tasks {
        return;
      }
      var task := tasks[id];
      if task.status != Downloading {
        return;
      }
      Retire(task, final);
      TryStartNext();
    }

    /** A running task gets its final status and leaves the map; its slot is given back. */
    method Retire(task: Task, final: Status)
      requires Valid() && task.id in tasks && tasks[task.id] == task && task.status == Downloading
      requires final == Done || final == Failed
      modifies this`tasks, this`book, this`activeCount, task
      ensures Valid() && tasks == old(tasks) - {task.id} && task.status == final
      ensures View() == old(View()).(tasks := old(book) - {task.id},
                                     active := if old(activeCount) - 1 < 0 then 0 else old(activeCount) - 1)
    {
      SetStatus(task, final);
      ReleaseSlot();
      Detach(task.id);
    }

    method ReleaseSlot()
      requires Valid()
      modifies this`activeCount
      ensures Valid() && activeCount == if old(activeCount) - 1 < 0 then 0 else old(activeCount) - 1
    {
      activeCount := activeCount - 1;
      if activeCount < 0 {
        activeCount := 0;
      }
    }

    /** A task without an item leaves the map. */
    method Detach(id: string)
      requires Valid() && id in tasks && forall x :: x in pq.Items ==> x.task != tasks[id]
      modifies this`tasks, this`book
      ensures Valid() && tasks == old(tasks) - {id}
      ensures View() == old(View()).(tasks := old(book) - {id})
    {
      tasks := tasks - {id};
      book := book - {id};
    }

    method SetMaxConcurrent(max: int)
      requires Valid()
      modifies this, pq, pq.Items, tasks.Values
      ensures Valid() && View() == QueueSpec.SetMaxConcurrent(old(View()), max)
    {
      maxConcurrent := max;
      TryStartNext();
    }
  
    /** Items taken out of the heap and not yet put back from index i on. */
    ghost predicate Outside(items: seq<PriorityItem>, i: nat)
      reads this, pq
    {
      && (forall k :: 0 <= k < |items| ==> Waits(items[k]))
      && (forall k :: i <= k < |items| ==> items[k] !in pq.Items)
      && (forall j, k :: 0 <= j < k < |items| ==> items[j].task != items[k].task)
      && (forall x, k :: x in pq.Items && i <= k < |items| ==> x.task != items[k].task)
    }

    /** Push the drained items back as they are. */
    method PushBack(items: seq<PriorityItem>, ghost order: seq<Entry>)
      requires Valid() && pq.entries == [] && pq.Items == {} && Mirrors(items, order) && Outside(items, 0)
      modifies pq, items
      ensures Valid() && View() == old(View()).(heap := PushedAll([], order))
    {
      var i := 0;
      while i < |items|
        invariant 0 <= i <= |items| && Valid() && Outside(items, i) && Mirrors(items, order)
        invariant forall x :: x in pq.Items ==> x in items
        invariant PushedAll(pq.entries, order[i..]) == PushedAll([], order)
      {
        PushedAllStep(pq.entries, order, i);
        PushItem(items, i);
        i := i + 1;
      }
    }

    /** Give the items their positions as priorities and push them. */
    method Rebuild(items: seq<PriorityItem>, ghost order: seq<Entry>)
      requires Valid() && pq.entries == [] && pq.Items == {} && Mirrors(items, order) && Outside(items, 0)
      modifies this`book, pq, items, tasks.Values
      ensures Valid() && View() == Reordered(old(View()), order)
    {
      var i := 0;
      while i < |items|
        invariant 0 <= i <= |items| && Rebuilding(items, order, i, old(book))
      {
        RebuildStep(items, order, i, old(book));
        i := i + 1;
      }
      assert Renumbered(order)[|items|..] == [];
    }

    ghost predicate SameTasks(items: seq<PriorityItem>, order: seq<Entry>) {
      |order| == |items| && forall k :: 0 <= k < |items| ==> items[k].task.id == order[k].id
    }

    /** The first i items are back in the heap, with their positions as priorities. */
    ghost predicate Rebuilding(items: seq<PriorityItem>, order: seq<Entry>, i: nat, book0: map<string, TaskRec>)
      reads this, pq, pq.Items, tasks.Values, items
    {
      && i <= |items| && SameTasks(items, order) && Valid() && Outside(items, i)
      && (forall x :: x in pq.Items ==> x in items)
      && PushedAll(pq.entries, Renumbered(order)[i..]) == PushedAll([], Renumbered(order))
      && book == Reprioritized(book0, Ids(order), i)
    }

    method RebuildStep(items: seq<PriorityItem>, ghost order: seq<Entry>, i: nat, ghost book0: map<string, TaskRec>)
      requires i < |items| && Rebuilding(items, order, i, book0)
      modifies this`book, pq, pq.Items, items[i], items[i].task
      ensures Rebuilding(items, order, i + 1, book0)
    {
      PushedAllStep(pq.entries, Renumbered(order), i);
      PushAt(items, i);
    }

    /** One round: the item and its task get priority i, and the item goes back into the heap. */
    method PushAt(items: seq<PriorityItem>, i: nat)
      requires Valid() && i < |items| && Outside(items, i)
      modifies this`book, pq, pq.Items, items[i], items[i].task
      ensures Valid() && Outside(items, i + 1)
      ensures pq.Items == old(pq.Items) + {items[i]}
      ensures pq.entries == Pushed(old(pq.entries), Entry(items[i].task.id, i))
      ensures book == old(book)[items[i].task.id := old(book)[items[i].task.id].(priority := i)]
    {
      SetPriority(items[i], i);
      PushItem(items, i);
    }

    method SetPriority(item: PriorityItem, i: nat)
      requires Valid() && Waits(item) && item !in pq.Items && forall x :: x in pq.Items ==> x.task != item.task
      modifies this`book, item, item.task
      ensures Valid() && item.priority == i
      ensures book == old(book)[item.task.id := old(book)[item.task.id].(priority := i)]
    {
      item.priority := i;
      item.task.priority := i;
      book := book[item.task.id := book[item.task.id].(priority := i)];
    }

    method PushItem(items: seq<PriorityItem>, i: nat)
      requires Valid() && i < |items| && Outside(items, i)
      modifies pq, pq.Items, items[i]
      ensures Valid() && Outside(items, i + 1)
      ensures pq.Items == old(pq.Items) + {items[i]}
      ensures pq.entries == Pushed(old(pq.entries), Entry(items[i].task.id, old(items[i].priority)))
      ensures forall k :: 0 <= k < |items| ==> items[k].priority == old(items[k].priority)
    {
      pq.Push(items[i]);
    }
  
    /** Take everything out of the heap, in pop order. */
    method DrainHeap() returns (items: seq<PriorityItem>)
      requires Valid()
      modifies pq, pq.Items
      ensures Valid() && pq.entries == [] && pq.Items == {} && Outside(items, 0)
      ensures Mirrors(items, Drained(old(pq.entries))) && forall k :: 0 <= k < |items| ==> items[k] in old(pq.Items)
    {
      items := pq.DrainAll();
    }

    method FindItem(items: seq<PriorityItem>, id: string, ghost order: seq<Entry>) returns (r: int)
      requires Mirrors(items, order)
      ensures r == FindIndex(order, id, 0)
    {
      for i := 0 to |items|
        invariant FindIndex(order, id, 0) == FindIndex(order, id, i)
      {
        if items[i].task.id == id {
          return i;
        }
      }
      return -1;
    }

    /** The slice with the element at curPos moved to newPos, by the two overlapping copies of the program. */
    static method Shift(items: seq<PriorityItem>, curPos: nat, newPos: nat) returns (r: seq<PriorityItem>)
      requires curPos < |items| && newPos < |items|
      ensures r == Moved(items, curPos, newPos)
    {
      var moved := items[curPos];
      if newPos > curPos {
        r := items[..curPos] + items[curPos + 1..newPos + 1] + items[newPos..];
        MovedUp(items, curPos, newPos);
      } else {
        r := items[..newPos + 1] + items[newPos..curPos] + items[curPos + 1..];
        MovedDown(items, curPos, newPos);
      }
      r := r[newPos := moved];
    }

    method ChangePosition(id: string, pos: int, how: string) returns (r: Outcome<int>)
      requires Valid()
      modifies this, pq, pq.Items, tasks.Values
      ensures Valid() && (View(), r) == QueueSpec.ChangePosition(old(View()), id, pos, how)
    {
      if id !in tasks {
        return Err(NotFound);
      }
      if tasks[id].status != Pending {
        return Err(NotWaiting);
      }
      ghost var order := Drained(pq.entries);
      var items := DrainHeap();
      r := Place(items, id, pos, how, order);
    }

    method Place(items: seq<PriorityItem>, id: string, pos: int, how: string, ghost order: seq<Entry>)
        returns (r: Outcome<int>)
      requires Valid() && pq.entries == [] && pq.Items == {} && Mirrors(items, order) && Outside(items, 0)
      modifies this`book, pq, items, tasks.Values
      ensures Valid() && (View(), r) == Placed(old(View()), order, id, pos, how)
    {
      var curPos := FindItem(items, id, order);
      if curPos < 0 {
        PushBack(items, order);
        return Err(NotInHeap);
      }
      var target := Target(how, pos, curPos, |items|);
      r := PlaceAt(items, curPos, target, order);
    }

    method PlaceAt(items: seq<PriorityItem>, curPos: nat, target: Outcome<int>, ghost order: seq<Entry>)
        returns (r: Outcome<int>)
      requires Valid() && pq.entries == [] && pq.Items == {} && Mirrors(items, order) && Outside(items, 0)
      requires curPos < |items|
      modifies this`book, pq, items, tasks.Values
      ensures Valid() && (View(), r) == PlacedAt(old(View()), order, curPos, target)
    {
      match target {
        case Err(e) =>
          PushBack(items, order);
          r := Err(e);
        case Ok(newPos) =>
          var to := Clamp(newPos, |items|);
          Relocate(items, curPos, to, order);
          r := Ok(to);
      }
    }

    method Relocate(items: seq<PriorityItem>, curPos: nat, newPos: nat, ghost order: seq<Entry>)
      requires Valid() && pq.entries == [] && pq.Items == {} && Mirrors(items, order) && Outside(items, 0)
      requires curPos < |items| && newPos < |items|
      modifies this`book, pq, items, tasks.Values
      ensures Valid() && View() == Reordered(old(View()), Moved(order, curPos, newPos))
    {
      var shifted := ShiftDrained(items, curPos, newPos, order);
      Rebuild(shifted, Moved(order, curPos, newPos));
    }

    method ShiftDrained(items: seq<PriorityItem>, curPos: nat, newPos: nat, ghost order: seq<Entry>)
        returns (shifted: seq<PriorityItem>)
      requires Mirrors(items, order) && Outside(items, 0) && curPos < |items| && newPos < |items|
      ensures Mirrors(shifted, Moved(order, curPos, newPos)) && Outside(shifted, 0)
      ensures forall k :: 0 <= k < |shifted| ==> shifted[k] in items
    {
      shifted := Shift(items, curPos, newPos);
      MovedOutside(items, curPos, newPos, order);
    }

    lemma MovedOutside(items: seq<PriorityItem>, curPos: nat, newPos: nat, order: seq<Entry>)
      requires Mirrors(items, order) && Outside(items, 0) && curPos < |items| && newPos < |items|
      ensures var moved := Moved(items, curPos, newPos);
              && Mirrors(moved, Moved(order, curPos, newPos)) && Outside(moved, 0)
              && forall k :: 0 <= k < |moved| ==> moved[k] in items
    {
      MovedAt(items, curPos, newPos);
      MovedAt(order, curPos, newPos);
      var moved := Moved(items, curPos, newPos);
      forall j, k | 0 <= j < k < |items|
        ensures moved[j].task != moved[k].task
      {
        OldIndexInjective(curPos, newPos, j, k);
      }
    }
  }
}
