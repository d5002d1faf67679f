/** The task heap as the program keeps it: a slice of items that know their own index, sifted in place. */
module PriorityQueues {
  import opened HeapSpec
  import opened QueueSpec
  import opened QueueOrder

  class Task {
    const id: string
    var priority: int
    var status: Status

    constructor (id: string, priority: int)
      ensures this.id == id && this.priority == priority && status == Pending
    {
      this.id := id;
      this.priority := priority;
      status := Pending;
    }
  }

  class PriorityItem {
    const task: Task
    var priority: int
    var index: int

    constructor (task: Task, priority: int)
      ensures this.task == task && this.priority == priority
    {
      this.task := task;
      this.priority := priority;
      index := -1;
    }
  }

  /** The items have these ids and priorities. */
  ghost predicate Mirrors(items: seq<PriorityItem>, entries: seq<Entry>)
    reads items
  {
    |items| == |entries| && forall k :: 0 <= k < |items| ==> entries[k] == Entry(items[k].task.id, items[k].priority)
  }

  /** Different items, all from the set. */
  ghost predicate Apart(items: seq<PriorityItem>, from: set<PriorityItem>) {
    && (forall k :: 0 <= k < |items| ==> items[k] in from)
    && (forall i, j :: 0 <= i < j < |items| ==> items[i] != items[j])
  }

  class PriorityQueue {
    var items: seq<PriorityItem>
    ghost var entries: seq<Entry>       // ids and priorities of the items, in slice order
    ghost var Items: set<PriorityItem>  // the items in the slice

    /** Every item knows where it is (so no item is in the slice twice), and entries mirrors the slice. */
    ghost predicate Valid()
      reads this, Items
    {
      && |entries| == |items|
      && (forall i :: 0 <= i < |items| ==>
            && items[i] in Items && items[i].index == i
            && entries[i] == Entry(items[i].task.id, items[i].priority))
      && (forall x :: x in Items ==> 0 <= x.index < |items| && items[x.index] == x)
    }

    constructor ()
      ensures Valid() && entries == [] && Items == {}
    {
      items, entries, Items := [], [], {};
    }

    method Swap(i: nat, j: nat)
      requires Valid() && i < |items| && j < |items|
      modifies this, Items
      ensures Valid() && entries == Swapped(old(entries), i, j)
      ensures Items == old(Items)
      ensures forall x :: x in Items ==> x.priority == old(x.priority)
    {
      items := items[i := items[j]][j := items[i]];
      items[i].index := i;
      items[j].index := j;
      entries := Swapped(entries, i, j);
    }
  
    /** container/heap's up. */
    method SiftUp(j0: nat)
      requires Valid() && j0 < |items|
      modifies this, Items
      ensures Valid() && entries == Up(old(entries), j0)
      ensures Items == old(Items)
      ensures forall x :: x in Items ==> x.priority == old(x.priority)
    {
      var j: nat := j0;
      while true
        invariant Valid() && j < |items|
        invariant Up(entries, j) == Up(old(entries), j0)
        invariant Items == old(Items)
        invariant forall x :: x in Items ==> x.priority == old(x.priority)
        decreases j
      {
        var i := Parent(j);
        if i == j || items[j].priority >= items[i].priority {
          break;
        }
        Swap(i, j);
        j := i;
      }
    }

    method SmallerChild(i: nat, n: nat) returns (j: nat)
      requires Valid() && n <= |items| && 2 * i + 1 < n
      ensures j == Child(entries, i, n)
    {
      var j1 := 2 * i + 1;
      j := j1;
      var j2 := j1 + 1;
      if j2 < n && items[j2].priority < items[j1].priority {
        j := j2;
      }
    }

    /** container/heap's down, over the first n items; tells whether the item moved. */
    method SiftDown(i0: nat, n: nat) returns (moved: bool)
      requires Valid() && i0 < |items| && n <= |items|
      modifies this, Items
      ensures Valid() && entries == Down(old(entries), i0, n)
      ensures moved <==> Sinks(old(entries), i0, n)
      ensures Items == old(Items)
      ensures forall x :: x in Items ==> x.priority == old(x.priority)
    {
      var i := i0;
      while true
        invariant Valid() && i0 <= i < |items| && n <= |items|
        invariant Down(entries, i, n) == Down(old(entries), i0, n)
        invariant i == i0 ==> entries == old(entries)
        invariant i > i0 ==> Sinks(old(entries), i0, n)
        invariant Items == old(Items)
        invariant forall x :: x in Items ==> x.priority == old(x.priority)
        decreases n - i
      {
        var j1 := 2 * i + 1;
        if j1 >= n {
          break;
        }
        var j := SmallerChild(i, n);
        if items[j].priority >= items[i].priority {
          break;
        }
        Swap(i, j);
        i := j;
      }
      moved := i > i0;
    }

    method Push(item: PriorityItem)
      requires Valid() && item !in Items
      modifies this, Items, item
      ensures Valid() && entries == Pushed(old(entries), Entry(item.task.id, item.priority))
      ensures Items == old(Items) + {item}
      ensures forall x :: x in Items ==> x.priority == old(x.priority)
    {
      Append(item);
      SiftUp(|items| - 1);
    }

    /** The slice gets a new last item. */
    method Append(item: PriorityItem)
      requires Valid() && item !in Items
      modifies this, item
      ensures Valid() && entries == old(entries) + [Entry(item.task.id, item.priority)]
      ensures Items == old(Items) + {item}
      ensures forall x :: x in Items ==> x.priority == old(x.priority)
    {
      item.index := |items|;
      items := items + [item];
      Items := Items + {item};
      entries := entries + [Entry(item.task.id, item.priority)];
    }

    method Pop() returns (item: PriorityItem)
      requires Valid() && items != []
      modifies this, Items
      ensures Valid() && entries == Popped(old(entries))
      ensures item in old(Items) && Entry(item.task.id, item.priority) == old(entries)[0]
      ensures Items == old(Items) - {item} && item.index == -1
      ensures forall x :: x in old(Items) ==> x.priority == old(x.priority)
    {
      SinkRoot();
      item := TakeLast();
    }

    /** Pop until the heap is empty. */
    method DrainAll() returns (drained: seq<PriorityItem>)
      requires Valid()
      modifies this, Items
      ensures Valid() && entries == [] && Items == {}
      ensures Mirrors(drained, Drained(old(entries)))
      ensures Apart(drained, old(Items))
    {
      drained := [];
      ghost var popped: seq<Entry> := [];
      ghost var order := Drained(entries);
      while |items| > 0
        invariant Valid() && Items <= old(Items)
        invariant Mirrors(drained, popped)
        invariant Apart(drained, old(Items) - Items)
        invariant order == popped + Drained(entries)
        decreases |items|
      {
        DrainedStep(entries, popped);
        popped := popped + [entries[0]];
        drained := PopOnto(drained, popped, old(Items));
      }
    }

    /** Pop one item onto a list of popped ones. */
    method PopOnto(before: seq<PriorityItem>, ghost popped: seq<Entry>, ghost all: set<PriorityItem>)
        returns (after: seq<PriorityItem>)
      requires Valid() && items != [] && popped != [] && popped[|popped| - 1] == entries[0]
      requires Mirrors(before, popped[..|popped| - 1]) && Items <= all && Apart(before, all - Items)
      modifies this, Items
      ensures Valid() && entries == Popped(old(entries)) && |items| == old(|items|) - 1
      ensures Mirrors(after, popped) && Items <= old(Items) && Apart(after, all - Items)
    {
      var item := Pop();
      after := before + [item];
    }

    method SinkRoot()
      requires Valid() && items != []
      modifies this, Items
      ensures Valid() && entries == RootSunk(old(entries)) && entries[|entries| - 1] == old(entries)[0]
      ensures Items == old(Items)
      ensures forall x :: x in Items ==> x.priority == old(x.priority)
    {
      var n := |items| - 1;
      Swap(0, n);
      DownKeepsTail(entries, 0, n, n);
      var _ := SiftDown(0, n);
    }

    /** heap.Remove: take out the item at i and let the one that takes its place sink or rise. */
    method Remove(i: nat) returns (item: PriorityItem)
      requires Valid() && i < |items|
      modifies this, Items
      ensures Valid() && entries == Removed(old(entries), i)
      ensures item in old(Items) && Entry(item.task.id, item.priority) == old(entries)[i]
      ensures Items == old(Items) - {item} && item.index == -1
      ensures forall x :: x in old(Items) ==> x.priority == old(x.priority)
    {
      var n := |items| - 1;
      if n != i {
        Swap(i, n);
        Sift(i, n);
      }
      item := TakeLast();
    }

    method Sift(i: nat, n: nat)
      requires Valid() && i < n == |items| - 1
      modifies this, Items
      ensures Valid() && entries == Sifted(old(entries), i, n) && entries[n] == old(entries)[n]
      ensures Items == old(Items)
      ensures forall x :: x in Items ==> x.priority == old(x.priority)
    {
      DownKeepsTail(entries, i, n, n);
      UpKeepsTail(entries, i, n);
      var moved := SiftDown(i, n);
      if !moved {
        SiftUp(i);
      }
    }

    /** The slice loses its last item. */
    method TakeLast() returns (item: PriorityItem)
      requires Valid() && items != []
      modifies this, Items
      ensures Valid() && entries == old(entries)[..|old(entries)| - 1]
      ensures item in old(Items) && Entry(item.task.id, item.priority) == old(entries)[|old(entries)| - 1]
      ensures Items == old(Items) - {item} && item.index == -1
      ensures forall x :: x in old(Items) ==> x.priority == old(x.priority)
    {
      var n := |items| - 1;
      item := items[n];
      item.index := -1;
      items, entries := items[..n], entries[..n];
      Items := Items - {item};
    }
  }
}
