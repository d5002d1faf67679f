/** What every operation of the task queue keeps, with each operation taken as one step. */
module QueueInvariants {
  import opened HeapSpec
  import opened QueueOrder
  import opened QueueSpec

  function InStatus(tasks: map<string, TaskRec>, st: Status): set<string> {
    set id | id in tasks && tasks[id].status == st
  }

  /** Exactly the pending tasks wait in the heap, each with one entry. */
  ghost predicate HeapIsPending(bag: multiset<Entry>, tasks: map<string, TaskRec>) {
    && (forall e :: e in bag ==> e.id in tasks && tasks[e.id].status == Pending && bag[e] == 1)
    && (forall e, f :: e in bag && f in bag && e.id == f.id ==> e == f)
    && (forall id :: id in tasks && tasks[id].status == Pending ==> exists e :: e in bag && e.id == id)
  }

  /** The queue's books are right: heap order, the heap is the pending tasks, the counter is the downloading ones. */
  ghost predicate Conserved(q: Queue) {
    && IsHeap(q.heap, |q.heap|)
    && HeapIsPending(multiset(q.heap), q.tasks)
    && q.active == |InStatus(q.tasks, Downloading)|
  }

  /** No slot stays free while a task waits. */
  predicate WorkConserving(q: Queue) {
    q.heap != [] ==> q.active >= q.max
  }

  lemma StatusChangeCounts(tasks: map<string, TaskRec>, id: string, rec: TaskRec, st: Status)
    ensures var now, was := InStatus(tasks[id := rec], st), InStatus(tasks, st);
            && now == (if rec.status == st then was + {id} else was - {id})
            && |now| == |was| + (if rec.status == st && id !in was then 1 else if rec.status != st && id in was then -1 else 0)
  {
    var now, was := InStatus(tasks[id := rec], st), InStatus(tasks, st);
    if rec.status == st {
      assert now == was + {id};
    } else {
      assert now == was - {id};
    }
  }

  lemma LeavingCounts(tasks: map<string, TaskRec>, id: string, st: Status)
    requires id in tasks
    ensures var now, was := InStatus(tasks - {id}, st), InStatus(tasks, st);
            now == was - {id} && |now| == |was| - if tasks[id].status == st then 1 else 0
  {
    assert InStatus(tasks - {id}, st) == InStatus(tasks, st) - {id};
  }

  /** A waiting task leaves the heap and the set of pending tasks together. */
  lemma BagWithout(bag: multiset<Entry>, rest: multiset<Entry>, e: Entry, tasks: map<string, TaskRec>,
                   after: map<string, TaskRec>)
    requires HeapIsPending(bag, tasks) && bag == rest + multiset{e}
    requires forall id :: id != e.id ==> (id in after <==> id in tasks) && (id in tasks ==> after[id].status == tasks[id].status)
    requires e.id in after ==> after[e.id].status != Pending
    ensures HeapIsPending(rest, after)
  {
    forall f | f in rest
      ensures f.id != e.id && f in bag && rest[f] == 1
    {
      assert f in bag;
    }
    forall id | id in after && after[id].status == Pending
      ensures exists f :: f in rest && f.id == id
    {
      var f :| f in bag && f.id == id;
      assert f in rest;
    }
  }

  /** A task that becomes pending enters the heap. */
  lemma BagWith(bag: multiset<Entry>, e: Entry, tasks: map<string, TaskRec>, after: map<string, TaskRec>)
    requires HeapIsPending(bag, tasks)
    requires forall id :: id != e.id ==> (id in after <==> id in tasks) && (id in tasks ==> after[id].status == tasks[id].status)
    requires e.id in tasks ==> tasks[e.id].status != Pending
    requires e.id in after && after[e.id].status == Pending
    ensures HeapIsPending(bag + multiset{e}, after)
  {
    var more := bag + multiset{e};
    assert forall f :: f in more <==> f in bag || f == e;
    assert forall f :: f in bag ==> f.id != e.id && more[f] == bag[f];
    assert e !in bag;
    forall id | id in after && after[id].status == Pending
      ensures exists f :: f in more && f.id == id
    {
      if id == e.id {
        assert e in more;
      } else {
        var f :| f in bag && f.id == id;
        assert f in more;
      }
    }
  }

  /** Changes to tasks that were and stay non-pending do not concern the heap. */
  lemma BagSame(bag: multiset<Entry>, tasks: map<string, TaskRec>, after: map<string, TaskRec>)
    requires HeapIsPending(bag, tasks)
    requires forall id :: (id in tasks && tasks[id].status == Pending) <==> (id in after && after[id].status == Pending)
    ensures HeapIsPending(bag, after)
  {
  }

  // ----- starting tasks -----

  /** How many tasks tryStartNext starts. */
  function Slots(q: Queue): nat {
    if q.active >= q.max then 0
    else if q.max - q.active <= |q.heap| then q.max - q.active else |q.heap|
  }

  lemma StartOne(q: Queue)
    requires Conserved(q) && q.heap != []
    ensures var id := q.heap[0].id;
            && id in q.tasks && q.tasks[id].status == Pending
            && Conserved(Start(q.(heap := Popped(q.heap)), id))
            && forall e :: e in q.heap ==> q.heap[0].priority <= e.priority
  {
    var e := q.heap[0];
    assert e in multiset(q.heap);
    PopKeepsHeap(q.heap);
    var after := q.tasks[e.id := q.tasks[e.id].(status := Downloading)];
    BagWithout(multiset(q.heap), multiset(Popped(q.heap)), e, q.tasks, after);
    StatusChangeCounts(q.tasks, e.id, q.tasks[e.id].(status := Downloading), Downloading);
  }

  /** The tasks of the first k entries are downloading now; no other task changed. */
  ghost predicate Started(before: map<string, TaskRec>, after: map<string, TaskRec>, order: seq<Entry>, k: nat) {
    && k <= |order|
    && after.Keys == before.Keys
    && (forall e :: e in order[..k] ==> e.id in before && after[e.id] == before[e.id].(status := Downloading))
    && (forall id :: id in before && (forall e :: e in order[..k] ==> e.id != id) ==> after[id] == before[id])
  }

  lemma StartedStep(before: map<string, TaskRec>, mid: map<string, TaskRec>, after: map<string, TaskRec>,
                    order: seq<Entry>, k: nat)
    requires order != [] && order[0].id in before && Started(mid, after, order[1..], k)
    requires mid == before[order[0].id := before[order[0].id].(status := Downloading)]
    ensures Started(before, after, order, k + 1)
  {
    assert order[..k + 1] == [order[0]] + order[1..][..k];
    assert forall e :: e in order[..k + 1] <==> e == order[0] || e in order[1..][..k];
  }

  /** tryStartNext starts exactly the first tasks of the pop order, as many as there are free slots, and leaves the
      rest waiting in the same order. It stops only with all slots taken or nothing waiting. */
  lemma {:induction false} StartNextTakesPrefix(q: Queue)
    requires Conserved(q)
    ensures var t, order, k := StartNext(q), Drained(q.heap), Slots(q);
            && Conserved(t) && WorkConserving(t)
            && t.max == q.max && t.active == q.active + k
            && Drained(t.heap) == order[k..]
            && Started(q.tasks, t.tasks, order, k)
    decreases |q.heap|
  {
    if q.active < q.max && q.heap != [] {
      StartOne(q);
      var next := Start(q.(heap := Popped(q.heap)), q.heap[0].id);
      StartNextTakesPrefix(next);
      StartStep(q, next);
      StartedStep(q.tasks, next.tasks, StartNext(next).tasks, Drained(q.heap), Slots(next));
      assert Drained(q.heap)[1..][Slots(next)..] == Drained(q.heap)[Slots(q)..];
    }
  }

  lemma StartStep(q: Queue, next: Queue)
    requires Conserved(q) && q.heap != [] && q.active < q.max && q.heap[0].id in q.tasks
    requires q.tasks[q.heap[0].id].status == Pending
    requires next == Start(q.(heap := Popped(q.heap)), q.heap[0].id)
    ensures StartNext(q) == StartNext(next) && Slots(q) == Slots(next) + 1
    ensures Drained(q.heap)[0] == q.heap[0] && Drained(q.heap)[1..] == Drained(next.heap)
  {
  }

  /** Every task started had the smallest priority among those waiting at that time. */
  lemma StartedAreMinimal(q: Queue, i: nat, j: nat)
    requires Conserved(q) && i < Slots(q) && i <= j < |q.heap|
    ensures Drained(q.heap)[i].priority <= Drained(q.heap)[j].priority
  {
    DrainedIsSorted(q.heap);
  }

  // ----- one lemma per operation -----

  /** Adding keeps the books right exactly when the id is taken or the task comes in pending. */
  lemma AddKeepsIff(q: Queue, id: string, rec: TaskRec)
    requires Conserved(q)
    ensures Conserved(Add(q, id, rec).0) <==> id in q.tasks || rec.status == Pending
    ensures WorkConserving(q) && rec.status == Pending ==> WorkConserving(Add(q, id, rec).0)
  {
    if id !in q.tasks {
      var e := Entry(id, rec.priority);
      PushKeepsHeap(q.heap, e);
      if rec.status != Pending {
        assert e in multiset(Pushed(q.heap, e));
      } else if q.active < q.max {
        AddStarted(q, id, rec);
      } else {
        AddWaiting(q, id, rec);
      }
    }
  }

  lemma AddStarted(q: Queue, id: string, rec: TaskRec)
    requires Conserved(q) && id !in q.tasks && rec.status == Pending && q.active < q.max
    ensures Conserved(Add(q, id, rec).0)
  {
    var after := q.tasks[id := rec];
    var started := after[id := rec.(status := Downloading)];
    StatusChangeCounts(q.tasks, id, rec, Downloading);
    BagSame(multiset(q.heap), q.tasks, started);
    StatusChangeCounts(after, id, rec.(status := Downloading), Downloading);
  }

  lemma AddWaiting(q: Queue, id: string, rec: TaskRec)
    requires Conserved(q) && id !in q.tasks && rec.status == Pending && q.active >= q.max
    ensures Conserved(Add(q, id, rec).0)
  {
    var e := Entry(id, rec.priority);
    PushKeepsHeap(q.heap, e);
    StatusChangeCounts(q.tasks, id, rec, Downloading);
    BagWith(multiset(q.heap), e, q.tasks, q.tasks[id := rec]);
  }

  lemma FindsTheEntry(h: seq<Entry>, tasks: map<string, TaskRec>, id: string)
    requires HeapIsPending(multiset(h), tasks) && id in tasks
    ensures FindIndex(h, id, 0) != -1 <==> tasks[id].status == Pending
  {
    if FindIndex(h, id, 0) != -1 {
      assert h[FindIndex(h, id, 0)] in multiset(h);
    }
    if tasks[id].status == Pending {
      var e :| e in multiset(h) && e.id == id;
      var j :| 0 <= j < |h| && h[j] == e;
    }
  }

  lemma RemovePending(q: Queue, id: string)
    requires Conserved(q) && id in q.tasks && q.tasks[id].status == Pending
    ensures var t, i := Remove(q, id).0, FindIndex(q.heap, id, 0);
            && Conserved(t) && i >= 0 && multiset(q.heap) == multiset(t.heap) + multiset{q.heap[i]}
  {
    LeavingCounts(q.tasks, id, Downloading);
    FindsTheEntry(q.heap, q.tasks, id);
    var i := FindIndex(q.heap, id, 0);
    RemoveKeepsHeap(q.heap, i);
    BagWithout(multiset(q.heap), multiset(Removed(q.heap, i)), q.heap[i], q.tasks, q.tasks - {id});
  }

  lemma RemoveOther(q: Queue, id: string)
    requires Conserved(q) && id in q.tasks && q.tasks[id].status != Pending
    ensures Conserved(Remove(q, id).0) && Remove(q, id).0.heap == q.heap
  {
    LeavingCounts(q.tasks, id, Downloading);
    FindsTheEntry(q.heap, q.tasks, id);
    BagSame(multiset(q.heap), q.tasks, q.tasks - {id});
  }

  /** Removing a task takes it out of the map and, if it waits, takes exactly its one entry out of the heap, wherever
      that is. The slot of an active task is not refilled: work conservation survives exactly when no slot was freed
      or nothing can take it. */
  lemma RemoveKeeps(q: Queue, id: string)
    requires Conserved(q)
    ensures Conserved(Remove(q, id).0)
    ensures id in q.tasks && q.tasks[id].status == Pending ==>
              exists e :: e in q.heap && e.id == id && multiset(q.heap) == multiset(Remove(q, id).0.heap) + multiset{e}
    ensures !(id in q.tasks && q.tasks[id].status == Pending) ==> Remove(q, id).0.heap == q.heap
    ensures WorkConserving(q) ==>
              (WorkConserving(Remove(q, id).0) <==>
                 !(id in q.tasks && q.tasks[id].status == Downloading) || q.heap == [] || q.active > q.max)
  {
    if id in q.tasks {
      if q.tasks[id].status == Pending {
        RemovePending(q, id);
        assert q.heap[FindIndex(q.heap, id, 0)] in q.heap;
      } else {
        RemoveOther(q, id);
      }
    }
  }

  lemma PauseKeeps(q: Queue, id: string)
    requires Conserved(q)
    ensures Conserved(Pause(q, id).0)
    ensures WorkConserving(q) ==> WorkConserving(Pause(q, id).0)
  {
    if id in q.tasks && q.tasks[id].status == Downloading {
      var rec := q.tasks[id].(status := Paused);
      StatusChangeCounts(q.tasks, id, rec, Downloading);
      BagSame(multiset(q.heap), q.tasks, q.tasks[id := rec]);
      StartNextTakesPrefix(WithStatus(q, id, Paused).(active := q.active - 1));
    }
  }

  lemma ResumeKeeps(q: Queue, id: string)
    requires Conserved(q)
    ensures Conserved(Resume(q, id).0)
    ensures WorkConserving(q) ==> WorkConserving(Resume(q, id).0)
  {
    if id in q.tasks && q.tasks[id].status == Paused {
      var waiting := q.tasks[id := q.tasks[id].(status := Pending)];
      StatusChangeCounts(q.tasks, id, waiting[id], Downloading);
      if q.active < q.max {
        var started := waiting[id := waiting[id].(status := Downloading)];
        BagSame(multiset(q.heap), q.tasks, started);
        StatusChangeCounts(waiting, id, started[id], Downloading);
      } else {
        var e := Entry(id, waiting[id].priority);
        PushKeepsHeap(q.heap, e);
        BagWith(multiset(q.heap), e, q.tasks, waiting);
      }
    }
  }

  /** The source's guard against a negative counter never fires: a downloading task implies a positive one. */
  lemma FinishKeeps(q: Queue, id: string)
    requires Conserved(q)
    ensures Conserved(Finish(q, id))
    ensures WorkConserving(q) ==> WorkConserving(Finish(q, id))
    ensures id in q.tasks && q.tasks[id].status == Downloading ==> q.active >= 1
  {
    if id in q.tasks && q.tasks[id].status == Downloading {
      assert id in InStatus(q.tasks, Downloading);
      LeavingCounts(q.tasks, id, Downloading);
      BagSame(multiset(q.heap), q.tasks, q.tasks - {id});
      StartNextTakesPrefix(q.(tasks := q.tasks - {id}, active := q.active - 1));
    }
  }

  lemma SetMaxKeeps(q: Queue, max: int)
    requires Conserved(q)
    ensures Conserved(SetMaxConcurrent(q, max)) && WorkConserving(SetMaxConcurrent(q, max))
  {
    StartNextTakesPrefix(q.(max := max));
  }
}
