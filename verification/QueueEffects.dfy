/** What each operation of the task queue does to the tasks, the waiting line and the counter, and that the limit holds. */
module QueueEffects {
  import opened HeapSpec
  import opened QueueOrder
  import opened QueueSpec
  import opened QueueInvariants
  import opened QueueRuns

  /** No task but this one has changed. */
  ghost predicate OnlyTask(before: map<string, TaskRec>, after: map<string, TaskRec>, id: string) {
    forall x :: x != id ==> (x in after <==> x in before) && (x in before ==> after[x] == before[x])
  }

  /** The task runs if there is a free slot, else it waits, with one entry more in the heap. */
  ghost predicate StartsOrWaits(q: Queue, t: Queue, id: string, rec: TaskRec) {
    && id in t.tasks && OnlyTask(q.tasks, t.tasks, id) && t.max == q.max
    && (q.active < q.max ==>
          t.tasks[id] == rec.(status := Downloading) && t.active == q.active + 1 && multiset(t.heap) == multiset(q.heap))
    && (q.active >= q.max ==>
          t.tasks[id] == rec.(status := Pending) && t.active == q.active
          && multiset(t.heap) == multiset(q.heap) + multiset{Entry(id, rec.priority)})
  }

  /** A new pending task starts exactly when a slot is free; a taken id is an error and changes nothing. */
  lemma AddEffect(q: Queue, id: string, rec: TaskRec)
    requires Conserved(q)
    ensures var (t, r) := Add(q, id, rec);
            && r == (if id in q.tasks then Err(AlreadyExists) else Ok(()))
            && (r.Err? ==> t == q)
            && (r.Ok? && rec.status == Pending ==> StartsOrWaits(q, t, id, rec))
  {
    PushKeepsHeap(q.heap, Entry(id, rec.priority));
  }

  /** A paused task goes on exactly when a slot is free; the errors change nothing. */
  lemma ResumeEffect(q: Queue, id: string)
    requires Conserved(q)
    ensures var (t, r) := Resume(q, id);
            && r == (if id !in q.tasks then Err(NotFound)
                     else if q.tasks[id].status != Paused then Err(NotPaused) else Ok(()))
            && (r.Err? ==> t == q)
            && (r.Ok? ==> StartsOrWaits(q, t, id, q.tasks[id]))
  {
    if id in q.tasks {
      PushKeepsHeap(q.heap, Entry(id, q.tasks[id].priority));
    }
  }

  /** A removed task is gone, with its slot or its entry; the errors change nothing. */
  lemma RemoveEffect(q: Queue, id: string)
    requires Conserved(q)
    ensures var (t, r) := Remove(q, id);
            && r == (if id !in q.tasks then Err(NotFound) else Ok(()))
            && (r.Err? ==> t == q)
            && (r.Ok? ==>
                  && id !in t.tasks && OnlyTask(q.tasks, t.tasks, id) && t.max == q.max
                  && (q.tasks[id].status == Downloading ==> t.active == q.active - 1 && t.heap == q.heap)
                  && (q.tasks[id].status != Downloading ==> t.active == q.active)
                  && (q.tasks[id].status != Pending ==> t.heap == q.heap)
                  && forall e :: e in multiset(t.heap) <==> e in multiset(q.heap) && e.id != id)
  {
    if id in q.tasks {
      if q.tasks[id].status == Pending {
        RemovePending(q, id);
        EntryGone(q, id);
      } else {
        RemoveOther(q, id);
        NoEntry(q, id);
      }
    }
  }

  lemma NoEntry(q: Queue, id: string)
    requires Conserved(q) && id in q.tasks && q.tasks[id].status != Pending
    ensures forall e :: e in multiset(q.heap) ==> e.id != id
  {
  }

  lemma EntryGone(q: Queue, id: string)
    requires Conserved(q) && id in q.tasks && q.tasks[id].status == Pending
    requires 0 <= FindIndex(q.heap, id, 0) < |q.heap|
    requires multiset(q.heap) == multiset(Remove(q, id).0.heap) + multiset{q.heap[FindIndex(q.heap, id, 0)]}
    ensures forall e :: e in multiset(Remove(q, id).0.heap) <==> e in multiset(q.heap) && e.id != id
  {
    var gone, rest := q.heap[FindIndex(q.heap, id, 0)], multiset(Remove(q, id).0.heap);
    assert gone in multiset(q.heap) && gone.id == id;
    forall e | e in multiset(q.heap)
      ensures e in rest <==> e.id != id
    {
      assert multiset(q.heap)[e] == 1;
      if e.id == id {
        assert e == gone;
      } else {
        assert e != gone;
      }
    }
  }

  /** From q on, the first k tasks of the waiting order have been started: as many as fit, and no more. */
  ghost predicate Refills(q: Queue, t: Queue, k: nat) {
    && k <= |q.heap| && t.max == q.max && t.active == q.active + k
    && Drained(t.heap) == Drained(q.heap)[k..] && Started(q.tasks, t.tasks, Drained(q.heap), k)
    && (k > 0 ==> t.active <= t.max)
    && (k < |q.heap| ==> t.active >= t.max)
  }

  lemma StartNextRefills(q: Queue) returns (k: nat)
    requires Conserved(q)
    ensures Refills(q, StartNext(q), k)
  {
    StartNextTakesPrefix(q);
    k := Slots(q);
  }

  /** The task is as it was, or was pending and runs now. */
  predicate SameOrStarted(before: map<string, TaskRec>, after: map<string, TaskRec>, id: string)
    requires id in before && id in after
  {
    after[id] == before[id] || (before[id].status == Pending && after[id] == before[id].(status := Downloading))
  }

  /** Whatever the heap holds, entries of running or finished tasks included: only pending tasks are started, each is
      counted once, the limit is kept, and a free slot is left only when nothing waits. */
  lemma {:induction false} StartNextOnlyPending(q: Queue)
    ensures var t := StartNext(q);
            && t.tasks.Keys == q.tasks.Keys && t.max == q.max
            && (forall id :: id in q.tasks ==> SameOrStarted(q.tasks, t.tasks, id))
            && t.active - q.active == |InStatus(t.tasks, Downloading)| - |InStatus(q.tasks, Downloading)| >= 0
            && (t.active <= t.max || t.active == q.active)
            && (t.active >= t.max || t.heap == [])
    decreases |q.heap|
  {
    if q.active < q.max && q.heap != [] {
      StartNextOnlyPending(StartFirst(q));
      var id := q.heap[0].id;
      if id in q.tasks && q.tasks[id].status == Pending {
        StatusChangeCounts(q.tasks, id, q.tasks[id].(status := Downloading), Downloading);
      }
    }
  }

  /** A task that does not wait is not started. */
  lemma NotStarted(before: map<string, TaskRec>, after: map<string, TaskRec>, order: seq<Entry>, k: nat, id: string)
    requires Started(before, after, order, k) && id in before && forall e :: e in order ==> e.id != id
    ensures after[id] == before[id]
  {
    assert forall e :: e in order[..k] ==> e in order;
  }

  lemma NotInLine(q: Queue, id: string)
    requires Conserved(q) && id in q.tasks && q.tasks[id].status != Pending
    ensures forall e :: e in Drained(q.heap) ==> e.id != id
  {
    DrainedIsSorted(q.heap);
    forall e | e in Drained(q.heap)
      ensures e.id != id
    {
      assert e in multiset(Drained(q.heap));
    }
  }

  /** A paused task gives its slot to those who wait, in their order, and is paused afterwards. */
  lemma PauseEffect(q: Queue, id: string) returns (k: nat)
    requires Conserved(q)
    ensures var (t, r) := Pause(q, id);
            && r == (if id !in q.tasks then Err(NotFound)
                     else if q.tasks[id].status != Downloading then Err(NotDownloading) else Ok(()))
            && (r.Err? ==> t == q)
            && (r.Ok? ==>
                  && Refills(q.(tasks := q.tasks[id := q.tasks[id].(status := Paused)], active := q.active - 1), t, k)
                  && id in t.tasks && t.tasks[id] == q.tasks[id].(status := Paused))
  {
    k := 0;
    if id in q.tasks && q.tasks[id].status == Downloading {
      var freed := q.(tasks := q.tasks[id := q.tasks[id].(status := Paused)], active := q.active - 1);
      FreedIsConserved(q, id);
      k := StartNextRefills(freed);
      NotInLine(freed, id);
      NotStarted(freed.tasks, StartNext(freed).tasks, Drained(freed.heap), k, id);
    }
  }

  lemma FreedIsConserved(q: Queue, id: string)
    requires Conserved(q) && id in q.tasks && q.tasks[id].status == Downloading
    ensures Conserved(q.(tasks := q.tasks[id := q.tasks[id].(status := Paused)], active := q.active - 1))
    ensures Conserved(q.(tasks := q.tasks - {id}, active := q.active - 1)) && q.active >= 1
  {
    var rec := q.tasks[id].(status := Paused);
    assert id in InStatus(q.tasks, Downloading);
    StatusChangeCounts(q.tasks, id, rec, Downloading);
    BagSame(multiset(q.heap), q.tasks, q.tasks[id := rec]);
    LeavingCounts(q.tasks, id, Downloading);
    BagSame(multiset(q.heap), q.tasks, q.tasks - {id});
  }

  /** A finished task is gone and gives its slot to those who wait; anything but a running task is left alone. */
  lemma FinishEffect(q: Queue, id: string) returns (k: nat)
    requires Conserved(q)
    ensures var t := Finish(q, id);
            if id in q.tasks && q.tasks[id].status == Downloading
            then id !in t.tasks && Refills(q.(tasks := q.tasks - {id}, active := q.active - 1), t, k)
            else t == q
  {
    k := 0;
    if id in q.tasks && q.tasks[id].status == Downloading {
      FreedIsConserved(q, id);
      k := StartNextRefills(q.(tasks := q.tasks - {id}, active := q.active - 1));
    }
  }

  /** A new limit is in force at once: tasks start until it is reached or none waits, and none is stopped. */
  lemma SetMaxEffect(q: Queue, max: int) returns (k: nat)
    requires Conserved(q)
    ensures SetMaxConcurrent(q, max).max == max && Refills(q.(max := max), SetMaxConcurrent(q, max), k)
  {
    k := StartNextRefills(q.(max := max));
  }

  // ----- the limit -----

  /** The limit is set below the number of running tasks. */
  predicate Lowers(q: Queue, op: Op) {
    op.SetMaxOp? && op.max < q.active
  }

  /** A step takes the counter over the limit exactly when it lowers the limit below the counter; above the limit the
      counter never grows. */
  lemma StepLimit(q: Queue, op: Op)
    requires Conserved(q) && (op.AddOp? ==> op.rec.status == Pending)
    ensures var t := Apply(q, op);
            && (q.active <= q.max ==> (t.active <= t.max <==> !Lowers(q, op)))
            && (t.active <= t.max || t.active <= q.active)
            && (!op.SetMaxOp? ==> t.max == q.max)
  {
    match op
    case AddOp(id, rec) => AddEffect(q, id, rec);
    case RemoveOp(id) => RemoveEffect(q, id);
    case PauseOp(id) => var k := PauseEffect(q, id);
    case ResumeOp(id) => ResumeEffect(q, id);
    case FinishOp(id) => var k := FinishEffect(q, id);
    case SetMaxOp(max) => var k := SetMaxEffect(q, max);
    case MoveOp(id, pos, how) => SameLengthMove(q, id, pos, how);
  }

  predicate NeverLowers(q: Queue, ops: seq<Op>)
    decreases |ops|
  {
    ops == [] || (!Lowers(q, ops[0]) && NeverLowers(Apply(q, ops[0]), ops[1..]))
  }

  lemma {:induction false} RunWithinLimit(q: Queue, ops: seq<Op>)
    requires Conserved(q) && AddsPending(ops) && q.active <= q.max && NeverLowers(q, ops)
    ensures Run(q, ops).active <= Run(q, ops).max
    decreases |ops|
  {
    if ops != [] {
      StepKeeps(q, ops[0]);
      StepLimit(q, ops[0]);
      RunWithinLimit(Apply(q, ops[0]), ops[1..]);
    }
  }

  /** In every run from an empty queue in which the limit is never set below the number of running tasks, there are never
      more running tasks than the limit. */
  lemma LimitHolds(max: nat, ops: seq<Op>)
    requires AddsPending(ops) && NeverLowers(Empty(max), ops)
    ensures var q := Run(Empty(max), ops); |InStatus(q.tasks, Downloading)| == q.active <= q.max
  {
    RunWithinLimit(Empty(max), ops);
    QueueIsConserved(max, ops);
  }
}
