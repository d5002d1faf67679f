/** Whole runs of the task queue, each public method one step. */
module QueueRuns {
  import opened QueueSpec
  import opened QueueInvariants
  import QueuePosition

  datatype Op =
    | AddOp(id: string, rec: TaskRec)
    | RemoveOp(id: string)
    | PauseOp(id: string)
    | ResumeOp(id: string)
    | FinishOp(id: string)
    | SetMaxOp(max: int)
    | MoveOp(id: string, pos: int, how: string)

  function Apply(q: Queue, op: Op): Queue {
    match op
    case AddOp(id, rec) => Add(q, id, rec).0
    case RemoveOp(id) => Remove(q, id).0
    case PauseOp(id) => Pause(q, id).0
    case ResumeOp(id) => Resume(q, id).0
    case FinishOp(id) => Finish(q, id)
    case SetMaxOp(max) => SetMaxConcurrent(q, max)
    case MoveOp(id, pos, how) => ChangePosition(q, id, pos, how).0
  }

  function Run(q: Queue, ops: seq<Op>): Queue
    decreases |ops|
  {
    if ops == [] then q else Run(Apply(q, ops[0]), ops[1..])
  }

  function Empty(max: int): Queue {
    Queue(map[], [], 0, max)
  }

  /** Tasks come in pending, as every caller creates them. */
  predicate AddsPending(ops: seq<Op>) {
    forall i :: 0 <= i < |ops| && ops[i].AddOp? ==> ops[i].rec.status == Pending
  }

  /** The operation takes a running task away without starting another. */
  predicate FreesSlot(q: Queue, op: Op) {
    op.RemoveOp? && op.id in q.tasks && q.tasks[op.id].status == Downloading
  }

  predicate NeverFreesSlot(q: Queue, ops: seq<Op>)
    decreases |ops|
  {
    ops == [] || (!FreesSlot(q, ops[0]) && NeverFreesSlot(Apply(q, ops[0]), ops[1..]))
  }

  lemma StepKeeps(q: Queue, op: Op)
    requires Conserved(q) && (op.AddOp? ==> op.rec.status == Pending)
    ensures Conserved(Apply(q, op))
    ensures WorkConserving(q) && !FreesSlot(q, op) ==> WorkConserving(Apply(q, op))
  {
    match op
    case AddOp(id, rec) => AddKeepsIff(q, id, rec);
    case RemoveOp(id) => RemoveKeeps(q, id);
    case PauseOp(id) => PauseKeeps(q, id);
    case ResumeOp(id) => ResumeKeeps(q, id);
    case FinishOp(id) => FinishKeeps(q, id);
    case SetMaxOp(max) => SetMaxKeeps(q, max);
    case MoveOp(id, pos, how) =>
      QueuePosition.ChangePositionErrors(q, id, pos, how);
      if ChangePosition(q, id, pos, how).1.Ok? {
        var cur := QueuePosition.ChangePositionMoves(q, id, pos, how);
      }
      SameLengthMove(q, id, pos, how);
  }

  lemma SameLengthMove(q: Queue, id: string, pos: int, how: string)
    ensures var t := ChangePosition(q, id, pos, how).0; |t.heap| == |q.heap| && t.active == q.active && t.max == q.max
  {
  }

  lemma {:induction false} RunKeeps(q: Queue, ops: seq<Op>)
    requires Conserved(q) && AddsPending(ops)
    ensures Conserved(Run(q, ops))
    ensures WorkConserving(q) && NeverFreesSlot(q, ops) ==> WorkConserving(Run(q, ops))
    decreases |ops|
  {
    if ops != [] {
      StepKeeps(q, ops[0]);
      RunKeeps(Apply(q, ops[0]), ops[1..]);
    }
  }

  /** Over every run from an empty queue: the heap is ordered, the tasks waiting in it are exactly the pending ones with
      one entry each, and the counter is the number of downloading tasks, so no task is lost or started twice. If no
      running task was removed, no slot is free while a task waits. */
  lemma QueueIsConserved(max: int, ops: seq<Op>)
    requires AddsPending(ops)
    ensures Conserved(Run(Empty(max), ops))
    ensures NeverFreesSlot(Empty(max), ops) ==> WorkConserving(Run(Empty(max), ops))
  {
    RunKeeps(Empty(max), ops);
  }

  lemma RunThree(q: Queue, a: Op, b: Op, c: Op)
    ensures Run(q, [a, b, c]) == Apply(Apply(Apply(q, a), b), c)
  {
    assert [a, b, c][1..] == [b, c];
    assert [b, c][1..] == [c];
    assert [c][1..] == [];
    assert Run(Apply(Apply(q, a), b), [c]) == Run(Apply(Apply(Apply(q, a), b), c), []);
  }

  /** Removing a running task can strand a waiting one: one slot, two tasks, the running one removed. */
  lemma RemovingCanStrand()
    ensures var rec := TaskRec(Pending, 0);
            !WorkConserving(Run(Empty(1), [AddOp("a", rec), AddOp("b", rec), RemoveOp("a")]))
  {
    var rec := TaskRec(Pending, 0);
    var q1 := Apply(Empty(1), AddOp("a", rec));
    StepKeeps(Empty(1), AddOp("a", rec));
    assert q1.active == 1 && q1.max == 1 && q1.heap == [] && q1.tasks["a"].status == Downloading && "b" !in q1.tasks;
    StrandSecond(q1, rec);
    RunThree(Empty(1), AddOp("a", rec), AddOp("b", rec), RemoveOp("a"));
  }

  lemma StrandSecond(q: Queue, rec: TaskRec)
    requires Conserved(q) && q.active == 1 && q.max == 1 && q.heap == [] && rec.status == Pending
    requires "a" in q.tasks && q.tasks["a"].status == Downloading && "b" !in q.tasks
    ensures !WorkConserving(Apply(Apply(q, AddOp("b", rec)), RemoveOp("a")))
  {
    var q2 := Apply(q, AddOp("b", rec));
    StepKeeps(q, AddOp("b", rec));
    assert |q2.heap| == 1 && q2.active == 1;
    RemoveKeeps(q2, "a");
  }
}
