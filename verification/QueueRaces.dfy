/** The task queue under concurrent callers: Add and Resume give up the lock between finding a free slot and taking it. */
module QueueRaces {
  import opened QueueSpec

  /** A task object; two objects can carry the same id. */
  datatype Obj = Obj(id: string, serial: nat)

  /** A caller is outside, or has found a free slot for an object and not yet called startTask. */
  datatype Caller = Outside | Starting(obj: Obj)

  datatype State = State(tasks: map<string, Obj>, status: map<Obj, Status>, heap: seq<Obj>,
                         active: int, max: int, callers: seq<Caller>,
                         leaked: nat)  // starts of objects that are not a waiting task of the map; bookkeeping only

  datatype Step =
    | AddBegin(c: nat, obj: Obj)
    | ResumeBegin(c: nat, id: string)
    | StartTask(c: nat)
    | PopOne(c: nat)
    | RemoveTask(id: string)
    | CancelTask(obj: Obj)
    | PauseTask(id: string)
    | FinishTask(id: string)

  function StatusOf(s: State, o: Obj): Status {
    if o in s.status then s.status[o] else Pending
  }

  function WithStatus(s: State, o: Obj, st: Status): State {
    s.(status := s.status[o := st])
  }

  predicate InMap(s: State, o: Obj) {
    o.id in s.tasks && s.tasks[o.id] == o
  }

  /** An object starts: it takes a slot whether or not the map still knows it. */
  function Started(s: State, o: Obj): State {
    var leak := if InMap(s, o) && StatusOf(s, o) != Downloading then 0 else 1;
    WithStatus(s, o, Downloading).(active := s.active + 1, leaked := s.leaked + leak)
  }

  /** The check under the lock: with a free slot the caller goes on to start the task, else the task waits. */
  function Admit(s: State, c: nat, o: Obj): State
    requires c < |s.callers|
  {
    if s.active < s.max then s.(callers := s.callers[c := Starting(o)]) else s.(heap := s.heap + [o])
  }

  function WithoutId(heap: seq<Obj>, id: string): seq<Obj> {
    if heap == [] then [] else if heap[0].id == id then heap[1..] else [heap[0]] + WithoutId(heap[1..], id)
  }

  predicate Enabled(s: State, st: Step) {
    match st
    case AddBegin(c, o) => c < |s.callers| && s.callers[c] == Outside && StatusOf(s, o) == Pending
    case ResumeBegin(c, id) => c < |s.callers| && s.callers[c] == Outside
    case StartTask(c) => c < |s.callers| && s.callers[c].Starting?
    case PopOne(c) => c < |s.callers| && s.callers[c] == Outside && s.active < s.max && s.heap != []
    case RemoveTask(_) => true
    case CancelTask(o) => !InMap(s, o)
    case PauseTask(_) => true
    case FinishTask(_) => true
  }

  function Apply(s: State, st: Step): State
    requires Enabled(s, st)
  {
    match st
    case AddBegin(c, o) => if o.id in s.tasks then s else Admit(s.(tasks := s.tasks[o.id := o]), c, o)
    case ResumeBegin(c, id) =>
      if id !in s.tasks || StatusOf(s, s.tasks[id]) != Paused then s
      else Admit(WithStatus(s, s.tasks[id], Pending), c, s.tasks[id])
    case StartTask(c) => Started(s, s.callers[c].obj).(callers := s.callers[c := Outside])
    case PopOne(_) =>
      var rest := s.(heap := s.heap[1..]);
      if StatusOf(s, s.heap[0]) == Pending then Started(rest, s.heap[0]) else rest
    case RemoveTask(id) =>
      if id !in s.tasks then s
      else s.(tasks := s.tasks - {id}, heap := WithoutId(s.heap, id),
              active := if StatusOf(s, s.tasks[id]) == Downloading then s.active - 1 else s.active)
    case CancelTask(o) => WithStatus(s, o, Cancelled)
    case PauseTask(id) =>
      if id !in s.tasks || StatusOf(s, s.tasks[id]) != Downloading then s
      else WithStatus(s, s.tasks[id], Paused).(active := s.active - 1)
    case FinishTask(id) =>
      if id !in s.tasks || StatusOf(s, s.tasks[id]) != Downloading then s
      else WithStatus(s, s.tasks[id], Done).(tasks := s.tasks - {id}, active := if s.active < 1 then 0 else s.active - 1)
  }

  ghost predicate Run(s: State, steps: seq<Step>, t: State)
    decreases |steps|
  {
    if steps == [] then s == t else Enabled(s, steps[0]) && Run(Apply(s, steps[0]), steps[1..], t)
  }

  function Empty(max: int, n: nat): State {
    State(map[], map[], [], 0, max, seq(n, _ => Outside), 0)
  }

  /** Callers that have seen a free slot and not taken it yet. */
  function InFlight(callers: seq<Caller>): nat {
    if callers == [] then 0 else (if callers[0].Starting? then 1 else 0) + InFlight(callers[1..])
  }

  function Running(s: State): set<string> {
    set id | id in s.tasks && StatusOf(s, s.tasks[id]) == Downloading
  }

  /** The map's key is the object's id. */
  ghost predicate Keyed(s: State) {
    forall id :: id in s.tasks ==> s.tasks[id].id == id
  }

  /** The counter is the running tasks plus the leaked starts. */
  ghost predicate Counted(s: State) {
    Keyed(s) && s.active == |Running(s)| + s.leaked
  }

  /** The bound for N callers. */
  ghost predicate Bounded(s: State) {
    s.active + InFlight(s.callers) <= s.max - 1 + |s.callers|
  }

  lemma {:induction false} InFlightUpdate(callers: seq<Caller>, c: nat, x: Caller)
    requires c < |callers|
    ensures InFlight(callers[c := x])
            == InFlight(callers) - (if callers[c].Starting? then 1 else 0) + (if x.Starting? then 1 else 0)
    ensures InFlight(callers) <= |callers|
    ensures callers[c] == Outside ==> InFlight(callers) <= |callers| - 1
    decreases |callers|
  {
    if c == 0 {
      assert callers[c := x][1..] == callers[1..];
      InFlightAtMost(callers[1..]);
    } else {
      assert callers[c := x][1..] == callers[1..][c - 1 := x];
      InFlightUpdate(callers[1..], c - 1, x);
    }
  }

  lemma {:induction false} InFlightAtMost(callers: seq<Caller>)
    ensures InFlight(callers) <= |callers|
    decreases |callers|
  {
    if callers != [] {
      InFlightAtMost(callers[1..]);
    }
  }

  lemma RunningAfter(s: State, o: Obj, st: Status)
    requires Keyed(s)
    ensures var was, now := Running(s), Running(WithStatus(s, o, st));
            && (!InMap(s, o) ==> now == was)
            && (InMap(s, o) && st == Downloading ==> now == was + {o.id})
            && (InMap(s, o) && st != Downloading ==> now == was - {o.id})
  {
    var t := WithStatus(s, o, st);
    forall id | id in s.tasks
      ensures id in Running(t) <==> (if s.tasks[id] == o then st == Downloading else id in Running(s))
    {
      assert t.tasks[id] == s.tasks[id];
    }
    assert forall id :: id in s.tasks && s.tasks[id] == o ==> id == o.id;
  }

  lemma StatusCounts(s: State, o: Obj, st: Status)
    requires Keyed(s)
    ensures var was, now := Running(s), Running(WithStatus(s, o, st));
            && (!InMap(s, o) ==> now == was)
            && (InMap(s, o) && st == Downloading && StatusOf(s, o) != Downloading ==> |now| == |was| + 1)
            && (InMap(s, o) && st != Downloading && StatusOf(s, o) == Downloading ==> |now| == |was| - 1)
            && ((st == Downloading) == (StatusOf(s, o) == Downloading) ==> now == was)
  {
    RunningAfter(s, o, st);
    if InMap(s, o) {
      assert o.id in Running(s) <==> StatusOf(s, o) == Downloading;
    }
  }

  lemma RunningWithout(s: State, id: string)
    requires id in s.tasks
    ensures var was, now := Running(s), Running(s.(tasks := s.tasks - {id}));
            now == was - {id} && |now| == |was| - if id in was then 1 else 0
  {
    assert Running(s.(tasks := s.tasks - {id})) == Running(s) - {id};
  }

  lemma AddCounted(s: State, c: nat, o: Obj)
    requires Enabled(s, AddBegin(c, o)) && Counted(s)
    ensures Counted(Apply(s, AddBegin(c, o))) && s.leaked == Apply(s, AddBegin(c, o)).leaked
  {
    if o.id !in s.tasks {
      var t := s.(tasks := s.tasks[o.id := o]);
      assert Running(t) == Running(s);
      SameRunning(t, Admit(t, c, o));
    }
  }

  lemma ResumeCounted(s: State, c: nat, id: string)
    requires Enabled(s, ResumeBegin(c, id)) && Counted(s)
    ensures Counted(Apply(s, ResumeBegin(c, id))) && s.leaked == Apply(s, ResumeBegin(c, id)).leaked
  {
    if id in s.tasks && StatusOf(s, s.tasks[id]) == Paused {
      var t := WithStatus(s, s.tasks[id], Pending);
      StatusCounts(s, s.tasks[id], Pending);
      SameRunning(t, Admit(t, c, s.tasks[id]));
    }
  }

  lemma SameRunning(s: State, t: State)
    requires s.tasks == t.tasks && s.status == t.status
    ensures Running(s) == Running(t)
  {
  }

  lemma StartedCounted(s: State, o: Obj)
    requires Counted(s)
    ensures Counted(Started(s, o)) && s.leaked <= Started(s, o).leaked
  {
    StatusCounts(s, o, Downloading);
    SameRunning(Started(s, o), WithStatus(s, o, Downloading));
  }

  lemma StartCounted(s: State, st: Step)
    requires Enabled(s, st) && Counted(s) && (st.StartTask? || st.PopOne?)
    ensures Counted(Apply(s, st)) && s.leaked <= Apply(s, st).leaked
  {
    if st.StartTask? {
      StartedCounted(s, s.callers[st.c].obj);
      SameRunning(Apply(s, st), Started(s, s.callers[st.c].obj));
    } else {
      var rest := s.(heap := s.heap[1..]);
      SameRunning(rest, s);
      StartedCounted(rest, s.heap[0]);
    }
  }

  lemma LeaveCounted(s: State, st: Step)
    requires Enabled(s, st) && Counted(s) && (st.RemoveTask? || st.FinishTask?)
    ensures Counted(Apply(s, st)) && s.leaked == Apply(s, st).leaked
  {
    if st.id in s.tasks && (st.RemoveTask? || StatusOf(s, s.tasks[st.id]) == Downloading) {
      RunningWithout(s, st.id);
      assert Running(Apply(s, st)) == Running(s.(tasks := s.tasks - {st.id}));
    }
  }

  lemma StepCounted(s: State, st: Step)
    requires Enabled(s, st) && Counted(s)
    ensures Counted(Apply(s, st)) && s.leaked <= Apply(s, st).leaked
  {
    match st
    case AddBegin(c, o) => AddCounted(s, c, o);
    case ResumeBegin(c, id) => ResumeCounted(s, c, id);
    case StartTask(_) => StartCounted(s, st);
    case PopOne(_) => StartCounted(s, st);
    case RemoveTask(_) => LeaveCounted(s, st);
    case FinishTask(_) => LeaveCounted(s, st);
    case CancelTask(o) => StatusCounts(s, o, Cancelled);
    case PauseTask(id) =>
      if id in s.tasks && StatusOf(s, s.tasks[id]) == Downloading {
        StatusCounts(s, s.tasks[id], Paused);
        assert Running(Apply(s, st)) == Running(WithStatus(s, s.tasks[id], Paused));
      }
  }

  lemma StepBounded(s: State, st: Step)
    requires Enabled(s, st) && Counted(s) && Bounded(s)
    ensures Bounded(Apply(s, st)) && Apply(s, st).max == s.max && |Apply(s, st).callers| == |s.callers|
  {
    match st
    case AddBegin(c, o) => InFlightUpdate(s.callers, c, Starting(o));
    case ResumeBegin(c, id) =>
      if id in s.tasks {
        InFlightUpdate(s.callers, c, Starting(s.tasks[id]));
      }
    case StartTask(c) => InFlightUpdate(s.callers, c, Outside);
    case PopOne(c) => InFlightUpdate(s.callers, c, Outside);
    case FinishTask(id) =>
      if id in s.tasks && StatusOf(s, s.tasks[id]) == Downloading {
        assert id in Running(s);
      }
    case _ =>
  }

  lemma {:induction false} RunKeeps(s: State, steps: seq<Step>, t: State)
    requires Run(s, steps, t) && Counted(s) && Bounded(s)
    ensures Counted(t) && Bounded(t) && t.max == s.max && |t.callers| == |s.callers| && s.leaked <= t.leaked
    decreases |steps|
  {
    if steps != [] {
      StepCounted(s, steps[0]);
      StepBounded(s, steps[0]);
      RunKeeps(Apply(s, steps[0]), steps[1..], t);
    }
  }

  lemma {:induction false} NobodyInFlight(n: nat)
    ensures InFlight(seq(n, _ => Outside)) == 0
    decreases n
  {
    if n > 0 {
      NobodyInFlight(n - 1);
      assert seq(n, _ => Outside)[1..] == seq(n - 1, _ => Outside);
    }
  }

  /** With n callers the slots taken plus the starts in flight never exceed max - 1 + n, and the counter is never below
      the number of running tasks: it is that number plus the starts that leaked. */
  lemma ConcurrencyBound(max: int, n: nat, steps: seq<Step>, t: State)
    requires max >= 1 && n >= 1 && Run(Empty(max, n), steps, t)
    ensures t.active + InFlight(t.callers) <= max - 1 + n
    ensures t.active == |Running(t)| + t.leaked
  {
    NobodyInFlight(n);
    assert Running(Empty(max, n)) == {};
    RunKeeps(Empty(max, n), steps, t);
  }

  /** The slots are all leaked: nothing is admitted or popped any more. */
  lemma StuckStep(s: State, st: Step)
    requires Enabled(s, st) && Counted(s) && s.leaked >= s.max
    ensures !st.PopOne? && Apply(s, st).max == s.max
    ensures InFlight(Apply(s, st).callers) <= InFlight(s.callers)
  {
    if st.StartTask? {
      InFlightUpdate(s.callers, st.c, Outside);
    }
  }

  /** A leaked slot never comes back. Once as many starts have leaked as there are slots, no waiting task is ever
      started again, whatever is added, paused, finished or removed. */
  lemma {:induction false} LeaksAreForever(s: State, steps: seq<Step>, t: State)
    requires Run(s, steps, t) && Counted(s) && s.leaked >= s.max
    ensures t.leaked >= t.max == s.max && Counted(t)
    ensures InFlight(t.callers) <= InFlight(s.callers)
    ensures forall i :: 0 <= i < |steps| ==> !steps[i].PopOne?
    decreases |steps|
  {
    if steps != [] {
      StuckStep(s, steps[0]);
      StepCounted(s, steps[0]);
      LeaksAreForever(Apply(s, steps[0]), steps[1..], t);
    }
  }

  // ----- the bound is reached, and leaks happen -----

  /** Distinct ids, one for each number. */
  function Name(k: nat): string {
    seq(k, _ => 'x')
  }

  /** k slots are taken and the first j callers are in flight, with tasks Name(0) .. Name(k + j - 1). */
  ghost predicate Filled(s: State, k: nat, j: nat) {
    && s.active == k && j <= |s.callers|
    && (forall c :: 0 <= c < |s.callers| ==> s.callers[c].Starting? == (c < j))
    && (forall id :: id in s.tasks ==> |id| < k + j)
    && (forall o :: o in s.status ==> |o.id| < k + j)
  }

  lemma FillSlot(s: State, k: nat)
    requires Filled(s, k, 0) && |s.callers| >= 1 && k < s.max
    ensures var o := Obj(Name(k), 0);
            && Enabled(s, AddBegin(0, o)) && Enabled(Apply(s, AddBegin(0, o)), StartTask(0))
            && var t := Apply(Apply(s, AddBegin(0, o)), StartTask(0));
            Filled(t, k + 1, 0) && t.max == s.max && |t.callers| == |s.callers|
  {
  }

  lemma BeginNext(s: State, k: nat, j: nat)
    requires Filled(s, k, j) && j < |s.callers| && k < s.max
    ensures var o := Obj(Name(k + j), 0);
            && Enabled(s, AddBegin(j, o))
            && var t := Apply(s, AddBegin(j, o)); Filled(t, k, j + 1) && t.max == s.max && |t.callers| == |s.callers|
  {
  }

  lemma {:induction false} FillAll(s: State, k: nat, j: nat) returns (steps: seq<Step>, t: State)
    requires Filled(s, k, j) && |s.callers| >= 1 && k < s.max && (j == 0 || k == s.max - 1)
    ensures Run(s, steps, t) && Filled(t, s.max - 1, |s.callers|) && t.max == s.max && |t.callers| == |s.callers|
    decreases s.max - k, |s.callers| - j
  {
    if k < s.max - 1 {
      var o := Obj(Name(k), 0);
      FillSlot(s, k);
      var mid := Apply(s, AddBegin(0, o));
      var rest;
      rest, t := FillAll(Apply(mid, StartTask(0)), k + 1, 0);
      steps := [AddBegin(0, o)] + ([StartTask(0)] + rest);
      assert ([StartTask(0)] + rest)[1..] == rest;
      assert Run(mid, [StartTask(0)] + rest, t);
      assert steps[1..] == [StartTask(0)] + rest;
    } else if j < |s.callers| {
      var o := Obj(Name(k + j), 0);
      BeginNext(s, k, j);
      var rest;
      rest, t := FillAll(Apply(s, AddBegin(j, o)), k, j + 1);
      steps := [AddBegin(j, o)] + rest;
      assert steps[1..] == rest;
    } else {
      steps, t := [], s;
    }
  }

  lemma {:induction false} AllInFlight(callers: seq<Caller>)
    requires forall c :: 0 <= c < |callers| ==> callers[c].Starting?
    ensures InFlight(callers) == |callers|
    decreases |callers|
  {
    if callers != [] {
      AllInFlight(callers[1..]);
    }
  }

  /** The bound cannot be improved: for every limit and number of callers some run reaches it. */
  lemma BoundIsReached(max: int, n: nat) returns (steps: seq<Step>, t: State)
    requires max >= 1 && n >= 1
    ensures Run(Empty(max, n), steps, t) && t.active + InFlight(t.callers) == max - 1 + n
  {
    steps, t := FillAll(Empty(max, n), 0, 0);
    AllInFlight(t.callers);
  }

  /** Removing a task between Add's check and its start leaks the slot: nothing runs, nothing is known, one slot is gone. */
  lemma RemoveInTheGapLeaks(max: int, n: nat, o: Obj)
    requires max >= 1 && n >= 1
    ensures var s1 := Empty(max, n);
            && Enabled(s1, AddBegin(0, o))
            && var s2 := Apply(Apply(s1, AddBegin(0, o)), RemoveTask(o.id));
            && Enabled(s2, StartTask(0))
            && var t := Apply(s2, StartTask(0));
            t.tasks == map[] && t.active == 1 && t.leaked == 1
  {
  }
}
