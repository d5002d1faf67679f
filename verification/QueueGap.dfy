/** The gap between finding a free slot and taking it: no slot is lost unless a removal falls into it. */
module QueueGap {
  import opened Collections
  import opened QueueSpec
  import opened QueueRaces

  /** A removal hits an object that some caller is about to start. */
  ghost predicate Hits(s: State, st: Step) {
    st.RemoveTask? && st.id in s.tasks && Starting(s.tasks[st.id]) in s.callers
  }

  ghost predicate NeverHits(s: State, steps: seq<Step>, t: State)
    requires Run(s, steps, t)
    decreases |steps|
  {
    steps == [] || (!Hits(s, steps[0]) && NeverHits(Apply(s, steps[0]), steps[1..], t))
  }

  predicate Waits(s: State, o: Obj) {
    InMap(s, o) && StatusOf(s, o) == Pending
  }

  /** Whatever is about to be started or waits in the heap is a pending task of the map, once only. */
  ghost predicate Tidy(s: State) {
    && s.leaked == 0
    && (forall o :: o in s.heap ==> Waits(s, o))
    && (forall o :: Starting(o) in s.callers ==> Waits(s, o) && o !in s.heap)
    && Distinct(s.heap)
    && (forall c, d :: 0 <= c < d < |s.callers| && s.callers[c].Starting? ==> s.callers[c] != s.callers[d])
  }

  lemma {:induction false} WithoutIdMembers(heap: seq<Obj>, id: string)
    ensures forall o :: o in WithoutId(heap, id) ==> o in heap
    ensures forall o :: o in heap && o.id != id ==> o in WithoutId(heap, id)
    decreases |heap|
  {
    if heap != [] && heap[0].id != id {
      WithoutIdMembers(heap[1..], id);
    }
  }

  /** When an id comes once only, nothing is left of it. */
  lemma {:induction false} WithoutIdGone(heap: seq<Obj>, id: string)
    requires Distinct(heap)
    requires forall o, o' :: o in heap && o' in heap && o.id == id && o'.id == id ==> o == o'
    ensures forall o :: o in WithoutId(heap, id) ==> o.id != id
    ensures Distinct(WithoutId(heap, id))
    decreases |heap|
  {
    if heap != [] {
      if heap[0].id == id {
        forall o | o in heap[1..]
          ensures o.id != id
        {
          var k :| 0 <= k < |heap[1..]| && heap[1..][k] == o;
          assert heap[0] != heap[k + 1];
        }
      } else {
        WithoutIdGone(heap[1..], id);
        WithoutIdMembers(heap[1..], id);
      }
    }
  }

  lemma TidyRemove(s: State, id: string)
    requires Tidy(s) && !Hits(s, RemoveTask(id))
    ensures Tidy(Apply(s, RemoveTask(id)))
  {
    if id in s.tasks {
      WithoutIdMembers(s.heap, id);
      WithoutIdGone(s.heap, id);
    }
  }

  lemma DistinctAppend(heap: seq<Obj>, o: Obj)
    requires Distinct(heap) && o !in heap
    ensures Distinct(heap + [o])
  {
  }

  /** A waiting task that is nowhere yet is admitted. */
  lemma TidyAdmit(s: State, c: nat, o: Obj)
    requires Tidy(s) && c < |s.callers| && s.callers[c] == Outside
    requires Waits(s, o) && o !in s.heap && Starting(o) !in s.callers
    ensures Tidy(Admit(s, c, o))
  {
    DistinctAppend(s.heap, o);
  }

  lemma TidyAdd(s: State, c: nat, o: Obj)
    requires Tidy(s) && Enabled(s, AddBegin(c, o))
    ensures Tidy(Apply(s, AddBegin(c, o)))
  {
    if o.id !in s.tasks {
      var t := s.(tasks := s.tasks[o.id := o]);
      assert Tidy(t);
      TidyAdmit(t, c, o);
    }
  }

  lemma TidyResume(s: State, c: nat, id: string)
    requires Tidy(s) && Keyed(s) && Enabled(s, ResumeBegin(c, id))
    ensures Tidy(Apply(s, ResumeBegin(c, id)))
  {
    if id in s.tasks && StatusOf(s, s.tasks[id]) == Paused {
      var o := s.tasks[id];
      var t := QueueRaces.WithStatus(s, o, Pending);
      assert Tidy(t);
      TidyAdmit(t, c, o);
    }
  }

  lemma TidyStart(s: State, c: nat)
    requires Tidy(s) && Enabled(s, StartTask(c))
    ensures Tidy(Apply(s, StartTask(c)))
  {
    assert Starting(s.callers[c].obj) in s.callers;
  }

  lemma TidyPop(s: State, c: nat)
    requires Tidy(s) && Enabled(s, PopOne(c))
    ensures Tidy(Apply(s, PopOne(c)))
  {
    var o, rest := s.heap[0], s.heap[1..];
    assert forall x :: x in rest ==> x in s.heap && x != o;
    assert o in s.heap && Waits(s, o);
  }

  lemma TidyOther(s: State, st: Step)
    requires Tidy(s) && Keyed(s) && Enabled(s, st) && (st.CancelTask? || st.PauseTask? || st.FinishTask?)
    ensures Tidy(Apply(s, st))
  {
  }

  lemma StepTidy(s: State, st: Step)
    requires Tidy(s) && Keyed(s) && Enabled(s, st) && !Hits(s, st)
    ensures Tidy(Apply(s, st))
  {
    match st
    case AddBegin(c, o) => TidyAdd(s, c, o);
    case ResumeBegin(c, id) => TidyResume(s, c, id);
    case StartTask(c) => TidyStart(s, c);
    case PopOne(c) => TidyPop(s, c);
    case RemoveTask(id) => TidyRemove(s, id);
    case _ => TidyOther(s, st);
  }

  lemma {:induction false} RunTidy(s: State, steps: seq<Step>, t: State)
    requires Run(s, steps, t) && Tidy(s) && Counted(s) && NeverHits(s, steps, t)
    ensures Tidy(t) && Counted(t)
    decreases |steps|
  {
    if steps != [] {
      StepTidy(s, steps[0]);
      StepCounted(s, steps[0]);
      RunTidy(Apply(s, steps[0]), steps[1..], t);
    }
  }

  /** In every run of any number of callers in which no removal hits a task about to be started, the counter is exactly
      the number of running tasks. */
  lemma NoHitNoLeak(max: int, n: nat, steps: seq<Step>, t: State)
    requires Run(Empty(max, n), steps, t) && NeverHits(Empty(max, n), steps, t)
    ensures t.active == |Running(t)| && t.leaked == 0
  {
    assert Running(Empty(max, n)) == {};
    RunTidy(Empty(max, n), steps, t);
  }

  // ----- and such a removal does lose a slot -----

  /** Caller c is about to start an object that the map does not know any more. */
  ghost predicate Doomed(s: State, c: nat, o: Obj) {
    c < |s.callers| && s.callers[c] == Starting(o) && !InMap(s, o)
  }

  predicate Readds(st: Step, o: Obj) {
    st.AddBegin? && st.obj == o
  }

  lemma StepDoomed(s: State, st: Step, c: nat, o: Obj)
    requires Doomed(s, c, o) && Enabled(s, st) && !Readds(st, o) && st != StartTask(c)
    ensures Doomed(Apply(s, st), c, o)
  {
  }

  lemma {:induction false} RunDoomed(s: State, steps: seq<Step>, t: State, c: nat, o: Obj)
    requires Run(s, steps, t) && Doomed(s, c, o)
    requires forall i :: 0 <= i < |steps| ==> !Readds(steps[i], o) && steps[i] != StartTask(c)
    ensures Doomed(t, c, o)
    decreases |steps|
  {
    if steps != [] {
      StepDoomed(s, steps[0], c, o);
      RunDoomed(Apply(s, steps[0]), steps[1..], t, c, o);
    }
  }

  /** A removal hits a task about to be started; other steps follow, none of which adds that task object again. The start
      then takes a slot for a task nobody knows: the counter grows and the running tasks stay the same. */
  lemma HitLeaks(s: State, c: nat, steps: seq<Step>, t: State)
    requires Counted(s) && c < |s.callers| && s.callers[c].Starting? && InMap(s, s.callers[c].obj)
    requires Hits(s, RemoveTask(s.callers[c].obj.id)) && Run(Apply(s, RemoveTask(s.callers[c].obj.id)), steps, t)
    requires forall i :: 0 <= i < |steps| ==> !Readds(steps[i], s.callers[c].obj) && steps[i] != StartTask(c)
    ensures Enabled(t, StartTask(c))
    ensures var u := Apply(t, StartTask(c));
            u.active == t.active + 1 && Running(u) == Running(t) && u.leaked == t.leaked + 1
            && u.active - |Running(u)| == t.active - |Running(t)| + 1
  {
    var o := s.callers[c].obj;
    var m := Apply(s, RemoveTask(o.id));
    LeaveCounted(s, RemoveTask(o.id));
    assert Doomed(m, c, o);
    RunDoomed(m, steps, t, c, o);
    SameTasksKeyed(m, steps, t);
    StatusCounts(t, o, Downloading);
    SameRunning(Apply(t, StartTask(c)), QueueRaces.WithStatus(t, o, Downloading));
  }

  lemma {:induction false} SameTasksKeyed(s: State, steps: seq<Step>, t: State)
    requires Run(s, steps, t) && Counted(s)
    ensures Keyed(t)
    decreases |steps|
  {
    if steps != [] {
      StepCounted(s, steps[0]);
      SameTasksKeyed(Apply(s, steps[0]), steps[1..], t);
    }
  }
}
