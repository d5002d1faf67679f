/** ChangePosition: the waiting order afterwards is the order before with one task moved. */
module QueuePosition {
  import opened Collections
  import opened HeapSpec
  import opened QueueOrder
  import opened QueueSpec
  import opened QueueInvariants

  /** The ids of the waiting tasks in the order they will be started. */
  function WaitingOrder(q: Queue): seq<string> {
    Ids(Drained(q.heap))
  }

  /** Exactly the pending tasks, once each, as a statement about the sequence of ids. */
  ghost predicate IdsArePending(ids: seq<string>, tasks: map<string, TaskRec>) {
    && Distinct(ids)
    && (forall id :: id in ids ==> id in tasks && tasks[id].status == Pending)
    && (forall id :: id in tasks && tasks[id].status == Pending ==> id in ids)
  }

  lemma BagToIds(items: seq<Entry>, tasks: map<string, TaskRec>)
    requires HeapIsPending(multiset(items), tasks)
    ensures IdsArePending(Ids(items), tasks)
  {
    forall i, j | 0 <= i < j < |items|
      ensures Ids(items)[i] != Ids(items)[j]
    {
      assert items[i] in multiset(items) && items[j] in multiset(items);
      if items[i] == items[j] {
        TwiceInBag(items, i, j);
      }
    }
    forall id | id in Ids(items)
      ensures id in tasks && tasks[id].status == Pending
    {
      var i :| 0 <= i < |items| && Ids(items)[i] == id;
      assert items[i] in multiset(items);
    }
    forall id | id in tasks && tasks[id].status == Pending
      ensures id in Ids(items)
    {
      var e :| e in multiset(items) && e.id == id;
      var i :| 0 <= i < |items| && items[i] == e;
      assert Ids(items)[i] == id;
    }
  }

  lemma TwiceInBag(items: seq<Entry>, i: nat, j: nat)
    requires i < j < |items| && items[i] == items[j]
    ensures multiset(items)[items[i]] >= 2
  {
    assert items == items[..i] + [items[i]] + items[i + 1..j] + [items[j]] + items[j + 1..];
  }

  lemma {:induction false} OnceInBag(items: seq<Entry>)
    requires Distinct(Ids(items))
    ensures forall e :: e in multiset(items) ==> multiset(items)[e] == 1
    decreases |items|
  {
    if items != [] {
      var k := |items| - 1;
      var front := items[..k];
      assert items == front + [items[k]];
      assert forall i :: 0 <= i < k ==> Ids(front)[i] == Ids(items)[i];
      OnceInBag(front);
      forall i | 0 <= i < k
        ensures front[i] != items[k]
      {
        assert Ids(items)[i] != Ids(items)[k];
      }
    }
  }

  lemma IdsToBag(items: seq<Entry>, tasks: map<string, TaskRec>)
    requires IdsArePending(Ids(items), tasks)
    ensures HeapIsPending(multiset(items), tasks)
  {
    OnceInBag(items);
    forall e | e in multiset(items)
      ensures e.id in Ids(items)
    {
      var i :| 0 <= i < |items| && items[i] == e;
      assert Ids(items)[i] == e.id;
    }
    forall e, f | e in multiset(items) && f in multiset(items) && e.id == f.id
      ensures e == f
    {
      var i :| 0 <= i < |items| && items[i] == e;
      var j :| 0 <= j < |items| && items[j] == f;
      assert Ids(items)[i] == Ids(items)[j];
    }
    forall id | id in tasks && tasks[id].status == Pending
      ensures exists e :: e in multiset(items) && e.id == id
    {
      var i :| 0 <= i < |items| && Ids(items)[i] == id;
      assert items[i] in multiset(items);
    }
  }

  lemma MovedKeepsSet(ids: seq<string>, from: nat, to: nat)
    requires from < |ids| && to < |ids|
    ensures multiset(Moved(ids, from, to)) == multiset(ids)
  {
    var others := ids[..from] + ids[from + 1..];
    CutBag(ids, from);
    InsertBag(others, to, ids[from]);
  }

  lemma CutBag(ids: seq<string>, from: nat)
    requires from < |ids|
    ensures multiset(ids) == multiset(ids[..from] + ids[from + 1..]) + multiset{ids[from]}
  {
    assert ids == ids[..from] + [ids[from]] + ids[from + 1..];
  }

  lemma InsertBag(ids: seq<string>, to: nat, id: string)
    requires to <= |ids|
    ensures multiset(ids[..to] + [id] + ids[to..]) == multiset(ids) + multiset{id}
  {
    assert ids == ids[..to] + ids[to..];
  }

  lemma DistinctByBag(a: seq<string>, b: seq<string>)
    requires multiset(a) == multiset(b) && Distinct(a)
    ensures Distinct(b) && forall id :: id in a <==> id in b
  {
    assert forall id :: id in a <==> id in multiset(a);
    assert forall id :: id in b <==> id in multiset(b);
    forall i, j | 0 <= i < j < |b|
      ensures b[i] != b[j]
    {
      if b[i] == b[j] {
        assert b == b[..i] + [b[i]] + b[i + 1..j] + [b[j]] + b[j + 1..];
        assert multiset(b)[b[i]] >= 2;
        AtMostOnce(a, b[i]);
      }
    }
  }

  lemma {:induction false} AtMostOnce(a: seq<string>, id: string)
    requires Distinct(a)
    ensures multiset(a)[id] <= 1
    decreases |a|
  {
    if a != [] {
      var k := |a| - 1;
      assert a == a[..k] + [a[k]];
      AtMostOnce(a[..k], id);
    }
  }

  lemma PositionOf(q: Queue, id: string)
    requires Conserved(q) && id in q.tasks && q.tasks[id].status == Pending
    ensures var cur := FindIndex(Drained(q.heap), id, 0);
            0 <= cur < |q.heap| && WaitingOrder(q)[cur] == id && IdsArePending(WaitingOrder(q), q.tasks)
  {
    DrainedIsSorted(q.heap);
    FindsTheEntry(Drained(q.heap), q.tasks, id);
    BagToIds(Drained(q.heap), q.tasks);
  }

  lemma StillPending(t: Queue, q: Queue, items: seq<Entry>)
    requires Conserved(q) && t.tasks.Keys == q.tasks.Keys && t.active == q.active
    requires forall id :: id in q.tasks ==> t.tasks[id].status == q.tasks[id].status
    requires IsHeap(t.heap, |t.heap|) && Drained(t.heap) == items && IdsArePending(Ids(items), q.tasks)
    ensures Conserved(t)
  {
    DrainedIsSorted(t.heap);
    IdsToBag(items, t.tasks);
    SameStatuses(q.tasks, t.tasks);
  }

  lemma SameStatuses(tasks: map<string, TaskRec>, tasks': map<string, TaskRec>)
    requires tasks'.Keys == tasks.Keys && forall id :: id in tasks ==> tasks'[id].status == tasks[id].status
    ensures InStatus(tasks', Downloading) == InStatus(tasks, Downloading)
  {
  }

  /** Rebuilding the heap with the entry at `cur` of the waiting order moved to `to`. */
  lemma MoveKeeps(q: Queue, t: Queue, cur: nat, to: nat)
    requires Conserved(q) && cur < |q.heap| && to < |q.heap|
    requires IdsArePending(WaitingOrder(q), q.tasks)
    requires var moved := Moved(Drained(q.heap), cur, to);
             t == q.(heap := PushedAll([], Renumbered(moved)), tasks := Reprioritized(q.tasks, Ids(moved), |moved|))
    ensures WaitingOrder(t) == Moved(WaitingOrder(q), cur, to) && Conserved(t)
  {
    var items := Drained(q.heap);
    var moved := Moved(items, cur, to);
    RebuildKeepsOrder(moved);
    MoveThenIds(items, cur, to);
    MovedKeepsSet(Ids(items), cur, to);
    DistinctByBag(Ids(items), Moved(Ids(items), cur, to));
    StillPending(t, q, Renumbered(moved));
  }

  /** Which strings name a way to count positions. */
  predicate KnownHow(how: string) {
    how == "POS_SET" || how == "POS_CUR" || how == "POS_END"
  }

  lemma TargetOkIff(how: string, pos: int, cur: int, n: int)
    ensures Target(how, pos, cur, n).Ok? <==> KnownHow(how)
    ensures Target(how, pos, cur, n).Err? ==> Target(how, pos, cur, n).error == InvalidHow
  {
  }

  /** The position from 0 to n - 1 that is nearest to the one asked for. */
  predicate Nearest(r: int, wanted: int, n: nat) {
    && 0 <= r < n
    && (0 <= wanted < n ==> r == wanted) && (wanted < 0 ==> r == 0) && (wanted >= n ==> r == n - 1)
  }

  /** What a position asked for in one of the three ways names: counted from the front, from where the task is, or from
      the last place. */
  predicate NamedPosition(how: string, pos: int, cur: nat, n: nat, r: int) {
    && (how == "POS_SET" ==> Nearest(r, pos, n))
    && (how == "POS_CUR" ==> Nearest(r, cur + pos, n))
    && (how == "POS_END" ==> Nearest(r, n - 1 + pos, n))
  }

  lemma TargetIsNamed(how: string, pos: int, cur: nat, n: nat)
    requires KnownHow(how) && cur < n
    ensures Target(how, pos, cur, n).Ok? && NamedPosition(how, pos, cur, n, Clamp(Target(how, pos, cur, n).value, n))
  {
  }

  /** Only priorities have changed, and only those of waiting tasks: each is its place in the order. */
  ghost predicate OnlyRanked(before: map<string, TaskRec>, after: map<string, TaskRec>, order: seq<string>) {
    && after.Keys == before.Keys
    && (forall x :: x in before && x !in order ==> after[x] == before[x])
    && forall i :: 0 <= i < |order| ==>
         order[i] in before && after[order[i]] == before[order[i]].(priority := i)
  }

  lemma {:induction false} ReprioritizedRanks(tasks: map<string, TaskRec>, ids: seq<string>, k: nat)
    requires Distinct(ids) && k <= |ids| && forall x :: x in ids ==> x in tasks
    ensures OnlyRanked(tasks, Reprioritized(tasks, ids, k), ids[..k])
    decreases k
  {
    if k > 0 {
      ReprioritizedRanks(tasks, ids, k - 1);
      assert ids[..k] == ids[..k - 1] + [ids[k - 1]];
      assert forall i :: 0 <= i < k - 1 ==> ids[..k][i] == ids[..k - 1][i] == ids[i];
    }
  }

  /** Taking the moved element out of both sequences leaves the same one. */
  lemma MovedKeepsOthers(ids: seq<string>, from: nat, to: nat)
    requires from < |ids| && to < |ids|
    ensures var moved := Moved(ids, from, to);
            |moved| == |ids| && moved[to] == ids[from] && moved[..to] + moved[to + 1..] == ids[..from] + ids[from + 1..]
  {
    var others, moved := ids[..from] + ids[from + 1..], Moved(ids, from, to);
    assert moved == others[..to] + [ids[from]] + others[to..];
    assert moved[..to] == others[..to] && moved[to + 1..] == others[to..];
  }

  /** The waiting order is the same but for one task, which was at `cur` and is at `to` now. */
  ghost predicate OneMoved(before: seq<string>, after: seq<string>, id: string, cur: nat, to: nat) {
    && cur < |before| == |after| && to < |after| && before[cur] == id == after[to]
    && Distinct(before) && after[..to] + after[to + 1..] == before[..cur] + before[cur + 1..]
  }

  ghost predicate MovesTask(q: Queue, t: Queue, r: Outcome<int>, id: string, pos: int, how: string, cur: nat) {
    var order, order' := WaitingOrder(q), WaitingOrder(t);
    && r.Ok? && r.value >= 0 && NamedPosition(how, pos, cur, |order|, r.value)
    && OneMoved(order, order', id, cur, r.value)
    && OnlyRanked(q.tasks, t.tasks, order')
    && Conserved(t) && t.active == q.active && t.max == q.max
  }

  /** Success: the waiting order is the old one with the task moved to the position named, which is what is returned.
      No task is lost or duplicated, waiting tasks get their places as priorities, and nothing else changes. */
  lemma ChangePositionMoves(q: Queue, id: string, pos: int, how: string) returns (cur: nat)
    requires Conserved(q) && id in q.tasks && q.tasks[id].status == Pending && KnownHow(how)
    ensures var (t, r) := ChangePosition(q, id, pos, how); MovesTask(q, t, r, id, pos, how, cur)
  {
    PositionOf(q, id);
    cur := FindIndex(Drained(q.heap), id, 0);
    TargetIsNamed(how, pos, cur, |q.heap|);
    var to := Clamp(Target(how, pos, cur, |q.heap|).value, |q.heap|);
    var t := ChangePosition(q, id, pos, how).0;
    MoveKeeps(q, t, cur, to);
    MovedRanks(Drained(q.heap), q.tasks, t.tasks, WaitingOrder(t), cur, to);
  }

  lemma MovedRanks(items: seq<Entry>, before: map<string, TaskRec>, after: map<string, TaskRec>, order': seq<string>,
                   cur: nat, to: nat)
    requires cur < |items| && to < |items| && IdsArePending(Ids(items), before)
    requires order' == Moved(Ids(items), cur, to) && after == Reprioritized(before, Ids(Moved(items, cur, to)), |items|)
    ensures OneMoved(Ids(items), order', Ids(items)[cur], cur, to) && OnlyRanked(before, after, order')
  {
    MoveThenIds(items, cur, to);
    assert Ids(Moved(items, cur, to)) == Ids(Renumbered(Moved(items, cur, to)));
    OrderMoves(Ids(items), order', cur, to);
    AllRanked(before, after, order');
  }

  lemma OrderMoves(order: seq<string>, order': seq<string>, cur: nat, to: nat)
    requires cur < |order| && to < |order| && Distinct(order) && order' == Moved(order, cur, to)
    ensures OneMoved(order, order', order[cur], cur, to) && Distinct(order') && forall x :: x in order <==> x in order'
  {
    MovedKeepsOthers(order, cur, to);
    MovedKeepsSet(order, cur, to);
    DistinctByBag(order, order');
  }

  lemma AllRanked(before: map<string, TaskRec>, after: map<string, TaskRec>, ids: seq<string>)
    requires Distinct(ids) && (forall x :: x in ids ==> x in before) && after == Reprioritized(before, ids, |ids|)
    ensures OnlyRanked(before, after, ids)
  {
    ReprioritizedRanks(before, ids, |ids|);
    assert ids[..|ids|] == ids;
  }

  /** Relative moves: by nothing leaves the order alone, and by a number within range moves exactly that many places. */
  lemma RelativeMove(q: Queue, id: string, cur: nat, d: int)
    requires Conserved(q) && id in q.tasks && q.tasks[id].status == Pending
    requires cur < |q.heap| && WaitingOrder(q)[cur] == id && 0 <= cur + d < |q.heap|
    ensures var (t, r) := ChangePosition(q, id, d, "POS_CUR"); MovesBy(q, t, r, id, cur, d)
  {
    var at := ChangePositionMoves(q, id, d, "POS_CUR");
    var (t, r) := ChangePosition(q, id, d, "POS_CUR");
    MovesExactly(q, t, r, id, at, cur, d);
  }

  ghost predicate MovesBy(q: Queue, t: Queue, r: Outcome<int>, id: string, cur: nat, d: int) {
    && r.Ok? && r.value == cur + d && 0 <= cur + d < |WaitingOrder(t)| && WaitingOrder(t)[cur + d] == id
    && (d == 0 ==> WaitingOrder(t) == WaitingOrder(q))
  }

  lemma MovesExactly(q: Queue, t: Queue, r: Outcome<int>, id: string, at: nat, cur: nat, d: int)
    requires MovesTask(q, t, r, id, d, "POS_CUR", at)
    requires cur < |WaitingOrder(q)| && WaitingOrder(q)[cur] == id && 0 <= cur + d < |WaitingOrder(q)|
    ensures MovesBy(q, t, r, id, cur, d)
  {
    RelativeName(d, at, |WaitingOrder(q)|, r.value);
    PlacesMoved(WaitingOrder(q), WaitingOrder(t), id, at, cur, r.value, d);
  }

  lemma RelativeName(d: int, cur: nat, n: nat, r: int)
    requires NamedPosition("POS_CUR", d, cur, n, r)
    ensures Nearest(r, cur + d, n)
  {
  }

  lemma PlacesMoved(order: seq<string>, order': seq<string>, id: string, at: nat, cur: nat, to: nat, d: int)
    requires OneMoved(order, order', id, at, to) && cur < |order| && order[cur] == id
    requires Nearest(to, at + d, |order|) && 0 <= cur + d < |order|
    ensures to == cur + d && order'[to] == id && (d == 0 ==> order' == order)
  {
    SamePlace(order, order', id, at, cur, to);
  }

  lemma SamePlace(order: seq<string>, order': seq<string>, id: string, at: nat, cur: nat, to: nat)
    requires OneMoved(order, order', id, at, to) && cur < |order| && order[cur] == id
    ensures at == cur && order'[to] == id && (to == cur ==> order' == order)
  {
    assert at == cur;
    if to == cur {
      SameAround(order, order', cur);
    }
  }

  lemma SameAround(a: seq<string>, b: seq<string>, i: nat)
    requires i < |a| == |b| && a[i] == b[i] && a[..i] + a[i + 1..] == b[..i] + b[i + 1..]
    ensures a == b
  {
    forall k | 0 <= k < |a|
      ensures a[k] == b[k]
    {
      if k < i {
        assert (a[..i] + a[i + 1..])[k] == a[k] && (b[..i] + b[i + 1..])[k] == b[k];
      } else if k > i {
        assert (a[..i] + a[i + 1..])[k - 1] == a[k] && (b[..i] + b[i + 1..])[k - 1] == b[k];
      }
    }
  }

  /** Failure: nothing but the arrangement inside the heap can change; the entries stay the same and form a heap. For a
      pending task the only possible error is an unknown `how`: the source's "not found in waiting queue" never happens. */
  lemma ChangePositionErrors(q: Queue, id: string, pos: int, how: string)
    requires Conserved(q)
    ensures var (t, r) := ChangePosition(q, id, pos, how);
            && (r.Err? <==> id !in q.tasks || q.tasks[id].status != Pending || !KnownHow(how))
            && (r.Err? ==> r.error == if id !in q.tasks then NotFound else if q.tasks[id].status != Pending then NotWaiting
                                      else InvalidHow)
            && (r.Err? ==> Conserved(t) && t == q.(heap := t.heap) && multiset(t.heap) == multiset(q.heap))
  {
    if id in q.tasks && q.tasks[id].status == Pending {
      PositionOf(q, id);
      var cur := FindIndex(Drained(q.heap), id, 0);
      TargetOkIff(how, pos, cur, |q.heap|);
      RebuiltSame(q);
    }
  }

  lemma RebuiltSame(q: Queue)
    requires Conserved(q)
    ensures var t := q.(heap := PushedAll([], Drained(q.heap))); Conserved(t) && multiset(t.heap) == multiset(q.heap)
  {
    DrainedIsSorted(q.heap);
    PushAllKeepsHeap([], Drained(q.heap));
  }
}
