/** Go's container/heap on a sequence of queue entries: what sifting does, and what it guarantees. */
module HeapSpec {

  datatype Entry = Entry(id: string, priority: int)

  function Parent(j: nat): nat {
    if j == 0 then 0 else (j - 1) / 2
  }

  function Swapped(h: seq<Entry>, i: nat, j: nat): (r: seq<Entry>)
    requires i < |h| && j < |h|
    ensures |r| == |h|
  {
    seq(|h|, k requires 0 <= k < |h| => if k == i then h[j] else if k == j then h[i] else h[k])
  }

  lemma SwapKeepsElements(h: seq<Entry>, i: nat, j: nat)
    requires i < |h| && j < |h|
    ensures multiset(Swapped(h, i, j)) == multiset(h)
  {
    assert Swapped(h, i, j) == h[i := h[j]][j := h[i]];
  }

  /** Every entry from index 1 up to n is no smaller than its parent. */
  ghost predicate IsHeap(h: seq<Entry>, n: nat)
    requires n <= |h|
  {
    forall j {:trigger Parent(j)} :: 0 < j < n ==> h[Parent(j)].priority <= h[j].priority
  }

  /** Sift the entry at j up. */
  function Up(h: seq<Entry>, j: nat): (r: seq<Entry>)
    requires j < |h|
    ensures |r| == |h|
    decreases j
  {
    if j == 0 || h[j].priority >= h[Parent(j)].priority then h
    else Up(Swapped(h, Parent(j), j), Parent(j))
  }

  /** The child of i that sifting down compares with: the smaller one, the left one on a tie. */
  function Child(h: seq<Entry>, i: nat, n: nat): (j: nat)
    requires n <= |h| && 2 * i + 1 < n
    ensures j < n && Parent(j) == i && j > i
    ensures forall k {:trigger Parent(k)} :: 0 < k < n && Parent(k) == i ==> h[j].priority <= h[k].priority
  {
    if 2 * i + 2 < n && h[2 * i + 2].priority < h[2 * i + 1].priority then 2 * i + 2 else 2 * i + 1
  }

  predicate Sinks(h: seq<Entry>, i: nat, n: nat)
    requires i < |h| && n <= |h|
  {
    2 * i + 1 < n && h[Child(h, i, n)].priority < h[i].priority
  }

  /** Sift the entry at i down, within the first n entries. */
  function Down(h: seq<Entry>, i: nat, n: nat): (r: seq<Entry>)
    requires i < |h| && n <= |h|
    ensures |r| == |h|
    decreases n - i
  {
    if !Sinks(h, i, n) then h else Down(Swapped(h, i, Child(h, i, n)), Child(h, i, n), n)
  }

  function Pushed(h: seq<Entry>, e: Entry): (r: seq<Entry>)
    ensures |r| == |h| + 1
  {
    Up(h + [e], |h|)
  }

  /** The root has changed places with the last entry, which was sifted down. */
  function RootSunk(h: seq<Entry>): (r: seq<Entry>)
    requires h != []
    ensures |r| == |h|
  {
    Down(Swapped(h, 0, |h| - 1), 0, |h| - 1)
  }

  /** The heap after the root is popped. */
  function Popped(h: seq<Entry>): (r: seq<Entry>)
    requires h != []
    ensures |r| == |h| - 1
  {
    RootSunk(h)[..|h| - 1]
  }

  /** heap.Fix: down if that moves the entry at i, else up. */
  function Sifted(s: seq<Entry>, i: nat, n: nat): (r: seq<Entry>)
    requires i < n <= |s|
    ensures |r| == |s|
  {
    if Sinks(s, i, n) then Down(s, i, n) else Up(s, i)
  }

  /** The entry at i has changed places with the last one, which was sifted into order. */
  function TakenOut(h: seq<Entry>, i: nat): (r: seq<Entry>)
    requires i < |h|
    ensures |r| == |h|
  {
    if i == |h| - 1 then h else Sifted(Swapped(h, i, |h| - 1), i, |h| - 1)
  }

  /** The heap after the entry at i is removed. */
  function Removed(h: seq<Entry>, i: nat): (r: seq<Entry>)
    requires i < |h|
    ensures |r| == |h| - 1
  {
    TakenOut(h, i)[..|h| - 1]
  }

  lemma {:induction false} UpKeepsElements(h: seq<Entry>, j: nat)
    requires j < |h|
    ensures multiset(Up(h, j)) == multiset(h)
    decreases j
  {
    if j > 0 && h[j].priority < h[Parent(j)].priority {
      SwapKeepsElements(h, Parent(j), j);
      UpKeepsElements(Swapped(h, Parent(j), j), Parent(j));
    }
  }

  lemma {:induction false} DownKeepsElements(h: seq<Entry>, i: nat, n: nat)
    requires i < |h| && n <= |h|
    ensures multiset(Down(h, i, n)) == multiset(h)
    decreases n - i
  {
    if Sinks(h, i, n) {
      SwapKeepsElements(h, i, Child(h, i, n));
      DownKeepsElements(Swapped(h, i, Child(h, i, n)), Child(h, i, n), n);
    }
  }

  // ----- sifting restores the heap -----

  /** A heap but for the entry at j, which may be smaller than its parent. */
  ghost predicate HeapButUp(h: seq<Entry>, n: nat, j: nat)
    requires n <= |h|
  {
    && (forall k {:trigger Parent(k)} :: 0 < k < n && k != j ==> h[Parent(k)].priority <= h[k].priority)
    && (forall k {:trigger Parent(k)} :: 0 < k < n && Parent(k) == j && j > 0 ==> h[Parent(j)].priority <= h[k].priority)
  }

  /** A heap but for the entry at i, which may be larger than its children. */
  ghost predicate HeapButDown(h: seq<Entry>, n: nat, i: nat)
    requires n <= |h|
  {
    && (forall k {:trigger Parent(k)} :: 0 < k < n && Parent(k) != i ==> h[Parent(k)].priority <= h[k].priority)
    && (forall k {:trigger Parent(k)} :: 0 < k < n && Parent(k) == i && i > 0 ==> h[Parent(i)].priority <= h[k].priority)
  }

  lemma {:induction false} UpRestores(h: seq<Entry>, n: nat, j: nat)
    requires j < n <= |h| && HeapButUp(h, n, j)
    ensures IsHeap(Up(h, j), n)
    ensures n < |h| ==> Up(h, j)[n] == h[n]
    decreases j
  {
    if j > 0 && h[j].priority < h[Parent(j)].priority {
      UpRestores(Swapped(h, Parent(j), j), n, Parent(j));
    }
  }

  lemma {:induction false} DownRestores(h: seq<Entry>, n: nat, i: nat)
    requires i < n <= |h| && HeapButDown(h, n, i)
    ensures IsHeap(Down(h, i, n), n)
    ensures n < |h| ==> Down(h, i, n)[n] == h[n]
    decreases n - i
  {
    if Sinks(h, i, n) {
      DownRestores(Swapped(h, i, Child(h, i, n)), n, Child(h, i, n));
    }
  }

  /** Sifting down within the first n entries leaves the later ones alone. */
  lemma {:induction false} DownKeepsTail(h: seq<Entry>, i: nat, n: nat, k: nat)
    requires i < |h| && n <= k < |h|
    ensures Down(h, i, n)[k] == h[k]
    decreases n - i
  {
    if Sinks(h, i, n) {
      DownKeepsTail(Swapped(h, i, Child(h, i, n)), Child(h, i, n), n, k);
    }
  }

  lemma {:induction false} UpKeepsTail(h: seq<Entry>, j: nat, k: nat)
    requires j < k < |h|
    ensures Up(h, j)[k] == h[k]
    decreases j
  {
    if j > 0 && h[j].priority < h[Parent(j)].priority {
      UpKeepsTail(Swapped(h, Parent(j), j), Parent(j), k);
    }
  }

  /** The root of a heap is minimal. */
  lemma {:induction false} RootIsMinimal(h: seq<Entry>, j: nat)
    requires j < |h| && IsHeap(h, |h|)
    ensures h[0].priority <= h[j].priority
    decreases j
  {
    if j > 0 {
      RootIsMinimal(h, Parent(j));
    }
  }

  lemma PushKeepsHeap(h: seq<Entry>, e: Entry)
    requires IsHeap(h, |h|)
    ensures IsHeap(Pushed(h, e), |h| + 1)
    ensures multiset(Pushed(h, e)) == multiset(h) + multiset{e}
  {
    UpRestores(h + [e], |h| + 1, |h|);
    UpKeepsElements(h + [e], |h|);
  }

  lemma SplitLast(h: seq<Entry>, n: nat)
    requires |h| == n + 1
    ensures multiset(h) == multiset(h[..n]) + multiset{h[n]}
  {
    assert h == h[..n] + [h[n]];
  }

  lemma RootSunkIsHeap(h: seq<Entry>)
    requires h != [] && IsHeap(h, |h|)
    ensures var r := RootSunk(h); IsHeap(r, |h| - 1) && r[|h| - 1] == h[0] && multiset(r) == multiset(h)
  {
    var n := |h| - 1;
    var s := Swapped(h, 0, n);
    SwapKeepsElements(h, 0, n);
    DownKeepsElements(s, 0, n);
    if n > 0 {
      DownRestores(s, n, 0);
    }
  }

  lemma PopKeepsHeap(h: seq<Entry>)
    requires h != [] && IsHeap(h, |h|)
    ensures IsHeap(Popped(h), |h| - 1)
    ensures multiset(h) == multiset(Popped(h)) + multiset{h[0]}
    ensures forall e :: e in h ==> h[0].priority <= e.priority
  {
    RootSunkIsHeap(h);
    SplitLast(RootSunk(h), |h| - 1);
    forall e | e in h
      ensures h[0].priority <= e.priority
    {
      var j :| 0 <= j < |h| && h[j] == e;
      RootIsMinimal(h, j);
    }
  }

  /** When the entry moved into the hole sinks, everything above the hole is in order already. */
  lemma SinkingIsDown(h: seq<Entry>, i: nat)
    requires i < |h| - 1 && IsHeap(h, |h|)
    requires Sinks(Swapped(h, i, |h| - 1), i, |h| - 1)
    ensures HeapButDown(Swapped(h, i, |h| - 1), |h| - 1, i)
  {
    var n := |h| - 1;
    var s := Swapped(h, i, n);
    var c := Child(s, i, n);
    assert h[i].priority <= h[c].priority;
  }

  /** When it does not sink, everything below the hole is in order. */
  lemma RisingIsUp(h: seq<Entry>, i: nat)
    requires i < |h| - 1 && IsHeap(h, |h|)
    requires !Sinks(Swapped(h, i, |h| - 1), i, |h| - 1)
    ensures HeapButUp(Swapped(h, i, |h| - 1), |h| - 1, i)
  {
    var n := |h| - 1;
    var s := Swapped(h, i, n);
    forall k | 0 < k < n && Parent(k) == i
      ensures s[i].priority <= s[k].priority
    {
      assert s[Child(s, i, n)].priority <= s[k].priority;
    }
  }

  lemma TakenOutIsHeap(h: seq<Entry>, i: nat)
    requires i < |h| && IsHeap(h, |h|)
    ensures var r := TakenOut(h, i); IsHeap(r, |h| - 1) && r[|h| - 1] == h[i] && multiset(r) == multiset(h)
  {
    var n := |h| - 1;
    if i < n {
      var s := Swapped(h, i, n);
      SwapKeepsElements(h, i, n);
      if Sinks(s, i, n) {
        SinkingIsDown(h, i);
        DownRestores(s, n, i);
        DownKeepsElements(s, i, n);
      } else {
        RisingIsUp(h, i);
        UpRestores(s, n, i);
        UpKeepsElements(s, i);
      }
    }
  }

  /** Removing from anywhere takes out exactly that entry and restores order, by sifting down or up. */
  lemma RemoveKeepsHeap(h: seq<Entry>, i: nat)
    requires i < |h| && IsHeap(h, |h|)
    ensures IsHeap(Removed(h, i), |h| - 1)
    ensures multiset(h) == multiset(Removed(h, i)) + multiset{h[i]}
  {
    TakenOutIsHeap(h, i);
    SplitLast(TakenOut(h, i), |h| - 1);
  }
}
