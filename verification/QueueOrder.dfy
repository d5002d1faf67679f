/** The order in which a heap gives back its entries, and what moving one entry does to that order. */
module QueueOrder {
  import opened HeapSpec

  /** The entries in the order repeated pops return them. */
  function Drained(h: seq<Entry>): (r: seq<Entry>)
    ensures |r| == |h|
    decreases |h|
  {
    if h == [] then [] else [h[0]] + Drained(Popped(h))
  }

  lemma DrainedStep(h: seq<Entry>, popped: seq<Entry>)
    requires h != []
    ensures popped + Drained(h) == (popped + [h[0]]) + Drained(Popped(h))
  {
  }

  ghost predicate Sorted(s: seq<Entry>) {
    forall i, j :: 0 <= i < j < |s| ==> s[i].priority <= s[j].priority
  }

  ghost predicate StrictlySorted(s: seq<Entry>) {
    forall i, j :: 0 <= i < j < |s| ==> s[i].priority < s[j].priority
  }

  lemma {:induction false} DrainedIsSorted(h: seq<Entry>)
    requires IsHeap(h, |h|)
    ensures Sorted(Drained(h)) && multiset(Drained(h)) == multiset(h)
    decreases |h|
  {
    if h != [] {
      PopKeepsHeap(h);
      DrainedIsSorted(Popped(h));
      DrainedStart(h, Drained(Popped(h)));
    }
  }

  /** A minimal entry before a sorted rest. */
  lemma DrainedStart(h: seq<Entry>, rest: seq<Entry>)
    requires h != [] && Sorted(rest) && multiset(h) == multiset(rest) + multiset{h[0]}
    requires forall e :: e in h ==> h[0].priority <= e.priority
    ensures Sorted([h[0]] + rest) && multiset([h[0]] + rest) == multiset(h)
  {
    forall j | 0 <= j < |rest|
      ensures h[0].priority <= rest[j].priority
    {
      assert rest[j] in multiset(rest);
      assert rest[j] in multiset(h);
    }
  }

  /** A sorted sequence is determined by its entries when their priorities differ. */
  lemma {:induction false} SortedIsUnique(a: seq<Entry>, b: seq<Entry>)
    requires Sorted(a) && StrictlySorted(b) && multiset(a) == multiset(b)
    ensures a == b
    decreases |a|
  {
    SameLength(a, b);
    if a != [] {
      SameHead(a, b);
      TailBag(a);
      TailBag(b);
      SortedIsUnique(a[1..], b[1..]);
      assert a == [a[0]] + a[1..];
      assert b == [b[0]] + b[1..];
    }
  }

  lemma SameHead(a: seq<Entry>, b: seq<Entry>)
    requires Sorted(a) && StrictlySorted(b) && multiset(a) == multiset(b) && a != [] && b != []
    ensures a[0] == b[0]
  {
    assert a[0] in multiset(b) && b[0] in multiset(a);
    var k :| 0 <= k < |b| && b[k] == a[0];
    var l :| 0 <= l < |a| && a[l] == b[0];
  }

  lemma TailBag(a: seq<Entry>)
    requires a != []
    ensures multiset(a[1..]) == multiset(a) - multiset{a[0]}
  {
    DropFirst(a);
  }

  lemma SameLength(a: seq<Entry>, b: seq<Entry>)
    requires multiset(a) == multiset(b)
    ensures |a| == |b|
  {
    assert |multiset(a)| == |a| && |multiset(b)| == |b|;
  }

  lemma DropFirst(a: seq<Entry>)
    requires a != []
    ensures multiset(a) == multiset{a[0]} + multiset(a[1..])
  {
    assert a == [a[0]] + a[1..];
  }

  /** Push entries one after another. */
  function PushedAll(h: seq<Entry>, items: seq<Entry>): (r: seq<Entry>)
    ensures |r| == |h| + |items|
    decreases |items|
  {
    if items == [] then h else PushedAll(Pushed(h, items[0]), items[1..])
  }

  lemma PushedAllStep(h: seq<Entry>, items: seq<Entry>, i: nat)
    requires i < |items|
    ensures PushedAll(h, items[i..]) == PushedAll(Pushed(h, items[i]), items[i + 1..])
  {
  }

  lemma {:induction false} PushAllKeepsHeap(h: seq<Entry>, items: seq<Entry>)
    requires IsHeap(h, |h|)
    ensures IsHeap(PushedAll(h, items), |h| + |items|)
    ensures multiset(PushedAll(h, items)) == multiset(h) + multiset(items)
    decreases |items|
  {
    if items != [] {
      PushKeepsHeap(h, items[0]);
      PushAllKeepsHeap(Pushed(h, items[0]), items[1..]);
      DropFirst(items);
    }
  }

  /** The same tasks with their position as priority. */
  function Renumbered(items: seq<Entry>): (r: seq<Entry>)
    ensures |r| == |items|
  {
    seq(|items|, i requires 0 <= i < |items| => Entry(items[i].id, i))
  }

  /** A heap rebuilt from renumbered entries gives them back in exactly their order. */
  lemma RebuildKeepsOrder(items: seq<Entry>)
    ensures IsHeap(PushedAll([], Renumbered(items)), |items|)
    ensures Drained(PushedAll([], Renumbered(items))) == Renumbered(items)
  {
    var heap := PushedAll([], Renumbered(items));
    PushAllKeepsHeap([], Renumbered(items));
    DrainedIsSorted(heap);
    SortedIsUnique(Drained(heap), Renumbered(items));
  }

  /** The sequence with the element at `from` moved to index `to`; all others keep their relative order. */
  function Moved<T>(s: seq<T>, from: nat, to: nat): (r: seq<T>)
    requires from < |s| && to < |s|
    ensures |r| == |s| && r[to] == s[from]
    ensures r[..to] + r[to + 1..] == s[..from] + s[from + 1..]
  {
    var others := s[..from] + s[from + 1..];
    var r := others[..to] + [s[from]] + others[to..];
    assert r[..to] == others[..to] && r[to + 1..] == others[to..];
    r
  }

  /** Which old index ends up at k. */
  function OldIndex(from: nat, to: nat, k: nat): nat {
    if k == to then from
    else if k < from && k < to then k
    else if k > from && k > to then k
    else if from < to then k + 1
    else k - 1
  }

  lemma MovedAt<T>(s: seq<T>, from: nat, to: nat)
    requires from < |s| && to < |s|
    ensures forall k :: 0 <= k < |s| ==> OldIndex(from, to, k) < |s| && Moved(s, from, to)[k] == s[OldIndex(from, to, k)]
  {
    var others := s[..from] + s[from + 1..];
    forall k | 0 <= k < |s|
      ensures OldIndex(from, to, k) < |s| && Moved(s, from, to)[k] == s[OldIndex(from, to, k)]
    {
      if k < to {
        assert Moved(s, from, to)[k] == others[k];
      } else if k > to {
        assert Moved(s, from, to)[k] == others[k - 1];
      }
    }
  }

  /** Copying the elements after `from` one place down, and the element over the last of them, moves it up. */
  lemma MovedUp<T>(s: seq<T>, from: nat, to: nat)
    requires from < to < |s|
    ensures (s[..from] + s[from + 1..to + 1] + s[to..])[to := s[from]] == Moved(s, from, to)
  {
    var others := s[..from] + s[from + 1..];
    assert others[..to] == s[..from] + s[from + 1..to + 1];
    assert others[to..] == s[to + 1..];
  }

  /** Copying the elements before `from` one place up, and the element over the first of them, moves it down. */
  lemma MovedDown<T>(s: seq<T>, from: nat, to: nat)
    requires to <= from < |s|
    ensures (s[..to + 1] + s[to..from] + s[from + 1..])[to := s[from]] == Moved(s, from, to)
  {
    var others := s[..from] + s[from + 1..];
    assert others[..to] == s[..to];
    assert others[to..] == s[to..from] + s[from + 1..];
  }

  lemma OldIndexInjective(from: nat, to: nat, j: nat, k: nat)
    requires j != k
    ensures OldIndex(from, to, j) != OldIndex(from, to, k)
  {
  }

  function Ids(items: seq<Entry>): (r: seq<string>)
    ensures |r| == |items|
  {
    seq(|items|, i requires 0 <= i < |items| => items[i].id)
  }

  lemma MoveThenIds(items: seq<Entry>, from: nat, to: nat)
    requires from < |items| && to < |items|
    ensures Ids(Renumbered(Moved(items, from, to))) == Moved(Ids(items), from, to)
  {
    var m := Moved(items, from, to);
    var others := items[..from] + items[from + 1..];
    var ids := Ids(items)[..from] + Ids(items)[from + 1..];
    assert forall k :: 0 <= k < |others| ==> others[k].id == ids[k];
  }
}
