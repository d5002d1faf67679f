/** Cluster rebalancing: moving the excess of an overloaded node to the other online nodes in turn. */
module Rebalancing {
  import opened Arithmetic
  import opened Collections

  type Targets = map<string, string>  // the node each task is assigned to

  function TasksOn(targets: Targets, node: string): set<string> {
    set id | id in targets && targets[id] == node
  }

  function Count(targets: Targets, node: string): nat {
    |TasksOn(targets, node)|
  }

  lemma MoveCounts(targets: Targets, id: string, to: string)
    requires id in targets && targets[id] != to
    ensures var t := targets[id := to];
            && Count(t, targets[id]) == Count(targets, targets[id]) - 1
            && Count(t, to) == Count(targets, to) + 1
            && forall n :: n != targets[id] && n != to ==> Count(t, n) == Count(targets, n)
  {
    var t := targets[id := to];
    var from := targets[id];
    assert TasksOn(t, from) == TasksOn(targets, from) - {id};
    assert TasksOn(t, to) == TasksOn(targets, to) + {id};
    forall n | n != from && n != to
      ensures Count(t, n) == Count(targets, n)
    {
      assert TasksOn(t, n) == TasksOn(targets, n);
    }
  }

  // ----- round robin over all nodes but one -----

  /** The r-th of the other nodes, when node f gives tasks away. */
  function Other(f: nat, r: nat): nat {
    if r < f then r else r + 1
  }

  /** Which receiver node j is. */
  function Rank(f: nat, j: nat): nat
    requires j != f
  {
    if j < f then j else j - 1
  }

  /** How many of k tasks the r-th of m receivers gets. */
  function Share(k: nat, m: nat, r: nat): nat
    requires m > 0
  {
    k / m + if r < k % m then 1 else 0
  }

  lemma DivStep(k: nat, m: nat)
    requires m > 0
    ensures if k % m == m - 1 then (k + 1) % m == 0 && (k + 1) / m == k / m + 1
            else (k + 1) % m == k % m + 1 && (k + 1) / m == k / m
  {
    var q, r := k / m, k % m;
    assert k == q * m + r;
    if r == m - 1 {
      DivUnique(k + 1, m, q + 1, 0);
    } else {
      DivUnique(k + 1, m, q, r + 1);
    }
  }

  lemma DivUnique(x: nat, m: nat, q: nat, r: nat)
    requires m > 0 && x == q * m + r && r < m
    ensures x / m == q && x % m == r
  {
    var q', r' := x / m, x % m;
    assert x == q' * m + r';
    if q < q' {
      MulMonotone(q + 1, q', m);
    } else if q' < q {
      MulMonotone(q' + 1, q, m);
    }
  }

  /** The next task goes to receiver k % m, and only that share grows. */
  lemma ShareStep(k: nat, m: nat, r: nat)
    requires m > 0 && r < m
    ensures Share(k + 1, m, r) == Share(k, m, r) + if r == k % m then 1 else 0
  {
    DivStep(k, m);
  }

  lemma FirstShare(m: nat, r: nat)
    requires m > 0
    ensures Share(0, m, r) == 0
  {
    DivUnique(0, m, 0, 0);
  }

  /** Shares differ by at most one. */
  lemma SharesAreFair(k: nat, m: nat, r: nat, r': nat)
    requires m > 0
    ensures Share(k, m, r) <= Share(k, m, r') + 1
  {
  }

  function SharesUpTo(k: nat, m: nat, t: nat): nat
    requires m > 0
  {
    if t == 0 then 0 else SharesUpTo(k, m, t - 1) + Share(k, m, t - 1)
  }

  lemma {:induction false} PartialShares(k: nat, m: nat, t: nat)
    requires m > 0 && t <= m
    ensures SharesUpTo(k, m, t) == t * (k / m) + if t < k % m then t else k % m
  {
    if t > 0 {
      PartialShares(k, m, t - 1);
      assert t * (k / m) == (t - 1) * (k / m) + k / m;
    }
  }

  /** Nothing is lost in the distribution: the shares add up to the tasks given away. */
  lemma SharesAddUp(k: nat, m: nat)
    requires m > 0
    ensures SharesUpTo(k, m, m) == k
  {
    PartialShares(k, m, m);
    assert k == m * (k / m) + k % m;
  }

  /** Where the scan from nodeIdx finds the first node other than f. */
  function NextPick(n: nat, f: nat, nodeIdx: nat): nat
    requires n >= 2 && f < n
  {
    if nodeIdx != f then nodeIdx else (f + 1) % n
  }

  lemma NextPickStep(n: nat, f: nat, k: nat)
    requires n >= 2 && f < n
    ensures var j := Other(f, k % (n - 1));
            j < n && j != f && NextPick(n, f, (j + 1) % n) == Other(f, (k + 1) % (n - 1))
  {
    DivStep(k, n - 1);
    var j := Other(f, k % (n - 1));
    if j + 1 < n {
      DivUnique(j + 1, n, 0, j + 1);
    } else {
      DivUnique(j + 1, n, 1, 0);
    }
    if f + 1 < n {
      DivUnique(f + 1, n, 0, f + 1);
    } else {
      DivUnique(f + 1, n, 1, 0);
    }
  }

  function Min(a: int, b: int): int {
    if a < b then a else b
  }

  /** Tasks that leave the node: as many as asked for and there are. */
  function Leaving(count: int, there: nat): nat {
    if count < 0 then 0 else Min(count, there)
  }

  function Counts(targets: Targets, nodes: seq<string>): (r: seq<nat>)
    ensures |r| == |nodes|
  {
    seq(|nodes|, j requires 0 <= j < |nodes| => Count(targets, nodes[j]))
  }

  /** The counts after node f gave k tasks to the others in turn. */
  function Given(counts: seq<nat>, f: nat, k: nat): (r: seq<nat>)
    requires f < |counts| && |counts| >= 2 && k <= counts[f]
    ensures |r| == |counts|
  {
    seq(|counts|, j requires 0 <= j < |counts| =>
      if j == f then counts[f] - k else counts[j] + Share(k, |counts| - 1, Rank(f, j)))
  }

  lemma GivenNothing(counts: seq<nat>, f: nat)
    requires f < |counts| && |counts| >= 2
    ensures Given(counts, f, 0) == counts
  {
    forall j | 0 <= j < |counts| && j != f
      ensures Given(counts, f, 0)[j] == counts[j]
    {
      FirstShare(|counts| - 1, Rank(f, j));
    }
  }

  lemma GiveOneMore(counts: seq<nat>, f: nat, k: nat, to: nat)
    requires f < |counts| && |counts| >= 2 && k + 1 <= counts[f] && to == Other(f, k % (|counts| - 1)) && to < |counts| && to != f
    ensures var g := Given(counts, f, k);
            Given(counts, f, k + 1) == g[f := g[f] - 1][to := g[to] + 1]
  {
    var g := Given(counts, f, k);
    forall j | 0 <= j < |counts| && j != f
      ensures Given(counts, f, k + 1)[j] == g[j] + if j == to then 1 else 0
    {
      ShareStep(k, |counts| - 1, Rank(f, j));
    }
  }

  /** No task appears or disappears; those that moved left the node for one of the given nodes. */
  ghost predicate Moved(before: Targets, after: Targets, node: string, nodes: seq<string>) {
    && after.Keys == before.Keys
    && forall id :: id in before ==> after[id] == before[id] || (before[id] == node && after[id] in nodes)
  }

  /** Node f gave k tasks to the others in turn, and the scan from nodeIdx finds the one whose turn is next. */
  ghost predicate GaveAway(targets: Targets, nodes: seq<string>, f: nat, counts: seq<nat>, k: nat, nodeIdx: nat)
    requires f < |nodes| == |counts| && |nodes| >= 2 && k <= counts[f]
  {
    && Counts(targets, nodes) == Given(counts, f, k)
    && NextPick(|nodes|, f, nodeIdx) == Other(f, k % (|nodes| - 1))
  }

  /** int(float64(total) / float64(n)). */
  function Average(total: nat, n: nat): nat
    requires n > 0
  {
    total / n
  }

  /** The task queue's assignment; nodes are the online ones, which stay online meanwhile. */
  class Scheduler {
    var targets: Targets

    constructor (targets: Targets)
      ensures this.targets == targets
    {
      this.targets := targets;
    }

    method CountTasksForNode(node: string) returns (count: nat)
      ensures count == Count(targets, node)
    {
      count := 0;
      var rest := targets.Keys;
      while rest != {}
        invariant rest <= targets.Keys
        invariant count == |TasksOn(targets, node) - rest|
        decreases rest
      {
        var id :| id in rest;
        if targets[id] == node {
          count := count + 1;
          assert TasksOn(targets, node) - (rest - {id}) == (TasksOn(targets, node) - rest) + {id};
        } else {
          assert TasksOn(targets, node) - (rest - {id}) == TasksOn(targets, node) - rest;
        }
        rest := rest - {id};
      }
      assert TasksOn(targets, node) - {} == TasksOn(targets, node);
    }

    /** The scan for a receiver: the first node from nodeIdx on, around the list, that is not the giver. */
    method FindReceiver(f: nat, nodes: seq<string>, nodeIdx: nat) returns (j: int)
      requires Distinct(nodes) && f < |nodes| && nodeIdx < |nodes|
      ensures if |nodes| == 1 then j == -1 else j == NextPick(|nodes|, f, nodeIdx)
    {
      var n := |nodes|;
      for i := 0 to n
        invariant i >= 1 ==> nodeIdx == f
        invariant i <= 1 || n == 1
      {
        var candidate := (nodeIdx + i) % n;
        if i == 0 {
          DivUnique(nodeIdx, n, 0, nodeIdx);
        }
        if nodes[candidate] != nodes[f] {
          return candidate;
        }
      }
      return -1;
    }

    /** Hands one task of node f to the receiver, found from nodeIdx, and moves nodeIdx past it. */
    method GiveTask(id: string, f: nat, nodes: seq<string>, nodeIdx: nat, ghost counts: seq<nat>, ghost k: nat)
        returns (next: nat)
      requires Distinct(nodes) && f < |nodes| && |nodes| >= 2 && nodeIdx < |nodes|
      requires id in targets && targets[id] == nodes[f]
      requires |counts| == |nodes| && k < counts[f] && GaveAway(targets, nodes, f, counts, k, nodeIdx)
      modifies this
      ensures targets.Keys == old(targets).Keys && targets == old(targets)[id := targets[id]]
      ensures targets[id] != nodes[f] && targets[id] in nodes
      ensures next < |nodes| && GaveAway(targets, nodes, f, counts, k + 1, next)
    {
      var j := FindReceiver(f, nodes, nodeIdx);
      NextPickStep(|nodes|, f, k);
      GiveOneMore(counts, f, k, j);
      MoveCounts(targets, id, nodes[j]);
      targets := targets[id := nodes[j]];
      next := (j + 1) % |nodes|;
      var before := Given(counts, f, k);
      assert Counts(targets, nodes) == before[f := before[f] - 1][j := before[j] + 1];
    }
  
    /** Moves min(count, tasks there) tasks of node f to the other nodes in turn; the tasks are met in any order. */
    method ReassignTasks(f: nat, count: int, nodes: seq<string>)
      requires Distinct(nodes) && f < |nodes|
      modifies this
      ensures Moved(old(targets), targets, nodes[f], nodes)
      ensures |nodes| == 1 ==> targets == old(targets)
      ensures |nodes| >= 2 ==>
                var counts := Counts(old(targets), nodes);
                Counts(targets, nodes) == Given(counts, f, Leaving(count, counts[f]))
    {
      var reassigned: nat, nodeIdx: nat := 0, 0;
      var rest := targets.Keys;
      ghost var counts := Counts(targets, nodes);
      if |nodes| >= 2 {
        GivenNothing(counts, f);
        StartPick(|nodes|, f);
      }
      while rest != {} && reassigned < count
        invariant rest <= targets.Keys
        invariant 0 <= reassigned <= Leaving(count, counts[f]) && nodeIdx < |nodes|
        invariant Moved(old(targets), targets, nodes[f], nodes)
        invariant |nodes| == 1 ==> targets == old(targets) && reassigned == 0
        invariant |nodes| >= 2 ==> forall id :: id in targets && id !in rest ==> targets[id] != nodes[f]
        invariant |nodes| >= 2 ==> GaveAway(targets, nodes, f, counts, reassigned, nodeIdx)
        decreases rest
      {
        var id :| id in rest;
        rest := rest - {id};
        if targets[id] == nodes[f] && |nodes| >= 2 {
          MoreThere(targets, nodes, f, counts, reassigned, id);
          nodeIdx := GiveTask(id, f, nodes, nodeIdx, counts, reassigned);
          reassigned := reassigned + 1;
        }
      }
      if |nodes| >= 2 && rest == {} {
        NoneLeft(targets, nodes, f, counts, reassigned);
      }
    }

    /** Every online node in turn gives away what it has above the average, if that is more than two tasks. */
    method Rebalance(onlineNodes: seq<string>)
      requires Distinct(onlineNodes)
      modifies this
      ensures targets.Keys == old(targets).Keys
      ensures forall id :: id in targets && old(targets)[id] !in onlineNodes ==> targets[id] == old(targets)[id]
      ensures onlineNodes == [] ==> targets == old(targets)
      ensures onlineNodes != [] ==>
                Counts(targets, onlineNodes)
                == Turns(Counts(old(targets), onlineNodes), 0, Average(|old(targets)|, |onlineNodes|))
    {
      if |onlineNodes| == 0 {
        return;
      }
      var totalTasks := |targets|;
      var avgTasks := Average(totalTasks, |onlineNodes|);
      ghost var counts := Counts(targets, onlineNodes);
      for i := 0 to |onlineNodes|
        invariant targets.Keys == old(targets).Keys
        invariant forall id :: id in targets && old(targets)[id] !in onlineNodes ==> targets[id] == old(targets)[id]
        invariant Turns(Counts(targets, onlineNodes), i, avgTasks) == Turns(counts, 0, avgTasks)
      {
        TakeTurn(i, avgTasks, onlineNodes);
      }
    }

    method TakeTurn(i: nat, avgTasks: nat, onlineNodes: seq<string>)
      requires Distinct(onlineNodes) && i < |onlineNodes|
      modifies this
      ensures targets.Keys == old(targets).Keys
      ensures forall id :: id in targets && old(targets)[id] !in onlineNodes ==> targets[id] == old(targets)[id]
      ensures Counts(targets, onlineNodes) == Turn(Counts(old(targets), onlineNodes), i, avgTasks)
    {
      var currentTasks := CountTasksForNode(onlineNodes[i]);
      if currentTasks > avgTasks + 2 {
        var excess := currentTasks - avgTasks;
        ReassignTasks(i, excess, onlineNodes);
      }
    }
  }

  // ----- a whole rebalance -----

  /** One node's turn: an overloaded node gives away all it has above the average. */
  function Turn(counts: seq<nat>, f: nat, avg: nat): (r: seq<nat>)
    requires f < |counts|
    ensures |r| == |counts|
  {
    if counts[f] > avg + 2 && |counts| >= 2 then Given(counts, f, counts[f] - avg) else counts
  }

  /** The turns of the nodes from f on. */
  function Turns(counts: seq<nat>, f: nat, avg: nat): (r: seq<nat>)
    requires f <= |counts|
    ensures |r| == |counts|
    decreases |counts| - f
  {
    if f == |counts| then counts else Turns(Turn(counts, f, avg), f + 1, avg)
  }

  function Sum(counts: seq<nat>, k: nat): nat
    requires k <= |counts|
  {
    if k == 0 then 0 else Sum(counts, k - 1) + counts[k - 1]
  }

  lemma {:induction false} GivenSum(counts: seq<nat>, f: nat, k: nat, t: nat)
    requires f < |counts| && |counts| >= 2 && k <= counts[f] && t <= |counts|
    ensures Sum(Given(counts, f, k), t) + (if t > f then k else 0)
            == Sum(counts, t) + SharesUpTo(k, |counts| - 1, if t > f then t - 1 else t)
  {
    if t > 0 {
      GivenSum(counts, f, k, t - 1);
    }
  }

  /** A turn moves tasks but loses and invents none. */
  lemma TurnConserves(counts: seq<nat>, f: nat, avg: nat)
    requires f < |counts|
    ensures Sum(Turn(counts, f, avg), |counts|) == Sum(counts, |counts|)
  {
    if counts[f] > avg + 2 && |counts| >= 2 {
      GivenSum(counts, f, counts[f] - avg, |counts|);
      SharesAddUp(counts[f] - avg, |counts| - 1);
    }
  }

  lemma {:induction false} TurnsConserve(counts: seq<nat>, f: nat, avg: nat)
    requires f <= |counts|
    ensures Sum(Turns(counts, f, avg), |counts|) == Sum(counts, |counts|)
    decreases |counts| - f
  {
    if f < |counts| {
      TurnConserves(counts, f, avg);
      TurnsConserve(Turn(counts, f, avg), f + 1, avg);
    }
  }

  /** After its turn an overloaded node holds exactly the average; what it gave spreads over the others with at most one
      task difference, and those earlier in the list get no less than the later ones. */
  lemma TurnIsFair(counts: seq<nat>, f: nat, avg: nat)
    requires f < |counts| && |counts| >= 2 && counts[f] > avg + 2
    ensures var t := Turn(counts, f, avg);
            && t[f] == avg
            && (forall i, j :: 0 <= i < |counts| && 0 <= j < |counts| && i != f && j != f ==>
                  t[i] - counts[i] <= t[j] - counts[j] + 1)
            && forall i, j :: 0 <= i < j < |counts| && i != f && j != f ==> t[i] - counts[i] >= t[j] - counts[j]
  {
  }

  /** A node with at most two tasks more than the average gives nothing away, and neither does the only one. */
  lemma TurnLeavesIff(counts: seq<nat>, f: nat, avg: nat)
    requires f < |counts|
    ensures Turn(counts, f, avg) == counts <==> counts[f] <= avg + 2 || |counts| == 1
  {
    if counts[f] > avg + 2 && |counts| >= 2 {
      assert Turn(counts, f, avg)[f] == avg;
    }
  }

  /** The average is the whole number of tasks that every node can have. */
  lemma AverageIsShare(total: nat, n: nat)
    requires n > 0
    ensures Average(total, n) * n <= total < (Average(total, n) + 1) * n
  {
    assert total == total / n * n + total % n;
  }

  lemma SumTwo(c: seq<nat>)
    requires |c| == 2
    ensures Sum(c, 2) == c[0] + c[1]
  {
    assert Sum(c, 1) == Sum(c, 0) + c[0];
  }

  /** No node is overloaded. */
  ghost predicate Balanced(counts: seq<nat>, avg: nat) {
    forall j :: 0 <= j < |counts| ==> counts[j] <= avg + 2
  }

  /** With n online nodes every rebalance, whatever is where, leaves no online node overloaded. */
  ghost predicate AlwaysBalances(n: nat)
    requires n > 0
  {
    forall counts: seq<nat>, total: nat :: |counts| == n && Sum(counts, n) <= total ==>
      Balanced(Turns(counts, 0, Average(total, n)), Average(total, n))
  }

  lemma TwoNodesBalance(c: seq<nat>, avg: nat)
    requires |c| == 2 && c[0] + c[1] <= 2 * avg + 1
    ensures Balanced(Turns(c, 0, avg), avg)
  {
    var t1 := Turn(c, 0, avg);
    var t2 := Turn(t1, 1, avg);
    TurnConserves(c, 0, avg);
    TurnConserves(t1, 1, avg);
    SumTwo(c);
    SumTwo(t1);
    SumTwo(t2);
    assert Turns(c, 0, avg) == Turns(t1, 1, avg) == Turns(t2, 2, avg) == t2;
  }

  /** Turns of nodes that are not overloaded change nothing. */
  lemma {:induction false} OnlyLastTurn(counts: seq<nat>, f: nat, avg: nat)
    requires f < |counts| && forall j :: f <= j < |counts| - 1 ==> counts[j] <= avg + 2
    ensures Turns(counts, f, avg) == Turn(counts, |counts| - 1, avg)
    decreases |counts| - f
  {
    if f < |counts| - 1 {
      OnlyLastTurn(counts, f + 1, avg);
    } else {
      var t := Turn(counts, f, avg);
      assert Turns(counts, f, avg) == Turns(t, f + 1, avg) == t;
    }
  }

  /** The first node is full but not overloaded, and the last one has all other tasks. */
  function Lopsided(n: nat): (r: seq<nat>)
    requires n >= 3
    ensures |r| == n
  {
    seq(n, j requires 0 <= j < n => if j == 0 then 7 else if j == n - 1 then 5 * n - 7 else 0)
  }

  lemma {:induction false} LopsidedSum(n: nat, k: nat)
    requires n >= 3 && k <= n
    ensures Sum(Lopsided(n), k) == if k == 0 then 0 else if k < n then 7 else 5 * n
  {
    if k > 0 {
      LopsidedSum(n, k - 1);
    }
  }

  lemma FirstGetsSome(k: nat, m: nat)
    requires k > 0 && m > 0
    ensures Share(k, m, 0) >= 1
  {
    var q := k / m;
    assert k == q * m + k % m;
    if q == 0 {
      assert k % m == k;
    }
  }

  /** The last node's turn overloads the first again. */
  lemma LopsidedStaysUnbalanced(n: nat)
    requires n >= 3
    ensures Sum(Lopsided(n), n) == 5 * n && Average(5 * n, n) == 5
    ensures !Balanced(Turns(Lopsided(n), 0, 5), 5)
  {
    var c := Lopsided(n);
    LopsidedSum(n, n);
    DivUnique(5 * n, n, 5, 0);
    OnlyLastTurn(c, 0, 5);
    var k := c[n - 1] - 5;
    var after := Given(c, n - 1, k);
    assert Turn(c, n - 1, 5) == after;
    FirstGetsSome(k, n - 1);
    assert after[0] == 7 + Share(k, n - 1, 0);
  }

  /** Rebalancing is sure to leave no online node overloaded if and only if at most two nodes are online. */
  lemma AlwaysBalancesIff(n: nat)
    requires n > 0
    ensures AlwaysBalances(n) <==> n <= 2
  {
    if n >= 3 {
      LopsidedStaysUnbalanced(n);
      assert |Lopsided(n)| == n && Sum(Lopsided(n), n) <= 5 * n;
    } else {
      forall counts: seq<nat>, total: nat | |counts| == n && Sum(counts, n) <= total
        ensures Balanced(Turns(counts, 0, Average(total, n)), Average(total, n))
      {
        if n == 2 {
          SumTwo(counts);
          TwoNodesBalance(counts, Average(total, n));
        } else {
          OnlyLastTurn(counts, 0, Average(total, n));
          assert Sum(counts, 1) == Sum(counts, 0) + counts[0];
        }
      }
    }
  }

  lemma StartPick(n: nat, f: nat)
    requires n >= 2 && f < n
    ensures NextPick(n, f, 0) == Other(f, 0 % (n - 1))
  {
    DivUnique(0, n - 1, 0, 0);
    if f == 0 {
      DivUnique(1, n, 0, 1);
    }
  }

  lemma NoneLeft(targets: Targets, nodes: seq<string>, f: nat, counts: seq<nat>, k: nat)
    requires f < |nodes| == |counts| && |nodes| >= 2 && k <= counts[f] && Counts(targets, nodes) == Given(counts, f, k)
    requires forall id :: id in targets ==> targets[id] != nodes[f]
    ensures k == counts[f]
  {
    assert TasksOn(targets, nodes[f]) == {};
    assert Counts(targets, nodes)[f] == counts[f] - k;
  }

  /** A task still on the giver shows that not all were given away. */
  lemma MoreThere(targets: Targets, nodes: seq<string>, f: nat, counts: seq<nat>, k: nat, id: string)
    requires f < |nodes| == |counts| && |nodes| >= 2 && k <= counts[f] && Counts(targets, nodes) == Given(counts, f, k)
    requires id in targets && targets[id] == nodes[f]
    ensures k < counts[f]
  {
    assert id in TasksOn(targets, nodes[f]);
    assert Counts(targets, nodes)[f] == counts[f] - k;
  }
}
