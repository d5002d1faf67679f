/** The bounded set of per-task metric labels, kept in order of use. */
module LabelLru {
  import opened Collections

  const MAX_PER_TASK_LABELS: nat := 256

  type Gauge = map<string, int>  // the values of a gauge vector by label

  /** Live task ids, most recently touched first, and the labels of the two gauges. */
  datatype Cache = Cache(recency: seq<string>, speed: Gauge, progress: Gauge)

  function Without(s: seq<string>, k: string): (r: seq<string>)
    ensures |r| <= |s|
  {
    if s == [] then [] else (if s[0] == k then [] else [s[0]]) + Without(s[1..], k)
  }

  /** Move or put k to the front; past the cap the least recently touched key goes, with its labels. */
  function Touch(c: Cache, k: string): Cache {
    if k in c.recency then c.(recency := [k] + Without(c.recency, k))
    else Evict(c.(recency := [k] + c.recency))
  }

  function Evict(c: Cache): Cache
    decreases |c.recency|
  {
    if |c.recency| <= MAX_PER_TASK_LABELS then c
    else
      var last := c.recency[|c.recency| - 1];
      Evict(Cache(c.recency[..|c.recency| - 1], c.speed - {last}, c.progress - {last}))
  }

  function Forget(c: Cache, k: string): Cache {
    Cache(Without(c.recency, k), c.speed - {k}, c.progress - {k})
  }

  function RecordSpeed(c: Cache, k: string, v: int): Cache {
    var t := Touch(c, k);
    t.(speed := t.speed[k := v])
  }

  function RecordProgress(c: Cache, k: string, v: int): Cache {
    var t := Touch(c, k);
    t.(progress := t.progress[k := v])
  }

  /** No key twice, never more than the cap, and no label without a live key. */
  ghost predicate Sane(c: Cache) {
    && Distinct(c.recency) && |c.recency| <= MAX_PER_TASK_LABELS
    && (forall k :: k in c.speed || k in c.progress ==> k in c.recency)
  }

  class Element {
    const taskID: string

    constructor (taskID: string)
      ensures this.taskID == taskID
    {
      this.taskID := taskID;
    }
  }

  class Metrics {
    var perTaskLRU: seq<Element>              // front first
    var perTaskEntry: map<string, Element>
    var downloadSpeedByTask: Gauge
    var downloadProgressByTask: Gauge
    ghost var keys: seq<string>               // the ids of the list

    /** List and map hold the same elements, each under its own id. */
    ghost predicate Valid()
      reads this
    {
      && |keys| == |perTaskLRU| && Distinct(keys)
      && (forall i :: 0 <= i < |keys| ==>
            perTaskLRU[i].taskID == keys[i] && keys[i] in perTaskEntry && perTaskEntry[keys[i]] == perTaskLRU[i])
      && (forall k :: k in perTaskEntry ==> k in keys)
    }

    ghost function View(): Cache
      reads this
    {
      Cache(keys, downloadSpeedByTask, downloadProgressByTask)
    }

    constructor ()
      ensures Valid() && View() == Cache([], map[], map[])
    {
      perTaskLRU, perTaskEntry, keys := [], map[], [];
      downloadSpeedByTask, downloadProgressByTask := map[], map[];
    }

    /** list.Remove of the element of key k, found by identity. */
    method Unlink(k: string)
      requires Valid() && k in perTaskEntry
      modifies `perTaskLRU, `perTaskEntry, `keys
      ensures Valid() && keys == Without(old(keys), k) && k !in keys
      ensures perTaskEntry == old(perTaskEntry) - {k}
    {
      var i := IndexOfElement(k);
      WithoutAt(keys, i, k);
      perTaskLRU := perTaskLRU[..i] + perTaskLRU[i + 1..];
      perTaskEntry := perTaskEntry - {k};
      keys := keys[..i] + keys[i + 1..];
    }

    method IndexOfElement(k: string) returns (i: nat)
      requires Valid() && k in perTaskEntry
      ensures i < |keys| && keys[i] == k
    {
      var el := perTaskEntry[k];
      i := 0;
      while perTaskLRU[i] != el
        invariant i < |perTaskLRU|
        invariant forall j :: 0 <= j < i ==> keys[j] != k
        invariant exists j :: i <= j < |keys| && keys[j] == k
        decreases |perTaskLRU| - i
      {
        i := i + 1;
      }
    }

    method PushFront(el: Element)
      requires Valid() && el.taskID !in perTaskEntry
      modifies `perTaskLRU, `perTaskEntry, `keys
      ensures Valid() && keys == [el.taskID] + old(keys)
      ensures perTaskEntry == old(perTaskEntry)[el.taskID := el]
    {
      perTaskLRU := [el] + perTaskLRU;
      perTaskEntry := perTaskEntry[el.taskID := el];
      keys := [el.taskID] + keys;
    }

    method TouchPerTaskLRU(taskID: string)
      requires Valid()
      modifies this
      ensures Valid() && View() == Touch(old(View()), taskID)
    {
      if taskID in perTaskEntry {
        MoveToFront(taskID);
        return;
      }
      var el := new Element(taskID);
      PushFront(el);
      EvictOldest();
    }

    method MoveToFront(taskID: string)
      requires Valid() && taskID in perTaskEntry
      modifies `perTaskLRU, `perTaskEntry, `keys
      ensures Valid() && keys == [taskID] + Without(old(keys), taskID)
    {
      var el := perTaskEntry[taskID];
      Unlink(taskID);
      PushFront(el);
    }

    method EvictOldest()
      requires Valid()
      modifies this
      ensures Valid() && View() == Evict(old(View()))
    {
      while |perTaskLRU| > MAX_PER_TASK_LABELS
        invariant Valid() && Evict(View()) == Evict(old(View()))
        decreases |perTaskLRU|
      {
        DropOldest();
      }
    }

    method DropOldest()
      requires Valid() && perTaskLRU != []
      modifies this
      ensures Valid()
      ensures var last := old(keys)[|old(keys)| - 1];
              View() == Cache(old(keys)[..|old(keys)| - 1], old(downloadSpeedByTask) - {last},
                              old(downloadProgressByTask) - {last})
    {
      var n := |perTaskLRU| - 1;
      var evicted := perTaskLRU[n].taskID;
      perTaskLRU := perTaskLRU[..n];
      perTaskEntry := perTaskEntry - {evicted};
      keys := keys[..n];
      downloadSpeedByTask := downloadSpeedByTask - {evicted};
      downloadProgressByTask := downloadProgressByTask - {evicted};
    }

    method ForgetPerTask(taskID: string)
      requires Valid()
      modifies this
      ensures Valid() && View() == Forget(old(View()), taskID)
    {
      if taskID in perTaskEntry {
        Unlink(taskID);
      } else {
        WithoutAbsent(keys, taskID);
      }
      downloadSpeedByTask := downloadSpeedByTask - {taskID};
      downloadProgressByTask := downloadProgressByTask - {taskID};
    }

    method RecordDownloadSpeed(taskID: string, speed: int)
      requires Valid()
      modifies this
      ensures Valid() && View() == RecordSpeed(old(View()), taskID, speed)
    {
      TouchPerTaskLRU(taskID);
      downloadSpeedByTask := downloadSpeedByTask[taskID := speed];
    }

    method RecordDownloadProgress(taskID: string, progress: int)
      requires Valid()
      modifies this
      ensures Valid() && View() == RecordProgress(old(View()), taskID, progress)
    {
      TouchPerTaskLRU(taskID);
      downloadProgressByTask := downloadProgressByTask[taskID := progress];
    }
  }

  lemma {:induction false} WithoutAbsent(s: seq<string>, k: string)
    requires k !in s
    ensures Without(s, k) == s
    decreases |s|
  {
    if s != [] {
      WithoutAbsent(s[1..], k);
    }
  }

  lemma {:induction false} WithoutAt(s: seq<string>, i: nat, k: string)
    requires i < |s| && s[i] == k && Distinct(s)
    ensures Without(s, k) == s[..i] + s[i + 1..]
    decreases |s|
  {
    if i == 0 {
      WithoutAbsent(s[1..], k);
    } else {
      WithoutAt(s[1..], i - 1, k);
      assert s[1..][..i - 1] == s[..i][1..];
    }
  }

  lemma {:induction false} WithoutMembers(s: seq<string>, k: string)
    ensures forall x :: x in Without(s, k) <==> x in s && x != k
    decreases |s|
  {
    if s != [] {
      WithoutMembers(s[1..], k);
      assert s == [s[0]] + s[1..];
    }
  }

  lemma {:induction false} WithoutDistinct(s: seq<string>, k: string)
    requires Distinct(s)
    ensures Distinct(Without(s, k))
    decreases |s|
  {
    if s != [] {
      var t := s[1..];
      WithoutDistinct(t, k);
      WithoutMembers(t, k);
      if s[0] != k {
        assert Without(s, k) == [s[0]] + Without(t, k);
        assert s[0] !in t;
      }
    }
  }

  // ----- what one call keeps -----

  /** The first 256 of a list. */
  function Capped(s: seq<string>): (r: seq<string>) {
    if |s| <= MAX_PER_TASK_LABELS then s else s[..MAX_PER_TASK_LABELS]
  }

  /** A touch puts the key in front, keeps the order of the others and drops the 257th. */
  lemma TouchRecency(c: Cache, k: string)
    requires Sane(c)
    ensures Sane(Touch(c, k)) && Touch(c, k).recency == Capped([k] + Without(c.recency, k))
    ensures k in Touch(c, k).recency
  {
    assert Capped([k] + Without(c.recency, k))[0] == k;
    if k in c.recency {
      TouchLive(c, k);
    } else {
      TouchNew(c, k);
    }
  }

  lemma FrontDistinct(s: seq<string>, k: string)
    requires Distinct(s)
    ensures Distinct([k] + Without(s, k))
    ensures forall x :: x in [k] + Without(s, k) <==> x == k || x in s
  {
    WithoutDistinct(s, k);
    WithoutMembers(s, k);
    var w := Without(s, k);
    forall i, j | 0 <= i < j <= |w|
      ensures ([k] + w)[i] != ([k] + w)[j]
    {
      assert w[j - 1] in w;
    }
  }

  lemma TouchLive(c: Cache, k: string)
    requires Sane(c) && k in c.recency
    ensures Sane(Touch(c, k)) && Touch(c, k).recency == Capped([k] + Without(c.recency, k))
  {
    FrontDistinct(c.recency, k);
    WithoutShrinks(c.recency, k);
  }

  lemma TouchNew(c: Cache, k: string)
    requires Sane(c) && k !in c.recency
    ensures Sane(Touch(c, k)) && Touch(c, k).recency == Capped([k] + Without(c.recency, k))
  {
    FrontDistinct(c.recency, k);
    WithoutAbsent(c.recency, k);
    var d := c.(recency := [k] + c.recency);
    if |d.recency| > MAX_PER_TASK_LABELS {
      EvictOne(d);
    }
  }

  lemma {:induction false} WithoutShrinks(s: seq<string>, k: string)
    requires k in s
    ensures |Without(s, k)| < |s|
    decreases |s|
  {
    if s[0] != k {
      WithoutShrinks(s[1..], k);
    }
  }

  lemma EvictOne(d: Cache)
    requires Distinct(d.recency) && |d.recency| == MAX_PER_TASK_LABELS + 1
    requires forall x :: x in d.speed || x in d.progress ==> x in d.recency
    ensures Evict(d).recency == d.recency[..MAX_PER_TASK_LABELS] && Sane(Evict(d))
  {
    var n := MAX_PER_TASK_LABELS;
    var e := Cache(d.recency[..n], d.speed - {d.recency[n]}, d.progress - {d.recency[n]});
    assert Evict(d) == Evict(e) == e;
    assert d.recency == e.recency + [d.recency[n]];
  }

  lemma ForgetKeepsSane(c: Cache, k: string)
    requires Sane(c)
    ensures Sane(Forget(c, k)) && k !in Forget(c, k).recency
  {
    WithoutDistinct(c.recency, k);
    WithoutMembers(c.recency, k);
  }

  /** The gauge is set after the lock of the list is released. */
  function SetSpeed(c: Cache, k: string, v: int): Cache {
    c.(speed := c.speed[k := v])
  }

  /** Setting the gauge on its own is right exactly when the key is still live. */
  lemma SetKeepsSaneIff(c: Cache, k: string, v: int)
    requires Sane(c)
    ensures Sane(SetSpeed(c, k, v)) <==> k in c.recency
  {
    assert k in SetSpeed(c, k, v).speed;
  }

  // ----- whole runs -----

  datatype Op =
    | Speed(key: string, speed: int)
    | Progress(key: string, progress: int)
    | Dropped(key: string)

  function Step(c: Cache, op: Op): Cache {
    match op
    case Speed(k, v) => RecordSpeed(c, k, v)
    case Progress(k, v) => RecordProgress(c, k, v)
    case Dropped(k) => Forget(c, k)
  }

  /** The cache after the calls, from an empty one. */
  function Run(ops: seq<Op>): Cache {
    if ops == [] then Cache([], map[], map[]) else Step(Run(ops[..|ops| - 1]), ops[|ops| - 1])
  }

  lemma StepKeepsSane(c: Cache, op: Op)
    requires Sane(c)
    ensures Sane(Step(c, op))
    ensures Step(c, op).recency
            == if op.Dropped? then Without(c.recency, op.key) else Capped([op.key] + Without(c.recency, op.key))
  {
    if op.Dropped? {
      ForgetKeepsSane(c, op.key);
    } else {
      TouchRecency(c, op.key);
    }
  }

  /** After any calls: no key twice, at most 256, and every gauge label belongs to a live key. */
  lemma {:induction false} LabelsAreBounded(ops: seq<Op>)
    ensures Sane(Run(ops))
    decreases |ops|
  {
    if ops != [] {
      LabelsAreBounded(ops[..|ops| - 1]);
      StepKeepsSane(Run(ops[..|ops| - 1]), ops[|ops| - 1]);
    }
  }

  // ----- who is evicted -----

  /** The other keys recorded since key k last was. */
  function Since(ops: seq<Op>, k: string): set<string>
    decreases |ops|
  {
    if ops == [] then {}
    else
      var last := ops[|ops| - 1];
      if last.key == k then {} else Since(ops[..|ops| - 1], k) + if last.Dropped? then {} else {last.key}
  }

  /** Key k was recorded, and not forgotten since. */
  predicate Wanted(ops: seq<Op>, k: string)
    decreases |ops|
  {
    ops != [] &&
    var last := ops[|ops| - 1];
    if last.key == k then !last.Dropped? else Wanted(ops[..|ops| - 1], k)
  }

  /** The keys in front of k. */
  function Before(s: seq<string>, k: string): set<string>
    decreases |s|
  {
    if s == [] || s[0] == k then {} else {s[0]} + Before(s[1..], k)
  }

  lemma {:induction false} BeforeWithout(s: seq<string>, x: string, k: string)
    requires x != k
    ensures Before(Without(s, x), k) == Before(s, k) - {x}
    decreases |s|
  {
    if s != [] {
      BeforeWithout(s[1..], x, k);
      if s[0] != x {
        assert Without(s, x)[1..] == Without(s[1..], x);
      } else {
        assert Without(s, x) == Without(s[1..], x);
      }
    }
  }

  /** In a list without repetition the keys in front of k say where it is. */
  lemma {:induction false} BeforeIsPrefix(s: seq<string>, k: string, i: nat)
    requires i < |s| && s[i] == k && k !in s[..i] && Distinct(s)
    ensures |Before(s, k)| == i
    decreases |s|
  {
    if i > 0 {
      var t := s[1..];
      assert t[..i - 1] == s[..i][1..];
      BeforeIsPrefix(t, k, i - 1);
      BeforeMembers(t, k);
      assert s[0] !in t;
    }
  }

  /** A prefix that holds k holds the keys in front of it. */
  lemma {:induction false} BeforeInPrefix(s: seq<string>, k: string, n: nat)
    requires n <= |s| && k in s[..n]
    ensures Before(s[..n], k) == Before(s, k)
    decreases |s|
  {
    if s[0] != k {
      assert s[..n][1..] == s[1..][..n - 1];
      BeforeInPrefix(s[1..], k, n - 1);
    }
  }

  lemma InPrefixIff(s: seq<string>, k: string, n: nat)
    requires Distinct(s) && k in s && n <= |s|
    ensures k in s[..n] <==> |Before(s, k)| < n
  {
    var i :| 0 <= i < |s| && s[i] == k;
    BeforeIsPrefix(s, k, i);
    if i < n {
      assert s[..n][i] == k;
    }
  }

  lemma {:induction false} BeforeMembers(s: seq<string>, k: string)
    ensures forall x :: x in Before(s, k) ==> x in s
    decreases |s|
  {
    if s != [] {
      BeforeMembers(s[1..], k);
    }
  }

  /** The cap takes k exactly when 256 others are in front of it, and leaves those in front as they are. */
  lemma CappedKeeps(s: seq<string>, k: string)
    requires Distinct(s) && k in s
    ensures k in Capped(s) <==> |Before(s, k)| < MAX_PER_TASK_LABELS
    ensures k in Capped(s) ==> Before(Capped(s), k) == Before(s, k)
  {
    var n := if |s| < MAX_PER_TASK_LABELS then |s| else MAX_PER_TASK_LABELS;
    assert Capped(s) == s[..n];
    InPrefixIff(s, k, n);
    InPrefixIff(s, k, |s|);
    assert s[..|s|] == s;
    if k in s[..n] {
      BeforeInPrefix(s, k, n);
    }
  }

  /** One record for another key: k moves back by the key in front, and the cap may take it. */
  lemma BeforeTouch(s: seq<string>, x: string, k: string)
    requires Distinct(s) && x != k
    ensures var t, front := Capped([x] + Without(s, x)), Before(s, k) - {x} + {x};
            && (k in t <==> k in s && |front| < MAX_PER_TASK_LABELS)
            && (k in t ==> Before(t, k) == front)
  {
    FrontDistinct(s, x);
    BeforeWithout(s, x, k);
    var u := [x] + Without(s, x);
    assert u[1..] == Without(s, x);
    if k in u {
      CappedKeeps(u, k);
    } else {
      assert forall y :: y in Capped(u) ==> y in u;
    }
  }

  /** One step for a key that is not the one of the call. */
  lemma BeforeStep(c: Cache, op: Op, k: string)
    requires Sane(c) && op.key != k
    ensures var front := Before(c.recency, k) - {op.key} + if op.Dropped? then {} else {op.key};
            && (k in Step(c, op).recency <==> k in c.recency && (op.Dropped? || |front| < MAX_PER_TASK_LABELS))
            && (k in Step(c, op).recency ==> Before(Step(c, op).recency, k) == front)
  {
    StepKeepsSane(c, op);
    if op.Dropped? {
      BeforeWithout(c.recency, op.key, k);
      WithoutMembers(c.recency, op.key);
    } else {
      BeforeTouch(c.recency, op.key, k);
    }
  }

  /** A wanted key loses its label only to 256 other keys recorded since; a live key is always a wanted one. */
  lemma {:induction false} LiveUntilOvertaken(ops: seq<Op>, k: string)
    ensures k in Run(ops).recency ==> Wanted(ops, k) && Before(Run(ops).recency, k) <= Since(ops, k)
    ensures Wanted(ops, k) && |Since(ops, k)| < MAX_PER_TASK_LABELS ==> k in Run(ops).recency
    decreases |ops|
  {
    if ops != [] {
      var init, last := ops[..|ops| - 1], ops[|ops| - 1];
      LiveUntilOvertaken(init, k);
      LabelsAreBounded(init);
      if last.key == k {
        StepKeepsSane(Run(init), last);
        WithoutMembers(Run(init).recency, k);
      } else {
        BeforeStep(Run(init), last, k);
        SubsetSize(Since(init, k), Since(ops, k));
        if k in Run(init).recency {
          SubsetSize(Before(Run(init).recency, k) - {last.key} + (if last.Dropped? then {} else {last.key}), Since(ops, k));
        }
      }
    }
  }

  /** When nothing is forgotten, the live keys are exactly the recorded ones with fewer than 256 others recorded since. */
  lemma {:induction false} LiveIffRecent(ops: seq<Op>, k: string)
    requires forall i :: 0 <= i < |ops| ==> !ops[i].Dropped?
    ensures k in Run(ops).recency <==> Wanted(ops, k) && |Since(ops, k)| < MAX_PER_TASK_LABELS
    ensures k in Run(ops).recency ==> Before(Run(ops).recency, k) == Since(ops, k)
    decreases |ops|
  {
    if ops != [] {
      var init, last := ops[..|ops| - 1], ops[|ops| - 1];
      LiveIffRecent(init, k);
      LabelsAreBounded(init);
      if last.key == k {
        LiveUntilOvertaken(ops, k);
      } else {
        BeforeStep(Run(init), last, k);
        SubsetSize(Since(init, k), Since(ops, k));
        if k in Run(init).recency {
          assert Before(Run(init).recency, k) - {last.key} + {last.key} == Since(ops, k);
        }
      }
    }
  }

  // ----- what the gauges show -----

  /** The gauge shows what it showed before, for the live keys. */
  ghost predicate KeepsLive(before: Gauge, after: Gauge, live: seq<string>) {
    forall x :: (x in after <==> x in before && x in live) && (x in after ==> after[x] == before[x])
  }

  lemma TouchGauges(c: Cache, k: string)
    requires Sane(c)
    ensures var t := Touch(c, k); KeepsLive(c.speed, t.speed, t.recency) && KeepsLive(c.progress, t.progress, t.recency)
  {
    FrontDistinct(c.recency, k);
    var d := c.(recency := [k] + c.recency);
    if k !in c.recency && |d.recency| > MAX_PER_TASK_LABELS {
      WithoutAbsent(c.recency, k);
      EvictGauges(d);
    }
  }

  lemma EvictGauges(d: Cache)
    requires Distinct(d.recency) && |d.recency| == MAX_PER_TASK_LABELS + 1
    requires forall x :: x in d.speed || x in d.progress ==> x in d.recency
    ensures KeepsLive(d.speed, Evict(d).speed, Evict(d).recency)
    ensures KeepsLive(d.progress, Evict(d).progress, Evict(d).recency)
  {
    var n := MAX_PER_TASK_LABELS;
    var e := Cache(d.recency[..n], d.speed - {d.recency[n]}, d.progress - {d.recency[n]});
    assert Evict(d) == Evict(e) == e;
    assert d.recency == e.recency + [d.recency[n]];
    assert d.recency[n] !in e.recency;
  }

  datatype Kind = SpeedGauge | ProgressGauge

  function GaugeOf(c: Cache, kind: Kind): Gauge {
    match kind
    case SpeedGauge => c.speed
    case ProgressGauge => c.progress
  }

  /** The call records this value for the key in this gauge. */
  predicate Records(op: Op, kind: Kind, k: string, v: int) {
    match kind
    case SpeedGauge => op == Speed(k, v)
    case ProgressGauge => op == Progress(k, v)
  }

  predicate RecordsSome(op: Op, kind: Kind, k: string) {
    op.key == k && match kind case SpeedGauge => op.Speed? case ProgressGauge => op.Progress?
  }

  /** One call: the gauge shows the recorded value for the key of the call, and for the other live keys what it showed. */
  lemma StepGauge(c: Cache, op: Op, kind: Kind, k: string, v: int)
    requires Sane(c)
    ensures var t := Step(c, op);
            GaugeShows(t, kind, k, v) <==>
              k in t.recency && if RecordsSome(op, kind, k) then Records(op, kind, k, v) else GaugeShows(c, kind, k, v)
  {
    if op.Dropped? {
      WithoutMembers(c.recency, op.key);
    } else {
      TouchGauges(c, op.key);
      TouchRecency(c, op.key);
    }
  }

  predicate GaugeShows(c: Cache, kind: Kind, k: string, v: int) {
    k in GaugeOf(c, kind) && GaugeOf(c, kind)[k] == v
  }

  /** Call i recorded this value, no later call recorded another one, and the key has been live since. */
  ghost predicate LastRecorded(ops: seq<Op>, kind: Kind, k: string, v: int, i: nat) {
    && i < |ops| && Records(ops[i], kind, k, v)
    && NoneAfter(ops, kind, k, i) && LiveSince(ops, k, i)
  }

  predicate NoneAfter(ops: seq<Op>, kind: Kind, k: string, i: nat) {
    forall j :: i < j < |ops| ==> !RecordsSome(ops[j], kind, k)
  }

  lemma NoneAfterStep(ops: seq<Op>, kind: Kind, k: string, i: nat)
    requires ops != [] && i < |ops| - 1
    ensures NoneAfter(ops, kind, k, i) <==>
              NoneAfter(ops[..|ops| - 1], kind, k, i) && !RecordsSome(ops[|ops| - 1], kind, k)
  {
    var n := |ops| - 1;
    if NoneAfter(ops, kind, k, i) {
      forall j | i < j < n
        ensures !RecordsSome(ops[..n][j], kind, k)
      {
        assert ops[..n][j] == ops[j];
      }
    }
    if NoneAfter(ops[..n], kind, k, i) && !RecordsSome(ops[n], kind, k) {
      forall j | i < j < |ops|
        ensures !RecordsSome(ops[j], kind, k)
      {
        assert j == n || ops[..n][j] == ops[j];
      }
    }
  }

  ghost predicate LiveSince(ops: seq<Op>, k: string, i: nat) {
    forall j :: i < j <= |ops| ==> k in Run(ops[..j]).recency
  }

  lemma LiveSinceStep(ops: seq<Op>, k: string, i: nat)
    requires ops != [] && i < |ops| - 1
    ensures LiveSince(ops, k, i) <==> LiveSince(ops[..|ops| - 1], k, i) && k in Run(ops).recency
  {
    var n := |ops| - 1;
    var init := ops[..n];
    assert ops[..|ops|] == ops;
    forall j: nat | j <= n
      ensures init[..j] == ops[..j]
    {
    }
    if LiveSince(init, k, i) && k in Run(ops).recency {
      forall j | i < j <= |ops|
        ensures k in Run(ops[..j]).recency
      {
        assert j == |ops| || k in Run(init[..j]).recency;
      }
    }
    if LiveSince(ops, k, i) {
      forall j | i < j <= n
        ensures k in Run(init[..j]).recency
      {
        assert k in Run(ops[..j]).recency;
      }
      assert k in Run(ops[..|ops|]).recency;
    }
  }

  lemma LastRecordedStep(ops: seq<Op>, kind: Kind, k: string, v: int, i: nat)
    requires ops != [] && i < |ops| - 1
    ensures LastRecorded(ops, kind, k, v, i) <==>
              && LastRecorded(ops[..|ops| - 1], kind, k, v, i)
              && !RecordsSome(ops[|ops| - 1], kind, k) && k in Run(ops).recency
  {
    LiveSinceStep(ops, k, i);
    NoneAfterStep(ops, kind, k, i);
  }

  /** After any calls a gauge shows a value for a key if and only if that was the last value recorded for it there, and the
      key has neither been forgotten nor evicted since. */
  lemma {:induction false} GaugeShowsLast(ops: seq<Op>, kind: Kind, k: string, v: int)
    ensures GaugeShows(Run(ops), kind, k, v) <==> exists i: nat :: LastRecorded(ops, kind, k, v, i)
    decreases |ops|
  {
    if ops != [] {
      var n := |ops| - 1;
      var init, last := ops[..n], ops[n];
      GaugeShowsLast(init, kind, k, v);
      LabelsAreBounded(init);
      StepGauge(Run(init), last, kind, k, v);
      assert ops[..|ops|] == ops;
      if RecordsSome(last, kind, k) && GaugeShows(Run(ops), kind, k, v) {
        assert LastRecorded(ops, kind, k, v, n);
      }
      forall i: nat | i < n
        ensures LastRecorded(ops, kind, k, v, i) <==>
                  LastRecorded(init, kind, k, v, i) && !RecordsSome(last, kind, k) && k in Run(ops).recency
      {
        LastRecordedStep(ops, kind, k, v, i);
      }
    }
  }

  // ----- two callers at once -----

  /** A caller that touched its key sets the gauge after another caller forgot the key: the label belongs to no live key. */
  lemma LateSetOrphans(k: string, v: int)
    ensures var c := SetSpeed(Forget(Touch(Cache([], map[], map[]), k), k), k, v);
            k in c.speed && k !in c.recency
  {
    var touched := Touch(Cache([], map[], map[]), k);
    assert touched.recency == [k];
    WithoutMembers([k], k);
  }

  /** No later call about other keys takes such a label away: the cap does not see it. */
  lemma OrphanStays(c: Cache, op: Op, k: string)
    requires k in c.speed && k !in c.recency && op.key != k
    ensures k in Step(c, op).speed && k !in Step(c, op).recency
  {
    WithoutMembers(c.recency, op.key);
    if !op.Dropped? {
      EvictSparesAbsent(c.(recency := [op.key] + c.recency), k);
    }
  }

  lemma {:induction false} EvictSparesAbsent(c: Cache, k: string)
    requires k in c.speed && k !in c.recency
    ensures k in Evict(c).speed && k !in Evict(c).recency
    decreases |c.recency|
  {
    if |c.recency| > MAX_PER_TASK_LABELS {
      var n := |c.recency| - 1;
      EvictSparesAbsent(Cache(c.recency[..n], c.speed - {c.recency[n]}, c.progress - {c.recency[n]}), k);
    }
  }
}
