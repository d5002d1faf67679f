/** The counter of downloaded bytes, which a restart takes as the sign of a complete file: when is it right? */
module ProtocolCounter {
  import opened Bits
  import opened Blocks
  import opened Collections
  import opened Pieces
  import opened Selection
  import opened Protocol
  import opened ProtocolSafety
  import opened ProtocolMoves
  import opened ProtocolProgress
  import opened ProtocolThief
  import opened ProtocolEof

  /** The counter, the offsets fetched so far, and the counter's value in the save under way and in the control file. */
  datatype Tally = Tally(total: nat, fetched: set<int>, pending: nat, saved: nat)

  /** The step writes n bytes at offset cur. */
  datatype Write = Write(cur: nat, n: nat)

  function WriteOf(s: State, st: Step): Write {
    if st.Act? && st.w < |s.workers| && (s.workers[st.w].Reading? || s.workers[st.w].RangeReading?)
       && (st.move.Receive? || st.move.BreakOff?)
    then Write(s.workers[st.w].cur, st.move.n)
    else Write(0, 0)
  }

  function Offsets(x: Write): (r: set<int>)
    ensures forall k :: k in r <==> x.cur <= k < x.cur + x.n
    decreases x.n
  {
    if x.n == 0 then {} else Offsets(Write(x.cur, x.n - 1)) + {x.cur + x.n - 1}
  }

  /** All bytes written are counted; a save takes the counter before the first bitmap. */
  function Tick(s: State, st: Step, k: Tally): Tally {
    match st
    case Act(_, _) => k.(total := k.total + WriteOf(s, st).n, fetched := k.fetched + Offsets(WriteOf(s, st)))
    case SnapPiece => if s.snap == [] then k.(pending := k.total) else k
    case SnapCommit => k.(saved := k.pending)
    case SnapDrop => k
    case Restart(_) => k
  }

  ghost function TallyAfter(c: Config, s: State, steps: seq<Step>, t: State, k: Tally): Tally
    requires ConfigOk(c) && Run(c, s, steps, t)
    decreases |steps|
  {
    if steps == [] then k else TallyAfter(c, Apply(c, s, steps[0]), steps[1..], t, Tick(s, steps[0], k))
  }

  /** There is no restart in the run, and no byte is fetched that was fetched before. */
  ghost predicate NeverTwice(c: Config, s: State, steps: seq<Step>, t: State, fetched: set<int>)
    requires ConfigOk(c) && Run(c, s, steps, t)
    decreases |steps|
  {
    steps == []
    || (!steps[0].Restart? && Offsets(WriteOf(s, steps[0])) !! fetched
        && NeverTwice(c, Apply(c, s, steps[0]), steps[1..], t, fetched + Offsets(WriteOf(s, steps[0]))))
  }

  // ----- right when nothing is fetched twice -----

  ghost predicate Counts(c: Config, file: seq<byte>, k: Tally)
    requires |file| == |c.source|
  {
    && (forall i :: i in k.fetched ==> 0 <= i < |file| && file[i] == c.source[i])
    && k.total == |k.fetched| && k.saved <= k.pending <= k.total
  }

  lemma {:induction false} OffsetsSize(x: Write)
    ensures |Offsets(x)| == x.n
    decreases x.n
  {
    if x.n > 0 {
      var y := Write(x.cur, x.n - 1);
      OffsetsSize(y);
      assert x.cur + x.n - 1 !in Offsets(y);
    }
  }

  /** What a step does to the file: the bytes it writes are the server's. */
  lemma WritesSource(c: Config, s: State, st: Step)
    requires Steps(c, s, st) && !st.Restart?
    ensures var x, t := WriteOf(s, st), Apply(c, s, st);
            && x.cur + x.n <= |s.file| == |c.source|
            && t.file == if st.Act? && x.n > 0 then FileWith(s.file, c.source, x.cur, x.n) else s.file
  {
    if st.Act? {
      ActWrites(c, s, st.w, st.move);
    }
  }

  lemma ActWrites(c: Config, s: State, w: nat, m: Move)
    requires Moves(c, s, w, m)
    ensures var x := WriteOf(s, Act(w, m));
            && x.cur + x.n <= |s.file| == |c.source|
            && EffectOf(c, s, w, m).file == if x.n > 0 then FileWith(s.file, c.source, x.cur, x.n) else s.file
  {
    if s.workers[w].Reading? || s.workers[w].RangeReading? {
      ReadingWrites(c, s, w, m);
    } else if Stealing(s.workers[w]) {
      RangeWritesNothing(c, s, w, m);
    } else {
      PieceWritesNothing(c, s, w, m);
    }
  }

  lemma ReadingWrites(c: Config, s: State, w: nat, m: Move)
    requires Moves(c, s, w, m) && (s.workers[w].Reading? || s.workers[w].RangeReading?)
    ensures var x := WriteOf(s, Act(w, m));
            && x.cur + x.n <= |s.file| == |c.source|
            && EffectOf(c, s, w, m).file == if x.n > 0 then FileWith(s.file, c.source, x.cur, x.n) else s.file
  {
    var y := s.workers[w];
    if m.BreakOff? && m.n == 0 {
      assert FileWith(s.file, c.source, y.cur, 0) == s.file;
    }
  }

  lemma PieceWritesNothing(c: Config, s: State, w: nat, m: Move)
    requires Moves(c, s, w, m) && !Stealing(s.workers[w]) && !s.workers[w].Reading?
    ensures PieceEffect(c, s, w, m).file == s.file
  {
  }

  lemma RangeWritesNothing(c: Config, s: State, w: nat, m: Move)
    requires Moves(c, s, w, m) && Stealing(s.workers[w]) && !s.workers[w].RangeReading?
    ensures RangeEffect(c, s, w, m).file == s.file
  {
  }

  lemma StepCounts(c: Config, s: State, st: Step, k: Tally)
    requires Steps(c, s, st) && !st.Restart? && Counts(c, s.file, k) && Offsets(WriteOf(s, st)) !! k.fetched
    ensures |Apply(c, s, st).file| == |c.source| && Counts(c, Apply(c, s, st).file, Tick(s, st, k))
    ensures Tick(s, st, k).fetched == k.fetched + Offsets(WriteOf(s, st))
  {
    WritesSource(c, s, st);
    if st.Act? {
      CountsMore(c, s.file, Apply(c, s, st).file, WriteOf(s, st), k);
    } else {
      SaveCounts(c, s, st, k);
    }
  }

  /** The steps of a save write nothing. */
  lemma SaveCounts(c: Config, s: State, st: Step, k: Tally)
    requires !st.Act? && !st.Restart? && |s.file| == |c.source| && Counts(c, s.file, k)
    ensures Counts(c, s.file, Tick(s, st, k)) && Tick(s, st, k).fetched == k.fetched + Offsets(WriteOf(s, st))
  {
  }

  lemma CountsMore(c: Config, file: seq<byte>, file': seq<byte>, x: Write, k: Tally)
    requires |file| == |c.source| && Counts(c, file, k) && Offsets(x) !! k.fetched && x.cur + x.n <= |file|
    requires file' == if x.n > 0 then FileWith(file, c.source, x.cur, x.n) else file
    ensures |file'| == |c.source| && Counts(c, file', k.(total := k.total + x.n, fetched := k.fetched + Offsets(x)))
  {
    OffsetsSize(x);
    FetchedMore(c, file, file', x, k.fetched);
  }

  lemma FetchedMore(c: Config, file: seq<byte>, file': seq<byte>, x: Write, fetched: set<int>)
    requires |file| == |c.source| && x.cur + x.n <= |file|
    requires file' == if x.n > 0 then FileWith(file, c.source, x.cur, x.n) else file
    requires forall i :: i in fetched ==> 0 <= i < |file| && file[i] == c.source[i]
    ensures |file'| == |file|
    ensures forall i :: i in fetched + Offsets(x) ==> 0 <= i < |file| && file'[i] == c.source[i]
  {
    forall i | i in fetched + Offsets(x)
      ensures 0 <= i < |file| && file'[i] == c.source[i]
    {
      assert i in fetched || x.cur <= i < x.cur + x.n;
      WrittenAt(c, file, file', x, i);
    }
  }

  lemma WrittenAt(c: Config, file: seq<byte>, file': seq<byte>, x: Write, i: int)
    requires |file| == |c.source| && x.cur + x.n <= |file| && 0 <= i < |file|
    requires file' == if x.n > 0 then FileWith(file, c.source, x.cur, x.n) else file
    requires x.cur <= i < x.cur + x.n || file[i] == c.source[i]
    ensures |file'| == |file| && file'[i] == c.source[i]
  {
  }

  lemma {:induction false} RunCounts(c: Config, s: State, steps: seq<Step>, t: State, k: Tally)
    requires ConfigOk(c) && Run(c, s, steps, t) && |s.file| == |c.source| && Counts(c, s.file, k)
    requires NeverTwice(c, s, steps, t, k.fetched)
    ensures |t.file| == |c.source| && Counts(c, t.file, TallyAfter(c, s, steps, t, k))
    decreases |steps|
  {
    if steps != [] {
      RunUncons(c, s, steps, t);
      StepCounts(c, s, steps[0], k);
      RunCounts(c, Apply(c, s, steps[0]), steps[1..], t, Tick(s, steps[0], k));
    }
  }

  const Nothing := Tally(0, {}, 0, 0)

  /** In every run from a fresh start in which no byte is fetched twice: once the counter in the control file has reached
      the size of the file, the file is the server's. */
  lemma CounterIsRight(c: Config, s0: State, steps: seq<Step>, t: State)
    requires ConfigOk(c) && Init(c, s0) && Run(c, s0, steps, t) && NeverTwice(c, s0, steps, t, {})
    requires TallyAfter(c, s0, steps, t, Nothing).saved >= |c.source|
    ensures t.file == c.source
  {
    InitShape(c, s0);
    RunCounts(c, s0, steps, t, Nothing);
    var k := TallyAfter(c, s0, steps, t, Nothing);
    AllFetched(k.fetched, |c.source|);
  }

  lemma AllFetched(fetched: set<int>, size: nat)
    requires (forall i :: i in fetched ==> 0 <= i < size) && |fetched| >= size
    ensures forall i :: 0 <= i < size ==> i in fetched
  {
    var all := Offsets(Write(0, size));
    OffsetsSize(Write(0, size));
    if exists i :: 0 <= i < size && i !in fetched {
      var i :| 0 <= i < size && i !in fetched;
      SubsetSize(fetched, all - {i});
      assert false;
    }
  }

  // ----- wrong when bytes are fetched again -----

  /** The process is not started again during the run. */
  predicate NoRestart(steps: seq<Step>) {
    forall i :: 0 <= i < |steps| ==> !steps[i].Restart?
  }

  lemma TallyCons(c: Config, s: State, st: Step, rest: seq<Step>, t: State, k: Tally)
    requires Steps(c, s, st) && Run(c, Apply(c, s, st), rest, t)
    ensures Run(c, s, [st] + rest, t)
    ensures !st.Restart? && NoRestart(rest) ==> NoRestart([st] + rest)
    ensures TallyAfter(c, s, [st] + rest, t, k) == TallyAfter(c, Apply(c, s, st), rest, t, Tick(s, st, k))
  {
    RunCons(c, s, st, rest, t);
    assert ([st] + rest)[1..] == rest;
  }

  /** The save copies the remaining bitmaps and is written. */
  lemma {:induction false} Saves(c: Config, s: State, k: Tally, goal: nat) returns (steps: seq<Step>, t: State)
    requires ConfigOk(c) && Shape(c, s) && (if s.snap == [] then k.total else k.pending) >= goal
    ensures Run(c, s, steps, t) && NoRestart(steps) && t.file == s.file && t.pieces == s.pieces && Shape(c, t)
    ensures TallyAfter(c, s, steps, t, k).saved >= goal
    decreases |s.pieces| - |s.snap|
  {
    if |s.snap| == |s.pieces| {
      ApplyShape(c, s, SnapCommit);
      t := Apply(c, s, SnapCommit);
      TallyCons(c, s, SnapCommit, [], t, k);
      steps := [SnapCommit] + [];
    } else {
      ApplyShape(c, s, SnapPiece);
      var rest;
      rest, t := Saves(c, Apply(c, s, SnapPiece), Tick(s, SnapPiece, k), goal);
      TallyCons(c, s, SnapPiece, rest, t, k);
      steps := [SnapPiece] + rest;
    }
  }

  /** Not one block is done. */
  ghost predicate NothingDone(s: State) {
    forall i :: 0 <= i < |s.pieces| ==> s.pieces[i].done == {}
  }

  /** The owner of piece p is at the top of its loop, nothing of the piece is claimed, and no save is under way. */
  ghost predicate AtTop(c: Config, s: State, p: nat, end: int) {
    && NothingDone(s)
    && At(c, s, 0, Holding(p, end)) && end >= c.layout[p].start + c.layout[p].length - 1 && s.snap == []
    && s.pieces[p] == Activated(c.layout[p], 1)
  }

  /** The three steps of a retry. */
  ghost predicate Retried(c: Config, s: State, m1: State, m2: State, t: State) {
    && Leads(c, s, Act(0, Request), m1) && Leads(c, m1, Act(0, Accept), m2) && Leads(c, m2, Act(0, BreakOff(1)), t)
  }

  /** The first block is asked for, one byte of it arrives and counts, and the connection is given up as too slow. */
  lemma RetryOnce(c: Config, s: State, p: nat, end: int) returns (m1: State, m2: State, t: State)
    requires AtTop(c, s, p, end)
    ensures Retried(c, s, m1, m2, t)
    ensures forall k :: RetryTally(s, m1, m2, k).total == k.total + 1
    ensures AtTop(c, t, p, end) && Outside(s.file, t.file, c.layout[p].start, c.layout[p].start + 1)
  {
    GeometryFacts(c, p);
    FirstBlock(c.layout[p]);
    FirstBlock(Activated(c.layout[p], 1));
    m1, m2 := Asks(c, s, p, end);
    t := BreaksOff(c, m2, p, end, m2.workers[0].limit);
    RetryCounts(s, m1, m2);
  }

  lemma RetryCounts(s: State, m1: State, m2: State)
    requires s.workers != [] && s.workers[0].Holding?
    requires m1.workers != [] && m1.workers[0].Fetching? && m2.workers != [] && m2.workers[0].Reading?
    ensures forall k :: RetryTally(s, m1, m2, k).total == k.total + 1
  {
  }

  lemma FirstBlock(v: PieceView)
    requires v.blockLength > 0 && v.length > 0 && v.done == {} && v.inUse == {}
    ensures v.NextBlock() == 0 && v.BlockStart(0) == v.start < v.BlockEnd(0) <= v.start + v.length
    ensures v.(inUse := {0}).Cancel(0) == v
  {
    assert 0 in AllBlocks(v.N());
    BlockBounds(v, 0);
  }

  lemma Asks(c: Config, s: State, p: nat, end: int) returns (m: State, t: State)
    requires AtTop(c, s, p, end) && s.pieces[p].blockLength > 0 && s.pieces[p].NextBlock() == 0 && s.pieces[p].inUse == {}
    ensures Leads(c, s, Act(0, Request), m) && Leads(c, m, Act(0, Accept), t) && m.workers[0].Fetching?
    ensures c.layout[p].blockLength > 0 && t.workers[0].Reading?
    ensures At(c, t, 0, ReadingAt(c, p, end, 0, t.workers[0].limit)) && t.workers[0].limit >= c.layout[p].start + c.layout[p].length
    ensures t.pieces == s.pieces[p := s.pieces[p].(inUse := {0})] && t.file == s.file && t.snap == []
  {
    var limit;
    m, limit := Requested(c, s, p, end);
    PieceMoves(c, m, 0, Accept);
    ApplyShape(c, m, Act(0, Accept));
    t := Apply(c, m, Act(0, Accept));
    assert m.pieces[0 := m.pieces[0]] == m.pieces;
  }

  lemma Requested(c: Config, s: State, p: nat, end: int) returns (t: State, limit: nat)
    requires AtTop(c, s, p, end) && s.pieces[p].blockLength > 0 && s.pieces[p].NextBlock() == 0 && s.pieces[p].inUse == {}
    ensures Leads(c, s, Act(0, Request), t)
    ensures At(c, t, 0, Fetching(p, end, 0, limit)) && limit >= c.layout[p].start + c.layout[p].length
    ensures t.pieces == s.pieces[p := s.pieces[p].(inUse := {0})] && t.file == s.file && t.snap == []
  {
    GeometryFacts(c, p);
    var v := s.pieces[p];
    BlockBounds(v, 0);
    limit := RequestLimit(v.BlockEnd(0), end, |s.file|);
    assert {} + {0} == {0};
    ApplyShape(c, s, Act(0, Request));
    t := Apply(c, s, Act(0, Request));
  }

  lemma BreaksOff(c: Config, s: State, p: nat, end: int, limit: nat) returns (t: State)
    requires p < |c.layout| && c.layout[p].blockLength > 0 && At(c, s, 0, ReadingAt(c, p, end, 0, limit)) && s.snap == []
    requires limit >= c.layout[p].start + c.layout[p].length && c.layout[p].length > 0
    requires end >= c.layout[p].start + c.layout[p].length - 1
    requires s.pieces[p] == Activated(c.layout[p], 1).(inUse := {0}) && Activated(c.layout[p], 1).inUse == {} && NothingDone(s)
    ensures Leads(c, s, Act(0, BreakOff(1)), t)
    ensures AtTop(c, t, p, end) && Outside(s.file, t.file, c.layout[p].start, c.layout[p].start + 1)
  {
    BrokenOff(c, s);
    ApplyShape(c, s, Act(0, BreakOff(1)));
    t := Apply(c, s, Act(0, BreakOff(1)));
    assert {0} - {0} == {};
    OneByteWritten(c, s.file, c.layout[p].BlockStart(0));
  }

  lemma OneByteWritten(c: Config, file: seq<byte>, cur: nat)
    requires |file| == |c.source| && cur + 1 <= |file|
    ensures Outside(file, FileWith(file, c.source, cur, 1), cur, cur + 1)
  {
  }

  lemma BrokenOff(c: Config, s: State)
    requires Moves(c, s, 0, BreakOff(1)) && s.workers[0].Reading?
    ensures var x := s.workers[0];
            EffectOf(c, s, 0, BreakOff(1))
            == Effect(FileWith(s.file, c.source, x.cur, 1), x.p, s.pieces[x.p].Cancel(x.blk), Holding(x.p, x.end))
  {
  }

  /** n retries, each of them counted, and then a save. */
  lemma {:induction false} RetriesAndSaves(c: Config, s: State, p: nat, end: int, n: nat, k: Tally)
      returns (steps: seq<Step>, t: State)
    requires AtTop(c, s, p, end)
    ensures Run(c, s, steps, t) && NoRestart(steps) && TallyAfter(c, s, steps, t, k).saved >= k.total + n
    ensures Shape(c, t) && NothingDone(t) && Outside(s.file, t.file, c.layout[p].start, c.layout[p].start + 1)
    decreases n
  {
    if n == 0 {
      steps, t := Saves(c, s, k, k.total);
    } else {
      var m1, m2, m3 := RetryOnce(c, s, p, end);
      var k' := RetryTally(s, m1, m2, k);
      var rest;
      rest, t := RetriesAndSaves(c, m3, p, end, n - 1, k');
      steps := RetryThen(c, s, m1, m2, m3, rest, t, k);
    }
  }

  function RetryTally(s: State, m1: State, m2: State, k: Tally): Tally {
    Tick(m2, Act(0, BreakOff(1)), Tick(m1, Act(0, Accept), Tick(s, Act(0, Request), k)))
  }

  lemma RetryThen(c: Config, s: State, m1: State, m2: State, m3: State, rest: seq<Step>, t: State, k: Tally)
      returns (steps: seq<Step>)
    requires Retried(c, s, m1, m2, m3) && Run(c, m3, rest, t)
    ensures Run(c, s, steps, t) && (NoRestart(rest) ==> NoRestart(steps))
    ensures TallyAfter(c, s, steps, t, k) == TallyAfter(c, m3, rest, t, RetryTally(s, m1, m2, k))
  {
    var k1 := Tick(s, Act(0, Request), k);
    var k2 := Tick(m1, Act(0, Accept), k1);
    var after2 := [Act(0, BreakOff(1))] + rest;
    var after1 := [Act(0, Accept)] + after2;
    TallyCons(c, m2, Act(0, BreakOff(1)), rest, t, k2);
    TallyCons(c, m1, Act(0, Accept), after2, t, k1);
    TallyCons(c, s, Act(0, Request), after1, t, k);
    steps := [Act(0, Request)] + after1;
  }

  /** Worker 0 takes a piece that the selector offers at the start, and gets to the top of its block loop. */
  lemma FirstPick(c: Config, s: State) returns (p: nat, m: State, t: State, end: int)
    requires ConfigOk(c) && Init(c, s)
    ensures Leads(c, s, Act(0, Pick(p)), m) && Leads(c, m, Act(0, Begin), t) && AtTop(c, t, p, end) && t.file == s.file
  {
    InitReady(c, s);
    SomethingOffered(c, s.pieces);
    p := SomePick(c.selector, s.pieces);
    m := Taken(c, s, p);
    t, end := Begun(c, m, p);
  }

  lemma SomethingOffered(c: Config, pieces: seq<PieceView>)
    requires ConfigOk(c) && |pieces| == |c.layout| && forall i :: 0 <= i < |pieces| ==> pieces[i].status == Idle
    ensures !MayPick(c.selector, pieces, -1)
  {
    NothingPickedIff(c.selector, pieces);
    assert IsIdle(pieces, 0);
    if |pieces| > 1 {
      assert IsIdle(pieces, 1);
    }
  }

  lemma Taken(c: Config, s: State, p: nat) returns (t: State)
    requires ConfigOk(c) && Init(c, s) && Shape(c, s) && p < |s.pieces| && MayPick(c.selector, s.pieces, p)
    requires forall i :: 0 <= i < |s.pieces| ==> Ready(s.pieces[i])
    ensures Leads(c, s, Act(0, Pick(p)), t) && At(c, t, 0, Claimed(p))
    ensures t.pieces[p] == Activated(c.layout[p], 1) && NothingDone(t) && t.file == s.file && t.snap == []
  {
    PieceMoves(c, s, 0, Pick(p));
    ApplyShape(c, s, Act(0, Pick(p)));
    t := Apply(c, s, Act(0, Pick(p)));
  }

  lemma Begun(c: Config, s: State, p: nat) returns (t: State, end: int)
    requires At(c, s, 0, Claimed(p)) && s.pieces[p] == Activated(c.layout[p], 1) && NothingDone(s) && s.snap == []
    ensures Leads(c, s, Act(0, Begin), t) && AtTop(c, t, p, end) && t.file == s.file
  {
    GeometryFacts(c, 0);
    GeometryFacts(c, p);
    PieceMoves(c, s, 0, Begin);
    ApplyShape(c, s, Act(0, Begin));
    t := Apply(c, s, Act(0, Begin));
    end := EndOffset(s.pieces, p, |s.file|);
    assert s.pieces[0 := s.pieces[0]] == s.pieces;
  }

  /** For every configuration of a file of two bytes or more: in some run without a restart one byte is fetched again and
      again, as often as the file has bytes, until the saved counter reaches the size of the file, while not one block
      is done and the file is wrong. */
  lemma CounterCanLie(c: Config) returns (s0: State, steps: seq<Step>, t: State)
    requires ConfigOk(c) && |c.source| >= 2
    ensures Init(c, s0) && Run(c, s0, steps, t) && NoRestart(steps)
    ensures TallyAfter(c, s0, steps, t, Nothing).saved >= |c.source|
    ensures Shape(c, t) && NothingDone(t) && t.file != c.source
  {
    s0 := WrongStart(c);
    WrongStartIsInit(c);
    InitShape(c, s0);
    var p, m1, m2, end := FirstPick(c, s0);
    var k1 := Tick(s0, Act(0, Pick(p)), Nothing);
    var k2 := Tick(m1, Act(0, Begin), k1);
    var rest;
    rest, t := RetriesAndSaves(c, m2, p, end, |c.source|, k2);
    TallyCons(c, m1, Act(0, Begin), rest, t, k1);
    TallyCons(c, s0, Act(0, Pick(p)), [Act(0, Begin)] + rest, t, Nothing);
    steps := [Act(0, Pick(p))] + ([Act(0, Begin)] + rest);
    OtherByte(c, s0.file, t.file, c.layout[p].start);
  }

  lemma OtherByte(c: Config, file: seq<byte>, file': seq<byte>, at: nat)
    requires |c.source| == |file| >= 2 && forall k :: 0 <= k < |c.source| ==> file[k] != c.source[k]
    requires Outside(file, file', at, at + 1)
    ensures file' != c.source
  {
    var k := if at == 0 then 1 else 0;
    assert file'[k] == file[k];
  }

  // ----- exactly when the counter can be believed -----

  /** In every run without a restart, a saved counter that has reached the size of the file means the right file. */
  ghost predicate CounterMeansEqual(c: Config)
    requires ConfigOk(c)
  {
    forall s0, steps, t ::
      Init(c, s0) && Run(c, s0, steps, t) && NoRestart(steps) && TallyAfter(c, s0, steps, t, Nothing).saved >= |c.source| ==>
        t.file == c.source
  }

  /** The counter can be believed for files of one byte, and for no others. */
  lemma CounterMeansEqualIff(c: Config)
    requires ConfigOk(c)
    ensures CounterMeansEqual(c) <==> |c.source| == 1
  {
    GeometryFacts(c, 0);
    if |c.source| == 1 {
      forall s0, steps, t | Init(c, s0) && Run(c, s0, steps, t) && NoRestart(steps)
                            && TallyAfter(c, s0, steps, t, Nothing).saved >= |c.source|
        ensures t.file == c.source
      {
        InitShape(c, s0);
        OneByteRun(c, s0, steps, t, Nothing);
      }
    } else {
      var s0, steps, t := CounterCanLie(c);
    }
  }

  /** Something has been counted only if the one byte has been written. */
  predicate OneByteCounts(c: Config, file: seq<byte>, k: Tally) {
    k.saved <= k.total && k.pending <= k.total && (k.total > 0 ==> file == c.source)
  }

  lemma OneByteStep(c: Config, s: State, st: Step, k: Tally)
    requires Steps(c, s, st) && !st.Restart? && |s.file| == |c.source| == 1 && OneByteCounts(c, s.file, k)
    ensures |Apply(c, s, st).file| == 1 && OneByteCounts(c, Apply(c, s, st).file, Tick(s, st, k))
  {
    WritesSource(c, s, st);
    if st.Act? {
      OneByteWrite(c, s.file, Apply(c, s, st).file, WriteOf(s, st), Tick(s, st, k).fetched, k);
    }
  }

  lemma OneByteWrite(c: Config, file: seq<byte>, file': seq<byte>, x: Write, fetched: set<int>, k: Tally)
    requires |file| == |c.source| == 1 && x.cur + x.n <= 1 && OneByteCounts(c, file, k)
    requires file' == if x.n > 0 then FileWith(file, c.source, x.cur, x.n) else file
    ensures OneByteCounts(c, file', k.(total := k.total + x.n, fetched := fetched))
  {
  }

  lemma {:induction false} OneByteRun(c: Config, s: State, steps: seq<Step>, t: State, k: Tally)
    requires ConfigOk(c) && Run(c, s, steps, t) && NoRestart(steps) && |s.file| == |c.source| == 1
    requires OneByteCounts(c, s.file, k)
    ensures OneByteCounts(c, t.file, TallyAfter(c, s, steps, t, k))
    decreases |steps|
  {
    if steps != [] {
      TallyUncons(c, s, steps, t, k);
      OneByteStep(c, s, steps[0], k);
      OneByteRun(c, Apply(c, s, steps[0]), steps[1..], t, Tick(s, steps[0], k));
    }
  }

  lemma TallyUncons(c: Config, s: State, steps: seq<Step>, t: State, k: Tally)
    requires ConfigOk(c) && Run(c, s, steps, t) && steps != []
    ensures Steps(c, s, steps[0]) && Run(c, Apply(c, s, steps[0]), steps[1..], t)
    ensures TallyAfter(c, s, steps, t, k) == TallyAfter(c, Apply(c, s, steps[0]), steps[1..], t, Tick(s, steps[0], k))
  {
  }
}
