/** Thefts: the runs that lead to one, and what is known of every range being stolen. */
module ProtocolThief {
  import opened Bits
  import opened Blocks
  import opened Pieces
  import opened Selection
  import opened Protocol
  import opened ProtocolSafety
  import opened ProtocolFinish
  import opened ProtocolMoves
  import opened ProtocolProgress

  // ----- an owner that has fetched some blocks, and a thief -----

  /** The selector hands out piece p. */
  predicate Handed(c: Config, p: int) {
    Covers(c) || p != 0
  }

  /** No piece but p is being downloaded, and the idle ones are untouched. */
  ghost predicate OnlyActive(s: State, p: int) {
    IdleReady(s) && forall i :: 0 <= i < |s.pieces| && i != p ==> s.pieces[i].status != Active
  }

  /** Worker 0 fetches all other pieces it is offered first, then these blocks of piece p, and is left waiting. */
  lemma OwnerStops(c: Config, s0: State, p: nat, got: set<nat>) returns (s: State, end: int)
    requires ConfigOk(c) && Init(c, s0) && p < |c.layout| && Handed(c, p)
    requires c.layout[p].blockLength > 0 && !(AllBlocks(c.layout[p].N()) <= got)
    ensures Reaches(c, s0, s) && Shape(c, s) && OnlyActive(s, p)
    ensures s.workers == s0.workers[0 := Holding(p, end)] && end >= c.layout[p].start + c.layout[p].length - 1
    ensures s.pieces[p] == StoppedView(Activated(c.layout[p], 1), got, c.layout[p].N())
    ensures forall k :: 0 <= k < |s0.file| && InPieceBytes(c, p, k) && c.layout[p].IndexOf(k) !in got ==> s.file[k] == s0.file[k]
  {
    InitReady(c, s0);
    var m := FetchesAllBut(c, s0, 0, p);
    OfferedAtLast(c, m, p);
    StillOnly(c, s0, m, p);
    s, end := OwnerFetches(c, m, p, got);
    ReachesJoin(c, s0, m, s);
  }

  lemma OwnerFetches(c: Config, s: State, p: nat, got: set<nat>) returns (t: State, end: int)
    requires At(c, s, 0, Looking) && p < |s.pieces| && OnlyActive(s, p) && s.pieces[p] == c.layout[p]
    requires Ready(s.pieces[p]) && MayPick(c.selector, s.pieces, p)
    requires c.layout[p].blockLength > 0 && !(AllBlocks(c.layout[p].N()) <= got)
    ensures Reaches(c, s, t) && Shape(c, t) && OnlyActive(t, p)
    ensures t.workers == s.workers[0 := Holding(p, end)] && end >= c.layout[p].start + c.layout[p].length - 1
    ensures t.pieces[p] == StoppedView(Activated(c.layout[p], 1), got, c.layout[p].N())
    ensures forall k :: 0 <= k < |s.file| && InPieceBytes(c, p, k) && c.layout[p].IndexOf(k) !in got ==> t.file[k] == s.file[k]
  {
    t, end := FetchesBlocks(c, s, 0, p, got);
    OnlyThen(c, s, t, 0, p, got, Holding(p, end), t.pieces[p]);
  }

  /** Worker 0 is handed piece p and has not asked for a block yet. */
  lemma OwnerBegins(c: Config, s0: State, p: nat) returns (t: State, end: int)
    requires ConfigOk(c) && Init(c, s0) && p < |c.layout| && Handed(c, p)
    ensures Reaches(c, s0, t) && Shape(c, t) && OnlyActive(t, p) && t.workers == s0.workers[0 := Holding(p, end)]
    ensures t.pieces[p] == Activated(c.layout[p], 1) && end >= c.layout[p].start + c.layout[p].length - 1
    ensures forall k :: 0 <= k < |s0.file| && InPieceBytes(c, p, k) ==> t.file[k] == s0.file[k]
    ensures !t.failed && !t.cancelled && t.snap == []
  {
    InitReady(c, s0);
    var m := FetchesAllBut(c, s0, 0, p);
    OfferedAtLast(c, m, p);
    StillOnly(c, s0, m, p);
    t, end := StartsPiece(c, m, 0, p, {});
    OnlyThen(c, m, t, 0, p, {}, Holding(p, end), t.pieces[p]);
    ReachesJoin(c, s0, m, t);
  }

  lemma StillOnly(c: Config, s: State, t: State, p: nat)
    requires Cleared(c, s, t, p) && OnlyActive(s, p) && p < |s.pieces|
    ensures OnlyActive(t, p) && t.pieces[p] == s.pieces[p]
  {
  }

  lemma OnlyThen(c: Config, s: State, t: State, w: nat, p: nat, blocks: set<nat>, x: Worker, v: PieceView)
    requires ConfigOk(c) && Frame(c, s, t, w, p, blocks, x, v) && OnlyActive(s, p) && v.status == Active
    ensures OnlyActive(t, p)
    ensures forall k :: 0 <= k < |s.file| && InPieceBytes(c, p, k) && c.layout[p].IndexOf(k) !in blocks ==> t.file[k] == s.file[k]
  {
  }

  lemma OfferedAtLast(c: Config, s: State, p: nat)
    requires p < |s.pieces| == |c.layout| && Handed(c, p) && IsIdle(s.pieces, p)
    ensures !MayPick(c.selector, s.pieces, -1)
  {
    NothingPickedIff(c.selector, s.pieces);
  }

  // What the moves of a thief do, for any worker in any state.

  lemma ProbeMove(c: Config, s: State, w: nat)
    requires Moves(c, s, w, Probe) && s.workers[w].Probing?
    requires var v := s.pieces[s.workers[w].i]; v.status == Active && v.owner != w + 1
    ensures var x := s.workers[w];
            && s.pieces[x.i].WF() && s.pieces[x.i].length > 0
            && EffectOf(c, s, w, Probe)
               == Effect(s.file, x.i, s.pieces[x.i].AfterSteal(c.minSteal), Stolen(s.pieces[x.i], x.i, c.minSteal))
  {
    GeometryFacts(c, s.workers[w].i);
  }

  lemma AcceptMove(c: Config, s: State, w: nat)
    requires Moves(c, s, w, Accept) && s.workers[w].Ranging?
    ensures var x := s.workers[w]; EffectOf(c, s, w, Accept) == Keep(s, RangeReading(x.p, x.start, x.stop, x.start))
  {
  }

  lemma ReceiveMove(c: Config, s: State, w: nat, n: nat)
    requires Moves(c, s, w, Receive(n)) && s.workers[w].RangeReading?
    ensures var x := s.workers[w];
            EffectOf(c, s, w, Receive(n))
            == Effect(FileWith(s.file, c.source, x.cur, n), x.p, s.pieces[x.p], RangeReading(x.p, x.start, x.stop, x.cur + n))
  {
  }

  lemma EndMove(c: Config, s: State, w: nat)
    requires Moves(c, s, w, Eof) && s.workers[w].RangeReading?
    ensures var x := s.workers[w]; EffectOf(c, s, w, Eof) == Keep(s, AtRangeEnd(c, x.p, x.start, x.stop, x.cur))
  {
  }

  lemma MarkMove(c: Config, s: State, w: nat)
    requires Moves(c, s, w, Mark) && s.workers[w].Marking?
    ensures var x := s.workers[w];
            EffectOf(c, s, w, Mark)
            == if x.next <= x.last then Effect(s.file, x.p, s.pieces[x.p].CompleteBlock(x.next),
                                               Marking(x.p, x.start, x.stop, x.next + 1, x.last))
               else Keep(s, Checking(x.p, x.start, x.stop))
  {
  }

  lemma CheckMove(c: Config, s: State, w: nat)
    requires Moves(c, s, w, Check) && s.workers[w].Checking?
    ensures var x := s.workers[w];
            EffectOf(c, s, w, Check) == Keep(s, if s.pieces[x.p].Full() then Finishing(x.p) else Ranging(x.p, x.start, x.stop))
  {
  }

  /** Worker w looks at pieces i, i + 1, ... and finds nothing to steal before piece p. */
  lemma {:induction false} ProbesUpTo(c: Config, s: State, w: nat, i: nat, p: nat, blocks: set<nat>) returns (t: State)
    requires At(c, s, w, Probing(i)) && OnlyActive(s, p) && i <= p < |s.pieces|
    ensures Does(c, s, t, w, p, blocks, Probing(p), s.pieces[p])
    decreases p - i
  {
    GeometryFacts(c, p);
    if i == p {
      t := s;
      Stays(c, s, w, p, blocks);
    } else {
      IdleMoves(c, s, w, Probe);
      var m := Goes(c, s, w, Probe, Probing(i + 1), p, blocks);
      assert m.pieces == s.pieces;
      t := ProbesUpTo(c, m, w, i + 1, p, blocks);
      DoesJoin(c, s, m, t, w, p, blocks, Probing(i + 1), s.pieces[p], Probing(p), s.pieces[p]);
    }
  }

  /** With nothing left to pick, worker w looks for a victim, and comes to piece p. */
  lemma LooksAround(c: Config, s: State, w: nat, p: nat) returns (t: State)
    requires At(c, s, w, Looking) && OnlyActive(s, p) && p < |s.pieces| && MayPick(c.selector, s.pieces, -1)
    ensures Does(c, s, t, w, p, {}, Probing(p), s.pieces[p])
  {
    GeometryFacts(c, p);
    IdleMoves(c, s, w, Pick(-1));
    var m := Goes(c, s, w, Pick(-1), Probing(0), p, {});
    assert m.pieces == s.pieces;
    t := ProbesUpTo(c, m, w, 0, p, {});
    DoesJoin(c, s, m, t, w, p, {}, Probing(0), s.pieces[p], Probing(p), s.pieces[p]);
  }

  lemma TakesRange(c: Config, s: State, w: nat, p: nat, start: nat, len: nat) returns (t: State)
    requires At(c, s, w, Probing(p)) && p < |s.pieces| && s.pieces[p].status == Active && s.pieces[p].owner != w + 1
    requires s.pieces[p].blockLength > 0 && s.pieces[p].Steal(c.minSteal) == Range(start, len)
    ensures Does(c, s, t, w, p, {}, Ranging(p, start, start + len), s.pieces[p].AfterSteal(c.minSteal))
  {
    GeometryFacts(c, p);
    ProbeMove(c, s, w);
    t := Acts(c, s, w, Probe, Effect(s.file, p, s.pieces[p].AfterSteal(c.minSteal), Ranging(p, start, start + len)), p, {});
  }

  /** The bytes outside [lo, hi) are as they were. */
  ghost predicate Outside(file: seq<byte>, file': seq<byte>, lo: nat, hi: nat) {
    |file'| == |file| && forall k :: 0 <= k < |file| && !(lo <= k < hi) ==> file'[k] == file[k]
  }

  /** The response starts and brings the bytes up to cur. */
  lemma ReadsRange(c: Config, s: State, w: nat, p: nat, start: nat, stop: nat, cur: nat) returns (t: State)
    requires At(c, s, w, Ranging(p, start, stop)) && start < cur <= stop
    ensures Reaches(c, s, t) && Shape(c, t) && Outside(s.file, t.file, start, cur)
    ensures t == s.(file := t.file, workers := s.workers[w := RangeReading(p, start, stop, cur)])
  {
    GeometryFacts(c, p);
    AcceptMove(c, s, w);
    var m := Goes(c, s, w, Accept, RangeReading(p, start, stop, start), p, {});
    t := ReceivesUpTo(c, m, w, p, start, stop, cur);
    ReachesJoin(c, s, m, t);
    assert s.pieces[p := s.pieces[p]] == s.pieces;
    assert s.workers[w := RangeReading(p, start, stop, start)][w := RangeReading(p, start, stop, cur)]
        == s.workers[w := RangeReading(p, start, stop, cur)];
  }

  lemma ReceivesUpTo(c: Config, s: State, w: nat, p: nat, start: nat, stop: nat, cur: nat) returns (t: State)
    requires At(c, s, w, RangeReading(p, start, stop, start)) && start < cur <= stop
    ensures Reaches(c, s, t) && Shape(c, t) && Outside(s.file, t.file, start, cur)
    ensures t == s.(file := t.file, workers := s.workers[w := RangeReading(p, start, stop, cur)])
  {
    ReceiveMove(c, s, w, cur - start);
    t := OneMove(c, s, w, Receive(cur - start));
    AfterReading(s, t, w, p, FileWith(s.file, c.source, start, cur - start), RangeReading(p, start, stop, cur),
                 Receive(cur - start));
  }

  lemma AfterReading(s: State, t: State, w: nat, p: nat, file: seq<byte>, x: Worker, m: Move)
    requires w < |s.workers| && p < |s.pieces| && m.Receive? && t == After(s, w, m, Effect(file, p, s.pieces[p], x))
    ensures t == s.(file := file, workers := s.workers[w := x])
  {
    assert s.pieces[p := s.pieces[p]] == s.pieces;
  }

  // ----- the range of a theft, and the runs that lead to it -----

  /** A theft from piece p with exactly these blocks done takes [start, stop). */
  ghost predicate Yields(c: Config, p: nat, got: set<nat>, start: nat, stop: nat)
    requires p < |c.layout| && c.layout[p].blockLength > 0
  {
    got <= AllBlocks(c.layout[p].N()) && start <= stop && c.layout[p].(done := got).Steal(c.minSteal) == Range(start, stop - start)
  }

  lemma SameSteal(u: PieceView, v: PieceView, minSize: int)
    requires u.blockLength > 0 && v == u.(inUse := v.inUse, status := v.status, owner := v.owner)
    ensures v.Steal(minSize) == u.Steal(minSize) && v.AfterSteal(minSize).done == u.done
  {
  }

  /** No byte of the file is the server's at the start. */
  function WrongStart(c: Config): State {
    State(seq(|c.source|, k requires 0 <= k < |c.source| => c.source[k] + 1), c.layout, seq(c.workers, _ => Looking),
          seq(|c.layout|, _ => {}), [], false, false)
  }

  /** Worker 1 steals what a piece with these blocks done yields. */
  lemma ThiefTakes(c: Config, s: State, p: nat, got: set<nat>, start: nat, stop: nat) returns (t: State)
    requires ConfigOk(c) && Shape(c, s) && |s.workers| >= 2 && s.workers[1] == Looking && OnlyActive(s, p) && p < |s.pieces|
    requires s.pieces[p].status == Active && s.pieces[p].owner == 1 && s.pieces[p].done == got
    requires c.layout[p].blockLength > 0 && Yields(c, p, got, start, stop)
    ensures Reaches(c, s, t) && Shape(c, t) && t.workers == s.workers[1 := Ranging(p, start, stop)]
    ensures s.pieces[p].blockLength > 0 && t.pieces[p] == s.pieces[p].AfterSteal(c.minSteal)
    ensures OnlyActive(t, p) && MayPick(c.selector, t.pieces, -1) && t.failed == s.failed && t.cancelled == s.cancelled
    ensures forall k :: 0 <= k < |s.file| && InPieceBytes(c, p, k) ==> t.file[k] == s.file[k]
  {
    GeometryFacts(c, p);
    var m := FetchesAllBut(c, s, 1, p);
    StillOnly(c, s, m, p);
    t := StealsNow(c, m, p, got, start, stop);
    ReachesJoin(c, s, m, t);
  }

  lemma StealsNow(c: Config, s: State, p: nat, got: set<nat>, start: nat, stop: nat) returns (t: State)
    requires At(c, s, 1, Looking) && OnlyActive(s, p) && p < |s.pieces| && MayPick(c.selector, s.pieces, -1)
    requires s.pieces[p].status == Active && s.pieces[p].owner == 1 && s.pieces[p].done == got
    requires c.layout[p].blockLength > 0 && Yields(c, p, got, start, stop)
    ensures s.pieces[p].blockLength > 0
    ensures Does(c, s, t, 1, p, {}, Ranging(p, start, stop), s.pieces[p].AfterSteal(c.minSteal))
    ensures OnlyActive(t, p) && MayPick(c.selector, t.pieces, -1) && t.file == s.file
  {
    StealsSame(c, s, p, got, start, stop);
    t := StealsFrom(c, s, 1, p, start, stop - start);
    AfterTheft(c, s, t, p, t.workers[1], t.pieces[p]);
  }

  lemma StealsSame(c: Config, s: State, p: nat, got: set<nat>, start: nat, stop: nat)
    requires Shape(c, s) && p < |s.pieces| && s.pieces[p].done == got
    requires c.layout[p].blockLength > 0 && Yields(c, p, got, start, stop)
    ensures s.pieces[p].blockLength > 0 && start <= stop && s.pieces[p].Steal(c.minSteal) == Range(start, stop - start)
    ensures s.pieces[p].AfterSteal(c.minSteal).status == s.pieces[p].status
  {
    SameSteal(c.layout[p].(done := got), s.pieces[p], c.minSteal);
  }

  lemma StealsFrom(c: Config, s: State, w: nat, p: nat, start: nat, len: nat) returns (t: State)
    requires At(c, s, w, Looking) && OnlyActive(s, p) && p < |s.pieces| && MayPick(c.selector, s.pieces, -1)
    requires s.pieces[p].status == Active && s.pieces[p].owner != w + 1
    requires s.pieces[p].blockLength > 0 && s.pieces[p].Steal(c.minSteal) == Range(start, len)
    ensures Does(c, s, t, w, p, {}, Ranging(p, start, start + len), s.pieces[p].AfterSteal(c.minSteal))
  {
    var m := LooksAround(c, s, w, p);
    t := TakesRange(c, m, w, p, start, len);
    DoesJoin(c, s, m, t, w, p, {}, Probing(p), s.pieces[p], Ranging(p, start, start + len), s.pieces[p].AfterSteal(c.minSteal));
  }

  lemma AfterTheft(c: Config, s: State, t: State, p: nat, x: Worker, v: PieceView)
    requires ConfigOk(c) && Frame(c, s, t, 1, p, {}, x, v) && OnlyActive(s, p) && MayPick(c.selector, s.pieces, -1)
    requires s.pieces[p].status == v.status == Active
    ensures OnlyActive(t, p) && MayPick(c.selector, t.pieces, -1) && t.file == s.file
  {
    SameIdle(c.selector, s.pieces, t.pieces);
  }

  lemma SameIdle(selector: Selector, pieces: seq<PieceView>, pieces': seq<PieceView>)
    requires |pieces'| == |pieces| && forall i :: 0 <= i < |pieces| ==> pieces'[i].status == pieces[i].status
    ensures MayPick(selector, pieces', -1) <==> MayPick(selector, pieces, -1)
  {
    NothingPickedIff(selector, pieces);
    NothingPickedIff(selector, pieces');
    forall j
      ensures IsIdle(pieces', j) <==> IsIdle(pieces, j)
    {
    }
  }

  // ----- every range being stolen comes from a theft -----

  /** The worker is fetching or marking a stolen range. */
  predicate HasRange(x: Worker) {
    x.Ranging? || x.RangeReading? || x.Marking? || x.Checking?
  }

  /** The range is what a theft yields when no more than these blocks are done. */
  ghost predicate Taken(c: Config, done: set<nat>, p: nat, start: nat, stop: nat)
    requires p < |c.layout| && c.layout[p].blockLength > 0
  {
    exists got :: got <= done && Yields(c, p, got, start, stop)
  }

  lemma TakenGrows(c: Config, done: set<nat>, done': set<nat>, p: nat, start: nat, stop: nat)
    requires p < |c.layout| && c.layout[p].blockLength > 0 && Taken(c, done, p, start, stop) && done <= done'
    ensures Taken(c, done', p, start, stop)
  {
    var got :| got <= done && Yields(c, p, got, start, stop);
    assert got <= done' && Yields(c, p, got, start, stop);
  }

  /** If the worker has a range, it comes from a theft. */
  ghost predicate FromTheft(c: Config, pieces: seq<PieceView>, x: Worker)
    requires |pieces| == |c.layout|
  {
    HasRange(x) ==>
      x.p < |c.layout| && c.layout[x.p].blockLength > 0 && Taken(c, pieces[x.p].done, x.p, x.start, x.stop)
  }

  ghost predicate AllTaken(c: Config, s: State)
    requires |s.pieces| == |c.layout|
  {
    forall w :: 0 <= w < |s.workers| ==> FromTheft(c, s.pieces, s.workers[w])
  }

  /** No move takes back a done bit. */
  lemma DoneGrows(c: Config, s: State, w: nat, m: Move)
    requires Moves(c, s, w, m)
    ensures var e := EffectOf(c, s, w, m); e.p < |s.pieces| && s.pieces[e.p].done <= e.view.done
  {
    if Stealing(s.workers[w]) {
      RangeDoneGrows(c, s, w, m);
    } else {
      PieceDoneGrows(c, s, w, m);
    }
  }

  lemma PieceDoneGrows(c: Config, s: State, w: nat, m: Move)
    requires Moves(c, s, w, m) && !Stealing(s.workers[w])
    ensures var e := PieceEffect(c, s, w, m); e.p < |s.pieces| && s.pieces[e.p].done <= e.view.done
  {
  }

  lemma RangeDoneGrows(c: Config, s: State, w: nat, m: Move)
    requires Moves(c, s, w, m) && Stealing(s.workers[w])
    ensures var e := RangeEffect(c, s, w, m); e.p < |s.pieces| && s.pieces[e.p].done <= e.view.done
  {
  }

  lemma NoRangeFromPiece(c: Config, s: State, w: nat, m: Move)
    requires Moves(c, s, w, m) && !Stealing(s.workers[w])
    ensures !HasRange(PieceEffect(c, s, w, m).worker)
  {
  }

  lemma RangeKept(c: Config, s: State, w: nat, m: Move)
    requires Moves(c, s, w, m) && Stealing(s.workers[w]) && !s.workers[w].Probing?
    requires HasRange(RangeEffect(c, s, w, m).worker)
    ensures var x, y := s.workers[w], RangeEffect(c, s, w, m).worker;
            HasRange(x) && x.p == y.p && x.start == y.start && x.stop == y.stop
  {
  }

  lemma RangeStolen(c: Config, s: State, w: nat, m: Move)
    requires Moves(c, s, w, m) && s.workers[w].Probing? && HasRange(RangeEffect(c, s, w, m).worker)
    ensures var y := RangeEffect(c, s, w, m).worker;
            && y.p < |c.layout| && c.layout[y.p].blockLength > 0
            && s.pieces[y.p].status == Active && s.pieces[y.p].owner != w + 1
            && Yields(c, y.p, s.pieces[y.p].done, y.start, y.stop)
  {
    if m == Probe {
      GeometryFacts(c, s.workers[w].i);
      var v := s.pieces[s.workers[w].i];
      SameSteal(c.layout[s.workers[w].i].(done := v.done), v, c.minSteal);
    }
  }

  /** A worker keeps its range, or gets one from the active piece it probes, which another worker owns. */
  lemma RangeComesFrom(c: Config, s: State, w: nat, m: Move)
    requires Moves(c, s, w, m) && HasRange(EffectOf(c, s, w, m).worker)
    ensures var x, y := s.workers[w], EffectOf(c, s, w, m).worker;
            || (HasRange(x) && x.p == y.p && x.start == y.start && x.stop == y.stop)
            || (&& y.p < |c.layout| && c.layout[y.p].blockLength > 0
                && s.pieces[y.p].status == Active && s.pieces[y.p].owner != w + 1
                && Yields(c, y.p, s.pieces[y.p].done, y.start, y.stop))
  {
    if !Stealing(s.workers[w]) {
      NoRangeFromPiece(c, s, w, m);
    } else if s.workers[w].Probing? {
      RangeStolen(c, s, w, m);
    } else {
      RangeKept(c, s, w, m);
    }
  }

  lemma EffectFromTheft(c: Config, s: State, w: nat, m: Move)
    requires Moves(c, s, w, m) && FromTheft(c, s.pieces, s.workers[w])
    ensures FromTheft(c, s.pieces, EffectOf(c, s, w, m).worker)
  {
    if HasRange(EffectOf(c, s, w, m).worker) {
      RangeComesFrom(c, s, w, m);
    }
  }

  lemma FromTheftGrows(c: Config, pieces: seq<PieceView>, p: nat, v: PieceView, x: Worker)
    requires |pieces| == |c.layout| && p < |pieces| && pieces[p].done <= v.done && FromTheft(c, pieces, x)
    ensures FromTheft(c, pieces[p := v], x)
  {
    if HasRange(x) {
      TakenGrows(c, pieces[x.p].done, pieces[p := v][x.p].done, x.p, x.start, x.stop);
    }
  }

  lemma ActTaken(c: Config, s: State, w: nat, m: Move)
    requires Moves(c, s, w, m) && AllTaken(c, s)
    ensures |Apply(c, s, Act(w, m)).pieces| == |c.layout| && AllTaken(c, Apply(c, s, Act(w, m)))
  {
    DoneGrows(c, s, w, m);
    EffectFromTheft(c, s, w, m);
    TakenAfter(c, s, w, m, EffectOf(c, s, w, m));
  }

  lemma TakenAfter(c: Config, s: State, w: nat, m: Move, e: Effect)
    requires |s.pieces| == |c.layout| && AllTaken(c, s) && w < |s.workers| && FromTheft(c, s.pieces, e.worker)
    requires e.p < |s.pieces| && s.pieces[e.p].done <= e.view.done
    ensures AllTaken(c, After(s, w, m, e))
  {
    var t := After(s, w, m, e);
    forall k | 0 <= k < |t.workers|
      ensures FromTheft(c, t.pieces, t.workers[k])
    {
      FromTheftGrows(c, s.pieces, e.p, e.view, t.workers[k]);
    }
  }

  lemma StepTaken(c: Config, s: State, st: Step)
    requires Steps(c, s, st) && AllTaken(c, s)
    ensures |Apply(c, s, st).pieces| == |c.layout| && AllTaken(c, Apply(c, s, st))
  {
    if st.Act? {
      ActTaken(c, s, st.w, st.move);
    }
  }

  // ----- a single worker never steals -----

  /** The only worker owns whatever is active, and has no stolen range. */
  ghost predicate Lonely(s: State) {
    && |s.workers| == 1
    && !HasRange(s.workers[0])
    && (forall i :: 0 <= i < |s.pieces| && s.pieces[i].status == Active ==> s.pieces[i].owner == 1)
    && (s.workers[0].Releasing? && s.workers[0].p < |s.pieces| ==> s.pieces[s.workers[0].p].status != Active)
  }

  lemma LonelyMove(c: Config, s: State, m: Move)
    requires Moves(c, s, 0, m) && Lonely(s) && (Stealing(s.workers[0]) ==> s.workers[0].Probing?)
    ensures var e := EffectOf(c, s, 0, m);
            && e.p < |s.pieces|
            && (e.view.status == Active ==> e.view.owner == 1)
            && (e.worker.Releasing? ==> e.worker.p == e.p && e.view.status != Active)
  {
  }

  lemma StepLonely(c: Config, s: State, st: Step)
    requires Steps(c, s, st) && Lonely(s)
    ensures Lonely(Apply(c, s, st))
  {
    if st.Act? {
      ActLonely(c, s, st.w, st.move);
    } else if st.Restart? {
      RestartLonely(c, s, st.resume);
    }
  }

  lemma ActLonely(c: Config, s: State, w: nat, m: Move)
    requires Moves(c, s, w, m) && Lonely(s)
    ensures Lonely(Apply(c, s, Act(w, m)))
  {
    LonelyMove(c, s, m);
    if HasRange(EffectOf(c, s, 0, m).worker) {
      RangeComesFrom(c, s, 0, m);
    }
    LonelyAfter(s, m, EffectOf(c, s, 0, m));
  }

  lemma LonelyAfter(s: State, m: Move, e: Effect)
    requires Lonely(s) && e.p < |s.pieces| && !HasRange(e.worker)
    requires e.view.status == Active ==> e.view.owner == 1
    requires e.worker.Releasing? ==> e.worker.p == e.p && e.view.status != Active
    ensures Lonely(After(s, 0, m, e))
  {
  }

  lemma RestartLonely(c: Config, s: State, resume: bool)
    requires ConfigOk(c) && Shape(c, s) && |s.workers| == 1
    ensures Lonely(Apply(c, s, Restart(resume)))
  {
    var t := Apply(c, s, Restart(resume));
    assert t.workers[0] == Looking;
    forall i | 0 <= i < |t.pieces|
      ensures t.pieces[i].status != Active
    {
      GeometryFacts(c, i);
    }
  }

  // ----- in all runs -----

  ghost predicate Thefts(c: Config, s: State)
    requires ConfigOk(c) && Shape(c, s)
  {
    AllTaken(c, s) && (c.workers == 1 ==> Lonely(s)) && (!Covers(c) ==> ZeroUntouched(c, s))
  }

  lemma StepThefts(c: Config, s: State, st: Step)
    requires Steps(c, s, st) && Thefts(c, s)
    ensures Shape(c, Apply(c, s, st)) && Thefts(c, Apply(c, s, st))
  {
    ApplyShape(c, s, st);
    StepTaken(c, s, st);
    if c.workers == 1 {
      StepLonely(c, s, st);
    }
    if !Covers(c) {
      StepAvoidsZero(c, s, st);
    }
  }

  lemma {:induction false} RunThefts(c: Config, s: State, steps: seq<Step>, t: State)
    requires ConfigOk(c) && Run(c, s, steps, t) && Thefts(c, s)
    ensures Shape(c, t) && Thefts(c, t)
    decreases |steps|
  {
    if steps != [] {
      StepThefts(c, s, steps[0]);
      RunThefts(c, Apply(c, s, steps[0]), steps[1..], t);
    }
  }

  lemma InitThefts(c: Config, s: State)
    requires ConfigOk(c) && Init(c, s)
    ensures Shape(c, s) && Thefts(c, s)
  {
    InitReady(c, s);
    GeometryFacts(c, 0);
    if c.workers == 1 {
      InitLonely(c, s);
    }
  }

  lemma InitLonely(c: Config, s: State)
    requires ConfigOk(c) && Init(c, s) && c.workers == 1
    ensures Lonely(s)
  {
    InitReady(c, s);
    assert s.workers[0] == Looking;
  }

  /** A worker with a stolen range is one of several, the piece is one the selector hands out, and the range is what a
      theft yields from a piece with some of the blocks done that are done now. */
  lemma RangeIsTheft(c: Config, s: State, w: nat)
    requires ConfigOk(c) && Shape(c, s) && Thefts(c, s) && w < |s.workers| && HasRange(s.workers[w])
    ensures var x := s.workers[w];
            && c.workers >= 2 && Handed(c, x.p) && x.p < |c.layout| && c.layout[x.p].blockLength > 0
            && Taken(c, s.pieces[x.p].done, x.p, x.start, x.stop)
  {
    assert FromTheft(c, s.pieces, s.workers[w]);
    RangeIsHanded(c, s, w);
  }

  lemma RangeIsHanded(c: Config, s: State, w: nat)
    requires ConfigOk(c) && Shape(c, s) && Thefts(c, s) && w < |s.workers| && HasRange(s.workers[w])
    ensures c.workers >= 2 && Handed(c, s.workers[w].p)
  {
    if !Covers(c) {
      ZeroIsAvoided(c, s, w);
    }
  }

  lemma ZeroIsAvoided(c: Config, s: State, w: nat)
    requires Shape(c, s) && |c.layout| > 0 && ZeroUntouched(c, s) && w < |s.workers|
    ensures AvoidsZero(s.workers[w])
  {
  }

  /** The same, for every state of every run from a fresh start. */
  lemma RangesAreThefts(c: Config, s0: State, steps: seq<Step>, t: State, w: nat)
    requires ConfigOk(c) && Init(c, s0) && Run(c, s0, steps, t) && w < |t.workers| && HasRange(t.workers[w])
    ensures var x := t.workers[w];
            && Shape(c, t) && c.workers >= 2 && Handed(c, x.p) && x.p < |c.layout| && c.layout[x.p].blockLength > 0
            && Taken(c, t.pieces[x.p].done, x.p, x.start, x.stop)
  {
    InitThefts(c, s0);
    RunThefts(c, s0, steps, t);
    RangeIsTheft(c, t, w);
  }
}
