/** Runs built from one worker's moves: what it does to its piece, and that it leaves everything else alone. */
module ProtocolMoves {
  import opened Bits
  import opened Pieces
  import opened Selection
  import opened Protocol
  import opened ProtocolSafety

  // ----- putting runs together -----

  lemma CleanCons(c: Config, s: State, st: Step, rest: seq<Step>, t: State)
    requires Steps(c, s, st) && Clean(c, s, st) && CleanRun(c, Apply(c, s, st), rest, t)
    ensures CleanRun(c, s, [st] + rest, t)
  {
    assert ([st] + rest)[1..] == rest;
  }

  lemma CleanUncons(c: Config, s: State, a: seq<Step>, t: State)
    requires ConfigOk(c) && CleanRun(c, s, a, t) && a != []
    ensures Steps(c, s, a[0]) && Clean(c, s, a[0]) && CleanRun(c, Apply(c, s, a[0]), a[1..], t)
  {
  }

  /** A clean run leads from s to t. */
  ghost predicate Reaches(c: Config, s: State, t: State) {
    ConfigOk(c) && exists steps :: CleanRun(c, s, steps, t)
  }

  lemma ReachesNext(c: Config, s: State, st: Step, t: State)
    requires Steps(c, s, st) && Clean(c, s, st) && Reaches(c, Apply(c, s, st), t)
    ensures Reaches(c, s, t)
  {
    var rest :| CleanRun(c, Apply(c, s, st), rest, t);
    CleanCons(c, s, st, rest, t);
  }

  lemma {:induction false} RunThenReaches(c: Config, s: State, steps: seq<Step>, m: State, t: State)
    requires ConfigOk(c) && CleanRun(c, s, steps, m) && Reaches(c, m, t)
    ensures Reaches(c, s, t)
    decreases |steps|
  {
    if steps != [] {
      CleanUncons(c, s, steps, m);
      RunThenReaches(c, Apply(c, s, steps[0]), steps[1..], m, t);
      ReachesNext(c, s, steps[0], t);
    }
  }

  lemma ReachesJoin(c: Config, s: State, m: State, t: State)
    requires Reaches(c, s, m) && Reaches(c, m, t)
    ensures Reaches(c, s, t)
  {
    var steps :| CleanRun(c, s, steps, m);
    RunThenReaches(c, s, steps, m, t);
  }

  lemma ReachesSelf(c: Config, s: State)
    requires ConfigOk(c) && Shape(c, s)
    ensures Reaches(c, s, s)
  {
    assert CleanRun(c, s, [], s);
  }

  lemma {:induction false} CleanIsRun(c: Config, s: State, steps: seq<Step>, t: State)
    requires ConfigOk(c) && CleanRun(c, s, steps, t)
    ensures Run(c, s, steps, t) && Shape(c, t)
    decreases |steps|
  {
    if steps != [] {
      CleanIsRun(c, Apply(c, s, steps[0]), steps[1..], t);
    }
  }

  /** Any run leads from s to t. */
  ghost predicate Gets(c: Config, s: State, t: State) {
    ConfigOk(c) && exists steps :: Run(c, s, steps, t)
  }

  lemma GetsNext(c: Config, s: State, st: Step, t: State)
    requires Steps(c, s, st) && Gets(c, Apply(c, s, st), t)
    ensures Gets(c, s, t)
  {
    var rest :| Run(c, Apply(c, s, st), rest, t);
    RunCons(c, s, st, rest, t);
  }

  lemma {:induction false} RunThenGets(c: Config, s: State, steps: seq<Step>, m: State, t: State)
    requires ConfigOk(c) && Run(c, s, steps, m) && Gets(c, m, t)
    ensures Gets(c, s, t)
    decreases |steps|
  {
    if steps != [] {
      RunUncons(c, s, steps, m);
      RunThenGets(c, Apply(c, s, steps[0]), steps[1..], m, t);
      GetsNext(c, s, steps[0], t);
    }
  }

  lemma RunUncons(c: Config, s: State, a: seq<Step>, t: State)
    requires ConfigOk(c) && Run(c, s, a, t) && a != []
    ensures Steps(c, s, a[0]) && Run(c, Apply(c, s, a[0]), a[1..], t)
  {
  }

  lemma GetsJoin(c: Config, s: State, m: State, t: State)
    requires Gets(c, s, m) && Gets(c, m, t)
    ensures Gets(c, s, t)
  {
    var steps :| Run(c, s, steps, m);
    RunThenGets(c, s, steps, m, t);
  }

  lemma ReachesGets(c: Config, s: State, m: State, t: State)
    requires Reaches(c, s, m) && Gets(c, m, t)
    ensures Gets(c, s, t)
  {
    var steps :| CleanRun(c, s, steps, m);
    CleanIsRun(c, s, steps, m);
    RunThenGets(c, s, steps, m, t);
  }

  lemma ReachedIsGot(c: Config, s: State, t: State)
    requires Reaches(c, s, t)
    ensures Gets(c, s, t)
  {
    var steps :| CleanRun(c, s, steps, t);
    CleanIsRun(c, s, steps, t);
  }

  // ----- what one worker's moves leave alone -----

  /** Offset k lies in one of these blocks of the piece. */
  predicate InBlocks(v: PieceView, k: int, blocks: set<nat>)
    requires v.blockLength > 0
  {
    v.start <= k < v.start + v.length && v.IndexOf(k) in blocks
  }

  /** The file differs at most inside these blocks of piece p. */
  ghost predicate FileOnly(c: Config, file: seq<byte>, file': seq<byte>, p: nat, blocks: set<nat>)
    requires p < |c.layout| && c.layout[p].blockLength > 0
  {
    |file'| == |file| && forall k :: 0 <= k < |file| && file'[k] != file[k] ==> InBlocks(c.layout[p], k, blocks)
  }

  /** Worker w is at x now and piece p reads v; nothing else has changed but bytes of these blocks of p. */
  ghost predicate Frame(c: Config, s: State, t: State, w: nat, p: nat, blocks: set<nat>, x: Worker, v: PieceView) {
    && p < |c.layout| && c.layout[p].blockLength > 0 && p < |s.pieces| && w < |s.workers|
    && t == s.(file := t.file, pieces := s.pieces[p := v], workers := s.workers[w := x])
    && FileOnly(c, s.file, t.file, p, blocks)
  }

  /** A clean run of worker w alone. */
  ghost predicate Does(c: Config, s: State, t: State, w: nat, p: nat, blocks: set<nat>, x: Worker, v: PieceView) {
    Reaches(c, s, t) && Shape(c, t) && Frame(c, s, t, w, p, blocks, x, v)
  }

  lemma FrameJoin(c: Config, s: State, m: State, t: State, w: nat, p: nat, blocks: set<nat>,
                  x: Worker, v: PieceView, x': Worker, v': PieceView)
    requires Frame(c, s, m, w, p, blocks, x, v) && Frame(c, m, t, w, p, blocks, x', v')
    ensures Frame(c, s, t, w, p, blocks, x', v')
  {
    assert s.pieces[p := v][p := v'] == s.pieces[p := v'];
    assert s.workers[w := x][w := x'] == s.workers[w := x'];
  }

  lemma DoesJoin(c: Config, s: State, m: State, t: State, w: nat, p: nat, blocks: set<nat>,
                 x: Worker, v: PieceView, x': Worker, v': PieceView)
    requires Does(c, s, m, w, p, blocks, x, v) && Does(c, m, t, w, p, blocks, x', v')
    ensures Does(c, s, t, w, p, blocks, x', v')
  {
    ReachesJoin(c, s, m, t);
    FrameJoin(c, s, m, t, w, p, blocks, x, v, x', v');
  }

  /** Worker w is at x. */
  ghost predicate At(c: Config, s: State, w: nat, x: Worker) {
    ConfigOk(c) && Shape(c, s) && w < |s.workers| && s.workers[w] == x
  }

  /** Neither an error nor a cancellation, nor the end of a stolen range's response. */
  predicate Quiet(x: Worker, m: Move) {
    m != GiveUp && m != Quit && !(x.RangeReading? && m == Eof)
  }

  lemma OneMove(c: Config, s: State, w: nat, m: Move) returns (t: State)
    requires Moves(c, s, w, m) && Quiet(s.workers[w], m)
    ensures Reaches(c, s, t) && Shape(c, t) && t == After(s, w, m, EffectOf(c, s, w, m))
  {
    ApplyShape(c, s, Act(w, m));
    t := Apply(c, s, Act(w, m));
    ReachesSelf(c, t);
    ReachesNext(c, s, Act(w, m), t);
  }

  lemma Acts(c: Config, s: State, w: nat, m: Move, e: Effect, p: nat, blocks: set<nat>) returns (t: State)
    requires Moves(c, s, w, m) && EffectOf(c, s, w, m) == e && Quiet(s.workers[w], m)
    requires p < |s.pieces| && c.layout[p].blockLength > 0 && (e.p == p || (e.p < |s.pieces| && e.view == s.pieces[e.p]))
    requires FileOnly(c, s.file, e.file, p, blocks)
    ensures Does(c, s, t, w, p, blocks, e.worker, if e.p == p then e.view else s.pieces[p])
    ensures t == After(s, w, m, e)
  {
    t := OneMove(c, s, w, m);
    if e.p != p {
      assert s.pieces[e.p := s.pieces[e.p]] == s.pieces == s.pieces[p := s.pieces[p]];
    }
  }

  /** Acts, for a move that changes neither file nor piece. */
  lemma Goes(c: Config, s: State, w: nat, m: Move, x: Worker, p: nat, blocks: set<nat>) returns (t: State)
    requires Moves(c, s, w, m) && EffectOf(c, s, w, m) == Keep(s, x) && Quiet(s.workers[w], m)
    requires p < |s.pieces| && c.layout[p].blockLength > 0
    ensures Does(c, s, t, w, p, blocks, x, s.pieces[p])
  {
    t := Acts(c, s, w, m, Keep(s, x), p, blocks);
  }

  // ----- the moves of the block loop, one by one -----

  function ReadingAt(c: Config, p: nat, end: int, b: nat, limit: nat): Worker
    requires p < |c.layout| && c.layout[p].blockLength > 0
  {
    var v := c.layout[p];
    Reading(p, end, b, v.BlockStart(b), v.BlockEnd(b) - v.BlockStart(b), limit)
  }

  /** What the moves of the block loop do, for any worker in any state. */
  lemma PieceMoves(c: Config, s: State, w: nat, m: Move)
    requires Moves(c, s, w, m)
    ensures var x := s.workers[w];
            && (x.Looking? && m.Pick? && m.r >= 0 ==>
                  EffectOf(c, s, w, m) == Effect(s.file, m.r, Activated(s.pieces[m.r], w + 1), Claimed(m.r)))
            && (x.Claimed? && m == Begin ==>
                  EffectOf(c, s, w, m) == Keep(s, Holding(x.p, EndOffset(s.pieces, x.p, |s.file|))))
            && (x.Fetching? && m == Accept ==>
                  EffectOf(c, s, w, m) == Keep(s, ReadingAt(c, x.p, x.end, x.blk, x.limit)))
            && (x.BlockRead? && m == Mark ==>
                  EffectOf(c, s, w, m) ==
                    Effect(s.file, x.p, s.pieces[x.p].CompleteBlock(x.blk), Advancing(x.p, x.end, x.cur, x.limit)))
            && (x.Advancing? && m == SeeComplete ==> EffectOf(c, s, w, m) == Keep(s, Finishing(x.p)))
            && (x.Holding? && m == SeeComplete ==> EffectOf(c, s, w, m) == Keep(s, Finishing(x.p)))
            && (x.Reading? && m == Eof ==> EffectOf(c, s, w, m) == Keep(s, Holding(x.p, x.end)))
            && (x.Finishing? && m == Mark ==>
                  EffectOf(c, s, w, m) == Effect(s.file, x.p, s.pieces[x.p].(status := Complete), Looking))
  {
  }

  lemma Picks(c: Config, s: State, w: nat, p: nat, blocks: set<nat>) returns (t: State)
    requires At(c, s, w, Looking) && p < |s.pieces| && MayPick(c.selector, s.pieces, p)
    ensures Does(c, s, t, w, p, blocks, Claimed(p), Activated(s.pieces[p], w + 1))
  {
    GeometryFacts(c, p);
    PieceMoves(c, s, w, Pick(p));
    t := Acts(c, s, w, Pick(p), Effect(s.file, p, Activated(s.pieces[p], w + 1), Claimed(p)), p, blocks);
  }

  lemma Begins(c: Config, s: State, w: nat, p: nat, blocks: set<nat>) returns (t: State, end: int)
    requires At(c, s, w, Claimed(p))
    ensures Does(c, s, t, w, p, blocks, Holding(p, end), s.pieces[p])
    ensures end >= c.layout[p].start + c.layout[p].length - 1
  {
    GeometryFacts(c, p);
    PieceMoves(c, s, w, Begin);
    end := EndOffset(s.pieces, p, |s.file|);
    t := Goes(c, s, w, Begin, Holding(p, end), p, blocks);
  }

  lemma Requests(c: Config, s: State, w: nat, p: nat, end: int, b: nat, blocks: set<nat>) returns (t: State, limit: nat)
    requires At(c, s, w, Holding(p, end)) && end >= c.layout[p].start + c.layout[p].length - 1
    requires s.pieces[p].NextBlock() == b
    ensures Does(c, s, t, w, p, blocks, Fetching(p, end, b, limit), s.pieces[p].(inUse := s.pieces[p].inUse + {b}))
    ensures limit >= c.layout[p].start + c.layout[p].length
  {
    GeometryFacts(c, p);
    var v := s.pieces[p];
    BlockBounds(v, b);
    limit := RequestLimit(v.BlockEnd(b), end, |s.file|);
    t := Acts(c, s, w, Request, Effect(s.file, p, v.Claim(), Fetching(p, end, b, limit)), p, blocks);
  }

  lemma Opens(c: Config, s: State, w: nat, p: nat, end: int, b: nat, limit: nat, blocks: set<nat>) returns (t: State)
    requires At(c, s, w, Fetching(p, end, b, limit))
    ensures c.layout[p].blockLength > 0
    ensures Does(c, s, t, w, p, blocks, ReadingAt(c, p, end, b, limit), s.pieces[p])
  {
    PieceMoves(c, s, w, Accept);
    t := Goes(c, s, w, Accept, ReadingAt(c, p, end, b, limit), p, blocks);
  }

  /** The worker claims its next block and the response starts. */
  lemma Claims(c: Config, s: State, w: nat, p: nat, end: int, b: nat, blocks: set<nat>) returns (t: State, limit: nat)
    requires At(c, s, w, Holding(p, end)) && end >= c.layout[p].start + c.layout[p].length - 1
    requires s.pieces[p].blockLength > 0 && s.pieces[p].NextBlock() == b && s.pieces[p].inUse == {}
    ensures c.layout[p].blockLength > 0 && limit >= c.layout[p].start + c.layout[p].length
    ensures Does(c, s, t, w, p, blocks, ReadingAt(c, p, end, b, limit), s.pieces[p].(inUse := {b}))
  {
    var m;
    m, limit := Requests(c, s, w, p, end, b, blocks);
    t := Opens(c, m, w, p, end, b, limit, blocks);
    var v := s.pieces[p].(inUse := {b});
    assert {} + {b} == {b};
    DoesJoin(c, s, m, t, w, p, blocks, Fetching(p, end, b, limit), v, ReadingAt(c, p, end, b, limit), v);
  }

  /** The rest of the block arrives at once. */
  lemma Receives(c: Config, s: State, w: nat, p: nat, end: int, b: nat, limit: nat, blocks: set<nat>) returns (t: State)
    requires p < |c.layout| && c.layout[p].blockLength > 0 && At(c, s, w, ReadingAt(c, p, end, b, limit))
    requires limit >= c.layout[p].start + c.layout[p].length && b in blocks
    ensures Does(c, s, t, w, p, blocks, BlockRead(p, end, b, c.layout[p].BlockEnd(b), limit), s.pieces[p])
  {
    GeometryFacts(c, p);
    var v := c.layout[p];
    BlockBounds(v, b);
    var n := v.BlockEnd(b) - v.BlockStart(b);
    BlockArrives(c, s, w, n);
    var file := FileWith(s.file, c.source, v.BlockStart(b), n);
    WritesBlock(c, s.file, p, b, v.BlockStart(b), n, blocks);
    t := Acts(c, s, w, Receive(n), Effect(file, p, s.pieces[p], BlockRead(p, end, b, v.BlockEnd(b), limit)), p, blocks);
  }

  lemma BlockArrives(c: Config, s: State, w: nat, n: nat)
    requires Moves(c, s, w, Receive(n)) && s.workers[w].Reading? && s.workers[w].remaining <= n
    ensures var x := s.workers[w];
            EffectOf(c, s, w, Receive(n))
            == Effect(FileWith(s.file, c.source, x.cur, n), x.p, s.pieces[x.p],
                      BlockRead(x.p, x.end, x.blk, x.cur + n, x.limit))
  {
  }

  /** A write inside block b stays in the block. */
  lemma WritesBlock(c: Config, file: seq<byte>, p: nat, b: nat, cur: nat, n: nat, blocks: set<nat>)
    requires ConfigOk(c) && InPiece(c, p, b) && |file| == |c.source| && b in blocks
    requires c.layout[p].BlockStart(b) <= cur && cur + n <= c.layout[p].BlockEnd(b) <= |file|
    ensures FileOnly(c, file, FileWith(file, c.source, cur, n), p, blocks)
  {
    GeometryFacts(c, p);
    var v := c.layout[p];
    BlockBounds(v, b);
    forall k | cur <= k < cur + n
      ensures InBlocks(v, k, blocks)
    {
      BlockOf(v, b, k);
    }
  }

  lemma BlockOf(v: PieceView, b: nat, k: nat)
    requires v.blockLength > 0 && v.length > 0 && b < v.N() && v.BlockStart(b) <= k < v.BlockEnd(b)
    ensures v.start <= k < v.start + v.length && v.IndexOf(k) == b
  {
    BlockBounds(v, b);
    IndexOfContains(v, k);
    if v.IndexOf(k) != b {
      BlocksDisjoint(v, if v.IndexOf(k) < b then v.IndexOf(k) else b, if v.IndexOf(k) < b then b else v.IndexOf(k));
    }
  }

  lemma Marks(c: Config, s: State, w: nat, p: nat, end: int, b: nat, cur: nat, limit: nat, blocks: set<nat>)
      returns (t: State)
    requires At(c, s, w, BlockRead(p, end, b, cur, limit))
    ensures s.pieces[p].blockLength > 0
    ensures Does(c, s, t, w, p, blocks, Advancing(p, end, cur, limit), s.pieces[p].CompleteBlock(b))
  {
    PieceMoves(c, s, w, Mark);
    t := Acts(c, s, w, Mark, Effect(s.file, p, s.pieces[p].CompleteBlock(b), Advancing(p, end, cur, limit)), p, blocks);
  }

  /** On to the next unused block, on the same response if that block is adjacent. */
  lemma Continues(c: Config, s: State, w: nat, p: nat, end: int, cur: nat, limit: nat, blocks: set<nat>) returns (t: State)
    requires At(c, s, w, Advancing(p, end, cur, limit))
    ensures c.layout[p].blockLength > 0 && s.pieces[p].blockLength > 0
    ensures var b := s.pieces[p].NextBlock();
            Does(c, s, t, w, p, blocks,
                 if b < 0 || c.layout[p].BlockStart(b) != cur then Holding(p, end) else ReadingAt(c, p, end, b, limit),
                 s.pieces[p].Claim())
  {
    GeometryFacts(c, p);
    GoesOn(c, s, w);
    t := Acts(c, s, w, Continue, EffectOf(c, s, w, Continue), p, blocks);
  }

  lemma GoesOn(c: Config, s: State, w: nat)
    requires Moves(c, s, w, Continue) && s.workers[w].Advancing?
    ensures var x := s.workers[w];
            && c.layout[x.p].blockLength > 0 && s.pieces[x.p].blockLength > 0
            && var b := s.pieces[x.p].NextBlock();
               EffectOf(c, s, w, Continue)
               == Effect(s.file, x.p, s.pieces[x.p].Claim(),
                         if b < 0 || c.layout[x.p].BlockStart(b) != x.cur then Holding(x.p, x.end)
                         else ReadingAt(c, x.p, x.end, b, x.limit))
  {
    GeometryFacts(c, s.workers[w].p);
  }

  /** The response ends inside the block, which stays claimed. */
  lemma EndsShort(c: Config, s: State, w: nat, p: nat, end: int, b: nat, limit: nat, blocks: set<nat>) returns (t: State)
    requires p < |c.layout| && c.layout[p].blockLength > 0 && At(c, s, w, ReadingAt(c, p, end, b, limit))
    ensures Does(c, s, t, w, p, blocks, Holding(p, end), s.pieces[p])
  {
    PieceMoves(c, s, w, Eof);
    t := Goes(c, s, w, Eof, Holding(p, end), p, blocks);
  }

  /** The worker sees the full piece and says so. */
  lemma Finishes(c: Config, s: State, w: nat, p: nat, blocks: set<nat>) returns (t: State)
    requires ConfigOk(c) && Shape(c, s) && w < |s.workers|
    requires (s.workers[w].Advancing? || s.workers[w].Holding?) && s.workers[w].p == p && s.pieces[p].Full()
    ensures Does(c, s, t, w, p, blocks, Looking, s.pieces[p].(status := Complete))
  {
    GeometryFacts(c, p);
    PieceMoves(c, s, w, SeeComplete);
    var m := Goes(c, s, w, SeeComplete, Finishing(p), p, blocks);
    PieceMoves(c, m, w, Mark);
    t := Acts(c, m, w, Mark, Effect(m.file, p, m.pieces[p].(status := Complete), Looking), p, blocks);
    DoesJoin(c, s, m, t, w, p, blocks, Finishing(p), s.pieces[p], Looking, s.pieces[p].(status := Complete));
  }
}
