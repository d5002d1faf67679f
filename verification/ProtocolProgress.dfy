/** Every download has a run in which one worker fetches all pieces its selector ever hands out. */
module ProtocolProgress {
  import opened Blocks
  import opened Pieces
  import opened Selection
  import opened Protocol
  import opened ProtocolSafety
  import opened ProtocolFinish
  import opened ProtocolMoves
  import Split

  // ----- one worker, one piece -----

  /** The piece when its owner has tried the blocks below b: it fetched those in `got` and left the others claimed.
      The blocks from stop on were done before. */
  function Part(v: PieceView, got: set<nat>, b: nat, stop: nat, claimed: set<nat>): PieceView
    requires v.blockLength > 0
  {
    v.(done := AllBlocks(b) * got + (AllBlocks(v.N()) - AllBlocks(stop)), inUse := (AllBlocks(b) - got) + claimed)
  }

  lemma PartNext(v: PieceView, got: set<nat>, b: nat, stop: nat)
    requires v.blockLength > 0 && b <= stop <= v.N()
    ensures Part(v, got, b, stop, {}).NextBlock() == if b < stop then b else -1
    ensures Part(v, got, b, stop, {}).(inUse := Part(v, got, b, stop, {}).inUse + {b}) == Part(v, got, b, stop, {b})
  {
    var u := Part(v, got, b, stop, {});
    forall i: nat | i < v.N()
      ensures i in u.done || i in u.inUse <==> i < b || i >= stop
    {
      assert i in AllBlocks(b) <==> i < b;
      assert i in AllBlocks(stop) <==> i < stop;
      assert i in AllBlocks(v.N());
    }
    assert u.inUse + {b} == Part(v, got, b, stop, {b}).inUse;
    FreeBlock(u.done, u.inUse, v.N(), b, stop);
  }

  lemma FreeBlock(done: set<nat>, inUse: set<nat>, n: nat, b: nat, stop: nat)
    requires b <= stop <= n && forall i: nat :: i < n ==> (i in done || i in inUse <==> i < b || i >= stop)
    ensures FirstFree(done, inUse, n, 0) == if b < stop then b else -1
  {
    var r := FirstFree(done, inUse, n, 0);
    if b < stop {
      assert b !in done && b !in inUse;
    }
  }

  lemma PartSkip(v: PieceView, got: set<nat>, b: nat, stop: nat)
    requires v.blockLength > 0 && b < stop <= v.N() && b !in got
    ensures Part(v, got, b, stop, {b}) == Part(v, got, b + 1, stop, {})
    ensures !(AllBlocks(stop) <= got)
  {
    assert AllBlocks(b + 1) == AllBlocks(b) + {b};
    assert b in AllBlocks(stop);
  }

  lemma PartMark(v: PieceView, got: set<nat>, b: nat, stop: nat)
    requires v.blockLength > 0 && b < stop <= v.N() && b in got
    ensures var full := b + 1 == stop && AllBlocks(stop) <= got;
            && Part(v, got, b, stop, {b}).CompleteBlock(b)
               == Part(v, got, b + 1, stop, {}).(status := if full then Complete else v.status)
            && (Part(v, got, b + 1, stop, {}).Full() <==> full)
  {
    var u := Part(v, got, b + 1, stop, {});
    assert AllBlocks(b + 1) == AllBlocks(b) + {b};
    if b + 1 < stop {
      assert b + 1 in AllBlocks(v.N()) && b + 1 !in u.done;
    }
    assert Part(v, got, b, stop, {b}).done + {b} == u.done;
    assert Part(v, got, b, stop, {b}).inUse - {b} == u.inUse;
    if b + 1 == stop && !(AllBlocks(stop) <= got) {
      var i :| i in AllBlocks(stop) && i !in got;
      assert i in AllBlocks(v.N()) && i !in u.done;
    }
  }

  /** Where the owner ends up: finished if it has fetched all blocks below stop, else at the top of its loop. */
  function Stopped(p: nat, end: int, got: set<nat>, stop: nat): Worker {
    if AllBlocks(stop) <= got then Looking else Holding(p, end)
  }

  function StoppedView(v: PieceView, got: set<nat>, stop: nat): PieceView
    requires v.blockLength > 0
  {
    Part(v, got, stop, stop, {}).(status := if AllBlocks(stop) <= got then Complete else v.status)
  }

  /** From block b to the last one before stop: the owner fetches the blocks in `got` and lets the response to each
      other one end before its first byte. */
  lemma {:induction false} ReadsOn(c: Config, s: State, w: nat, p: nat, end: int, b: nat, limit: nat,
                                   v: PieceView, got: set<nat>, stop: nat) returns (t: State)
    requires p < |c.layout| && c.layout[p].blockLength > 0 && At(c, s, w, ReadingAt(c, p, end, b, limit))
    requires v.blockLength > 0 && b < stop <= v.N() && s.pieces[p] == Part(v, got, b, stop, {b})
    requires end >= c.layout[p].start + c.layout[p].length - 1 && limit >= c.layout[p].start + c.layout[p].length
    ensures Does(c, s, t, w, p, got, Stopped(p, end, got, stop), StoppedView(v, got, stop))
    decreases stop - b, 0, 1
  {
    if b in got {
      t := FetchesBlock(c, s, w, p, end, b, limit, v, got, stop);
    } else {
      t := LeavesBlock(c, s, w, p, end, b, limit, v, got, stop);
    }
  }

  lemma {:induction false} LeavesBlock(c: Config, s: State, w: nat, p: nat, end: int, b: nat, limit: nat,
                                       v: PieceView, got: set<nat>, stop: nat) returns (t: State)
    requires p < |c.layout| && c.layout[p].blockLength > 0 && At(c, s, w, ReadingAt(c, p, end, b, limit))
    requires v.blockLength > 0 && b < stop <= v.N() && s.pieces[p] == Part(v, got, b, stop, {b}) && b !in got
    requires end >= c.layout[p].start + c.layout[p].length - 1
    ensures Does(c, s, t, w, p, got, Stopped(p, end, got, stop), StoppedView(v, got, stop))
    decreases stop - b, 0, 0
  {
    var m := SkipsBlock(c, s, w, p, end, b, limit, v, got, stop);
    t := AsksOn(c, m, w, p, end, b + 1, v, got, stop);
    DoesJoin(c, s, m, t, w, p, got, Holding(p, end), Part(v, got, b + 1, stop, {}),
             Stopped(p, end, got, stop), StoppedView(v, got, stop));
  }

  lemma SkipsBlock(c: Config, s: State, w: nat, p: nat, end: int, b: nat, limit: nat,
                   v: PieceView, got: set<nat>, stop: nat) returns (t: State)
    requires p < |c.layout| && c.layout[p].blockLength > 0 && At(c, s, w, ReadingAt(c, p, end, b, limit))
    requires v.blockLength > 0 && b < stop <= v.N() && s.pieces[p] == Part(v, got, b, stop, {b}) && b !in got
    ensures Does(c, s, t, w, p, got, Holding(p, end), Part(v, got, b + 1, stop, {}))
    ensures !(AllBlocks(stop) <= got)
  {
    PartSkip(v, got, b, stop);
    t := EndsShort(c, s, w, p, end, b, limit, got);
  }

  /** At the top of the loop with block b free: ask for it and go on from there; with none free, stay. */
  lemma {:induction false} AsksOn(c: Config, s: State, w: nat, p: nat, end: int, b: nat,
                                  v: PieceView, got: set<nat>, stop: nat) returns (t: State)
    requires At(c, s, w, Holding(p, end)) && end >= c.layout[p].start + c.layout[p].length - 1
    requires v.blockLength > 0 && b <= stop <= v.N() && s.pieces[p] == Part(v, got, b, stop, {})
    requires b == stop ==> !(AllBlocks(stop) <= got)
    ensures Does(c, s, t, w, p, got, Stopped(p, end, got, stop), StoppedView(v, got, stop))
    decreases stop - b, 2, 0
  {
    if b == stop {
      t := s;
      Stays(c, s, w, p, got);
    } else {
      t := AsksFor(c, s, w, p, end, b, v, got, stop);
    }
  }

  lemma Stays(c: Config, s: State, w: nat, p: nat, blocks: set<nat>)
    requires ConfigOk(c) && Shape(c, s) && w < |s.workers| && p < |s.pieces|
    ensures Does(c, s, s, w, p, blocks, s.workers[w], s.pieces[p])
  {
    ReachesSelf(c, s);
    GeometryFacts(c, p);
    assert s.pieces[p := s.pieces[p]] == s.pieces && s.workers[w := s.workers[w]] == s.workers;
  }

  lemma {:induction false} AsksFor(c: Config, s: State, w: nat, p: nat, end: int, b: nat,
                                   v: PieceView, got: set<nat>, stop: nat) returns (t: State)
    requires At(c, s, w, Holding(p, end)) && end >= c.layout[p].start + c.layout[p].length - 1
    requires v.blockLength > 0 && b < stop <= v.N() && s.pieces[p] == Part(v, got, b, stop, {})
    ensures Does(c, s, t, w, p, got, Stopped(p, end, got, stop), StoppedView(v, got, stop))
    decreases stop - b, 1, 0
  {
    PartNext(v, got, b, stop);
    var claimed := Part(v, got, b, stop, {b});
    var m1, limit := Requests(c, s, w, p, end, b, got);
    var m2 := Opens(c, m1, w, p, end, b, limit, got);
    t := ReadsOn(c, m2, w, p, end, b, limit, v, got, stop);
    DoesJoin(c, m1, m2, t, w, p, got, ReadingAt(c, p, end, b, limit), claimed,
             Stopped(p, end, got, stop), StoppedView(v, got, stop));
    DoesJoin(c, s, m1, t, w, p, got, Fetching(p, end, b, limit), claimed,
             Stopped(p, end, got, stop), StoppedView(v, got, stop));
  }

  lemma {:induction false} FetchesBlock(c: Config, s: State, w: nat, p: nat, end: int, b: nat, limit: nat,
                                        v: PieceView, got: set<nat>, stop: nat) returns (t: State)
    requires p < |c.layout| && c.layout[p].blockLength > 0 && At(c, s, w, ReadingAt(c, p, end, b, limit))
    requires v.blockLength > 0 && b < stop <= v.N() && s.pieces[p] == Part(v, got, b, stop, {b}) && b in got
    requires end >= c.layout[p].start + c.layout[p].length - 1 && limit >= c.layout[p].start + c.layout[p].length
    ensures Does(c, s, t, w, p, got, Stopped(p, end, got, stop), StoppedView(v, got, stop))
    decreases stop - b, 0, 0
  {
    PartMark(v, got, b, stop);
    var cur := c.layout[p].BlockEnd(b);
    var m := TakesBlock(c, s, w, p, end, b, limit, got);
    t := GoesOnOrStops(c, m, w, p, end, b + 1, cur, limit, v, got, stop);
    DoesJoin(c, s, m, t, w, p, got, Advancing(p, end, cur, limit), s.pieces[p].CompleteBlock(b),
             Stopped(p, end, got, stop), StoppedView(v, got, stop));
  }

  /** A whole block arrives and is marked. */
  lemma TakesBlock(c: Config, s: State, w: nat, p: nat, end: int, b: nat, limit: nat, got: set<nat>) returns (t: State)
    requires p < |c.layout| && c.layout[p].blockLength > 0 && At(c, s, w, ReadingAt(c, p, end, b, limit)) && b in got
    requires limit >= c.layout[p].start + c.layout[p].length
    ensures s.pieces[p].blockLength > 0
    ensures Does(c, s, t, w, p, got, Advancing(p, end, c.layout[p].BlockEnd(b), limit), s.pieces[p].CompleteBlock(b))
  {
    var cur := c.layout[p].BlockEnd(b);
    var m := Receives(c, s, w, p, end, b, limit, got);
    t := Marks(c, m, w, p, end, b, cur, limit, got);
    DoesJoin(c, s, m, t, w, p, got, BlockRead(p, end, b, cur, limit), s.pieces[p],
             Advancing(p, end, cur, limit), s.pieces[p].CompleteBlock(b));
  }

  /** Block b - 1 has just been marked. */
  lemma {:induction false} GoesOnOrStops(c: Config, s: State, w: nat, p: nat, end: int, b: nat, cur: nat, limit: nat,
                                         v: PieceView, got: set<nat>, stop: nat) returns (t: State)
    requires p < |c.layout| && c.layout[p].blockLength > 0 && At(c, s, w, Advancing(p, end, cur, limit))
    requires v.blockLength > 0 && 0 < b <= stop <= v.N() && cur == c.layout[p].BlockEnd(b - 1)
    requires s.pieces[p] == if b == stop then StoppedView(v, got, stop) else Part(v, got, b, stop, {})
    requires Part(v, got, b, stop, {}).Full() <==> b == stop && AllBlocks(stop) <= got
    requires end >= c.layout[p].start + c.layout[p].length - 1 && limit >= c.layout[p].start + c.layout[p].length
    ensures Does(c, s, t, w, p, got, Stopped(p, end, got, stop), StoppedView(v, got, stop))
    decreases stop - b, 3, 0
  {
    if b == stop && AllBlocks(stop) <= got {
      t := Finishes(c, s, w, p, got);
    } else {
      PartNext(v, got, b, stop);
      var m := Continues(c, s, w, p, end, cur, limit, got);
      if b == stop {
        t := m;
      } else {
        GeometryFacts(c, p);
        BlockBounds(c.layout[p], b - 1);
        t := ReadsOn(c, m, w, p, end, b, limit, v, got, stop);
        DoesJoin(c, s, m, t, w, p, got, ReadingAt(c, p, end, b, limit), Part(v, got, b, stop, {b}),
                 Stopped(p, end, got, stop), StoppedView(v, got, stop));
      }
    }
  }

  /** Nobody has touched the piece. */
  predicate Ready(v: PieceView) {
    v.status == Idle && v.done == {} && v.inUse == {}
  }

  /** A worker that is handed a piece gets to the top of its block loop. */
  lemma StartsPiece(c: Config, s: State, w: nat, p: nat, got: set<nat>) returns (t: State, end: int)
    requires At(c, s, w, Looking) && p < |s.pieces| && MayPick(c.selector, s.pieces, p)
    ensures Does(c, s, t, w, p, got, Holding(p, end), Activated(s.pieces[p], w + 1))
    ensures end >= c.layout[p].start + c.layout[p].length - 1
  {
    var m := Picks(c, s, w, p, got);
    t, end := Begins(c, m, w, p, got);
    DoesJoin(c, s, m, t, w, p, got, Claimed(p), Activated(s.pieces[p], w + 1), Holding(p, end), Activated(s.pieces[p], w + 1));
  }

  lemma PartOfReady(v: PieceView, got: set<nat>)
    requires v.blockLength > 0 && v.done == {} && v.inUse == {}
    ensures Part(v, got, 0, v.N(), {}) == v
    ensures AllBlocks(v.N()) <= got ==> StoppedView(v, got, v.N()) == v.(done := AllBlocks(v.N()), status := Complete)
    ensures got <= AllBlocks(v.N()) ==> StoppedView(v, got, v.N()).done == got
  {
  }

  /** Worker w, handed an untouched piece, fetches these blocks of it and no other. */
  lemma FetchesBlocks(c: Config, s: State, w: nat, p: nat, got: set<nat>) returns (t: State, end: int)
    requires At(c, s, w, Looking) && p < |s.pieces| && Ready(s.pieces[p]) && MayPick(c.selector, s.pieces, p)
    ensures s.pieces[p].blockLength > 0
    ensures var v := Activated(s.pieces[p], w + 1);
            Does(c, s, t, w, p, got, Stopped(p, end, got, v.N()), StoppedView(v, got, v.N()))
    ensures end >= c.layout[p].start + c.layout[p].length - 1
  {
    GeometryFacts(c, p);
    var v := Activated(s.pieces[p], w + 1);
    PartOfReady(v, got);
    var m;
    m, end := StartsPiece(c, s, w, p, got);
    t := AsksFor(c, m, w, p, end, 0, v, got, v.N());
    DoesJoin(c, s, m, t, w, p, got, Holding(p, end), v, Stopped(p, end, got, v.N()), StoppedView(v, got, v.N()));
  }

  // ----- one worker, many pieces -----

  ghost predicate Ended(v: PieceView)
    requires v.blockLength > 0
  {
    v.status == Complete && v.Full()
  }

  /** The idle pieces are untouched. */
  ghost predicate IdleReady(s: State) {
    forall i :: 0 <= i < |s.pieces| && s.pieces[i].status == Idle ==> Ready(s.pieces[i])
  }

  /** Byte k of the file belongs to piece q. */
  predicate InPieceBytes(c: Config, q: int, k: int) {
    0 <= q < |c.layout| && c.layout[q].start <= k < c.layout[q].start + c.layout[q].length
  }

  /** Workers and saves are as they were; some idle pieces other than q are complete now; the bytes of q are as they were. */
  ghost predicate Cleared(c: Config, s: State, t: State, q: int) {
    && t == s.(file := t.file, pieces := t.pieces)
    && |t.file| == |s.file| && |t.pieces| == |s.pieces|
    && (forall i :: 0 <= i < |s.pieces| ==>
          t.pieces[i] == s.pieces[i]
          || (i != q && s.pieces[i].status == Idle && t.pieces[i].blockLength > 0 && Ended(t.pieces[i])))
    && forall k :: 0 <= k < |s.file| && InPieceBytes(c, q, k) ==> t.file[k] == s.file[k]
  }

  lemma ClearedJoin(c: Config, s: State, m: State, t: State, q: int)
    requires Cleared(c, s, m, q) && Cleared(c, m, t, q)
    ensures Cleared(c, s, t, q)
  {
  }

  lemma SomePick(selector: Selector, pieces: seq<PieceView>) returns (p: nat)
    requires !MayPick(selector, pieces, -1)
    ensures MayPick(selector, pieces, p) && IsIdle(pieces, p)
  {
    match selector
    case InOrder => p := FirstIdle(pieces, 0);
    case Geom => p := FirstGeomIdle(pieces, 0);
    case Random => p := FirstIdle(pieces, 0);
  }

  lemma FetchesPiece(c: Config, s: State, w: nat, p: nat, q: int) returns (t: State)
    requires At(c, s, w, Looking) && p < |s.pieces| && Ready(s.pieces[p]) && MayPick(c.selector, s.pieces, p) && p != q
    ensures Reaches(c, s, t) && Shape(c, t) && Cleared(c, s, t, q) && t.pieces[p].status == Complete
    ensures t.pieces == s.pieces[p := t.pieces[p]]
  {
    var v := Activated(s.pieces[p], w + 1);
    var end;
    t, end := FetchesBlocks(c, s, w, p, AllBlocks(v.N()));
    PartOfReady(v, AllBlocks(v.N()));
    ClearedByOne(c, s, t, w, p, q, AllBlocks(v.N()), t.pieces[p]);
  }

  lemma ClearedByOne(c: Config, s: State, t: State, w: nat, p: nat, q: int, blocks: set<nat>, v: PieceView)
    requires ConfigOk(c) && Frame(c, s, t, w, p, blocks, Looking, v) && s.workers[w] == Looking && p != q
    requires s.pieces[p].status == Idle && v.blockLength > 0 && Ended(v)
    ensures Cleared(c, s, t, q)
  {
    assert s.workers[w := Looking] == s.workers;
    forall k | 0 <= k < |s.file| && InPieceBytes(c, q, k)
      ensures t.file[k] == s.file[k]
    {
      PiecesApart(c, p, q);
    }
  }

  lemma PiecesApart(c: Config, p: nat, q: nat)
    requires ConfigOk(c) && p < |c.layout| && q < |c.layout| && p != q
    ensures c.layout[p].start + c.layout[p].length <= c.layout[q].start
            || c.layout[q].start + c.layout[q].length <= c.layout[p].start
  {
    if p < q {
      Split.PiecesInOrder(c.layout, |c.source|, p, q);
    } else {
      Split.PiecesInOrder(c.layout, |c.source|, q, p);
    }
  }

  function Idles(pieces: seq<PieceView>): set<int> {
    set i | 0 <= i < |pieces| && pieces[i].status == Idle
  }

  /** Worker w fetches piece after piece until its selector has none left or offers piece q. */
  lemma {:induction false} FetchesAllBut(c: Config, s: State, w: nat, q: int) returns (t: State)
    requires At(c, s, w, Looking) && IdleReady(s)
    ensures Reaches(c, s, t) && Shape(c, t) && Cleared(c, s, t, q) && IdleReady(t)
    ensures MayPick(c.selector, t.pieces, -1) || (0 <= q < |t.pieces| && IsIdle(t.pieces, q) && MayPick(c.selector, t.pieces, q))
    decreases |Idles(s.pieces)|
  {
    if MayPick(c.selector, s.pieces, -1) {
      t := s;
      ReachesSelf(c, s);
    } else {
      var p := SomePick(c.selector, s.pieces);
      if p == q {
        t := s;
        ReachesSelf(c, s);
      } else {
        var m := FetchesOne(c, s, w, p, q);
        t := FetchesAllBut(c, m, w, q);
        ReachesJoin(c, s, m, t);
        ClearedJoin(c, s, m, t, q);
      }
    }
  }

  lemma FetchesOne(c: Config, s: State, w: nat, p: nat, q: int) returns (t: State)
    requires At(c, s, w, Looking) && IdleReady(s) && MayPick(c.selector, s.pieces, p) && IsIdle(s.pieces, p) && p != q
    ensures Reaches(c, s, t) && At(c, t, w, Looking) && Cleared(c, s, t, q) && IdleReady(t)
    ensures |Idles(t.pieces)| < |Idles(s.pieces)|
  {
    t := FetchesPiece(c, s, w, p, q);
    OneIdleLess(s.pieces, p, t.pieces[p]);
  }

  lemma OneIdleLess(pieces: seq<PieceView>, p: nat, v: PieceView)
    requires p < |pieces| && pieces[p].status == Idle && v.status != Idle
    ensures |Idles(pieces[p := v])| < |Idles(pieces)|
  {
    assert p in Idles(pieces) && Idles(pieces[p := v]) == Idles(pieces) - {p};
  }

  // ----- and then everybody leaves -----

  /** There is nothing to pick and nothing to steal; the workers before w have left. */
  ghost predicate Leaving(c: Config, s: State, w: nat) {
    && ConfigOk(c) && Shape(c, s) && w <= |s.workers| && !s.failed && !s.cancelled
    && MayPick(c.selector, s.pieces, -1)
    && (forall i :: 0 <= i < |s.pieces| ==> s.pieces[i].status != Active)
    && forall i :: 0 <= i < |s.workers| ==> s.workers[i] == if i < w then Exited else Looking
  }

  /** A move that only changes where worker w is. */
  lemma MovesTo(c: Config, s: State, w: nat, m: Move, x: Worker) returns (t: State)
    requires Moves(c, s, w, m) && EffectOf(c, s, w, m) == Keep(s, x) && Quiet(s.workers[w], m)
    ensures Reaches(c, s, t) && Shape(c, t) && t == s.(workers := s.workers[w := x])
  {
    GeometryFacts(c, 0);
    t := Goes(c, s, w, m, x, 0, {});
    assert s.pieces[0 := s.pieces[0]] == s.pieces;
    assert t.file == s.file;
  }

  /** What the moves of a worker without work do. */
  lemma IdleMoves(c: Config, s: State, w: nat, m: Move)
    requires Moves(c, s, w, m)
    ensures var x := s.workers[w];
            && (x.Looking? && m == Pick(-1) ==> EffectOf(c, s, w, m) == Keep(s, Probing(0)))
            && (x.Probing? && m == Probe && s.pieces[x.i].status != Active ==>
                  EffectOf(c, s, w, m) == Keep(s, Probing(x.i + 1)))
            && (x.Probing? && m == Leave ==> EffectOf(c, s, w, m) == Keep(s, Exited))
  {
  }

  lemma {:induction false} ProbesInVain(c: Config, s: State, w: nat, i: nat) returns (t: State)
    requires ConfigOk(c) && Shape(c, s) && w < |s.workers| && i <= |s.pieces| && s.workers[w] == Probing(i)
    requires forall k :: 0 <= k < |s.pieces| ==> s.pieces[k].status != Active
    ensures Reaches(c, s, t) && Shape(c, t) && t == s.(workers := s.workers[w := Exited])
    decreases |s.pieces| - i
  {
    if i < |s.pieces| {
      IdleMoves(c, s, w, Probe);
      var t1 := MovesTo(c, s, w, Probe, Probing(i + 1));
      t := ProbesInVain(c, t1, w, i + 1);
      ReachesJoin(c, s, t1, t);
    } else {
      IdleMoves(c, s, w, Leave);
      t := MovesTo(c, s, w, Leave, Exited);
    }
  }

  lemma Leaves(c: Config, s: State, w: nat) returns (t: State)
    requires Leaving(c, s, w) && w < |s.workers|
    ensures Reaches(c, s, t) && Leaving(c, t, w + 1) && t == s.(workers := t.workers)
  {
    IdleMoves(c, s, w, Pick(-1));
    var t1 := MovesTo(c, s, w, Pick(-1), Probing(0));
    t := ProbesInVain(c, t1, w, 0);
    ReachesJoin(c, s, t1, t);
  }

  lemma {:induction false} EveryoneLeaves(c: Config, s: State, w: nat) returns (t: State)
    requires Leaving(c, s, w)
    ensures Reaches(c, s, t) && Leaving(c, t, |t.workers|) && t == s.(workers := t.workers)
    decreases |s.workers| - w
  {
    if w == |s.workers| {
      t := s;
      ReachesSelf(c, s);
    } else {
      var t1 := Leaves(c, s, w);
      t := EveryoneLeaves(c, t1, w + 1);
      ReachesJoin(c, s, t1, t);
    }
  }

  /** All workers have returned, none with an error and none because of a cancellation. */
  ghost predicate Reported(s: State) {
    AllReturned(s) && !s.failed && !s.cancelled
  }

  /** Every download has a run that is reported as a success, in which every piece that the selector ever looks at
      is complete. */
  lemma SomeRunIsReported(c: Config, s0: State) returns (t: State)
    requires ConfigOk(c) && Init(c, s0)
    ensures Reaches(c, s0, t) && Shape(c, t) && Reported(t)
    ensures forall i :: 0 <= i < |t.pieces| && (Covers(c) || i != 0) ==> t.pieces[i].blockLength > 0 && t.pieces[i].Full()
  {
    InitReady(c, s0);
    var m := FetchesAllBut(c, s0, 0, -1);
    t := EveryoneLeaves(c, m, 0);
    ReachesJoin(c, s0, m, t);
    NotIdleIsFull(c, s0, m);
  }

  lemma InitReady(c: Config, s: State)
    requires ConfigOk(c) && Init(c, s)
    ensures Shape(c, s) && IdleReady(s) && s.workers[0] == Looking
    ensures forall i :: 0 <= i < |s.pieces| ==> Ready(s.pieces[i])
  {
    InitShape(c, s);
    forall i | 0 <= i < |s.pieces|
      ensures Ready(s.pieces[i])
    {
      GeometryFacts(c, i);
    }
  }

  /** What is not idle when nothing more is handed out is complete. */
  lemma NotIdleIsFull(c: Config, s: State, t: State)
    requires ConfigOk(c) && Shape(c, s) && Shape(c, t) && Cleared(c, s, t, -1) && MayPick(c.selector, t.pieces, -1)
    requires forall i :: 0 <= i < |s.pieces| ==> s.pieces[i].status == Idle
    ensures forall i :: 0 <= i < |t.pieces| && (Covers(c) || i != 0) ==> t.pieces[i].blockLength > 0 && t.pieces[i].Full()
  {
    NothingPickedIff(c.selector, t.pieces);
    forall i | 0 <= i < |t.pieces| && (Covers(c) || i != 0)
      ensures t.pieces[i].blockLength > 0 && t.pieces[i].Full()
    {
      assert !IsIdle(t.pieces, i);
    }
  }

  /** When the selector covers all pieces, that run has the whole file on disk. */
  lemma SomeRunDownloadsTheFile(c: Config, s0: State) returns (steps: seq<Step>, t: State)
    requires ConfigOk(c) && Covers(c) && Init(c, s0)
    ensures CleanRun(c, s0, steps, t) && Reported(t) && t.file == c.source
  {
    t := SomeRunIsReported(c, s0);
    steps :| CleanRun(c, s0, steps, t);
    DoneBitsNeverLie(c, s0, steps, t);
    FullMeansEqual(c, t);
  }

  /** In every run a reported success means that every piece is complete. */
  ghost predicate ReportsAreRight(c: Config)
    requires ConfigOk(c)
  {
    forall s0, t :: Init(c, s0) && Gets(c, s0, t) && Reported(t) && Shape(c, t) ==> AllFull(t.pieces)
  }

  function Start(c: Config): State {
    State(c.source, c.layout, seq(c.workers, _ => Looking), seq(|c.layout|, _ => {}), [], false, false)
  }

  /** Reported successes are right exactly for the selectors that look at every piece: all but geom over an even
      number of pieces. */
  lemma ReportsAreRightIff(c: Config)
    requires ConfigOk(c)
    ensures ReportsAreRight(c) <==> c.selector != Geom || |c.layout| % 2 == 1
  {
    if Covers(c) {
      forall s0, t | Init(c, s0) && Gets(c, s0, t) && Reported(t) && Shape(c, t)
        ensures AllFull(t.pieces)
      {
        var steps :| Run(c, s0, steps, t);
        ReportedMeansComplete(c, s0, steps, t);
      }
    } else {
      var s0 := Start(c);
      var t := SomeRunIsReported(c, s0);
      ReachedIsGot(c, s0, t);
      var steps :| Run(c, s0, steps, t);
      EvenGeomNeverFinishes(c, s0, steps, t);
    }
  }
}
