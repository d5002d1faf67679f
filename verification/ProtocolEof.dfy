/** When does the end of a stolen range's response keep the done bits honest? */
module ProtocolEof {
  import opened Arithmetic
  import opened Bits
  import opened Blocks
  import opened Pieces
  import opened Selection
  import opened Protocol
  import opened ProtocolSafety
  import opened ProtocolMoves
  import opened ProtocolProgress
  import opened ProtocolThief

  /** The piece after blocks next..last were marked one by one. */
  function MarkedRange(v: PieceView, next: nat, last: int): (r: PieceView)
    requires v.blockLength > 0
    ensures forall b: nat :: b in r.done <==> b in v.done || (next <= b <= last && b < v.N())
    decreases last + 1 - next
  {
    if next > last then v else MarkedRange(v.CompleteBlock(next), next + 1, last)
  }

  /** The piece after the response for [start, stop) ended with the bytes up to cur written. */
  ghost function AfterRangeEnd(c: Config, v: PieceView, p: nat, start: nat, stop: nat, cur: nat): PieceView
    requires ConfigOk(c) && StolenFrom(c, p, start, stop) && start <= cur <= stop && v.blockLength > 0
  {
    match AtRangeEnd(c, p, start, stop, cur)
    case Marking(_, _, _, next, last) => MarkedRange(v, next, last)
    case _ => v
  }

  /** In every run from a fresh start in which the responses to stolen ranges ended at block boundaries so far: a
      worker whose response to [start, stop) ends at cur marks only blocks that are on disk. */
  ghost predicate EofSafe(c: Config, p: nat, start: nat, stop: nat, cur: nat)
    requires ConfigOk(c) && StolenFrom(c, p, start, stop) && start <= cur <= stop
  {
    forall s0, s, w ::
      Init(c, s0) && Reaches(c, s0, s) && Shape(c, s) && 0 <= w < |s.workers|
      && s.workers[w] == RangeReading(p, start, stop, cur) ==>
        SetGood(c, s.file, p, AfterRangeEnd(c, s.pieces[p], p, start, stop, cur).done)
  }

  /** Some theft of exactly this range takes the block of byte cur - 1, not done yet. */
  ghost predicate Exposed(c: Config, p: nat, start: nat, stop: nat, cur: nat)
    requires p < |c.layout| && c.layout[p].blockLength > 0
  {
    && c.workers >= 2 && Handed(c, p)
    && exists got :: Yields(c, p, got, start, stop) && c.layout[p].IndexOf(cur - 1) !in got
  }

  // ----- safe responses -----

  lemma BoundaryIsSafe(c: Config, p: nat, start: nat, stop: nat, cur: nat, s: State, w: nat)
    requires ConfigOk(c) && StolenFrom(c, p, start, stop) && start <= cur <= stop && AtBoundary(c, p, stop, cur)
    requires Shape(c, s) && Honest(c, s) && w < |s.workers| && s.workers[w] == RangeReading(p, start, stop, cur)
    ensures SetGood(c, s.file, p, AfterRangeEnd(c, s.pieces[p], p, start, stop, cur).done)
  {
    RangeEndShape(c, p, start, stop, cur);
    RangeEndGood(c, s.file, p, start, stop, cur);
    assert SetGood(c, s.file, p, s.pieces[p].done);
  }

  /** A response that ends in a block that is done already. */
  lemma DoneBlockIsSafe(c: Config, p: nat, start: nat, stop: nat, cur: nat, s: State, w: nat)
    requires ConfigOk(c) && StolenFrom(c, p, start, stop) && start < cur <= stop
    requires Shape(c, s) && Honest(c, s) && w < |s.workers| && s.workers[w] == RangeReading(p, start, stop, cur)
    requires c.layout[p].IndexOf(cur - 1) in s.pieces[p].done
    ensures SetGood(c, s.file, p, AfterRangeEnd(c, s.pieces[p], p, start, stop, cur).done)
  {
    DoneBlockGood(c, p, start, stop, cur, s, w);
    RangeEndShape(c, p, start, stop, cur);
    assert SetGood(c, s.file, p, s.pieces[p].done);
  }

  lemma DoneBlockGood(c: Config, p: nat, start: nat, stop: nat, cur: nat, s: State, w: nat)
    requires ConfigOk(c) && StolenFrom(c, p, start, stop) && start < cur <= stop
    requires Shape(c, s) && Honest(c, s) && w < |s.workers| && s.workers[w] == RangeReading(p, start, stop, cur)
    requires c.layout[p].IndexOf(cur - 1) in s.pieces[p].done
    ensures WorkerShape(c, AtRangeEnd(c, p, start, stop, cur)) && WorkerGood(c, s.file, AtRangeEnd(c, p, start, stop, cur))
  {
    var v := c.layout[p];
    GeometryFacts(c, p);
    RangeEndShape(c, p, start, stop, cur);
    IndexOfContains(v, start);
    IndexOfContains(v, cur - 1);
    var last := v.IndexOf(cur - 1);
    assert SetGood(c, s.file, p, s.pieces[p].done);
    assert Good(c, s.file, start, cur);
    forall b: nat | v.IndexOf(start) <= b < last
      ensures BlockGood(c, s.file, p, b)
    {
      BlocksDisjoint(v, b, last);
      if v.IndexOf(start) < b {
        BlocksDisjoint(v, v.IndexOf(start), b);
      }
    }
  }

  lemma SafeUnlessExposed(c: Config, p: nat, start: nat, stop: nat, cur: nat)
    requires ConfigOk(c) && StolenFrom(c, p, start, stop) && start <= cur <= stop
    requires AtBoundary(c, p, stop, cur) || !Exposed(c, p, start, stop, cur)
    ensures EofSafe(c, p, start, stop, cur)
  {
    forall s0, s, w | Init(c, s0) && Reaches(c, s0, s) && Shape(c, s) && 0 <= w < |s.workers|
                      && s.workers[w] == RangeReading(p, start, stop, cur)
      ensures SetGood(c, s.file, p, AfterRangeEnd(c, s.pieces[p], p, start, stop, cur).done)
    {
      var steps :| CleanRun(c, s0, steps, s);
      DoneBitsNeverLie(c, s0, steps, s);
      if AtBoundary(c, p, stop, cur) || cur == start {
        StartIsBoundary(c, p, start, stop);
        BoundaryIsSafe(c, p, start, stop, cur, s, w);
      } else {
        CleanIsRun(c, s0, steps, s);
        RangesAreThefts(c, s0, steps, s, w);
        DoneBlockIsSafe(c, p, start, stop, cur, s, w);
      }
    }
  }

  lemma StartIsBoundary(c: Config, p: nat, start: nat, stop: nat)
    requires ConfigOk(c) && StolenFrom(c, p, start, stop)
    ensures AtBoundary(c, p, stop, start)
  {
    MultipleOf(c.layout[p].IndexOf(start), c.layout[p].blockLength);
  }

  lemma InsideRange(c: Config, p: nat, start: nat, stop: nat, cur: nat)
    requires ConfigOk(c) && StolenFrom(c, p, start, stop) && start <= cur <= stop && !AtBoundary(c, p, stop, cur)
    ensures start < cur < stop
  {
    StartIsBoundary(c, p, start, stop);
  }

  lemma MultipleOf(b: nat, m: nat)
    requires m > 0
    ensures (b * m) % m == 0
  {
    if b > 0 {
      MulStep(b - 1, m);
      RemainderOfBlock(b * m, m, b - 1);
    }
  }

  // ----- responses that lie -----

  lemma NotFull(c: Config, p: nat, got: set<nat>, start: nat, stop: nat)
    requires ConfigOk(c) && p < |c.layout| && c.layout[p].blockLength > 0 && Yields(c, p, got, start, stop)
    ensures !(AllBlocks(c.layout[p].N()) <= got)
  {
    GeometryFacts(c, p);
    StealSucceedsIff(c.layout[p].(done := got), c.minSteal);
  }

  /** The run that leads to the response: the owner has fetched the blocks in `got`, and no byte from cur on of the
      other blocks of the piece is right. */
  lemma ResponseAt(c: Config, p: nat, got: set<nat>, start: nat, stop: nat, cur: nat) returns (s0: State, t: State)
    requires ConfigOk(c) && StolenFrom(c, p, start, stop) && start < cur <= stop
    requires c.workers >= 2 && Handed(c, p) && Yields(c, p, got, start, stop)
    ensures Init(c, s0) && Reaches(c, s0, t) && Shape(c, t) && |t.workers| >= 2
    ensures t.workers[1] == RangeReading(p, start, stop, cur) && t.pieces[p].done == got
    ensures Wrong(c, t.file, p, got, cur)
  {
    s0 := WrongStart(c);
    var m := OwnerHas(c, s0, p, got, start, stop);
    t := ThiefReads(c, m, p, got, start, stop, cur);
    ReachesJoin(c, s0, m, t);
    StillWrong(c, m, t, p, got, cur);
  }

  /** No byte from cur on in the blocks of piece p outside `got` is right. */
  ghost predicate Wrong(c: Config, file: seq<byte>, p: nat, got: set<nat>, cur: nat)
    requires p < |c.layout| && c.layout[p].blockLength > 0 && |file| == |c.source|
  {
    forall k :: cur <= k < |file| && InPieceBytes(c, p, k) && c.layout[p].IndexOf(k) !in got ==> file[k] != c.source[k]
  }

  lemma OwnerHas(c: Config, s0: State, p: nat, got: set<nat>, start: nat, stop: nat) returns (t: State)
    requires ConfigOk(c) && s0 == WrongStart(c) && p < |c.layout| && c.layout[p].blockLength > 0
    requires c.workers >= 2 && Handed(c, p) && Yields(c, p, got, start, stop)
    ensures Reaches(c, s0, t) && Shape(c, t) && |t.workers| >= 2 && t.workers[1] == Looking && OnlyActive(t, p)
    ensures t.pieces[p].status == Active && t.pieces[p].owner == 1 && t.pieces[p].done == got
    ensures Wrong(c, t.file, p, got, 0)
  {
    NotFull(c, p, got, start, stop);
    WrongStartIsInit(c);
    var end;
    t, end := OwnerStops(c, s0, p, got);
    OwnerView(c, p, got);
    WrongFrom(c, s0.file, t.file, p, got);
  }

  lemma WrongStartIsInit(c: Config)
    requires ConfigOk(c)
    ensures Init(c, WrongStart(c)) && forall k :: 0 <= k < |c.source| ==> WrongStart(c).file[k] != c.source[k]
  {
  }

  lemma OwnerView(c: Config, p: nat, got: set<nat>)
    requires ConfigOk(c) && p < |c.layout| && c.layout[p].blockLength > 0
    requires got <= AllBlocks(c.layout[p].N()) && !(AllBlocks(c.layout[p].N()) <= got)
    ensures var v := StoppedView(Activated(c.layout[p], 1), got, c.layout[p].N());
            v.status == Active && v.owner == 1 && v.done == got
  {
    GeometryFacts(c, p);
    PartOfReady(Activated(c.layout[p], 1), got);
  }

  lemma WrongFrom(c: Config, file: seq<byte>, file': seq<byte>, p: nat, got: set<nat>)
    requires p < |c.layout| && c.layout[p].blockLength > 0 && |file| == |file'| == |c.source|
    requires forall k :: 0 <= k < |file| ==> file[k] != c.source[k]
    requires forall k :: 0 <= k < |file| && InPieceBytes(c, p, k) && c.layout[p].IndexOf(k) !in got ==> file'[k] == file[k]
    ensures Wrong(c, file', p, got, 0)
  {
  }

  lemma StillWrong(c: Config, s: State, t: State, p: nat, got: set<nat>, cur: nat)
    requires p < |c.layout| && c.layout[p].blockLength > 0 && |s.file| == |t.file| == |c.source| && Wrong(c, s.file, p, got, 0)
    requires forall k :: cur <= k < |s.file| && InPieceBytes(c, p, k) ==> t.file[k] == s.file[k]
    ensures Wrong(c, t.file, p, got, cur)
  {
  }

  lemma ThiefReads(c: Config, s: State, p: nat, got: set<nat>, start: nat, stop: nat, cur: nat) returns (t: State)
    requires ConfigOk(c) && StolenFrom(c, p, start, stop) && start < cur <= stop && Yields(c, p, got, start, stop)
    requires Shape(c, s) && |s.workers| >= 2 && s.workers[1] == Looking && OnlyActive(s, p)
    requires s.pieces[p].status == Active && s.pieces[p].owner == 1 && s.pieces[p].done == got
    ensures Reaches(c, s, t) && Shape(c, t) && OnlyActive(t, p) && MayPick(c.selector, t.pieces, -1)
    ensures t.workers == s.workers[1 := RangeReading(p, start, stop, cur)]
    ensures t.pieces[p] == s.pieces[p].AfterSteal(c.minSteal) && t.failed == s.failed && t.cancelled == s.cancelled
    ensures forall k :: cur <= k < |s.file| && InPieceBytes(c, p, k) ==> t.file[k] == s.file[k]
  {
    var m := ThiefTakes(c, s, p, got, start, stop);
    t := ReadsRange(c, m, 1, p, start, stop, cur);
    ReachesJoin(c, s, m, t);
    assert s.workers[1 := Ranging(p, start, stop)][1 := RangeReading(p, start, stop, cur)]
        == s.workers[1 := RangeReading(p, start, stop, cur)];
  }

  lemma MisalignedByte(c: Config, p: nat, start: nat, stop: nat, cur: nat)
    requires ConfigOk(c) && StolenFrom(c, p, start, stop) && start < cur <= stop && !AtBoundary(c, p, stop, cur)
    ensures var v := c.layout[p];
            var b := v.IndexOf(cur - 1);
            && 0 <= v.IndexOf(start) <= b < v.N() && InPieceBytes(c, p, cur) && cur < |c.source|
            && v.IndexOf(cur) == b && v.BlockStart(b) <= cur < v.BlockEnd(b)
  {
    GeometryFacts(c, p);
    var v := c.layout[p];
    IndexOfContains(v, start);
    IndexOfContains(v, cur - 1);
    IndexOfMonotone(v, start, cur - 1);
    BoundaryEndsBlock(c, p, start, stop, cur);
    BlockOf(v, v.IndexOf(cur - 1), cur);
  }

  lemma ExposedIsUnsafe(c: Config, p: nat, start: nat, stop: nat, cur: nat)
    requires ConfigOk(c) && StolenFrom(c, p, start, stop) && start <= cur <= stop
    requires !AtBoundary(c, p, stop, cur) && Exposed(c, p, start, stop, cur)
    ensures !EofSafe(c, p, start, stop, cur)
  {
    InsideRange(c, p, start, stop, cur);
    var got :| Yields(c, p, got, start, stop) && c.layout[p].IndexOf(cur - 1) !in got;
    var s0, s := ResponseAt(c, p, got, start, stop, cur);
    EndMarksWrong(c, p, got, start, stop, cur, s.file, s.pieces[p]);
  }

  lemma EndMarksWrong(c: Config, p: nat, got: set<nat>, start: nat, stop: nat, cur: nat, file: seq<byte>, v: PieceView)
    requires ConfigOk(c) && StolenFrom(c, p, start, stop) && start < cur <= stop && !AtBoundary(c, p, stop, cur)
    requires |file| == |c.source| && Wrong(c, file, p, got, cur) && c.layout[p].IndexOf(cur - 1) !in got
    requires v.blockLength > 0 && v.N() == c.layout[p].N()
    ensures !SetGood(c, file, p, AfterRangeEnd(c, v, p, start, stop, cur).done)
  {
    MisalignedByte(c, p, start, stop, cur);
    var b := c.layout[p].IndexOf(cur - 1);
    assert b in AfterRangeEnd(c, v, p, start, stop, cur).done;
    assert !BlockGood(c, file, p, b);
  }

  /** In the runs of the download, the end of a stolen range's response at cur is safe if and only if it comes at the
      range's end or a multiple of the block length into the piece, or no theft of this range takes the block of the
      last byte while it is missing. */
  lemma EofSafeIff(c: Config, p: nat, start: nat, stop: nat, cur: nat)
    requires ConfigOk(c) && StolenFrom(c, p, start, stop) && start <= cur <= stop
    ensures EofSafe(c, p, start, stop, cur) <==> AtBoundary(c, p, stop, cur) || !Exposed(c, p, start, stop, cur)
  {
    if AtBoundary(c, p, stop, cur) || !Exposed(c, p, start, stop, cur) {
      SafeUnlessExposed(c, p, start, stop, cur);
    } else {
      ExposedIsUnsafe(c, p, start, stop, cur);
    }
  }
}
