/** A done bit never lies about the bytes on disk, over every run of the download protocol. */
module ProtocolSafety {
  import opened Bits
  import opened Arithmetic
  import opened Blocks
  import opened Pieces
  import opened Selection
  import opened Protocol
  import Split

  /** Bytes [lo, hi) of the file are the server's. */
  ghost predicate Good(c: Config, file: seq<byte>, lo: nat, hi: nat)
    requires |file| == |c.source|
  {
    forall k :: lo <= k < hi && k < |file| ==> file[k] == c.source[k]
  }

  ghost predicate BlockGood(c: Config, file: seq<byte>, p: nat, b: nat)
    requires |file| == |c.source| && InPiece(c, p, b)
  {
    Good(c, file, c.layout[p].BlockStart(b), c.layout[p].BlockEnd(b))
  }

  /** Every block of the set is on disk. */
  ghost predicate SetGood(c: Config, file: seq<byte>, p: nat, done: set<nat>)
    requires |file| == |c.source| && p < |c.layout| && c.layout[p].blockLength > 0
  {
    done <= AllBlocks(c.layout[p].N()) && forall b :: b in done ==> BlockGood(c, file, p, b)
  }

  /** What a worker's local variables promise about the file. */
  ghost predicate WorkerGood(c: Config, file: seq<byte>, x: Worker)
    requires |file| == |c.source| && WorkerShape(c, x)
  {
    match x
    case Reading(p, _, b, cur, _, _) => Good(c, file, c.layout[p].BlockStart(b), cur)
    case BlockRead(p, _, b, _, _) => BlockGood(c, file, p, b)
    case RangeReading(p, start, stop, cur) => Good(c, file, start, cur)
    case Marking(p, _, _, next, last) => forall b: nat :: next <= b <= last ==> BlockGood(c, file, p, b)
    case _ => true
  }

  /** The safety invariant. */
  ghost predicate Honest(c: Config, s: State)
    requires Shape(c, s)
  {
    && (forall p :: 0 <= p < |s.pieces| ==> SetGood(c, s.file, p, s.pieces[p].done))
    && (forall p :: 0 <= p < |s.saved| ==> SetGood(c, s.file, p, s.saved[p]))
    && (forall p :: 0 <= p < |s.snap| ==> SetGood(c, s.file, p, s.snap[p]))
    && forall w :: 0 <= w < |s.workers| ==> WorkerGood(c, s.file, s.workers[w])
  }

  /** Bytes that were right stay right. */
  ghost predicate Grows(c: Config, file: seq<byte>, file': seq<byte>)
    requires |file| == |c.source|
  {
    |file'| == |file| && forall k :: 0 <= k < |file| && file[k] == c.source[k] ==> file'[k] == c.source[k]
  }

  lemma WriteGrows(c: Config, file: seq<byte>, cur: nat, n: nat)
    requires |file| == |c.source| && cur + n <= |file|
    ensures Grows(c, file, FileWith(file, c.source, cur, n))
    ensures forall lo: nat :: Good(c, file, lo, cur) ==> Good(c, FileWith(file, c.source, cur, n), lo, cur + n)
  {
  }

  /** The end of a stolen range's response comes at a block boundary: the last block it touched is whole. */
  ghost predicate AtBoundary(c: Config, p: nat, stop: nat, cur: nat)
    requires p < |c.layout| && c.layout[p].blockLength > 0
  {
    cur == stop || (cur - c.layout[p].start) % c.layout[p].blockLength == 0
  }

  ghost predicate Clean(c: Config, s: State, st: Step)
    requires Shape(c, s) && Enabled(c, s, st)
  {
    match st
    case Act(w, Eof) =>
      (match s.workers[w]
       case RangeReading(p, _, stop, cur) => AtBoundary(c, p, stop, cur)
       case _ => true)
    case _ => true
  }

  /** One effect keeps the shape of the state: same geometry, sane worker variables, a file of the same size. */
  ghost predicate EffectShape(c: Config, s: State, e: Effect)
    requires Shape(c, s)
  {
    && |e.file| == |s.file| && e.p < |s.pieces| && e.view.WF()
    && e.view.start == s.pieces[e.p].start && e.view.length == s.pieces[e.p].length
    && e.view.blockLength == s.pieces[e.p].blockLength
    && WorkerShape(c, e.worker)
  }

  /** One effect keeps what is right on disk, marks no block that is not, and leaves the worker's promises true. */
  ghost predicate EffectHonest(c: Config, s: State, e: Effect)
    requires Shape(c, s) && EffectShape(c, s, e)
  {
    && Grows(c, s.file, e.file)
    && (forall b :: b in e.view.done && b !in s.pieces[e.p].done ==> BlockGood(c, e.file, e.p, b))
    && WorkerGood(c, e.file, e.worker)
  }

  ghost predicate Moves(c: Config, s: State, w: nat, m: Move) {
    ConfigOk(c) && Shape(c, s) && w < |s.workers| && CanMove(c, s, w, m)
  }

  lemma GeometryFacts(c: Config, p: nat)
    requires ConfigOk(c) && p < |c.layout|
    ensures c.layout[p].blockLength == DEFAULT_BLOCK_LENGTH && c.layout[p].length > 0
    ensures c.layout[p].start + c.layout[p].length <= |c.source|
    ensures c.layout[p] == Split.Fresh(c.layout[p].start, c.layout[p].length)
  {
    var last := c.layout[p].start + c.layout[p].length - 1;
    Split.OffsetInOnePiece(c.layout, |c.source|, last);
    assert c.layout[p].start <= last < c.layout[p].start + c.layout[p].length;
  }

  /** A request for blocks of a piece may ask for bytes up to its end at least, never past the end of the file, and not
      for a byte of the next piece once another worker has begun that one. */
  lemma EndOffsetBounds(c: Config, s: State, p: nat)
    requires ConfigOk(c) && Shape(c, s) && p < |s.pieces|
    ensures var end := EndOffset(s.pieces, p, |s.file|);
            && s.pieces[p].start + s.pieces[p].length - 1 <= end < |s.file|
            && (p + 1 < |s.pieces| && s.pieces[p + 1].status == Active ==> end < s.pieces[p + 1].start)
  {
    GeometryFacts(c, p);
    if p + 1 < |s.pieces| {
      Split.PiecesInOrder(c.layout, |c.source|, p, p + 1);
    }
  }

  /** A request for a block of piece p asks for a byte further on if and only if that is a byte of the file, and of p
      itself unless the next piece is not being downloaded at the moment. */
  lemma RequestReachesIff(c: Config, s: State, p: nat, b: nat, k: nat)
    requires ConfigOk(c) && Shape(c, s) && p < |s.pieces| && s.pieces[p].blockLength > 0 && b < s.pieces[p].N()
    requires k >= s.pieces[p].BlockStart(b)
    ensures k < RequestLimit(s.pieces[p].BlockEnd(b), EndOffset(s.pieces, p, |s.file|), |s.file|) <==>
              && k < |c.source|
              && (k < c.layout[p].start + c.layout[p].length
                  || (p + 1 < |s.pieces| && s.pieces[p + 1].status != Active))
  {
    GeometryFacts(c, p);
    BlockBounds(s.pieces[p], b);
    EndOffsetBounds(c, s, p);
  }

  /** Moves that touch neither the file nor a done bit. */
  lemma LookingEffect(c: Config, s: State, w: nat, m: Move)
    requires Moves(c, s, w, m) && s.workers[w].Looking?
    ensures EffectShape(c, s, EffectOf(c, s, w, m)) && EffectHonest(c, s, EffectOf(c, s, w, m))
  {
  }

  lemma QuietEffect(c: Config, s: State, w: nat, m: Move)
    requires Moves(c, s, w, m) && (s.workers[w].Claimed? || s.workers[w].Releasing? || s.workers[w].Finishing?)
    ensures EffectShape(c, s, EffectOf(c, s, w, m)) && EffectHonest(c, s, EffectOf(c, s, w, m))
  {
    if s.workers[w].Claimed? {
      ClaimedEffect(c, s, w, m);
    }
  }

  lemma ClaimedEffect(c: Config, s: State, w: nat, m: Move)
    requires Moves(c, s, w, m) && s.workers[w].Claimed?
    ensures EffectShape(c, s, EffectOf(c, s, w, m)) && EffectHonest(c, s, EffectOf(c, s, w, m))
  {
  }

  lemma HoldingEffect(c: Config, s: State, w: nat, m: Move)
    requires Moves(c, s, w, m) && s.workers[w].Holding?
    ensures EffectShape(c, s, EffectOf(c, s, w, m)) && EffectHonest(c, s, EffectOf(c, s, w, m))
  {
    var p := s.workers[w].p;
    GeometryFacts(c, p);
    if m.Request? {
      BlockBounds(s.pieces[p], s.pieces[p].NextBlock());
    }
  }

  lemma FetchingEffect(c: Config, s: State, w: nat, m: Move)
    requires Moves(c, s, w, m) && s.workers[w].Fetching?
    ensures EffectShape(c, s, EffectOf(c, s, w, m)) && EffectHonest(c, s, EffectOf(c, s, w, m))
  {
    var x := s.workers[w];
    GeometryFacts(c, x.p);
    BlockBounds(c.layout[x.p], x.blk);
  }

  lemma ReadingEffect(c: Config, s: State, w: nat, m: Move)
    requires Moves(c, s, w, m) && s.workers[w].Reading?
    ensures EffectShape(c, s, EffectOf(c, s, w, m))
    ensures WorkerGood(c, s.file, s.workers[w]) ==> EffectHonest(c, s, EffectOf(c, s, w, m))
  {
    var x := s.workers[w];
    if m.Receive? || m.BreakOff? {
      WriteGrows(c, s.file, x.cur, m.n);
    }
  }

  lemma BlockReadEffect(c: Config, s: State, w: nat, m: Move)
    requires Moves(c, s, w, m) && s.workers[w].BlockRead?
    ensures EffectShape(c, s, EffectOf(c, s, w, m))
    ensures WorkerGood(c, s.file, s.workers[w]) ==> EffectHonest(c, s, EffectOf(c, s, w, m))
  {
  }

  lemma AdvancingEffect(c: Config, s: State, w: nat, m: Move)
    requires Moves(c, s, w, m) && s.workers[w].Advancing?
    ensures EffectShape(c, s, EffectOf(c, s, w, m)) && EffectHonest(c, s, EffectOf(c, s, w, m))
  {
    var p := s.workers[w].p;
    GeometryFacts(c, p);
    if m.Continue? && s.pieces[p].NextBlock() >= 0 {
      BlockBounds(c.layout[p], s.pieces[p].NextBlock());
    }
  }

  lemma ProbingEffect(c: Config, s: State, w: nat, m: Move)
    requires Moves(c, s, w, m) && s.workers[w].Probing?
    ensures EffectShape(c, s, EffectOf(c, s, w, m)) && EffectHonest(c, s, EffectOf(c, s, w, m))
  {
    var i := s.workers[w].i;
    if m.Probe? {
      GeometryFacts(c, i);
      StolenShape(c, s.pieces[i], i);
    }
  }

  lemma StolenShape(c: Config, v: PieceView, i: nat)
    requires ConfigOk(c) && i < |c.layout| && v.WF()
    requires v.start == c.layout[i].start && v.length == c.layout[i].length && v.blockLength == c.layout[i].blockLength
    ensures v.length > 0 && WorkerShape(c, Stolen(v, i, c.minSteal))
  {
    GeometryFacts(c, i);
    if v.Steal(c.minSteal).Range? {
      StealIsFair(v, c.minSteal);
      IndexOfBlockStart(v, v.StealStart());
      BlockBounds(v, v.StealStart());
    }
  }

  lemma RangingEffect(c: Config, s: State, w: nat, m: Move)
    requires Moves(c, s, w, m) && s.workers[w].Ranging?
    ensures EffectShape(c, s, EffectOf(c, s, w, m)) && EffectHonest(c, s, EffectOf(c, s, w, m))
  {
  }

  lemma CheckingEffect(c: Config, s: State, w: nat, m: Move)
    requires Moves(c, s, w, m) && s.workers[w].Checking?
    ensures EffectShape(c, s, EffectOf(c, s, w, m)) && EffectHonest(c, s, EffectOf(c, s, w, m))
  {
  }

  lemma RangeReadingEffect(c: Config, s: State, w: nat, m: Move)
    requires Moves(c, s, w, m) && s.workers[w].RangeReading?
    ensures EffectShape(c, s, EffectOf(c, s, w, m))
    ensures WorkerGood(c, s.file, s.workers[w]) && Clean(c, s, Act(w, m)) ==> EffectHonest(c, s, EffectOf(c, s, w, m))
  {
    var x := s.workers[w];
    if m.Eof? {
      RangeEndShape(c, x.p, x.start, x.stop, x.cur);
      if WorkerGood(c, s.file, x) && Clean(c, s, Act(w, m)) {
        RangeEndGood(c, s.file, x.p, x.start, x.stop, x.cur);
      }
    } else {
      WriteGrows(c, s.file, x.cur, m.n);
    }
  }

  lemma RangeEndShape(c: Config, p: nat, start: nat, stop: nat, cur: nat)
    requires ConfigOk(c) && StolenFrom(c, p, start, stop) && start <= cur <= stop
    ensures WorkerShape(c, AtRangeEnd(c, p, start, stop, cur))
  {
    GeometryFacts(c, p);
    if cur > start {
      IndexOfContains(c.layout[p], start);
      IndexOfContains(c.layout[p], cur - 1);
      IndexOfMonotone(c.layout[p], start, cur - 1);
    }
  }

  /** At a block boundary the last block touched ends where writing stopped. */
  lemma BoundaryEndsBlock(c: Config, p: nat, start: nat, stop: nat, cur: nat)
    requires ConfigOk(c) && StolenFrom(c, p, start, stop) && start < cur <= stop
    ensures c.layout[p].BlockEnd(c.layout[p].IndexOf(cur - 1)) <= cur <==> AtBoundary(c, p, stop, cur)
  {
    GeometryFacts(c, p);
    IndexOfContains(c.layout[p], cur - 1);
    BlockOfLastByte(c.layout[p], c.layout[p].IndexOf(cur - 1), cur - c.layout[p].start);
  }

  /** The block holding byte x - 1 of the piece ends at x exactly when x is the piece's length or a multiple of
      the block length. */
  lemma BlockOfLastByte(v: PieceView, b: nat, x: nat)
    requires v.blockLength > 0 && 0 < x <= v.length && b < v.N()
    requires v.BlockStart(b) < v.start + x <= v.BlockEnd(b)
    ensures v.BlockEnd(b) <= v.start + x <==> x == v.length || x % v.blockLength == 0
  {
    var m := v.blockLength;
    BlockBounds(v, b);
    MulStep(b, m);
    BlockRange(v.length, m, b);
    RemainderOfBlock(x, m, b);
    LastBlockReachesEnd(v.length, m);
    if b + 1 == v.N() {
      assert x == (b + 1) * m ==> x == v.length;
    } else {
      assert v.BlockEnd(b) == v.start + (b + 1) * m;
    }
  }

  /** Within (b * m, (b + 1) * m] only the upper end is a multiple of m. */
  lemma RemainderOfBlock(x: nat, m: nat, b: nat)
    requires m > 0 && b * m < x <= (b + 1) * m
    ensures x % m == 0 <==> x == (b + 1) * m
  {
    assert x == x / m * m + x % m;
    MulStep(x / m, m);
    if x / m <= b {
      MulMonotone(x / m, b, m);
      if x / m < b {
        MulMonotone(x / m + 1, b, m);
      }
      MulStep(b, m);
    } else {
      MulMonotone(b + 1, x / m, m);
    }
  }

  lemma RangeEndGood(c: Config, file: seq<byte>, p: nat, start: nat, stop: nat, cur: nat)
    requires ConfigOk(c) && StolenFrom(c, p, start, stop) && start <= cur <= stop && |file| == |c.source|
    requires Good(c, file, start, cur) && AtBoundary(c, p, stop, cur)
    requires WorkerShape(c, AtRangeEnd(c, p, start, stop, cur))
    ensures WorkerGood(c, file, AtRangeEnd(c, p, start, stop, cur))
  {
    if cur > start {
      var v := c.layout[p];
      GeometryFacts(c, p);
      IndexOfContains(v, start);
      IndexOfContains(v, cur - 1);
      BoundaryEndsBlock(c, p, start, stop, cur);
      forall b: nat | v.IndexOf(start) <= b <= v.IndexOf(cur - 1)
        ensures BlockGood(c, file, p, b)
      {
        if b < v.IndexOf(cur - 1) {
          BlocksDisjoint(v, b, v.IndexOf(cur - 1));
        }
        if v.IndexOf(start) < b {
          BlocksDisjoint(v, v.IndexOf(start), b);
        }
      }
    }
  }

  lemma MarkingEffect(c: Config, s: State, w: nat, m: Move)
    requires Moves(c, s, w, m) && s.workers[w].Marking?
    ensures EffectShape(c, s, EffectOf(c, s, w, m))
    ensures WorkerGood(c, s.file, s.workers[w]) ==> EffectHonest(c, s, EffectOf(c, s, w, m))
  {
  }

  lemma IndexOfMonotone(v: PieceView, lo: nat, hi: nat)
    requires v.blockLength > 0 && v.length > 0 && v.start <= lo <= hi < v.start + v.length
    ensures v.IndexOf(lo) <= v.IndexOf(hi)
  {
    IndexOfContains(v, lo);
    IndexOfContains(v, hi);
    if v.IndexOf(hi) < v.IndexOf(lo) {
      BlocksDisjoint(v, v.IndexOf(hi), v.IndexOf(lo));
    }
  }

  lemma AnyEffect(c: Config, s: State, w: nat, m: Move)
    requires Moves(c, s, w, m)
    ensures EffectShape(c, s, EffectOf(c, s, w, m))
    ensures WorkerGood(c, s.file, s.workers[w]) && Clean(c, s, Act(w, m)) ==> EffectHonest(c, s, EffectOf(c, s, w, m))
  {
    match s.workers[w]
    case Holding(_, _) => HoldingEffect(c, s, w, m);
    case Fetching(_, _, _, _) => FetchingEffect(c, s, w, m);
    case Reading(_, _, _, _, _, _) => ReadingEffect(c, s, w, m);
    case BlockRead(_, _, _, _, _) => BlockReadEffect(c, s, w, m);
    case Advancing(_, _, _, _) => AdvancingEffect(c, s, w, m);
    case Probing(_) => ProbingEffect(c, s, w, m);
    case RangeReading(_, _, _, _) => RangeReadingEffect(c, s, w, m);
    case Marking(_, _, _, _, _) => MarkingEffect(c, s, w, m);
    case Ranging(_, _, _) => RangingEffect(c, s, w, m);
    case Checking(_, _, _) => CheckingEffect(c, s, w, m);
    case Looking => LookingEffect(c, s, w, m);
    case Exited =>
    case Failed =>
    case _ => QuietEffect(c, s, w, m);
  }

  ghost predicate Steps(c: Config, s: State, st: Step) {
    ConfigOk(c) && Shape(c, s) && Enabled(c, s, st)
  }

  lemma AfterShape(c: Config, s: State, w: nat, m: Move, e: Effect)
    requires Shape(c, s) && w < |s.workers| && EffectShape(c, s, e)
    ensures Shape(c, After(s, w, m, e))
  {
  }

  lemma ApplyShape(c: Config, s: State, st: Step)
    requires Steps(c, s, st)
    ensures Shape(c, Apply(c, s, st))
  {
    match st
    case Act(w, m) =>
      AnyEffect(c, s, w, m);
      AfterShape(c, s, w, m, EffectOf(c, s, w, m));
    case _ => SystemShape(c, s, st);
  }

  lemma SystemShape(c: Config, s: State, st: Step)
    requires Steps(c, s, st) && !st.Act?
    ensures Shape(c, Apply(c, s, st))
  {
    if st.Restart? {
      RestartShape(c, s, st.resume);
    } else {
      SnapShape(c, s, st);
    }
  }

  lemma RestartShape(c: Config, s: State, resume: bool)
    requires ConfigOk(c) && Shape(c, s)
    ensures Shape(c, Apply(c, s, Restart(resume)))
  {
    var t := Apply(c, s, Restart(resume));
    forall i | 0 <= i < |c.layout|
      ensures t.pieces[i].WF()
    {
      GeometryFacts(c, i);
    }
  }

  lemma SnapShape(c: Config, s: State, st: Step)
    requires Steps(c, s, st) && (st.SnapPiece? || st.SnapCommit? || st.SnapDrop?)
    ensures Shape(c, Apply(c, s, st))
  {
    if st.SnapPiece? {
      assert s.pieces[|s.snap|].WF();
    }
    SavedShape(c, s, Apply(c, s, st));
  }

  /** Only the copies of bitmaps changed. */
  lemma SavedShape(c: Config, s: State, t: State)
    requires Shape(c, s) && t.file == s.file && t.pieces == s.pieces && t.workers == s.workers
    requires t.saved == s.saved || (t.saved == s.snap && |s.snap| == |c.layout|)
    requires t.snap == [] || (|s.snap| < |s.pieces| && t.snap == s.snap + [s.pieces[|s.snap|].done])
    ensures Shape(c, t)
  {
  }

  lemma GoodGrows(c: Config, file: seq<byte>, file': seq<byte>)
    requires |file| == |c.source| && Grows(c, file, file')
    ensures forall p: nat, done :: p < |c.layout| && c.layout[p].blockLength > 0 && SetGood(c, file, p, done) ==>
              SetGood(c, file', p, done)
    ensures forall x :: WorkerShape(c, x) && WorkerGood(c, file, x) ==> WorkerGood(c, file', x)
  {
    forall p: nat, b: nat | InPiece(c, p, b) && BlockGood(c, file, p, b)
      ensures BlockGood(c, file', p, b)
    {
    }
  }

  lemma AfterHonest(c: Config, s: State, w: nat, m: Move, e: Effect)
    requires Shape(c, s) && Honest(c, s) && w < |s.workers| && EffectShape(c, s, e) && EffectHonest(c, s, e)
    requires Shape(c, After(s, w, m, e))
    ensures Honest(c, After(s, w, m, e))
  {
    GoodGrows(c, s.file, e.file);
    assert SetGood(c, e.file, e.p, s.pieces[e.p].done);
  }

  /** Every step keeps the invariant. */
  lemma ApplyHonest(c: Config, s: State, st: Step)
    requires Steps(c, s, st) && Honest(c, s) && Clean(c, s, st)
    ensures Shape(c, Apply(c, s, st)) && Honest(c, Apply(c, s, st))
  {
    ApplyShape(c, s, st);
    if st.Act? {
      AnyEffect(c, s, st.w, st.move);
      AfterHonest(c, s, st.w, st.move, EffectOf(c, s, st.w, st.move));
    } else if st.Restart? {
      RestartHonest(c, s, st.resume);
    } else {
      SnapHonest(c, s, st);
    }
  }

  lemma RestartHonest(c: Config, s: State, resume: bool)
    requires ConfigOk(c) && Shape(c, s) && Honest(c, s) && Shape(c, Apply(c, s, Restart(resume)))
    ensures Honest(c, Apply(c, s, Restart(resume)))
  {
    var t := Apply(c, s, Restart(resume));
    forall p | 0 <= p < |t.pieces|
      ensures SetGood(c, t.file, p, t.pieces[p].done)
    {
      assert SetGood(c, s.file, p, s.saved[p]);
    }
  }

  lemma SnapHonest(c: Config, s: State, st: Step)
    requires Steps(c, s, st) && Honest(c, s) && (st.SnapPiece? || st.SnapCommit? || st.SnapDrop?)
    requires Shape(c, Apply(c, s, st))
    ensures Honest(c, Apply(c, s, st))
  {
    var t := Apply(c, s, st);
    if st.SnapPiece? {
      assert SetGood(c, s.file, |s.snap|, s.pieces[|s.snap|].done);
    }
    SavedHonest(c, s, t);
  }

  /** Only the copies of bitmaps changed, each to one that was right. */
  lemma SavedHonest(c: Config, s: State, t: State)
    requires Shape(c, s) && Honest(c, s) && Shape(c, t)
    requires t.file == s.file && t.pieces == s.pieces && t.workers == s.workers
    requires t.saved == s.saved || (t.saved == s.snap && |s.snap| == |c.layout|)
    requires t.snap == [] || t.snap == s.snap
             || (|s.snap| < |c.layout| && t.snap == s.snap + [s.pieces[|s.snap|].done])
    ensures Honest(c, t)
  {
    forall p | 0 <= p < |t.snap|
      ensures SetGood(c, t.file, p, t.snap[p])
    {
      if p == |s.snap| {
        assert SetGood(c, s.file, p, s.pieces[p].done);
      } else {
        assert SetGood(c, s.file, p, s.snap[p]);
      }
    }
  }

  /** A run of steps from s to t. */
  ghost predicate Run(c: Config, s: State, steps: seq<Step>, t: State)
    requires ConfigOk(c)
    decreases |steps|
  {
    Shape(c, s) &&
    if steps == [] then s == t
    else Enabled(c, s, steps[0]) && Run(c, Apply(c, s, steps[0]), steps[1..], t)
  }

  lemma RunCons(c: Config, s: State, st: Step, rest: seq<Step>, t: State)
    requires ConfigOk(c)
    ensures Run(c, s, [st] + rest, t) <==> Shape(c, s) && Enabled(c, s, st) && Run(c, Apply(c, s, st), rest, t)
  {
    assert ([st] + rest)[1..] == rest;
  }

  ghost predicate Leads(c: Config, s: State, st: Step, t: State) {
    Steps(c, s, st) && Apply(c, s, st) == t
  }

  /** A run in which every stolen range's response ends at a block boundary. */
  ghost predicate CleanRun(c: Config, s: State, steps: seq<Step>, t: State)
    requires ConfigOk(c)
    decreases |steps|
  {
    Shape(c, s) &&
    if steps == [] then s == t
    else Enabled(c, s, steps[0]) && Clean(c, s, steps[0]) && CleanRun(c, Apply(c, s, steps[0]), steps[1..], t)
  }

  lemma InitShape(c: Config, s: State)
    requires ConfigOk(c) && Init(c, s)
    ensures Shape(c, s) && Honest(c, s)
  {
    forall i | 0 <= i < |c.layout|
      ensures c.layout[i].WF()
    {
      GeometryFacts(c, i);
    }
  }

  lemma {:induction false} CleanRunHonest(c: Config, s: State, steps: seq<Step>, t: State)
    requires ConfigOk(c) && CleanRun(c, s, steps, t) && Honest(c, s)
    ensures Shape(c, t) && Honest(c, t)
    decreases |steps|
  {
    if steps != [] {
      ApplyHonest(c, s, steps[0]);
      CleanRunHonest(c, Apply(c, s, steps[0]), steps[1..], t);
    }
  }

  /** In every state of every clean run, however the workers interleave, steal, fail, save and restart: each
      block whose done bit is set (in memory, in a running save, or in the control file) is on disk. */
  lemma DoneBitsNeverLie(c: Config, s0: State, steps: seq<Step>, t: State)
    requires ConfigOk(c) && Init(c, s0) && CleanRun(c, s0, steps, t)
    ensures Shape(c, t) && Honest(c, t)
    ensures forall p, b :: 0 <= p < |t.pieces| && b in t.pieces[p].done ==>
              && t.pieces[p].BlockEnd(b) <= |t.file| == |c.source|
              && forall k :: t.pieces[p].BlockStart(b) <= k < t.pieces[p].BlockEnd(b) ==> t.file[k] == c.source[k]
  {
    InitShape(c, s0);
    CleanRunHonest(c, s0, steps, t);
    forall p, b | 0 <= p < |t.pieces| && b in t.pieces[p].done
      ensures t.pieces[p].BlockEnd(b) <= |t.file|
      ensures forall k :: t.pieces[p].BlockStart(b) <= k < t.pieces[p].BlockEnd(b) ==> t.file[k] == c.source[k]
    {
      GeometryFacts(c, p);
      BlockBounds(t.pieces[p], b);
      assert BlockGood(c, t.file, p, b);
    }
  }

  /** When every piece is full, every byte of the file is the server's. */
  lemma FullMeansEqual(c: Config, s: State)
    requires ConfigOk(c) && Shape(c, s) && Honest(c, s) && AllFull(s.pieces)
    ensures s.file == c.source
  {
    forall k | 0 <= k < |s.file|
      ensures s.file[k] == c.source[k]
    {
      Split.OffsetInOnePiece(c.layout, |c.source|, k);
      var p :| 0 <= p < |c.layout| && c.layout[p].start <= k < c.layout[p].start + c.layout[p].length;
      FullPieceIsRight(c, s, p, k);
    }
  }

  lemma FullPieceIsRight(c: Config, s: State, p: nat, k: nat)
    requires ConfigOk(c) && Shape(c, s) && Honest(c, s) && p < |s.pieces| && s.pieces[p].blockLength > 0 && s.pieces[p].Full()
    requires c.layout[p].start <= k < c.layout[p].start + c.layout[p].length && k < |s.file|
    ensures s.file[k] == c.source[k]
  {
    GeometryFacts(c, p);
    IndexOfContains(c.layout[p], k);
    assert SetGood(c, s.file, p, s.pieces[p].done);
    assert c.layout[p].IndexOf(k) in s.pieces[p].done;
    assert BlockGood(c, s.file, p, c.layout[p].IndexOf(k));
  }
}
