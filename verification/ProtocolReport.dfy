/** When does a reported success mean that the file is right? */
module ProtocolReport {
  import opened Blocks
  import opened Pieces
  import opened Selection
  import opened Protocol
  import opened ProtocolSafety
  import opened ProtocolFinish
  import opened ProtocolMoves
  import opened ProtocolProgress
  import opened ProtocolThief
  import opened ProtocolEof
  import opened ProtocolExposed
  import opened ProtocolLie
  import Split

  // ----- saving and starting again -----

  /** Nobody has begun: all pieces are idle or full, and no block is claimed. */
  ghost predicate Resting(c: Config, s: State) {
    && ConfigOk(c) && Shape(c, s) && !s.failed && !s.cancelled && s.snap == []
    && (forall w :: 0 <= w < |s.workers| ==> s.workers[w] == Looking)
    && forall i :: 0 <= i < |s.pieces| ==>
         s.pieces[i].inUse == {} && s.pieces[i].status == if s.pieces[i].Full() then Complete else Idle
  }

  ghost predicate SameDone(s: State, t: State) {
    |t.pieces| == |s.pieces| && forall i :: 0 <= i < |s.pieces| ==> t.pieces[i].done == s.pieces[i].done
  }

  /** The bitmaps copied so far are those of the pieces. */
  ghost predicate Copied(s: State) {
    |s.snap| <= |s.pieces| && forall i :: 0 <= i < |s.snap| ==> s.snap[i] == s.pieces[i].done
  }

  lemma NextStep(c: Config, s: State, st: Step) returns (t: State)
    requires Steps(c, s, st) && !st.Act?
    ensures t == Apply(c, s, st) && Shape(c, t) && Reaches(c, s, t)
  {
    ApplyShape(c, s, st);
    t := Apply(c, s, st);
    ReachesSelf(c, t);
    ReachesNext(c, s, st, t);
  }

  lemma {:induction false} CopiesAll(c: Config, s: State) returns (t: State)
    requires ConfigOk(c) && Shape(c, s) && Copied(s)
    ensures Reaches(c, s, t) && Shape(c, t) && Copied(t) && t == s.(snap := t.snap) && |t.snap| == |t.pieces|
    decreases |s.pieces| - |s.snap|
  {
    if |s.snap| == |s.pieces| {
      t := s;
      ReachesSelf(c, s);
    } else {
      var m := NextStep(c, s, SnapPiece);
      t := CopiesAll(c, m);
      ReachesJoin(c, s, m, t);
    }
  }

  /** A save of all pieces, one of which has a done block. */
  lemma Saves(c: Config, s: State) returns (t: State)
    requires ConfigOk(c) && Shape(c, s) && exists i :: 0 <= i < |s.pieces| && s.pieces[i].done != {}
    ensures Reaches(c, s, t) && Shape(c, t) && t == s.(snap := [], saved := t.saved)
    ensures |t.saved| == |s.pieces| && forall i :: 0 <= i < |s.pieces| ==> t.saved[i] == s.pieces[i].done
  {
    var m1 := NextStep(c, s, SnapDrop);
    var m2 := CopiesAll(c, m1);
    t := NextStep(c, m2, SnapCommit);
    ReachesJoin(c, s, m1, m2);
    ReachesJoin(c, s, m2, t);
  }

  /** A save and a restart that resumes from it: all done blocks are kept, and nothing else of the pieces. */
  lemma SavesAndRestarts(c: Config, s: State) returns (t: State)
    requires ConfigOk(c) && Shape(c, s) && exists i :: 0 <= i < |s.pieces| && s.pieces[i].done != {}
    ensures Reaches(c, s, t) && Resting(c, t) && SameDone(s, t) && t.file == s.file
  {
    var m := Saves(c, s);
    t := NextStep(c, m, Restart(true));
    ReachesJoin(c, s, m, t);
    Restarted(c, m, t);
  }

  lemma Restarted(c: Config, s: State, t: State)
    requires ConfigOk(c) && Shape(c, s) && t == Apply(c, s, Restart(true)) && Shape(c, t)
    ensures Resting(c, t) && forall i :: 0 <= i < |t.pieces| ==> t.pieces[i].done == s.saved[i]
  {
    forall i | 0 <= i < |t.pieces|
      ensures t.pieces[i].inUse == {} && t.pieces[i].status == if t.pieces[i].Full() then Complete else Idle
    {
      GeometryFacts(c, i);
    }
  }

  // ----- one missing block after the other -----

  /** The first missing block of a piece that nobody has claimed a block of. */
  lemma NextMissing(v: PieceView) returns (b: nat)
    requires v.WF() && !v.Full() && v.inUse == {}
    ensures v.NextBlock() == b && b < v.N() && b !in v.done
    ensures v.(inUse := {b}).CompleteBlock(b).done == v.done + {b} && v.(inUse := {b}).CompleteBlock(b).inUse == {}
  {
    var i :| i in AllBlocks(v.N()) && i !in v.done;
    b := v.NextBlock();
  }

  /** Worker w has been handed piece q, which reads v, and opens a response for its block b. */
  lemma OpensActive(c: Config, s: State, m: State, w: nat, q: nat, end: int, b: nat, v: PieceView)
      returns (t: State, limit: nat)
    requires ConfigOk(c) && Does(c, s, m, w, q, {b}, Holding(q, end), v) && end >= c.layout[q].start + c.layout[q].length - 1
    requires v.blockLength > 0 && v.NextBlock() == b && v.inUse == {}
    ensures limit >= c.layout[q].start + c.layout[q].length
    ensures Does(c, s, t, w, q, {b}, ReadingAt(c, q, end, b, limit), v.(inUse := {b}))
  {
    t, limit := Claims(c, m, w, q, end, b, {b});
    DoesJoin(c, s, m, t, w, q, {b}, Holding(q, end), v, ReadingAt(c, q, end, b, limit), v.(inUse := {b}));
  }

  lemma ActivatedNext(v: PieceView, cuid: int, b: nat)
    requires v.blockLength > 0 && v.NextBlock() == b
    ensures Activated(v, cuid).blockLength == v.blockLength && Activated(v, cuid).NextBlock() == b
    ensures Activated(v, cuid).inUse == v.inUse
    ensures Activated(v, cuid).(inUse := {b}).CompleteBlock(b).done == v.(inUse := {b}).CompleteBlock(b).done
  {
  }

  /** Worker w fetches the first missing block of piece q, and goes no further. */
  lemma FetchesOneBlock(c: Config, s: State, w: nat, q: nat) returns (t: State, b: nat)
    requires Resting(c, s) && w < |s.workers| && q < |s.pieces| && IsIdle(s.pieces, q) && MayPick(c.selector, s.pieces, q)
    ensures Reaches(c, s, t) && Shape(c, t) && t.workers[w].Advancing? && t.workers[w].p == q
    ensures t == s.(file := t.file, pieces := s.pieces[q := t.pieces[q]], workers := s.workers[w := t.workers[w]])
    ensures c.layout[q].blockLength > 0 && FileOnly(c, s.file, t.file, q, {b})
    ensures b !in s.pieces[q].done && t.pieces[q].done == s.pieces[q].done + {b}
  {
    b := NextMissing(s.pieces[q]);
    ActivatedNext(s.pieces[q], w + 1, b);
    var m, end := StartsPiece(c, s, w, q, {b});
    t := TakesFirst(c, s, m, w, q, end, b, Activated(s.pieces[q], w + 1));
  }

  lemma TakesFirst(c: Config, s: State, m: State, w: nat, q: nat, end: int, b: nat, v: PieceView) returns (t: State)
    requires ConfigOk(c) && Does(c, s, m, w, q, {b}, Holding(q, end), v) && end >= c.layout[q].start + c.layout[q].length - 1
    requires v.blockLength > 0 && v.NextBlock() == b && v.inUse == {}
    ensures w < |t.workers| && t.workers[w].Advancing? && t.workers[w].p == q && q < |t.pieces|
    ensures Does(c, s, t, w, q, {b}, t.workers[w], v.(inUse := {b}).CompleteBlock(b))
  {
    var r, limit := OpensActive(c, s, m, w, q, end, b, v);
    t := TakesBlock(c, r, w, q, end, b, limit, {b});
    DoesJoin(c, s, r, t, w, q, {b}, ReadingAt(c, q, end, b, limit), v.(inUse := {b}), t.workers[w], t.pieces[q]);
  }

  /** The missing blocks of all pieces. */
  ghost function Missing(pieces: seq<PieceView>): set<(int, int)>
    requires forall i :: 0 <= i < |pieces| ==> pieces[i].blockLength > 0
  {
    set i, b | 0 <= i < |pieces| && 0 <= b < pieces[i].N() && b !in pieces[i].done :: (i, b)
  }

  lemma OneMissingLess(pieces: seq<PieceView>, q: nat, v: PieceView, b: nat)
    requires forall i :: 0 <= i < |pieces| ==> pieces[i].blockLength > 0
    requires q < |pieces| && v.blockLength == pieces[q].blockLength && v.length == pieces[q].length
    requires b < v.N() && b !in pieces[q].done && v.done == pieces[q].done + {b}
    ensures Missing(pieces[q := v]) < Missing(pieces)
  {
    assert (q, b) in Missing(pieces) && (q, b) !in Missing(pieces[q := v]);
  }

  lemma SameMissing(s: State, t: State)
    requires forall i :: 0 <= i < |s.pieces| ==> s.pieces[i].blockLength > 0
    requires SameGeometry(t.pieces, s.pieces) && SameDone(s, t)
    ensures forall i :: 0 <= i < |t.pieces| ==> t.pieces[i].blockLength > 0
    ensures Missing(t.pieces) == Missing(s.pieces)
  {
  }

  // ----- a wrong byte in a done block is never fetched again -----

  /** Byte k of piece p is wrong although its block counts as done. */
  ghost predicate Lies(c: Config, s: State, p: nat, k: nat) {
    && p < |c.layout| && p < |s.pieces| && c.layout[p].blockLength > 0
    && InPieceBytes(c, p, k) && c.layout[p].IndexOf(k) in s.pieces[p].done
    && k < |s.file| && k < |c.source| && s.file[k] != c.source[k]
  }

  lemma LieStays(c: Config, s: State, t: State, p: nat, k: nat, q: nat, b: nat)
    requires ConfigOk(c) && Lies(c, s, p, k) && |t.pieces| == |s.pieces| == |c.layout| && q < |c.layout|
    requires c.layout[q].blockLength > 0 && FileOnly(c, s.file, t.file, q, {b}) && b !in s.pieces[q].done
    requires s.pieces[p].done <= t.pieces[p].done
    ensures Lies(c, t, p, k)
  {
    if q != p {
      PiecesApart(c, p, q);
    }
  }

  /** A round of a slow download: the next missing block is fetched, and the process is started again after a save. */
  lemma OneRound(c: Config, s: State, p: nat, k: nat) returns (t: State)
    requires Resting(c, s) && Lies(c, s, p, k) && !MayPick(c.selector, s.pieces, -1)
    requires forall i :: 0 <= i < |s.pieces| ==> s.pieces[i].blockLength > 0
    ensures Reaches(c, s, t) && Resting(c, t) && Lies(c, t, p, k)
    ensures forall i :: 0 <= i < |t.pieces| ==> t.pieces[i].blockLength > 0
    ensures Missing(t.pieces) < Missing(s.pieces)
  {
    var q := SomePick(c.selector, s.pieces);
    var m, b := FetchesOneBlock(c, s, 0, q);
    LieStays(c, s, m, p, k, q, b);
    AllPositive(c, m);
    OneMissingLess(s.pieces, q, m.pieces[q], b);
    t := SavesAfter(c, m, p, k);
    ReachesJoin(c, s, m, t);
  }

  lemma SavesAfter(c: Config, s: State, p: nat, k: nat) returns (t: State)
    requires ConfigOk(c) && Shape(c, s) && Lies(c, s, p, k)
    requires forall i :: 0 <= i < |s.pieces| ==> s.pieces[i].blockLength > 0
    ensures Reaches(c, s, t) && Resting(c, t) && Lies(c, t, p, k)
    ensures forall i :: 0 <= i < |t.pieces| ==> t.pieces[i].blockLength > 0
    ensures Missing(t.pieces) == Missing(s.pieces)
  {
    t := SavesAndRestarts(c, s);
    SameMissing(s, t);
  }

  /** Fetching what is missing, one block a round, until nothing more is handed out, leaves the wrong byte. */
  lemma {:induction false} EndsWrong(c: Config, s: State, p: nat, k: nat) returns (t: State)
    requires Resting(c, s) && Lies(c, s, p, k)
    requires forall i :: 0 <= i < |s.pieces| ==> s.pieces[i].blockLength > 0
    ensures Reaches(c, s, t) && Shape(c, t) && Reported(t) && t.file != c.source
    decreases Missing(s.pieces)
  {
    if MayPick(c.selector, s.pieces, -1) {
      t := EveryoneLeaves(c, s, 0);
    } else {
      var m := OneRound(c, s, p, k);
      t := EndsWrong(c, m, p, k);
      ReachesJoin(c, s, m, t);
    }
  }

  lemma LieIsReported(c: Config, p: nat, start: nat, stop: nat, cur: nat) returns (s0: State, t: State)
    requires ConfigOk(c) && StolenFrom(c, p, start, stop) && start <= cur <= stop
    requires !AtBoundary(c, p, stop, cur) && Exposed(c, p, start, stop, cur)
    ensures Init(c, s0) && Gets(c, s0, t) && Shape(c, t) && Reported(t) && t.file != c.source
  {
    var m1, b;
    s0, m1, b := EarlyEndLies(c, p, start, stop, cur);
    InsideRange(c, p, start, stop, cur);
    LieHere(c, m1, p, start, stop, cur, b);
    AllPositive(c, m1);
    var m2 := SavesAfter(c, m1, p, cur);
    t := EndsWrong(c, m2, p, cur);
    ReachesJoin(c, m1, m2, t);
    ReachedIsGot(c, m1, t);
    GetsJoin(c, s0, m1, t);
  }

  lemma AllPositive(c: Config, s: State)
    requires ConfigOk(c) && Shape(c, s)
    ensures forall i :: 0 <= i < |s.pieces| ==> s.pieces[i].blockLength > 0
  {
    forall i | 0 <= i < |s.pieces|
      ensures s.pieces[i].blockLength > 0
    {
      GeometryFacts(c, i);
    }
  }

  lemma LieHere(c: Config, s: State, p: nat, start: nat, stop: nat, cur: nat, b: nat)
    requires ConfigOk(c) && Shape(c, s) && StolenFrom(c, p, start, stop) && start < cur < stop
    requires b in s.pieces[p].done && c.layout[p].BlockStart(b) <= cur < c.layout[p].BlockEnd(b)
    requires cur < |s.file| && s.file[cur] != c.source[cur]
    ensures Lies(c, s, p, cur)
  {
    GeometryFacts(c, p);
    assert b in AllBlocks(s.pieces[p].N());
    BlockOf(c.layout[p], b, cur);
  }

  // ----- when the selector leaves a piece out -----

  /** Without piece 0 the download is reported too, with every byte of that piece wrong. */
  lemma PieceZeroIsWrong(c: Config) returns (s0: State, t: State)
    requires ConfigOk(c) && !Covers(c)
    ensures Init(c, s0) && Gets(c, s0, t) && Shape(c, t) && Reported(t) && t.file != c.source
  {
    s0 := WrongStart(c);
    WrongStartIsInit(c);
    InitReady(c, s0);
    var m := FetchesAllBut(c, s0, 0, 0);
    GeomNeverPicksZero(m.pieces);
    t := EveryoneLeaves(c, m, 0);
    ReachesJoin(c, s0, m, t);
    ReachedIsGot(c, s0, t);
    GeometryFacts(c, 0);
    assert InPieceBytes(c, 0, c.layout[0].start);
  }

  // ----- exactly when a reported success can be believed -----

  /** In every run from a fresh start that is reported as a success the file is the server's, byte for byte. */
  ghost predicate SuccessMeansEqual(c: Config)
    requires ConfigOk(c)
  {
    forall s0, t :: Init(c, s0) && Gets(c, s0, t) && Shape(c, t) && Reported(t) ==> t.file == c.source
  }

  /** A reported success means the right file if and only if the selector looks at every piece, and there is only one
      worker or no piece is long enough for a theft. */
  lemma SuccessMeansEqualIff(c: Config)
    requires ConfigOk(c)
    ensures SuccessMeansEqual(c) <==> Covers(c) && !TheftsPossible(c)
  {
    if !Covers(c) {
      var s0, t := PieceZeroIsWrong(c);
    } else if TheftsPossible(c) {
      TheftIsReported(c);
    } else {
      forall s0, t | Init(c, s0) && Gets(c, s0, t) && Shape(c, t) && Reported(t)
        ensures t.file == c.source
      {
        HonestReport(c, s0, t);
      }
    }
  }

  lemma TheftIsReported(c: Config)
    requires ConfigOk(c) && TheftsPossible(c)
    ensures !SuccessMeansEqual(c)
  {
    ExposedIff(c);
    var p: nat, start: nat, stop: nat, cur: nat :|
      StolenFrom(c, p, start, stop) && start <= cur <= stop && Exposed(c, p, start, stop, cur) && !AtBoundary(c, p, stop, cur);
    var s0, t := LieIsReported(c, p, start, stop, cur);
  }

  lemma HonestReport(c: Config, s0: State, t: State)
    requires ConfigOk(c) && Covers(c) && !TheftsPossible(c)
    requires Init(c, s0) && Gets(c, s0, t) && Shape(c, t) && Reported(t)
    ensures t.file == c.source
  {
    AlwaysHonestIff(c);
    var steps :| Run(c, s0, steps, t);
    ReportedMeansComplete(c, s0, steps, t);
    FullMeansEqual(c, t);
  }

  // ----- configurations as the settings make them -----

  /** The configuration of a download: pieces from the split, as many workers as connections, and no theft of less than
      the smallest chunk. */
  ghost predicate FromSettings(c: Config, cfg: Split.Config) {
    && |c.source| > 0 && !Split.DividesByZero(|c.source|, cfg)
    && c.layout == Split.Layout(|c.source|, Split.PieceSize(|c.source|, cfg))
    && c.minSteal == cfg.minChunk && c.workers == cfg.maxConnections > 0
  }

  lemma SettingsAreOk(c: Config, cfg: Split.Config)
    requires FromSettings(c, cfg)
    ensures ConfigOk(c)
  {
    Split.LayoutTiles(|c.source|, Split.PieceSize(|c.source|, cfg));
  }

  /** What the first piece of a split is: the piece size, or all of a smaller file; no other piece is longer. */
  lemma FirstIsLongest(c: Config, cfg: Split.Config)
    requires FromSettings(c, cfg)
    ensures ConfigOk(c) && Split.Clamped(cfg) > 0
    ensures var size := Split.PieceSize(|c.source|, cfg);
            c.layout[0].length == if |c.source| < size then |c.source| else size
    ensures forall i :: 0 <= i < |c.layout| ==> c.layout[i].length <= c.layout[0].length
  {
    SettingsAreOk(c, cfg);
    var size := Split.PieceSize(|c.source|, cfg);
    Split.LayoutTiles(|c.source|, size);
    assert c.layout[0] == Split.PieceAt(|c.source|, size, 0);
  }

  /** From the settings: a reported success means the right file if and only if the selector looks at every piece of the
      split, and there is only one connection or the piece size, or the whole file, is too short for a theft. */
  lemma SettingsTellIff(c: Config, cfg: Split.Config)
    requires FromSettings(c, cfg)
    ensures ConfigOk(c) && Split.Clamped(cfg) > 0
    ensures var size, shortest := Split.PieceSize(|c.source|, cfg), ShortestVictim(cfg.minChunk, DEFAULT_BLOCK_LENGTH);
            SuccessMeansEqual(c) <==>
              Covers(c) && (cfg.maxConnections == 1 || |c.source| < shortest || size < shortest)
  {
    FirstIsLongest(c, cfg);
    SuccessMeansEqualIff(c);
  }

  const MIB: nat := 1024 * 1024

  /** The settings a fresh installation has. */
  const Defaults := Split.Config(MIB, 50 * MIB, 10 * MIB, 8)

  /** With the default settings a reported success means the right file exactly for files of less than one and a half
      mebibytes, and for those of eight mebibytes or more but less than twelve. */
  lemma DefaultsTellIff(c: Config)
    requires FromSettings(c, Defaults) && c.selector == InOrder
    ensures ConfigOk(c)
    ensures SuccessMeansEqual(c) <==> 2 * |c.source| < 3 * MIB || 8 * MIB <= |c.source| < 12 * MIB
  {
    SettingsTellIff(c, Defaults);
    DefaultSizes(|c.source|);
  }

  lemma DefaultSizes(fileSize: nat)
    ensures Split.Clamped(Defaults) == 10 * MIB && ShortestVictim(MIB, DEFAULT_BLOCK_LENGTH) * 2 == 3 * MIB
    ensures Split.PieceSize(fileSize, Defaults) == if 8 * MIB <= fileSize <= 70 * MIB then fileSize / 8 else 10 * MIB
  {
  }
}
