/** Blocks that are marked in use although no worker fetches them: exactly which steps leave them, and who frees them. */
module ProtocolLeak {
  import opened Blocks
  import opened Pieces
  import opened Selection
  import opened Protocol
  import opened ProtocolSafety
  import opened ProtocolMoves
  import opened ProtocolProgress
  import opened ProtocolThief

  /** The worker has claimed block b of piece p and fetches it. */
  predicate Fetches(x: Worker, p: nat, b: nat) {
    (x.Fetching? || x.Reading? || x.BlockRead?) && x.p == p && x.blk == b
  }

  /** Block b of piece p is in use, but by nobody. */
  ghost predicate Orphan(s: State, p: nat, b: nat) {
    p < |s.pieces| && b in s.pieces[p].inUse && forall w :: 0 <= w < |s.workers| ==> !Fetches(s.workers[w], p, b)
  }

  ghost predicate HasOrphan(s: State) {
    exists p: nat, b: nat :: Orphan(s, p, b)
  }

  /** A response ends inside its block, still marked in use; or the worker goes on to a next block that does not start
      where the bytes read so far end. */
  ghost predicate LeakStep(c: Config, s: State, st: Step)
    requires Shape(c, s)
  {
    && st.Act? && st.w < |s.workers|
    && var x := s.workers[st.w];
       || (x.Reading? && st.move == Eof && x.blk in s.pieces[x.p].inUse)
       || (x.Advancing? && st.move == Continue && s.pieces[x.p].blockLength > 0 && s.pieces[x.p].NextBlock() >= 0
           && s.pieces[x.p].BlockStart(s.pieces[x.p].NextBlock()) != x.cur)
  }

  // ----- only these steps leave an orphan -----

  /** Use bits come with a worker, and a worker leaves no use bit behind. */
  ghost predicate ClaimsKept(s: State, w: nat, e: Effect)
    requires w < |s.workers| && e.p < |s.pieces|
  {
    && (forall b :: b in e.view.inUse ==> b in s.pieces[e.p].inUse || Fetches(e.worker, e.p, b))
    && (forall p: nat, b ::
          Fetches(s.workers[w], p, b) && p < |s.pieces| && b in (if p == e.p then e.view else s.pieces[p]).inUse ==>
            Fetches(e.worker, p, b))
  }

  lemma PieceClaimsKept(c: Config, s: State, w: nat, m: Move)
    requires Moves(c, s, w, m) && !Stealing(s.workers[w]) && !LeakStep(c, s, Act(w, m))
    ensures PieceEffect(c, s, w, m).p < |s.pieces| && ClaimsKept(s, w, PieceEffect(c, s, w, m))
  {
    if Between(s.workers[w]) {
      PieceClaimsKeptBetween(c, s, w, m);
    } else if Receiving(s.workers[w]) {
      PieceClaimsKeptReceiving(c, s, w, m);
    } else {
      PieceClaimsKeptAsking(c, s, w, m);
    }
  }

  lemma PieceClaimsKeptBetween(c: Config, s: State, w: nat, m: Move)
    requires Moves(c, s, w, m) && Between(s.workers[w]) && !LeakStep(c, s, Act(w, m))
    ensures PieceEffect(c, s, w, m).p < |s.pieces| && ClaimsKept(s, w, PieceEffect(c, s, w, m))
  {
  }

  lemma PieceClaimsKeptReceiving(c: Config, s: State, w: nat, m: Move)
    requires Moves(c, s, w, m) && Receiving(s.workers[w]) && !LeakStep(c, s, Act(w, m))
    ensures PieceEffect(c, s, w, m).p < |s.pieces| && ClaimsKept(s, w, PieceEffect(c, s, w, m))
  {
  }

  lemma PieceClaimsKeptAsking(c: Config, s: State, w: nat, m: Move)
    requires Moves(c, s, w, m) && (s.workers[w].Holding? || s.workers[w].Fetching? || s.workers[w].Advancing?)
    requires !LeakStep(c, s, Act(w, m))
    ensures PieceEffect(c, s, w, m).p < |s.pieces| && ClaimsKept(s, w, PieceEffect(c, s, w, m))
  {
    if s.workers[w].Advancing? {
      GeometryFacts(c, s.workers[w].p);
    }
  }

  lemma RangeClaimsKept(c: Config, s: State, w: nat, m: Move)
    requires Moves(c, s, w, m) && Stealing(s.workers[w])
    ensures RangeEffect(c, s, w, m).p < |s.pieces| && ClaimsKept(s, w, RangeEffect(c, s, w, m))
  {
  }

  lemma NoNewOrphan(s: State, w: nat, m: Move, e: Effect)
    requires w < |s.workers| && e.p < |s.pieces| && ClaimsKept(s, w, e) && !HasOrphan(s)
    ensures !HasOrphan(After(s, w, m, e))
  {
    var t := After(s, w, m, e);
    forall p: nat, b: nat | p < |t.pieces| && b in t.pieces[p].inUse
      ensures !Orphan(t, p, b)
    {
      if Fetches(e.worker, p, b) {
        assert Fetches(t.workers[w], p, b);
      } else {
        assert b in s.pieces[p].inUse && !Orphan(s, p, b);
        var k :| 0 <= k < |s.workers| && Fetches(s.workers[k], p, b);
        assert Fetches(t.workers[k], p, b);
      }
    }
  }

  lemma StepKeepsNone(c: Config, s: State, st: Step)
    requires Steps(c, s, st) && !HasOrphan(s) && !LeakStep(c, s, st)
    ensures !HasOrphan(Apply(c, s, st))
  {
    match st
    case Act(w, m) =>
      if Stealing(s.workers[w]) {
        RangeClaimsKept(c, s, w, m);
      } else {
        PieceClaimsKept(c, s, w, m);
      }
      NoNewOrphan(s, w, m, EffectOf(c, s, w, m));
    case _ => SystemKeepsNone(c, s, st);
  }

  lemma SystemKeepsNone(c: Config, s: State, st: Step)
    requires Steps(c, s, st) && !HasOrphan(s) && !st.Act?
    ensures !HasOrphan(Apply(c, s, st))
  {
    var t := Apply(c, s, st);
    forall p: nat, b: nat | p < |t.pieces| && b in t.pieces[p].inUse
      ensures !Orphan(t, p, b)
    {
      if st.Restart? {
        GeometryFacts(c, p);
      } else {
        assert !Orphan(s, p, b);
      }
    }
  }

  // ----- and they always do: one worker at a time has a piece -----

  /** The worker is in the loop over the blocks of piece p, or about to enter it. */
  predicate InLoop(x: Worker, p: nat) {
    (x.Claimed? || x.Holding? || x.Fetching? || x.Reading? || x.BlockRead? || x.Advancing?) && x.p == p
  }

  /** No two workers are in the loop of the same piece, and its status is not idle. */
  ghost predicate OneEach(s: State) {
    && (forall w, k, p: nat :: 0 <= w < |s.workers| && 0 <= k < |s.workers| && w != k && InLoop(s.workers[w], p) ==>
          !InLoop(s.workers[k], p))
    && (forall w, p: nat :: 0 <= w < |s.workers| && p < |s.pieces| && InLoop(s.workers[w], p) ==> s.pieces[p].status != Idle)
  }

  /** A worker enters the loop of an idle piece only, and a piece turns idle only when its worker leaves the loop. */
  ghost predicate LoopKept(s: State, w: nat, e: Effect)
    requires w < |s.workers| && e.p < |s.pieces|
  {
    && (forall p: nat :: InLoop(e.worker, p) && !InLoop(s.workers[w], p) ==>
          p == e.p && s.pieces[p].status == Idle && e.view.status != Idle)
    && (e.view.status == Idle ==>
          s.pieces[e.p].status == Idle || (InLoop(s.workers[w], e.p) && !InLoop(e.worker, e.p)))
  }

  lemma PieceLoopKept(c: Config, s: State, w: nat, m: Move)
    requires Moves(c, s, w, m) && !Stealing(s.workers[w])
    ensures PieceEffect(c, s, w, m).p < |s.pieces| && LoopKept(s, w, PieceEffect(c, s, w, m))
  {
    if Between(s.workers[w]) {
      PieceLoopKeptBetween(c, s, w, m);
    } else if Receiving(s.workers[w]) {
      PieceLoopKeptReceiving(c, s, w, m);
    } else {
      PieceLoopKeptAsking(c, s, w, m);
    }
  }

  lemma PieceLoopKeptBetween(c: Config, s: State, w: nat, m: Move)
    requires Moves(c, s, w, m) && Between(s.workers[w])
    ensures PieceEffect(c, s, w, m).p < |s.pieces| && LoopKept(s, w, PieceEffect(c, s, w, m))
  {
    if s.workers[w].Looking? {
      PieceLoopKeptLooking(c, s, w, m);
    }
  }

  lemma PieceLoopKeptLooking(c: Config, s: State, w: nat, m: Move)
    requires Moves(c, s, w, m) && s.workers[w].Looking?
    ensures PieceEffect(c, s, w, m).p < |s.pieces| && LoopKept(s, w, PieceEffect(c, s, w, m))
  {
    if m.Pick? && m.r >= 0 {
      PickedIsIdle(c.selector, s.pieces, m.r);
    }
  }

  lemma PieceLoopKeptReceiving(c: Config, s: State, w: nat, m: Move)
    requires Moves(c, s, w, m) && Receiving(s.workers[w])
    ensures PieceEffect(c, s, w, m).p < |s.pieces| && LoopKept(s, w, PieceEffect(c, s, w, m))
  {
  }

  lemma PieceLoopKeptAsking(c: Config, s: State, w: nat, m: Move)
    requires Moves(c, s, w, m) && (s.workers[w].Holding? || s.workers[w].Fetching? || s.workers[w].Advancing?)
    ensures PieceEffect(c, s, w, m).p < |s.pieces| && LoopKept(s, w, PieceEffect(c, s, w, m))
  {
  }

  lemma PickedIsIdle(selector: Selector, pieces: seq<PieceView>, r: nat)
    requires MayPick(selector, pieces, r)
    ensures IsIdle(pieces, r)
  {
  }

  lemma RangeLoopKept(c: Config, s: State, w: nat, m: Move)
    requires Moves(c, s, w, m) && Stealing(s.workers[w])
    ensures RangeEffect(c, s, w, m).p < |s.pieces| && LoopKept(s, w, RangeEffect(c, s, w, m))
  {
    RangeNotInLoop(c, s, w, m);
    RangeNotIdle(c, s, w, m);
  }

  lemma RangeNotInLoop(c: Config, s: State, w: nat, m: Move)
    requires Moves(c, s, w, m) && Stealing(s.workers[w])
    ensures forall p: nat :: !InLoop(RangeEffect(c, s, w, m).worker, p)
  {
  }

  lemma RangeNotIdle(c: Config, s: State, w: nat, m: Move)
    requires Moves(c, s, w, m) && Stealing(s.workers[w])
    ensures var e := RangeEffect(c, s, w, m); e.p < |s.pieces| && (e.view.status == Idle ==> s.pieces[e.p].status == Idle)
  {
  }

  lemma OneEachAfter(s: State, w: nat, m: Move, e: Effect)
    requires w < |s.workers| && e.p < |s.pieces| && LoopKept(s, w, e) && OneEach(s)
    ensures OneEach(After(s, w, m, e))
  {
  }

  lemma StepOneEach(c: Config, s: State, st: Step)
    requires Steps(c, s, st) && OneEach(s)
    ensures OneEach(Apply(c, s, st))
  {
    match st
    case Act(w, m) =>
      if Stealing(s.workers[w]) {
        RangeLoopKept(c, s, w, m);
      } else {
        PieceLoopKept(c, s, w, m);
      }
      OneEachAfter(s, w, m, EffectOf(c, s, w, m));
    case _ =>
  }

  lemma LeakLeavesOrphan(c: Config, s: State, st: Step)
    requires Steps(c, s, st) && OneEach(s) && LeakStep(c, s, st)
    ensures HasOrphan(Apply(c, s, st))
  {
    var w, x, t := st.w, s.workers[st.w], Apply(c, s, st);
    GeometryFacts(c, x.p);
    var b := if x.Reading? then x.blk else s.pieces[x.p].NextBlock();
    if x.Reading? {
      PieceMoves(c, s, w, Eof);
    } else {
      GoesOn(c, s, w);
    }
    assert InLoop(x, x.p);
    assert t.workers[w] == Holding(x.p, x.end) && b in t.pieces[x.p].inUse;
    assert Orphan(t, x.p, b);
  }

  // ----- whole runs -----

  /** Some state of the run has an orphan. */
  ghost predicate EverOrphan(c: Config, s: State, steps: seq<Step>, t: State)
    requires ConfigOk(c) && Run(c, s, steps, t)
    decreases |steps|
  {
    HasOrphan(s) || (steps != [] && EverOrphan(c, Apply(c, s, steps[0]), steps[1..], t))
  }

  /** Some step of the run is a leak step. */
  ghost predicate EverLeaks(c: Config, s: State, steps: seq<Step>, t: State)
    requires ConfigOk(c) && Run(c, s, steps, t)
    decreases |steps|
  {
    steps != [] && (LeakStep(c, s, steps[0]) || EverLeaks(c, Apply(c, s, steps[0]), steps[1..], t))
  }

  lemma {:induction false} OrphansComeFromLeaks(c: Config, s: State, steps: seq<Step>, t: State)
    requires ConfigOk(c) && Run(c, s, steps, t) && OneEach(s) && !HasOrphan(s)
    ensures EverOrphan(c, s, steps, t) <==> EverLeaks(c, s, steps, t)
    decreases |steps|
  {
    if steps != [] {
      RunUncons(c, s, steps, t);
      if LeakStep(c, s, steps[0]) {
        LeakLeavesOrphan(c, s, steps[0]);
      } else {
        StepKeepsNone(c, s, steps[0]);
        StepOneEach(c, s, steps[0]);
        OrphansComeFromLeaks(c, Apply(c, s, steps[0]), steps[1..], t);
      }
    }
  }

  lemma InitHasNone(c: Config, s: State)
    requires ConfigOk(c) && Init(c, s)
    ensures Shape(c, s) && OneEach(s) && !HasOrphan(s)
  {
    InitReady(c, s);
  }

  /** In every run from a fresh start, whatever the number of workers, with thefts, saves and restarts: at some time a
      block is in use by nobody if and only if some step was one of the two kinds that leak. */
  lemma LeaksIff(c: Config, s0: State, steps: seq<Step>, t: State)
    requires ConfigOk(c) && Init(c, s0) && Run(c, s0, steps, t)
    ensures EverOrphan(c, s0, steps, t) <==> EverLeaks(c, s0, steps, t)
  {
    InitHasNone(c, s0);
    OrphansComeFromLeaks(c, s0, steps, t);
  }

  // ----- how long an orphan stays -----

  /** A thief's move takes the use bit: it releases the tail it steals, or marks the block of its range. */
  ghost predicate Frees(c: Config, s: State, st: Step, p: nat, b: nat)
    requires Steps(c, s, st) && p < |s.pieces|
  {
    st.Act? && Stealing(s.workers[st.w]) && EffectOf(c, s, st.w, st.move).p == p && b !in EffectOf(c, s, st.w, st.move).view.inUse
  }

  lemma PieceKeepsOrphan(c: Config, s: State, w: nat, m: Move, p: nat, b: nat)
    requires Moves(c, s, w, m) && !Stealing(s.workers[w]) && p < |s.pieces| && b in s.pieces[p].inUse
    requires !Fetches(s.workers[w], p, b)
    ensures var e := PieceEffect(c, s, w, m);
            e.p < |s.pieces| && !Fetches(e.worker, p, b) && (e.p == p ==> b in e.view.inUse)
  {
    if Between(s.workers[w]) {
      PieceKeepsOrphanBetween(c, s, w, m, p, b);
    } else if Receiving(s.workers[w]) {
      PieceKeepsOrphanReceiving(c, s, w, m, p, b);
    } else {
      PieceKeepsOrphanAsking(c, s, w, m, p, b);
    }
  }

  lemma PieceKeepsOrphanBetween(c: Config, s: State, w: nat, m: Move, p: nat, b: nat)
    requires Moves(c, s, w, m) && Between(s.workers[w]) && p < |s.pieces| && b in s.pieces[p].inUse
    requires !Fetches(s.workers[w], p, b)
    ensures var e := PieceEffect(c, s, w, m);
            e.p < |s.pieces| && !Fetches(e.worker, p, b) && (e.p == p ==> b in e.view.inUse)
  {
  }

  lemma PieceKeepsOrphanReceiving(c: Config, s: State, w: nat, m: Move, p: nat, b: nat)
    requires Moves(c, s, w, m) && Receiving(s.workers[w]) && p < |s.pieces| && b in s.pieces[p].inUse
    requires !Fetches(s.workers[w], p, b)
    ensures var e := PieceEffect(c, s, w, m);
            e.p < |s.pieces| && !Fetches(e.worker, p, b) && (e.p == p ==> b in e.view.inUse)
  {
  }

  lemma PieceKeepsOrphanAsking(c: Config, s: State, w: nat, m: Move, p: nat, b: nat)
    requires Moves(c, s, w, m) && (s.workers[w].Holding? || s.workers[w].Fetching? || s.workers[w].Advancing?)
    requires p < |s.pieces| && b in s.pieces[p].inUse
    requires !Fetches(s.workers[w], p, b)
    ensures var e := PieceEffect(c, s, w, m);
            e.p < |s.pieces| && !Fetches(e.worker, p, b) && (e.p == p ==> b in e.view.inUse)
  {
    if s.workers[w].Advancing? {
      GeometryFacts(c, s.workers[w].p);
    }
  }

  lemma RangeFetchesNothing(c: Config, s: State, w: nat, m: Move, p: nat, b: nat)
    requires Moves(c, s, w, m) && Stealing(s.workers[w])
    ensures RangeEffect(c, s, w, m).p < |s.pieces| && !Fetches(RangeEffect(c, s, w, m).worker, p, b)
  {
  }

  lemma OrphanAfter(s: State, w: nat, m: Move, e: Effect, p: nat, b: nat)
    requires w < |s.workers| && e.p < |s.pieces| && Orphan(s, p, b)
    requires !Fetches(e.worker, p, b) && (e.p == p ==> b in e.view.inUse)
    ensures Orphan(After(s, w, m, e), p, b)
  {
  }

  /** Only a thief or a restart takes an orphan away, however many workers there are. */
  lemma OrphanStays(c: Config, s: State, st: Step, p: nat, b: nat)
    requires Steps(c, s, st) && Orphan(s, p, b) && !st.Restart? && !Frees(c, s, st, p, b)
    ensures Orphan(Apply(c, s, st), p, b)
  {
    match st
    case Act(w, m) =>
      if Stealing(s.workers[w]) {
        RangeFetchesNothing(c, s, w, m, p, b);
      } else {
        PieceKeepsOrphan(c, s, w, m, p, b);
      }
      OrphanAfter(s, w, m, EffectOf(c, s, w, m), p, b);
    case _ =>
  }

  /** No block is both done and in use. */
  ghost predicate UseDisjoint(s: State) {
    forall p :: 0 <= p < |s.pieces| ==> s.pieces[p].done !! s.pieces[p].inUse
  }

  lemma PieceUseDisjoint(c: Config, s: State, w: nat, m: Move)
    requires Moves(c, s, w, m) && !Stealing(s.workers[w]) && UseDisjoint(s)
    ensures var e := PieceEffect(c, s, w, m); e.p < |s.pieces| && e.view.done !! e.view.inUse
  {
  }

  lemma RangeUseDisjoint(c: Config, s: State, w: nat, m: Move)
    requires Moves(c, s, w, m) && Stealing(s.workers[w]) && UseDisjoint(s)
    ensures var e := RangeEffect(c, s, w, m); e.p < |s.pieces| && e.view.done !! e.view.inUse
  {
  }

  lemma StepUseDisjoint(c: Config, s: State, st: Step)
    requires Steps(c, s, st) && UseDisjoint(s)
    ensures UseDisjoint(Apply(c, s, st))
  {
    match st
    case Act(w, m) =>
      if Stealing(s.workers[w]) {
        RangeUseDisjoint(c, s, w, m);
      } else {
        PieceUseDisjoint(c, s, w, m);
      }
    case Restart(resume) =>
      forall p | 0 <= p < |c.layout|
        ensures Resumed(c.layout[p], if resume then s.saved[p] else {}).inUse == {}
      {
        GeometryFacts(c, p);
      }
    case _ =>
  }

  /** While a block is an orphan its piece is not complete. */
  lemma OrphanIsMissing(c: Config, s: State, p: nat, b: nat)
    requires Shape(c, s) && Orphan(s, p, b) && UseDisjoint(s)
    ensures !AllFull(s.pieces) && b !in s.pieces[p].done
  {
    assert s.pieces[p].WF();
    assert b in AllBlocks(s.pieces[p].N());
  }

  /** No step of the run is a restart or frees the block. */
  ghost predicate NeverFreed(c: Config, s: State, steps: seq<Step>, t: State, p: nat, b: nat)
    requires ConfigOk(c) && Run(c, s, steps, t) && p < |s.pieces|
    decreases |steps|
  {
    steps == []
    || (!steps[0].Restart? && !Frees(c, s, steps[0], p, b)
        && p < |Apply(c, s, steps[0]).pieces| && NeverFreed(c, Apply(c, s, steps[0]), steps[1..], t, p, b))
  }

  /** Until a thief or a restart frees it, an orphan keeps the download from being complete. */
  lemma {:induction false} IncompleteUntilFreed(c: Config, s: State, steps: seq<Step>, t: State, p: nat, b: nat)
    requires ConfigOk(c) && Run(c, s, steps, t) && Orphan(s, p, b) && UseDisjoint(s) && NeverFreed(c, s, steps, t, p, b)
    ensures Shape(c, t) && Orphan(t, p, b) && !AllFull(t.pieces)
    decreases |steps|
  {
    if steps == [] {
      OrphanIsMissing(c, s, p, b);
    } else {
      RunUncons(c, s, steps, t);
      OrphanStays(c, s, steps[0], p, b);
      StepUseDisjoint(c, s, steps[0]);
      IncompleteUntilFreed(c, Apply(c, s, steps[0]), steps[1..], t, p, b);
    }
  }

  lemma {:induction false} RunUseDisjoint(c: Config, s: State, steps: seq<Step>, t: State)
    requires ConfigOk(c) && Run(c, s, steps, t) && UseDisjoint(s)
    ensures UseDisjoint(t)
    decreases |steps|
  {
    if steps != [] {
      RunUncons(c, s, steps, t);
      StepUseDisjoint(c, s, steps[0]);
      RunUseDisjoint(c, Apply(c, s, steps[0]), steps[1..], t);
    }
  }

  /** A single worker is never a thief, so nobody frees its orphans. */
  lemma LonelyFreesNone(c: Config, s: State, st: Step, p: nat, b: nat)
    requires Steps(c, s, st) && Lonely(s) && Orphan(s, p, b)
    ensures !Frees(c, s, st, p, b)
  {
    if st.Act? && Stealing(s.workers[st.w]) {
      var x := s.workers[0];
      assert !HasRange(x);
      IdleMoves(c, s, 0, st.move);
      VainProbe(c, s, st.move);
    }
  }

  lemma VainProbe(c: Config, s: State, m: Move)
    requires Moves(c, s, 0, m) && Lonely(s) && s.workers[0].Probing?
    ensures EffectOf(c, s, 0, m).p == 0 && EffectOf(c, s, 0, m).view == s.pieces[0]
  {
  }

  lemma {:induction false} LonelyNeverFreed(c: Config, s: State, steps: seq<Step>, t: State, p: nat, b: nat)
    requires ConfigOk(c) && Run(c, s, steps, t) && Lonely(s) && Orphan(s, p, b)
    requires forall i :: 0 <= i < |steps| ==> !steps[i].Restart?
    ensures NeverFreed(c, s, steps, t, p, b)
    decreases |steps|
  {
    if steps != [] {
      RunUncons(c, s, steps, t);
      LonelyFreesNone(c, s, steps[0], p, b);
      OrphanStays(c, s, steps[0], p, b);
      StepLonely(c, s, steps[0]);
      LonelyNeverFreed(c, Apply(c, s, steps[0]), steps[1..], t, p, b);
    }
  }

  /** With a single worker, a block in use by nobody keeps the download from being complete, until a restart. */
  lemma LoneLeakIsForever(c: Config, s0: State, before: seq<Step>, s: State, after: seq<Step>, t: State, p: nat, b: nat)
    requires ConfigOk(c) && c.workers == 1 && Init(c, s0) && Run(c, s0, before, s) && Run(c, s, after, t)
    requires Orphan(s, p, b) && forall i :: 0 <= i < |after| ==> !after[i].Restart?
    ensures Shape(c, t) && Orphan(t, p, b) && !AllFull(t.pieces)
  {
    InitThefts(c, s0);
    RunThefts(c, s0, before, s);
    InitReady(c, s0);
    RunUseDisjoint(c, s0, before, s);
    LonelyNeverFreed(c, s, after, t, p, b);
    IncompleteUntilFreed(c, s, after, t, p, b);
  }

  // ----- runs that leak -----

  /** In every configuration, for every block of every piece that is handed out: when the response for that block ends
      before its first byte and all other blocks arrive, that block is in use by nobody. */
  lemma ShortResponseLeaks(c: Config, s0: State, p: nat, b: nat) returns (t: State)
    requires ConfigOk(c) && Init(c, s0) && p < |c.layout| && Handed(c, p) && c.layout[p].blockLength > 0 && b < c.layout[p].N()
    ensures Reaches(c, s0, t) && Shape(c, t) && Orphan(t, p, b)
    ensures t.pieces[p].done == AllBlocks(c.layout[p].N()) - {b}
  {
    var n := c.layout[p].N();
    var got := AllBlocks(n) - {b};
    assert b in AllBlocks(n) && b !in got;
    var end;
    t, end := OwnerStops(c, s0, p, got);
    LeftOver(c, p, b);
  }

  lemma LeftOver(c: Config, p: nat, b: nat)
    requires ConfigOk(c) && p < |c.layout| && c.layout[p].blockLength > 0 && b < c.layout[p].N()
    ensures var n := c.layout[p].N();
            var v := StoppedView(Activated(c.layout[p], 1), AllBlocks(n) - {b}, n);
            v.inUse == {b} && v.done == AllBlocks(n) - {b}
  {
    GeometryFacts(c, p);
    assert b in AllBlocks(c.layout[p].N());
    PartOfReady(Activated(c.layout[p], 1), AllBlocks(c.layout[p].N()) - {b});
  }

  /** Part of the block arrives. */
  lemma ReceivesSome(c: Config, s: State, p: nat, end: int, b: nat, limit: nat, n: nat, blocks: set<nat>) returns (t: State)
    requires p < |c.layout| && c.layout[p].blockLength > 0 && At(c, s, 0, ReadingAt(c, p, end, b, limit)) && b in blocks
    requires 0 < n < c.layout[p].BlockEnd(b) - c.layout[p].BlockStart(b) && limit >= c.layout[p].start + c.layout[p].length
    ensures var cur := c.layout[p].BlockStart(b) + n;
            Does(c, s, t, 0, p, blocks, Reading(p, end, b, cur, c.layout[p].BlockEnd(b) - cur, limit), s.pieces[p])
  {
    GeometryFacts(c, p);
    var v := c.layout[p];
    BlockBounds(v, b);
    SomeArrives(c, s, n);
    WritesBlock(c, s.file, p, b, v.BlockStart(b), n, blocks);
    var x := Reading(p, end, b, v.BlockStart(b) + n, v.BlockEnd(b) - (v.BlockStart(b) + n), limit);
    t := Acts(c, s, 0, Receive(n), Effect(FileWith(s.file, c.source, v.BlockStart(b), n), p, s.pieces[p], x), p, blocks);
  }

  lemma SomeArrives(c: Config, s: State, n: nat)
    requires Moves(c, s, 0, Receive(n)) && s.workers[0].Reading? && s.workers[0].remaining > n
    ensures var x := s.workers[0];
            EffectOf(c, s, 0, Receive(n))
            == Effect(FileWith(s.file, c.source, x.cur, n), x.p, s.pieces[x.p],
                      Reading(x.p, x.end, x.blk, x.cur + n, x.remaining - n, x.limit))
  {
  }

  /** One read brings the last byte of block b and the first of the next one. */
  lemma Overshoots(c: Config, s: State, p: nat, end: int, b: nat, limit: nat) returns (t: State)
    requires p < |c.layout| && c.layout[p].blockLength > 0 && b + 1 < c.layout[p].N()
    requires At(c, s, 0, Reading(p, end, b, c.layout[p].BlockEnd(b) - 1, 1, limit))
    requires limit >= c.layout[p].start + c.layout[p].length
    ensures Reaches(c, s, t) && Shape(c, t) && t.pieces == s.pieces
    ensures t.workers == s.workers[0 := BlockRead(p, end, b, c.layout[p].BlockEnd(b) + 1, limit)]
  {
    GeometryFacts(c, p);
    BlockBounds(c.layout[p], b);
    BlockBounds(c.layout[p], b + 1);
    BlockArrives(c, s, 0, 2);
    t := OneMove(c, s, 0, Receive(2));
    assert s.pieces[p := s.pieces[p]] == s.pieces;
  }

  lemma FirstTwoBlocks(v: PieceView)
    requires v.blockLength > 0 && v.done == {} && v.inUse == {} && v.length > 0
    ensures v.NextBlock() == 0
    ensures 2 <= v.N() ==>
              var u := v.(inUse := {0}).CompleteBlock(0);
              && u.done == {0} && u.inUse == {} && u.NextBlock() == 1
              && v.BlockStart(1) == v.BlockEnd(0) == v.BlockStart(0) + v.blockLength
  {
    assert 0 in AllBlocks(v.N());
    if 2 <= v.N() {
      BlockBounds(v, 0);
      var u := v.(inUse := {0}).CompleteBlock(0);
      assert FirstFree({0}, {}, v.N(), 0) == 1;
    }
  }

  /** Worker 0 has begun with piece p, claimed its first block and read all of it but the last byte. */
  lemma ReadsAlmost(c: Config, s0: State, p: nat) returns (t: State, end: int, limit: nat)
    requires ConfigOk(c) && Init(c, s0) && p < |c.layout| && Handed(c, p)
    requires c.layout[p].blockLength > 0 && 2 <= c.layout[p].N()
    ensures Reaches(c, s0, t) && limit >= c.layout[p].start + c.layout[p].length
    ensures At(c, t, 0, Reading(p, end, 0, c.layout[p].BlockEnd(0) - 1, 1, limit))
    ensures t.pieces[p] == Activated(c.layout[p], 1).(inUse := {0}) && t.workers == s0.workers[0 := t.workers[0]]
  {
    var m;
    m, end := OwnerBegins(c, s0, p);
    t, limit := ReadsFirst(c, m, p, end);
    ReachesJoin(c, s0, m, t);
  }

  lemma ReadsFirst(c: Config, s: State, p: nat, end: int) returns (t: State, limit: nat)
    requires At(c, s, 0, Holding(p, end)) && end >= c.layout[p].start + c.layout[p].length - 1
    requires c.layout[p].blockLength > 0 && 2 <= c.layout[p].N() && s.pieces[p] == Activated(c.layout[p], 1)
    ensures Reaches(c, s, t) && limit >= c.layout[p].start + c.layout[p].length
    ensures At(c, t, 0, Reading(p, end, 0, c.layout[p].BlockEnd(0) - 1, 1, limit))
    ensures t.pieces[p] == Activated(c.layout[p], 1).(inUse := {0}) && t.workers == s.workers[0 := t.workers[0]]
  {
    GeometryFacts(c, p);
    FirstTwoBlocks(Activated(c.layout[p], 1));
    var m;
    m, limit := Claims(c, s, 0, p, end, 0, {0});
    t := ReceivesAllButOne(c, m, p, end, limit);
    ReachesJoin(c, s, m, t);
  }

  lemma ReceivesAllButOne(c: Config, s: State, p: nat, end: int, limit: nat) returns (t: State)
    requires p < |c.layout| && c.layout[p].blockLength > 0 && 2 <= c.layout[p].N()
    requires At(c, s, 0, ReadingAt(c, p, end, 0, limit)) && limit >= c.layout[p].start + c.layout[p].length
    ensures Does(c, s, t, 0, p, {0}, Reading(p, end, 0, c.layout[p].BlockEnd(0) - 1, 1, limit), s.pieces[p])
  {
    GeometryFacts(c, p);
    FirstTwoBlocks(c.layout[p]);
    t := ReceivesSome(c, s, p, end, 0, limit, c.layout[p].blockLength - 1, {0});
  }

  /** The last byte comes with the first of the next block, and the worker goes on. */
  lemma OvershotEnds(c: Config, s: State, p: nat, end: int, limit: nat) returns (t: State)
    requires p < |c.layout| && c.layout[p].blockLength > 0 && 2 <= c.layout[p].N() && c.layout[p].length > 0
    requires At(c, s, 0, Reading(p, end, 0, c.layout[p].BlockEnd(0) - 1, 1, limit))
    requires limit >= c.layout[p].start + c.layout[p].length
    requires c.layout[p].done == {} && c.layout[p].inUse == {}
    requires s.pieces[p] == Activated(c.layout[p], 1).(inUse := {0})
    ensures Reaches(c, s, t) && Shape(c, t) && t.workers == s.workers[0 := Holding(p, end)]
    ensures t.pieces[p].done == {0} && t.pieces[p].inUse == {1}
  {
    var v := c.layout[p];
    FirstTwoBlocks(v);
    FirstTwoBlocks(Activated(v, 1));
    var cur := v.BlockEnd(0) + 1;
    var m1 := Overshoots(c, s, p, end, 0, limit);
    var m2 := Marks(c, m1, 0, p, end, 0, cur, limit, {});
    t := Continues(c, m2, 0, p, end, cur, limit, {});
    ReachesJoin(c, m1, m2, t);
    ReachesJoin(c, s, m1, t);
  }

  /** In every configuration, for every piece of two blocks or more that is handed out: when one read brings the last
      byte of the first block and the first of the second, the second block ends up in use by nobody. */
  lemma OvershootLeaks(c: Config, s0: State, p: nat) returns (t: State)
    requires ConfigOk(c) && Init(c, s0) && p < |c.layout| && Handed(c, p)
    requires c.layout[p].blockLength > 0 && 2 <= c.layout[p].N()
    ensures Reaches(c, s0, t) && Shape(c, t) && Orphan(t, p, 1) && t.pieces[p].done == {0}
  {
    GeometryFacts(c, p);
    var m, end, limit := ReadsAlmost(c, s0, p);
    t := OvershotEnds(c, m, p, end, limit);
    ReachesJoin(c, s0, m, t);
  }
}
