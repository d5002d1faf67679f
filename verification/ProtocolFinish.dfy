/** When all workers have returned without an error, is the file complete? */
module ProtocolFinish {
  import opened Blocks
  import opened Pieces
  import opened Selection
  import opened Protocol
  import opened ProtocolSafety

  /** The selector looks at every piece. */
  predicate Covers(c: Config) {
    c.selector != Geom || |c.layout| % 2 == 1
  }

  /** The worker was handed piece p and is responsible for it. */
  predicate Holds(x: Worker, p: int) {
    match x
    case Claimed(q) => q == p
    case Holding(q, _) => q == p
    case Fetching(q, _, _, _) => q == p
    case Reading(q, _, _, _, _, _) => q == p
    case BlockRead(q, _, _, _, _) => q == p
    case Advancing(q, _, _, _) => q == p
    case Finishing(q) => q == p
    case _ => false
  }

  /** The worker will ask for an idle piece again before it can return without an error. */
  predicate Returning(x: Worker) {
    !x.Probing? && !x.Exited? && !x.Failed? && (x.Releasing? ==> x.why == Again)
  }

  ghost predicate NoIdle(s: State) {
    forall p :: 0 <= p < |s.pieces| ==> s.pieces[p].status != Idle
  }

  ghost predicate SomeoneReturns(s: State) {
    exists w :: 0 <= w < |s.workers| && Returning(s.workers[w])
  }

  ghost predicate SomeoneHolds(s: State, p: int) {
    exists w :: 0 <= w < |s.workers| && Holds(s.workers[w], p)
  }

  /** No piece is forgotten: an idle one will be asked for again, an active one has a worker, a complete one is full. */
  ghost predicate Accounted(c: Config, s: State)
    requires Shape(c, s)
  {
    && (NoIdle(s) || s.failed || s.cancelled || SomeoneReturns(s))
    && (forall p :: 0 <= p < |s.pieces| && s.pieces[p].status == Active ==> SomeoneHolds(s, p))
    && (forall p :: 0 <= p < |s.pieces| && s.pieces[p].status == Complete ==> s.pieces[p].Full())
    && (forall w :: 0 <= w < |s.workers| && s.workers[w].Finishing? ==> s.pieces[s.workers[w].p].Full())
  }

  /** What an effect does to responsibilities. */
  ghost predicate EffectAccounted(c: Config, s: State, w: nat, m: Move, e: Effect)
    requires Shape(c, s) && EffectShape(c, s, e) && w < |s.workers|
  {
    var v, x := s.pieces[e.p], s.workers[w];
    && v.done <= e.view.done
    && (e.view.status == Complete ==> e.view.Full() || v.status == Complete)
    && (e.view.status == Active ==> v.status == Active || Holds(e.worker, e.p))
    && (forall p :: Holds(x, p) ==> Holds(e.worker, p) || (p == e.p && e.view.status != Active))
    && (e.worker.Finishing? ==> if e.worker.p == e.p then e.view.Full() else s.pieces[e.worker.p].Full())
    && (|| Returning(e.worker) || m == GiveUp || m == Quit
        || (e.view.status == v.status && (!Returning(x) || NoIdle(s))))
  }

  lemma LookingAccounts(c: Config, s: State, w: nat, m: Move)
    requires Moves(c, s, w, m) && Covers(c) && EffectShape(c, s, EffectOf(c, s, w, m)) && s.workers[w].Looking?
    ensures EffectAccounted(c, s, w, m, EffectOf(c, s, w, m))
  {
    if m == Pick(-1) {
      NothingPickedIff(c.selector, s.pieces);
      forall p | 0 <= p < |s.pieces|
        ensures s.pieces[p].status != Idle
      {
        assert !IsIdle(s.pieces, p);
      }
    }
  }

  lemma ClaimedAccounts(c: Config, s: State, w: nat, m: Move)
    requires Moves(c, s, w, m) && EffectShape(c, s, EffectOf(c, s, w, m)) && s.workers[w].Claimed?
    ensures EffectAccounted(c, s, w, m, EffectOf(c, s, w, m))
  {
  }

  lemma ReleasingAccounts(c: Config, s: State, w: nat, m: Move)
    requires Moves(c, s, w, m) && EffectShape(c, s, EffectOf(c, s, w, m)) && s.workers[w].Releasing?
    ensures EffectAccounted(c, s, w, m, EffectOf(c, s, w, m))
  {
  }

  lemma FinishingAccounts(c: Config, s: State, w: nat, m: Move)
    requires Moves(c, s, w, m) && EffectShape(c, s, EffectOf(c, s, w, m)) && s.workers[w].Finishing?
    requires s.pieces[s.workers[w].p].Full()
    ensures EffectAccounted(c, s, w, m, EffectOf(c, s, w, m))
  {
  }

  lemma HoldingAccounts(c: Config, s: State, w: nat, m: Move)
    requires Moves(c, s, w, m) && EffectShape(c, s, EffectOf(c, s, w, m))
    requires s.workers[w].Holding? || s.workers[w].Fetching?
    ensures EffectAccounted(c, s, w, m, EffectOf(c, s, w, m))
  {
  }

  lemma AdvancingAccounts(c: Config, s: State, w: nat, m: Move)
    requires Moves(c, s, w, m) && EffectShape(c, s, EffectOf(c, s, w, m)) && s.workers[w].Advancing?
    ensures EffectAccounted(c, s, w, m, EffectOf(c, s, w, m))
  {
  }

  lemma ReadingAccounts(c: Config, s: State, w: nat, m: Move)
    requires Moves(c, s, w, m) && EffectShape(c, s, EffectOf(c, s, w, m)) && s.workers[w].Reading?
    ensures EffectAccounted(c, s, w, m, EffectOf(c, s, w, m))
  {
  }

  lemma BlockReadAccounts(c: Config, s: State, w: nat, m: Move)
    requires Moves(c, s, w, m) && EffectShape(c, s, EffectOf(c, s, w, m)) && s.workers[w].BlockRead?
    ensures EffectAccounted(c, s, w, m, EffectOf(c, s, w, m))
  {
  }

  lemma RangingAccounts(c: Config, s: State, w: nat, m: Move)
    requires Moves(c, s, w, m) && EffectShape(c, s, EffectOf(c, s, w, m)) && s.workers[w].Ranging?
    ensures EffectAccounted(c, s, w, m, EffectOf(c, s, w, m))
  {
  }

  lemma RangeAccounts(c: Config, s: State, w: nat, m: Move)
    requires Moves(c, s, w, m) && EffectShape(c, s, EffectOf(c, s, w, m))
    requires s.workers[w].RangeReading? || s.workers[w].Checking?
    ensures EffectAccounted(c, s, w, m, EffectOf(c, s, w, m))
  {
  }

  lemma ProbeAccounts(c: Config, s: State, w: nat, m: Move)
    requires Moves(c, s, w, m) && EffectShape(c, s, EffectOf(c, s, w, m))
    requires s.workers[w].Probing? || s.workers[w].Marking?
    ensures EffectAccounted(c, s, w, m, EffectOf(c, s, w, m))
  {
  }

  lemma StillReturns(c: Config, s: State, w: nat, m: Move, e: Effect)
    requires Shape(c, s) && Accounted(c, s) && w < |s.workers|
    requires EffectShape(c, s, e) && EffectAccounted(c, s, w, m, e)
    ensures var t := After(s, w, m, e); NoIdle(t) || t.failed || t.cancelled || SomeoneReturns(t)
  {
    var t := After(s, w, m, e);
    if Returning(e.worker) {
      assert Returning(t.workers[w]);
    } else if m != GiveUp && m != Quit {
      if NoIdle(s) {
        assert NoIdle(t);
      } else if SomeoneReturns(s) {
        var k :| 0 <= k < |s.workers| && Returning(s.workers[k]);
        assert Returning(t.workers[k]);
      }
    }
  }

  lemma StillHeld(c: Config, s: State, w: nat, m: Move, e: Effect)
    requires Shape(c, s) && Accounted(c, s) && w < |s.workers|
    requires EffectShape(c, s, e) && EffectAccounted(c, s, w, m, e)
    ensures var t := After(s, w, m, e);
            forall p :: 0 <= p < |t.pieces| && t.pieces[p].status == Active ==> SomeoneHolds(t, p)
  {
    var t := After(s, w, m, e);
    forall p | 0 <= p < |t.pieces| && t.pieces[p].status == Active
      ensures SomeoneHolds(t, p)
    {
      if Holds(e.worker, p) {
        assert Holds(t.workers[w], p);
      } else {
        var k :| 0 <= k < |s.workers| && Holds(s.workers[k], p);
        assert Holds(t.workers[k], p);
      }
    }
  }

  lemma StillFull(c: Config, s: State, w: nat, m: Move, e: Effect)
    requires Shape(c, s) && Accounted(c, s) && w < |s.workers|
    requires EffectShape(c, s, e) && EffectAccounted(c, s, w, m, e)
    ensures var t := After(s, w, m, e);
            && (forall p :: 0 <= p < |t.pieces| && t.pieces[p].status == Complete ==> t.pieces[p].Full())
            && (forall k :: 0 <= k < |t.workers| && t.workers[k].Finishing? ==> t.pieces[t.workers[k].p].Full())
  {
    FullStays(c, s, e);
  }

  lemma FullStays(c: Config, s: State, e: Effect)
    requires Shape(c, s) && EffectShape(c, s, e) && s.pieces[e.p].done <= e.view.done
    ensures s.pieces[e.p].Full() ==> e.view.Full()
  {
  }

  lemma ActAccounted(c: Config, s: State, w: nat, m: Move)
    requires Moves(c, s, w, m) && Covers(c) && Accounted(c, s)
    ensures Shape(c, Apply(c, s, Act(w, m))) && Accounted(c, Apply(c, s, Act(w, m)))
  {
    AnyEffect(c, s, w, m);
    var e := EffectOf(c, s, w, m);
    AnyAccounts(c, s, w, m);
    AfterShape(c, s, w, m, e);
    StillReturns(c, s, w, m, e);
    StillHeld(c, s, w, m, e);
    StillFull(c, s, w, m, e);
  }

  lemma AnyAccounts(c: Config, s: State, w: nat, m: Move)
    requires Moves(c, s, w, m) && Covers(c) && EffectShape(c, s, EffectOf(c, s, w, m))
    requires s.workers[w].Finishing? ==> s.pieces[s.workers[w].p].Full()
    ensures EffectAccounted(c, s, w, m, EffectOf(c, s, w, m))
  {
    match s.workers[w]
    case Looking => LookingAccounts(c, s, w, m);
    case Claimed(_) => ClaimedAccounts(c, s, w, m);
    case Releasing(_, _) => ReleasingAccounts(c, s, w, m);
    case Finishing(_) => FinishingAccounts(c, s, w, m);
    case Holding(_, _) => HoldingAccounts(c, s, w, m);
    case Fetching(_, _, _, _) => HoldingAccounts(c, s, w, m);
    case Advancing(_, _, _, _) => AdvancingAccounts(c, s, w, m);
    case Reading(_, _, _, _, _, _) => ReadingAccounts(c, s, w, m);
    case BlockRead(_, _, _, _, _) => BlockReadAccounts(c, s, w, m);
    case Ranging(_, _, _) => RangingAccounts(c, s, w, m);
    case RangeReading(_, _, _, _) => RangeAccounts(c, s, w, m);
    case Checking(_, _, _) => RangeAccounts(c, s, w, m);
    case Probing(_) => ProbeAccounts(c, s, w, m);
    case Marking(_, _, _, _, _) => ProbeAccounts(c, s, w, m);
    case Exited =>
    case Failed =>
  }

  lemma RestartAccounted(c: Config, s: State, resume: bool)
    requires ConfigOk(c) && Shape(c, s)
    ensures Shape(c, Apply(c, s, Restart(resume))) && Accounted(c, Apply(c, s, Restart(resume)))
  {
    ApplyShape(c, s, Restart(resume));
    var t := Apply(c, s, Restart(resume));
    assert Returning(t.workers[0]);
    forall p | 0 <= p < |t.pieces|
      ensures t.pieces[p].status == Idle || t.pieces[p].Full()
      ensures t.pieces[p].status != Active
    {
      GeometryFacts(c, p);
    }
  }

  lemma StepAccounted(c: Config, s: State, st: Step)
    requires Steps(c, s, st) && Covers(c) && Accounted(c, s)
    ensures Shape(c, Apply(c, s, st)) && Accounted(c, Apply(c, s, st))
  {
    match st
    case Act(w, m) => ActAccounted(c, s, w, m);
    case Restart(resume) => RestartAccounted(c, s, resume);
    case _ =>
      ApplyShape(c, s, st);
      SnapAccounted(c, s, Apply(c, s, st));
  }

  lemma SnapAccounted(c: Config, s: State, t: State)
    requires Shape(c, s) && Shape(c, t) && Accounted(c, s)
    requires t.pieces == s.pieces && t.workers == s.workers && t.failed == s.failed && t.cancelled == s.cancelled
    ensures Accounted(c, t)
  {
  }

  lemma {:induction false} RunAccounted(c: Config, s: State, steps: seq<Step>, t: State)
    requires ConfigOk(c) && Covers(c) && Run(c, s, steps, t) && Accounted(c, s)
    ensures Shape(c, t) && Accounted(c, t)
    decreases |steps|
  {
    if steps != [] {
      StepAccounted(c, s, steps[0]);
      RunAccounted(c, Apply(c, s, steps[0]), steps[1..], t);
    }
  }

  /** All workers have returned; the download reports success unless one of them failed. */
  ghost predicate AllReturned(s: State) {
    forall w :: 0 <= w < |s.workers| ==> s.workers[w] == Exited || s.workers[w] == Failed
  }

  lemma InitAccounted(c: Config, s: State)
    requires ConfigOk(c) && Init(c, s)
    ensures Shape(c, s) && Accounted(c, s)
  {
    InitShape(c, s);
    assert Returning(s.workers[0]);
    forall p | 0 <= p < |s.pieces|
      ensures s.pieces[p].status == Idle
    {
      GeometryFacts(c, p);
    }
  }

  lemma AccountedIsFull(c: Config, t: State)
    requires Shape(c, t) && Accounted(c, t) && AllReturned(t) && !t.failed && !t.cancelled
    ensures AllFull(t.pieces)
  {
    assert !SomeoneReturns(t);
    forall p | 0 <= p < |t.pieces|
      ensures t.pieces[p].Full()
    {
      assert !SomeoneHolds(t, p);
    }
  }

  /** If the selector covers all pieces, then in every run, when all workers have returned with neither a failure nor
      a cancellation, every block of every piece is done; and if the responses to stolen ranges ended at block
      boundaries, the file is the server's byte for byte. */
  lemma ReportedMeansComplete(c: Config, s0: State, steps: seq<Step>, t: State)
    requires ConfigOk(c) && Covers(c) && Init(c, s0) && Run(c, s0, steps, t)
    requires AllReturned(t) && !t.failed && !t.cancelled
    ensures Shape(c, t) && AllFull(t.pieces)
    ensures CleanRun(c, s0, steps, t) ==> t.file == c.source
  {
    InitAccounted(c, s0);
    RunAccounted(c, s0, steps, t);
    AccountedIsFull(c, t);
    if CleanRun(c, s0, steps, t) {
      DoneBitsNeverLie(c, s0, steps, t);
      FullMeansEqual(c, t);
    }
  }

  /** The worker has nothing to do with piece 0. */
  predicate AvoidsZero(x: Worker) {
    x.Looking? || x.Probing? || x.Exited? || x.Failed? || x.p != 0
  }

  ghost predicate ZeroUntouched(c: Config, s: State)
    requires Shape(c, s) && |c.layout| > 0
  {
    && s.pieces[0].status == Idle && s.pieces[0].done == {} && s.saved[0] == {}
    && (|s.snap| > 0 ==> s.snap[0] == {})
    && forall w :: 0 <= w < |s.workers| ==> AvoidsZero(s.workers[w])
  }

  lemma PieceMovesAvoidZero(c: Config, s: State, w: nat, m: Move)
    requires Moves(c, s, w, m) && !Stealing(s.workers[w]) && !Covers(c)
    requires s.pieces[0].status == Idle && AvoidsZero(s.workers[w])
    ensures var e := EffectOf(c, s, w, m); AvoidsZero(e.worker) && (e.p == 0 ==> e.view == s.pieces[0])
  {
    if Between(s.workers[w]) {
      PieceMovesAvoidZeroBetween(c, s, w, m);
    } else if Receiving(s.workers[w]) {
      PieceMovesAvoidZeroReceiving(c, s, w, m);
    } else {
      PieceMovesAvoidZeroAsking(c, s, w, m);
    }
  }

  lemma PieceMovesAvoidZeroBetween(c: Config, s: State, w: nat, m: Move)
    requires Moves(c, s, w, m) && Between(s.workers[w]) && !Covers(c)
    requires s.pieces[0].status == Idle && AvoidsZero(s.workers[w])
    ensures var e := EffectOf(c, s, w, m); AvoidsZero(e.worker) && (e.p == 0 ==> e.view == s.pieces[0])
  {
    GeomNeverPicksZero(s.pieces);
  }

  lemma PieceMovesAvoidZeroReceiving(c: Config, s: State, w: nat, m: Move)
    requires Moves(c, s, w, m) && Receiving(s.workers[w]) && !Covers(c)
    requires s.pieces[0].status == Idle && AvoidsZero(s.workers[w])
    ensures var e := EffectOf(c, s, w, m); AvoidsZero(e.worker) && (e.p == 0 ==> e.view == s.pieces[0])
  {
  }

  lemma PieceMovesAvoidZeroAsking(c: Config, s: State, w: nat, m: Move)
    requires Moves(c, s, w, m) && (s.workers[w].Holding? || s.workers[w].Fetching? || s.workers[w].Advancing?) && !Covers(c)
    requires s.pieces[0].status == Idle && AvoidsZero(s.workers[w])
    ensures var e := EffectOf(c, s, w, m); AvoidsZero(e.worker) && (e.p == 0 ==> e.view == s.pieces[0])
  {
  }

  lemma RangeMovesAvoidZero(c: Config, s: State, w: nat, m: Move)
    requires Moves(c, s, w, m) && s.pieces[0].status == Idle && AvoidsZero(s.workers[w])
    requires Stealing(s.workers[w])
    ensures var e := EffectOf(c, s, w, m); AvoidsZero(e.worker) && (e.p == 0 ==> e.view == s.pieces[0])
  {
  }

  lemma StepAvoidsZero(c: Config, s: State, st: Step)
    requires Steps(c, s, st) && !Covers(c) && ZeroUntouched(c, s)
    ensures Shape(c, Apply(c, s, st)) && ZeroUntouched(c, Apply(c, s, st))
  {
    ApplyShape(c, s, st);
    match st
    case Act(w, m) =>
      if Stealing(s.workers[w]) {
        RangeMovesAvoidZero(c, s, w, m);
      } else {
        PieceMovesAvoidZero(c, s, w, m);
      }
      AnyEffect(c, s, w, m);
      AfterAvoidsZero(c, s, w, m, EffectOf(c, s, w, m));
    case _ =>
      GeometryFacts(c, 0);
  }

  lemma AfterAvoidsZero(c: Config, s: State, w: nat, m: Move, e: Effect)
    requires Shape(c, s) && |c.layout| > 0 && ZeroUntouched(c, s) && w < |s.workers| && e.p < |s.pieces|
    requires AvoidsZero(e.worker) && (e.p == 0 ==> e.view == s.pieces[0])
    requires Shape(c, After(s, w, m, e))
    ensures ZeroUntouched(c, After(s, w, m, e))
  {
  }

  lemma {:induction false} RunAvoidsZero(c: Config, s: State, steps: seq<Step>, t: State)
    requires ConfigOk(c) && !Covers(c) && Run(c, s, steps, t) && ZeroUntouched(c, s)
    ensures Shape(c, t) && ZeroUntouched(c, t)
    decreases |steps|
  {
    if steps != [] {
      StepAvoidsZero(c, s, steps[0]);
      RunAvoidsZero(c, Apply(c, s, steps[0]), steps[1..], t);
    }
  }

  /** With the geom selector and an even number of pieces, no run ever finishes the file: not one block of piece 0
      is ever marked done, whatever the workers, saves and restarts do. */
  lemma EvenGeomNeverFinishes(c: Config, s0: State, steps: seq<Step>, t: State)
    requires ConfigOk(c) && c.selector == Geom && |c.layout| % 2 == 0
    requires Init(c, s0) && Run(c, s0, steps, t)
    ensures Shape(c, t) && t.pieces[0].done == {} && !AllFull(t.pieces)
  {
    InitShape(c, s0);
    GeometryFacts(c, 0);
    RunAvoidsZero(c, s0, steps, t);
    assert 0 in AllBlocks(t.pieces[0].N());
  }

  /** Workers k and above are still looking and quit; the others have returned. */
  lemma {:induction false} EveryoneQuits(c: Config, s: State, k: nat) returns (steps: seq<Step>, t: State)
    requires ConfigOk(c) && Shape(c, s) && k <= |s.workers|
    requires forall w :: 0 <= w < k ==> s.workers[w] == Exited || s.workers[w] == Failed
    requires forall w :: k <= w < |s.workers| ==> s.workers[w] == Looking
    ensures Run(c, s, steps, t) && AllReturned(t) && t.pieces == s.pieces && t.failed == s.failed
    decreases |s.workers| - k
  {
    if k == |s.workers| {
      steps, t := [], s;
    } else {
      var s' := QuitStep(c, s, k);
      var rest;
      rest, t := EveryoneQuits(c, s', k + 1);
      steps := [Act(k, Quit)] + rest;
      RunCons(c, s, Act(k, Quit), rest, t);
    }
  }

  lemma QuitStep(c: Config, s: State, w: nat) returns (s': State)
    requires ConfigOk(c) && Shape(c, s) && w < |s.workers| && s.workers[w] == Looking
    ensures Enabled(c, s, Act(w, Quit)) && s' == Apply(c, s, Act(w, Quit)) && Shape(c, s')
    ensures s'.pieces == s.pieces && s'.workers == s.workers[w := Exited] && s'.failed == s.failed
  {
    ApplyShape(c, s, Act(w, Quit));
    s' := Apply(c, s, Act(w, Quit));
  }

  /** Cancelling is different from failing: in every configuration, workers that see the cancellation at the top of
      their loop all return without an error, so the download is reported complete with nothing downloaded. */
  lemma CancelledLooksComplete(c: Config, s0: State) returns (steps: seq<Step>, t: State)
    requires ConfigOk(c) && Init(c, s0)
    ensures Run(c, s0, steps, t) && AllReturned(t) && !t.failed
    ensures Shape(c, t) && !AllFull(t.pieces) && forall p :: 0 <= p < |t.pieces| ==> t.pieces[p].done == {}
  {
    InitShape(c, s0);
    steps, t := EveryoneQuits(c, s0, 0);
    forall p | 0 <= p < |t.pieces|
      ensures t.pieces[p].done == {} && t.pieces[p].blockLength > 0
    {
      GeometryFacts(c, p);
    }
    RunShape(c, s0, steps, t);
    assert 0 in AllBlocks(t.pieces[0].N());
  }

  lemma {:induction false} RunShape(c: Config, s: State, steps: seq<Step>, t: State)
    requires ConfigOk(c) && Run(c, s, steps, t)
    ensures Shape(c, t)
    decreases |steps|
  {
    if steps != [] {
      RunShape(c, Apply(c, s, steps[0]), steps[1..], t);
    }
  }
}
