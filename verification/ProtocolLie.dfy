/** Runs in which a response to a stolen range ends inside a block: what they mark, and what they report. */
module ProtocolLie {
  import opened Bits
  import opened Pieces
  import opened Protocol
  import opened ProtocolSafety
  import opened ProtocolMoves
  import opened ProtocolProgress
  import opened ProtocolThief
  import opened ProtocolEof
  import opened ProtocolExposed

  /** The response to a stolen range ends at cur, wherever that is. */
  lemma ResponseEnds(c: Config, s: State, w: nat, p: nat, start: nat, stop: nat, cur: nat) returns (t: State)
    requires At(c, s, w, RangeReading(p, start, stop, cur))
    ensures Steps(c, s, Act(w, Eof)) && t == Apply(c, s, Act(w, Eof)) && Shape(c, t)
    ensures t == s.(workers := s.workers[w := AtRangeEnd(c, p, start, stop, cur)])
  {
    EndMove(c, s, w);
    ApplyShape(c, s, Act(w, Eof));
    t := Apply(c, s, Act(w, Eof));
    assert s.pieces[0 := s.pieces[0]] == s.pieces;
  }

  lemma MarkedNext(v: PieceView, next: nat, last: nat)
    requires v.blockLength > 0
    ensures if next > last then MarkedRange(v, next, last) == v
            else MarkedRange(v, next, last) == MarkedRange(v.CompleteBlock(next), next + 1, last)
  {
  }

  /** All blocks from next to last are marked. */
  lemma {:induction false} MarksUpTo(c: Config, s: State, w: nat, p: nat, start: nat, stop: nat, next: nat, last: nat, r: PieceView)
      returns (t: State)
    requires At(c, s, w, Marking(p, start, stop, next, last)) && next <= last + 1
    requires s.pieces[p].blockLength > 0 && r == MarkedRange(s.pieces[p], next, last)
    ensures Does(c, s, t, w, p, {}, Marking(p, start, stop, last + 1, last), r)
    decreases last + 1 - next, 1
  {
    MarkedNext(s.pieces[p], next, last);
    if next == last + 1 {
      t := s;
      Stays(c, s, w, p, {});
    } else {
      t := MarksFrom(c, s, w, p, start, stop, next, last, r);
    }
  }

  lemma {:induction false} MarksFrom(c: Config, s: State, w: nat, p: nat, start: nat, stop: nat, next: nat, last: nat, r: PieceView)
      returns (t: State)
    requires At(c, s, w, Marking(p, start, stop, next, last)) && next <= last && s.pieces[p].blockLength > 0
    requires r == MarkedRange(s.pieces[p].CompleteBlock(next), next + 1, last)
    ensures Does(c, s, t, w, p, {}, Marking(p, start, stop, last + 1, last), r)
    decreases last + 1 - next, 0
  {
    var m := MarksOne(c, s, w, p, start, stop, next, last);
    t := MarksUpTo(c, m, w, p, start, stop, next + 1, last, r);
    DoesJoin(c, s, m, t, w, p, {}, Marking(p, start, stop, next + 1, last), s.pieces[p].CompleteBlock(next),
             Marking(p, start, stop, last + 1, last), r);
  }

  lemma MarksOne(c: Config, s: State, w: nat, p: nat, start: nat, stop: nat, next: nat, last: nat) returns (t: State)
    requires At(c, s, w, Marking(p, start, stop, next, last)) && next <= last
    ensures s.pieces[p].blockLength > 0
    ensures Does(c, s, t, w, p, {}, Marking(p, start, stop, next + 1, last), s.pieces[p].CompleteBlock(next))
  {
    GeometryFacts(c, p);
    MarkMove(c, s, w);
    t := Acts(c, s, w, Mark, Effect(s.file, p, s.pieces[p].CompleteBlock(next), Marking(p, start, stop, next + 1, last)), p, {});
  }

  lemma RangeBlocks(c: Config, p: nat, start: nat, stop: nat, cur: nat)
    requires ConfigOk(c) && StolenFrom(c, p, start, stop) && start < cur <= stop
    ensures var first, last := c.layout[p].IndexOf(start), c.layout[p].IndexOf(cur - 1);
            0 <= first <= last < c.layout[p].N() && AtRangeEnd(c, p, start, stop, cur) == Marking(p, start, stop, first, last)
  {
    GeometryFacts(c, p);
    IndexOfContains(c.layout[p], start);
    IndexOfContains(c.layout[p], cur - 1);
    IndexOfMonotone(c.layout[p], start, cur - 1);
  }

  /** The response ends at cur and the blocks it touched are marked. */
  lemma EndsAndMarks(c: Config, s: State, w: nat, p: nat, start: nat, stop: nat, cur: nat, first: nat, last: nat)
      returns (t: State)
    requires At(c, s, w, RangeReading(p, start, stop, cur)) && StolenFrom(c, p, start, stop) && start < cur <= stop
    requires first == c.layout[p].IndexOf(start) && last == c.layout[p].IndexOf(cur - 1)
    ensures first <= last && s.pieces[p].blockLength > 0 && Gets(c, s, t) && Shape(c, t)
    ensures Frame(c, s, t, w, p, {}, Marking(p, start, stop, last + 1, last), MarkedRange(s.pieces[p], first, last))
  {
    RangeBlocks(c, p, start, stop, cur);
    var m := ResponseEnds(c, s, w, p, start, stop, cur);
    t := MarksUpTo(c, m, w, p, start, stop, first, last, MarkedRange(s.pieces[p], first, last));
    ReachedIsGot(c, m, t);
    GetsNext(c, s, Act(w, Eof), t);
    EndedFrame(c, s, m, t, w, p, Marking(p, start, stop, first, last), Marking(p, start, stop, last + 1, last),
               MarkedRange(s.pieces[p], first, last));
  }

  lemma EndedFrame(c: Config, s: State, m: State, t: State, w: nat, p: nat, x: Worker, x': Worker, v: PieceView)
    requires w < |s.workers| && m == s.(workers := s.workers[w := x]) && Frame(c, m, t, w, p, {}, x', v)
    ensures Frame(c, s, t, w, p, {}, x', v)
  {
    assert s.workers[w := x][w := x'] == s.workers[w := x'];
  }

  lemma SameFile(c: Config, s: State, t: State, w: nat, p: nat, x: Worker, v: PieceView)
    requires Frame(c, s, t, w, p, {}, x, v)
    ensures t.file == s.file
  {
  }

  /** For every configuration and every exposed end of a response inside a block: a run from a fresh start after which
      that block is marked done although the byte at the end of the response is wrong. */
  lemma EarlyEndLies(c: Config, p: nat, start: nat, stop: nat, cur: nat) returns (s0: State, t: State, b: nat)
    requires ConfigOk(c) && StolenFrom(c, p, start, stop) && start <= cur <= stop
    requires !AtBoundary(c, p, stop, cur) && Exposed(c, p, start, stop, cur)
    ensures Init(c, s0) && Gets(c, s0, t) && Shape(c, t)
    ensures b in t.pieces[p].done && c.layout[p].BlockStart(b) <= cur < c.layout[p].BlockEnd(b)
    ensures cur < |t.file| && t.file[cur] != c.source[cur]
  {
    InsideRange(c, p, start, stop, cur);
    var got :| Yields(c, p, got, start, stop) && c.layout[p].IndexOf(cur - 1) !in got;
    MisalignedByte(c, p, start, stop, cur);
    b := c.layout[p].IndexOf(cur - 1);
    s0, t := LieAfter(c, p, got, start, stop, cur, b);
  }

  lemma LieAfter(c: Config, p: nat, got: set<nat>, start: nat, stop: nat, cur: nat, b: nat) returns (s0: State, t: State)
    requires ConfigOk(c) && StolenFrom(c, p, start, stop) && start < cur < stop
    requires c.workers >= 2 && Handed(c, p) && Yields(c, p, got, start, stop) && InPieceBytes(c, p, cur)
    requires b == c.layout[p].IndexOf(cur - 1) == c.layout[p].IndexOf(cur) && b !in got && b < c.layout[p].N()
    ensures Init(c, s0) && Gets(c, s0, t) && Shape(c, t) && b in t.pieces[p].done
    ensures cur < |t.file| && t.file[cur] != c.source[cur]
  {
    var m;
    s0, m := ResponseAt(c, p, got, start, stop, cur);
    t := MarksWrong(c, m, p, got, start, stop, cur, b);
    ReachesGets(c, s0, m, t);
  }

  lemma MarksWrong(c: Config, s: State, p: nat, got: set<nat>, start: nat, stop: nat, cur: nat, b: nat) returns (t: State)
    requires At(c, s, 1, RangeReading(p, start, stop, cur)) && StolenFrom(c, p, start, stop) && start < cur < stop
    requires b == c.layout[p].IndexOf(cur - 1) == c.layout[p].IndexOf(cur) && b !in got && b < c.layout[p].N()
    requires Wrong(c, s.file, p, got, cur)
    ensures Gets(c, s, t) && Shape(c, t) && b in t.pieces[p].done
    ensures cur < |t.file| && t.file[cur] != c.source[cur]
  {
    RangeBlocks(c, p, start, stop, cur);
    var first := c.layout[p].IndexOf(start);
    t := EndsAndMarks(c, s, 1, p, start, stop, cur, first, b);
    SameFile(c, s, t, 1, p, t.workers[1], t.pieces[p]);
    WrongAt(c, s.file, p, got, cur);
  }

  lemma WrongAt(c: Config, file: seq<byte>, p: nat, got: set<nat>, cur: nat)
    requires p < |c.layout| && c.layout[p].blockLength > 0 && |file| == |c.source| && Wrong(c, file, p, got, cur)
    requires cur < |file| && InPieceBytes(c, p, cur) && c.layout[p].IndexOf(cur) !in got
    ensures file[cur] != c.source[cur]
  {
  }

  // ----- exactly when no done bit ever lies -----

  /** In every state of every run from a fresh start, wherever responses end, each done block is on disk. */
  ghost predicate AlwaysHonest(c: Config)
    requires ConfigOk(c)
  {
    forall s0, t :: Init(c, s0) && Gets(c, s0, t) && Shape(c, t) ==> Honest(c, t)
  }

  lemma StepHonest(c: Config, s: State, st: Step)
    requires Steps(c, s, st) && Honest(c, s) && Thefts(c, s) && NothingExposed(c)
    ensures Shape(c, Apply(c, s, st)) && Honest(c, Apply(c, s, st))
  {
    if Clean(c, s, st) {
      ApplyHonest(c, s, st);
    } else {
      var x := s.workers[st.w];
      EndHonest(c, s, st.w, x.p, x.start, x.stop, x.cur);
    }
  }

  /** A response that ends inside a block of a range nobody could have stolen with that block missing. */
  lemma EndHonest(c: Config, s: State, w: nat, p: nat, start: nat, stop: nat, cur: nat)
    requires At(c, s, w, RangeReading(p, start, stop, cur)) && Honest(c, s) && Thefts(c, s) && NothingExposed(c)
    requires StolenFrom(c, p, start, stop) && start <= cur <= stop && !AtBoundary(c, p, stop, cur)
    ensures Shape(c, Apply(c, s, Act(w, Eof))) && Honest(c, Apply(c, s, Act(w, Eof)))
  {
    InsideRange(c, p, start, stop, cur);
    LastBlockIsDone(c, s, w, p, start, stop, cur);
    DoneBlockGood(c, p, start, stop, cur, s, w);
    var t := ResponseEnds(c, s, w, p, start, stop, cur);
    HonestWith(c, s, t, w, AtRangeEnd(c, p, start, stop, cur));
  }

  lemma LastBlockIsDone(c: Config, s: State, w: nat, p: nat, start: nat, stop: nat, cur: nat)
    requires At(c, s, w, RangeReading(p, start, stop, cur)) && Thefts(c, s) && NothingExposed(c)
    requires StolenFrom(c, p, start, stop) && start <= cur <= stop && !AtBoundary(c, p, stop, cur)
    ensures c.layout[p].IndexOf(cur - 1) in s.pieces[p].done
  {
    RangeIsTheft(c, s, w);
    var got :| got <= s.pieces[p].done && Yields(c, p, got, start, stop);
    assert !Exposed(c, p, start, stop, cur);
    assert c.layout[p].IndexOf(cur - 1) in got;
  }

  lemma HonestWith(c: Config, s: State, t: State, w: nat, x: Worker)
    requires Shape(c, s) && Honest(c, s) && Shape(c, t) && w < |s.workers| && t == s.(workers := s.workers[w := x])
    requires WorkerShape(c, x) && WorkerGood(c, s.file, x)
    ensures Honest(c, t)
  {
  }

  lemma {:induction false} RunHonest(c: Config, s: State, steps: seq<Step>, t: State)
    requires ConfigOk(c) && Run(c, s, steps, t) && Honest(c, s) && Thefts(c, s) && NothingExposed(c)
    ensures Shape(c, t) && Honest(c, t)
    decreases |steps|
  {
    if steps != [] {
      RunUncons(c, s, steps, t);
      StepHonest(c, s, steps[0]);
      StepThefts(c, s, steps[0]);
      RunHonest(c, Apply(c, s, steps[0]), steps[1..], t);
    }
  }

  /** No done bit ever lies, in any run, if and only if there is only one worker or no piece that is handed out is long
      enough for a theft. */
  lemma AlwaysHonestIff(c: Config)
    requires ConfigOk(c)
    ensures AlwaysHonest(c) <==> !TheftsPossible(c)
  {
    ExposedIff(c);
    if NothingExposed(c) {
      forall s0, t | Init(c, s0) && Gets(c, s0, t) && Shape(c, t)
        ensures Honest(c, t)
      {
        var steps :| Run(c, s0, steps, t);
        InitShape(c, s0);
        InitThefts(c, s0);
        RunHonest(c, s0, steps, t);
      }
    } else {
      var p: nat, start: nat, stop: nat, cur: nat :|
        StolenFrom(c, p, start, stop) && start <= cur <= stop && Exposed(c, p, start, stop, cur) && !AtBoundary(c, p, stop, cur);
      LieIsDishonest(c, p, start, stop, cur);
    }
  }

  lemma LieIsDishonest(c: Config, p: nat, start: nat, stop: nat, cur: nat)
    requires ConfigOk(c) && StolenFrom(c, p, start, stop) && start <= cur <= stop
    requires !AtBoundary(c, p, stop, cur) && Exposed(c, p, start, stop, cur)
    ensures !AlwaysHonest(c)
  {
    var s0, t, b := EarlyEndLies(c, p, start, stop, cur);
    assert !BlockGood(c, t.file, p, b);
    assert !SetGood(c, t.file, p, t.pieces[p].done);
  }
}
