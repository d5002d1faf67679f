/** The fallback to one thread after a server has refused a range: what a later resume makes of the bits still kept. */
module ProtocolFallback {
  import opened Bits
  import opened Blocks
  import opened Pieces
  import opened Selection
  import opened Protocol
  import opened ProtocolSafety
  import opened ProtocolFinish
  import opened ProtocolMoves
  import opened ProtocolProgress
  import opened ProtocolThief
  import opened ProtocolEof
  import opened ProtocolReport

  /** All workers have returned, one of them with an error. */
  ghost predicate Refused(s: State) {
    AllReturned(s) && s.failed
  }

  /** The file cut to nothing and then written again up to byte n; what lies behind reads as zeros. */
  function Refetched(source: seq<byte>, n: nat): (file: seq<byte>)
    requires n <= |source|
  {
    seq(|source|, k requires 0 <= k < |source| => if k < n then source[k] else 0)
  }

  /** The fallback drops the saved bitmaps but not the pieces, so the next save writes their bits again. */
  ghost function FellBack(c: Config, s: State, n: nat): State
    requires n <= |c.source|
  {
    s.(file := Refetched(c.source, n), snap := [], saved := seq(|s.pieces|, i requires 0 <= i < |s.pieces| => s.pieces[i].done))
  }

  lemma FellBackShape(c: Config, s: State, n: nat)
    requires ConfigOk(c) && Shape(c, s) && 0 < n < |c.source|
    ensures Shape(c, FellBack(c, s, n)) && Shape(c, Apply(c, FellBack(c, s, n), Restart(true)))
  {
    forall i | 0 <= i < |s.pieces|
      ensures s.pieces[i].done <= AllBlocks(c.layout[i].N())
    {
      GeometryFacts(c, i);
    }
    RestartShape(c, FellBack(c, s, n), true);
  }

  /** The process stops when the single response has brought n bytes, and resumes from what is saved then. The bitmaps
      are loaded because the count of bytes saved with them is neither zero nor the whole size. */
  ghost function Resumption(c: Config, s: State, n: nat): (t: State)
    requires ConfigOk(c) && Shape(c, s) && 0 < n < |c.source|
    ensures Shape(c, t)
  {
    FellBackShape(c, s, n);
    Apply(c, FellBack(c, s, n), Restart(true))
  }

  lemma ResumptionRests(c: Config, s: State, n: nat)
    requires ConfigOk(c) && Shape(c, s) && 0 < n < |c.source|
    ensures var t := Resumption(c, s, n);
            Resting(c, t) && SameDone(s, t) && t.file == Refetched(c.source, n) && t.saved == FellBack(c, s, n).saved
  {
    FellBackShape(c, s, n);
    Restarted(c, FellBack(c, s, n), Resumption(c, s, n));
  }

  /** Byte k lies in a block marked done. */
  ghost predicate DoneByte(c: Config, s: State, k: int) {
    exists p: nat :: p < |c.layout| && p < |s.pieces| && c.layout[p].blockLength > 0
                     && InPieceBytes(c, p, k) && c.layout[p].IndexOf(k) in s.pieces[p].done
  }

  /** Every byte of a done block that the single response has not brought yet is a zero anyway. */
  ghost predicate NothingLost(c: Config, s: State, n: nat) {
    forall k :: n <= k < |c.source| && DoneByte(c, s, k) ==> c.source[k] == 0
  }

  /** Byte k of piece p is marked done and has been cut off. */
  ghost predicate LostAt(c: Config, s: State, n: nat, p: nat, k: nat) {
    && p < |c.layout| && p < |s.pieces| && c.layout[p].blockLength > 0 && InPieceBytes(c, p, k)
    && c.layout[p].IndexOf(k) in s.pieces[p].done && n <= k < |c.source| && c.source[k] != 0
  }

  lemma SomeLoss(c: Config, s: State, n: nat) returns (p: nat, k: nat)
    requires !NothingLost(c, s, n)
    ensures LostAt(c, s, n, p, k)
  {
    var at :| n <= at < |c.source| && DoneByte(c, s, at) && c.source[at] != 0;
    k := at;
    p :| p < |c.layout| && p < |s.pieces| && c.layout[p].blockLength > 0
         && InPieceBytes(c, p, k) && c.layout[p].IndexOf(k) in s.pieces[p].done;
  }

  lemma NothingLostHere(c: Config, s: State, n: nat, p: nat)
    requires ConfigOk(c) && Shape(c, s) && 0 < n < |c.source| && p < |s.pieces| && NothingLost(c, s, n)
    ensures c.layout[p].blockLength > 0 && SetGood(c, Refetched(c.source, n), p, s.pieces[p].done)
  {
    GeometryFacts(c, p);
    forall b | b in s.pieces[p].done
      ensures BlockGood(c, Refetched(c.source, n), p, b)
    {
      assert b in AllBlocks(s.pieces[p].N());
      BlockKept(c, s, n, p, b);
    }
  }

  lemma BlockKept(c: Config, s: State, n: nat, p: nat, b: nat)
    requires ConfigOk(c) && Shape(c, s) && 0 < n < |c.source| && InPiece(c, p, b) && b in s.pieces[p].done && NothingLost(c, s, n)
    ensures BlockGood(c, Refetched(c.source, n), p, b)
  {
    GeometryFacts(c, p);
    var v := c.layout[p];
    forall k | v.BlockStart(b) <= k < v.BlockEnd(b) && k < |c.source|
      ensures Refetched(c.source, n)[k] == c.source[k]
    {
      BlockOf(v, b, k);
      if k >= n {
        assert DoneByte(c, s, k);
      }
    }
  }

  lemma LossIsDishonest(c: Config, t: State, p: nat, k: nat)
    requires ConfigOk(c) && Shape(c, t) && Lies(c, t, p, k)
    ensures !Honest(c, t)
  {
    GeometryFacts(c, p);
    IndexOfContains(c.layout[p], k);
    assert !BlockGood(c, t.file, p, c.layout[p].IndexOf(k));
    assert !SetGood(c, t.file, p, t.pieces[p].done);
  }

  lemma LostBitsLie(c: Config, s: State, n: nat, p: nat, k: nat)
    requires ConfigOk(c) && Shape(c, s) && 0 < n < |c.source| && LostAt(c, s, n, p, k)
    ensures Lies(c, Resumption(c, s, n), p, k)
  {
    ResumptionRests(c, s, n);
  }

  lemma NothingLostIsHonest(c: Config, s: State, n: nat)
    requires ConfigOk(c) && Shape(c, s) && 0 < n < |c.source| && NothingLost(c, s, n)
    ensures Honest(c, Resumption(c, s, n))
  {
    ResumptionRests(c, s, n);
    forall p | 0 <= p < |s.pieces|
      ensures c.layout[p].blockLength > 0 && SetGood(c, Refetched(c.source, n), p, s.pieces[p].done)
    {
      NothingLostHere(c, s, n, p);
    }
    RestingHonest(c, s, Resumption(c, s, n));
  }

  lemma RestingHonest(c: Config, s: State, t: State)
    requires Shape(c, s) && Resting(c, t) && SameDone(s, t)
    requires t.saved == seq(|s.pieces|, i requires 0 <= i < |s.pieces| => s.pieces[i].done)
    requires forall p :: 0 <= p < |s.pieces| ==> c.layout[p].blockLength > 0 && SetGood(c, t.file, p, s.pieces[p].done)
    ensures Honest(c, t)
  {
  }

  /** The bits a resume after the fallback starts with are right if and only if nothing marked done has been cut off. */
  lemma ResumeHonestIff(c: Config, s: State, n: nat)
    requires ConfigOk(c) && Shape(c, s) && 0 < n < |c.source|
    ensures Honest(c, Resumption(c, s, n)) <==> NothingLost(c, s, n)
  {
    if NothingLost(c, s, n) {
      NothingLostIsHonest(c, s, n);
    } else {
      var p, k := SomeLoss(c, s, n);
      LostBitsLie(c, s, n, p, k);
      LossIsDishonest(c, Resumption(c, s, n), p, k);
    }
  }

  /** And whenever something has been lost, some continuation of the resumed download is reported as a success, with the
      lost bytes missing. */
  lemma LossIsReported(c: Config, s: State, n: nat) returns (t: State)
    requires ConfigOk(c) && Shape(c, s) && 0 < n < |c.source| && !NothingLost(c, s, n)
    ensures Reaches(c, Resumption(c, s, n), t) && Shape(c, t) && Reported(t) && t.file != c.source
  {
    var p, k := SomeLoss(c, s, n);
    LostBitsLie(c, s, n, p, k);
    ResumptionRests(c, s, n);
    AllPositive(c, Resumption(c, s, n));
    t := EndsWrong(c, Resumption(c, s, n), p, k);
  }

  // ----- such a state comes about -----

  /** Worker 0 is at x with piece p, the others have not begun; these blocks of p are done. */
  ghost predicate Alone(c: Config, s: State, x: Worker, p: nat, done: set<nat>) {
    && At(c, s, 0, x) && p < |s.pieces| && s.pieces[p].done == done
    && forall w :: 1 <= w < |s.workers| ==> s.workers[w] == Looking
  }

  lemma NextBlockOf(v: PieceView, j: nat)
    requires v.blockLength > 0 && v.length > 0 && j + 1 < v.N() && v.done == AllBlocks(j) && v.inUse == {j}
    ensures var u := v.(done := AllBlocks(j + 1), inUse := {});
            && v.CompleteBlock(j) == u && u.NextBlock() == j + 1 && u.Claim() == u.(inUse := {j + 1})
            && v.BlockStart(j + 1) == v.BlockEnd(j)
  {
    var u := v.(done := AllBlocks(j + 1), inUse := {});
    assert AllBlocks(j) + {j} == AllBlocks(j + 1) && {j} - {j} == {} && {} + {j + 1} == {j + 1};
    assert j + 1 in AllBlocks(v.N()) && j + 1 !in u.done;
    assert forall i: nat :: i < v.N() ==> (i in u.done || i in u.inUse <==> i < j + 1 || i >= v.N());
    FreeBlock(u.done, u.inUse, v.N(), j + 1, v.N());
    BlockBounds(v, j);
  }

  /** One block is fetched, and the next one begun on the same response. */
  lemma TakesAndGoesOn(c: Config, s: State, p: nat, end: int, j: nat, limit: nat, v: PieceView) returns (t: State)
    requires p < |c.layout| && c.layout[p].blockLength > 0 && At(c, s, 0, ReadingAt(c, p, end, j, limit))
    requires limit >= c.layout[p].start + c.layout[p].length && v == s.pieces[p]
    requires v.blockLength > 0 && v.length > 0 && j + 1 < v.N() && v.done == AllBlocks(j) && v.inUse == {j}
    ensures Does(c, s, t, 0, p, AllBlocks(v.N()), ReadingAt(c, p, end, j + 1, limit),
                 v.(done := AllBlocks(j + 1), inUse := {j + 1}))
  {
    NextBlockOf(v, j);
    var all, cur := AllBlocks(v.N()), c.layout[p].BlockEnd(j);
    assert j in all;
    var m := TakesBlock(c, s, 0, p, end, j, limit, all);
    t := Continues(c, m, 0, p, end, cur, limit, all);
    DoesJoin(c, s, m, t, 0, p, all, Advancing(p, end, cur, limit), v.CompleteBlock(j),
             ReadingAt(c, p, end, j + 1, limit), v.(done := AllBlocks(j + 1), inUse := {j + 1}));
  }

  /** Block after block on one response, until block b has been begun. */
  lemma {:induction false} ReadsUpTo(c: Config, s: State, p: nat, end: int, j: nat, b: nat, limit: nat, v: PieceView)
      returns (t: State)
    requires p < |c.layout| && c.layout[p].blockLength > 0 && At(c, s, 0, ReadingAt(c, p, end, j, limit))
    requires limit >= c.layout[p].start + c.layout[p].length && v == s.pieces[p]
    requires v.blockLength > 0 && v.length > 0 && j <= b < v.N() && v.done == AllBlocks(j) && v.inUse == {j}
    ensures Does(c, s, t, 0, p, AllBlocks(v.N()), ReadingAt(c, p, end, b, limit), v.(done := AllBlocks(b), inUse := {b}))
    decreases b - j
  {
    if j == b {
      t := s;
      Stays(c, s, 0, p, AllBlocks(v.N()));
    } else {
      var u := v.(done := AllBlocks(j + 1), inUse := {j + 1});
      var m := TakesAndGoesOn(c, s, p, end, j, limit, v);
      t := ReadsUpTo(c, m, p, end, j + 1, b, limit, u);
      DoesJoin(c, s, m, t, 0, p, AllBlocks(v.N()), ReadingAt(c, p, end, j + 1, limit), u,
               ReadingAt(c, p, end, b, limit), v.(done := AllBlocks(b), inUse := {b}));
    }
  }

  lemma ActOf(c: Config, s: State, m: Move) returns (t: State)
    requires Moves(c, s, 0, m)
    ensures Leads(c, s, Act(0, m), t) && Shape(c, t) && t == After(s, 0, m, EffectOf(c, s, 0, m))
  {
    ApplyShape(c, s, Act(0, m));
    t := Apply(c, s, Act(0, m));
  }

  /** The response breaks off in block b. */
  lemma LosesResponse(c: Config, s: State, p: nat, end: int, b: nat, limit: nat, done: set<nat>) returns (t: State)
    requires p < |c.layout| && c.layout[p].blockLength > 0 && b < c.layout[p].N() && b !in done
    requires Alone(c, s, ReadingAt(c, p, end, b, limit), p, done) && s.pieces[p].inUse == {b}
    ensures Leads(c, s, Act(0, BreakOff(0)), t) && Alone(c, t, Holding(p, end), p, done) && t.pieces[p].NextBlock() >= 0
  {
    t := ActOf(c, s, BreakOff(0));
    assert b in AllBlocks(t.pieces[p].N());
  }

  /** The request for the block is refused. */
  lemma IsRefused(c: Config, s: State, p: nat, end: int, done: set<nat>) returns (m: State, t: State)
    requires Alone(c, s, Holding(p, end), p, done) && s.pieces[p].blockLength > 0 && s.pieces[p].NextBlock() >= 0
    ensures Leads(c, s, Act(0, Request), m) && Leads(c, m, Act(0, Refuse), t) && Alone(c, t, Holding(p, end), p, done)
  {
    m := ActOf(c, s, Request);
    t := ActOf(c, m, Refuse);
  }

  /** Worker 0 gives up; the others see that and return. */
  lemma GivesUp(c: Config, s: State, p: nat, end: int, done: set<nat>) returns (t: State)
    requires Alone(c, s, Holding(p, end), p, done)
    ensures Gets(c, s, t) && Shape(c, t) && Refused(t) && p < |t.pieces| && t.pieces[p].done == done
  {
    var m1 := ActOf(c, s, GiveUp);
    var m2 := ActOf(c, m1, Disown);
    var steps;
    steps, t := EveryoneQuits(c, m2, 1);
    RunShape(c, m2, steps, t);
    GetsNext(c, m1, Act(0, Disown), t);
    GetsNext(c, s, Act(0, GiveUp), t);
  }

  lemma LosesAndGivesUp(c: Config, s: State, p: nat, end: int, b: nat, limit: nat, done: set<nat>) returns (t: State)
    requires p < |c.layout| && c.layout[p].blockLength > 0 && b < c.layout[p].N() && b !in done
    requires Alone(c, s, ReadingAt(c, p, end, b, limit), p, done) && s.pieces[p].inUse == {b}
    ensures Gets(c, s, t) && Shape(c, t) && Refused(t) && p < |t.pieces| && t.pieces[p].done == done
  {
    var m1 := LosesResponse(c, s, p, end, b, limit, done);
    GeometryFacts(c, p);
    var m2, m3 := IsRefused(c, m1, p, end, done);
    t := GivesUp(c, m3, p, end, done);
    GetsNext(c, m2, Act(0, Refuse), t);
    GetsNext(c, m1, Act(0, Request), t);
    GetsNext(c, s, Act(0, BreakOff(0)), t);
  }

  /** From a fresh start worker 0 is handed piece p and fetches its first b blocks. */
  lemma FetchesFirst(c: Config, s0: State, p: nat, b: nat) returns (t: State, end: int, limit: nat)
    requires ConfigOk(c) && Init(c, s0) && p < |c.layout| && Handed(c, p) && c.layout[p].blockLength > 0 && b < c.layout[p].N()
    ensures Reaches(c, s0, t) && Alone(c, t, ReadingAt(c, p, end, b, limit), p, AllBlocks(b)) && t.pieces[p].inUse == {b}
  {
    var m1;
    m1, end := OwnerBegins(c, s0, p);
    GeometryFacts(c, p);
    var v := Activated(c.layout[p], 1);
    var all, u := AllBlocks(v.N()), v.(inUse := {0});
    FirstIsNext(v);
    var m2;
    m2, limit := Claims(c, m1, 0, p, end, 0, all);
    t := ReadsUpTo(c, m2, p, end, 0, b, limit, u);
    ReachesJoin(c, m1, m2, t);
    ReachesJoin(c, s0, m1, t);
  }

  lemma FirstIsNext(v: PieceView)
    requires v.blockLength > 0 && v.done == {} && v.inUse == {} && v.N() > 0
    ensures v.NextBlock() == 0 && AllBlocks(0) == {}
  {
  }

  /** For every piece that is handed out and every non-zero byte of it that is not in its last block: some run fetches
      the blocks up to that byte, and the next request is refused; when the single response has not got as far, the
      resumed download can be reported without the byte. */
  lemma FallbackLoses(c: Config, p: nat, k: nat, n: nat) returns (s0: State, s: State, t: State)
    requires ConfigOk(c) && p < |c.layout| && Handed(c, p) && c.layout[p].blockLength > 0
    requires InPieceBytes(c, p, k) && c.layout[p].IndexOf(k) < c.layout[p].N() - 1
    requires 0 < n <= k < |c.source| && c.source[k] != 0
    ensures Init(c, s0) && Gets(c, s0, s) && Shape(c, s) && Refused(s)
    ensures Reaches(c, Resumption(c, s, n), t) && Shape(c, t) && Reported(t) && t.file != c.source
  {
    s0 := WrongStart(c);
    WrongStartIsInit(c);
    s := RefusedAfter(c, s0, p, k);
    assert DoneByte(c, s, k);
    t := LossIsReported(c, s, n);
  }

  lemma RefusedAfter(c: Config, s0: State, p: nat, k: nat) returns (s: State)
    requires ConfigOk(c) && Init(c, s0) && p < |c.layout| && Handed(c, p) && c.layout[p].blockLength > 0
    requires InPieceBytes(c, p, k) && c.layout[p].IndexOf(k) < c.layout[p].N() - 1
    ensures Gets(c, s0, s) && Shape(c, s) && Refused(s) && c.layout[p].IndexOf(k) in s.pieces[p].done
  {
    GeometryFacts(c, p);
    IndexOfContains(c.layout[p], k);
    var b := c.layout[p].IndexOf(k) + 1;
    var m, end, limit := FetchesFirst(c, s0, p, b);
    s := LosesAndGivesUp(c, m, p, end, b, limit, AllBlocks(b));
    ReachesGets(c, s0, m, s);
  }
}
