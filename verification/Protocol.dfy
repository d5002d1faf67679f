/** The parallel download as a transition system: any number of workers, each step one critical section or
    one read of a response, interleaved in any order, with progress saved and the process restarted at any time. */
module Protocol {
  import opened Bits
  import opened Blocks
  import opened Pieces
  import opened Selection
  import Split

  /** What does not change: the bytes on the server, the split of the file, and the settings. */
  datatype Config = Config(source: seq<byte>, layout: seq<PieceView>, selector: Selector, minSteal: int, workers: nat)

  ghost predicate ConfigOk(c: Config) {
    c.workers > 0 && |c.layout| > 0 && Split.Tiles(c.layout, |c.source|)
  }

  /** Where a worker is in its loop, with the loop's local variables. `p` is always a piece index; `limit` and
      `stop` are one past the last byte requested. */
  datatype Worker =
    | Looking                                                        // about to ask for a piece
    | Probing(i: nat)                                                // no idle piece: looking for a victim from i on
    | Claimed(p: nat)                                                // owns p, waiting for a connection slot
    | Holding(p: nat, end: int)                                      // top of the block loop of piece p
    | Fetching(p: nat, end: int, blk: nat, limit: nat)               // block claimed, request sent
    | Reading(p: nat, end: int, blk: nat, cur: nat, remaining: int, limit: nat)
    | BlockRead(p: nat, end: int, blk: nat, cur: nat, limit: nat)    // nothing remaining in the block: about to mark it
    | Advancing(p: nat, end: int, cur: nat, limit: nat)              // block marked: about to continue or stop
    | Releasing(p: nat, why: Why)                                    // made p idle again, about to clear its owner
    | Finishing(p: nat)                                              // saw p complete: about to say so to the manager
    | Ranging(p: nat, start: nat, stop: nat)                         // stole a range, about to request it
    | RangeReading(p: nat, start: nat, stop: nat, cur: nat)
    | Marking(p: nat, start: nat, stop: nat, next: nat, last: nat)   // end of the response: marking blocks next..last
    | Checking(p: nat, start: nat, stop: nat)                        // all marked: is the piece complete?
    | Exited
    | Failed

  /** Why a worker gives a piece back: to start over, because of a cancellation, or after an error. */
  datatype Why = Again | Cancelled | GaveUp

  /** What a worker can do; which move applies, and what it does, depends on where the worker is. */
  datatype Move =
    | Pick(r: int)       // the manager answers r (-1: no idle piece)
    | Throttle           // too many connections: give the piece or range back and start over
    | Begin              // got a connection slot
    | SeeComplete
    | Request            // claim a block and ask for it
    | Refuse             // the request fails or is not answered with partial content
    | Accept             // the response starts
    | Receive(n: nat)    // n more bytes arrive and are written
    | BreakOff(n: nat)   // n bytes are written, then writing, reading, rate limit or speed fails
    | Eof                // the response ends
    | Mark               // mark one block (or, when Finishing, the piece) done
    | Continue           // go on with the next unused block on the same response, if it is adjacent
    | Probe              // try to steal from the next piece
    | Leave              // nothing idle and nothing to steal: the worker returns
    | Check              // is the piece of the stolen range complete?
    | Disown             // clear the owner of the piece given back
    | GiveUp             // all sources and retries failed: the worker returns an error
    | Quit               // the download was cancelled: the worker returns without an error

  datatype Step =
    | Act(w: nat, move: Move)
    | SnapPiece            // serialization copies the next piece's bitmap
    | SnapCommit           // the control file is written
    | SnapDrop             // writing it fails
    | Restart(resume: bool)

  datatype State = State(file: seq<byte>, pieces: seq<PieceView>, workers: seq<Worker>,
                         saved: seq<set<nat>>,   // done blocks in the control file
                         snap: seq<set<nat>>,    // done blocks copied so far by a running serialization
                         failed: bool, cancelled: bool)

  ghost predicate SameGeometry(a: seq<PieceView>, b: seq<PieceView>) {
    |a| == |b| && forall i :: 0 <= i < |a| ==>
      a[i].start == b[i].start && a[i].length == b[i].length && a[i].blockLength == b[i].blockLength
  }

  ghost predicate Init(c: Config, s: State) {
    && |s.file| == |c.source|
    && s.pieces == c.layout
    && s.workers == seq(c.workers, _ => Looking)
    && s.saved == seq(|c.layout|, _ => {})
    && s.snap == [] && !s.failed && !s.cancelled
  }

  /** Shape of a state, enough for every step to be well defined. */
  ghost predicate Shape(c: Config, s: State) {
    && |s.file| == |c.source|
    && SameGeometry(s.pieces, c.layout)
    && (forall i :: 0 <= i < |s.pieces| ==> s.pieces[i].WF())
    && |s.workers| == c.workers
    && |s.saved| == |c.layout| && |s.snap| <= |c.layout|
    && (forall i :: 0 <= i < |s.saved| ==> s.saved[i] <= AllBlocks(c.layout[i].N()))
    && (forall i :: 0 <= i < |s.snap| ==> s.snap[i] <= AllBlocks(c.layout[i].N()))
    && forall w :: 0 <= w < |s.workers| ==> WorkerShape(c, s.workers[w])
  }

  ghost predicate WorkerShape(c: Config, x: Worker) {
    match x
    case Looking => true
    case Probing(i) => i <= |c.layout|
    case Claimed(p) => p < |c.layout|
    case Holding(p, _) => p < |c.layout|
    case Fetching(p, _, b, limit) => InPiece(c, p, b) && c.layout[p].BlockStart(b) <= limit <= |c.source|
    case Reading(p, _, b, cur, remaining, limit) =>
      && InPiece(c, p, b) && c.layout[p].BlockStart(b) <= cur <= limit <= |c.source|
      && remaining > 0 && cur + remaining == c.layout[p].BlockEnd(b)
    case BlockRead(p, _, b, cur, limit) => InPiece(c, p, b) && cur <= limit <= |c.source|
    case Advancing(p, _, cur, limit) => p < |c.layout| && cur <= limit <= |c.source|
    case Releasing(p, _) => p < |c.layout|
    case Finishing(p) => p < |c.layout|
    case Ranging(p, start, stop) => StolenFrom(c, p, start, stop)
    case RangeReading(p, start, stop, cur) => StolenFrom(c, p, start, stop) && start <= cur <= stop
    case Marking(p, start, stop, next, last) =>
      StolenFrom(c, p, start, stop) && next <= last + 1 <= c.layout[p].N()
    case Checking(p, start, stop) => StolenFrom(c, p, start, stop)
    case Exited => true
    case Failed => true
  }

  ghost predicate InPiece(c: Config, p: nat, b: nat) {
    p < |c.layout| && c.layout[p].blockLength > 0 && b < c.layout[p].N()
  }

  /** [start, stop) runs from a block boundary of piece p to its end. */
  ghost predicate StolenFrom(c: Config, p: nat, start: nat, stop: nat) {
    && p < |c.layout| && c.layout[p].blockLength > 0
    && c.layout[p].start <= start < stop == c.layout[p].start + c.layout[p].length
    && stop <= |c.source|
    && start == c.layout[p].BlockStart(c.layout[p].IndexOf(start))
  }

  function FileWith(file: seq<byte>, source: seq<byte>, cur: nat, n: nat): seq<byte>
    requires |file| == |source| && cur + n <= |file|
  {
    file[..cur] + source[cur..cur + n] + file[cur + n..]
  }

  /** One past the last byte to ask for: the block, or up to `end` when that is further, but inside the file. */
  function RequestLimit(blockEnd: nat, end: int, fileSize: nat): nat {
    var last := if end > blockEnd - 1 then end else blockEnd - 1;
    if last > fileSize - 1 then fileSize else last + 1
  }

  /** What a move changes: some file bytes, one piece, and the worker. */
  datatype Effect = Effect(file: seq<byte>, p: nat, view: PieceView, worker: Worker)

  /** Where a worker is after it gave its piece back. */
  function AfterRelease(why: Why): Worker {
    match why
    case Again => Looking
    case Cancelled => Exited
    case GaveUp => Failed
  }

  ghost predicate CanMove(c: Config, s: State, w: nat, m: Move)
    requires Shape(c, s) && w < |s.workers|
  {
    match (s.workers[w], m)
    case (Looking, Pick(r)) => -1 <= r < |s.pieces| && MayPick(c.selector, s.pieces, r)
    case (Looking, Quit) => true
    case (Claimed(_), Throttle) => true
    case (Claimed(_), Begin) => true
    case (Claimed(_), Quit) => true
    case (Holding(p, _), SeeComplete) => s.pieces[p].Full()
    case (Holding(p, _), Request) => s.pieces[p].NextBlock() >= 0
    case (Holding(_, _), GiveUp) => true
    case (Releasing(_, _), Disown) => true
    case (Fetching(_, _, _, _), Refuse) => true
    case (Fetching(_, _, _, _), Accept) => true
    case (Reading(_, _, _, cur, _, limit), Receive(n)) => 0 < n && cur + n <= limit
    case (Reading(_, _, _, cur, _, limit), BreakOff(n)) => cur + n <= limit
    case (Reading(_, _, _, _, _, _), Eof) => true
    case (BlockRead(_, _, _, _, _), Mark) => true
    case (Advancing(p, _, _, _), SeeComplete) => s.pieces[p].Full()
    case (Advancing(_, _, _, _), Continue) => true
    case (Finishing(_), Mark) => true
    case (Probing(i), Probe) => i < |s.pieces|
    case (Probing(i), Leave) => i == |s.pieces|
    case (Ranging(_, _, _), Throttle) => true
    case (Ranging(_, _, _), Accept) => true
    case (Ranging(_, _, _), GiveUp) => true
    case (Ranging(_, _, _), Quit) => true
    case (RangeReading(_, _, stop, cur), Receive(n)) => 0 < n && cur + n <= stop
    case (RangeReading(_, _, stop, cur), BreakOff(n)) => cur + n <= stop
    case (RangeReading(_, _, _, _), Eof) => true
    case (Marking(_, _, _, _, _), Mark) => true
    case (Checking(_, _, _), Check) => true
    case _ => false
  }

  ghost function Keep(s: State, x: Worker): Effect
    requires |s.pieces| > 0
  {
    Effect(s.file, 0, s.pieces[0], x)
  }

  /** The worker is before, between or after pieces. */
  predicate Between(x: Worker) {
    x.Looking? || x.Claimed? || x.Releasing? || x.Finishing? || x.Exited? || x.Failed?
  }

  /** Bytes of a block are arriving. */
  predicate Receiving(x: Worker) {
    x.Reading? || x.BlockRead?
  }

  /** The worker is stealing: the second half of the worker loop. */
  predicate Stealing(x: Worker) {
    x.Probing? || x.Ranging? || x.RangeReading? || x.Marking? || x.Checking?
  }

  ghost function EffectOf(c: Config, s: State, w: nat, m: Move): Effect
    requires ConfigOk(c) && Shape(c, s) && w < |s.workers| && CanMove(c, s, w, m)
  {
    if Stealing(s.workers[w]) then RangeEffect(c, s, w, m) else PieceEffect(c, s, w, m)
  }

  /** downloadPieceOnceFromURL and the loop around it. */
  ghost function PieceEffect(c: Config, s: State, w: nat, m: Move): Effect
    requires ConfigOk(c) && Shape(c, s) && w < |s.workers| && CanMove(c, s, w, m) && !Stealing(s.workers[w])
  {
    match (s.workers[w], m)
    case (Looking, Pick(r)) =>
      if r == -1 then Keep(s, Probing(0)) else Effect(s.file, r, Activated(s.pieces[r], w + 1), Claimed(r))
    case (Claimed(p), Throttle) => Effect(s.file, p, s.pieces[p].(status := Idle), Releasing(p, Again))
    case (Claimed(p), Begin) => Keep(s, Holding(p, EndOffset(s.pieces, p, |s.file|)))
    case (Claimed(p), Quit) => Effect(s.file, p, s.pieces[p].(status := Idle), Releasing(p, Cancelled))
    case (Looking, Quit) => Keep(s, Exited)
    case (Holding(p, _), SeeComplete) => Keep(s, Finishing(p))
    case (Holding(p, end), Request) =>
      var b := s.pieces[p].NextBlock();
      Effect(s.file, p, s.pieces[p].Claim(), Fetching(p, end, b, RequestLimit(s.pieces[p].BlockEnd(b), end, |s.file|)))
    case (Holding(p, _), GiveUp) => Effect(s.file, p, s.pieces[p].(status := Idle), Releasing(p, GaveUp))
    case (Releasing(p, why), Disown) => Effect(s.file, p, s.pieces[p].(owner := 0), AfterRelease(why))
    case (Fetching(p, end, b, _), Refuse) => Effect(s.file, p, s.pieces[p].Cancel(b), Holding(p, end))
    case (Fetching(p, end, b, limit), Accept) =>
      var v := c.layout[p];
      Keep(s, Reading(p, end, b, v.BlockStart(b), v.BlockEnd(b) - v.BlockStart(b), limit))
    case (Reading(p, end, b, cur, remaining, limit), Receive(n)) =>
      var x := if remaining - n <= 0 then BlockRead(p, end, b, cur + n, limit)
               else Reading(p, end, b, cur + n, remaining - n, limit);
      Effect(FileWith(s.file, c.source, cur, n), p, s.pieces[p], x)
    case (Reading(p, end, b, cur, _, _), BreakOff(n)) =>
      Effect(FileWith(s.file, c.source, cur, n), p, s.pieces[p].Cancel(b), Holding(p, end))
    case (Reading(p, end, _, _, _, _), Eof) => Keep(s, Holding(p, end))
    case (BlockRead(p, end, b, cur, limit), Mark) =>
      Effect(s.file, p, s.pieces[p].CompleteBlock(b), Advancing(p, end, cur, limit))
    case (Advancing(p, _, _, _), SeeComplete) => Keep(s, Finishing(p))
    case (Advancing(p, end, cur, limit), Continue) =>
      var b := s.pieces[p].NextBlock();
      var v := c.layout[p];
      var x := if b < 0 || v.BlockStart(b) != cur then Holding(p, end)
               else Reading(p, end, b, cur, v.BlockEnd(b) - v.BlockStart(b), limit);
      Effect(s.file, p, s.pieces[p].Claim(), x)
    case (Finishing(p), Mark) => Effect(s.file, p, s.pieces[p].(status := Complete), Looking)
  }

  /** TryStealPiece and downloadRangeOnceFromURL. */
  ghost function RangeEffect(c: Config, s: State, w: nat, m: Move): Effect
    requires ConfigOk(c) && Shape(c, s) && w < |s.workers| && CanMove(c, s, w, m) && Stealing(s.workers[w])
  {
    match (s.workers[w], m)
    case (Probing(i), Probe) =>
      if !Victim(s.pieces[i], w + 1) then Keep(s, Probing(i + 1))
      else Effect(s.file, i, s.pieces[i].AfterSteal(c.minSteal), Stolen(s.pieces[i], i, c.minSteal))
    case (Probing(_), Leave) => Keep(s, Exited)
    case (Ranging(_, _, _), Throttle) => Keep(s, Looking)
    case (Ranging(_, _, _), GiveUp) => Keep(s, Failed)
    case (Ranging(_, _, _), Quit) => Keep(s, Exited)
    case (Ranging(p, start, stop), Accept) => Keep(s, RangeReading(p, start, stop, start))
    case (RangeReading(p, start, stop, cur), Receive(n)) =>
      Effect(FileWith(s.file, c.source, cur, n), p, s.pieces[p], RangeReading(p, start, stop, cur + n))
    case (RangeReading(p, start, stop, cur), BreakOff(n)) =>
      Effect(FileWith(s.file, c.source, cur, n), p, s.pieces[p], Ranging(p, start, stop))
    case (RangeReading(p, start, stop, cur), Eof) => Keep(s, AtRangeEnd(c, p, start, stop, cur))
    case (Marking(p, start, stop, next, last), Mark) =>
      if next <= last then Effect(s.file, p, s.pieces[p].CompleteBlock(next), Marking(p, start, stop, next + 1, last))
      else Keep(s, Checking(p, start, stop))
    case (Checking(p, start, stop), Check) =>
      Keep(s, if s.pieces[p].Full() then Finishing(p) else Ranging(p, start, stop))
  }

  /** The thief's next state after trying piece i. */
  ghost function Stolen(v: PieceView, i: nat, minSteal: int): Worker
    requires v.WF() && v.length > 0
  {
    match v.Steal(minSteal)
    case NoRange => Probing(i + 1)
    case Range(offset, length) =>
      StealIsFair(v, minSteal);
      Ranging(i, offset, offset + length)
  }

  /** At the end of a range response every block from the first byte's to the last written byte's is to be marked. */
  ghost function AtRangeEnd(c: Config, p: nat, start: nat, stop: nat, cur: nat): Worker
    requires ConfigOk(c) && StolenFrom(c, p, start, stop) && start <= cur <= stop
  {
    if cur == start then Checking(p, start, stop)
    else
      IndexOfContains(c.layout[p], start);
      IndexOfContains(c.layout[p], cur - 1);
      Marking(p, start, stop, c.layout[p].IndexOf(start), c.layout[p].IndexOf(cur - 1))
  }

  ghost predicate Enabled(c: Config, s: State, st: Step)
    requires Shape(c, s)
  {
    match st
    case Act(w, m) => w < |s.workers| && CanMove(c, s, w, m)
    case SnapPiece => |s.snap| < |s.pieces|
    case SnapCommit => |s.snap| == |s.pieces|
    case SnapDrop => true
    case Restart(_) => true
  }

  /** A piece of the fresh split with the given blocks already done. */
  ghost function Resumed(v: PieceView, done: set<nat>): PieceView
    requires v.blockLength > 0
  {
    v.(done := done, status := if done == AllBlocks(v.N()) then Complete else v.status)
  }

  function After(s: State, w: nat, m: Move, e: Effect): State
    requires w < |s.workers| && e.p < |s.pieces|
  {
    s.(file := e.file, pieces := s.pieces[e.p := e.view], workers := s.workers[w := e.worker],
       failed := s.failed || m == GiveUp, cancelled := s.cancelled || m == Quit)
  }

  ghost function Apply(c: Config, s: State, st: Step): State
    requires ConfigOk(c) && Shape(c, s) && Enabled(c, s, st)
  {
    match st
    case Act(w, m) => After(s, w, m, EffectOf(c, s, w, m))
    case SnapPiece => s.(snap := s.snap + [s.pieces[|s.snap|].done])
    case SnapCommit =>
      // an empty serialization leaves the previous entries in place
      s.(saved := if forall i :: 0 <= i < |s.snap| ==> s.snap[i] == {} then s.saved else s.snap, snap := [])
    case SnapDrop => s.(snap := [])
    case Restart(resume) =>
      State(s.file,
            seq(|c.layout|, i requires 0 <= i < |c.layout| => Resumed(c.layout[i], if resume then s.saved[i] else {})),
            seq(c.workers, _ => Looking), s.saved, [], false, false)
  }
}
