/** The download token bucket: how much it lets through over any stretch of time. */
module RateLimiting {
  import opened Arithmetic

  /** Clock readings are in nanoseconds. */
  const SECOND: int := 1_000_000_000

  /** The limiter's fields as a value. */
  datatype Bucket = Bucket(rate: int, burst: int, tokens: int, last: int)

  /** refill: `now` is when elapsed time is measured, `later` the second clock reading stored as the new update time. */
  function Refilled(b: Bucket, now: int, later: int): Bucket {
    if now - b.last <= 0 then b
    else
      var tokens := b.tokens + TruncDiv(b.rate * (now - b.last), SECOND);
      b.(tokens := if tokens > b.burst then b.burst else tokens, last := later)
  }

  /** Allow, and one round of Wait: take n tokens if they are there. */
  function Take(b: Bucket, n: int, now: int, later: int): (Bucket, bool) {
    var r := Refilled(b, now, later);
    if r.tokens >= n then (r.(tokens := r.tokens - n), true) else (r, false)
  }

  function WithRate(b: Bucket, rate: int): Bucket {
    b.(rate := rate, tokens := if rate <= 0 then b.burst else b.tokens)
  }

  class RateLimiter {
    var rate: int
    var burst: int
    var tokens: int
    var lastUpdate: int

    function View(): Bucket
      reads this
    {
      Bucket(rate, burst, tokens, lastUpdate)
    }

    constructor (rate: int, burst: int, now: int)
      ensures this.burst > 0 && tokens == this.burst && this.rate == rate && lastUpdate == now
      ensures burst > 0 ==> this.burst == burst
      ensures burst <= 0 ==> this.burst == if rate > 0 then rate else 1024 * 1024
    {
      var b := burst;
      if b <= 0 {
        b := rate;
      }
      if b <= 0 {
        b := 1024 * 1024;
      }
      this.rate := rate;
      this.burst := b;
      this.tokens := b;
      lastUpdate := now;
    }

    method Refill(now: int, later: int)
      modifies `tokens, `lastUpdate
      ensures View() == Refilled(old(View()), now, later)
    {
      var elapsed := now - lastUpdate;
      if elapsed <= 0 {
        return;
      }
      tokens := tokens + TruncDiv(rate * elapsed, SECOND);
      if tokens > burst {
        tokens := burst;
      }
      lastUpdate := later;
    }

    method Allow(n: int, now: int, later: int) returns (ok: bool)
      modifies `tokens, `lastUpdate
      ensures (View(), ok) == Take(old(View()), n, now, later)
    {
      Refill(now, later);
      if tokens >= n {
        tokens := tokens - n;
        return true;
      }
      return false;
    }

    /** What Wait does before its loop, without the lock: in a run such a call grants all it asks for, or nothing yet. */
    method EnterWait() returns (granted: bool)
      ensures forall n: nat :: Granted(View(), [WaitOp(n)]) == if granted then n else 0
    {
      granted := rate <= 0;
      forall n: nat
        ensures Granted(View(), [WaitOp(n)]) == if granted then n else 0
      {
        assert Granted(Apply(View(), WaitOp(n)), []) == 0;
      }
    }

    /** One round of Wait's loop; when refused, `needed` tokens are missing. */
    method WaitRound(n: int, now: int, later: int) returns (ok: bool, needed: int)
      modifies `tokens, `lastUpdate
      ensures (View(), ok) == Take(old(View()), n, now, later)
      ensures !ok ==> needed == n - tokens > 0
    {
      Refill(now, later);
      needed := n - tokens;
      ok := tokens >= n;
      if ok {
        tokens := tokens - n;
      }
    }

    method SetRate(newRate: int)
      modifies `rate, `tokens
      ensures View() == WithRate(old(View()), newRate)
      ensures rate == newRate && tokens == if newRate <= 0 then burst else old(tokens)
    {
      rate := newRate;
      if newRate <= 0 {
        tokens := burst;
      }
    }
  }

  // ----- what time is worth -----

  lemma TruncDivIs(a: int, b: int)
    requires b > 0
    ensures a >= 0 ==> TruncDiv(a, b) * b <= a < (TruncDiv(a, b) + 1) * b
    ensures a < 0 ==> -TruncDiv(a, b) * b <= -a < (-TruncDiv(a, b) + 1) * b
  {
  }

  /** A refill turns the time since the last update into whole tokens, up to a full bucket: it holds the most tokens that
      this time pays for. A negative rate takes away in the same way. A clock that has not moved on changes nothing. */
  lemma RefillPays(b: Bucket, now: int, later: int)
    requires b.tokens <= b.burst
    ensures var r, worth := Refilled(b, now, later), b.rate * (now - b.last);
            && (now <= b.last ==> r == b)
            && (now > b.last ==> r == b.(tokens := r.tokens, last := later) && r.tokens <= b.burst)
            && (now > b.last && b.rate >= 0 ==>
                  && (r.tokens - b.tokens) * SECOND <= worth
                  && (r.tokens == b.burst || worth < (r.tokens + 1 - b.tokens) * SECOND))
            && (now > b.last && b.rate < 0 ==>
                  (b.tokens - r.tokens) * SECOND <= -worth < (b.tokens - r.tokens + 1) * SECOND)
  {
    if now > b.last {
      var worth := b.rate * (now - b.last);
      TruncDivIs(worth, SECOND);
      if b.rate >= 0 {
        MulMonotone(0, b.rate, now - b.last);
      } else {
        Loses(b.rate, now - b.last);
      }
    }
  }

  lemma Loses(rate: int, elapsed: int)
    requires rate < 0 && elapsed > 0
    ensures rate * elapsed < 0
  {
  }

  /** A request is granted exactly when the tokens are there, or the time since the last update pays for those missing and
      the bucket can hold them all. */
  lemma GrantedIff(b: Bucket, n: int, now: int, later: int)
    requires b.rate >= 0 && b.tokens <= b.burst
    ensures var (t, ok) := Take(b, n, now, later);
            && (ok <==> n <= b.tokens || (n <= b.burst && (n - b.tokens) * SECOND <= b.rate * (now - b.last)))
            && t == Refilled(b, now, later).(tokens := t.tokens)
            && t.tokens == Refilled(b, now, later).tokens - if ok then n else 0
  {
    RefillPays(b, now, later);
    if now <= b.last {
      NoTime(b.rate, now - b.last);
    } else {
      MulMonotone(0, b.rate, now - b.last);
    }
  }

  lemma NoTime(rate: nat, elapsed: int)
    requires elapsed <= 0
    ensures rate * elapsed <= 0
  {
  }

  // ----- runs -----

  /** A call of Wait is a WaitOp and, when that does not grant, a TakeOp for each round of its loop. */
  datatype Op = TakeOp(n: nat, now: int, later: int) | WaitOp(n: nat) | SetRateOp(rate: int)

  function Apply(b: Bucket, op: Op): Bucket {
    match op
    case TakeOp(n, now, later) => Take(b, n, now, later).0
    case WaitOp(_) => b
    case SetRateOp(rate) => WithRate(b, rate)
  }

  /** Bytes let through by the operations. */
  function Granted(b: Bucket, ops: seq<Op>): nat
    decreases |ops|
  {
    if ops == [] then 0
    else
      (match ops[0]
       case TakeOp(n, now, later) => if Take(b, n, now, later).1 then n else 0
       case WaitOp(n) => if b.rate <= 0 then n else 0
       case SetRateOp(_) => 0)
      + Granted(Apply(b, ops[0]), ops[1..])
  }

  /** The part of it that came out of the bucket. */
  function Metered(b: Bucket, ops: seq<Op>): nat
    decreases |ops|
  {
    if ops == [] then 0
    else
      (if ops[0].TakeOp? && Take(b, ops[0].n, ops[0].now, ops[0].later).1 then ops[0].n else 0)
      + Metered(Apply(b, ops[0]), ops[1..])
  }

  /** The part of it that calls of Wait at a rate of zero or less let through. */
  function Unmetered(b: Bucket, ops: seq<Op>): nat
    decreases |ops|
  {
    if ops == [] then 0
    else (if ops[0].WaitOp? && b.rate <= 0 then ops[0].n else 0) + Unmetered(Apply(b, ops[0]), ops[1..])
  }

  /** Some call of Wait comes at a rate of zero or less. */
  predicate WaitsUnmetered(b: Bucket, ops: seq<Op>)
    decreases |ops|
  {
    ops != [] && ((ops[0].WaitOp? && b.rate <= 0) || WaitsUnmetered(Apply(b, ops[0]), ops[1..]))
  }

  /** How often the rate was set to zero or less, which refills the bucket. */
  function Resets(ops: seq<Op>): nat
    decreases |ops|
  {
    if ops == [] then 0 else (if ops[0].SetRateOp? && ops[0].rate <= 0 then 1 else 0) + Resets(ops[1..])
  }

  /** The clock readings of the operations are in order and lie in [from, to]. */
  predicate Clocked(ops: seq<Op>, from: int, to: int)
    decreases |ops|
  {
    from <= to &&
    (ops == [] ||
     match ops[0]
     case TakeOp(_, now, later) => from <= now <= later <= to && Clocked(ops[1..], later, to)
     case WaitOp(_) => Clocked(ops[1..], from, to)
     case SetRateOp(_) => Clocked(ops[1..], from, to))
  }

  predicate RatesAtMost(ops: seq<Op>, max: nat) {
    forall i :: 0 <= i < |ops| && ops[i].SetRateOp? ==> ops[i].rate <= max
  }

  function Positive(x: int): nat {
    if x > 0 then x else 0
  }

  /** A refill adds no more than the elapsed time is worth, truncation and a second clock reading included. */
  lemma RefillBound(b: Bucket, max: nat, now: int, later: int)
    requires b.rate <= max && now <= later && b.last < now
    ensures var r := Refilled(b, now, later);
            && r.last == later && r.tokens <= b.burst
            && Positive(r.tokens) * SECOND <= Positive(b.tokens) * SECOND + max * (now - b.last)
  {
    MulMonotone(b.rate, max, now - b.last);
    MulMonotone(0, max, now - b.last);
    TruncDivBounds(b.rate * (now - b.last), SECOND);
  }

  /** From an update time on: at most the tokens at hand, one burst for each reset, and the elapsed time's worth. */
  lemma {:induction false} MeteredAfterUpdate(b: Bucket, ops: seq<Op>, max: nat, from: int, to: int)
    requires b.tokens <= b.burst && b.burst > 0 && b.rate <= max && RatesAtMost(ops, max)
    requires b.last <= from && Clocked(ops, from, to)
    ensures Metered(b, ops) * SECOND
            <= Positive(b.tokens) * SECOND + Resets(ops) * b.burst * SECOND + max * (to - b.last)
    decreases |ops|
  {
    MulMonotone(0, max, to - b.last);
    MulMonotone(0, b.burst, Resets(ops));
    if ops != [] {
      var rest := ops[1..];
      match ops[0]
      case TakeOp(n, now, later) =>
        TakeBound(b, n, now, later, max);
        MeteredAfterUpdate(Take(b, n, now, later).0, rest, max, later, to);
        TakeStep(b, ops, max, to);
      case WaitOp(_) => MeteredAfterUpdate(b, rest, max, from, to);
      case SetRateOp(rate) =>
        MeteredAfterUpdate(WithRate(b, rate), rest, max, from, to);
        ResetStep(b.burst, Resets(rest));
    }
  }

  lemma ResetStep(burst: nat, resets: nat)
    ensures (resets + 1) * burst * SECOND == resets * burst * SECOND + burst * SECOND
  {
  }

  /** One take: what is granted and what is left come out of the tokens and the elapsed time. */
  lemma TakeBound(b: Bucket, n: nat, now: int, later: int, max: nat)
    requires b.tokens <= b.burst && b.rate <= max && b.last <= now <= later
    ensures var (t, ok) := Take(b, n, now, later);
            && t.tokens <= t.burst == b.burst && t.rate == b.rate && b.last <= t.last <= later
            && ((if ok then n else 0) + Positive(t.tokens)) * SECOND
               <= Positive(b.tokens) * SECOND + max * (t.last - b.last)
  {
    if b.last < now {
      RefillBound(b, max, now, later);
      MulMonotoneRight(max, now - b.last, later - b.last);
    }
  }

  lemma TakeStep(b: Bucket, ops: seq<Op>, max: nat, to: int)
    requires ops != [] && ops[0].TakeOp? && b.burst > 0
    requires var TakeOp(n, now, later) := ops[0];
             var (t, ok) := Take(b, n, now, later);
             && t.burst == b.burst
             && ((if ok then n else 0) + Positive(t.tokens)) * SECOND
                <= Positive(b.tokens) * SECOND + max * (t.last - b.last)
             && Metered(t, ops[1..]) * SECOND
                <= Positive(t.tokens) * SECOND + Resets(ops[1..]) * t.burst * SECOND + max * (to - t.last)
    ensures Metered(b, ops) * SECOND
            <= Positive(b.tokens) * SECOND + Resets(ops) * b.burst * SECOND + max * (to - b.last)
  {
    var TakeOp(n, now, later) := ops[0];
    var t := Take(b, n, now, later).0;
    Distribute(max, t.last - b.last, to - t.last);
  }

  lemma Distribute(max: nat, a: int, b: int)
    ensures max * a + max * b == max * (a + b)
  {
  }

  /** The first take of a stretch: what accrued before it is cut off at one burst. */
  lemma FirstTake(b: Bucket, n: nat, now: int, later: int, from: int)
    requires b.tokens <= b.burst && b.burst > 0 && b.last <= from <= now <= later
    ensures var (t, ok) := Take(b, n, now, later);
            && (if ok then n else 0) + Positive(t.tokens) <= b.burst
            && t.tokens <= t.burst == b.burst && t.rate == b.rate && from <= t.last <= later
  {
  }

  lemma SumStep(now: nat, later': nat, left: nat, burst: nat, resets: nat, credit: int, most: int)
    requires now + left <= burst && credit <= most
    requires later' * SECOND <= left * SECOND + resets * burst * SECOND + credit
    ensures (now + later') * SECOND <= burst * SECOND + resets * burst * SECOND + most
  {
  }

  /** What comes out of the bucket in a stretch [from, to], whenever it starts and whatever the bucket's history: at
      most one burst, one more for each reset, and what the highest rate yields in that time. Time before a rate
      change may be credited at the new rate; it still counts as elapsed time. */
  lemma {:induction false} MeteredInAnyWindow(b: Bucket, ops: seq<Op>, max: nat, from: int, to: int)
    requires b.tokens <= b.burst && b.burst > 0 && b.rate <= max && RatesAtMost(ops, max)
    requires b.last <= from && Clocked(ops, from, to)
    ensures Metered(b, ops) * SECOND <= b.burst * SECOND + Resets(ops) * b.burst * SECOND + max * (to - from)
    decreases |ops|
  {
    MulMonotone(0, max, to - from);
    MulMonotone(0, b.burst, Resets(ops));
    if ops != [] {
      var rest := ops[1..];
      match ops[0]
      case TakeOp(n, now, later) =>
        FirstTake(b, n, now, later, from);
        var (t, ok) := Take(b, n, now, later);
        MeteredAfterUpdate(t, rest, max, later, to);
        MulMonotoneRight(max, to - t.last, to - from);
        SumStep(if ok then n else 0, Metered(t, rest), Positive(t.tokens), b.burst, Resets(rest),
                max * (to - t.last), max * (to - from));
      case WaitOp(_) => MeteredInAnyWindow(b, rest, max, from, to);
      case SetRateOp(rate) =>
        MeteredInAnyWindow(WithRate(b, rate), rest, max, from, to);
        ResetStep(b.burst, Resets(rest));
    }
  }

  lemma {:induction false} GrantedSplits(b: Bucket, ops: seq<Op>)
    ensures Granted(b, ops) == Metered(b, ops) + Unmetered(b, ops)
    ensures !WaitsUnmetered(b, ops) ==> Unmetered(b, ops) == 0
    decreases |ops|
  {
    if ops != [] {
      GrantedSplits(Apply(b, ops[0]), ops[1..]);
    }
  }

  /** In every stretch [from, to] of every run in which no call of Wait comes at a rate of zero or less: the bytes granted
      are at most one burst, one more for each reset, and what the highest rate yields in that time. */
  lemma GrantedInAnyWindow(b: Bucket, ops: seq<Op>, max: nat, from: int, to: int)
    requires b.tokens <= b.burst && b.burst > 0 && b.rate <= max && RatesAtMost(ops, max)
    requires b.last <= from && Clocked(ops, from, to)
    ensures Granted(b, ops) * SECOND
            <= Unmetered(b, ops) * SECOND + b.burst * SECOND + Resets(ops) * b.burst * SECOND + max * (to - from)
    ensures !WaitsUnmetered(b, ops) ==>
              Granted(b, ops) * SECOND <= b.burst * SECOND + Resets(ops) * b.burst * SECOND + max * (to - from)
  {
    MeteredInAnyWindow(b, ops, max, from, to);
    GrantedSplits(b, ops);
  }

  /** The same calls, each Wait for n bytes. */
  function Asking(ops: seq<Op>, n: nat): seq<Op>
    decreases |ops|
  {
    if ops == [] then [] else [if ops[0].WaitOp? then WaitOp(n) else ops[0]] + Asking(ops[1..], n)
  }

  lemma {:induction false} AskingGrants(b: Bucket, ops: seq<Op>, n: nat)
    ensures Metered(b, Asking(ops, n)) == Metered(b, ops)
    ensures if WaitsUnmetered(b, ops) then Unmetered(b, Asking(ops, n)) >= n else Unmetered(b, Asking(ops, n)) == 0
    decreases |ops|
  {
    if ops != [] {
      AskingGrants(Apply(b, ops[0]), ops[1..], n);
      var asking := Asking(ops, n);
      assert asking[1..] == Asking(ops[1..], n) && Apply(b, asking[0]) == Apply(b, ops[0]);
    }
  }

  /** These calls never let more than this through, whatever the calls of Wait ask for. */
  ghost predicate BoundedBy(b: Bucket, ops: seq<Op>, bound: nat) {
    forall n: nat :: Granted(b, Asking(ops, n)) <= bound
  }

  /** A sequence of calls has a bound exactly when no call of Wait comes at a rate of zero or less. */
  lemma BoundedIffMetered(b: Bucket, ops: seq<Op>)
    ensures (exists bound: nat :: BoundedBy(b, ops, bound)) <==> !WaitsUnmetered(b, ops)
  {
    forall n: nat
      ensures Granted(b, Asking(ops, n)) == Metered(b, ops) + Unmetered(b, Asking(ops, n))
      ensures if WaitsUnmetered(b, ops) then Unmetered(b, Asking(ops, n)) >= n else Unmetered(b, Asking(ops, n)) == 0
    {
      GrantedSplits(b, Asking(ops, n));
      AskingGrants(b, ops, n);
    }
    if WaitsUnmetered(b, ops) {
      forall bound: nat
        ensures !BoundedBy(b, ops, bound)
      {
        assert Granted(b, Asking(ops, bound + 1)) > bound;
      }
    } else {
      assert BoundedBy(b, ops, Metered(b, ops));
    }
  }

  /** The bucket after the operations. */
  function After(b: Bucket, ops: seq<Op>): Bucket
    decreases |ops|
  {
    if ops == [] then b else After(Apply(b, ops[0]), ops[1..])
  }

  /** The bucket never overflows, and never goes negative as long as no rate does. */
  lemma {:induction false} TokensInBounds(b: Bucket, ops: seq<Op>)
    requires b.tokens <= b.burst && b.burst > 0
    ensures After(b, ops).tokens <= After(b, ops).burst == b.burst
    ensures b.tokens >= 0 && b.rate >= 0 && RatesNotNegative(ops) ==> After(b, ops).tokens >= 0
    decreases |ops|
  {
    if ops != [] {
      match ops[0] {
        case TakeOp(n, now, later) =>
          if b.rate >= 0 && now > b.last {
            MulMonotone(0, b.rate, now - b.last);
          }
        case WaitOp(_) =>
        case SetRateOp(_) =>
      }
      TokensInBounds(Apply(b, ops[0]), ops[1..]);
    }
  }

  /** No rate is set below zero. */
  predicate RatesNotNegative(ops: seq<Op>) {
    forall i :: 0 <= i < |ops| && ops[i].SetRateOp? ==> ops[i].rate >= 0
  }

  /** Waiting pays: after any calls with no negative rate, a request that fits into the bucket is granted as soon as the
      time since the last update is worth it. */
  lemma WaitingPays(b: Bucket, ops: seq<Op>, n: nat, now: int, later: int)
    requires 0 <= b.tokens <= b.burst && b.burst > 0 && b.rate >= 0 && RatesNotNegative(ops)
    requires n <= b.burst && After(b, ops).rate * (now - After(b, ops).last) >= n * SECOND
    ensures Take(After(b, ops), n, now, later).1
  {
    TokensInBounds(b, ops);
    RateStaysNotNegative(b, ops);
    GrantedIff(After(b, ops), n, now, later);
  }

  lemma {:induction false} RateStaysNotNegative(b: Bucket, ops: seq<Op>)
    requires b.rate >= 0 && RatesNotNegative(ops)
    ensures After(b, ops).rate >= 0
    decreases |ops|
  {
    if ops != [] {
      RateStaysNotNegative(Apply(b, ops[0]), ops[1..]);
    }
  }

  /** Requests, each less than one token's worth of time after the update before it. */
  predicate Hurried(b: Bucket, ops: seq<Op>)
    decreases |ops|
  {
    ops == [] ||
    (ops[0].TakeOp? && ops[0].n > 0 && b.rate * (ops[0].now - b.last) < SECOND && Hurried(Apply(b, ops[0]), ops[1..]))
  }

  /** But it does not pay to ask too often: each refused request throws away the fraction of a token that has accrued, so
      an empty bucket that is asked in such a hurry stays empty, however long that goes on. */
  lemma {:induction false} HurryingStarves(b: Bucket, ops: seq<Op>)
    requires b.tokens == 0 && b.burst > 0 && b.rate >= 0 && Hurried(b, ops)
    ensures Granted(b, ops) == 0 && After(b, ops).tokens == 0
    decreases |ops|
  {
    if ops != [] {
      var TakeOp(n, now, later) := ops[0];
      RefillPays(b, now, later);
      GrantedIff(b, n, now, later);
      if now > b.last {
        MulMonotone(0, b.rate, now - b.last);
      }
      HurryingStarves(Apply(b, ops[0]), ops[1..]);
    }
  }

  ghost predicate Overdraws(b: Bucket, ops: seq<Op>, to: int) {
    Clocked(ops, b.last, to) && RatesNotNegative(ops) && After(b, ops).tokens < 0
  }

  /** Nothing but a negative rate overdraws the bucket, and every negative rate does, given time. */
  lemma OverdrawnIffNegativeRate(b: Bucket)
    requires 0 <= b.tokens <= b.burst && b.burst > 0
    ensures b.rate < 0 <==> exists ops, to :: Overdraws(b, ops, to)
  {
    if b.rate < 0 {
      var now := b.last + (b.burst + 1) * SECOND;
      var ops := [TakeOp(0, now, now)];
      LongDrain(b, now);
      assert ops[1..] == [];
      assert After(b, ops) == After(Apply(b, ops[0]), []) == Take(b, 0, now, now).0;
      assert Overdraws(b, ops, now);
    }
    forall ops, to | Overdraws(b, ops, to)
      ensures b.rate < 0
    {
      TokensInBounds(b, ops);
    }
  }

  lemma LongDrain(b: Bucket, now: int)
    requires b.rate < 0 && 0 <= b.tokens <= b.burst && now == b.last + (b.burst + 1) * SECOND
    ensures Refilled(b, now, now).tokens < 0
  {
    var loss := -b.rate * (b.burst + 1);
    assert -(b.rate * (now - b.last)) == loss * SECOND;
    MulMonotone(1, -b.rate, b.burst + 1);
  }
}
