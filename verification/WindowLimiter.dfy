/** The API's per-address request limiter: fixed windows, with expired windows dropped in the background. */
module WindowLimiting {

  datatype Window = Window(count: int, start: int)

  /** The settings: the middleware is only built for limit >= 1, and the ticker needs a positive window. */
  datatype Config = Config(limit: int, window: int)

  predicate ConfigOk(c: Config) {
    c.limit >= 1 && c.window >= 1
  }

  type Windows = map<string, Window>

  predicate Live(c: Config, m: Windows, ip: string, now: int) {
    ip in m && now - m[ip].start < c.window
  }

  function Allow(c: Config, m: Windows, ip: string, now: int): (Windows, bool) {
    if !Live(c, m, ip, now) then (m[ip := Window(1, now)], true)
    else if m[ip].count >= c.limit then (m, false)
    else (m[ip := Window(m[ip].count + 1, m[ip].start)], true)
  }

  function Cleaned(c: Config, m: Windows, now: int): Windows {
    map ip | ip in m && now - m[ip].start < c.window :: m[ip]
  }

  class RateLimiter {
    var requests: Windows
    const config: Config

    constructor (limit: int, window: int)
      ensures requests == map[] && config == Config(limit, window)
    {
      requests := map[];
      config := Config(limit, window);
    }

    method AllowRequest(ip: string, now: int) returns (ok: bool)
      modifies this
      ensures (requests, ok) == Allow(config, old(requests), ip, now)
    {
      if ip !in requests || now - requests[ip].start >= config.window {
        requests := requests[ip := Window(1, now)];
        return true;
      }
      var rw := requests[ip];
      if rw.count >= config.limit {
        return false;
      }
      rw := rw.(count := rw.count + 1);
      requests := requests[ip := rw];
      return true;
    }

    /** One tick of the background loop: delete the expired windows, in any order. */
    method Cleanup(now: int)
      modifies this
      ensures requests == Cleaned(config, old(requests), now)
      ensures forall ip :: ip in requests <==> Live(config, old(requests), ip, now)
      ensures forall ip :: ip in requests ==> requests[ip] == old(requests)[ip]
    {
      var keys := requests.Keys;
      while keys != {}
        invariant keys <= requests.Keys <= old(requests).Keys
        invariant forall ip :: ip in requests ==> requests[ip] == old(requests)[ip]
        invariant forall ip :: ip in old(requests) && ip !in keys ==>
                    (ip in requests <==> now - old(requests)[ip].start < config.window)
        decreases keys
      {
        var ip :| ip in keys;
        keys := keys - {ip};
        if now - requests[ip].start >= config.window {
          requests := requests - {ip};
        }
      }
    }
  }

  // ----- runs -----

  datatype Event = Request(ip: string, now: int) | Tick(now: int)

  predicate Clocked(events: seq<Event>, from: int)
    decreases |events|
  {
    events == [] || (from <= events[0].now && Clocked(events[1..], events[0].now))
  }

  /** The answers to the requests. */
  function Answers(c: Config, m: Windows, events: seq<Event>): seq<bool>
    decreases |events|
  {
    if events == [] then []
    else
      match events[0]
      case Tick(now) => Answers(c, Cleaned(c, m, now), events[1..])
      case Request(ip, now) => var (m', ok) := Allow(c, m, ip, now); [ok] + Answers(c, m', events[1..])
  }

  function WithoutTicks(events: seq<Event>): (r: seq<Event>)
    ensures forall i :: 0 <= i < |r| ==> r[i].Request?
    decreases |events|
  {
    if events == [] then []
    else (if events[0].Tick? then [] else [events[0]]) + WithoutTicks(events[1..])
  }

  /** From `now` on nobody can tell the two states apart. */
  ghost predicate Alike(c: Config, a: Windows, b: Windows, now: int) {
    forall ip :: Live(c, a, ip, now) || Live(c, b, ip, now) ==> ip in a && ip in b && a[ip] == b[ip]
  }

  lemma {:induction false} AlikeAnswers(c: Config, a: Windows, b: Windows, events: seq<Event>, from: int)
    requires Alike(c, a, b, from) && Clocked(events, from)
    ensures Answers(c, a, events) == Answers(c, b, WithoutTicks(events))
    decreases |events|
  {
    if events != [] {
      var now := events[0].now;
      var rest := events[1..];
      assert Alike(c, a, b, now) by {
        assert forall m: Windows, ip :: Live(c, m, ip, now) ==> Live(c, m, ip, from);
      }
      match events[0]
      case Tick(_) =>
        AlikeAnswers(c, Cleaned(c, a, now), b, rest, now);
        assert WithoutTicks(events) == WithoutTicks(rest);
      case Request(ip, _) =>
        var a', b' := Allow(c, a, ip, now).0, Allow(c, b, ip, now).0;
        AlikeAnswers(c, a', b', rest, now);
        assert WithoutTicks(events) == [events[0]] + WithoutTicks(rest);
        assert WithoutTicks(events)[1..] == WithoutTicks(rest);
    }
  }

  /** Background cleanup at any moments never changes any answer. */
  lemma CleanupIsInvisible(c: Config, m: Windows, events: seq<Event>, from: int)
    requires Clocked(events, from)
    ensures Answers(c, m, events) == Answers(c, m, WithoutTicks(events))
  {
    AlikeAnswers(c, m, m, events, from);
  }

  // ----- what a refusal depends on, and what it leaves behind -----

  /** The windows after the events. */
  function After(c: Config, m: Windows, events: seq<Event>): Windows
    decreases |events|
  {
    if events == [] then m
    else
      match events[0]
      case Tick(now) => After(c, Cleaned(c, m, now), events[1..])
      case Request(ip, now) => After(c, Allow(c, m, ip, now).0, events[1..])
  }

  lemma {:induction false} AnswersSplit(c: Config, m: Windows, a: seq<Event>, b: seq<Event>)
    ensures Answers(c, m, a + b) == Answers(c, m, a) + Answers(c, After(c, m, a), b)
    ensures After(c, m, a + b) == After(c, After(c, m, a), b)
    decreases |a|
  {
    if a == [] {
      assert a + b == b;
    } else {
      assert (a + b)[1..] == a[1..] + b;
      match a[0]
      case Tick(now) => AnswersSplit(c, Cleaned(c, m, now), a[1..], b);
      case Request(ip, now) => AnswersSplit(c, Allow(c, m, ip, now).0, a[1..], b);
    }
  }

  lemma OneAnswer(c: Config, m: Windows, ip: string, now: int)
    ensures Answers(c, m, [Request(ip, now)]) == [Allow(c, m, ip, now).1]
    ensures After(c, m, [Request(ip, now)]) == Allow(c, m, ip, now).0
  {
    var one := [Request(ip, now)];
    assert one[1..] == [];
    assert Answers(c, Allow(c, m, ip, now).0, []) == [];
  }

  /** A refused request leaves no trace: without it all other answers are the same. */
  lemma RefusalLeavesNoTrace(c: Config, m: Windows, before: seq<Event>, ip: string, now: int, after: seq<Event>)
    requires Answers(c, m, before + [Request(ip, now)]) == Answers(c, m, before) + [false]
    ensures var n := |Answers(c, m, before)|;
            var others := Answers(c, m, before + after);
            n <= |others| && Answers(c, m, before + [Request(ip, now)] + after) == others[..n] + [false] + others[n..]
  {
    var one := [Request(ip, now)];
    var there := After(c, m, before);
    AnswersSplit(c, m, before, one);
    OneAnswer(c, there, ip, now);
    assert (Answers(c, m, before) + [Allow(c, there, ip, now).1])[|Answers(c, m, before)|] == Allow(c, there, ip, now).1;
    AnswersSplit(c, m, before + one, after);
    AnswersSplit(c, m, before, after);
  }

  /** When the requests of this address came that were allowed. */
  function AllowedTimes(requests: seq<Event>, answers: seq<bool>, ip: string): seq<int>
    requires |requests| == |answers|
    decreases |requests|
  {
    if requests == [] then []
    else
      var k := |requests| - 1;
      AllowedTimes(requests[..k], answers[..k], ip)
      + if answers[k] && requests[k] == Request(ip, requests[k].now) then [requests[k].now] else []
  }

  /** The one among them that opened the last window: the first opens one, and so does each that comes a window or more
      after the one that opened the window before. */
  function Opener(c: Config, times: seq<int>): (o: nat)
    requires times != []
    ensures o < |times|
    decreases |times|
  {
    var k := |times| - 1;
    if k == 0 then 0
    else
      var o := Opener(c, times[..k]);
      if times[k] - times[o] >= c.window then k else o
  }

  /** The last window is still open, and as many requests as the limit have been allowed in it. */
  predicate QuotaUsed(c: Config, times: seq<int>, now: int) {
    times != [] && now - times[Opener(c, times)] < c.window && |times| - Opener(c, times) >= c.limit
  }

  /** What the map holds for an address with such a history. */
  predicate Remembers(c: Config, m: Windows, ip: string, times: seq<int>) {
    if times == [] then ip !in m
    else ip in m && m[ip] == Window(|times| - Opener(c, times), times[Opener(c, times)])
  }

  lemma OneMoreTime(c: Config, times: seq<int>, now: int)
    ensures var more := times + [now];
            && (times == [] ==> Opener(c, more) == 0)
            && (times != [] ==>
                  Opener(c, more) == if now - times[Opener(c, times)] >= c.window then |times| else Opener(c, times))
  {
    var more := times + [now];
    assert more[..|times|] == times;
  }

  lemma RemembersMore(c: Config, m: Windows, who: string, now: int, ip: string, times: seq<int>)
    requires ConfigOk(c) && Remembers(c, m, ip, times)
    ensures var (m', ok) := Allow(c, m, who, now);
            && Remembers(c, m', ip, if ok && who == ip then times + [now] else times)
            && (who == ip ==> (ok <==> !QuotaUsed(c, times, now)))
  {
    OneMoreTime(c, times, now);
  }

  /** Each request was refused exactly when its address had used its quota. */
  ghost predicate QuotaDecides(c: Config, requests: seq<Event>, answers: seq<bool>)
    requires |answers| == |requests| && forall i :: 0 <= i < |requests| ==> requests[i].Request?
  {
    forall i :: 0 <= i < |requests| ==>
      (!answers[i] <==> QuotaUsed(c, AllowedTimes(requests[..i], answers[..i], requests[i].ip), requests[i].now))
  }

  lemma OneMoreDecided(c: Config, init: seq<Event>, before: seq<bool>, ip: string, now: int, ok: bool)
    requires |before| == |init| && (forall i :: 0 <= i < |init| ==> init[i].Request?) && QuotaDecides(c, init, before)
    requires ok <==> !QuotaUsed(c, AllowedTimes(init, before, ip), now)
    ensures QuotaDecides(c, init + [Request(ip, now)], before + [ok])
  {
    var requests, answers := init + [Request(ip, now)], before + [ok];
    forall i | 0 <= i < |requests|
      ensures requests[..i] == init[..i] && answers[..i] == before[..i]
    {
    }
    assert init[..|init|] == init && before[..|init|] == before;
  }

  /** What the map holds for each address follows from the answers so far. */
  ghost predicate AllRemembered(c: Config, m: Windows, requests: seq<Event>, answers: seq<bool>)
    requires |answers| == |requests|
  {
    forall ip :: Remembers(c, m, ip, AllowedTimes(requests, answers, ip))
  }

  lemma TimesMore(init: seq<Event>, before: seq<bool>, ip: string, now: int, ok: bool, who: string)
    requires |before| == |init|
    ensures AllowedTimes(init + [Request(ip, now)], before + [ok], who)
            == if ok && who == ip then AllowedTimes(init, before, who) + [now] else AllowedTimes(init, before, who)
  {
    var requests, answers := init + [Request(ip, now)], before + [ok];
    assert requests[..|init|] == init && answers[..|init|] == before;
  }

  lemma OneMoreRemembered(c: Config, m: Windows, init: seq<Event>, before: seq<bool>, ip: string, now: int)
    requires ConfigOk(c) && |before| == |init| && AllRemembered(c, m, init, before)
    ensures var (m', ok) := Allow(c, m, ip, now);
            && AllRemembered(c, m', init + [Request(ip, now)], before + [ok])
            && (ok <==> !QuotaUsed(c, AllowedTimes(init, before, ip), now))
  {
    var (m', ok) := Allow(c, m, ip, now);
    forall who
      ensures Remembers(c, m', who, AllowedTimes(init + [Request(ip, now)], before + [ok], who))
    {
      TimesMore(init, before, ip, now, ok, who);
      RemembersMore(c, m, ip, now, who, AllowedTimes(init, before, who));
    }
    RemembersMore(c, m, ip, now, ip, AllowedTimes(init, before, ip));
  }

  lemma {:induction false} HistoryIsRemembered(c: Config, requests: seq<Event>)
    requires ConfigOk(c) && forall i :: 0 <= i < |requests| ==> requests[i].Request?
    ensures var answers := Answers(c, map[], requests);
            && |answers| == |requests|
            && AllRemembered(c, After(c, map[], requests), requests, answers) && QuotaDecides(c, requests, answers)
    decreases |requests|
  {
    if requests != [] {
      var k := |requests| - 1;
      var init := requests[..k];
      var Request(ip, now) := requests[k];
      var m, before := After(c, map[], init), Answers(c, map[], init);
      HistoryIsRemembered(c, init);
      assert requests == init + [Request(ip, now)];
      AnswersSplit(c, map[], init, [Request(ip, now)]);
      OneAnswer(c, m, ip, now);
      OneMoreRemembered(c, m, init, before, ip, now);
      OneMoreDecided(c, init, before, ip, now, Allow(c, m, ip, now).1);
    }
  }

  /** In every run, however the cleanup ticks: a request is refused if and only if as many requests of its address as the
      limit have been allowed since the one that opened the last window, and that one came less than a window ago. */
  lemma RefusedIffQuotaUsed(c: Config, events: seq<Event>, from: int)
    requires ConfigOk(c) && Clocked(events, from)
    ensures var requests, answers := WithoutTicks(events), Answers(c, map[], events);
            |answers| == |requests| && QuotaDecides(c, requests, answers)
  {
    CleanupIsInvisible(c, map[], events, from);
    HistoryIsRemembered(c, WithoutTicks(events));
  }

  /** Requests of one address allowed at times in [from, to). */
  function AllowedIn(c: Config, m: Windows, events: seq<Event>, ip: string, from: int, to: int): nat
    decreases |events|
  {
    if events == [] then 0
    else
      match events[0]
      case Tick(now) => AllowedIn(c, Cleaned(c, m, now), events[1..], ip, from, to)
      case Request(who, now) =>
        var (m', ok) := Allow(c, m, who, now);
        (if ok && who == ip && from <= now < to then 1 else 0) + AllowedIn(c, m', events[1..], ip, from, to)
  }

  /** Counters stay between 1 and the limit. */
  ghost predicate Sane(c: Config, m: Windows) {
    forall ip :: ip in m ==> 1 <= m[ip].count <= c.limit
  }

  /** How many more requests of the address can be allowed before `from + window`, seen at or after `from`. */
  function Room(c: Config, m: Windows, ip: string, from: int): int {
    if ip !in m then c.limit
    else if m[ip].start >= from then c.limit - m[ip].count
    else 2 * c.limit - m[ip].count
  }

  lemma {:induction false} AllowedWithinRoom(c: Config, m: Windows, events: seq<Event>, ip: string, from: int, now: int)
    requires ConfigOk(c) && Sane(c, m) && from <= now && Clocked(events, now)
    ensures AllowedIn(c, m, events, ip, from, from + c.window) <= Room(c, m, ip, from)
    decreases |events|
  {
    if events != [] {
      match events[0]
      case Tick(t) =>
        if ip in m && ip !in Cleaned(c, m, t) && m[ip].start >= from {
          NothingAfter(c, Cleaned(c, m, t), events[1..], ip, from, from + c.window, t);
        } else {
          AllowedWithinRoom(c, Cleaned(c, m, t), events[1..], ip, from, t);
        }
      case Request(who, t) =>
        var m' := Allow(c, m, who, t).0;
        if t >= from + c.window {
          NothingAfter(c, m', events[1..], ip, from, from + c.window, t);
        } else {
          AllowedWithinRoom(c, m', events[1..], ip, from, t);
        }
    }
  }

  lemma {:induction false} NothingAfter(c: Config, m: Windows, events: seq<Event>, ip: string, from: int, to: int, now: int)
    requires Clocked(events, now) && now >= to
    ensures AllowedIn(c, m, events, ip, from, to) == 0
    decreases |events|
  {
    if events != [] {
      match events[0]
      case Tick(t) => NothingAfter(c, Cleaned(c, m, t), events[1..], ip, from, to, t);
      case Request(who, t) => NothingAfter(c, Allow(c, m, who, t).0, events[1..], ip, from, to, t);
    }
  }

  /** Over any run and for any address: at most 2 * limit - 1 requests are allowed in any half-open stretch of time one
      window long, however the cleanup runs. */
  lemma {:induction false} AllowedInAnyWindow(c: Config, m: Windows, events: seq<Event>, ip: string, from: int, now: int)
    requires ConfigOk(c) && Sane(c, m) && Clocked(events, now)
    ensures AllowedIn(c, m, events, ip, from, from + c.window) <= 2 * c.limit - 1
    decreases |events|
  {
    if from <= now {
      AllowedWithinRoom(c, m, events, ip, from, now);
    } else if events != [] {
      match events[0]
      case Tick(t) => AllowedInAnyWindow(c, Cleaned(c, m, t), events[1..], ip, from, t);
      case Request(who, t) =>
        if t >= from {
          AllowedWithinRoom(c, m, events, ip, from, from);
        } else {
          AllowedInAnyWindow(c, Allow(c, m, who, t).0, events[1..], ip, from, t);
        }
    }
  }

  function Repeat(n: nat, ip: string, t: int): seq<Event> {
    if n == 0 then [] else [Request(ip, t)] + Repeat(n - 1, ip, t)
  }

  lemma {:induction false} RepeatsAllowed(c: Config, m: Windows, n: nat, ip: string, t: int, rest: seq<Event>, from: int, to: int)
    requires Live(c, m, ip, t) && m[ip].count + n <= c.limit && from <= t < to
    ensures AllowedIn(c, m, Repeat(n, ip, t) + rest, ip, from, to)
            == n + AllowedIn(c, m[ip := Window(m[ip].count + n, m[ip].start)], rest, ip, from, to)
    decreases n
  {
    if n == 0 {
      assert Repeat(0, ip, t) + rest == rest;
      assert m[ip := Window(m[ip].count, m[ip].start)] == m;
    } else {
      var m' := m[ip := Window(m[ip].count + 1, m[ip].start)];
      var events := Repeat(n, ip, t) + rest;
      assert events[1..] == Repeat(n - 1, ip, t) + rest;
      RepeatsAllowed(c, m', n - 1, ip, t, rest, from, to);
      assert m'[ip := Window(m'[ip].count + (n - 1), m'[ip].start)] == m[ip := Window(m[ip].count + n, m[ip].start)];
    }
  }

  /** One request opens a window; the rest of its quota comes at its last moment, and a full quota right after it. */
  function Burst(c: Config, ip: string): seq<Event>
    requires ConfigOk(c)
  {
    [Request(ip, 0)] + (Repeat(c.limit - 1, ip, c.window - 1)
                        + ([Request(ip, c.window)] + (Repeat(c.limit - 1, ip, c.window) + [])))
  }

  /** The bound is exact for every limit and every window of at least two clock ticks. */
  lemma BurstReachesBound(c: Config, ip: string)
    requires ConfigOk(c) && c.window >= 2
    ensures AllowedIn(c, map[], Burst(c, ip), ip, c.window - 1, c.window - 1 + c.window) == 2 * c.limit - 1
  {
    var from, to := c.window - 1, 2 * c.window - 1;
    var n := c.limit - 1;
    var last := Repeat(n, ip, c.window) + [];
    var second := [Request(ip, c.window)] + last;
    var m1 := map[ip := Window(1, 0)];
    var m2 := map[ip := Window(c.limit, 0)];
    var m3 := map[ip := Window(1, c.window)];
    assert Burst(c, ip)[1..] == Repeat(n, ip, c.window - 1) + second;
    assert second[1..] == last;
    RepeatsAllowed(c, m1, n, ip, c.window - 1, second, from, to);
    assert m1[ip := Window(1 + n, 0)] == m2;
    assert m2[ip := Window(1, c.window)] == m3;
    RepeatsAllowed(c, m3, n, ip, c.window, [], from, to);
  }
}
