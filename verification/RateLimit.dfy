/** The token-bucket limiter of the login endpoint, with its sweeper. Time is in
    seconds and, like the buckets, real. */
module RateLimit {
  datatype Config = Config(rate: real, burst: real, idle: real)

  datatype Fill = Fill(tokens: real, seen: real)

  datatype Answer = Admitted | Refused(wait: int)

  function MinReal(a: real, b: real): real {
    if a <= b then a else b
  }

  function Ceil(x: real): int {
    if x.Floor as real == x then x.Floor else x.Floor + 1
  }

  // ---------- The limiter on values ----------

  type Fills = map<string, Fill>

  /** What the rate brings in over a time. */
  function Accrued(c: Config, time: real): real {
    time * c.rate
  }

  function Refilled(c: Config, b: Fill, now: real): real {
    MinReal(c.burst, b.tokens + Accrued(c, now - b.seen))
  }

  function Allowed(c: Config, bs: Fills, key: string, now: real): (Fills, Answer)
    requires c.rate > 0.0
  {
    if key !in bs then
      (bs[key := Fill(c.burst - 1.0, now)], Admitted)
    else
      var tokens := Refilled(c, bs[key], now);
      if tokens < 1.0 then
        (bs[key := Fill(tokens, now)], Refused(Ceil((1.0 - tokens) / c.rate)))
      else
        (bs[key := Fill(tokens - 1.0, now)], Admitted)
  }

  function Swept(c: Config, bs: Fills, now: real): Fills {
    map k | k in bs && now - bs[k].seen < c.idle :: bs[k]
  }

  datatype Event = Allow(key: string, at: real) | Sweep(at: real)

  function Next(c: Config, bs: Fills, e: Event): Fills
    requires c.rate > 0.0
  {
    match e
    case Allow(key, at) => Allowed(c, bs, key, at).0
    case Sweep(at) => Swept(c, bs, at)
  }

  /** The answers of a run, one for each request. */
  function Answers(c: Config, bs: Fills, events: seq<Event>): seq<Answer>
    requires c.rate > 0.0
    decreases |events|
  {
    if events == [] then []
    else
      var rest := Answers(c, Next(c, bs, events[0]), events[1..]);
      match events[0]
      case Allow(key, at) => [Allowed(c, bs, key, at).1] + rest
      case Sweep(_) => rest
  }

  /** The state a run ends in. */
  function Final(c: Config, bs: Fills, events: seq<Event>): Fills
    requires c.rate > 0.0
    decreases |events|
  {
    if events == [] then bs else Final(c, Next(c, bs, events[0]), events[1..])
  }

  /** Events one after another on a clock that never runs back, from `since` to `until`. */
  predicate InOrder(since: real, events: seq<Event>, until: real)
    decreases |events|
  {
    if events == [] then since <= until
    else since <= events[0].at && InOrder(events[0].at, events[1..], until)
  }

  /** A bucket holds at least one request, and a bucket idle for the sweeper's
      time has refilled. */
  predicate Sane(c: Config) {
    c.rate > 0.0 && c.burst >= 1.0 && c.idle * c.rate >= c.burst
  }

  const LOGIN := Config(10.0 / 60.0, 10.0, 600.0)

  lemma LoginIsSane()
    ensures LOGIN.burst == 10.0 && LOGIN.rate * 60.0 == 10.0 && LOGIN.idle == 600.0
    ensures Sane(LOGIN)
  {
  }

  // ---------- What a key has left ----------

  /** The tokens a key could spend at a time; one that has no bucket could spend
      a full burst. */
  function Left(c: Config, bs: Fills, key: string, at: real): real {
    if key in bs then Refilled(c, bs[key], at) else c.burst
  }

  ghost predicate BucketsOk(c: Config, bs: Fills, at: real) {
    forall k :: k in bs ==> 0.0 <= bs[k].tokens <= c.burst && bs[k].seen <= at
  }

  /** Two limiters that cannot be told apart from now on. */
  ghost predicate Alike(c: Config, a: Fills, b: Fills, at: real) {
    forall k :: Left(c, a, k, at) == Left(c, b, k, at)
  }

  lemma AccruedGrows(c: Config, x: real, y: real)
    requires c.rate > 0.0 && x <= y
    ensures Accrued(c, x) <= Accrued(c, y)
    ensures Accrued(c, 0.0) == 0.0
  {
    assert (y - x) * c.rate >= 0.0;
    assert y * c.rate == x * c.rate + (y - x) * c.rate;
  }

  lemma AccruedAdds(c: Config, x: real, y: real)
    ensures Accrued(c, x + y) == Accrued(c, x) + Accrued(c, y)
  {
  }

  lemma RefillInSteps(c: Config, b: Fill, s: real, t: real)
    requires c.rate > 0.0 && b.seen <= s <= t
    ensures Refilled(c, b, t) == MinReal(c.burst, Refilled(c, b, s) + Accrued(c, t - s))
  {
    AccruedAdds(c, s - b.seen, t - s);
    AccruedGrows(c, 0.0, t - s);
    assert t - b.seen == (s - b.seen) + (t - s);
    hide Accrued;
  }

  lemma LeftInSteps(c: Config, bs: Fills, key: string, s: real, t: real)
    requires Sane(c) && BucketsOk(c, bs, s) && s <= t
    ensures Left(c, bs, key, t) == MinReal(c.burst, Left(c, bs, key, s) + Accrued(c, t - s))
    ensures 0.0 <= Left(c, bs, key, s) <= c.burst
  {
    AccruedGrows(c, 0.0, t - s);
    if key in bs {
      RefillInSteps(c, bs[key], s, t);
      AccruedGrows(c, 0.0, s - bs[key].seen);
    }
    hide Accrued;
  }

  lemma StillAlike(c: Config, a: Fills, b: Fills, s: real, t: real)
    requires Sane(c) && BucketsOk(c, a, s) && BucketsOk(c, b, s) && Alike(c, a, b, s) && s <= t
    ensures Alike(c, a, b, t) && BucketsOk(c, a, t) && BucketsOk(c, b, t)
  {
    forall k
      ensures Left(c, a, k, t) == Left(c, b, k, t)
    {
      assert Left(c, a, k, s) == Left(c, b, k, s);
      LeftInSteps(c, a, k, s, t);
      LeftInSteps(c, b, k, s, t);
    }
  }

  /** A request is answered by what its key has left, spends one token if it is
      admitted and nothing if it is refused, and touches no other key. */
  lemma AllowByLeft(c: Config, bs: Fills, key: string, now: real)
    requires Sane(c) && BucketsOk(c, bs, now)
    ensures var (bs', answer) := Allowed(c, bs, key, now);
            var left := Left(c, bs, key, now);
            && BucketsOk(c, bs', now)
            && answer == (if left >= 1.0 then Admitted else Refused(Ceil((1.0 - left) / c.rate)))
            && Left(c, bs', key, now) == (if left >= 1.0 then left - 1.0 else left)
            && (forall k :: k != key ==> Left(c, bs', k, now) == Left(c, bs, k, now))
  {
    LeftInSteps(c, bs, key, now, now);
  }

  /** The sweeper removes only buckets that have refilled. */
  lemma SweepIsSilent(c: Config, bs: Fills, now: real)
    requires Sane(c) && BucketsOk(c, bs, now)
    ensures BucketsOk(c, Swept(c, bs, now), now) && Alike(c, Swept(c, bs, now), bs, now)
  {
    forall k
      ensures Left(c, Swept(c, bs, now), k, now) == Left(c, bs, k, now)
    {
      if k in bs && now - bs[k].seen >= c.idle {
        AccruedGrows(c, c.idle, now - bs[k].seen);
      }
    }
  }

  lemma NextKeepsOk(c: Config, bs: Fills, e: Event)
    requires Sane(c) && BucketsOk(c, bs, e.at)
    ensures BucketsOk(c, Next(c, bs, e), e.at)
  {
    match e
    case Allow(key, at) => AllowByLeft(c, bs, key, at);
    case Sweep(at) => SweepIsSilent(c, bs, at);
  }

  /** Alike limiters answer a request alike and stay alike. */
  lemma AlikeAllow(c: Config, a: Fills, b: Fills, key: string, now: real)
    requires Sane(c) && BucketsOk(c, a, now) && BucketsOk(c, b, now) && Alike(c, a, b, now)
    ensures Allowed(c, a, key, now).1 == Allowed(c, b, key, now).1
    ensures var a', b' := Allowed(c, a, key, now).0, Allowed(c, b, key, now).0;
            Alike(c, a', b', now) && BucketsOk(c, a', now) && BucketsOk(c, b', now)
  {
    AllowByLeft(c, a, key, now);
    AllowByLeft(c, b, key, now);
    hide Allowed;
    hide Left;
    var a', b' := Allowed(c, a, key, now).0, Allowed(c, b, key, now).0;
    assert Left(c, a, key, now) == Left(c, b, key, now);
    forall k
      ensures Left(c, a', k, now) == Left(c, b', k, now)
    {
      assert Left(c, a, k, now) == Left(c, b, k, now);
    }
  }

  function WithoutSweeps(events: seq<Event>): seq<Event> {
    if events == [] then []
    else if events[0].Sweep? then WithoutSweeps(events[1..])
    else [events[0]] + WithoutSweeps(events[1..])
  }

  lemma {:induction false} AlikeRuns(c: Config, a: Fills, b: Fills, since: real, events: seq<Event>, until: real)
    requires Sane(c) && BucketsOk(c, a, since) && BucketsOk(c, b, since) && Alike(c, a, b, since)
    requires InOrder(since, events, until)
    ensures Answers(c, a, events) == Answers(c, b, WithoutSweeps(events))
    ensures Answers(c, a, events) == Answers(c, b, events)
    decreases |events|
  {
    if events != [] {
      var e, rest := events[0], events[1..];
      StillAlike(c, a, b, since, e.at);
      match e {
        case Allow(key, at) =>
          AlikeAllow(c, a, b, key, at);
          AlikeRuns(c, Next(c, a, e), Next(c, b, e), at, rest, until);
          assert ([e] + WithoutSweeps(rest))[1..] == WithoutSweeps(rest);
        case Sweep(at) =>
          SweepIsSilent(c, a, at);
          SweepIsSilent(c, b, at);
          AlikeRuns(c, Next(c, a, e), b, at, rest, until);
          AlikeRuns(c, Next(c, a, e), Next(c, b, e), at, rest, until);
      }
    }
  }

  /** Sweeping is unobservable: however requests and sweeps interleave, every
      request is answered as by a limiter that is never swept. */
  lemma SweepsUnobservable(c: Config, events: seq<Event>, since: real, until: real)
    requires Sane(c) && InOrder(since, events, until)
    ensures Answers(c, map[], events) == Answers(c, map[], WithoutSweeps(events))
  {
    AlikeRuns(c, map[], map[], since, events, until);
  }

  lemma {:induction false} FinalKeepsOk(c: Config, bs: Fills, since: real, events: seq<Event>, until: real)
    requires Sane(c) && BucketsOk(c, bs, since) && InOrder(since, events, until)
    ensures since <= until && BucketsOk(c, Final(c, bs, events), until)
    decreases |events|
  {
    if events == [] {
      assert forall k :: k in bs ==> bs[k].seen <= until;
    } else {
      assert BucketsOk(c, bs, events[0].at);
      NextKeepsOk(c, bs, events[0]);
      FinalKeepsOk(c, Next(c, bs, events[0]), events[0].at, events[1..], until);
    }
  }

  /** Refusals are free: after any run, a refused request changes no answer that
      comes later. */
  lemma RefusalsAreFree(c: Config, before: seq<Event>, key: string, at: real, later: seq<Event>,
                         since: real, until: real)
    requires Sane(c) && InOrder(since, before, at) && InOrder(at, later, until)
    requires Allowed(c, Final(c, map[], before), key, at).1.Refused?
    ensures Answers(c, Allowed(c, Final(c, map[], before), key, at).0, later)
            == Answers(c, Final(c, map[], before), later)
  {
    var bs := Final(c, map[], before);
    FinalKeepsOk(c, map[], since, before, at);
    AllowByLeft(c, bs, key, at);
    AlikeRuns(c, Allowed(c, bs, key, at).0, bs, at, later, until);
  }

  /** A run without the requests it refuses. */
  function Kept(c: Config, bs: Fills, events: seq<Event>): seq<Event>
    requires c.rate > 0.0
    decreases |events|
  {
    if events == [] then []
    else
      var rest := Kept(c, Next(c, bs, events[0]), events[1..]);
      if events[0].Allow? && Allowed(c, bs, events[0].key, events[0].at).1.Refused? then rest
      else [events[0]] + rest
  }

  function Admissions(answers: seq<Answer>): seq<Answer> {
    if answers == [] then []
    else if answers[0].Admitted? then [answers[0]] + Admissions(answers[1..])
    else Admissions(answers[1..])
  }

  lemma RefusedStaysAlike(c: Config, a: Fills, b: Fills, key: string, at: real)
    requires Sane(c) && BucketsOk(c, a, at) && BucketsOk(c, b, at) && Alike(c, a, b, at)
    requires Allowed(c, a, key, at).1.Refused?
    ensures Alike(c, Allowed(c, a, key, at).0, b, at)
  {
    AllowByLeft(c, a, key, at);
    hide Allowed;
    hide Left;
    var a' := Allowed(c, a, key, at).0;
    forall k
      ensures Left(c, a', k, at) == Left(c, b, k, at)
    {
      assert Left(c, a, k, at) == Left(c, b, k, at);
    }
  }

  /** Taking every refused request out of a run leaves every admission, and
      makes no refusal. */
  lemma {:induction false} RefusedDropOut(c: Config, a: Fills, b: Fills, since: real, events: seq<Event>, until: real)
    requires Sane(c) && BucketsOk(c, a, since) && BucketsOk(c, b, since) && Alike(c, a, b, since)
    requires InOrder(since, events, until)
    ensures Answers(c, b, Kept(c, a, events)) == Admissions(Answers(c, a, events))
    decreases |events|
  {
    if events != [] {
      var e, rest := events[0], events[1..];
      StillAlike(c, a, b, since, e.at);
      var a', b' := Next(c, a, e), Next(c, b, e);
      assert ([e] + Kept(c, a', rest))[1..] == Kept(c, a', rest);
      match e {
        case Allow(key, at) =>
          AlikeAllow(c, a, b, key, at);
          AllowByLeft(c, a, key, at);
          hide Allowed;
          hide Left;
          var answer := Allowed(c, a, key, at).1;
          assert ([answer] + Answers(c, a', rest))[1..] == Answers(c, a', rest);
          if answer.Refused? {
            RefusedStaysAlike(c, a, b, key, at);
            RefusedDropOut(c, a', b, at, rest, until);
          } else {
            RefusedDropOut(c, a', b', at, rest, until);
          }
        case Sweep(at) =>
          SweepIsSilent(c, a, at);
          SweepIsSilent(c, b, at);
          RefusedDropOut(c, a', b', at, rest, until);
      }
    }
  }

  // ---------- How many a window admits ----------

  /** The requests of one key that a run admits. */
  function AdmittedOf(c: Config, bs: Fills, events: seq<Event>, key: string): nat
    requires c.rate > 0.0
    decreases |events|
  {
    if events == [] then 0
    else
      AdmittedOf(c, Next(c, bs, events[0]), events[1..], key)
      + (if events[0].Allow? && events[0].key == key && Allowed(c, bs, key, events[0].at).1.Admitted? then 1 else 0)
  }

  lemma {:induction false} SpentByLeft(c: Config, bs: Fills, since: real, events: seq<Event>, until: real, key: string)
    requires Sane(c) && BucketsOk(c, bs, since) && InOrder(since, events, until)
    ensures since <= until
            && AdmittedOf(c, bs, events, key) as real <= Left(c, bs, key, since) + Accrued(c, until - since)
    decreases |events|
  {
    hide Accrued;
    hide Refilled;
    LeftInSteps(c, bs, key, since, since);
    if events == [] {
      AccruedGrows(c, 0.0, until - since);
    } else {
      var e := events[0];
      LeftInSteps(c, bs, key, since, e.at);
      assert BucketsOk(c, bs, e.at);
      NextKeepsOk(c, bs, e);
      SpentByLeft(c, Next(c, bs, e), e.at, events[1..], until, key);
      match e {
        case Allow(k, at) => AllowByLeft(c, bs, k, at);
        case Sweep(at) => SweepIsSilent(c, bs, at); assert Left(c, Swept(c, bs, at), key, at) == Left(c, bs, key, at);
      }
      AccruedAdds(c, until - e.at, e.at - since);
      assert until - since == (until - e.at) + (e.at - since);
    }
  }

  /** The window bound: after any run, an interval of T seconds admits at most
      burst + rate * T requests of one key, sweeps or no sweeps. */
  lemma WindowBound(c: Config, before: seq<Event>, window: seq<Event>, key: string, since: real, from: real, to: real)
    requires Sane(c) && InOrder(since, before, from) && InOrder(from, window, to)
    ensures AdmittedOf(c, Final(c, map[], before), window, key) as real <= c.burst + Accrued(c, to - from)
    ensures BucketsOk(c, Final(c, map[], before), from)
  {
    var bs := Final(c, map[], before);
    FinalKeepsOk(c, map[], since, before, from);
    SpentByLeft(c, bs, from, window, to, key);
    LeftInSteps(c, bs, key, from, from);
  }

  // ---------- The bound is attained ----------

  /** As many requests at once. */
  function Volley(key: string, at: real, n: nat): seq<Event> {
    if n == 0 then [] else [Allow(key, at)] + Volley(key, at, n - 1)
  }

  function Interval(c: Config): real
    requires c.rate > 0.0
  {
    1.0 / c.rate
  }

  /** One request after another, each as soon as a token is there for it. */
  function Trickle(c: Config, key: string, at: real, n: nat): seq<Event>
    requires c.rate > 0.0
    decreases n
  {
    if n == 0 then [] else [Allow(key, at + Interval(c))] + Trickle(c, key, at + Interval(c), n - 1)
  }

  lemma {:induction false} VolleyAdmits(c: Config, bs: Fills, key: string, at: real, n: nat, later: seq<Event>)
    requires Sane(c) && BucketsOk(c, bs, at) && Left(c, bs, key, at) >= n as real
    ensures var bs' := Final(c, bs, Volley(key, at, n));
            && BucketsOk(c, bs', at) && Left(c, bs', key, at) == Left(c, bs, key, at) - n as real
            && AdmittedOf(c, bs, Volley(key, at, n) + later, key) == n + AdmittedOf(c, bs', later, key)
    decreases n
  {
    if n == 0 {
      assert [] + later == later;
    } else {
      AllowByLeft(c, bs, key, at);
      hide Allowed;
      hide Left;
      VolleyAdmits(c, Allowed(c, bs, key, at).0, key, at, n - 1, later);
      assert Volley(key, at, n) + later == [Allow(key, at)] + (Volley(key, at, n - 1) + later);
    }
  }

  lemma AccruedStrict(c: Config, x: real, y: real)
    requires c.rate > 0.0 && x < y
    ensures Accrued(c, x) < Accrued(c, y)
  {
    assert (y - x) * c.rate > 0.0;
    assert y * c.rate == x * c.rate + (y - x) * c.rate;
  }

  lemma TimeFor(c: Config, need: real)
    requires c.rate > 0.0 && 0.0 < need <= 1.0
    ensures Accrued(c, need / c.rate) == need && 0.0 < need / c.rate <= 1.0 / c.rate
  {
    var x, y := need / c.rate, 1.0 / c.rate;
    assert x * c.rate == need && y * c.rate == 1.0;
    if x > y {
      AccruedStrict(c, y, x);
    }
    if x <= 0.0 {
      AccruedGrows(c, x, 0.0);
    }
  }

  lemma TokenPerInterval(c: Config)
    requires c.rate > 0.0
    ensures Interval(c) > 0.0 && Accrued(c, Interval(c)) == 1.0
  {
    TimeFor(c, 1.0);
  }

  lemma {:induction false} TrickleAdmits(c: Config, bs: Fills, key: string, at: real, n: nat)
    requires Sane(c) && BucketsOk(c, bs, at)
    ensures AdmittedOf(c, bs, Trickle(c, key, at, n), key) == n
    decreases n
  {
    if n > 0 {
      var next := at + Interval(c);
      TokenPerInterval(c);
      LeftInSteps(c, bs, key, at, next);
      AllowByLeft(c, bs, key, next);
      hide Allowed;
      hide Left;
      TrickleAdmits(c, Allowed(c, bs, key, next).0, key, next, n - 1);
    }
  }

  lemma IntervalsAdd(x: real, n: nat)
    requires n > 0
    ensures n as real * x == (n - 1) as real * x + x
  {
    assert n as real == (n - 1) as real + 1.0;
  }

  lemma {:induction false} TrickleInOrder(c: Config, key: string, at: real, n: nat)
    requires c.rate > 0.0
    ensures InOrder(at, Trickle(c, key, at, n), at + n as real * Interval(c))
    decreases n
  {
    TokenPerInterval(c);
    hide Interval;
    if n > 0 {
      var next, until := at + Interval(c), at + n as real * Interval(c);
      TrickleInOrder(c, key, next, n - 1);
      IntervalsAdd(Interval(c), n);
      assert next + (n - 1) as real * Interval(c) == until;
      assert InOrder(next, Trickle(c, key, next, n - 1), until);
      var events := Trickle(c, key, at, n);
      assert events[0].at == next && events[1..] == Trickle(c, key, next, n - 1);
    }
  }

  lemma {:induction false} VolleyInOrder(key: string, at: real, n: nat, later: seq<Event>, until: real)
    requires InOrder(at, later, until)
    ensures InOrder(at, Volley(key, at, n) + later, until)
  {
    if n == 0 {
      assert [] + later == later;
    } else {
      VolleyInOrder(key, at, n - 1, later, until);
      assert Volley(key, at, n) + later == [Allow(key, at)] + (Volley(key, at, n - 1) + later);
    }
  }

  lemma {:induction false} AccruedByInterval(c: Config, m: nat)
    requires c.rate > 0.0
    ensures Accrued(c, m as real * Interval(c)) == m as real
  {
    TokenPerInterval(c);
    hide Interval;
    if m > 0 {
      AccruedByInterval(c, m - 1);
      AccruedAdds(c, (m - 1) as real * Interval(c), Interval(c));
      IntervalsAdd(Interval(c), m);
    }
    hide Accrued;
  }

  /** The window bound cannot be improved: a full burst, then a request for every
      token that comes in, are all admitted. For the login limiter that is
      twenty requests in one minute. */
  lemma WindowBoundIsAttained(c: Config, burst: nat, m: nat, key: string, at: real)
    requires Sane(c) && c.burst == burst as real
    ensures var window, until := Volley(key, at, burst) + Trickle(c, key, at, m), at + m as real * Interval(c);
            && InOrder(at, window, until)
            && AdmittedOf(c, map[], window, key) == burst + m
            && (burst + m) as real == c.burst + Accrued(c, until - at)
  {
    hide Accrued;
    hide Interval;
    VolleyAdmits(c, map[], key, at, burst, Trickle(c, key, at, m));
    TrickleAdmits(c, Final(c, map[], Volley(key, at, burst)), key, at, m);
    TrickleInOrder(c, key, at, m);
    VolleyInOrder(key, at, burst, Trickle(c, key, at, m), at + m as real * Interval(c));
    AccruedByInterval(c, m);
  }

  lemma LoginAdmitsTwentyInAMinute(key: string, at: real)
    ensures exists window ::
              InOrder(at, window, at + 60.0) && AdmittedOf(LOGIN, map[], window, key) == 20
  {
    WindowBoundIsAttained(LOGIN, 10, 10, key, at);
    var window := Volley(key, at, 10) + Trickle(LOGIN, key, at, 10);
    assert 10.0 * Interval(LOGIN) == 60.0;
    hide Volley;
    hide Trickle;
    assert InOrder(at, window, at + 60.0) && AdmittedOf(LOGIN, map[], window, key) == 20;
  }

  // ---------- Retry-After ----------

  lemma CeilBounds(x: real)
    ensures x <= Ceil(x) as real < x + 1.0
  {
  }

  predicate NotFrom(events: seq<Event>, key: string) {
    forall e :: e in events ==> !(e.Allow? && e.key == key)
  }

  /** Other keys and sweeps leave a key what it has. */
  lemma {:induction false} OthersLeave(c: Config, bs: Fills, since: real, events: seq<Event>, until: real, key: string)
    requires Sane(c) && BucketsOk(c, bs, since) && InOrder(since, events, until) && NotFrom(events, key)
    ensures since <= until && Left(c, Final(c, bs, events), key, until) == Left(c, bs, key, until)
    decreases |events|
  {
    FinalKeepsOk(c, bs, since, events, until);
    if events != [] {
      var e := events[0];
      assert e in events;
      assert BucketsOk(c, bs, e.at);
      NextKeepsOk(c, bs, e);
      match e {
        case Allow(k, at) => AllowByLeft(c, bs, k, at);
        case Sweep(at) => SweepIsSilent(c, bs, at); assert Left(c, Swept(c, bs, at), key, at) == Left(c, bs, key, at);
      }
      assert Left(c, Next(c, bs, e), key, e.at) == Left(c, bs, key, e.at);
      FinalKeepsOk(c, Next(c, bs, e), e.at, events[1..], until);
      LeftInSteps(c, bs, key, e.at, until);
      LeftInSteps(c, Next(c, bs, e), key, e.at, until);
      OthersLeave(c, Next(c, bs, e), e.at, events[1..], until, key);
    }
  }

  lemma WaitIsExact(c: Config, left: real, wait: int)
    requires Sane(c) && 0.0 <= left < 1.0 && wait == Ceil((1.0 - left) / c.rate)
    ensures 1 <= wait <= Ceil(1.0 / c.rate)
    ensures left + Accrued(c, wait as real) >= 1.0
    ensures left + Accrued(c, (wait - 1) as real) < 1.0
  {
    var need := 1.0 - left;
    var x := need / c.rate;
    TimeFor(c, need);
    CeilBounds(x);
    CeilBounds(1.0 / c.rate);
    AccruedGrows(c, x, wait as real);
    AccruedStrict(c, (wait - 1) as real, x);
    hide Accrued;
    hide Ceil;
  }

  /** Retry-After is exact: after a refusal with wait w the key's next request is
      admitted w seconds later and refused one second before, whatever other
      keys and the sweeper do in between. */
  lemma RetryAfterIsExact(c: Config, bs: Fills, key: string, now: real, wait: int, between: seq<Event>, at: real)
    requires Sane(c) && BucketsOk(c, bs, now) && Allowed(c, bs, key, now).1 == Refused(wait)
    requires InOrder(now, between, at) && NotFrom(between, key)
    ensures 1 <= wait <= Ceil(1.0 / c.rate)
    ensures var later := Final(c, Allowed(c, bs, key, now).0, between);
            && (at >= now + wait as real ==> Allowed(c, later, key, at).1 == Admitted)
            && (at <= now + (wait - 1) as real ==> Allowed(c, later, key, at).1.Refused?)
  {
    hide Accrued;
    hide Refilled;
    var bs', left := Allowed(c, bs, key, now).0, Left(c, bs, key, now);
    AllowByLeft(c, bs, key, now);
    LeftInSteps(c, bs, key, now, now);
    WaitIsExact(c, left, wait);
    FinalKeepsOk(c, bs', now, between, at);
    OthersLeave(c, bs', now, between, at, key);
    LeftInSteps(c, bs', key, now, at);
    AllowByLeft(c, Final(c, bs', between), key, at);
    hide Allowed;
    hide Left;
    hide BucketsOk;
    hide InOrder;
    hide NotFrom;
    hide Final;
    if at >= now + wait as real {
      AccruedGrows(c, wait as real, at - now);
    }
    if at <= now + (wait - 1) as real {
      AccruedGrows(c, at - now, (wait - 1) as real);
    }
  }

  // ---------- The limiter as it runs ----------

  class Bucket {
    var tokens: real
    var seen: real

    constructor (tokens: real, seen: real)
      ensures this.tokens == tokens && this.seen == seen
    {
      this.tokens, this.seen := tokens, seen;
    }

    function Filled(): Fill
      reads this
    {
      Fill(tokens, seen)
    }
  }

  /** What a request does to a bucket of so many tokens after so long a time: the
      rate fills it up to the burst; with a whole token in it one is spent, and
      with less the answer says how many seconds are missing, rounded up. */
  ghost predicate Spends(c: Config, tokens: real, time: real, left: real, answer: Answer)
    requires c.rate > 0.0
  {
    var full := if tokens + time * c.rate < c.burst then tokens + time * c.rate else c.burst;
    if full < 1.0 then
      && answer.Refused? && left == full
      && (answer.wait - 1) as real < (1.0 - full) / c.rate <= answer.wait as real
    else
      answer == Admitted && left == full - 1.0
  }

  lemma RefillSpends(c: Config, b: Fill, now: real)
    requires c.rate > 0.0
    ensures var tokens := Refilled(c, b, now);
            Spends(c, b.tokens, now - b.seen, if tokens < 1.0 then tokens else tokens - 1.0,
                   if tokens < 1.0 then Refused(Ceil((1.0 - tokens) / c.rate)) else Admitted)
  {
    CeilBounds((1.0 - Refilled(c, b, now)) / c.rate);
    hide Ceil;
  }

  class Limiter {
    var buckets: map<string, Bucket>
    const config: Config

    ghost predicate Valid()
      reads this
    {
      config.rate > 0.0 && forall j, k :: j in buckets && k in buckets && j != k ==> buckets[j] != buckets[k]
    }

    ghost function Contents(): Fills
      reads this, buckets.Values
    {
      map k | k in buckets :: buckets[k].Filled()
    }

    constructor (config: Config)
      requires config.rate > 0.0
      ensures Valid() && this.config == config && Contents() == map[]
    {
      this.config := config;
      buckets := map[];
    }

    method Allow(key: string, now: real) returns (answer: Answer)
      requires Valid()
      modifies this`buckets, buckets.Values
      ensures Valid() && fresh(buckets.Values - old(buckets.Values))
      ensures (Contents(), answer) == Allowed(config, old(Contents()), key, now)
      ensures forall k :: k in old(buckets) && k != key ==>
                && k in buckets && buckets[k] == old(buckets)[k]
                && buckets[k].tokens == old(buckets[k].tokens) && buckets[k].seen == old(buckets[k].seen)
      ensures buckets.Keys == old(buckets).Keys + {key} && buckets[key].seen == now
      ensures key !in old(buckets) ==> answer == Admitted && buckets[key].tokens == config.burst - 1.0
      ensures key in old(buckets) ==>
                Spends(config, old(buckets[key].tokens), now - old(buckets[key].seen), buckets[key].tokens, answer)
    {
      hide Ceil;
      hide Spends;
      ghost var before := Contents();
      if key !in buckets {
        var b := new Bucket(config.burst - 1.0, now);
        buckets := buckets[key := b];
        assert Contents() == before[key := Fill(config.burst - 1.0, now)];
        return Admitted;
      }
      var b := buckets[key];
      RefillSpends(config, Fill(b.tokens, b.seen), now);
      b.tokens := MinReal(config.burst, b.tokens + Accrued(config, now - b.seen));
      b.seen := now;
      hide MinReal;
      hide Accrued;
      if b.tokens < 1.0 {
        assert Contents() == before[key := Fill(b.tokens, now)];
        return Refused(Ceil((1.0 - b.tokens) / config.rate));
      }
      b.tokens := b.tokens - 1.0;
      assert Contents() == before[key := Fill(b.tokens, now)];
      answer := Admitted;
    }

    method Sweep(now: real)
      requires Valid()
      modifies this`buckets
      ensures Valid() && buckets.Values <= old(buckets.Values)
      ensures Contents() == Swept(config, old(Contents()), now)
      ensures forall k :: k in buckets <==> k in old(buckets) && now - old(buckets[k].seen) < config.idle
      ensures forall k :: k in buckets ==>
                && buckets[k] == old(buckets)[k]
                && buckets[k].tokens == old(buckets[k].tokens) && buckets[k].seen == old(buckets[k].seen)
    {
      var keys := buckets.Keys;
      ghost var before := buckets;
      while keys != {}
        invariant keys <= before.Keys && Valid()
        invariant forall k :: k in buckets <==> k in before && (k in keys || now - before[k].seen < config.idle)
        invariant forall k :: k in buckets ==> buckets[k] == before[k]
        decreases keys
      {
        var key :| key in keys;
        if now - buckets[key].seen >= config.idle {
          buckets := buckets - {key};
        }
        keys := keys - {key};
      }
    }
  }
}
