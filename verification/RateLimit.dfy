/**
 The byte rate limiter: a token bucket refilled from the clock. Tokens and times
 (in seconds) are real numbers; a wait is a whole number of nanoseconds.
 */
module RateLimit {
  import opened Numbers

  /** The state of a limiter. */
  datatype Bucket = Bucket(rate: int, tokens: real, lastFill: real)

  function RealMin(a: real, b: real): real { if a <= b then a else b }

  /** `NewByteLimiter` for a positive rate: a full bucket. */
  function Full(rate: int, now: real): Bucket {
    Bucket(rate, rate as real, now)
  }

  /** What a rate yields in a span of time. */
  function Gain(rate: int, d: real): real {
    d * rate as real
  }

  /** The refill every operation starts with. */
  function Refill(b: Bucket, now: real): Bucket {
    if now > b.lastFill then
      Bucket(b.rate, RealMin(b.tokens + Gain(b.rate, now - b.lastFill), b.rate as real), now)
    else b
  }

  function WithRate(b: Bucket, rate: int): Bucket {
    Bucket(rate, if rate > 0 && b.tokens > rate as real then rate as real else b.tokens, b.lastFill)
  }

  /** `CanAfford`: refills, takes nothing. */
  function Afford(b: Bucket, n: int, now: real): (Bucket, bool) {
    if n <= 0 then (b, true)
    else
      var r := Refill(b, now);
      (r, r.tokens >= n as real)
  }

  /** `TryConsume`: all of `n` or nothing. */
  function Consume(b: Bucket, n: int, now: real): (Bucket, bool) {
    if n <= 0 then (b, true)
    else
      var r := Refill(b, now);
      if r.tokens < n as real then (r, false) else (r.(tokens := r.tokens - n as real), true)
  }

  /** One round of the loop of `Wait`: the bucket after it and what is still to be taken. */
  function Poll(b: Bucket, remaining: real, now: real): (Bucket, real) {
    var r := Refill(b, now);
    if r.tokens >= remaining then (r.(tokens := r.tokens - remaining), 0.0)
    else if r.tokens > 0.0 then (r.(tokens := 0.0), remaining - r.tokens)
    else (r, remaining)
  }

  /** How long a round sleeps, in nanoseconds: truncated, and at least a millisecond. */
  function Sleep(rate: int, remaining: real): int
    requires rate > 0
  {
    var chunk := RealMin(remaining, rate as real);
    var wait := (chunk / rate as real * SECOND as real).Floor;
    if wait < MILLISECOND then MILLISECOND else wait
  }

  /** A limiter with a positive rate never holds more than a second's worth, nor less than nothing. */
  predicate Sound(b: Bucket) {
    b.rate > 0 && 0.0 <= b.tokens <= b.rate as real
  }

  // ---- The limiter object ------------------------------------------------------

  /** The outside world of a blocking wait: how late each timer fires, and when the context is cancelled. */
  datatype World = World(late: nat -> real, cancelled: nat -> bool)

  class ByteLimiter {
    var rate: int
    var tokens: real
    var lastFill: real

    constructor (rate: int, now: real)
      ensures State() == Full(rate, now)
    {
      this.rate := rate;
      tokens := rate as real;
      lastFill := now;
    }

    function State(): Bucket
      reads this
    {
      Bucket(rate, tokens, lastFill)
    }

    method DoRefill(now: real)
      modifies this
      ensures State() == Refill(old(State()), now)
    {
      var elapsed := now - lastFill;
      if elapsed > 0.0 {
        tokens := tokens + Gain(rate, elapsed);
        if tokens > rate as real {
          tokens := rate as real;
        }
        lastFill := now;
      }
    }
  }

  /** `NewByteLimiter`: no limiter at all without a positive rate. */
  method NewByteLimiter(rate: int, now: real) returns (l: ByteLimiter?)
    ensures rate <= 0 <==> l == null
    ensures l != null ==> fresh(l) && l.State() == Full(rate, now)
  {
    if rate <= 0 {
      return null;
    }
    l := new ByteLimiter(rate, now);
  }

  method SetRate(l: ByteLimiter?, rate: int)
    modifies l
    ensures l != null ==> l.State() == WithRate(old(l.State()), rate)
  {
    if l == null {
      return;
    }
    l.rate := rate;
    if rate > 0 && l.tokens > rate as real {
      l.tokens := rate as real;
    }
  }

  method CanAfford(l: ByteLimiter?, n: int, now: real) returns (ok: bool)
    modifies l
    ensures l == null ==> ok
    ensures l != null ==> (l.State(), ok) == Afford(old(l.State()), n, now)
  {
    if l == null || n <= 0 {
      return true;
    }
    l.DoRefill(now);
    return l.tokens >= n as real;
  }

  method TryConsume(l: ByteLimiter?, n: int, now: real) returns (ok: bool)
    modifies l
    ensures l == null ==> ok
    ensures l != null ==> (l.State(), ok) == Consume(old(l.State()), n, now)
  {
    if l == null || n <= 0 {
      return true;
    }
    l.DoRefill(now);
    if l.tokens < n as real {
      return false;
    }
    l.tokens := l.tokens - n as real;
    return true;
  }

  // ---- The bound ---------------------------------------------------------------

  /**
   What can happen to one limiter shared by any number of users. `Wait` appears as
   its rounds: a waiter joins, polls until nothing remains, or gives up.
   */
  datatype Op =
    | TryOp(n: int)
    | AffordOp(n: int)
    | Join(waiter: nat, n: int)
    | PollOp(waiter: nat)
    | Cancel(waiter: nat)
    | RateOp(rate: int)

  datatype Event = Event(op: Op, at: real)

  /** A waiter: what it asked for, what it still wants, what it has taken. */
  datatype Waiter = Waiter(wanted: int, remaining: real, taken: real)

  datatype System = System(bucket: Bucket, waiters: map<nat, Waiter>, taken: real)

  function Apply(s: System, e: Event): System {
    match e.op
    case TryOp(n) =>
      var r := Consume(s.bucket, n, e.at);
      s.(bucket := r.0, taken := if r.1 && n > 0 then s.taken + n as real else s.taken)
    case AffordOp(n) => s.(bucket := Afford(s.bucket, n, e.at).0)
    case Join(w, n) =>
      if w in s.waiters || n <= 0 then s
      else s.(waiters := s.waiters[w := Waiter(n, n as real, 0.0)])
    case PollOp(w) =>
      if w !in s.waiters || s.waiters[w].remaining <= 0.0 then s
      else
        var x := s.waiters[w];
        var r := Poll(s.bucket, x.remaining, e.at);
        var got := x.remaining - r.1;
        System(r.0, s.waiters[w := Waiter(x.wanted, r.1, x.taken + got)], s.taken + got)
    case Cancel(w) => s.(waiters := s.waiters - {w})
    case RateOp(rate) => s.(bucket := WithRate(s.bucket, rate))
  }

  function Run(s: System, events: seq<Event>): System
    decreases |events|
  {
    if events == [] then s else Run(Apply(s, events[0]), events[1..])
  }

  /** The clock does not go back, starting at `from` and ending by `to`. */
  predicate Timed(events: seq<Event>, from: real, to: real)
    decreases |events|
  {
    if events == [] then from <= to
    else from <= events[0].at && Timed(events[1..], events[0].at, to)
  }

  /** Rates set along the way are positive and at most `cap`. */
  predicate RatesWithin(events: seq<Event>, cap: int) {
    forall k | 0 <= k < |events| && events[k].op.RateOp? :: 0 < events[k].op.rate <= cap
  }

  predicate RateFixed(events: seq<Event>) {
    forall k | 0 <= k < |events| :: !events[k].op.RateOp?
  }

  lemma GainFacts(rate: int, d: real)
    requires rate >= 0
    ensures d >= 0.0 ==> Gain(rate, d) >= 0.0
    ensures Gain(rate, 0.0) == 0.0 && Gain(rate, 1.0) == rate as real
    ensures Gain(rate, 1.0 + d) == rate as real + Gain(rate, d)
  {
  }

  lemma GainAdds(rate: int, d: real, e: real)
    ensures Gain(rate, d + e) == Gain(rate, d) + Gain(rate, e)
  {
  }

  lemma GainGrows(rate: int, d: real, e: real)
    requires rate > 0
    ensures d <= e <==> Gain(rate, d) <= Gain(rate, e)
  {
    var r, x := rate as real, e - d;
    assert Gain(rate, e) - Gain(rate, d) == x * r;
    if x >= 0.0 { assert x * r >= 0.0; } else { assert (-x) * r > 0.0; }
  }

  lemma GainCapped(rate: int, cap: int, d: real)
    requires rate <= cap && d >= 0.0
    ensures Gain(rate, d) <= Gain(cap, d)
  {
    var x := cap as real - rate as real;
    assert d * x >= 0.0;
    assert Gain(cap, d) - Gain(rate, d) == d * x;
  }

  lemma RefillSound(b: Bucket, now: real)
    requires Sound(b) && b.lastFill <= now
    ensures Sound(Refill(b, now)) && Refill(b, now).lastFill == now && Refill(b, now).rate == b.rate
    ensures b.tokens <= Refill(b, now).tokens <= b.tokens + Gain(b.rate, now - b.lastFill)
  {
    hide Gain;
    GainFacts(b.rate, now - b.lastFill);
  }

  /** Refilling at two times is refilling at the later one: nothing depends on when a limiter was looked at. */
  lemma RefillTwice(b: Bucket, t: real, u: real)
    requires Sound(b) && b.lastFill <= t <= u
    ensures Refill(Refill(b, t), u) == Refill(b, u)
  {
    hide Gain;
    var d, e := t - b.lastFill, u - t;
    GainAdds(b.rate, d, e);
    assert d + e == u - b.lastFill;
    GainFacts(b.rate, d);
    GainFacts(b.rate, e);
  }

  /** What every operation keeps of the whole system. */
  predicate Inv(s: System) {
    && Sound(s.bucket)
    && forall w | w in s.waiters :: WaiterInv(s.waiters[w])
  }

  /** A waiter has taken exactly what it no longer wants. */
  predicate WaiterInv(x: Waiter) {
    x.remaining >= 0.0 && x.taken + x.remaining == x.wanted as real
  }

  /** The operations whose outcome starts with a refill. */
  predicate Looks(s: System, op: Op) {
    match op
    case TryOp(n) => n > 0
    case AffordOp(n) => n > 0
    case PollOp(w) => w in s.waiters && s.waiters[w].remaining > 0.0
    case _ => false
  }

  /** An operation keeps the invariant, and what it takes leaves the refilled bucket. */
  lemma ApplyAccounts(s: System, e: Event)
    requires Inv(s) && s.bucket.lastFill <= e.at && (e.op.RateOp? ==> e.op.rate > 0)
    ensures Inv(Apply(s, e)) && Apply(s, e).taken >= s.taken
    ensures var b, s1 := if Looks(s, e.op) then Refill(s.bucket, e.at) else s.bucket, Apply(s, e);
      s1.taken + s1.bucket.tokens <= s.taken + b.tokens && s1.bucket.lastFill == b.lastFill
    ensures Apply(s, e).bucket.rate == if e.op.RateOp? then e.op.rate else s.bucket.rate
  {
    RefillSound(s.bucket, e.at);
    hide Refill;
  }

  /** The largest amount the bucket and its refill up to `t` can have given out, at rate `cap`. */
  function Budget(s: System, cap: int, t: real): real {
    s.taken + s.bucket.tokens + Gain(cap, t - s.bucket.lastFill)
  }

  lemma BudgetFalls(s: System, e: Event, cap: int, t: real)
    requires Inv(s) && s.bucket.lastFill <= e.at && s.bucket.rate <= cap
    requires e.op.RateOp? ==> 0 < e.op.rate <= cap
    ensures Budget(Apply(s, e), cap, t) <= Budget(s, cap, t)
  {
    ApplyAccounts(s, e);
    RefillSound(s.bucket, e.at);
    hide Apply, Refill, Gain, Inv;
    if Looks(s, e.op) {
      var d := e.at - s.bucket.lastFill;
      GainCapped(s.bucket.rate, cap, d);
      GainAdds(cap, t - e.at, d);
      assert (t - e.at) + d == t - s.bucket.lastFill;
    }
  }

  lemma {:induction false} RunBudget(s: System, events: seq<Event>, from: real, to: real, cap: int)
    requires Inv(s) && s.bucket.lastFill <= from && s.bucket.rate <= cap
    requires Timed(events, from, to) && RatesWithin(events, cap)
    ensures Inv(Run(s, events)) && s.taken <= Run(s, events).taken
    ensures Run(s, events).bucket.lastFill <= to
    ensures Budget(Run(s, events), cap, to) <= Budget(s, cap, to)
    decreases |events|
  {
    if events != [] {
      var e := events[0];
      assert e.op.RateOp? ==> 0 < e.op.rate <= cap;
      ApplyAccounts(s, e);
      RefillSound(s.bucket, e.at);
      BudgetFalls(s, e, cap, to);
      hide Budget, Inv;
      RunBudget(Apply(s, e), events[1..], e.at, to, cap);
    }
  }

  /**
   The bound with changing rates: over any run on a clock that does not go back, the
   amount taken is at most the tokens at the start plus the largest rate times the
   time since the last refill; and at its end the bucket is sound and every waiter's
   account balances.
   */
  lemma {:induction false} RunBound(s: System, events: seq<Event>, from: real, to: real, cap: int)
    requires Inv(s) && s.bucket.lastFill <= from && s.bucket.rate <= cap
    requires Timed(events, from, to) && RatesWithin(events, cap)
    ensures Inv(Run(s, events)) && s.taken <= Run(s, events).taken
    ensures Run(s, events).taken - s.taken <= s.bucket.tokens + Gain(cap, to - s.bucket.lastFill)
    ensures Run(s, events).taken - s.taken <= Gain(cap, 1.0 + (to - s.bucket.lastFill))
  {
    RunBudget(s, events, from, to, cap);
    GainFacts(cap, to - Run(s, events).bucket.lastFill);
    GainFacts(cap, to - s.bucket.lastFill);
    hide Gain, Run;
  }

  /** The same system with its bucket refilled up to `t`. */
  function Refilled(s: System, t: real): System {
    s.(bucket := Refill(s.bucket, t))
  }

  lemma RefillFirst(s: System, e: Event, t: real)
    requires Inv(s) && s.bucket.lastFill <= t <= e.at && !e.op.RateOp?
    ensures Apply(Refilled(s, t), e) == if Looks(s, e.op) then Apply(s, e) else Refilled(Apply(s, e), t)
  {
    RefillTwice(s.bucket, t, e.at);
    hide Refill;
  }

  /** A run from `t` on takes the same whether or not the bucket was refilled at `t`. */
  lemma {:induction false} RunFromRefilled(s: System, events: seq<Event>, t: real, from: real, to: real)
    requires Inv(s) && s.bucket.lastFill <= t <= from && Timed(events, from, to) && RateFixed(events)
    ensures Run(Refilled(s, t), events).taken == Run(s, events).taken
    decreases |events|
  {
    if events != [] {
      var e := events[0];
      assert !e.op.RateOp?;
      RefillFirst(s, e, t);
      ApplyAccounts(s, e);
      if !Looks(s, e.op) { RunFromRefilled(Apply(s, e), events[1..], t, e.at, to); }
    }
  }

  /**
   The token bucket bound: at a fixed rate, in any window, whatever mix of TryConsume,
   CanAfford and rounds of Wait happens in it, at most rate * (1 + length) is taken.
   */
  lemma {:induction false} WindowBound(s: System, events: seq<Event>, from: real, to: real)
    requires Inv(s) && s.bucket.lastFill <= from && Timed(events, from, to) && RateFixed(events)
    ensures Inv(Run(s, events))
    ensures Run(s, events).taken - s.taken <= Refill(s.bucket, from).tokens + Gain(s.bucket.rate, to - from)
    ensures Run(s, events).taken - s.taken <= Gain(s.bucket.rate, 1.0 + (to - from))
  {
    RefillSound(s.bucket, from);
    assert RatesWithin(events, s.bucket.rate);
    RunBound(s, events, from, to, s.bucket.rate);
    RunBound(Refilled(s, from), events, from, to, s.bucket.rate);
    hide Gain, Run, Refill;
    RunFromRefilled(s, events, from, from, to);
  }

  /** The bound is reached: a full bucket emptied at once, and again after a second. */
  lemma WindowBoundTight(rate: int, from: real)
    requires rate > 0
    ensures var s := System(Full(rate, from), map[], 0.0);
      var events := [Event(TryOp(rate), from), Event(TryOp(rate), from + 1.0)];
      && Inv(s) && Timed(events, from, from + 1.0) && RateFixed(events)
      && Run(s, events).taken == 2.0 * rate as real == Gain(rate, 1.0 + 1.0)
  {
    var s, e0, e1 := System(Full(rate, from), map[], 0.0), Event(TryOp(rate), from), Event(TryOp(rate), from + 1.0);
    assert [e0, e1][1..] == [e1] && [e1][1..] == [];
    var s1 := Apply(s, e0);
    assert s1.bucket == Bucket(rate, 0.0, from);
    GainFacts(rate, 1.0);
    assert Refill(s1.bucket, from + 1.0).tokens == rate as real;
    assert Run(s, [e0, e1]) == Run(s1, [e1]) == Apply(s1, e1);
  }

  // ---- Wait --------------------------------------------------------------------

  function Ceil(x: real): int { -((-x).Floor) }

  /** How many sleeps a waiter with nothing in the bucket can still need. */
  function SleepsLeft(rate: int, r: real): nat
    requires rate > 0 && r >= 0.0
  {
    if r <= rate as real / SECOND as real then 1
    else if r <= rate as real then 2
    else
      DivAbove(r, rate);
      1 + Ceil(r / rate as real)
  }

  /** The quotient of an amount by a rate is the time the rate takes for it. */
  lemma Quotient(r: real, rate: int)
    requires rate > 0
    ensures Gain(rate, r / rate as real) == r
  {
  }

  lemma DivAbove(r: real, rate: int)
    requires rate > 0 && r > rate as real
    ensures r / rate as real > 1.0 && Ceil(r / rate as real) >= 2
  {
    Quotient(r, rate);
    GainFacts(rate, 0.0);
    GainGrows(rate, r / rate as real, 1.0);
  }

  /** At most the seconds' worth wanted, rounded up, and one more. */
  lemma SleepsLeftBound(rate: int, r: real)
    requires rate > 0 && r > 0.0
    ensures SleepsLeft(rate, r) <= Ceil(r / rate as real) + 1
  {
    Quotient(r, rate);
    GainFacts(rate, 0.0);
    GainGrows(rate, r / rate as real, 0.0);
  }

  /** A sleep lasts at least what its chunk needs, but for less than a nanosecond. */
  lemma SleepEnough(rate: int, r: real)
    requires rate > 0 && r > 0.0
    ensures var wait, chunk := Sleep(rate, r) as real / SECOND as real, RealMin(r, rate as real);
      && wait >= 0.001
      && Gain(rate, wait) >= chunk - Gain(rate, 0.000000001)
      && (r >= rate as real ==> wait >= 1.0)
  {
    var chunk := RealMin(r, rate as real);
    var f := chunk / rate as real;
    Quotient(chunk, rate);
    var wait := Sleep(rate, r) as real / SECOND as real;
    assert wait >= f - 0.000000001;
    GainGrows(rate, f - 0.000000001, wait);
    GainAdds(rate, f - 0.000000001, 0.000000001);
    if r >= rate as real {
      GainFacts(rate, 0.0);
      GainGrows(rate, f, 1.0);
      GainGrows(rate, 1.0, f);
    }
  }

  /** After a full sleep on an empty bucket the next round finishes or needs one sleep fewer. */
  lemma {:induction false} RoundProgress(b: Bucket, r: real, now: real)
    requires Sound(b) && b.tokens == 0.0 && r > 0.0
    requires now - b.lastFill >= Sleep(b.rate, r) as real / SECOND as real
    ensures var r1 := Poll(b, r, now).1; 0.0 <= r1 <= r && (r1 > 0.0 ==> SleepsLeft(b.rate, r1) < SleepsLeft(b.rate, r))
  {
    var rate, d := b.rate as real, now - b.lastFill;
    var wait := Sleep(b.rate, r) as real / SECOND as real;
    SleepEnough(b.rate, r);
    GainGrows(b.rate, wait, d);
    GainFacts(b.rate, 0.0);
    var t := Refill(b, now).tokens;
    assert t == RealMin(Gain(b.rate, d), rate);
    if r > rate {
      GainGrows(b.rate, 1.0, d);
      hide Gain, Sleep;
      DivAbove(r, b.rate);
      LessByOne(r, b.rate);
    } else if r > rate / SECOND as real {
      assert Gain(b.rate, 0.000000001) == rate / SECOND as real;
      hide Gain, Sleep;
    } else {
      GainGrows(b.rate, 0.001, d);
      assert t >= r;
    }
  }

  lemma OneSecondLess(r: real, rate: int)
    requires rate > 0
    ensures (r - rate as real) / rate as real == r / rate as real - 1.0
  {
    var q, q1 := r / rate as real, (r - rate as real) / rate as real;
    Quotient(r, rate);
    Quotient(r - rate as real, rate);
    GainFacts(rate, 0.0);
    GainAdds(rate, q - 1.0, 1.0);
    GainGrows(rate, q1, q - 1.0);
    GainGrows(rate, q - 1.0, q1);
    hide Gain;
  }

  lemma CeilShift(x: real)
    ensures Ceil(x - 1.0) == Ceil(x) - 1
  {
  }

  lemma LessByOne(r: real, rate: int)
    requires rate > 0 && r > rate as real
    ensures SleepsLeft(rate, r - rate as real) < SleepsLeft(rate, r)
  {
    DivAbove(r, rate);
    if r - rate as real > rate as real {
      OneSecondLess(r, rate);
      CeilShift(r / rate as real);
    }
  }

  lemma SleepsLeftMonotone(rate: int, r: real, r1: real)
    requires rate > 0 && 0.0 <= r1 <= r
    ensures SleepsLeft(rate, r1) <= SleepsLeft(rate, r)
  {
    if r1 > rate as real {
      Quotient(r, rate);
      Quotient(r1, rate);
      GainGrows(rate, r1 / rate as real, r / rate as real);
    } else if r > rate as real {
      DivAbove(r, rate);
    }
  }

  /** What an uncontended Wait did, in the terms of the shared system: it is waiter 0. */
  ghost predicate Waited(b: Bucket, n: int, events: seq<Event>, b1: Bucket, remaining: real) {
    Run(System(b, map[], 0.0), events)
      == System(b1, map[0 := Waiter(n, remaining, n as real - remaining)], n as real - remaining)
  }

  lemma {:induction false} RunSnoc(s: System, events: seq<Event>, e: Event)
    ensures Run(s, events + [e]) == Apply(Run(s, events), e)
    decreases |events|
  {
    if events == [] {
      assert [] + [e] == [e] && [e][1..] == [];
    } else {
      assert (events + [e])[0] == events[0] && (events + [e])[1..] == events[1..] + [e];
      RunSnoc(Apply(s, events[0]), events[1..], e);
    }
  }

  lemma {:induction false} TimedSnoc(events: seq<Event>, from: real, to: real, e: Event, later: real)
    requires Timed(events, from, to) && to <= e.at <= later
    ensures Timed(events + [e], from, later)
    decreases |events|
  {
    if events != [] {
      assert (events + [e])[0] == events[0] && (events + [e])[1..] == events[1..] + [e];
      TimedSnoc(events[1..], events[0].at, to, e, later);
    }
  }

  lemma WaitedPoll(b: Bucket, n: int, events: seq<Event>, b1: Bucket, remaining: real, now: real)
    requires Waited(b, n, events, b1, remaining) && remaining > 0.0
    ensures var r := Poll(b1, remaining, now);
      Waited(b, n, events + [Event(PollOp(0), now)], r.0, r.1)
  {
    RunSnoc(System(b, map[], 0.0), events, Event(PollOp(0), now));
    hide Run, Poll;
    var r := Poll(b1, remaining, now);
    var m := map[0 := Waiter(n, remaining, n as real - remaining)];
    assert m[0 := Waiter(n, r.1, n as real - r.1)] == map[0 := Waiter(n, r.1, n as real - r.1)];
  }

  /** One round of `Wait`, under the lock. */
  method PollOnce(l: ByteLimiter, remaining: real, now: real) returns (rest: real)
    requires remaining > 0.0
    modifies l
    ensures (l.State(), rest) == Poll(old(l.State()), remaining, now)
  {
    l.DoRefill(now);
    if l.tokens >= remaining {
      l.tokens := l.tokens - remaining;
      return 0.0;
    }
    rest := remaining;
    if l.tokens > 0.0 {
      rest := rest - l.tokens;
      l.tokens := 0.0;
    }
  }

  lemma PollEmpties(b: Bucket, remaining: real, now: real)
    requires Sound(b) && b.lastFill <= now && remaining > 0.0
    ensures var (b1, rest) := Poll(b, remaining, now);
      && Sound(b1) && b1.rate == b.rate && b1.lastFill == now && 0.0 <= rest <= remaining
      && (rest > 0.0 ==> b1.tokens == 0.0)
  {
    RefillSound(b, now);
    hide Refill;
  }

  /** The sleeps a waiter can still need after a round: one fewer than the budget it came with. */
  lemma BudgetSpent(b: Bucket, n: real, remaining: real, now: real, first: bool, budget: nat)
    requires Sound(b) && b.lastFill <= now && 0.0 < remaining <= n
    requires if first then budget == SleepsLeft(b.rate, n) + 1
      else
        && b.tokens == 0.0 && now - b.lastFill >= Sleep(b.rate, remaining) as real / SECOND as real
        && SleepsLeft(b.rate, remaining) <= budget
    ensures budget > 0
    ensures var rest := Poll(b, remaining, now).1; rest > 0.0 ==> SleepsLeft(b.rate, rest) <= budget - 1
  {
    PollEmpties(b, remaining, now);
    if first {
      var rest := Poll(b, remaining, now).1;
      SleepsLeftMonotone(b.rate, n, rest);
    } else {
      RoundProgress(b, remaining, now);
    }
  }

  /** The sum of how late the first `k` timers fire. */
  function LateBy(late: nat -> real, k: nat): real {
    if k == 0 then 0.0 else LateBy(late, k - 1) + late(k - 1)
  }

  lemma {:induction false} NeverLate(late: nat -> real, k: nat)
    requires forall j | 0 <= j < k :: late(j) == 0.0
    ensures LateBy(late, k) == 0.0
  {
    if k > 0 {
      NeverLate(late, k - 1);
    }
  }

  /** What the bucket lacks for `n` at `now`. */
  function Lack(b: Bucket, n: int, now: real): real {
    if Refill(b, now).tokens >= n as real then 0.0 else n as real - Refill(b, now).tokens
  }

  /** A sleep is at most a second and, but for its floor of a millisecond, what the rate takes for the amount. */
  lemma SleepShort(rate: int, r: real)
    requires rate > 0 && r > 0.0
    ensures var s := Sleep(rate, r) as real / SECOND as real;
      0.0 < s <= 1.0 && Gain(rate, s) <= rate as real && Gain(rate, s) <= r + Gain(rate, 0.001)
  {
    var chunk := RealMin(r, rate as real);
    var s := Sleep(rate, r) as real / SECOND as real;
    var x := chunk / rate as real;
    Quotient(chunk, rate);
    GainFacts(rate, 1.0);
    GainFacts(rate, 0.001);
    GainGrows(rate, x, 1.0);
    FloorBelow(x);
    GainGrows(rate, s, x);
    GainGrows(rate, s, 1.0);
    hide Gain;
  }

  lemma FloorBelow(x: real)
    ensures (x * SECOND as real).Floor as real / SECOND as real <= x
  {
  }

  /** A round after a sleep on an empty bucket loses only the lateness of its timer and, if the last, a millisecond. */
  lemma RoundInTime(b: Bucket, r: real, late: real, now: real)
    requires Sound(b) && b.tokens == 0.0 && r > 0.0 && late >= 0.0
    requires now == b.lastFill + Sleep(b.rate, r) as real / SECOND as real + late
    ensures var rest := Poll(b, r, now).1;
      Gain(b.rate, now - b.lastFill) + rest
        <= r + Gain(b.rate, late) + if rest > 0.0 then 0.0 else Gain(b.rate, 0.001)
  {
    var s := Sleep(b.rate, r) as real / SECOND as real;
    SleepShort(b.rate, r);
    GainAdds(b.rate, s, late);
    GainFacts(b.rate, late);
    assert now - b.lastFill == s + late;
    assert Refill(b, now).tokens == RealMin(Gain(b.rate, s + late), b.rate as real);
    hide Gain, Sleep, Refill;
  }

  /** The account of a wait: the rate's yield in the time passed and what is still wanted was lacking or is lateness. */
  ghost predicate OnSchedule(rate: int, passed: real, rest: real, lack: real, late: real) {
    Gain(rate, passed) + rest <= lack + Gain(rate, late)
  }

  lemma FirstOnSchedule(b: Bucket, n: int, now: real)
    requires Sound(b) && b.lastFill <= now && n > 0
    ensures OnSchedule(b.rate, 0.0, Poll(b, n as real, now).1, Lack(b, n, now), 0.0)
  {
    RefillSound(b, now);
    GainFacts(b.rate, 0.0);
    hide Gain, Refill;
  }

  lemma NextOnSchedule(b: Bucket, r: real, start: real, now: real, lack: real, lates: real, late: real)
    requires Sound(b) && b.tokens == 0.0 && r > 0.0 && late >= 0.0
    requires now == b.lastFill + Sleep(b.rate, r) as real / SECOND as real + late
    requires OnSchedule(b.rate, b.lastFill - start, r, lack, lates)
    ensures var rest := Poll(b, r, now).1;
      && (rest > 0.0 ==> OnSchedule(b.rate, now - start, rest, lack, lates + late))
      && OnSchedule(b.rate, now - start, rest, lack, 0.001 + (lates + late))
  {
    RoundInTime(b, r, late, now);
    GainAdds(b.rate, now - b.lastFill, b.lastFill - start);
    GainAdds(b.rate, lates, late);
    GainAdds(b.rate, 0.001, lates + late);
    GainFacts(b.rate, 0.001);
    assert now - start == (now - b.lastFill) + (b.lastFill - start);
    hide Gain, Sleep, Poll;
  }

  /** A first round at `start`, or a next one after its sleep. */
  lemma RoundOnSchedule(
    b: Bucket, r: real, start: real, now: real, n: int, b0: Bucket, late: nat -> real, k: nat)
    requires Sound(b) && b.lastFill <= now && r > 0.0 && n > 0 && forall j :: late(j) >= 0.0
    requires k == 0 ==> b == b0 && r == n as real && now == start
    requires k > 0 ==>
      && b.tokens == 0.0 && now == b.lastFill + Sleep(b.rate, r) as real / SECOND as real + late(k - 1)
      && OnSchedule(b.rate, b.lastFill - start, r, Lack(b0, n, start), LateBy(late, k - 1))
    ensures var rest := Poll(b, r, now).1;
      && (rest > 0.0 ==> OnSchedule(b.rate, now - start, rest, Lack(b0, n, start), LateBy(late, k)))
      && OnSchedule(b.rate, now - start, rest, Lack(b0, n, start), 0.001 + LateBy(late, k))
  {
    if k == 0 {
      FirstOnSchedule(b, n, now);
      GainFacts(b.rate, 0.001);
      GainFacts(b.rate, 0.0);
      hide Poll, Gain;
    } else {
      NextOnSchedule(b, r, start, now, Lack(b0, n, start), LateBy(late, k - 1), late(k - 1));
      hide Poll, OnSchedule;
    }
  }

  /** Each round of a wait comes at most a second, and the lateness of its timer, after the one before. */
  predicate EverySecond(events: seq<Event>, late: nat -> real) {
    forall k: nat | 0 < k < |events| - 1 :: 0.0 < events[k + 1].at - events[k].at <= 1.0 + late(k - 1)
  }

  lemma EveryFirst(e: Event, late: nat -> real)
    ensures EverySecond([e], late)
  {
  }

  lemma EveryMore(events: seq<Event>, late: nat -> real, e: Event)
    requires EverySecond(events, late)
    requires |events| >= 2 ==> 0.0 < e.at - events[|events| - 1].at <= 1.0 + late(|events| - 2)
    ensures EverySecond(events + [e], late)
  {
  }

  /**
   `Wait` on a limiter nobody else uses meanwhile, from the time `start`. It either
   fails because the context is cancelled or takes exactly `n`; it polls at most
   ceil(n / rate) + 2 times, at most a second apart but for late timers; and `events` are its
   rounds as the shared system sees them, so every bound on runs applies to it. It lasts no
   longer than the rate takes for what the bucket lacks at `start`, a millisecond, and the
   lateness of its timers.
   */
  method Wait(l: ByteLimiter?, n: int, start: real, world: World)
    returns (ok: bool, now: real, ghost events: seq<Event>, ghost remaining: real)
    requires l != null ==> Sound(l.State()) && l.lastFill <= start
    requires forall k :: world.late(k) >= 0.0
    modifies l
    ensures l == null || n <= 0 ==> ok && now == start && events == []
    ensures l != null && n <= 0 ==> l.State() == old(l.State())
    ensures l != null && n > 0 ==>
      && |events| - 1 <= Ceil(n as real / old(l.rate) as real) + 2
      && RateFixed(events) && Timed(events, start, now)
      && Waited(old(l.State()), n, events, l.State(), remaining)
      && (ok <==> remaining == 0.0)
      && |events| >= 2 && events[1].at == start && EverySecond(events, world.late)
      && Gain(old(l.rate), now - start) + remaining
           <= Lack(old(l.State()), n, start) + Gain(old(l.rate), 0.001 + LateBy(world.late, |events| - 2))
  {
    hide Gain, Sleep, Poll, LateBy, Lack, Waited, Timed, RateFixed, SleepsLeft, EverySecond, Ceil;
    events, now, remaining := [], start, 0.0;
    if l == null || n <= 0 {
      return true, now, events, remaining;
    }
    var left := n as real;
    ghost var rate, budget: nat := l.rate, SleepsLeft(l.rate, left) + 1;
    ghost var b0 := l.State();
    var k := 0;
    events := [Event(Join(0, n), start)];
    SleepsLeftBound(rate, left);
    Joined(l.State(), n, start);
    EveryFirst(Event(Join(0, n), start), world.late);
    while left > 0.0
      invariant 0.0 < left <= n as real
      invariant l.rate == rate && Sound(l.State()) && l.lastFill <= now
      invariant RateFixed(events) && Timed(events, start, now)
      invariant Waited(old(l.State()), n, events, l.State(), left)
      invariant |events| == k + 1 && EverySecond(events, world.late)
      invariant if k == 0 then now == start && l.State() == b0 && left == n as real else
        && events[1].at == start && events[k].at == l.lastFill
        && now == l.lastFill + Sleep(rate, left) as real / SECOND as real + world.late(k - 1)
        && OnSchedule(rate, l.lastFill - start, left, Lack(b0, n, start), LateBy(world.late, k - 1))
      invariant if k == 0 then budget == SleepsLeft(rate, n as real) + 1 else
        && l.tokens == 0.0 && now - l.lastFill >= Sleep(rate, left) as real / SECOND as real
        && SleepsLeft(rate, left) <= budget
      invariant k + budget == SleepsLeft(rate, n as real) + 1
      decreases budget
    {
      BudgetSpent(l.State(), n as real, left, now, k == 0, budget);
      PollEmpties(l.State(), left, now);
      WaitedPoll(old(l.State()), n, events, l.State(), left, now);
      RoundOnSchedule(l.State(), left, start, now, n, b0, world.late, k);
      SleepShort(rate, left);
      EveryMore(events, world.late, Event(PollOp(0), now));
      events := Logged(events, start, now);
      left := PollOnce(l, left, now);
      remaining := left;
      if left == 0.0 {
        return true, now, events, remaining;
      }
      if world.cancelled(k) {
        return false, now, events, remaining;
      }
      ghost var polled := now;
      now := now + Sleep(l.rate, left) as real / SECOND as real + world.late(k);
      SleepPositive(l.rate, left);
      TimedLater(events, start, polled, now);
      k, budget := k + 1, budget - 1;
    }
    return true, now, events, remaining;
  }

  lemma SleepPositive(rate: int, r: real)
    requires rate > 0
    ensures Sleep(rate, r) >= MILLISECOND
  {
  }

  lemma Joined(b: Bucket, n: int, start: real)
    requires n > 0
    ensures Waited(b, n, [Event(Join(0, n), start)], b, n as real)
    ensures RateFixed([Event(Join(0, n), start)]) && Timed([Event(Join(0, n), start)], start, start)
  {
    assert [Event(Join(0, n), start)][1..] == [];
  }

  /** With timers never late, a wait is over within a millisecond of the time the rate takes for what was lacking. */
  lemma WaitIsShort(b: Bucket, n: int, start: real, now: real, late: nat -> real, rounds: nat)
    requires b.rate > 0 && forall j | 0 <= j < rounds :: late(j) == 0.0
    requires Gain(b.rate, now - start) <= Lack(b, n, start) + Gain(b.rate, 0.001 + LateBy(late, rounds))
    ensures now - start <= Lack(b, n, start) / b.rate as real + 0.001
  {
    NeverLate(late, rounds);
    var x := Lack(b, n, start) / b.rate as real;
    Quotient(Lack(b, n, start), b.rate);
    GainAdds(b.rate, x, 0.001);
    GainGrows(b.rate, now - start, x + 0.001);
    hide Gain, Lack;
  }

  /** The events with one more round, on a clock that has not gone back. */
  ghost function Logged(events: seq<Event>, start: real, now: real): (r: seq<Event>)
    requires RateFixed(events) && Timed(events, start, now)
    ensures r == events + [Event(PollOp(0), now)] && RateFixed(r) && Timed(r, start, now)
  {
    TimedSnoc(events, start, now, Event(PollOp(0), now), now);
    events + [Event(PollOp(0), now)]
  }

  lemma {:induction false} TimedLater(events: seq<Event>, from: real, to: real, later: real)
    requires Timed(events, from, to) && to <= later
    ensures Timed(events, from, later)
    decreases |events|
  {
    if events != [] { TimedLater(events[1..], events[0].at, to, later); }
  }

  /** What a waiter of the shared system has taken. */
  function TakenBy(s: System, w: nat): real {
    if w in s.waiters then s.waiters[w].taken else 0.0
  }

  /** In one step a waiter that does not give up takes no more than the whole system does. */
  lemma OwnStep(s: System, e: Event, w: nat)
    requires Inv(s) && s.bucket.lastFill <= e.at && !e.op.RateOp? && e.op != Cancel(w)
    ensures TakenBy(Apply(s, e), w) - TakenBy(s, w) <= Apply(s, e).taken - s.taken
  {
    ApplyAccounts(s, e);
    hide Refill;
  }

  /** In any run a waiter that does not give up takes no more than the whole system does. */
  lemma {:induction false} OwnShare(s: System, events: seq<Event>, w: nat, from: real, to: real)
    requires Inv(s) && s.bucket.lastFill <= from && Timed(events, from, to) && RateFixed(events)
    requires forall k | 0 <= k < |events| :: events[k].op != Cancel(w)
    ensures TakenBy(Run(s, events), w) - TakenBy(s, w) <= Run(s, events).taken - s.taken
    decreases |events|
  {
    if events != [] {
      var e := events[0];
      assert !e.op.RateOp? && e.op != Cancel(w);
      ApplyAccounts(s, e);
      OwnStep(s, e, w);
      LastFillBy(s, e);
      OwnShare(Apply(s, e), events[1..], w, e.at, to);
      hide Apply, Inv, TakenBy;
    }
  }

  lemma LastFillBy(s: System, e: Event)
    requires Inv(s) && s.bucket.lastFill <= e.at && !e.op.RateOp?
    ensures Apply(s, e).bucket.lastFill <= e.at
  {
    ApplyAccounts(s, e);
    RefillSound(s.bucket, e.at);
    hide Apply, Inv;
  }

  /**
   A wait for `n` that starts with nothing taken and is satisfied at the end of a run, whoever
   else uses the limiter in it, is not shorter than what the bucket lacked at its start over the rate.
   */
  lemma {:induction false} SharedWaitTakesTime(s: System, events: seq<Event>, w: nat, start: real, now: real)
    requires Inv(s) && s.bucket.lastFill <= start && Timed(events, start, now) && RateFixed(events)
    requires forall k | 0 <= k < |events| :: events[k].op != Cancel(w)
    requires TakenBy(s, w) == 0.0 && w in Run(s, events).waiters && Run(s, events).waiters[w].remaining == 0.0
    ensures var n := Run(s, events).waiters[w].wanted;
      n as real - Refill(s.bucket, start).tokens <= Gain(s.bucket.rate, now - start)
  {
    WindowBound(s, events, start, now);
    OwnShare(s, events, w, start, now);
    assert WaiterInv(Run(s, events).waiters[w]);
    hide Run, Gain, Refill;
  }

  /** A successful wait never ends before the rate has yielded what the bucket lacked at the call. */
  lemma WaitTakesTime(b: Bucket, n: int, events: seq<Event>, b1: Bucket, start: real, now: real)
    requires Sound(b) && b.lastFill <= start && n > 0
    requires Waited(b, n, events, b1, 0.0) && RateFixed(events) && Timed(events, start, now)
    ensures n as real - Refill(b, start).tokens <= Gain(b.rate, now - start)
  {
    WindowBound(System(b, map[], 0.0), events, start, now);
  }
}
