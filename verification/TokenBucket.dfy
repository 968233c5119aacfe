/** The per-key token bucket. Times are seconds; floats are taken as reals. */
module TokenBucket {

  /** Fill level and the time it was last brought up to date. */
  datatype Level = Level(tokens: real, last: real)

  /** What flows into the bucket in `dt` seconds. */
  function Flow(rate: real, dt: real): real {
    dt * rate
  }

  function Refilled(cap: real, rate: real, lv: Level, now: real): Level {
    if now > lv.last then
      var filled := lv.tokens + Flow(rate, now - lv.last);
      Level(if filled > cap then cap else filled, now)
    else lv
  }

  /** The program's counts are signed. */
  datatype Op =
    | Take(now: real, n: int)
    | Charge(now: real, n: int)
    | Look(now: real)

  /** The level after an operation, and the tokens it granted. */
  function Apply(cap: real, rate: real, lv: Level, op: Op): (Level, int) {
    var r := Refilled(cap, rate, lv, op.now);
    match op
    case Take(_, n) => if r.tokens >= n as real then (r.(tokens := r.tokens - n as real), n) else (r, 0)
    case Charge(_, n) => (r.(tokens := if r.tokens < n as real then 0.0 else r.tokens - n as real), 0)
    case Look(_) => (r, 0)
  }

  /** Seconds a denied caller is told to wait: a ceiling that ignores the last microsecond. */
  function RetryAfter(rate: real, tokens: real): int
    requires rate > 0.0
  {
    if tokens >= 1.0 then 0
    else
      var s := ((1.0 - tokens) / rate + 0.999999).Floor;
      if s < 1 then 1 else s
  }

  class Bucket {
    const capacity: real
    const rate: real
    var tokens: real
    var last: real

    ghost function State(): Level
      reads this
    {
      Level(tokens, last)
    }

    constructor (cap: int, ratePerSec: real, now: real)
      ensures capacity == cap as real && rate == ratePerSec && State() == Level(cap as real, now)
    {
      capacity := cap as real;
      rate := ratePerSec;
      tokens := cap as real;
      last := now;
    }

    method Refill(now: real)
      modifies this
      ensures State() == Refilled(capacity, rate, old(State()), now)
    {
      var elapsed := now - last;
      if elapsed > 0.0 {
        var inflow := Flow(rate, elapsed);
        tokens := tokens + inflow;
        if tokens > capacity {
          tokens := capacity;
        }
        last := now;
      }
    }

    method Allow(n: int, now: real) returns (ok: bool)
      modifies this
      ensures capacity <= 0.0 ==> ok && State() == old(State())
      ensures capacity > 0.0 ==>
        var (lv, granted) := Apply(capacity, rate, old(State()), Take(now, n));
        State() == lv && (ok ==> granted == n) && (!ok ==> granted == 0) &&
        (ok <==> n as real <= Refilled(capacity, rate, old(State()), now).tokens)
    {
      if capacity <= 0.0 {
        return true;
      }
      Refill(now);
      var f := n as real;
      if tokens >= f {
        tokens := tokens - f;
        return true;
      }
      return false;
    }

    method Deduct(n: int, now: real)
      modifies this
      ensures State() == if capacity <= 0.0 then old(State()) else Apply(capacity, rate, old(State()), Charge(now, n)).0
    {
      if capacity <= 0.0 {
        return;
      }
      Refill(now);
      tokens := tokens - n as real;
      if tokens < 0.0 {
        tokens := 0.0;
      }
    }

    method Remaining(now: real) returns (n: int)
      modifies this
      ensures State() == if capacity <= 0.0 then old(State()) else Apply(capacity, rate, old(State()), Look(now)).0
      ensures n == if capacity <= 0.0 then 0x4000_0000_0000_0000 else State().tokens.Floor
    {
      if capacity <= 0.0 {
        return 0x4000_0000_0000_0000;
      }
      Refill(now);
      return tokens.Floor;
    }

    method RetryAfterSeconds(now: real) returns (s: int)
      modifies this
      ensures State() == if capacity <= 0.0 || rate <= 0.0 then old(State())
              else Apply(capacity, rate, old(State()), Look(now)).0
      ensures s == if capacity <= 0.0 || rate <= 0.0 then 0 else RetryAfter(rate, State().tokens)
    {
      if capacity <= 0.0 || rate <= 0.0 {
        return 0;
      }
      Refill(now);
      if tokens >= 1.0 {
        return 0;
      }
      var secs := (1.0 - tokens) / rate;
      s := (secs + 0.999999).Floor;
      if s < 1 {
        s := 1;
      }
    }
  }

  // ---- The rate bound ----

  lemma FlowIn(rate: real, dt: real)
    requires dt >= 0.0 && rate >= 0.0
    ensures Flow(rate, dt) >= 0.0
    ensures dt > 0.0 && rate > 0.0 ==> Flow(rate, dt) > 0.0
  {
  }

  lemma FlowAdds(rate: real, a: real, b: real)
    ensures Flow(rate, a + b) == Flow(rate, a) + Flow(rate, b)
  {
  }

  ghost predicate InRange(cap: real, lv: Level) {
    0.0 <= lv.tokens <= cap
  }

  /** Operations at nondecreasing times, none before `from`. */
  ghost predicate Ordered(from: real, ops: seq<Op>)
    decreases |ops|
  {
    ops != [] ==> from <= ops[0].now && Ordered(ops[0].now, ops[1..])
  }

  /** No operation asks for, or charges, a negative number of tokens. */
  ghost predicate Sensible(ops: seq<Op>) {
    forall op | op in ops :: op.Look? || op.n >= 0
  }

  /** Tokens that `Allow` grants during [s, t]. */
  ghost function Granted(cap: real, rate: real, lv: Level, ops: seq<Op>, s: real, t: real): int
    decreases |ops|
  {
    if ops == [] then 0
    else
      var (next, g) := Apply(cap, rate, lv, ops[0]);
      (if s <= ops[0].now <= t then g else 0) + Granted(cap, rate, next, ops[1..], s, t)
  }

  /** One operation keeps the level in range exactly when it does not give back more than was
      missing; a negative count gives back. */
  lemma InRangeExactly(cap: real, rate: real, lv: Level, op: Op)
    requires cap > 0.0 && rate >= 0.0 && InRange(cap, lv) && lv.last <= op.now
    ensures InRange(cap, Apply(cap, rate, lv, op).0)
            <==> op.Look? || op.n as real >= Refilled(cap, rate, lv, op.now).tokens - cap
  {
    FlowIn(rate, op.now - lv.last);
    assert InRange(cap, Refilled(cap, rate, lv, op.now));
  }

  /** A negative charge overfills a full bucket. */
  lemma NegativeOverfills()
    ensures InRange(1.0, Level(1.0, 0.0)) && !InRange(1.0, Apply(1.0, 0.0, Level(1.0, 0.0), Charge(0.0, -1)).0)
  {
    InRangeExactly(1.0, 0.0, Level(1.0, 0.0), Charge(0.0, -1));
  }

  /** One operation keeps the level in range and spends what it grants. */
  lemma ApplyFacts(cap: real, rate: real, lv: Level, op: Op)
    requires rate >= 0.0 && InRange(cap, lv) && lv.last <= op.now && (op.Look? || op.n >= 0)
    ensures var (next, g) := Apply(cap, rate, lv, op);
            InRange(cap, next) && next.last == op.now &&
            g as real + next.tokens <= Refilled(cap, rate, lv, op.now).tokens &&
            Refilled(cap, rate, lv, op.now).tokens <= lv.tokens + Flow(rate, op.now - lv.last) &&
            Refilled(cap, rate, lv, op.now).tokens <= cap
  {
    FlowIn(rate, op.now - lv.last);
    var r := Refilled(cap, rate, lv, op.now);
    assert InRange(cap, r) && r.last == op.now;
    match op
    case Take(_, n) => assert n as real >= 0.0;
    case Charge(_, n) => assert n as real >= 0.0;
    case Look(_) =>
  }

  lemma {:induction false} NothingLater(cap: real, rate: real, lv: Level, ops: seq<Op>, s: real, t: real)
    requires Ordered(lv.last, ops) && Sensible(ops) && t < lv.last && rate >= 0.0 && InRange(cap, lv)
    ensures Granted(cap, rate, lv, ops, s, t) == 0
    decreases |ops|
  {
    if ops != [] {
      ApplyFacts(cap, rate, lv, ops[0]);
      NothingLater(cap, rate, Apply(cap, rate, lv, ops[0]).0, ops[1..], s, t);
    }
  }

  /** From inside the interval: what is left now plus what can flow in. */
  lemma {:induction false} GrantedFromNow(cap: real, rate: real, lv: Level, ops: seq<Op>, s: real, t: real)
    requires rate >= 0.0 && InRange(cap, lv) && Ordered(lv.last, ops) && Sensible(ops) && s <= lv.last <= t
    ensures Granted(cap, rate, lv, ops, s, t) as real <= lv.tokens + Flow(rate, t - lv.last)
    decreases |ops|
  {
    FlowIn(rate, t - lv.last);
    if ops != [] {
      var now := ops[0].now;
      var (next, g) := Apply(cap, rate, lv, ops[0]);
      ApplyFacts(cap, rate, lv, ops[0]);
      if now <= t {
        GrantedFromNow(cap, rate, next, ops[1..], s, t);
        FlowAdds(rate, now - lv.last, t - now);
      } else {
        NothingLater(cap, rate, next, ops[1..], s, t);
      }
    }
  }

  /** In every run and every interval [s, t] a limited bucket grants at most its capacity plus what
      refills during the interval. */
  lemma {:induction false} RateBound(cap: real, rate: real, lv: Level, ops: seq<Op>, s: real, t: real)
    requires cap > 0.0 && rate >= 0.0 && InRange(cap, lv) && Ordered(lv.last, ops) && Sensible(ops) && s <= t
    ensures Granted(cap, rate, lv, ops, s, t) as real <= cap + Flow(rate, t - s)
    decreases |ops|
  {
    FlowIn(rate, t - s);
    if ops != [] {
      var now := ops[0].now;
      var (next, g) := Apply(cap, rate, lv, ops[0]);
      ApplyFacts(cap, rate, lv, ops[0]);
      if now < s {
        RateBound(cap, rate, next, ops[1..], s, t);
      } else if now <= t {
        GrantedFromNow(cap, rate, next, ops[1..], s, t);
        FlowAdds(rate, now - s, t - now);
        FlowIn(rate, now - s);
      } else {
        NothingLater(cap, rate, next, ops[1..], s, t);
      }
    }
  }

  /** The level never leaves [0, capacity]. */
  lemma {:induction false} LevelAlwaysInRange(cap: real, rate: real, lv: Level, ops: seq<Op>)
    requires cap > 0.0 && rate >= 0.0 && InRange(cap, lv) && Ordered(lv.last, ops) && Sensible(ops)
    ensures InRange(cap, After(cap, rate, lv, ops))
    decreases |ops|
  {
    if ops != [] {
      ApplyFacts(cap, rate, lv, ops[0]);
      LevelAlwaysInRange(cap, rate, Apply(cap, rate, lv, ops[0]).0, ops[1..]);
    }
  }

  ghost function After(cap: real, rate: real, lv: Level, ops: seq<Op>): Level
    decreases |ops|
  {
    if ops == [] then lv else After(cap, rate, Apply(cap, rate, lv, ops[0]).0, ops[1..])
  }

  // ---- Retry-After ----

  /** The part of a wait beyond whole seconds. */
  function Fraction(x: real): real {
    x - x.Floor as real
  }

  /** A caller who waits the advertised seconds, with no other traffic, is served, unless the exact
      wait exceeds a whole number of seconds (at least one) by less than a microsecond. */
  lemma RetryAfterExact(cap: real, rate: real, lv: Level)
    requires rate > 0.0 && cap >= 1.0 && InRange(cap, lv) && lv.tokens < 1.0
    ensures var secs := (1.0 - lv.tokens) / rate;
            var at := lv.last + RetryAfter(rate, lv.tokens) as real;
            Apply(cap, rate, lv, Take(at, 1)).1 == 1 <==>
            (secs < 1.0 || Fraction(secs) == 0.0 || Fraction(secs) >= 0.000001)
  {
    var secs := (1.0 - lv.tokens) / rate;
    var r := RetryAfter(rate, lv.tokens) as real;
    assert secs > 0.0;
    assert r > 0.0;
    EnoughWhen(rate, lv.tokens, secs, r);
    var s := (secs + 0.999999).Floor;
    assert s == secs.Floor + (if Fraction(secs) >= 0.000001 then 1 else 0);
  }

  /** A bucket whose caller comes back half a microsecond early and is refused again. */
  lemma RetryTooEarly()
    ensures var lv := Level(0.49999975, 0.0);
            RetryAfter(0.5, lv.tokens) == 1 && Apply(1.0, 0.5, lv, Take(1.0, 1)).1 == 0
  {
    var secs := (1.0 - 0.49999975) / 0.5;
    assert secs == 1.0000005;
    assert (secs + 0.999999).Floor == 1;
    assert Flow(0.5, 1.0) == 0.5;
  }

  lemma EnoughWhen(rate: real, tokens: real, secs: real, r: real)
    requires rate > 0.0 && secs == (1.0 - tokens) / rate
    ensures tokens + Flow(rate, r) >= 1.0 <==> r >= secs
  {
    assert Flow(rate, secs) == 1.0 - tokens;
    if r >= secs {
      FlowIn(rate, r - secs);
      FlowAdds(rate, r - secs, secs);
    } else {
      FlowIn(rate, secs - r);
      FlowAdds(rate, secs - r, r);
    }
  }
}
