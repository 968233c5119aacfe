/** The per-provider circuit breaker. Times are milliseconds since the zero time. */
module CircuitBreaker {
  import opened Wrappers

  datatype Kind = Auth | Permission | RateLimit | QuotaExhausted | Timeout | Provider5xx
                | InvalidRequest | ModelUnavailable | Network | Unknown

  datatype Phase = Closed | Degraded | Open | HalfOpen | Disabled

  /** The settings after defaults were filled in. */
  datatype Config = Config(threshold: nat, cooldown: nat, autoDisable: nat, percent: bool, failurePercent: real,
                           minRequests: nat, allowed: Option<map<Kind, int>>)

  ghost predicate Sound(cfg: Config) {
    cfg.threshold > 0 && cfg.cooldown > 0 && cfg.autoDisable > 0 &&
    (cfg.percent ==> cfg.failurePercent > 0.0 && cfg.minRequests > 0)
  }

  /** `NewCircuitBreaker`'s defaults. */
  function Defaults(threshold: int, cooldownMs: int, autoDisable: int, percent: bool, failurePercent: real,
                    minRequests: int, allowed: map<Kind, int>): (cfg: Config)
    ensures Sound(cfg)
  {
    Config(if threshold <= 0 then 3 else threshold,
           if cooldownMs <= 0 then 30_000 else cooldownMs,
           if autoDisable <= 0 then 3 else autoDisable,
           percent,
           if failurePercent <= 0.0 then 0.5 else failurePercent,
           if minRequests <= 0 then 5 else minRequests,
           if |allowed| == 0 then None else Some(allowed))
  }

  datatype State = State(phase: Phase, failures: nat, trips: nat, openCycles: nat, openedAt: int, custom: int,
                         winStart: int, winTotal: nat, winFailures: nat, kinds: map<Kind, nat>)

  function DegradationThreshold(threshold: nat): int {
    if threshold < 4 then threshold
    else
      var d := threshold * 60 / 100;
      var d := if d < 2 then 2 else d;
      if d >= threshold then threshold - 1 else d
  }

  function Doublings(openCycles: nat): nat {
    if openCycles <= 3 then 0 else if openCycles - 3 > 4 then 4 else openCycles - 3
  }

  function Shift(x: int, places: nat): int {
    if places == 0 then x else Shift(x, places - 1) * 2
  }

  function EffectiveCooldown(cfg: Config, s: State): int {
    Shift(if s.custom > 0 then s.custom else cfg.cooldown, Doublings(s.openCycles))
  }

  /** `open`. */
  function Opened(cfg: Config, s: State, now: int): State {
    var trips := s.trips + 1;
    var phase := if cfg.autoDisable > 0 && trips >= cfg.autoDisable then Disabled else Open;
    s.(trips := trips, phase := phase, openedAt := now, custom := 0)
  }

  /** The rolling minute after one more request. */
  function Windowed(s: State, now: int, success: bool): State {
    var s := if now - s.winStart >= 60_000 then s.(winStart := now, winTotal := 0, winFailures := 0) else s;
    s.(winTotal := s.winTotal + 1, winFailures := s.winFailures + (if success then 0 else 1))
  }

  /** Failures that trip the window, of its current total. */
  function Need(cfg: Config, total: nat): int {
    var need := (cfg.failurePercent * total as real).Floor;
    if need < cfg.minRequests then cfg.minRequests else need
  }

  function KindCount(kinds: map<Kind, nat>, k: Kind): nat {
    if k in kinds then kinds[k] else 0
  }

  /** What can happen to a breaker. */
  datatype Event =
    | Ask(now: int)
    | Success(now: int)
    | Failure(now: int, kind: Kind, counts: bool)
    | OpenForEvent(now: int, d: int)
    | Disable
    | Enable

  function AfterAsk(cfg: Config, s: State, now: int): (State, bool) {
    match s.phase
    case Closed => (s, true)
    case Degraded => (s, true)
    case Disabled => (s, false)
    case Open =>
      if now - s.openedAt >= EffectiveCooldown(cfg, s) then (s.(phase := HalfOpen), true) else (s, false)
    case HalfOpen => (s, false)
  }

  function AfterSuccess(cfg: Config, s: State, now: int): State {
    var w := if cfg.percent then Windowed(s, now, true) else s;
    w.(phase := Closed, failures := 0, openCycles := 0, custom := 0,
       kinds := if cfg.allowed.Some? then map[] else w.kinds)
  }

  function Reopened(cfg: Config, s: State, now: int): State {
    Opened(cfg, s.(openCycles := s.openCycles + 1), now)
  }

  /** Some kind's count has reached `n`. */
  ghost predicate SomeKindReaches(kinds: map<Kind, nat>, n: int) {
    n <= 0 || exists k :: k in kinds && kinds[k] >= n
  }

  ghost function AfterFailure(cfg: Config, s: State, now: int, kind: Kind, counts: bool): State {
    if !counts || s.phase == Disabled then s
    else if cfg.allowed.Some? then
      if s.phase == HalfOpen then Reopened(cfg, s, now)
      else
        var n := KindCount(s.kinds, kind) + 1;
        var s := s.(kinds := s.kinds[kind := n]);
        if kind in cfg.allowed.value then (if n > cfg.allowed.value[kind] then Opened(cfg, s, now) else s)
        else if kind == Auth || kind == Permission then Opened(cfg, s, now)
        else if n >= cfg.threshold then Opened(cfg, s, now)
        else if s.phase == Closed && SomeKindReaches(s.kinds, DegradationThreshold(cfg.threshold))
          then s.(phase := Degraded)
        else s
    else if cfg.percent then
      var w := Windowed(s, now, false);
      if s.phase == HalfOpen then Reopened(cfg, w, now)
      else if w.winFailures >= Need(cfg, w.winTotal) then Opened(cfg, w, now)
      else w
    else if kind == Auth || kind == Permission then
      var t := s.(failures := cfg.threshold);
      if s.phase == HalfOpen then Reopened(cfg, t, now) else Opened(cfg, t, now)
    else if s.phase == HalfOpen then Reopened(cfg, s, now)
    else
      var t := s.(failures := s.failures + 1);
      if t.failures >= cfg.threshold then Opened(cfg, t, now)
      else if t.phase == Closed && t.failures >= DegradationThreshold(cfg.threshold) then t.(phase := Degraded)
      else t
  }

  function AfterOpenFor(cfg: Config, s: State, now: int, d: int): State {
    if d <= 0 || s.phase == Disabled then s
    else Opened(cfg, s, now).(custom := d, failures := cfg.threshold)
  }

  ghost function Step(cfg: Config, s: State, e: Event): State {
    match e
    case Ask(now) => AfterAsk(cfg, s, now).0
    case Success(now) => AfterSuccess(cfg, s, now)
    case Failure(now, kind, counts) => AfterFailure(cfg, s, now, kind, counts)
    case OpenForEvent(now, d) => AfterOpenFor(cfg, s, now, d)
    case Disable => s.(phase := Disabled, custom := 0)
    case Enable => s.(phase := Closed, failures := 0, trips := 0, openCycles := 0, custom := 0)
  }

  /** The breaker object itself. */
  class Breaker {
    const cfg: Config
    var phase: Phase
    var failures: nat
    var trips: nat
    var openCycles: nat
    var openedAt: int
    var custom: int
    var winStart: int
    var winTotal: nat
    var winFailures: nat
    var kinds: map<Kind, nat>

    ghost function S(): State
      reads this
    {
      State(phase, failures, trips, openCycles, openedAt, custom, winStart, winTotal, winFailures, kinds)
    }

    constructor (cfg: Config)
      requires Sound(cfg)
      ensures this.cfg == cfg && S() == Initial()
    {
      this.cfg := cfg;
      phase, failures, trips, openCycles := Closed, 0, 0, 0;
      openedAt, custom, winStart, winTotal, winFailures, kinds := 0, 0, 0, 0, 0, map[];
    }

    method RecordWindow(success: bool, now: int) returns (trip: bool)
      modifies this
      ensures S() == Windowed(old(S()), now, success)
      ensures trip <==> !success && S().winFailures >= Need(cfg, S().winTotal) && S().winFailures >= 1
    {
      if now - winStart >= 60_000 {
        winStart, winTotal, winFailures := now, 0, 0;
      }
      winTotal := winTotal + 1;
      if success {
        return false;
      }
      winFailures := winFailures + 1;
      var need := (cfg.failurePercent * winTotal as real).Floor;
      if need < cfg.minRequests {
        need := cfg.minRequests;
      }
      return winFailures >= need && winFailures >= 1;
    }

    method Cooldown() returns (cd: int)
      ensures cd == EffectiveCooldown(cfg, S())
    {
      cd := if custom > 0 then custom else cfg.cooldown;
      if openCycles <= 3 {
        return cd;
      }
      var shift := openCycles - 3;
      if shift > 4 {
        shift := 4;
      }
      return Shift(cd, shift);
    }

    method Allow(now: int) returns (ok: bool)
      modifies this
      ensures (S(), ok) == AfterAsk(cfg, old(S()), now)
    {
      match phase
      case Closed => return true;
      case Degraded => return true;
      case Disabled => return false;
      case Open =>
        var cd := Cooldown();
        if now - openedAt >= cd {
          phase := HalfOpen;
          return true;
        }
        return false;
      case HalfOpen => return false;
    }

    method OpenNow(now: int)
      modifies this
      ensures S() == Opened(cfg, old(S()), now)
    {
      trips := trips + 1;
      openedAt := now;
      custom := 0;
      if cfg.autoDisable > 0 && trips >= cfg.autoDisable {
        phase := Disabled;
        return;
      }
      phase := Open;
    }

    method OnSuccess(now: int)
      modifies this
      ensures S() == AfterSuccess(cfg, old(S()), now)
    {
      if cfg.percent {
        var _ := RecordWindow(true, now);
      }
      phase, failures, openCycles, custom := Closed, 0, 0, 0;
      if cfg.allowed.Some? {
        kinds := map[];
      }
    }

    /** The highest count over all kinds. */
    method MaxKind() returns (m: nat)
      ensures forall n: int :: m >= n <==> SomeKindReaches(kinds, n)
    {
      m := 0;
      var todo := kinds.Keys;
      while todo != {}
        invariant todo <= kinds.Keys
        invariant forall k | k in kinds && k !in todo :: kinds[k] <= m
        invariant m == 0 || exists k :: k in kinds && kinds[k] == m
      {
        var k :| k in todo;
        if kinds[k] > m {
          m := kinds[k];
        }
        todo := todo - {k};
      }
    }

    method OnFailureKind(kind: Kind, counts: bool, now: int)
      requires Sound(cfg)
      modifies this
      ensures S() == AfterFailure(cfg, old(S()), now, kind, counts)
    {
      if !counts || phase == Disabled {
        return;
      }
      if cfg.allowed.Some? {
        CountKind(kind, now);
        return;
      }
      if cfg.percent {
        var trip := RecordWindow(false, now);
        if phase == HalfOpen {
          openCycles := openCycles + 1;
          OpenNow(now);
        } else if trip {
          OpenNow(now);
        }
        return;
      }
      if kind == Auth || kind == Permission {
        failures := cfg.threshold;
        if phase == HalfOpen {
          openCycles := openCycles + 1;
        }
        OpenNow(now);
        return;
      }
      if phase == HalfOpen {
        openCycles := openCycles + 1;
        OpenNow(now);
        return;
      }
      failures := failures + 1;
      if failures >= cfg.threshold {
        OpenNow(now);
        return;
      }
      if phase == Closed && failures >= DegradationThreshold(cfg.threshold) {
        phase := Degraded;
      }
    }

    /** The branch with a per-kind policy. */
    method CountKind(kind: Kind, now: int)
      requires Sound(cfg) && cfg.allowed.Some? && phase != Disabled
      modifies this
      ensures S() == AfterFailure(cfg, old(S()), now, kind, true)
    {
      if phase == HalfOpen {
        openCycles := openCycles + 1;
        OpenNow(now);
        return;
      }
      kinds := kinds[kind := KindCount(kinds, kind) + 1];
      if kind in cfg.allowed.value {
        if kinds[kind] > cfg.allowed.value[kind] {
          OpenNow(now);
        }
      } else if kind == Auth || kind == Permission {
        OpenNow(now);
      } else if kinds[kind] >= cfg.threshold {
        OpenNow(now);
      } else if phase == Closed {
        var m := MaxKind();
        if m >= DegradationThreshold(cfg.threshold) {
          phase := Degraded;
        }
      }
    }

    method OpenFor(d: int, now: int)
      modifies this
      ensures S() == AfterOpenFor(cfg, old(S()), now, d)
    {
      if d <= 0 || phase == Disabled {
        return;
      }
      OpenNow(now);
      custom := d;
      failures := cfg.threshold;
    }

    method SetDisabled()
      modifies this
      ensures S() == Step(cfg, old(S()), Event.Disable)
    {
      phase, custom := Disabled, 0;
    }

    method SetEnabled()
      modifies this
      ensures S() == Step(cfg, old(S()), Event.Enable)
    {
      phase, failures, trips, openCycles, custom := Closed, 0, 0, 0, 0;
    }

    /** When an open breaker will admit a probe. */
    method OpenUntil() returns (t: Option<int>)
      ensures t == OpenUntilOf(cfg, S())
    {
      if phase != Open {
        return None;
      }
      var cd := Cooldown();
      return Some(openedAt + cd);
    }
  }

  function Initial(): State {
    State(Closed, 0, 0, 0, 0, 0, 0, 0, 0, map[])
  }

  function OpenUntilOf(cfg: Config, s: State): Option<int> {
    if s.phase == Open then Some(s.openedAt + EffectiveCooldown(cfg, s)) else None
  }

  // ---- Every reachable state ----

  ghost function Run(cfg: Config, s: State, es: seq<Event>): State
    decreases |es|
  {
    if es == [] then s else Run(cfg, Step(cfg, s, es[0]), es[1..])
  }

  /** How often `Allow` moves the breaker to half-open in a run. */
  ghost function Probes(cfg: Config, s: State, es: seq<Event>): nat
    decreases |es|
  {
    if es == [] then 0
    else
      (if es[0].Ask? && s.phase == Open && Step(cfg, s, es[0]).phase == HalfOpen then 1 else 0) +
      Probes(cfg, Step(cfg, s, es[0]), es[1..])
  }

  /** Open and half-open breakers have tripped at least once and are not yet due for disabling; the
      backoff never runs ahead of the trips; closed breakers have no backoff left. */
  ghost predicate Reachable(cfg: Config, s: State) {
    (s.phase == Open || s.phase == HalfOpen ==> 1 <= s.trips < cfg.autoDisable && s.openCycles + 1 <= s.trips) &&
    (s.phase == Closed || s.phase == Degraded ==> s.openCycles == 0) &&
    s.openCycles <= s.trips
  }

  lemma StepReachable(cfg: Config, s: State, e: Event)
    requires Sound(cfg) && Reachable(cfg, s)
    ensures Reachable(cfg, Step(cfg, s, e))
  {
  }

  lemma {:induction false} TripsBounded(cfg: Config, s: State, es: seq<Event>)
    requires Sound(cfg) && Reachable(cfg, s)
    ensures Reachable(cfg, Run(cfg, s, es))
    decreases |es|
  {
    if es != [] {
      StepReachable(cfg, s, es[0]);
      TripsBounded(cfg, Step(cfg, s, es[0]), es[1..]);
    }
  }

  /** Half-open probes still possible before the next `Enable`. */
  ghost function ProbesLeft(cfg: Config, s: State): int {
    (if s.trips >= cfg.autoDisable then 0 else cfg.autoDisable - 1 - s.trips) + (if s.phase == Open then 1 else 0)
  }

  /** Without an `Enable`, the probes of a run are limited by what the state has left. */
  lemma {:induction false} ProbesLimited(cfg: Config, s: State, es: seq<Event>)
    requires Sound(cfg) && Reachable(cfg, s) && forall i | 0 <= i < |es| :: es[i] != Enable
    ensures Probes(cfg, s, es) <= ProbesLeft(cfg, s)
    decreases |es|
  {
    if es != [] {
      var t := Step(cfg, s, es[0]);
      StepReachable(cfg, s, es[0]);
      assert ProbesLeft(cfg, t) +
             (if es[0].Ask? && s.phase == Open && t.phase == HalfOpen then 1 else 0) <= ProbesLeft(cfg, s);
      ProbesLimited(cfg, t, es[1..]);
    }
  }

  /** Probe bound: between two `Enable` calls (or from the start) a breaker with auto-disable N
      admits at most N-1 half-open probes. */
  lemma ProbeBound(cfg: Config, before: seq<Event>, es: seq<Event>)
    requires Sound(cfg) && forall i | 0 <= i < |es| :: es[i] != Enable
    ensures var s := Run(cfg, Initial(), before);
            Probes(cfg, Step(cfg, s, Enable), es) <= cfg.autoDisable - 1 &&
            Probes(cfg, Initial(), es) <= cfg.autoDisable - 1
  {
    var s := Run(cfg, Initial(), before);
    TripsBounded(cfg, Initial(), before);
    StepReachable(cfg, s, Enable);
    ProbesLimited(cfg, Step(cfg, s, Enable), es);
    ProbesLimited(cfg, Initial(), es);
  }

  /** Neither a question nor an outcome that does not count against the provider. */
  predicate Quiet(e: Event) {
    e.Ask? || (e.Failure? && !e.counts) || (e.OpenForEvent? && e.d <= 0)
  }

  /** Once a probe was admitted, every further request is refused until an outcome or an admin
      action. */
  lemma {:induction false} OneProbeAtATime(cfg: Config, s: State, es: seq<Event>, now: int)
    requires s.phase == HalfOpen && forall i | 0 <= i < |es| :: Quiet(es[i])
    ensures Run(cfg, s, es) == s && !AfterAsk(cfg, Run(cfg, s, es), now).1
    decreases |es|
  {
    if es != [] {
      assert Quiet(es[0]);
      OneProbeAtATime(cfg, s, es[1..], now);
    }
  }

  // ---- Consecutive mode: what the failure count says about the state ----

  ghost predicate Consecutive(cfg: Config) {
    !cfg.percent && cfg.allowed.None?
  }

  ghost predicate Classified(cfg: Config, s: State) {
    match s.phase
    case Closed => s.failures < DegradationThreshold(cfg.threshold)
    case Degraded => DegradationThreshold(cfg.threshold) <= s.failures < cfg.threshold
    case Open => s.failures >= cfg.threshold
    case HalfOpen => s.failures >= cfg.threshold
    case Disabled => true
  }

  /** In consecutive mode a closed breaker is below the degradation threshold, a degraded one
      between it and the threshold, an open or half-open one at or above the threshold. */
  lemma {:induction false} StatesClassified(cfg: Config, s: State, es: seq<Event>)
    requires Sound(cfg) && Consecutive(cfg) && Classified(cfg, s)
    ensures Classified(cfg, Run(cfg, s, es))
    decreases |es|
  {
    if es != [] {
      StatesClassified(cfg, Step(cfg, s, es[0]), es[1..]);
    }
  }

  lemma InitiallyClassified(cfg: Config)
    requires Sound(cfg)
    ensures Classified(cfg, Initial()) && Reachable(cfg, Initial())
  {
  }

  /** A counted failure while open restarts the cooldown (or disables the breaker). */
  lemma FailureWhileOpen(cfg: Config, es: seq<Event>, now: int, kind: Kind)
    requires Sound(cfg) && Consecutive(cfg)
    ensures var s := Run(cfg, Initial(), es);
            s.phase == Open ==>
              var t := Step(cfg, s, Failure(now, kind, true));
              t.openedAt == now && t.trips == s.trips + 1 && (t.phase == Open || t.phase == Disabled)
  {
    InitiallyClassified(cfg);
    StatesClassified(cfg, Initial(), es);
  }

  // ---- Escalation ----

  /** 2 to the n. */
  function Pow2(n: nat): nat {
    if n == 0 then 1 else 2 * Pow2(n - 1)
  }

  lemma {:induction false} ShiftIsPow2(x: int, n: nat)
    ensures Shift(x, n) == x * Pow2(n)
  {
    if n > 0 {
      ShiftIsPow2(x, n - 1);
    }
  }

  /** The cooldown doubles with every failed probe cycle after the third, up to sixteen-fold. */
  lemma CooldownEscalates(cfg: Config, s: State)
    ensures var base := if s.custom > 0 then s.custom else cfg.cooldown;
            EffectiveCooldown(cfg, s) ==
            base * (if s.openCycles <= 3 then 1 else if s.openCycles >= 7 then 16 else Pow2(s.openCycles - 3))
  {
    ShiftIsPow2(if s.custom > 0 then s.custom else cfg.cooldown, Doublings(s.openCycles));
    assert Pow2(4) == 16;
  }

  /** An open breaker admits its probe exactly from `OpenUntil` on. */
  lemma ProbeFromOpenUntil(cfg: Config, s: State, now: int)
    requires s.phase == Open
    ensures AfterAsk(cfg, s, now).1 <==> now >= OpenUntilOf(cfg, s).value
    ensures AfterAsk(cfg, s, now).1 <==> AfterAsk(cfg, s, now).0.phase == HalfOpen
  {
  }

  /** With auto-disable at most 5 a breaker is disabled before its cooldown ever escalates. */
  lemma NoEscalation(cfg: Config, es: seq<Event>)
    requires Sound(cfg) && cfg.autoDisable <= 5
    ensures var s := Run(cfg, Initial(), es);
            s.phase == Open ==> EffectiveCooldown(cfg, s) == if s.custom > 0 then s.custom else cfg.cooldown
  {
    TripsBounded(cfg, Initial(), es);
  }

  /** A probe that fails: one question once the cooldown is over, then a counted failure. */
  function FailedProbe(now: int): seq<Event> {
    [Ask(now), Failure(now, Network, true)]
  }

  lemma ProbeCycle(cfg: Config, s: State, now: int)
    requires Sound(cfg) && Consecutive(cfg) && s.phase == Open && now >= s.openedAt + EffectiveCooldown(cfg, s)
    requires s.trips + 1 < cfg.autoDisable
    ensures Run(cfg, s, FailedProbe(now)) ==
            s.(phase := Open, trips := s.trips + 1, openCycles := s.openCycles + 1, openedAt := now, custom := 0)
  {
    var es := FailedProbe(now);
    var t := Step(cfg, s, es[0]);
    assert es[1..] == [Failure(now, Network, true)];
    assert Run(cfg, t, es[1..]) == Run(cfg, Step(cfg, t, es[1]), []);
  }

  lemma {:induction false} RunConcat(cfg: Config, s: State, xs: seq<Event>, ys: seq<Event>)
    ensures Run(cfg, s, xs + ys) == Run(cfg, Run(cfg, s, xs), ys)
    decreases |xs|
  {
    if xs == [] {
      assert xs + ys == ys;
    } else {
      assert (xs + ys)[1..] == xs[1..] + ys;
      RunConcat(cfg, Step(cfg, s, xs[0]), xs[1..], ys);
    }
  }

  /** `n` failed probes in a row reach `n` cycles when auto-disable leaves room for them. */
  lemma {:induction false} CyclesReachable(cfg: Config, n: nat) returns (es: seq<Event>)
    requires Sound(cfg) && Consecutive(cfg) && n + 1 < cfg.autoDisable
    ensures var s := Run(cfg, Initial(), es); s.phase == Open && s.openCycles == n && s.trips == n + 1 && s.custom == 0
  {
    if n == 0 {
      es := [Failure(0, Auth, true)];
      assert Run(cfg, Initial(), es) == Run(cfg, Step(cfg, Initial(), es[0]), []);
    } else {
      es := CyclesReachable(cfg, n - 1);
      var s := Run(cfg, Initial(), es);
      var now := s.openedAt + EffectiveCooldown(cfg, s);
      ProbeCycle(cfg, s, now);
      RunConcat(cfg, Initial(), es, FailedProbe(now));
      es := es + FailedProbe(now);
    }
  }

  /** Escalation happens in some run exactly when auto-disable is at least 6. */
  lemma EscalatesFromSix(cfg: Config)
    requires Sound(cfg) && Consecutive(cfg)
    ensures (exists es :: var s := Run(cfg, Initial(), es); s.phase == Open && Doublings(s.openCycles) > 0) <==>
            cfg.autoDisable >= 6
  {
    if cfg.autoDisable >= 6 {
      var es := CyclesReachable(cfg, 4);
      assert Run(cfg, Initial(), es).phase == Open && Doublings(Run(cfg, Initial(), es).openCycles) > 0;
    } else {
      forall es: seq<Event>
        ensures Run(cfg, Initial(), es).phase == Open ==> Doublings(Run(cfg, Initial(), es).openCycles) == 0
      {
        TripsBounded(cfg, Initial(), es);
      }
    }
  }
}
