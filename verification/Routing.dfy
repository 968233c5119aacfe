/** Running a request over a route and its fallback routes. */
module Routing {
  import opened Wrappers
  import opened Ordering
  import opened Failover

  datatype RouteConfig = RouteConfig(strategy: Strategy, fallbacks: seq<string>, skipRetry: bool)

  /** What the router answers at each hop: the ordered candidates of the route entered, the live pin
      for the request's affinity key, and the panel and judge of a fusion. */
  datatype Plan = Plan(order: nat -> seq<Candidate>, pin: nat -> Option<(string, string)>,
                       panel: nat -> Panel, judge: nat -> Option<Candidate>)

  /** What a pass works with. */
  datatype Setting = Setting(strategy: Strategy, candidates: seq<Candidate>, hit: bool, skip: bool)

  /** An affinity hit on a route that skips retries confines the pass to the pinned candidate. */
  predicate Confined(st: Setting) {
    st.hit && st.skip
  }

  /** One pass of the loop: the route entered, the setting, the number of the first call, the calls
      made and the reply. */
  datatype Pass = Pass(route: string, setting: Setting, first: nat, calls: seq<Call>, reply: Reply)

  predicate Races(strategy: Strategy, stream: bool, known: bool, cs: seq<Candidate>) {
    |cs| > 1 && ((strategy == Strategy.Fusion && !stream) || (strategy == Strategy.FusionJudge && known))
  }

  /** What one pass does: the race of the first two candidates, the panel and judge, or the candidates
      in order, a confined pass trying the first one only. */
  ghost predicate PassDid(w: World, plan: Plan, hop: nat, stream: bool, known: bool, st: Setting, first: nat,
                          r: Reply, calls: seq<Call>)
  {
    var cs := st.candidates;
    if st.strategy == Strategy.Fusion && !stream && |cs| > 1 then Raced(w, cs[..2], first, r, calls)
    else if st.strategy == Strategy.FusionJudge && known && |cs| > 1 then
      Judged(w, cs, plan.panel(hop), plan.judge(hop), first, r, calls)
    else Passed(w, if Confined(st) && cs != [] then cs[..1] else cs, first, r, calls)
  }

  /** One pass by the strategy at hand. */
  method RunPass(w: World, plan: Plan, hop: nat, stream: bool, known: bool, st: Setting, first: nat, counters: Counters)
    returns (r: Reply, calls: seq<Call>)
    requires counters.Valid() && (Confined(st) ==> st.candidates != [])
    modifies counters
    ensures counters.Valid() && PassDid(w, plan, hop, stream, known, st, first, r, calls)
    ensures forall p :: counters.Of(p) == old(counters.Of(p)) + Held(r, p)
  {
    var cs := st.candidates;
    if st.strategy == Strategy.Fusion && !stream && |cs| > 1 {
      r, calls := FusionRun(w, cs[..2], first, counters);
    } else if st.strategy == Strategy.FusionJudge && known && |cs| > 1 {
      r, calls := JudgeRun(w, cs, plan.panel(hop), plan.judge(hop), first, counters);
    } else {
      var tryCands := cs;
      if st.hit && st.skip {
        tryCands := cs[..1];
      }
      r, calls := FailoverPass(w, tryCands, first, counters);
    }
  }

  ghost predicate HasAnswer(calls: seq<Call>, status: int) {
    exists k | 0 <= k < |calls| :: calls[k].outcome == Answered(status)
  }

  /** What every pass means for the loop, whatever its strategy; and a confined pass outside the two
      fusion strategies makes at most one call. */
  lemma PassFacts(w: World, plan: Plan, hop: nat, stream: bool, known: bool, st: Setting, first: nat, r: Reply,
                  calls: seq<Call>)
    requires PassDid(w, plan, hop, stream, known, st, first, r, calls)
    ensures r.cand.None? <==> st.candidates == []
    ensures r.resp.None? ==> NoAnswer(calls) && (st.candidates != [] ==> r.fail.Some? || r.err.Some?)
    ensures r.resp.Some? ==> r.cand.Some? && HasAnswer(calls, r.resp.value)
    ensures Confined(st) && !Races(st.strategy, stream, known, st.candidates) ==> |calls| <= 1
  {
    var cs := st.candidates;
    if st.strategy == Strategy.Fusion && !stream && |cs| > 1 {
      if r.resp.Some? {
        assert calls[0].outcome == Answered(r.resp.value) || calls[1].outcome == Answered(r.resp.value);
      }
    } else if st.strategy == Strategy.FusionJudge && known && |cs| > 1 {
      if r.resp.Some? {
        assert calls[0].outcome == Answered(r.resp.value);
      }
    } else {
      PassedFacts(w, if Confined(st) && cs != [] then cs[..1] else cs, first, r, calls);
      if r.resp.Some? {
        assert calls[|calls| - 1].outcome == Answered(r.resp.value);
      }
    }
  }

  // ---- The settings of the hops ----

  /** The setting of the first pass. */
  function FirstSetting(routes: map<string, RouteConfig>, plan: Plan, model: string, initial: seq<Candidate>,
                        start: Strategy): Setting {
    if model in routes
    then Setting(start, Pinned(initial, plan.pin(0)), PinHits(initial, plan.pin(0)), routes[model].skipRetry)
    else Setting(start, initial, false, false)
  }

  /** The setting after entering a fallback route at a hop. A route without usable candidates leaves
      strategy and affinity as they were. */
  function NextSetting(routes: map<string, RouteConfig>, plan: Plan, hop: nat, route: string, before: Setting): Setting
    requires route in routes
  {
    var cs := plan.order(hop);
    if cs == [] then before.(candidates := [])
    else Setting(routes[route].strategy, Pinned(cs, plan.pin(hop)), PinHits(cs, plan.pin(hop)), routes[route].skipRetry)
  }

  // ---- The log ----

  function Names(log: seq<Pass>): set<string> {
    set i | 0 <= i < |log| :: log[i].route
  }

  /** `name` is the first of `names` that is known and not visited. */
  ghost predicate IsFirst(routes: map<string, RouteConfig>, names: seq<string>, visited: set<string>, name: string) {
    exists i | 0 <= i < |names| ::
      names[i] == name && name in routes && name !in visited && forall k | 0 <= k < i ::
        names[k] in visited || names[k] !in routes
  }

  /** The request: what the world and the router answer, and what was asked. */
  datatype Request = Request(w: World, routes: map<string, RouteConfig>, plan: Plan, model: string,
    initial: seq<Candidate>,
                             start: Strategy, stream: bool)

  /** Pass `i` did what its setting says, starting with the call number after all earlier calls. */
  ghost predicate Did(q: Request, log: seq<Pass>, i: nat)
    requires i < |log|
  {
    DidAlone(q, i, log[i]) && log[i].first == CallsBefore(log, i)
  }

  ghost predicate DidAlone(q: Request, hop: nat, p: Pass) {
    PassDid(q.w, q.plan, hop, q.stream, p.route in q.routes, p.setting, p.first, p.reply, p.calls)
  }

  /** How many calls the passes before `i` made. */
  function CallsBefore(log: seq<Pass>, i: nat): nat
    requires i <= |log|
  {
    if i == 0 then 0 else log[i - 1].first + |log[i - 1].calls|
  }

  /** Pass `i` may be followed: unanswered, not confined, on a known route. */
  ghost predicate Open(q: Request, p: Pass) {
    p.reply.resp.None? && !Confined(p.setting) && p.route in q.routes
  }

  /** Route and setting of pass `i`: the requested model, then each time the first fallback of the
      previous route that is known and not yet visited. */
  ghost predicate Entered(q: Request, log: seq<Pass>, i: nat, route: string, st: Setting)
    requires i <= |log|
  {
    if i == 0 then route == q.model && st == FirstSetting(q.routes, q.plan, q.model, q.initial, q.start)
    else
      var last := log[i - 1];
      Open(q, last) && IsFirst(q.routes, q.routes[last.route].fallbacks, Names(log[..i]), route) &&
      st == NextSetting(q.routes, q.plan, i, route, last.setting)
  }

  ghost predicate NoRouteTwice(log: seq<Pass>) {
    forall i, j | 0 <= i < j < |log| :: log[i].route != log[j].route
  }

  ghost predicate AllDid(q: Request, log: seq<Pass>) {
    forall i | 0 <= i < |log| :: Did(q, log, i)
  }

  ghost predicate AllEntered(q: Request, log: seq<Pass>) {
    forall i | 0 <= i < |log| :: Entered(q, log, i, log[i].route, log[i].setting)
  }

  /** A log of passes as the loop writes it. */
  ghost predicate Sound(q: Request, log: seq<Pass>) {
    NoRouteTwice(log) && AllDid(q, log) && AllEntered(q, log)
  }

  /** Why an answerless run may end. */
  ghost predicate Exhausted(q: Request, log: seq<Pass>)
    requires log != []
  {
    var last := log[|log| - 1];
    |log| == 4 || Confined(last.setting) || last.route !in q.routes ||
    forall name | name in q.routes[last.route].fallbacks :: name in Names(log) || name !in q.routes
  }

  /** What the caller gets: the last pass's candidate and answer, the last failure and the last error
      of any pass, and all attempts. */
  function Summary(log: seq<Pass>): Reply {
    if log == [] then Reply(None, None, None, None, 0)
    else
      AddReply(Summary(log[..|log| - 1]), log[|log| - 1].reply)
  }

  function AddReply(r: Reply, p: Reply): Reply {
    Reply(p.cand, p.resp, if p.fail.Some? then p.fail else r.fail, if p.err.Some? then p.err else r.err,
          r.attempts + p.attempts)
  }

  lemma NamesSnoc(log: seq<Pass>, p: Pass)
    ensures Names(log + [p]) == Names(log) + {p.route}
  {
    var all := log + [p];
    assert all[|log|] == p;
    assert forall i | 0 <= i < |log| :: all[i] == log[i];
  }

  lemma SummarySnoc(log: seq<Pass>, p: Pass)
    ensures Summary(log + [p]) == AddReply(Summary(log), p.reply)
    ensures CallsBefore(log + [p], |log| + 1) == p.first + |p.calls|
  {
    assert (log + [p])[..|log|] == log && (log + [p])[|log|] == p;
  }

  lemma DidSnoc(q: Request, log: seq<Pass>, p: Pass)
    requires AllDid(q, log) && DidAlone(q, |log|, p) && p.first == CallsBefore(log, |log|)
    ensures AllDid(q, log + [p])
  {
    var all := log + [p];
    forall i | 0 <= i < |all| ensures Did(q, all, i) {
      if i < |log| {
        assert Did(q, log, i) && all[i] == log[i];
      }
      assert i > 0 ==> all[i - 1] == log[i - 1];
    }
  }

  lemma EnteredSnoc(q: Request, log: seq<Pass>, p: Pass)
    requires AllEntered(q, log) && Entered(q, log, |log|, p.route, p.setting)
    ensures AllEntered(q, log + [p])
  {
    forall i | 0 <= i <= |log| ensures Entered(q, log + [p], i, (log + [p])[i].route, (log + [p])[i].setting) {
      EnteredStill(q, log, p, i);
    }
  }

  lemma EnteredStill(q: Request, log: seq<Pass>, p: Pass, i: nat)
    requires i < |log| ==> Entered(q, log, i, log[i].route, log[i].setting)
    requires i == |log| ==> Entered(q, log, i, p.route, p.setting)
    requires i <= |log|
    ensures Entered(q, log + [p], i, (log + [p])[i].route, (log + [p])[i].setting)
  {
    var at := (log + [p])[i];
    EnteredSame(q, log, log + [p], i, at.route, at.setting);
  }

  /** The log goes on with pass `p`. */
  lemma SoundSnoc(q: Request, log: seq<Pass>, p: Pass)
    requires Sound(q, log) && p.route !in Names(log) && Entered(q, log, |log|, p.route, p.setting)
    requires DidAlone(q, |log|, p) && p.first == CallsBefore(log, |log|)
    ensures Sound(q, log + [p])
  {
    forall i | 0 <= i < |log| ensures log[i].route in Names(log) {}
    DidSnoc(q, log, p);
    EnteredSnoc(q, log, p);
  }

  /** Only the passes before it matter for how a pass was entered. */
  lemma EnteredSame(q: Request, log: seq<Pass>, all: seq<Pass>, i: nat, route: string, st: Setting)
    requires i <= |log| <= |all| && all[..|log|] == log
    ensures Entered(q, all, i, route, st) <==> Entered(q, log, i, route, st)
    ensures CallsBefore(all, i) == CallsBefore(log, i)
  {
    assert all[..i] == log[..i];
    assert i > 0 ==> all[i - 1] == log[i - 1];
  }

  /** Every pass of a sound log but the last one is without answer, makes no more than one call when
      it is confined and does not race, and leaves a failure or an error if it had a candidate. */
  lemma SoundFacts(q: Request, log: seq<Pass>, i: nat)
    requires Sound(q, log) && i < |log|
    ensures var p := log[i];
            (p.reply.cand.None? <==> p.setting.candidates == []) &&
            (p.reply.resp.None? ==>
              NoAnswer(p.calls) && (p.setting.candidates != [] ==> p.reply.fail.Some? || p.reply.err.Some?)) &&
            (p.reply.resp.Some? ==> p.reply.cand.Some? && HasAnswer(p.calls, p.reply.resp.value))
    ensures i + 1 < |log| ==> NoAnswer(log[i].calls) && !Confined(log[i].setting)
  {
    var p := log[i];
    assert Did(q, log, i);
    PassFacts(q.w, q.plan, i, q.stream, p.route in q.routes, p.setting, p.first, p.reply, p.calls);
    if i + 1 < |log| {
      assert Entered(q, log, i + 1, log[i + 1].route, log[i + 1].setting);
    }
  }

  /** Skip-retry affinity: when the pin of the requested route hits, its strategy does not fuse and it
      skips retries, the run is a single pass with at most one call. */
  lemma SkipRetryOneCall(q: Request, log: seq<Pass>)
    requires Sound(q, log) && log != [] && q.model in q.routes && q.routes[q.model].skipRetry
    requires PinHits(q.initial, q.plan.pin(0)) && !Races(q.start, q.stream, true, q.initial)
    ensures |log| == 1 && |log[0].calls| <= 1
    ensures forall c | c in log[0].calls :: c.cand.provider == q.plan.pin(0).value.0
  {
    var st := FirstSetting(q.routes, q.plan, q.model, q.initial, q.start);
    assert Entered(q, log, 0, log[0].route, log[0].setting);
    assert Did(q, log, 0);
    PinnedFacts(q.initial, q.plan.pin(0));
    PassFacts(q.w, q.plan, 0, q.stream, true, st, 0, log[0].reply, log[0].calls);
    if |log| > 1 {
      SoundFacts(q, log, 0);
    }
    var cs := st.candidates[..1];
    assert Passed(q.w, cs, 0, log[0].reply, log[0].calls);
    PassedProviders(q.w, cs, 0, log[0].reply, log[0].calls);
  }

  /** Calls go to the candidates of the pass. */
  lemma PassedProviders(w: World, cs: seq<Candidate>, first: nat, r: Reply, calls: seq<Call>)
    requires |cs| == 1 && Passed(w, cs, first, r, calls)
    ensures forall c | c in calls :: c.cand.provider == cs[0].provider
  {
    assert cs[..0] == [] && cs[..1] == cs;
    CallsNext(w, cs, 0, first);
    if r.resp.Some? {
      var n: nat :| n <= 1 && Served(w, cs, n, first, r, calls);
      assert n == 1;
    }
  }

  /** What the first pass carried is not forgotten. */
  lemma {:induction false} SummaryCarries(log: seq<Pass>)
    requires log != [] && (log[0].reply.fail.Some? || log[0].reply.err.Some?)
    ensures Summary(log).fail.Some? || Summary(log).err.Some?
    decreases |log|
  {
    if |log| > 1 {
      SummaryCarries(log[..|log| - 1]);
    }
  }

  /** The next fallback to try: the first known route of the list that was not visited. */
  method NextRoute(routes: map<string, RouteConfig>, names: seq<string>, visited: set<string>)
      returns (next: Option<string>)
    ensures next.Some? ==> next.value in routes && next.value !in visited && IsFirst(routes, names, visited, next.value)
    ensures next.None? ==> forall name | name in names :: name in visited || name !in routes
  {
    for i := 0 to |names|
      invariant forall k | 0 <= k < i :: names[k] in visited || names[k] !in routes
    {
      if names[i] in visited {
        continue;
      }
      if names[i] in routes {
        return Some(names[i]);
      }
    }
    return None;
  }

  /** One pass and its entry in the log. */
  method LogPass(q: Request, ghost before: seq<Pass>, hop: nat, route: string, st: Setting, first: nat,
                 counters: Counters)
    returns (r: Reply, calls: seq<Call>, ghost log: seq<Pass>)
    requires counters.Valid() && (Confined(st) ==> st.candidates != [])
    requires Sound(q, before) && hop == |before| && route !in Names(before) && Entered(q, before, hop, route, st)
    requires first == CallsBefore(before, hop)
    modifies counters
    ensures counters.Valid() && log == before + [Pass(route, st, first, calls, r)] && Sound(q, log)
    ensures Names(log) == Names(before) + {route} && (r.resp.Some? ==> r.cand.Some?)
    ensures forall p :: counters.Of(p) == old(counters.Of(p)) + Held(r, p)
  {
    r, calls := RunPass(q.w, q.plan, hop, q.stream, route in q.routes, st, first, counters);
    PassFacts(q.w, q.plan, hop, q.stream, route in q.routes, st, first, r, calls);
    var p := Pass(route, st, first, calls, r);
    log := before + [p];
    NamesSnoc(before, p);
    SoundSnoc(q, before, p);
  }

  /** What a finished log says. */
  lemma RunFacts(q: Request, log: seq<Pass>)
    requires Sound(q, log) && log != []
    requires log[|log| - 1].reply.resp.None? ==> Exhausted(q, log)
    ensures var r, last := Summary(log), log[|log| - 1];
            (r.resp.Some? ==> r.cand.Some? && HasAnswer(last.calls, r.resp.value)) &&
            (r.resp.None? ==> NoAnswer(last.calls)) &&
            (r.resp.None? && q.initial != [] ==> r.fail.Some? || r.err.Some?) &&
            (r.cand.None? <==> last.setting.candidates == [])
    ensures forall i | 0 <= i < |log| - 1 :: NoAnswer(log[i].calls) && !Confined(log[i].setting)
  {
    forall i | 0 <= i < |log| - 1 ensures NoAnswer(log[i].calls) && !Confined(log[i].setting) {
      SoundFacts(q, log, i);
    }
    SoundFacts(q, log, |log| - 1);
    assert Entered(q, log, 0, log[0].route, log[0].setting);
    PinnedFacts(q.initial, q.plan.pin(0));
    if q.initial != [] && Summary(log).resp.None? {
      if |log| > 1 {
        assert Entered(q, log, 1, log[1].route, log[1].setting);
      }
      SoundFacts(q, log, 0);
      SummaryCarries(log);
    }
  }

  /** `runRoute`. The log says what every pass worked with and did. */
  method RunRoute(q: Request, counters: Counters) returns (r: Reply, ghost log: seq<Pass>)
    requires counters.Valid()
    modifies counters
    // at most 4 passes, no route twice, each with the candidates, pin and strategy of its route
    ensures 1 <= |log| <= 4 && Sound(q, log)
    // it stops at the first deterministic answer
    ensures forall i | 0 <= i < |log| - 1 :: NoAnswer(log[i].calls) && !Confined(log[i].setting)
    ensures r.resp.Some? ==> r.cand.Some? && HasAnswer(log[|log| - 1].calls, r.resp.value)
    // and gives up only when nothing is left to try
    ensures r.resp.None? ==> NoAnswer(log[|log| - 1].calls) && Exhausted(q, log)
    // the reply sums up the passes; an answerless run that had a candidate carries a failure or an error
    ensures r == Summary(log)
    ensures r.resp.None? && q.initial != [] ==> r.fail.Some? || r.err.Some?
    // the zero candidate comes from a last route without usable candidates
    ensures r.cand.None? <==> log[|log| - 1].setting.candidates == []
    // exactly the answering provider stays busy
    ensures counters.Valid()
    ensures forall p :: counters.Of(p) == old(counters.Of(p)) + Held(r, p)
  {
    r, log := Loop(q, counters);
    RunFacts(q, log);
  }

  /** Where the loop stands before a pass: the log, the route to enter and its setting. */
  ghost predicate Ready(q: Request, log: seq<Pass>, route: string, st: Setting, made: nat) {
    Sound(q, log) && route !in Names(log) && Entered(q, log, |log|, route, st) &&
      (Confined(st) ==> st.candidates != []) &&
    made == CallsBefore(log, |log|)
  }

  lemma StartReady(q: Request)
    ensures Ready(q, [], q.model, FirstSetting(q.routes, q.plan, q.model, q.initial, q.start), 0)
  {
    PinnedFacts(q.initial, q.plan.pin(0));
  }

  lemma NextReady(q: Request, log: seq<Pass>, name: string)
    requires Sound(q, log) && log != [] && Open(q, log[|log| - 1]) && name in q.routes
    requires IsFirst(q.routes, q.routes[log[|log| - 1].route].fallbacks, Names(log), name)
    ensures Ready(q, log, name, NextSetting(q.routes, q.plan, |log|, name, log[|log| - 1].setting),
            CallsBefore(log, |log|))
  {
    PinnedFacts(q.plan.order(|log|), q.plan.pin(|log|));
    assert log[..|log|] == log;
  }

  /** The setting of the next hop: candidates and pin of the route entered. */
  method Enter(q: Request, hop: nat, route: string, st: Setting) returns (next: Setting)
    requires route in q.routes
    ensures next == NextSetting(q.routes, q.plan, hop, route, st)
  {
    var candidates := q.plan.order(hop);
    if candidates == [] {
      return st.(candidates := []);
    }
    var hit;
    hit, candidates := PinByAffinity(candidates, q.plan.pin(hop));
    next := Setting(q.routes[route].strategy, candidates, hit, q.routes[route].skipRetry);
  }

  /** The setting of the first pass. */
  method Start(q: Request) returns (st: Setting)
    ensures st == FirstSetting(q.routes, q.plan, q.model, q.initial, q.start)
  {
    st := Setting(q.start, q.initial, false, false);
    if q.model in q.routes {
      var hit, candidates := PinByAffinity(q.initial, q.plan.pin(0));
      st := Setting(q.start, candidates, hit, q.routes[q.model].skipRetry);
    }
  }

  /** The route to enter after the last pass, with its setting, unless the run ends here. */
  method NextHop(q: Request, ghost log: seq<Pass>, hop: nat, route: string, st: Setting, visited: set<string>,
                 answered: bool)
    returns (next: Option<(string, Setting)>)
    requires Sound(q, log) && 0 < |log| == hop <= 4 && log[hop - 1].route == route && log[hop - 1].setting == st
    requires answered == log[hop - 1].reply.resp.Some? && visited == Names(log)
    ensures next.None? && !answered ==> Exhausted(q, log)
    ensures next.Some? ==> hop < 4 && !answered && Ready(q, log, next.value.0, next.value.1, CallsBefore(log, hop))
  {
    if answered || route !in q.routes || hop >= 4 || (st.hit && st.skip) {
      return None;
    }
    var name := NextRoute(q.routes, q.routes[route].fallbacks, visited);
    if name.None? {
      return None;
    }
    NextReady(q, log, name.value);
    var entered := Enter(q, hop, name.value, st);
    next := Some((name.value, entered));
  }

  /** A pass and its part of the summary. */
  method SumPass(q: Request, ghost before: seq<Pass>, hop: nat, route: string, st: Setting, made: nat, sum: Reply,
                 counters: Counters)
    returns (r: Reply, calls: nat, ghost log: seq<Pass>)
    requires counters.Valid() && |before| == hop && Ready(q, before, route, st, made) && sum == Summary(before)
    modifies counters
    ensures |log| == hop + 1 && Sound(q, log) && Names(log) == Names(before) + {route}
    ensures r == Summary(log) && calls == CallsBefore(log, |log|) && (r.resp.Some? ==> r.cand.Some?)
    ensures log[hop].route == route && log[hop].setting == st && log[hop].reply.resp == r.resp
    ensures counters.Valid()
    ensures forall p :: counters.Of(p) == old(counters.Of(p)) + Held(r, p)
  {
    var pass, done;
    pass, done, log := LogPass(q, before, hop, route, st, made, counters);
    SummarySnoc(before, Pass(route, st, made, done, pass));
    r, calls := AddReply(sum, pass), made + |done|;
  }

  /** The loop of `runRoute`. */
  method Loop(q: Request, counters: Counters) returns (r: Reply, ghost log: seq<Pass>)
    requires counters.Valid()
    modifies counters
    ensures 1 <= |log| <= 4 && Sound(q, log) && r == Summary(log)
    ensures (r.resp.Some? ==> r.cand.Some?) && (r.resp.None? ==> Exhausted(q, log))
    ensures counters.Valid()
    ensures forall p :: counters.Of(p) == old(counters.Of(p)) + Held(r, p)
  {
    var visited, route := {q.model}, q.model;
    var st := Start(q);
    StartReady(q);
    r, log := Reply(None, None, None, None, 0), [];
    var made: nat, hops := 0, 0;
    while true
      invariant |log| == hops <= 3 && counters.Valid() && visited == Names(log) + {route}
      invariant Ready(q, log, route, st, made) && r == Summary(log) && r.resp.None?
      invariant forall p :: counters.Of(p) == old(counters.Of(p))
      decreases 4 - hops
    {
      r, made, log := SumPass(q, log, hops, route, st, made, r, counters);
      hops := hops + 1;
      var next := NextHop(q, log, hops, route, st, visited, r.resp.Some?);
      if next.None? {
        return;
      }
      route, st := next.value.0, next.value.1;
      visited := visited + {route};
    }
  }
}
