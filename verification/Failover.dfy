/** The request path: failover inside a route, the fusion strategies, and fallback routes. */
module Failover {
  import opened Wrappers
  import opened Ordering

  datatype Error = Transport(code: int) | ContextExceeded | NoResult | NoPanelAnswer | JudgeBody

  /** What one upstream call comes back with. */
  datatype Outcome = Failed(error: Error) | Retryable(status: int) | Answered(status: int)

  datatype Call = Call(cand: Candidate, outcome: Outcome)

  /** Live upstream requests per provider. */
  class Counters {
    var live: map<string, int>

    constructor ()
      ensures live == map[]
    {
      live := map[];
    }

    function Of(p: string): int
      reads this
    {
      if p in live then live[p] else 0
    }

    ghost predicate Valid()
      reads this
    {
      forall p | p in live :: live[p] >= 0
    }

    method Inc(p: string)
      requires Valid()
      modifies this
      ensures Valid() && forall q :: Of(q) == old(Of(q)) + (if q == p then 1 else 0)
    {
      live := live[p := Of(p) + 1];
    }

    /** Floored at 0. */
    method Dec(p: string)
      requires Valid()
      modifies this
      ensures Valid() && forall q :: Of(q) == old(Of(q)) - (if q == p && old(Of(q)) > 0 then 1 else 0)
    {
      if Of(p) > 0 {
        live := live[p := Of(p) - 1];
      }
    }
  }

  /** Everything a request asks the world: call outcomes by call number, the context guard, model
      names, and the price table. */
  datatype World = World(outcome: nat -> Outcome, tooLong: Candidate -> bool, mapped: Candidate -> string,
    price: Candidate -> real)

  datatype Reply = Reply(cand: Option<Candidate>, resp: Option<int>, fail: Option<int>, err: Option<Error>,
    attempts: nat)

  /** The slot a reply leaves taken: that of the provider that answered. */
  function Held(r: Reply, p: string): int {
    if r.resp.Some? && r.cand.Some? && r.cand.value.provider == p then 1 else 0
  }

  function Mapped(w: World, c: Candidate): Candidate {
    c.(model := w.mapped(c))
  }

  /** The calls a list of candidates leads to when every call fails: the guard skips some, each of
      the others is called once, in order. */
  function Calls(w: World, cs: seq<Candidate>, first: nat): seq<Call> {
    if cs == [] then []
    else
      var rest := Calls(w, cs[..|cs| - 1], first);
      var c := cs[|cs| - 1];
      if w.tooLong(c) then rest else rest + [Call(Mapped(w, c), w.outcome(first + |rest|))]
  }

  predicate NoAnswer(calls: seq<Call>) {
    forall k | 0 <= k < |calls| :: !calls[k].outcome.Answered?
  }

  /** The failure state the loop carries, written as a fold over the visited candidates. */
  function Leftover(w: World, cs: seq<Candidate>, first: nat): (r: (Option<int>, Option<Error>))
    ensures cs != [] ==> r.0.Some? || r.1.Some?
  {
    if cs == [] then (None, None)
    else
      var n := |cs| - 1;
      var (fail, err) := Leftover(w, cs[..n], first);
      if w.tooLong(cs[n]) then (fail, Some(ContextExceeded))
      else
        match w.outcome(first + |Calls(w, cs[..n], first)|)
        case Failed(e) => (None, Some(e))
        case Retryable(status) => (Some(status), None)
        case Answered(_) => (fail, Some(NoResult))
  }

  /** One more candidate: what it adds to the calls and to the failure state. */
  lemma CallsNext(w: World, cs: seq<Candidate>, i: nat, first: nat)
    requires i < |cs|
    ensures var before, c := Calls(w, cs[..i], first), cs[i];
            Calls(w, cs[..i + 1], first)
            == if w.tooLong(c) then before else before + [Call(Mapped(w, c), w.outcome(first + |before|))]
    ensures var n, left := first + |Calls(w, cs[..i], first)|, Leftover(w, cs[..i], first);
            Leftover(w, cs[..i + 1], first)
            == if w.tooLong(cs[i]) then (left.0, Some(ContextExceeded))
               else match w.outcome(n) {
                 case Failed(e) => (None, Some(e))
                 case Retryable(status) => (Some(status), None)
                 case Answered(_) => (left.0, Some(NoResult))
               }
  {
    assert cs[..i + 1][..i] == cs[..i] && cs[..i + 1][i] == cs[i];
  }

  /** One upstream call: its provider stays counted only when the call is answered. */
  method Attempt(w: World, c: Candidate, n: nat, counters: Counters) returns (out: Outcome)
    requires counters.Valid()
    modifies counters
    ensures counters.Valid() && out == w.outcome(n)
    ensures forall p :: counters.Of(p) == old(counters.Of(p)) + (if out.Answered? && c.provider == p then 1 else 0)
  {
    counters.Inc(c.provider);
    out := w.outcome(n);
    if !out.Answered? {
      counters.Dec(c.provider);
    }
  }

  /** The loop's state after the first `n` candidates failed or were skipped. */
  ghost predicate Tried(w: World, cs: seq<Candidate>, n: nat, first: nat, r: Reply, calls: seq<Call>)
    requires n <= |cs|
  {
    r.resp.None? && calls == Calls(w, cs[..n], first) && r.attempts == |calls| && NoAnswer(calls) &&
    (r.fail, r.err) == Leftover(w, cs[..n], first) && r.cand == if n == 0 then None else Some(Mapped(w, cs[n - 1]))
  }

  /** The state when the last of the first `n` candidates answered. */
  ghost predicate Served(w: World, cs: seq<Candidate>, n: nat, first: nat, r: Reply, calls: seq<Call>)
    requires n <= |cs|
  {
    r.resp.Some? && n > 0 && calls == Calls(w, cs[..n], first) && r.attempts == |calls| && calls != [] &&
    r.cand == Some(Mapped(w, cs[n - 1])) && calls[|calls| - 1] == Call(r.cand.value, Answered(r.resp.value)) &&
    NoAnswer(calls[..|calls| - 1]) && (r.fail, r.err) == Leftover(w, cs[..n - 1], first)
  }

  /** One turn of the loop of `failoverPass`. */
  method TryNext(w: World, cs: seq<Candidate>, i: nat, first: nat, before: Reply, made: seq<Call>, counters: Counters)
    returns (r: Reply, calls: seq<Call>)
    requires counters.Valid() && i < |cs| && Tried(w, cs, i, first, before, made)
    modifies counters
    ensures counters.Valid()
    ensures if r.resp.Some? then Served(w, cs, i + 1, first, r, calls) else Tried(w, cs, i + 1, first, r, calls)
    ensures forall p :: counters.Of(p) == old(counters.Of(p)) + Held(r, p)
  {
    var c := cs[i];
    CallsNext(w, cs, i, first);
    r, calls := before.(cand := Some(Mapped(w, c))), made;
    if w.tooLong(c) {
      r := r.(err := Some(ContextExceeded));
      return;
    }
    var out := Attempt(w, c, first + |calls|, counters);
    calls := calls + [Call(Mapped(w, c), out)];
    r := r.(attempts := r.attempts + 1);
    match out
    case Failed(e) =>
      r := r.(err := Some(e), fail := None);
    case Retryable(status) =>
      r := r.(fail := Some(status), err := None);
    case Answered(status) =>
      r := r.(resp := Some(status));
      assert calls[..|calls| - 1] == made;
  }

  /** A whole pass over `cs`: some of the candidates were tried and the last one answered, or all of
      them were tried in vain. */
  ghost predicate Passed(w: World, cs: seq<Candidate>, first: nat, r: Reply, calls: seq<Call>) {
    if r.resp.Some? then exists n: nat | n <= |cs| :: Served(w, cs, n, first, r, calls)
    else Tried(w, cs, |cs|, first, r, calls)
  }

  /** `failoverPass`: tries each candidate at most once, stops at the first deterministic answer, and
      leaves exactly that answer's provider counted as busy. */
  method FailoverPass(w: World, cs: seq<Candidate>, first: nat, counters: Counters) returns (r: Reply, calls: seq<Call>)
    requires counters.Valid()
    modifies counters
    ensures counters.Valid() && Passed(w, cs, first, r, calls)
    ensures forall p :: counters.Of(p) == old(counters.Of(p)) + Held(r, p)
  {
    r := Reply(None, None, None, None, 0);
    calls := [];
    assert cs[..0] == [];
    for i := 0 to |cs|
      invariant counters.Valid() && Tried(w, cs, i, first, r, calls)
      invariant forall p :: counters.Of(p) == old(counters.Of(p))
    {
      r, calls := TryNext(w, cs, i, first, r, calls, counters);
      if r.resp.Some? {
        return;
      }
    }
  }

  /** What a caller of a pass may rely on. */
  lemma PassedFacts(w: World, cs: seq<Candidate>, first: nat, r: Reply, calls: seq<Call>)
    requires Passed(w, cs, first, r, calls)
    ensures r.attempts == |calls| <= |cs| && (r.cand.None? <==> cs == [])
    ensures r.resp.None? ==> NoAnswer(calls) && (cs != [] ==> r.fail.Some? || r.err.Some?)
    ensures r.resp.Some? ==> calls != [] && calls[|calls| - 1] == Call(r.cand.value, Answered(r.resp.value))
  {
    if r.resp.Some? {
      var n: nat :| n <= |cs| && Served(w, cs, n, first, r, calls);
      CallsFew(w, cs[..n], first);
    } else {
      assert cs[..|cs|] == cs;
      CallsFew(w, cs, first);
    }
  }

  lemma {:induction false} CallsFew(w: World, cs: seq<Candidate>, first: nat)
    ensures |Calls(w, cs, first)| <= |cs|
  {
    if cs != [] {
      CallsFew(w, cs[..|cs| - 1], first);
    }
  }

  // ---- Fusion: race two candidates ----

  /** Which arm of a race is relayed: a 200 before any other answer, of two 200s the cheaper one
      (the first on a tie), else the first answer. */
  function Winner(a: Outcome, b: Outcome, priceA: real, priceB: real): (r: Option<nat>)
    ensures r.Some? ==> r.value < 2
  {
    if a == Answered(200) && b == Answered(200) then Some(if priceB < priceA then 1 else 0)
    else if a == Answered(200) then Some(0)
    else if b == Answered(200) then Some(1)
    else if a.Answered? then Some(0)
    else if b.Answered? then Some(1)
    else None
  }

  /** What a race without an answer carries: the later retryable response, else the later error. */
  function RaceLost(a: Outcome, b: Outcome): (Option<int>, Option<Error>) {
    if b.Retryable? then (Some(b.status), None)
    else if a.Retryable? then (Some(a.status), None)
    else if b.Failed? then (None, Some(b.error))
    else if a.Failed? then (None, Some(a.error))
    else (None, Some(NoResult))
  }

  /** A race: both arms are called, the winner is relayed. */
  ghost predicate Raced(w: World, pair: seq<Candidate>, first: nat, r: Reply, calls: seq<Call>)
    requires |pair| == 2
  {
    var a, b := w.outcome(first), w.outcome(first + 1);
    var win := Winner(a, b, w.price(pair[0]), w.price(pair[1]));
    calls == [Call(pair[0], a), Call(pair[1], b)] && r.attempts == 2 &&
    if win.Some?
    then r.cand == Some(pair[win.value]) && r.resp.Some? && calls[win.value].outcome == Answered(r.resp.value) &&
         r.fail.None? && r.err.None?
    else r.cand == Some(pair[1]) && r.resp.None? && (r.fail, r.err) == RaceLost(a, b)
  }

  /** `fusionRun`: exactly the winner's body stays open. */
  method FusionRun(w: World, pair: seq<Candidate>, first: nat, counters: Counters) returns (r: Reply, calls: seq<Call>)
    requires |pair| == 2 && counters.Valid()
    modifies counters
    ensures counters.Valid() && Raced(w, pair, first, r, calls)
    ensures forall p :: counters.Of(p) == old(counters.Of(p)) + Held(r, p)
  {
    var a := Attempt(w, pair[0], first, counters);
    var b := Attempt(w, pair[1], first + 1, counters);
    calls := [Call(pair[0], a), Call(pair[1], b)];
    var hits: seq<nat> := (if a == Answered(200) then [0] else []) + (if b == Answered(200) then [1] else []);
    var pick := -1;
    if |hits| == 1 {
      pick := hits[0];
    } else if |hits| == 2 {
      pick := hits[0];
      if w.price(pair[hits[1]]) < w.price(pair[hits[0]]) {
        pick := hits[1];
      }
    } else if a.Answered? {
      pick := 0;
    } else if b.Answered? {
      pick := 1;
    }
    if pick >= 0 {
      var loser := 1 - pick;
      if calls[loser].outcome.Answered? {
        counters.Dec(pair[loser].provider);
      }
      r := Reply(Some(pair[pick]), Some(calls[pick].outcome.status), None, None, 2);
      return;
    }
    var fail, err := LastFailures(calls);
    r := Reply(Some(pair[1]), None, fail, if fail.Some? then None else err, 2);
  }

  /** The loop over the results of a lost race. */
  method LastFailures(calls: seq<Call>) returns (fail: Option<int>, err: Option<Error>)
    requires |calls| == 2 && NoAnswer(calls)
    ensures (fail, if fail.Some? then None else err) == RaceLost(calls[0].outcome, calls[1].outcome)
  {
    fail, err := None, None;
    for i := 0 to 2
      invariant i == 0 ==> fail.None? && err.None?
      invariant i == 1 ==> (fail, err) == match calls[0].outcome
                                          case Retryable(status) => (Some(status), None)
                                          case Failed(e) => (None, Some(e))
                                          case Answered(_) => (None, None)
      invariant i == 2 ==> (fail, if fail.Some? then None else err) == RaceLost(calls[0].outcome, calls[1].outcome)
    {
      assert !calls[i].outcome.Answered?;
      match calls[i].outcome
      case Retryable(status) => fail := Some(status);
      case Failed(e) => err := Some(e);
      case Answered(_) =>
    }
  }

  // ---- Fusion judge: a panel and one judge ----

  /** What the panel phase collected before quorum and grace, or the deadline, ended it. */
  datatype Panel = Panel(answers: seq<Candidate>, fails: seq<int>, errs: seq<Error>)

  /** The reply of a panel without answers: its last failure, else its last error. */
  function Unanswered(last: Candidate, heard: Panel, n: nat): Reply {
    if heard.fails != [] then Reply(Some(last), None, Some(heard.fails[|heard.fails| - 1]), None, n)
    else if heard.errs != [] then Reply(Some(last), None, None, Some(heard.errs[|heard.errs| - 1]), n)
    else Reply(Some(last), None, None, Some(NoPanelAnswer), n)
  }

  /** The reply of one call. */
  function Single(c: Candidate, out: Outcome, attempts: nat): Reply {
    match out
    case Failed(e) => Reply(Some(c), None, None, Some(e), attempts)
    case Retryable(status) => Reply(Some(c), None, Some(status), None, attempts)
    case Answered(status) => Reply(Some(c), Some(status), None, None, attempts)
  }

  /** The run after the panel phase: no call without answers or judge request, else one call, to the
      only answer's candidate or to the judge. */
  ghost predicate Judged(w: World, panel: seq<Candidate>, heard: Panel, judge: Option<Candidate>, first: nat,
                         r: Reply, calls: seq<Call>)
    requires panel != []
  {
    var n := |panel|;
    if heard.answers == [] then calls == [] && r == Unanswered(panel[n - 1], heard, n)
    else if |heard.answers| > 1 && judge.None? then calls == [] &&
      r == Reply(Some(heard.answers[0]), None, None, Some(JudgeBody), n)
    else
      var c := Mapped(w, if |heard.answers| == 1 then heard.answers[0] else judge.value);
      calls == [Call(c, w.outcome(first))] && r == Single(c, w.outcome(first), n + 1)
  }

  /** `fusionJudgeRun` after the panel phase; `judge` is the resolved judge, absent when the judge
      request cannot be built. */
  method JudgeRun(w: World, panel: seq<Candidate>, heard: Panel, judge: Option<Candidate>, first: nat,
                  counters: Counters)
    returns (r: Reply, calls: seq<Call>)
    requires panel != [] && counters.Valid()
    modifies counters
    ensures counters.Valid() && Judged(w, panel, heard, judge, first, r, calls)
    ensures forall p :: counters.Of(p) == old(counters.Of(p)) + Held(r, p)
  {
    calls := [];
    var n := |panel|;
    if heard.answers == [] {
      var last := panel[n - 1];
      if heard.fails != [] {
        r := Reply(Some(last), None, Some(heard.fails[|heard.fails| - 1]), None, n);
      } else if heard.errs != [] {
        r := Reply(Some(last), None, None, Some(heard.errs[|heard.errs| - 1]), n);
      } else {
        r := Reply(Some(last), None, None, Some(NoPanelAnswer), n);
      }
      return;
    }
    if |heard.answers| > 1 && judge.None? {
      r := Reply(Some(heard.answers[0]), None, None, Some(JudgeBody), n);
      return;
    }
    var only := if |heard.answers| == 1 then heard.answers[0] else judge.value;
    r, calls := CallOne(w, only, first, counters);
    r := r.(attempts := n + r.attempts);
  }

  /** A pass over a single candidate that the context guard does not look at. */
  method CallOne(w: World, only: Candidate, first: nat, counters: Counters) returns (r: Reply, calls: seq<Call>)
    requires counters.Valid()
    modifies counters
    ensures counters.Valid() && calls == [Call(Mapped(w, only), w.outcome(first))]
    ensures r == Single(Mapped(w, only), w.outcome(first), 1)
    ensures forall p :: counters.Of(p) == old(counters.Of(p)) + Held(r, p)
  {
    var open := w.(tooLong := c => false);
    r, calls := FailoverPass(open, [only], first, counters);
    PassedOne(open, only, first, r, calls);
  }

  lemma PassedOne(w: World, c: Candidate, first: nat, r: Reply, calls: seq<Call>)
    requires !w.tooLong(c) && Passed(w, [c], first, r, calls)
    ensures calls == [Call(Mapped(w, c), w.outcome(first))] && r == Single(Mapped(w, c), w.outcome(first), 1)
  {
    assert [c][..0] == [] && [c][..1] == [c];
    assert Calls(w, [], first) == [] && Calls(w, [c], first) == [Call(Mapped(w, c), w.outcome(first))];
    assert Leftover(w, [], first) == (None, None);
    if r.resp.Some? {
      var n: nat :| n <= 1 && Served(w, [c], n, first, r, calls);
      assert n == 1;
      assert calls[0] == Call(Mapped(w, c), w.outcome(first));
      assert [c][..n - 1] == [];
    } else {
      assert calls == Calls(w, [c], first);
      assert !calls[0].outcome.Answered?;
      CallsNext(w, [c], 0, first);
    }
  }
}
