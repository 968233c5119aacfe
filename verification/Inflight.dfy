/** In-flight accounting under every interleaving of concurrent upstream calls. */
module Inflight {
  import opened Wrappers
  import opened Ordering
  import opened Failover

  /** A relayed body that gives its slot back when it is closed, once (`inflightBody`). */
  class Body {
    var done: Option<string>

    constructor (provider: string)
      ensures done == Some(provider)
    {
      done := Some(provider);
    }

    method Close(counters: Counters)
      requires counters.Valid()
      modifies this, counters
      ensures counters.Valid() && done.None?
      ensures forall p ::
                counters.Of(p) == old(counters.Of(p)) - if old(done) == Some(p) && old(counters.Of(p)) > 0 then 1 else 0
    {
      if done.Some? {
        counters.Dec(done.value);
        done := None;
      }
    }
  }

  /** Where one upstream call stands: waiting for the provider, returned without a body to relay
      (failed, or buffered and closed) but not yet given back, holding an open body, or over. */
  datatype Phase = Calling | Settling | Open | Over

  datatype Slot = Slot(provider: string, phase: Phase)

  /** The shared counter map and all calls made so far, by any request, race arm or panel member. */
  datatype State = State(live: map<string, int>, slots: map<nat, Slot>)

  datatype Event =
    | Begin(id: nat, provider: string)
    | Return(id: nat, relayed: bool)
    | Settle(id: nat)
    | Close(id: nat)

  function Of(live: map<string, int>, p: string): int {
    if p in live then live[p] else 0
  }

  /** `IncInflight`. */
  function Inc(live: map<string, int>, p: string): map<string, int> {
    live[p := Of(live, p) + 1]
  }

  /** `DecInflight`, floored at 0. */
  function Dec(live: map<string, int>, p: string): map<string, int> {
    if Of(live, p) > 0 then live[p := Of(live, p) - 1] else live
  }

  /** Whether a goroutine can take this step now. A closed body may be closed again. */
  predicate Enabled(s: State, e: Event) {
    match e
    case Begin(id, _) => id !in s.slots
    case Return(id, _) => id in s.slots && s.slots[id].phase == Calling
    case Settle(id) => id in s.slots && s.slots[id].phase == Settling
    case Close(id) => id in s.slots && (s.slots[id].phase == Open || s.slots[id].phase == Over)
  }

  function Step(s: State, e: Event): State
    requires Enabled(s, e)
  {
    match e
    case Begin(id, p) => State(Inc(s.live, p), s.slots[id := Slot(p, Calling)])
    case Return(id, relayed) => s.(slots := s.slots[id := s.slots[id].(phase := if relayed then Open else Settling)])
    case Settle(id) => State(Dec(s.live, s.slots[id].provider), s.slots[id := s.slots[id].(phase := Over)])
    case Close(id) =>
      if s.slots[id].phase == Over then s
      else State(Dec(s.live, s.slots[id].provider), s.slots[id := s.slots[id].(phase := Over)])
  }

  ghost predicate Legal(s: State, es: seq<Event>)
    decreases |es|
  {
    es != [] ==> Enabled(s, es[0]) && Legal(Step(s, es[0]), es[1..])
  }

  ghost function Run(s: State, es: seq<Event>): State
    requires Legal(s, es)
    decreases |es|
  {
    if es == [] then s else Run(Step(s, es[0]), es[1..])
  }

  /** The calls to `p` that have not returned or whose body is still open. */
  ghost function Busy(s: State, p: string): set<nat> {
    set id | id in s.slots && s.slots[id].provider == p && s.slots[id].phase != Over
  }

  /** Conservation: each provider's counter is the number of its busy calls. */
  ghost predicate Conserved(s: State) {
    forall p :: Of(s.live, p) == |Busy(s, p)|
  }

  lemma BeginBusy(s: State, id: nat, q: string, p: string)
    requires id !in s.slots
    ensures Busy(Step(s, Begin(id, q)), p) == if p == q then Busy(s, p) + {id} else Busy(s, p)
  {
    var slots := s.slots[id := Slot(q, Calling)];
    assert Step(s, Begin(id, q)).slots == slots;
    assert forall x | x in s.slots :: x != id && slots[x] == s.slots[x];
  }

  lemma BeginConserves(s: State, id: nat, q: string, p: string)
    requires Of(s.live, p) == |Busy(s, p)| && id !in s.slots
    ensures var t := Step(s, Begin(id, q)); Of(t.live, p) == |Busy(t, p)|
  {
    BeginBusy(s, id, q, p);
    assert id !in Busy(s, p);
  }

  lemma ReturnConserves(s: State, id: nat, relayed: bool, p: string)
    requires Conserved(s) && Enabled(s, Return(id, relayed))
    ensures var t := Step(s, Return(id, relayed)); Of(t.live, p) == |Busy(t, p)|
  {
    assert Busy(Step(s, Return(id, relayed)), p) == Busy(s, p);
    assert Of(s.live, p) == |Busy(s, p)|;
  }

  lemma StepConserves(s: State, e: Event)
    requires Conserved(s) && Enabled(s, e)
    ensures Conserved(Step(s, e))
  {
    var t := Step(s, e);
    forall p ensures Of(t.live, p) == |Busy(t, p)| {
      match e
      case Begin(id, q) =>
        assert Of(s.live, p) == |Busy(s, p)|;
        BeginConserves(s, id, q, p);
      case Return(id, relayed) => ReturnConserves(s, id, relayed, p);
      case Settle(id) => GiveBack(s, t, id, p);
      case Close(id) =>
        if s.slots[id].phase == Over {
          assert Of(s.live, p) == |Busy(s, p)|;
        } else {
          GiveBack(s, t, id, p);
        }
    }
  }

  /** Ending a busy call takes exactly one from its provider's counter: the floor is not reached. */
  lemma GiveBack(s: State, t: State, id: nat, p: string)
    requires Conserved(s) && id in s.slots && s.slots[id].phase != Over
    requires t == State(Dec(s.live, s.slots[id].provider), s.slots[id := s.slots[id].(phase := Over)])
    ensures Of(s.live, s.slots[id].provider) > 0
    ensures Of(t.live, p) == |Busy(t, p)|
  {
    var q := s.slots[id].provider;
    assert id in Busy(s, q);
    assert Of(s.live, q) == |Busy(s, q)| && Of(s.live, p) == |Busy(s, p)|;
    assert Busy(t, p) == if p == q then Busy(s, p) - {id} else Busy(s, p);
  }

  /** Every interleaving conserves: from the empty router, after any legal run, each counter equals
      the number of the provider's calls that have not returned or hold an open body. */
  lemma {:induction false} AlwaysConserved(s: State, es: seq<Event>)
    requires Conserved(s) && Legal(s, es)
    ensures Conserved(Run(s, es))
    decreases |es|
  {
    if es != [] {
      StepConserves(s, es[0]);
      AlwaysConserved(Step(s, es[0]), es[1..]);
    }
  }

  const EMPTY := State(map[], map[])

  /** A decrement is about to happen. */
  predicate Decrements(s: State, e: Event)
    requires Enabled(s, e)
  {
    e.Settle? || (e.Close? && s.slots[e.id].phase == Open)
  }

  /** The floor at 0 never fires: at every decrement of every run the counter is positive. */
  lemma FloorNeverFires(es: seq<Event>, e: Event)
    requires Legal(EMPTY, es) && Enabled(Run(EMPTY, es), e) && Decrements(Run(EMPTY, es), e)
    ensures var s := Run(EMPTY, es); Of(s.live, s.slots[e.id].provider) > 0
  {
    AlwaysConserved(EMPTY, es);
    var s := Run(EMPTY, es);
    GiveBack(s, Step(s, e), e.id, s.slots[e.id].provider);
  }

  /** At rest every counter is 0. */
  lemma ZeroAtRest(es: seq<Event>, p: string)
    requires Legal(EMPTY, es)
    requires forall id | id in Run(EMPTY, es).slots :: Run(EMPTY, es).slots[id].phase == Over
    ensures Of(Run(EMPTY, es).live, p) == 0
  {
    AlwaysConserved(EMPTY, es);
    assert Busy(Run(EMPTY, es), p) == {};
  }

  // ---- The calls of a pass keep to the protocol ----

  /** The steps of one call: its body is relayed, or it is given back. */
  function Steps(c: Call, id: nat, relayed: bool): seq<Event> {
    [Begin(id, c.cand.provider), Return(id, relayed)] + if relayed then [] else [Settle(id)]
  }

  /** The steps of a pass whose calls are numbered from `id`; call `kept`, if any, is relayed. */
  function Trace(calls: seq<Call>, id: nat, kept: Option<nat>): seq<Event> {
    if calls == [] then []
    else
      var n := |calls| - 1;
      Trace(calls[..n], id, kept) + Steps(calls[n], id + n, kept == Some(n))
  }

  lemma {:induction false} RunConcat(s: State, es: seq<Event>, fs: seq<Event>)
    requires Legal(s, es) && Legal(Run(s, es), fs)
    ensures Legal(s, es + fs) && Run(s, es + fs) == Run(Run(s, es), fs)
    decreases |es|
  {
    if es == [] {
      assert es + fs == fs;
    } else {
      assert (es + fs)[1..] == es[1..] + fs;
      RunConcat(Step(s, es[0]), es[1..], fs);
    }
  }

  /** No call is numbered `id` or above. */
  ghost predicate Unused(s: State, id: nat) {
    forall k | k >= id :: k !in s.slots
  }

  /** Only the provider of the relayed call is counted once more. */
  ghost predicate Adds(before: map<string, int>, after: map<string, int>, calls: seq<Call>, kept: Option<nat>) {
    forall p :: Of(after, p) == Of(before, p) + One(calls, kept, p)
  }

  function One(calls: seq<Call>, kept: Option<nat>, p: string): int {
    if kept.Some? && kept.value < |calls| && calls[kept.value].cand.provider == p then 1 else 0
  }

  lemma {:induction false} StepsRun(s: State, c: Call, id: nat, relayed: bool)
    requires Unused(s, id) && Conserved(s)
    ensures var es := Steps(c, id, relayed);
            Legal(s, es) && Unused(Run(s, es), id + 1) &&
            Adds(s.live, Run(s, es).live, [c], if relayed then Some(0) else None)
  {
    var es := Steps(c, id, relayed);
    assert Of(s.live, c.cand.provider) == |Busy(s, c.cand.provider)|;
    var s1 := Step(s, es[0]);
    var s2 := Step(s1, es[1]);
    assert es[1..] == [Return(id, relayed)] + es[2..] && es[1..][1..] == es[2..];
    if relayed {
      assert es[2..] == [];
    } else {
      assert es[2..] == [Settle(id)] && es[2..][1..] == [];
      assert Legal(Step(s2, Settle(id)), []);
    }
    assert Legal(s2, es[2..]) && Run(s2, es[2..]) == if relayed then s2 else Step(s2, Settle(id));
    assert Legal(s1, es[1..]) && Run(s1, es[1..]) == Run(s2, es[2..]);
    assert Legal(s, es) && Run(s, es) == Run(s1, es[1..]);
  }

  /** A pass is a legal run and changes each counter by its relayed call only. */
  lemma {:induction false} TraceRuns(s: State, calls: seq<Call>, id: nat, kept: Option<nat>)
    requires Conserved(s) && Unused(s, id)
    ensures var es := Trace(calls, id, kept);
            Legal(s, es) && Unused(Run(s, es), id + |calls|) && Adds(s.live, Run(s, es).live, calls, kept)
  {
    if calls != [] {
      var n := |calls| - 1;
      var before, last := Trace(calls[..n], id, kept), Steps(calls[n], id + n, kept == Some(n));
      TraceRuns(s, calls[..n], id, kept);
      TraceNext(s, before, calls, id, kept);
      assert Trace(calls, id, kept) == before + last;
    }
  }

  /** The last call of a pass after a run of the others. */
  lemma {:induction false} TraceNext(s: State, before: seq<Event>, calls: seq<Call>, id: nat, kept: Option<nat>)
    requires calls != [] && Conserved(s) && Legal(s, before)
    requires Unused(Run(s, before), id + |calls| - 1) && Adds(s.live, Run(s, before).live, calls[..|calls| - 1], kept)
    ensures var es := before + Steps(calls[|calls| - 1], id + |calls| - 1, kept == Some(|calls| - 1));
            Legal(s, es) && Unused(Run(s, es), id + |calls|) && Adds(s.live, Run(s, es).live, calls, kept)
  {
    var n := |calls| - 1;
    var t, last := Run(s, before), Steps(calls[n], id + n, kept == Some(n));
    AlwaysConserved(s, before);
    StepsRun(t, calls[n], id + n, kept == Some(n));
    RunConcat(s, before, last);
    AddsNext(s.live, t.live, Run(t, last).live, calls, kept);
  }

  lemma {:induction false} AddsNext(a: map<string, int>, b: map<string, int>, c: map<string, int>, calls: seq<Call>,
                                    kept: Option<nat>)
    requires calls != [] && var n := |calls| - 1;
             Adds(a, b, calls[..n], kept) && Adds(b, c, [calls[n]], if kept == Some(n) then Some(0) else None)
    ensures Adds(a, c, calls, kept)
  {
    var n := |calls| - 1;
    forall p ensures Of(c, p) == Of(a, p) + One(calls, kept, p) {
      assert Of(b, p) == Of(a, p) + One(calls[..n], kept, p);
      assert Of(c, p) == Of(b, p) + One([calls[n]], if kept == Some(n) then Some(0) else None, p);
    }
  }

  /** The calls of a failover pass are a legal run with the same effect on the counters. */
  lemma {:induction false} PassIsLegal(w: World, cs: seq<Candidate>, first: nat, r: Reply, calls: seq<Call>, s: State,
                                       id: nat)
    requires Passed(w, cs, first, r, calls) && Conserved(s) && Unused(s, id)
    ensures var es := Trace(calls, id, if r.resp.Some? then Some(r.attempts - 1) else None);
            Legal(s, es) &&
            forall p :: Of(Run(s, es).live, p) == Of(s.live, p) + Held(r, p)
  {
    PassedFacts(w, cs, first, r, calls);
    var kept := if r.resp.Some? then Some(r.attempts - 1) else None;
    TraceRuns(s, calls, id, kept);
    var t := Run(s, Trace(calls, id, kept));
    forall p ensures Of(t.live, p) == Of(s.live, p) + Held(r, p) {
      assert Of(t.live, p) == Of(s.live, p) + One(calls, kept, p);
    }
  }

  /** So are those of a race, whichever arm wins. */
  lemma {:induction false} RaceIsLegal(w: World, pair: seq<Candidate>, first: nat, r: Reply, calls: seq<Call>,
                                       s: State, id: nat)
    requires |pair| == 2 && Raced(w, pair, first, r, calls) && Conserved(s) && Unused(s, id)
    ensures var es := Trace(calls, id,
            Winner(w.outcome(first), w.outcome(first + 1), w.price(pair[0]), w.price(pair[1])));
            Legal(s, es) &&
            forall p :: Of(Run(s, es).live, p) == Of(s.live, p) + Held(r, p)
  {
    var win := Winner(w.outcome(first), w.outcome(first + 1), w.price(pair[0]), w.price(pair[1]));
    TraceRuns(s, calls, id, win);
    var t := Run(s, Trace(calls, id, win));
    forall p ensures Of(t.live, p) == Of(s.live, p) + Held(r, p) {
      assert Of(t.live, p) == Of(s.live, p) + One(calls, win, p);
    }
  }
}
