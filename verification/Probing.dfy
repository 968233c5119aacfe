/** What the filter's questions do to the circuit breakers, over one or many orderings. */
module Probing {
  import opened Wrappers
  import opened Ordering
  import CB = CircuitBreaker

  /** One candidate the filter looks at: its provider, whether its tags match, whether its model is
      locked, and the time. A sequence of questions may come from several orderings. */
  datatype Question = Question(provider: string, tags: bool, locked: bool, now: int)

  /** The breaker of provider `p` after the questions. */
  function After(cfg: CB.Config, s: CB.State, p: string, qs: seq<Question>): CB.State {
    if qs == [] then s
    else
      var n := |qs| - 1;
      var before := After(cfg, s, p, qs[..n]);
      if qs[n].provider == p && qs[n].tags then CB.AfterAsk(cfg, before, qs[n].now).0 else before
  }

  /** What question `i` hears when its provider has this breaker, if any. */
  function Heard(breaker: Option<(CB.Config, CB.State)>, qs: seq<Question>, i: nat): Verdict
    requires i < |qs|
  {
    var q := qs[i];
    var admitted := q.tags && (breaker.None? ||
      CB.AfterAsk(breaker.value.0, After(breaker.value.0, breaker.value.1, q.provider, qs[..i]), q.now).1);
    Verdict(q.tags, admitted, admitted && q.locked)
  }

  ghost predicate Apart(circuits: map<string, CB.Breaker>) {
    forall p, q | p in circuits && q in circuits && p != q :: circuits[p] != circuits[q]
  }

  ghost function Known(circuits: map<string, CB.Breaker>, p: string): Option<(CB.Config, CB.State)>
    reads circuits.Values
  {
    if p in circuits then Some((circuits[p].cfg, circuits[p].S())) else None
  }

  /** `circuitAllow`. */
  method CircuitAllow(circuits: map<string, CB.Breaker>, p: string, now: int) returns (ok: bool)
    modifies if p in circuits then {circuits[p]} else {}
    ensures p !in circuits ==> ok
    ensures p in circuits ==> (circuits[p].S(), ok) == CB.AfterAsk(circuits[p].cfg, old(circuits[p].S()), now)
  {
    if p !in circuits {
      return true;
    }
    ok := circuits[p].Allow(now);
  }

  /** The filter's questions on the breaker objects. */
  method Hear(qs: seq<Question>, circuits: map<string, CB.Breaker>) returns (verdicts: seq<Verdict>)
    requires Apart(circuits)
    modifies circuits.Values
    ensures |verdicts| == |qs|
    ensures forall i | 0 <= i < |qs| :: verdicts[i] == Heard(old(Known(circuits, qs[i].provider)), qs, i)
    ensures forall p | p in circuits :: circuits[p].S() == After(circuits[p].cfg, old(circuits[p].S()), p, qs)
  {
    verdicts := [];
    for i := 0 to |qs|
      invariant |verdicts| == i
      invariant forall k | 0 <= k < i :: verdicts[k] == Heard(old(Known(circuits, qs[k].provider)), qs, k)
      invariant forall p | p in circuits :: circuits[p].S() == After(circuits[p].cfg, old(circuits[p].S()), p, qs[..i])
    {
      assert qs[..i + 1][..i] == qs[..i];
      var admitted := false;
      if qs[i].tags {
        admitted := CircuitAllow(circuits, qs[i].provider, qs[i].now);
      }
      verdicts := verdicts + [Verdict(qs[i].tags, admitted, admitted && qs[i].locked)];
    }
    assert qs[..|qs|] == qs;
  }

  // ---- An open breaker lets one question through ----

  /** Question `i` asks an open breaker of `p` whose cooldown is over. */
  predicate Due(cfg: CB.Config, s: CB.State, p: string, q: Question) {
    q.provider == p && q.tags && q.now >= s.openedAt + CB.EffectiveCooldown(cfg, s)
  }

  ghost predicate SomeDue(cfg: CB.Config, s: CB.State, p: string, qs: seq<Question>) {
    exists i | 0 <= i < |qs| :: Due(cfg, s, p, qs[i])
  }

  /** The breaker stays as it is until a due question comes, and then stays half-open. */
  lemma {:induction false} OpenThenHalfOpen(cfg: CB.Config, s: CB.State, p: string, qs: seq<Question>)
    requires s.phase == CB.Open
    ensures After(cfg, s, p, qs) == if SomeDue(cfg, s, p, qs) then s.(phase := CB.HalfOpen) else s
  {
    if qs != [] {
      var n := |qs| - 1;
      OpenThenHalfOpen(cfg, s, p, qs[..n]);
      if SomeDue(cfg, s, p, qs[..n]) {
        var i :| 0 <= i < n && Due(cfg, s, p, qs[..n][i]);
        assert Due(cfg, s, p, qs[i]);
      } else {
        assert forall i | 0 <= i < n :: qs[..n][i] == qs[i];
      }
    }
  }

  /** Of all questions to an open breaker exactly the first due one survives, unless its model is
      locked. */
  lemma {:induction false} OneSurvivor(cfg: CB.Config, s: CB.State, p: string, qs: seq<Question>, i: nat)
    requires s.phase == CB.Open && i < |qs| && qs[i].provider == p
    ensures Passes(Heard(Some((cfg, s)), qs, i)) <==>
            Due(cfg, s, p, qs[i]) && !SomeDue(cfg, s, p, qs[..i]) && !qs[i].locked
  {
    OpenThenHalfOpen(cfg, s, p, qs[..i]);
  }

  /** So at most one candidate of the provider survives, however many the route has and however many
      orderings ask. */
  lemma {:induction false} AtMostOneSurvivor(cfg: CB.Config, s: CB.State, p: string, qs: seq<Question>, i: nat, j: nat)
    requires s.phase == CB.Open && i < j < |qs| && qs[i].provider == p && qs[j].provider == p
    ensures !Passes(Heard(Some((cfg, s)), qs, i)) || !Passes(Heard(Some((cfg, s)), qs, j))
  {
    OneSurvivor(cfg, s, p, qs, i);
    OneSurvivor(cfg, s, p, qs, j);
    assert qs[..j][i] == qs[i];
  }

  /** A locked candidate uses the admission up: no candidate of the provider survives in this or any
      later ordering, although nothing was sent to it. */
  lemma {:induction false} LockedProbeIsLost(cfg: CB.Config, s: CB.State, p: string, qs: seq<Question>, i: nat,
                                             more: seq<Question>, j: nat)
    requires s.phase == CB.Open && i < |qs| && Due(cfg, s, p, qs[i]) && !SomeDue(cfg, s, p, qs[..i]) && qs[i].locked
    requires j < |qs + more| && (qs + more)[j].provider == p
    ensures !Passes(Heard(Some((cfg, s)), qs + more, j))
    ensures After(cfg, s, p, qs + more) == s.(phase := CB.HalfOpen)
  {
    var all := qs + more;
    assert all[i] == qs[i];
    OpenThenHalfOpen(cfg, s, p, all);
    OneSurvivor(cfg, s, p, all, j);
    if j > i {
      assert all[..j][i] == qs[i];
    } else {
      assert all[..j] == qs[..j];
      assert j < i ==> qs[..i][j] == qs[j];
    }
  }

  /** The survivors of one ordering that belong to a provider whose breaker is open: the first due
      candidate alone, or none when it is locked or none is due. */
  lemma {:induction false} SurvivorsOfOpen(cfg: CB.Config, s: CB.State, p: string, qs: seq<Question>,
                                           verdicts: seq<Verdict>, i: nat)
    requires s.phase == CB.Open && |verdicts| == |qs| && i < |qs| && qs[i].provider == p
    requires forall k | 0 <= k < |qs| && qs[k].provider == p :: verdicts[k] == Heard(Some((cfg, s)), qs, k)
    ensures i in Survivors(verdicts) <==>
            Due(cfg, s, p, qs[i]) && !SomeDue(cfg, s, p, qs[..i]) && !qs[i].locked
  {
    SurvivorsExact(verdicts);
    OneSurvivor(cfg, s, p, qs, i);
  }
}
