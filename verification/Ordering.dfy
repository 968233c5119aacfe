/** Candidate ordering of a route: the stateful filter, the strategies and capability tiers. */
module Ordering {
  import opened Wrappers
  import opened Sorting

  datatype Candidate = Candidate(provider: string, model: string, weight: int)

  datatype Strategy =
    | Priority | RoundRobin | LeastLatency | Weighted | Cost | Lkgp | Headroom | Fusion | P2C | ResetAware
    | FillFirst | Auto | LowestUsage | PeakEwma | LeastConn | ConsistentHash | FusionJudge

  /** What the filter hears about one candidate: the tag match, the circuit breaker's answer (asked
      only when the tags match) and the model lock (asked only when the circuit allows). */
  datatype Verdict = Verdict(tags: bool, circuit: bool, locked: bool)

  predicate Passes(v: Verdict) {
    v.tags && v.circuit && !v.locked
  }

  /** The router state a strategy reads, as keys to sort by. */
  datatype View = View(
    latency: Option<Candidate -> real>,
    requests: Candidate -> int,
    tokens: Candidate -> int,
    load: Candidate -> real,
    peak: Candidate -> real,
    cost: Candidate -> real,
    reset: Candidate -> Option<int>,
    exhausted: Candidate -> bool,
    score: Candidate -> real,
    ring: (Candidate, Candidate) -> bool,
    covers: Option<Candidate -> bool>)

  // ---- Rearrangements ----

  function MoveToFront<T>(s: seq<T>, i: nat): seq<T>
    requires i < |s|
  {
    [s[i]] + s[..i] + s[i + 1..]
  }

  function Rotate<T>(s: seq<T>, k: nat): seq<T>
    requires k <= |s|
  {
    s[k..] + s[..k]
  }

  /** All but the elements at `i` and `j`. */
  function Without<T>(s: seq<T>, i: nat, j: nat): seq<T>
    requires i < |s| && j < |s|
  {
    if i < j then s[..i] + s[i + 1..j] + s[j + 1..]
    else if j < i then s[..j] + s[j + 1..i] + s[i + 1..]
    else s[..i] + s[i + 1..]
  }

  lemma MoveToFrontPermutes<T>(s: seq<T>, i: nat)
    requires i < |s|
    ensures multiset(MoveToFront(s, i)) == multiset(s)
  {
    assert s == s[..i] + [s[i]] + s[i + 1..];
  }

  lemma RotatePermutes<T>(s: seq<T>, k: nat)
    requires k <= |s|
    ensures multiset(Rotate(s, k)) == multiset(s)
  {
    assert s == s[..k] + s[k..];
  }

  lemma PiecesPermute<T>(x: seq<T>, y: seq<T>, z: seq<T>, p: T, q: T)
    ensures multiset([p, q] + (x + y + z)) == multiset(x + [p] + y + [q] + z)
    ensures multiset([q, p] + (x + y + z)) == multiset(x + [p] + y + [q] + z)
  {
    var all := multiset(x) + multiset(y) + multiset(z);
    assert multiset(x + y + z) == all;
    assert multiset([p, q]) == multiset([q, p]) == multiset{p, q};
    assert multiset(x + [p] + y + [q] + z) == multiset(x) + multiset([p]) + multiset(y) + multiset([q]) + multiset(z);
  }

  lemma PairFirstPermutes<T>(s: seq<T>, i: nat, j: nat)
    requires i < |s| && j < |s| && i != j
    ensures multiset([s[i], s[j]] + Without(s, i, j)) == multiset(s)
    ensures multiset([s[j], s[i]] + Without(s, i, j)) == multiset(s)
  {
    var a, b := if i < j then i else j, if i < j then j else i;
    var x, y, z := s[..a], s[a + 1..b], s[b + 1..];
    assert s == x + [s[a]] + y + [s[b]] + z;
    assert Without(s, i, j) == x + y + z;
    PiecesPermute(x, y, z, s[a], s[b]);
  }

  // ---- The comparisons of the sorting strategies ----

  function Less(v: View, st: Strategy): (Candidate, Candidate) -> bool {
    match st
    case LeastLatency => (a, b) => v.latency.Some? && v.latency.value(a) < v.latency.value(b)
    case Cost => (a, b) => v.cost(a) < v.cost(b)
    case Headroom => (a, b) => v.requests(a) < v.requests(b)
    case LowestUsage => (a, b) => v.tokens(a) < v.tokens(b)
    case LeastConn => (a, b) => v.load(a) < v.load(b)
    case ResetAware => (a, b) => v.reset(a).Some? && (v.reset(b).None? || v.reset(a).value < v.reset(b).value)
    case FillFirst => (a, b) => v.exhausted(a) != v.exhausted(b) && !v.exhausted(a)
    case Auto => (a, b) => v.score(a) > v.score(b)
    case _ => (a, b) => false
  }

  predicate Sorts(st: Strategy) {
    st in {LeastLatency, Cost, Headroom, LowestUsage, LeastConn, ResetAware, FillFirst, Auto}
  }

  /** Every sorting strategy compares by a key, so its order is a strict weak one. */
  lemma LessIsWeakOrder(v: View, st: Strategy)
    ensures WeakOrder(Less(v, st))
  {
  }

  /** The least loaded of two drawn candidates leads, the other follows. */
  function PairFirst(s: seq<Candidate>, i: nat, j: nat, swap: bool): seq<Candidate>
    requires i < |s| && j < |s|
  {
    (if swap then [s[j], s[i]] else [s[i], s[j]]) + Without(s, i, j)
  }

  lemma PairFirstKeeps(s: seq<Candidate>, i: nat, j: nat, swap: bool)
    requires i < |s| && j < |s| && i != j
    ensures multiset(PairFirst(s, i, j, swap)) == multiset(s)
  {
    PairFirstPermutes(s, i, j);
  }

  /** The random numbers a call may draw. */
  datatype Draws = Draws(ticket: nat, first: nat, second: nat)

  function TotalWeight(s: seq<Candidate>): int {
    if s == [] then 0 else TotalWeight(s[..|s| - 1]) + s[|s| - 1].weight
  }

  /** Every candidate weighs at least 1 (`New` sees to it), so a draw among the survivors exists. */
  predicate DrawsFit(s: seq<Candidate>, d: Draws) {
    |s| > 1 ==> d.ticket < TotalWeight(s) && d.first < |s| && d.second < |s| - 1
  }

  lemma {:induction false} WeightGrows(s: seq<Candidate>, i: nat)
    requires i < |s|
    ensures TotalWeight(s[..i + 1]) == TotalWeight(s[..i]) + s[i].weight
  {
    assert s[..i + 1][..i] == s[..i];
  }

  /** A virtual route and its rotation state. */
  class Route {
    const strategy: Strategy
    const sticky: int
    const candidates: seq<Candidate>
    var rr: nat
    var lastGood: string
    var stickyIdx: nat
    var stickyCount: nat

    constructor (strategy: Strategy, sticky: int, candidates: seq<Candidate>)
      ensures this.strategy == strategy && this.sticky == sticky && this.candidates == candidates
      ensures rr == 0 && lastGood == "" && stickyIdx == 0 && stickyCount == 0
    {
      this.strategy, this.sticky, this.candidates := strategy, sticky, candidates;
      rr, lastGood, stickyIdx, stickyCount := 0, "", 0, 0;
    }

    method StickyNext() returns (idx: nat)
      modifies this`stickyIdx, this`stickyCount
      ensures idx == old(stickyIdx)
      ensures (stickyIdx, stickyCount) == NextSticky(old(stickyIdx), old(stickyCount), sticky, |candidates|)
    {
      var n := sticky;
      if n < 1 {
        n := 1;
      }
      idx := stickyIdx;
      stickyCount := stickyCount + 1;
      if stickyCount >= n {
        stickyCount := 0;
        stickyIdx := stickyIdx + 1;
        if |candidates| > 0 {
          stickyIdx := stickyIdx % |candidates|;
        }
      }
    }

    /** The survivors of the filter and their positions in the route. */
    method Filter(verdicts: seq<Verdict>) returns (allowed: seq<Candidate>, origIdx: seq<nat>)
      requires |verdicts| == |candidates|
      ensures origIdx == Survivors(verdicts)
      ensures allowed == Pick(candidates, origIdx)
    {
      allowed, origIdx := [], [];
      for i := 0 to |candidates|
        invariant origIdx == Survivors(verdicts[..i])
        invariant (forall k | 0 <= k < |origIdx| :: origIdx[k] < i) && allowed == Pick(candidates, origIdx)
      {
        assert verdicts[..i + 1][..i] == verdicts[..i];
        if verdicts[i].tags && verdicts[i].circuit && !verdicts[i].locked {
          allowed := allowed + [candidates[i]];
          origIdx := origIdx + [i];
        }
      }
      assert verdicts[..|candidates|] == verdicts;
    }

    /** The candidate that owns the drawn ticket. */
    method DrawWeighted(s: seq<Candidate>, ticket: nat) returns (pick: nat)
      requires |s| > 0 && ticket < TotalWeight(s)
      ensures pick < |s| && ticket < TotalWeight(s[..pick + 1])
      ensures forall i | 0 <= i <= pick :: ticket >= TotalWeight(s[..i])
    {
      var n: int := ticket;
      pick := 0;
      assert s[..|s|] == s;
      for i := 0 to |s|
        invariant n == ticket - TotalWeight(s[..i])
        invariant forall k | 0 <= k <= i :: ticket >= TotalWeight(s[..k])
      {
        WeightGrows(s, i);
        n := n - s[i].weight;
        if n < 0 {
          return i;
        }
      }
      assert false;
    }

    /** `OrderCandidatesCaps`: filter, arrange by strategy, then tier by capability. `hash` is the
        ring value (absent = none); `media` says whether the request requires modalities. The
        ghost result is the arrangement before tiering. */
    method OrderCandidates(verdicts: seq<Verdict>, v: View, d: Draws, hash: Option<nat>, media: bool)
      returns (r: seq<Candidate>, ghost mid: seq<Candidate>)
      requires |verdicts| == |candidates|
      requires DrawsFit(Pick(candidates, Survivors(verdicts)), d)
      modifies this
      ensures multiset(r) == multiset(mid) == multiset(Pick(candidates, Survivors(verdicts)))
      ensures r == Tiered(mid, v, media)
      ensures Arranged(strategy, sticky, mid, Pick(candidates, Survivors(verdicts)), Survivors(verdicts),
              old(Cursor()), v, d, hash)
      ensures lastGood == old(lastGood)
      ensures (rr, stickyIdx, stickyCount) ==
              Turned(strategy, |Survivors(verdicts)|, old(rr), old(stickyIdx), old(stickyCount), sticky, |candidates|)
    {
      var allowed, origIdx := Filter(verdicts);
      if strategy == RoundRobin {
        allowed := Turn(allowed, origIdx);
      } else {
        allowed := Arrange(allowed, origIdx, v, d, hash);
      }
      mid := allowed;
      TieredPermutes(allowed, v, media);
      r := Tiered(allowed, v, media);
    }

    /** The round-robin branch. */
    method Turn(s: seq<Candidate>, origIdx: seq<nat>) returns (r: seq<Candidate>)
      requires |s| == |origIdx|
      modifies this`rr, this`stickyIdx, this`stickyCount
      ensures multiset(r) == multiset(s) && r == Turning(s, origIdx, old(rr), old(stickyIdx), sticky)
      ensures (rr, stickyIdx, stickyCount) ==
              Turned(RoundRobin, |s|, old(rr), old(stickyIdx), old(stickyCount), sticky, |candidates|)
    {
      if |s| <= 1 {
        return s;
      }
      var start := 0;
      if sticky > 1 {
        var want := StickyNext();
        start := FirstFrom(origIdx, want);
      } else {
        start := rr % |s|;
        rr := rr + 1;
      }
      RotatePermutes(s, start);
      r := Rotate(s, start);
    }

    /** The branches that leave the route's own state alone. */
    method Arrange(s: seq<Candidate>, ghost origIdx: seq<nat>, v: View, d: Draws, hash: Option<nat>)
        returns (r: seq<Candidate>)
      requires strategy != RoundRobin && |s| == |origIdx| && DrawsFit(s, d)
      ensures multiset(r) == multiset(s) && Arranged(strategy, sticky, r, s, origIdx, Cursor(), v, d, hash)
    {
      if strategy == Lkgp {
        r := s;
        if lastGood != "" {
          r := LeadWith(s, lastGood);
        }
      } else {
        r := Spread(s, origIdx, v, d, hash);
      }
    }

    /** The strategies but round robin and last known good. */
    method Spread(s: seq<Candidate>, ghost origIdx: seq<nat>, v: View, d: Draws, hash: Option<nat>)
        returns (r: seq<Candidate>)
      requires strategy != RoundRobin && strategy != Lkgp && |s| == |origIdx| && DrawsFit(s, d)
      ensures multiset(r) == multiset(s) && Arranged(strategy, sticky, r, s, origIdx, Cursor(), v, d, hash)
    {
      r := s;
      if strategy == Weighted {
        if |s| > 1 {
          r := ByWeight(s, d.ticket);
        }
      } else if strategy == P2C || strategy == PeakEwma {
        if |s| > 1 && (strategy == PeakEwma ==> v.latency.Some?) {
          r := DrawTwo(s, v, d);
        }
      } else if strategy == ConsistentHash {
        if |s| > 1 && hash.Some? {
          r := ByRing(s, v, hash.value);
        }
      } else {
        r := BySort(s, v);
      }
    }

    /** The sorting strategies; the latency strategy needs data. */
    method BySort(s: seq<Candidate>, v: View) returns (r: seq<Candidate>)
      ensures multiset(r) == multiset(s)
      ensures r == if Sorts(strategy) && (strategy == LeastLatency ==> v.latency.Some?)
              then Sort(s, Less(v, strategy)) else s
    {
      r := s;
      if Sorts(strategy) && (strategy == LeastLatency ==> v.latency.Some?) {
        SortPermutes(s, Less(v, strategy));
        r := Sort(s, Less(v, strategy));
      }
    }

    /** The drawn candidate first. */
    method ByWeight(s: seq<Candidate>, ticket: nat) returns (r: seq<Candidate>)
      requires |s| > 0 && ticket < TotalWeight(s)
      ensures multiset(r) == multiset(s) && FirstByTicket(r, s, ticket)
    {
      var pick := DrawWeighted(s, ticket);
      MoveToFrontPermutes(s, pick);
      r := MoveToFront(s, pick);
    }

    /** The ring order, from the request's place on. */
    method ByRing(s: seq<Candidate>, v: View, hash: nat) returns (r: seq<Candidate>)
      requires |s| > 1
      ensures multiset(r) == multiset(s) && |Sort(s, v.ring)| == |s| && r == Rotate(Sort(s, v.ring), hash % |s|)
    {
      SortPermutes(s, v.ring);
      r := Sort(s, v.ring);
      RotatePermutes(r, hash % |s|);
      r := Rotate(r, hash % |s|);
    }

    /** Two distinct candidates are drawn; the better one leads, the other follows. */
    method DrawTwo(s: seq<Candidate>, v: View, d: Draws) returns (r: seq<Candidate>)
      requires |s| > 1 && DrawsFit(s, d)
      ensures multiset(r) == multiset(s)
      ensures var j := if d.second >= d.first then d.second + 1 else d.second;
              r == PairFirst(s, d.first, j, if strategy == P2C then v.requests(s[j]) < v.requests(s[d.first])
                                            else v.peak(s[j]) < v.peak(s[d.first]))
    {
      var i, j := d.first, d.second;
      if j >= i {
        j := j + 1;
      }
      var winner, loser := s[i], s[j];
      ghost var swap := if strategy == P2C then v.requests(loser) < v.requests(winner)
        else v.peak(loser) < v.peak(winner);
      if (strategy == P2C && v.requests(loser) < v.requests(winner)) ||
        (strategy != P2C && v.peak(loser) < v.peak(winner)) {
        winner, loser := loser, winner;
      }
      r := [winner, loser] + Without(s, i, j);
      assert r == PairFirst(s, i, j, swap);
      PairFirstKeeps(s, i, j, swap);
    }

    /** Moves the first candidate of that provider to the front, if there is one. */
    method LeadWith(s: seq<Candidate>, name: string) returns (r: seq<Candidate>)
      ensures multiset(r) == multiset(s) && LeadsWith(r, s, name)
    {
      for i := 0 to |s|
        invariant forall k | 0 <= k < i :: s[k].provider != name
      {
        if s[i].provider == name {
          MoveToFrontPermutes(s, i);
          r := MoveToFront(s, i);
          return;
        }
      }
      return s;
    }

    /** The first survivor at or after `want`, else the first survivor. */
    method FirstFrom(origIdx: seq<nat>, want: nat) returns (start: nat)
      requires |origIdx| > 0
      ensures start == StartFrom(origIdx, want)
    {
      start := 0;
      for i := 0 to |origIdx|
        invariant start == 0 && StartAfter(origIdx, want, i) == StartAfter(origIdx, want, 0)
      {
        if origIdx[i] >= want {
          return i;
        }
      }
    }

    function Cursor(): (nat, nat, string)
      reads this
    {
      (rr, stickyIdx, lastGood)
    }
  }

  /** The candidate that owns the ticket leads and the rest keep their order. */
  ghost predicate FirstByTicket(r: seq<Candidate>, s: seq<Candidate>, ticket: nat) {
    exists p: nat | p < |s| :: TotalWeight(s[..p]) <= ticket < TotalWeight(s[..p + 1]) && r == MoveToFront(s, p)
  }

  /** What each strategy does to the survivors, cursor and draws given. */
  ghost predicate Arranged(strategy: Strategy, sticky: int, r: seq<Candidate>, s: seq<Candidate>, origIdx: seq<nat>,
                           cursor: (nat, nat, string), v: View, d: Draws, hash: Option<nat>)
    requires |s| == |origIdx| && DrawsFit(s, d)
  {
    match strategy
    case Lkgp => if cursor.2 == "" then r == s else LeadsWith(r, s, cursor.2)
    case RoundRobin =>
      r == Turning(s, origIdx, cursor.0, cursor.1, sticky)
    case Weighted =>
      if |s| <= 1 then r == s
      else FirstByTicket(r, s, d.ticket)
    case P2C =>
      r == if |s| <= 1 then s else
        var j := if d.second >= d.first then d.second + 1 else d.second;
        PairFirst(s, d.first, j, v.requests(s[j]) < v.requests(s[d.first]))
    case PeakEwma =>
      r == if |s| <= 1 || v.latency.None? then s else
        var j := if d.second >= d.first then d.second + 1 else d.second;
        PairFirst(s, d.first, j, v.peak(s[j]) < v.peak(s[d.first]))
    case ConsistentHash =>
      r == if |s| <= 1 || hash.None? then s else
        SortPermutes(s, v.ring);
        Rotate(Sort(s, v.ring), hash.value % |s|)
    case _ =>
      r == if Sorts(strategy) && (strategy == LeastLatency ==> v.latency.Some?) then Sort(s, Less(v, strategy)) else s
  }

  /** The first candidate of the provider leads and the rest keep their order. */
  ghost predicate LeadsWith(r: seq<Candidate>, s: seq<Candidate>, name: string) {
    if exists i | 0 <= i < |s| :: s[i].provider == name
    then
      exists i: nat | i < |s| ::
        s[i].provider == name && (forall k | 0 <= k < i :: s[k].provider != name) && r == MoveToFront(s, i)
    else r == s
  }

  function Survivors(verdicts: seq<Verdict>): (r: seq<nat>)
    ensures |r| <= |verdicts| && forall k | 0 <= k < |r| :: r[k] < |verdicts|
  {
    if verdicts == [] then []
    else
      var n := |verdicts| - 1;
      Survivors(verdicts[..n]) + (if Passes(verdicts[n]) then [n] else [])
  }

  /** The survivors are exactly the positions that pass, in order. */
  lemma {:induction false} SurvivorsExact(verdicts: seq<Verdict>)
    ensures var r := Survivors(verdicts);
            (forall k | 0 <= k < |r| :: Passes(verdicts[r[k]])) && (forall i, j | 0 <= i < j < |r| :: r[i] < r[j]) &&
            forall i | 0 <= i < |verdicts| && Passes(verdicts[i]) :: i in r
  {
    if verdicts != [] {
      var n := |verdicts| - 1;
      SurvivorsExact(verdicts[..n]);
      var rest := Survivors(verdicts[..n]);
      assert Survivors(verdicts) == rest + (if Passes(verdicts[n]) then [n] else []);
      forall i | 0 <= i < |verdicts| && Passes(verdicts[i]) ensures i in Survivors(verdicts) {
        if i < n {
          assert verdicts[..n][i] == verdicts[i];
          assert i in rest;
        }
      }
      forall k | 0 <= k < |rest| ensures Passes(verdicts[rest[k]]) {
        assert verdicts[..n][rest[k]] == verdicts[rest[k]];
      }
    }
  }

  function Pick(cs: seq<Candidate>, idx: seq<nat>): seq<Candidate>
    requires forall k | 0 <= k < |idx| :: idx[k] < |cs|
  {
    seq(|idx|, k requires 0 <= k < |idx| => cs[idx[k]])
  }

  function StartAfter(origIdx: seq<nat>, want: nat, i: nat): (start: nat)
    requires i <= |origIdx|
    ensures |origIdx| > 0 ==> start < |origIdx|
    decreases |origIdx| - i
  {
    if i == |origIdx| then 0 else if origIdx[i] >= want then i else StartAfter(origIdx, want, i + 1)
  }

  function StartFrom(origIdx: seq<nat>, want: nat): (start: nat)
    ensures |origIdx| > 0 ==> start < |origIdx|
  {
    StartAfter(origIdx, want, 0)
  }

  /** `reorderByModalities`. */
  function Tiered(s: seq<Candidate>, v: View, media: bool): seq<Candidate> {
    if !media || |s| < 2 || v.covers.None? then s else Sort(s, TierLess(v.covers.value))
  }

  lemma TieredPermutes(s: seq<Candidate>, v: View, media: bool)
    ensures multiset(Tiered(s, v, media)) == multiset(s)
  {
    if v.covers.Some? {
      SortPermutes(s, TierLess(v.covers.value));
    }
  }

  /** With a catalog, the candidates that cover the required media come first, and the strategy's
      order is kept inside each tier. */
  lemma TiersKeepOrder(s: seq<Candidate>, v: View)
    requires v.covers.Some?
    ensures Tiered(s, v, true) == Keep(s, v.covers.value) + Keep(s, Not(v.covers.value))
  {
    if |s| >= 2 {
      SortByTier(s, v.covers.value);
    }
  }

  /** A sorting strategy's result is sorted by its key, and ties keep priority order. */
  lemma StrategySorts(v: View, st: Strategy, s: seq<Candidate>, pivot: Candidate)
    ensures InOrder(Sort(s, Less(v, st)), Less(v, st))
    ensures Keep(Sort(s, Less(v, st)), Tie(Less(v, st), pivot)) == Keep(s, Tie(Less(v, st), pivot))
  {
    LessIsWeakOrder(v, st);
    SortInOrder(s, Less(v, st));
    SortStable(s, Less(v, st), pivot);
  }

  /** Position of the first candidate with the pinned provider and model. */
  function FirstPinned(s: seq<Candidate>, pin: (string, string)): (r: Option<nat>)
    ensures match r
            case Some(i) =>
              i < |s| && (s[i].provider, s[i].model) == pin && forall k | 0 <= k < i ::
                (s[k].provider, s[k].model) != pin
            case None => forall k | 0 <= k < |s| :: (s[k].provider, s[k].model) != pin
  {
    if s == [] then None
    else if (s[0].provider, s[0].model) == pin then Some(0)
    else match FirstPinned(s[1..], pin) { case None => None case Some(i) => Some(i + 1) }
  }

  /** Whether a live pin hits. A single candidate is never pinned. */
  predicate PinHits(s: seq<Candidate>, pin: Option<(string, string)>) {
    |s| >= 2 && pin.Some? && FirstPinned(s, pin.value).Some?
  }

  /** The candidates after pinning: the first pinned one leads and the others keep their order. */
  function Pinned(s: seq<Candidate>, pin: Option<(string, string)>): seq<Candidate> {
    if PinHits(s, pin) then MoveToFront(s, FirstPinned(s, pin.value).value) else s
  }

  lemma PinnedFacts(s: seq<Candidate>, pin: Option<(string, string)>)
    ensures var r := Pinned(s, pin);
            multiset(r) == multiset(s) && |r| == |s| && (PinHits(s, pin) ==> (r[0].provider, r[0].model) == pin.value)
  {
    if PinHits(s, pin) {
      MoveToFrontPermutes(s, FirstPinned(s, pin.value).value);
    }
  }

  lemma PinnedAt(s: seq<Candidate>, pin: (string, string), i: nat)
    requires i < |s| && (s[i].provider, s[i].model) == pin && forall k | 0 <= k < i ::
             (s[k].provider, s[k].model) != pin
    ensures FirstPinned(s, pin) == Some(i)
  {
  }

  /** `PinByAffinity`. */
  method PinByAffinity(s: seq<Candidate>, pin: Option<(string, string)>) returns (hit: bool, r: seq<Candidate>)
    ensures hit == PinHits(s, pin) && r == Pinned(s, pin)
  {
    if pin.None? || |s| < 2 {
      return false, s;
    }
    for i := 0 to |s|
      invariant forall k | 0 <= k < i :: (s[k].provider, s[k].model) != pin.value
    {
      if s[i].provider == pin.value.0 && s[i].model == pin.value.1 {
        PinnedAt(s, pin.value, i);
        return true, if i == 0 then s else MoveToFront(s, i);
      }
    }
    return false, s;
  }

  // ---- The sticky schedule ----

  function NextSticky(idx: nat, count: nat, sticky: int, len: nat): (nat, nat) {
    if count + 1 >= (if sticky < 1 then 1 else sticky)
    then ((if len > 0 then (idx + 1) % len else idx + 1), 0)
    else (idx, count + 1)
  }

  function AfterRotation(rr: nat, idx: nat, count: nat, sticky: int, len: nat): (nat, nat, nat) {
    if sticky > 1 then var (i, c) := NextSticky(idx, count, sticky, len); (rr, i, c)
    else (rr + 1, idx, count)
  }

  /** Round robin rotates the survivors to the cursor. */
  function Turning(s: seq<Candidate>, origIdx: seq<nat>, rr: nat, idx: nat, sticky: int): seq<Candidate>
    requires |s| == |origIdx|
  {
    if |s| <= 1 then s else if sticky > 1 then Rotate(s, StartFrom(origIdx, idx)) else Rotate(s, rr % |s|)
  }

  /** Only a round-robin ordering of at least two survivors moves the rotation. */
  function Turned(st: Strategy, survivors: nat, rr: nat, idx: nat, count: nat, sticky: int, len: nat): (nat, nat, nat) {
    if st == RoundRobin && survivors > 1 then AfterRotation(rr, idx, count, sticky, len) else (rr, idx, count)
  }

  /** Rotation state after `k` orderings with at least two survivors. */
  function StickyAfter(k: nat, sticky: int, len: nat): (nat, nat) {
    if k == 0 then (0, 0) else
      var (i, c) := StickyAfter(k - 1, sticky, len);
      NextSticky(i, c, sticky, len)
  }

  lemma DivModNext(k: nat, n: nat)
    requires n > 0
    ensures k % n + 1 == n ==> (k + 1) / n == k / n + 1 && (k + 1) % n == 0
    ensures k % n + 1 < n ==> (k + 1) / n == k / n && (k + 1) % n == k % n + 1
  {
    var q, r := k / n, k % n;
    assert k == q * n + r;
    if r + 1 == n {
      assert k + 1 == (q + 1) * n;
      DivUnique(k + 1, n, q + 1, 0);
    } else {
      DivUnique(k + 1, n, q, r + 1);
    }
  }

  lemma TimesGrows(a: nat, b: nat, n: nat)
    requires a <= b
    ensures a * n <= b * n
  {
  }

  lemma DivUnique(k: nat, n: nat, q: nat, r: nat)
    requires n > 0 && r < n && k == q * n + r
    ensures k / n == q && k % n == r
  {
    var q', r' := k / n, k % n;
    assert k == q' * n + r';
    if q > q' {
      TimesGrows(q' + 1, q, n);
    } else if q < q' {
      TimesGrows(q + 1, q', n);
    }
  }

  lemma ModNext(a: nat, len: nat)
    requires len > 0
    ensures (a % len + 1) % len == (a + 1) % len
  {
    var q, r := a / len, a % len;
    assert a == q * len + r;
    if r + 1 == len {
      assert a + 1 == (q + 1) * len + 0;
      DivUnique(a + 1, len, q + 1, 0);
      DivUnique(len, len, 1, 0);
    } else {
      DivUnique(a + 1, len, q, r + 1);
      DivUnique(r + 1, len, 0, r + 1);
    }
  }

  /** Sticky schedule: the k-th ordering (from 0) starts from candidate (k div N) mod len, however
      the survivors change between calls. */
  lemma {:induction false} StickySchedule(k: nat, sticky: int, len: nat)
    requires sticky >= 1 && len > 0
    ensures StickyAfter(k, sticky, len) == ((k / sticky) % len, k % sticky)
  {
    if k > 0 {
      StickySchedule(k - 1, sticky, len);
      DivModNext(k - 1, sticky);
      ModNext((k - 1) / sticky, len);
    }
  }

  /** Rotation state after round-robin orderings that found these numbers of survivors. */
  function AfterOrderings(survivors: seq<nat>, sticky: int, len: nat): (nat, nat, nat) {
    if survivors == [] then (0, 0, 0)
    else
      var n := |survivors| - 1;
      var (rr, idx, count) := AfterOrderings(survivors[..n], sticky, len);
      Turned(RoundRobin, survivors[n], rr, idx, count, sticky, len)
  }

  /** How many of the orderings had at least two survivors. */
  function Rotations(survivors: seq<nat>): nat {
    if survivors == [] then 0
    else Rotations(survivors[..|survivors| - 1]) + if survivors[|survivors| - 1] > 1 then 1 else 0
  }

  /** The schedule over whole runs, however the survivors change: after k rotating orderings a sticky
      route stands at candidate (k div N) mod len with k mod N uses, and a plain one at offset k. */
  lemma {:induction false} ScheduleOverRuns(survivors: seq<nat>, sticky: int, len: nat)
    requires len > 0
    ensures var k := Rotations(survivors);
            AfterOrderings(survivors, sticky, len) == if sticky > 1 then (0, (k / sticky) % len, k % sticky)
              else (k, 0, 0)
  {
    if survivors != [] {
      var n := |survivors| - 1;
      ScheduleOverRuns(survivors[..n], sticky, len);
      if sticky > 1 {
        StickySchedule(Rotations(survivors[..n]), sticky, len);
        StickySchedule(Rotations(survivors), sticky, len);
      }
    }
  }

  /** The ordering leads with the first survivor at or after the cursor, else the first survivor. */
  lemma {:induction false} StartAfterIsFirst(origIdx: seq<nat>, want: nat, i: nat)
    requires i <= |origIdx|
    ensures var s := StartAfter(origIdx, want, i);
            if exists k | i <= k < |origIdx| :: origIdx[k] >= want
            then i <= s < |origIdx| && origIdx[s] >= want && forall k | i <= k < s :: origIdx[k] < want
            else s == 0
    decreases |origIdx| - i
  {
    if i < |origIdx| && origIdx[i] < want {
      StartAfterIsFirst(origIdx, want, i + 1);
    }
  }

  /** The leader of a sticky ordering, as a position in the route. */
  lemma StickyLeader(verdicts: seq<Verdict>, want: nat)
    requires |Survivors(verdicts)| > 1
    ensures var idx := Survivors(verdicts);
            var lead := idx[StartFrom(idx, want)];
            Passes(verdicts[lead]) &&
            if exists k | 0 <= k < |verdicts| :: k >= want && Passes(verdicts[k])
            then lead >= want && forall k | want <= k < lead :: !Passes(verdicts[k])
            else forall k | 0 <= k < lead :: !Passes(verdicts[k])
  {
    var idx := Survivors(verdicts);
    StartAfterIsFirst(idx, want, 0);
    SurvivorsExact(verdicts);
    forall k | 0 <= k < |verdicts| && Passes(verdicts[k]) ensures exists m | 0 <= m < |idx| :: idx[m] == k {
      assert k in idx;
    }
    LeaderOf(verdicts, idx, want, StartFrom(idx, want));
  }

  lemma LeaderOf(verdicts: seq<Verdict>, idx: seq<nat>, want: nat, s: nat)
    requires s < |idx| && (forall k | 0 <= k < |idx| :: idx[k] < |verdicts| && Passes(verdicts[idx[k]]))
    requires forall i, j | 0 <= i < j < |idx| :: idx[i] < idx[j]
    requires forall k | 0 <= k < |verdicts| && Passes(verdicts[k]) :: exists m | 0 <= m < |idx| :: idx[m] == k
    requires if exists k | 0 <= k < |idx| :: idx[k] >= want
             then idx[s] >= want && forall k | 0 <= k < s :: idx[k] < want
             else s == 0
    ensures if exists k | 0 <= k < |verdicts| :: k >= want && Passes(verdicts[k])
            then idx[s] >= want && forall k | want <= k < idx[s] :: !Passes(verdicts[k])
            else forall k | 0 <= k < idx[s] :: !Passes(verdicts[k])
  {
    if k :| 0 <= k < |verdicts| && k >= want && Passes(verdicts[k]) {
      var m :| 0 <= m < |idx| && idx[m] == k;
      assert idx[m] >= want;
    } else {
      assert forall m | 0 <= m < |idx| :: Passes(verdicts[idx[m]]) && idx[m] < want;
    }
  }
}
