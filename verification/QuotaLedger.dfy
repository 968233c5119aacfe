/** Token budgets per provider and model in fixed windows. Times are milliseconds. */
module QuotaLedger {
  import opened Wrappers

  /** Remaining budget as the provider's own response headers reported it. */
  datatype Observation = Observation(remaining: int, resetAt: int, observedAt: int)

  datatype Row = Row(limit: int, window: int, used: int, start: Option<int>, obs: Option<Observation>)

  const NEW_ROW := Row(0, 0, 0, None, None)

  function Key(provider: string, model: string): string {
    provider + "|" + model
  }

  /** `rollWindow`. */
  function Rolled(q: Row, now: int): Row {
    var q := if q.window <= 0 then q.(window := 60_000) else q;
    if q.start.None? then q.(start := Some(now))
    else if now - q.start.value >= q.window then q.(start := Some(now), used := 0)
    else q
  }

  /** A fresh observation, if any. */
  function Observed(q: Row, now: int): Option<Observation> {
    if q.obs.None? || now - q.obs.value.observedAt >= 60_000 then None else q.obs
  }

  function Floor0(x: int): int {
    if x < 0 then 0 else x
  }

  datatype Budget = Budget(remaining: int, ratio: real, known: bool)

  function Clamp(v: real): real {
    if v < 0.0 then 0.0 else if v > 1.0 then 1.0 else v
  }

  function BudgetOf(q: Row, now: int): Budget {
    var obs := Observed(q, now);
    if obs.Some? then
      var rem := Floor0(obs.value.remaining);
      if q.limit > 0 then Budget(rem, Clamp(rem as real / q.limit as real), true)
      else if rem > 0 then Budget(rem, 1.0, true)
      else Budget(0, 0.0, true)
    else if q.limit <= 0 then Budget(0, 1.0, false)
    else
      var rem := Floor0(q.limit - Rolled(q, now).used);
      Budget(rem, rem as real / q.limit as real, true)
  }

  /** Asking for the budget rolls the window when local accounting is used. */
  function AfterAsk(q: Row, now: int): Row {
    if Observed(q, now).Some? || q.limit <= 0 then q else Rolled(q, now)
  }

  function AfterRecord(q: Row, tokens: int, now: int): Row {
    if tokens <= 0 then q else var r := Rolled(q, now); r.(used := r.used + tokens)
  }

  class Ledger {
    var rows: map<string, Row>
    var balanceLow: set<string>

    constructor ()
      ensures rows == map[] && balanceLow == {}
    {
      rows, balanceLow := map[], {};
    }

    method SetBalanceLow(provider: string, low: bool)
      modifies this
      ensures rows == old(rows)
      ensures balanceLow == if low then old(balanceLow) + {provider} else old(balanceLow) - {provider}
    {
      if low {
        balanceLow := balanceLow + {provider};
        return;
      }
      balanceLow := balanceLow - {provider};
    }

    method SetLimit(provider: string, model: string, limit: int, window: int)
      modifies this
      ensures balanceLow == old(balanceLow)
      ensures var k := Key(provider, model);
              rows == old(rows)[k :=
                (if k in old(rows) then old(rows)[k] else NEW_ROW).(limit := limit, window := window)]
    {
      var k := Key(provider, model);
      var q := if k in rows then rows[k] else NEW_ROW;
      q := q.(limit := limit);
      q := q.(window := window);
      rows := rows[k := q];
    }

    method ObserveUpstream(provider: string, model: string, remaining: int, resetIn: int, now: int)
      modifies this
      ensures balanceLow == old(balanceLow)
      ensures var k := Key(provider, model);
              rows == old(rows)[k := (if k in old(rows) then old(rows)[k] else NEW_ROW)
                                       .(obs := Some(Observation(remaining, now + resetIn, now)))]
    {
      var k := Key(provider, model);
      var q := if k in rows then rows[k] else NEW_ROW;
      rows := rows[k := q.(obs := Some(Observation(remaining, now + resetIn, now)))];
    }

    method RollWindow(k: string, now: int)
      requires k in rows
      modifies this
      ensures balanceLow == old(balanceLow) && rows == old(rows)[k := Rolled(old(rows)[k], now)]
    {
      var q := rows[k];
      if q.window <= 0 {
        q := q.(window := 60_000);
      }
      if q.start.None? {
        q := q.(start := Some(now));
      } else if now - q.start.value >= q.window {
        q := q.(start := Some(now));
        q := q.(used := 0);
      }
      rows := rows[k := q];
    }

    method Remaining(provider: string, model: string, now: int) returns (b: Budget)
      modifies this
      ensures balanceLow == old(balanceLow)
      ensures var k := Key(provider, model);
              if provider in balanceLow then b == Budget(0, 0.0, true) && rows == old(rows)
              else if k !in old(rows) then b == Budget(0, 1.0, false) && rows == old(rows)
              else b == BudgetOf(old(rows)[k], now) && rows == old(rows)[k := AfterAsk(old(rows)[k], now)]
    {
      if provider in balanceLow {
        return Budget(0, 0.0, true);
      }
      var k := Key(provider, model);
      if k !in rows {
        return Budget(0, 1.0, false);
      }
      var q := rows[k];
      if q.obs.Some? && now - q.obs.value.observedAt < 60_000 {
        var rem := q.obs.value.remaining;
        if rem < 0 {
          rem := 0;
        }
        if q.limit > 0 {
          return Budget(rem, Clamp(rem as real / q.limit as real), true);
        }
        if rem > 0 {
          return Budget(rem, 1.0, true);
        }
        return Budget(0, 0.0, true);
      }
      if q.limit <= 0 {
        return Budget(0, 1.0, false);
      }
      RollWindow(k, now);
      var rem := q.limit - rows[k].used;
      if rem < 0 {
        rem := 0;
      }
      return Budget(rem, rem as real / q.limit as real, true);
    }

    method Record(provider: string, model: string, tokens: int, now: int)
      modifies this
      ensures balanceLow == old(balanceLow)
      ensures var k := Key(provider, model);
              rows == if k in old(rows) then old(rows)[k := AfterRecord(old(rows)[k], tokens, now)] else old(rows)
    {
      if tokens <= 0 {
        return;
      }
      var k := Key(provider, model);
      if k !in rows {
        return;
      }
      RollWindow(k, now);
      rows := rows[k := rows[k].(used := rows[k].used + tokens)];
    }

    method WindowReset(provider: string, model: string, now: int) returns (t: Option<int>)
      modifies this
      ensures balanceLow == old(balanceLow)
      ensures var k := Key(provider, model);
              if k !in old(rows) then t.None? && rows == old(rows)
              else if Observed(old(rows)[k], now).Some? then t == Some(old(rows)[k].obs.value.resetAt) &&
                rows == old(rows)
              else if old(rows)[k].limit <= 0 then t.None? && rows == old(rows)
              else
                var r := Rolled(old(rows)[k], now);
                rows == old(rows)[k := r] && t == Some(r.start.value + r.window) && now < t.value
    {
      var k := Key(provider, model);
      if k !in rows {
        return None;
      }
      var q := rows[k];
      if q.obs.Some? && now - q.obs.value.observedAt < 60_000 {
        return Some(q.obs.value.resetAt);
      }
      if q.limit <= 0 {
        return None;
      }
      RollWindow(k, now);
      return Some(rows[k].start.value + rows[k].window);
    }
  }

  // ---- Runs of one row ----

  /** What can happen to a row. */
  datatype Op =
    | Spend(now: int, tokens: int)
    | Query(now: int)
    | Relimit(now: int, limit: int, window: int)
    | Observe(now: int, obs: Observation)

  function Step(q: Row, op: Op): Row {
    match op
    case Spend(now, n) => AfterRecord(q, n, now)
    case Query(now) => AfterAsk(q, now)
    case Relimit(_, limit, window) => q.(limit := limit, window := window)
    case Observe(_, obs) => q.(obs := Some(obs))
  }

  ghost function Run(q: Row, ops: seq<Op>): Row
    decreases |ops|
  {
    if ops == [] then q else Run(Step(q, ops[0]), ops[1..])
  }

  /** The clock does not run backwards. */
  ghost predicate Ordered(from: int, ops: seq<Op>)
    decreases |ops|
  {
    ops != [] ==> from <= ops[0].now && Ordered(ops[0].now, ops[1..])
  }

  function Counted(op: Op): int {
    if op.Spend? && op.tokens > 0 then op.tokens else 0
  }

  /** The ledger written independently: tokens recorded at or after `since`. */
  ghost function SpentSince(ops: seq<Op>, since: int): int
    decreases |ops|
  {
    if ops == [] then 0
    else (if ops[0].now >= since then Counted(ops[0]) else 0) + SpentSince(ops[1..], since)
  }

  /** The window length in force: an unset one means a minute. */
  function Length(q: Row): int {
    if q.window <= 0 then 60_000 else q.window
  }

  /** The window has started and is not over. */
  predicate Running(q: Row, now: int) {
    q.start.Some? && q.start.value <= now < q.start.value + Length(q)
  }

  /** A window only moves on to the present. */
  lemma {:induction false} StartGrows(q: Row, ops: seq<Op>, now: int)
    requires q.start.Some? && q.start.value <= now && Ordered(now, ops)
    ensures var r := Run(q, ops); r.start.Some? && (r.start == q.start || r.start.value >= now)
    decreases |ops|
  {
    if ops != [] {
      StartGrows(Step(q, ops[0]), ops[1..], ops[0].now);
    }
  }

  // ---- What is counted ----

  /** What the window's last start has dropped of its own instant: tokens recorded earlier, at the very
      time at which the window then started. */
  ghost function Forgotten(q: Row, ops: seq<Op>): int
    decreases |ops|
  {
    if ops == [] then 0
    else
      var n := |ops| - 1;
      if Run(q, ops).start != Run(q, ops[..n]).start then SpentSince(ops[..n], ops[n].now) else Forgotten(q, ops[..n])
  }

  /** What is used and what was forgotten is what was recorded since the window started. */
  ghost predicate Balanced(q: Row, ops: seq<Op>, from: int) {
    var r := Run(q, ops);
    if r.start.None? then r.used == 0 && SpentSince(ops, from) == 0
    else r.used + Forgotten(q, ops) == SpentSince(ops, r.start.value) && Forgotten(q, ops) >= 0
  }

  /** A started window started within the run. */
  ghost predicate StartedIn(q: Row, ops: seq<Op>, from: int, now: int) {
    Run(q, ops).start.Some? ==> from <= Run(q, ops).start.value <= now
  }

  /** Every run of a new row is balanced. */
  lemma {:induction false} AlwaysBalanced(q: Row, ops: seq<Op>, from: int, now: int)
    requires q.start.None? && q.used == 0 && Ordered(from, ops)
    requires from <= now && forall i | 0 <= i < |ops| :: ops[i].now <= now
    ensures Balanced(q, ops, from) && StartedIn(q, ops, from, now)
    decreases |ops|
  {
    if ops != [] {
      var n := |ops| - 1;
      assert ops == ops[..n] + [ops[n]];
      LastOrdered(from, ops[..n], ops[n]);
      AlwaysBalanced(q, ops[..n], from, ops[n].now);
      BalancedNext(q, ops[..n], ops[n], from);
    }
  }

  /** So its used count is the sum recorded since the window started exactly when nothing was forgotten. */
  lemma {:induction false} UsedExactly(q: Row, ops: seq<Op>, from: int)
    requires q.start.None? && q.used == 0 && Ordered(from, ops)
    ensures Balanced(q, ops, from)
    ensures var r := Run(q, ops);
            if r.start.None? then r.used == 0
            else r.used == SpentSince(ops, r.start.value) <==> Forgotten(q, ops) == 0
  {
    if ops != [] {
      var n := |ops| - 1;
      assert ops == ops[..n] + [ops[n]];
      LastOrdered(from, ops[..n], ops[n]);
      AlwaysBalanced(q, ops, from, ops[n].now);
    }
  }

  lemma {:induction false} ForgottenSnoc(q: Row, ops: seq<Op>, op: Op)
    ensures Forgotten(q, ops + [op]) ==
            if Step(Run(q, ops), op).start != Run(q, ops).start then SpentSince(ops, op.now) else Forgotten(q, ops)
  {
    assert (ops + [op])[..|ops|] == ops;
    RunSnoc(q, ops, op);
  }

  /** One more operation keeps the balance. */
  lemma {:induction false} BalancedNext(q: Row, ops: seq<Op>, op: Op, from: int)
    requires Balanced(q, ops, from) && StartedIn(q, ops, from, op.now) && from <= op.now
    ensures Balanced(q, ops + [op], from) && StartedIn(q, ops + [op], from, op.now)
  {
    var r, t := Run(q, ops), Step(Run(q, ops), op);
    RunSnoc(q, ops, op);
    ForgottenSnoc(q, ops, op);
    SpentPositive(ops, op.now);
    if r.start.None? {
      SpentFewer(ops, from, op.now);
    }
    OpCounts(r, op, Forgotten(q, ops), SpentSince(ops, if r.start.Some? then r.start.value else from),
             SpentSince(ops, op.now));
    SpentSnoc(ops, op, if t.start.Some? then t.start.value else from);
  }

  /** One operation on a row with `lost` tokens forgotten, `spent` recorded since its window started and
      `same` at the instant of the operation. */
  lemma {:induction false} OpCounts(r: Row, op: Op, lost: int, spent: int, same: int)
    requires r.start.None? ==> r.used == 0 && same == 0
    requires r.start.Some? ==> r.start.value <= op.now && r.used + lost == spent
    ensures var t := Step(r, op);
            if t.start.None? then r.start.None? && t.used == 0 && Counted(op) == 0
            else if t.start == r.start then t.used + lost == spent + Counted(op)
            else t.start.value == op.now && t.used == Counted(op)
  {
  }

  lemma {:induction false} LastOrdered(from: int, ops: seq<Op>, op: Op)
    requires Ordered(from, ops + [op])
    ensures Ordered(from, ops) && from <= op.now && forall i | 0 <= i < |ops| :: from <= ops[i].now <= op.now
    decreases |ops|
  {
    if ops == [] {
      assert ops + [op] == [op];
    } else {
      assert (ops + [op])[1..] == ops[1..] + [op];
      LastOrdered(ops[0].now, ops[1..], op);
    }
  }

  lemma {:induction false} SpentPositive(ops: seq<Op>, since: int)
    ensures SpentSince(ops, since) >= 0
    ensures SpentSince(ops, since) > 0 ==> exists i | 0 <= i < |ops| :: ops[i].now >= since && Counted(ops[i]) > 0
    decreases |ops|
  {
    if ops != [] {
      SpentPositive(ops[1..], since);
      if i :| 0 <= i < |ops[1..]| && ops[1..][i].now >= since && Counted(ops[1..][i]) > 0 {
        assert ops[i + 1].now >= since && Counted(ops[i + 1]) > 0;
      }
    }
  }

  lemma {:induction false} SpentFewer(ops: seq<Op>, early: int, late: int)
    requires early <= late
    ensures SpentSince(ops, late) <= SpentSince(ops, early)
    decreases |ops|
  {
    if ops != [] {
      SpentFewer(ops[1..], early, late);
    }
  }

  /** No limit comes with a window shorter than the one in force at an instant at which tokens were
      already recorded. */
  ghost predicate NeverCutShort(q: Row, ops: seq<Op>) {
    forall i, j | 0 <= i < j < |ops| && ops[i].now == ops[j].now && Counted(ops[i]) > 0 && ops[j].Relimit? ::
      Length(Step(Run(q, ops[..j]), ops[j])) >= Length(Run(q, ops[..j]))
  }

  /** Then the window that held a recording is still in force at the end of its instant. */
  lemma {:induction false} StillRunning(q: Row, ops: seq<Op>, from: int, i: nat, k: nat)
    requires q.start.None? && q.used == 0 && Ordered(from, ops) && NeverCutShort(q, ops)
    requires i < k <= |ops| && Counted(ops[i]) > 0 && forall j | i <= j < k :: ops[j].now == ops[i].now
    ensures Running(Run(q, ops[..k]), ops[i].now)
    decreases k
  {
    var now, before := ops[i].now, Run(q, ops[..k - 1]);
    assert ops[..k] == ops[..k - 1] + [ops[k - 1]];
    RunSnoc(q, ops[..k - 1], ops[k - 1]);
    if k - 1 > i {
      StillRunning(q, ops, from, i, k - 1);
    } else {
      OrderedFront(from, ops, i);
      AlwaysBalanced(q, ops[..i], from, now);
    }
  }

  lemma {:induction false} OrderedFront(from: int, ops: seq<Op>, i: nat)
    requires Ordered(from, ops) && i < |ops|
    ensures Ordered(from, ops[..i]) && from <= ops[i].now && forall j | 0 <= j < i :: ops[j].now <= ops[i].now
    decreases |ops|
  {
    if i > 0 {
      OrderedFront(ops[0].now, ops[1..], i - 1);
      assert ops[..i][1..] == ops[1..][..i - 1];
      forall j | 0 <= j < i ensures ops[j].now <= ops[i].now {
        assert j > 0 ==> ops[1..][j - 1].now <= ops[i].now;
      }
    }
  }

  /** `tokensUsed` is the sum of what was recorded since the window started in every run that never
      cuts a window short at the instant of a recording: whatever limits, window lengths and
      observations it brings. */
  lemma {:induction false} UsedIsSpent(q: Row, ops: seq<Op>, from: int)
    requires q.start.None? && q.used == 0 && Ordered(from, ops) && NeverCutShort(q, ops)
    ensures Forgotten(q, ops) == 0
    ensures var r := Run(q, ops); if r.start.None? then r.used == 0 else r.used == SpentSince(ops, r.start.value)
  {
    NothingForgotten(q, ops, from);
    UsedExactly(q, ops, from);
  }

  lemma {:induction false} NothingForgotten(q: Row, ops: seq<Op>, from: int)
    requires q.start.None? && q.used == 0 && Ordered(from, ops) && NeverCutShort(q, ops)
    ensures Forgotten(q, ops) == 0
    decreases |ops|
  {
    if ops != [] {
      var n := |ops| - 1;
      var before, now := ops[..n], ops[n].now;
      assert ops == before + [ops[n]];
      LastOrdered(from, before, ops[n]);
      FrontNeverCut(q, ops, n);
      NothingForgotten(q, before, from);
      UsedExactly(q, before, from);
      RunSnoc(q, before, ops[n]);
      SpentPositive(before, now);
      SpentFewer(before, from, now);
      if SpentSince(before, now) > 0 {
        var i :| 0 <= i < n && before[i].now >= now && Counted(before[i]) > 0;
        SameInstant(from, ops, i);
        StillRunning(q, ops, from, i, n);
      }
    }
  }

  lemma {:induction false} SameInstant(from: int, ops: seq<Op>, i: nat)
    requires Ordered(from, ops) && i < |ops| && ops[i].now >= ops[|ops| - 1].now
    ensures forall j | i <= j < |ops| :: ops[j].now == ops[i].now
  {
    forall j | i <= j < |ops| ensures ops[j].now == ops[i].now {
      OrderedFront(from, ops, j);
      OrderedFront(from, ops, |ops| - 1);
    }
  }

  lemma {:induction false} FrontNeverCut(q: Row, ops: seq<Op>, n: nat)
    requires NeverCutShort(q, ops) && n <= |ops|
    ensures NeverCutShort(q, ops[..n])
  {
    var front := ops[..n];
    forall i, j | 0 <= i < j < n && front[i].now == front[j].now && Counted(front[i]) > 0 && front[j].Relimit?
      ensures Length(Step(Run(q, front[..j]), front[j])) >= Length(Run(q, front[..j]))
    {
      assert front[..j] == ops[..j] && front[i] == ops[i] && front[j] == ops[j];
    }
  }

  /** A new row, one recording, and a shorter window set at the same instant: the next question
      forgets the recording. */
  lemma SameInstantForgets()
    ensures var ops := [Relimit(0, 100, 50), Spend(0, 1), Spend(10, 7), Relimit(10, 100, 5), Query(10)];
            Run(NEW_ROW, ops).start == Some(10) && Run(NEW_ROW, ops).used == 0 &&
            Forgotten(NEW_ROW, ops) == SpentSince(ops, 10) == 7
  {
    var a: seq<Op> := [Relimit(0, 100, 50)];
    var b, c := a + [Spend(0, 1)], a + [Spend(0, 1)] + [Spend(10, 7)];
    var d := c + [Relimit(10, 100, 5)];
    Next(NEW_ROW, [], Relimit(0, 100, 50));
    Next(NEW_ROW, a, Spend(0, 1));
    Next(NEW_ROW, b, Spend(10, 7));
    Next(NEW_ROW, c, Relimit(10, 100, 5));
    Next(NEW_ROW, d, Query(10));
    assert d + [Query(10)] == [Relimit(0, 100, 50), Spend(0, 1), Spend(10, 7), Relimit(10, 100, 5), Query(10)];
    assert [] + [Relimit(0, 100, 50)] == a && (d + [Query(10)])[..4] == d;
  }

  lemma Next(q: Row, ops: seq<Op>, op: Op)
    ensures Run(q, ops + [op]) == Step(Run(q, ops), op)
    ensures SpentSince(ops + [op], 10) == SpentSince(ops, 10) + if op.now >= 10 then Counted(op) else 0
  {
    RunSnoc(q, ops, op);
    SpentSnoc(ops, op, 10);
  }

  /** Without a fresh observation the reported budget is the limit minus what was recorded in the
      window that is current at the time of asking, plus what that window has forgotten. */
  lemma {:induction false} RemainingIsLimitMinusSpent(q: Row, ops: seq<Op>, from: int, now: int)
    requires q.start.None? && q.used == 0 && Ordered(from, ops + [Query(now)])
    requires var r := Run(q, ops); r.limit > 0 && Observed(r, now).None?
    ensures var r, lost := Run(q, ops + [Query(now)]), Forgotten(q, ops + [Query(now)]);
            r.start.Some? && now - r.start.value < r.window &&
            var spent := SpentSince(ops, r.start.value);
            BudgetOf(Run(q, ops), now).remaining == Floor0(r.limit - (spent - lost)) &&
            (BudgetOf(Run(q, ops), now).remaining == Floor0(r.limit - spent) <==> lost == 0 || spent - lost >= r.limit)
  {
    var all := ops + [Query(now)];
    RunSnoc(q, ops, Query(now));
    UsedExactly(q, all, from);
    SpentSnoc(ops, Query(now), Run(q, all).start.value);
  }

  lemma {:induction false} RunSnoc(q: Row, ops: seq<Op>, op: Op)
    ensures Run(q, ops + [op]) == Step(Run(q, ops), op)
    decreases |ops|
  {
    if ops == [] {
      assert [op][1..] == [] && ops + [op] == [op];
      assert Run(q, [op]) == Run(Step(q, op), []);
    } else {
      assert (ops + [op])[1..] == ops[1..] + [op];
      RunSnoc(Step(q, ops[0]), ops[1..], op);
    }
  }

  lemma {:induction false} SpentSnoc(ops: seq<Op>, op: Op, since: int)
    ensures SpentSince(ops + [op], since) == SpentSince(ops, since) + if op.now >= since then Counted(op) else 0
    decreases |ops|
  {
    if ops == [] {
      assert ops + [op] == [op] && [op][1..] == [];
      assert SpentSince([], since) == 0;
    } else {
      assert (ops + [op])[1..] == ops[1..] + [op];
      SpentSnoc(ops[1..], op, since);
    }
  }

  /** Inside a window, under a fixed limit and without a fresh observation the budget never grows;
      once the window has elapsed it is the whole limit again. */
  lemma {:induction false} BudgetShrinks(q: Row, ops: seq<Op>, from: int, now: int)
    requires q.limit > 0 && q.start.Some? && q.start.value <= from <= now && Observed(q, from).None?
    requires Ordered(from, ops) && forall i | 0 <= i < |ops| :: (ops[i].Spend? || ops[i].Query?) && ops[i].now <= now
    ensures var r := Run(q, ops);
            r.limit == q.limit && r.obs == q.obs && Length(r) == Length(q) &&
            (r.start == q.start && now < q.start.value + Length(q) ==>
              BudgetOf(r, now).remaining <= BudgetOf(q, from).remaining) &&
            (r.start.Some? && now >= r.start.value + Length(r) ==> BudgetOf(r, now).remaining == r.limit)
    decreases |ops|
  {
    if ops != [] {
      var t := Step(q, ops[0]);
      assert ops[0].Spend? || ops[0].Query?;
      StartGrows(t, ops[1..], ops[0].now);
      BudgetShrinks(t, ops[1..], ops[0].now, now);
    }
  }
}
