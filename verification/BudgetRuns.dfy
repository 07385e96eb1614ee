/** What a budget keeps over any run of charges, reconciles, grants, limit changes and day changes. */
module BudgetRuns {
  import opened Basics
  import opened Budget

  // ---- The thresholds crossed ----

  /** Since thresholds rise, the reached ones are the first of them. */
  predicate IsPrefix(crossed: seq<nat>) {
    crossed <= THRESHOLDS
  }

  predicate Inv(e: Option<Entry>) {
    e.Some? ==> IsPrefix(e.value.crossed)
  }

  lemma ReachedThree(r: Option<real>)
    ensures Reached(r, THRESHOLDS) ==
      if Reaches(r, 100) then [50, 80, 100] else if Reaches(r, 80) then [50, 80] else if Reaches(r, 50) then [50]
      else []
  {
    var last: seq<nat> := [100];
    assert THRESHOLDS[1..] == [80, 100] && THRESHOLDS[1..][1..] == last && last[1..] == [];
    assert Reached(r, last) == if Reaches(r, 100) then last else [];
    assert Reached(r, THRESHOLDS[1..]) == (if Reaches(r, 80) then [80] else []) + Reached(r, last);
  }

  /** A threshold is among the crossed ones exactly when the ratio reaches it. */
  lemma ReachedIsPrefix(r: Option<real>)
    ensures IsPrefix(Reached(r, THRESHOLDS))
    ensures forall t | t in THRESHOLDS :: t in Reached(r, THRESHOLDS) <==> Reaches(r, t)
  {
    ReachedThree(r);
  }

  lemma DoKeepsInv(e: Option<Entry>, c: Category, op: Op)
    requires Inv(e)
    ensures Inv(Do(e, c, op))
  {
    match op
    case Charge(amount, env) => ReachedIsPrefix(Ratio(Add(Open(e, c, env), c, amount), c, env));
    case Reconcile(env) => ReachedIsPrefix(Ratio(Open(e, c, env), c, env));
    case Status(_) =>
    case RecordGrant(_, _) =>
  }

  /** Over any run, the crossed thresholds are the first none, one, two or three. */
  lemma {:induction false} CrossedIsAlwaysAPrefix(e: Option<Entry>, c: Category, ops: seq<Op>)
    requires Inv(e)
    ensures Inv(Run(e, c, ops))
    decreases |ops|
  {
    if ops != [] {
      DoKeepsInv(e, c, ops[0]);
      CrossedIsAlwaysAPrefix(Do(e, c, ops[0]), c, ops[1..]);
    }
  }

  // ---- Reports and withdrawals ----

  function Held(e: Option<Entry>, t: nat): nat {
    if e.Some? && t in e.value.crossed then 1 else 0
  }

  /** A new day, or a ratio that fell back, takes a reported threshold away. */
  function Withdrawn(e: Option<Entry>, c: Category, op: Op, t: nat): nat {
    if op.Status? || Held(e, t) == 0 then 0
    else if t !in Open(e, c, op.env).crossed then 1
    else 1 - Held(Do(e, c, op), t)
  }

  function Reports(e: Option<Entry>, c: Category, ops: seq<Op>, t: nat): nat
    decreases ops
  {
    if ops == [] then 0
    else (if t in Reported(e, c, ops[0]) then 1 else 0) + Reports(Do(e, c, ops[0]), c, ops[1..], t)
  }

  function Withdrawals(e: Option<Entry>, c: Category, ops: seq<Op>, t: nat): nat
    decreases ops
  {
    if ops == [] then 0
    else Withdrawn(e, c, ops[0], t) + Withdrawals(Do(e, c, ops[0]), c, ops[1..], t)
  }

  lemma {:induction false} NotInMembers(xs: seq<nat>, ys: seq<nat>)
    ensures forall x :: x in NotIn(xs, ys) <==> x in xs && x !in ys
    decreases |xs|
  {
    if xs != [] {
      NotInMembers(xs[1..], ys);
      assert xs == [xs[0]] + xs[1..];
    }
  }

  lemma OneOpBalances(e: Option<Entry>, c: Category, op: Op, t: nat)
    ensures Held(e, t) + (if t in Reported(e, c, op) then 1 else 0) == Held(Do(e, c, op), t) + Withdrawn(e, c, op, t)
  {
    if op.Charge? || op.Reconcile? {
      var ready := if op.Charge? then Add(Open(e, c, op.env), c, op.amount) else Open(e, c, op.env);
      NotInMembers(Reached(Ratio(ready, c, op.env), THRESHOLDS), ready.crossed);
    }
  }

  /** Reports less withdrawals of a threshold are whether it stands crossed now, over any run. */
  lemma {:induction false} ReportsBalance(e: Option<Entry>, c: Category, ops: seq<Op>, t: nat)
    ensures Held(e, t) + Reports(e, c, ops, t) == Held(Run(e, c, ops), t) + Withdrawals(e, c, ops, t)
    decreases |ops|
  {
    if ops != [] {
      OneOpBalances(e, c, ops[0], t);
      ReportsBalance(Do(e, c, ops[0]), c, ops[1..], t);
    }
  }

  // ---- Rounding ----

  lemma DivisionRises(x: real, y: real, d: real)
    requires x <= y && d > 0.0
    ensures x / d <= y / d
  {
    assert (y - x) / d >= 0.0;
    assert x / d == y / d - (y - x) / d;
  }

  lemma FloorBounds(x: real)
    ensures x.Floor as real <= x < x.Floor as real + 1.0
  {
  }

  lemma IntOrder(m: int, n: int)
    requires m as real < n as real + 1.0
    ensures m <= n
  {
  }

  lemma FloorOrder(x: real, y: real)
    requires x <= y
    ensures x.Floor as real <= y.Floor as real
  {
    FloorBounds(x);
    FloorBounds(y);
    IntOrder(x.Floor, y.Floor);
  }

  lemma FloorRises(x: real, y: real)
    requires x <= y
    ensures x.Floor as real / SCALE <= y.Floor as real / SCALE
  {
    FloorOrder(x, y);
    DivisionRises(x.Floor as real, y.Floor as real, SCALE);
  }

  lemma RoundRises(x: real, y: real)
    requires x <= y
    ensures Round(x) <= Round(y)
  {
    if x >= 0.0 {
      FloorRises(x * SCALE + 0.5, y * SCALE + 0.5);
    } else if y < 0.0 {
      FloorRises(-y * SCALE + 0.5, -x * SCALE + 0.5);
    } else {
      FloorRises(0.5, -x * SCALE + 0.5);
      FloorRises(0.5, y * SCALE + 0.5);
    }
  }

  /** Within half of 1e-8. */
  lemma RoundIsNear(x: real)
    ensures -0.5 <= (Round(x) - x) * SCALE <= 0.5
  {
  }

  lemma RoundAgain(x: real)
    ensures Round(Round(x)) == Round(x)
  {
    var n := if x >= 0.0 then (x * SCALE + 0.5).Floor else (-x * SCALE + 0.5).Floor;
    assert (n as real / SCALE) * SCALE == n as real;
    assert (n as real + 0.5).Floor == n;
  }

  /** The sum of the charges, as they were asked for. */
  function Total(ops: seq<Op>): real {
    if ops == [] then 0.0
    else (if ops[0].Charge? && ops[0].amount.Some? then ops[0].amount.value else 0.0) + Total(ops[1..])
  }

  function Charges(ops: seq<Op>): nat {
    if ops == [] then 0 else (if ops[0].Charge? then 1 else 0) + Charges(ops[1..])
  }

  /** No operation of the run that stores anything falls on a later day than the entry's. */
  predicate SameDay(e: Entry, c: Category, ops: seq<Op>) {
    PerDay(c) ==> e.day.Some? && (forall op | op in ops :: op.Status? || op.env.today <= e.day.value)
  }

  lemma SameDayStep(e: Entry, c: Category, op: Op)
    requires PerDay(c) ==> e.day.Some? && op.env.today <= e.day.value
    ensures Open(Some(e), c, op.env) == e
    ensures Do(Some(e), c, op).Some? && Do(Some(e), c, op).value.day == e.day
    ensures Do(Some(e), c, op).value.spent == (if op.Charge? then Add(e, c, op.amount).spent else e.spent)
  {
  }

  /**
   * A clock that goes back never starts a day over: what was spent stays spent, to within n roundings after n
   * charges.
   */
  lemma {:induction false} SpentIsTheSum(e: Entry, c: Category, ops: seq<Op>)
    requires !c.Deadline? && SameDay(e, c, ops)
    ensures Run(Some(e), c, ops).Some?
    ensures var error := Run(Some(e), c, ops).value.spent - (e.spent + Total(ops));
      -0.5 * Charges(ops) as real <= error * SCALE <= 0.5 * Charges(ops) as real
    decreases |ops|
  {
    if ops != [] {
      assert ops[0] in ops && (forall op | op in ops[1..] :: op in ops);
      if !ops[0].Status? {
        SameDayStep(e, c, ops[0]);
      }
      var next := Do(Some(e), c, ops[0]).value;
      SpentIsTheSum(next, c, ops[1..]);
      if ops[0].Charge? && ops[0].amount.Some? {
        RoundIsNear(e.spent + ops[0].amount.value);
      }
    }
  }

  // ---- One period: the same limit, one day, no refunds ----

  /** The limits stay, charges are not negative, no later day comes and the clock does not run back. */
  predicate Steady(ops: seq<Op>, base: Env)
    decreases ops
  {
    ops == [] ||
    (var env := ops[0].env;
     && env.limits == base.limits && env.end == base.end && env.createdAt == base.createdAt
     && env.today <= base.today && base.now <= env.now
     && (ops[0].Charge? && ops[0].amount.Some? ==> ops[0].amount.value >= 0.0)
     && Steady(ops[1..], base.(now := env.now)))
  }

  /** The entry is of this day and every crossed threshold is reached still. */
  predicate Settled(e: Entry, c: Category, base: Env) {
    && Round(e.spent) == e.spent && (PerDay(c) ==> e.day.Some? && base.today <= e.day.value)
    && (forall t | t in e.crossed :: t in THRESHOLDS && Reaches(Ratio(e, c, base), t))
  }

  lemma RatioRises(e: Entry, f: Entry, c: Category, base: Env, now: int, t: nat)
    requires e.spent <= f.spent && base.now <= now && Reaches(Ratio(e, c, base), t)
    ensures Reaches(Ratio(f, c, base.(now := now)), t)
  {
    var later := base.(now := now);
    if c.Deadline? {
      if base.createdAt.Some? && base.end.value > base.createdAt.value {
        DivisionRises((base.now - base.createdAt.value) as real, (now - base.createdAt.value) as real,
                      (base.end.value - base.createdAt.value) as real);
      }
    } else {
      assert LimitFor(c, later) == LimitFor(c, base);
      DivisionRises(e.spent, f.spent, LimitFor(c, base).value);
    }
  }

  lemma AddRises(e: Entry, c: Category, amount: Option<real>)
    requires Round(e.spent) == e.spent && (amount.Some? ==> amount.value >= 0.0)
    ensures Add(e, c, amount).spent >= e.spent && Round(Add(e, c, amount).spent) == Add(e, c, amount).spent
    ensures Add(e, c, amount).crossed == e.crossed && Add(e, c, amount).day == e.day
  {
    if amount.Some? {
      RoundRises(e.spent, e.spent + amount.value);
      RoundAgain(e.spent + amount.value);
    }
  }

  /** Settling again loses no threshold that is still reached. */
  lemma SettleKeeps(e: Entry, ready: Entry, c: Category, env: Env, later: Env)
    requires env.limits == later.limits && env.end == later.end && env.createdAt == later.createdAt
    requires env.now == later.now
    requires forall t | t in e.crossed :: t in THRESHOLDS && Reaches(Ratio(ready, c, later), t)
    ensures var next := Settle(ready, c, env).0;
      && (forall t | t in e.crossed :: t in next.crossed)
      && (forall t | t in next.crossed :: t in THRESHOLDS && Reaches(Ratio(next, c, later), t))
  {
    var r := Ratio(ready, c, later);
    assert Ratio(ready, c, env) == r;
    ReachedIsPrefix(r);
    ReachedThree(r);
    assert Ratio(Settle(ready, c, env).0, c, later) == r;
  }

  lemma SteadyStep(e: Entry, c: Category, op: Op, base: Env)
    requires Settled(e, c, base) && Steady([op], base)
    ensures var next := Do(Some(e), c, op);
      next.Some? && Settled(next.value, c, base.(now := op.env.now)) && (forall t | t in e.crossed ::
            t in next.value.crossed)
  {
    var later := base.(now := op.env.now);
    var ready := if op.Charge? then Add(e, c, op.amount) else e;
    SameDayStep(e, c, op);
    AddRises(e, c, if op.Charge? then op.amount else None);
    forall t | t in e.crossed ensures t in THRESHOLDS && Reaches(Ratio(ready, c, later), t) {
      RatioRises(e, ready, c, base, op.env.now, t);
    }
    if op.Charge? || op.Reconcile? {
      SettleKeeps(e, ready, c, op.env, later);
    } else {
      GrantKeepsRatio(e, c, op, later);
    }
  }

  lemma GrantKeepsRatio(e: Entry, c: Category, op: Op, later: Env)
    requires op.Status? || op.RecordGrant?
    requires Open(Some(e), c, op.env) == e
    ensures var next :=
      Do(Some(e), c, op).value; next.crossed == e.crossed && Ratio(next, c, later) == Ratio(e, c, later)
  {
  }

  /** In one period a threshold is reported exactly once if it comes to be crossed, and never again. */
  lemma {:induction false} ReportedOncePerPeriod(e: Entry, c: Category, ops: seq<Op>, base: Env, t: nat)
    requires Settled(e, c, base) && Steady(ops, base)
    ensures Withdrawals(Some(e), c, ops, t) == 0
    ensures Reports(Some(e), c, ops, t) == (if t !in e.crossed && Held(Run(Some(e), c, ops), t) == 1 then 1 else 0)
    decreases |ops|
  {
    ReportsBalance(Some(e), c, ops, t);
    if ops != [] {
      var rest: seq<Op> := [];
      assert [ops[0]][1..] == rest && Steady(rest, base.(now := ops[0].env.now));
      SteadyStep(e, c, ops[0], base);
      SameDayStep(e, c, ops[0]);
      ReportedOncePerPeriod(Do(Some(e), c, ops[0]).value, c, ops[1..], base.(now := ops[0].env.now), t);
    }
  }
}
