/** What one operation leaves of a budget's entry and reports, and how the counts of a day begin and end. */
module BudgetDays {
  import opened Basics
  import opened Budget
  import opened BudgetRuns

  // ---- Which thresholds are reached ----

  lemma Rises(x: real, y: real, d: real)
    requires x <= y && d >= 0.0
    ensures x * d <= y * d
  {
    assert (y - x) * d >= 0.0;
  }

  lemma RisesStrictly(x: real, y: real, d: real)
    requires x < y && d > 0.0
    ensures x * d < y * d
  {
    assert (y - x) * d > 0.0;
  }

  lemma RatioReaches(x: real, d: real, goal: real)
    requires d > 0.0
    ensures x / d * 100.0 >= goal <==> x * 100.0 >= goal * d
  {
    var q := x / d;
    assert q * d == x;
    assert (q * 100.0) * d == 100.0 * (q * d);
    if q * 100.0 >= goal {
      Rises(goal, q * 100.0, d);
    } else {
      RisesStrictly(q * 100.0, goal, d);
    }
  }

  /** So much of the limit is used; without a limit nothing is ever reached. */
  predicate UsedUp(spent: real, c: Category, env: Env, t: nat) {
    c in env.limits && env.limits[c] > 0.0 && spent * 100.0 >= (t as real - EPSILON) * env.limits[c]
  }

  /** So much of the time from the case's creation to the deadline is over; all of it where there is none between. */
  predicate TimeIsUp(env: Env, t: nat) {
    && env.end.Some?
    && if env.createdAt.None? then env.now >= env.end.value
       else
         || env.end.value <= env.createdAt.value
         || (env.now - env.createdAt.value) as real * 100.0
            >= (t as real - EPSILON) * (env.end.value - env.createdAt.value) as real
  }

  predicate IsReached(e: Entry, c: Category, env: Env, t: nat) {
    if c.Deadline? then TimeIsUp(env, t) else UsedUp(e.spent, c, env, t)
  }

  lemma ReachesExactlyWhen(e: Entry, c: Category, env: Env, t: nat)
    requires 0 < t <= 100
    ensures Reaches(Ratio(e, c, env), t) <==> IsReached(e, c, env, t)
  {
    if !c.Deadline? {
      if c in env.limits && env.limits[c] > 0.0 {
        RatioReaches(e.spent, env.limits[c], t as real - EPSILON);
      }
    } else if env.end.Some? && env.createdAt.Some? && env.end.value > env.createdAt.value {
      RatioReaches((env.now - env.createdAt.value) as real, (env.end.value - env.createdAt.value) as real,
                   t as real - EPSILON);
    }
  }

  // ---- One charge or reconcile ----

  /** A new entry, or a daily count whose stored day is over. */
  predicate Begins(e: Option<Entry>, c: Category, env: Env) {
    e.None? || (PerDay(c) && (e.value.day.None? || e.value.day.value < env.today))
  }

  /** What is spent after a charge: the amount counts, rounded, unless it is no number or the deadline's. */
  function SpentAfter(spent: real, c: Category, op: Op): real {
    if op.Charge? && op.amount.Some? && !c.Deadline? && op.amount.value != 0.0 then Round(spent + op.amount.value)
    else spent
  }

  predicate Settles(op: Op) {
    op.Charge? || op.Reconcile?
  }

  /** What is settled: the entry as it is opened, with the charge in it. */
  function Ready(e: Option<Entry>, c: Category, op: Op): Entry
    requires Settles(op)
  {
    if op.Charge? then Add(Open(e, c, op.env), c, op.amount) else Open(e, c, op.env)
  }

  lemma ReadyIs(e: Option<Entry>, c: Category, op: Op)
    requires Settles(op)
    ensures var ready, begins := Ready(e, c, op), Begins(e, c, op.env);
            && ready.spent == SpentAfter(if begins then 0.0 else e.value.spent, c, op)
            && ready.day == (if PerDay(c) && begins then Some(op.env.today) else if e.Some? then e.value.day else None)
            && ready.grantedBy == (if e.Some? then e.value.grantedBy else [])
            && ready.crossed == (if begins then [] else e.value.crossed)
  {
  }

  lemma SettledIs(e: Option<Entry>, c: Category, op: Op)
    requires Settles(op)
    ensures var ready := Ready(e, c, op);
            var reached := Reached(Ratio(ready, c, op.env), THRESHOLDS);
            Do(e, c, op) == Some(ready.(crossed := reached)) && Reported(e, c, op) == NotIn(reached, ready.crossed)
  {
  }

  lemma IsThreshold(t: nat)
    requires t in THRESHOLDS
    ensures 0 < t <= 100
  {
    assert THRESHOLDS[0] == 50 && THRESHOLDS[1] == 80 && THRESHOLDS[2] == 100;
  }

  lemma SameRatio(a: Entry, b: Entry, c: Category, env: Env, t: nat)
    requires a.spent == b.spent
    ensures IsReached(a, c, env, t) == IsReached(b, c, env, t)
  {
  }

  /**
   * A charge or a reconcile: the count goes on from what was spent, or from nothing where a day begins; exactly the
   * thresholds that are reached now stand crossed; and of these exactly those are reported that did not, all of them
   * where a day begins.
   */
  lemma SettlingSays(e: Option<Entry>, c: Category, op: Op, t: nat)
    requires Settles(op) && t in THRESHOLDS
    ensures Do(e, c, op).Some?
    ensures var next, begins := Do(e, c, op).value, Begins(e, c, op.env);
            && next.spent == SpentAfter(if begins then 0.0 else e.value.spent, c, op)
            && next.day == (if PerDay(c) && begins then Some(op.env.today) else if e.Some? then e.value.day else None)
            && next.grantedBy == (if e.Some? then e.value.grantedBy else [])
            && (t in next.crossed <==> IsReached(next, c, op.env, t))
            && (t in Reported(e, c, op) <==> IsReached(next, c, op.env, t) && (begins || t !in e.value.crossed))
  {
    var ready := Ready(e, c, op);
    ReadyIs(e, c, op);
    SettledIs(e, c, op);
    ReachedIsPrefix(Ratio(ready, c, op.env));
    NotInMembers(Reached(Ratio(ready, c, op.env), THRESHOLDS), ready.crossed);
    IsThreshold(t);
    ReachesExactlyWhen(ready, c, op.env, t);
    SameRatio(ready, Do(e, c, op).value, c, op.env, t);
  }

  /** Nothing but the three thresholds is ever reported. */
  lemma ReportsThresholds(e: Option<Entry>, c: Category, op: Op)
    ensures forall t | t in Reported(e, c, op) :: t in THRESHOLDS
  {
    if Settles(op) {
      var ready := Ready(e, c, op);
      ReachedThree(Ratio(ready, c, op.env));
      NotInMembers(Reached(Ratio(ready, c, op.env), THRESHOLDS), ready.crossed);
    }
  }

  lemma FloorIs(x: real, n: int)
    requires n as real <= x < n as real + 1.0
    ensures x.Floor == n
  {
  }

  /** An amount is rounded to the nearest multiple of 1e-8, a half away from zero. */
  lemma RoundsToNearest(x: real, n: int)
    requires x >= 0.0 ==> n as real - 0.5 <= x * SCALE < n as real + 0.5
    requires x < 0.0 ==> n as real - 0.5 < x * SCALE <= n as real + 0.5
    ensures Round(x) == n as real / SCALE
  {
    if x >= 0.0 {
      FloorIs(x * SCALE + 0.5, n);
    } else {
      FloorIs(-x * SCALE + 0.5, -n);
    }
  }

  lemma RoundOfNothing()
    ensures Round(0.0) == 0.0
  {
    assert (0.5).Floor == 0;
  }

  /**
   * A later day starts the count over: its charge alone is spent, rounded, and each threshold that it reaches is
   * reported, whatever was reported before.
   */
  lemma LaterDayStartsOver(e: Entry, c: Category, op: Op, t: nat)
    requires Settles(op) && PerDay(c) && e.day.Some? && op.env.today > e.day.value && t in THRESHOLDS
    ensures Do(Some(e), c, op).Some?
    ensures var next := Do(Some(e), c, op).value;
            && next.day == Some(op.env.today)
            && next.spent == (if op.Charge? && op.amount.Some? then Round(op.amount.value) else 0.0)
            && (t in Reported(Some(e), c, op) <==> UsedUp(next.spent, c, op.env, t))
            && (t in next.crossed <==> UsedUp(next.spent, c, op.env, t))
  {
    SettlingSays(Some(e), c, op, t);
    RoundOfNothing();
  }

  /** A grant is remembered once, with the day begun if it is a later one; no threshold is reported for it. */
  lemma GrantSays(e: Option<Entry>, c: Category, fact: nat, env: Env)
    ensures var op := RecordGrant(fact, env);
            var begins := Begins(e, c, env);
            var had := if e.Some? then e.value.grantedBy else [];
            && Do(e, c, op).Some? && Reported(e, c, op) == []
            && Do(e, c, op).value.grantedBy == (if fact in had then had else had + [fact])
            && (begins ==> Do(e, c, op).value.spent == 0.0 && Do(e, c, op).value.crossed == [])
            && (!begins ==> Do(e, c, op).value == e.value.(grantedBy := Do(e, c, op).value.grantedBy))
            && (PerDay(c) && begins ==> Do(e, c, op).value.day == Some(env.today))
  {
  }

  // ---- Runs over many days ----

  predicate EarlierDay(day: Option<int>, today: int) {
    day.Some? ==> day.value < today
  }

  /** Operation k is the first of the latest day of a run that begins on this stored day; readings store nothing. */
  predicate FirstOfLatestDay(day: Option<int>, ops: seq<Op>, k: nat) {
    && k < |ops| && !ops[k].Status? && EarlierDay(day, ops[k].env.today)
    && (forall i {:trigger ops[i]} | 0 <= i < k :: ops[i].Status? || ops[i].env.today < ops[k].env.today)
    && (forall i {:trigger ops[i]} | k < i < |ops| :: ops[i].Status? || ops[i].env.today <= ops[k].env.today)
  }

  /** No operation of the run that stores anything falls on a later day. */
  predicate NoLaterDay(day: Option<int>, ops: seq<Op>) {
    forall i {:trigger ops[i]} | 0 <= i < |ops| :: ops[i].Status? || (day.Some? && ops[i].env.today <= day.value)
  }

  /** Every run has a first operation of its latest day, unless none falls on a later day than the stored one. */
  lemma {:induction false} LatestDayBegins(day: Option<int>, ops: seq<Op>) returns (k: nat)
    ensures FirstOfLatestDay(day, ops, k) || NoLaterDay(day, ops)
    decreases |ops|
  {
    k := 0;
    if ops != [] {
      var begins := !ops[0].Status? && EarlierDay(day, ops[0].env.today);
      var rest := LatestDayBegins(if begins then Some(ops[0].env.today) else day, ops[1..]);
      assert forall i | 0 < i < |ops| :: ops[i] == ops[1..][i - 1];
      if FirstOfLatestDay(if begins then Some(ops[0].env.today) else day, ops[1..], rest) {
        k := rest + 1;
      }
    }
  }

  function DayOf(e: Option<Entry>): Option<int> {
    if e.Some? then e.value.day else None
  }

  lemma DayMoves(e: Option<Entry>, c: Category, op: Op)
    requires PerDay(c)
    ensures op.Status? ==> Do(e, c, op) == e
    ensures !op.Status? ==> DayOf(Do(e, c, op)) == if EarlierDay(DayOf(e), op.env.today) then Some(op.env.today)
                                                   else DayOf(e)
  {
  }

  lemma FirstOfDay(e: Option<Entry>, c: Category, op: Op)
    requires PerDay(c) && !op.Status? && EarlierDay(DayOf(e), op.env.today)
    ensures Do(e, c, op).Some? && Do(e, c, op).value.day == Some(op.env.today)
    ensures var error := Do(e, c, op).value.spent - (if op.Charge? && op.amount.Some? then op.amount.value else 0.0);
            if op.Charge? then -0.5 <= error * SCALE <= 0.5 else error == 0.0
  {
    if op.Charge? && op.amount.Some? {
      RoundIsNear(op.amount.value);
    }
  }

  /**
   * Over a run that spans days, what is spent of a daily limit is what was charged since the first operation of the
   * latest day, to within n roundings after n charges: nothing of an earlier day is left in it.
   */
  lemma {:induction false} SpentOfTheDay(e: Option<Entry>, c: Category, ops: seq<Op>, k: nat)
    requires PerDay(c) && FirstOfLatestDay(DayOf(e), ops, k)
    ensures Run(e, c, ops).Some? && Run(e, c, ops).value.day == Some(ops[k].env.today)
    ensures var error := Run(e, c, ops).value.spent - Total(ops[k..]);
            -0.5 * Charges(ops[k..]) as real <= error * SCALE <= 0.5 * Charges(ops[k..]) as real
    decreases k
  {
    var next := Do(e, c, ops[0]);
    DayMoves(e, c, ops[0]);
    if k == 0 {
      assert ops[k..] == ops;
      FirstOfDay(e, c, ops[0]);
      assert SameDay(next.value, c, ops[1..]);
      SpentIsTheSum(next.value, c, ops[1..]);
      DayStays(next.value, c, ops[1..]);
    } else {
      assert forall i | 0 < i < |ops| :: ops[i] == ops[1..][i - 1];
      assert ops[k..] == ops[1..][k - 1..];
      SpentOfTheDay(next, c, ops[1..], k - 1);
    }
  }

  lemma {:induction false} DayStays(e: Entry, c: Category, ops: seq<Op>)
    requires PerDay(c) && SameDay(e, c, ops)
    ensures Run(Some(e), c, ops).Some? && Run(Some(e), c, ops).value.day == e.day
    decreases |ops|
  {
    if ops != [] {
      DayMoves(Some(e), c, ops[0]);
      assert ops[0] in ops && (forall op | op in ops[1..] :: op in ops);
      DayStays(Do(Some(e), c, ops[0]).value, c, ops[1..]);
    }
  }
}
