/**
 * A case's budgets (src/cases/budget.js). Amounts are real numbers; the rounding to eight decimals is the source's
 * own.
 */
module Budget {
  import opened Basics

  datatype Category = Usd | Deadline | TurnsPerDay | ContactsPerDay | QuestionsPerDay

  /** crossed: the thresholds reported and still reached. day: the local day that the counts are for. */
  datatype Entry = Entry(spent: real, crossed: seq<nat>, day: Option<int>, grantedBy: seq<nat>)

  /** What the settings and the clock say at a call. end: the instant the deadline's day is over. */
  datatype Env = Env(limits: map<Category, real>, end: Option<int>, createdAt: Option<int>, now: int, today: int)

  const CATEGORIES := [Usd, Deadline, TurnsPerDay, ContactsPerDay, QuestionsPerDay]
  const THRESHOLDS: seq<nat> := [50, 80, 100]
  const SCALE := 100000000.0
  const EPSILON := 0.000000001
  const FRESH := Entry(0.0, [], None, [])

  predicate PerDay(c: Category) {
    c.TurnsPerDay? || c.ContactsPerDay? || c.QuestionsPerDay?
  }

  /** toFixed(8): to the nearest multiple of 1e-8, halves away from zero. */
  function Round(x: real): real {
    if x >= 0.0 then (x * SCALE + 0.5).Floor as real / SCALE else -((-x * SCALE + 0.5).Floor as real / SCALE)
  }

  /** A limit counts when it is positive. */
  function LimitFor(c: Category, env: Env): Option<real> {
    if c in env.limits && env.limits[c] > 0.0 then Some(env.limits[c]) else None
  }

  /** The entry a call works on: a new one if there is none, and for a daily count a new day starts at zero. */
  function Open(e: Option<Entry>, c: Category, env: Env): Entry {
    var entry := if e.Some? then e.value else FRESH;
    if PerDay(c) && (entry.day.None?
        || env.today > entry.day.value) then entry.(day := Some(env.today), spent := 0.0, crossed := [])
    else entry
  }

  function DeadlineRatio(env: Env): Option<real> {
    if env.end.None? then None
    else if env.createdAt.None? then Some(if env.now >= env.end.value then 1.0 else 0.0)
    else if env.end.value <= env.createdAt.value then Some(1.0)
    else Some((env.now - env.createdAt.value) as real / (env.end.value - env.createdAt.value) as real)
  }

  function Ratio(e: Entry, c: Category, env: Env): Option<real> {
    if c.Deadline? then DeadlineRatio(env)
    else if LimitFor(c, env).None? then None
    else Some(e.spent / LimitFor(c, env).value)
  }

  predicate Reaches(r: Option<real>, t: nat) {
    r.Some? && r.value * 100.0 >= t as real - EPSILON
  }

  function Reached(r: Option<real>, thresholds: seq<nat>): seq<nat> {
    if thresholds == [] then []
    else (if Reaches(r, thresholds[0]) then [thresholds[0]] else []) + Reached(r, thresholds[1..])
  }

  function NotIn(xs: seq<nat>, ys: seq<nat>): seq<nat> {
    if xs == [] then [] else (if xs[0] in ys then [] else [xs[0]]) + NotIn(xs[1..], ys)
  }

  /** The thresholds reached now replace the old ones; the new ones among them are to be reported. */
  function Settle(e: Entry, c: Category, env: Env): (Entry, seq<nat>) {
    var reached := Reached(Ratio(e, c, env), THRESHOLDS);
    (e.(crossed := reached), NotIn(reached, e.crossed))
  }

  // ---- What an operation does to one category's entry ----

  /** amount: None when it is no finite number. */
  datatype Op = Charge(amount: Option<real>, env: Env) | Reconcile(env: Env) | Status(env: Env)
    | RecordGrant(fact: nat, env: Env)

  function Add(e: Entry, c: Category, amount: Option<real>): Entry {
    if !c.Deadline? && amount.Some? && amount.value != 0.0 then e.(spent := Round(e.spent + amount.value)) else e
  }

  function Grant(e: Entry, fact: nat): Entry {
    if fact in e.grantedBy then e else e.(grantedBy := e.grantedBy + [fact])
  }

  /** What is stored after the operation. A status is computed and not kept. */
  function Do(e: Option<Entry>, c: Category, op: Op): Option<Entry> {
    match op
    case Charge(amount, env) => Some(Settle(Add(Open(e, c, env), c, amount), c, env).0)
    case Reconcile(env) => Some(Settle(Open(e, c, env), c, env).0)
    case Status(_) => e
    case RecordGrant(fact, env) => Some(Grant(Open(e, c, env), fact))
  }

  /** The thresholds the operation reports as newly crossed. */
  function Reported(e: Option<Entry>, c: Category, op: Op): seq<nat> {
    match op
    case Charge(amount, env) => Settle(Add(Open(e, c, env), c, amount), c, env).1
    case Reconcile(env) => Settle(Open(e, c, env), c, env).1
    case Status(_) => []
    case RecordGrant(_, _) => []
  }

  function Run(e: Option<Entry>, c: Category, ops: seq<Op>): Option<Entry>
    decreases ops
  {
    if ops == [] then e else Run(Do(e, c, ops[0]), c, ops[1..])
  }
}
