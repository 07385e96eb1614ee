/** The budget object over the entries of budget.json; each operation is proved to take the step of Budget.Do. */
module BudgetFiles {
  import opened Basics
  import opened Budget

  datatype Shown = Shown(entry: Entry, ratio: Option<real>)

  function Lookup(data: map<Category, Entry>, c: Category): Option<Entry> {
    if c in data then Some(data[c]) else None
  }

  lemma EveryCategoryIsListed(c: Category)
    ensures c in CATEGORIES
  {
    match c
    case Usd => assert CATEGORIES[0] == c;
    case Deadline => assert CATEGORIES[1] == c;
    case TurnsPerDay => assert CATEGORIES[2] == c;
    case ContactsPerDay => assert CATEGORIES[3] == c;
    case QuestionsPerDay => assert CATEGORIES[4] == c;
  }

  class BudgetFile {
    var data: map<Category, Entry>

    constructor (data: map<Category, Entry>)
      ensures this.data == data
    {
      this.data := data;
    }

    method OpenEntry(c: Category, env: Env) returns (e: Entry)
      ensures e == Open(Lookup(data, c), c, env)
    {
      e := if c in data then data[c] else FRESH;
      if PerDay(c) && (e.day.None? || env.today > e.day.value) {
        e := e.(day := Some(env.today), spent := 0.0, crossed := []);
      }
    }

    method FilterReached(r: Option<real>, thresholds: seq<nat>) returns (reached: seq<nat>)
      ensures reached == Reached(r, thresholds)
    {
      reached := [];
      var i := 0;
      while i < |thresholds|
        invariant 0 <= i <= |thresholds|
        invariant Reached(r, thresholds) == reached + Reached(r, thresholds[i..])
      {
        assert thresholds[i..][1..] == thresholds[i + 1..];
        if Reaches(r, thresholds[i]) {
          reached := reached + [thresholds[i]];
        }
        i := i + 1;
      }
    }

    method SettleEntry(e: Entry, c: Category, env: Env) returns (settled: Entry, crossedNow: seq<nat>)
      ensures (settled, crossedNow) == Settle(e, c, env)
    {
      var reached := FilterReached(Ratio(e, c, env), THRESHOLDS);
      settled, crossedNow := e.(crossed := reached), NotIn(reached, e.crossed);
    }

    method Charge(c: Category, amount: Option<real>, env: Env) returns (crossedNow: seq<nat>)
      modifies this
      ensures crossedNow == Reported(Lookup(old(data), c), c, Op.Charge(amount, env))
      ensures c in data && data == old(data)[c := data[c]]
      ensures Lookup(data, c) == Do(Lookup(old(data), c), c, Op.Charge(amount, env))
    {
      var e := OpenEntry(c, env);
      if !c.Deadline? && amount.Some? && amount.value != 0.0 {
        e := e.(spent := Round(e.spent + amount.value));
      }
      e, crossedNow := SettleEntry(e, c, env);
      data := data[c := e];
    }

    /** Every category is settled, and the ones with something to report are returned. */
    method Reconcile(env: Env) returns (out: map<Category, seq<nat>>)
      modifies this
      ensures forall c :: Lookup(data, c) == Do(Lookup(old(data), c), c, Op.Reconcile(env))
      ensures forall c :: c in out <==> Reported(Lookup(old(data), c), c, Op.Reconcile(env)) != []
      ensures forall c | c in out :: out[c] == Reported(Lookup(old(data), c), c, Op.Reconcile(env))
    {
      out := map[];
      var i := 0;
      while i < |CATEGORIES|
        invariant 0 <= i <= |CATEGORIES|
        invariant forall c ::
              Lookup(data, c) ==
              if c in CATEGORIES[..i] then Do(Lookup(old(data), c), c, Op.Reconcile(env)) else Lookup(old(data), c)
        invariant forall c :: c in out <==>
              c in CATEGORIES[..i] && Reported(Lookup(old(data), c), c, Op.Reconcile(env)) != []
        invariant forall c | c in out :: out[c] == Reported(Lookup(old(data), c), c, Op.Reconcile(env))
      {
        var c := CATEGORIES[i];
        ListedOnce(i);
        var e := OpenEntry(c, env);
        var settled, crossedNow := SettleEntry(e, c, env);
        data := data[c := settled];
        if crossedNow != [] {
          out := out[c := crossedNow];
        }
        i := i + 1;
      }
      forall c ensures c in CATEGORIES[..i] {
        EveryCategoryIsListed(c);
        assert CATEGORIES[..i] == CATEGORIES;
      }
    }

    /** A reading keeps nothing, so what it computes is still there to be reported. */
    method Status(c: Category, env: Env) returns (shown: Shown)
      ensures var e := Open(Lookup(data, c), c, env); shown == Shown(Settle(e, c, env).0, Ratio(e, c, env))
    {
      var e := OpenEntry(c, env);
      var settled, _ := SettleEntry(e, c, env);
      shown := Shown(settled, Ratio(settled, c, env));
    }

    method RecordGrant(c: Category, fact: nat, env: Env)
      modifies this
      ensures c in data && data == old(data)[c := data[c]]
      ensures Lookup(data, c) == Do(Lookup(old(data), c), c, Op.RecordGrant(fact, env))
    {
      var e := OpenEntry(c, env);
      if fact !in e.grantedBy {
        e := e.(grantedBy := e.grantedBy + [fact]);
      }
      data := data[c := e];
    }
  }

  lemma ListedOnce(i: nat)
    requires i < |CATEGORIES|
    ensures CATEGORIES[i] !in CATEGORIES[..i]
    ensures forall c :: c in CATEGORIES[..i + 1] <==> c == CATEGORIES[i] || c in CATEGORIES[..i]
  {
    assert CATEGORIES[..i + 1] == CATEGORIES[..i] + [CATEGORIES[i]];
  }
}
