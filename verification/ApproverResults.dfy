/** The result lines of a batch and what becomes of its files. */
module ApproverResults {
  import opened ApproverAdmin
  import opened ApproverBatch
  import opened ApproverRuns

  function RevokeResults(before: Records, items: seq<Item>, records: Records, todo: seq<Item>, env: Env): seq<Result>
    decreases todo
  {
    if todo == [] then [] else
      var (next, verdict) := RevokeOne(before, items, records, todo[0], env);
      [Result(todo[0].file, verdict)] + RevokeResults(before, items, next, todo[1..], env)
  }

  function EnrollResults(before: Records, targets: set<int>, records: Records, todo: seq<Item>, env: Env): seq<Result>
    decreases todo
  {
    if todo == [] then [] else
      var (next, verdict) := EnrollOne(before, targets, records, todo[0], env);
      [Result(todo[0].file, verdict)] + EnrollResults(before, targets, next, todo[1..], env)
  }

  function StateResults(before: Records, targets: set<int>, records: Records, todo: seq<Item>, env: Env): seq<Result>
    decreases todo
  {
    if todo == [] then [] else
      var (next, verdict) := StateOne(before, targets, records, todo[0], env);
      [Result(todo[0].file, verdict)] + StateResults(before, targets, next, todo[1..], env)
  }

  function UnsafeResults(todo: seq<Item>): seq<Result> {
    if todo == [] then [] else [Result(todo[0].file, NotSafe)] + UnsafeResults(todo[1..])
  }

  function Results(before: Records, items: seq<Item>, env: Env): seq<Result> {
    var targets := RevokedTargets(before, items, env);
    var revoked := RevokeAll(before, items, before, Of(items, Revoke), env);
    RevokeResults(before, items, before, Of(items, Revoke), env)
    + EnrollResults(before, targets, revoked, Rest(items), env)
    + StateResults(before, targets, EnrollAll(before, targets, revoked, Rest(items), env), Statements(items), env)
    + UnsafeResults(Of(items, Unsafe))
  }

  // ---- Every file gets one result ----

  /** What each one is about, in order. */
  function Names<T>(all: seq<T>, file: T -> nat): (files: seq<nat>)
    ensures |files| == |all|
  {
    if all == [] then [] else [file(all[0])] + Names(all[1..], file)
  }

  function FilesOf(items: seq<Item>): seq<nat> {
    Names(items, (item: Item) => item.file)
  }

  function FilesIn(results: seq<Result>): seq<nat> {
    Names(results, (r: Result) => r.file)
  }

  lemma {:induction false} FilesInAdds(a: seq<Result>, b: seq<Result>)
    ensures FilesIn(a + b) == FilesIn(a) + FilesIn(b)
    decreases |a|
  {
    if a == [] {
      assert a + b == b;
    } else {
      assert (a + b)[1..] == a[1..] + b;
      FilesInAdds(a[1..], b);
    }
  }

  lemma {:induction false} RevokeFiles(before: Records, items: seq<Item>, records: Records, todo: seq<Item>, env: Env)
    ensures FilesIn(RevokeResults(before, items, records, todo, env)) == FilesOf(todo)
    decreases |todo|
  {
    if todo != [] {
      RevokeFiles(before, items, RevokeOne(before, items, records, todo[0], env).0, todo[1..], env);
    }
  }

  lemma {:induction false} EnrollFiles(before: Records, targets: set<int>, records: Records, todo: seq<Item>, env: Env)
    ensures FilesIn(EnrollResults(before, targets, records, todo, env)) == FilesOf(todo)
    decreases |todo|
  {
    if todo != [] {
      EnrollFiles(before, targets, EnrollOne(before, targets, records, todo[0], env).0, todo[1..], env);
    }
  }

  lemma {:induction false} StateFiles(before: Records, targets: set<int>, records: Records, todo: seq<Item>, env: Env)
    ensures FilesIn(StateResults(before, targets, records, todo, env)) == FilesOf(todo)
    decreases |todo|
  {
    if todo != [] {
      StateFiles(before, targets, StateOne(before, targets, records, todo[0], env).0, todo[1..], env);
    }
  }

  lemma {:induction false} UnsafeFiles(todo: seq<Item>)
    ensures FilesIn(UnsafeResults(todo)) == FilesOf(todo)
    decreases |todo|
  {
    if todo != [] {
      UnsafeFiles(todo[1..]);
    }
  }

  /** Files, counted. */
  function Counted(items: seq<Item>): multiset<nat> {
    multiset(FilesOf(items))
  }

  lemma CountedStep(items: seq<Item>)
    requires items != []
    ensures Counted(items) == multiset{items[0].file} + Counted(items[1..])
  {
  }

  lemma {:induction false} CountedAdds(a: seq<Item>, b: seq<Item>)
    ensures Counted(a + b) == Counted(a) + Counted(b)
    decreases |a|
  {
    if a == [] {
      assert a + b == b;
    } else {
      assert (a + b)[1..] == a[1..] + b;
      CountedStep(a + b);
      CountedStep(a);
      CountedAdds(a[1..], b);
    }
  }

  lemma {:induction false} InsertCounted(item: Item, items: seq<Item>)
    ensures Counted(Insert(item, items)) == multiset{item.file} + Counted(items)
    decreases |items|
  {
    if items == [] || item.createdAt >= items[0].createdAt {
      assert Insert(item, items)[1..] == items;
      CountedStep(Insert(item, items));
    } else {
      assert Insert(item, items)[1..] == Insert(item, items[1..]);
      CountedStep(Insert(item, items));
      InsertCounted(item, items[1..]);
      CountedStep(items);
    }
  }

  lemma {:induction false} NewestFirstCounted(items: seq<Item>)
    ensures Counted(NewestFirst(items)) == Counted(items)
    decreases |items|
  {
    if items != [] {
      NewestFirstCounted(items[1..]);
      InsertCounted(items[0], NewestFirst(items[1..]));
      CountedStep(items);
    }
  }

  lemma OfStep(items: seq<Item>, kind: Kind)
    requires items != []
    ensures Counted(Of(items, kind)) == (if items[0].kind == kind then multiset{items[0].file}
        else multiset{}) + Counted(Of(items[1..], kind))
  {
    if items[0].kind == kind {
      assert Of(items, kind)[1..] == Of(items[1..], kind);
      CountedStep(Of(items, kind));
    } else {
      assert Of(items, kind) == Of(items[1..], kind);
    }
  }

  lemma RestStep(items: seq<Item>)
    requires items != []
    ensures Counted(Rest(items)) == (if InRest(items[0]) then multiset{items[0].file}
        else multiset{}) + Counted(Rest(items[1..]))
  {
    if InRest(items[0]) {
      assert Rest(items)[1..] == Rest(items[1..]);
      CountedStep(Rest(items));
    } else {
      assert Rest(items) == Rest(items[1..]);
    }
  }

  lemma {:induction false} PassesCoverFile(items: seq<Item>, file: nat)
    ensures Counted(items)[file] == Counted(Of(items, Revoke))[file] + Counted(Rest(items))[file]
      + Counted(Of(items, ReadKey))[file] + Counted(Of(items, BoxKey))[file] + Counted(Of(items, Unsafe))[file]
    decreases |items|
  {
    if items != [] {
      PassesCoverFile(items[1..], file);
      CountedStep(items);
      OfStep(items, Revoke);
      OfStep(items, ReadKey);
      OfStep(items, BoxKey);
      OfStep(items, Unsafe);
      RestStep(items);
    }
  }

  /** The result lines name the files pass by pass. */
  lemma ResultFiles(before: Records, items: seq<Item>, env: Env)
    ensures FilesIn(Results(before, items, env)) ==
      FilesOf(Of(items, Revoke)) + FilesOf(Rest(items)) + FilesOf(Statements(items)) + FilesOf(Of(items, Unsafe))
  {
    var targets := RevokedTargets(before, items, env);
    var revoked := RevokeAll(before, items, before, Of(items, Revoke), env);
    var enrolled := EnrollAll(before, targets, revoked, Rest(items), env);
    var a := RevokeResults(before, items, before, Of(items, Revoke), env);
    var b := EnrollResults(before, targets, revoked, Rest(items), env);
    var c := StateResults(before, targets, enrolled, Statements(items), env);
    var d := UnsafeResults(Of(items, Unsafe));
    RevokeFiles(before, items, before, Of(items, Revoke), env);
    EnrollFiles(before, targets, revoked, Rest(items), env);
    StateFiles(before, targets, enrolled, Statements(items), env);
    UnsafeFiles(Of(items, Unsafe));
    FilesInAdds(a, b);
    FilesInAdds(a + b, c);
    FilesInAdds(a + b + c, d);
  }

  lemma StatementsCounted(items: seq<Item>, file: nat)
    ensures Counted(Statements(items))[file] == Counted(Of(items, ReadKey))[file] + Counted(Of(items, BoxKey))[file]
  {
    CountedAdds(NewestFirst(Of(items, ReadKey)), NewestFirst(Of(items, BoxKey)));
    NewestFirstCounted(Of(items, ReadKey));
    NewestFirstCounted(Of(items, BoxKey));
  }

  /** Every staged file gets exactly one result: no pass skips one and no two passes judge the same. */
  lemma OneResultEach(before: Records, items: seq<Item>, env: Env, file: nat)
    ensures multiset(FilesIn(Results(before, items, env)))[file] == multiset(FilesOf(items))[file]
  {
    ResultFiles(before, items, env);
    StatementsCounted(items, file);
    PassesCoverFile(items, file);
  }

  // ---- What a result says ----

  /**
   * "revoked" is said of exactly the valid revokes of devices with a record, "deferred" of the honoured ones without.
   */
  lemma {:induction false} RevokeVerdict(before: Records,
      items: seq<Item>, records: Records, todo: seq<Item>, env: Env, i: nat)
    requires i < |todo| && todo[i].kind.Revoke? && |RevokeResults(before, items, records, todo, env)| == |todo|
    ensures var verdict := RevokeResults(before, items, records, todo, env)[i].verdict;
      && (verdict.Revoked? <==> ValidRevoke(before, todo[i], env) && todo[i].deviceId in before)
      && (verdict.Deferred? <==> Honoured(before, items, todo[i], env) && todo[i].deviceId !in before)
    decreases |todo|
  {
    var next := RevokeOne(before, items, records, todo[0], env).0;
    if i > 0 {
      assert RevokeResults(before, items, records, todo, env)[1..]
          == RevokeResults(before, items, next, todo[1..], env);
      RevokeVerdict(before, items, next, todo[1..], env, i - 1);
    }
  }

  /** "enrolled" is said of the first enrollment of each enrolled device, and of nothing else. */
  lemma {:induction false} EnrollVerdict(before: Records,
      targets: set<int>, records: Records, todo: seq<Item>, env: Env, i: nat)
    requires i < |todo| && (forall item | item in todo :: InRest(item)) && before.Keys <= records.Keys
    requires |EnrollResults(before, targets, records, todo, env)| == |todo|
    ensures EnrollResults(before, targets, records, todo, env)[i].verdict.Enrolled? <==>
      Enrollable(before, targets, todo[i], env) && todo[i].deviceId !in records
      && FirstFor(before, targets, todo[..i], todo[i].deviceId, env).None?
    decreases |todo|
  {
    var next := EnrollOne(before, targets, records, todo[0], env).0;
    if i > 0 {
      assert EnrollResults(before, targets, records, todo, env)[1..]
          == EnrollResults(before, targets, next, todo[1..], env);
      EnrollVerdict(before, targets, next, todo[1..], env, i - 1);
      assert todo[..i][1..] == todo[1..][..i - 1];
      assert todo[i].deviceId in next <==>
        todo[i].deviceId in records || (EnrollOne(before, targets, records, todo[0], env).1.Enrolled?
            && todo[0].deviceId == todo[i].deviceId);
    }
  }
}
