/** The approver records over any run of console enrollments, console revocations and batches. */
module ApproverRuns {
  import opened Basics
  import opened ApproverAdmin
  import opened ApproverBatch

  datatype Op = ConsoleEnroll(id: int, device: Record) | ConsoleRevoke(id: int, now: int)
    | Apply(items: seq<Item>, env: Env)

  predicate DropsBoxKey(records: Records, id: int, device: Record) {
    id in records && records[id].revokedAt.None? && records[id].boxKey.Some? && device.boxKey.None?
  }

  function Do(records: Records, op: Op): Records {
    match op
    case ConsoleEnroll(id, device) =>
      if DropsBoxKey(records, id, device) then records
      else WriteApprover(records, id, device.(enrolledBy := Console, revokedAt := None, revokedBy := None))
    case ConsoleRevoke(id, now) => MarkRevoked(records, id, Console, now)
    case Apply(items, env) => Batch(records, items, env)
  }

  function Run(records: Records, ops: seq<Op>): Records
    decreases ops
  {
    if ops == [] then records else Run(Do(records, ops[0]), ops[1..])
  }

  // ---- What every step of a batch keeps ----

  predicate NotOlder(was: Option<Key>, now: Option<Key>) {
    was.Some? ==> now.Some? && (now == was || now.value.at > was.value.at)
  }

  /** Only a revocation and newer keys may come to a record, and nothing comes to a revoked one. */
  predicate Follows(a: Record, b: Record) {
    && (a.revokedAt.Some? ==> b == a)
    && a.demo == b.demo && a.publicKey == b.publicKey && a.enrolledBy == b.enrolledBy
    && NotOlder(a.readKey, b.readKey) && NotOlder(a.boxKey, b.boxKey)
  }

  /** Where a record that the step adds comes from. */
  predicate Joins(before: Records, record: Record) {
    record.enrolledBy.Device? && record.enrolledBy.id in before
  }

  predicate AllFollow(before: Records, a: Records, b: Records) {
    && (forall id | id in a :: id in b && Follows(a[id], b[id]))
    && (forall id | id in b && id !in a :: Joins(before, b[id]))
  }

  lemma FollowChains(before: Records, a: Records, b: Records, c: Records)
    requires AllFollow(before, a, b) && AllFollow(before, b, c)
    ensures AllFollow(before, a, c)
  {
    forall id | id in a ensures id in c && Follows(a[id], c[id]) {
      assert id in b && Follows(a[id], b[id]) && Follows(b[id], c[id]);
    }
    forall id | id in c && id !in a ensures Joins(before, c[id]) {
      if id in b {
        assert Joins(before, b[id]) && Follows(b[id], c[id]);
      }
    }
  }

  lemma {:induction false} RevokesFollow(before: Records, items: seq<Item>, records: Records, todo: seq<Item>, env: Env)
    ensures AllFollow(before, records, RevokeAll(before, items, records, todo, env))
    decreases |todo|
  {
    if todo != [] {
      var next := RevokeOne(before, items, records, todo[0], env).0;
      RevokesFollow(before, items, next, todo[1..], env);
      FollowChains(before, records, next, RevokeAll(before, items, next, todo[1..], env));
    }
  }

  lemma {:induction false} EnrollsFollow(before: Records,
      targets: set<int>, records: Records, todo: seq<Item>, env: Env)
    ensures AllFollow(before, records, EnrollAll(before, targets, records, todo, env))
    decreases |todo|
  {
    if todo != [] {
      var next := EnrollOne(before, targets, records, todo[0], env).0;
      EnrollsFollow(before, targets, next, todo[1..], env);
      FollowChains(before, records, next, EnrollAll(before, targets, next, todo[1..], env));
    }
  }

  lemma StatementFollows(before: Records, targets: set<int>, records: Records, item: Item, env: Env)
    ensures AllFollow(before, records, StateOne(before, targets, records, item, env).0)
  {
    if item.deviceId in records && JudgeStatement(before, targets, records, item, env).None? {
      assert JudgeKey(records[item.deviceId], item, env).None?;
    }
  }

  lemma {:induction false} StatementsFollow(before: Records,
      targets: set<int>, records: Records, todo: seq<Item>, env: Env)
    ensures AllFollow(before, records, StateAll(before, targets, records, todo, env))
    decreases |todo|
  {
    if todo != [] {
      var next := StateOne(before, targets, records, todo[0], env).0;
      StatementFollows(before, targets, records, todo[0], env);
      StatementsFollow(before, targets, next, todo[1..], env);
      FollowChains(before, records, next, StateAll(before, targets, next, todo[1..], env));
    }
  }

  /**
   * A batch takes no key away, puts no older key in a newer one's place, touches no revoked record, and who enrolled
   * a device never changes.
   */
  lemma BatchFollows(before: Records, items: seq<Item>, env: Env)
    ensures AllFollow(before, before, Batch(before, items, env))
  {
    var targets := RevokedTargets(before, items, env);
    var revoked := RevokeAll(before, items, before, Of(items, Revoke), env);
    var enrolled := EnrollAll(before, targets, revoked, Rest(items), env);
    RevokesFollow(before, items, before, Of(items, Revoke), env);
    EnrollsFollow(before, targets, revoked, Rest(items), env);
    StatementsFollow(before, targets, enrolled, Statements(items), env);
    FollowChains(before, before, revoked, enrolled);
    FollowChains(before, before, enrolled, Batch(before, items, env));
  }

  // ---- Over whole runs ----

  /** A revoked record is never touched again, by any later operation. */
  lemma {:induction false} RevokedForever(records: Records, ops: seq<Op>, id: int)
    requires id in records && records[id].revokedAt.Some?
    ensures id in Run(records, ops) && Run(records, ops)[id] == records[id]
    ensures forall env: Env :: id !in Active(Run(records, ops), env)
    decreases |ops|
  {
    if ops != [] {
      if ops[0].Apply? {
        BatchFollows(records, ops[0].items, ops[0].env);
        assert Follows(records[id], Do(records, ops[0])[id]);
      }
      RevokedForever(Do(records, ops[0]), ops[1..], id);
    }
  }

  /** No operation takes a box key from a device that is still in use. */
  lemma {:induction false} BoxKeyStays(records: Records, ops: seq<Op>, id: int)
    requires id in records && records[id].boxKey.Some?
    ensures id in Run(records, ops) && Run(records, ops)[id].boxKey.Some?
    decreases |ops|
  {
    if ops != [] {
      if ops[0].Apply? {
        BatchFollows(records, ops[0].items, ops[0].env);
        assert Follows(records[id], Do(records, ops[0])[id]);
      }
      BoxKeyStays(Do(records, ops[0]), ops[1..], id);
    }
  }

  /** Within n steps from this device, who enrolled whom leads back to the console. */
  predicate Rooted(records: Records, id: int, n: nat)
    decreases n
  {
    id in records && (records[id].enrolledBy.Console? || (n > 0 && Rooted(records, records[id].enrolledBy.id, n - 1)))
  }

  predicate AllRooted(records: Records, n: nat) {
    forall id | id in records :: Rooted(records, id, n)
  }

  lemma {:induction false} RootedStays(a: Records, b: Records, id: int, n: nat)
    requires Rooted(a, id, n)
    requires forall x | x in a :: x in b && (b[x].enrolledBy == a[x].enrolledBy || b[x].enrolledBy.Console?)
    ensures Rooted(b, id, n) && Rooted(b, id, n + 1)
    decreases n
  {
    if b[id].enrolledBy.Device? {
      RootedStays(a, b, a[id].enrolledBy.id, n - 1);
    }
  }

  lemma RootedStep(records: Records, op: Op, n: nat)
    requires AllRooted(records, n)
    ensures AllRooted(Do(records, op), n + 1)
  {
    var next := Do(records, op);
    if op.Apply? {
      BatchFollows(records, op.items, op.env);
      assert forall x | x in records :: Follows(records[x], next[x]);
    }
    forall id | id in next ensures Rooted(next, id, n + 1) {
      if id in records {
        RootedStays(records, next, id, n);
      } else if op.Apply? {
        assert Joins(records, next[id]);
        RootedStays(records, next, next[id].enrolledBy.id, n);
      }
    }
  }

  /** From an empty directory, every device's chain of enrollers is finite and ends at the console. */
  lemma {:induction false} EveryChainEndsAtTheConsole(records: Records, ops: seq<Op>, n: nat)
    requires AllRooted(records, n)
    ensures AllRooted(Run(records, ops), n + |ops|)
    decreases |ops|
  {
    if ops != [] {
      RootedStep(records, ops[0], n);
      EveryChainEndsAtTheConsole(Do(records, ops[0]), ops[1..], n + 1);
    }
  }

  // ---- Two statements of one device ----

  function KeyOf(r: Record, kind: Kind): Option<Key> {
    if kind.ReadKey? then r.readKey else r.boxKey
  }

  /** The device's key of this kind is at least as new as `at`. */
  predicate Holds(records: Records, id: int, kind: Kind, at: int) {
    id in records && KeyOf(records[id], kind).Some? && KeyOf(records[id], kind).value.at >= at
  }

  predicate Statement(item: Item) {
    item.kind.ReadKey? || item.kind.BoxKey?
  }

  predicate Sorted(items: seq<Item>) {
    |items| > 1 ==> items[0].createdAt >= items[1].createdAt && Sorted(items[1..])
  }

  lemma InsertSorts(item: Item, items: seq<Item>)
    requires Sorted(items)
    ensures Sorted(Insert(item, items))
  {
    if items != [] && item.createdAt < items[0].createdAt {
      InsertSorts(item, items[1..]);
    }
  }

  lemma {:induction false} InsertAdds(item: Item, items: seq<Item>)
    ensures multiset(Insert(item, items)) == multiset(items) + multiset{item}
    decreases |items|
  {
    if items != [] {
      assert items == [items[0]] + items[1..];
      if item.createdAt < items[0].createdAt {
        InsertAdds(item, items[1..]);
      }
    }
  }

  lemma {:induction false} NewestFirstKeeps(items: seq<Item>)
    ensures multiset(NewestFirst(items)) == multiset(items)
    decreases |items|
  {
    if items != [] {
      NewestFirstKeeps(items[1..]);
      InsertAdds(items[0], NewestFirst(items[1..]));
      assert items == [items[0]] + items[1..];
    }
  }

  /** The sort loses no statement and invents none. */
  lemma {:induction false} NewestFirstSorts(items: seq<Item>)
    ensures Sorted(NewestFirst(items)) && multiset(NewestFirst(items)) == multiset(items)
    decreases |items|
  {
    NewestFirstKeeps(items);
    if items != [] {
      NewestFirstSorts(items[1..]);
      InsertSorts(items[0], NewestFirst(items[1..]));
    }
  }

  lemma SortedFrom(items: seq<Item>, i: nat, j: nat)
    requires Sorted(items) && i <= j < |items|
    ensures items[i].createdAt >= items[j].createdAt
    decreases j
  {
    if i > 0 {
      SortedFrom(items[1..], i - 1, j - 1);
    } else if j > 0 {
      SortedFrom(items[1..], 0, j - 1);
    }
  }

  lemma {:induction false} KeysOnlyGetNewer(before: Records,
      targets: set<int>, records: Records, todo: seq<Item>, env: Env,
                                            id: int, kind: Kind, at: int)
    requires Holds(records, id, kind, at)
    ensures Holds(StateAll(before, targets, records, todo, env), id, kind, at)
  {
    StatementsFollow(before, targets, records, todo, env);
    assert Follows(records[id], StateAll(before, targets, records, todo, env)[id]);
  }

  /** Once a statement is carried out, no later one of that key which is not newer is. */
  lemma {:induction false} OlderIsRefused(before: Records,
      targets: set<int>, records: Records, todo: seq<Item>, env: Env,
                                          i: nat, j: nat)
    requires i < j < |todo| && Statement(todo[i]) && todo[i].createdAt >= todo[j].createdAt
    requires todo[i].deviceId == todo[j].deviceId && todo[i].kind == todo[j].kind
    requires StateOne(before, targets, StateAll(before, targets, records, todo[..i], env), todo[i], env).1.KeySet?
    ensures !StateOne(before, targets, StateAll(before, targets, records, todo[..j], env), todo[j], env).1.KeySet?
    decreases |todo|
  {
    var next := StateOne(before, targets, records, todo[0], env).0;
    if i > 0 {
      assert todo[..i][1..] == todo[1..][..i - 1] && todo[..j][1..] == todo[1..][..j - 1];
      OlderIsRefused(before, targets, next, todo[1..], env, i - 1, j - 1);
    } else {
      assert StateAll(before, targets, records, todo[..0], env) == records;
      assert Holds(next, todo[0].deviceId, todo[0].kind, todo[0].createdAt);
      assert todo[..j][1..] == todo[1..j];
      KeysOnlyGetNewer(before, targets, next, todo[1..j], env, todo[0].deviceId, todo[0].kind, todo[0].createdAt);
      OldStatementIsStale(before, targets, StateAll(before, targets, next, todo[1..j], env), todo[j], env);
    }
  }

  lemma SortedOf(items: seq<Item>, kind: Kind, i: nat, j: nat)
    requires i <= j < |NewestFirst(Of(items, kind))|
    ensures var todo := NewestFirst(Of(items, kind));
      todo[i].kind == kind && todo[j].kind == kind && todo[i].createdAt >= todo[j].createdAt
  {
    var todo := NewestFirst(Of(items, kind));
    NewestFirstSorts(Of(items, kind));
    OfMembers(items, kind);
    SortedFrom(todo, i, j);
    assert todo[i] in multiset(todo) && todo[j] in multiset(todo);
  }

  /** The statements of a batch are read keys and then box keys, each newest first. */
  lemma StatementsSorted(items: seq<Item>, i: nat, j: nat)
    requires i < j < |Statements(items)| && Statements(items)[i].kind == Statements(items)[j].kind
    ensures Statement(Statements(items)[i]) && Statements(items)[i].createdAt >= Statements(items)[j].createdAt
  {
    var n := |NewestFirst(Of(items, ReadKey))|;
    if j < n {
      SortedOf(items, ReadKey, i, j);
    } else if i < n {
      SortedOf(items, ReadKey, i, i);
      SortedOf(items, BoxKey, j - n, j - n);
    } else {
      SortedOf(items, BoxKey, i - n, j - n);
    }
  }

  /** What the i-th statement of a batch comes to. */
  function StatementVerdict(before: Records, items: seq<Item>, env: Env, i: nat): Verdict
    requires i < |Statements(items)|
  {
    var targets := RevokedTargets(before, items, env);
    var revoked := RevokeAll(before, items, before, Of(items, Revoke), env);
    var enrolled := EnrollAll(before, targets, revoked, Rest(items), env);
    StateOne(before, targets, StateAll(before, targets, enrolled, Statements(items)[..i], env), Statements(items)[i],
        env).1
  }

  /** Of a device's statements of one key in a batch, at most one is carried out, and every one after it is no newer. */
  lemma NewestStatementWins(before: Records, items: seq<Item>, env: Env, i: nat, j: nat)
    requires i < j < |Statements(items)| && StatementVerdict(before, items, env, i).KeySet?
    requires var todo := Statements(items); todo[i].deviceId == todo[j].deviceId && todo[i].kind == todo[j].kind
    ensures !StatementVerdict(before, items, env, j).KeySet?
    ensures Statements(items)[i].createdAt >= Statements(items)[j].createdAt
  {
    var targets := RevokedTargets(before, items, env);
    var revoked := RevokeAll(before, items, before, Of(items, Revoke), env);
    var enrolled := EnrollAll(before, targets, revoked, Rest(items), env);
    StatementsSorted(items, i, j);
    OlderIsRefused(before, targets, enrolled, Statements(items), env, i, j);
  }

  lemma OldStatementIsStale(before: Records, targets: set<int>, records: Records, item: Item, env: Env)
    requires Statement(item) && Holds(records, item.deviceId, item.kind, item.createdAt)
    ensures !StateOne(before, targets, records, item, env).1.KeySet?
  {
    assert JudgeKey(records[item.deviceId], item, env).Some?;
  }

  // ---- One key, one purpose ----

  /** A record's three keys are three different points. */
  predicate KeysApart(r: Record) {
    && (r.readKey.Some? ==> r.readKey.value.point != r.publicKey)
    && (r.boxKey.Some? ==> r.boxKey.value.point != r.publicKey)
    && (r.readKey.Some? && r.boxKey.Some? ==> r.readKey.value.point != r.boxKey.value.point)
  }

  predicate AllApart(records: Records) {
    forall id | id in records :: KeysApart(records[id])
  }

  lemma {:induction false} StatementsKeepKeysApart(before: Records,
      targets: set<int>, records: Records, todo: seq<Item>, env: Env)
    requires AllApart(records)
    ensures AllApart(StateAll(before, targets, records, todo, env))
    decreases |todo|
  {
    if todo != [] {
      var next := StateOne(before, targets, records, todo[0], env).0;
      assert AllApart(next);
      StatementsKeepKeysApart(before, targets, next, todo[1..], env);
    }
  }

  lemma {:induction false} RevokesKeepKeysApart(before: Records,
      items: seq<Item>, records: Records, todo: seq<Item>, env: Env)
    requires AllApart(records)
    ensures AllApart(RevokeAll(before, items, records, todo, env))
    decreases |todo|
  {
    if todo != [] {
      var next := RevokeOne(before, items, records, todo[0], env).0;
      assert AllApart(next);
      RevokesKeepKeysApart(before, items, next, todo[1..], env);
    }
  }

  lemma {:induction false} EnrollsKeepKeysApart(before: Records,
      targets: set<int>, records: Records, todo: seq<Item>, env: Env)
    requires AllApart(records) && (forall item | item in todo :: item.wellFormed ==> KeysApart(item.device))
    ensures AllApart(EnrollAll(before, targets, records, todo, env))
    decreases |todo|
  {
    if todo != [] {
      var next := EnrollOne(before, targets, records, todo[0], env).0;
      assert AllApart(next);
      EnrollsKeepKeysApart(before, targets, next, todo[1..], env);
    }
  }

  /**
   * What a record's check demands of its keys holds after every batch, if a well-formed enrollment carries three
   * different keys.
   */
  lemma BatchKeepsKeysApart(before: Records, items: seq<Item>, env: Env)
    requires AllApart(before) && (forall item | item in items :: item.wellFormed ==> KeysApart(item.device))
    ensures AllApart(Batch(before, items, env))
  {
    var targets := RevokedTargets(before, items, env);
    var revoked := RevokeAll(before, items, before, Of(items, Revoke), env);
    RestMembers(items);
    RevokesKeepKeysApart(before, items, before, Of(items, Revoke), env);
    EnrollsKeepKeysApart(before, targets, revoked, Rest(items), env);
    StatementsKeepKeysApart(before, targets, EnrollAll(before, targets, revoked, Rest(items), env), Statements(items),
        env);
  }
}
