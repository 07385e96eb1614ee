/** What one batch does to the set of devices that may approve, whatever the order of the staged files. */
module ApproverBatch {
  import opened Basics
  import opened ApproverAdmin

  // ---- Revocations ----

  /** The devices that the valid revokes of a list name. */
  function HonouredIn(before: Records, items: seq<Item>, todo: seq<Item>, env: Env): set<int> {
    set item | item in todo && Honoured(before, items, item, env) :: item.deviceId
  }

  lemma RevokeOneActive(before: Records, items: seq<Item>, records: Records, item: Item, env: Env)
    requires records.Keys == before.Keys && item.kind.Revoke?
    ensures var after := RevokeOne(before, items, records, item, env).0;
      after.Keys == before.Keys
      && Active(after, env) == Active(records, env) - (if Honoured(before, items, item, env) then {item.deviceId}
          else {})
  {
    var after := RevokeOne(before, items, records, item, env).0;
    forall id
      ensures id in Active(after, env) <==>
        id in Active(records, env) && !(Honoured(before, items, item, env) && id == item.deviceId)
    {
      if id in records && id != item.deviceId {
        assert after[id] == records[id];
      }
    }
  }

  lemma {:induction false} RevokeAllActive(before: Records,
      items: seq<Item>, records: Records, todo: seq<Item>, env: Env)
    requires records.Keys == before.Keys
    requires forall item | item in todo :: item.kind.Revoke?
    ensures var after := RevokeAll(before, items, records, todo, env);
      after.Keys == before.Keys && Active(after, env) == Active(records, env) - HonouredIn(before, items, todo, env)
    decreases |todo|
  {
    if todo == [] {
      assert HonouredIn(before, items, todo, env) == {};
    } else {
      RevokeOneActive(before, items, records, todo[0], env);
      RevokeAllActive(before, items, RevokeOne(before, items, records, todo[0], env).0, todo[1..], env);
      HonouredSplits(before, items, todo, env);
    }
  }

  lemma HonouredSplits(before: Records, items: seq<Item>, todo: seq<Item>, env: Env)
    requires todo != []
    ensures HonouredIn(before, items, todo, env) ==
      (if Honoured(before, items, todo[0], env) then {todo[0].deviceId}
          else {}) + HonouredIn(before, items, todo[1..], env)
  {
    assert todo == [todo[0]] + todo[1..];
    forall id | id in HonouredIn(before, items, todo, env)
      ensures (Honoured(before, items, todo[0], env)
          && id == todo[0].deviceId) || id in HonouredIn(before, items, todo[1..], env)
    {
      var item :| item in todo && Honoured(before, items, item, env) && item.deviceId == id;
    }
  }

  // ---- Enrollments ----

  /** Of the enrollments of a device that a list carries out, the first. */
  function FirstFor(before: Records, targets: set<int>, todo: seq<Item>, id: int, env: Env): Option<Item> {
    if todo == [] then None
    else if Enrollable(before, targets, todo[0], env) && todo[0].deviceId == id then Some(todo[0])
    else FirstFor(before, targets, todo[1..], id, env)
  }

  /**
   * The device is enrolled by the list and may approve: a demo device gets a record (where test keys are allowed) and
   * may not.
   */
  predicate Admits(before: Records, targets: set<int>, todo: seq<Item>, id: int, env: Env) {
    FirstFor(before, targets, todo, id, env).Some? && !FirstFor(before, targets, todo, id, env).value.device.demo
  }

  lemma EnrollOneActive(before: Records, targets: set<int>, records: Records, item: Item, env: Env, id: int)
    requires before.Keys <= records.Keys && InRest(item)
    ensures var after := EnrollOne(before, targets, records, item, env).0;
      var joins := Enrollable(before, targets, item, env) && item.deviceId !in records && id == item.deviceId;
      && after.Keys == records.Keys
           + (if Enrollable(before, targets, item, env) && item.deviceId !in records then {item.deviceId} else {})
      && (id in Active(after, env) <==> id in Active(records, env) || (joins && !item.device.demo))
  {
  }

  lemma {:induction false} EnrollAllActive(before: Records,
      targets: set<int>, records: Records, todo: seq<Item>, env: Env, id: int)
    requires before.Keys <= records.Keys && (forall item | item in todo :: InRest(item))
    ensures var after := EnrollAll(before, targets, records, todo, env);
      && before.Keys <= after.Keys
      && (id in Active(after, env) <==>
            id in Active(records, env) || (id !in records && Admits(before, targets, todo, id, env)))
    decreases |todo|
  {
    if todo != [] {
      EnrollOneActive(before, targets, records, todo[0], env, id);
      EnrollAllActive(before, targets, EnrollOne(before, targets, records, todo[0], env).0, todo[1..], env, id);
    }
  }

  lemma {:induction false} FirstIsOneOf(before: Records, targets: set<int>, todo: seq<Item>, id: int, env: Env)
    ensures FirstFor(before, targets, todo, id, env).Some? <==>
      exists item :: item in todo && Enrollable(before, targets, item, env) && item.deviceId == id
    ensures FirstFor(before, targets, todo, id, env).Some? ==>
      var item := FirstFor(before, targets, todo, id, env).value;
      item in todo && Enrollable(before, targets, item, env) && item.deviceId == id
  {
    if todo != [] {
      FirstIsOneOf(before, targets, todo[1..], id, env);
      assert todo == [todo[0]] + todo[1..];
    }
  }

  // ---- Key statements ----

  lemma StateOneActive(before: Records, targets: set<int>, records: Records, item: Item, env: Env)
    requires before.Keys <= records.Keys
    requires forall id | id in Active(before, env) :: env.allowTestKeys || !HasTestKey(records[id], env)
    ensures var after := StateOne(before, targets, records, item, env).0;
      before.Keys <= after.Keys && Active(after, env) == Active(records, env)
      && (forall id | id in Active(before, env) :: env.allowTestKeys || !HasTestKey(after[id], env))
  {
    var after := StateOne(before, targets, records, item, env).0;
    if JudgeStatement(before, targets, records, item, env).None? && item.deviceId in records {
      assert item.deviceId in Active(before, env);
      assert JudgeKey(records[item.deviceId], item, env).None?;
      assert env.allowTestKeys || !HasTestKey(after[item.deviceId], env);
    }
    forall id ensures id in Active(after, env) <==> id in Active(records, env) {
      if id in records && id != item.deviceId {
        assert after[id] == records[id];
      }
    }
  }

  lemma {:induction false} StateAllActive(before: Records,
      targets: set<int>, records: Records, todo: seq<Item>, env: Env)
    requires before.Keys <= records.Keys
    requires forall id | id in Active(before, env) :: env.allowTestKeys || !HasTestKey(records[id], env)
    ensures Active(StateAll(before, targets, records, todo, env), env) == Active(records, env)
    decreases |todo|
  {
    if todo != [] {
      StateOneActive(before, targets, records, todo[0], env);
      StateAllActive(before, targets, StateOne(before, targets, records, todo[0], env).0, todo[1..], env);
    }
  }

  // ---- The whole batch ----

  predicate SameKeys(a: Record, b: Record) {
    a.publicKey == b.publicKey && a.readKey == b.readKey && a.boxKey == b.boxKey
  }

  predicate KeepsKeys(a: Records, b: Records) {
    forall id | id in a :: id in b && SameKeys(a[id], b[id])
  }

  lemma {:induction false} RevokeAllKeepsKeys(before: Records,
      items: seq<Item>, records: Records, todo: seq<Item>, env: Env)
    ensures KeepsKeys(records, RevokeAll(before, items, records, todo, env))
    decreases |todo|
  {
    if todo != [] {
      var next := RevokeOne(before, items, records, todo[0], env).0;
      assert KeepsKeys(records, next);
      RevokeAllKeepsKeys(before, items, next, todo[1..], env);
    }
  }

  lemma {:induction false} EnrollAllKeepsKeys(before: Records,
      targets: set<int>, records: Records, todo: seq<Item>, env: Env)
    ensures KeepsKeys(records, EnrollAll(before, targets, records, todo, env))
    decreases |todo|
  {
    if todo != [] {
      var next := EnrollOne(before, targets, records, todo[0], env).0;
      assert KeepsKeys(records, next);
      EnrollAllKeepsKeys(before, targets, next, todo[1..], env);
    }
  }

  lemma OfMembers(items: seq<Item>, kind: Kind)
    ensures forall item :: item in Of(items, kind) <==> item in items && item.kind == kind
  {
    if items != [] {
      OfMembers(items[1..], kind);
      assert items == [items[0]] + items[1..];
    }
  }

  lemma RestMembers(items: seq<Item>)
    ensures forall item :: item in Rest(items) <==> item in items && InRest(item)
  {
    if items != [] {
      RestMembers(items[1..]);
      assert items == [items[0]] + items[1..];
    }
  }

  /** The enrolled devices that may approve: where the staged files disagree on one, the first in the listing tells. */
  function Admitted(before: Records, items: seq<Item>, env: Env): set<int> {
    set id | id in EnrolledSet(before, items, env)
        && Admits(before, RevokedTargets(before, items, env), Rest(items), id, env)
  }

  lemma AdmittedIsEnrolled(before: Records, items: seq<Item>, env: Env, id: int)
    ensures Admits(before, RevokedTargets(before, items, env), Rest(items), id, env) <==>
          id in Admitted(before, items, env)
    ensures !env.allowTestKeys && id in EnrolledSet(before, items, env) ==> id in Admitted(before, items, env)
    ensures id in Admitted(before, items, env) ==> id !in before
  {
    var targets := RevokedTargets(before, items, env);
    FirstIsOneOf(before, targets, Rest(items), id, env);
    RestMembers(items);
    if id in EnrolledSet(before, items, env) {
      var item :| item in items && Enrollable(before, targets, item, env) && item.deviceId == id;
      assert item in Rest(items);
    }
  }

  lemma BatchActiveAt(before: Records, items: seq<Item>, env: Env, id: int)
    ensures id in Active(Batch(before, items, env), env) <==>
      (id in Active(before, env) && id !in RevokedTargets(before, items, env)) || id in Admitted(before, items, env)
  {
    var targets := RevokedTargets(before, items, env);
    var revokes, rest := Of(items, Revoke), Rest(items);
    var revoked := RevokeAll(before, items, before, revokes, env);
    var enrolled := EnrollAll(before, targets, revoked, rest, env);
    OfMembers(items, Revoke);
    RestMembers(items);
    RevokeAllActive(before, items, before, revokes, env);
    assert HonouredIn(before, items, revokes, env) == targets;
    EnrollAllActive(before, targets, revoked, rest, env, id);
    AdmittedIsEnrolled(before, items, env, id);
    RevokeAllKeepsKeys(before, items, before, revokes, env);
    EnrollAllKeepsKeys(before, targets, revoked, rest, env);
    StateAllActive(before, targets, enrolled, Statements(items), env);
  }

  /**
   * The active devices after a batch are the ones before it, less every device a valid revoke names, plus the
   * enrolled ones; these are all of them unless test keys are allowed, and then those whose first enrollment is of no
   * demo device.
   */
  lemma BatchActive(before: Records, items: seq<Item>, env: Env)
    ensures Active(Batch(before, items, env), env)
      == (Active(before, env) - RevokedTargets(before, items, env)) + Admitted(before, items, env)
    ensures !env.allowTestKeys ==> Admitted(before, items, env) == EnrolledSet(before, items, env)
  {
    forall id
      ensures id in Active(Batch(before, items, env), env) <==>
        id in (Active(before, env) - RevokedTargets(before, items, env)) + Admitted(before, items, env)
      ensures !env.allowTestKeys && id in EnrolledSet(before, items, env) ==> id in Admitted(before, items, env)
    {
      BatchActiveAt(before, items, env, id);
      AdmittedIsEnrolled(before, items, env, id);
    }
  }

  /**
   * Revocations win: an enrolled device is no revoke's target, had no record, and its signer was active and is no
   * target.
   */
  lemma EnrolledAreNew(before: Records, items: seq<Item>, env: Env, id: int)
    requires id in EnrolledSet(before, items, env)
    ensures id !in RevokedTargets(before, items, env) && id !in before
    ensures exists item ::
      item in items && item.deviceId == id && item.signer in Applied(before, env) - RevokedTargets(before, items, env)
      && item.signedBy == before[item.signer].publicKey
      && -SKEW_MS <= env.now - item.createdAt <= WEEK_MS
  {
    var targets := RevokedTargets(before, items, env);
    var item :| item in items && Enrollable(before, targets, item, env) && item.deviceId == id;
    assert item.signer in Applied(before, env) - targets;
  }

  /** Nobody is revoked without a signed, recent message of another active device. */
  lemma RevocationIsSigned(before: Records, items: seq<Item>, env: Env, id: int)
    requires id in RevokedTargets(before, items, env)
    ensures exists item ::
      && item in items && item.kind.Revoke? && item.deviceId == id && item.signer != id
      && item.signer in Applied(before, env)
      && item.signedBy == before[item.signer].publicKey && -SKEW_MS <= env.now - item.createdAt <= WEEK_MS
  {
    var item :| item in items && Honoured(before, items, item, env) && item.deviceId == id;
    assert item.signer in Applied(before, env);
  }

  /** A valid revoke of a device with a record always counts, even when its own signer is revoked beside it. */
  lemma RevokeAlwaysWins(before: Records, items: seq<Item>, env: Env, item: Item)
    requires item in items && ValidRevoke(before, item, env) && item.deviceId in before
    ensures item.deviceId !in Active(Batch(before, items, env), env)
  {
    BatchActive(before, items, env);
    assert Honoured(before, items, item, env);
  }

  /** No two enrollments that a batch would carry out say of one device that it is a demo device and that it is none. */
  predicate EnrollmentsAgree(before: Records, items: seq<Item>, env: Env) {
    var targets := RevokedTargets(before, items, env);
    forall a, b | a in items && b in items && a.deviceId == b.deviceId ::
      Enrollable(before, targets, a, env) && Enrollable(before, targets, b, env) ==> a.device.demo == b.device.demo
  }

  ghost predicate SameFiles(items: seq<Item>, others: seq<Item>) {
    forall item :: item in items <==> item in others
  }

  lemma SameTargets(before: Records, items: seq<Item>, others: seq<Item>, env: Env)
    requires SameFiles(items, others)
    ensures RevokedTargets(before, items, env) == RevokedTargets(before, others, env)
    ensures EnrolledSet(before, items, env) == EnrolledSet(before, others, env)
  {
    assert RevokedSigners(before, items, env) == RevokedSigners(before, others, env);
    forall item ensures Honoured(before, items, item, env) <==> Honoured(before, others, item, env) {
    }
  }

  lemma SameAdmitted(before: Records, items: seq<Item>, others: seq<Item>, env: Env, id: int)
    requires SameFiles(items, others) && EnrollmentsAgree(before, items, env) && id in Admitted(before, items, env)
    ensures id in Admitted(before, others, env)
  {
    var targets := RevokedTargets(before, items, env);
    SameTargets(before, items, others, env);
    RestMembers(items);
    RestMembers(others);
    FirstIsOneOf(before, targets, Rest(items), id, env);
    FirstIsOneOf(before, targets, Rest(others), id, env);
    var a := FirstFor(before, targets, Rest(items), id, env).value;
    assert a in Rest(others);
    var b := FirstFor(before, targets, Rest(others), id, env).value;
    assert a in items && b in items && a.device.demo == b.device.demo;
  }

  lemma AgreeWithoutTestKeys(before: Records, items: seq<Item>, env: Env)
    requires !env.allowTestKeys
    ensures EnrollmentsAgree(before, items, env)
  {
  }

  /** Where enrollments agree, the order in which the files are listed, and any listed twice, makes no difference. */
  lemma OrderIsIgnored(before: Records, items: seq<Item>, others: seq<Item>, env: Env)
    requires SameFiles(items, others) && EnrollmentsAgree(before, items, env)
    ensures Active(Batch(before, items, env), env) == Active(Batch(before, others, env), env)
  {
    SameTargets(before, items, others, env);
    assert EnrollmentsAgree(before, others, env);
    forall id ensures id in Admitted(before, items, env) <==> id in Admitted(before, others, env) {
      if id in Admitted(before, items, env) {
        SameAdmitted(before, items, others, env, id);
      }
      if id in Admitted(before, others, env) {
        SameAdmitted(before, others, items, env, id);
      }
    }
    assert Admitted(before, items, env) == Admitted(before, others, env);
    BatchActive(before, items, env);
    BatchActive(before, others, env);
  }

  /** The same files in another order. A listing is sorted by name, so by the nonces that the senders drew. */
  predicate Reordered(items: seq<Item>, others: seq<Item>) {
    multiset(items) == multiset(others)
  }

  lemma ReorderedSame(items: seq<Item>, others: seq<Item>)
    requires Reordered(items, others)
    ensures SameFiles(items, others)
  {
    forall item ensures item in items <==> item in others {
      assert item in items <==> item in multiset(items);
    }
  }

  function MovedFirst(items: seq<Item>, k: nat): seq<Item>
    requires k < |items|
  {
    [items[k]] + (items[..k] + items[k + 1..])
  }

  lemma MovedFirstReorders(items: seq<Item>, k: nat)
    requires k < |items|
    ensures Reordered(items, MovedFirst(items, k))
  {
    assert items == items[..k] + ([items[k]] + items[k + 1..]);
  }

  /** Listed first, an enrollment tells whether its device may approve. */
  lemma FirstTells(before: Records, items: seq<Item>, env: Env, k: nat)
    requires k < |items| && Enrollable(before, RevokedTargets(before, items, env), items[k], env)
    ensures items[k].deviceId in Active(Batch(before, MovedFirst(items, k), env), env) <==> !items[k].device.demo
  {
    var a, listed := items[k], MovedFirst(items, k);
    MovedFirstReorders(items, k);
    ReorderedSame(items, listed);
    SameTargets(before, items, listed, env);
    BatchActiveAt(before, listed, env, a.deviceId);
    AdmittedIsEnrolled(before, listed, env, a.deviceId);
    assert listed[0] == a && Rest(listed)[0] == a;
  }

  /** Every order of the same files leaves the same active devices. */
  ghost predicate OrderDoesNotMatter(before: Records, items: seq<Item>, env: Env) {
    forall others {:trigger Reordered(items, others)} | Reordered(items, others) ::
      Active(Batch(before, items, env), env) == Active(Batch(before, others, env), env)
  }

  /** Two staged enrollments of one device that disagree: which of them is listed first tells who is active. */
  lemma OrderMatters(before: Records, items: seq<Item>, env: Env, i: nat, j: nat)
    requires var targets := RevokedTargets(before, items, env);
      && i < |items| && j < |items|
      && Enrollable(before, targets, items[i], env) && Enrollable(before, targets, items[j], env)
      && items[i].deviceId == items[j].deviceId && items[i].device.demo != items[j].device.demo
    ensures Reordered(items, MovedFirst(items, i)) && Reordered(items, MovedFirst(items, j))
    ensures Active(Batch(before, MovedFirst(items, i), env), env)
      != Active(Batch(before, MovedFirst(items, j), env), env)
  {
    MovedFirstReorders(items, i);
    MovedFirstReorders(items, j);
    FirstTells(before, items, env, i);
    FirstTells(before, items, env, j);
  }

  lemma Disagreeing(before: Records, items: seq<Item>, env: Env) returns (i: nat, j: nat)
    requires !EnrollmentsAgree(before, items, env)
    ensures i < |items| && j < |items|
    ensures items[i].deviceId == items[j].deviceId && items[i].device.demo != items[j].device.demo
    ensures Enrollable(before, RevokedTargets(before, items, env), items[i], env)
    ensures Enrollable(before, RevokedTargets(before, items, env), items[j], env)
  {
    var targets := RevokedTargets(before, items, env);
    var a, b :| a in items && b in items && a.deviceId == b.deviceId
      && Enrollable(before, targets, a, env) && Enrollable(before, targets, b, env) && a.device.demo != b.device.demo;
    i :| 0 <= i < |items| && items[i] == a;
    j :| 0 <= j < |items| && items[j] == b;
  }

  lemma DisagreeingMatters(before: Records, items: seq<Item>, env: Env)
    requires !EnrollmentsAgree(before, items, env)
    ensures !OrderDoesNotMatter(before, items, env)
  {
    var i, j := Disagreeing(before, items, env);
    OrderMatters(before, items, env, i, j);
    assert Reordered(items, MovedFirst(items, i)) && Reordered(items, MovedFirst(items, j));
  }

  /**
   * The order in which the staged files are listed makes no difference exactly when the enrollments of each device
   * agree on whether it is a demo device. They always do unless test keys are allowed: otherwise one of the two is
   * turned away.
   */
  lemma BatchIgnoresOrder(before: Records, items: seq<Item>, env: Env)
    ensures OrderDoesNotMatter(before, items, env) <==> EnrollmentsAgree(before, items, env)
    ensures !env.allowTestKeys ==> EnrollmentsAgree(before, items, env)
  {
    if EnrollmentsAgree(before, items, env) {
      forall others | Reordered(items, others)
        ensures Active(Batch(before, items, env), env) == Active(Batch(before, others, env), env)
      {
        ReorderedSame(items, others);
        OrderIsIgnored(before, items, others, env);
      }
    } else {
      DisagreeingMatters(before, items, env);
    }
    if !env.allowTestKeys {
      AgreeWithoutTestKeys(before, items, env);
    }
  }

  /** The pair that shows it: one device enrolled as a demo device by one file and as a real one by another. */
  lemma DemoFirstOrLast(r: Record, a: Item, b: Item, env: Env)
    requires env.allowTestKeys && env.trusted && !r.demo && r.revokedAt.None?
    requires a.kind.Enroll? && a.wellFormed && a.createdAt == env.now && a.deviceId == 2 && a.device.demo
    requires a.signer == a.kid == 1 && a.signedBy == r.publicKey
    requires b == a.(file := b.file, device := a.device.(demo := false))
    ensures var before := map[1 := r];
      2 !in Active(Batch(before, [a, b], env), env) && 2 in Active(Batch(before, [b, a], env), env)
  {
    var before, items := map[1 := r], [a, b];
    assert 1 in Active(before, env);
    assert RevokedTargets(before, items, env) == {};
    assert Enrollable(before, {}, a, env) && Enrollable(before, {}, b, env);
    FirstTells(before, items, env, 0);
    FirstTells(before, items, env, 1);
    assert MovedFirst(items, 0) == [a, b] && MovedFirst(items, 1) == [b, a];
  }

  // ---- What a file is called ----

  /** The same messages in the same order, under other names. */
  predicate Renamed(items: seq<Item>, others: seq<Item>) {
    |items| == |others| && forall i | 0 <= i < |items| :: others[i] == items[i].(file := others[i].file)
  }

  lemma RenamedHonoured(before: Records, items: seq<Item>, others: seq<Item>, env: Env, item: Item, file: nat)
    requires Renamed(items, others)
    ensures RevokedSigners(before, items, env) <= RevokedSigners(before, others, env)
    ensures Honoured(before, others, item, env) ==> Honoured(before, items, item.(file := file), env)
  {
    forall id | id in RevokedSigners(before, items, env) ensures id in RevokedSigners(before, others, env) {
      var a :| a in items && ValidRevoke(before, a, env) && a.deviceId in before && a.deviceId == id;
      var i :| 0 <= i < |items| && items[i] == a;
      assert others[i] in others && ValidRevoke(before, others[i], env);
    }
  }

  lemma RenamedBack(items: seq<Item>, others: seq<Item>)
    requires Renamed(items, others)
    ensures Renamed(others, items)
  {
  }

  lemma RenamedTargets(before: Records, items: seq<Item>, others: seq<Item>, env: Env)
    requires Renamed(items, others)
    ensures RevokedTargets(before, items, env) <= RevokedTargets(before, others, env)
  {
    RenamedBack(items, others);
    forall id | id in RevokedTargets(before, items, env) ensures id in RevokedTargets(before, others, env) {
      var a :| a in items && Honoured(before, items, a, env) && a.deviceId == id;
      var i :| 0 <= i < |items| && items[i] == a;
      RenamedHonoured(before, others, items, env, a, others[i].file);
      assert others[i] in others;
    }
  }

  lemma {:induction false} RenamedRest(items: seq<Item>, others: seq<Item>)
    requires Renamed(items, others)
    ensures Renamed(Rest(items), Rest(others))
    decreases |items|
  {
    if items != [] {
      RenamedRest(items[1..], others[1..]);
    }
  }

  lemma {:induction false} RenamedFirst(before: Records, targets: set<int>, items: seq<Item>, others: seq<Item>,
      id: int, env: Env)
    requires Renamed(items, others)
    ensures Admits(before, targets, items, id, env) == Admits(before, targets, others, id, env)
    decreases |items|
  {
    if items != [] {
      RenamedFirst(before, targets, items[1..], others[1..], id, env);
    }
  }

  lemma RenamedAdmitted(before: Records, items: seq<Item>, others: seq<Item>, env: Env, id: int)
    requires Renamed(items, others)
    ensures RevokedTargets(before, items, env) == RevokedTargets(before, others, env)
    ensures id in Admitted(before, items, env) <==> id in Admitted(before, others, env)
  {
    RenamedBack(items, others);
    RenamedTargets(before, items, others, env);
    RenamedTargets(before, others, items, env);
    RenamedRest(items, others);
    RenamedFirst(before, RevokedTargets(before, items, env), Rest(items), Rest(others), id, env);
    AdmittedIsEnrolled(before, items, env, id);
    AdmittedIsEnrolled(before, others, env, id);
  }

  /** A file's name counts only through its place in the listing: so any order of the messages can come up. */
  lemma NamesDoNotMatter(before: Records, items: seq<Item>, others: seq<Item>, env: Env)
    requires Renamed(items, others)
    ensures Active(Batch(before, items, env), env) == Active(Batch(before, others, env), env)
  {
    forall id ensures id in Admitted(before, items, env) <==> id in Admitted(before, others, env) {
      RenamedAdmitted(before, items, others, env, id);
    }
    assert Admitted(before, items, env) == Admitted(before, others, env);
    RenamedAdmitted(before, items, others, env, 0);
    BatchActive(before, items, env);
    BatchActive(before, others, env);
  }

  // ---- A revoke that waits for its device ----

  /**
   * A revoke of a device nobody knows yet stays staged, and while it is staged and valid no batch enrolls that
   * device.
   */
  lemma DeferredRevokeBlocks(before: Records, items: seq<Item>, later: Records, laterItems: seq<Item>, item: Item,
                             env: Env, laterEnv: Env)
    requires item in items && Honoured(before, items, item, env) && item.deviceId !in before
    requires item in laterItems && Honoured(later, laterItems, item, laterEnv)
    ensures StaysStaged(before, items, item, env)
    ensures item.deviceId !in EnrolledSet(later, laterItems, laterEnv)
    ensures item.deviceId !in Active(Batch(later, laterItems, laterEnv), laterEnv)
  {
    assert item.deviceId in RevokedTargets(later, laterItems, laterEnv);
    if item.deviceId in EnrolledSet(later, laterItems, laterEnv) {
      EnrolledAreNew(later, laterItems, laterEnv, item.deviceId);
    }
    BatchActive(later, laterItems, laterEnv);
  }

  /**
   * It stays valid for a week, as long as its signer is active with the same key and not itself revoked in the batch.
   */
  lemma DeferredRevokeLasts(before: Records, items: seq<Item>, later: Records, laterItems: seq<Item>, item: Item,
                            env: Env, laterEnv: Env)
    requires Honoured(before, items, item, env) && env.now <= laterEnv.now
    requires item.signer in later && later[item.signer].publicKey == before[item.signer].publicKey
    ensures Honoured(later, laterItems, item, laterEnv) <==>
      laterEnv.now <= item.createdAt + WEEK_MS && item.signer in Applied(later, laterEnv)
      && (item.deviceId in later || item.signer !in RevokedSigners(later, laterItems, laterEnv))
  {
  }
}
