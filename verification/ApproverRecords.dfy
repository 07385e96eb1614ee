/**
 * Which staged messages count, said without the order in which they are judged, and what one batch leaves in each
 * device's record.
 */
module ApproverRecords {
  import opened Basics
  import opened ApproverAdmin
  import opened ApproverBatch
  import opened ApproverRuns

  // ---- When a message counts ----

  /** Written at most a week ago, or up to five minutes ahead of this clock. */
  predicate InDate(item: Item, env: Env) {
    env.now - 604800000 <= item.createdAt <= env.now + 300000
  }

  /** The points of the keys that a record holds. */
  function Points(r: Record): set<int> {
    {r.publicKey} + (if r.readKey.Some? then {r.readKey.value.point} else {})
      + (if r.boxKey.Some? then {r.boxKey.value.point} else {})
  }

  lemma PublishedKeys(r: Record, env: Env)
    ensures HasTestKey(r, env) <==> !(Points(r) !! env.published)
  {
    if HasTestKey(r, env) {
      assert exists p :: p in Points(r) && p in env.published;
    }
  }

  /** The record may approve: trusted directory, no demo device, not revoked, no published key unless allowed. */
  predicate MaySign(before: Records, id: int, env: Env) {
    && env.trusted && id in before && !before[id].demo && before[id].revokedAt.None?
    && (env.allowTestKeys || Points(before[id]) !! env.published)
  }

  /** The message carries its signer's name and verifies under the key of the signer's record. */
  predicate CarriesSignature(before: Records, item: Item, env: Env) {
    MaySign(before, item.signer, env) && item.kid == item.signer && item.signedBy == before[item.signer].publicKey
  }

  lemma SignerIsActive(before: Records, item: Item, env: Env)
    ensures Signed(before, item, env) <==> CarriesSignature(before, item, env)
  {
    if item.signer in before {
      PublishedKeys(before[item.signer], env);
    }
  }

  /** A revoke counts if and only if it is in date, well-formed, and signed by another active device. */
  lemma RevokeCountsExactlyWhen(before: Records, item: Item, env: Env)
    ensures ValidRevoke(before, item, env) <==>
              && item.kind.Revoke? && item.wellFormed && InDate(item, env)
              && item.signer != item.deviceId && CarriesSignature(before, item, env)
  {
    SignerIsActive(before, item, env);
  }

  /** And it is honoured if its device has a record, or else if no revoke of the batch that counts names its signer. */
  lemma RevokeIsHonouredExactlyWhen(before: Records, items: seq<Item>, item: Item, env: Env)
    ensures Honoured(before, items, item, env) <==>
              && ValidRevoke(before, item, env)
              && (item.deviceId in before
                  || forall other | other in items && ValidRevoke(before, other, env) :: other.deviceId != item.signer)
  {
    if ValidRevoke(before, item, env) {
      assert item.signer in before;
    }
  }

  /**
   * An enrollment counts if and only if it is in date, well-formed, of a device that has no record and that no revoke
   * names, signed by an active device that no revoke names, and of no demo device or published key unless allowed.
   */
  lemma EnrollmentCountsExactlyWhen(before: Records, targets: set<int>, item: Item, env: Env)
    ensures Enrollable(before, targets, item, env) <==>
              && item.kind.Enroll? && item.wellFormed && InDate(item, env)
              && item.deviceId !in targets && item.deviceId !in before
              && CarriesSignature(before, item, env) && item.signer !in targets
              && (env.allowTestKeys || (!item.device.demo && Points(item.device) !! env.published))
  {
  }

  /** The key is free for this use: the record does not hold it, nobody publishes it, and it is newer than its own. */
  predicate MaySet(r: Record, item: Item, env: Env) {
    var own, other := KeyOf(r, item.kind), KeyOf(r, if item.kind.ReadKey? then BoxKey else ReadKey);
    && item.point != r.publicKey && (other.None? || item.point != other.value.point)
    && (env.allowTestKeys || item.point !in env.published)
    && (own.None? || (item.point != own.value.point && item.createdAt > own.value.at))
  }

  /** The statement counts: in date, signed by its own active device that no revoke names, of a record that stands. */
  predicate Counts(before: Records, targets: set<int>, records: Records, item: Item, env: Env) {
    && item.wellFormed && InDate(item, env)
    && item.signer == item.deviceId && CarriesSignature(before, item, env) && item.deviceId !in targets
    && item.deviceId in records && records[item.deviceId].revokedAt.None?
    && MaySet(records[item.deviceId], item, env)
  }

  /** The record with this key in the place of the one of its kind. */
  function WithKey(r: Record, kind: Kind, key: Key): (t: Record)
    ensures kind.ReadKey? ==> t.readKey == Some(key) && t.boxKey == r.boxKey
    ensures !kind.ReadKey? ==> t.boxKey == Some(key) && t.readKey == r.readKey
    ensures t.demo == r.demo && t.publicKey == r.publicKey && t.enrolledBy == r.enrolledBy
    ensures t.revokedAt == r.revokedAt && t.revokedBy == r.revokedBy
  {
    if kind.ReadKey? then r.(readKey := Some(key)) else r.(boxKey := Some(key))
  }

  /** A key statement is carried out if and only if it counts: its one key is set, and else nothing changes. */
  lemma StatementSetsExactlyWhen(before: Records, targets: set<int>, records: Records, item: Item, env: Env)
    requires Statement(item)
    ensures var (after, verdict) := StateOne(before, targets, records, item, env);
            && (verdict.KeySet? <==> Counts(before, targets, records, item, env))
            && after == (if Counts(before, targets, records, item, env)
                         then records[item.deviceId := WithKey(records[item.deviceId], item.kind,
                                                               Key(item.point, item.createdAt))]
                         else records)
  {
  }

  /** Why a key is refused: the first of four rules that it breaks. */
  lemma KeyIsRefusedBecause(r: Record, item: Item, env: Env)
    requires Statement(item)
    ensures var own, other := KeyOf(r, item.kind), KeyOf(r, if item.kind.ReadKey? then BoxKey else ReadKey);
            var judged := JudgeKey(r, item, env);
            var double := item.point == r.publicKey || (other.Some? && item.point == other.value.point);
            var public := !env.allowTestKeys && item.point in env.published;
            var same := own.Some? && item.point == own.value.point;
            && (judged.None? <==> MaySet(r, item, env))
            && (judged == Some(Malformed) <==> double)
            && (judged == Some(TestKey) <==> !double && public)
            && (judged == Some(AlreadySet) <==> !double && !public && same)
            && (judged == Some(StaleKey) <==>
                  !double && !public && !same && own.Some? && item.createdAt <= own.value.at)
  {
  }

  // ---- What an administrator is told ----

  /** Of the right shape and in date: else one of three verdicts says which it is not. */
  predicate Readable(item: Item, env: Env) {
    InDate(item, env) && item.wellFormed
  }

  lemma OutdatedBecause(item: Item, env: Env)
    ensures var told := Outdated(item, env);
            && (told == Some(FromFuture) <==> item.createdAt > env.now + 300000)
            && (told == Some(TooOld) <==> item.createdAt < env.now - 604800000)
            && (told == Some(ApproverAdmin.Malformed) <==> InDate(item, env) && !item.wellFormed)
            && (told == None <==> Readable(item, env))
  {
  }

  /** What is said of a revoke: the first thing wrong with it, or whether it is carried out or deferred. */
  lemma RevokeIsTold(before: Records, items: seq<Item>, records: Records, item: Item, env: Env)
    requires item.kind.Revoke?
    ensures var told, signed := RevokeOne(before, items, records, item, env).1, CarriesSignature(before, item, env);
            var other := item.signer != item.deviceId;
            && (!Readable(item, env) ==> Outdated(item, env) == Some(told))
            && (told == SelfRevoke <==> Readable(item, env) && !other)
            && (told == SignerNotActive <==>
                  Readable(item, env) && other && (!signed || !Honoured(before, items, item, env)))
            && (told == Revoked <==> Honoured(before, items, item, env) && item.deviceId in before)
            && (told == Deferred <==> Honoured(before, items, item, env) && item.deviceId !in before)
  {
    SignerIsActive(before, item, env);
  }

  /** A file stays staged exactly when it cannot safely be acted on, or is a revoke that is said to be deferred. */
  lemma StaysExactlyWhenDeferred(before: Records, items: seq<Item>, records: Records, item: Item, env: Env)
    ensures StaysStaged(before, items, item, env) <==>
              || item.kind.Unsafe?
              || (item.kind.Revoke? && RevokeOne(before, items, records, item, env).1 == Deferred)
  {
    if item.kind.Revoke? {
      RevokeIsTold(before, items, records, item, env);
    }
  }

  /** The signer may enroll others: it signed, it is active, and no revoke of the batch names it. */
  predicate MayEnroll(before: Records, targets: set<int>, item: Item, env: Env) {
    CarriesSignature(before, item, env) && item.signer !in targets
  }

  /** What is said of an enrollment or of a file that does not read: the first thing wrong with it. */
  lemma EnrollmentIsTold(before: Records, targets: set<int>, records: Records, item: Item, env: Env)
    requires InRest(item)
    ensures var told := EnrollOne(before, targets, records, item, env).1;
            var fits := item.kind.Enroll? && Readable(item, env) && item.deviceId !in targets;
            var signed := fits && MayEnroll(before, targets, item, env);
            var genuine := signed && (env.allowTestKeys || (!item.device.demo && Points(item.device) !! env.published));
            && (told == NotReadable <==> item.kind.Unreadable?)
            && (item.kind.Enroll? && !Readable(item, env) ==> Outdated(item, env) == Some(told))
            && (item.kind.Enroll? && Readable(item, env) && item.deviceId in targets ==> told == DeviceRevoked)
            && (told == SignerNotActive <==> fits && !signed)
            && (told == DemoDevice <==> signed && !env.allowTestKeys && item.device.demo)
            && (told == TestKey <==>
                  signed && !env.allowTestKeys && !item.device.demo && !(Points(item.device) !! env.published))
            && (told.Enrolled? <==> genuine && item.deviceId !in records)
            && (told == AlreadyEnrolled <==>
                  genuine && item.deviceId in records && records[item.deviceId].revokedAt.None?)
            && (genuine && item.deviceId in records && records[item.deviceId].revokedAt.Some? ==> told == DeviceRevoked)
  {
    SignerIsActive(before, item, env);
    PublishedKeys(item.device, env);
  }

  /** What is said of a key statement: the first thing wrong with it, at last with the key itself. */
  lemma StatementIsTold(before: Records, targets: set<int>, records: Records, item: Item, env: Env)
    requires Statement(item)
    ensures var told := StateOne(before, targets, records, item, env).1;
            var fits := Readable(item, env) && item.deviceId !in targets;
            var signed := fits && item.signer == item.deviceId && CarriesSignature(before, item, env);
            var stands := item.deviceId in records && records[item.deviceId].revokedAt.None?;
            && (!Readable(item, env) ==> Outdated(item, env) == Some(told))
            && (told == SignerNotActive <==> fits && !signed)
            && (told == DeviceRevoked <==> (Readable(item, env) && item.deviceId in targets) || (signed && !stands))
            && (signed && stands ==>
                  JudgeKey(records[item.deviceId], item, env) == if told.KeySet? then None else Some(told))
  {
    SignerIsActive(before, item, env);
  }

  // ---- The statements of a batch ----

  /** This statement would set the device's key of its kind in these records. */
  predicate Sets(before: Records, targets: set<int>, records: Records, item: Item, env: Env, id: int) {
    item.deviceId == id && Counts(before, targets, records, item, env)
  }

  predicate AllOf(todo: seq<Item>, kind: Kind) {
    (kind.ReadKey? || kind.BoxKey?) && forall item | item in todo :: item.kind == kind
  }

  /** This statement of the kind would set the device's key in these records, and none that would is newer. */
  ghost predicate IsNewest(before: Records, targets: set<int>, records: Records, todo: seq<Item>, env: Env, id: int,
      kind: Kind, item: Item)
  {
    && item in todo && item.kind == kind && Sets(before, targets, records, item, env, id)
    && forall other {:trigger other in todo} |
         other in todo && other.kind == kind && Sets(before, targets, records, other, env, id) ::
         other.createdAt <= item.createdAt
  }

  predicate NoneSets(before: Records, targets: set<int>, records: Records, todo: seq<Item>, env: Env, id: int,
      kind: Kind)
  {
    forall other {:trigger other in todo} | other in todo && other.kind == kind ::
      !Sets(before, targets, records, other, env, id)
  }

  ghost predicate SetBy(before: Records, targets: set<int>, records: Records, todo: seq<Item>, env: Env, id: int,
      kind: Kind, after: Record, item: Item)
    requires id in records
  {
    && IsNewest(before, targets, records, todo, env, id, kind, item)
    && after == WithKey(records[id], kind, Key(item.point, item.createdAt))
  }

  /** The newest of these statements that would set the device's key has set it; or there is none and nothing did. */
  ghost predicate NewestSet(before: Records, targets: set<int>, records: Records, todo: seq<Item>, env: Env, id: int,
      kind: Kind, after: Record)
    requires id in records
  {
    || (after == records[id] && NoneSets(before, targets, records, todo, env, id, kind))
    || exists item :: SetBy(before, targets, records, todo, env, id, kind, after, item)
  }

  lemma {:induction false} FirstIsNewest(items: seq<Item>)
    requires Sorted(items) && items != []
    ensures forall item {:trigger item in items} | item in items :: item.createdAt <= items[0].createdAt
  {
    forall item | item in items ensures item.createdAt <= items[0].createdAt {
      var k :| 0 <= k < |items| && items[k] == item;
      SortedFrom(items, 0, k);
    }
  }

  lemma TailParts(todo: seq<Item>, kind: Kind)
    requires todo != [] && Sorted(todo) && AllOf(todo, kind)
    ensures Sorted(todo[1..]) && AllOf(todo[1..], kind) && todo[0].kind == kind
    ensures forall item {:trigger item in todo} :: item in todo <==> item == todo[0] || item in todo[1..]
  {
    assert todo == [todo[0]] + todo[1..];
  }

  /** A statement that sets nothing for this device leaves the rest as it is. */
  lemma SkipsOne(before: Records, targets: set<int>, records: Records, todo: seq<Item>, env: Env, id: int, kind: Kind,
      next: Records, after: Record)
    requires todo != [] && id in records && id in next && next[id] == records[id]
    requires !Sets(before, targets, records, todo[0], env, id)
    requires forall item {:trigger item in todo} :: item in todo <==> item == todo[0] || item in todo[1..]
    requires NewestSet(before, targets, next, todo[1..], env, id, kind, after)
    ensures NewestSet(before, targets, records, todo, env, id, kind, after)
  {
    forall item ensures Sets(before, targets, next, item, env, id) <==> Sets(before, targets, records, item, env, id) {
    }
    if item :| SetBy(before, targets, next, todo[1..], env, id, kind, after, item) {
      assert SetBy(before, targets, records, todo, env, id, kind, after, item);
    }
  }

  /** Once one is set, none that is not newer sets anything. */
  lemma SetsNoMore(before: Records, targets: set<int>, todo: seq<Item>, env: Env, id: int, kind: Kind, next: Records,
      after: Record)
    requires todo != [] && AllOf(todo, kind) && id in next
    requires KeyOf(next[id], kind).Some? && KeyOf(next[id], kind).value.at == todo[0].createdAt
    requires forall item {:trigger item in todo} | item in todo :: item.createdAt <= todo[0].createdAt
    requires forall item {:trigger item in todo} :: item in todo <==> item == todo[0] || item in todo[1..]
    requires NewestSet(before, targets, next, todo[1..], env, id, kind, after)
    ensures after == next[id]
  {
    forall item | item in todo[1..] ensures !Sets(before, targets, next, item, env, id) {
      assert item in todo;
    }
    if item :| SetBy(before, targets, next, todo[1..], env, id, kind, after, item) {
      assert item in todo[1..] && Sets(before, targets, next, item, env, id);
    }
  }

  lemma {:induction false} NewestStatementSets(before: Records, targets: set<int>, records: Records, todo: seq<Item>,
      env: Env, id: int, kind: Kind)
    requires Sorted(todo) && AllOf(todo, kind) && id in records
    ensures var after := StateAll(before, targets, records, todo, env);
            id in after && NewestSet(before, targets, records, todo, env, id, kind, after[id])
    decreases |todo|
  {
    if todo != [] {
      var next := StateOne(before, targets, records, todo[0], env).0;
      TailParts(todo, kind);
      StatementSetsExactlyWhen(before, targets, records, todo[0], env);
      NewestStatementSets(before, targets, next, todo[1..], env, id, kind);
      var after := StateAll(before, targets, next, todo[1..], env);
      if Sets(before, targets, records, todo[0], env, id) {
        FirstIsNewest(todo);
        SetsNoMore(before, targets, todo, env, id, kind, next, after[id]);
        assert SetBy(before, targets, records, todo, env, id, kind, after[id], todo[0]);
      } else {
        SkipsOne(before, targets, records, todo, env, id, kind, next, after[id]);
      }
    }
  }

  lemma {:induction false} StatementsAddNone(before: Records, targets: set<int>, records: Records, todo: seq<Item>,
      env: Env)
    ensures StateAll(before, targets, records, todo, env).Keys == records.Keys
    decreases |todo|
  {
    if todo != [] {
      StatementsAddNone(before, targets, StateOne(before, targets, records, todo[0], env).0, todo[1..], env);
    }
  }

  lemma {:induction false} StatesInTurn(before: Records, targets: set<int>, records: Records, a: seq<Item>,
      b: seq<Item>, env: Env)
    ensures StateAll(before, targets, records, a + b, env)
         == StateAll(before, targets, StateAll(before, targets, records, a, env), b, env)
    decreases |a|
  {
    if a == [] {
      assert a + b == b;
    } else {
      assert (a + b)[1..] == a[1..] + b;
      StatesInTurn(before, targets, StateOne(before, targets, records, a[0], env).0, a[1..], b, env);
    }
  }

  /** Those of one instant, in their order. */
  function Dated(items: seq<Item>, at: int): seq<Item> {
    if items == [] then [] else (if items[0].createdAt == at then [items[0]] else []) + Dated(items[1..], at)
  }

  lemma {:induction false} InsertIsStable(item: Item, items: seq<Item>, at: int)
    ensures Dated(Insert(item, items), at) == (if item.createdAt == at then [item] else []) + Dated(items, at)
    decreases |items|
  {
    if items != [] && item.createdAt < items[0].createdAt {
      InsertIsStable(item, items[1..], at);
      DatedFirst(items[0], Insert(item, items[1..]), at);
      DatedFirst(items[0], items[1..], at);
      assert [items[0]] + items[1..] == items;
    } else {
      DatedFirst(item, items, at);
    }
  }

  lemma DatedFirst(item: Item, items: seq<Item>, at: int)
    ensures Dated([item] + items, at) == (if item.createdAt == at then [item] else []) + Dated(items, at)
  {
    assert ([item] + items)[1..] == items;
  }

  /** Statements of the same instant stay in the order of the listing. */
  lemma {:induction false} NewestFirstIsStable(items: seq<Item>, at: int)
    ensures Dated(NewestFirst(items), at) == Dated(items, at)
    decreases |items|
  {
    if items != [] {
      NewestFirstIsStable(items[1..], at);
      InsertIsStable(items[0], NewestFirst(items[1..]), at);
    }
  }

  /** Sorting a kind's statements keeps them. */
  lemma SortedKind(items: seq<Item>, kind: Kind)
    requires kind.ReadKey? || kind.BoxKey?
    ensures Sorted(NewestFirst(Of(items, kind))) && AllOf(NewestFirst(Of(items, kind)), kind)
    ensures forall item :: item in NewestFirst(Of(items, kind)) <==> item in items && item.kind == kind
  {
    NewestFirstSorts(Of(items, kind));
    OfMembers(items, kind);
    forall item ensures item in NewestFirst(Of(items, kind)) <==> item in Of(items, kind) {
      assert item in multiset(NewestFirst(Of(items, kind))) <==> item in multiset(Of(items, kind));
    }
  }

  /** Only the statements of the kind matter, and only what the records say of the device. */
  lemma SameNewest(before: Records, targets: set<int>, records: Records, others: Records, todo: seq<Item>,
      items: seq<Item>, env: Env, id: int, kind: Kind, after: Record)
    requires id in records && id in others && others[id] == records[id]
    requires NewestSet(before, targets, records, todo, env, id, kind, after)
    requires forall item: Item | item.kind == kind :: item in todo <==> item in items
    ensures NewestSet(before, targets, others, items, env, id, kind, after)
  {
    forall item ensures Sets(before, targets, records, item, env, id) <==> Sets(before, targets, others, item, env, id)
    {
    }
    if item :| SetBy(before, targets, records, todo, env, id, kind, after, item) {
      assert SetBy(before, targets, others, items, env, id, kind, after, item);
    }
  }

  /** All statements of a batch, read keys first: the newest that counts sets each of the device's two keys. */
  lemma StatementsSet(before: Records, targets: set<int>, records: Records, items: seq<Item>, env: Env, id: int)
    returns (r: Record)
    requires id in records
    ensures id in StateAll(before, targets, records, Statements(items), env)
    ensures NewestSet(before, targets, records, items, env, id, ReadKey, r)
    ensures NewestSet(before, targets, records[id := r], items, env, id, BoxKey,
                      StateAll(before, targets, records, Statements(items), env)[id])
  {
    var readKeys, boxKeys := NewestFirst(Of(items, ReadKey)), NewestFirst(Of(items, BoxKey));
    var middle := StateAll(before, targets, records, readKeys, env);
    SortedKind(items, ReadKey);
    SortedKind(items, BoxKey);
    StatesInTurn(before, targets, records, readKeys, boxKeys, env);
    NewestStatementSets(before, targets, records, readKeys, env, id, ReadKey);
    NewestStatementSets(before, targets, middle, boxKeys, env, id, BoxKey);
    r := middle[id];
    SameNewest(before, targets, records, records, readKeys, items, env, id, ReadKey, r);
    SameNewest(before, targets, middle, records[id := r], boxKeys, items, env, id, BoxKey,
               StateAll(before, targets, middle, boxKeys, env)[id]);
  }

  // ---- The revokes and enrollments of a batch ----

  /** The first staged revoke of the device that is honoured. */
  predicate FirstRevoke(before: Records, items: seq<Item>, todo: seq<Item>, env: Env, id: int, i: nat) {
    && i < |todo| && Honoured(before, items, todo[i], env) && todo[i].deviceId == id
    && forall k | 0 <= k < i :: !(Honoured(before, items, todo[k], env) && todo[k].deviceId == id)
  }

  predicate NoRevoke(before: Records, items: seq<Item>, todo: seq<Item>, env: Env, id: int) {
    forall k | 0 <= k < |todo| :: !(Honoured(before, items, todo[k], env) && todo[k].deviceId == id)
  }

  lemma {:induction false} LookForRevoke(before: Records, items: seq<Item>, todo: seq<Item>, env: Env, id: int)
    returns (i: nat)
    ensures FirstRevoke(before, items, todo, env, id, i) || NoRevoke(before, items, todo, env, id)
    decreases |todo|
  {
    i := 0;
    if todo != [] && !(Honoured(before, items, todo[0], env) && todo[0].deviceId == id) {
      var rest := LookForRevoke(before, items, todo[1..], env, id);
      i := rest + 1;
      assert forall k | 0 < k < |todo| :: todo[k] == todo[1..][k - 1];
    }
  }

  lemma RevokeOneAt(before: Records, items: seq<Item>, records: Records, item: Item, env: Env, id: int)
    requires records.Keys == before.Keys && id in before
    ensures var after, r := RevokeOne(before, items, records, item, env).0, records[id];
            && after.Keys == before.Keys
            && after[id] == if Honoured(before, items, item, env) && item.deviceId == id && r.revokedAt.None?
                            then r.(revokedAt := Some(env.now), revokedBy := Some(Device(item.signer)))
                            else r
  {
  }

  lemma {:induction false} RevokesLeave(before: Records, items: seq<Item>, records: Records, todo: seq<Item>, env: Env,
      id: int)
    requires records.Keys == before.Keys && id in before
    requires records[id].revokedAt.Some? || NoRevoke(before, items, todo, env, id)
    ensures var after := RevokeAll(before, items, records, Of(todo, Revoke), env);
            after.Keys == before.Keys && after[id] == records[id]
    decreases |todo|
  {
    if todo != [] {
      if todo[0].kind.Revoke? {
        var next := RevokeOne(before, items, records, todo[0], env).0;
        RevokeOneAt(before, items, records, todo[0], env, id);
        RevokesLeave(before, items, next, todo[1..], env, id);
        assert Of(todo, Revoke)[1..] == Of(todo[1..], Revoke);
      } else {
        RevokesLeave(before, items, records, todo[1..], env, id);
        assert Of(todo, Revoke) == Of(todo[1..], Revoke);
      }
    }
  }

  lemma {:induction false} RevokesMark(before: Records, items: seq<Item>, records: Records, todo: seq<Item>, env: Env,
      id: int, i: nat)
    requires records.Keys == before.Keys && id in before
    requires records[id].revokedAt.None? && FirstRevoke(before, items, todo, env, id, i)
    ensures var after := RevokeAll(before, items, records, Of(todo, Revoke), env);
            && after.Keys == before.Keys
            && after[id] == records[id].(revokedAt := Some(env.now), revokedBy := Some(Device(todo[i].signer)))
    decreases |todo|
  {
    if todo[0].kind.Revoke? {
      var next := RevokeOne(before, items, records, todo[0], env).0;
      RevokeOneAt(before, items, records, todo[0], env, id);
      assert Of(todo, Revoke)[1..] == Of(todo[1..], Revoke);
      if i == 0 {
        RevokesLeave(before, items, next, todo[1..], env, id);
      } else {
        RevokesMark(before, items, next, todo[1..], env, id, i - 1);
      }
    } else {
      assert Of(todo, Revoke) == Of(todo[1..], Revoke);
      RevokesMark(before, items, records, todo[1..], env, id, i - 1);
    }
  }

  /** The first staged enrollment of the device that counts. */
  predicate FirstEnrollment(before: Records, targets: set<int>, todo: seq<Item>, env: Env, id: int, i: nat) {
    && i < |todo| && Enrollable(before, targets, todo[i], env) && todo[i].deviceId == id
    && forall k | 0 <= k < i :: !(Enrollable(before, targets, todo[k], env) && todo[k].deviceId == id)
  }

  predicate NoEnrollment(before: Records, targets: set<int>, todo: seq<Item>, env: Env, id: int) {
    forall k | 0 <= k < |todo| :: !(Enrollable(before, targets, todo[k], env) && todo[k].deviceId == id)
  }

  lemma {:induction false} LookForEnrollment(before: Records, targets: set<int>, todo: seq<Item>, env: Env, id: int)
    returns (i: nat)
    ensures FirstEnrollment(before, targets, todo, env, id, i) || NoEnrollment(before, targets, todo, env, id)
    decreases |todo|
  {
    i := 0;
    if todo != [] && !(Enrollable(before, targets, todo[0], env) && todo[0].deviceId == id) {
      var rest := LookForEnrollment(before, targets, todo[1..], env, id);
      i := rest + 1;
      assert forall k | 0 < k < |todo| :: todo[k] == todo[1..][k - 1];
    }
  }

  /** The record of a device enrolled by a staged message: as the message says, and enrolled by its signer. */
  function EnrolledBy(item: Item): (r: Record)
    ensures r.enrolledBy == Device(item.signer) && r.revokedAt.None? && r.revokedBy.None?
    ensures r.demo == item.device.demo && r.publicKey == item.device.publicKey
    ensures r.readKey == item.device.readKey && r.boxKey == item.device.boxKey
  {
    item.device.(enrolledBy := Device(item.signer), revokedAt := None, revokedBy := None)
  }

  lemma EnrollOneAt(before: Records, targets: set<int>, records: Records, item: Item, env: Env, id: int)
    requires before.Keys <= records.Keys && InRest(item)
    ensures var after := EnrollOne(before, targets, records, item, env).0;
            && records.Keys <= after.Keys
            && (id in records ==> after[id] == records[id])
            && (id !in records ==>
                  && (id in after <==> Enrollable(before, targets, item, env) && item.deviceId == id)
                  && (id in after ==> after[id] == EnrolledBy(item)))
  {
  }

  lemma {:induction false} EnrollsLeave(before: Records, targets: set<int>, records: Records, todo: seq<Item>, env: Env,
      id: int)
    requires before.Keys <= records.Keys && (id in records || NoEnrollment(before, targets, todo, env, id))
    ensures var after := EnrollAll(before, targets, records, Rest(todo), env);
            (id in after <==> id in records) && (id in records ==> after[id] == records[id])
    decreases |todo|
  {
    if todo != [] {
      if InRest(todo[0]) {
        var next := EnrollOne(before, targets, records, todo[0], env).0;
        EnrollOneAt(before, targets, records, todo[0], env, id);
        assert Rest(todo)[1..] == Rest(todo[1..]);
        EnrollsLeave(before, targets, next, todo[1..], env, id);
      } else {
        assert Rest(todo) == Rest(todo[1..]);
        EnrollsLeave(before, targets, records, todo[1..], env, id);
      }
    }
  }

  lemma {:induction false} EnrollsAdd(before: Records, targets: set<int>, records: Records, todo: seq<Item>, env: Env,
      id: int, i: nat)
    requires before.Keys <= records.Keys && id !in records && FirstEnrollment(before, targets, todo, env, id, i)
    ensures var after := EnrollAll(before, targets, records, Rest(todo), env);
            id in after && after[id] == EnrolledBy(todo[i])
    decreases |todo|
  {
    if InRest(todo[0]) {
      var next := EnrollOne(before, targets, records, todo[0], env).0;
      EnrollOneAt(before, targets, records, todo[0], env, id);
      assert Rest(todo)[1..] == Rest(todo[1..]);
      if i == 0 {
        EnrollsLeave(before, targets, next, todo[1..], env, id);
      } else {
        EnrollsAdd(before, targets, next, todo[1..], env, id, i - 1);
      }
    } else {
      assert Rest(todo) == Rest(todo[1..]);
      EnrollsAdd(before, targets, records, todo[1..], env, id, i - 1);
    }
  }

  // ---- What a batch leaves in a record ----

  /** A statement counts for no device that was revoked, is named by a revoke or had no record before the batch. */
  lemma NothingSets(before: Records, targets: set<int>, records: Records, items: seq<Item>, env: Env, id: int,
      after: Record)
    requires id in records && (records[id].revokedAt.Some? || id in targets || id !in before)
    requires exists r ::
               && NewestSet(before, targets, records, items, env, id, ReadKey, r)
               && NewestSet(before, targets, records[id := r], items, env, id, BoxKey, after)
    ensures after == records[id]
  {
    var r :|
      && NewestSet(before, targets, records, items, env, id, ReadKey, r)
      && NewestSet(before, targets, records[id := r], items, env, id, BoxKey, after);
    assert r == records[id];
  }

  /** The records after the revokes and enrollments of a batch. */
  function Enrolled(before: Records, items: seq<Item>, env: Env): Records {
    var targets := RevokedTargets(before, items, env);
    EnrollAll(before, targets, RevokeAll(before, items, before, Of(items, Revoke), env), Rest(items), env)
  }

  /**
   * A device that stood and that no honoured revoke names keeps its record, but for its two keys: each is now that of
   * the newest staged statement that counts, or as it was if none does.
   */
  lemma StandingRecord(before: Records, items: seq<Item>, env: Env, id: int) returns (r: Record)
    requires id in before && before[id].revokedAt.None? && id !in RevokedTargets(before, items, env)
    ensures var targets := RevokedTargets(before, items, env);
            && id in Batch(before, items, env)
            && NewestSet(before, targets, before, items, env, id, ReadKey, r)
            && NewestSet(before, targets, before[id := r], items, env, id, BoxKey, Batch(before, items, env)[id])
  {
    var targets := RevokedTargets(before, items, env);
    var revoked := RevokeAll(before, items, before, Of(items, Revoke), env);
    RevokesLeave(before, items, before, items, env, id);
    EnrollsLeave(before, targets, revoked, items, env, id);
    var enrolled := Enrolled(before, items, env);
    r := StatementsSet(before, targets, enrolled, items, env, id);
    SameNewest(before, targets, enrolled, before, items, items, env, id, ReadKey, r);
    SameNewest(before, targets, enrolled[id := r], before[id := r], items, items, env, id, BoxKey,
               Batch(before, items, env)[id]);
  }

  /** A device that an honoured revoke names is revoked now, by the signer of the first such; its keys stay. */
  lemma RevokedRecord(before: Records, items: seq<Item>, env: Env, id: int) returns (i: nat)
    requires id in before && before[id].revokedAt.None? && id in RevokedTargets(before, items, env)
    ensures FirstRevoke(before, items, items, env, id, i) && id in Batch(before, items, env)
    ensures Batch(before, items, env)[id]
         == before[id].(revokedAt := Some(env.now), revokedBy := Some(Device(items[i].signer)))
  {
    var targets := RevokedTargets(before, items, env);
    i := LookForRevoke(before, items, items, env, id);
    var item :| item in items && Honoured(before, items, item, env) && item.deviceId == id;
    var k :| 0 <= k < |items| && items[k] == item;
    RevokesMark(before, items, before, items, env, id, i);
    EnrollsLeave(before, targets, RevokeAll(before, items, before, Of(items, Revoke), env), items, env, id);
    var r := StatementsSet(before, targets, Enrolled(before, items, env), items, env, id);
    NothingSets(before, targets, Enrolled(before, items, env), items, env, id, Batch(before, items, env)[id]);
  }

  /** A device without a record gets that of the first staged enrollment that counts, and has none if none does. */
  lemma NewRecord(before: Records, items: seq<Item>, env: Env, id: int) returns (i: nat)
    requires id !in before
    ensures id in Batch(before, items, env) <==> id in EnrolledSet(before, items, env)
    ensures id in Batch(before, items, env) ==>
              && FirstEnrollment(before, RevokedTargets(before, items, env), items, env, id, i)
              && Batch(before, items, env)[id] == EnrolledBy(items[i])
  {
    var targets := RevokedTargets(before, items, env);
    i := LookForEnrollment(before, targets, items, env, id);
    NewRecordIs(before, items, env, id, i);
    if id in EnrolledSet(before, items, env) {
      var item :| item in items && Enrollable(before, targets, item, env) && item.deviceId == id;
      var k :| 0 <= k < |items| && items[k] == item;
    } else if i < |items| {
      assert items[i] in items;
    }
  }

  lemma NewRecordIs(before: Records, items: seq<Item>, env: Env, id: int, i: nat)
    requires var targets := RevokedTargets(before, items, env);
             id !in before && (FirstEnrollment(before, targets, items, env, id, i)
                               || NoEnrollment(before, targets, items, env, id))
    ensures var batch := Batch(before, items, env);
            && (id in batch <==> FirstEnrollment(before, RevokedTargets(before, items, env), items, env, id, i))
            && (id in batch ==> batch[id] == EnrolledBy(items[i]))
  {
    var targets := RevokedTargets(before, items, env);
    var revoked := RevokeAll(before, items, before, Of(items, Revoke), env);
    OfMembers(items, Revoke);
    RevokeAllActive(before, items, before, Of(items, Revoke), env);
    StatementsAddNone(before, targets, Enrolled(before, items, env), Statements(items), env);
    if FirstEnrollment(before, targets, items, env, id, i) {
      EnrollsAdd(before, targets, revoked, items, env, id, i);
      var r := StatementsSet(before, targets, Enrolled(before, items, env), items, env, id);
      NothingSets(before, targets, Enrolled(before, items, env), items, env, id, Batch(before, items, env)[id]);
    } else {
      EnrollsLeave(before, targets, revoked, items, env, id);
    }
  }

  // ---- The console ----

  /** The console enrolls a device, or enrolls it anew, unless that would undo a revocation or take its box key away. */
  lemma ConsoleEnrolls(records: Records, id: int, device: Record)
    ensures var refused := id in records
                           && (records[id].revokedAt.Some? || (records[id].boxKey.Some? && device.boxKey.None?));
            Do(records, ConsoleEnroll(id, device))
            == if refused then records
               else records[id := Record(device.demo, device.publicKey, device.readKey, device.boxKey, Console, None,
                                         None)]
  {
  }

  /** The console revokes a device that has a record, once. */
  lemma ConsoleRevokes(records: Records, id: int, now: int)
    ensures Do(records, ConsoleRevoke(id, now))
         == if id in records && records[id].revokedAt.None?
            then records[id := records[id].(revokedAt := Some(now), revokedBy := Some(Console))]
            else records
  {
  }

  /** Each operation of a run works on the records that those before it left. */
  lemma {:induction false} RunGoesOn(records: Records, ops: seq<Op>, op: Op)
    ensures Run(records, ops + [op]) == Do(Run(records, ops), op)
    decreases |ops|
  {
    if ops == [] {
      assert [op][1..] == [] && ops + [op] == [op];
    } else {
      assert (ops + [op])[1..] == ops[1..] + [op];
      RunGoesOn(Do(records, ops[0]), ops[1..], op);
    }
  }
}
