/**
 * One batch of staged device messages (src/approvals/approver-admin.js), judged against the approver set as it stood
 * before the batch: revocations first, and they always win; then enrollments; then statements of a device's own keys.
 */
module ApproverAdmin {
  import opened Basics

  datatype By = Console | Device(id: int)

  datatype Key = Key(point: int, at: int)

  datatype Record = Record(demo: bool, publicKey: int, readKey: Option<Key>, boxKey: Option<Key>, enrolledBy: By,
                           revokedAt: Option<int>, revokedBy: Option<By>)

  type Records = map<int, Record>

  datatype Kind = Revoke | Enroll | ReadKey | BoxKey | Unsafe | Unreadable

  /** A staged file. For a key statement the signer is the device itself and `point` the key it states. */
  datatype Item = Item(file: nat, kind: Kind, createdAt: int, wellFormed: bool, deviceId: int, signer: int,
                       kid: int, signedBy: int, device: Record, point: int)

  datatype Verdict = Revoked | Deferred | Enrolled | KeySet | FromFuture | TooOld | Malformed | SelfRevoke
    | SignerNotActive | DeviceRevoked | DemoDevice | TestKey | AlreadyEnrolled | AlreadySet | StaleKey | NotReadable
    | NotSafe

  datatype Result = Result(file: nat, verdict: Verdict)

  /** published: the test keys anyone knows. trusted: the approver directory passed its ownership check. */
  datatype Env = Env(now: int, allowTestKeys: bool, trusted: bool, published: set<int>)

  const WEEK_MS := 604800000
  const SKEW_MS := 300000

  // ---- The approver set ----

  predicate HasTestKey(r: Record, env: Env) {
    || r.publicKey in env.published
    || (r.readKey.Some? && r.readKey.value.point in env.published)
    || (r.boxKey.Some? && r.boxKey.value.point in env.published)
  }

  predicate Usable(r: Record, env: Env) {
    !r.demo && r.revokedAt.None? && (env.allowTestKeys || !HasTestKey(r, env))
  }

  /** The devices that may approve, the revoke overlay aside. */
  function Active(records: Records, env: Env): set<int> {
    set id | id in records && Usable(records[id], env)
  }

  /** The snapshot a batch is judged against: an untrusted directory counts for nothing. */
  function Applied(records: Records, env: Env): set<int> {
    if env.trusted then Active(records, env) else {}
  }

  // ---- Judging one item ----

  function Outdated(item: Item, env: Env): Option<Verdict> {
    if item.createdAt - env.now > SKEW_MS then Some(FromFuture)
    else if env.now - item.createdAt > WEEK_MS then Some(TooOld)
    else if !item.wellFormed then Some(Malformed)
    else None
  }

  predicate Signed(before: Records, item: Item, env: Env) {
    item.signer in Applied(before, env) && item.kid == item.signer && item.signedBy == before[item.signer].publicKey
  }

  function JudgeRevoke(before: Records, item: Item, env: Env): Option<Verdict> {
    if Outdated(item, env).Some? then Outdated(item, env)
    else if item.signer == item.deviceId then Some(SelfRevoke)
    else if !Signed(before, item, env) then Some(SignerNotActive)
    else None
  }

  predicate ValidRevoke(before: Records, item: Item, env: Env) {
    item.kind.Revoke? && JudgeRevoke(before, item, env).None?
  }

  /** Devices with a record that a valid revoke names: only these could have signed anything. */
  function RevokedSigners(before: Records, items: seq<Item>, env: Env): set<int> {
    set item | item in items && ValidRevoke(before, item, env) && item.deviceId in before :: item.deviceId
  }

  /**
   * A deferral (a revoke of a device with no record yet) is not honoured when its own signer is revoked in the same
   * batch.
   */
  predicate Honoured(before: Records, items: seq<Item>, item: Item, env: Env) {
    ValidRevoke(before, item, env) && (item.deviceId in before || item.signer !in RevokedSigners(before, items, env))
  }

  function RevokedTargets(before: Records, items: seq<Item>, env: Env): set<int> {
    set item | item in items && Honoured(before, items, item, env) :: item.deviceId
  }

  /** Every check of an enrollment but the one against the record file. */
  function JudgeEnroll(before: Records, targets: set<int>, item: Item, env: Env): Option<Verdict> {
    if item.kind.Unreadable? then Some(NotReadable)
    else if Outdated(item, env).Some? then Outdated(item, env)
    else if item.deviceId in targets then Some(DeviceRevoked)
    else if !Signed(before, item, env) || item.signer in targets then Some(SignerNotActive)
    else if !env.allowTestKeys && item.device.demo then Some(DemoDevice)
    else if !env.allowTestKeys && HasTestKey(item.device, env) then Some(TestKey)
    else None
  }

  predicate InRest(item: Item) {
    item.kind.Enroll? || item.kind.Unreadable?
  }

  /** An enrollment that a batch carries out, unless an earlier one in it enrolled the same device. */
  predicate Enrollable(before: Records, targets: set<int>, item: Item, env: Env) {
    InRest(item) && JudgeEnroll(before, targets, item, env).None? && item.deviceId !in before
  }

  function EnrolledSet(before: Records, items: seq<Item>, env: Env): set<int> {
    set item | item in items && Enrollable(before, RevokedTargets(before, items, env), item, env) :: item.deviceId
  }

  /** The key rules: not a point the record holds elsewhere, not a published key, and newer than the key it replaces. */
  function JudgeKey(r: Record, item: Item, env: Env): Option<Verdict> {
    var own := if item.kind.ReadKey? then r.readKey else r.boxKey;
    var other := if item.kind.ReadKey? then r.boxKey else r.readKey;
    if item.point == r.publicKey || (other.Some? && other.value.point == item.point) then Some(Malformed)
    else if !env.allowTestKeys && item.point in env.published then Some(TestKey)
    else if own.Some? && own.value.point == item.point then Some(AlreadySet)
    else if own.Some? && item.createdAt <= own.value.at then Some(StaleKey)
    else None
  }

  function JudgeStatement(before: Records, targets: set<int>, records: Records, item: Item, env: Env): Option<Verdict> {
    if Outdated(item, env).Some? then Outdated(item, env)
    else if item.deviceId in targets then Some(DeviceRevoked)
    else if item.signer != item.deviceId || !Signed(before, item, env) then Some(SignerNotActive)
    else if item.deviceId !in records || records[item.deviceId].revokedAt.Some? then Some(DeviceRevoked)
    else JudgeKey(records[item.deviceId], item, env)
  }

  // ---- Writing one record ----

  /** A revoked record is never written over with one that is not. */
  function WriteApprover(records: Records, id: int, record: Record): Records {
    if id in records && records[id].revokedAt.Some? && record.revokedAt.None? then records else records[id := record]
  }

  /** Keeps the first revocation. A device with no record is an error and writes nothing. */
  function MarkRevoked(records: Records, id: int, who: By, now: int): Records {
    if id !in records || records[id].revokedAt.Some? then records
    else records[id := records[id].(revokedAt := Some(now), revokedBy := Some(who))]
  }

  // ---- Carrying the batch out, item by item ----

  function RevokeOne(before: Records, items: seq<Item>, records: Records, item: Item, env: Env): (Records, Verdict) {
    var judged := JudgeRevoke(before, item, env);
    if judged.Some? then (records, judged.value)
    else if !Honoured(before, items, item, env) then (records, SignerNotActive)
    else if item.deviceId !in before then (records, Deferred)
    else (MarkRevoked(records, item.deviceId, Device(item.signer), env.now), Revoked)
  }

  function EnrollOne(before: Records, targets: set<int>, records: Records, item: Item, env: Env): (Records, Verdict) {
    var judged := JudgeEnroll(before, targets, item, env);
    if judged.Some? then (records, judged.value)
    else if item.deviceId in records then
      (records, if records[item.deviceId].revokedAt.Some? then DeviceRevoked else AlreadyEnrolled)
    else
      var record := item.device.(enrolledBy := Device(item.signer), revokedAt := None, revokedBy := None);
      (WriteApprover(records, item.deviceId, record), Enrolled)
  }

  function StateOne(before: Records, targets: set<int>, records: Records, item: Item, env: Env): (Records, Verdict) {
    var judged := JudgeStatement(before, targets, records, item, env);
    if judged.Some? then (records, judged.value)
    else if item.deviceId !in records then (records, DeviceRevoked)
    else
      var key := Some(Key(item.point, item.createdAt));
      var r := records[item.deviceId];
      (WriteApprover(records, item.deviceId, if item.kind.ReadKey? then r.(readKey := key) else r.(boxKey := key)),
          KeySet)
  }

  function Of(items: seq<Item>, kind: Kind): seq<Item> {
    if items == [] then [] else (if items[0].kind == kind then [items[0]] else []) + Of(items[1..], kind)
  }

  function Rest(items: seq<Item>): seq<Item> {
    if items == [] then [] else (if InRest(items[0]) then [items[0]] else []) + Rest(items[1..])
  }

  /** Stable, newest first. */
  function Insert(item: Item, sorted: seq<Item>): seq<Item> {
    if sorted == [] || item.createdAt >= sorted[0].createdAt then [item] + sorted
    else [sorted[0]] + Insert(item, sorted[1..])
  }

  function NewestFirst(items: seq<Item>): seq<Item> {
    if items == [] then [] else Insert(items[0], NewestFirst(items[1..]))
  }

  function Statements(items: seq<Item>): seq<Item> {
    NewestFirst(Of(items, ReadKey)) + NewestFirst(Of(items, BoxKey))
  }

  function RevokeAll(before: Records, items: seq<Item>, records: Records, todo: seq<Item>, env: Env): Records
    decreases todo
  {
    if todo == [] then records
    else RevokeAll(before, items, RevokeOne(before, items, records, todo[0], env).0, todo[1..], env)
  }

  function EnrollAll(before: Records, targets: set<int>, records: Records, todo: seq<Item>, env: Env): Records
    decreases todo
  {
    if todo == [] then records
    else EnrollAll(before, targets, EnrollOne(before, targets, records, todo[0], env).0, todo[1..], env)
  }

  function StateAll(before: Records, targets: set<int>, records: Records, todo: seq<Item>, env: Env): Records
    decreases todo
  {
    if todo == [] then records
    else StateAll(before, targets, StateOne(before, targets, records, todo[0], env).0, todo[1..], env)
  }

  /** The approver set after one batch. */
  function Batch(before: Records, items: seq<Item>, env: Env): Records {
    var targets := RevokedTargets(before, items, env);
    var revoked := RevokeAll(before, items, before, Of(items, Revoke), env);
    StateAll(before, targets, EnrollAll(before, targets, revoked, Rest(items), env), Statements(items), env)
  }

  /** Deferred revokes and files that cannot safely be acted on stay staged; everything else is done with. */
  predicate StaysStaged(before: Records, items: seq<Item>, item: Item, env: Env) {
    item.kind.Unsafe? || (Honoured(before, items, item, env) && item.deviceId !in before)
  }
}
