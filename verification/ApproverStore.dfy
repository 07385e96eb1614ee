/**
 * The service's side of src/approvals/approver-store.js: relayed messages are staged for the administrator, and a
 * relayed revoke blocks its device at once.
 */
module ApproverStores {
  import opened Basics
  import opened ApproverAdmin
  import opened ApproverBatch

  /** Why a relayed message is turned away, in the order in which it is looked for. */
  datatype Reason = BadShape | Early | Expired | OwnRevoke | SignerInactive | BadSignature | Demo | Published
    | WasRevoked | OldKey | NotWritten

  datatype Answer = Staged | RevokedPendingApply | KeyPendingApply | AppliedAlready | Duplicate
    | Rejected(reason: Reason)

  /**
   * overlay: devices blocked by a relayed revoke. staged: the files waiting in staged/. done: the nonces in
   * staged/done.
   */
  datatype Store = Store(overlay: set<int>, staged: seq<Item>, done: set<nat>)

  /** isActive with the overlay; Applied is isAdminApplied. */
  predicate IsActive(s: Store, records: Records, id: int, env: Env) {
    id in Applied(records, env) && id !in s.overlay
  }

  function ActiveNow(s: Store, records: Records, env: Env): set<int> {
    set id | id in Applied(records, env) && IsActive(s, records, id, env)
  }

  predicate Known(s: Store, nonce: nat) {
    nonce in s.done || (exists item :: item in s.staged && item.file == nonce)
  }

  function SignatureFault(records: Records, item: Item): Option<Reason>
    requires item.signer in records
  {
    if item.signedBy != records[item.signer].publicKey then Some(BadSignature) else None
  }

  /** A relayed revoke is checked against the admin-applied set: the overlay plays no part. */
  function RevokeFault(records: Records, item: Item, env: Env): Option<Reason> {
    if item.kid != item.signer then Some(BadShape)
    else if item.signer == item.deviceId then Some(OwnRevoke)
    else if item.signer !in Applied(records, env) then Some(SignerInactive)
    else SignatureFault(records, item)
  }

  predicate RevokeChecks(records: Records, item: Item, env: Env) {
    RevokeFault(records, item, env).None?
  }

  /**
   * An enrollment's signer must be active under the overlay as well; a demo device or a published key needs test keys
   * allowed.
   */
  function EnrollFault(s: Store, records: Records, item: Item, env: Env): Option<Reason> {
    if item.kid != item.signer then Some(BadShape)
    else if !IsActive(s, records, item.signer, env) then Some(SignerInactive)
    else if SignatureFault(records, item).Some? then SignatureFault(records, item)
    else if !env.allowTestKeys && item.device.demo then Some(Demo)
    else if !env.allowTestKeys && HasTestKey(item.device, env) then Some(Published)
    else if env.trusted && item.deviceId in records && records[item.deviceId].revokedAt.Some? then Some(WasRevoked)
    else None
  }

  function StatementFault(s: Store, records: Records, item: Item, env: Env): Option<Reason> {
    if item.kid != item.deviceId || item.signer != item.deviceId then Some(BadShape)
    else if !IsActive(s, records, item.deviceId, env) then Some(SignerInactive)
    else SignatureFault(records, item)
  }

  /** A key statement that names the key its device's record holds already. */
  predicate AlreadyApplied(s: Store, records: Records, item: Item, env: Env) {
    && (item.kind.ReadKey? || item.kind.BoxKey?) && item.wellFormed
    && StatementFault(s, records, item, env).None? && JudgeKey(records[item.deviceId], item, env) == Some(AlreadySet)
  }

  function KeyReason(judged: Verdict): Reason {
    match judged
    case TestKey => Published
    case StaleKey => OldKey
    case _ => BadShape
  }

  /** The checks of any message by its shape and its dates. */
  function DateFault(item: Item, expiresAt: int, env: Env): Option<Reason> {
    if !item.wellFormed then Some(BadShape)
    else if item.createdAt - env.now > SKEW_MS then Some(Early)
    else if env.now > expiresAt then Some(Expired)
    else None
  }

  function FaultOf(s: Store, records: Records, item: Item, expiresAt: int, env: Env): Option<Reason> {
    if DateFault(item, expiresAt, env).Some? then DateFault(item, expiresAt, env)
    else if item.kind.Revoke? then RevokeFault(records, item, env)
    else if item.kind.Enroll? then EnrollFault(s, records, item, env)
    else StatementFault(s, records, item, env)
  }

  /** The write may fail; the overlay has changed by then. */
  function Stage(s: Store, records: Records, item: Item, expiresAt: int, written: bool, env: Env): (Store, Answer) {
    var kept := if written then s.(staged := s.staged + [item]) else s;
    if item.kind.Unsafe? || item.kind.Unreadable? then (s, Rejected(BadShape))
    else if Known(s, item.file) then (s, if AlreadyApplied(s, records, item, env) then AppliedAlready else Duplicate)
    else if FaultOf(s, records, item, expiresAt, env).Some? then
      (s, Rejected(FaultOf(s, records, item, expiresAt, env).value))
    else if item.kind.Revoke? then
      (kept.(overlay := s.overlay + {item.deviceId}), if written then RevokedPendingApply else Rejected(NotWritten))
    else if item.kind.Enroll? then
      if item.deviceId in Applied(records, env) then (s, Duplicate)
      else (kept, if written then Staged else Rejected(NotWritten))
    else
      match JudgeKey(records[item.deviceId], item, env)
      case Some(AlreadySet) => (s, AppliedAlready)
      case Some(judged) => (s, Rejected(KeyReason(judged)))
      case None => (kept, if written then KeyPendingApply else Rejected(NotWritten))
  }

  /** What the staged revokes block, given the records as they are. */
  function Blocked(staged: seq<Item>, records: Records, env: Env): set<int> {
    set item | item in staged && item.kind.Revoke? && item.wellFormed && RevokeChecks(records, item, env) ::
          item.deviceId
  }

  /** At start-up the overlay is built anew from the staged files. */
  function Rebuild(s: Store, records: Records, env: Env): Store {
    s.(overlay := Blocked(s.staged, records, env))
  }

  // ---- What relayed messages can do ----

  /** Nothing relayed ever makes a device active: the overlay only takes devices away from the admin-applied set. */
  lemma StagingOnlyShrinks(s: Store, records: Records, item: Item, expiresAt: int, written: bool, env: Env)
    ensures ActiveNow(Stage(s, records, item, expiresAt, written, env).0, records, env) <= ActiveNow(s, records,
        env) <= Applied(records, env)
  {
    var after := Stage(s, records, item, expiresAt, written, env).0;
    assert s.overlay <= after.overlay;
  }

  lemma BlockedGrows(staged: seq<Item>, item: Item, records: Records, env: Env)
    ensures Blocked(staged, records, env) <= Blocked(staged + [item], records, env)
    ensures Blocked(staged + [item], records, env) <= Blocked(staged, records, env) + {item.deviceId}
    ensures !item.kind.Revoke? ==> Blocked(staged + [item], records, env) == Blocked(staged, records, env)
  {
    forall id | id in Blocked(staged + [item], records, env)
      ensures id in Blocked(staged, records, env) || (id == item.deviceId && item.kind.Revoke?)
    {
      var x :| x in staged + [item] && x.kind.Revoke? && x.wellFormed && RevokeChecks(records, x, env)
          && x.deviceId == id;
      if x !in staged {
        assert x == item;
      }
    }
  }

  /**
   * A thief's revoke of the owner does not stop the owner's revoke of the thief: whatever was relayed before, it is
   * taken and blocks.
   */
  lemma CounterRevokeWorks(s: Store, records: Records, item: Item, expiresAt: int, env: Env)
    requires item.kind.Revoke? && item.wellFormed && !Known(s, item.file)
    requires item.createdAt - env.now <= SKEW_MS && env.now <= expiresAt
    requires item.signer in Applied(records, env) && item.signer != item.deviceId
    requires item.kid == item.signer && item.signedBy == records[item.signer].publicKey
    ensures var (after, answer) := Stage(s, records, item, expiresAt, true, env);
      answer == RevokedPendingApply && item in after.staged && !IsActive(after, records, item.deviceId, env)
  {
    assert Signed(records, item, env);
  }

  /**
   * A revoke the service took, applied within a week of its date while its signer is still trusted, revokes its
   * device.
   */
  lemma StagedRevokeIsApplied(s: Store, records: Records, item: Item, expiresAt: int, at: Env, env: Env)
    requires Stage(s, records, item, expiresAt, true, at).1.RevokedPendingApply?
    requires at.now <= env.now <= item.createdAt + WEEK_MS && item.signer in Applied(records, env)
    requires item.deviceId in records
    ensures item.deviceId !in Active(Batch(records, Stage(s, records, item, expiresAt, true, at).0.staged, env), env)
  {
    var items := Stage(s, records, item, expiresAt, true, at).0.staged;
    assert item == items[|items| - 1];
    RevokeAlwaysWins(records, items, env, item);
  }

  class ApproverStore {
    var overlay: set<int>
    var staged: seq<Item>
    var done: set<nat>

    ghost function Model(): Store
      reads this
    {
      Store(overlay, staged, done)
    }

    constructor ()
      ensures Model() == Store({}, [], {})
    {
      overlay, staged, done := {}, [], {};
    }

    method RebuildOverlay(records: Records, env: Env)
      modifies this`overlay
      ensures Model() == Rebuild(old(Model()), records, env)
    {
      overlay := {};
      var i := 0;
      while i < |staged|
        invariant 0 <= i <= |staged|
        invariant overlay == Blocked(staged[..i], records, env)
      {
        var item := staged[i];
        assert staged[..i + 1] == staged[..i] + [item];
        BlockedGrows(staged[..i], item, records, env);
        if item.kind.Revoke? && item.wellFormed && RevokeChecks(records, item, env) {
          overlay := overlay + {item.deviceId};
        }
        i := i + 1;
      }
      assert staged[..i] == staged;
    }

    method IsKnownNonce(nonce: nat) returns (known: bool)
      ensures known <==> Known(Model(), nonce)
    {
      if nonce in done {
        return true;
      }
      var i := 0;
      while i < |staged|
        invariant 0 <= i <= |staged|
        invariant forall item :: item in staged[..i] ==> item.file != nonce
      {
        if staged[i].file == nonce {
          return true;
        }
        assert staged[..i + 1] == staged[..i] + [staged[i]];
        i := i + 1;
      }
      assert staged[..i] == staged;
      known := false;
    }

    method Receive(records: Records, item: Item, expiresAt: int, written: bool, env: Env) returns (answer: Answer)
      modifies this
      ensures Stage(old(Model()), records, item, expiresAt, written, env) == (Model(), answer)
    {
      if item.kind.Unsafe? || item.kind.Unreadable? {
        return Rejected(BadShape);
      }
      var known := IsKnownNonce(item.file);
      if known {
        return if AlreadyApplied(Store(overlay, staged, done), records, item, env) then AppliedAlready else Duplicate;
      }
      var fault := FaultOf(Store(overlay, staged, done), records, item, expiresAt, env);
      if fault.Some? {
        return Rejected(fault.value);
      }
      if item.kind.Revoke? {
        // Before the write: the block holds even if the file cannot be kept.
        overlay := overlay + {item.deviceId};
        answer := Keep(item, written, RevokedPendingApply);
      } else if item.kind.Enroll? {
        if item.deviceId in Applied(records, env) {
          return Duplicate;
        }
        answer := Keep(item, written, Staged);
      } else {
        var judged := JudgeKey(records[item.deviceId], item, env);
        if judged == Some(AlreadySet) {
          return AppliedAlready;
        }
        if judged.Some? {
          return Rejected(KeyReason(judged.value));
        }
        answer := Keep(item, written, KeyPendingApply);
      }
    }

    method Keep(item: Item, written: bool, ok: Answer) returns (answer: Answer)
      modifies this`staged
      ensures staged == (if written then old(staged) + [item] else old(staged))
      ensures answer == if written then ok else Rejected(NotWritten)
    {
      if written {
        staged := staged + [item];
      }
      answer := if written then ok else Rejected(NotWritten);
    }
  }
}
