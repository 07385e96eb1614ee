/** Which relayed messages the service keeps for the administrator, when one blocks a device, and what it answers. */
module ApproverStaging {
  import opened Basics
  import opened ApproverAdmin
  import opened ApproverBatch
  import opened ApproverRuns
  import opened ApproverRecords
  import opened ApproverStores

  /** Well-formed, not from more than five minutes ahead, and not expired. */
  predicate InTime(item: Item, expiresAt: int, env: Env) {
    item.wellFormed && item.createdAt <= env.now + 300000 && env.now <= expiresAt
  }

  /** A message that can be acted on and has not come before. */
  predicate IsNew(s: Store, item: Item) {
    && !item.kind.Unsafe? && !item.kind.Unreadable?
    && item.file !in s.done && forall x | x in s.staged :: x.file != item.file
  }

  /** Signed by another admin-applied device: the overlay does not matter. */
  predicate RevokePasses(records: Records, item: Item, env: Env) {
    CarriesSignature(records, item, env) && item.signer != item.deviceId
  }

  /** Signed by a device that no relayed revoke blocks, of a device that was not revoked, with keys of its own. */
  predicate EnrollPasses(s: Store, records: Records, item: Item, env: Env) {
    && CarriesSignature(records, item, env) && item.signer !in s.overlay
    && (env.allowTestKeys || (!item.device.demo && Points(item.device) !! env.published))
    && !(item.deviceId in records && records[item.deviceId].revokedAt.Some?)
  }

  /** Signed by its own device, which no relayed revoke blocks. */
  predicate StatementPasses(s: Store, records: Records, item: Item, env: Env) {
    CarriesSignature(records, item, env) && item.signer == item.deviceId && item.deviceId !in s.overlay
  }

  /** The store with the file kept, if it could be written. */
  function Keeping(s: Store, item: Item, written: bool): Store {
    if written then s.(staged := s.staged + [item]) else s
  }

  lemma AppliedMaySign(records: Records, id: int, env: Env)
    ensures id in Applied(records, env) <==> MaySign(records, id, env)
  {
    if id in records {
      PublishedKeys(records[id], env);
    }
  }

  /** A new revoke that passes blocks its device whether or not it can be written; any other changes nothing. */
  lemma RevokeIsStaged(s: Store, records: Records, item: Item, expiresAt: int, written: bool, env: Env)
    requires item.kind.Revoke? && IsNew(s, item)
    ensures var (after, answer) := Stage(s, records, item, expiresAt, written, env);
            if InTime(item, expiresAt, env) && RevokePasses(records, item, env) then
              && after == Keeping(s, item, written).(overlay := s.overlay + {item.deviceId})
              && answer == (if written then RevokedPendingApply else Rejected(NotWritten))
            else after == s && answer.Rejected? && answer.reason != NotWritten
  {
    AppliedMaySign(records, item.signer, env);
  }

  /** A new enrollment that passes is kept, unless the device may approve already; any other changes nothing. */
  lemma EnrollmentIsStaged(s: Store, records: Records, item: Item, expiresAt: int, written: bool, env: Env)
    requires item.kind.Enroll? && IsNew(s, item)
    ensures var (after, answer) := Stage(s, records, item, expiresAt, written, env);
            if InTime(item, expiresAt, env) && EnrollPasses(s, records, item, env) then
              if MaySign(records, item.deviceId, env) then after == s && answer == Duplicate
              else
                && after == Keeping(s, item, written)
                && answer == (if written then Staged else Rejected(NotWritten))
            else after == s && answer.Rejected? && answer.reason != NotWritten
  {
    AppliedMaySign(records, item.signer, env);
    AppliedMaySign(records, item.deviceId, env);
    PublishedKeys(item.device, env);
  }

  /** A new key statement that passes is kept if the record may take the key; if it holds it already it says so. */
  lemma StatementIsStaged(s: Store, records: Records, item: Item, expiresAt: int, written: bool, env: Env)
    requires Statement(item) && IsNew(s, item)
    ensures var (after, answer) := Stage(s, records, item, expiresAt, written, env);
            if InTime(item, expiresAt, env) && StatementPasses(s, records, item, env) then
              var judged := JudgeKey(records[item.deviceId], item, env);
              if MaySet(records[item.deviceId], item, env) then
                && after == Keeping(s, item, written)
                && answer == (if written then KeyPendingApply else Rejected(NotWritten))
              else
                && after == s
                && (answer == AppliedAlready <==> judged == Some(AlreadySet))
                && (answer == Rejected(OldKey) <==> judged == Some(StaleKey))
                && (answer == Rejected(Published) <==> judged == Some(TestKey))
                && (answer == Rejected(BadShape) <==> judged == Some(ApproverAdmin.Malformed))
            else after == s && answer.Rejected? && answer.reason != NotWritten
  {
    AppliedMaySign(records, item.deviceId, env);
    if item.deviceId in records {
      KeyIsRefusedBecause(records[item.deviceId], item, env);
    }
  }

  /** A message that came before, or that cannot be acted on, changes nothing. */
  lemma NothingNew(s: Store, records: Records, item: Item, expiresAt: int, written: bool, env: Env)
    requires !IsNew(s, item)
    ensures var (after, answer) := Stage(s, records, item, expiresAt, written, env);
            var acts := !item.kind.Unsafe? && !item.kind.Unreadable?;
            && after == s
            && (!acts ==> answer == Rejected(BadShape))
            && (acts ==> answer == AppliedAlready || answer == Duplicate)
            && (acts && answer == AppliedAlready <==>
                  && Statement(item) && item.wellFormed && StatementPasses(s, records, item, env)
                  && JudgeKey(records[item.deviceId], item, env) == Some(AlreadySet))
  {
    AppliedMaySign(records, item.deviceId, env);
  }

  // ---- What is said of a message that is turned away ----

  /** Its dates are looked at first: no right shape, too early, expired. */
  lemma DatesAreRefused(s: Store, records: Records, item: Item, expiresAt: int, env: Env)
    ensures var fault := FaultOf(s, records, item, expiresAt, env);
            && (!item.wellFormed ==> fault == Some(BadShape))
            && (item.wellFormed && item.createdAt > env.now + 300000 ==> fault == Some(Early))
            && (item.wellFormed && item.createdAt <= env.now + 300000 && env.now > expiresAt ==> fault == Some(Expired))
  {
  }

  /** Then who signed it: a revoke by a device of itself, a signer that may not, and a signature that is not its own. */
  lemma RevokeIsTurnedAway(s: Store, records: Records, item: Item, expiresAt: int, env: Env)
    requires item.kind.Revoke? && InTime(item, expiresAt, env)
    ensures var fault := FaultOf(s, records, item, expiresAt, env);
            var named := item.kid == item.signer;
            && (fault == Some(BadShape) <==> !named)
            && (fault == Some(OwnRevoke) <==> named && item.signer == item.deviceId)
            && (fault == Some(SignerInactive) <==>
                  named && item.signer != item.deviceId && !MaySign(records, item.signer, env))
            && (fault == Some(BadSignature) <==>
                  && named && item.signer != item.deviceId && MaySign(records, item.signer, env)
                  && item.signedBy != records[item.signer].publicKey)
  {
    AppliedMaySign(records, item.signer, env);
  }

  lemma EnrollmentIsTurnedAway(s: Store, records: Records, item: Item, expiresAt: int, env: Env)
    requires item.kind.Enroll? && InTime(item, expiresAt, env)
    ensures var fault := FaultOf(s, records, item, expiresAt, env);
            var named := item.kid == item.signer;
            var active := named && MaySign(records, item.signer, env) && item.signer !in s.overlay;
            var signed := active && item.signedBy == records[item.signer].publicKey;
            var public := !env.allowTestKeys && !(Points(item.device) !! env.published);
            var demo := !env.allowTestKeys && item.device.demo;
            && (fault == Some(BadShape) <==> !named)
            && (fault == Some(SignerInactive) <==> named && !active)
            && (fault == Some(BadSignature) <==> active && !signed)
            && (fault == Some(Demo) <==> signed && demo)
            && (fault == Some(Published) <==> signed && !demo && public)
            && (fault == Some(WasRevoked) <==>
                  signed && !demo && !public && item.deviceId in records && records[item.deviceId].revokedAt.Some?)
  {
    AppliedMaySign(records, item.signer, env);
    PublishedKeys(item.device, env);
  }

  lemma StatementIsTurnedAway(s: Store, records: Records, item: Item, expiresAt: int, env: Env)
    requires Statement(item) && InTime(item, expiresAt, env)
    ensures var fault := FaultOf(s, records, item, expiresAt, env);
            var named := item.kid == item.deviceId && item.signer == item.deviceId;
            var active := named && MaySign(records, item.deviceId, env) && item.deviceId !in s.overlay;
            && (fault == Some(BadShape) <==> !named)
            && (fault == Some(SignerInactive) <==> named && !active)
            && (fault == Some(BadSignature) <==> active && item.signedBy != records[item.deviceId].publicKey)
  {
    AppliedMaySign(records, item.deviceId, env);
  }
}
