/**
 * The objects of src/approvals/phone-approver.js and pending-store.js; each method is proved to take the step of
 * PhoneApproval.
 */
module PhoneApprovers {
  import opened Basics
  import opened PhoneApproval
  import opened PhoneApprovalRuns
  import NonceCaches

  /** The requests whose deadline has passed, or the others, in their order. */
  function Due(es: seq<Entry>, now: int, passed: bool): seq<Entry> {
    if es == [] then []
    else (if (now > es[0].request.expiresAt) == passed then [es[0]] else []) + Due(es[1..], now, passed)
  }

  /**
   * Exactly the entries past their deadline are due, exactly the others are not, and each is counted as often as it
   * was.
   */
  lemma {:induction false} DueSplits(es: seq<Entry>, now: int)
    ensures forall e :: e in Due(es, now, true) <==> e in es && now > e.request.expiresAt
    ensures forall e :: e in Due(es, now, false) <==> e in es && now <= e.request.expiresAt
    ensures multiset(Due(es, now, true)) + multiset(Due(es, now, false)) == multiset(es)
    decreases |es|
  {
    if es != [] {
      DueSplits(es[1..], now);
      assert es == [es[0]] + es[1..];
    }
  }

  /** Why a response is not accepted. */
  datatype Refusal = IsStopped | BadEnvelope(reason: Reason) | UnknownRequest | UnderDecision | NonceMismatch
    | HashMismatch | ExpiryMismatch | Late | Changed | NotAudited | Finished

  /** The checks of a response against the request it names, once its envelope is good; the first that fails. */
  function BindingFault(entry: Entry, m: Response, now: int, live: Option<Action>): Option<Refusal> {
    if entry.deciding then Some(UnderDecision)
    else if m.nonce != entry.request.nonce then Some(NonceMismatch)
    else if m.hash != entry.request.hash then Some(HashMismatch)
    else if m.expiresAt != entry.request.expiresAt then Some(ExpiryMismatch)
    else if now > entry.request.expiresAt then Some(Late)
    else if !StillTheAction(live, entry.request.hash) then Some(Changed)
    else None
  }

  /** What the phone is told before the response's audit, None when the response goes on to it. */
  function ResponseFault(s: State, e: Envelope, approvers: Approvers, now: int, live: Option<Action>): Option<Refusal> {
    var bad := CheckEnvelope(e, approvers, s.nodeId);
    var seen := NonceCaches.Lookup(NonceCaches.Window(s.nonces, now - s.ttlMs, s.max), e.message.nonce);
    if s.stopped then Some(IsStopped)
    else if bad.Some? then Some(BadEnvelope(bad.value))
    else if seen.Some? then Some(BadEnvelope(if seen.value == e.digest then Replay else AlreadyDecided))
    else match Find(s.pending, e.message.requestId)
      case None => Some(UnknownRequest)
      case Some(entry) => BindingFault(entry, e.message, now, live)
  }

  /** What the phone is told after it: Finished when something else ended the request meanwhile. */
  function AuditedFault(s: State, id: nat, ok: bool, live: Option<Action>, now: int): Option<Refusal> {
    if !ok then Some(NotAudited)
    else match Find(s.pending, id)
      case None => Some(Finished)
      case Some(entry) =>
        if !StillTheAction(live, entry.request.hash) then Some(Changed)
        else if now > entry.request.expiresAt then Some(Late)
        else None
  }

  /** What the caller gets when the phone's own decision counts. */
  function Decided(caller: nat, id: nat, e: Envelope): Resolution {
    Resolution(caller, Outcome(if e.message.approve then Approve else Deny, Some(id), Some(e.kid), None))
  }

  /** A response is told to be accepted exactly when its decision is what its caller gets. */
  lemma AcceptedIsDecided(s: State, id: nat, ok: bool, live: Option<Action>, now: int)
    requires id in s.decisions
    ensures AuditedFault(s, id, ok, live, now).None? <==>
            && Find(s.pending, id).Some?
            && ResponseAudited(s, id, ok, live, now).resolved
               == s.resolved + [Decided(Find(s.pending, id).value.caller, id, s.decisions[id])]
  {
    if Find(s.pending, id).Some? {
      var more := ResponseAudited(s, id, ok, live, now).resolved;
      var verdict := Commit(Find(s.pending, id).value.request, s.decisions[id].message.approve, live, now);
      assert ok ==> more[|s.resolved|].outcome.verdict == verdict;
    }
  }

  /** An envelope is judged before the request: a stopped approver, its checks in their order, then a used nonce. */
  lemma EnvelopeIsRefused(s: State, e: Envelope, approvers: Approvers, now: int, live: Option<Action>)
    ensures var told := ResponseFault(s, e, approvers, now, live);
            var bad := CheckEnvelope(e, approvers, s.nodeId);
            var seen := NonceCaches.Lookup(NonceCaches.Window(s.nonces, now - s.ttlMs, s.max), e.message.nonce);
            && (s.stopped <==> told == Some(IsStopped))
            && (!s.stopped && bad.Some? ==> told == Some(BadEnvelope(bad.value)))
            && (!s.stopped && bad.None? && seen == Some(e.digest) ==> told == Some(BadEnvelope(Replay)))
            && (!s.stopped && bad.None? && seen.Some? && seen.value != e.digest ==>
                  told == Some(BadEnvelope(AlreadyDecided)))
            && (!s.stopped && bad.None? && seen.None? ==>
                  (told == Some(UnknownRequest) <==> Find(s.pending, e.message.requestId).None?))
  {
  }

  /** A good envelope is told the first thing in which it and its request differ, then whether it is late or changed. */
  lemma ResponseIsRefused(s: State, e: Envelope, approvers: Approvers, now: int, live: Option<Action>, entry: Entry)
    requires !s.stopped && CheckEnvelope(e, approvers, s.nodeId).None?
    requires NonceCaches.Lookup(NonceCaches.Window(s.nonces, now - s.ttlMs, s.max), e.message.nonce).None?
    requires Find(s.pending, e.message.requestId) == Some(entry)
    ensures var told, m, r := ResponseFault(s, e, approvers, now, live), e.message, entry.request;
            && (told == Some(UnderDecision) <==> entry.deciding)
            && (told == Some(NonceMismatch) <==> !entry.deciding && m.nonce != r.nonce)
            && (told == Some(HashMismatch) <==> !entry.deciding && m.nonce == r.nonce && m.hash != r.hash)
            && (told == Some(ExpiryMismatch) <==>
                  !entry.deciding && m.nonce == r.nonce && m.hash == r.hash && m.expiresAt != r.expiresAt)
            && (!entry.deciding && m.nonce == r.nonce && m.hash == r.hash && m.expiresAt == r.expiresAt ==>
                  && (told == Some(Late) <==> now > r.expiresAt)
                  && (told == Some(Changed) <==> now <= r.expiresAt && live != Some(r.hash.action))
                  && (told == None <==> now <= r.expiresAt && live == Some(r.hash.action)))
  {
  }

  /** After its audit a response hears whether that failed, its request is gone, its action changed, or it is late. */
  lemma DecisionIsRefused(s: State, id: nat, ok: bool, live: Option<Action>, now: int)
    ensures var told, found := AuditedFault(s, id, ok, live, now), Find(s.pending, id);
            && (told == Some(NotAudited) <==> !ok)
            && (told == Some(Finished) <==> ok && found.None?)
            && (ok && found.Some? ==>
                  && (told == Some(Changed) <==> live != Some(found.value.request.hash.action))
                  && (told == Some(Late) <==>
                        live == Some(found.value.request.hash.action) && now > found.value.request.expiresAt))
  {
  }

  /** A response goes on to its audit exactly when it comes to be under decision. */
  lemma GoesOnExactlyWhen(s: State, e: Envelope, approvers: Approvers, now: int, live: Option<Action>)
    requires Inv(s) && e.message.requestId !in s.decisions
    ensures ResponseFault(s, e, approvers, now, live).None? <==>
            e.message.requestId in Responded(s, e, approvers, now, live).decisions
  {
    FindIsNamed(s.pending, e.message.requestId);
  }

  /** The map of requests that wait for an answer; nothing of it is on disk. */
  class PendingRequests {
    var items: seq<Entry>
    const nonces: NonceCaches.NonceCache

    constructor ()
      ensures items == [] && fresh(nonces) && nonces.entries == [] && nonces.max == 10000 && nonces.ttlMs == 600000
    {
      items := [];
      nonces := new NonceCaches.NonceCache();
    }

    method Add(e: Entry)
      modifies this`items
      ensures items == old(items) + [e]
    {
      items := items + [e];
    }

    method Get(id: nat) returns (e: Option<Entry>)
      ensures e == Find(items, id)
    {
      var i := 0;
      while i < |items|
        invariant 0 <= i <= |items|
        invariant Find(items, id) == Find(items[i..], id)
      {
        if items[i].request.id == id {
          return Some(items[i]);
        }
        i := i + 1;
      }
      e := None;
    }

    method Take(id: nat) returns (e: Option<Entry>)
      modifies this`items
      ensures e == Find(old(items), id) && items == Drop(old(items), id)
    {
      var i := 0;
      while i < |items|
        invariant 0 <= i <= |items| && items == old(items)
        invariant Find(items, id) == Find(items[i..], id)
        invariant Drop(items, id) == items[..i] + Drop(items[i..], id)
      {
        if items[i].request.id == id {
          e := Some(items[i]);
          assert items[i..][1..] == items[i + 1..];
          items := items[..i] + items[i + 1..];
          return;
        }
        assert items[..i + 1] + Drop(items[i + 1..], id) == items[..i] + ([items[i]] + Drop(items[i + 1..], id));
        i := i + 1;
      }
      assert items == items[..i] + Drop(items[i..], id);
      e := None;
    }

    /** Takes out every request whose deadline has passed on this clock. */
    method Expire(now: int) returns (removed: seq<Entry>)
      modifies this`items
      ensures items == Due(old(items), now, false) && removed == Due(old(items), now, true)
    {
      var kept := [];
      removed := [];
      var i := 0;
      while i < |items|
        invariant 0 <= i <= |items| && items == old(items)
        invariant Due(items, now, false) == kept + Due(items[i..], now, false)
        invariant Due(items, now, true) == removed + Due(items[i..], now, true)
      {
        assert items[i..][1..] == items[i + 1..];
        if now > items[i].request.expiresAt {
          removed := removed + [items[i]];
        } else {
          kept := kept + [items[i]];
        }
        i := i + 1;
      }
      items := kept;
    }

    /** Sets an entry's `deciding` flag in place. */
    method SetDeciding(id: nat, deciding: bool)
      modifies this`items
      ensures items == Mark(old(items), id, deciding)
    {
      var i := 0;
      while i < |items|
        invariant 0 <= i <= |items| && items == old(items)
        invariant forall k | 0 <= k < i :: items[k].request.id != id
      {
        if items[i].request.id == id {
          MarkAt(items, id, deciding, i);
          items := items[i := items[i].(deciding := deciding)];
          return;
        }
        i := i + 1;
      }
      MarkNowhere(items, id, deciding);
    }
  }

  lemma {:induction false} MarkAt(es: seq<Entry>, id: nat, deciding: bool, i: nat)
    requires i < |es| && es[i].request.id == id && (forall k | 0 <= k < i :: es[k].request.id != id)
    ensures Mark(es, id, deciding) == es[i := es[i].(deciding := deciding)]
    decreases i
  {
    if i > 0 {
      MarkAt(es[1..], id, deciding, i - 1);
    }
  }

  lemma {:induction false} MarkNowhere(es: seq<Entry>, id: nat, deciding: bool)
    requires forall k | 0 <= k < |es| :: es[k].request.id != id
    ensures Mark(es, id, deciding) == es
    decreases |es|
  {
    if es != [] {
      MarkNowhere(es[1..], id, deciding);
    }
  }

  class PhoneApprover {
    const nodeId: int
    const pendingRequests: PendingRequests
    var stopped: bool
    // Calls and responses that an await has suspended, and signals that have fired.
    var drafts: seq<Entry>
    var decisions: map<nat, Envelope>
    var aborted: set<nat>
    var nextId: nat
    var callers: nat
    // What left this object: envelopes handed to the link, and outcomes handed to callers.
    var sent: seq<Request>
    var resolved: seq<Resolution>

    ghost function Model(): State
      reads this, pendingRequests, pendingRequests.nonces
    {
      State(nodeId, pendingRequests.nonces.max, pendingRequests.nonces.ttlMs, stopped, drafts, pendingRequests.items,
            decisions, pendingRequests.nonces.entries, aborted, nextId, callers, sent, resolved)
    }

    constructor (nodeId: int)
      ensures Model() == Initial(nodeId, 10000, 600000)
      ensures fresh(pendingRequests) && fresh(pendingRequests.nonces)
    {
      this.nodeId := nodeId;
      pendingRequests := new PendingRequests();
      stopped, drafts, decisions, aborted := false, [], map[], {};
      nextId, callers, sent, resolved := 0, 0, [], [];
    }

    /** _finish: takes the entry, and resolves its caller if there was one to take. */
    method FinishRequest(id: nat, verdict: Verdict, deviceId: Option<int>, reason: Option<Reason>)
      modifies this`resolved, pendingRequests`items
      ensures Model() == Finish(old(Model()), id, verdict, deviceId, reason)
    {
      var e := pendingRequests.Take(id);
      if e.Some? {
        resolved := resolved + [Resolution(e.value.caller, Outcome(verdict, Some(id), deviceId, reason))];
      } else {
        DropAbsent(old(pendingRequests.items), id);
      }
    }

    /** requestAction up to its await, for a new call or for a held request that is rebuilt. */
    method BeginRequest(caller: nat, signal: Option<nat>, action: Action, start: Start, crashed: Outcome)
      modifies this`resolved, this`drafts, this`nextId
      ensures Model() == Begin(old(Model()), caller, signal, action, start, crashed)
    {
      var outcome := AtOnce(stopped, start, crashed);
      match outcome {
        case Some(o) =>
          resolved := resolved + [Resolution(caller, o)];
        case None =>
          drafts := drafts + [Draft(nextId, caller, signal, action, start.build)];
          nextId := nextId + 1;
      }
    }

    method RequestAction(action: Action, signal: Option<nat>, start: Start) returns (caller: nat)
      modifies this`resolved, this`drafts, this`nextId, this`callers
      ensures caller == old(callers) && Model() == Call(old(Model()), action, signal, start)
    {
      caller := callers;
      callers := callers + 1;
      BeginRequest(caller, signal, action, start, Outcome(Threw, None, None, None));
    }

    /** requestAction from its await on. */
    method OnRequestAudited(id: nat, ok: bool, linkUp: bool)
      modifies this`drafts, this`resolved, this`sent, pendingRequests`items
      ensures Model() == RequestAudited(old(Model()), id, ok, linkUp)
    {
      var e := Find(drafts, id);
      if e.None? {
        return;
      }
      drafts := Drop(drafts, id);
      var outcome := AfterAudit(e.value, ok, stopped, aborted);
      if outcome.Some? {
        resolved := resolved + [Resolution(e.value.caller, outcome.value)];
        return;
      }
      pendingRequests.Add(e.value);
      if linkUp {
        sent := sent + [e.value.request];
      }
    }

    method OnTimer(id: nat)
      modifies this`resolved, pendingRequests`items
      ensures Model() == TimerFired(old(Model()), id)
    {
      FinishRequest(id, Expired, None, None);
    }

    method OnAbort(signal: nat)
      modifies this`aborted, this`resolved, pendingRequests`items
      ensures Model() == Abort(old(Model()), signal)
    {
      aborted := aborted + {signal};
      ghost var s := Model();
      var list := pendingRequests.items;
      var i := 0;
      while i < |list|
        invariant 0 <= i <= |list|
        invariant AbortAll(Model(), list[i..], signal) == AbortAll(s, list, signal)
      {
        if list[i].signal == Some(signal) {
          FinishRequest(list[i].request.id, Withdrawn, None, None);
        }
        assert list[i..][1..] == list[i + 1..];
        i := i + 1;
      }
    }

    method OnSubmitRefused(id: nat)
      modifies this`resolved, pendingRequests`items
      ensures Model() == SubmitRefused(old(Model()), id)
    {
      var e := pendingRequests.Get(id);
      if e.Some? && e.value.request.hash.salt.Some? {
        FinishRequest(id, Unavailable, None, Some(RelayTooOld));
      }
    }

    /** _resubmitAll, on the list of entries as it was when the link came up. */
    method OnConnected(look: nat -> Look)
      modifies this`resolved, this`drafts, this`nextId, this`sent, pendingRequests`items
      ensures Model() == Connected(old(Model()), look)
    {
      var list := pendingRequests.items;
      var i := 0;
      while i < |list|
        invariant 0 <= i <= |list|
        invariant ResubmitAll(Model(), list[i..], look) == ResubmitAll(old(Model()), list, look)
      {
        assert list[i..][1..] == list[i + 1..];
        Resubmit(list[i], look(list[i].request.id));
        i := i + 1;
      }
    }

    method Resubmit(e: Entry, look: Look)
      modifies this`resolved, this`drafts, this`nextId, this`sent, pendingRequests`items
      ensures Model() == ResubmitOne(old(Model()), e, look)
    {
      if look.now > e.request.expiresAt {
        return;
      }
      if e.request.hash.salt == None && look.sealing {
        RebuildEntry(e, look);
      } else if look.linkUp {
        sent := sent + [e.request];
      }
    }

    /** _rebuild: the held request ends quietly, and its caller goes through the whole request path again. */
    method RebuildEntry(e: Entry, look: Look)
      modifies this`resolved, this`drafts, this`nextId, pendingRequests`items
      ensures Model() == Rebuild(old(Model()), e, look)
    {
      if e.deciding {
        return;
      }
      if look.live.None? {
        FinishRequest(e.request.id, Deny, None, Some(ActionChanged));
        return;
      }
      var _ := pendingRequests.Take(e.request.id);
      BeginRequest(e.caller, e.signal, look.live.value, look.start, Outcome(Error, None, None, Some(SealFailed)));
    }

    /** handleResponse up to its await. */
    method HandleResponse(e: Envelope, approvers: Approvers, now: int, live: Option<Action>)
      returns (refusal: Option<Refusal>)
      modifies this`resolved, this`decisions, pendingRequests`items, pendingRequests.nonces`entries
      ensures Model() == Responded(old(Model()), e, approvers, now, live)
      ensures refusal == ResponseFault(old(Model()), e, approvers, now, live)
    {
      if stopped {
        return Some(IsStopped);
      }
      var bad := CheckEnvelope(e, approvers, nodeId);
      if bad.Some? {
        return Some(BadEnvelope(bad.value));
      }
      var m := e.message;
      var seen := pendingRequests.nonces.Get(now, m.nonce);
      if seen.Some? {
        return Some(BadEnvelope(if seen.value == e.digest then Replay else AlreadyDecided));
      }
      var found := pendingRequests.Get(m.requestId);
      if found.None? {
        return Some(UnknownRequest);
      }
      refusal := BindingFault(found.value, m, now, live);
      var request := found.value.request;
      FindIsNamed(pendingRequests.items, m.requestId);
      if refusal == Some(Changed) {
        pendingRequests.nonces.Add(now, m.nonce, e.digest);
        FinishRequest(request.id, Deny, Some(e.kid), Some(ActionChanged));
      } else if refusal.None? {
        pendingRequests.SetDeciding(request.id, true);
        decisions := decisions[request.id := e];
      }
    }

    /** handleResponse from its await on. */
    method OnResponseAudited(id: nat, ok: bool, live: Option<Action>, now: int) returns (refusal: Option<Refusal>)
      modifies this`resolved, this`decisions, pendingRequests`items, pendingRequests.nonces`entries
      ensures Model() == ResponseAudited(old(Model()), id, ok, live, now)
      ensures id in old(decisions) ==> refusal == AuditedFault(old(Model()), id, ok, live, now)
    {
      if id !in decisions {
        return None;
      }
      var e := decisions[id];
      decisions := decisions - {id};
      if !ok {
        pendingRequests.SetDeciding(id, false);
        return Some(NotAudited);
      }
      var found := pendingRequests.Get(id);
      if found.None? {
        return Some(Finished);
      }
      var request := found.value.request;
      pendingRequests.nonces.Add(now, e.message.nonce, e.digest);
      if !StillTheAction(live, request.hash) {
        FinishRequest(id, Deny, Some(e.kid), Some(ActionChanged));
        refusal := Some(Changed);
      } else if now > request.expiresAt {
        FinishRequest(id, Expired, Some(e.kid), None);
        refusal := Some(Late);
      } else {
        FinishRequest(id, if e.message.approve then Approve else Deny, Some(e.kid), None);
        refusal := None;
      }
    }

    method Stop()
      modifies this`stopped, this`resolved, pendingRequests`items
      ensures Model() == PhoneApproval.Stop(old(Model()))
    {
      stopped := true;
      ghost var s := Model();
      var list := pendingRequests.items;
      var i := 0;
      while i < |list|
        invariant 0 <= i <= |list|
        invariant FinishAll(Model(), list[i..]) == FinishAll(s, list)
      {
        FinishRequest(list[i].request.id, Unavailable, None, Some(ServiceStopping));
        assert list[i..][1..] == list[i + 1..];
        i := i + 1;
      }
    }
  }

  lemma {:induction false} DropAbsent(es: seq<Entry>, id: nat)
    requires Find(es, id).None?
    ensures Drop(es, id) == es
  {
    if es != [] {
      DropAbsent(es[1..], id);
    }
  }
}
