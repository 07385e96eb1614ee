/**
 * What each step of the phone approval protocol does to the calls: which of them it answers, with what, and that it
 * leaves everything else as it was.
 */
module PhoneApprovalEndings {
  import opened Basics
  import opened PhoneApproval
  import opened PhoneApprovalRuns
  import NonceCaches

  // ---- Entries by their place ----

  lemma {:induction false} FoundAt(es: seq<Entry>, k: nat)
    requires Distinct(es) && k < |es|
    ensures Find(es, es[k].request.id) == Some(es[k])
    decreases k
  {
    if k > 0 {
      FindIsNamed(es[1..], es[0].request.id);
      assert es[1..][k - 1] == es[k] && es[0].request.id != es[k].request.id;
      FoundAt(es[1..], k - 1);
    }
  }

  lemma {:induction false} DroppedAt(es: seq<Entry>, k: nat)
    requires Distinct(es) && k < |es|
    ensures Drop(es, es[k].request.id) == es[..k] + es[k + 1..]
    decreases k
  {
    if k > 0 {
      FindIsNamed(es[1..], es[0].request.id);
      assert es[1..][k - 1] == es[k] && es[0].request.id != es[k].request.id;
      DroppedAt(es[1..], k - 1);
      assert [es[0]] + (es[1..][..k - 1] + es[1..][k..]) == es[..k] + es[k + 1..];
    }
  }

  /** Entry k of a list without double ids is the one found under its id, and the one dropped. */
  lemma EntryAt(es: seq<Entry>, k: nat)
    requires Distinct(es) && k < |es|
    ensures Find(es, es[k].request.id) == Some(es[k])
    ensures Drop(es, es[k].request.id) == es[..k] + es[k + 1..]
  {
    FoundAt(es, k);
    DroppedAt(es, k);
  }

  lemma {:induction false} NoEntry(es: seq<Entry>, id: nat)
    requires forall e | e in es :: e.request.id != id
    ensures Find(es, id) == None
    decreases |es|
  {
    if es != [] {
      NoEntry(es[1..], id);
    }
  }

  /** No other entry has the id of entry k. */
  lemma OnlyEntry(es: seq<Entry>, k: nat)
    requires Distinct(es) && k < |es|
    ensures forall e | e in es[..k] + es[k + 1..] :: e.request.id != es[k].request.id
  {
    forall e | e in es[..k] + es[k + 1..] ensures e.request.id != es[k].request.id {
      EntryAt(es, k);
      FindDrop(es, es[k].request.id);
      FindIsNamed(es[..k] + es[k + 1..], es[k].request.id);
    }
  }

  /** Entry k is no longer pending and its caller has this outcome; all else is as it was. */
  function Ended(s: State, k: nat, outcome: Outcome): State
    requires k < |s.pending|
  {
    s.(pending := s.pending[..k] + s.pending[k + 1..],
       resolved := s.resolved + [Resolution(s.pending[k].caller, outcome)])
  }

  /** Entry k waits for its audit no longer. */
  function Taken(s: State, k: nat): State
    requires k < |s.drafts|
  {
    s.(drafts := s.drafts[..k] + s.drafts[k + 1..])
  }

  /** What a tool hears: it runs on an approval only, and learns whether a phone was asked, said no or was too late. */
  lemma WhatToolsHear(o: Outcome)
    ensures Answer(o) == Runs <==> o.verdict.Approve?
    ensures Answer(o) == TimedOut <==> o.verdict.Expired?
    ensures Answer(o) == Denied <==> o.verdict.Withdrawn? || (o.verdict.Deny? && o.reason != Some(NoSealedRecipient))
    ensures Answer(o) == NotAsked <==>
              || o.verdict.Unavailable? || o.verdict.Error?
              || (o.verdict.Deny? && o.reason == Some(NoSealedRecipient))
  {
  }

  // ---- Timers and refusals ----

  /**
   * The timer of a pending request ends that request, as expired: the caller hears `timeout`. No request keeps its id,
   * and no other caller is touched.
   */
  lemma TimerExpires(s: State, k: nat)
    requires Inv(s) && k < |s.pending|
    ensures var id := s.pending[k].request.id;
            var outcome := Outcome(Expired, Some(id), None, None);
            && Step(s, TimerE(id)) == Ended(s, k, outcome)
            && Answer(outcome) == TimedOut
            && forall e | e in Step(s, TimerE(id)).pending :: e.request.id != id
  {
    EntryAt(s.pending, k);
    OnlyEntry(s.pending, k);
  }

  /** A timer whose request something else has ended does nothing, and neither does a late refusal of the relay. */
  lemma LateTimerDoesNothing(s: State, id: nat)
    requires forall e | e in s.pending :: e.request.id != id
    ensures Step(s, TimerE(id)) == s && Step(s, SubmitRefusedE(id)) == s
  {
    NoEntry(s.pending, id);
  }

  /** A sealed request that the relay's validator turns down ends as unavailable; a clear one goes on waiting. */
  lemma RefusalEndsSealed(s: State, k: nat)
    requires Inv(s) && k < |s.pending|
    ensures var r := s.pending[k].request;
            var outcome := Outcome(Unavailable, Some(r.id), None, Some(RelayTooOld));
            && Step(s, SubmitRefusedE(r.id)) == (if r.hash.salt.Some? then Ended(s, k, outcome) else s)
            && Answer(outcome) == NotAsked
  {
    EntryAt(s.pending, k);
  }

  // ---- Aborts and stop() ----

  /** The entries on the signal, or the others, in their order. */
  function On(es: seq<Entry>, signal: nat, on: bool): seq<Entry> {
    if es == [] then []
    else (if (es[0].signal == Some(signal)) == on then [es[0]] else []) + On(es[1..], signal, on)
  }

  /** Each of these callers hears the same verdict about its own request. */
  function AllEnd(es: seq<Entry>, verdict: Verdict, reason: Option<Reason>): seq<Resolution> {
    if es == [] then []
    else [Resolution(es[0].caller, Outcome(verdict, Some(es[0].request.id), None, reason))]
         + AllEnd(es[1..], verdict, reason)
  }

  /** The first of the entries still to be looked at comes after those that stayed. */
  lemma FirstOfRest(pending: seq<Entry>, stayed: seq<Entry>, es: seq<Entry>)
    requires es != [] && pending == stayed + es && Distinct(pending)
    ensures Find(pending, es[0].request.id) == Some(es[0])
    ensures Drop(pending, es[0].request.id) == stayed + es[1..] && Distinct(stayed + es[1..])
    ensures pending == (stayed + [es[0]]) + es[1..]
  {
    EntryAt(pending, |stayed|);
    FindDrop(pending, es[0].request.id);
    assert pending[|stayed| + 1..] == es[1..];
  }

  lemma OnFirst(es: seq<Entry>, signal: nat)
    requires es != []
    ensures var on := es[0].signal == Some(signal);
            && On(es, signal, on) == [es[0]] + On(es[1..], signal, on)
            && On(es, signal, !on) == On(es[1..], signal, !on)
            && On(es, signal, on)[1..] == On(es[1..], signal, on)
  {
  }

  lemma {:induction false} AbortSplits(s: State, stayed: seq<Entry>, es: seq<Entry>, signal: nat)
    requires s.pending == stayed + es && Distinct(s.pending)
    ensures AbortAll(s, es, signal) == s.(pending := stayed + On(es, signal, false),
                                          resolved := s.resolved + AllEnd(On(es, signal, true), Withdrawn, None))
    decreases |es|
  {
    if es == [] {
      assert s.resolved + [] == s.resolved && stayed + [] == s.pending;
    } else {
      FirstOfRest(s.pending, stayed, es);
      if es[0].signal == Some(signal) {
        var ending := Resolution(es[0].caller, Outcome(Withdrawn, Some(es[0].request.id), None, None));
        var t := s.(pending := stayed + es[1..], resolved := s.resolved + [ending]);
        AbortSplits(t, stayed, es[1..], signal);
        OnFirst(es, signal);
        Longer(s.resolved, ending, AllEnd(On(es[1..], signal, true), Withdrawn, None));
      } else {
        OnFirst(es, signal);
        AbortSplits(s, stayed + [es[0]], es[1..], signal);
        Longer(stayed, es[0], On(es[1..], signal, false));
      }
    }
  }

  lemma Longer<T>(a: seq<T>, x: T, b: seq<T>)
    ensures (a + [x]) + b == a + ([x] + b)
  {
  }

  /** An abort withdraws exactly the pending requests on its signal, in order; a withdrawn tool is denied. */
  lemma AbortWithdraws(s: State, signal: nat)
    requires Inv(s)
    ensures Step(s, AbortE(signal))
         == s.(aborted := s.aborted + {signal}, pending := On(s.pending, signal, false),
               resolved := s.resolved + AllEnd(On(s.pending, signal, true), Withdrawn, None))
  {
    AbortSplits(s.(aborted := s.aborted + {signal}), [], s.pending, signal);
  }

  lemma {:induction false} StopSplits(s: State, es: seq<Entry>)
    requires s.pending == es && Distinct(es)
    ensures FinishAll(s, es)
         == s.(pending := [], resolved := s.resolved + AllEnd(es, Unavailable, Some(ServiceStopping)))
    decreases |es|
  {
    if es == [] {
      assert s.resolved + [] == s.resolved;
    } else {
      FirstOfRest(s.pending, [], es);
      var ending := Resolution(es[0].caller, Outcome(Unavailable, Some(es[0].request.id), None, Some(ServiceStopping)));
      StopSplits(s.(pending := es[1..], resolved := s.resolved + [ending]), es[1..]);
      Longer(s.resolved, ending, AllEnd(es[1..], Unavailable, Some(ServiceStopping)));
    }
  }

  /** stop() ends every pending request, in order, as unavailable; its tool hears that nobody was asked. */
  lemma StopEndsAll(s: State)
    requires Inv(s)
    ensures Step(s, StopE)
         == s.(stopped := true, pending := [],
               resolved := s.resolved + AllEnd(s.pending, Unavailable, Some(ServiceStopping)))
  {
    StopSplits(s.(stopped := true), s.pending);
  }

  // ---- The way to the phone ----

  /** The one request that a call drafts: under a fresh id, over the hash of its own action. */
  function NewDraft(id: nat, caller: nat, signal: Option<nat>, action: Action, nonce: int, salt: Option<int>,
      expiresAt: int): Entry
  {
    Entry(Request(id, nonce, Hash(action, salt), expiresAt), caller, signal, false)
  }

  /** The build is looked at: nothing speaks against asking a phone before it. */
  predicate Asks(stopped: bool, start: Start) {
    !stopped && !start.sealRefusal && !start.unavailable
  }

  /** How a call ends at once, by cause; and that it goes on if and only if there is none. */
  lemma EndsAtOnce(stopped: bool, start: Start, crashed: Outcome)
    requires crashed.reason != Some(NotDeliverable) && crashed.reason != Some(NotBuilt)
    requires crashed.reason != Some(NoSealedRecipient)
    ensures var out := AtOnce(stopped, start, crashed);
            && (out == None <==> Asks(stopped, start) && start.build.Built?)
            && (out == Some(Outcome(Deny, None, None, Some(NoSealedRecipient))) <==>
                  !stopped && (start.sealRefusal || (!start.unavailable && start.build.NoRecipient?)))
            && (out == Some(Outcome(Unavailable, None, None, Some(NotDeliverable))) <==>
                  stopped || (!start.sealRefusal && start.unavailable))
            && (out == Some(Outcome(Error, None, None, Some(NotBuilt))) <==>
                  Asks(stopped, start) && start.build.Refused?)
            && (out == Some(crashed) <==> Asks(stopped, start) && start.build.Crashed?)
  {
  }

  /** A call gets the next caller's number, and is answered at once or has its request drafted, and nothing else. */
  lemma CallAsks(s: State, action: Action, signal: Option<nat>, start: Start)
    ensures var t := Step(s, CallE(action, signal, start));
            var out := AtOnce(s.stopped, start, Outcome(Threw, None, None, None));
            && (out.Some? ==> t == s.(callers := s.callers + 1,
                                      resolved := s.resolved + [Resolution(s.callers, out.value)]))
            && (out.None? ==>
                  && start.build.Built?
                  && t == s.(callers := s.callers + 1, nextId := s.nextId + 1,
                             drafts := s.drafts + [NewDraft(s.nextId, s.callers, signal, action, start.build.nonce,
                                                            start.build.salt, start.build.expiresAt)]))
            && (out.Some? ==> Answer(out.value) == if out.value.verdict.Threw? then Raises else NotAsked)
  {
  }

  /**
   * When a request's audit returns, the request waits for a phone if the audit succeeded and neither stop() nor an
   * abort came first, and is submitted where the link is up. Else its caller hears which of the three it was.
   */
  lemma AuditReturns(s: State, k: nat, ok: bool, linkUp: bool)
    requires Inv(s) && k < |s.drafts|
    ensures var e, r := s.drafts[k], s.drafts[k].request;
            var t := Step(s, RequestAuditedE(r.id, ok, linkUp));
            var aborted := e.signal.Some? && e.signal.value in s.aborted;
            && (ok && !s.stopped && !aborted ==>
                  t == Taken(s, k).(pending := s.pending + [e], sent := s.sent + if linkUp then [r] else []))
            && (!ok ==> t == Told(s, k, Outcome(Error, Some(r.id), None, Some(AuditUnavailable))))
            && (ok && s.stopped ==> t == Told(s, k, Outcome(Unavailable, Some(r.id), None, Some(ServiceStopping))))
            && (ok && !s.stopped && aborted ==> t == Told(s, k, Outcome(Withdrawn, Some(r.id), None, None)))
  {
    EntryAt(s.drafts, k);
    assert s.sent + [] == s.sent;
  }

  /** The caller of draft k has this outcome. */
  function Told(s: State, k: nat, outcome: Outcome): State
    requires k < |s.drafts|
  {
    Taken(s, k).(resolved := s.resolved + [Resolution(s.drafts[k].caller, outcome)])
  }

  // ---- A reconnect ----

  predicate Late(e: Entry, look: nat -> Look) {
    look(e.request.id).now > e.request.expiresAt
  }

  /** A clear request that waits on a node which seals by now. */
  predicate HeldClear(e: Entry, look: nat -> Look) {
    e.request.hash.salt.None? && look(e.request.id).sealing
  }

  predicate Rebuilt(e: Entry, look: nat -> Look) {
    !Late(e, look) && HeldClear(e, look) && !e.deciding
  }

  /** Sent, with the link up: neither late nor held back in clear. */
  predicate Goes(e: Entry, look: nat -> Look) {
    look(e.request.id).linkUp && !Late(e, look) && !HeldClear(e, look)
  }

  /** What stays pending: all but what is rebuilt. */
  function Stays(es: seq<Entry>, look: nat -> Look): seq<Entry> {
    if es == [] then [] else (if Rebuilt(es[0], look) then [] else [es[0]]) + Stays(es[1..], look)
  }

  /** What goes out. */
  function GoesOut(es: seq<Entry>, look: nat -> Look): seq<Request> {
    if es == [] then []
    else (if Goes(es[0], look) then [es[0].request] else []) + GoesOut(es[1..], look)
  }

  /** How the call of a rebuilt request ends on the spot, None if it is asked for again. */
  function EndsNow(e: Entry, look: nat -> Look, stopped: bool): Option<Outcome> {
    if look(e.request.id).live.None? then Some(Outcome(Deny, Some(e.request.id), None, Some(ActionChanged)))
    else AtOnce(stopped, look(e.request.id).start, Outcome(Error, None, None, Some(SealFailed)))
  }

  /** The callers of rebuilt requests that are answered on the spot. */
  function AnsweredNow(es: seq<Entry>, look: nat -> Look, stopped: bool): seq<Resolution> {
    if es == [] then []
    else (if Rebuilt(es[0], look) && EndsNow(es[0], look, stopped).Some?
          then [Resolution(es[0].caller, EndsNow(es[0], look, stopped).value)]
          else [])
         + AnsweredNow(es[1..], look, stopped)
  }

  /** The same call asks again: its caller and its signal, the action as it is now, and what was built just now. */
  predicate AsksAgain(e: Entry, look: nat -> Look, id: nat, draft: Entry) {
    var found := look(e.request.id);
    && found.live.Some? && found.start.build.Built?
    && draft == NewDraft(id, e.caller, e.signal, found.live.value, found.start.build.nonce, found.start.build.salt,
                         found.start.build.expiresAt)
  }

  /** The new drafts are those of the rebuilt requests that are asked for again, under the ids from `first` on. */
  predicate AskedAgain(es: seq<Entry>, look: nat -> Look, stopped: bool, first: nat, drafts: seq<Entry>) {
    if es == [] then drafts == []
    else if Rebuilt(es[0], look) && EndsNow(es[0], look, stopped).None? then
      && drafts != [] && AsksAgain(es[0], look, first, drafts[0])
      && AskedAgain(es[1..], look, stopped, first + 1, drafts[1..])
    else AskedAgain(es[1..], look, stopped, first, drafts)
  }

  /** What walking the rest of the list does. */
  ghost predicate Walked(s: State, stayed: seq<Entry>, es: seq<Entry>, look: nat -> Look, t: State) {
    && |s.drafts| <= |t.drafts|
    && t.nextId == s.nextId + (|t.drafts| - |s.drafts|)
    && t.drafts[..|s.drafts|] == s.drafts
    && AskedAgain(es, look, s.stopped, s.nextId, t.drafts[|s.drafts|..])
    && t == s.(pending := stayed + Stays(es, look), sent := s.sent + GoesOut(es, look),
               resolved := s.resolved + AnsweredNow(es, look, s.stopped), drafts := t.drafts, nextId := t.nextId)
  }

  lemma WalkedNothing(s: State, look: nat -> Look)
    ensures Walked(s, s.pending, [], look, s)
  {
    assert s.pending + [] == s.pending && s.sent + [] == s.sent && s.resolved + [] == s.resolved;
  }

  /** An entry that stays, whether it is sent or not. */
  lemma WalkedPast(s: State, stayed: seq<Entry>, es: seq<Entry>, look: nat -> Look, t: State)
    requires es != [] && !Rebuilt(es[0], look)
    requires Walked(s.(sent := s.sent + if Goes(es[0], look) then [es[0].request] else []), stayed + [es[0]],
                    es[1..], look, t)
    ensures Walked(s, stayed, es, look, t)
  {
    Longer(stayed, es[0], Stays(es[1..], look));
    Longer(s.sent, es[0].request, GoesOut(es[1..], look));
  }

  /** A rebuilt entry whose caller is answered. */
  lemma WalkedAnswered(s: State, stayed: seq<Entry>, es: seq<Entry>, look: nat -> Look, t: State)
    requires es != [] && Rebuilt(es[0], look) && EndsNow(es[0], look, s.stopped).Some?
    requires Walked(s.(pending := stayed + es[1..], resolved := s.resolved
                       + [Resolution(es[0].caller, EndsNow(es[0], look, s.stopped).value)]), stayed, es[1..], look, t)
    ensures Walked(s, stayed, es, look, t)
  {
    Longer(s.resolved, Resolution(es[0].caller, EndsNow(es[0], look, s.stopped).value),
           AnsweredNow(es[1..], look, s.stopped));
  }

  /** A rebuilt entry that is asked for again. */
  lemma WalkedAsked(s: State, stayed: seq<Entry>, es: seq<Entry>, look: nat -> Look, draft: Entry, t: State)
    requires es != [] && Rebuilt(es[0], look) && EndsNow(es[0], look, s.stopped).None?
    requires AsksAgain(es[0], look, s.nextId, draft)
    requires Walked(s.(pending := stayed + es[1..], drafts := s.drafts + [draft], nextId := s.nextId + 1), stayed,
                    es[1..], look, t)
    ensures Walked(s, stayed, es, look, t)
  {
    var more := t.drafts[|s.drafts|..];
    assert t.drafts[..|s.drafts| + 1] == s.drafts + [draft];
    assert more[0] == t.drafts[..|s.drafts| + 1][|s.drafts|] == draft;
    assert more[1..] == t.drafts[|s.drafts| + 1..];
    assert t.drafts[..|s.drafts|] == t.drafts[..|s.drafts| + 1][..|s.drafts|] == s.drafts;
  }

  /** What looking at the first entry of the rest does. */
  lemma LookedAt(s: State, stayed: seq<Entry>, es: seq<Entry>, look: nat -> Look)
    requires es != [] && s.pending == stayed + es && Distinct(s.pending)
    ensures var e, u := es[0], ResubmitOne(s, es[0], look(es[0].request.id));
            && (!Rebuilt(e, look) ==> u == s.(sent := s.sent + if Goes(e, look) then [e.request] else []))
            && (Rebuilt(e, look) && EndsNow(e, look, s.stopped).Some? ==>
                  u == s.(pending := stayed + es[1..],
                          resolved := s.resolved + [Resolution(e.caller, EndsNow(e, look, s.stopped).value)]))
            && (Rebuilt(e, look) && EndsNow(e, look, s.stopped).None? ==>
                  && u == s.(pending := stayed + es[1..], nextId := s.nextId + 1, drafts := u.drafts)
                  && |u.drafts| == |s.drafts| + 1 && u.drafts == s.drafts + [u.drafts[|s.drafts|]]
                  && AsksAgain(e, look, s.nextId, u.drafts[|s.drafts|]))
  {
    FirstOfRest(s.pending, stayed, es);
    assert s.sent + [] == s.sent;
  }

  lemma {:induction false} WalkSplits(s: State, stayed: seq<Entry>, es: seq<Entry>, look: nat -> Look)
    requires s.pending == stayed + es && Distinct(s.pending)
    ensures Walked(s, stayed, es, look, ResubmitAll(s, es, look))
    decreases |es|
  {
    if es == [] {
      assert stayed + [] == stayed;
      WalkedNothing(s, look);
    } else {
      var e, t := es[0], ResubmitAll(s, es, look);
      var u := ResubmitOne(s, e, look(e.request.id));
      FirstOfRest(s.pending, stayed, es);
      LookedAt(s, stayed, es, look);
      if !Rebuilt(e, look) {
        WalkSplits(u, stayed + [e], es[1..], look);
        WalkedPast(s, stayed, es, look, t);
      } else {
        WalkSplits(u, stayed, es[1..], look);
        if EndsNow(e, look, s.stopped).Some? {
          WalkedAnswered(s, stayed, es, look, t);
        } else {
          WalkedAsked(s, stayed, es, look, u.drafts[|s.drafts|], t);
        }
      }
    }
  }

  /**
   * A reconnect: with the link up every pending request goes out again, in order, but the late ones and, on a node
   * that seals by now, the clear ones. Exactly the clear ones that no response is being audited for are taken back:
   * each is asked for again, sealed or not as it is built now, for the same caller; or its caller is answered.
   */
  lemma ReconnectSends(s: State, look: nat -> Look)
    requires Inv(s)
    ensures Walked(s, [], s.pending, look, Step(s, ConnectedE(look)))
  {
    WalkSplits(s, [], s.pending, look);
  }

  // ---- Responses ----

  /** The device may approve: its record stands, no relayed revoke blocks it, and it is no demo or test device. */
  predicate MayApprove(approvers: Approvers, id: int) {
    && id in approvers.records && !approvers.records[id].revoked && id !in approvers.overlay
    && !approvers.records[id].demo && (approvers.records[id].testKey ==> approvers.allowTestKeys)
  }

  /** An envelope passes if and only if a device that may approve for this node signed it. */
  lemma EnvelopePasses(e: Envelope, approvers: Approvers, nodeId: int)
    ensures CheckEnvelope(e, approvers, nodeId).None? <==>
              && e.opens && e.shape.None? && e.es256 && e.kid == e.message.deviceId && MayApprove(approvers, e.kid)
              && e.signedBy == approvers.records[e.kid].publicKey && e.message.nodeId == nodeId
  {
  }

  /** An envelope that does not open, or is not of the right form, is refused as just that. */
  lemma FormIsRefused(e: Envelope, approvers: Approvers, nodeId: int)
    ensures !e.opens ==> CheckEnvelope(e, approvers, nodeId) == Some(Malformed)
    ensures e.opens && e.shape.Some? ==> CheckEnvelope(e, approvers, nodeId) == e.shape
    ensures e.opens && e.shape.None? && (!e.es256 || e.kid != e.message.deviceId) ==>
              CheckEnvelope(e, approvers, nodeId) == Some(Malformed)
  {
  }

  /** One of the right form is refused for its device, its signature or its node, by the first that is wrong. */
  lemma SignerIsRefused(e: Envelope, approvers: Approvers, nodeId: int)
    requires e.opens && e.shape.None? && e.es256 && e.kid == e.message.deviceId
    ensures var fault := CheckEnvelope(e, approvers, nodeId);
            && (fault == Some(UnknownDevice) <==> e.kid !in approvers.records)
            && (e.kid in approvers.records ==>
                  var r := approvers.records[e.kid];
                  && (fault == Some(DemoDevice) <==> r.demo)
                  && (fault == Some(TestKey) <==> !r.demo && r.testKey && !approvers.allowTestKeys)
                  && (fault == Some(RevokedDevice) <==>
                        && !r.demo && (r.testKey ==> approvers.allowTestKeys)
                        && (r.revoked || e.kid in approvers.overlay))
                  && (fault == Some(BadSignature) <==> MayApprove(approvers, e.kid) && e.signedBy != r.publicKey)
                  && (fault == Some(WrongNode) <==>
                        MayApprove(approvers, e.kid) && e.signedBy == r.publicKey && e.message.nodeId != nodeId))
  {
  }

  lemma {:induction false} NewestStays(older: seq<NonceCaches.Seen>, newest: NonceCaches.Seen, cutoff: int, max: nat)
    requires max > 0 && newest.at >= cutoff
    ensures var left := NonceCaches.Window(older + [newest], cutoff, max); left != [] && left[|left| - 1] == newest
    decreases |older|
  {
    if older == [] {
      assert older + [newest] == [newest];
    } else {
      assert (older + [newest])[1..] == older[1..] + [newest];
      NewestStays(older[1..], newest, cutoff, max);
    }
  }

  /** The nonce was used just now: it is the newest in the cache, with the digest of what used it. */
  predicate Spent(t: State, e: Envelope, now: int) {
    t.nonces != [] && t.nonces[|t.nonces| - 1] == NonceCaches.Seen(e.message.nonce, e.digest, now)
  }

  lemma RememberSpends(s: State, e: Envelope, now: int)
    requires s.max > 0
    ensures Spent(Remember(s, e, now), e, now)
  {
    NewestStays(NonceCaches.Without(s.nonces, e.message.nonce), NonceCaches.Seen(e.message.nonce, e.digest, now),
                now - s.ttlMs, s.max);
  }

  lemma {:induction false} MarkAtPlace(es: seq<Entry>, k: nat, deciding: bool)
    requires Distinct(es) && k < |es|
    ensures Mark(es, es[k].request.id, deciding) == es[k := es[k].(deciding := deciding)]
    decreases k
  {
    if k > 0 {
      FindIsNamed(es[1..], es[0].request.id);
      assert es[k] == es[1..][k - 1] && es[0].request.id != es[k].request.id;
      MarkAtPlace(es[1..], k - 1, deciding);
      assert [es[0]] + es[1..][k - 1 := es[k].(deciding := deciding)] == es[k := es[k].(deciding := deciding)];
    }
  }

  /** The action that would run now is the one that was asked for. */
  predicate Unchanged(live: Option<Action>, request: Request) {
    live == Some(request.hash.action)
  }

  /** What speaks for a response to request k, but for the action itself. */
  predicate Good(s: State, k: nat, e: Envelope, approvers: Approvers, now: int)
    requires k < |s.pending|
  {
    var r := s.pending[k].request;
    && !s.stopped && CheckEnvelope(e, approvers, s.nodeId).None?
    && NonceCaches.Lookup(NonceCaches.Window(s.nonces, now - s.ttlMs, s.max), e.message.nonce).None?
    && !s.pending[k].deciding
    && e.message.nonce == r.nonce && e.message.hash == r.hash && e.message.expiresAt == r.expiresAt
    && now <= r.expiresAt
  }

  /**
   * A response to request k: a bad one changes nothing but what is pruned; a good one brings the request under
   * decision while its action is unchanged, and else ends it as denied and spends the nonce.
   */
  lemma ResponseArrives(s: State, k: nat, e: Envelope, approvers: Approvers, now: int, live: Option<Action>)
    requires Inv(s) && k < |s.pending| && s.pending[k].request.id == e.message.requestId && s.max > 0
    ensures var id := e.message.requestId;
            var t := Step(s, RespondedE(e, approvers, now, live));
            var still := Unchanged(live, s.pending[k].request);
            var denied := Outcome(Deny, Some(id), Some(e.kid), Some(ActionChanged));
            && (!Good(s, k, e, approvers, now) ==> t == s.(nonces := t.nonces))
            && (Good(s, k, e, approvers, now) && still ==>
                  t == s.(nonces := t.nonces, pending := s.pending[k := s.pending[k].(deciding := true)],
                          decisions := s.decisions[id := e]))
            && (Good(s, k, e, approvers, now) && !still ==>
                  t == Ended(s, k, denied).(nonces := t.nonces) && Spent(t, e, now) && Answer(denied) == Denied)
  {
    EntryAt(s.pending, k);
    MarkAtPlace(s.pending, k, true);
    RememberSpends(s.(nonces := NonceCaches.Window(s.nonces, now - s.ttlMs, s.max)), e, now);
  }

  /** A response to no pending request changes nothing but what is pruned. */
  lemma ResponseToNothing(s: State, e: Envelope, approvers: Approvers, now: int, live: Option<Action>)
    requires forall p | p in s.pending :: p.request.id != e.message.requestId
    ensures Step(s, RespondedE(e, approvers, now, live)).(nonces := s.nonces) == s
  {
    NoEntry(s.pending, e.message.requestId);
  }

  /** What a caller is told when the response to its request is committed. */
  function Decision(request: Request, e: Envelope, live: Option<Action>, now: int): (o: Outcome)
    ensures o.verdict == Approve <==> Unchanged(live, request) && now <= request.expiresAt && e.message.approve
    ensures o.verdict == Expired <==> Unchanged(live, request) && now > request.expiresAt
    ensures o.verdict == Approve || o.verdict == Expired || o.verdict == Deny
    ensures o.requestId == Some(request.id) && o.deviceId == Some(e.kid)
    ensures o.reason == if Unchanged(live, request) then None else Some(ActionChanged)
    ensures Answer(o) == match o.verdict case Approve => Runs case Expired => TimedOut case _ => Denied
  {
    Outcome(Commit(request, e.message.approve, live, now), Some(request.id), Some(e.kid),
            if StillTheAction(live, request.hash) then None else Some(ActionChanged))
  }

  /**
   * The audit of a response to a request that is still pending: failed, the request waits as before; else the nonce
   * is spent and the caller gets the decision.
   */
  lemma DecisionEnds(s: State, k: nat, ok: bool, live: Option<Action>, now: int)
    requires Inv(s) && k < |s.pending| && s.pending[k].request.id in s.decisions && s.max > 0
    ensures var id := s.pending[k].request.id;
            var e, t := s.decisions[id], Step(s, ResponseAuditedE(id, ok, live, now));
            && (!ok ==> t == s.(decisions := s.decisions - {id},
                                pending := s.pending[k := s.pending[k].(deciding := false)]))
            && (ok ==> && t == Ended(s, k, Decision(s.pending[k].request, e, live, now))
                               .(decisions := s.decisions - {id}, nonces := t.nonces)
                       && Spent(t, e, now))
  {
    var id := s.pending[k].request.id;
    EntryAt(s.pending, k);
    MarkAtPlace(s.pending, k, false);
    RememberSpends(s.(decisions := s.decisions - {id}), s.decisions[id], now);
  }

  /** The audit of a response to a request that something else has ended meanwhile leaves only the response gone. */
  lemma DecisionOfNothing(s: State, id: nat, live: Option<Action>, now: int)
    requires id in s.decisions && forall p | p in s.pending :: p.request.id != id
    ensures Step(s, ResponseAuditedE(id, true, live, now)) == s.(decisions := s.decisions - {id})
  {
    NoEntry(s.pending, id);
  }

  lemma {:induction false} NewestIsFound(seen: seq<NonceCaches.Seen>, nonce: int, cutoff: int, max: nat)
    requires seen != [] && seen[|seen| - 1].nonce == nonce && seen[|seen| - 1].at >= cutoff && max > 0
    ensures NonceCaches.Lookup(NonceCaches.Window(seen, cutoff, max), nonce).Some?
    decreases |seen|
  {
    if seen[0].at >= cutoff && |seen| <= max {
      Holds(seen, nonce);
    } else {
      NewestIsFound(seen[1..], nonce, cutoff, max);
    }
  }

  lemma {:induction false} Holds(seen: seq<NonceCaches.Seen>, nonce: int)
    requires exists k :: 0 <= k < |seen| && seen[k].nonce == nonce
    ensures NonceCaches.Lookup(seen, nonce).Some?
    decreases |seen|
  {
    if seen[0].nonce != nonce {
      Holds(seen[1..], nonce);
    }
  }

  /** A nonce counts once: until the cache forgets it, no envelope that carries it again has any effect. */
  lemma SpentNonceIsRefused(s: State, e: Envelope, now: int, again: Envelope, approvers: Approvers, later: int,
      live: Option<Action>)
    requires Spent(s, e, now) && again.message.nonce == e.message.nonce && later - s.ttlMs <= now && s.max > 0
    ensures Step(s, RespondedE(again, approvers, later, live)).(nonces := s.nonces) == s
  {
    NewestIsFound(s.nonces, e.message.nonce, later - s.ttlMs, s.max);
  }
}
