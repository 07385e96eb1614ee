/** Which requests can still leave in clear once the node seals. */
module PhoneApprovalSealing {
  import opened Basics
  import opened PhoneApproval

  predicate Clear(r: Request) {
    r.hash.salt.None?
  }

  predicate SealedBuild(build: Build) {
    build.Built? ==> build.salt.Some?
  }

  /** The node seals at this step: what it builds is sealed, and a reconnect finds it sealing. */
  ghost predicate SealsAt(ev: Event) {
    match ev
    case CallE(_, _, start) => SealedBuild(start.build)
    case ConnectedE(look) => forall id :: look(id).sealing && SealedBuild(look(id).start.build)
    case _ => true
  }

  /** Every clear draft is one of these requests. */
  predicate OnlyHeld(drafts: seq<Entry>, held: set<Request>) {
    forall e | e in drafts :: Clear(e.request) ==> e.request in held
  }

  /** What was sent stays sent, and what is sent now is sealed or one of these requests. */
  predicate SendsOnly(was: seq<Request>, now: seq<Request>, held: set<Request>) {
    was <= now && forall k | |was| <= k < |now| :: Clear(now[k]) ==> now[k] in held
  }

  ghost predicate Keeps(s: State, t: State, held: set<Request>) {
    OnlyHeld(t.drafts, held) && SendsOnly(s.sent, t.sent, held)
  }

  // ---- Steps that draft and send nothing ----

  lemma {:induction false} AbortSendsNothing(s: State, es: seq<Entry>, signal: nat)
    ensures AbortAll(s, es, signal).drafts == s.drafts && AbortAll(s, es, signal).sent == s.sent
    decreases |es|
  {
    if es != [] {
      AbortSendsNothing(if es[0].signal == Some(signal) then Finish(s, es[0].request.id, Withdrawn, None, None)
          else s, es[1..], signal);
    }
  }

  lemma {:induction false} StopSendsNothing(s: State, es: seq<Entry>)
    ensures FinishAll(s, es).drafts == s.drafts && FinishAll(s, es).sent == s.sent
    decreases |es|
  {
    if es != [] {
      StopSendsNothing(Finish(s, es[0].request.id, Unavailable, None, Some(ServiceStopping)), es[1..]);
    }
  }

  lemma {:induction false} FoundIsThere(es: seq<Entry>, id: nat)
    ensures Find(es, id).Some? ==> Find(es, id).value in es
    ensures forall e | e in Drop(es, id) :: e in es
    decreases |es|
  {
    if es != [] {
      FoundIsThere(es[1..], id);
    }
  }

  // ---- Steps that draft or send ----

  lemma BeginKeeps(s: State, caller: nat,
      signal: Option<nat>, action: Action, start: Start, crashed: Outcome, held: set<Request>)
    requires SealedBuild(start.build) && OnlyHeld(s.drafts, held)
    ensures Keeps(s, Begin(s, caller, signal, action, start, crashed), held)
  {
  }

  lemma AuditedKeeps(s: State, id: nat, ok: bool, linkUp: bool, held: set<Request>)
    requires OnlyHeld(s.drafts, held)
    ensures Keeps(s, RequestAudited(s, id, ok, linkUp), held)
  {
    FoundIsThere(s.drafts, id);
  }

  lemma ResubmitOneKeeps(s: State, e: Entry, look: Look, held: set<Request>)
    requires look.sealing && SealedBuild(look.start.build) && OnlyHeld(s.drafts, held)
    ensures Keeps(s, ResubmitOne(s, e, look), held)
  {
    if look.now <= e.request.expiresAt && Clear(e.request) && !e.deciding && look.live.Some? {
      BeginKeeps(s.(pending := Drop(s.pending, e.request.id)), e.caller, e.signal, look.live.value, look.start,
                 Outcome(Error, None, None, Some(SealFailed)), held);
    }
  }

  lemma SendsOnlyTwice(a: seq<Request>, b: seq<Request>, c: seq<Request>, held: set<Request>)
    requires SendsOnly(a, b, held) && SendsOnly(b, c, held)
    ensures SendsOnly(a, c, held)
  {
  }

  lemma {:induction false} ResubmitKeeps(s: State, es: seq<Entry>, look: nat -> Look, held: set<Request>)
    requires SealsAt(ConnectedE(look)) && OnlyHeld(s.drafts, held)
    ensures Keeps(s, ResubmitAll(s, es, look), held)
    decreases |es|
  {
    if es != [] {
      var next := ResubmitOne(s, es[0], look(es[0].request.id));
      ResubmitOneKeeps(s, es[0], look(es[0].request.id), held);
      ResubmitKeeps(next, es[1..], look, held);
      SendsOnlyTwice(s.sent, next.sent, ResubmitAll(next, es[1..], look).sent, held);
    }
  }

  lemma StepKeeps(s: State, ev: Event, held: set<Request>)
    requires SealsAt(ev) && OnlyHeld(s.drafts, held)
    ensures Keeps(s, Step(s, ev), held)
  {
    match ev
    case CallE(action, signal, start) =>
      BeginKeeps(s.(callers := s.callers + 1), s.callers, signal, action, start, Outcome(Threw, None, None, None),
          held);
    case RequestAuditedE(id, ok, linkUp) => AuditedKeeps(s, id, ok, linkUp, held);
    case AbortE(signal) => AbortSendsNothing(s.(aborted := s.aborted + {signal}), s.pending, signal);
    case ConnectedE(look) => ResubmitKeeps(s, s.pending, look, held);
    case StopE => StopSendsNothing(s.(stopped := true), s.pending);
    case _ =>
  }

  // ---- Runs ----

  /** The requests whose audit is in flight. */
  function Drafted(s: State): set<Request> {
    set e | e in s.drafts :: e.request
  }

  lemma {:induction false} SealedRun(s0: State, events: seq<Event>, m: nat)
    requires m <= |events| && (forall i | m <= i < |events| :: SealsAt(events[i]))
    ensures Keeps(After(s0, events[..m]), After(s0, events), Drafted(After(s0, events[..m])))
    decreases |events|
  {
    var s := After(s0, events[..m]);
    if m == |events| {
      assert events[..m] == events;
    } else {
      var before := events[..|events| - 1];
      assert before[..m] == events[..m];
      SealedRun(s0, before, m);
      StepKeeps(After(s0, before), events[|events| - 1], Drafted(s));
      SendsOnlyTwice(s.sent, After(s0, before).sent, After(s0, events).sent, Drafted(s));
    }
  }

  /**
   * From the step on at which a node begins to seal, the only requests that can leave in clear are those whose own
   * audit was in flight at that step: none that was waiting for a phone, and none that is asked for later.
   */
  lemma OnlyDraftsLeaveClear(s0: State, events: seq<Event>, m: nat, k: nat)
    requires m <= |events| && (forall i | m <= i < |events| :: SealsAt(events[i]))
    requires |After(s0, events[..m]).sent| <= k < |After(s0, events).sent| && Clear(After(s0, events).sent[k])
    ensures exists e :: e in After(s0, events[..m]).drafts && e.request == After(s0, events).sent[k]
  {
    SealedRun(s0, events, m);
    assert After(s0, events).sent[k] in Drafted(After(s0, events[..m]));
  }

  /**
   * And such a request does leave, when its audit succeeds with the link up and neither stop() nor an abort came
   * first.
   */
  lemma DraftLeavesExactlyWhen(s: State, id: nat, ok: bool, linkUp: bool)
    requires Find(s.drafts, id).Some?
    ensures var e := Find(s.drafts, id).value;
            RequestAudited(s, id, ok, linkUp).sent == s.sent + [e.request] <==>
              ok && linkUp && !s.stopped && !(e.signal.Some? && e.signal.value in s.aborted)
    ensures RequestAudited(s, id, ok, linkUp).sent != s.sent ==>
            RequestAudited(s, id, ok, linkUp).sent == s.sent + [Find(s.drafts, id).value.request]
  {
    assert s.sent + [Find(s.drafts, id).value.request] != s.sent;
  }

  /** The run that shows it: asked for before the node seals, audited after, and sent as it was built. */
  lemma ClearDraftLeaves(nodeId: int, max: nat, ttlMs: nat, action: Action, nonce: int, expiresAt: int)
    ensures var call := CallE(action, None, Start(false, false, Built(nonce, None, expiresAt)));
            var audited := RequestAuditedE(0, true, true);
            && SealsAt(audited)
            && After(Initial(nodeId, max, ttlMs), [call, audited]).sent
                == [Request(0, nonce, Hash(action, None), expiresAt)]
  {
    var call := CallE(action, None, Start(false, false, Built(nonce, None, expiresAt)));
    var audited := RequestAuditedE(0, true, true);
    var s0 := Initial(nodeId, max, ttlMs);
    assert [call, audited][..1] == [call] && [call][..0] == [];
    assert After(s0, [call]) == Step(s0, call);
    assert After(s0, [call, audited]) == Step(Step(s0, call), audited);
  }
}
