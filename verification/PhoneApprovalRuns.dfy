/** What every run of the phone approval protocol keeps, and what an approval proves about the run before it. */
module PhoneApprovalRuns {
  import opened Basics
  import opened PhoneApproval
  import NonceCaches

  // ---- Where the callers are ----

  function Waiting(es: seq<Entry>): multiset<nat> {
    if es == [] then multiset{} else multiset{es[0].caller} + Waiting(es[1..])
  }

  function Answered(rs: seq<Resolution>): multiset<nat> {
    if rs == [] then multiset{} else Answered(rs[..|rs| - 1]) + multiset{rs[|rs| - 1].caller}
  }

  /** Every place a caller can be: waiting for the request's audit, waiting for a phone, or answered. */
  function Places(s: State): multiset<nat> {
    Waiting(s.drafts) + Waiting(s.pending) + Answered(s.resolved)
  }

  predicate Distinct(es: seq<Entry>) {
    es != [] ==> Find(es[1..], es[0].request.id) == None && Distinct(es[1..])
  }

  /**
   * Request ids are used once: a request is drafted or pending, never both, and a response is being audited exactly
   * when marked.
   */
  ghost predicate Shape(drafts: seq<Entry>, pending: seq<Entry>, decisions: map<nat, Envelope>, nextId: nat) {
    && Distinct(drafts) && Distinct(pending)
    && (forall id: nat {:trigger Find(drafts, id)} | Find(drafts, id).Some? ::
          id < nextId && Find(pending, id) == None && id !in decisions && !Find(drafts, id).value.deciding)
    && (forall id: nat {:trigger Find(pending, id)} | Find(pending, id).Some? ::
          id < nextId && (Find(pending, id).value.deciding <==> id in decisions))
    && (forall id: nat {:trigger id in decisions} | id in decisions :: id < nextId)
  }

  ghost predicate Shaped(s: State) {
    Shape(s.drafts, s.pending, s.decisions, s.nextId)
  }

  ghost predicate Counted(s: State) {
    forall c: nat {:trigger Places(s)[c]} :: Places(s)[c] == if c < s.callers then 1 else 0
  }

  ghost predicate Inv(s: State) {
    Shaped(s) && Counted(s) && (s.stopped ==> s.pending == [])
  }

  // ---- Lists of entries ----

  lemma {:induction false} FindIsNamed(es: seq<Entry>, id: nat)
    ensures Find(es, id).Some? ==> Find(es, id).value.request.id == id && Find(es, id).value in es
    ensures (exists e :: e in es && e.request.id == id) ==> Find(es, id).Some?
  {
    if es != [] {
      FindIsNamed(es[1..], id);
    }
  }

  lemma {:induction false} FindAppend(es: seq<Entry>, e: Entry)
    ensures forall j: nat {:trigger Find(es + [e], j)} ::
          Find(es + [e], j) == if Find(es, j).Some? then Find(es, j) else if e.request.id == j then Some(e) else None
    ensures Distinct(es) && Find(es, e.request.id) == None ==> Distinct(es + [e])
    ensures Waiting(es + [e]) == Waiting(es) + multiset{e.caller}
  {
    if es != [] {
      FindAppend(es[1..], e);
      assert (es + [e])[1..] == es[1..] + [e];
    } else {
      assert es + [e] == [e];
    }
  }

  lemma {:induction false} FindDrop(es: seq<Entry>, id: nat)
    requires Distinct(es)
    ensures forall j: nat {:trigger Find(Drop(es, id), j)} ::
          Find(Drop(es, id), j) == if j == id then None else Find(es, j)
    ensures Distinct(Drop(es, id))
    ensures Find(es, id).Some? ==> Waiting(es) == Waiting(Drop(es, id)) + multiset{Find(es, id).value.caller}
    ensures Find(es, id).None? ==> Drop(es, id) == es
  {
    if es != [] && es[0].request.id != id {
      FindDrop(es[1..], id);
      assert ([es[0]] + Drop(es[1..], id))[1..] == Drop(es[1..], id);
    }
  }

  lemma {:induction false} FindMark(es: seq<Entry>, id: nat, deciding: bool)
    ensures forall j: nat {:trigger Find(Mark(es, id, deciding), j)} :: Find(Mark(es, id, deciding), j)
                        == if j == id && Find(es, j).Some? then Some(Find(es, j).value.(deciding := deciding))
                            else Find(es, j)
    ensures Distinct(es) ==> Distinct(Mark(es, id, deciding))
    ensures Waiting(Mark(es, id, deciding)) == Waiting(es)
    ensures Find(es, id).None? ==> Mark(es, id, deciding) == es
  {
    if es != [] {
      FindMark(es[1..], id, deciding);
      if es[0].request.id == id {
        assert ([es[0].(deciding := deciding)] + es[1..])[1..] == es[1..];
      } else {
        assert ([es[0]] + Mark(es[1..], id, deciding))[1..] == Mark(es[1..], id, deciding);
      }
    }
  }

  lemma AnsweredAppend(rs: seq<Resolution>, r: Resolution)
    ensures Answered(rs + [r]) == Answered(rs) + multiset{r.caller}
  {
    assert (rs + [r])[..|rs|] == rs;
  }

  // ---- Steps that only take requests away, and never approve ----

  /** Nothing was approved, and what is still pending is as it was. */
  ghost predicate Fewer(pending: seq<Entry>, rest: seq<Entry>) {
    forall id: nat {:trigger Find(rest, id)} | Find(rest, id).Some? :: Find(rest, id) == Find(pending, id)
  }

  ghost predicate NoApproval(rs: seq<Resolution>, more: seq<Resolution>) {
    && rs <= more
    && (forall k {:trigger more[k]} | |rs| <= k < |more| :: more[k].outcome.verdict != Approve)
  }

  ghost predicate Quiet(s: State, t: State) {
    && t.decisions == s.decisions && t.stopped == s.stopped && t.callers == s.callers && t.nodeId == s.nodeId
    && Fewer(s.pending, t.pending)
    && NoApproval(s.resolved, t.resolved)
  }

  lemma QuietTwice(s: State, t: State, u: State)
    requires Quiet(s, t) && Quiet(t, u)
    ensures Quiet(s, u)
  {
  }

  lemma DropKeepsShape(drafts: seq<Entry>, pending: seq<Entry>, decisions: map<nat, Envelope>, nextId: nat, id: nat)
    requires Shape(drafts, pending, decisions, nextId)
    ensures Shape(drafts, Drop(pending, id), decisions, nextId) && Fewer(pending, Drop(pending, id))
  {
    FindDrop(pending, id);
  }

  lemma DraftKeepsShape(drafts: seq<Entry>, pending: seq<Entry>, decisions: map<nat, Envelope>, nextId: nat, e: Entry)
    requires Shape(drafts, pending, decisions, nextId) && e.request.id == nextId && !e.deciding
    ensures Shape(drafts + [e], pending, decisions, nextId + 1)
  {
    FindAppend(drafts, e);
  }

  lemma FinishOne(s: State, id: nat, verdict: Verdict, deviceId: Option<int>, reason: Option<Reason>)
    requires Shaped(s)
    ensures var t := Finish(s, id, verdict, deviceId, reason);
            && Shaped(t) && Places(t) == Places(s)
            && t.pending == Drop(s.pending, id)
            && (verdict != Approve ==> Quiet(s, t))
  {
    DropKeepsShape(s.drafts, s.pending, s.decisions, s.nextId, id);
    FinishPlaces(s, id, verdict, deviceId, reason);
  }

  lemma FinishPlaces(s: State, id: nat, verdict: Verdict, deviceId: Option<int>, reason: Option<Reason>)
    requires Distinct(s.pending)
    ensures Places(Finish(s, id, verdict, deviceId, reason)) == Places(s)
    ensures Find(s.pending, id).None? ==> Drop(s.pending, id) == s.pending
  {
    FindDrop(s.pending, id);
    if Find(s.pending, id).Some? {
      var caller, t := Find(s.pending, id).value.caller, s.(pending := Drop(s.pending, id));
      ResolvePlaces(t, caller, Outcome(verdict, Some(id), deviceId, reason));
      OneMoves(Waiting(s.drafts), Waiting(t.pending), Answered(s.resolved), multiset{caller});
    }
  }

  lemma OneMoves(drafts: multiset<nat>, pending: multiset<nat>, answered: multiset<nat>, one: multiset<nat>)
    ensures drafts + pending + answered + one == drafts + (pending + one) + answered
  {
  }

  lemma BeginOne(s: State, caller: nat, signal: Option<nat>, action: Action, start: Start, crashed: Outcome)
    requires Shaped(s) && crashed.verdict != Approve
    ensures var t := Begin(s, caller, signal, action, start, crashed);
            Shaped(t) && t.pending == s.pending && Quiet(s, t)
  {
    if start.build.Built? {
      DraftKeepsShape(s.drafts, s.pending, s.decisions, s.nextId, Draft(s.nextId, caller, signal, action, start.build));
    }
  }

  lemma ResolvePlaces(s: State, caller: nat, outcome: Outcome)
    ensures Places(Resolve(s, caller, outcome)) == Places(s) + multiset{caller}
  {
    AnsweredAppend(s.resolved, Resolution(caller, outcome));
  }

  lemma BeginPlaces(s: State, caller: nat, signal: Option<nat>, action: Action, start: Start, crashed: Outcome)
    ensures Places(Begin(s, caller, signal, action, start, crashed)) == Places(s) + multiset{caller}
  {
    match AtOnce(s.stopped, start, crashed)
    case Some(outcome) => ResolvePlaces(s, caller, outcome);
    case None => FindAppend(s.drafts, Draft(s.nextId, caller, signal, action, start.build));
  }

  /** Each entry of a snapshot is still pending as it was when the snapshot was taken. */
  ghost predicate StillThere(pending: seq<Entry>, es: seq<Entry>) {
    Distinct(es) && forall e | e in es :: Find(pending, e.request.id) == Some(e)
  }

  lemma {:induction false} SnapshotIsThere(es: seq<Entry>)
    requires Distinct(es)
    ensures StillThere(es, es)
  {
    if es != [] {
      SnapshotIsThere(es[1..]);
      forall e | e in es ensures Find(es, e.request.id) == Some(e) {
        if e in es[1..] {
          FindIsNamed(es[1..], es[0].request.id);
        }
      }
    }
  }

  lemma RestStaysThere(pending: seq<Entry>, rest: seq<Entry>, es: seq<Entry>)
    requires es != [] && StillThere(pending, es) && Distinct(pending)
    requires rest == pending || rest == Drop(pending, es[0].request.id)
    ensures StillThere(rest, es[1..])
  {
    FindDrop(pending, es[0].request.id);
    FindIsNamed(es[1..], es[0].request.id);
  }

  lemma {:induction false} AbortAllIsQuiet(s: State, es: seq<Entry>, signal: nat)
    requires Shaped(s)
    ensures var t := AbortAll(s, es, signal); Shaped(t) && Places(t) == Places(s) && Quiet(s, t)
    decreases es
  {
    if es != [] {
      var u := if es[0].signal == Some(signal) then Finish(s, es[0].request.id, Withdrawn, None, None) else s;
      FinishOne(s, es[0].request.id, Withdrawn, None, None);
      AbortAllIsQuiet(u, es[1..], signal);
      QuietTwice(s, u, AbortAll(s, es, signal));
    }
  }

  /** Everything pending is named by the list. */
  ghost predicate Covers(es: seq<Entry>, pending: seq<Entry>) {
    forall id: nat {:trigger Find(pending, id)} | Find(pending, id).Some? :: Find(es, id).Some?
  }

  lemma CoversLess(es: seq<Entry>, pending: seq<Entry>)
    requires Covers(es, pending) && Distinct(pending)
    ensures es == [] ==> pending == []
    ensures es != [] ==> Covers(es[1..], Drop(pending, es[0].request.id))
  {
    assert pending != [] ==> Find(pending, pending[0].request.id).Some?;
    if es != [] {
      FindDrop(pending, es[0].request.id);
    }
  }

  lemma {:induction false} FinishAllEmpties(s: State, es: seq<Entry>)
    requires Shaped(s) && Covers(es, s.pending)
    ensures var t := FinishAll(s, es); Shaped(t) && Places(t) == Places(s) && Quiet(s, t) && t.pending == []
    decreases es
  {
    CoversLess(es, s.pending);
    if es != [] {
      var u := Finish(s, es[0].request.id, Unavailable, None, Some(ServiceStopping));
      FinishOne(s, es[0].request.id, Unavailable, None, Some(ServiceStopping));
      FinishAllEmpties(u, es[1..]);
      QuietTwice(s, u, FinishAll(s, es));
    }
  }

  lemma RebuildOne(s: State, e: Entry, look: Look)
    requires Shaped(s) && Find(s.pending, e.request.id) == Some(e)
    ensures var t := Rebuild(s, e, look);
            && Shaped(t) && Places(t) == Places(s) && Quiet(s, t)
            && (t.pending == s.pending || t.pending == Drop(s.pending, e.request.id))
  {
    if look.live == None {
      FinishOne(s, e.request.id, Deny, None, Some(ActionChanged));
    } else if !e.deciding {
      var u := s.(pending := Drop(s.pending, e.request.id));
      DropKeepsShape(s.drafts, s.pending, s.decisions, s.nextId, e.request.id);
      FindDrop(s.pending, e.request.id);
      var crashed := Outcome(Error, None, None, Some(SealFailed));
      BeginOne(u, e.caller, e.signal, look.live.value, look.start, crashed);
      BeginPlaces(u, e.caller, e.signal, look.live.value, look.start, crashed);
      QuietTwice(s, u, Rebuild(s, e, look));
    }
  }

  lemma {:induction false} ResubmitAllIsQuiet(s: State, es: seq<Entry>, look: nat -> Look)
    requires Shaped(s) && StillThere(s.pending, es)
    ensures var t := ResubmitAll(s, es, look); Shaped(t) && Places(t) == Places(s) && Quiet(s, t)
    decreases es
  {
    if es != [] {
      var u := ResubmitOne(s, es[0], look(es[0].request.id));
      RebuildOne(s, es[0], look(es[0].request.id));
      RestStaysThere(s.pending, u.pending, es);
      ResubmitAllIsQuiet(u, es[1..], look);
      QuietTwice(s, u, ResubmitAll(s, es, look));
    }
  }

  // ---- Every step keeps the invariant ----

  lemma DropDraftKeepsShape(drafts: seq<Entry>, pending: seq<Entry>, decisions: map<nat, Envelope>, nextId: nat,
      id: nat)
    requires Shape(drafts, pending, decisions, nextId)
    ensures Shape(Drop(drafts, id), pending, decisions, nextId)
    ensures Find(Drop(drafts, id), id) == None
  {
    FindDrop(drafts, id);
  }

  lemma AppendKeepsShape(drafts: seq<Entry>, pending: seq<Entry>, decisions: map<nat, Envelope>, nextId: nat, e: Entry)
    requires Shape(drafts, pending, decisions, nextId)
    requires Find(drafts, e.request.id) == None && Find(pending, e.request.id) == None
    requires e.request.id < nextId && e.request.id !in decisions && !e.deciding
    ensures Shape(drafts, pending + [e], decisions, nextId)
  {
    FindAppend(pending, e);
  }

  lemma MarkSetKeepsShape(drafts: seq<Entry>, pending: seq<Entry>, decisions: map<nat, Envelope>, nextId: nat, id: nat,
      e: Envelope)
    requires Shape(drafts, pending, decisions, nextId) && Find(pending, id).Some?
    ensures Shape(drafts, Mark(pending, id, true), decisions[id := e], nextId)
  {
    FindMark(pending, id, true);
  }

  lemma MarkUnsetKeepsShape(drafts: seq<Entry>, pending: seq<Entry>, decisions: map<nat, Envelope>, nextId: nat,
      id: nat)
    requires Shape(drafts, pending, decisions, nextId)
    ensures Shape(drafts, Mark(pending, id, false), decisions - {id}, nextId)
  {
    FindMark(pending, id, false);
  }

  /** Marking an entry and recording its decision, or undoing both, go together. */
  lemma MarkKeepsShape(drafts: seq<Entry>, pending: seq<Entry>, decisions: map<nat, Envelope>, nextId: nat, id: nat,
      e: Envelope)
    requires Shape(drafts, pending, decisions, nextId)
    ensures Find(pending, id).Some? ==> Shape(drafts, Mark(pending, id, true), decisions[id := e], nextId)
    ensures Shape(drafts, Mark(pending, id, false), decisions - {id}, nextId)
  {
    if Find(pending, id).Some? {
      MarkSetKeepsShape(drafts, pending, decisions, nextId, id, e);
    }
    MarkUnsetKeepsShape(drafts, pending, decisions, nextId, id);
  }

  lemma SamePlaces(s: State, t: State)
    requires Counted(s) && Places(t) == Places(s) && t.callers == s.callers
    ensures Counted(t)
  {
  }

  lemma OneMorePlace(s: State, t: State)
    requires Counted(s) && Places(t) == Places(s) + multiset{s.callers} && t.callers == s.callers + 1
    ensures Counted(t)
  {
    forall c: nat ensures Places(t)[c] == if c < t.callers then 1 else 0 {
      assert Places(s)[c] == if c < s.callers then 1 else 0;
    }
  }

  lemma CallKeepsInv(s: State, action: Action, signal: Option<nat>, start: Start)
    requires Inv(s)
    ensures Inv(Call(s, action, signal, start))
  {
    var t := s.(callers := s.callers + 1);
    BeginOne(t, s.callers, signal, action, start, Outcome(Threw, None, None, None));
    BeginPlaces(t, s.callers, signal, action, start, Outcome(Threw, None, None, None));
    assert Places(t) == Places(s);
    OneMorePlace(s, Call(s, action, signal, start));
  }

  lemma RequestAuditedKeepsInv(s: State, id: nat, ok: bool, linkUp: bool)
    requires Inv(s)
    ensures Inv(RequestAudited(s, id, ok, linkUp))
  {
    if Find(s.drafts, id).Some? {
      var e := Find(s.drafts, id).value;
      FindIsNamed(s.drafts, id);
      DropDraftKeepsShape(s.drafts, s.pending, s.decisions, s.nextId, id);
      AppendKeepsShape(Drop(s.drafts, id), s.pending, s.decisions, s.nextId, e);
      RequestAuditedPlaces(s, id, ok, linkUp);
      SamePlaces(s, RequestAudited(s, id, ok, linkUp));
    }
  }

  lemma DraftTakenPlaces(s: State, id: nat)
    requires Distinct(s.drafts) && Find(s.drafts, id).Some?
    ensures Places(s) == Places(s.(drafts := Drop(s.drafts, id))) + multiset{Find(s.drafts, id).value.caller}
  {
    FindDrop(s.drafts, id);
  }

  lemma PendingAddedPlaces(s: State, e: Entry, linkUp: bool)
    ensures Places(Submit(s.(pending := s.pending + [e]), e.request, linkUp)) == Places(s) + multiset{e.caller}
  {
    FindAppend(s.pending, e);
  }

  lemma RequestAuditedPlaces(s: State, id: nat, ok: bool, linkUp: bool)
    requires Distinct(s.drafts)
    ensures Places(RequestAudited(s, id, ok, linkUp)) == Places(s)
  {
    if Find(s.drafts, id).Some? {
      var e := Find(s.drafts, id).value;
      var t := s.(drafts := Drop(s.drafts, id));
      DraftTakenPlaces(s, id);
      match AfterAudit(e, ok, s.stopped, s.aborted)
      case Some(outcome) => ResolvePlaces(t, e.caller, outcome);
      case None => PendingAddedPlaces(t, e, linkUp);
    }
  }

  /** The request an acceptable envelope is bound to, with the cache as its lookup leaves it. */
  function BoundBy(s: State, e: Envelope, approvers: Approvers, now: int): Option<Entry> {
    if s.stopped || CheckEnvelope(e, approvers, s.nodeId).Some? then None
    else Bound(s.(nonces := NonceCaches.Window(s.nonces, now - s.ttlMs, s.max)), e.message, now)
  }

  lemma RespondedKeepsInv(s: State, e: Envelope, approvers: Approvers, now: int, live: Option<Action>)
    requires Inv(s)
    ensures Inv(Responded(s, e, approvers, now, live))
  {
    var u := Responded(s, e, approvers, now, live);
    var bound := BoundBy(s, e, approvers, now);
    if bound.None? {
      assert Places(u) == Places(s);
    } else {
      FindIsNamed(s.pending, e.message.requestId);
      if StillTheAction(live, bound.value.request.hash) {
        MarkKeepsShape(s.drafts, s.pending, s.decisions, s.nextId, bound.value.request.id, e);
        FindMark(s.pending, bound.value.request.id, true);
        assert Places(u) == Places(s);
      } else {
        var t := Remember(s.(nonces := NonceCaches.Window(s.nonces, now - s.ttlMs, s.max)), e, now);
        assert Places(t) == Places(s);
        FinishOne(t, bound.value.request.id, Deny, Some(e.kid), Some(ActionChanged));
      }
    }
    SamePlaces(s, u);
  }

  lemma DecidedKeepsShape(drafts: seq<Entry>, pending: seq<Entry>, decisions: map<nat, Envelope>, nextId: nat, id: nat)
    requires Shape(drafts, pending, decisions, nextId)
    ensures Shape(drafts, Drop(pending, id), decisions - {id}, nextId)
    ensures Find(pending, id).None? ==> Drop(pending, id) == pending
  {
    FindDrop(pending, id);
  }

  lemma ResponseAuditedKeepsInv(s: State, id: nat, ok: bool, live: Option<Action>, now: int)
    requires Inv(s)
    ensures Inv(ResponseAudited(s, id, ok, live, now))
  {
    if id in s.decisions {
      var e := s.decisions[id];
      var t := s.(decisions := s.decisions - {id});
      var u := ResponseAudited(s, id, ok, live, now);
      if ok {
        DecidedKeepsShape(s.drafts, s.pending, s.decisions, s.nextId, id);
        if Find(s.pending, id).Some? {
          var last := u.resolved[|s.resolved|].outcome;
          FinishPlaces(Remember(t, e, now), id, last.verdict, last.deviceId, last.reason);
          assert Places(Remember(t, e, now)) == Places(s);
        }
      } else {
        MarkKeepsShape(s.drafts, s.pending, s.decisions, s.nextId, id, e);
        FindMark(s.pending, id, false);
      }
      assert Places(u) == Places(s);
      SamePlaces(s, u);
    }
  }

  lemma FewerThanNone(pending: seq<Entry>, rest: seq<Entry>)
    requires Fewer(pending, rest) && pending == []
    ensures rest == []
  {
    if rest != [] {
      assert Find(rest, rest[0].request.id).Some?;
    }
  }

  lemma AbortIsQuiet(s: State, signal: nat)
    requires Inv(s)
    ensures Inv(Abort(s, signal)) && Quiet(s, Abort(s, signal))
  {
    var t := s.(aborted := s.aborted + {signal});
    AbortAllIsQuiet(t, s.pending, signal);
    assert Places(t) == Places(s);
    SamePlaces(s, Abort(s, signal));
    if s.stopped { FewerThanNone(s.pending, Abort(s, signal).pending); }
  }

  lemma ConnectedIsQuiet(s: State, look: nat -> Look)
    requires Inv(s)
    ensures Inv(Connected(s, look)) && Quiet(s, Connected(s, look))
  {
    SnapshotIsThere(s.pending);
    ResubmitAllIsQuiet(s, s.pending, look);
    SamePlaces(s, Connected(s, look));
    if s.stopped { FewerThanNone(s.pending, Connected(s, look).pending); }
  }

  lemma StopIsQuiet(s: State)
    requires Inv(s)
    ensures Inv(Stop(s)) && Quiet(s.(stopped := true), Stop(s)) && Stop(s).pending == []
  {
    var t := s.(stopped := true);
    FinishAllEmpties(t, s.pending);
    assert Places(t) == Places(s);
    SamePlaces(s, Stop(s));
  }

  lemma FinishKeepsInv(s: State, id: nat, verdict: Verdict, reason: Option<Reason>)
    requires Inv(s) && verdict != Approve
    ensures Inv(Finish(s, id, verdict, None, reason)) && Quiet(s, Finish(s, id, verdict, None, reason))
  {
    FinishOne(s, id, verdict, None, reason);
    SamePlaces(s, Finish(s, id, verdict, None, reason));
    if s.stopped { FewerThanNone(s.pending, Finish(s, id, verdict, None, reason).pending); }
  }

  lemma StepKeepsInv(s: State, ev: Event)
    requires Inv(s)
    ensures Inv(Step(s, ev))
  {
    match ev
    case CallE(action, signal, start) => CallKeepsInv(s, action, signal, start);
    case RequestAuditedE(id, ok, linkUp) => RequestAuditedKeepsInv(s, id, ok, linkUp);
    case RespondedE(e, approvers, now, live) => RespondedKeepsInv(s, e, approvers, now, live);
    case ResponseAuditedE(id, ok, live, now) => ResponseAuditedKeepsInv(s, id, ok, live, now);
    case AbortE(signal) => AbortIsQuiet(s, signal);
    case ConnectedE(look) => ConnectedIsQuiet(s, look);
    case StopE => StopIsQuiet(s);
    case TimerE(id) => FinishKeepsInv(s, id, Expired, None);
    case SubmitRefusedE(id) => FinishKeepsInv(s, id, Unavailable, Some(RelayTooOld));
  }

  /** A run that starts with nothing asked. */
  function Run(nodeId: int, max: nat, ttlMs: nat, events: seq<Event>): State {
    After(Initial(nodeId, max, ttlMs), events)
  }

  lemma {:induction false} RunKeepsInv(nodeId: int, max: nat, ttlMs: nat, events: seq<Event>)
    ensures Inv(Run(nodeId, max, ttlMs, events)) && Run(nodeId, max, ttlMs, events).nodeId == nodeId
  {
    if events == [] {
      assert Places(Initial(nodeId, max, ttlMs)) == multiset{};
    } else {
      RunKeepsInv(nodeId, max, ttlMs, events[..|events| - 1]);
      StepKeepsInv(Run(nodeId, max, ttlMs, events[..|events| - 1]), events[|events| - 1]);
      StepKeepsNode(Run(nodeId, max, ttlMs, events[..|events| - 1]), events[|events| - 1]);
    }
  }

  /**
   * In every interleaving each call is in exactly one place: it waits for its request's audit, it waits for a phone,
   * or it was answered; so it is answered at most once, and is never lost. After stop() nothing waits for a phone.
   */
  lemma EveryCallerIsInOnePlace(nodeId: int, max: nat, ttlMs: nat, events: seq<Event>, caller: nat)
    ensures var s := Run(nodeId, max, ttlMs, events);
            && Waiting(s.drafts)[caller] + Waiting(s.pending)[caller] + Answered(s.resolved)[caller]
               == (if caller < s.callers then 1 else 0)
            && (s.stopped ==> s.pending == [])
  {
    RunKeepsInv(nodeId, max, ttlMs, events);
    var s := Run(nodeId, max, ttlMs, events);
    assert Places(s)[caller] == if caller < s.callers then 1 else 0;
  }

  // ---- What an approval proves about the run before it ----

  /** Step h audited the request and let it wait for a phone: nothing had stopped the service or aborted the call. */
  ghost predicate AuditedAt(s0: State, events: seq<Event>, h: nat, request: Request) {
    && h < |events|
    && events[h].RequestAuditedE? && events[h].ok && events[h].id == request.id
    && !After(s0, events[..h]).stopped
    && Find(After(s0, events[..h]).drafts, request.id).Some?
    && Find(After(s0, events[..h]).drafts, request.id).value.request == request
  }

  /**
   * Step j received the envelope while the service ran: signed with the device key of a then-active approver of
   * this node, single use, and bound by nonce, hash and expiry to the request, still fresh and still the live action.
   */
  ghost predicate AcceptedAt(s0: State, events: seq<Event>, j: nat, request: Request, e: Envelope) {
    && j < |events|
    && events[j].RespondedE? && events[j].envelope == e
    && !After(s0, events[..j]).stopped
    && NonceCaches.Lookup(
         NonceCaches.Window(After(s0, events[..j]).nonces, events[j].now - After(s0, events[..j]).ttlMs,
                            After(s0, events[..j]).max), request.nonce).None?
    && events[j].approvers.IsActive(e.kid) && e.kid == e.message.deviceId
    && e.signedBy == events[j].approvers.records[e.kid].publicKey
    && e.message.nodeId == s0.nodeId
    && e.message.requestId == request.id && e.message.nonce == request.nonce
    && e.message.hash == request.hash && e.message.expiresAt == request.expiresAt
    && events[j].now <= request.expiresAt
    && StillTheAction(events[j].live, request.hash)
  }

  /** The entry was pending already, for the same request and caller. */
  ghost predicate SameRequest(s: State, t: State, id: nat) {
    && Find(s.pending, id).Some? && Find(t.pending, id).Some?
    && Find(s.pending, id).value.request == Find(t.pending, id).value.request
    && Find(s.pending, id).value.caller == Find(t.pending, id).value.caller
  }

  lemma PendingBeforeAudit(s: State, i: nat, ok: bool, linkUp: bool, id: nat)
    requires Shaped(s) && Find(RequestAudited(s, i, ok, linkUp).pending, id).Some?
    ensures var t := RequestAudited(s, i, ok, linkUp);
            || SameRequest(s, t, id)
            || (ok && i == id && !s.stopped && Find(s.drafts, id) == Find(t.pending, id))
  {
    if Find(s.drafts, i).Some? {
      FindIsNamed(s.drafts, i);
      FindAppend(s.pending, Find(s.drafts, i).value);
    }
  }

  lemma PendingBeforeResponse(s: State, e: Envelope, approvers: Approvers, now: int, live: Option<Action>, id: nat)
    requires Shaped(s) && Find(Responded(s, e, approvers, now, live).pending, id).Some?
    ensures SameRequest(s, Responded(s, e, approvers, now, live), id)
  {
    var bound := BoundBy(s, e, approvers, now);
    if bound.Some? {
      if StillTheAction(live, bound.value.request.hash) {
        FindMark(s.pending, bound.value.request.id, true);
      } else {
        FindDrop(s.pending, bound.value.request.id);
      }
    }
  }

  lemma PendingBeforeCommit(s: State, i: nat, ok: bool, live: Option<Action>, now: int, id: nat)
    requires Shaped(s) && Find(ResponseAudited(s, i, ok, live, now).pending, id).Some?
    ensures SameRequest(s, ResponseAudited(s, i, ok, live, now), id)
  {
    FindMark(s.pending, i, false);
    FindDrop(s.pending, i);
  }

  /** Where a pending request comes from. */
  lemma PendingBefore(s: State, ev: Event, id: nat)
    requires Inv(s) && Find(Step(s, ev).pending, id).Some?
    ensures || SameRequest(s, Step(s, ev), id)
            || (ev.RequestAuditedE? && ev.ok && ev.id == id && !s.stopped
                && Find(s.drafts, id) == Find(Step(s, ev).pending, id))
  {
    match ev
    case CallE(action, signal, start) =>
    case RequestAuditedE(i, ok, linkUp) => PendingBeforeAudit(s, i, ok, linkUp, id);
    case RespondedE(e, approvers, now, live) => PendingBeforeResponse(s, e, approvers, now, live, id);
    case ResponseAuditedE(i, ok, live, now) => PendingBeforeCommit(s, i, ok, live, now, id);
    case AbortE(signal) => AbortIsQuiet(s, signal);
    case ConnectedE(look) => ConnectedIsQuiet(s, look);
    case StopE => StopIsQuiet(s);
    case TimerE(i) => FinishKeepsInv(s, i, Expired, None);
    case SubmitRefusedE(i) => FinishKeepsInv(s, i, Unavailable, Some(RelayTooOld));
  }

  lemma StepKeepsNode(s: State, ev: Event)
    requires Inv(s)
    ensures Step(s, ev).nodeId == s.nodeId
  {
    match ev
    case AbortE(signal) => AbortIsQuiet(s, signal);
    case ConnectedE(look) => ConnectedIsQuiet(s, look);
    case StopE => StopIsQuiet(s);
    case _ =>
  }

  /** Where a decision being audited comes from. */
  lemma DecisionBefore(s: State, ev: Event, id: nat)
    requires Inv(s) && id in Step(s, ev).decisions
    ensures var e := Step(s, ev).decisions[id];
            || (id in s.decisions && s.decisions[id] == e)
            || (ev.RespondedE? && ev.envelope == e
                && BoundBy(s, e, ev.approvers, ev.now).Some?
                && BoundBy(s, e, ev.approvers, ev.now).value.request.id == id
                && StillTheAction(ev.live, BoundBy(s, e, ev.approvers, ev.now).value.request.hash))
  {
    match ev
    case AbortE(signal) => AbortIsQuiet(s, signal);
    case ConnectedE(look) => ConnectedIsQuiet(s, look);
    case StopE => StopIsQuiet(s);
    case TimerE(i) => FinishKeepsInv(s, i, Expired, None);
    case SubmitRefusedE(i) => FinishKeepsInv(s, i, Unavailable, Some(RelayTooOld));
    case _ =>
  }

  lemma AuditedEarlier(s0: State, events: seq<Event>, n: nat, h: nat, request: Request)
    requires n <= |events| && AuditedAt(s0, events[..n], h, request)
    ensures h < n && AuditedAt(s0, events, h, request)
  {
    assert events[..n][..h] == events[..h];
  }

  lemma AcceptedEarlier(s0: State, events: seq<Event>, n: nat, j: nat, request: Request, e: Envelope)
    requires n <= |events| && AcceptedAt(s0, events[..n], j, request, e)
    ensures j < n && AcceptedAt(s0, events, j, request, e)
  {
    assert events[..n][..j] == events[..j];
  }

  lemma {:induction false} PendingWasAudited(nodeId: int, max: nat, ttlMs: nat, events: seq<Event>, id: nat)
    returns (h: nat)
    requires Find(Run(nodeId, max, ttlMs, events).pending, id).Some?
    ensures AuditedAt(Initial(nodeId, max, ttlMs), events, h,
                      Find(Run(nodeId, max, ttlMs, events).pending, id).value.request)
  {
    var n := |events| - 1;
    var s := Run(nodeId, max, ttlMs, events[..n]);
    RunKeepsInv(nodeId, max, ttlMs, events[..n]);
    PendingBefore(s, events[n], id);
    if SameRequest(s, Run(nodeId, max, ttlMs, events), id) {
      h := PendingWasAudited(nodeId, max, ttlMs, events[..n], id);
      AuditedEarlier(Initial(nodeId, max, ttlMs), events, n, h, Find(s.pending, id).value.request);
    } else {
      h := n;
      FindIsNamed(s.drafts, id);
    }
  }

  /** An accepted response is bound to its request in the step that accepts it. */
  lemma BoundIsAccepted(nodeId: int, max: nat, ttlMs: nat, events: seq<Event>, n: nat, e: Envelope)
    requires n < |events| && events[n].RespondedE? && events[n].envelope == e
    requires Run(nodeId, max, ttlMs, events[..n]).nodeId == nodeId
    requires var bound := BoundBy(Run(nodeId, max, ttlMs, events[..n]), e, events[n].approvers, events[n].now);
             bound.Some? && StillTheAction(events[n].live, bound.value.request.hash)
    ensures var s := Run(nodeId, max, ttlMs, events[..n]);
            var bound := BoundBy(s, e, events[n].approvers, events[n].now).value;
            Find(s.pending, bound.request.id) == Some(bound)
            && AcceptedAt(Initial(nodeId, max, ttlMs), events, n, bound.request, e)
  {
    FindIsNamed(Run(nodeId, max, ttlMs, events[..n]).pending, e.message.requestId);
  }

  /**
   * A request that is pending while a response to it is audited: its own audit, then the response's acceptance, came
   * first.
   */
  lemma {:induction false} DecisionWasEarned(nodeId: int, max: nat, ttlMs: nat, events: seq<Event>, id: nat)
    returns (h: nat, j: nat)
    requires var s := Run(nodeId, max, ttlMs, events); id in s.decisions && Find(s.pending, id).Some?
    ensures var s := Run(nodeId, max, ttlMs, events);
            && h < j
            && AuditedAt(Initial(nodeId, max, ttlMs), events, h, Find(s.pending, id).value.request)
            && AcceptedAt(Initial(nodeId, max, ttlMs), events, j, Find(s.pending, id).value.request, s.decisions[id])
  {
    var n := |events| - 1;
    var s, t, s0 := Run(nodeId, max, ttlMs, events[..n]), Run(nodeId, max, ttlMs, events), Initial(nodeId, max, ttlMs);
    RunKeepsInv(nodeId, max, ttlMs, events[..n]);
    PendingBefore(s, events[n], id);
    DecisionBefore(s, events[n], id);
    assert SameRequest(s, t, id);
    var request := Find(s.pending, id).value.request;
    if id in s.decisions && s.decisions[id] == t.decisions[id] {
      h, j := DecisionWasEarned(nodeId, max, ttlMs, events[..n], id);
      AuditedEarlier(s0, events, n, h, request);
      AcceptedEarlier(s0, events, n, j, request, t.decisions[id]);
    } else {
      h := PendingWasAudited(nodeId, max, ttlMs, events[..n], id);
      AuditedEarlier(s0, events, n, h, request);
      BoundIsAccepted(nodeId, max, ttlMs, events, n, t.decisions[id]);
      j := n;
    }
  }

  /** The only step that can approve, and what it checks. */
  lemma ApprovedBy(s: State, ev: Event, k: nat)
    requires Inv(s) && |s.resolved| <= k < |Step(s, ev).resolved|
    requires Step(s, ev).resolved[k].outcome.verdict == Approve
    ensures ev.ResponseAuditedE? && ev.ok && ev.id in s.decisions && Find(s.pending, ev.id).Some?
    ensures var e := Find(s.pending, ev.id).value;
            && Step(s, ev).resolved
               == s.resolved + [Resolution(e.caller, Outcome(Approve, Some(ev.id), Some(s.decisions[ev.id].kid), None))]
            && s.decisions[ev.id].message.approve
            && StillTheAction(ev.live, e.request.hash) && ev.now <= e.request.expiresAt && !s.stopped
  {
    match ev
    case CallE(action, signal, start) =>
    case RequestAuditedE(i, ok, linkUp) =>
    case RespondedE(e, approvers, now, live) =>
    case ResponseAuditedE(i, ok, live, now) =>
    case AbortE(signal) => AbortIsQuiet(s, signal);
    case ConnectedE(look) => ConnectedIsQuiet(s, look);
    case StopE => StopIsQuiet(s);
    case TimerE(i) =>
    case SubmitRefusedE(i) =>
  }

  /**
   * A caller is told `approve` only by a step i that committed a response when the live action still hashed to what
   * was approved, before the deadline and before stop(); and earlier in the same run, in this order, the request was
   * audited (h), and the response was accepted (j) from a device active at that moment whose signature, nonce, hash
   * and expiry matched; step i itself is the successful audit of that response.
   */
  lemma ApprovalIsEarned(nodeId: int, max: nat, ttlMs: nat, events: seq<Event>, i: nat, k: nat)
    returns (h: nat, j: nat, request: Request)
    requires i < |events|
    requires |Run(nodeId, max, ttlMs, events[..i]).resolved| <= k < |Run(nodeId, max, ttlMs, events[..i + 1]).resolved|
    requires Run(nodeId, max, ttlMs, events[..i + 1]).resolved[k].outcome.verdict == Approve
    ensures var s := Run(nodeId, max, ttlMs, events[..i]);
            && h < j < i
            && AuditedAt(Initial(nodeId, max, ttlMs), events, h, request)
            && events[i].ResponseAuditedE? && events[i].ok && events[i].id == request.id && request.id in s.decisions
            && s.decisions[request.id].message.approve
            && AcceptedAt(Initial(nodeId, max, ttlMs), events, j, request, s.decisions[request.id])
            && StillTheAction(events[i].live, request.hash) && events[i].now <= request.expiresAt && !s.stopped
            && Find(s.pending, request.id).Some?
            && Run(nodeId, max, ttlMs, events[..i + 1]).resolved[k]
               == Resolution(Find(s.pending, request.id).value.caller,
                   Outcome(Approve, Some(request.id), Some(s.decisions[request.id].kid), None))
  {
    var s := Run(nodeId, max, ttlMs, events[..i]);
    RunKeepsInv(nodeId, max, ttlMs, events[..i]);
    assert events[..i + 1][..i] == events[..i];
    ApprovedBy(s, events[i], k);
    var id := events[i].id;
    request := Find(s.pending, id).value.request;
    FindIsNamed(s.pending, id);
    h, j := DecisionWasEarned(nodeId, max, ttlMs, events[..i], id);
    AuditedEarlier(Initial(nodeId, max, ttlMs), events, i, h, request);
    AcceptedEarlier(Initial(nodeId, max, ttlMs), events, i, j, request, s.decisions[id]);
  }

  /**
   * A tool runs only on an approval that was earned: its request audited, a response accepted for it and audited,
   * nothing changed.
   */
  lemma ToolRunsOnlyWhenEarned(nodeId: int, max: nat, ttlMs: nat, events: seq<Event>, i: nat, k: nat)
    returns (h: nat, j: nat, request: Request)
    requires i < |events|
    requires |Run(nodeId, max, ttlMs, events[..i]).resolved| <= k < |Run(nodeId, max, ttlMs, events[..i + 1]).resolved|
    requires Answer(Run(nodeId, max, ttlMs, events[..i + 1]).resolved[k].outcome) == Runs
    ensures h < j < i && AuditedAt(Initial(nodeId, max, ttlMs), events, h, request)
    ensures events[j].RespondedE? && events[j].envelope.message.approve
    ensures AcceptedAt(Initial(nodeId, max, ttlMs), events, j, request, events[j].envelope)
    ensures events[i].ResponseAuditedE? && events[i].ok && events[i].id == request.id
    ensures StillTheAction(events[i].live, request.hash) && events[i].now <= request.expiresAt
  {
    h, j, request := ApprovalIsEarned(nodeId, max, ttlMs, events, i, k);
  }

  /**
   * Conversely: a response that is being audited approves its caller exactly when its audit succeeds in time and
   * nothing changed.
   */
  lemma CommitApprovesExactlyWhen(s: State, id: nat, ok: bool, live: Option<Action>, now: int)
    requires Inv(s) && id in s.decisions
    ensures var t := ResponseAudited(s, id, ok, live, now);
            (|t.resolved| > |s.resolved| && t.resolved[|s.resolved|].outcome.verdict == Approve)
            <==> (&& ok && Find(s.pending, id).Some? && s.decisions[id].message.approve
                  && StillTheAction(live, Find(s.pending, id).value.request.hash)
                  && now <= Find(s.pending, id).value.request.expiresAt)
  {
  }

  /**
   * A response whose audit fails consumes nothing: but for what the nonce lookup pruned, the phone finds the state it
   * answered.
   */
  lemma FailedAuditIsUndone(s: State, e: Envelope, approvers: Approvers, now: int,
      live: Option<Action>, liveLater: Option<Action>, later: int)
    requires Inv(s) && BoundBy(s, e, approvers, now).Some?
    requires StillTheAction(live, BoundBy(s, e, approvers, now).value.request.hash)
    ensures var t := Responded(s, e, approvers, now, live);
            && e.message.requestId in t.decisions
            && ResponseAudited(t, e.message.requestId, false, liveLater, later)
               == s.(nonces := NonceCaches.Window(s.nonces, now - s.ttlMs, s.max))
  {
    var id := e.message.requestId;
    FindIsNamed(s.pending, id);
    MarkTwice(s.pending, id);
    assert id !in s.decisions;
    assert s.decisions[id := e] - {id} == s.decisions;
  }

  lemma {:induction false} MarkTwice(es: seq<Entry>, id: nat)
    requires Find(es, id).Some? ==> !Find(es, id).value.deciding
    ensures Mark(Mark(es, id, true), id, false) == es
  {
    if es != [] && es[0].request.id != id {
      MarkTwice(es[1..], id);
    }
  }

  /** While a response is being audited no other response to the same request gets further than `already_decided`. */
  lemma SecondPhoneWaits(s: State, e: Envelope, approvers: Approvers, now: int, live: Option<Action>)
    requires Inv(s) && e.message.requestId in s.decisions
    ensures Responded(s, e, approvers, now, live).(nonces := s.nonces) == s
  {
    FindIsNamed(s.pending, e.message.requestId);
  }

  /** A node that seals sends no request in clear on a reconnect; a held clear request is rebuilt or ended instead. */
  lemma SealedNowSendsNothingClear(s: State, look: nat -> Look)
    requires forall id :: look(id).sealing
    ensures var t := Connected(s, look);
            && s.sent <= t.sent
            && forall k | |s.sent| <= k < |t.sent| :: t.sent[k].hash.salt.Some?
  {
    ResubmitSendsSealed(s, s.pending, look);
  }

  lemma {:induction false} ResubmitSendsSealed(s: State, es: seq<Entry>, look: nat -> Look)
    requires forall id :: look(id).sealing
    ensures var t := ResubmitAll(s, es, look);
            && s.sent <= t.sent
            && forall k | |s.sent| <= k < |t.sent| :: t.sent[k].hash.salt.Some?
    decreases es
  {
    if es != [] {
      ResubmitSendsSealed(ResubmitOne(s, es[0], look(es[0].request.id)), es[1..], look);
    }
  }
}
