/**
 * The phone approval protocol (src/approvals/phone-approver.js, pending-store.js, verify-device.js)
 * as the steps its methods take between awaits. Everything an await or a callback can change in the
 * meantime (the approver set, the clock, what currentAction() returns, the link) is an input of the step.
 */
module PhoneApproval {
  import opened Basics
  import NonceCaches

  // ---- Messages, devices and the checks every phone-signed envelope passes ----

  /** The canonical bytes of an action. */
  type Action = int

  /** A collision-free hash: equal exactly when action and salt are. */
  datatype Hash = Hash(action: Action, salt: Option<int>)

  datatype Response = Response(deviceId: int, nodeId: int, requestId: nat, nonce: int, hash: Hash, expiresAt: int,
      approve: bool)

  /** An envelope as received: what it says, and the one key its signature verifies under. */
  datatype Envelope = Envelope(opens: bool, shape: Option<Reason>, es256: bool, kid: int, message: Response,
      signedBy: int, digest: int)

  datatype Record = Record(demo: bool, testKey: bool, publicKey: int, revoked: bool)

  datatype Approvers = Approvers(records: map<int, Record>, overlay: set<int>, allowTestKeys: bool) {
    predicate IsActive(id: int) {
      && id in records
      && !records[id].demo && !records[id].revoked
      && (allowTestKeys || !records[id].testKey)
      && id !in overlay
    }
  }

  datatype Reason = Malformed | BadRequest | UnknownDevice | DemoDevice | TestKey | RevokedDevice | BadSignature
    | WrongNode | Replay | AlreadyDecided | NoSealedRecipient | AuditUnavailable | ServiceStopping | ActionChanged
    | RelayTooOld | NotBuilt | SealFailed | NotDeliverable

  /** Steps 1 to 7 of the check, in its order: the first that fails names the reason. */
  function CheckEnvelope(e: Envelope, approvers: Approvers, nodeId: int): Option<Reason> {
    if !e.opens then Some(Malformed)
    else if e.shape.Some? then e.shape
    else if !e.es256 || e.kid != e.message.deviceId then Some(Malformed)
    else if e.kid !in approvers.records then Some(UnknownDevice)
    else if approvers.records[e.kid].demo then Some(DemoDevice)
    else if !approvers.allowTestKeys && approvers.records[e.kid].testKey then Some(TestKey)
    else if !approvers.IsActive(e.kid) then Some(RevokedDevice)
    else if e.signedBy != approvers.records[e.kid].publicKey then Some(BadSignature)
    else if e.message.nodeId != nodeId then Some(WrongNode)
    else None
  }

  // ---- State ----

  datatype Request = Request(id: nat, nonce: int, hash: Hash, expiresAt: int)

  /** A request and the call that waits for it. `deciding`: a response to it is being audited. */
  datatype Entry = Entry(request: Request, caller: nat, signal: Option<nat>, deciding: bool)

  datatype Verdict = Approve | Deny | Expired | Withdrawn | Unavailable | Error | Threw

  datatype Outcome = Outcome(verdict: Verdict, requestId: Option<nat>, deviceId: Option<int>, reason: Option<Reason>)

  datatype Resolution = Resolution(caller: nat, outcome: Outcome)

  /**
   * drafts: calls suspended while their request is audited. pending: the insertion-ordered map of requests
   * a phone may answer. decisions: responses suspended while they are audited. resolved: what callers got, in order.
   */
  datatype State = State(
    nodeId: int, max: nat, ttlMs: nat,
    stopped: bool, drafts: seq<Entry>, pending: seq<Entry>, decisions: map<nat, Envelope>,
    nonces: seq<NonceCaches.Seen>, aborted: set<nat>, nextId: nat, callers: nat,
    sent: seq<Request>, resolved: seq<Resolution>)

  function Initial(nodeId: int, max: nat, ttlMs: nat): State {
    State(nodeId, max, ttlMs, false, [], [], map[], [], {}, 0, 0, [], [])
  }

  function Find(es: seq<Entry>, id: nat): Option<Entry> {
    if es == [] then None else if es[0].request.id == id then Some(es[0]) else Find(es[1..], id)
  }

  function Drop(es: seq<Entry>, id: nat): seq<Entry> {
    if es == [] then [] else if es[0].request.id == id then es[1..] else [es[0]] + Drop(es[1..], id)
  }

  function Mark(es: seq<Entry>, id: nat, deciding: bool): seq<Entry> {
    if es == [] then []
    else if es[0].request.id == id then [es[0].(deciding := deciding)] + es[1..]
    else [es[0]] + Mark(es[1..], id, deciding)
  }

  function Resolve(s: State, caller: nat, outcome: Outcome): State {
    s.(resolved := s.resolved + [Resolution(caller, outcome)])
  }

  /** _finish: only the first to take the entry resolves its caller. */
  function Finish(s: State, id: nat, verdict: Verdict, deviceId: Option<int>, reason: Option<Reason>): State {
    match Find(s.pending, id)
    case None => s
    case Some(e) => Resolve(s.(pending := Drop(s.pending, id)), e.caller, Outcome(verdict, Some(id), deviceId, reason))
  }

  // ---- One function per method segment ----

  datatype Build = Built(nonce: int, salt: Option<int>, expiresAt: int) | NoRecipient | Refused | Crashed

  /** What requestAction finds before its first await. */
  datatype Start = Start(sealRefusal: bool, unavailable: bool, build: Build)

  /** How requestAction ends before its first await, None when it goes on to audit a request. */
  function AtOnce(stopped: bool, start: Start, crashed: Outcome): Option<Outcome> {
    if !stopped && start.sealRefusal then Some(Outcome(Deny, None, None, Some(NoSealedRecipient)))
    else if stopped || start.unavailable then Some(Outcome(Unavailable, None, None, Some(NotDeliverable)))
    else match start.build
      case NoRecipient => Some(Outcome(Deny, None, None, Some(NoSealedRecipient)))
      case Refused => Some(Outcome(Error, None, None, Some(NotBuilt)))
      case Crashed => Some(crashed)
      case Built(_, _, _) => None
  }

  function Draft(id: nat, caller: nat, signal: Option<nat>, action: Action, build: Build): Entry
    requires build.Built?
  {
    Entry(Request(id, build.nonce, Hash(action, build.salt), build.expiresAt), caller, signal, false)
  }

  function Begin(s: State, caller: nat, signal: Option<nat>, action: Action, start: Start, crashed: Outcome): State {
    match AtOnce(s.stopped, start, crashed)
    case Some(outcome) => Resolve(s, caller, outcome)
    case None =>
      s.(drafts := s.drafts + [Draft(s.nextId, caller, signal, action, start.build)], nextId := s.nextId + 1)
  }

  function Call(s: State, action: Action, signal: Option<nat>, start: Start): State {
    Begin(s.(callers := s.callers + 1), s.callers, signal, action, start, Outcome(Threw, None, None, None))
  }

  function Submit(s: State, request: Request, linkUp: bool): State {
    if linkUp then s.(sent := s.sent + [request]) else s
  }

  /** How requestAction ends when its request's audit returns, None when the request may now wait for a phone. */
  function AfterAudit(e: Entry, ok: bool, stopped: bool, aborted: set<nat>): Option<Outcome> {
    if !ok then Some(Outcome(Error, Some(e.request.id), None, Some(AuditUnavailable)))
    else if stopped then Some(Outcome(Unavailable, Some(e.request.id), None, Some(ServiceStopping)))
    else if e.signal.Some? && e.signal.value in aborted then Some(Outcome(Withdrawn, Some(e.request.id), None, None))
    else None
  }

  function RequestAudited(s: State, id: nat, ok: bool, linkUp: bool): State {
    match Find(s.drafts, id)
    case None => s
    case Some(e) =>
      var t := s.(drafts := Drop(s.drafts, id));
      match AfterAudit(e, ok, s.stopped, s.aborted)
      case Some(outcome) => Resolve(t, e.caller, outcome)
      case None => Submit(t.(pending := t.pending + [e]), e.request, linkUp)
  }

  function TimerFired(s: State, id: nat): State {
    Finish(s, id, Expired, None, None)
  }

  /** The abort listeners of every pending request on this signal, in order. */
  function AbortAll(s: State, es: seq<Entry>, signal: nat): State
    decreases es
  {
    if es == [] then s
    else AbortAll(if es[0].signal == Some(signal) then Finish(s, es[0].request.id, Withdrawn, None, None)
        else s, es[1..], signal)
  }

  function Abort(s: State, signal: nat): State {
    AbortAll(s.(aborted := s.aborted + {signal}), s.pending, signal)
  }

  /** The relay's own validator turned a sealed request down: a reconnect will not help. */
  function SubmitRefused(s: State, id: nat): State {
    match Find(s.pending, id)
    case Some(e) => if e.request.hash.salt.Some? then Finish(s, id, Unavailable, None, Some(RelayTooOld)) else s
    case None => s
  }

  /** What _resubmitAll finds when it comes to one entry. */
  datatype Look = Look(now: int, sealing: bool, linkUp: bool, live: Option<Action>, start: Start)

  function Rebuild(s: State, e: Entry, look: Look): State {
    if e.deciding then s
    else match look.live
      case None => Finish(s, e.request.id, Deny, None, Some(ActionChanged))
      case Some(action) =>
        Begin(s.(pending := Drop(s.pending, e.request.id)), e.caller, e.signal, action, look.start,
              Outcome(Error, None, None, Some(SealFailed)))
  }

  function ResubmitOne(s: State, e: Entry, look: Look): State {
    if look.now > e.request.expiresAt then s
    else if e.request.hash.salt == None && look.sealing then Rebuild(s, e, look)
    else Submit(s, e.request, look.linkUp)
  }

  function ResubmitAll(s: State, es: seq<Entry>, look: nat -> Look): State
    decreases es
  {
    if es == [] then s else ResubmitAll(ResubmitOne(s, es[0], look(es[0].request.id)), es[1..], look)
  }

  function Connected(s: State, look: nat -> Look): State {
    ResubmitAll(s, s.pending, look)
  }

  function Remember(s: State, e: Envelope, now: int): State {
    s.(nonces := NonceCaches.Window(NonceCaches.Without(s.nonces, e.message.nonce)
                                    + [NonceCaches.Seen(e.message.nonce, e.digest, now)], now - s.ttlMs, s.max))
  }

  /** Steps 8 to 11 on an envelope that passed 1 to 7, against a cache that has just been pruned. */
  function Bound(s: State, m: Response, now: int): Option<Entry> {
    if NonceCaches.Lookup(s.nonces, m.nonce).Some? then None
    else match Find(s.pending, m.requestId)
      case None => None
      case Some(e) =>
        if e.deciding || m.nonce != e.request.nonce || m.hash != e.request.hash || m.expiresAt != e.request.expiresAt
           || now > e.request.expiresAt
        then None
        else Some(e)
  }

  predicate StillTheAction(live: Option<Action>, hash: Hash) {
    live.Some? && Hash(live.value, hash.salt) == hash
  }

  /** handleResponse up to its await. `live` is what currentAction() returns, None when it throws. */
  function Responded(s: State, e: Envelope, approvers: Approvers, now: int, live: Option<Action>): State {
    if s.stopped || CheckEnvelope(e, approvers, s.nodeId).Some? then s
    else
      var t := s.(nonces := NonceCaches.Window(s.nonces, now - s.ttlMs, s.max));
      match Bound(t, e.message, now)
      case None => t
      case Some(entry) =>
        if !StillTheAction(live, entry.request.hash)
        then Finish(Remember(t, e, now), entry.request.id, Deny, Some(e.kid), Some(ActionChanged))
        else t.(pending := Mark(t.pending, entry.request.id, true), decisions := t.decisions[entry.request.id := e])
  }

  /** The action and the deadline are checked again once the response is audited. */
  function Commit(request: Request, approve: bool, live: Option<Action>, now: int): Verdict {
    if !StillTheAction(live, request.hash) then Deny
    else if now > request.expiresAt then Expired
    else if approve then Approve
    else Deny
  }

  /** handleResponse from its await on. */
  function ResponseAudited(s: State, id: nat, ok: bool, live: Option<Action>, now: int): State {
    if id !in s.decisions then s
    else
      var e := s.decisions[id];
      var t := s.(decisions := s.decisions - {id});
      if !ok then t.(pending := Mark(t.pending, id, false))
      else match Find(t.pending, id)
        case None => t
        case Some(entry) =>
          Finish(Remember(t, e, now), id, Commit(entry.request, e.message.approve, live, now), Some(e.kid),
                 if StillTheAction(live, entry.request.hash) then None else Some(ActionChanged))
  }

  function FinishAll(s: State, es: seq<Entry>): State
    decreases es
  {
    if es == [] then s
    else FinishAll(Finish(s, es[0].request.id, Unavailable, None, Some(ServiceStopping)), es[1..])
  }

  function Stop(s: State): State {
    FinishAll(s.(stopped := true), s.pending)
  }

  /** What requestApproval tells the tool that asked: only Runs lets it run. */
  datatype ToolAnswer = Runs | Denied | TimedOut | NotAsked | Raises

  function Answer(o: Outcome): ToolAnswer {
    match o.verdict
    case Approve => Runs
    case Deny => if o.reason == Some(NoSealedRecipient) then NotAsked else Denied
    case Withdrawn => Denied
    case Expired => TimedOut
    case Unavailable => NotAsked
    case Error => NotAsked
    case Threw => Raises
  }

  // ---- Runs ----

  datatype Event =
    | CallE(action: Action, signal: Option<nat>, start: Start)
    | RequestAuditedE(id: nat, ok: bool, linkUp: bool)
    | TimerE(id: nat)
    | AbortE(signalId: nat)
    | SubmitRefusedE(id: nat)
    | ConnectedE(look: nat -> Look)
    | RespondedE(envelope: Envelope, approvers: Approvers, now: int, live: Option<Action>)
    | ResponseAuditedE(id: nat, ok: bool, live: Option<Action>, now: int)
    | StopE

  function Step(s: State, ev: Event): State {
    match ev
    case CallE(action, signal, start) => Call(s, action, signal, start)
    case RequestAuditedE(id, ok, linkUp) => RequestAudited(s, id, ok, linkUp)
    case TimerE(id) => TimerFired(s, id)
    case AbortE(signal) => Abort(s, signal)
    case SubmitRefusedE(id) => SubmitRefused(s, id)
    case ConnectedE(look) => Connected(s, look)
    case RespondedE(e, approvers, now, live) => Responded(s, e, approvers, now, live)
    case ResponseAuditedE(id, ok, live, now) => ResponseAudited(s, id, ok, live, now)
    case StopE => Stop(s)
  }

  function After(s0: State, events: seq<Event>): State {
    if events == [] then s0 else Step(After(s0, events[..|events| - 1]), events[|events| - 1])
  }
}
