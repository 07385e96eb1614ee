/**
 * Calls over a link (src/approvals/link-rpc.js): settled by an answer, a timeout, a failed send, a disconnect or a
 * close, whichever comes first.
 */
module LinkRpc {
  import opened Basics

  /** How a call ended. */
  datatype Settlement = Answered(result: int) | Failed(error: int) | TimedOut | Offline | Disconnected | Closed
    | PeerBusy

  /** A field of a payload: left out, malformed (too long, empty or no string) or good. */
  datatype Field<T> = Absent | Malformed | Good(value: T)

  /** id: the number of the call it names; an id that is no call's names no number. */
  datatype Payload = Payload(rpc: bool, id: Field<nat>, verb: Field<string>, error: Option<int>, result: int)

  /** pending: the calls not settled yet, with the peer called. calls: every call made so far, settled or not. */
  datatype Link = Link(calls: map<nat, int>, pending: map<nat, int>, settled: map<nat, Settlement>, closed: bool)

  datatype Event = Call(peer: int, delivered: bool) | Message(from: int, payload: Payload) | Timeout(id: nat)
    | Disconnect(peer: int) | Close

  const NEW := Link(map[], map[], map[], false)

  function InFlight(pending: map<nat, int>, peer: int): set<nat> {
    set id | id in pending && pending[id] == peer
  }

  /** An id no call has had. */
  function NextId(s: Link): nat {
    |s.calls|
  }

  predicate IsAnswer(s: Link, from: int, p: Payload) {
    !s.closed && p.rpc && p.id.Good? && p.verb.Absent? && p.id.value in s.pending && s.pending[p.id.value] == from
  }

  /** How a call ends at once, if it does. */
  function Refusal(s: Link, peer: int, delivered: bool, max: nat): Option<Settlement> {
    if s.closed then Some(Closed)
    else if |InFlight(s.pending, peer)| >= max then Some(PeerBusy)
    else if !delivered then Some(Offline)
    else None
  }

  /** The calls a step settles, and how. */
  function Settles(s: Link, event: Event, max: nat): map<nat, Settlement> {
    match event
    case Call(peer, delivered) =>
      (match Refusal(s, peer, delivered, max) case Some(how) => map[NextId(s) := how] case None => map[])
    case Message(from, p) =>
      if IsAnswer(s, from, p) then map[p.id.value := if p.error.Some? then Failed(p.error.value)
      else Answered(p.result)] else map[]
    case Timeout(id) => if id in s.pending then map[id := TimedOut] else map[]
    case Disconnect(peer) =>
      if s.closed then map[] else map id | id in s.pending && s.pending[id] == peer :: Disconnected
    case Close => map id | id in s.pending :: Closed
  }

  function Step(s: Link, event: Event, max: nat): Link {
    var settled := Settles(s, event, max);
    var calls := if event.Call? then s.calls[NextId(s) := event.peer] else s.calls;
    var waiting := if event.Call? then s.pending[NextId(s) := event.peer] else s.pending;
    Link(calls, waiting - settled.Keys, s.settled + settled, s.closed || event.Close?)
  }

  function Run(s: Link, events: seq<Event>, max: nat): Link
    decreases events
  {
    if events == [] then s else Run(Step(s, events[0], max), events[1..], max)
  }

  // ---- What holds after every step ----

  ghost predicate InOrder(calls: map<nat, int>) {
    forall id: nat :: id in calls <==> id < |calls|
  }

  /** Each call is either pending, with the peer called, or settled. */
  ghost predicate Parted(calls: map<nat, int>, pending: map<nat, int>, settled: map<nat, Settlement>) {
    && (forall id: nat :: id in calls <==> id in pending || id in settled)
    && (forall id: nat | id in pending :: id !in settled && pending[id] == calls[id])
  }

  ghost predicate Bounded(pending: map<nat, int>, max: nat) {
    forall peer {:trigger InFlight(pending, peer)} :: |InFlight(pending, peer)| <= max
  }

  ghost predicate Inv(s: Link, max: nat) {
    && InOrder(s.calls) && Parted(s.calls, s.pending, s.settled) && Bounded(s.pending, max)
    && (s.closed ==> s.pending == map[])
  }

  lemma OneMore(calls: map<nat, int>, n: nat, peer: int)
    requires n !in calls
    ensures |calls[n := peer]| == |calls| + 1
  {
    assert calls[n := peer].Keys == calls.Keys + {n};
  }

  lemma FreshNumber(calls: map<nat, int>, peer: int)
    requires InOrder(calls)
    ensures |calls| !in calls && InOrder(calls[|calls| := peer])
  {
    var n := |calls|;
    assert n !in calls;
    OneMore(calls, n, peer);
    var more := calls[n := peer];
    forall id: nat ensures id in more <==> id < |more| {
      assert id in more <==> id == n || id in calls;
    }
  }

  lemma FewerInFlight(a: map<nat, int>, b: map<nat, int>, peer: int)
    requires forall id | id in b :: id in a && a[id] == b[id]
    ensures |InFlight(b, peer)| <= |InFlight(a, peer)|
  {
    Smaller(InFlight(b, peer), InFlight(a, peer));
  }

  lemma Smaller(a: set<nat>, b: set<nat>)
    requires a <= b
    ensures |a| <= |b|
  {
    assert b == a + (b - a);
  }

  lemma CallInFlight(pending: map<nat, int>, id: nat, called: int, peer: int)
    requires id !in pending
    ensures |InFlight(pending[id := called], peer)| == |InFlight(pending, peer)| + (if peer == called then 1 else 0)
  {
    var more := pending[id := called];
    if peer == called {
      assert InFlight(more, peer) == InFlight(pending, peer) + {id};
    } else {
      assert InFlight(more, peer) == InFlight(pending, peer);
    }
  }

  lemma AddsAndTakes(pending: map<nat, int>, id: nat, peer: int)
    ensures pending[id := peer] - {} == pending[id := peer]
    ensures id !in pending ==> pending[id := peer] - {id} == pending
  {
  }

  lemma AddsSettlement(settled: map<nat, Settlement>, id: nat, how: Settlement)
    ensures settled + map[] == settled && settled + map[id := how] == settled[id := how]
    ensures map[id := how].Keys == {id}
  {
  }

  /** A call either waits or is settled at once. */
  lemma CallStep(s: Link, peer: int, delivered: bool, max: nat)
    requires NextId(s) !in s.pending
    ensures var id := NextId(s);
      Step(s, Call(peer, delivered), max) ==
        match Refusal(s, peer, delivered, max)
        case None => Link(s.calls[id := peer], s.pending[id := peer], s.settled, s.closed)
        case Some(how) => Link(s.calls[id := peer], s.pending, s.settled[id := how], s.closed)
  {
    var id := NextId(s);
    AddsAndTakes(s.pending, id, peer);
    if Refusal(s, peer, delivered, max).Some? {
      AddsSettlement(s.settled, id, Refusal(s, peer, delivered, max).value);
    } else {
      AddsSettlement(s.settled, id, Closed);
    }
  }

  lemma WaitingParts(calls: map<nat, int>, pending: map<nat, int>, settled: map<nat, Settlement>, id: nat, peer: int)
    requires Parted(calls, pending, settled) && id !in calls
    ensures Parted(calls[id := peer], pending[id := peer], settled)
  {
  }

  lemma EndedParts(calls: map<nat, int>, pending: map<nat, int>, settled: map<nat, Settlement>, id: nat, peer: int,
      how: Settlement)
    requires Parted(calls, pending, settled) && id !in calls
    ensures Parted(calls[id := peer], pending, settled[id := how])
  {
  }

  lemma CallKeepsInv(s: Link, event: Event, max: nat)
    requires Inv(s, max) && event.Call?
    ensures Inv(Step(s, event, max), max)
  {
    var id, next := NextId(s), Step(s, event, max);
    FreshNumber(s.calls, event.peer);
    CallStep(s, event.peer, event.delivered, max);
    match Refusal(s, event.peer, event.delivered, max) {
      case None =>
        WaitingParts(s.calls, s.pending, s.settled, id, event.peer);
        forall peer ensures |InFlight(next.pending, peer)| <= max {
          CallInFlight(s.pending, id, event.peer, peer);
        }
      case Some(how) =>
        EndedParts(s.calls, s.pending, s.settled, id, event.peer, how);
    }
  }

  lemma OtherKeepsInv(s: Link, event: Event, max: nat)
    requires Inv(s, max) && !event.Call?
    ensures Inv(Step(s, event, max), max)
  {
    var next := Step(s, event, max);
    forall peer ensures |InFlight(next.pending, peer)| <= max {
      FewerInFlight(s.pending, next.pending, peer);
    }
  }

  /** Every run keeps: the pending calls are exactly the unsettled ones, and no peer has more of them than allowed. */
  lemma {:induction false} RunKeepsInv(s: Link, events: seq<Event>, max: nat)
    requires Inv(s, max)
    ensures Inv(Run(s, events, max), max)
    decreases |events|
  {
    if events != [] {
      if events[0].Call? {
        CallKeepsInv(s, events[0], max);
      } else {
        OtherKeepsInv(s, events[0], max);
      }
      RunKeepsInv(Step(s, events[0], max), events[1..], max);
    }
  }

  // ---- At most once, and by whom ----

  /** How many steps of a run settle this call. */
  function TimesSettled(s: Link, events: seq<Event>, max: nat, id: nat): nat
    decreases events
  {
    if events == [] then 0
    else (if id in Settles(s, events[0], max) then 1
        else 0) + TimesSettled(Step(s, events[0], max), events[1..], max, id)
  }

  lemma SettledCallsWait(s: Link, event: Event, max: nat, id: nat)
    requires Inv(s, max) && id in Settles(s, event, max)
    ensures id !in s.settled && id in Step(s, event, max).settled
  {
    if event.Call? {
      FreshNumber(s.calls, event.peer);
      CallStep(s, event.peer, event.delivered, max);
    }
  }

  /** No call is settled twice, and one that is settled stays as it was settled. */
  lemma {:induction false} SettledAtMostOnce(s: Link, events: seq<Event>, max: nat, id: nat)
    requires Inv(s, max)
    ensures TimesSettled(s, events, max, id) <= (if id in s.settled then 0 else 1)
    ensures id in s.settled ==> id in Run(s, events, max).settled && Run(s, events, max).settled[id] == s.settled[id]
    ensures TimesSettled(s, events, max, id) == 1 ==> id in Run(s, events, max).settled
    decreases |events|
  {
    if events != [] {
      if events[0].Call? {
        CallKeepsInv(s, events[0], max);
      } else {
        OtherKeepsInv(s, events[0], max);
      }
      if id in Settles(s, events[0], max) {
        SettledCallsWait(s, events[0], max, id);
      }
      SettledAtMostOnce(Step(s, events[0], max), events[1..], max, id);
    }
  }

  /** Only the called peer's own answer with the call's id settles it with a result or an error of the peer's. */
  lemma OnlyThePeerAnswers(s: Link, event: Event, max: nat, id: nat)
    requires Inv(s, max) && id in Settles(s, event, max)
    requires Settles(s, event, max)[id].Answered? || Settles(s, event, max)[id].Failed?
    ensures event.Message? && event.from == s.calls[id] && event.payload.id == Good(id) && event.payload.verb.Absent?
    ensures !s.closed && event.payload.rpc
  {
  }

  /** A disconnect leaves no call to the peer pending, and touches no other peer's. */
  lemma {:induction false} DisconnectClears(s: Link, peer: int, max: nat)
    requires Inv(s, max)
    ensures InFlight(Step(s, Disconnect(peer), max).pending, peer) == {}
    ensures forall id | id in s.pending && s.pending[id] != peer :: id in Step(s, Disconnect(peer), max).pending
  {
  }

  /** Settled as closed, unless it was made before. */
  predicate EndedByClose(s: Link, next: Link) {
    forall id | id in next.calls && id !in s.calls :: id in next.settled && next.settled[id] == Closed
  }

  lemma ClosedStep(s: Link, event: Event, max: nat)
    requires Inv(s, max) && s.closed
    ensures var next := Step(s, event, max); Inv(next, max) && next.closed && EndedByClose(s, next)
  {
    if event.Call? {
      CallKeepsInv(s, event, max);
      FreshNumber(s.calls, event.peer);
      CallStep(s, event.peer, event.delivered, max);
    } else {
      OtherKeepsInv(s, event, max);
    }
  }

  /** After a close nothing is pending, ever, and every call made later ends as closed. */
  lemma {:induction false} ClosedForGood(s: Link, events: seq<Event>, max: nat)
    requires Inv(s, max) && s.closed
    ensures Run(s, events, max).pending == map[] && EndedByClose(s, Run(s, events, max))
    decreases |events|
  {
    if events != [] {
      var next := Step(s, events[0], max);
      var end := Run(next, events[1..], max);
      ClosedStep(s, events[0], max);
      ClosedForGood(next, events[1..], max);
      forall id | id in end.calls && id !in s.calls ensures id in end.settled && end.settled[id] == Closed {
        SettledAtMostOnce(next, events[1..], max, id);
      }
    }
  }

  // ---- What each step does ----

  /** A call in a closed link ends as closed, one too many as busy, one that cannot be sent as offline; others wait. */
  lemma CallSays(s: Link, peer: int, delivered: bool, max: nat)
    requires Inv(s, max)
    ensures var id, next := |s.calls|, Step(s, Call(peer, delivered), max);
            var busy := |InFlight(s.pending, peer)| >= max;
            && next.calls == s.calls[id := peer] && next.closed == s.closed && id !in s.calls
            && (s.closed ==> next.settled == s.settled[id := Closed])
            && (!s.closed && busy ==> next.settled == s.settled[id := PeerBusy])
            && (!s.closed && !busy && !delivered ==> next.settled == s.settled[id := Offline])
            && (!s.closed && !busy && delivered ==>
                  next.pending == s.pending[id := peer] && next.settled == s.settled)
            && (s.closed || busy || !delivered ==> next.pending == s.pending)
  {
    FreshNumber(s.calls, peer);
    CallStep(s, peer, delivered, max);
  }

  /** An answer of the called peer, in an open link, to a call that waits. */
  predicate Answers(s: Link, from: int, p: Payload, id: nat) {
    !s.closed && p.rpc && p.id == Good(id) && p.verb == Absent && id in s.pending && s.pending[id] == from
  }

  /** An answer settles its call with the peer's result, or its error if it names one; nothing else changes. */
  lemma AnswerSays(s: Link, from: int, p: Payload, id: nat, max: nat)
    requires Inv(s, max) && Answers(s, from, p, id)
    ensures var how := if p.error.Some? then Failed(p.error.value) else Answered(p.result);
            Step(s, Message(from, p), max) == s.(pending := s.pending - {id}, settled := s.settled[id := how])
  {
    AddsSettlement(s.settled, id, Settles(s, Message(from, p), max)[id]);
  }

  /** Any other message settles nothing. */
  lemma OtherMessageSays(s: Link, from: int, p: Payload, max: nat)
    requires forall id :: !Answers(s, from, p, id)
    ensures Step(s, Message(from, p), max) == s
  {
    assert p.id.Good? ==> !Answers(s, from, p, p.id.value);
    NothingSettled(s, Message(from, p), max);
  }

  lemma NothingSettled(s: Link, event: Event, max: nat)
    requires !event.Call? && !event.Close? && Settles(s, event, max) == map[]
    ensures Step(s, event, max) == s
  {
    assert s.pending - {} == s.pending && s.settled + map[] == s.settled;
  }

  /** A timer ends its call if it waits still. */
  lemma TimeoutSays(s: Link, id: nat, max: nat)
    ensures Step(s, Timeout(id), max) == if id in s.pending
              then s.(pending := s.pending - {id}, settled := s.settled[id := TimedOut])
              else s
  {
    if id in s.pending {
      AddsSettlement(s.settled, id, TimedOut);
    } else {
      NothingSettled(s, Timeout(id), max);
    }
  }

  /** A disconnect of an open link, or a close, ends exactly the calls that wait (for the peer), as just that. */
  lemma EndingSays(s: Link, event: Event, max: nat, id: nat)
    requires Inv(s, max) && (event.Disconnect? || event.Close?)
    ensures var next := Step(s, event, max);
            var ends := id in s.pending && (event.Close? || (!s.closed && s.pending[id] == event.peer));
            && next.calls == s.calls && next.closed == (s.closed || event.Close?)
            && (ends ==> id !in next.pending && id in next.settled
                         && next.settled[id] == if event.Close? then Closed else Disconnected)
            && (!ends ==> (id in next.pending <==> id in s.pending) && (id in next.settled <==> id in s.settled))
            && (!ends && id in s.pending ==> next.pending[id] == s.pending[id])
            && (!ends && id in s.settled ==> next.settled[id] == s.settled[id])
  {
  }

  /** Each event of a run meets what those before it left. */
  lemma {:induction false} RunGoesOn(s: Link, events: seq<Event>, event: Event, max: nat)
    ensures Run(s, events + [event], max) == Step(Run(s, events, max), event, max)
    decreases |events|
  {
    if events == [] {
      assert [event][1..] == [] && events + [event] == [event];
    } else {
      assert (events + [event])[1..] == events[1..] + [event];
      RunGoesOn(Step(s, events[0], max), events[1..], event, max);
    }
  }
}
