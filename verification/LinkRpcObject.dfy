/** The closure of createLinkRpc; each method is proved to take the step of LinkRpc.Step. */
module LinkRpcObjects {
  import opened Basics
  import opened LinkRpc

  lemma OneSettled(s: Link, event: Event, max: nat, id: nat, how: Settlement)
    requires !event.Call? && !event.Close? && Settles(s, event, max) == map[id := how]
    ensures Step(s, event, max) == Link(s.calls, s.pending - {id}, s.settled[id := how], s.closed)
  {
    AddsSettlement(s.settled, id, how);
  }

  /** The waiting calls that are gone through already end in one way; the others wait still. */
  function EndAll(s: Link, ids: set<nat>, how: Settlement): Link {
    Link(s.calls, s.pending - ids, s.settled + (map id | id in ids :: how), s.closed)
  }

  lemma EndFirst(s: Link, ids: set<nat>, how: Settlement, id: nat)
    requires id in ids
    ensures EndAll(s.(pending := s.pending - {id}, settled := s.settled[id := how]), ids - {id}, how)
        == EndAll(s, ids, how)
  {
    assert s.pending - {id} - (ids - {id}) == s.pending - ids;
  }

  lemma EndNone(s: Link, how: Settlement)
    ensures EndAll(s, {}, how) == s
  {
    var none: set<nat> := {};
    assert s.pending - none == s.pending;
    assert s.settled + (map id | id in none :: how) == s.settled;
  }

  lemma DisconnectEnds(s: Link, peer: int, max: nat)
    requires !s.closed
    ensures Step(s, Disconnect(peer), max) == EndAll(s, InFlight(s.pending, peer), Disconnected)
  {
    assert Settles(s, Disconnect(peer), max) == map id | id in InFlight(s.pending, peer) :: Disconnected;
  }

  lemma CloseEnds(s: Link, max: nat)
    ensures Step(s, Event.Close, max) == EndAll(s, s.pending.Keys, Closed).(closed := true)
  {
    assert Settles(s, Event.Close, max) == map id | id in s.pending.Keys :: Closed;
  }

  /** settled and calls stand for the promises handed out. */
  class LinkRpcObject {
    const maxPendingPerPeer: nat
    var pending: map<nat, int>
    var closed: bool
    ghost var calls: map<nat, int>
    ghost var settled: map<nat, Settlement>

    ghost function Model(): Link
      reads this
    {
      Link(calls, pending, settled, closed)
    }

    constructor (maxPendingPerPeer: nat)
      ensures Model() == NEW && this.maxPendingPerPeer == maxPendingPerPeer
    {
      this.maxPendingPerPeer := maxPendingPerPeer;
      pending, closed, calls, settled := map[], false, map[], map[];
    }

    method CountInFlight(peer: int) returns (inFlight: nat)
      ensures inFlight == |InFlight(pending, peer)|
    {
      inFlight := 0;
      var left := pending;
      ghost var all := |InFlight(pending, peer)|;
      while left != map[]
        invariant inFlight + |InFlight(left, peer)| == all
        decreases |left|
      {
        var id :| id in left;
        var called := left[id];
        CountsOne(left, peer, id);
        left := left - {id};
        if called == peer {
          inFlight := inFlight + 1;
        }
      }
      assert InFlight(left, peer) == {};
    }

    /** Why no message is sent at all. */
    method RefusedAtOnce(peer: int) returns (how: Option<Settlement>)
      ensures how == if closed then Some(Closed)
          else if |InFlight(pending, peer)| >= maxPendingPerPeer then Some(PeerBusy) else None
    {
      if closed {
        return Some(Closed);
      }
      var inFlight := CountInFlight(peer);
      how := if inFlight >= maxPendingPerPeer then Some(PeerBusy) else None;
    }

    /** The call waits before its message is sent, and no longer if the transport does not take it. */
    method Send(id: nat, peer: int, delivered: bool)
      requires id !in pending
      modifies this`pending, this`settled
      ensures pending == (if delivered then old(pending)[id := peer] else old(pending))
      ensures settled == (if delivered then old(settled) else old(settled)[id := Offline])
    {
      AddsAndTakes(pending, id, peer);
      pending := pending[id := peer];
      if !delivered {
        pending := pending - {id};
        settled := settled[id := Offline];
      }
    }

    /** id: the random id, which no call has had. delivered: whether the transport took the message. */
    method Call(id: nat, peer: int, delivered: bool)
      requires id == NextId(Model()) && id !in pending
      modifies this
      ensures Model() == Step(old(Model()), Event.Call(peer, delivered), maxPendingPerPeer)
    {
      CallStep(Model(), peer, delivered, maxPendingPerPeer);
      calls := calls[id := peer];
      var how := RefusedAtOnce(peer);
      if how.Some? {
        settled := settled[id := how.value];
      } else {
        Send(id, peer, delivered);
      }
    }

    /** A message with a good id and no method is an answer, matched by id and by peer. */
    method OnMessage(from: int, p: Payload)
      modifies this
      ensures Model() == Step(old(Model()), Message(from, p), maxPendingPerPeer)
    {
      if closed || !p.rpc || !p.id.Good? || !p.verb.Absent? || p.id.value !in pending || pending[p.id.value] != from {
        NothingSettled(Model(), Message(from, p), maxPendingPerPeer);
        return;
      }
      var how := if p.error.Some? then Failed(p.error.value) else Answered(p.result);
      OneSettled(Model(), Message(from, p), maxPendingPerPeer, p.id.value, how);
      pending := pending - {p.id.value};
      settled := settled[p.id.value := how];
    }

    /** A call's timer; one that was cleared finds nothing to do. */
    method OnTimeout(id: nat)
      modifies this
      ensures Model() == Step(old(Model()), Timeout(id), maxPendingPerPeer)
    {
      if id !in pending {
        NothingSettled(Model(), Timeout(id), maxPendingPerPeer);
        return;
      }
      OneSettled(Model(), Timeout(id), maxPendingPerPeer, id, TimedOut);
      pending := pending - {id};
      settled := settled[id := TimedOut];
    }

    /** One waiting call that the loop comes to. */
    method EndIf(id: nat, matches: bool, how: Settlement, ghost ids: set<nat>) returns (ghost rest: set<nat>)
      requires id in pending && (id in ids <==> matches)
      modifies this`pending, this`settled
      ensures rest == ids - {id} && EndAll(Model(), rest, how) == EndAll(old(Model()), ids, how)
      ensures pending == (if matches then old(pending) - {id} else old(pending))
    {
      rest := ids - {id};
      if matches {
        EndFirst(Model(), ids, how, id);
        pending := pending - {id};
        settled := settled[id := how];
      } else {
        assert rest == ids;
      }
    }

    /** Rejects the waiting calls to this peer, or to every peer, deleting while it goes through the map. */
    method EndCalls(peer: Option<int>, how: Settlement, ghost ids: set<nat>)
      requires ids == (if peer.Some? then InFlight(pending, peer.value) else pending.Keys)
      modifies this`pending, this`settled
      ensures pending == EndAll(old(Model()), ids, how).pending && settled == EndAll(old(Model()), ids, how).settled
    {
      ghost var goal := EndAll(Model(), ids, how);
      ghost var todo := ids;
      var left := pending.Keys;
      while left != {}
        invariant todo <= left <= pending.Keys
        invariant forall id | id in left :: id in todo <==> peer.None? || pending[id] == peer.value
        invariant EndAll(Model(), todo, how) == goal
        decreases left
      {
        var id :| id in left;
        left := left - {id};
        todo := EndIf(id, peer.None? || pending[id] == peer.value, how, todo);
      }
      EndNone(Model(), how);
    }

    method OnDisconnect(peer: int)
      modifies this
      ensures Model() == Step(old(Model()), Disconnect(peer), maxPendingPerPeer)
    {
      if closed {
        NothingSettled(Model(), Disconnect(peer), maxPendingPerPeer);
        return;
      }
      DisconnectEnds(Model(), peer, maxPendingPerPeer);
      EndCalls(Some(peer), Disconnected, InFlight(pending, peer));
    }

    method Close()
      modifies this
      ensures Model() == Step(old(Model()), Event.Close, maxPendingPerPeer)
    {
      CloseEnds(Model(), maxPendingPerPeer);
      closed := true;
      EndCalls(None, Closed, pending.Keys);
    }
  }

  lemma Shorter(m: map<nat, int>, id: nat)
    requires id in m
    ensures |m - {id}| < |m|
  {
    assert m.Keys == (m - {id}).Keys + {id};
  }

  lemma CountsOne(left: map<nat, int>, peer: int, id: nat)
    requires id in left
    ensures |InFlight(left, peer)| == |InFlight(left - {id}, peer)| + (if left[id] == peer then 1 else 0)
    ensures |left - {id}| < |left|
  {
    Shorter(left, id);
    if left[id] == peer {
      assert InFlight(left, peer) == InFlight(left - {id}, peer) + {id};
    } else {
      assert InFlight(left, peer) == InFlight(left - {id}, peer);
    }
  }
}
