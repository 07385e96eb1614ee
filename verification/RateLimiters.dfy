/** The objects behind RateLimits: the maps that _budgetAck edits and the closure of rejectedAuditLimiter. */
module RateLimiters {
  import opened RateLimits

  class AckBudget {
    var refusals: map<Key, int>
    var perChannel: map<string, seq<int>>

    ghost function Model(): Acks
      reads this
    {
      Acks(refusals, perChannel)
    }

    constructor ()
      ensures Model() == NO_ACKS
    {
      refusals, perChannel := map[], map[];
    }

    method DropExpired(now: int)
      modifies this`refusals
      ensures refusals == Unexpired(old(refusals), now)
    {
      var left := refusals.Keys;
      while left != {}
        invariant left <= old(refusals).Keys && left <= refusals.Keys
        invariant forall k :: k in refusals <==>
              k in old(refusals) && (k in left || now - old(refusals)[k] < ACK_REFUSAL_WINDOW)
        invariant forall k | k in refusals :: refusals[k] == old(refusals)[k]
        decreases left
      {
        var k :| k in left;
        left := left - {k};
        if now - refusals[k] >= ACK_REFUSAL_WINDOW {
          refusals := refusals - {k};
        }
      }
    }

    method FilterRecent(times: seq<int>, now: int) returns (sent: seq<int>)
      ensures sent == Recent(times, now)
    {
      sent := [];
      var i := 0;
      while i < |times|
        invariant 0 <= i <= |times|
        invariant Recent(times, now) == sent + Recent(times[i..], now)
      {
        assert times[i..][1..] == times[i + 1..];
        if now - times[i] < ACK_CHANNEL_WINDOW {
          sent := sent + [times[i]];
        }
        i := i + 1;
      }
    }

    /**
     * Whether the ack goes out. The phone app's and the desktop app's acks, and replies without one, never come here.
     */
    method BudgetAck(ack: Ack) returns (goes: bool)
      modifies this
      ensures (Model(), goes) == Send(old(Model()), ack)
    {
      var now, channel := ack.at, ack.who.channel;
      DropExpired(now);
      var sent := FilterRecent(if channel in perChannel then perChannel[channel] else [], now);
      perChannel := perChannel[channel := sent];
      if ack.refusal && ack.who in refusals {
        return false;
      }
      if |sent| >= ACK_CHANNEL_MAX {
        return false;
      }
      if ack.refusal {
        refusals := refusals[ack.who := now];
      }
      perChannel := perChannel[channel := sent + [now]];
      assert perChannel == old(perChannel)[channel := sent + [now]];
      goes := true;
    }
  }

  class RejectedAuditLimiter {
    var windowStart: int
    var count: nat
    var warnedThisWindow: bool

    ghost function Model(): Limiter
      reads this
    {
      Limiter(windowStart, count)
    }

    constructor ()
      ensures Model() == Limiter(0, 0) && !warnedThisWindow
    {
      windowStart, count, warnedThisWindow := 0, 0, false;
    }

    /** Warns once a window, at the first rejection over the cap. */
    method Admitted(now: int) returns (admitted: bool, warned: bool)
      modifies this
      ensures (Model(), admitted) == Admit(old(Model()), now)
      ensures warned <==> !admitted && !(old(warnedThisWindow) && now - old(windowStart) < REJECT_WINDOW)
      ensures warnedThisWindow <==> warned || (old(warnedThisWindow) && now - old(windowStart) < REJECT_WINDOW)
    {
      if now - windowStart >= REJECT_WINDOW {
        windowStart, count, warnedThisWindow := now, 0, false;
      }
      count := count + 1;
      warned := false;
      if count > REJECT_CAP {
        warned := !warnedThisWindow;
        warnedThisWindow := true;
        return false, warned;
      }
      admitted := true;
    }
  }
}
