/**
 * The budget of acks in src/cases/contact.js and the limiter of audited rejections in
 * src/approvals/service-wiring.js. Instants are milliseconds.
 */
module RateLimits {

  const ACK_REFUSAL_WINDOW := 600000
  const ACK_CHANNEL_WINDOW := 3600000
  const ACK_CHANNEL_MAX := 20
  const REJECT_WINDOW := 60000
  const REJECT_CAP := 20

  // ---- Acks ----

  datatype Key = Key(channel: string, sender: string)

  /** An ack to send: a refusal when the reply was not taken. */
  datatype Ack = Ack(who: Key, refusal: bool, at: int)

  datatype Acks = Acks(refusals: map<Key, int>, perChannel: map<string, seq<int>>)

  function Unexpired(refusals: map<Key, int>, now: int): map<Key, int> {
    map k | k in refusals && now - refusals[k] < ACK_REFUSAL_WINDOW :: refusals[k]
  }

  function Recent(times: seq<int>, now: int): seq<int> {
    if times == [] then []
    else (if now - times[0] < ACK_CHANNEL_WINDOW then [times[0]] else []) + Recent(times[1..], now)
  }

  function SentOn(s: Acks, channel: string): seq<int> {
    if channel in s.perChannel then s.perChannel[channel] else []
  }

  /** Whether the ack leaves, and what is remembered of it. */
  function Send(s: Acks, ack: Ack): (Acks, bool) {
    var now, channel := ack.at, ack.who.channel;
    var refusals := Unexpired(s.refusals, now);
    var sent := Recent(SentOn(s, channel), now);
    if (ack.refusal
        && ack.who in refusals) || |sent| >= ACK_CHANNEL_MAX then (Acks(refusals, s.perChannel[channel := sent]), false)
    else (Acks(if ack.refusal then refusals[ack.who := now] else refusals, s.perChannel[channel := sent + [now]]), true)
  }

  const NO_ACKS := Acks(map[], map[])

  /** The state, and the acks that left, after the first n of these were to be sent. */
  function SendAll(acks: seq<Ack>, n: nat): (Acks, seq<Ack>)
    requires n <= |acks|
  {
    if n == 0 then (NO_ACKS, [])
    else
      var (s, left) := SendAll(acks, n - 1);
      var (next, sent) := Send(s, acks[n - 1]);
      (next, if sent then left + [acks[n - 1]] else left)
  }

  predicate Monotone(acks: seq<Ack>) {
    forall i, j | 0 <= i <= j < |acks| :: acks[i].at <= acks[j].at
  }

  // ---- Per channel ----

  /** When acks left on a channel. */
  function Times(left: seq<Ack>, channel: string): seq<int> {
    if left == [] then []
    else
      var last := left[|left| - 1];
      Times(left[..|left| - 1], channel) + (if last.who.channel == channel then [last.at] else [])
  }

  predicate Rising(times: seq<int>) {
    forall i, j | 0 <= i <= j < |times| :: times[i] <= times[j]
  }

  /** Twenty further on is an hour later. */
  predicate Spaced(times: seq<int>, n: nat, window: int) {
    forall i, j | 0 <= i && i + n <= j < |times| :: times[j] - times[i] >= window
  }

  /** The remembered times are the last ones; those forgotten are an hour old. */
  predicate Remembers(times: seq<int>, kept: seq<int>, now: int) {
    && |kept| <= |times| && kept == times[|times| - |kept|..]
    && (forall i | 0 <= i < |times| - |kept| :: now - times[i] >= ACK_CHANNEL_WINDOW)
  }

  lemma {:induction false} AllRecent(times: seq<int>, now: int)
    requires forall x | x in times :: now - x < ACK_CHANNEL_WINDOW
    ensures Recent(times, now) == times
    decreases |times|
  {
    if times != [] {
      assert times[0] in times && (forall x | x in times[1..] :: x in times);
      AllRecent(times[1..], now);
    }
  }

  lemma {:induction false} RecentAreRecent(times: seq<int>, now: int)
    ensures forall x | x in Recent(times, now) :: now - x < ACK_CHANNEL_WINDOW
    decreases |times|
  {
    if times != [] {
      RecentAreRecent(times[1..], now);
    }
  }

  lemma RestRises(times: seq<int>, k: nat)
    requires Rising(times) && k <= |times|
    ensures Rising(times[k..])
  {
    var rest := times[k..];
    assert forall i | 0 <= i < |rest| :: rest[i] == times[k + i];
  }

  lemma OneOlder(t: int, rest: seq<int>, kept: seq<int>, now: int)
    requires Remembers(rest, kept, now) && now - t >= ACK_CHANNEL_WINDOW
    ensures Remembers([t] + rest, kept, now)
  {
    var times := [t] + rest;
    assert times[|times| - |kept|..] == rest[|rest| - |kept|..];
  }

  lemma {:induction false} RecentIsATail(times: seq<int>, now: int)
    requires Rising(times)
    ensures Remembers(times, Recent(times, now), now)
    decreases |times|
  {
    if times != [] {
      if now - times[0] < ACK_CHANNEL_WINDOW {
        AllRecent(times, now);
      } else {
        RestRises(times, 1);
        RecentIsATail(times[1..], now);
        OneOlder(times[0], times[1..], Recent(times[1..], now), now);
        assert times == [times[0]] + times[1..];
      }
    }
  }

  /** What was remembered earlier, less what has expired since. */
  lemma RemembersLater(times: seq<int>, kept: seq<int>, was: int, now: int)
    requires Remembers(times, kept, was) && Rising(times) && was <= now
    ensures Remembers(times, Recent(kept, now), now)
  {
    var k := |times| - |kept|;
    RestRises(times, k);
    RecentIsATail(kept, now);
    var again := Recent(kept, now);
    assert kept[|kept| - |again|..] == times[|times| - |again|..];
    forall i | 0 <= i < |times| - |again| ensures now - times[i] >= ACK_CHANNEL_WINDOW {
      if i >= k {
        assert times[i] == kept[i - k];
      }
    }
  }

  lemma SpacedGrows(times: seq<int>, kept: seq<int>, now: int, max: nat)
    requires Rising(times) && Spaced(times, max, ACK_CHANNEL_WINDOW) && Remembers(times, kept, now) && |kept| < max
    requires forall i | 0 <= i < |times| :: times[i] <= now
    ensures Rising(times + [now]) && Spaced(times + [now], max, ACK_CHANNEL_WINDOW)
    ensures Remembers(times + [now], kept + [now], now)
  {
    var more := times + [now];
    assert more[|more| - (|kept| + 1)..] == kept + [now];
  }

  /** What holds for one channel after a run. */
  predicate ChannelInv(s: Acks, left: seq<Ack>, channel: string, now: int) {
    var times := Times(left, channel);
    && Rising(times) && (forall i | 0 <= i < |times| :: times[i] <= now)
    && Spaced(times, ACK_CHANNEL_MAX, ACK_CHANNEL_WINDOW) && Remembers(times, SentOn(s, channel), now)
  }

  lemma TimesGrow(left: seq<Ack>, ack: Ack, channel: string)
    ensures Times(left + [ack], channel) == Times(left, channel) + (if ack.who.channel == channel then [ack.at] else [])
  {
    assert (left + [ack])[..|left|] == left;
  }

  lemma OtherChannelIsKept(s: Acks, channel: string, ack: Ack)
    requires ack.who.channel != channel
    ensures SentOn(Send(s, ack).0, channel) == SentOn(s, channel)
  {
  }

  /** An ack on another channel changes nothing for this one. */
  lemma OtherChannel(s: Acks, left: seq<Ack>, after: seq<Ack>, channel: string, now: int, ack: Ack)
    requires ChannelInv(s, left, channel, now) && now <= ack.at && ack.who.channel != channel
    requires Times(after, channel) == Times(left, channel)
    ensures ChannelInv(Send(s, ack).0, after, channel, ack.at)
  {
    OtherChannelIsKept(s, channel, ack);
    StillRemembers(Times(left, channel), SentOn(s, channel), now, ack.at);
  }

  lemma StillRemembers(times: seq<int>, kept: seq<int>, was: int, now: int)
    requires Remembers(times, kept, was) && was <= now
    ensures Remembers(times, kept, now)
  {
  }

  lemma OwnChannel(s: Acks, left: seq<Ack>, channel: string, now: int, ack: Ack)
    requires ChannelInv(s, left, channel, now) && now <= ack.at && ack.who.channel == channel
    ensures ChannelInv(Send(s, ack).0, if Send(s, ack).1 then left + [ack] else left, channel, ack.at)
  {
    var times := Times(left, channel);
    RemembersLater(times, SentOn(s, channel), now, ack.at);
    TimesGrow(left, ack, channel);
    var kept := Recent(SentOn(s, channel), ack.at);
    if Send(s, ack).1 {
      SpacedGrows(times, kept, ack.at, ACK_CHANNEL_MAX);
    }
  }

  lemma {:induction false} ChannelRun(acks: seq<Ack>, n: nat, channel: string, now: int)
    requires n <= |acks| && Monotone(acks) && (n > 0 ==> acks[n - 1].at <= now)
    ensures ChannelInv(SendAll(acks, n).0, SendAll(acks, n).1, channel, now)
    decreases n
  {
    if n > 0 {
      var last := acks[n - 1];
      ChannelRun(acks, n - 1, channel, last.at);
      var (s, left) := SendAll(acks, n - 1);
      if last.who.channel == channel {
        OwnChannel(s, left, channel, last.at, last);
      } else {
        TimesGrow(left, last, channel);
        assert Times(left, channel) + [] == Times(left, channel);
        OtherChannel(s, left, SendAll(acks, n).1, channel, last.at, last);
      }
      Later(SendAll(acks, n).0, SendAll(acks, n).1, channel, last.at, now);
    }
  }

  /** Time passes. */
  lemma Later(s: Acks, left: seq<Ack>, channel: string, was: int, now: int)
    requires ChannelInv(s, left, channel, was) && was <= now
    ensures ChannelInv(s, left, channel, now)
  {
  }

  /** No more than n of the instants lie within any span of this length. */
  predicate AtMost(times: seq<int>, n: nat, span: int) {
    forall i, j {:trigger times[i], times[j]} | 0 <= i <= j < |times| && times[j] - times[i] < span :: j - i < n
  }

  /** Of the acks that left on a channel, no more than twenty lie within any hour. */
  lemma TwentyAnHour(acks: seq<Ack>, channel: string)
    requires Monotone(acks)
    ensures AtMost(Times(SendAll(acks, |acks|).1, channel), ACK_CHANNEL_MAX, ACK_CHANNEL_WINDOW)
  {
    ChannelRun(acks, |acks|, channel, if acks == [] then 0 else acks[|acks| - 1].at);
  }

  /** An ack that is no refusal is only held back when twenty have left within the hour. */
  lemma HeldBackOnlyAtTheCap(acks: seq<Ack>, n: nat)
    requires n < |acks| && Monotone(acks) && !acks[n].refusal && !Send(SendAll(acks, n).0, acks[n]).1
    ensures var times := Times(SendAll(acks, n).1, acks[n].who.channel);
      |times| >= ACK_CHANNEL_MAX && acks[n].at - times[|times| - ACK_CHANNEL_MAX] < ACK_CHANNEL_WINDOW
  {
    var ack := acks[n];
    ChannelRun(acks, n, ack.who.channel, ack.at);
    var times, kept := Times(SendAll(acks, n).1, ack.who.channel), SentOn(SendAll(acks, n).0, ack.who.channel);
    RemembersLater(times, kept, ack.at, ack.at);
    RecentAreRecent(kept, ack.at);
    var recent := Recent(kept, ack.at);
    assert times[|times| - ACK_CHANNEL_MAX] == recent[|recent| - ACK_CHANNEL_MAX]
        && recent[|recent| - ACK_CHANNEL_MAX] in recent;
  }

  // ---- Per channel and sender ----

  /** When refusals left for a channel and sender. */
  function RefusalTimes(left: seq<Ack>, key: Key): seq<int> {
    if left == [] then []
    else
      var last := left[|left| - 1];
      RefusalTimes(left[..|left| - 1], key) + (if last.refusal && last.who == key then [last.at] else [])
  }

  /** Successive refusals are ten minutes apart, and the last one is remembered until then. */
  predicate KeyInv(s: Acks, left: seq<Ack>, key: Key, now: int) {
    var times := RefusalTimes(left, key);
    && (forall i | 0 <= i < |times| :: times[i] <= now)
    && Spaced(times, 1, ACK_REFUSAL_WINDOW)
    && (times != [] && now - times[|times| - 1] < ACK_REFUSAL_WINDOW ==>
          key in s.refusals && s.refusals[key] == times[|times| - 1])
  }

  lemma RefusalTimesGrow(left: seq<Ack>, ack: Ack, key: Key)
    ensures RefusalTimes(left + [ack], key) == RefusalTimes(left, key) + (if ack.refusal && ack.who == key then [ack.at]
        else [])
  {
    assert (left + [ack])[..|left|] == left;
  }

  lemma NextRefusal(times: seq<int>, now: int)
    requires Spaced(times, 1, ACK_REFUSAL_WINDOW) && (times != [] ==> now - times[|times| - 1] >= ACK_REFUSAL_WINDOW)
    ensures Spaced(times + [now], 1, ACK_REFUSAL_WINDOW)
  {
    var more := times + [now];
    forall i, j | 0 <= i && i + 1 <= j < |more| ensures more[j] - more[i] >= ACK_REFUSAL_WINDOW {
      if j == |times| && i < |times| - 1 {
        assert times[|times| - 1] - times[i] >= ACK_REFUSAL_WINDOW;
      }
    }
  }

  lemma StillRemembered(s: Acks, key: Key, t: int, ack: Ack)
    requires key in s.refusals && s.refusals[key] == t && ack.at - t < ACK_REFUSAL_WINDOW
    requires !(ack.refusal && ack.who == key && Send(s, ack).1)
    ensures key in Send(s, ack).0.refusals && Send(s, ack).0.refusals[key] == t
  {
  }

  /** A refusal leaves only when none is remembered. */
  lemma RefusalLeaves(s: Acks, left: seq<Ack>, key: Key, now: int, ack: Ack)
    requires KeyInv(s, left, key, now) && now <= ack.at && ack.refusal && ack.who == key && Send(s, ack).1
    ensures KeyInv(Send(s, ack).0, left + [ack], key, ack.at)
  {
    var times := RefusalTimes(left, key);
    RefusalTimesGrow(left, ack, key);
    assert key in s.refusals ==> ack.at - s.refusals[key] >= ACK_REFUSAL_WINDOW;
    NextRefusal(times, ack.at);
  }

  lemma KeyKept(s: Acks, left: seq<Ack>, after: seq<Ack>, key: Key, now: int, ack: Ack)
    requires KeyInv(s, left, key, now) && now <= ack.at && !(ack.refusal && ack.who == key && Send(s, ack).1)
    requires RefusalTimes(after, key) == RefusalTimes(left, key)
    ensures KeyInv(Send(s, ack).0, after, key, ack.at)
  {
    var times := RefusalTimes(left, key);
    if times != [] && ack.at - times[|times| - 1] < ACK_REFUSAL_WINDOW {
      StillRemembered(s, key, times[|times| - 1], ack);
    }
  }

  lemma KeyStep(s: Acks, left: seq<Ack>, key: Key, now: int, ack: Ack)
    requires KeyInv(s, left, key, now) && now <= ack.at
    ensures KeyInv(Send(s, ack).0, if Send(s, ack).1 then left + [ack] else left, key, ack.at)
  {
    var sent := Send(s, ack).1;
    if sent && ack.refusal && ack.who == key {
      RefusalLeaves(s, left, key, now, ack);
    } else {
      RefusalTimesGrow(left, ack, key);
      assert RefusalTimes(left, key) + [] == RefusalTimes(left, key);
      KeyKept(s, left, if sent then left + [ack] else left, key, now, ack);
    }
  }

  lemma {:induction false} KeyRun(acks: seq<Ack>, n: nat, key: Key, now: int)
    requires n <= |acks| && Monotone(acks) && (n > 0 ==> acks[n - 1].at <= now)
    ensures KeyInv(SendAll(acks, n).0, SendAll(acks, n).1, key, now)
    decreases n
  {
    if n > 0 {
      var last := acks[n - 1];
      KeyRun(acks, n - 1, key, last.at);
      KeyStep(SendAll(acks, n - 1).0, SendAll(acks, n - 1).1, key, last.at, last);
    }
  }

  /** No two refusals leave for one channel and sender within ten minutes. */
  lemma OneRefusalInTenMinutes(acks: seq<Ack>, key: Key)
    requires Monotone(acks)
    ensures AtMost(RefusalTimes(SendAll(acks, |acks|).1, key), 1, ACK_REFUSAL_WINDOW)
  {
    KeyRun(acks, |acks|, key, if acks == [] then 0 else acks[|acks| - 1].at);
  }

  // ---- Which acks leave ----

  /** What is remembered of a channel and sender is the last refusal that left. */
  predicate RemembersLast(s: Acks, key: Key, times: seq<int>) {
    key in s.refusals ==> times != [] && s.refusals[key] == times[|times| - 1]
  }

  /** What is remembered comes from before, unless it is this refusal that left. */
  lemma NothingElseIsRemembered(s: Acks, key: Key, ack: Ack)
    requires !(ack.refusal && ack.who == key && Send(s, ack).1)
    ensures key in Send(s, ack).0.refusals ==> key in s.refusals && Send(s, ack).0.refusals[key] == s.refusals[key]
  {
  }

  lemma RefusalIsRemembered(s: Acks, ack: Ack)
    requires ack.refusal && Send(s, ack).1
    ensures ack.who in Send(s, ack).0.refusals && Send(s, ack).0.refusals[ack.who] == ack.at
  {
  }

  lemma RemembersLastStep(s: Acks, key: Key, ack: Ack, times: seq<int>)
    requires RemembersLast(s, key, times)
    ensures var refused := ack.refusal && ack.who == key && Send(s, ack).1;
            RemembersLast(Send(s, ack).0, key, if refused then times + [ack.at] else times)
  {
    if ack.refusal && ack.who == key && Send(s, ack).1 {
      RefusalIsRemembered(s, ack);
    } else {
      NothingElseIsRemembered(s, key, ack);
    }
  }

  lemma RefusalTimesOfNext(left: seq<Ack>, ack: Ack, key: Key, sent: bool)
    ensures RefusalTimes(if sent then left + [ack] else left, key)
         == if ack.refusal && ack.who == key && sent
            then RefusalTimes(left, key) + [ack.at]
            else RefusalTimes(left, key)
  {
    RefusalTimesGrow(left, ack, key);
    assert RefusalTimes(left, key) + [] == RefusalTimes(left, key);
  }

  lemma {:induction false} RemembersLastRun(acks: seq<Ack>, n: nat, key: Key)
    requires n <= |acks|
    ensures RemembersLast(SendAll(acks, n).0, key, RefusalTimes(SendAll(acks, n).1, key))
    decreases n
  {
    if n > 0 {
      var (s, left) := SendAll(acks, n - 1);
      RemembersLastRun(acks, n - 1, key);
      RemembersLastStep(s, key, acks[n - 1], RefusalTimes(left, key));
      RefusalTimesOfNext(left, acks[n - 1], key, Send(s, acks[n - 1]).1);
    }
  }

  /** A refusal left for this channel and sender within the ten minutes before. */
  predicate RefusedLately(left: seq<Ack>, key: Key, now: int) {
    var times := RefusalTimes(left, key);
    times != [] && now - times[|times| - 1] < ACK_REFUSAL_WINDOW
  }

  /** Twenty acks left on the channel within the hour before. */
  predicate AtTheCap(left: seq<Ack>, channel: string, now: int) {
    var times := Times(left, channel);
    |times| >= ACK_CHANNEL_MAX && now - times[|times| - ACK_CHANNEL_MAX] < ACK_CHANNEL_WINDOW
  }

  lemma CapIsCounted(times: seq<int>, kept: seq<int>, now: int, max: nat)
    requires Rising(times) && Remembers(times, kept, now) && max > 0
    requires forall x | x in kept :: now - x < ACK_CHANNEL_WINDOW
    ensures |kept| >= max <==> |times| >= max && now - times[|times| - max] < ACK_CHANNEL_WINDOW
  {
    if |kept| >= max {
      assert times[|times| - max] == kept[|kept| - max] && kept[|kept| - max] in kept;
    }
  }

  /**
   * Over every run an ack leaves if and only if fewer than twenty left on its channel within the hour and, where it is
   * a refusal, none left for its sender within ten minutes.
   */
  lemma LeavesExactlyWhen(acks: seq<Ack>, n: nat)
    requires n < |acks| && Monotone(acks)
    ensures var (s, left) := SendAll(acks, n);
            Send(s, acks[n]).1 <==>
              && !AtTheCap(left, acks[n].who.channel, acks[n].at)
              && (acks[n].refusal ==> !RefusedLately(left, acks[n].who, acks[n].at))
  {
    var ack := acks[n];
    var (s, left) := SendAll(acks, n);
    ChannelRun(acks, n, ack.who.channel, ack.at);
    KeyRun(acks, n, ack.who, ack.at);
    RemembersLastRun(acks, n, ack.who);
    RemembersLater(Times(left, ack.who.channel), SentOn(s, ack.who.channel), ack.at, ack.at);
    RecentAreRecent(SentOn(s, ack.who.channel), ack.at);
    CapIsCounted(Times(left, ack.who.channel), Recent(SentOn(s, ack.who.channel), ack.at), ack.at, ACK_CHANNEL_MAX);
    assert ack.who in Unexpired(s.refusals, ack.at) <==> RefusedLately(left, ack.who, ack.at);
  }

  // ---- Rejections ----

  datatype Limiter = Limiter(windowStart: int, count: nat)

  /** Whether the rejection at this instant is audited. */
  function Admit(s: Limiter, now: int): (Limiter, bool) {
    var w := if now - s.windowStart >= REJECT_WINDOW then Limiter(now, 0) else s;
    (Limiter(w.windowStart, w.count + 1), w.count + 1 <= REJECT_CAP)
  }

  /** The limiter, and the instants admitted, after the first n calls. */
  function AdmitAll(calls: seq<int>, n: nat): (Limiter, seq<int>)
    requires n <= |calls|
  {
    if n == 0 then (Limiter(0, 0), [])
    else
      var (s, admitted) := AdmitAll(calls, n - 1);
      (Admit(s, calls[n - 1]).0, if Admit(s, calls[n - 1]).1 then admitted + [calls[n - 1]] else admitted)
  }

  function Min(a: nat, b: nat): nat {
    if a < b then a else b
  }

  /**
   * The admitted instants from b on are of this window; those from p to b of the one before; p's begins a window
   * earlier.
   */
  predicate Windows(s: Limiter, admitted: seq<int>, p: nat, b: nat) {
    && p <= b <= |admitted| && b - p <= REJECT_CAP && |admitted| - b == Min(s.count, REJECT_CAP)
    && (forall i | b <= i < |admitted| :: s.windowStart <= admitted[i] < s.windowStart + REJECT_WINDOW)
    && (forall i | 0 <= i < p :: admitted[i] <= s.windowStart - REJECT_WINDOW)
    && (forall i | 0 <= i < b :: admitted[i] < s.windowStart)
  }

  /** The instants of an audit log of rejections: no forty-one within a minute. */
  lemma AdmitStep(s: Limiter, admitted: seq<int>, p: nat, b: nat, now: int) returns (q: nat, c: nat)
    requires Windows(s, admitted, p, b) && Spaced(admitted, 2 * REJECT_CAP, REJECT_WINDOW) && s.windowStart <= now
    ensures var next := if Admit(s, now).1 then admitted + [now] else admitted;
      Windows(Admit(s, now).0, next, q, c) && Spaced(next, 2 * REJECT_CAP, REJECT_WINDOW)
  {
    q, c := p, b;
    if now - s.windowStart >= REJECT_WINDOW {
      q, c := b, |admitted|;
    }
  }

  lemma {:induction false} AdmitRun(calls: seq<int>, n: nat) returns (p: nat, b: nat)
    requires n <= |calls| && Rising(calls) && (calls != [] ==> calls[0] >= 0)
    ensures var (s, admitted) := AdmitAll(calls, n);
      Windows(s, admitted, p, b) && Spaced(admitted, 2 * REJECT_CAP, REJECT_WINDOW)
    ensures AdmitAll(calls, n).0.windowStart <= (if n == 0 then 0 else calls[n - 1])
    decreases n
  {
    p, b := 0, 0;
    if n > 0 {
      var now := calls[n - 1];
      p, b := AdmitRun(calls, n - 1);
      assert calls[0] <= now && (n > 1 ==> calls[n - 2] <= now);
      p, b := AdmitStep(AdmitAll(calls, n - 1).0, AdmitAll(calls, n - 1).1, p, b, now);
    }
  }

  /** At most twenty a window is at most forty in any minute. */
  lemma FortyAMinute(calls: seq<int>)
    requires Rising(calls) && (calls != [] ==> calls[0] >= 0)
    ensures AtMost(AdmitAll(calls, |calls|).1, 2 * REJECT_CAP, REJECT_WINDOW)
  {
    var _, _ := AdmitRun(calls, |calls|);
  }

  /** A rejection goes unaudited only when twenty were audited within the minute before it. */
  lemma UnauditedOnlyAfterTwenty(calls: seq<int>, n: nat)
    requires n < |calls| && Rising(calls) && calls[0] >= 0 && !Admit(AdmitAll(calls, n).0, calls[n]).1
    ensures var admitted := AdmitAll(calls, n).1;
            |admitted| >= REJECT_CAP && calls[n] - admitted[|admitted| - REJECT_CAP] < REJECT_WINDOW
  {
    var p, b := AdmitRun(calls, n);
  }

  /** The first of a window begins it, and at most twenty of the calls that fall within a minute of it are audited. */
  lemma AdmitSays(s: Limiter, now: int)
    ensures var (next, admitted) := Admit(s, now);
            var begins := now >= s.windowStart + REJECT_WINDOW;
            && next.windowStart == (if begins then now else s.windowStart)
            && next.count == (if begins then 1 else s.count + 1)
            && (admitted <==> begins || s.count < 20)
  {
  }

  // ---- Runs ----

  /** Each ack of a run meets what those before it left, and is among those that leave exactly when it leaves. */
  lemma AcksGoOn(acks: seq<Ack>, n: nat)
    requires n < |acks|
    ensures var (s, left) := SendAll(acks, n);
            var leaves := Send(s, acks[n]).1;
            SendAll(acks, n + 1) == (Send(s, acks[n]).0, left + if leaves then [acks[n]] else [])
  {
    assert SendAll(acks, n).1 + [] == SendAll(acks, n).1;
  }

  lemma CallsGoOn(calls: seq<int>, n: nat)
    requires n < |calls|
    ensures var (s, admitted) := AdmitAll(calls, n);
            var audited := Admit(s, calls[n]).1;
            AdmitAll(calls, n + 1) == (Admit(s, calls[n]).0, admitted + if audited then [calls[n]] else [])
  {
    assert AdmitAll(calls, n).1 + [] == AdmitAll(calls, n).1;
  }
}
