/** An answer that fails is tried again, five times in all: over every run, failed rewrites and crashes included. */
module ContactInboxTries {
  import opened Basics
  import opened ContactInbox
  import opened ContactInboxRuns

  /** Every line the inbox may still have to see to: those of the file, and those a drain has kept so far. */
  function Held(parse: string -> Option<Line>, s: State): seq<Line> {
    Inbox(parse, s.text) + (if s.drain.Some? then s.drain.value.keep else [])
  }

  predicate Judging(s: State, event: Event) {
    event.Next? && s.drain.Some? && s.drain.value.at < |s.drain.value.lines|
  }

  function Judged(s: State, event: Event): Line
    requires Judging(s, event)
  {
    s.drain.value.lines[s.drain.value.at]
  }

  /** Where a line held after a step was before it. */
  predicate ComesFrom(parse: string -> Option<Line>, s: State, event: Event, v: Line) {
    || v in Held(parse, s)
    || event == AppendLine(v)
    || (Judging(s, event) && Judge(Judged(s, event), event.outcome) == Kept(v))
  }

  lemma LinesAreHeld(parse: string -> Option<Line>, s: State, v: Line)
    requires Inv(parse, s) && s.drain.Some?
    ensures v in s.drain.value.lines || v in Inbox(parse, s.text[s.drain.value.size..]) ==> v in Held(parse, s)
  {
    FileOfDrain(parse, s);
  }

  lemma LiveIsHeld(parse: string -> Option<Line>, s: State, v: Line)
    requires Inv(parse, s) && v in Live(parse, s)
    ensures v in Held(parse, s)
  {
    if s.drain.Some? {
      LinesAreHeld(parse, s, v);
    }
  }

  lemma HeldMoves(encode: Line -> string, parse: string -> Option<Line>, s: State, event: Event, v: Line)
    requires Codec(encode, parse) && Inv(parse, s) && v in Held(parse, Step(encode, parse, s, event))
    ensures ComesFrom(parse, s, event, v)
  {
    match event
    case AppendLine(w) => AppendAdds(encode, parse, s.text, w);
    case Finish(written) =>
      if written && s.drain.Some? {
        RewriteKeepsTheRest(encode, parse, s.text, s.drain.value.keep, s.drain.value.size);
        LinesAreHeld(parse, s, v);
      }
    case _ =>
  }

  // ---- No line is tried a sixth time ----

  ghost predicate BelowFive(lines: seq<Line>) {
    forall v | v in lines :: Attempts(v) < MAX_ATTEMPTS
  }

  lemma BelowFiveStays(encode: Line -> string, parse: string -> Option<Line>, s: State, event: Event)
    requires Codec(encode, parse) && Inv(parse, s) && BelowFive(Held(parse, s))
    requires event.AppendLine? ==> Attempts(event.line) < MAX_ATTEMPTS
    ensures BelowFive(Held(parse, Step(encode, parse, s, event)))
  {
    if Judging(s, event) {
      LinesAreHeld(parse, s, Judged(s, event));
    }
    forall v | v in Held(parse, Step(encode, parse, s, event)) ensures Attempts(v) < MAX_ATTEMPTS {
      HeldMoves(encode, parse, s, event, v);
    }
  }

  /** Every line that is held, so every line still to be seen to, has failed fewer than five times. */
  lemma {:induction false} GoneAfterFiveFailures(encode: Line -> string,
      parse: string -> Option<Line>, s: State, events: seq<Event>)
    requires Codec(encode, parse) && Inv(parse, s) && KeepsOwn(s) && BelowFive(Held(parse, s))
    requires forall v {:trigger AppendLine(v)} | AppendLine(v) in events :: Attempts(v) < MAX_ATTEMPTS
    ensures BelowFive(Held(parse, Run(encode, parse, s, events)))
    ensures BelowFive(Live(parse, Run(encode, parse, s, events)))
    decreases |events|
  {
    if events == [] {
      forall v | v in Live(parse, s) ensures v in Held(parse, s) {
        LiveIsHeld(parse, s, v);
      }
    } else {
      var next := Step(encode, parse, s, events[0]);
      BelowFiveStays(encode, parse, s, events[0]);
      StepAccounts(encode, parse, s, events[0]);
      GoneAfterFiveFailures(encode, parse, next, events[1..]);
    }
  }

  // ---- Failures of one answer ----

  /** Applying an answer b failed. */
  predicate Fails(s: State, event: Event, b: int) {
    Judging(s, event) && event.outcome.Failed? && Judged(s, event).valid && Judged(s, event).body == b
  }

  function Failures(encode: Line -> string, parse: string -> Option<Line>, s: State, events: seq<Event>, b: int): nat
    decreases events
  {
    if events == [] then 0
    else (if Fails(s, events[0], b) then 1
        else 0) + Failures(encode, parse, Step(encode, parse, s, events[0]), events[1..], b)
  }

  /** No held line of this answer counts more than n failures. */
  ghost predicate AtMost(lines: seq<Line>, b: int, n: nat) {
    forall v | v in lines && v.body == b :: Attempts(v) <= n
  }

  ghost predicate ComeNew(events: seq<Event>, b: int, n: nat) {
    forall v {:trigger AppendLine(v)} | AppendLine(v) in events && v.body == b :: Attempts(v) <= n
  }

  lemma TriesMove(encode: Line -> string, parse: string -> Option<Line>, s: State, event: Event, b: int, n: nat)
    requires Codec(encode, parse) && Inv(parse, s) && AtMost(Held(parse, s), b, n)
    requires forall v {:trigger AppendLine(v)} | event == AppendLine(v) && v.body == b :: Attempts(v) <= n
    ensures AtMost(Held(parse, Step(encode, parse, s, event)), b, n + if Fails(s, event, b) then 1 else 0)
  {
    var next := Step(encode, parse, s, event);
    forall v | v in Held(parse, next) && v.body == b
      ensures Attempts(v) <= n + if Fails(s, event, b) then 1 else 0
    {
      HeldMoves(encode, parse, s, event, v);
      if v !in Held(parse, s) && event.Next? {
        LinesAreHeld(parse, s, Judged(s, event));
      }
    }
  }

  /** What a step adds to the lines that are gone: a valid answer is dropped at its fifth failure. */
  lemma DropMoves(encode: Line -> string, parse: string -> Option<Line>, s: State, event: Event, i: nat, b: int, n: nat)
    requires Inv(parse, s) && AtMost(Held(parse, s), b, n)
    requires var gone := Step(encode, parse, s, event).gone;
      |s.gone| <= i < |gone| && gone[i].1.WasDropped? && gone[i].0.valid && gone[i].0.body == b
    ensures Fails(s, event, b) && n + 1 >= MAX_ATTEMPTS
  {
    LinesAreHeld(parse, s, Judged(s, event));
  }

  lemma {:induction false} GoneOnlyGrows(encode: Line -> string,
      parse: string -> Option<Line>, s: State, events: seq<Event>)
    ensures s.gone <= Run(encode, parse, s, events).gone
    decreases |events|
  {
    if events != [] {
      GoneOnlyGrows(encode, parse, Step(encode, parse, s, events[0]), events[1..]);
    }
  }

  /**
   * An answer is dropped only when it is no answer, or when applying it has failed five times, counting those it came
   * with: whatever else the run does.
   */
  lemma {:induction false} DroppedOnlyAfterFiveFailures(encode: Line -> string, parse: string -> Option<Line>, s: State,
      events: seq<Event>, i: nat, n: nat)
    requires Codec(encode, parse) && Inv(parse, s) && KeepsOwn(s)
    requires var gone := Run(encode, parse, s, events).gone;
      && |s.gone| <= i < |gone| && gone[i].1.WasDropped? && gone[i].0.valid
      && AtMost(Held(parse, s), gone[i].0.body, n) && ComeNew(events, gone[i].0.body, n)
    ensures n + Failures(encode, parse, s, events, Run(encode, parse, s, events).gone[i].0.body) >= MAX_ATTEMPTS
    decreases |events|
  {
    if events != [] {
      var next := Step(encode, parse, s, events[0]);
      var b := Run(encode, parse, s, events).gone[i].0.body;
      StepAccounts(encode, parse, s, events[0]);
      GoneOnlyGrows(encode, parse, next, events[1..]);
      if i < |next.gone| {
        DropMoves(encode, parse, s, events[0], i, b, n);
      } else {
        TriesMove(encode, parse, s, events[0], b, n);
        var m := n + if Fails(s, events[0], b) then 1 else 0;
        DroppedOnlyAfterFiveFailures(encode, parse, next, events[1..], i, m);
      }
    }
  }

  // ---- Exactly counted where every drain writes its file ----

  lemma {:induction false} BodiesNone(lines: seq<Line>, b: int)
    requires Bodies(lines)[b] == 0
    ensures forall v | v in lines :: v.body != b
  {
    if lines != [] {
      BodiesNone(lines[1..], b);
      assert lines == [lines[0]] + lines[1..];
    }
  }

  lemma {:induction false} BodiesSome(lines: seq<Line>, v: Line)
    requires v in lines
    ensures Bodies(lines)[v.body] >= 1
  {
    if lines[0] != v {
      BodiesSome(lines[1..], v);
    }
  }

  lemma {:induction false} AppendsNone(events: seq<Event>, b: int)
    requires Appends(events)[b] == 0
    ensures forall v {:trigger AppendLine(v)} | AppendLine(v) in events :: v.body != b
  {
    if events != [] {
      AppendsNone(events[1..], b);
      assert events == [events[0]] + events[1..];
    }
  }

  ghost predicate Exactly(lines: seq<Line>, b: int, n: nat) {
    forall v | v in lines && v.body == b :: Attempts(v) == n
  }

  ghost predicate ComeAt(events: seq<Event>, b: int, n: nat) {
    forall v {:trigger AppendLine(v)} | AppendLine(v) in events && v.body == b :: Attempts(v) == n
  }

  /** The one line of an answer among those that are live, and what its judging makes of it. */
  lemma OnlyOne(keep: seq<Line>, v: Line, rest: seq<Line>, tail: seq<Line>, b: int)
    requires Bodies(keep + ([v] + rest) + tail)[b] <= 1 && v.body == b
    ensures forall w | w in keep || w in rest || w in tail :: w.body != b
  {
    BodiesJoin3(keep, [v] + rest, tail);
    BodiesJoin([v], rest);
    BodiesOne(v);
    BodiesNone(keep, b);
    BodiesNone(rest, b);
    BodiesNone(tail, b);
  }

  lemma OnlyItsOwnCounts(keep: seq<Line>, v: Line, rest: seq<Line>, tail: seq<Line>, stays: seq<Line>, b: int, n: nat,
      m: nat)
    requires Bodies(keep + ([v] + rest) + tail)[b] <= 1 && Exactly(keep + ([v] + rest) + tail, b, n)
    requires Exactly(stays, b, m) && forall w | w in stays :: w.body == v.body
    ensures Exactly((keep + stays) + rest + tail, b, if v.body == b then m else n)
  {
    var live := keep + ([v] + rest) + tail;
    if v.body == b {
      OnlyOne(keep, v, rest, tail, b);
    } else {
      assert forall w | w in keep || w in rest || w in tail :: w in live;
    }
  }

  lemma JudgedLine(s: State, event: Event, b: int, n: nat)
    requires Judging(s, event) && (Judged(s, event).body == b ==> Attempts(Judged(s, event)) == n)
    ensures var fate := Judge(Judged(s, event), event.outcome);
      && (fate.Kept? ==> fate.line.body == Judged(s, event).body)
      && (fate.Kept? && fate.line.body == b ==> Attempts(fate.line) == n + if Fails(s, event, b) then 1 else 0)
  {
  }

  lemma JudgedCounts(encode: Line -> string, parse: string -> Option<Line>, s: State, event: Event, b: int, n: nat)
    requires Inv(parse, s) && Judging(s, event) && Bodies(Live(parse, s))[b] <= 1 && Exactly(Live(parse, s), b, n)
    ensures Exactly(Live(parse, Step(encode, parse, s, event)), b, n + if Fails(s, event, b) then 1 else 0)
  {
    var d, v := s.drain.value, Judged(s, event);
    var fate := Judge(v, event.outcome);
    var stays := if fate.Kept? then [fate.line] else [];
    LiveNow(parse, s);
    LiveNext(encode, parse, s, event.outcome);
    assert v in Live(parse, s) && d.keep + [] == d.keep;
    JudgedLine(s, event, b, n);
    var m := n + if Fails(s, event, b) then 1 else 0;
    OnlyItsOwnCounts(d.keep, v, d.lines[d.at + 1..], Inbox(parse, s.text[d.size..]), stays, b, n, m);
  }

  lemma StepCounts(encode: Line -> string, parse: string -> Option<Line>, s: State, event: Event, b: int, n: nat)
    requires Codec(encode, parse) && Inv(parse, s) && Bodies(Live(parse, s))[b] <= 1 && Exactly(Live(parse, s), b, n)
    requires event != Finish(false) && event != Crash && ComeAt([event], b, n)
    ensures Exactly(Live(parse, Step(encode, parse, s, event)), b, n + if Fails(s, event, b) then 1 else 0)
  {
    if Judging(s, event) {
      JudgedCounts(encode, parse, s, event, b, n);
    } else {
      match event
      case AppendLine(v) =>
        AppendStep(encode, parse, s, v);
        assert AppendLine(v) in [event];
      case Begin => BeginStep(encode, parse, s);
      case Next(_) =>
      case Finish(_) => FinishStep(encode, parse, s);
    }
  }

  /** A failure judges a live line, so no other line of that answer comes later. */
  lemma FailsOnce(parse: string -> Option<Line>, s: State, event: Event, b: int, more: multiset<int>)
    requires Inv(parse, s) && Fails(s, event, b) && Bodies(Live(parse, s))[b] + more[b] <= 1
    ensures more[b] == 0
  {
    LiveNow(parse, s);
    BodiesSome(Live(parse, s), Judged(s, event));
  }

  lemma StillOne(live: multiset<int>, live': multiset<int>, gone: multiset<int>, gone': multiset<int>,
      come: multiset<int>, more: multiset<int>, b: int)
    requires live' + gone' == live + gone + come && gone[b] <= gone'[b] && live[b] + (come + more)[b] <= 1
    ensures live'[b] + more[b] <= 1
  {
    assert (live' + gone')[b] == live'[b] + gone'[b] && (live + gone + come)[b] == live[b] + gone[b] + come[b];
  }

  lemma GoneAfter(encode: Line -> string, parse: string -> Option<Line>, s: State, event: Event)
    ensures var gone := Step(encode, parse, s, event).gone;
      || gone == s.gone
      || (Judging(s, event) && gone == s.gone + [(Judged(s, event), Judge(Judged(s, event), event.outcome))])
  {
  }

  lemma GoneMore(gone: seq<(Line, Fate)>, v: Line, fate: Fate, b: int)
    ensures Gone(gone)[b] <= Gone(gone + [(v, fate)])[b]
  {
    GoneGrows(gone, v, fate);
  }

  lemma GoneByOne(encode: Line -> string, parse: string -> Option<Line>, s: State, event: Event, b: int)
    ensures Gone(s.gone)[b] <= Gone(Step(encode, parse, s, event).gone)[b]
  {
    GoneAfter(encode, parse, s, event);
    if Judging(s, event) {
      GoneMore(s.gone, Judged(s, event), Judge(Judged(s, event), event.outcome), b);
    }
  }

  lemma StaysUnique(encode: Line -> string,
      parse: string -> Option<Line>, s: State, event: Event, b: int, more: multiset<int>)
    requires Codec(encode, parse) && Inv(parse, s) && KeepsOwn(s) && !Abandons(s, event)
    requires Bodies(Live(parse, s))[b] + (Appended(event) + more)[b] <= 1
    ensures var next := Step(encode, parse, s, event);
      Inv(parse, next) && KeepsOwn(next) && Bodies(Live(parse, next))[b] + more[b] <= 1
  {
    var next := Step(encode, parse, s, event);
    StepAccounts(encode, parse, s, event);
    GoneByOne(encode, parse, s, event, b);
    StillOne(Bodies(Live(parse, s)), Bodies(Live(parse, next)), Gone(s.gone), Gone(next.gone), Appended(event), more,
        b);
  }

  /**
   * An answer that came once counts its failures exactly, where every drain writes its file: so at its fifth failure it
   * waits no longer.
   */
  lemma {:induction false} CountsItsFailures(encode: Line -> string, parse: string -> Option<Line>, s: State,
      events: seq<Event>, b: int, n: nat)
    requires Codec(encode, parse) && Inv(parse, s) && KeepsOwn(s) && Finish(false) !in events && Crash !in events
    requires Bodies(Live(parse, s))[b] + Appends(events)[b] <= 1 && Exactly(Live(parse, s), b, n)
    requires ComeAt(events, b, n)
    ensures Exactly(Live(parse, Run(encode, parse, s, events)), b, n + Failures(encode, parse, s, events, b))
    decreases |events|
  {
    if events != [] {
      var next := Step(encode, parse, s, events[0]);
      var m := n + if Fails(s, events[0], b) then 1 else 0;
      StepCounts(encode, parse, s, events[0], b, n);
      StaysUnique(encode, parse, s, events[0], b, Appends(events[1..]));
      if Fails(s, events[0], b) {
        FailsOnce(parse, s, events[0], b, Appends(events[1..]));
        AppendsNone(events[1..], b);
      }
      CountsItsFailures(encode, parse, next, events[1..], b, m);
    }
  }

  lemma FifthFailureIsTheLast(encode: Line -> string,
      parse: string -> Option<Line>, s: State, events: seq<Event>, b: int, n: nat)
    requires Codec(encode, parse) && Inv(parse, s) && KeepsOwn(s) && Finish(false) !in events && Crash !in events
    requires Bodies(Live(parse, s))[b] + Appends(events)[b] <= 1 && Exactly(Live(parse, s), b, n)
    requires ComeAt(events, b, n)
    requires BelowFive(Held(parse, s)) && forall v {:trigger AppendLine(v)} | AppendLine(v) in events ::
          Attempts(v) < MAX_ATTEMPTS
    requires n + Failures(encode, parse, s, events, b) >= MAX_ATTEMPTS
    ensures forall v | v in Live(parse, Run(encode, parse, s, events)) :: v.body != b
  {
    CountsItsFailures(encode, parse, s, events, b, n);
    GoneAfterFiveFailures(encode, parse, s, events);
  }

  lemma FailedDrain(encode: Line -> string, parse: string -> Option<Line>, s: State, v: Line)
    requires v.valid && s.drain.None? && Inbox(parse, s.text) == [v] && Attempts(v) + 1 < MAX_ATTEMPTS
    ensures var begun := Step(encode, parse, s, Begin);
      Step(encode, parse, Step(encode, parse, begun, Next(Failed)), Finish(false)) == s
  {
    assert Step(encode, parse, s, Begin).drain == Some(Drain([v], |s.text|, 0, [], false));
  }

  /**
   * Where the rewrite fails the failure is forgotten with it, and the line is as it was: such a line is tried on and
   * on.
   */
  lemma UnwrittenFailureIsForgotten(encode: Line -> string, parse: string -> Option<Line>, s: State, v: Line)
    requires v.valid && s.drain.None? && Inbox(parse, s.text) == [v] && Attempts(v) + 1 < MAX_ATTEMPTS
    ensures Run(encode, parse, s, [Begin, Next(Failed), Finish(false)]) == s
  {
    var begun := Step(encode, parse, s, Begin);
    var none: seq<Event> := [];
    FailedDrain(encode, parse, s, v);
    RunFirst(encode, parse, s, Begin, [Next(Failed), Finish(false)]);
    RunFirst(encode, parse, begun, Next(Failed), [Finish(false)]);
    RunFirst(encode, parse, Step(encode, parse, begun, Next(Failed)), Finish(false), none);
    ThreeEvents(Begin, Next(Failed), Finish(false));
  }

  lemma ThreeEvents(a: Event, b: Event, c: Event)
    ensures [a] + [b, c] == [a, b, c] && [b] + [c] == [b, c] && [c] + [] == [c]
  {
  }
}
