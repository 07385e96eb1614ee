/** How a verify pass comes back from its model call: which of its endings, in which state, over every run. */
module VerifyPassLandings {
  import opened Basics
  import opened VerifyPass
  import opened VerifyPassRuns

  // ---- One step ----

  /** Nothing stands between the pass and the record: the service runs on and nobody holds the case. */
  predicate WayIsFree(s: State, j: nat, foreign: bool)
    requires j < |s.jobs|
  {
    !s.jobs[j].superseded && !s.closing && s.held.None? && !foreign
  }

  /** While this process holds the case a pass waits, and no longer than its limit. */
  predicate MustWait(s: State, j: nat, timedOut: bool)
    requires j < |s.jobs|
  {
    !s.jobs[j].superseded && !s.closing && s.held.Some? && !timedOut
  }

  predicate IsDropped(s: State, j: nat, timedOut: bool)
    requires j < |s.jobs|
  {
    s.jobs[j].superseded || s.closing || (s.held.Some? && timedOut)
  }

  /**
   * A pass that resumes with its reply writes it if and only if the way is free, the case is open and the write does
   * not fail; it ends as closed if and only if the way is free and the case is closed. Else it waits in its call,
   * fails, or is dropped, each exactly when it must.
   */
  lemma LandsExactlyWhen(s: State, j: nat, timedOut: bool, foreign: bool, throws: bool)
    requires Ready(s) && j < |s.jobs| && s.jobs[j].stage == Calling
    ensures var stage := Step(s, JobResumeE(j, timedOut, foreign, throws)).jobs[j].stage;
            && (stage == Finishing(Landed) <==> WayIsFree(s, j, foreign) && !s.closed && !throws)
            && (stage == Finishing(CaseClosed) <==> WayIsFree(s, j, foreign) && s.closed)
            && (stage == Finishing(Dropped) <==> IsDropped(s, j, timedOut))
            && (stage == Calling <==> MustWait(s, j, timedOut))
            && (stage == Finishing(Threw) <==>
                  && !s.jobs[j].superseded && !s.closing && s.held.None?
                  && (foreign || (!s.closed && throws)))
  {
  }

  /** The lock is its own exactly when it got to write or found the case closed; a dropped pass is owed. */
  lemma ResumeChanges(s: State, j: nat, timedOut: bool, foreign: bool, throws: bool)
    requires Ready(s) && j < |s.jobs| && s.jobs[j].stage == Calling
    ensures var t := Step(s, JobResumeE(j, timedOut, foreign, throws));
            var lands := WayIsFree(s, j, foreign) && (s.closed || !throws);
            var dropped := IsDropped(s, j, timedOut);
            && t == s.(held := if lands then Some(Landing(j)) else s.held,
                       owed := s.owed || (dropped && s.jobs[j].owed),
                       jobs := s.jobs[j := s.jobs[j].(stage := t.jobs[j].stage, superseded := t.jobs[j].superseded)])
            && (t.jobs[j].superseded <==> s.jobs[j].superseded || (s.held.Some? && !s.closing && timedOut))
  {
  }

  /** A pass that is out of its call resumes no more. */
  lemma ResumesOnce(s: State, j: nat, timedOut: bool, foreign: bool, throws: bool)
    requires Ready(s) && j < |s.jobs| && s.jobs[j].stage != Calling
    ensures Step(s, JobResumeE(j, timedOut, foreign, throws)) == s
  {
  }

  /** A pass settles as what it came back as, once its lock is given back; only one that failed leaves a debt. */
  lemma SettlesAsItEnded(s: State, j: nat)
    requires Ready(s) && j < |s.jobs|
    ensures var t := Step(s, JobSettleE(j));
            if s.jobs[j].stage.Finishing? && s.held != Some(Landing(j)) then
              && t == s.(jobs := s.jobs[j := s.jobs[j].(stage := Done(s.jobs[j].stage.outcome))],
                         owed := s.owed || s.jobs[j].stage.outcome.Threw?, verifying := t.verifying)
              && (s.verifying == Some(j) ==> t.verifying == None)
              && (s.verifying != Some(j) ==> t.verifying == s.verifying)
            else t == s
  {
  }

  // ---- Over every run ----

  /** How the pass came back, if it did. */
  function EndingOf(stage: Stage): Option<Ending> {
    match stage
    case Calling => None
    case Finishing(outcome) => Some(outcome)
    case Done(outcome) => Some(outcome)
  }

  /** Step m of the run is the one in which pass j comes back with its way free. */
  ghost predicate BackAt(events: seq<Event>, m: nat, j: nat) {
    && m < |events| && events[m].JobResumeE? && events[m].job == j && j < |After(events[..m]).jobs|
    && After(events[..m]).jobs[j].stage == Calling && WayIsFree(After(events[..m]), j, events[m].foreign)
  }

  /** It writes its verdicts: the case was open and the write did not fail. */
  ghost predicate WroteAt(events: seq<Event>, m: nat, j: nat) {
    BackAt(events, m, j) && !After(events[..m]).closed && !events[m].throws
  }

  ghost predicate Wrote(events: seq<Event>, j: nat) {
    exists m: nat :: WroteAt(events, m, j)
  }

  /** It finds the case closed. */
  ghost predicate MetCloseAt(events: seq<Event>, m: nat, j: nat) {
    BackAt(events, m, j) && After(events[..m]).closed
  }

  ghost predicate MetClose(events: seq<Event>, j: nat) {
    exists m: nat :: MetCloseAt(events, m, j)
  }

  lemma SameBefore(events: seq<Event>, m: nat, j: nat)
    requires m + 1 < |events|
    ensures WroteAt(events[..|events| - 1], m, j) <==> WroteAt(events, m, j)
    ensures MetCloseAt(events[..|events| - 1], m, j) <==> MetCloseAt(events, m, j)
  {
    assert events[..|events| - 1][..m] == events[..m];
  }

  /** A run has such a step when it had one before its last step, or its last step is one. */
  lemma WroteByLast(events: seq<Event>, j: nat)
    requires events != []
    ensures Wrote(events, j) <==> Wrote(events[..|events| - 1], j) || WroteAt(events, |events| - 1, j)
  {
    if Wrote(events[..|events| - 1], j) {
      var m: nat :| WroteAt(events[..|events| - 1], m, j);
      SameBefore(events, m, j);
    } else if Wrote(events, j) {
      var m: nat :| WroteAt(events, m, j);
      if m + 1 < |events| {
        SameBefore(events, m, j);
      }
    }
  }

  lemma MetCloseByLast(events: seq<Event>, j: nat)
    requires events != []
    ensures MetClose(events, j) <==> MetClose(events[..|events| - 1], j) || MetCloseAt(events, |events| - 1, j)
  {
    if MetClose(events[..|events| - 1], j) {
      var m: nat :| MetCloseAt(events[..|events| - 1], m, j);
      SameBefore(events, m, j);
    } else if MetClose(events, j) {
      var m: nat :| MetCloseAt(events, m, j);
      if m + 1 < |events| {
        SameBefore(events, m, j);
      }
    }
  }

  /** The last step, at the state before it. */
  lemma AtLast(events: seq<Event>, j: nat)
    requires events != []
    ensures var s, ev := After(events[..|events| - 1]), events[|events| - 1];
            var back := ev.JobResumeE? && ev.job == j && j < |s.jobs| && s.jobs[j].stage == Calling
                        && WayIsFree(s, j, ev.foreign);
            && (WroteAt(events, |events| - 1, j) <==> back && !s.closed && !ev.throws)
            && (MetCloseAt(events, |events| - 1, j) <==> back && s.closed)
  {
  }

  /** A turn or a check that takes the case or starts a pass leaves how each pass came back. */
  lemma TakingLeavesEndings(s: State, ev: Event, i: nat)
    requires Inv(s) && (ev.TurnTakeE? || ev.TurnEndE? || ev.CheckContinueE?) && i < |s.jobs|
    ensures i < |Step(s, ev).jobs| && Step(s, ev).jobs[i].stage == s.jobs[i].stage
  {
    match ev
    case TurnTakeE(source, foreign) => TurnTakeDrops(s, source, foreign);
    case TurnEndE(id, committed) => TurnEndDrops(s, id, committed);
    case CheckContinueE(plan) => CheckContinueDrops(s, plan);
  }

  lemma StoppingLeavesEndings(s: State, ev: Event, i: nat)
    requires Inv(s) && (ev.StatusE? || ev.OwnerStopE? || ev.ShutdownE?) && i < |s.jobs|
    ensures i < |Step(s, ev).jobs| && Step(s, ev).jobs[i].stage == s.jobs[i].stage
  {
    match ev
    case StatusE(closed, _) => StopCheckOk(s.(closed := closed));
    case OwnerStopE => StopCheckOk(s);
    case ShutdownE => ShutdownLeavesEndings(s, i);
  }

  /** Every step but its own resuming leaves how a pass came back, or that it has not. */
  lemma OthersLeaveItsEnding(s: State, ev: Event, i: nat)
    requires Inv(s) && !ev.JobResumeE? && i < |s.jobs|
    ensures i < |Step(s, ev).jobs| && EndingOf(Step(s, ev).jobs[i].stage) == EndingOf(s.jobs[i].stage)
  {
    if ev.TurnTakeE? || ev.TurnEndE? || ev.CheckContinueE? {
      TakingLeavesEndings(s, ev, i);
    } else if ev.StatusE? || ev.OwnerStopE? || ev.ShutdownE? {
      StoppingLeavesEndings(s, ev, i);
    } else if ev.JobSettleE? {
      if ev.job < |s.jobs| {
        SettlesAsItEnded(s, ev.job);
      }
    } else {
      LockStepsLeaveJobs(s, ev);
    }
  }

  lemma LockStepsLeaveJobs(s: State, ev: Event)
    requires Ready(s)
    requires || ev.TurnReadyE? || ev.TurnPrepareE? || ev.ActionTakeE? || ev.ActionEndE? || ev.CheckPrepareE?
             || ev.ReleaseAllE?
    ensures Step(s, ev).jobs == s.jobs
  {
  }

  lemma ShutdownLeavesEndings(s: State, i: nat)
    requires i < |s.jobs|
    ensures |BeginShutdown(s).jobs| == |s.jobs| && BeginShutdown(s).jobs[i].stage == s.jobs[i].stage
  {
  }

  /** What one more step makes of how a pass came back. */
  lemma EndingFollows(events: seq<Event>, j: nat)
    requires events != []
    requires var s := After(events[..|events| - 1]); j < |s.jobs|
    ensures var s, t, n := After(events[..|events| - 1]), After(events), |events| - 1;
            && j < |t.jobs|
            && (EndingOf(t.jobs[j].stage) == Some(Landed) <==>
                  EndingOf(s.jobs[j].stage) == Some(Landed) || WroteAt(events, n, j))
            && (EndingOf(t.jobs[j].stage) == Some(CaseClosed) <==>
                  EndingOf(s.jobs[j].stage) == Some(CaseClosed) || MetCloseAt(events, n, j))
  {
    var s, ev := After(events[..|events| - 1]), events[|events| - 1];
    AtLast(events, j);
    if ev.JobResumeE? && ev.job < |s.jobs| {
      ResumeEnds(s, ev, j);
    } else if !ev.JobResumeE? {
      OthersLeaveItsEnding(s, ev, j);
    }
  }

  lemma ResumeEnds(s: State, ev: Event, j: nat)
    requires Inv(s) && ev.JobResumeE? && ev.job < |s.jobs| && j < |s.jobs|
    ensures var t := Step(s, ev);
            var back := ev.job == j && s.jobs[j].stage == Calling && WayIsFree(s, j, ev.foreign);
            && |t.jobs| == |s.jobs|
            && (EndingOf(t.jobs[j].stage) == Some(Landed) <==>
                  EndingOf(s.jobs[j].stage) == Some(Landed) || (back && !s.closed && !ev.throws))
            && (EndingOf(t.jobs[j].stage) == Some(CaseClosed) <==>
                  EndingOf(s.jobs[j].stage) == Some(CaseClosed) || (back && s.closed))
  {
    if s.jobs[ev.job].stage == Calling {
      LandsExactlyWhen(s, ev.job, ev.timedOut, ev.foreign, ev.throws);
      ResumeChanges(s, ev.job, ev.timedOut, ev.foreign, ev.throws);
    } else {
      ResumesOnce(s, ev.job, ev.timedOut, ev.foreign, ev.throws);
    }
  }

  /** A pass that a step starts is in its call. */
  lemma StartsCalling(s: State, ev: Event)
    requires Inv(s)
    ensures |s.jobs| <= |Step(s, ev).jobs|
    ensures forall j {:trigger Step(s, ev).jobs[j]} | |s.jobs| <= j < |Step(s, ev).jobs| ::
              Step(s, ev).jobs[j].stage == Calling
  {
    match ev
    case TurnEndE(id, committed) => EndStartsCalling(s, id, committed);
    case CheckContinueE(plan) =>
      if plan in s.checks {
        StartOk(s.(checks := s.checks - {plan}), plan, true);
      }
    case TurnTakeE(source, foreign) => TakeStartsNone(s, source, foreign);
    case JobResumeE(j, timedOut, foreign, throws) =>
      if j < |s.jobs| {
        JobResumeOk(s, j, timedOut, foreign, throws);
      }
    case JobSettleE(j) =>
      if j < |s.jobs| {
        JobSettleOk(s, j);
      }
    case StatusE(closed, _) => StopCheckOk(s.(closed := closed));
    case OwnerStopE => StopCheckOk(s);
    case ShutdownE => ShutdownOk(s);
    case _ =>
  }

  lemma EndStartsCalling(s: State, id: nat, committed: bool)
    requires Inv(s)
    ensures var t := TurnEnd(s, id, committed);
            && |s.jobs| <= |t.jobs|
            && (forall j {:trigger t.jobs[j]} | |s.jobs| <= j < |t.jobs| :: t.jobs[j].stage == Calling)
  {
    if id in s.open && s.open[id].begun && s.open[id].plan.Some? {
      StartOk(TurnClosed(s, id), s.open[id].plan.value, false);
    }
  }

  lemma TakeStartsNone(s: State, source: Source, foreign: bool)
    requires Inv(s)
    ensures |TurnTake(s, source, foreign).jobs| == |s.jobs|
  {
    SupersedeOk(s.(held := Some(Turn(s.nextTurn)), open := s.open[s.nextTurn := OpenTurn(source, false, None)],
        nextTurn := s.nextTurn + 1));
  }

  lemma {:induction false} NotYetBack(events: seq<Event>, j: nat)
    requires |After(events).jobs| <= j
    ensures !Wrote(events, j) && !MetClose(events, j)
  {
    if events != [] {
      StartsCalling(After(events[..|events| - 1]), events[|events| - 1]);
      NotYetBack(events[..|events| - 1], j);
      AtLast(events, j);
      WroteByLast(events, j);
      MetCloseByLast(events, j);
    }
  }

  /**
   * Over every run a pass has landed if and only if it came back, with its way free and the write not failing, to an
   * open case; and it was ended by the case's close if and only if it came back so to a closed one.
   */
  lemma {:induction false} EndingWasEarned(events: seq<Event>, j: nat)
    requires j < |After(events).jobs|
    ensures EndingOf(After(events).jobs[j].stage) == Some(Landed) <==> Wrote(events, j)
    ensures EndingOf(After(events).jobs[j].stage) == Some(CaseClosed) <==> MetClose(events, j)
  {
    if events != [] {
      var before := events[..|events| - 1];
      WroteByLast(events, j);
      MetCloseByLast(events, j);
      if j < |After(before).jobs| {
        EndingWasEarned(before, j);
        EndingFollows(events, j);
      } else {
        NotYetBack(before, j);
        StartsCalling(After(before), events[|events| - 1]);
        AtLast(events, j);
      }
    }
  }
}
