/**
 * Debts of the verify pass over every run: a pass that was counted and wrote nothing is owed to the case, or a newer
 * one started, unless the owner stopped it.
 */
module VerifyPassDebts {
  import opened Basics
  import opened VerifyPass
  import opened VerifyPassRuns
  import opened VerifyPassLandings

  // ---- What the owner's stop does ----

  /**
   * The event stops pass j: Stop with no turn registered, or a status that stops work, while j is the owner's running
   * check.
   */
  predicate Stops(s: State, ev: Event, j: nat)
    requires JobsInRange(s)
  {
    && Running(s) && s.verifying == Some(j) && s.jobs[j].check
    && ((ev.OwnerStopE? && s.registered.None?) || (ev.StatusE? && ev.stopsWork))
  }

  /** Such an event came at step m of the run; in the call: while the model call of the pass was out. */
  ghost predicate StoppedAt(events: seq<Event>, m: nat, j: nat, inCall: bool) {
    && m < |events| && Stops(After(events[..m]), events[m], j)
    && (inCall ==> After(events[..m]).jobs[j].stage == Calling)
  }

  ghost predicate WasStopped(events: seq<Event>, j: nat, inCall: bool) {
    exists m: nat :: StoppedAt(events, m, j, inCall)
  }

  /** What a pass is, out or dropped, once the owner has stopped it in its call. */
  predicate DroppedUnowed(job: Job) {
    !job.owed && (job.stage == Calling || job.stage == Finishing(Dropped) || job.stage == Done(Dropped))
  }

  /** A stopped or dropped pass is superseded, and a newest pass that threw is owed. */
  ghost predicate StopsOk(s: State) {
    && (forall j {:trigger s.jobs[j]} | 0 <= j < |s.jobs| ::
          && (!s.jobs[j].owed ==> s.jobs[j].superseded)
          && (s.jobs[j].stage == Finishing(Dropped) ==> s.jobs[j].superseded)
          && (s.closing ==> s.jobs[j].stage.Done? || s.jobs[j].superseded))
    && (s.jobs != [] && s.jobs[|s.jobs| - 1].stage == Done(Threw) ==> s.owed)
  }

  /** What one step does to one pass that was there: the owner's stop, and nothing else, takes its debt. */
  ghost predicate JobFollows(s: State, ev: Event, j: nat)
    requires Ready(s) && j < |s.jobs|
  {
    var t := Step(s, ev);
    && j < |t.jobs|
    && (t.jobs[j].owed <==> s.jobs[j].owed && !Stops(s, ev, j))
    && (DroppedUnowed(t.jobs[j]) <==> DroppedUnowed(s.jobs[j]) || (Stops(s, ev, j) && s.jobs[j].stage == Calling))
  }

  ghost predicate StepFollows(s: State, ev: Event)
    requires Ready(s)
  {
    var t := Step(s, ev);
    && StopsOk(t) && |s.jobs| <= |t.jobs|
    && (forall j: nat {:trigger JobFollows(s, ev, j)} | j < |s.jobs| :: JobFollows(s, ev, j))
    && (forall j {:trigger t.jobs[j]} | |s.jobs| <= j < |t.jobs| :: t.jobs[j].owed)
  }

  /** A pass comes back from its call. */
  predicate Answers(job: Job, after: Job) {
    && after.owed == job.owed && (job.superseded ==> after.superseded)
    && job.stage == Calling && after.stage.Finishing? && (after.stage == Finishing(Dropped) ==> after.superseded)
    && (job.superseded ==> after.stage == Finishing(Dropped))
  }

  lemma AnswerFollows(jobs: seq<Job>, j: nat, after: Job, i: nat)
    requires j < |jobs| && i < |jobs| && Answers(jobs[j], after) && (!jobs[j].owed ==> jobs[j].superseded)
    ensures jobs[j := after][i].owed == jobs[i].owed
    ensures DroppedUnowed(jobs[j := after][i]) == DroppedUnowed(jobs[i])
  {
  }

  /** A step of pass j alone, that leaves what is owed of it. */
  lemma OneJobFollows(s: State, ev: Event, j: nat)
    requires Ready(s) && StopsOk(s) && j < |s.jobs| && !ev.StatusE? && !ev.OwnerStopE?
    requires var t := Step(s, ev);
             && |t.jobs| == |s.jobs| && t.jobs == s.jobs[j := t.jobs[j]]
             && t.closing == s.closing && (s.owed ==> t.owed)
             && Answers(s.jobs[j], t.jobs[j])
    ensures StepFollows(s, ev)
  {
    forall i: nat | i < |s.jobs| ensures JobFollows(s, ev, i) {
      AnswerFollows(s.jobs, j, Step(s, ev).jobs[j], i);
    }
  }

  lemma ResumeFollows(s: State, j: nat, timedOut: bool, foreign: bool, throws: bool)
    requires Ready(s) && StopsOk(s)
    ensures StepFollows(s, JobResumeE(j, timedOut, foreign, throws))
  {
    if j < |s.jobs| && Resume(s.jobs[j], s.held.Some?, s.closing, s.closed, timedOut, foreign, throws) != Waits {
      OneJobFollows(s, JobResumeE(j, timedOut, foreign, throws), j);
    }
  }

  lemma SettleFollows(s: State, j: nat)
    requires Ready(s) && StopsOk(s)
    ensures StepFollows(s, JobSettleE(j))
  {
  }

  lemma StopCheckFollows(s: State, ev: Event)
    requires Ready(s) && StopsOk(s) && (ev.StatusE? || ev.OwnerStopE?)
    requires var t := Step(s, ev);
             && t.closing == s.closing && t.owed == s.owed
             && if Running(s) && Stops(s, ev, s.verifying.value)
                then t.jobs
                    == s.jobs[s.verifying.value := s.jobs[s.verifying.value].(superseded := true, owed := false)]
                else t.jobs == s.jobs
    ensures StepFollows(s, ev)
  {
  }

  lemma StopFollows(s: State, ev: Event)
    requires Ready(s) && StopsOk(s) && (ev.StatusE? || ev.OwnerStopE?)
    ensures StepFollows(s, ev)
  {
    StopCheckFollows(s, ev);
  }

  lemma TakeFollows(s: State, source: Source, foreign: bool)
    requires Ready(s) && StopsOk(s)
    ensures StepFollows(s, TurnTakeE(source, foreign))
  {
  }

  /** Starting a pass leaves what is owed of the others, and where they are. */
  predicate PassAdded(jobs: seq<Job>, more: seq<Job>) {
    && |more| == |jobs| + 1 && more[|jobs|].owed && more[|jobs|].stage == Calling
    && (forall j {:trigger more[j]} | 0 <= j < |jobs| ::
          more[j].owed == jobs[j].owed && more[j].stage == jobs[j].stage && (jobs[j].superseded ==> more[j].superseded))
  }

  lemma StartFollows(s: State, plan: nat, check: bool)
    requires JobsInRange(s) && plan < |s.plans| && !s.closing
    ensures PassAdded(s.jobs, Start(s, plan, check).jobs) && !Start(s, plan, check).closing
  {
  }

  /** A step that moves no pass. */
  lemma NoJobMoves(s: State, ev: Event)
    requires Ready(s) && StopsOk(s) && !ev.StatusE? && !ev.OwnerStopE?
    requires var t := Step(s, ev); t.jobs == s.jobs && t.closing == s.closing && (s.owed ==> t.owed)
    ensures StepFollows(s, ev)
  {
  }

  /** A step that starts a pass. */
  lemma OneJobStarts(s: State, ev: Event, u: State, plan: nat, check: bool)
    requires Ready(s) && StopsOk(s) && (ev.TurnEndE? || ev.CheckContinueE?)
    requires u.jobs == s.jobs && u.verifying == s.verifying && u.owed == s.owed && u.closing == s.closing && !s.closing
    requires plan < |u.plans| && Step(s, ev) == Start(u, plan, check)
    ensures StepFollows(s, ev)
  {
    StartFollows(u, plan, check);
    AddedFollows(s, ev);
  }

  lemma AddedStopsOk(s: State, t: State)
    requires StopsOk(s) && PassAdded(s.jobs, t.jobs) && !t.closing
    ensures StopsOk(t)
  {
  }

  lemma AddedKeeps(jobs: seq<Job>, more: seq<Job>, i: nat)
    requires PassAdded(jobs, more) && i < |jobs|
    ensures more[i].owed == jobs[i].owed && DroppedUnowed(more[i]) == DroppedUnowed(jobs[i])
  {
  }

  lemma AddedJobFollows(s: State, ev: Event, i: nat)
    requires Ready(s) && (ev.TurnEndE? || ev.CheckContinueE?) && PassAdded(s.jobs, Step(s, ev).jobs) && i < |s.jobs|
    ensures JobFollows(s, ev, i)
  {
    AddedKeeps(s.jobs, Step(s, ev).jobs, i);
  }

  lemma AddedFollows(s: State, ev: Event)
    requires Ready(s) && StopsOk(s) && (ev.TurnEndE? || ev.CheckContinueE?)
    requires PassAdded(s.jobs, Step(s, ev).jobs) && !Step(s, ev).closing
    ensures StepFollows(s, ev)
  {
    AddedStopsOk(s, Step(s, ev));
    forall i: nat | i < |s.jobs| ensures JobFollows(s, ev, i) {
      AddedJobFollows(s, ev, i);
    }
  }

  lemma EndFollows(s: State, id: nat, committed: bool)
    requires Ready(s) && StopsOk(s)
    ensures StepFollows(s, TurnEndE(id, committed))
  {
    if id in s.open && s.open[id].begun {
      var t, plan := TurnClosed(s, id), s.open[id].plan;
      EndStep(s, id, committed);
      if plan.Some? && committed && s.registered == Some(id) && !s.closing {
        OneJobStarts(s, TurnEndE(id, committed), t, plan.value, false);
      } else {
        NoJobMoves(s, TurnEndE(id, committed));
      }
    }
  }

  lemma EndStep(s: State, id: nat, committed: bool)
    requires Ready(s) && id in s.open && s.open[id].begun
    ensures var t, plan := TurnClosed(s, id), s.open[id].plan;
            TurnEnd(s, id, committed) ==
            if plan.None? then t
            else if committed && s.registered == Some(id) && !s.closing then Start(t, plan.value, false)
            else GiveUp(t, plan.value)
  {
  }

  lemma CheckFollows(s: State, plan: nat)
    requires Ready(s) && StopsOk(s)
    ensures StepFollows(s, CheckContinueE(plan))
  {
    if plan in s.checks && !(s.closing || s.held.Some? || Running(s)) {
      OneJobStarts(s, CheckContinueE(plan), s.(checks := s.checks - {plan}), plan, true);
    } else {
      NoJobMoves(s, CheckContinueE(plan));
    }
  }

  lemma ShutdownFollows(s: State)
    requires Ready(s) && StopsOk(s)
    ensures StepFollows(s, ShutdownE)
  {
  }

  lemma EveryStepFollows(s: State, ev: Event)
    requires Ready(s) && StopsOk(s)
    ensures StepFollows(s, ev)
  {
    match ev
    case TurnTakeE(source, foreign) => TakeFollows(s, source, foreign);
    case TurnEndE(id, committed) => EndFollows(s, id, committed);
    case CheckContinueE(plan) => CheckFollows(s, plan);
    case JobResumeE(j, timedOut, foreign, throws) => ResumeFollows(s, j, timedOut, foreign, throws);
    case JobSettleE(j) => SettleFollows(s, j);
    case StatusE(_, _) => StopFollows(s, ev);
    case OwnerStopE => StopFollows(s, ev);
    case ShutdownE => ShutdownFollows(s);
    case _ => NoJobMoves(s, ev);
  }

  // ---- Over every run ----

  lemma {:induction false} RunStopsOk(events: seq<Event>)
    ensures StopsOk(After(events))
  {
    if events != [] {
      var before := events[..|events| - 1];
      RunStopsOk(before);
      EveryStepFollows(After(before), events[|events| - 1]);
    }
  }

  lemma SameBefore(events: seq<Event>, m: nat, j: nat, inCall: bool)
    requires m + 1 < |events|
    ensures StoppedAt(events[..|events| - 1], m, j, inCall) <==> StoppedAt(events, m, j, inCall)
  {
    assert events[..|events| - 1][..m] == events[..m];
  }

  lemma LastStops(events: seq<Event>, j: nat, inCall: bool)
    requires events != []
    ensures var before := events[..|events| - 1];
            StoppedAt(events, |events| - 1, j, inCall) <==>
              && Stops(After(before), events[|events| - 1], j)
              && (inCall ==> After(before).jobs[j].stage == Calling)
  {
  }

  lemma StoppedStays(events: seq<Event>, j: nat, inCall: bool)
    requires events != [] && WasStopped(events[..|events| - 1], j, inCall)
    ensures WasStopped(events, j, inCall)
  {
    var m: nat :| StoppedAt(events[..|events| - 1], m, j, inCall);
    SameBefore(events, m, j, inCall);
  }

  /** A run has stopped the pass when it had before its last step, or that step stops it. */
  lemma StoppedByLast(events: seq<Event>, j: nat, inCall: bool)
    requires events != []
    ensures WasStopped(events, j, inCall) <==>
              || WasStopped(events[..|events| - 1], j, inCall)
              || StoppedAt(events, |events| - 1, j, inCall)
  {
    if WasStopped(events[..|events| - 1], j, inCall) {
      StoppedStays(events, j, inCall);
    } else if WasStopped(events, j, inCall) {
      var m: nat :| StoppedAt(events, m, j, inCall);
      if m + 1 < |events| {
        SameBefore(events, m, j, inCall);
      }
    }
  }

  /** A pass is owed until the owner stops it, by one of the two events that can, and by nothing else. */
  lemma {:induction false} OwedUntilStopped(events: seq<Event>, j: nat)
    requires j < |After(events).jobs|
    ensures !After(events).jobs[j].owed <==> WasStopped(events, j, false)
    ensures DroppedUnowed(After(events).jobs[j]) <==> WasStopped(events, j, true)
  {
    if events != [] {
      var before, ev := events[..|events| - 1], events[|events| - 1];
      var s := After(before);
      RunStopsOk(before);
      EveryStepFollows(s, ev);
      StoppedByLast(events, j, false);
      StoppedByLast(events, j, true);
      LastStops(events, j, false);
      LastStops(events, j, true);
      if j < |s.jobs| {
        OwedUntilStopped(before, j);
        assert JobFollows(s, ev, j);
      } else {
        NotYetStopped(before, j);
      }
    }
  }

  lemma {:induction false} NotYetStopped(events: seq<Event>, j: nat)
    requires |After(events).jobs| <= j
    ensures !WasStopped(events, j, false) && !WasStopped(events, j, true)
  {
    if events != [] {
      var before := events[..|events| - 1];
      RunStopsOk(before);
      EveryStepFollows(After(before), events[|events| - 1]);
      NotYetStopped(before, j);
      StoppedByLast(events, j, false);
      StoppedByLast(events, j, true);
      LastStops(events, j, false);
      LastStops(events, j, true);
    }
  }

  // ---- What a debt becomes ----

  /**
   * A started pass that needs no other to follow it: it is not over; or at some step it wrote its verdicts to the open
   * case, or came back to find the case closed; or the owner stopped it.
   */
  ghost predicate NeedsNoOther(events: seq<Event>, j: nat)
    requires j < |After(events).jobs|
  {
    !After(events).jobs[j].stage.Done? || Wrote(events, j) || MetClose(events, j) || WasStopped(events, j, false)
  }

  /**
   * No debt is lost. Every pass that was prepared and counted is: still carried by its turn or check; or started and
   * not over; or it wrote its verdicts, met a closed case or was stopped by the owner, at a step of the run; or else
   * the case is owed one, or a newer pass started since.
   */
  lemma NoDebtIsLost(events: seq<Event>, p: nat)
    requires p < |After(events).plans|
    ensures var s := After(events);
            var plan := s.plans[p];
            && (plan.Waiting? ==> Carried(s, p))
            && (plan.GivenUp? ==> s.owed || plan.jobs < |s.jobs|)
            && (plan.Started? ==>
                  plan.job < |s.jobs| && (NeedsNoOther(events, plan.job) || s.owed || plan.job + 1 < |s.jobs|))
  {
    var s := After(events);
    assert Accounted(s, p);
    if s.plans[p].Started? {
      OwedUntilStopped(events, s.plans[p].job);
      EndingWasEarned(events, s.plans[p].job);
    }
  }

  /**
   * A debt is taken up by the next close: where a pass is owed, a turn that wrote nothing prepares one as a turn that
   * wrote something does; and where none is, it prepares none.
   */
  lemma DebtIsTakenUp(s: State, id: nat, look: Look, stopped: bool)
    ensures s.owed ==> TurnPrepare(s, id, look, stopped, false) == TurnPrepare(s, id, look, stopped, true)
    ensures !s.owed ==> TurnPrepare(s, id, look, stopped, false) == s
    ensures id in s.open && s.open[id].begun && s.open[id].plan.None? ==>
              (TurnPrepare(s, id, look, stopped, false) != s <==>
                 && s.owed && !s.closing && !s.closed && !stopped
                 && look.when.AtClose? && look.open && look.confirmed && look.model && !look.capped && !look.spent)
  {
    var t := TurnPrepare(s, id, look, stopped, false);
    if t != s {
      assert t.plans == s.plans + [Waiting];
    } else {
      assert |t.plans| == |s.plans|;
    }
  }

  lemma NewestAnswers(s: State)
    requires PlansOk(s) && JobsOk(s.jobs, s.verifying, s.owed, s.closing) && !s.owed && s.plans != []
    requires !s.plans[0].Waiting?
    ensures s.jobs != [] && !Lost(s.jobs[|s.jobs| - 1], s.closing)
  {
    assert Accounted(s, 0);
  }

  lemma NewestDone(job: Job, closing: bool)
    requires job.stage.Done? && job.stage != Done(Threw) && !Lost(job, closing)
    ensures job.stage == Done(Landed) || job.stage == Done(CaseClosed) <==> !DroppedUnowed(job)
  {
    match job.stage.outcome
    case Landed =>
    case CaseClosed =>
    case Threw =>
    case Dropped =>
  }

  /**
   * At rest and not owed, the newest pass answers for all before it: at a step of the run it wrote its verdicts to the
   * open case, or came back to find the case closed, exactly when no stop by the owner reached it while its call was
   * out.
   */
  lemma NewestPassAnswersForAll(events: seq<Event>)
    requires var s := After(events);
             !s.owed && s.plans != [] && !s.plans[0].Waiting? && (s.jobs != [] ==> s.jobs[|s.jobs| - 1].stage.Done?)
    ensures var jobs := After(events).jobs;
            && jobs != []
            && (Wrote(events, |jobs| - 1) || MetClose(events, |jobs| - 1) <==> !WasStopped(events, |jobs| - 1, true))
  {
    var s := After(events);
    NewestAnswers(s);
    var newest := |s.jobs| - 1;
    OwedUntilStopped(events, newest);
    RunStopsOk(events);
    NewestDone(s.jobs[newest], s.closing);
    EndingWasEarned(events, newest);
  }

  lemma AfterOneMore(events: seq<Event>, ev: Event)
    ensures After(events + [ev]) == Step(After(events), ev)
  {
    assert (events + [ev])[..|events|] == events;
  }

  /** Nothing speaks against a pass. */
  const FIT := Look(AtClose, true, true, true, false, false)

  lemma PassStartedByATurn() returns (events: seq<Event>)
    ensures After(events) == State(false, false, None, None, map[], {}, [Started(0)], Some(0),
                                   [Job(false, false, true, Calling)], false, 1, 0)
  {
    var e1 := [TurnTakeE(Owner, false)];
    var e2 := e1 + [TurnReadyE(0, false)];
    var e3 := e2 + [TurnPrepareE(0, FIT, false, true)];
    AfterOneMore([], TurnTakeE(Owner, false));
    assert [] + [TurnTakeE(Owner, false)] == e1;
    AfterOneMore(e1, TurnReadyE(0, false));
    AfterOneMore(e2, TurnPrepareE(0, FIT, false, true));
    AfterOneMore(e3, TurnEndE(0, true));
    events := e3 + [TurnEndE(0, true)];
    assert map[0 := OpenTurn(Owner, true, Some(0))] - {0} == map[];
  }

  lemma NextTurnDropsThePass() returns (events: seq<Event>)
    ensures After(events) == State(false, false, Some(Turn(1)), Some(1), map[1 := OpenTurn(Owner, true, None)], {},
                                   [Started(0)], Some(0), [Job(false, true, true, Calling)], true, 2, 0)
  {
    var e4 := PassStartedByATurn();
    var e5 := e4 + [TurnTakeE(Owner, false)];
    AfterOneMore(e4, TurnTakeE(Owner, false));
    AfterOneMore(e5, TurnReadyE(1, false));
    events := e5 + [TurnReadyE(1, false)];
  }

  /** A pass dropped by the next owner turn, which prepares none: the case is owed one. */
  lemma DroppedPassIsOwed() returns (events: seq<Event>)
    ensures After(events) == State(false, false, None, None, map[], {}, [Started(0)], None,
                                   [Job(false, true, true, Done(Dropped))], true, 2, 0)
  {
    var e6 := NextTurnDropsThePass();
    var e7 := e6 + [JobResumeE(0, false, false, false)];
    var e8 := e7 + [JobSettleE(0)];
    AfterOneMore(e6, JobResumeE(0, false, false, false));
    AfterOneMore(e7, JobSettleE(0));
    AfterOneMore(e8, TurnEndE(1, true));
    events := e8 + [TurnEndE(1, true)];
    assert map[1 := OpenTurn(Owner, true, None)] - {1} == map[];
  }

  /** The owner's check starts next, and starting it clears the debt. */
  lemma CheckClearsTheDebt() returns (events: seq<Event>)
    ensures After(events) == State(false, false, None, None, map[], {}, [Started(0), Started(1)], Some(1),
                                   [Job(false, true, true, Done(Dropped)), Job(true, false, true, Calling)],
                                   false, 2, 0)
  {
    var e9 := DroppedPassIsOwed();
    var e10 := e9 + [CheckPrepareE(FIT, false)];
    var e11 := e10 + [ActionEndE];
    AfterOneMore(e9, CheckPrepareE(FIT, false));
    AfterOneMore(e10, ActionEndE);
    AfterOneMore(e11, CheckContinueE(1));
    events := e11 + [CheckContinueE(1)];
  }

  /** The one way a debt goes unpaid: the check that cleared it is stopped by the owner, and nothing restores it. */
  lemma StoppedCheckForgetsAnOlderDebt() returns (events: seq<Event>)
    ensures After(events) == State(false, false, None, None, map[], {}, [Started(0), Started(1)], None,
                                   [Job(false, true, true, Done(Dropped)), Job(true, true, false, Done(Dropped))],
                                   false, 2, 0)
  {
    var e12 := CheckClearsTheDebt();
    var e13 := e12 + [OwnerStopE];
    var e14 := e13 + [JobResumeE(1, false, false, false)];
    AfterOneMore(e12, OwnerStopE);
    AfterOneMore(e13, JobResumeE(1, false, false, false));
    AfterOneMore(e14, JobSettleE(1));
    events := e14 + [JobSettleE(1)];
  }
}
