/**
 * What every run of the verify pass keeps: a pass writes only while it is the newest thing known about its case, and
 * debts are not lost.
 */
module VerifyPassRuns {
  import opened Basics
  import opened VerifyPass

  /** A pass that may still write its verdicts. */
  predicate CanLand(job: Job) {
    job.stage == Calling && !job.superseded
  }

  /**
   * A pass that ended without its verdicts, or is bound to, though the case stayed open and the owner did not stop
   * it.
   */
  predicate Lost(job: Job, closing: bool) {
    && job.owed
    && match job.stage
       case Calling => job.superseded && !closing
       case Finishing(outcome) => outcome.Dropped?
       case Done(outcome) => outcome.Dropped? || outcome.Threw?
  }

  /** Some turn, action or check still carries the plan. */
  ghost predicate Carried(s: State, p: nat) {
    || p in s.checks
    || s.held == Some(Check(p))
    || exists id {:trigger id in s.open} :: id in s.open && s.open[id].plan == Some(p)
  }

  /** What became of a counted pass. The last two cases are the debt: `owed`, or a pass that started since. */
  ghost predicate Accounted(s: State, p: nat)
    requires p < |s.plans|
  {
    match s.plans[p]
    case Waiting => Carried(s, p)
    case Started(j) => j < |s.jobs| && (Lost(s.jobs[j], s.closing) ==> s.owed || j + 1 < |s.jobs|)
    case GivenUp(n) => n <= |s.jobs| && (s.owed || n < |s.jobs|)
  }

  ghost predicate JobsOk(jobs: seq<Job>, verifying: Option<nat>, owed: bool, closing: bool) {
    && (verifying.Some? ==> verifying.value + 1 == |jobs|)
    && (forall j {:trigger jobs[j]} | 0 <= j < |jobs| && CanLand(jobs[j]) :: verifying == Some(j))
    && (|jobs| > 0 && Lost(jobs[|jobs| - 1], closing) ==> owed)
  }

  ghost predicate PlansOk(s: State) {
    forall p: nat {:trigger s.plans[p]} | p < |s.plans| :: Accounted(s, p)
  }

  ghost predicate Inv(s: State) {
    && PlansInRange(s) && JobsOk(s.jobs, s.verifying, s.owed, s.closing) && PlansOk(s)
    && (forall id {:trigger id in s.open} | id in s.open :: id < s.nextTurn)
  }

  // ---- How jobs move ----

  /** No job is forgotten, un-superseded or called again, and every job that was already lost stays as it was. */
  ghost predicate JobsMove(s: seq<Job>, t: seq<Job>) {
    && |s| <= |t|
    && (forall j {:trigger t[j]} | 0 <= j < |s| ::
          && (s[j].superseded ==> t[j].superseded)
          && (s[j].stage != Calling ==> t[j].stage != Calling))
  }

  lemma SupersedeOk(s: State)
    requires JobsOk(s.jobs, s.verifying, s.owed, s.closing)
    ensures var t := Supersede(s);
            && JobsOk(t.jobs, t.verifying, t.owed, t.closing) && JobsMove(s.jobs, t.jobs) && |t.jobs| == |s.jobs|
            && (forall j {:trigger t.jobs[j]} | 0 <= j < |t.jobs| :: !CanLand(t.jobs[j]))
            && (forall j {:trigger t.jobs[j]} | 0 <= j < |t.jobs| :: t.jobs[j].stage == s.jobs[j].stage)
            && t == s.(jobs := t.jobs, owed := t.owed) && (s.owed ==> t.owed)
  {
  }

  lemma StopCheckOk(s: State)
    requires JobsOk(s.jobs, s.verifying, s.owed, s.closing)
    ensures var t := StopCheck(s);
            && JobsOk(t.jobs, t.verifying, t.owed, t.closing) && JobsMove(s.jobs, t.jobs) && |t.jobs| == |s.jobs|
            && (forall j {:trigger t.jobs[j]} | 0 <= j < |t.jobs| :: t.jobs[j].stage == s.jobs[j].stage)
            && t == s.(jobs := t.jobs)
  {
  }

  lemma StartOk(s: State, plan: nat, check: bool)
    requires JobsOk(s.jobs, s.verifying, s.owed, s.closing) && plan < |s.plans|
    ensures var t := Start(s, plan, check);
            && JobsOk(t.jobs, t.verifying, t.owed, t.closing) && JobsMove(s.jobs, t.jobs) && |t.jobs| == |s.jobs| + 1
            && (forall j {:trigger t.jobs[j]} | 0 <= j < |s.jobs| :: !CanLand(t.jobs[j]))
            && (forall j {:trigger t.jobs[j]} | 0 <= j < |s.jobs| :: t.jobs[j].stage == s.jobs[j].stage)
            && CanLand(t.jobs[|s.jobs|])
            && t == s.(owed := false, verifying := Some(|s.jobs|), jobs := t.jobs,
                plans := s.plans[plan := Started(|s.jobs|)])
  {
    SupersedeOk(s);
  }

  lemma StageMoves(jobs: seq<Job>, verifying: Option<nat>, owed: bool, closing: bool, j: nat, superseded: bool,
      stage: Stage, debt: bool)
    requires JobsOk(jobs, verifying, owed, closing) && j < |jobs| && stage != Calling
    requires (jobs[j].superseded ==> superseded)
    requires (owed ==> debt) && (Lost(jobs[j].(superseded := superseded, stage := stage), closing) ==> debt)
    ensures var moved := jobs[j := jobs[j].(superseded := superseded, stage := stage)];
            JobsOk(moved, verifying, debt, closing) && JobsMove(jobs, moved)
  {
  }

  lemma JobResumeOk(s: State, j: nat, timedOut: bool, foreign: bool, throws: bool)
    requires JobsOk(s.jobs, s.verifying, s.owed, s.closing) && j < |s.jobs|
    ensures var t := JobResume(s, j, timedOut, foreign, throws);
            && JobsOk(t.jobs, t.verifying, t.owed, t.closing) && JobsMove(s.jobs, t.jobs) && |t.jobs| == |s.jobs|
            && t == s.(jobs := t.jobs, owed := t.owed, held := t.held) && (s.owed ==> t.owed)
            && (t.held == s.held || (s.held == None && t.held == Some(Landing(j))))
  {
    var job := s.jobs[j];
    match Resume(job, s.held.Some?, s.closing, s.closed, timedOut, foreign, throws)
    case Waits =>
    case Drops => StageMoves(s.jobs, s.verifying, s.owed, s.closing, j, job.superseded, Finishing(Dropped), s.owed
        || job.owed);
    case GivesUp =>
      StageMoves(s.jobs, s.verifying, s.owed, s.closing, j, true, Finishing(Dropped), s.owed || job.owed);
      assert s.jobs[j := job.(superseded := true)][j := job.(superseded := true, stage := Finishing(Dropped))]
             == s.jobs[j := job.(superseded := true, stage := Finishing(Dropped))];
    case Fails => StageMoves(s.jobs, s.verifying, s.owed, s.closing, j, job.superseded, Finishing(Threw), s.owed);
    case Ends(outcome) => StageMoves(s.jobs, s.verifying, s.owed, s.closing, j, job.superseded, Finishing(outcome),
        s.owed);
  }

  lemma JobSettleOk(s: State, j: nat)
    requires JobsOk(s.jobs, s.verifying, s.owed, s.closing) && j < |s.jobs|
    ensures var t := JobSettle(s, j);
            && JobsOk(t.jobs, t.verifying, t.owed, t.closing) && JobsMove(s.jobs, t.jobs) && |t.jobs| == |s.jobs|
            && t == s.(jobs := t.jobs, owed := t.owed, verifying := t.verifying) && (s.owed ==> t.owed)
  {
  }

  lemma ShutdownOk(s: State)
    requires JobsOk(s.jobs, s.verifying, s.owed, s.closing)
    ensures var t := BeginShutdown(s);
            JobsOk(t.jobs, t.verifying, t.owed, t.closing) && JobsMove(s.jobs, t.jobs) && |t.jobs| == |s.jobs|
  {
  }

  // ---- How plans move ----

  /**
   * Only the newest job can be lost with nothing started since, so what the newest job owes covers every started
   * plan.
   */
  ghost predicate Covered(jobs: seq<Job>, closing: bool, owed: bool) {
    |jobs| > 0 && Lost(jobs[|jobs| - 1], closing) ==> owed
  }

  /** Plans that keep their place keep their account while a debt is only ever cleared by a new job. */
  lemma PlansKept(s: State, t: State)
    requires PlansOk(s) && t.plans == s.plans && |s.jobs| <= |t.jobs|
    requires Covered(t.jobs, t.closing, t.owed)
    requires (s.owed ==> t.owed) || |s.jobs| < |t.jobs|
    requires forall p: nat | p < |s.plans| && Carried(s, p) :: Carried(t, p)
    ensures PlansOk(t)
  {
    forall p: nat | p < |t.plans| ensures Accounted(t, p) {
      assert Accounted(s, p);
    }
  }

  /** Likewise when one more plan is prepared and carried. */
  lemma PlanAdded(s: State, t: State)
    requires PlansOk(s) && t.plans == s.plans + [Waiting] && t.jobs == s.jobs && t.closing == s.closing
    requires t.owed == s.owed
    requires forall p: nat | p < |s.plans| && Carried(s, p) :: Carried(t, p)
    requires Carried(t, |s.plans|)
    ensures PlansOk(t)
  {
    forall p: nat | p < |t.plans| ensures Accounted(t, p) {
      if p < |s.plans| {
        assert Accounted(s, p);
      }
    }
  }

  /** Likewise when one plan is started, or given up and owed. */
  lemma PlanDecided(s: State, t: State, plan: nat)
    requires PlansOk(s) && plan < |s.plans| && |s.jobs| <= |t.jobs|
    requires |t.plans| == |s.plans| && t.plans == s.plans[plan := t.plans[plan]]
    requires || (t.plans[plan] == GivenUp(|s.jobs|) && t.owed && t.jobs == s.jobs && t.closing == s.closing)
             || (t.plans[plan] == Started(|s.jobs|) && |t.jobs| == |s.jobs| + 1 && !Lost(t.jobs[|s.jobs|], t.closing))
    requires forall p: nat | p < |s.plans| && p != plan && Carried(s, p) :: Carried(t, p)
    ensures PlansOk(t)
  {
    forall p: nat | p < |t.plans| ensures Accounted(t, p) {
      assert Accounted(s, p);
    }
  }

  // ---- Every step keeps the invariant ----

  /** Plans stay carried while the turns and checks that carry them stay. */
  lemma CarriersKept(s: State, t: State)
    requires s.checks <= t.checks
    requires s.held.Some? && s.held.value.Check? ==> t.held == s.held || s.held.value.plan in t.checks
    requires forall id {:trigger id in s.open} | id in s.open && s.open[id].plan.Some? ::
          id in t.open && t.open[id].plan == s.open[id].plan
    ensures forall p: nat | Carried(s, p) :: Carried(t, p)
  {
    forall p: nat | Carried(s, p) ensures Carried(t, p) {
      if id :| id in s.open && s.open[id].plan == Some(p) {
        assert id in t.open;
      }
    }
  }

  lemma TurnTakeOk(s: State, source: Source, foreign: bool)
    requires Inv(s)
    ensures Inv(TurnTake(s, source, foreign)) && JobsMove(s.jobs, TurnTake(s, source, foreign).jobs)
  {
    var t := TurnTake(s, source, foreign);
    if t.nextTurn != s.nextTurn {
      SupersedeOk(s.(held := Some(Turn(s.nextTurn)), open := s.open[s.nextTurn := OpenTurn(source, false, None)],
          nextTurn := s.nextTurn + 1));
      CarriersKept(s, t);
      PlansKept(s, t);
    }
  }

  lemma TurnReadyOk(s: State, id: nat, failed: bool)
    requires Inv(s)
    ensures Inv(TurnReady(s, id, failed)) && TurnReady(s, id, failed).jobs == s.jobs
  {
    if id in s.open && !s.open[id].begun {
      var t := TurnReady(s, id, failed);
      if id in t.open {
        assert t.open == s.open[id := s.open[id].(begun := true)];
      } else {
        assert t.open == s.open - {id};
      }
      CarriersKept(s, t);
      PlansKept(s, t);
      assert PlansInRange(t);
    }
  }

  lemma TurnPrepareOk(s: State, id: nat, look: Look, stopped: bool, written: bool)
    requires Inv(s)
    ensures var t := TurnPrepare(s, id, look, stopped, written); Inv(t) && t.jobs == s.jobs
  {
    var t := TurnPrepare(s, id, look, stopped, written);
    if t != s {
      CarriersKept(s, t);
      assert id in t.open && t.open[id].plan == Some(|s.plans|);
      PlanAdded(s, t);
    }
  }

  /** The turn or check that carried the plan is over; every other plan stays where it was. */
  lemma OtherCarriersKept(s: State, t: State, plan: nat)
    requires s.checks - {plan} <= t.checks
    requires s.held.Some? && s.held.value.Check? ==> t.held == s.held
    requires forall id {:trigger id in s.open} |
               id in s.open && s.open[id].plan.Some? && s.open[id].plan != Some(plan) ::
               id in t.open && t.open[id].plan == s.open[id].plan
    ensures forall p: nat | Carried(s, p) && p != plan :: Carried(t, p)
  {
    forall p: nat | Carried(s, p) && p != plan ensures Carried(t, p) {
      if id :| id in s.open && s.open[id].plan == Some(p) {
        assert id in t.open;
      }
    }
  }

  lemma DecideOk(s: State, t: State, plan: nat, start: bool, check: bool)
    requires JobsOk(t.jobs, t.verifying, t.owed, t.closing) && PlansOk(s) && plan < |s.plans|
    requires t.plans == s.plans && t.jobs == s.jobs && t.owed == s.owed && t.closing == s.closing
    requires forall p: nat | Carried(s, p) && p != plan :: Carried(t, p)
    ensures var u := if start then Start(t, plan, check) else GiveUp(t, plan);
            && JobsOk(u.jobs, u.verifying, u.owed, u.closing) && PlansOk(u) && JobsMove(s.jobs, u.jobs)
  {
    if start {
      StartOk(t, plan, check);
    }
    var u := if start then Start(t, plan, check) else GiveUp(t, plan);
    SameCarriers(t, u);
    PlanDecided(s, u, plan);
  }

  lemma SameCarriers(s: State, t: State)
    requires t.checks == s.checks && t.held == s.held && t.open == s.open
    ensures forall p: nat :: Carried(s, p) <==> Carried(t, p)
  {
  }

  /** endTurn gives back what it held, before it decides about its plan. */
  function TurnClosed(s: State, id: nat): State {
    Release(s.(open := s.open - {id}, registered := if s.registered == Some(id) then None else s.registered), Turn(id))
  }

  lemma TurnEndOk(s: State, id: nat, committed: bool)
    requires Inv(s)
    ensures Inv(TurnEnd(s, id, committed)) && JobsMove(s.jobs, TurnEnd(s, id, committed).jobs)
  {
    if id in s.open && s.open[id].begun {
      if s.open[id].plan.None? {
        CarriersKept(s, TurnClosed(s, id));
        PlansKept(s, TurnClosed(s, id));
      } else {
        OtherCarriersKept(s, TurnClosed(s, id), s.open[id].plan.value);
        TurnEndDecides(s, id, committed);
      }
    }
  }

  lemma TurnEndDecides(s: State, id: nat, committed: bool)
    requires Inv(s) && id in s.open && s.open[id].begun && s.open[id].plan.Some?
    requires forall p: nat | Carried(s, p) && p != s.open[id].plan.value :: Carried(TurnClosed(s, id), p)
    ensures Inv(TurnEnd(s, id, committed)) && JobsMove(s.jobs, TurnEnd(s, id, committed).jobs)
  {
    var t := TurnClosed(s, id);
    assert PlansInRange(t) && t.jobs == s.jobs && t.plans == s.plans && t.verifying == s.verifying;
    var plan := s.open[id].plan.value;
    var start := committed && s.registered == Some(id) && !s.closing;
    DecideOk(s, t, plan, start, false);
    DecideKeepsRange(t, plan, start, false);
  }

  lemma DecideKeepsRange(s: State, plan: nat, start: bool, check: bool)
    requires PlansInRange(s) && plan < |s.plans| && JobsInRange(s)
    ensures var u := if start then Start(s, plan, check) else GiveUp(s, plan);
            PlansInRange(u) && u.open == s.open && u.nextTurn == s.nextTurn
  {
  }

  lemma CheckContinueOk(s: State, plan: nat)
    requires Inv(s)
    ensures Inv(CheckContinue(s, plan)) && JobsMove(s.jobs, CheckContinue(s, plan).jobs)
  {
    if plan in s.checks {
      var t := s.(checks := s.checks - {plan});
      OtherCarriersKept(s, t, plan);
      DecideOk(s, t, plan, !(s.closing || s.held.Some? || Running(s)), true);
    }
  }

  lemma LockStepsOk(s: State, ev: Event)
    requires Inv(s) && (ev.ActionTakeE? || ev.ActionEndE? || ev.CheckPrepareE? || ev.ReleaseAllE?)
    ensures Inv(Step(s, ev)) && Step(s, ev).jobs == s.jobs
  {
    var t := Step(s, ev);
    CarriersKept(s, t);
    if t.plans == s.plans {
      PlansKept(s, t);
    } else {
      PlanAdded(s, t);
    }
  }

  /** A step that moves only jobs, the debt and the lock keeps every plan's account. */
  lemma JobsMoved(s: State, t: State)
    requires Inv(s) && JobsOk(t.jobs, t.verifying, t.owed, t.closing) && |t.jobs| == |s.jobs| && (s.owed ==> t.owed)
    requires t.plans == s.plans && t.open == s.open && t.checks == s.checks && t.nextTurn == s.nextTurn
    requires t.held == s.held || (s.held == None && t.held.Some? && t.held.value.Landing?)
    ensures Inv(t)
  {
    CarriersKept(s, t);
    PlansKept(s, t);
  }

  lemma JobStepsOk(s: State, ev: Event)
    requires Inv(s) && (ev.StatusE? || ev.OwnerStopE? || ev.JobResumeE? || ev.JobSettleE? || ev.ShutdownE?)
    ensures Inv(Step(s, ev)) && JobsMove(s.jobs, Step(s, ev).jobs)
  {
    match ev
    case StatusE(closed, _) =>
      StopCheckOk(s.(closed := closed));
      JobsMoved(s, Step(s, ev));
    case OwnerStopE =>
      StopCheckOk(s);
      JobsMoved(s, Step(s, ev));
    case JobResumeE(j, timedOut, foreign, throws) =>
      if j < |s.jobs| {
        JobResumeOk(s, j, timedOut, foreign, throws);
        JobsMoved(s, Step(s, ev));
      }
    case JobSettleE(j) =>
      if j < |s.jobs| {
        JobSettleOk(s, j);
        JobsMoved(s, Step(s, ev));
      }
    case ShutdownE =>
      ShutdownOk(s);
      JobsMoved(s, Step(s, ev));
  }

  lemma StepKeepsInv(s: State, ev: Event)
    requires Inv(s)
    ensures Inv(Step(s, ev)) && JobsMove(s.jobs, Step(s, ev).jobs)
  {
    match ev
    case TurnTakeE(source, foreign) => TurnTakeOk(s, source, foreign);
    case TurnReadyE(id, failed) => TurnReadyOk(s, id, failed);
    case TurnPrepareE(id, look, stopped, written) => TurnPrepareOk(s, id, look, stopped, written);
    case TurnEndE(id, committed) => TurnEndOk(s, id, committed);
    case CheckContinueE(plan) => CheckContinueOk(s, plan);
    case ActionTakeE(_) => LockStepsOk(s, ev);
    case ActionEndE => LockStepsOk(s, ev);
    case CheckPrepareE(_, _) => LockStepsOk(s, ev);
    case ReleaseAllE => LockStepsOk(s, ev);
    case _ => JobStepsOk(s, ev);
  }

  // ---- Every run ----

  ghost function After(events: seq<Event>): (s: State)
    ensures Inv(s)
  {
    if events == [] then Initial()
    else
      var before := After(events[..|events| - 1]);
      StepKeepsInv(before, events[|events| - 1]);
      Step(before, events[|events| - 1])
  }

  predicate TurnTook(s: State, t: State) {
    t.nextTurn > s.nextTurn
  }

  predicate PassStarted(s: State, t: State) {
    |t.jobs| > |s.jobs|
  }

  /** The step in which pass j applies its reply, whole or (when the write fails) in part. */
  predicate Writes(s: State, t: State, j: nat) {
    && j < |s.jobs| <= |t.jobs| && s.jobs[j].stage == Calling
    && (t.jobs[j].stage == Finishing(Landed) || t.jobs[j].stage == Finishing(Threw))
  }

  /** Taking the case for a turn, or starting a pass: no older pass keeps its place, and none leaves its call by it. */
  ghost predicate Drops(s: State, t: State) {
    && |s.jobs| <= |t.jobs|
    && (forall j {:trigger t.jobs[j]} | 0 <= j < |s.jobs| ::
          t.jobs[j].stage == s.jobs[j].stage && (TurnTook(s, t) || PassStarted(s, t) ==> !CanLand(t.jobs[j])))
  }

  lemma TurnTakeDrops(s: State, source: Source, foreign: bool)
    requires Inv(s)
    ensures Drops(s, TurnTake(s, source, foreign))
  {
    SupersedeOk(s.(held := Some(Turn(s.nextTurn)), open := s.open[s.nextTurn := OpenTurn(source, false, None)],
        nextTurn := s.nextTurn + 1));
  }

  lemma TurnEndDrops(s: State, id: nat, committed: bool)
    requires Inv(s)
    ensures Drops(s, TurnEnd(s, id, committed))
  {
    if id in s.open && s.open[id].plan.Some? {
      StartOk(TurnClosed(s, id), s.open[id].plan.value, false);
    }
  }

  lemma CheckContinueDrops(s: State, plan: nat)
    requires Inv(s)
    ensures Drops(s, CheckContinue(s, plan))
  {
    if plan in s.checks {
      StartOk(s.(checks := s.checks - {plan}), plan, true);
    }
  }

  lemma TakingDropsEveryPass(s: State, ev: Event)
    requires Inv(s) && (TurnTook(s, Step(s, ev)) || PassStarted(s, Step(s, ev)))
    ensures |s.jobs| <= |Step(s, ev).jobs|
    ensures forall j {:trigger Step(s, ev).jobs[j]} | 0 <= j < |s.jobs| :: !CanLand(Step(s, ev).jobs[j])
  {
    match ev
    case TurnTakeE(source, foreign) => TurnTakeDrops(s, source, foreign);
    case TurnEndE(id, committed) => TurnEndDrops(s, id, committed);
    case CheckContinueE(plan) => CheckContinueDrops(s, plan);
    case _ =>
  }

  /** Only a pass's own resuming moves it out of its call. */
  lemma OthersLeaveItCalling(s: State, ev: Event, j: nat)
    requires Inv(s) && !ev.JobResumeE? && j < |s.jobs| && s.jobs[j].stage == Calling
    ensures j < |Step(s, ev).jobs| && Step(s, ev).jobs[j].stage == Calling
  {
    match ev
    case TurnTakeE(source, foreign) => TurnTakeDrops(s, source, foreign);
    case TurnEndE(id, committed) => TurnEndDrops(s, id, committed);
    case CheckContinueE(plan) => CheckContinueDrops(s, plan);
    case StatusE(closed, _) => StopCheckOk(s.(closed := closed));
    case OwnerStopE => StopCheckOk(s);
    case _ =>
  }

  /**
   * A pass writes only when it may land: it is the one registered, nothing superseded it, and the lock was free and
   * is now its own.
   */
  lemma WriteChecks(s: State, ev: Event, j: nat)
    requires Inv(s) && Writes(s, Step(s, ev), j)
    ensures CanLand(s.jobs[j]) && s.verifying == Some(j) && j + 1 == |s.jobs| && !s.closing && s.held == None
    ensures Step(s, ev).jobs[j].stage == Finishing(Landed) ==> !s.closed && Step(s, ev).held == Some(Landing(j))
  {
    if !ev.JobResumeE? {
      OthersLeaveItCalling(s, ev, j);
    }
  }

  lemma {:induction false} CannotLandAgain(events: seq<Event>, m: nat, j: nat)
    requires m <= |events| && j < |After(events[..m]).jobs| && !CanLand(After(events[..m]).jobs[j])
    ensures j < |After(events).jobs| && !CanLand(After(events).jobs[j])
  {
    if m < |events| {
      assert events[..|events| - 1][..m] == events[..m];
      CannotLandAgain(events[..|events| - 1], m, j);
      StepKeepsInv(After(events[..|events| - 1]), events[|events| - 1]);
    } else {
      assert events[..m] == events;
    }
  }

  /**
   * A pass that writes at step k is the newest thing known about its case: since the step that started it no turn took
   * the case and no pass started, the service is not closing, and this process held nothing of the case.
   */
  lemma LandingIsNewest(events: seq<Event>, k: nat, j: nat)
    requires k < |events| && Writes(After(events[..k]), After(events[..k + 1]), j)
    ensures var s := After(events[..k]);
            && CanLand(s.jobs[j]) && j + 1 == |s.jobs| && !s.closing && s.held == None
            && (After(events[..k + 1]).jobs[j].stage == Finishing(Landed) ==>
                  !s.closed && After(events[..k + 1]).held == Some(Landing(j)))
    ensures forall m: nat {:trigger After(events[..m])} | m < k && j < |After(events[..m]).jobs| ::
              !TurnTook(After(events[..m]), After(events[..m + 1]))
                  && !PassStarted(After(events[..m]), After(events[..m + 1]))
  {
    assert events[..k + 1][..k] == events[..k];
    WriteChecks(After(events[..k]), events[k], j);
    forall m: nat | m < k && j < |After(events[..m]).jobs|
      ensures !TurnTook(After(events[..m]), After(events[..m + 1]))
      ensures !PassStarted(After(events[..m]), After(events[..m + 1]))
    {
      if TurnTook(After(events[..m]), After(events[..m + 1]))
          || PassStarted(After(events[..m]), After(events[..m + 1])) {
        assert events[..m + 1][..m] == events[..m];
        TakingDropsEveryPass(After(events[..m]), events[m]);
        assert events[..k][..m + 1] == events[..m + 1];
        CannotLandAgain(events[..k], m + 1, j);
      }
    }
  }

  /** At most one pass of the case is ever able to land, and it is the newest one. */
  lemma AtMostOnePassCanLand(events: seq<Event>, i: nat, j: nat)
    requires i < |After(events).jobs| && j < |After(events).jobs|
    requires CanLand(After(events).jobs[i]) && CanLand(After(events).jobs[j])
    ensures i == j == |After(events).jobs| - 1
  {
    var s := After(events);
    assert CanLand(s.jobs[i]) && CanLand(s.jobs[j]);
  }

  /** A wake-up never takes the case from a pass that may still land, and takes none once the service is closing. */
  lemma WakeupWaitsForThePass(s: State, foreign: bool, j: nat)
    requires Inv(s) && TurnTook(s, TurnTake(s, Wakeup, foreign)) && j < |s.jobs|
    ensures !CanLand(s.jobs[j]) && !s.closing
  {
  }
}
