/**
 * The verify pass that runs after a turn (src/cases/case-runtime.js): one case of one process, as the
 * steps its methods take between awaits. Turns, wake-ups, system actions, "Check now", Stop, a close
 * and shutdown interleave with a pass that holds no lock while its model call is out.
 */
module VerifyPass {
  import opened Basics

  datatype Source = Owner | Wakeup

  /** Who in this process holds the case lock. A landing is the system action in which a pass writes. */
  datatype Holder = Turn(id: nat) | Action(id: nat) | Check(plan: nat) | Landing(job: nat)

  /** Calling: the model call is out, or it is back and waits for the lock. Finishing: decided, not yet settled. */
  datatype Stage = Calling | Finishing(outcome: Ending) | Done(outcome: Ending)

  /** Threw: the landing began to write and failed. */
  datatype Ending = Landed | CaseClosed | Threw | Dropped

  /** owed: false once the owner stopped the check. */
  datatype Job = Job(check: bool, superseded: bool, owed: bool, stage: Stage)

  /** What became of a pass that was prepared and counted. Given up: never started, when this many jobs existed. */
  datatype Plan = Waiting | Started(job: nat) | GivenUp(jobs: nat)

  /** begun: beginTurn has returned. plan: the pass its close has prepared. */
  datatype OpenTurn = OpenTurn(source: Source, begun: bool, plan: Option<nat>)

  /** open: turns that took the case and have not ended. checks: plans between their commit and their start. */
  datatype State = State(
    closing: bool, closed: bool, held: Option<Holder>, registered: Option<nat>,
    open: map<nat, OpenTurn>, checks: set<nat>, plans: seq<Plan>,
    verifying: Option<nat>, jobs: seq<Job>, owed: bool, nextTurn: nat, nextAction: nat)

  function Initial(): State {
    State(false, false, None, None, map[], {}, [], None, [], false, 0, 0)
  }

  predicate JobsInRange(s: State) {
    s.verifying.Some? ==> s.verifying.value < |s.jobs|
  }

  /** verifyRunning: a pass is registered that is neither over nor superseded. */
  predicate Running(s: State)
    requires JobsInRange(s)
  {
    s.verifying.Some? && !s.jobs[s.verifying.value].stage.Done? && !s.jobs[s.verifying.value].superseded
  }

  /** _supersedeVerify */
  function Supersede(s: State): State
    requires JobsInRange(s)
  {
    if !Running(s) then s
    else s.(jobs := s.jobs[s.verifying.value := s.jobs[s.verifying.value].(superseded := true)], owed := true)
  }

  /** _stopCheck: reaches only the check the owner asked for, and leaves no debt. */
  function StopCheck(s: State): State
    requires JobsInRange(s)
  {
    if !Running(s) || !s.jobs[s.verifying.value].check then s
    else s.(jobs := s.jobs[s.verifying.value := s.jobs[s.verifying.value].(superseded := true, owed := false)])
  }

  /** _startVerifyPass */
  function Start(s: State, plan: nat, check: bool): State
    requires JobsInRange(s) && plan < |s.plans|
  {
    var t := Supersede(s);
    t.(owed := false, verifying := Some(|t.jobs|), jobs := t.jobs + [Job(check, false, true, Calling)],
       plans := t.plans[plan := Started(|t.jobs|)])
  }

  function GiveUp(s: State, plan: nat): State
    requires plan < |s.plans|
  {
    s.(owed := true, plans := s.plans[plan := GivenUp(|s.jobs|)])
  }

  function Release(s: State, holder: Holder): State {
    if s.held == Some(holder) then s.(held := None) else s
  }

  // ---- Turns ----

  /** One attempt to take the case for a turn. `foreign`: another process holds the lock. */
  function TurnTake(s: State, source: Source, foreign: bool): State
    requires JobsInRange(s)
  {
    if source.Wakeup? && (s.closing || Running(s)) then s
    else if s.held.Some? || foreign then s
    else
      Supersede(s.(held := Some(Turn(s.nextTurn)), open := s.open[s.nextTurn := OpenTurn(source, false, None)],
                   nextTurn := s.nextTurn + 1))
  }

  /** beginTurn after its awaits: the turn is registered, or it failed to begin and gives the lock back. */
  function TurnReady(s: State, id: nat, failed: bool): State {
    if id !in s.open || s.open[id].begun then s
    else if failed || (s.open[id].source.Wakeup? && s.closing) then Release(s.(open := s.open - {id}), Turn(id))
    else s.(registered := Some(id), open := s.open[id := s.open[id].(begun := true)])
  }

  /** Why no pass is prepared, in the order in which it is looked for. */
  datatype Reason = Closing | CaseIsClosed | SwitchedOff | OnRequestOnly | Stopped | NothingWritten | NotOpen
    | NoCriterion | NoModel | DailyCap | UsdBudget | CheckOut | CaseHeld

  datatype When = Never | OnRequest | AtClose

  /**
   * What the settings and the records say. open: the case is active or waits for direction; confirmed: a success
   * criterion is; model: the case's policy leaves one to ask; capped: the day's passes are used; spent: so much of the
   * usd budget is that no pass runs.
   */
  datatype Look = Look(when: When, open: bool, confirmed: bool, model: bool, capped: bool, spent: bool)

  /** Why the close of a turn skips the pass. written: the turn wrote something, or its check command ran. */
  function Skipped(s: State, look: Look, stopped: bool, written: bool): Option<Reason> {
    if s.closed then Some(CaseIsClosed)
    else if look.when.Never? then Some(SwitchedOff)
    else if look.when.OnRequest? then Some(OnRequestOnly)
    else if stopped then Some(Stopped)
    else if s.closing then Some(Closing)
    else if !s.owed && !written then Some(NothingWritten)
    else if !look.open then Some(NotOpen)
    else if !look.confirmed then Some(NoCriterion)
    else if !look.model then Some(NoModel)
    else if look.capped then Some(DailyCap)
    else if look.spent then Some(UsdBudget)
    else None
  }

  /** endTurn's close steps: a pass is prepared and counted under the turn's lock, unless something skips it. */
  function TurnPrepare(s: State, id: nat, look: Look, stopped: bool, written: bool): State {
    if id !in s.open || !s.open[id].begun || s.open[id].plan.Some? || Skipped(s, look, stopped, written).Some? then s
    else s.(open := s.open[id := s.open[id].(plan := Some(|s.plans|))], plans := s.plans + [Waiting])
  }

  /** endTurn's last segment, after its commit: release, then start the prepared pass or owe it. */
  function TurnEnd(s: State, id: nat, committed: bool): State
    requires JobsInRange(s) && PlansInRange(s)
  {
    if id !in s.open || !s.open[id].begun then s
    else
      var owned := s.registered == Some(id);
      var plan := s.open[id].plan;
      var t := Release(s.(open := s.open - {id}, registered := if owned then None else s.registered), Turn(id));
      if plan.None? then t
      else if committed && owned && !s.closing then Start(t, plan.value, false)
      else GiveUp(t, plan.value)
  }

  predicate PlansInRange(s: State) {
    && (forall id {:trigger id in s.open} | id in s.open && s.open[id].plan.Some? ::
          s.open[id].begun && s.open[id].plan.value < |s.plans|)
    && (forall p {:trigger p in s.checks} | p in s.checks :: p < |s.plans|)
    && (s.held.Some? && s.held.value.Check? ==> s.held.value.plan < |s.plans|)
  }

  // ---- System actions ----

  /** systemAction takes the lock; inside a lock this process holds it runs inline instead. */
  function ActionTake(s: State, foreign: bool): State {
    if s.held.Some? || foreign then s
    else s.(held := Some(Action(s.nextAction)), nextAction := s.nextAction + 1)
  }

  function ActionEnd(s: State): State {
    match s.held
    case Some(Action(_)) => s.(held := None)
    case Some(Check(plan)) => s.(held := None, checks := s.checks + {plan})
    case Some(Landing(_)) => s.(held := None)
    case _ => s
  }

  /** setStatus: a pause or a close reaches the owner's check; `closed` is whether the case is now done or abandoned. */
  function StatusSet(s: State, closed: bool, stopsWork: bool): State
    requires JobsInRange(s)
  {
    var t := s.(closed := closed);
    if stopsWork then StopCheck(t) else t
  }

  /** Stop from the chat: the running turn is told, else the owner's check is stopped. */
  function OwnerStop(s: State): State
    requires JobsInRange(s)
  {
    if s.registered.Some? then s else StopCheck(s)
  }

  // ---- "Check now" ----

  /** Why "Check now" is refused. */
  function Refused(s: State, look: Look, foreign: bool): Option<Reason>
    requires JobsInRange(s)
  {
    if s.closing then Some(Closing)
    else if s.closed then Some(CaseIsClosed)
    else if look.when.Never? then Some(SwitchedOff)
    else if !look.open then Some(NotOpen)
    else if !look.confirmed then Some(NoCriterion)
    else if look.capped then Some(DailyCap)
    else if look.spent then Some(UsdBudget)
    else if Running(s) then Some(CheckOut)
    else if s.held.Some? then Some(CaseHeld)
    else if !look.model then Some(NoModel)
    else if foreign then Some(CaseHeld)
    else None
  }

  /** verifyNow up to its commit: refused, or the pass is prepared under the lock. */
  function CheckPrepare(s: State, look: Look, foreign: bool): State
    requires JobsInRange(s)
  {
    if Refused(s, look, foreign).Some? then s
    else s.(held := Some(Check(|s.plans|)), plans := s.plans + [Waiting])
  }

  /** verifyNow after its commit: something may have taken the case in between. */
  function CheckContinue(s: State, plan: nat): State
    requires JobsInRange(s) && PlansInRange(s)
  {
    if plan !in s.checks then s
    else
      var t := s.(checks := s.checks - {plan});
      if s.closing || s.held.Some? || Running(s) then GiveUp(t, plan)
      else Start(t, plan, true)
  }

  // ---- The pass itself ----

  function SetStage(s: State, j: nat, stage: Stage): State
    requires j < |s.jobs|
  {
    s.(jobs := s.jobs[j := s.jobs[j].(stage := stage)])
  }

  /** A pass that is dropped is owed to the next verified close, unless the owner stopped it. */
  function Drop(s: State, j: nat): State
    requires j < |s.jobs|
  {
    SetStage(s.(owed := s.owed || s.jobs[j].owed), j, Finishing(Dropped))
  }

  datatype Resumed = Waits | Drops | GivesUp | Fails | Ends(outcome: Ending)

  /**
   * What _runVerifyJob finds each time it resumes with the reply: dropped if superseded or closing; while this process
   * holds the case it waits, up to a limit; else it takes the lock and writes, all in one step.
   */
  function Resume(job: Job, held: bool, closing: bool, closed: bool, timedOut: bool, foreign: bool,
      throws: bool): Resumed {
    if job.stage != Calling then Waits
    else if job.superseded || closing then Drops
    else if held then (if timedOut then GivesUp else Waits)
    else if foreign then Fails
    else if closed then Ends(CaseClosed)
    else if throws then Fails
    else Ends(Landed)
  }

  function JobResume(s: State, j: nat, timedOut: bool, foreign: bool, throws: bool): State
    requires j < |s.jobs|
  {
    match Resume(s.jobs[j], s.held.Some?, s.closing, s.closed, timedOut, foreign, throws)
    case Waits => s
    case Drops => Drop(s, j)
    case GivesUp => Drop(s.(jobs := s.jobs[j := s.jobs[j].(superseded := true)]), j)
    case Fails => SetStage(s, j, Finishing(Threw))
    case Ends(outcome) => SetStage(s.(held := Some(Landing(j))), j, Finishing(outcome))
  }

  /** The job's promise settles, once its system action has released the case. */
  function JobSettle(s: State, j: nat): State
    requires j < |s.jobs|
  {
    match s.jobs[j].stage
    case Finishing(outcome) =>
      if s.held == Some(Landing(j)) then s
      else
        SetStage(s.(owed := s.owed || outcome.Threw?,
                    verifying := if s.verifying == Some(j) then None else s.verifying), j, Done(outcome))
    case _ => s
  }

  // ---- Shutdown ----

  function SupersedeAll(jobs: seq<Job>): seq<Job> {
    seq(|jobs|, i requires 0 <= i < |jobs| => if jobs[i].stage.Done? then jobs[i] else jobs[i].(superseded := true))
  }

  function BeginShutdown(s: State): State {
    s.(closing := true, jobs := SupersedeAll(s.jobs))
  }

  /** A check whose commit was under way still runs on: its plan goes to the segment after its commit. */
  function ReleaseAll(s: State): State {
    s.(held := None, registered := None,
       checks := if s.held.Some? && s.held.value.Check? then s.checks + {s.held.value.plan} else s.checks)
  }

  // ---- Runs ----

  datatype Event =
    | TurnTakeE(source: Source, foreign: bool)
    | TurnReadyE(id: nat, failed: bool)
    | TurnPrepareE(id: nat, look: Look, stopped: bool, written: bool)
    | TurnEndE(id: nat, committed: bool)
    | ActionTakeE(foreign: bool)
    | ActionEndE
    | StatusE(closed: bool, stopsWork: bool)
    | OwnerStopE
    | CheckPrepareE(look: Look, foreign: bool)
    | CheckContinueE(plan: nat)
    | JobResumeE(job: nat, timedOut: bool, foreign: bool, throws: bool)
    | JobSettleE(job: nat)
    | ShutdownE
    | ReleaseAllE

  predicate Ready(s: State) {
    JobsInRange(s) && PlansInRange(s)
  }

  function Step(s: State, ev: Event): State
    requires Ready(s)
  {
    match ev
    case TurnTakeE(source, foreign) => TurnTake(s, source, foreign)
    case TurnReadyE(id, failed) => TurnReady(s, id, failed)
    case TurnPrepareE(id, look, stopped, written) => TurnPrepare(s, id, look, stopped, written)
    case TurnEndE(id, committed) => TurnEnd(s, id, committed)
    case ActionTakeE(foreign) => ActionTake(s, foreign)
    case ActionEndE => ActionEnd(s)
    case StatusE(closed, stopsWork) => StatusSet(s, closed, stopsWork)
    case OwnerStopE => OwnerStop(s)
    case CheckPrepareE(look, foreign) => CheckPrepare(s, look, foreign)
    case CheckContinueE(plan) => CheckContinue(s, plan)
    case JobResumeE(j, timedOut, foreign, throws) => if j < |s.jobs| then JobResume(s, j, timedOut, foreign, throws)
        else s
    case JobSettleE(j) => if j < |s.jobs| then JobSettle(s, j) else s
    case ShutdownE => BeginShutdown(s)
    case ReleaseAllE => ReleaseAll(s)
  }
}
