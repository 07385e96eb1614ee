/** What each step of a turn, a check, a stop or a close does to the case, said whole: all that is not named stays. */
module VerifyPassSteps {
  import opened Basics
  import opened VerifyPass

  // ---- The pass that runs ----

  /** A pass is registered, is not over and may still come to something. */
  predicate PassRuns(s: State)
    requires JobsInRange(s)
  {
    s.verifying.Some? && !s.jobs[s.verifying.value].superseded && !s.jobs[s.verifying.value].stage.Done?
  }

  /** The jobs once the running pass, if there is one, is superseded. */
  function Overtaken(s: State): seq<Job>
    requires JobsInRange(s)
  {
    if PassRuns(s) then s.jobs[s.verifying.value := s.jobs[s.verifying.value].(superseded := true)] else s.jobs
  }

  /** The jobs once the owner's running check, if it is one, is stopped: superseded, and nothing owed of it. */
  function Stopped(s: State): seq<Job>
    requires JobsInRange(s)
  {
    if PassRuns(s) && s.jobs[s.verifying.value].check
    then s.jobs[s.verifying.value := s.jobs[s.verifying.value].(superseded := true, owed := false)]
    else s.jobs
  }

  /** The newest pass, out and not superseded, which overtakes the one before and pays what was owed. */
  function Started(s: State, plan: nat, check: bool): State
    requires Ready(s) && plan < |s.plans|
  {
    s.(owed := false, verifying := Some(|s.jobs|), plans := s.plans[plan := Plan.Started(|s.jobs|)],
       jobs := Overtaken(s) + [Job(check, false, true, Calling)])
  }

  /** A counted pass that will not start: the case is owed one. */
  function GivenUp(s: State, plan: nat): State
    requires plan < |s.plans|
  {
    s.(owed := true, plans := s.plans[plan := Plan.GivenUp(|s.jobs|)])
  }

  /** A new process holds nothing, runs nothing and owes nothing. */
  lemma BeginsFree()
    ensures var s := Initial();
            && !s.closing && !s.closed && !s.owed && s.held.None? && s.registered.None? && s.verifying.None?
            && s.open == map[] && s.checks == {} && s.plans == [] && s.jobs == [] && s.nextTurn == s.nextAction == 0
  {
  }

  // ---- Turns ----

  /** A turn takes a free case; a wake-up does so only where no pass runs and the service is not closing. */
  predicate MayTake(s: State, source: Source, foreign: bool)
    requires JobsInRange(s)
  {
    s.held.None? && !foreign && (source.Wakeup? ==> !PassRuns(s) && !s.closing)
  }

  /** Taking the case overtakes the running pass and owes one for it, in the same step. */
  lemma TakingSays(s: State, source: Source, foreign: bool)
    requires Ready(s)
    ensures Step(s, TurnTakeE(source, foreign))
         == if MayTake(s, source, foreign) then
              s.(held := Some(Turn(s.nextTurn)), nextTurn := s.nextTurn + 1,
                 open := s.open[s.nextTurn := OpenTurn(source, false, None)],
                 jobs := Overtaken(s), owed := s.owed || PassRuns(s))
            else s
  {
  }

  /** A turn that is ready is registered; one that failed, or a wake-up in a closing service, gives the case back. */
  lemma BeginningSays(s: State, id: nat, failed: bool)
    requires Ready(s) && id in s.open && !s.open[id].begun
    ensures var gone := failed || (s.closing && s.open[id].source.Wakeup?);
            var t := Step(s, TurnReadyE(id, failed));
            && (!gone ==> t == s.(registered := Some(id), open := s.open[id := s.open[id].(begun := true)]))
            && (gone ==> t == s.(open := s.open - {id}, held := if s.held == Some(Turn(id)) then None else s.held))
  {
  }

  /** The reasons not to prepare a pass at a close, in the order in which they are given. */
  const SKIPS := [CaseIsClosed, SwitchedOff, OnRequestOnly, Reason.Stopped, Closing, NothingWritten, NotOpen,
    NoCriterion, NoModel, DailyCap, UsdBudget]

  predicate SpeaksAgainst(r: Reason, s: State, look: Look, stopped: bool, written: bool) {
    match r
    case CaseIsClosed => s.closed
    case SwitchedOff => look.when == Never
    case OnRequestOnly => look.when == OnRequest
    case Stopped => stopped
    case Closing => s.closing
    case NothingWritten => !written && !s.owed
    case NotOpen => !look.open
    case NoCriterion => !look.confirmed
    case NoModel => !look.model
    case DailyCap => look.capped
    case UsdBudget => look.spent
    case _ => false
  }

  lemma SkipsAre()
    ensures |SKIPS| == 11 && SKIPS[0] == CaseIsClosed && SKIPS[1] == SwitchedOff && SKIPS[2] == OnRequestOnly
    ensures SKIPS[3] == Reason.Stopped && SKIPS[4] == Closing && SKIPS[5] == NothingWritten && SKIPS[6] == NotOpen
    ensures SKIPS[7] == NoCriterion && SKIPS[8] == NoModel && SKIPS[9] == DailyCap && SKIPS[10] == UsdBudget
  {
  }

  /** A close skips its pass for the first of the eleven reasons that speaks against it, and for no other. */
  lemma SkippedForTheFirst(s: State, look: Look, stopped: bool, written: bool, k: nat)
    requires k < |SKIPS| && SpeaksAgainst(SKIPS[k], s, look, stopped, written)
    requires forall i | 0 <= i < k :: !SpeaksAgainst(SKIPS[i], s, look, stopped, written)
    ensures Skipped(s, look, stopped, written) == Some(SKIPS[k])
  {
    SkipsAre();
  }

  /** Else the close prepares and counts one, once: the turn carries a new plan, and nothing else changes. */
  lemma PreparingSays(s: State, id: nat, look: Look, stopped: bool, written: bool)
    requires Ready(s) && id in s.open && s.open[id].begun && s.open[id].plan.None?
    requires forall r | r in SKIPS :: !SpeaksAgainst(r, s, look, stopped, written)
    ensures Step(s, TurnPrepareE(id, look, stopped, written))
         == s.(open := s.open[id := OpenTurn(s.open[id].source, true, Some(|s.plans|))], plans := s.plans + [Waiting])
    ensures Skipped(s, look, stopped, written).None?
  {
    SkipsAre();
    assert forall i | 0 <= i < 11 :: !SpeaksAgainst(SKIPS[i], s, look, stopped, written);
  }

  /** A turn that has not begun, or that has prepared its pass, prepares none. */
  lemma PreparesOnce(s: State, id: nat, look: Look, stopped: bool, written: bool)
    requires Ready(s) && (id !in s.open || !s.open[id].begun || s.open[id].plan.Some?)
    ensures Step(s, TurnPrepareE(id, look, stopped, written)) == s
  {
  }

  /** A turn's end gives back its own lock and registration; then its plan, if any, is started, or given up and owed. */
  lemma EndingSays(s: State, id: nat, committed: bool)
    requires Ready(s) && id in s.open && s.open[id].begun
    ensures var own := s.registered == Some(id);
            var t := s.(open := s.open - {id}, registered := if own then None else s.registered,
                        held := if s.held == Some(Turn(id)) then None else s.held);
            var after := Step(s, TurnEndE(id, committed));
            && (s.open[id].plan.None? ==> after == t)
            && (s.open[id].plan.Some? && committed && own && !s.closing ==>
                  Ready(t) && after == Started(t, s.open[id].plan.value, false))
            && (s.open[id].plan.Some? && !(committed && own && !s.closing) ==>
                  after == GivenUp(t, s.open[id].plan.value))
  {
    TurnIsOut(s, id);
  }

  lemma TurnIsOut(s: State, id: nat)
    requires Ready(s)
    ensures Ready(s.(open := s.open - {id}, registered := if s.registered == Some(id) then None else s.registered,
                     held := if s.held == Some(Turn(id)) then None else s.held))
  {
  }

  /** Nothing comes of a turn that is not there, or of ending or beginning one twice. */
  lemma NoSuchTurn(s: State, id: nat, failed: bool, committed: bool)
    requires Ready(s)
    ensures id !in s.open || s.open[id].begun ==> Step(s, TurnReadyE(id, failed)) == s
    ensures id !in s.open || !s.open[id].begun ==> Step(s, TurnEndE(id, committed)) == s
  {
  }

  // ---- System actions ----

  /** A system action takes a free case under a fresh number. */
  lemma ActionSays(s: State, foreign: bool)
    requires Ready(s)
    ensures Step(s, ActionTakeE(foreign))
         == if s.held.None? && !foreign
            then s.(held := Some(Action(s.nextAction)), nextAction := s.nextAction + 1)
            else s
  {
  }

  /** What holds the case gives it back, but for a turn; of a check its plan goes on. */
  lemma ActionEndSays(s: State)
    requires Ready(s)
    ensures var t := Step(s, ActionEndE);
            if s.held.None? || s.held.value.Turn? then t == s
            else t == s.(held := None,
                         checks := s.checks + if s.held.value.Check? then {s.held.value.plan} else {})
  {
  }

  // ---- Stop ----

  /** A status that stops work stops the owner's running check; any is remembered as closed or not. */
  lemma StatusSays(s: State, closed: bool, stopsWork: bool)
    requires Ready(s)
    ensures Step(s, StatusE(closed, stopsWork))
         == s.(closed := closed, jobs := if stopsWork then Stopped(s) else s.jobs)
  {
  }

  /** Stop from the chat stops the owner's running check where no turn is registered. */
  lemma StopSays(s: State)
    requires Ready(s)
    ensures Step(s, OwnerStopE) == s.(jobs := if s.registered.None? then Stopped(s) else s.jobs)
  {
  }

  // ---- "Check now" ----

  /** The reasons to refuse a check, in the order in which they are given. */
  const REFUSALS := [Closing, CaseIsClosed, SwitchedOff, NotOpen, NoCriterion, DailyCap, UsdBudget, CheckOut, CaseHeld,
    NoModel]

  predicate Refuses(r: Reason, s: State, look: Look)
    requires JobsInRange(s)
  {
    match r
    case Closing => s.closing
    case CaseIsClosed => s.closed
    case SwitchedOff => look.when == Never
    case NotOpen => !look.open
    case NoCriterion => !look.confirmed
    case DailyCap => look.capped
    case UsdBudget => look.spent
    case CheckOut => PassRuns(s)
    case CaseHeld => s.held.Some?
    case NoModel => !look.model
    case _ => false
  }

  lemma RefusalsAre()
    ensures |REFUSALS| == 10 && REFUSALS[0] == Closing && REFUSALS[1] == CaseIsClosed && REFUSALS[2] == SwitchedOff
    ensures REFUSALS[3] == NotOpen && REFUSALS[4] == NoCriterion && REFUSALS[5] == DailyCap
    ensures REFUSALS[6] == UsdBudget && REFUSALS[7] == CheckOut && REFUSALS[8] == CaseHeld && REFUSALS[9] == NoModel
  {
  }

  /** A check is refused for the first of the ten reasons that holds, and changes nothing. */
  lemma RefusedForTheFirst(s: State, look: Look, foreign: bool, k: nat)
    requires Ready(s) && k < |REFUSALS| && Refuses(REFUSALS[k], s, look)
    requires forall i | 0 <= i < k :: !Refuses(REFUSALS[i], s, look)
    ensures Refused(s, look, foreign) == Some(REFUSALS[k]) && Step(s, CheckPrepareE(look, foreign)) == s
  {
    RefusalsAre();
  }

  /** Else it is prepared and counted under the lock, unless another process holds the case. */
  lemma CheckSays(s: State, look: Look, foreign: bool)
    requires Ready(s) && forall r | r in REFUSALS :: !Refuses(r, s, look)
    ensures Refused(s, look, foreign) == if foreign then Some(CaseHeld) else None
    ensures Step(s, CheckPrepareE(look, foreign))
         == if foreign then s else s.(held := Some(Check(|s.plans|)), plans := s.plans + [Waiting])
  {
    RefusalsAre();
    assert forall i | 0 <= i < 10 :: !Refuses(REFUSALS[i], s, look);
  }

  /**
   * After its commit a check starts if the case is still free and the service runs on; else it is given up and owed.
   */
  lemma CheckGoesOn(s: State, plan: nat)
    requires Ready(s)
    ensures var t := s.(checks := s.checks - {plan});
            && Ready(t)
            && Step(s, CheckContinueE(plan))
               == if plan !in s.checks then s
                  else if !s.closing && s.held.None? && !PassRuns(s) then Started(t, plan, true)
                  else GivenUp(t, plan)
  {
  }

  // ---- Shutdown ----

  /** A closing service supersedes every pass that is not over, and clears no debt. */
  lemma ShutdownSays(s: State, j: nat)
    requires Ready(s) && j < |s.jobs|
    ensures var t := Step(s, ShutdownE);
            && t == s.(closing := true, jobs := t.jobs) && |t.jobs| == |s.jobs|
            && t.jobs[j] == s.jobs[j].(superseded := s.jobs[j].superseded || !s.jobs[j].stage.Done?)
  {
  }

  /** Locks and registrations go; a check whose commit was under way goes on to its start. */
  lemma ReleaseSays(s: State)
    requires Ready(s)
    ensures Step(s, ReleaseAllE)
         == s.(held := None, registered := None,
               checks := s.checks + if s.held.Some? && s.held.value.Check? then {s.held.value.plan} else {})
  {
  }
}
