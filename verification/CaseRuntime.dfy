/**
 * The fields of src/cases/case-runtime.js that a turn, a check and a verify pass change, for one case; each method
 * takes the step of VerifyPass.
 */
module CaseRuntimes {
  import opened Basics
  import opened VerifyPass

  class CaseRuntime {
    var closing: bool
    var closed: bool
    var held: Option<Holder>
    var registered: Option<nat>
    var open: map<nat, OpenTurn>
    var checks: set<nat>
    ghost var plans: seq<Plan>
    var planned: nat
    var verifying: Option<nat>
    var verifyJobs: seq<Job>
    var verifyOwed: bool
    var nextTurn: nat
    var nextAction: nat

    ghost function Model(): State
      reads this
    {
      State(closing, closed, held, registered, open, checks, plans, verifying, verifyJobs, verifyOwed, nextTurn,
          nextAction)
    }

    ghost predicate Valid()
      reads this
    {
      Ready(Model()) && planned == |plans|
    }

    constructor ()
      ensures Valid() && Model() == Initial()
    {
      closing, closed, held, registered, open, checks := false, false, None, None, map[], {};
      plans, planned, verifying, verifyJobs, verifyOwed, nextTurn, nextAction := [], 0, None, [], false, 0, 0;
    }

    method VerifyRunning() returns (running: bool)
      requires Valid()
      ensures running == Running(Model())
    {
      if verifying.None? {
        return false;
      }
      var job := verifyJobs[verifying.value];
      running := !job.stage.Done? && !job.superseded;
    }

    method SupersedeVerify()
      requires Valid()
      modifies this`verifyJobs, this`verifyOwed
      ensures Valid() && Model() == Supersede(old(Model()))
    {
      var running := VerifyRunning();
      if running {
        verifyJobs := verifyJobs[verifying.value := verifyJobs[verifying.value].(superseded := true)];
        verifyOwed := true;
      }
    }

    method StopTheCheck()
      requires Valid()
      modifies this`verifyJobs
      ensures Valid() && Model() == StopCheck(old(Model()))
    {
      var running := VerifyRunning();
      if running && verifyJobs[verifying.value].check {
        verifyJobs := verifyJobs[verifying.value := verifyJobs[verifying.value].(superseded := true, owed := false)];
      }
    }

    method StartVerifyPass(plan: nat, check: bool)
      requires Valid() && plan < planned
      modifies this`verifyJobs, this`verifyOwed, this`verifying, this`plans
      ensures Model() == Start(old(Model()), plan, check)
      ensures Valid()
    {
      SupersedeVerify();
      verifyOwed := false;
      verifying := Some(|verifyJobs|);
      plans := plans[plan := Started(|verifyJobs|)];
      verifyJobs := verifyJobs + [Job(check, false, true, Calling)];
    }

    method AcquireForTurn(source: Source, foreign: bool) returns (turn: Option<nat>)
      requires Valid()
      modifies this
      ensures Model() == TurnTake(old(Model()), source, foreign)
      ensures turn == if nextTurn == old(nextTurn) then None else Some(old(nextTurn))
    {
      turn := None;
      if source.Wakeup? {
        var running := VerifyRunning();
        if closing || running {
          return;
        }
      }
      if held.Some? || foreign {
        return;
      }
      turn := Some(nextTurn);
      held := Some(Turn(nextTurn));
      open := open[nextTurn := OpenTurn(source, false, None)];
      nextTurn := nextTurn + 1;
      SupersedeVerify();
    }

    method ReleaseLock(holder: Holder)
      modifies this`held
      ensures Model() == Release(old(Model()), holder)
    {
      if held == Some(holder) {
        held := None;
      }
    }

    method BeginTurnReturns(id: nat, failed: bool)
      modifies this`held, this`open, this`registered
      ensures Model() == TurnReady(old(Model()), id, failed)
    {
      if id !in open || open[id].begun {
        return;
      }
      if failed || (open[id].source.Wakeup? && closing) {
        open := open - {id};
        ReleaseLock(Turn(id));
      } else {
        registered := Some(id);
        open := open[id := open[id].(begun := true)];
      }
    }

    method AgainstAPass(look: Look, stopped: bool, written: bool) returns (skipped: Option<Reason>)
      ensures skipped == Skipped(Model(), look, stopped, written)
    {
      if closed { return Some(CaseIsClosed); }
      if look.when.Never? { return Some(SwitchedOff); }
      if look.when.OnRequest? { return Some(OnRequestOnly); }
      if stopped { return Some(Stopped); }
      if closing { return Some(Closing); }
      if !verifyOwed && !written { return Some(NothingWritten); }
      if !look.open { return Some(NotOpen); }
      if !look.confirmed { return Some(NoCriterion); }
      if !look.model { return Some(NoModel); }
      if look.capped { return Some(DailyCap); }
      skipped := if look.spent then Some(UsdBudget) else None;
    }

    /** prepareVerifyPass for the close of a turn; skipped says why it prepares none. */
    method PrepareAtClose(id: nat, look: Look, stopped: bool, written: bool) returns (skipped: Option<Reason>)
      requires Valid()
      modifies this`open, this`plans, this`planned
      ensures Model() == TurnPrepare(old(Model()), id, look, stopped, written)
      ensures skipped == Skipped(old(Model()), look, stopped, written)
      ensures Valid()
    {
      skipped := AgainstAPass(look, stopped, written);
      if id !in open || !open[id].begun || open[id].plan.Some? || skipped.Some? {
        return;
      }
      open := open[id := open[id].(plan := Some(planned))];
      plans := plans + [Waiting];
      planned := planned + 1;
    }

    /** endTurn's finally block. */
    method EndTurn(id: nat, committed: bool)
      requires Valid()
      modifies this
      ensures Model() == TurnEnd(old(Model()), id, committed)
    {
      if id !in open || !open[id].begun {
        return;
      }
      var owned := registered == Some(id);
      var plan := open[id].plan;
      open := open - {id};
      if owned {
        registered := None;
      }
      ReleaseLock(Turn(id));
      if plan.None? {
        return;
      }
      if committed && owned && !closing {
        StartVerifyPass(plan.value, false);
      } else {
        verifyOwed := true;
        plans := plans[plan.value := GivenUp(|verifyJobs|)];
      }
    }

    /** systemAction: takes the lock for its own, unless this process holds it already. */
    method SystemAction(foreign: bool)
      modifies this`held, this`nextAction
      ensures Model() == ActionTake(old(Model()), foreign)
    {
      if held.None? && !foreign {
        held := Some(Action(nextAction));
        nextAction := nextAction + 1;
      }
    }

    /** The commit and release that end a system action, a check's preparation or a landing. */
    method SystemActionEnds()
      modifies this`held, this`checks
      ensures Model() == ActionEnd(old(Model()))
    {
      if held.None? || held.value.Turn? {
        return;
      }
      if held.value.Check? {
        checks := checks + {held.value.plan};
      }
      held := None;
    }

    method SetStatus(closed: bool, stopsWork: bool)
      requires Valid()
      modifies this
      ensures Model() == StatusSet(old(Model()), closed, stopsWork)
    {
      this.closed := closed;
      if stopsWork {
        StopTheCheck();
      }
    }

    /** abortTurn: with no turn running, Stop reaches the owner's check. */
    method AbortTurn()
      requires Valid()
      modifies this
      ensures Model() == OwnerStop(old(Model()))
    {
      if registered.None? {
        StopTheCheck();
      }
    }

    method ReleaseEverything()
      modifies this`held, this`registered, this`checks
      ensures Model() == ReleaseAll(old(Model()))
    {
      if held.Some? && held.value.Check? {
        checks := checks + {held.value.plan};
      }
      held, registered := None, None;
    }

    method AgainstACheck(look: Look, foreign: bool) returns (refused: Option<Reason>)
      requires Valid()
      ensures refused == Refused(Model(), look, foreign)
    {
      if closing { return Some(Closing); }
      if closed { return Some(CaseIsClosed); }
      if look.when.Never? { return Some(SwitchedOff); }
      if !look.open { return Some(NotOpen); }
      if !look.confirmed { return Some(NoCriterion); }
      if look.capped { return Some(DailyCap); }
      if look.spent { return Some(UsdBudget); }
      var running := VerifyRunning();
      if running { return Some(CheckOut); }
      if held.Some? { return Some(CaseHeld); }
      if !look.model { return Some(NoModel); }
      refused := if foreign then Some(CaseHeld) else None;
    }

    /** verifyNow up to its commit. */
    method VerifyNow(look: Look, foreign: bool) returns (refused: Option<Reason>)
      requires Valid()
      modifies this`held, this`plans, this`planned
      ensures Model() == CheckPrepare(old(Model()), look, foreign)
      ensures refused == Refused(old(Model()), look, foreign)
      ensures Valid()
    {
      refused := AgainstACheck(look, foreign);
      if refused.Some? {
        return;
      }
      held := Some(Check(planned));
      plans := plans + [Waiting];
      planned := planned + 1;
    }

    /** verifyNow after its commit. */
    method VerifyNowContinues(plan: nat)
      requires Valid()
      modifies this
      ensures Model() == CheckContinue(old(Model()), plan)
    {
      if plan !in checks {
        return;
      }
      checks := checks - {plan};
      var running := VerifyRunning();
      if closing || held.Some? || running {
        verifyOwed := true;
        plans := plans[plan := GivenUp(|verifyJobs|)];
      } else {
        StartVerifyPass(plan, true);
      }
    }

    /** _runVerifyJob, each time it resumes with the model's reply. */
    method RunVerifyJob(j: nat, timedOut: bool, foreign: bool, throws: bool)
      requires j < |verifyJobs|
      modifies this`verifyJobs, this`verifyOwed, this`held
      ensures Model() == JobResume(old(Model()), j, timedOut, foreign, throws)
    {
      var job := verifyJobs[j];
      match Resume(job, held.Some?, closing, closed, timedOut, foreign, throws) {
        case Waits =>
        case Drops =>
          DropJob(j);
        case GivesUp =>
          verifyJobs := verifyJobs[j := job.(superseded := true)];
          DropJob(j);
        case Fails =>
          verifyJobs := verifyJobs[j := job.(stage := Finishing(Threw))];
        case Ends(outcome) =>
          held := Some(Landing(j));
          verifyJobs := verifyJobs[j := job.(stage := Finishing(outcome))];
      }
    }

    method DropJob(j: nat)
      requires j < |verifyJobs|
      modifies this`verifyJobs, this`verifyOwed
      ensures Model() == Drop(old(Model()), j)
    {
      if verifyJobs[j].owed {
        verifyOwed := true;
      }
      verifyJobs := verifyJobs[j := verifyJobs[j].(stage := Finishing(Dropped))];
    }

    /** The job's own promise, once its system action has released the case. */
    method SettleVerifyJob(j: nat)
      requires j < |verifyJobs|
      modifies this`verifyJobs, this`verifyOwed, this`verifying
      ensures Model() == JobSettle(old(Model()), j)
    {
      var job := verifyJobs[j];
      if !job.stage.Finishing? || held == Some(Landing(j)) {
        return;
      }
      if job.stage.outcome.Threw? {
        verifyOwed := true;
      }
      if verifying == Some(j) {
        verifying := None;
      }
      verifyJobs := verifyJobs[j := job.(stage := Done(job.stage.outcome))];
    }

    /** abortVerifyPasses walks every job that has not settled. */
    method BeginShutdownNow()
      modifies this`closing, this`verifyJobs
      ensures Model() == BeginShutdown(old(Model()))
    {
      closing := true;
      var i := 0;
      while i < |verifyJobs|
        invariant closing && 0 <= i <= |verifyJobs| == |old(verifyJobs)|
        invariant forall k | 0 <= k < i :: verifyJobs[k] == SupersedeAll(old(verifyJobs))[k]
        invariant forall k | i <= k < |verifyJobs| :: verifyJobs[k] == old(verifyJobs)[k]
      {
        if !verifyJobs[i].stage.Done? {
          verifyJobs := verifyJobs[i := verifyJobs[i].(superseded := true)];
        }
        i := i + 1;
      }
      assert verifyJobs == SupersedeAll(old(verifyJobs));
    }
  }
}
