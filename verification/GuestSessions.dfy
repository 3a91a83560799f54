/**
 * The protocol the browser, command and coding session managers share: opening a run's guest,
 * cancelling it, stopping it, and the guest exiting by itself. A step is what happens between two
 * `await`s of one of the calls; calls of different runs interleave freely.
 */
module GuestSessions {
  import opened Options

  type RunId = nat

  /**
   * Where one run's `open` stands. `Leasing` to `Settling` and `CleaningUp(false)` are inside its
   * `try`, while the run counts as opening; `CleaningUp(true)` is after the `finally`.
   */
  datatype Stage =
    | Leasing
    | Verifying
    | Starting
    | Inspecting
    | Settling
    | CleaningUp(late: bool)
    | Ended
    | Active

  datatype Vm = Unstarted | Alive | Exited

  datatype Marker = Unleased | Leased | Released

  /** `faulted`: a stop or a release failed for this run. */
  datatype Record = Record(stage: Stage, cancelled: bool, vm: Vm, lease: Marker, starts: nat, faulted: bool)

  datatype Manager = Manager(maxSessions: nat, runs: map<RunId, Record>, opening: set<RunId>, active: set<RunId>)

  datatype Step =
    | Begin(run: RunId)
    | LeaseMade(run: RunId, goesOn: bool)
    | CheckLease(run: RunId, goesOn: bool)
    | VmStarts(run: RunId, goesOn: bool)
    | Inspect(run: RunId, goesOn: bool)
    | Fail(run: RunId)
    | StopOwn(run: RunId, ok: bool)
    | ReleaseOwn(run: RunId, ok: bool)
    | LeaveTry(run: RunId)
    | End(run: RunId)
    | Settle(run: RunId)
    | Cancel(run: RunId)
    | CancelAll
    | StopActive(run: RunId, ok: bool)
    | VmExits(run: RunId)
    | AfterClosed(run: RunId, ok: bool)

  predicate At(manager: Manager, run: RunId, stage: Stage) {
    run in manager.runs && manager.runs[run].stage == stage
  }

  predicate InTry(stage: Stage) {
    stage.Leasing? || stage.Verifying? || stage.Starting? || stage.Inspecting? || stage.Settling?
    || stage == CleaningUp(false)
  }

  /** Nothing of the run is left: its guest is not running and its lease is not held. */
  predicate Clean(record: Record) {
    !record.vm.Alive? && !record.lease.Leased?
  }

  predicate Enabled(manager: Manager, step: Step) {
    match step
    case Begin(run) => run !in manager.runs && |manager.active| + |manager.opening| < manager.maxSessions
    case LeaseMade(run, goesOn) => At(manager, run, Leasing)
    case CheckLease(run, goesOn) => At(manager, run, Verifying)
    case VmStarts(run, goesOn) => At(manager, run, Starting)
    case Inspect(run, goesOn) => At(manager, run, Inspecting)
    // an exception between two awaits of the `try`
    case Fail(run) =>
      run in manager.runs && InTry(manager.runs[run].stage) && !manager.runs[run].stage.CleaningUp?
      && !manager.runs[run].stage.Settling?
    case StopOwn(run, _) => run in manager.runs && manager.runs[run].stage.CleaningUp? && manager.runs[run].vm.Alive?
    case ReleaseOwn(run, _) => run in manager.runs && manager.runs[run].stage.CleaningUp? && manager.runs[run].lease.Leased?
    case LeaveTry(run) => At(manager, run, CleaningUp(false)) && (Clean(manager.runs[run]) || manager.runs[run].faulted)
    case End(run) => At(manager, run, CleaningUp(true)) && (Clean(manager.runs[run]) || manager.runs[run].faulted)
    case Settle(run) => At(manager, run, Settling)
    case Cancel(run) => true
    case CancelAll => true
    case StopActive(run, _) => run in manager.active
    case VmExits(run) => run in manager.runs && manager.runs[run].vm.Alive?
    case AfterClosed(run, _) => At(manager, run, Active) && manager.runs[run].vm.Exited?
  }

  function With(manager: Manager, run: RunId, record: Record): Manager {
    manager.(runs := manager.runs[run := record])
  }

  function After(manager: Manager, step: Step): Manager
    requires Enabled(manager, step)
  {
    match step
    case Begin(run) =>
      With(manager, run, Record(Leasing, false, Unstarted, Unleased, 0, false)).(opening := manager.opening + {run})
    case LeaseMade(run, goesOn) =>
      With(manager, run, manager.runs[run].(lease := Leased, stage := if goesOn then Verifying else CleaningUp(false)))
    case CheckLease(run, goesOn) =>
      var record := manager.runs[run];
      With(manager, run, if goesOn then record.(stage := Starting, starts := record.starts + 1)
                         else record.(stage := CleaningUp(false)))
    case VmStarts(run, goesOn) =>
      With(manager, run, manager.runs[run].(vm := Alive, stage := if goesOn then Inspecting else CleaningUp(false)))
    case Inspect(run, goesOn) =>
      With(manager, run, manager.runs[run].(stage := if goesOn then Settling else CleaningUp(false)))
    case Fail(run) => With(manager, run, manager.runs[run].(stage := CleaningUp(false)))
    case StopOwn(run, ok) =>
      With(manager, run, if ok then manager.runs[run].(vm := Exited) else manager.runs[run].(faulted := true))
    case ReleaseOwn(run, ok) =>
      With(manager, run, if ok then manager.runs[run].(lease := Released) else manager.runs[run].(faulted := true))
    case LeaveTry(run) =>
      With(manager, run, manager.runs[run].(stage := Ended)).(opening := manager.opening - {run})
    case End(run) => With(manager, run, manager.runs[run].(stage := Ended))
    // the `finally`, the last look at the cancellation, and the activation, with no await between
    case Settle(run) =>
      var record := manager.runs[run];
      var left := manager.(opening := manager.opening - {run});
      if record.cancelled then With(left, run, record.(stage := CleaningUp(true)))
      else With(left, run, record.(stage := Active)).(active := manager.active + {run})
    case Cancel(run) =>
      if run in manager.opening && run in manager.runs then With(manager, run, manager.runs[run].(cancelled := true)) else manager
    case CancelAll =>
      manager.(runs := map run | run in manager.runs ::
                         if run in manager.opening then manager.runs[run].(cancelled := true) else manager.runs[run])
    case StopActive(run, ok) =>
      if run !in manager.runs then manager
      else if ok then With(manager, run, manager.runs[run].(vm := Exited)).(active := manager.active - {run})
      else With(manager, run, manager.runs[run].(faulted := true))
    case VmExits(run) => With(manager, run, manager.runs[run].(vm := Exited))
    case AfterClosed(run, ok) =>
      var record := manager.runs[run];
      With(manager, run,
           if record.lease.Leased? && ok then record.(lease := Released)
           else if record.lease.Leased? then record.(faulted := true)
           else record).(active := manager.active - {run})
  }

  function Fresh(maxSessions: nat): Manager {
    Manager(maxSessions, map[], {}, {})
  }

  function Run(manager: Manager, steps: seq<Step>): Option<Manager>
    decreases |steps|
  {
    if steps == [] then Some(manager)
    else
      match Run(manager, steps[..|steps| - 1])
      case None => None
      case Some(before) =>
        if Enabled(before, steps[|steps| - 1]) then Some(After(before, steps[|steps| - 1])) else None
  }

  // ------------------------------------------------------------------- the invariant

  ghost predicate RunInv(manager: Manager, run: RunId) {
    && (run in manager.opening ==> run in manager.runs && InTry(manager.runs[run].stage))
    && (run in manager.active ==> run in manager.runs && manager.runs[run].stage.Active?)
    && (run in manager.runs ==>
          var record := manager.runs[run];
          && (InTry(record.stage) ==> run in manager.opening)
          && (record.cancelled ==> !record.stage.Active?)
          && record.starts <= 1
          && (record.stage.Leasing? || record.stage.Verifying? ==> record.starts == 0 && record.vm.Unstarted?)
          && (record.stage.Leasing? ==> record.lease.Unleased?)
          && (record.vm.Alive? || record.vm.Exited? ==> record.starts == 1)
          && (record.stage.Ended? ==> Clean(record) || record.faulted)
          && (record.stage == CleaningUp(true) ==> record.cancelled)
          && (record.stage.Active? && run !in manager.active ==> !record.vm.Alive?)
          && (record.stage.Starting? ==> record.starts == 1)
          && (record.stage.Inspecting? || record.stage.Settling? || record.stage.Active? ==>
                record.starts == 1 && !record.vm.Unstarted?))
  }

  ghost predicate Inv(manager: Manager) {
    && |manager.active| + |manager.opening| <= manager.maxSessions
    && forall run :: RunInv(manager, run)
  }

  /** A step of one run leaves every other run alone. */
  lemma ElsewhereUntouched(manager: Manager, step: Step, run: RunId)
    requires Enabled(manager, step) && !step.CancelAll? && step.run != run
    ensures var next := After(manager, step);
            && (run in next.opening <==> run in manager.opening) && (run in next.active <==> run in manager.active)
            && (run in next.runs <==> run in manager.runs)
            && (run in manager.runs ==> next.runs[run] == manager.runs[run])
  {
  }

  lemma RunInvKeptHere(manager: Manager, step: Step)
    requires Inv(manager) && Enabled(manager, step) && !step.CancelAll?
    ensures RunInv(After(manager, step), step.run)
  {
    assert RunInv(manager, step.run);
  }

  lemma RunInvKept(manager: Manager, step: Step, run: RunId)
    requires Inv(manager) && Enabled(manager, step)
    ensures RunInv(After(manager, step), run)
  {
    assert RunInv(manager, run);
    if !step.CancelAll? {
      if step.run == run {
        RunInvKeptHere(manager, step);
      } else {
        ElsewhereUntouched(manager, step, run);
      }
    }
  }

  lemma InvKept(manager: Manager, step: Step)
    requires Inv(manager) && Enabled(manager, step)
    ensures Inv(After(manager, step))
  {
    forall run ensures RunInv(After(manager, step), run) {
      RunInvKept(manager, step, run);
    }
    if step.Settle? {
      assert RunInv(manager, step.run);
      assert |manager.opening - {step.run}| == |manager.opening| - 1;
    }
  }

  lemma {:induction false} RunKeeps(maxSessions: nat, steps: seq<Step>)
    requires Run(Fresh(maxSessions), steps).Some?
    ensures Inv(Run(Fresh(maxSessions), steps).value)
    ensures Run(Fresh(maxSessions), steps).value.maxSessions == maxSessions
    decreases |steps|
  {
    if steps != [] {
      var front := steps[..|steps| - 1];
      RunKeeps(maxSessions, front);
      InvKept(Run(Fresh(maxSessions), front).value, steps[|steps| - 1]);
    }
  }

  // ------------------------------------------------------------------- what it guarantees

  /** Active and opening sessions together never exceed the limit. */
  lemma CapacityHolds(maxSessions: nat, steps: seq<Step>)
    requires Run(Fresh(maxSessions), steps).Some?
    ensures var manager := Run(Fresh(maxSessions), steps).value;
            |manager.active| + |manager.opening| <= maxSessions && manager.active !! manager.opening
  {
    RunKeeps(maxSessions, steps);
    var manager := Run(Fresh(maxSessions), steps).value;
    forall run | run in manager.active ensures run !in manager.opening {
      assert RunInv(manager, run);
    }
  }

  /** A run id starts at most one guest, ever. */
  lemma OneStartPerRun(maxSessions: nat, steps: seq<Step>, run: RunId)
    requires Run(Fresh(maxSessions), steps).Some? && run in Run(Fresh(maxSessions), steps).value.runs
    ensures Run(Fresh(maxSessions), steps).value.runs[run].starts <= 1
  {
    RunKeeps(maxSessions, steps);
    assert RunInv(Run(Fresh(maxSessions), steps).value, run);
  }

  lemma CancellationSticks(manager: Manager, step: Step, run: RunId)
    requires Inv(manager) && Enabled(manager, step) && run in manager.runs && manager.runs[run].cancelled
    ensures run in After(manager, step).runs && After(manager, step).runs[run].cancelled
  {
    assert RunInv(manager, run);
    if !step.CancelAll? {
      if step.run == run {
        CancellationSticksHere(manager, step);
      } else {
        ElsewhereUntouched(manager, step, run);
      }
    }
  }

  lemma CancellationSticksHere(manager: Manager, step: Step)
    requires Enabled(manager, step) && !step.CancelAll? && step.run in manager.runs && manager.runs[step.run].cancelled
    ensures step.run in After(manager, step).runs && After(manager, step).runs[step.run].cancelled
  {
  }

  /** An opening cancelled before its activation is never active afterwards. */
  lemma {:induction false} CancelledNeverActive(maxSessions: nat, before: seq<Step>, later: seq<Step>, run: RunId)
    requires Run(Fresh(maxSessions), before).Some? && Run(Fresh(maxSessions), before + later).Some?
    requires run in Run(Fresh(maxSessions), before).value.runs && Run(Fresh(maxSessions), before).value.runs[run].cancelled
    ensures run in Run(Fresh(maxSessions), before + later).value.runs
    ensures Run(Fresh(maxSessions), before + later).value.runs[run].cancelled
    ensures run !in Run(Fresh(maxSessions), before + later).value.active
    decreases |later|
  {
    var all := before + later;
    RunKeeps(maxSessions, all);
    assert RunInv(Run(Fresh(maxSessions), all).value, run);
    if later == [] {
      assert all == before;
    } else {
      assert all[..|all| - 1] == before + later[..|later| - 1];
      CancelledNeverActive(maxSessions, before, later[..|later| - 1], run);
      RunKeeps(maxSessions, all[..|all| - 1]);
      CancellationSticks(Run(Fresh(maxSessions), all[..|all| - 1]).value, all[|all| - 1], run);
    }
  }

  /** A stop while the run is opening is such a cancellation; so is stopping everything. */
  lemma StopCancelsOpening(maxSessions: nat, steps: seq<Step>, run: RunId)
    requires Run(Fresh(maxSessions), steps).Some? && run in Run(Fresh(maxSessions), steps).value.opening
    ensures var manager := Run(Fresh(maxSessions), steps).value;
            && run in manager.runs
            && After(manager, Cancel(run)).runs[run].cancelled
            && After(manager, CancelAll).runs[run].cancelled
  {
    RunKeeps(maxSessions, steps);
    assert RunInv(Run(Fresh(maxSessions), steps).value, run);
  }

  /** An `open` that ended without a session left nothing behind, unless a stop or release failed. */
  lemma EndedRunsAreClean(maxSessions: nat, steps: seq<Step>, run: RunId)
    requires Run(Fresh(maxSessions), steps).Some? && At(Run(Fresh(maxSessions), steps).value, run, Ended)
    ensures var manager := Run(Fresh(maxSessions), steps).value;
            && run !in manager.active && run !in manager.opening
            && (manager.runs[run].faulted || Clean(manager.runs[run]))
  {
    RunKeeps(maxSessions, steps);
    assert RunInv(Run(Fresh(maxSessions), steps).value, run);
  }

  /** A session that was stopped, or whose guest exited, leaves nothing behind once its `closed` handler ran. */
  lemma ClosedSessionsAreClean(maxSessions: nat, steps: seq<Step>, run: RunId, stop: Step, ok: bool)
    requires Run(Fresh(maxSessions), steps).Some? && run in Run(Fresh(maxSessions), steps).value.active
    requires stop == StopActive(run, true) || stop == VmExits(run)
    requires Enabled(Run(Fresh(maxSessions), steps).value, stop)
    ensures var stopped := After(Run(Fresh(maxSessions), steps).value, stop);
            && Enabled(stopped, AfterClosed(run, ok))
            && var closed := After(stopped, AfterClosed(run, ok));
               run !in closed.active && (Clean(closed.runs[run]) || (!ok && closed.runs[run].faulted))
  {
    RunKeeps(maxSessions, steps);
    assert RunInv(Run(Fresh(maxSessions), steps).value, run);
  }

  // ------------------------------------------------------------------- how many guests run

  function LiveGuests(manager: Manager): set<RunId> {
    set run | run in manager.runs && manager.runs[run].vm.Alive?
  }

  /** Guests of openings cancelled too late: they no longer count, but are still being stopped. */
  function LateGuests(manager: Manager): set<RunId> {
    set run | run in LiveGuests(manager)
              && (manager.runs[run].stage == CleaningUp(true) || manager.runs[run].stage.Ended?)
  }

  lemma SubsetSize<T>(small: set<T>, large: set<T>)
    requires small <= large
    ensures |small| <= |large|
  {
    assert large == small + (large - small);
  }

  /**
   * The limit bounds the counted sessions, not the running guests: those may exceed it by exactly
   * the guests of openings whose cancellation arrived after the last look before the `finally`, or
   * whose stop failed.
   */
  lemma LiveGuestsBound(maxSessions: nat, steps: seq<Step>)
    requires Run(Fresh(maxSessions), steps).Some?
    ensures var manager := Run(Fresh(maxSessions), steps).value;
            && LiveGuests(manager) - LateGuests(manager) <= manager.active + manager.opening
            && |LiveGuests(manager) - LateGuests(manager)| <= maxSessions
  {
    RunKeeps(maxSessions, steps);
    var manager := Run(Fresh(maxSessions), steps).value;
    forall run | run in LiveGuests(manager) - LateGuests(manager) ensures run in manager.active + manager.opening {
      assert RunInv(manager, run);
    }
    SubsetSize(LiveGuests(manager) - LateGuests(manager), manager.active + manager.opening);
  }

  lemma Takes(manager: Manager, steps: seq<Step>, step: Step) returns (next: Manager, longer: seq<Step>)
    requires Run(Fresh(1), steps) == Some(manager) && Enabled(manager, step)
    ensures next == After(manager, step) && Run(Fresh(1), longer) == Some(next)
  {
    next, longer := After(manager, step), steps + [step];
    assert longer[..|longer| - 1] == steps;
  }

  /** One uncancelled opening up to the point where its guest has been inspected. */
  lemma OpensGuest(manager: Manager, steps: seq<Step>, run: RunId) returns (next: Manager, longer: seq<Step>)
    requires Run(Fresh(1), steps) == Some(manager)
    requires manager.maxSessions == 1 && manager.opening == manager.active == {} && run !in manager.runs
    ensures Run(Fresh(1), longer) == Some(next)
    ensures next == With(manager, run, Record(Settling, false, Alive, Leased, 1, false)).(opening := {run})
  {
    next, longer := Takes(manager, steps, Begin(run));
    next, longer := Takes(next, longer, LeaseMade(run, true));
    next, longer := Takes(next, longer, CheckLease(run, true));
    next, longer := Takes(next, longer, VmStarts(run, true));
    next, longer := Takes(next, longer, Inspect(run, true));
    assert next.runs == manager.runs[run := Record(Settling, false, Alive, Leased, 1, false)];
  }

  /** It does happen: with a limit of one, a late cancellation lets two guests run at once. */
  lemma LateCancellationOverlaps()
    ensures exists steps ::
              && Run(Fresh(1), steps).Some?
              && {1, 2} <= LiveGuests(Run(Fresh(1), steps).value)
  {
    var manager, steps := OpensGuest(Fresh(1), [], 1);
    manager, steps := Takes(manager, steps, Cancel(1));
    manager, steps := Takes(manager, steps, Settle(1));
    manager, steps := OpensGuest(manager, steps, 2);
    assert {1, 2} <= LiveGuests(manager);
  }
}
