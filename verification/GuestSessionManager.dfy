/**
 * `open`, `stop` and `stopAll` as the managers run them. Between two awaits of one call everybody
 * else may move; `Valid` says that the whole is a run of `GuestSessions`.
 */
module GuestSessionManager {
  import opened Options
  import opened GuestSessions

  datatype OpenEnd = Used | CapacityReached | Unavailable | Opened

  class SessionManager {
    var manager: Manager
    ghost var steps: seq<Step>
    const maxSessions: nat

    ghost predicate Valid()
      reads this
    {
      Run(Fresh(maxSessions), steps) == Some(manager)
    }

    constructor (maxSessions: nat)
      ensures Valid() && manager == Fresh(maxSessions)
    {
      this.maxSessions := maxSessions;
      manager, steps := Fresh(maxSessions), [];
    }

    method Take(step: Step)
      requires Valid() && Enabled(manager, step)
      modifies this
      ensures Valid() && manager == After(old(manager), step)
    {
      manager := After(manager, step);
      steps := steps + [step];
      assert steps[..|steps| - 1] == old(steps);
    }

    /** A step that is not taken by the pending `open` of `run`. */
    static predicate Foreign(step: Step, run: RunId) {
      match step
      case Cancel(_) => true
      case CancelAll => true
      case StopActive(_, _) => true
      case VmExits(_) => true
      case AfterClosed(_, _) => true
      case _ => step.run != run
    }

    /** Other runs' calls, stops, and guests exiting, while the `open` of `run` awaits something. */
    method Interfere(run: RunId)
      requires Valid() && Pending(run)
      modifies this
      ensures Valid() && Pending(run) && Kept(old(manager).runs[run], manager.runs[run])
    {
      var moves :| 0 <= moves;
      for i := 0 to moves
        invariant Valid() && Pending(run) && Kept(old(manager).runs[run], manager.runs[run])
      {
        var step: Step := *;
        if Enabled(manager, step) && Foreign(step, run) {
          Take(step);
        }
      }
    }

    /** The `open` of `run` has begun and has not activated a session. */
    predicate Pending(run: RunId)
      reads this
    {
      run in manager.runs && run !in manager.active && !manager.runs[run].stage.Active?
    }

    /** What others leave of a pending run: all but a cancellation made and a guest exited. */
    static predicate Kept(before: Record, later: Record) {
      && later == before.(cancelled := later.cancelled, vm := later.vm)
      && (before.cancelled ==> later.cancelled)
      && (later.vm == before.vm || (before.vm.Alive? && later.vm.Exited?))
    }

    /** `stopSessionAndReleaseLease`: the release is tried whether or not the stop succeeded. */
    method StopSessionAndReleaseLease(run: RunId)
      requires Valid() && Pending(run) && manager.runs[run].stage.CleaningUp?
      modifies this
      ensures Valid() && Pending(run)
      ensures manager.runs[run].stage == old(manager).runs[run].stage
      ensures old(manager).runs[run].cancelled ==> manager.runs[run].cancelled
      ensures Clean(manager.runs[run]) || manager.runs[run].faulted
    {
      if manager.runs[run].vm.Alive? {
        var stopped: bool := *;
        Take(StopOwn(run, stopped));
        Interfere(run);
      }
      if manager.runs[run].lease.Leased? {
        var released: bool := *;
        Take(ReleaseOwn(run, released));
        Interfere(run);
      }
    }

    /** Every way out of the `try` that does not reach a session: clean up, then the `finally`. */
    method GiveUpInTry(run: RunId)
      requires Valid() && At(manager, run, CleaningUp(false)) && run !in manager.active
      modifies this
      ensures Valid() && At(manager, run, Ended) && run !in manager.active && run !in manager.opening
      ensures old(manager).runs[run].cancelled ==> manager.runs[run].cancelled
      ensures Clean(manager.runs[run]) || manager.runs[run].faulted
    {
      StopSessionAndReleaseLease(run);
      Take(LeaveTry(run));
    }

    /**
     * The opening all three managers share, up to the activation. `late` managers (coding) look at a
     * cancellation only once the guest was inspected. It opens exactly if no call threw, the lease
     * verified where that is asked, the guest was suitable and nobody cancelled.
     */
    method Start(run: RunId, late: bool) returns (end: OpenEnd, ghost threw: bool, ghost verified: bool, ghost suitable: bool)
      requires Valid()
      modifies this
      ensures Valid()
      ensures end.Used? <==> run in old(manager).runs
      ensures end.CapacityReached? <==>
                run !in old(manager).runs && |old(manager).active| + |old(manager).opening| >= maxSessions
      ensures end.Used? || end.CapacityReached? ==> manager == old(manager)
      ensures end.Unavailable? ==>
                && At(manager, run, Ended) && run !in manager.active && run !in manager.opening
                && (Clean(manager.runs[run]) || manager.runs[run].faulted)
      ensures end.Opened? ==>
                && At(manager, run, Active) && run in manager.active && !manager.runs[run].cancelled
                && manager.runs[run].starts == 1
      ensures end.Unavailable? || end.Opened? ==>
                run in manager.runs
                && (end.Opened? <==> !threw && (late || verified) && suitable && !manager.runs[run].cancelled)
    {
      threw, verified, suitable := false, true, true;
      RunKeeps(maxSessions, steps);
      if run in manager.runs {
        end := Used;
        return;
      }
      if |manager.active| + |manager.opening| >= maxSessions {
        end := CapacityReached;
        return;
      }
      assert run !in manager.active by { assert RunInv(manager, run); }
      Take(Begin(run));
      Interfere(run);
      var throws: bool := *;
      threw := throws;
      if throws {
        Take(Fail(run));
        GiveUpInTry(run);
        end := Unavailable;
        return;
      }
      end, threw, verified, suitable := Lease(run, late);
    }

    /** From where the lease was made. */
    method Lease(run: RunId, late: bool) returns (end: OpenEnd, ghost threw: bool, ghost verified: bool, ghost suitable: bool)
      requires Valid() && At(manager, run, Leasing) && run !in manager.active
      modifies this
      ensures Valid()
      ensures end.Unavailable? || end.Opened?
      ensures end.Unavailable? ==>
                && At(manager, run, Ended) && run !in manager.active && run !in manager.opening
                && (Clean(manager.runs[run]) || manager.runs[run].faulted)
      ensures end.Opened? ==>
                && At(manager, run, Active) && run in manager.active && !manager.runs[run].cancelled
                && manager.runs[run].starts == 1
      ensures run in manager.runs
      ensures end.Opened? <==> !threw && (late || verified) && suitable && !manager.runs[run].cancelled
    {
      end, threw, verified, suitable := Unavailable, false, true, true;
      Take(LeaseMade(run, late || !manager.runs[run].cancelled));
      Interfere(run);
      if manager.runs[run].stage.CleaningUp? {
        GiveUpInTry(run);
        return;
      }
      var throws: bool, verifies: bool := *, *;
      threw, verified := throws, verifies;
      if throws {
        Take(Fail(run));
        GiveUpInTry(run);
        return;
      }
      Take(CheckLease(run, late || (verifies && !manager.runs[run].cancelled)));
      if manager.runs[run].stage.CleaningUp? {
        GiveUpInTry(run);
        return;
      }
      Interfere(run);
      end, threw, suitable := Guest(run, late);
    }

    /** From the call that starts the guest. */
    method Guest(run: RunId, late: bool) returns (end: OpenEnd, ghost threw: bool, ghost suitable: bool)
      requires Valid() && At(manager, run, Starting) && run !in manager.active
      modifies this
      ensures Valid()
      ensures end.Unavailable? || end.Opened?
      ensures end.Unavailable? ==>
                && At(manager, run, Ended) && run !in manager.active && run !in manager.opening
                && (Clean(manager.runs[run]) || manager.runs[run].faulted)
      ensures end.Opened? ==>
                && At(manager, run, Active) && run in manager.active && !manager.runs[run].cancelled
                && manager.runs[run].starts == 1
      ensures run in manager.runs
      ensures end.Opened? <==> !threw && suitable && !manager.runs[run].cancelled
    {
      end, suitable := Unavailable, true;
      var throws: bool := *;
      threw := throws;
      if throws {
        Take(Fail(run));
        GiveUpInTry(run);
        return;
      }
      Take(VmStarts(run, late || !manager.runs[run].cancelled));
      Interfere(run);
      if manager.runs[run].stage.CleaningUp? {
        GiveUpInTry(run);
        return;
      }
      end, threw, suitable := InspectGuest(run, late);
    }

    /** From the inspection of the guest, which may throw as well. */
    method InspectGuest(run: RunId, late: bool) returns (end: OpenEnd, ghost threw: bool, ghost suitable: bool)
      requires Valid() && At(manager, run, Inspecting) && run !in manager.active
      modifies this
      ensures Valid()
      ensures end.Unavailable? || end.Opened?
      ensures end.Unavailable? ==>
                && At(manager, run, Ended) && run !in manager.active && run !in manager.opening
                && (Clean(manager.runs[run]) || manager.runs[run].faulted)
      ensures end.Opened? ==>
                && At(manager, run, Active) && run in manager.active && !manager.runs[run].cancelled
                && manager.runs[run].starts == 1
      ensures run in manager.runs
      ensures end.Opened? <==> !threw && suitable && !manager.runs[run].cancelled
    {
      end := Unavailable;
      var throws: bool, suits: bool := *, *;
      threw, suitable := throws, suits;
      if throws {
        Take(Fail(run));
        GiveUpInTry(run);
        return;
      }
      Take(Inspect(run, suits && !(late && manager.runs[run].cancelled)));
      Interfere(run);
      if manager.runs[run].stage.CleaningUp? {
        GiveUpInTry(run);
        return;
      }
      end := Activate(run);
    }

    /** The `finally`, the last look at the cancellation, and the activation. */
    method Activate(run: RunId) returns (end: OpenEnd)
      requires Valid() && At(manager, run, Settling) && run !in manager.active
      modifies this
      ensures Valid()
      ensures end.Unavailable? || end.Opened?
      ensures end.Unavailable? ==>
                && At(manager, run, Ended) && run !in manager.active && run !in manager.opening
                && (Clean(manager.runs[run]) || manager.runs[run].faulted)
      ensures end.Opened? ==>
                && At(manager, run, Active) && run in manager.active && !manager.runs[run].cancelled
                && manager.runs[run].starts == 1
      ensures run in manager.runs && (end.Unavailable? ==> manager.runs[run].cancelled)
    {
      Take(Settle(run));
      if manager.runs[run].stage.CleaningUp? {
        StopSessionAndReleaseLease(run);
        assert run !in manager.opening by { RunKeeps(maxSessions, steps); assert RunInv(manager, run); }
        Take(End(run));
        return Unavailable;
      }
      assert manager.runs[run].starts == 1 by { RunKeeps(maxSessions, steps); assert RunInv(manager, run); }
      return Opened;
    }

    /** Anybody's steps, while nothing of this call is pending. */
    method InterfereFreely(run: RunId)
      requires Valid() && run in manager.runs && manager.runs[run].stage.Active?
      modifies this
      ensures Valid() && At(manager, run, Active)
      ensures run in manager.active || !manager.runs[run].vm.Alive?
    {
      var moves :| 0 <= moves;
      for i := 0 to moves
        invariant Valid() && At(manager, run, Active)
      {
        var step: Step := *;
        if Enabled(manager, step) && Foreign(step, run) {
          Take(step);
        }
      }
      assert run in manager.active || !manager.runs[run].vm.Alive? by {
        RunKeeps(maxSessions, steps);
        assert RunInv(manager, run);
      }
    }

    /**
     * The browser manager's `open`: an opened session that cannot show its page is stopped again. The
     * lease of a session that was active is released by its `closed` handler.
     */
    method OpenBrowser(run: RunId)
      returns (end: OpenEnd, ghost threw: bool, ghost verified: bool, ghost suitable: bool, ghost shown: bool)
      requires Valid()
      modifies this
      ensures Valid()
      ensures end.Used? <==> run in old(manager).runs
      ensures end.Unavailable? ==>
                && run in manager.runs
                && (manager.runs[run].faulted || (run !in manager.active && !manager.runs[run].vm.Alive?))
      ensures end.Opened? ==> At(manager, run, Active) && manager.runs[run].starts == 1
      ensures end.CapacityReached? <==>
                run !in old(manager).runs && |old(manager).active| + |old(manager).opening| >= maxSessions
      ensures end.Unavailable? || end.Opened? ==>
                run in manager.runs
                && (end.Opened? <==> !threw && verified && suitable && shown && !manager.runs[run].cancelled)
    {
      shown := true;
      end, threw, verified, suitable := Start(run, false);
      if !end.Opened? {
        return;
      }
      InterfereFreely(run);
      var shows: bool := *;
      shown := shows;
      if !shows {
        var found, ok := Stop(run);
        end := Unavailable;
        return;
      }
      assert !manager.runs[run].cancelled by { RunKeeps(maxSessions, steps); assert RunInv(manager, run); }
      assert manager.runs[run].starts == 1 by { RunKeeps(maxSessions, steps); assert RunInv(manager, run); }
    }

    /** A step of anybody's, which no run goes back on. */
    method TakeLater(step: Step)
      requires Valid() && Enabled(manager, step)
      modifies this
      ensures Valid() && manager == After(old(manager), step) && AllLater(old(manager), manager)
    {
      RunKeeps(maxSessions, steps);
      StepIsLater(manager, step);
      Take(step);
    }

    /** Everybody moves while a stop, or the end of somebody's opening, is awaited. */
    method InterfereWithStop()
      requires Valid()
      modifies this
      ensures Valid() && AllLater(old(manager), manager)
    {
      var moves :| 0 <= moves;
      for i := 0 to moves
        invariant Valid() && AllLater(old(manager), manager)
      {
        var step: Step := *;
        if Enabled(manager, step) {
          ghost var before := manager;
          TakeLater(step);
          LaterAgain(old(manager), before, manager);
        }
      }
    }

    /** `stop`: cancels an opening, stops and clears an active session; true if there was either. */
    method Stop(run: RunId) returns (found: bool, ok: bool)
      requires Valid()
      modifies this
      ensures Valid()
      ensures found <==> run in old(manager).opening || run in old(manager).active
      ensures run in old(manager).opening ==> run in manager.runs && manager.runs[run].cancelled
      ensures run in old(manager).active ==>
                && run in manager.runs
                && if ok then run !in manager.active && !manager.runs[run].vm.Alive? else manager.runs[run].faulted
      ensures run !in old(manager).active ==> manager == After(old(manager), Cancel(run))
    {
      RunKeeps(maxSessions, steps);
      assert RunInv(manager, run);
      found := run in manager.opening || run in manager.active;
      Take(Cancel(run));
      ok := true;
      if run in manager.active {
        assert run in manager.runs && run !in manager.opening && manager.runs[run].stage.Active?;
        InterfereFreely(run);
        // unless its guest exited meanwhile and its `closed` handler cleared it
        if run in manager.active {
          ok := *;
          Take(StopActive(run, ok));
        }
      }
    }

    /**
     * `stopAll`. `active` lists the active runs in whatever order their stops resolve; `returned` is
     * false while an opening it waits for has not completed. When it returns, whatever was opening at the
     * call is over, and a run still active began after the call or its stop failed.
     */
    method StopAll(active: seq<RunId>) returns (returned: bool)
      requires Valid() && forall run :: run in manager.active ==> run in active
      modifies this
      ensures Valid()
      ensures forall run :: run in old(manager).opening ==>
                run in manager.runs && manager.runs[run].cancelled && run !in manager.active
      ensures returned ==> forall run :: run in old(manager).opening ==> run !in manager.opening
      ensures returned ==> forall run :: run in manager.active ==>
                run !in old(manager).runs || (run in manager.runs && manager.runs[run].faulted)
    {
      ghost var before := manager;
      var opening := CancelOpenings();
      for i := 0 to |active|
        invariant Valid() && AllLater(before, manager)
        invariant AllCancelled(manager, before.opening)
        invariant AllStopped(manager, before, active[..i])
      {
        AwaitStop(active[i], before, active[..i]);
        assert active[..i + 1] == active[..i] + [active[i]];
      }
      assert active[..|active|] == active;
      returned := AwaitOpenings(opening, before, active);
    }

    /** The part of `stopAll` before its first await. */
    method CancelOpenings() returns (opening: set<RunId>)
      requires Valid()
      modifies this
      ensures Valid() && Inv(old(manager)) && AllLater(old(manager), manager)
      ensures opening == old(manager).opening && AllCancelled(manager, opening)
    {
      RunKeeps(maxSessions, steps);
      opening := manager.opening;
      assert forall run :: run in opening ==> RunInv(manager, run);
      TakeLater(CancelAll);
    }

    /** None of these is opening any more. */
    predicate Completed(opening: set<RunId>)
      reads this
    {
      forall run :: run in opening ==> run !in manager.opening
    }

    /** One of the stops resolves; `done` resolved earlier. */
    method AwaitStop(run: RunId, ghost before: Manager, ghost done: seq<RunId>)
      requires Valid() && Inv(before) && AllLater(before, manager)
      requires AllCancelled(manager, before.opening)
      requires AllStopped(manager, before, done)
      modifies this
      ensures Valid() && AllLater(before, manager)
      ensures AllCancelled(manager, before.opening)
      ensures AllStopped(manager, before, done + [run])
    {
      ghost var waiting := manager;
      InterfereWithStop();
      LaterAgain(before, waiting, manager);
      assert RunInv(before, run);
      if run in manager.active {
        var stopped: bool := *;
        ghost var asked := manager;
        RunKeeps(maxSessions, steps);
        assert RunInv(manager, run);
        TakeLater(StopActive(run, stopped));
        LaterAgain(before, asked, manager);
        LaterAgain(waiting, asked, manager);
      }
    }

    /** The other half of `allSettled`: each opening there was at the call completes. */
    method AwaitOpenings(opening: set<RunId>, ghost before: Manager, ghost active: seq<RunId>) returns (returned: bool)
      requires Valid() && Inv(before) && AllLater(before, manager) && opening == before.opening
      requires forall run :: run in before.active ==> run in active
      requires AllCancelled(manager, before.opening)
      requires AllStopped(manager, before, active)
      modifies this
      ensures Valid()
      ensures forall run :: run in before.opening ==>
                run in manager.runs && manager.runs[run].cancelled && run !in manager.active
      ensures returned ==> forall run :: run in before.opening ==> run !in manager.opening
      ensures returned ==> forall run :: run in manager.active ==>
                run !in before.runs || (run in manager.runs && manager.runs[run].faulted)
    {
      ghost var waiting := manager;
      InterfereWithStop();
      LaterAgain(before, waiting, manager);
      RunKeeps(maxSessions, steps);
      assert forall run :: run in before.opening || run in manager.active ==> RunInv(before, run) && RunInv(manager, run);
      assert forall run :: run in before.active ==> Stopped(waiting, run);
      returned := Completed(opening);
    }
  }

  /** What becomes of a run nobody can start again: cancellations and faults stay, and what is over is over. */
  predicate Later(before: Manager, after: Manager, run: RunId)
    requires run in before.runs
  {
    && run in after.runs
    && (before.runs[run].cancelled ==> after.runs[run].cancelled)
    && (before.runs[run].faulted ==> after.runs[run].faulted)
    && (run !in before.opening ==> run !in after.opening)
    && (run !in before.opening && run !in before.active ==> run !in after.active)
  }

  ghost predicate AllLater(before: Manager, after: Manager) {
    forall run :: run in before.runs ==> Later(before, after, run)
  }

  predicate AllCancelled(manager: Manager, runs: set<RunId>) {
    forall run :: run in runs ==> run in manager.runs && manager.runs[run].cancelled
  }

  /** It is not opening, and not active unless its stop failed. */
  /** Those of the listed runs that were active before are stopped. */
  predicate AllStopped(manager: Manager, before: Manager, runs: seq<RunId>) {
    forall run :: run in runs && run in before.active ==> Stopped(manager, run)
  }

  predicate Stopped(manager: Manager, run: RunId) {
    run in manager.runs && run !in manager.opening && (run !in manager.active || manager.runs[run].faulted)
  }

  lemma LaterAgain(one: Manager, two: Manager, three: Manager)
    requires AllLater(one, two) && AllLater(two, three)
    ensures AllLater(one, three)
    ensures forall run :: run in two.runs && two.runs[run].cancelled ==> run in three.runs && three.runs[run].cancelled
    ensures forall run :: Stopped(two, run) ==> Stopped(three, run)
  {
    forall run | run in one.runs ensures Later(one, three, run) {
      assert Later(one, two, run) && Later(two, three, run);
    }
    forall run | run in two.runs ensures Later(two, three, run) {}
  }

  lemma StepIsLater(manager: Manager, step: Step)
    requires Inv(manager) && Enabled(manager, step)
    ensures AllLater(manager, After(manager, step))
  {
    forall run | run in manager.runs ensures Later(manager, After(manager, step), run) {
      assert RunInv(manager, run);
      if !step.CancelAll? {
        if step.run == run {
          OwnStepIsLater(manager, step);
        } else {
          ElsewhereUntouched(manager, step, run);
        }
      }
    }
  }

  lemma OwnStepIsLater(manager: Manager, step: Step)
    requires Enabled(manager, step) && !step.CancelAll? && step.run in manager.runs && RunInv(manager, step.run)
    ensures Later(manager, After(manager, step), step.run)
  {
  }
}
