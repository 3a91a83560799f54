/** Capacity, fencing, pause and accounting over every run of the pool. */
module InferencePoolSafety {
  import opened Options
  import opened InferencePool

  // ------------------------------------------------------------------- counting

  lemma {:induction false} OccupiedUpdate(slots: seq<SlotFile>, index: nat, file: SlotFile)
    requires index < |slots|
    ensures Occupied(slots[index := file])
            == Occupied(slots) - (if slots[index].Absent? then 0 else 1) + (if file.Absent? then 0 else 1)
  {
    if index == 0 {
      assert slots[0 := file][1..] == slots[1..];
    } else {
      assert slots[index := file][1..] == slots[1..][index - 1 := file];
      OccupiedUpdate(slots[1..], index - 1, file);
    }
  }

  lemma {:induction false} OccupiedBounds(slots: seq<SlotFile>)
    ensures Occupied(slots) <= |slots|
    ensures Occupied(slots) == |slots| <==> forall i :: 0 <= i < |slots| ==> !slots[i].Absent?
    ensures Occupied(slots) == 0 <==> forall i :: 0 <= i < |slots| ==> slots[i].Absent?
  {
    if slots != [] {
      OccupiedBounds(slots[1..]);
      assert forall i :: 0 < i < |slots| ==> slots[i] == slots[1..][i - 1];
    }
  }

  // ------------------------------------------------------------------- the invariant

  ghost predicate Unbound(pool: Pool, owner: Owner) {
    forall request :: Bound(owner, request) !in pool.log
  }

  ghost predicate SlotInv(pool: Pool, i: nat)
    requires i < |pool.slots|
  {
    pool.slots[i].Held? ==>
      var slot := pool.slots[i].slot;
      && slot.owner in pool.issued
      && (match slot.state
          case Reserved => slot.termination.None?
          case Running => slot.termination.Some? && !slot.termination.value.confirmed
          case Confirmed => slot.termination.Some? && slot.termination.value.confirmed
          case Uncertain => slot.termination.Some? && !slot.termination.value.confirmed)
      && (slot.termination.Some? ==> Bound(slot.owner, slot.termination.value.request) in pool.log)
      && (slot.termination.None? ==> Unbound(pool, slot.owner))
  }

  ghost predicate Holds(pool: Pool, owner: Owner) {
    exists i :: 0 <= i < |pool.slots| && OwnedBy(pool.slots, i, owner)
  }

  /** What became of a bound owner: its slot still stands, or its confirmed termination was submitted. */
  ghost predicate Kept(pool: Pool, owner: Owner, request: Request) {
    Holds(pool, owner) || Submitted(owner, Termination(request, true)) in pool.log || Corrupted(owner) in pool.log
  }

  ghost predicate Inv(pool: Pool) {
    && |pool.slots| == SLOTS
    && 1 <= pool.control.capacity <= SLOTS
    && (pool.control.pendingAction == Some(PauseAction) ==> pool.control.paused)
    && (forall i :: 0 <= i < |pool.slots| ==> SlotInv(pool, i))
    && (forall i, j :: 0 <= i < j < |pool.slots| && pool.slots[i].Held? && pool.slots[j].Held? ==>
          pool.slots[i].slot.owner != pool.slots[j].slot.owner)
    && (forall owner, request :: Bound(owner, request) in pool.log ==> owner in pool.issued && Kept(pool, owner, request))
    && (forall owner, termination :: Submitted(owner, termination) in pool.log ==> Bound(owner, termination.request) in pool.log)
    && (forall i, j :: 0 <= i < j < |pool.log| && pool.log[i].Bound? && pool.log[j].Bound? ==>
          pool.log[i].owner != pool.log[j].owner)
  }

  lemma KeptBySteps(pool: Pool, step: Step, owner: Owner, request: Request)
    requires Inv(pool) && Enabled(pool, step) && Bound(owner, request) in After(pool, step).log
    ensures Kept(After(pool, step), owner, request)
  {
    var later := After(pool, step);
    if step.Bind? && step.owner == owner && step.request == request {
      assert OwnedBy(later.slots, step.index, owner);
    } else {
      assert Kept(pool, owner, request);
      if Holds(pool, owner) {
        var i :| 0 <= i < |pool.slots| && OwnedBy(pool.slots, i, owner);
        assert SlotInv(pool, i);
        if OwnedBy(later.slots, i, owner) {
        } else if step.DeleteConfirmed? {
          var k :| 0 <= k < |pool.log| && SubmittedConfirmed(pool.log[k], owner);
          var other := pool.log[k].termination.request;
          assert Bound(owner, other) in pool.log && Bound(owner, request) in pool.log;
          BoundOnce(pool, owner, other, request);
        } else {
          assert step.Corrupt?;
        }
      }
    }
  }

  lemma BoundOnce(pool: Pool, owner: Owner, one: Request, other: Request)
    requires forall i, j :: 0 <= i < j < |pool.log| && pool.log[i].Bound? && pool.log[j].Bound? ==>
               pool.log[i].owner != pool.log[j].owner
    requires Bound(owner, one) in pool.log && Bound(owner, other) in pool.log
    ensures one == other
  {
    var i :| 0 <= i < |pool.log| && pool.log[i] == Bound(owner, one);
    var j :| 0 <= j < |pool.log| && pool.log[j] == Bound(owner, other);
  }

  lemma SlotKept(pool: Pool, step: Step, i: nat)
    requires Inv(pool) && Enabled(pool, step) && i < SLOTS
    ensures |After(pool, step).slots| == SLOTS && SlotInv(After(pool, step), i)
  {
    assert SlotInv(pool, i);
  }

  lemma InvKept(pool: Pool, step: Step)
    requires Inv(pool) && Enabled(pool, step)
    ensures Inv(After(pool, step))
  {
    var later := After(pool, step);
    forall i | 0 <= i < SLOTS ensures SlotInv(later, i) {
      SlotKept(pool, step, i);
    }
    forall owner, request | Bound(owner, request) in later.log
      ensures owner in later.issued && Kept(later, owner, request)
    {
      KeptBySteps(pool, step, owner, request);
      if step.Bind? {
        assert SlotInv(pool, step.index);
      }
    }
    if step.Bind? || step.Submit? {
      assert SlotInv(pool, step.index);
    }
    if step.Admit? {
      forall i | 0 <= i < SLOTS && pool.slots[i].Held? ensures pool.slots[i].slot.owner != step.owner {
        assert SlotInv(pool, i);
      }
    }
  }

  lemma FreshInv()
    ensures Inv(FRESH)
  {
  }

  lemma {:induction false} RunKeeps(pool: Pool, steps: seq<Step>)
    requires Inv(pool) && Run(pool, steps).Some?
    ensures Inv(Run(pool, steps).value)
    decreases |steps|
  {
    if steps != [] {
      var front := steps[..|steps| - 1];
      RunKeeps(pool, front);
      InvKept(Run(pool, front).value, steps[|steps| - 1]);
    }
  }

  /** The pool stands where some run from a fresh installation leads. */
  ghost predicate Reachable(pool: Pool) {
    exists steps :: Run(FRESH, steps) == Some(pool)
  }

  lemma ReachableKeeps(pool: Pool)
    requires Reachable(pool)
    ensures Inv(pool)
  {
    var steps :| Run(FRESH, steps) == Some(pool);
    FreshInv();
    RunKeeps(FRESH, steps);
  }

  // ------------------------------------------------------------------- admission

  /**
   * Slots fill up only by an admission that starts unpaused, with no uncertain, orphaned or unreadable
   * slot, and below the capacity; and then by one.
   */
  lemma AdmissionIsGuarded(pool: Pool, step: Step)
    requires Enabled(pool, step) && Occupied(After(pool, step).slots) > Occupied(pool.slots)
    ensures step.Admit?
    ensures !pool.control.paused && Healthy(pool.slots, pool.dead)
    ensures Occupied(After(pool, step).slots) == Occupied(pool.slots) + 1 <= pool.control.capacity
  {
    OccupancyStep(pool, step);
  }

  lemma OccupancyStep(pool: Pool, step: Step)
    requires Enabled(pool, step)
    ensures Occupied(After(pool, step).slots) <= Occupied(pool.slots) + if step.Admit? then 1 else 0
  {
    var later := After(pool, step);
    if later.slots != pool.slots {
      OccupiedUpdate(pool.slots, step.index, later.slots[step.index]);
    }
  }

  predicate CapacityAtMost(steps: seq<Step>, bound: nat) {
    forall i :: 0 <= i < |steps| && steps[i].Sync? ==> steps[i].resource.capacity <= bound
  }

  /** If no sync ever grants more than `bound`, no more than `bound` slots are ever occupied. */
  lemma {:induction false} OccupancyWithinGrants(steps: seq<Step>, bound: nat)
    requires bound >= 1 && CapacityAtMost(steps, bound) && Run(FRESH, steps).Some?
    ensures Run(FRESH, steps).value.control.capacity <= bound
    ensures Occupied(Run(FRESH, steps).value.slots) <= bound
    decreases |steps|
  {
    if steps == [] {
      OccupiedBounds(FRESH.slots);
    } else {
      var front := steps[..|steps| - 1];
      OccupancyWithinGrants(front, bound);
      OccupancyStep(Run(FRESH, front).value, steps[|steps| - 1]);
    }
  }

  // ------------------------------------------------------------------- accounting

  /**
   * A request that was ever bound still occupies its slot, or its confirmed termination was
   * submitted. The death of its process frees nothing; only a damaged file is beyond accounting.
   */
  lemma NothingBoundIsForgotten(pool: Pool, owner: Owner, request: Request)
    requires Reachable(pool) && Bound(owner, request) in pool.log && Corrupted(owner) !in pool.log
    ensures Holds(pool, owner) || Submitted(owner, Termination(request, true)) in pool.log
  {
    ReachableKeeps(pool);
    assert Kept(pool, owner, request);
  }

  /** Some request of this owner's started and its confirmed termination has not been submitted. */
  ghost predicate Unaccounted(pool: Pool, owner: Owner) {
    && Corrupted(owner) !in pool.log
    && exists request :: Bound(owner, request) in pool.log && Submitted(owner, Termination(request, true)) !in pool.log
  }

  lemma {:induction false} HoldersOccupy(slots: seq<SlotFile>, owners: set<Owner>)
    requires forall owner :: owner in owners ==> exists i :: OwnedBy(slots, i, owner)
    ensures |owners| <= Occupied(slots)
    decreases |slots|
  {
    if slots == [] {
      assert owners == {};
    } else {
      var rest := if slots[0].Held? then owners - {slots[0].slot.owner} else owners;
      forall owner | owner in rest ensures exists i :: OwnedBy(slots[1..], i, owner) {
        var i: nat :| OwnedBy(slots, i, owner);
        assert OwnedBy(slots[1..], i - 1, owner);
      }
      HoldersOccupy(slots[1..], rest);
    }
  }

  /** Requests unaccounted for fill that many slots: they count against the capacity, one each. */
  lemma UnconfirmedStaysOccupied(pool: Pool, owners: set<Owner>)
    requires Reachable(pool) && forall owner :: owner in owners ==> Unaccounted(pool, owner)
    ensures |owners| <= Occupied(pool.slots)
  {
    forall owner | owner in owners ensures exists i :: OwnedBy(pool.slots, i, owner) {
      var request :| Bound(owner, request) in pool.log && Submitted(owner, Termination(request, true)) !in pool.log;
      NothingBoundIsForgotten(pool, owner, request);
    }
    HoldersOccupy(pool.slots, owners);
  }

  /** So over any run no more requests are unaccounted for than the largest capacity ever granted. */
  lemma UnaccountedWithinGrants(steps: seq<Step>, bound: nat, owners: set<Owner>)
    requires bound >= 1 && CapacityAtMost(steps, bound) && Run(FRESH, steps).Some?
    requires forall owner :: owner in owners ==> Unaccounted(Run(FRESH, steps).value, owner)
    ensures |owners| <= bound
  {
    UnconfirmedStaysOccupied(Run(FRESH, steps).value, owners);
    OccupancyWithinGrants(steps, bound);
  }

  /** Each owner token binds at most once, however many leases carry it. */
  lemma TokensBindOnce(pool: Pool, i: nat, j: nat)
    requires Reachable(pool) && i < |pool.log| && j < |pool.log|
    requires pool.log[i].Bound? && pool.log[j].Bound? && pool.log[i].owner == pool.log[j].owner
    ensures i == j
  {
    ReachableKeeps(pool);
  }

  /** What is submitted was bound by that owner. */
  lemma OnlyBoundIsSubmitted(pool: Pool, owner: Owner, termination: Termination)
    requires Reachable(pool) && Submitted(owner, termination) in pool.log
    ensures Bound(owner, termination.request) in pool.log
  {
    ReachableKeeps(pool);
  }

  // ------------------------------------------------------------------- control

  /** The revision never falls and an enrolled resource never changes. */
  lemma ControlOnlyAdvances(pool: Pool, step: Step)
    requires Enabled(pool, step)
    ensures After(pool, step).control.controlRevision >= pool.control.controlRevision
    ensures pool.control.resourceId.Some? ==> After(pool, step).control.resourceId == pool.control.resourceId
  {
  }

  /** Neither an explicit resume nor a sync that acknowledges the pause. */
  predicate LeavesPause(step: Step) {
    step != Resume && !(step.Sync? && step.acknowledged == Some(PauseAction))
  }

  /**
   * An offline pause holds: until a resume or an acknowledged pause, no sequence of syncs, restarts
   * or other hosts' steps admits anything, and the slots only drain.
   */
  lemma {:induction false} PauseHolds(pool: Pool, steps: seq<Step>)
    requires pool.control.paused && pool.control.pendingAction == Some(PauseAction)
    requires forall i :: 0 <= i < |steps| ==> LeavesPause(steps[i])
    requires Run(pool, steps).Some?
    ensures Run(pool, steps).value.control.paused
    ensures Run(pool, steps).value.control.pendingAction == Some(PauseAction)
    ensures forall i :: 0 <= i < |steps| ==> !steps[i].Admit?
    ensures Occupied(Run(pool, steps).value.slots) <= Occupied(pool.slots)
    decreases |steps|
  {
    if steps != [] {
      var front, last := steps[..|steps| - 1], steps[|steps| - 1];
      PauseHolds(pool, front);
      OccupancyStep(Run(pool, front).value, last);
      assert forall i :: 0 <= i < |front| ==> steps[i] == front[i];
      assert !last.Admit?;
    }
  }

  /** A pending pause is always in force. */
  lemma PendingPauseIsPaused(pool: Pool)
    requires Reachable(pool) && pool.control.pendingAction == Some(PauseAction)
    ensures pool.control.paused
  {
    ReachableKeeps(pool);
  }
}
