/**
 * The coordinator's methods over the control file and the sixteen slot files. Each body of `mutate`
 * runs alone (`MutationLock.MutualExclusion`), so a method that mutates once is one or more steps of
 * the pool with nothing in between; `FlushTerminations` reads and submits outside the lock, and
 * other hosts may move between its steps. `Valid` says that all of it is a run of the pool.
 */
module LocalInferenceCoordinator {
  import opened Options
  import opened InferencePool
  import opened InferencePoolSafety

  datatype Lease = Lease(index: nat, owner: Owner)

  class Coordinator {
    var control: Control
    const slots: array<SlotFile>
    var dead: set<Pid>
    var issued: set<Owner>
    var log: seq<Event>
    ghost var steps: seq<Step>
    /** How many steps other hosts took between this one's. */
    ghost var others: nat

    function View(): Pool
      reads this, slots
    {
      Pool(control, slots[..], dead, issued, log)
    }

    ghost predicate Valid()
      reads this, slots
    {
      slots.Length == SLOTS && Run(FRESH, steps) == Some(View())
    }

    constructor ()
      ensures Valid() && fresh(slots) && View() == FRESH
    {
      var files := new SlotFile[SLOTS](i => Absent);
      slots := files;
      control, dead, issued, log, steps, others := FRESH_CONTROL, {}, {}, [], [], 0;
      new;
      assert slots[..] == NoSlots();
    }

    method Take(step: Step)
      requires Valid() && Enabled(View(), step)
      modifies this, slots
      ensures Valid() && View() == After(old(View()), step) && steps == old(steps) + [step] && others == old(others)
    {
      var later := After(View(), step);
      assert |later.slots| == SLOTS;
      control, dead, issued, log := later.control, later.dead, later.issued, later.log;
      forall i | 0 <= i < SLOTS {
        slots[i] := later.slots[i];
      }
      assert slots[..] == later.slots;
      steps := steps + [step];
      assert steps[..|steps| - 1] == old(steps);
    }

    /** Nobody else took a step. */
    twostate predicate Alone()
      reads this
    {
      others == old(others)
    }

    /** Other hosts' methods, deaths and damage, between two steps of this one. */
    method Interfere()
      requires Valid()
      modifies this, slots
      ensures Valid() && TokensStay(old(View()), View()) && old(others) <= others && (Alone() ==> View() == old(View()))
      ensures forall event :: event in old(log) ==> event in log
    {
      var moves :| 0 <= moves;
      for i := 0 to moves
        invariant Valid() && TokensStay(old(View()), View()) && old(others) <= others && (Alone() ==> View() == old(View()))
        invariant forall event :: event in old(log) ==> event in log
      {
        var step: Step := *;
        if Enabled(View(), step) {
          TokenStays(View(), step);
          Take(step);
          others := others + 1;
        }
      }
    }

    // ----------------------------------------------------------------- control

    /** Refused for another resource; a stale revision changes nothing. */
    method SyncControl(resource: ResourceControl, acknowledged: Option<Action>) returns (ok: bool)
      requires Valid() && 1 <= resource.capacity <= SLOTS
      modifies this, slots
      ensures Valid() && slots[..] == old(slots[..])
      ensures ok <==> old(control).resourceId in {None, Some(resource.resourceId)}
      ensures !ok || resource.controlRevision < old(control).controlRevision ==> View() == old(View())
      ensures ok && resource.controlRevision >= old(control).controlRevision ==>
                && control.capacity == resource.capacity && control.controlRevision == resource.controlRevision
                && control.resourceId == Some(resource.resourceId)
                && (control.paused <==> resource.paused || control.pendingAction == Some(PauseAction))
                && control.pendingAction == if old(control).pendingAction == acknowledged then None
                                            else old(control).pendingAction
    {
      if control.resourceId.Some? && control.resourceId.value != resource.resourceId {
        return false;
      }
      Take(Sync(resource, acknowledged));
      return true;
    }

    method PauseOffline()
      requires Valid()
      modifies this, slots
      ensures Valid() && View() == old(View()).(control := control)
      ensures control == old(control).(paused := true, pendingAction := Some(PauseAction))
    {
      Take(Pause);
    }

    method ResumeOffline()
      requires Valid()
      modifies this, slots
      ensures Valid() && View() == old(View()).(control := control)
      ensures control == old(control).(pendingAction := Some(ResumeAction))
    {
      Take(Resume);
    }

    // ----------------------------------------------------------------- admission

    /** `healthReason() === null`. */
    method IsHealthy() returns (healthy: bool)
      requires slots.Length == SLOTS
      ensures healthy <==> Healthy(slots[..], dead)
    {
      for index := 0 to SLOTS
        invariant forall i :: 0 <= i < index ==> !Unsure(slots[i], dead)
      {
        var file := slots[index];
        if file.Damaged? || (file.Held? && (file.slot.state.Uncertain? || (file.slot.state.Running? && file.slot.pid in dead))) {
          assert Unsure(slots[..][index], dead);
          return false;
        }
      }
      healthy := true;
    }

    /** How many slots are occupied, and the first empty one. */
    method Survey() returns (occupied: nat, empty: Option<nat>)
      requires slots.Length == SLOTS
      ensures occupied == Occupied(slots[..])
      ensures empty.Some? ==> empty.value < SLOTS && slots[empty.value].Absent? && forall i :: 0 <= i < empty.value ==> !slots[i].Absent?
      ensures empty.None? ==> forall i :: 0 <= i < SLOTS ==> !slots[i].Absent?
    {
      occupied, empty := 0, None;
      for index := 0 to SLOTS
        invariant occupied + Occupied(slots[index..]) == Occupied(slots[..])
        invariant empty.Some? ==> empty.value < index && slots[empty.value].Absent? && forall i :: 0 <= i < empty.value ==> !slots[i].Absent?
        invariant empty.None? ==> forall i :: 0 <= i < index ==> !slots[i].Absent?
      {
        assert slots[index..][1..] == slots[index + 1..];
        if !slots[index].Absent? {
          occupied := occupied + 1;
        } else if empty.None? {
          empty := Some(index);
        }
      }
    }

    /** The poll token a dead process of the same host left behind, if one is reusable. */
    method FindReclaimable(hostId: Option<HostId>) returns (found: Option<nat>)
      requires slots.Length == SLOTS
      ensures found.Some? ==> hostId.Some? && found.value < SLOTS && Reclaimable(slots[found.value], hostId.value, dead)
      ensures found.None? && hostId.Some? ==> forall i :: 0 <= i < SLOTS ==> !Reclaimable(slots[i], hostId.value, dead)
    {
      if hostId.None? {
        return None;
      }
      for index := 0 to SLOTS
        invariant forall i :: 0 <= i < index ==> !Reclaimable(slots[i], hostId.value, dead)
      {
        if Reclaimable(slots[index], hostId.value, dead) {
          return Some(index);
        }
      }
      return None;
    }

    /**
     * `acquire`. It takes over a reusable poll token, else admits into the first empty slot under the
     * capacity of a healthy, unpaused resource, else answers nothing and changes nothing; and it
     * answers nothing only when it may not admit.
     */
    method Acquire(hostId: Option<HostId>, pid: Pid, owner: Owner) returns (lease: Option<Lease>)
      requires Valid() && owner !in issued
      modifies this, slots
      ensures Valid() && control == old(control) && dead == old(dead) && log == old(log)
      ensures lease.None? ==>
                && View() == old(View())
                && (control.paused || !Healthy(slots[..], dead) || Occupied(slots[..]) >= control.capacity)
      ensures lease.Some? ==> OwnedBy(slots[..], lease.value.index, lease.value.owner)
      ensures lease.Some? && lease.value.owner != owner ==>
                && hostId.Some? && Reclaimable(old(slots[..])[lease.value.index], hostId.value, dead)
                && Occupied(slots[..]) == old(Occupied(slots[..]))
                && var taken := old(slots[..])[lease.value.index].slot;
                   slots[..] == old(slots[..])[lease.value.index := Held(taken.(pid := pid))]
      ensures lease.None? || lease.value.owner == owner ==>
                forall i :: 0 <= i < SLOTS && hostId.Some? ==> !Reclaimable(old(slots[..])[i], hostId.value, dead)
      ensures lease.Some? && lease.value.owner == owner ==>
                && old(slots[..])[lease.value.index].Absent?
                && !control.paused && Healthy(old(slots[..]), dead)
                && Occupied(slots[..]) == old(Occupied(slots[..])) + 1 <= control.capacity
                && slots[..] == old(slots[..])[lease.value.index := Held(Slot(owner, hostId, pid, Reserved, None))]
    {
      var reusable := FindReclaimable(hostId);
      if reusable.Some? {
        var token := TakeOver(reusable.value, hostId.value, pid);
        return Some(Lease(reusable.value, token));
      }
      var healthy := IsHealthy();
      if control.paused || !healthy {
        return None;
      }
      var occupied, empty := Survey();
      if occupied >= control.capacity {
        return None;
      }
      if empty.None? {
        assert control.capacity <= SLOTS by {
          FreshInv();
          RunKeeps(FRESH, steps);
        }
        OccupiedBounds(slots[..]);
        return None;
      }
      var index := empty.value;
      assert slots[..][index] == slots[index];
      OccupiedUpdate(slots[..], index, Held(Slot(owner, hostId, pid, Reserved, None)));
      Take(Admit(index, owner, hostId, pid));
      return Some(Lease(index, owner));
    }

    /** The poll token's file with the new process in it. */
    method TakeOver(index: nat, hostId: HostId, pid: Pid) returns (token: Owner)
      requires Valid() && index < SLOTS && Reclaimable(slots[index], hostId, dead)
      modifies this, slots
      ensures Valid() && control == old(control) && dead == old(dead) && log == old(log) && issued == old(issued)
      ensures token == old(slots[index]).slot.owner && token in issued
      ensures slots[..] == old(slots[..])[index := Held(old(slots[index]).slot.(pid := pid))]
      ensures Occupied(slots[..]) == old(Occupied(slots[..]))
    {
      token := slots[index].slot.owner;
      assert token in issued by {
        FreshInv();
        RunKeeps(FRESH, steps);
        assert SlotInv(View(), index);
      }
      assert slots[..][index] == slots[index];
      OccupiedUpdate(slots[..], index, Held(slots[index].slot.(pid := pid)));
      Take(Reclaim(index, hostId, pid));
    }

    // ----------------------------------------------------------------- a lease

    /** Every lease method first checks that its slot still carries its token. */
    predicate Fenced(lease: Lease)
      reads this, slots
    {
      !OwnedBy(slots[..], lease.index, lease.owner)
    }

    method Abandon(lease: Lease) returns (ok: bool)
      requires Valid()
      modifies this, slots
      ensures Valid() && (ok <==> !old(Fenced(lease)))
      ensures !ok ==> View() == old(View())
      ensures ok ==>
                var slot := old(slots[..])[lease.index].slot;
                slots[..] == old(slots[..])[lease.index := Held(if slot.state.Reserved? then slot.(pid := 0) else slot)]
    {
      if Fenced(lease) {
        return false;
      }
      if slots[lease.index].slot.state.Reserved? {
        Take(AbandonPoll(lease.index, lease.owner));
      }
      return true;
    }

    /** Durable before anything is invoked; a token that is bound, or fenced, stays as it is. */
    method BindRequest(lease: Lease, request: Request) returns (ok: bool)
      requires Valid()
      modifies this, slots
      ensures Valid()
      ensures ok <==> !old(Fenced(lease)) && old(slots[..])[lease.index].slot.state.Reserved?
      ensures !ok ==> View() == old(View())
      ensures ok ==>
                && log == old(log) + [Bound(lease.owner, request)]
                && slots[..] == old(slots[..])[lease.index := Held(old(slots[..])[lease.index].slot.(
                                                 state := Running, termination := Some(Termination(request, false))))]
    {
      if Fenced(lease) {
        return false;
      }
      assert slots[..][lease.index] == slots[lease.index];
      assert slots[lease.index].slot.state.Reserved? <==> slots[lease.index].slot.termination.None? by {
        FreshInv();
        RunKeeps(FRESH, steps);
        assert SlotInv(View(), lease.index);
      }
      if !slots[lease.index].slot.state.Reserved? || slots[lease.index].slot.termination.Some? {
        return false;
      }
      Take(Bind(lease.index, lease.owner, request));
      return true;
    }

    method FinishRequest(lease: Lease, confirmed: bool) returns (ok: bool)
      requires Valid()
      modifies this, slots
      ensures Valid()
      ensures ok <==> !old(Fenced(lease)) && old(slots[..])[lease.index].slot.termination.Some?
      ensures !ok ==> View() == old(View())
      ensures ok ==>
                var slot := old(slots[..])[lease.index].slot;
                slots[..] == old(slots[..])[lease.index := Held(slot.(
                               state := if confirmed then Confirmed else Uncertain,
                               termination := Some(Termination(slot.termination.value.request, confirmed))))]
    {
      if Fenced(lease) || slots[lease.index].slot.termination.None? {
        return false;
      }
      Take(Finish(lease.index, lease.owner, confirmed));
      return true;
    }

    method Release(lease: Lease) returns (ok: bool)
      requires Valid()
      modifies this, slots
      ensures Valid()
      ensures ok <==> && !old(Fenced(lease)) && old(slots[..])[lease.index].slot.state.Reserved?
                      && old(slots[..])[lease.index].slot.termination.None?
      ensures slots[..] == if ok then old(slots[..])[lease.index := Absent] else old(slots[..])
    {
      if Fenced(lease) || !slots[lease.index].slot.state.Reserved? || slots[lease.index].slot.termination.Some? {
        return false;
      }
      Take(ReleaseIdle(lease.index, lease.owner));
      return true;
    }

    // ----------------------------------------------------------------- termination

    /** What an explicit confirmation makes of one slot. */
    function ConfirmedFile(file: SlotFile): SlotFile {
      if !file.Held? then file
      else if file.slot.termination.Some?
      then Held(file.slot.(state := Confirmed, termination := Some(file.slot.termination.value.(confirmed := true))))
      else Absent
    }

    /** It stops at the first slot a host still owns or that needs repair; the slots before it are done. */
    method ConfirmAllStopped() returns (ok: bool)
      requires Valid()
      modifies this, slots
      ensures Valid() && control == old(control)
      ensures ok <==> forall i :: 0 <= i < SLOTS ==> old(slots[..])[i].Absent? || Confirmable(old(slots[..])[i], old(dead))
      ensures ok ==> forall i :: 0 <= i < SLOTS ==> slots[i] == ConfirmedFile(old(slots[..])[i])
      ensures forall i :: 0 <= i < SLOTS ==> slots[i] in {old(slots[..])[i], ConfirmedFile(old(slots[..])[i])}
    {
      for index := 0 to SLOTS
        invariant Valid() && control == old(control) && dead == old(dead)
        invariant forall i :: 0 <= i < index ==>
                    && (old(slots[..])[i].Absent? || Confirmable(old(slots[..])[i], dead))
                    && slots[i] == ConfirmedFile(old(slots[..])[i])
        invariant forall i :: index <= i < SLOTS ==> slots[i] == old(slots[..])[i]
      {
        var file := slots[index];
        if file.Absent? {
          continue;
        }
        if file.Damaged? || (file.slot.state.Reserved? && file.slot.hostId.Some?) {
          return false;
        }
        if (file.slot.state.Reserved? || file.slot.state.Running?) && file.slot.pid !in dead {
          return false;
        }
        ghost var before := slots[..];
        assert slots[..][index] == file;
        Take(ConfirmStopped(index));
        assert slots[..] == before[index := ConfirmedFile(file)];
        assert forall i :: 0 <= i < SLOTS && i != index ==> slots[..][i] == before[i];
      }
      ok := true;
    }

    predicate Settled(file: SlotFile) {
      file.Held? && file.slot.termination.Some? && (file.slot.state.Confirmed? || file.slot.state.Uncertain?)
    }

    /**
     * Submits every settled termination it reads and frees the confirmed ones. A slot is deleted only if,
     * after its confirmed termination was submitted, it still carries the same token and is still
     * confirmed; so whatever others did meanwhile, no bound request was forgotten. `seen` is what the
     * second looks found: a token read as confirmed is gone unless such a look found it unconfirmed again.
     * With nobody else about, exactly the confirmed slots are freed.
     */
    method FlushTerminations() returns (ok: bool, ghost read: seq<SlotFile>, ghost seen: seq<SlotFile>)
      requires Valid()
      modifies this, slots
      ensures Valid() && old(others) <= others
      ensures forall event :: event in old(log) ==> event in log
      ensures ok ==> |read| == |seen| == SLOTS
      ensures forall file :: file in read && Settled(file) ==> Submitted(file.slot.owner, file.slot.termination.value) in log
      ensures forall owner, request :: Bound(owner, request) in log ==> Kept(View(), owner, request)
      ensures ok ==> forall i :: 0 <= i < SLOTS && IsConfirmed(read[i]) && OwnedBy(slots[..], i, read[i].slot.owner) ==>
                       Unconfirmed(seen[i], read[i].slot.owner)
      ensures ok && Alone() ==>
                && read == old(slots[..]) && slots[..] == Flushed(old(slots[..]))
                && Occupied(slots[..]) + Confirmeds(old(slots[..])) == Occupied(old(slots[..]))
    {
      ghost var before := slots[..];
      read, seen := [], [];
      ok := true;
      var index := 0;
      while ok && index < SLOTS
        invariant Valid() && index <= SLOTS && old(others) <= others && (ok ==> |read| == |seen| == index)
        invariant forall event :: event in old(log) ==> event in log
        invariant forall file :: file in read && Settled(file) ==> Submitted(file.slot.owner, file.slot.termination.value) in log
        invariant ok ==> forall i :: 0 <= i < index ==> Dealt(View(), i, read[i], seen[i])
        invariant ok && Alone() ==> read == before[..index] && HalfFlushed(before, index, slots[..])
        decreases if ok then SLOTS + 1 - index else 0
      {
        ghost var file, look;
        ghost var past := View();
        ok, file, look := FlushSlot(index);
        if ok {
          DealtStay(past, View(), read, seen);
          read, seen := read + [file], seen + [look];
          if Alone() {
            FlushedOneMore(before, index, past.slots, slots[..]);
          }
        }
        index := index + 1;
      }
      if ok && Alone() {
        assert before[..SLOTS] == before;
        AllFlushed(before, slots[..]);
      }
      FreshInv();
      RunKeeps(FRESH, steps);
    }

    /** A submission may reach the server without its answer coming back; the next flush repeats it. */
    method FlushSlot(index: nat) returns (ok: bool, ghost read: SlotFile, ghost seen: SlotFile)
      requires Valid() && index < SLOTS
      modifies this, slots
      ensures Valid() && TokensStay(old(View()), View()) && old(others) <= others
      ensures forall event :: event in old(log) ==> event in log
      ensures ok && Settled(read) ==> Submitted(read.slot.owner, read.slot.termination.value) in log
      ensures ok ==> Dealt(View(), index, read, seen)
      ensures ok && Alone() ==>
                && read == old(slots[..])[index]
                && slots[..] == old(slots[..])[index := FlushedFile(read)]
    {
      Interfere();
      var file := slots[index];
      read, seen := file, file;
      assert file.Held? ==> file.slot.owner in issued by {
        FreshInv();
        RunKeeps(FRESH, steps);
        assert SlotInv(View(), index);
      }
      assert IsConfirmed(file) ==> file.slot.termination.Some? && file.slot.termination.value.confirmed by {
        FreshInv();
        RunKeeps(FRESH, steps);
        assert SlotInv(View(), index);
      }
      assert slots[..][index] == file;
      if !file.Held? || file.slot.termination.None? || !(file.slot.state.Confirmed? || file.slot.state.Uncertain?) {
        ok := true;
        return;
      }
      var reached: bool, heard: bool := *, *;
      if !reached {
        ok := false;
        return;
      }
      Take(Submit(index));
      assert Submitted(file.slot.owner, file.slot.termination.value) in log;
      ok := heard;
      if ok && file.slot.state.Confirmed? {
        seen := Free(index, file);
      }
    }

    /** The second look at a slot whose confirmed termination was submitted. */
    method Free(index: nat, file: SlotFile) returns (ghost seen: SlotFile)
      requires Valid() && index < SLOTS && IsConfirmed(file) && file.slot.owner in issued
      requires file.slot.termination.Some? && file.slot.termination.value.confirmed
      requires Submitted(file.slot.owner, file.slot.termination.value) in log
      modifies this, slots
      ensures Valid() && TokensStay(old(View()), View()) && old(others) <= others
      ensures forall event :: event in old(log) ==> event in log
      ensures Dealt(View(), index, file, seen)
      ensures Alone() && old(slots[..])[index] == file ==> slots[..] == old(slots[..])[index := Absent]
    {
      ghost var event := Submitted(file.slot.owner, file.slot.termination.value);
      Interfere();
      var current := slots[index];
      seen := current;
      assert slots[..][index] == current;
      if current.Held? && current.slot.owner == file.slot.owner && current.slot.state.Confirmed? {
        assert event in log && SubmittedConfirmed(event, current.slot.owner);
        Take(DeleteConfirmed(index, current.slot.owner));
      }
    }
  }

  predicate IsConfirmed(file: SlotFile) {
    file.Held? && file.slot.state.Confirmed?
  }

  predicate Unconfirmed(file: SlotFile, owner: Owner) {
    file.Held? && file.slot.owner == owner && !file.slot.state.Confirmed?
  }

  /** A slot read as confirmed no longer carries the token, unless the second look found that unconfirmed. */
  predicate Dealt(pool: Pool, index: nat, read: SlotFile, seen: SlotFile) {
    IsConfirmed(read) ==>
      && read.slot.owner in pool.issued
      && (OwnedBy(pool.slots, index, read.slot.owner) ==> Unconfirmed(seen, read.slot.owner))
  }

  function FlushedFile(file: SlotFile): SlotFile {
    if IsConfirmed(file) then Absent else file
  }

  /** The slots with the confirmed ones free. */
  function Flushed(slots: seq<SlotFile>): (flushed: seq<SlotFile>)
    ensures |flushed| == |slots|
  {
    seq(|slots|, i requires 0 <= i < |slots| => FlushedFile(slots[i]))
  }

  function Confirmeds(slots: seq<SlotFile>): nat {
    if slots == [] then 0 else (if IsConfirmed(slots[0]) then 1 else 0) + Confirmeds(slots[1..])
  }

  lemma {:induction false} FlushedOccupies(slots: seq<SlotFile>)
    ensures Occupied(Flushed(slots)) + Confirmeds(slots) == Occupied(slots)
  {
    if slots != [] {
      FlushedOccupies(slots[1..]);
      assert Flushed(slots)[1..] == Flushed(slots[1..]);
    }
  }

  /** The first `index` slots are flushed, the others as they were. */
  ghost predicate HalfFlushed(before: seq<SlotFile>, index: nat, now: seq<SlotFile>) {
    && |now| == |before|
    && forall i :: 0 <= i < |before| ==> now[i] == if i < index then FlushedFile(before[i]) else before[i]
  }

  lemma FlushedOneMore(before: seq<SlotFile>, index: nat, now: seq<SlotFile>, next: seq<SlotFile>)
    requires index < |before| && HalfFlushed(before, index, now)
    requires next == now[index := FlushedFile(now[index])]
    ensures HalfFlushed(before, index + 1, next)
    ensures before[..index] + [now[index]] == before[..index + 1]
  {
  }

  lemma AllFlushed(before: seq<SlotFile>, now: seq<SlotFile>)
    requires HalfFlushed(before, |before|, now)
    ensures now == Flushed(before) && Occupied(now) + Confirmeds(before) == Occupied(before)
  {
    assert now == Flushed(before);
    FlushedOccupies(before);
  }

  /** A token issued before stands only where it stood before. */
  ghost predicate TokensStay(before: Pool, after: Pool) {
    && before.issued <= after.issued
    && forall i: nat, owner :: owner in before.issued && OwnedBy(after.slots, i, owner) ==> OwnedBy(before.slots, i, owner)
  }

  /** What was dealt with stays so. */
  lemma DealtStay(before: Pool, after: Pool, read: seq<SlotFile>, seen: seq<SlotFile>)
    requires |read| == |seen| && TokensStay(before, after)
    requires forall i :: 0 <= i < |read| ==> Dealt(before, i, read[i], seen[i])
    ensures forall i :: 0 <= i < |read| ==> Dealt(after, i, read[i], seen[i])
  {
  }

  /** No step puts an issued token where it did not stand. */
  lemma TokenStays(pool: Pool, step: Step)
    requires Enabled(pool, step)
    ensures TokensStay(pool, After(pool, step))
  {
  }
}
