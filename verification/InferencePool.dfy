/**
 * The local inference coordinator's durable state as every host under one account sees it: the
 * control file and sixteen slot files. Each step is one body of `mutate`, or one slot of such a body
 * that touches several; `Submit` happens outside the lock.
 */
module InferencePool {
  import opened Options

  type Pid = nat
  type Owner = nat
  type HostId = nat
  type Request = nat

  const SLOTS: nat := 16

  datatype Action = PauseAction | ResumeAction

  datatype Control = Control(capacity: nat, controlRevision: nat, paused: bool, resourceId: Option<nat>, pendingAction: Option<Action>)

  /** What the server says of the resource. */
  datatype ResourceControl = ResourceControl(capacity: nat, controlRevision: nat, paused: bool, resourceId: nat)

  datatype SlotState = Reserved | Running | Confirmed | Uncertain

  /** `request` stands for the fields that identify the admitted request. */
  datatype Termination = Termination(request: Request, confirmed: bool)

  datatype Slot = Slot(owner: Owner, hostId: Option<HostId>, pid: Pid, state: SlotState, termination: Option<Termination>)

  datatype SlotFile = Absent | Damaged | Held(slot: Slot)

  datatype Event = Bound(owner: Owner, request: Request) | Submitted(owner: Owner, termination: Termination) | Corrupted(owner: Owner)

  datatype Pool = Pool(control: Control, slots: seq<SlotFile>, dead: set<Pid>, issued: set<Owner>, log: seq<Event>)

  datatype Step =
    | Sync(resource: ResourceControl, acknowledged: Option<Action>)
    | Pause
    | Resume
    | Admit(index: nat, owner: Owner, hostId: Option<HostId>, pid: Pid)
    | Reclaim(index: nat, poller: HostId, pid: Pid)
    | AbandonPoll(index: nat, owner: Owner)
    | Bind(index: nat, owner: Owner, request: Request)
    | Finish(index: nat, owner: Owner, confirmed: bool)
    | ReleaseIdle(index: nat, owner: Owner)
    | ConfirmStopped(index: nat)
    | Submit(index: nat)
    | DeleteConfirmed(index: nat, owner: Owner)
    | Die(pid: Pid)
    | Corrupt(index: nat)

  function Occupied(slots: seq<SlotFile>): nat {
    if slots == [] then 0 else (if slots[0].Absent? then 0 else 1) + Occupied(slots[1..])
  }

  /** The slot makes the whole resource unhealthy: uncertain, orphaned while running, or unreadable. */
  predicate Unsure(file: SlotFile, dead: set<Pid>) {
    file.Damaged?
    || (file.Held? && (file.slot.state.Uncertain? || (file.slot.state.Running? && file.slot.pid in dead)))
  }

  predicate Healthy(slots: seq<SlotFile>, dead: set<Pid>) {
    forall i :: 0 <= i < |slots| ==> !Unsure(slots[i], dead)
  }

  /** A poll token whose process is gone before it could have invoked anything. */
  predicate Reclaimable(file: SlotFile, hostId: HostId, dead: set<Pid>) {
    && file.Held? && file.slot.state.Reserved? && file.slot.hostId == Some(hostId)
    && (file.slot.pid == 0 || file.slot.pid in dead)
  }

  predicate OwnedBy(slots: seq<SlotFile>, index: nat, owner: Owner) {
    index < |slots| && slots[index].Held? && slots[index].slot.owner == owner
  }

  predicate Confirmable(file: SlotFile, dead: set<Pid>) {
    && file.Held?
    && !(file.slot.state.Reserved? && file.slot.hostId.Some?)
    && (file.slot.state.Reserved? || file.slot.state.Running? ==> file.slot.pid in dead)
  }

  predicate Enabled(pool: Pool, step: Step) {
    match step
    case Sync(resource, _) =>
      && 1 <= resource.capacity <= SLOTS
      && (pool.control.resourceId.Some? ==> pool.control.resourceId.value == resource.resourceId)
    case Pause => true
    case Resume => true
    case Admit(index, owner, _, pid) =>
      && index < |pool.slots| && pool.slots[index].Absent? && owner !in pool.issued
      && !pool.control.paused && Healthy(pool.slots, pool.dead)
      && Occupied(pool.slots) < pool.control.capacity
    case Reclaim(index, poller, _) => index < |pool.slots| && Reclaimable(pool.slots[index], poller, pool.dead)
    case AbandonPoll(index, owner) => OwnedBy(pool.slots, index, owner) && pool.slots[index].slot.state.Reserved?
    case Bind(index, owner, _) =>
      && OwnedBy(pool.slots, index, owner)
      && pool.slots[index].slot.state.Reserved? && pool.slots[index].slot.termination.None?
    case Finish(index, owner, _) => OwnedBy(pool.slots, index, owner) && pool.slots[index].slot.termination.Some?
    case ReleaseIdle(index, owner) =>
      && OwnedBy(pool.slots, index, owner)
      && pool.slots[index].slot.state.Reserved? && pool.slots[index].slot.termination.None?
    case ConfirmStopped(index) => index < |pool.slots| && Confirmable(pool.slots[index], pool.dead)
    case Submit(index) =>
      && index < |pool.slots| && pool.slots[index].Held? && pool.slots[index].slot.termination.Some?
      && (pool.slots[index].slot.state.Confirmed? || pool.slots[index].slot.state.Uncertain?)
    case DeleteConfirmed(index, owner) =>
      && OwnedBy(pool.slots, index, owner) && pool.slots[index].slot.state.Confirmed?
      && exists i :: 0 <= i < |pool.log| && SubmittedConfirmed(pool.log[i], owner)
    // Process id 0 stands for an abandoned poll and is nobody's.
    case Die(pid) => pid != 0
    case Corrupt(index) => index < |pool.slots| && pool.slots[index].Held?
  }

  predicate SubmittedConfirmed(event: Event, owner: Owner) {
    event.Submitted? && event.owner == owner && event.termination.confirmed
  }

  function Write(pool: Pool, index: nat, slot: Slot): Pool
    requires index < |pool.slots|
  {
    pool.(slots := pool.slots[index := Held(slot)])
  }

  function Synced(control: Control, resource: ResourceControl, acknowledged: Option<Action>): Control {
    if resource.controlRevision < control.controlRevision then control
    else Control(
           resource.capacity, resource.controlRevision,
           (control.pendingAction == Some(PauseAction) && acknowledged != Some(PauseAction)) || resource.paused,
           Some(resource.resourceId),
           if control.pendingAction == acknowledged then None else control.pendingAction)
  }

  function After(pool: Pool, step: Step): Pool
    requires Enabled(pool, step)
  {
    match step
    case Sync(resource, acknowledged) => pool.(control := Synced(pool.control, resource, acknowledged))
    case Pause => pool.(control := pool.control.(paused := true, pendingAction := Some(PauseAction)))
    case Resume => pool.(control := pool.control.(pendingAction := Some(ResumeAction)))
    case Admit(index, owner, hostId, pid) =>
      Write(pool, index, Slot(owner, hostId, pid, Reserved, None)).(issued := pool.issued + {owner})
    case Reclaim(index, _, pid) => Write(pool, index, pool.slots[index].slot.(pid := pid))
    case AbandonPoll(index, _) => Write(pool, index, pool.slots[index].slot.(pid := 0))
    case Bind(index, owner, request) =>
      Write(pool, index, pool.slots[index].slot.(state := Running, termination := Some(Termination(request, false))))
      .(log := pool.log + [Bound(owner, request)])
    case Finish(index, _, confirmed) =>
      var slot := pool.slots[index].slot;
      Write(pool, index, slot.(state := if confirmed then Confirmed else Uncertain,
                               termination := Some(slot.termination.value.(confirmed := confirmed))))
    case ReleaseIdle(index, _) => pool.(slots := pool.slots[index := Absent])
    case ConfirmStopped(index) =>
      var slot := pool.slots[index].slot;
      if slot.termination.Some?
      then Write(pool, index, slot.(state := Confirmed, termination := Some(slot.termination.value.(confirmed := true))))
      else pool.(slots := pool.slots[index := Absent])
    case Submit(index) =>
      pool.(log := pool.log + [Submitted(pool.slots[index].slot.owner, pool.slots[index].slot.termination.value)])
    case DeleteConfirmed(index, _) => pool.(slots := pool.slots[index := Absent])
    case Die(pid) => pool.(dead := pool.dead + {pid})
    case Corrupt(index) =>
      pool.(slots := pool.slots[index := Damaged], log := pool.log + [Corrupted(pool.slots[index].slot.owner)])
  }

  const FRESH_CONTROL: Control := Control(1, 0, false, None, None)

  function NoSlots(): seq<SlotFile> {
    seq(SLOTS, i => Absent)
  }

  const FRESH: Pool := Pool(FRESH_CONTROL, NoSlots(), {}, {}, [])

  function Run(pool: Pool, steps: seq<Step>): Option<Pool>
    decreases |steps|
  {
    if steps == [] then Some(pool)
    else
      match Run(pool, steps[..|steps| - 1])
      case None => None
      case Some(before) =>
        if Enabled(before, steps[|steps| - 1]) then Some(After(before, steps[|steps| - 1])) else None
  }
}
