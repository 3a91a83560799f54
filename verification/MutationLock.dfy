/**
 * The coordinator's mutation lock: a file created exclusively, holding its owner's process id, and
 * recovered by others once that process is dead. Any number of actors in any number of processes
 * interleave; each filesystem call is one step, and a process may die between any two.
 */
module MutationLock {
  import opened Options

  type Pid = nat
  type Inode = nat

  datatype Actor = Actor(pid: Pid, call: nat)

  /** `mutation.lock`: its inode, and the process id once written. */
  datatype LockFile = LockFile(ino: Inode, pid: Option<Pid>)

  /** Where one call of `mutate` stands. */
  datatype Place =
    | Outside
    | Created(ino: Inode)
    | Written
    | Inside(ino: Inode)
    | Leaving
    // inside `recoverMutationLock`, holding `mutation-recovery.lock`
    | Guarded
    | Measured(ino: Inode)
    | Read(ino: Inode, pid: Pid)
    | OwnerDead(ino: Inode, pid: Pid)
    | Matched
    | Unguarding

  datatype World = World(lock: Option<LockFile>, guarded: bool, dead: set<Pid>, places: map<Actor, Place>)

  datatype Step =
    | Die(pid: Pid)
    | Create(actor: Actor, ino: Inode)
    | WritePid(actor: Actor)
    | Own(actor: Actor)
    | Fail(actor: Actor)
    | Finish(actor: Actor)
    | Unlink(actor: Actor)
    | Guard(actor: Actor)
    | Measure(actor: Actor)
    | ReadPid(actor: Actor)
    | FindDead(actor: Actor)
    | Match(actor: Actor)
    | Remove(actor: Actor)
    | GiveUp(actor: Actor)
    | Unguard(actor: Actor)

  function PlaceOf(world: World, actor: Actor): Place {
    if actor in world.places then world.places[actor] else Outside
  }

  predicate Live(world: World, actor: Actor) {
    actor.pid !in world.dead
  }

  /** The call created the lock file and has not given it up. */
  predicate Holding(place: Place) {
    place.Created? || place.Written? || place.Inside? || place.Leaving?
  }

  predicate Recovering(place: Place) {
    place.Guarded? || place.Measured? || place.Read? || place.OwnerDead? || place.Matched? || place.Unguarding?
  }

  /** A recovery that compares against this inode is under way. */
  predicate Remembers(place: Place, ino: Inode) {
    (place.Measured? || place.Read? || place.OwnerDead?) && place.ino == ino
  }

  predicate Remembered(world: World, ino: Inode) {
    exists actor :: actor in world.places && Remembers(world.places[actor], ino)
  }

  predicate Enabled(world: World, step: Step) {
    match step
    case Die(_) => true
    // `open(path, 'wx')`
    case Create(a, _) => Live(world, a) && PlaceOf(world, a).Outside? && world.lock.None?
    // through the handle of the file created; this is the file at the path while the call is live
    case WritePid(a) => Live(world, a) && PlaceOf(world, a).Created? && world.lock.Some?
    case Own(a) => Live(world, a) && PlaceOf(world, a).Written? && world.lock.Some?
    case Fail(a) => Live(world, a) && (PlaceOf(world, a).Created? || PlaceOf(world, a).Written?)
    case Finish(a) => Live(world, a) && PlaceOf(world, a).Inside?
    case Unlink(a) => Live(world, a) && PlaceOf(world, a).Leaving?
    case Guard(a) => Live(world, a) && PlaceOf(world, a).Outside? && !world.guarded
    case Measure(a) => Live(world, a) && PlaceOf(world, a).Guarded? && world.lock.Some?
    case ReadPid(a) =>
      Live(world, a) && PlaceOf(world, a).Measured? && world.lock.Some? && world.lock.value.pid.Some?
    case FindDead(a) => Live(world, a) && PlaceOf(world, a).Read? && PlaceOf(world, a).pid in world.dead
    case Match(a) =>
      Live(world, a) && PlaceOf(world, a).OwnerDead? && world.lock.Some?
      && world.lock.value.ino == PlaceOf(world, a).ino
    case Remove(a) => Live(world, a) && PlaceOf(world, a).Matched?
    // a missing file, an unwritten or living owner, another inode, or a failing call
    case GiveUp(a) => Live(world, a) && Recovering(PlaceOf(world, a))
    case Unguard(a) => Live(world, a) && PlaceOf(world, a).Unguarding?
  }

  function Move(world: World, actor: Actor, place: Place): World {
    world.(places := world.places[actor := place])
  }

  function After(world: World, step: Step): World
    requires Enabled(world, step)
  {
    match step
    case Die(pid) => world.(dead := world.dead + {pid})
    case Create(a, ino) => Move(world, a, Created(ino)).(lock := Some(LockFile(ino, None)))
    case WritePid(a) => Move(world, a, Written).(lock := Some(world.lock.value.(pid := Some(a.pid))))
    case Own(a) => Move(world, a, Inside(world.lock.value.ino))
    case Fail(a) => Move(world, a, Outside)
    case Finish(a) =>
      if world.lock.Some? && world.lock.value.ino == PlaceOf(world, a).ino then Move(world, a, Leaving)
      else Move(world, a, Outside)
    case Unlink(a) => Move(world, a, Outside).(lock := None)
    case Guard(a) => Move(world, a, Guarded).(guarded := true)
    case Measure(a) => Move(world, a, Measured(world.lock.value.ino))
    case ReadPid(a) => Move(world, a, Read(PlaceOf(world, a).ino, world.lock.value.pid.value))
    case FindDead(a) => Move(world, a, OwnerDead(PlaceOf(world, a).ino, PlaceOf(world, a).pid))
    case Match(a) => Move(world, a, Matched)
    case Remove(a) => Move(world, a, Unguarding).(lock := None)
    case GiveUp(a) => Move(world, a, Unguarding)
    case Unguard(a) => Move(world, a, Outside).(guarded := false)
  }

  const START: World := World(None, false, {}, map[])

  /** No file system reissues an inode number while a recovery compares against it. */
  predicate FreshInode(world: World, step: Step) {
    step.Create? ==> !Remembered(world, step.ino)
  }

  /** Where `steps` lead; `strict` runs obey `FreshInode`. */
  ghost function Run(steps: seq<Step>, strict: bool): Option<World>
    decreases |steps|
  {
    if steps == [] then Some(START)
    else
      var last := steps[|steps| - 1];
      match Run(steps[..|steps| - 1], strict)
      case None => None
      case Some(world) =>
        if Enabled(world, last) && (strict ==> FreshInode(world, last)) then Some(After(world, last)) else None
  }

  // ------------------------------------------------------------------- the invariant

  /** A live holder's file is the one at the path. */
  ghost predicate HolderInv(world: World, a: Actor) {
    Live(world, a) && Holding(PlaceOf(world, a)) ==>
      && world.lock.Some?
      && world.lock.value.pid == (if PlaceOf(world, a).Created? then None else Some(a.pid))
      && (PlaceOf(world, a).Created? || PlaceOf(world, a).Inside? ==> world.lock.value.ino == PlaceOf(world, a).ino)
  }

  /** What a recoverer remembers is still true of the file it measured. */
  ghost predicate RecoveryInv(world: World, a: Actor) {
    match PlaceOf(world, a)
    case Read(ino, pid) => world.lock.Some? && world.lock.value.ino == ino ==> world.lock.value.pid == Some(pid)
    case OwnerDead(ino, pid) =>
      pid in world.dead && (world.lock.Some? && world.lock.value.ino == ino ==> world.lock.value.pid == Some(pid))
    case Matched => world.lock.Some? && world.lock.value.pid.Some? && world.lock.value.pid.value in world.dead
    case _ => true
  }

  ghost predicate Inv(world: World) {
    && (forall a :: HolderInv(world, a) && RecoveryInv(world, a))
    && (forall a :: Recovering(PlaceOf(world, a)) ==> world.guarded)
    && (forall a, b :: Recovering(PlaceOf(world, a)) && Recovering(PlaceOf(world, b)) ==> a == b)
    && (forall a, b :: Live(world, a) && Live(world, b) && Holding(PlaceOf(world, a)) && Holding(PlaceOf(world, b)) ==> a == b)
  }

  /** One step moves one actor. */
  lemma OthersStay(world: World, step: Step)
    requires Enabled(world, step)
    ensures forall a :: step.Die? || a != step.actor ==> PlaceOf(After(world, step), a) == PlaceOf(world, a)
  {
  }

  lemma FilesKept(world: World, step: Step, a: Actor)
    requires Inv(world) && Enabled(world, step) && FreshInode(world, step)
    ensures HolderInv(After(world, step), a) && RecoveryInv(After(world, step), a)
  {
    HolderKept(world, step, a);
    RecoveryKept(world, step, a);
  }

  lemma HolderKept(world: World, step: Step, a: Actor)
    requires Inv(world) && Enabled(world, step) && FreshInode(world, step)
    ensures HolderInv(After(world, step), a)
  {
    assert HolderInv(world, a) && RecoveryInv(world, a);
    if step.Create? {
      assert a in world.places ==> !Remembers(world.places[a], step.ino);
    } else if !step.Die? {
      assert HolderInv(world, step.actor) && RecoveryInv(world, step.actor);
    }
  }

  lemma RecoveryKept(world: World, step: Step, a: Actor)
    requires Inv(world) && Enabled(world, step) && FreshInode(world, step)
    ensures RecoveryInv(After(world, step), a)
  {
    assert HolderInv(world, a) && RecoveryInv(world, a);
    if step.Create? {
      assert a in world.places ==> !Remembers(world.places[a], step.ino);
    } else if !step.Die? {
      assert HolderInv(world, step.actor) && RecoveryInv(world, step.actor);
    }
  }

  lemma InvKept(world: World, step: Step)
    requires Inv(world) && Enabled(world, step) && FreshInode(world, step)
    ensures Inv(After(world, step))
  {
    var later := After(world, step);
    OthersStay(world, step);
    forall a ensures HolderInv(later, a) && RecoveryInv(later, a) {
      FilesKept(world, step, a);
    }
    forall a | Recovering(PlaceOf(later, a)) ensures later.guarded {
      assert step.Guard? || Recovering(PlaceOf(world, a));
    }
    forall a, b | Recovering(PlaceOf(later, a)) && Recovering(PlaceOf(later, b)) ensures a == b {
      assert !step.Guard? ==> Recovering(PlaceOf(world, a)) && Recovering(PlaceOf(world, b));
    }
    forall a, b | Live(later, a) && Live(later, b) && Holding(PlaceOf(later, a)) && Holding(PlaceOf(later, b)) ensures a == b {
      if step.Create? {
        assert HolderInv(world, a) && HolderInv(world, b);
      } else {
        assert Holding(PlaceOf(world, a)) && Holding(PlaceOf(world, b));
      }
    }
  }

  lemma {:induction false} RunKeeps(steps: seq<Step>)
    requires Run(steps, true).Some?
    ensures Inv(Run(steps, true).value)
    decreases |steps|
  {
    if steps != [] {
      RunKeeps(steps[..|steps| - 1]);
      InvKept(Run(steps[..|steps| - 1], true).value, steps[|steps| - 1]);
    }
  }

  // ------------------------------------------------------------------- what it guarantees

  ghost predicate InBody(world: World, a: Actor) {
    Live(world, a) && PlaceOf(world, a).Inside?
  }

  /** At most one live call is inside the body, for any interleaving, deaths and recoveries included. */
  lemma MutualExclusion(steps: seq<Step>, a: Actor, b: Actor)
    requires Run(steps, true).Some?
    requires InBody(Run(steps, true).value, a) && InBody(Run(steps, true).value, b)
    ensures a == b
  {
    RunKeeps(steps);
  }

  /** A recovery removes only a lock whose recorded owner is dead, so never the lock of a live call. */
  lemma RecoveryRemovesOnlyTheDead(steps: seq<Step>, a: Actor)
    requires Run(steps, true).Some? && Enabled(Run(steps, true).value, Remove(a))
    ensures var world := Run(steps, true).value;
            && world.lock.Some? && world.lock.value.pid.Some? && world.lock.value.pid.value in world.dead
            && forall b :: Live(world, b) ==> !Holding(PlaceOf(world, b))
  {
    RunKeeps(steps);
    var world := Run(steps, true).value;
    assert RecoveryInv(world, a);
    forall b | Live(world, b) ensures !Holding(PlaceOf(world, b)) {
      assert HolderInv(world, b);
    }
  }

  /** A live call that is inside unlinks its own file. */
  lemma OwnerUnlinksItsOwn(steps: seq<Step>, a: Actor)
    requires Run(steps, true).Some? && InBody(Run(steps, true).value, a)
    ensures var world := Run(steps, true).value;
            && world.lock == Some(LockFile(PlaceOf(world, a).ino, Some(a.pid)))
            && After(world, Finish(a)) == Move(world, a, Leaving)
  {
    RunKeeps(steps);
    assert HolderInv(Run(steps, true).value, a);
  }

  // ------------------------------------------------------------------- without fresh inodes

  lemma Takes(world: World, steps: seq<Step>, step: Step) returns (next: World, longer: seq<Step>)
    requires Run(steps, false) == Some(world) && Enabled(world, step)
    ensures next == After(world, step) && Run(longer, false) == Some(next)
  {
    next, longer := After(world, step), steps + [step];
    assert longer[..|longer| - 1] == steps;
  }

  /** A call goes from outside into the body when no lock file exists. */
  lemma Enters(world: World, steps: seq<Step>, a: Actor, ino: Inode) returns (next: World, longer: seq<Step>)
    requires Run(steps, false) == Some(world)
    requires Live(world, a) && PlaceOf(world, a).Outside? && world.lock.None?
    ensures Run(longer, false) == Some(next)
    ensures next == Move(world, a, Inside(ino)).(lock := Some(LockFile(ino, Some(a.pid))))
  {
    next, longer := Takes(world, steps, Create(a, ino));
    next, longer := Takes(next, longer, WritePid(a));
    next, longer := Takes(next, longer, Own(a));
    assert next.places == world.places[a := Inside(ino)];
  }

  /** A call leaves the body, removes its file, and its process dies. */
  lemma LeavesAndDies(world: World, steps: seq<Step>, a: Actor) returns (next: World, longer: seq<Step>)
    requires Run(steps, false) == Some(world)
    requires InBody(world, a) && world.lock == Some(LockFile(PlaceOf(world, a).ino, Some(a.pid)))
    ensures Run(longer, false) == Some(next)
    ensures next == Move(world, a, Outside).(lock := None, dead := world.dead + {a.pid})
  {
    next, longer := Takes(world, steps, Finish(a));
    next, longer := Takes(next, longer, Unlink(a));
    assert next.places == world.places[a := Outside];
    next, longer := Takes(next, longer, Die(a.pid));
  }

  /** A recoverer starts on the present lock and reads its owner. */
  lemma ReadsOwner(world: World, steps: seq<Step>, r: Actor) returns (next: World, longer: seq<Step>)
    requires Run(steps, false) == Some(world)
    requires Live(world, r) && PlaceOf(world, r).Outside? && !world.guarded
    requires world.lock.Some? && world.lock.value.pid.Some?
    ensures Run(longer, false) == Some(next)
    ensures next == Move(world, r, Read(world.lock.value.ino, world.lock.value.pid.value)).(guarded := true)
  {
    next, longer := Takes(world, steps, Guard(r));
    next, longer := Takes(next, longer, Measure(r));
    next, longer := Takes(next, longer, ReadPid(r));
    assert next.places == world.places[r := Read(world.lock.value.ino, world.lock.value.pid.value)];
  }

  /** And goes on to remove whatever now carries the same inode number. */
  lemma RemovesByInode(world: World, steps: seq<Step>, r: Actor) returns (next: World, longer: seq<Step>)
    requires Run(steps, false) == Some(world) && Live(world, r) && PlaceOf(world, r).Read?
    requires PlaceOf(world, r).pid in world.dead
    requires world.lock.Some? && world.lock.value.ino == PlaceOf(world, r).ino
    ensures Run(longer, false) == Some(next)
    ensures next == Move(world, r, Unguarding).(lock := None)
  {
    next, longer := Takes(world, steps, FindDead(r));
    next, longer := Takes(next, longer, Match(r));
    next, longer := Takes(next, longer, Remove(r));
    assert next.places == world.places[r := Unguarding];
  }

  /**
   * The freshness assumption is needed. If the file system reissues the dead owner's inode number
   * while a recovery is between reading the owner and comparing inodes, two live calls end up inside.
   */
  lemma ReusedInodeAdmitsTwo()
    ensures exists steps, a, b ::
              && a != b && Run(steps, false).Some?
              && InBody(Run(steps, false).value, a) && InBody(Run(steps, false).value, b)
  {
    var first, second, third, recoverer := Actor(1, 0), Actor(2, 0), Actor(3, 0), Actor(4, 0);
    var world, steps := Enters(START, [], first, 7);
    world, steps := ReadsOwner(world, steps, recoverer);
    world, steps := LeavesAndDies(world, steps, first);
    world, steps := Enters(world, steps, second, 7);
    world, steps := RemovesByInode(world, steps, recoverer);
    world, steps := Enters(world, steps, third, 8);
    assert InBody(world, second) && InBody(world, third);
  }
}
