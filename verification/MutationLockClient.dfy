/**
 * `mutate` and `recoverMutationLock` as one caller runs them, with every other actor free to move
 * between any two of its filesystem calls and any process free to die.
 */
module MutationLockClient {
  import opened Options
  import opened MutationLock

  const ATTEMPTS: nat := 100

  /** `Busy` is the error after the last attempt; `Died` is no return at all. */
  datatype Mutation = Ran | Busy | Failed | Died

  predicate MovedBy(step: Step, a: Actor) {
    match step
    case Die(_) => false
    case _ => step.actor == a
  }

  /** At that moment of the run the call was inside the body, and no other live call was. */
  ghost predicate AloneInsideAt(steps: seq<Step>, moment: nat, a: Actor) {
    && moment <= |steps| && Run(steps[..moment], true).Some?
    && var world := Run(steps[..moment], true).value;
       InBody(world, a) && forall b :: InBody(world, b) ==> b == a
  }

  /** The lock stands, and no recovery can remove it: another recovery is under way, or its owner is not known dead. */
  predicate Stuck(world: World) {
    && world.lock.Some?
    && (world.guarded || world.lock.value.pid.None? || world.lock.value.pid.value !in world.dead)
  }

  lemma StillWasInside(steps: seq<Step>, later: seq<Step>, moment: nat, a: Actor)
    requires AloneInsideAt(steps, moment, a) && steps <= later
    ensures AloneInsideAt(later, moment, a)
  {
    assert later[..moment] == steps[..moment];
  }

  class Directory {
    var world: World
    ghost var steps: seq<Step>
    /** How many steps others took between this call's. */
    ghost var others: nat

    /** Nobody else moved and no process died. */
    twostate predicate Alone()
      reads this
    {
      others == old(others)
    }

    ghost predicate Valid()
      reads this
    {
      Run(steps, true) == Some(world)
    }

    constructor ()
      ensures Valid() && world == START
    {
      world, steps, others := START, [], 0;
    }

    method Take(step: Step)
      requires Valid() && Enabled(world, step) && FreshInode(world, step)
      modifies this
      ensures Valid() && world == After(old(world), step) && steps == old(steps) + [step] && others == old(others)
    {
      world := After(world, step);
      steps := steps + [step];
      assert steps[..|steps| - 1] == old(steps);
    }

    /** Everybody but `a` moves any number of times. */
    method Interfere(a: Actor) returns (alive: bool)
      requires Valid()
      modifies this
      ensures Valid() && PlaceOf(world, a) == PlaceOf(old(world), a) && old(steps) <= steps
      ensures old(others) <= others && (Alone() ==> world == old(world))
      ensures alive <==> Live(world, a)
    {
      var moves :| 0 <= moves;
      for i := 0 to moves
        invariant Valid() && PlaceOf(world, a) == PlaceOf(old(world), a) && old(steps) <= steps
        invariant old(others) <= others && (Alone() ==> world == old(world))
      {
        var step: Step := *;
        if Enabled(world, step) && FreshInode(world, step) && !MovedBy(step, a) {
          Take(step);
          others := others + 1;
        }
      }
      alive := Live(world, a);
    }

    /** One call of `a` and the wait for its answer. */
    method Await(step: Step, a: Actor) returns (alive: bool)
      requires Valid() && Enabled(world, step) && FreshInode(world, step)
      modifies this
      ensures Valid() && old(steps) <= steps
      ensures PlaceOf(world, a) == PlaceOf(After(old(world), step), a)
      ensures old(others) <= others && (Alone() ==> world == After(old(world), step))
      ensures alive <==> Live(world, a)
    {
      Take(step);
      alive := Interfere(a);
    }

    /**
     * `recoverMutationLock`: whatever happens, the caller ends outside, or dead. With nobody else about, the
     * lock is gone exactly if its recorded owner is dead and no other recovery is under way.
     */
    method Recover(a: Actor) returns (alive: bool)
      requires Valid() && Live(world, a) && PlaceOf(world, a).Outside?
      modifies this
      ensures Valid() && (alive ==> Live(world, a) && PlaceOf(world, a).Outside?) && old(steps) <= steps
      ensures !alive ==> !Live(world, a)
      ensures old(others) <= others
      ensures Alone() ==>
                && alive && world.guarded == old(world).guarded && world.dead == old(world).dead
                && world.lock == if Stuck(old(world)) then old(world).lock else None
    {
      if world.guarded {
        return true;
      }
      Take(Guard(a));
      alive := Interfere(a);
      if !alive {
        return;
      }
      var removed;
      alive, removed := RemoveIfDead(a);
      if !alive {
        return;
      }
      if !removed {
        Take(GiveUp(a));
      }
      Take(Unguard(a));
    }

    method RemoveIfDead(a: Actor) returns (alive: bool, removed: bool)
      requires Valid() && Live(world, a) && PlaceOf(world, a).Guarded?
      modifies this
      ensures Valid() && (alive <==> Live(world, a)) && old(steps) <= steps
      ensures alive ==> Recovering(PlaceOf(world, a)) && (removed ==> PlaceOf(world, a).Unguarding?)
      ensures old(others) <= others
      ensures Alone() ==>
                && alive && world.dead == old(world).dead && world.guarded == old(world).guarded
                && (removed <==> old(world).lock.Some? && !Stuck(old(world).(guarded := false)))
                && world.lock == if removed then None else old(world).lock
    {
      if world.lock.None? {
        return true, false;
      }
      alive := Await(Measure(a), a);
      if !alive || world.lock.None? || world.lock.value.pid.None? {
        return alive, false;
      }
      alive, removed := RemoveMeasured(a);
    }

    /** From where the lock was measured and names an owner. */
    method RemoveMeasured(a: Actor) returns (alive: bool, removed: bool)
      requires Valid() && Live(world, a) && PlaceOf(world, a).Measured?
      requires world.lock.Some? && world.lock.value.pid.Some?
      modifies this
      ensures Valid() && (alive <==> Live(world, a)) && old(steps) <= steps
      ensures alive ==> Recovering(PlaceOf(world, a)) && (removed ==> PlaceOf(world, a).Unguarding?)
      ensures old(others) <= others
      ensures Alone() && old(world).lock.value.ino == PlaceOf(old(world), a).ino ==>
                && alive && world.dead == old(world).dead && world.guarded == old(world).guarded
                && (removed <==> old(world).lock.value.pid.value in old(world).dead)
                && world.lock == if removed then None else old(world).lock
    {
      alive := Await(ReadPid(a), a);
      if !alive || PlaceOf(world, a).pid !in world.dead {
        return alive, false;
      }
      alive := Await(FindDead(a), a);
      if !alive || world.lock.None? || world.lock.value.ino != PlaceOf(world, a).ino {
        return alive, false;
      }
      alive := Await(Match(a), a);
      if !alive {
        return false, false;
      }
      Take(Remove(a));
      return true, true;
    }

    /** With the lock file created: write, own, run the body alone, and unlink. */
    method RunHolding(a: Actor) returns (end: Mutation, ghost inside: nat)
      requires Valid() && Live(world, a) && PlaceOf(world, a).Created?
      modifies this
      ensures Valid() && !end.Busy? && old(steps) <= steps
      ensures end.Ran? ==> |old(steps)| <= inside && AloneInsideAt(steps, inside, a)
      ensures !end.Died? ==> Live(world, a) && PlaceOf(world, a).Outside?
      ensures end.Died? ==> !Live(world, a)
      ensures old(others) <= others && (Alone() ==> !end.Died? && (end.Ran? ==> world.lock.None?))
    {
      inside := 0;
      var alive := Interfere(a);
      if !alive {
        return Died, inside;
      }
      var fails: bool := *;
      if fails {
        Take(Fail(a));
        return Failed, inside;
      }
      assert world.lock.Some? by { RunKeeps(steps); assert HolderInv(world, a); }
      Take(WritePid(a));
      alive := Interfere(a);
      if !alive {
        return Died, inside;
      }
      assert world.lock.Some? by { RunKeeps(steps); assert HolderInv(world, a); }
      Take(Own(a));
      alive := Interfere(a);
      if !alive {
        return Died, inside;
      }
      // The body runs here.
      inside := |steps|;
      end := Leave(a);
    }

    /** From inside the body: the path still holds this call's file, and it is unlinked. */
    method Leave(a: Actor) returns (end: Mutation)
      requires Valid() && InBody(world, a)
      modifies this
      ensures Valid() && (end.Ran? || end.Died?) && old(steps) <= steps
      ensures AloneInsideAt(steps, |old(steps)|, a)
      ensures end.Ran? ==> Live(world, a) && PlaceOf(world, a).Outside?
      ensures end.Died? ==> !Live(world, a)
      ensures old(others) <= others && (Alone() ==> end.Ran? && world.lock.None?)
    {
      assert AloneInsideAt(steps, |steps|, a) by {
        assert steps[..|steps|] == steps;
        RunKeeps(steps);
      }
      ghost var before := steps;
      OwnerUnlinksItsOwn(steps, a);
      Take(Finish(a));
      var alive := Interfere(a);
      StillWasInside(before, steps, |before|, a);
      if !alive {
        return Died;
      }
      Take(Unlink(a));
      StillWasInside(before, steps, |before|, a);
      return Ran;
    }

    /**
     * `mutate`, with the body left to the caller: if it returns normally, the body ran alone. With nobody
     * else about it gives up exactly for a lock no recovery can remove; otherwise the body runs, or the
     * call fails before it, and afterwards the lock is free.
     */
    method Mutate(a: Actor) returns (end: Mutation, ghost inside: nat)
      requires Valid() && Live(world, a) && PlaceOf(world, a).Outside?
      modifies this
      ensures Valid() && old(steps) <= steps
      ensures end.Ran? ==> |old(steps)| <= inside && AloneInsideAt(steps, inside, a)
      ensures !end.Died? ==> Live(world, a) && PlaceOf(world, a).Outside?
      ensures end.Died? ==> !Live(world, a)
      ensures Alone() ==>
                && !end.Died? && (end.Busy? <==> Stuck(old(world)))
                && (end.Ran? ==> world.lock.None?) && (end.Busy? ==> world.lock == old(world).lock)
    {
      inside := 0;
      for attempt := 0 to ATTEMPTS
        invariant Valid() && Live(world, a) && PlaceOf(world, a).Outside? && old(steps) <= steps
        invariant old(others) <= others
        invariant Alone() ==>
                    && world.dead == old(world).dead && world.guarded == old(world).guarded
                    && world.lock == (if attempt == 0 || Stuck(old(world)) then old(world).lock else None)
                    && (attempt > 1 ==> Stuck(old(world)))
      {
        var alive := Interfere(a);
        if !alive {
          return Died, inside;
        }
        if world.lock.None? {
          assert !Remembered(world, 0) || !Remembered(world, 1) by { RunKeeps(steps); OneIsFresh(world); }
          var ino :| 0 <= ino && !Remembered(world, ino);
          Take(Create(a, ino));
          end, inside := RunHolding(a);
          return;
        }
        alive := Recover(a);
        if !alive {
          return Died, inside;
        }
      }
      return Busy, inside;
    }
  }

  /** At most one recovery is under way, so it remembers at most one inode. */
  lemma OneIsFresh(world: World)
    requires Inv(world)
    ensures !Remembered(world, 0) || !Remembered(world, 1)
  {
    if Remembered(world, 0) && Remembered(world, 1) {
      var a :| a in world.places && Remembers(world.places[a], 0);
      var b :| b in world.places && Remembers(world.places[b], 1);
      assert Recovering(PlaceOf(world, a)) && Recovering(PlaceOf(world, b));
    }
  }
}
