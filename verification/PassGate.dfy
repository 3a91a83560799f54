/** The daemon's guard that keeps recovery passes from overlapping; `CommandRecovery` relies on it. */
module PassGate {
  import opened Options

  type Pass = nat

  /** `finally` runs some time after the pass it belongs to has ended. */
  class Gate {
    var current: Option<Pass>
    var started: nat
    ghost var running: set<Pass>
    ghost var ended: set<Pass>

    ghost predicate Valid()
      reads this
    {
      && (forall pass :: pass in running ==> current == Some(pass))
      && (current.Some? ==> current.value in running || current.value in ended)
      && (forall pass :: pass in running || pass in ended ==> pass < started)
      && running !! ended
    }

    constructor ()
      ensures Valid() && running == {} && current.None?
    {
      current, started, running, ended := None, 0, {}, {};
    }

    /** Joins the pass in flight, or starts one when none is running. */
    method Run() returns (pass: Pass)
      requires Valid()
      modifies this
      ensures Valid() && current == Some(pass)
      ensures old(current).Some? ==> pass == old(current).value && running == old(running) && started == old(started)
      ensures old(current).None? ==> old(running) == {} && running == {pass} && pass == old(started)
    {
      if current.Some? {
        return current.value;
      }
      pass := started;
      current, started, running := Some(pass), started + 1, {pass};
    }

    /** The pass settles. */
    method End(pass: Pass)
      requires Valid() && pass in running
      modifies this
      ensures Valid() && running == {} && pass in ended && current == old(current)
    {
      running, ended := running - {pass}, ended + {pass};
    }

    /** Its `finally` lets the next one start, unless a later pass is already in flight. */
    method Finally(pass: Pass)
      requires Valid() && pass in ended
      modifies this
      ensures Valid() && running == old(running)
      ensures current == if old(current) == Some(pass) then None else old(current)
    {
      if current == Some(pass) {
        current := None;
      }
    }
  }

  /** At any moment at most one pass is running. */
  lemma PassesNeverOverlap(gate: Gate, one: Pass, other: Pass)
    requires gate.Valid() && one in gate.running && other in gate.running
    ensures one == other
  {
    assert gate.current == Some(one);
  }
}
