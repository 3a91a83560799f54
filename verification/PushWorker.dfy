/**
 * The service worker's handlers as it runs them. At each `await` everybody else may move; `Valid` says
 * that the whole is a run of `PushOwner`.
 */
module PushWorker {
  import opened Options
  import opened PushOwner

  datatype WriteEnd = Superseded | Stored | WriteFailed

  datatype PushEnd = NotAdmitted | Through | Rejected

  class ServiceWorker {
    var worker: Worker
    ghost var steps: seq<Step>
    const start: Worker
    /** How many steps other handlers took while this one awaited something. */
    ghost var others: nat

    /** No other handler moved. */
    twostate predicate Alone()
      reads this
    {
      others == old(others)
    }

    ghost predicate Valid()
      reads this
    {
      && start == Started(start.cache, start.tray, start.nextId) && Earlier(start.tray, start.nextId)
      && Run(start, steps) == Some(worker)
    }

    constructor (cache: Option<User>, tray: set<Note>, nextId: nat)
      requires Earlier(tray, nextId)
      ensures Valid() && worker == Started(cache, tray, nextId)
    {
      start, worker, steps, others := Started(cache, tray, nextId), Started(cache, tray, nextId), [], 0;
    }

    method Take(step: Step)
      requires Valid() && Enabled(worker, step)
      modifies this
      ensures Valid() && worker == After(old(worker), step) && others == old(others)
    {
      OneMore(start, steps, worker, step);
      worker := After(worker, step);
      steps := steps + [step];
    }

    /** A step taken neither by this job nor, when there is none, by the chain of writes. */
    static predicate Foreign(step: Step, job: Option<nat>) {
      match step
      case Message(_) => true
      case Read => true
      case Admit(_, _, _) => true
      case Dismiss(_) => true
      case WriteChecks => job.Some?
      case WriteOpens => job.Some?
      case WriteLands => job.Some?
      case WriteFails => job.Some?
      case _ => job != Some(step.job)
    }

    /** Other handlers run while `job`, or the head of the chain of writes, awaits something. */
    method Interfere(job: Option<nat>)
      requires Valid() && (job.Some? ==> job.value < worker.nextId)
      modifies this
      ensures Valid() && Later(old(worker), worker, job)
      ensures old(others) <= others && (Alone() ==> worker == old(worker))
    {
      var moves :| 0 <= moves;
      for i := 0 to moves
        invariant Valid() && (job.Some? ==> job.value < worker.nextId) && Later(old(worker), worker, job)
        invariant old(others) <= others && (Alone() ==> worker == old(worker))
      {
        var step: Step := *;
        if Enabled(worker, step) && Foreign(step, job) {
          ghost var before := worker;
          Take(step);
          ForeignIsLater(before, step, job);
          others := others + 1;
        }
      }
    }

    /** `message`: from here on the owner is this user; the write and the cleanup have still to run. */
    method OnMessage(user: Option<User>) returns (cleanup: nat)
      requires Valid()
      modifies this
      ensures Valid() && worker == After(old(worker), Message(user)) && cleanup == old(worker).nextId
    {
      cleanup := worker.nextId;
      Take(Message(user));
    }

    /** `storePushOwner`, from where the writes before it are over. */
    method StorePushOwner() returns (end: WriteEnd)
      requires Valid() && worker.queue != [] && worker.queue[0].stage == Queued
      modifies this
      ensures Valid()
      ensures var head := old(worker).queue[0];
              && (end == Superseded ==> worker.generation > head.generation)
              && (end == Stored ==> worker.cache == head.user && worker.cachedBy == head.generation)
              && (end == WriteFailed ==> worker.generation > head.generation || worker.lost)
              && (Alone() ==> (end == Superseded <==> old(worker).generation > head.generation))
      ensures old(others) <= others
    {
      assert worker.queue[0].generation <= worker.generation by { RunKeeps(start, steps); }
      ghost var head := worker.queue[0];
      if worker.queue[0].generation != worker.generation {
        Take(WriteChecks);
        return Superseded;
      }
      Take(WriteChecks);
      Interfere(None);
      var opens: bool := *;
      if !opens {
        assert worker.queue[0].generation <= worker.generation by { RunKeeps(start, steps); }
        Take(WriteFails);
        return WriteFailed;
      }
      if worker.queue[0].generation != worker.generation {
        assert worker.queue[0].generation <= worker.generation by { RunKeeps(start, steps); }
        Take(WriteOpens);
        return Superseded;
      }
      Take(WriteOpens);
      Interfere(None);
      var put: bool := *;
      if put {
        Take(WriteLands);
        return Stored;
      }
      assert worker.queue[0].generation <= worker.generation by { RunKeeps(start, steps); }
      Take(WriteFails);
      return WriteFailed;
    }

    /**
     * `currentPushOwner`: what it answers is the owner in memory, and after any message the latest one. With
     * nobody else about it learns the owner from the cache, if that could be read.
     */
    method CurrentPushOwner() returns (user: Option<User>, ghost read: bool)
      requires Valid()
      modifies this
      ensures Valid() && worker.owner == Some(user)
      ensures worker.generation > 0 ==> user == worker.latest
      ensures old(others) <= others
      ensures Alone() ==>
                && user == (if old(worker).owner.Some? then old(worker).owner.value else if read then old(worker).cache else None)
                && worker == old(worker).(owner := Some(user), nextId := worker.nextId, jobs := worker.jobs)
    {
      read := true;
      if worker.owner.None? {
        var job := worker.nextId;
        Take(Read);
        Interfere(Some(job));
        var ok: bool := *;
        read := ok;
        Take(Fetch(job, ok));
        Interfere(Some(job));
        assert OwnerInv(worker) && BeganBlank(worker.jobs[job]) by { RunKeeps(start, steps); }
        Take(Remember(job));
      }
      assert OwnerInv(worker) by { RunKeeps(start, steps); }
      user := worker.owner.value;
    }

    /** `closeNotificationsForOtherOwners`: unless it is rejected, what was up before it and is not the owner's is gone. */
    method CloseNotificationsForOtherOwners(job: nat) returns (ok: bool)
      requires Valid() && job in worker.jobs && worker.jobs[job] == Cleaning && job < worker.nextId
      modifies this
      ensures Valid() && job !in worker.jobs
      ensures ok ==> forall n :: n in worker.tray && n.id < old(worker).nextId ==> worker.owner == Some(Some(n.recipient))
      ensures !ok ==> worker.tray <= worker.unswept
      ensures ok && Alone() ==> worker.tray == set n | n in old(worker).tray && old(worker).owner == Some(Some(n.recipient))
    {
      Interfere(Some(job));
      ok := *;
      if !ok {
        Take(Reject(job));
        return;
      }
      Take(LookAll(job));
      Interfere(Some(job));
      Take(Sweep(job));
    }

    /** `closeNotificationsWithTag`, then another notification or the end, unless it is rejected. */
    method CloseNotificationsWithTag(job: nat) returns (ok: bool)
      requires Valid() && job in worker.jobs && worker.jobs[job].ClosingTag? && job < worker.nextId
      modifies this
      ensures Valid() && old(worker).nextId <= worker.nextId
      ensures !ok ==> job in worker.rejected
      ensures ok ==>
              var ClosingTag(tag, recipient, shows) := old(worker).jobs[job];
              && (forall n :: n in worker.tray && n.id < old(worker).nextId ==> n.tag != tag || n.recipient != recipient)
              && (if shows then job in worker.jobs && worker.jobs[job] == Showing(tag, recipient, TakeDown)
                  else job !in worker.jobs)
              && (Alone() ==>
                    && worker.tray == (set n | n in old(worker).tray && (n.tag != tag || n.recipient != recipient))
                    && worker.owner == old(worker).owner)
      ensures old(others) <= others
    {
      ok := *;
      if !ok {
        Take(Reject(job));
        return;
      }
      Take(LookByTag(job));
      Interfere(Some(job));
      Take(CloseSeen(job));
    }

    /**
     * `push` from its first look at the owner. Nothing is shown to anybody but the owner of that moment,
     * and when the handler is through its notification is down again unless its recipient is the owner
     * then, whatever became of other handlers.
     */
    method OnPush(recipient: User, tag: nat, cancel: bool) returns (end: PushEnd, job: nat, id: nat)
      requires Valid()
      modifies this
      ensures Valid()
      ensures end.Through? ==>
                forall n :: n in worker.tray && n.id == id && n.tag == tag && n.recipient == recipient ==>
                  !cancel && worker.owner == Some(Some(recipient))
      ensures end.Rejected? ==> job in worker.rejected
      ensures Alone() && old(worker).owner.Some? ==>
                && (end.NotAdmitted? <==> old(worker).owner != Some(Some(recipient)))
                && (end.NotAdmitted? ==> worker.tray == old(worker).tray)
                && (end.Through? ==>
                      worker.tray == (set n | n in old(worker).tray && n.tag != tag)
                                     + if cancel then {} else {Note(id, tag, recipient, job)})
    {
      job, id := 0, 0;
      ghost var read;
      var user;
      user, read := CurrentPushOwner();
      if user != Some(recipient) {
        return NotAdmitted, job, id;
      }
      job := worker.nextId;
      Take(Admit(recipient, tag, cancel));
      var ok := Prepare(recipient, tag, cancel, job);
      if !ok {
        return PushEnd.Rejected, job, id;
      }
      ok, id := Show(job);
      if !ok {
        return PushEnd.Rejected, job, id;
      }
      ok := Conclude(recipient, tag, cancel, job, id);
      end := if ok then Through else PushEnd.Rejected;
    }

    /** Up to where the notification is shown: a cancellation first closes those with its tag. */
    method Prepare(recipient: User, tag: nat, cancel: bool, job: nat) returns (ok: bool)
      requires Valid() && job in worker.jobs && job < worker.nextId
      requires worker.jobs[job] == if cancel then ClosingTag(tag, recipient, true) else Showing(tag, recipient, Check)
      modifies this
      ensures Valid() && old(others) <= others && job < worker.nextId
      ensures !ok ==> job in worker.rejected
      ensures ok ==>
                job in worker.jobs && worker.jobs[job] == Showing(tag, recipient, if cancel then TakeDown else Check)
      ensures ok && Alone() ==>
                && worker.owner == old(worker).owner
                && worker.tray == if cancel then set n | n in old(worker).tray && (n.tag != tag || n.recipient != recipient)
                                  else old(worker).tray
    {
      ok := true;
      Interfere(Some(job));
      if cancel {
        ok := CloseNotificationsWithTag(job);
        if ok {
          Interfere(Some(job));
        }
      }
    }

    /** From where the notification is up: the second look at the owner, or the end of a cancelled one. */
    method Conclude(recipient: User, tag: nat, cancel: bool, job: nat, ghost id: nat) returns (ok: bool)
      requires Valid() && job in worker.jobs && job < worker.nextId && id < worker.nextId
      requires worker.jobs[job] == if cancel then ClosingTag(tag, recipient, false) else Shown(tag, recipient)
      modifies this
      ensures Valid() && old(others) <= others
      ensures !ok ==> job in worker.rejected
      ensures ok ==>
                forall n :: n in worker.tray && n.id == id && n.tag == tag && n.recipient == recipient ==>
                  !cancel && worker.owner == Some(Some(recipient))
      ensures ok && Alone() ==>
                worker.tray == if !cancel && old(worker).owner == Some(Some(recipient)) then old(worker).tray
                               else set n | n in old(worker).tray && (n.tag != tag || n.recipient != recipient)
    {
      ok := true;
      Interfere(Some(job));
      if !cancel {
        Take(Recheck(job));
      }
      if job in worker.jobs {
        ok := CloseNotificationsWithTag(job);
      }
    }

    /** The notification goes up, if the handler is rejected meanwhile then too. */
    method Show(job: nat) returns (ok: bool, id: nat)
      requires Valid() && job in worker.jobs && worker.jobs[job].Showing? && worker.jobs[job].next != Nothing
      requires job < worker.nextId
      modifies this
      ensures Valid() && id < worker.nextId && job < worker.nextId
      ensures !ok ==> job in worker.rejected
      ensures ok ==>
                var Showing(tag, recipient, next) := old(worker).jobs[job];
                && job in worker.jobs
                && worker.jobs[job] == (if next == Check then Shown(tag, recipient) else ClosingTag(tag, recipient, false))
                && (Alone() ==>
                      && worker.owner == old(worker).owner
                      && worker.tray == (set n | n in old(worker).tray && n.tag != tag) + {Note(id, tag, recipient, job)})
      ensures old(others) <= others
    {
      ok := *;
      if !ok {
        Take(Reject(job));
        Interfere(Some(job));
      }
      id := worker.nextId;
      Take(ShowLands(job));
    }
  }

  /** What others leave of a waiting job, or of the chain of writes. */
  predicate Later(before: Worker, after: Worker, job: Option<nat>) {
    && before.nextId <= after.nextId
    && (job.None? ==> before.queue <= after.queue)
    && (job.Some? && job.value in before.jobs ==>
          job.value in after.jobs && after.jobs[job.value] == before.jobs[job.value])
    && (forall n :: n in after.tray && n.id < before.nextId ==> n in before.tray)
    && before.generation <= after.generation
    && before.rejected <= after.rejected && before.unswept <= after.unswept
  }

  lemma ForeignIsLater(worker: Worker, step: Step, job: Option<nat>)
    requires Enabled(worker, step) && ServiceWorker.Foreign(step, job)
    requires job.Some? ==> job.value < worker.nextId
    ensures Later(worker, After(worker, step), job)
  {
  }
}
